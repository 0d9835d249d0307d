/** What a decoder that has stopped anywhere in a stream will still produce: the meaning of its
    state, and how each kind of step keeps that meaning. */
module DecoderText {
  import opened Bytes
  import opened BitStrings
  import opened CrcRegister
  import opened BlockChecksum
  import opened BlockFormat
  import opened StreamFormat
  import opened DecoderOutcome
  import opened DecoderSteps
  import opened DecoderRuns
  import opened TextOutput
  import MF = MoveToFront

  /** Reading bits, giving out the text of a block, at the end of the stream, or having refused it, with
      this much of the text not told. */
  datatype Stage =
    | Reading(p: Parser, st: MF.State)
    | Giving(level: nat, stored: nat, randomised: bool, crc: Word, due: Rest)
    | Over
    | Broken(text: seq<int>, fault: Fault)

  ghost predicate StageOk(s: Stage) {
    s.Reading? ==> Ok(s.p) && StOk(s.st)
  }

  /** The rest of a block's text, its checksum, and the rest of the stream. */
  ghost function AfterText(level: nat, stored: nat, randomised: bool, crc: Word, due: Rest, combined: Word,
                           bs: seq<bool>): (r: Outcome) {
    if due.cut || !IsBytes(due.bytes) then Refused(due.bytes, Cut(randomised))
    else
      var sum := Xor(UpdateAll(crc, due.bytes), Ones());
      if FromBits(sum) == stored then Told(due.bytes, Yield(bs, level, Combine(combined, sum)))
      else Refused(due.bytes, Wrong)
  }

  ghost function AfterEvent(e: Parse<Event>, combined: Word): (r: Outcome) {
    match e
    case Done(BlockReady(level, d), rest) => AfterText(level, d.crc, d.randomised, Ones(), RestOf(d), combined, rest)
    case Done(Trailer(_, crc), rest) => if crc == FromBits(combined) then Ended([], rest) else Refused([], Wrong)
    case NeedInput => Hungry([])
    case Bad => Refused([], Wrong)
  }

  /** What is still to come, when bs are the bits not yet read. */
  ghost function Ahead(s: Stage, combined: Word, bs: seq<bool>): (r: Outcome)
    requires StageOk(s)
  {
    match s
    case Reading(p, st) => AfterEvent(DecoderSteps.Run(p, st, bs), combined)
    case Giving(level, stored, randomised, crc, due) => AfterText(level, stored, randomised, crc, due, combined, bs)
    case Over => Ended([], bs)
    case Broken(text, fault) => Refused(text, fault)
  }

  // ----- the start of a stream, and between blocks

  lemma BetweenBlocks(bs: seq<bool>, level: nat, st: MF.State, combined: Word)
    requires StOk(st)
    ensures Ahead(Reading(BlockHead(level, 0), st), combined, bs) == Yield(bs, level, combined)
  {
    hide DecoderSteps.Run, GetBits, GetBlock, Expect, Checksum, UpdateAll, FromBits, Combine, Told, RestOf, Yield;
    RunEvent(level, st, bs);
    EventIs(bs, level, combined);
  }

  lemma EventIs(bs: seq<bool>, level: nat, combined: Word)
    ensures AfterEvent(GetEvent(bs, level), combined) == Yield(bs, level, combined)
  {
    hide GetBits, GetBlock, Expect, RestOf, FromBits, Combine, MagicTail, UpdateAll;
    NeedsOnly(bs, 8);
  }

  lemma NeedsOnly(bs: seq<bool>, n: nat)
    ensures !GetBits(bs, n).Bad?
  {
  }

  lemma MagicRuns(k: nat, st: MF.State, bs: seq<bool>, magic: seq<int>)
    requires k < 3 && StOk(st) && magic == [0x42, 0x5a, 0x68]
    ensures var r := Expect(bs, magic[k..]);
            DecoderSteps.Run(Magic(k), st, bs) == if r.Done? then DecoderSteps.Run(Level, st, r.rest) else Failed(r)
    decreases 3 - k
  {
    hide DecoderSteps.Run, RunHead, GetBits, Expect;
    RunPlace(Magic(k), st, bs);
    ExpectStep(bs, magic[k..]);
    assert magic[k..][1..] == magic[k + 1..];
    var r := GetBits(bs, 8);
    if r.Done? {
      RunFail(st, r.rest);
      if k < 2 {
        RunGo(Magic(k + 1), st, r.rest);
        MagicRuns(k + 1, st, r.rest, magic);
      } else {
        assert magic[3..] == [];
        ExpectStep(r.rest, [0]);
        RunGo(Level, st, r.rest);
      }
    }
  }

  lemma YieldStreamIs(bs: seq<bool>)
    ensures var r := Expect(bs, [0x42, 0x5a, 0x68]);
            YieldStream(bs) == if r.Done? then AfterMagic(r.rest) else Stopped(r)
  {
    hide Expect, GetBits, Yield;
  }

  ghost function AfterMagic(bs: seq<bool>): (r: Outcome) {
    var v := GetBits(bs, 8);
    if !v.Done? then Stopped(v)
    else if 0x31 <= v.value <= 0x39 then Yield(v.rest, v.value - 0x30, Zero(32)) else Refused([], Wrong)
  }

  lemma PlaceLevel(st: MF.State)
    requires StOk(st)
    ensures Ok(Level) && Need(Level) == 8
  {
  }

  lemma NextOfLevel(v: nat)
    ensures NextHead(Level, v) == if 0x31 <= v <= 0x39 then Go(BlockHead(v - 0x30, 0)) else Fail
    ensures 0x31 <= v ==> Ok(BlockHead(v - 0x30, 0))
  {
  }

  lemma LevelRuns(bs: seq<bool>, st: MF.State)
    requires StOk(st)
    ensures AfterEvent(DecoderSteps.Run(Level, st, bs), Zero(32)) == AfterMagic(bs)
  {
    hide DecoderSteps.Run, RunHead, GetBits, Expect, Yield, FromBits, AfterText, RestOf, NextHead, Ok, Need,
         FreshState;
    PlaceLevel(st);
    RunPlace(Level, st, bs);
    var v := GetBits(bs, 8);
    if v.Done? {
      RunFail(st, v.rest);
      NextOfLevel(v.value);
      if 0x31 <= v.value <= 0x39 {
        RunGo(BlockHead(v.value - 0x30, 0), st, v.rest);
        BetweenBlocks(v.rest, v.value - 0x30, st, Zero(32));
      }
    }
  }

  /** A decoder at the start of a stream will produce what the stream decodes to. */
  lemma StartOfStream(bs: seq<bool>, st: MF.State)
    requires StOk(st)
    ensures Ahead(Reading(Magic(0), st), Zero(32), bs) == YieldStream(bs)
  {
    hide DecoderSteps.Run, Expect, AfterMagic, YieldStream;
    var magic: seq<int> := [0x42, 0x5a, 0x68];
    assert magic[0..] == magic;
    MagicRuns(0, st, bs, magic);
    YieldStreamIs(bs);
    var r := Expect(bs, magic);
    if r.Done? { LevelRuns(r.rest, st); }
  }

  // ----- steps

  /** Where a move leads. */
  ghost function Entered(m: Moved, combined: Word): (s: Stage) {
    match m.m
    case Go(p) => Reading(p, m.st)
    case Stop(BlockReady(level, d)) => Giving(level, d.crc, d.randomised, Ones(), RestOf(d))
    case Stop(Trailer(_, crc)) => if crc == FromBits(combined) then Over else Broken([], Wrong)
    case Fail => Broken([], Wrong)
  }

  lemma EnteredIs(m: Moved, combined: Word, rest: seq<bool>)
    requires MoveOk(m.m) && (m.m.Go? ==> StOk(m.st))
    ensures StageOk(Entered(m, combined))
    ensures AfterEvent(RunMove(m, rest), combined) == Ahead(Entered(m, combined), combined, rest)
  {
    hide DecoderSteps.Run, RestOf, FromBits, Ok, UpdateAll, Yield, Told, Combine;
  }

  lemma RunRead(p: Parser, st: MF.State, bs: seq<bool>)
    requires Ok(p) && StOk(st)
    ensures var r := GetBits(bs, Need(p));
            if r.Done? then
              && MoveOk(DecoderSteps.Next(p, st, r.value).m)
              && DecoderSteps.Run(p, st, bs) == RunMove(DecoderSteps.Next(p, st, r.value), r.rest)
            else r.NeedInput? && DecoderSteps.Run(p, st, bs) == NeedInput
  {
    hide DecoderSteps.Next, GetBits, Need, Ok;
    ReadsOrNeeds(bs, Need(p));
    var r := GetBits(bs, Need(p));
    if r.Done? { NextOk(p, st, r.value); }
  }

  /** A read: what comes after the bits read is what was to come before. */
  lemma AfterRead(p: Parser, st: MF.State, combined: Word, bs: seq<bool>)
    requires Ok(p) && StOk(st)
    ensures var r := GetBits(bs, Need(p));
            if r.Done? then
              && StageOk(Entered(DecoderSteps.Next(p, st, r.value), combined))
              && Ahead(Reading(p, st), combined, bs) ==
                Ahead(Entered(DecoderSteps.Next(p, st, r.value), combined), combined, r.rest)
            else r.NeedInput? && Ahead(Reading(p, st), combined, bs) == Hungry([])
  {
    hide DecoderSteps.Next, DecoderSteps.Run, RunMove, GetBits, Need, AfterText, RestOf, FromBits, Ok, Entered;
    RunRead(p, st, bs);
    var r := GetBits(bs, Need(p));
    if r.Done? { EnteredIs(DecoderSteps.Next(p, st, r.value), combined, r.rest); }
  }

  lemma ReadsOrNeeds(bs: seq<bool>, n: nat)
    ensures GetBits(bs, n).Done? || GetBits(bs, n).NeedInput?
    ensures GetBits(bs, n).Done? ==>
      forall more: seq<bool> :: GetBits(bs + more, n) == Done(GetBits(bs, n).value, GetBits(bs, n).rest + more)
  {
    hide FromBits;
    if |bs| >= n {
      forall more: seq<bool> ensures GetBits(bs + more, n) == Done(GetBits(bs, n).value, GetBits(bs, n).rest + more) {
        assert (bs + more)[..n] == bs[..n] && (bs + more)[n..] == bs[n..] + more;
      }
    }
  }

  lemma UpdateAppend(crc: Word, a: seq<int>, b: seq<int>)
    requires IsBytes(a) && IsBytes(b)
    ensures IsBytes(a + b) && UpdateAll(crc, a + b) == UpdateAll(UpdateAll(crc, a), b)
  {
    hide CrcRegister.Run, Bits8;
    RunAppend(crc, Octets(a), Octets(b));
    assert Octets(a + b) == Octets(a) + Octets(b);
  }

  lemma ToldTwice(a: seq<int>, b: seq<int>, o: Outcome)
    ensures Told(a, Told(b, o)) == Told(a + b, o) && Told([], o) == o
  {
    assert a + (b + o.text) == a + b + o.text && [] + o.text == o.text;
  }

  /** Bytes given out. */
  lemma AfterGiving(level: nat, stored: nat, randomised: bool, before: Rest, crc0: Word, out: seq<int>, due: Rest,
                    crc: Word, combined: Word, bs: seq<bool>)
    requires Given(before, crc0, out, due, crc)
    ensures AfterText(level, stored, randomised, crc0, before, combined, bs) ==
      Told(out, AfterText(level, stored, randomised, crc, due, combined, bs))
  {
    hide UpdateAll, Yield, FromBits, Combine;
    if IsBytes(due.bytes) {
      UpdateAppend(crc0, out, due.bytes);
      var sum := Xor(UpdateAll(crc, due.bytes), Ones());
      ToldTwice(out, due.bytes, Yield(bs, level, Combine(combined, sum)));
    } else {
      var i :| 0 <= i < |due.bytes| && !(0 <= due.bytes[i] < 256);
      assert (out + due.bytes)[|out| + i] == due.bytes[i];
    }
  }

  /** The block's text is complete: its checksum decides. */
  lemma AfterBlock(level: nat, stored: nat, randomised: bool, crc: Word, combined: Word, st: MF.State, bs: seq<bool>)
    requires StOk(st)
    ensures var sum := Xor(crc, Ones());
            Ahead(Giving(level, stored, randomised, crc, Rest([], false)), combined, bs) ==
            Ahead(if FromBits(sum) == stored then Reading(BlockHead(level, 0), st) else Broken([], Wrong),
                  Combine(combined, sum), bs)
  {
    hide Yield, FromBits, Combine, DecoderSteps.Run;
    assert Octets([]) == [];
    assert UpdateAll(crc, []) == crc;
    var sum := Xor(crc, Ones());
    BetweenBlocks(bs, level, st, Combine(combined, sum));
    ToldTwice([], [], Yield(bs, level, Combine(combined, sum)));
  }

  // ----- the meaning of a stopped decoder

  ghost function From(s: Stage, combined: Word, unread: seq<bool>, more: seq<bool>): (r: Outcome)
    requires StageOk(s)
  {
    Ahead(s, combined, unread + more)
  }

  ghost function Stream(all: seq<bool>, more: seq<bool>): (r: Outcome) {
    YieldStream(all + more)
  }

  /** However the input may go on, what comes of the stream is what was given out followed by what the
      state stands for. */
  ghost predicate Tells(all: seq<bool>, out: seq<int>, s: Stage, combined: Word, unread: seq<bool>) {
    StageOk(s) && forall more :: Stream(all, more) == Told(out, From(s, combined, unread, more))
  }

  lemma TellsAtStart(st: MF.State)
    requires StOk(st)
    ensures Tells([], [], Reading(Magic(0), st), Zero(32), [])
  {
    hide YieldStream, Ahead, Told;
    forall more ensures Stream([], more) == Told([], From(Reading(Magic(0), st), Zero(32), [], more)) {
      StartOfStream([] + more, st);
      ToldTwice([], [], YieldStream([] + more));
    }
  }

  lemma TellsMoreInput(all: seq<bool>, out: seq<int>, s: Stage, combined: Word, unread: seq<bool>, bits: seq<bool>)
    requires Tells(all, out, s, combined, unread)
    ensures Tells(all + bits, out, s, combined, unread + bits)
  {
    hide YieldStream, Ahead, Told, StageOk;
    forall more ensures Stream(all + bits, more) == Told(out, From(s, combined, unread + bits, more)) {
      assert all + bits + more == all + (bits + more) && unread + bits + more == unread + (bits + more);
      assert Stream(all, bits + more) == Told(out, From(s, combined, unread, bits + more));
    }
  }

  lemma TellsAfterRead(all: seq<bool>, out: seq<int>, p: Parser, st: MF.State, combined: Word, unread: seq<bool>)
    requires Tells(all, out, Reading(p, st), combined, unread)
    ensures Ok(p) && StOk(st)
    ensures var r := GetBits(unread, Need(p));
            if r.Done? then Tells(all, out, Entered(DecoderSteps.Next(p, st, r.value), combined), combined, r.rest)
            else r.NeedInput? && YieldStream(all) == Hungry(out)
  {
    hide YieldStream, Ahead, Need, DecoderSteps.Next, GetBits, Entered, Ok;
    ReadsOrNeeds(unread, Need(p));
    var r := GetBits(unread, Need(p));
    AfterRead(p, st, combined, unread);
    if r.Done? {
      forall more
        ensures Stream(all, more) ==
          Told(out, From(Entered(DecoderSteps.Next(p, st, r.value), combined), combined, r.rest, more))
      {
        AfterRead(p, st, combined, unread + more);
        assert Stream(all, more) == Told(out, From(Reading(p, st), combined, unread, more));
      }
    } else {
      assert Stream(all, []) == Told(out, From(Reading(p, st), combined, unread, []));
      assert all + [] == all && unread + [] == unread && out + [] == out;
    }
  }

  lemma TellsAfterGiving(all: seq<bool>, out: seq<int>, level: nat, stored: nat, randomised: bool, before: Rest,
                         crc0: Word, given: seq<int>, due: Rest, crc: Word, combined: Word, unread: seq<bool>)
    requires Tells(all, out, Giving(level, stored, randomised, crc0, before), combined, unread)
    requires Given(before, crc0, given, due, crc)
    ensures Tells(all, out + given, Giving(level, stored, randomised, crc, due), combined, unread)
  {
    hide YieldStream, AfterText, Told, Given;
    forall more ensures Stream(all, more) ==
      Told(out + given, From(Giving(level, stored, randomised, crc, due), combined, unread, more)) {
      AfterGiving(level, stored, randomised, before, crc0, given, due, crc, combined, unread + more);
      ToldTwice(out, given, AfterText(level, stored, randomised, crc, due, combined, unread + more));
      assert Stream(all, more) ==
        Told(out, From(Giving(level, stored, randomised, crc0, before), combined, unread, more));
    }
  }

  lemma TellsAfterBlock(all: seq<bool>, out: seq<int>, level: nat, stored: nat, randomised: bool, crc: Word,
                        combined: Word, st: MF.State, unread: seq<bool>)
    requires Tells(all, out, Giving(level, stored, randomised, crc, Rest([], false)), combined, unread) && StOk(st)
    ensures var sum := Xor(crc, Ones());
            Tells(all, out, if FromBits(sum) == stored then Reading(BlockHead(level, 0), st) else Broken([], Wrong),
                  Combine(combined, sum), unread)
  {
    hide YieldStream, Told, Ahead, Combine, FromBits;
    var sum := Xor(crc, Ones());
    var s := if FromBits(sum) == stored then Reading(BlockHead(level, 0), st) else Broken([], Wrong);
    forall more ensures Stream(all, more) == Told(out, From(s, Combine(combined, sum), unread, more)) {
      AfterBlock(level, stored, randomised, crc, combined, st, unread + more);
      assert Stream(all, more) ==
        Told(out, From(Giving(level, stored, randomised, crc, Rest([], false)), combined, unread, more));
    }
  }

  /** A block cut short is refused once the bytes due are given, and may be before they are told. */
  lemma TellsCut(all: seq<bool>, out: seq<int>, level: nat, stored: nat, randomised: bool, crc: Word,
                 bytes: seq<int>, combined: Word, unread: seq<bool>)
    requires Tells(all, out, Giving(level, stored, randomised, crc, Rest(bytes, true)), combined, unread)
    ensures Tells(all, out, Broken(bytes, Cut(randomised)), combined, unread)
    ensures Tells(all, out + bytes, Broken([], Cut(randomised)), combined, unread)
  {
    hide YieldStream;
    forall more
      ensures Stream(all, more) == Told(out, From(Broken(bytes, Cut(randomised)), combined, unread, more))
      ensures Stream(all, more) == Told(out + bytes, From(Broken([], Cut(randomised)), combined, unread, more))
    {
      assert Stream(all, more) ==
        Told(out, From(Giving(level, stored, randomised, crc, Rest(bytes, true)), combined, unread, more));
      assert out + bytes + [] == out + bytes;
    }
  }

  /** No input can make up for a refusal. */
  lemma TellsBroken(all: seq<bool>, out: seq<int>, text: seq<int>, fault: Fault, combined: Word, unread: seq<bool>)
    requires Tells(all, out, Broken(text, fault), combined, unread)
    ensures forall more :: YieldStream(all + more) == Refused(out + text, fault)
  {
    hide YieldStream;
    forall more ensures YieldStream(all + more) == Refused(out + text, fault) {
      assert Stream(all, more) == Told(out, From(Broken(text, fault), combined, unread, more));
    }
  }

  lemma TellsOver(all: seq<bool>, out: seq<int>, combined: Word, unread: seq<bool>)
    requires Tells(all, out, Over, combined, unread)
    ensures forall more :: YieldStream(all + more) == Ended(out, unread + more)
  {
    hide YieldStream;
    forall more ensures YieldStream(all + more) == Ended(out, unread + more) {
      assert Stream(all, more) == Told(out, From(Over, combined, unread, more));
      assert out + [] == out;
    }
  }

  /** What has been given out is the beginning of the text. */
  lemma TellsPrefix(all: seq<bool>, out: seq<int>, s: Stage, combined: Word, unread: seq<bool>)
    requires Tells(all, out, s, combined, unread)
    ensures out <= YieldStream(all).text
  {
    hide YieldStream, Ahead;
    assert Stream(all, []) == Told(out, From(s, combined, unread, []));
    assert all + [] == all;
  }

  /** With bytes of a block still due, what has been given out is not all; with none due and the block
      cut short, it is all, but the refusal is still to come. */
  lemma TellsMore(all: seq<bool>, out: seq<int>, level: nat, stored: nat, randomised: bool, crc: Word, due: Rest,
                  combined: Word, unread: seq<bool>)
    requires Tells(all, out, Giving(level, stored, randomised, crc, due), combined, unread)
    ensures due.bytes != [] ==> |out| < |YieldStream(all).text|
    ensures due == Rest([], true) ==> YieldStream(all) == Refused(out, Cut(randomised))
  {
    hide YieldStream, UpdateAll, Yield, FromBits, Combine;
    assert Stream(all, []) == Told(out, From(Giving(level, stored, randomised, crc, due), combined, unread, []));
    assert all + [] == all && out + [] == out;
  }

  /** A refusal stays one, whatever the checksum. */
  lemma TellsRefused(all: seq<bool>, out: seq<int>, text: seq<int>, fault: Fault, combined: Word, combined': Word,
                     unread: seq<bool>)
    requires Tells(all, out, Broken(text, fault), combined, unread)
    ensures Tells(all, out, Broken(text, fault), combined', unread)
  {
    hide YieldStream;
    forall more ensures Stream(all, more) == Told(out, From(Broken(text, fault), combined', unread, more)) {
      assert Stream(all, more) == Told(out, From(Broken(text, fault), combined, unread, more));
    }
  }
}
