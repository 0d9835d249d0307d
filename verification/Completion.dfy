/** Whatever has been delivered so far is the beginning of a complete stream: a compressor told to
    finish can always be run to its end. */
module Completion {
  import opened Bytes
  import opened Powers
  import opened BitStrings
  import opened BitWriter
  import opened CrcRegister
  import opened Rotations
  import opened InverseBwt
  import opened HuffmanTree
  import opened HuffmanCodes
  import opened BlockFormat
  import opened StreamFormat
  import opened CompressorState
  import Counting
  import Permutations
  import RotationRank
  import BE = BlockEncoder
  import C = Compressor
  import ME = MtfEncoder
  import RunLength

  // ----- every block has an encoding

  /** The rotations can be sorted. */
  lemma SomeOrder(b: seq<int>) returns (p: seq<int>)
    ensures IsSortedOrder(b, p) && forall i :: 0 <= i < |p| ==> 0 <= p[i] < |b|
  {
    hide Compare, RotationRank.Lower, Rotation, LexLe;
    var ranks := RotationRank.Ranks(b);
    p := Counting.Sources(ranks);
    forall i, j | 0 <= i < j < |b|
      ensures LexLe(Rotation(b, p[i]), Rotation(b, p[j]))
    {
      Counting.SourceOrder(ranks, i, j);
      RotationRank.RankOrder(b, p[i], p[j]);
      CompareIsLexicographic(b, p[i], p[j]);
    }
    forall i, j | 0 <= i < j < |b|
      ensures p[i] != p[j]
    {
      Counting.SourceOrder(ranks, i, j);
    }
  }

  /** Nine bits for every symbol. */
  function Nines(alphaSize: nat): (r: seq<int>)
    ensures |r| == alphaSize
  {
    seq(alphaSize, _ => 9)
  }

  lemma {:induction false} NinesKraft(alphaSize: nat, k: nat)
    requires k <= alphaSize
    ensures KraftSum(Nines(alphaSize), k) == 2048 * k
  {
    NineShare();
    if k > 0 { NinesKraft(alphaSize, k - 1); }
  }

  lemma NineShare()
    ensures Share(9) == 2048 && Pow2(20) == 0x10_0000
  {
    assert Pow2(5) == 32 && Pow2(10) == 1024;
    Pow2Add(10, 10);
  }

  lemma SomeChoice(alphaSize: nat, nSyms: nat) returns (lens: seq<seq<int>>, sel: seq<int>)
    requires 3 <= alphaSize <= 258 && 1 <= nSyms <= 900001
    ensures GoodChoice(lens, sel, alphaSize, nSyms)
  {
    hide KraftSum, Pow2;
    lens := [Nines(alphaSize), Nines(alphaSize)];
    sel := seq((nSyms + 49) / 50, _ => 0);
    NinesKraft(alphaSize, alphaSize);
    NineShare();
    assert ValidLengths(Nines(alphaSize));
  }

  lemma SomeEncoding(block: seq<int>, crc: Word, inUse: seq<bool>) returns (e: BE.Encoding)
    requires 0 < |block| <= 900000 && ME.Covered(block, inUse)
    ensures BE.Encodes(e, block, crc)
  {
    hide *;
    var order := SomeOrder(block);
    BE.LastColumnCovered(block, order, inUse);
    var last := LastColumn(block, order);
    SomeColumn(last, inUse);
    var lens, sel := SomeChoice(|ME.Used(inUse, 256)| + 2, |ME.BlockSymbols(last, inUse)|);
    var origPtr := First(block, order);
    e := BE.Encoding(block, crc, order, origPtr, inUse, lens, sel);
    BE.SoundMake(e);
    BE.SoundEncodes(e);
  }

  lemma First(block: seq<int>, order: seq<int>) returns (k: nat)
    requires IsSortedOrder(block, order) && 0 < |block|
    ensures k < |block| == |order| && order[k] == 0
  {
    k := Permutations.Position(order, |block|, 0);
  }

  lemma SomeColumn(last: seq<int>, inUse: seq<bool>)
    requires ME.Covered(last, inUse) && 0 < |last| <= 900000
    ensures 3 <= |ME.Used(inUse, 256)| + 2 <= 258 && 1 <= |ME.BlockSymbols(last, inUse)| <= 900001
  {
    hide ME.Used, ME.BlockSymbols;
    BlockSymbolsGood(last, inUse, |ME.Used(inUse, 256)| + 2);
  }

  // ----- bits as bytes

  lemma {:induction false} SomeBytes(bits: seq<bool>) returns (bytes: seq<int>)
    requires |bits| % 8 == 0
    ensures IsBytes(bytes) && ByteBits(bytes) == bits
    decreases |bits|
  {
    hide ToBits, FromBits, ByteBits, Pow2;
    if bits == [] {
      bytes := [];
      BE.NoBytes(bytes);
      assert bytes[..0] == [];
    } else {
      var n := |bits| - 8;
      var most := SomeBytes(bits[..n]);
      Pow8();
      BE.WordRoundTrip(bits[n..]);
      ByteBitsSnoc(most, FromBits(bits[n..]));
      bytes := most + [FromBits(bits[n..])];
      assert bits == bits[..n] + bits[n..];
    }
  }

  // ----- running to the end

  /** A state that still has to finish, with nothing offered but what is expected. */
  ghost predicate Finishing(s: State, h: History) {
    Inv(s, h) && s.mode == Mode.Finishing && s.expected == |s.nextIn|
  }

  /** From one state to a later one: the input is taken, output follows output. */
  ghost predicate Leads(s: State, h: History, t: State, h': History, forced: bool) {
    && Finishing(t, h') && t.blockSize100k == s.blockSize100k
    && h'.consumed + t.nextIn == h.consumed + s.nextIn && s.nextOut <= t.nextOut
    && Filled(h.closed, h'.closed, Limit(s), forced)
  }

  /** These bytes are a whole stream for all of the input, of which the output so far is the beginning. */
  ghost predicate Finishes(s: State, h: History, bytes: seq<int>, cs: seq<Closed>, pad: nat) {
    && Complete(bytes, cs, s.blockSize100k, pad) && Texts(cs, s.blockSize100k) == h.consumed + s.nextIn
    && s.nextOut <= bytes && (!h.ended || s.outPos < |s.zbits| ==> |s.nextOut| < |bytes|)
    && Filled(h.closed, cs, Limit(s), true)
  }

  lemma FinishesBefore(s: State, h: History, t: State, h': History, bytes: seq<int>, cs: seq<Closed>, pad: nat)
    requires Leads(s, h, t, h', false) && Finishes(t, h', bytes, cs, pad)
    requires |s.nextOut| < |t.nextOut| || !h'.ended
    ensures Finishes(s, h, bytes, cs, pad)
  {
    hide Complete, Texts, Inv, Filled, AllGood;
    LevelSame(s, t, bytes, cs, pad);
    FilledMore(h.closed, h'.closed, cs, Limit(s), true);
  }

  lemma LevelSame(s: State, t: State, bytes: seq<int>, cs: seq<Closed>, pad: nat)
    requires t.blockSize100k == s.blockSize100k && Complete(bytes, cs, s.blockSize100k, pad)
    ensures AllGood(cs, s.blockSize100k) && Limit(t) == Limit(s)
  {
    hide AllGood, StreamBits, ByteBits, IsBytes;
  }

  /** All bytes of zbits are handed over. */
  lemma HandOver(s: State, h: History) returns (t: State)
    requires Finishing(s, h) && s.phase == Output
    ensures t == s.(nextOut := s.nextOut + s.zbits[s.outPos..], outPos := |s.zbits|, availOut := 0)
    ensures s.outPos <= |s.zbits| && Finishing(t, h)
  {
    hide Written, Accounted, PendingOk;
    var k := |s.zbits| - s.outPos;
    C.SupplyKeeps(s, h, s.nextIn, k);
    var s1 := s.(availOut := k);
    DeliverKeeps(s1, h, k);
    t := Deliver(s1, k);
    assert s.zbits[s.outPos..s.outPos + k] == s.zbits[s.outPos..];
  }

  /** The trailer is written: only bytes are left to be handed over. */
  lemma EndOf(s: State, h: History) returns (bytes: seq<int>, cs: seq<Closed>, pad: nat)
    requires Finishing(s, h) && h.ended
    ensures Finishes(s, h, bytes, cs, pad) && cs == h.closed
  {
    hide Inv, Written, Accounted, PendingOk, Delivered, Complete, Texts, AllGood, Filled, Deliver, Finishing;
    FinishingIs(s, h);
    EndedIs(s, h);
    var t := HandOver(s, h);
    FinishingIs(t, h);
    EndDecodes(t, h);
    bytes, cs, pad := t.nextOut, h.closed, h.pad;
    LevelSame(t, s, bytes, cs, pad);
    assert h.consumed + [] == h.consumed;
    NothingFilled(h.closed, Limit(s));
  }

  lemma NothingFilled(cs: seq<Closed>, limit: int)
    ensures Filled(cs, cs, limit, true) && Filled(cs, cs, limit, false)
  {
  }

  lemma FinishingIs(s: State, h: History)
    requires Finishing(s, h)
    ensures Inv(s, h) && s.mode == Mode.Finishing && s.expected == |s.nextIn| && IsBytes(s.nextIn)
    ensures s.blockSize100k >= 1
  {
    hide Accounted, PendingOk, Delivered, ByteBits, AllGood, IsBytes;
  }

  lemma EndedIs(s: State, h: History)
    requires Inv(s, h)
    ensures h.ended ==> s.phase == Output && s.expected == 0
    ensures s.phase == Output && !h.ended && s.mode == Mode.Finishing ==> !EmptyRL(s)
  {
    hide Written, Accounted, PendingOk, Delivered;
  }

  /** A new block begins. */
  lemma NextBlock(s: State, h: History) returns (t: State, h': History)
    requires Finishing(s, h) && s.phase == Output && !h.ended
    ensures Leads(s, h, t, h', false) && t.phase == Input && t.block == [] && !h'.ended && t.nextIn == s.nextIn
  {
    hide Inv, Written, Accounted, PendingOk, Delivered, Filled, Prepare, Finishing;
    var s1 := HandOver(s, h);
    FinishingIs(s1, h);
    PrepareKeeps(s1, h);
    C.PrepareIs(s1);
    t, h' := Prepare(s1), h.(flushed := h.flushed + s1.zbits);
    NothingFilled(h.closed, Limit(s));
    FinishingMake(t, h');
  }

  lemma FinishingMake(s: State, h: History)
    requires Inv(s, h) && s.mode == Mode.Finishing && s.expected == |s.nextIn|
    ensures Finishing(s, h)
  {
  }

  /** One byte of input is taken. */
  lemma TakeOne(s: State, h: History) returns (t: State, h': History)
    requires Finishing(s, h) && s.phase == Input && s.nextIn != [] && |s.block| < Limit(s)
    ensures Leads(s, h, t, h', false) && |t.nextIn| == |s.nextIn| - 1 && !h'.ended
  {
    hide Inv, Written, Accounted, PendingOk, Delivered, Filled, AddChar, Finishing;
    FinishingIs(s, h);
    C.InputParts(s, h);
    h' := AddCharKeeps(s, h);
    C.AddCharSame(s, s.nextIn[0]);
    t := AddChar(s, s.nextIn[0]).(nextIn := s.nextIn[1..], expected := s.expected - 1);
    assert h.consumed + [s.nextIn[0]] + s.nextIn[1..] == h.consumed + s.nextIn;
    NothingFilled(h.closed, Limit(s));
    FinishingMake(t, h');
  }

  /** Some encoding of the current block, and the checksum it must have. */
  lemma EncodeCurrent(s: State, h: History, last: bool) returns (e: BE.Encoding)
    requires Closable(s, h, last)
    ensures 1 <= s.blockSize100k <= 9
    ensures s.block != [] ==> BE.Encodes(e, s.block, Xor(s.crc, Ones())) && e.block == s.block
  {
    hide Closable, BE.Sound;
    ClosableParts(s, h, last);
    if s.block != [] {
      e := SomeEncoding(s.block, Xor(s.crc, Ones()), s.inUse);
    } else {
      e := BE.Encoding([], s.crc, [], 0, [], [], []);
    }
  }

  /** A full block is closed. */
  lemma CloseOne(s: State, h: History) returns (t: State, h': History)
    requires Finishing(s, h) && s.phase == Input && |s.block| >= Limit(s)
    ensures Leads(s, h, t, h', false) && t.phase == Output && !h'.ended && t.nextIn == s.nextIn
  {
    hide Inv, Closable, CloseBits, Filled, BE.Encodes, Finishing;
    FinishingIs(s, h);
    FullLeavesPending(s, h);
    FullClosable(s, h);
    var e := EncodeCurrent(s, h, false);
    var bits := s.bits + CloseBits(s, e, false, 0);
    C.NoByteBits();
    CloseKeeps(s, h, e, false, 0, [], bits);
    CloseFills(s, h, e, false, false, 0);
    t, h' := Closing(s, h, e, [], bits), ClosedMore(s, h, e, false, 0);
    FinishingMake(t, h');
  }

  /** With all input taken, the last block is closed and the trailer written. */
  lemma CloseLast(s: State, h: History) returns (t: State, h': History)
    requires Finishing(s, h) && s.phase == Input && s.nextIn == []
    ensures Leads(s, h, t, h', true) && h'.ended && |t.zbits| > 0 && t.outPos == 0 && t.nextOut == s.nextOut
  {
    hide Inv, Closable, CloseBits, Filled, BE.Encodes, Finishing, Written, Accounted, PendingOk, Delivered, Filling,
         FlushRL;
    FinishingIs(s, h);
    C.InputParts(s, h);
    var h1 := FlushKeeps(s, h);
    C.FlushIs(s);
    var s1 := FlushRL(s);
    FlushedClosable(s, h, s1, h1);
    ClosableParts(s1, h1, true);
    var e := EncodeCurrent(s1, h1, true);
    var pad := (8 - |s1.bits + CloseBits(s1, e, true, 0)| % 8) % 8;
    PaddedLength(s1, e, pad);
    var bits := s1.bits + CloseBits(s1, e, true, pad);
    var zbits := SomeBytes(bits);
    CloseKeeps(s1, h1, e, true, pad, zbits, bits);
    CloseFills(s1, h1, e, true, true, pad);
    t, h' := Closing(s1, h1, e, zbits, bits), ClosedMore(s1, h1, e, true, pad);
    ByteBitsLength(zbits);
    FlushedOut(s, s1);
    FinishingMake(t, h');
  }

  lemma FlushedOut(s: State, t: State)
    requires (EmptyRL(s) || RunLength.Run(s.ch, s.len).Valid()) && |s.inUse| == 256 && t == FlushRL(s)
    ensures t.nextOut == s.nextOut && t.blockSize100k == s.blockSize100k && t.mode == s.mode && EmptyRL(t)
    ensures t.outPos == s.outPos
  {
  }

  lemma ByteBitsLength(bytes: seq<int>)
    requires IsBytes(bytes)
    ensures |ByteBits(bytes)| == 8 * |bytes|
  {
  }

  lemma PaddedLength(s: State, e: BE.Encoding, pad: nat)
    requires 1 <= s.blockSize100k <= 9 && pad == (8 - |s.bits + CloseBits(s, e, true, 0)| % 8) % 8
    ensures |s.bits + CloseBits(s, e, true, pad)| % 8 == 0 && pad < 8 && |s.bits + CloseBits(s, e, true, pad)| > 0
  {
    hide ByteBits, BlockPart, Header, EndMagic;
  }

  /** How far a state is from taking the next byte. */
  ghost function Ahead(s: State): (r: nat) {
    if s.phase == Output then 1 else if |s.block| >= Limit(s) then 2 else 0
  }

  /** Every state that has to finish can be run to the end of the stream. */
  lemma {:induction false} Completes(s: State, h: History) returns (bytes: seq<int>, cs: seq<Closed>, pad: nat)
    requires Finishing(s, h)
    ensures Finishes(s, h, bytes, cs, pad) && (h.ended ==> cs == h.closed)
    decreases |s.nextIn|, Ahead(s)
  {
    hide Finishing, Finishes, Leads, Filled;
    FinishingIs(s, h);
    EndedIs(s, h);
    if h.ended {
      bytes, cs, pad := EndOf(s, h);
    } else if s.phase == Input && s.nextIn == [] {
      var t, h' := CloseLast(s, h);
      LeadsIs(s, h, t, h', true);
      bytes, cs, pad := EndOf(t, h');
      FinishesLast(s, h, t, h', bytes, cs, pad);
    } else {
      var t, h';
      if s.phase == Output {
        t, h' := NextBlock(s, h);
      } else if |s.block| < Limit(s) {
        t, h' := TakeOne(s, h);
      } else {
        t, h' := CloseOne(s, h);
      }
      LeadsIs(s, h, t, h', false);
      bytes, cs, pad := Completes(t, h');
      FinishesBefore(s, h, t, h', bytes, cs, pad);
    }
  }

  lemma LeadsIs(s: State, h: History, t: State, h': History, forced: bool)
    requires Leads(s, h, t, h', forced)
    ensures Finishing(t, h') && Limit(t) == Limit(s)
  {
    hide Finishing, Filled;
  }

  lemma FinishesLast(s: State, h: History, t: State, h': History, bytes: seq<int>, cs: seq<Closed>, pad: nat)
    requires Leads(s, h, t, h', true) && Finishes(t, h', bytes, cs, pad) && cs == h'.closed
    requires |t.zbits| > 0 && t.outPos == 0
    ensures Finishes(s, h, bytes, cs, pad)
  {
    hide Complete, Texts, Inv, Filled, AllGood;
    LevelSame(s, t, bytes, cs, pad);
  }

  /** From the start: all blocks of the stream but the last are full. */
  lemma CompletesWhole(s: State, h: History) returns (bytes: seq<int>, cs: seq<Closed>, pad: nat)
    requires Finishing(s, h) && Filled([], h.closed, Limit(s), h.ended)
    ensures Finishes(s, h, bytes, cs, pad) && Filled([], cs, Limit(s), true)
  {
    hide Finishing, Filled, Complete, Texts;
    bytes, cs, pad := Completes(s, h);
    if !h.ended { FilledMore([], h.closed, cs, Limit(s), true); }
  }
}
