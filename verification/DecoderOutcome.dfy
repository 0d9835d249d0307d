/** All that comes of decoding a stream with unlimited room: the text given out, and whether it ends
    with the stream, for want of input, or because the data are refused. */
module DecoderOutcome {
  import opened Bytes
  import opened BitStrings
  import opened CrcRegister
  import opened BlockChecksum
  import opened BlockFormat
  import opened RunLength
  import opened StreamFormat
  import opened TextOutput

  /** Why data are refused: a value read or a checksum is wrong, or a block is cut short in the middle
      of a run. */
  datatype Fault = Wrong | Cut(randomised: bool)

  datatype Outcome =
    | Ended(text: seq<int>, rest: seq<bool>)
    | Hungry(text: seq<int>)
    | Refused(text: seq<int>, fault: Fault)

  function Told(text: seq<int>, o: Outcome): (r: Outcome) {
    o.(text := text + o.text)
  }

  /** A read that did not succeed. */
  function Stopped<T>(p: Parse<T>): (r: Outcome) {
    if p.NeedInput? then Hungry([]) else Refused([], Wrong)
  }

  /** What the decoder makes of a block that was read. */
  ghost function RestOf(d: BlockData): (r: Rest) {
    if d.origPtr < |d.last| && IsBytes(d.last) then
      BlockBytes(d);
      Unrun(BlockOf(d), CharAt(d.last, d.origPtr, d.randomised, |BlockOf(d)|))
    else Rest([], true)
  }

  /** Blocks up to the trailer: the text of a block is given before its checksum is compared. */
  ghost function Yield(bs: seq<bool>, blockSize100k: nat, combined: Word): (o: Outcome)
    decreases |bs|
  {
    var v := GetBits(bs, 8);
    if !v.Done? then Stopped(v)
    else if v.value == 0x17 then
      var t := GetTrailer(v.rest, combined);
      if t.Done? then Ended([], t.rest) else Stopped(t)
    else if v.value != 0x31 then Refused([], Wrong)
    else
      var tail := Expect(v.rest, MagicTail());
      if !tail.Done? then Stopped(tail)
      else
        var block := GetBlock(tail.rest, blockSize100k);
        if !block.Done? then Stopped(block)
        else
          var due := RestOf(block.value);
          if due.cut || !IsBytes(due.bytes) then Refused(due.bytes, Cut(block.value.randomised))
          else
            var sum := Checksum(due.bytes);
            if FromBits(sum) != block.value.crc then Refused(due.bytes, Wrong)
            else Told(due.bytes, Yield(block.rest, blockSize100k, Combine(combined, sum)))
  }

  ghost function YieldStream(bs: seq<bool>): (o: Outcome) {
    var magic := Expect(bs, [0x42, 0x5a, 0x68]);
    if !magic.Done? then Stopped(magic)
    else
      var level := GetBits(magic.rest, 8);
      if !level.Done? then Stopped(level)
      else if 0x31 <= level.value <= 0x39 then Yield(level.rest, level.value - 0x30, Zero(32))
      else Refused([], Wrong)
  }

  /** The outcome without the text given before the end came into sight. */
  function Forget(o: Outcome): (r: Parse<seq<int>>) {
    match o
    case Ended(text, rest) => Done(text, rest)
    case Hungry(_) => NeedInput
    case Refused(_, _) => Bad
  }

  lemma ForgetTold(text: seq<int>, o: Outcome)
    ensures Forget(Told(text, o)) == Prepend(text, Forget(o))
  {
  }

  /** What the decoder makes of a block is its text, unless it is cut short. */
  lemma RestIsText(d: BlockData)
    requires d.origPtr < |d.last| && IsBytes(d.last)
    ensures BlockText(d) == if RestOf(d).cut then Unfinished else Text(RestOf(d).bytes)
  {
    hide UnRle, Unrun, BlockOf, CharAt;
    BlockBytes(d);
    UnrunIs(BlockOf(d), CharAt(d.last, d.origPtr, d.randomised, |BlockOf(d)|));
  }

  lemma CheckedIs(d: BlockData)
    requires d.origPtr < |d.last| && IsBytes(d.last)
    ensures var due := RestOf(d);
            && (CheckedText(d).Text? <==> !due.cut && IsBytes(due.bytes) && FromBits(Checksum(due.bytes)) == d.crc)
            && (CheckedText(d).Text? ==> CheckedText(d) == Text(due.bytes))
  {
    hide RestOf, Checksum, FromBits, UnRle, BlockOf;
    RestIsText(d);
    BlockBytes(d);
    UnRleBytes(BlockOf(d));
  }

  lemma GetBlocksIs(bs: seq<bool>, level: nat, combined: Word)
    ensures var v := GetBits(bs, 8);
            GetBlocks(bs, level, combined) ==
            if !v.Done? then (if v.NeedInput? then NeedInput else Bad)
            else if v.value == 0x17 then GetTrailer(v.rest, combined)
            else if v.value != 0x31 then Bad
            else
              var text := GetText(v.rest, level);
              if text.Done? then
                Prepend(text.value, GetBlocks(text.rest, level, Combine(combined, Checksum(text.value))))
              else text
  {
    hide GetBits, GetText, GetTrailer, Prepend, Combine, Checksum;
  }

  lemma TrailerText(bs: seq<bool>, combined: Word)
    ensures GetTrailer(bs, combined).Done? ==> GetTrailer(bs, combined).value == []
  {
    hide Expect, GetBits, FromBits;
  }

  /** The blocks of a stream decode to what the outcome tells at their end. */
  lemma {:induction false} YieldIs(bs: seq<bool>, level: nat, combined: Word)
    ensures Forget(Yield(bs, level, combined)) == GetBlocks(bs, level, combined)
    decreases |bs|
  {
    hide GetBits, GetTrailer, GetBlock, Expect, GetBlocks, RestOf, Checksum, FromBits, Combine, CheckedText, Prepend,
         MagicTail;
    GetBlocksIs(bs, level, combined);
    var v := GetBits(bs, 8);
    if v.Done? && v.value == 0x17 { TrailerText(v.rest, combined); }
    if v.Done? && v.value == 0x31 {
      var tail := Expect(v.rest, MagicTail());
      if tail.Done? {
        var block := GetBlock(tail.rest, level);
        if block.Done? {
          CheckedIs(block.value);
          var due := RestOf(block.value);
          if !due.cut && IsBytes(due.bytes) && FromBits(Checksum(due.bytes)) == block.value.crc {
            var more := Combine(combined, Checksum(due.bytes));
            YieldIs(block.rest, level, more);
            ForgetTold(due.bytes, Yield(block.rest, level, more));
          }
        }
      }
    }
  }

  /** A stream decodes to a text exactly if the outcome is that it ends with that text; input is wanting,
      or no continuation is a stream, exactly if the outcome says so. */
  lemma StreamOutcome(bs: seq<bool>)
    ensures Forget(YieldStream(bs)) == GetStream(bs)
  {
    hide GetBits, Expect, GetBlocks, Yield;
    var magic := Expect(bs, [0x42, 0x5a, 0x68]);
    if magic.Done? {
      var level := GetBits(magic.rest, 8);
      if level.Done? && 0x31 <= level.value <= 0x39 { YieldIs(level.rest, level.value - 0x30, Zero(32)); }
    }
  }

  /** How much room it takes to get as far as the refusal: the loop without look-ahead wants some after
      the last byte of a block that is cut short. */
  function Needed(text: seq<int>, fault: Fault, small: bool): (n: nat) {
    if fault.Cut? && (small || fault.randomised) then |text| + 1 else |text|
  }

  /** More is to come than the bytes given: text, or after all text the refusal. */
  predicate Beyond(o: Outcome, given: nat, small: bool) {
    match o
    case Ended(text, _) => given < |text|
    case Hungry(text) => given <= |text|
    case Refused(text, fault) => given < Needed(text, fault, small)
  }
}
