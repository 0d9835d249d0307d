/** A whole bzip2 stream: header, blocks, trailer; what it decodes to, and that every stream an
    encoder may write decodes to the text it was made from. */
module StreamFormat {
  import opened Bytes
  import opened Powers
  import opened BitStrings
  import opened BitWriter
  import opened CrcRegister
  import opened BlockChecksum
  import opened Rotations
  import opened InverseBwt
  import opened BlockFormat
  import opened BlockEncoder
  import opened RunLength
  import Counting
  import R = Randomised

  // ----- reading

  /** Bytes that must come next, compared one at a time. */
  function Expect(bs: seq<bool>, bytes: seq<int>): (r: Parse<()>)
    ensures r.Done? ==> |r.rest| <= |bs|
    decreases |bytes|
  {
    if bytes == [] then Done((), bs)
    else match GetBits(bs, 8)
      case Done(v, rest) => if v != bytes[0] then Bad else Expect(rest, bytes[1..])
      case NeedInput => NeedInput
      case Bad => Bad
  }

  /** The text of a block, from its last column. */
  ghost function BlockText(d: BlockData): (r: Text)
    requires d.origPtr < |d.last| && IsBytes(d.last)
  {
    BlockBytes(d);
    UnRle(BlockOf(d))
  }

  /** The block that a last column stands for. */
  ghost function BlockOf(d: BlockData): (r: seq<int>)
    requires d.origPtr < |d.last|
  {
    R.Derandomise(Walk(d.last, d.origPtr, |d.last|), d.randomised)
  }

  lemma BlockBytes(d: BlockData)
    requires d.origPtr < |d.last| && IsBytes(d.last)
    ensures IsBytes(BlockOf(d))
  {
    hide R.Unmask, Walk;
    WalkBytes(d.last, d.origPtr, |d.last|);
  }

  lemma {:induction false} WalkBytes(last: seq<int>, t: int, m: nat)
    requires 0 <= t < |last| && IsBytes(last)
    ensures IsBytes(Walk(last, t, m))
    decreases m
  {
    if m > 0 { WalkBytes(last, Counting.Sources(last)[t], m - 1); }
  }

  lemma {:induction false} UnRleBytes(s: seq<int>)
    requires IsBytes(s)
    ensures UnRle(s).Text? ==> IsBytes(UnRle(s).bytes)
    decreases |s|
  {
    if s != [] {
      var k := Lead(s);
      if k < 4 { UnRleBytes(s[k..]); } else if |s| > 4 { UnRleBytes(s[5..]); }
    }
  }

  /** A block's text, when its run lengths and its checksum are right. */
  ghost function CheckedText(d: BlockData): (r: Text)
    requires d.origPtr < |d.last| && IsBytes(d.last)
    ensures r.Text? ==> IsBytes(r.bytes)
  {
    BlockBytes(d);
    UnRleBytes(BlockOf(d));
    var t := BlockText(d);
    if t.Text? && FromBits(Checksum(t.bytes)) == d.crc then t else Unfinished
  }

  function MagicTail(): (r: seq<int>)
    ensures IsBytes(r)
  {
    [0x41, 0x59, 0x26, 0x53, 0x59]
  }

  /** The rest of a block's magic number, the block, and its text. */
  ghost function GetText(bs: seq<bool>, blockSize100k: nat): (r: Parse<seq<int>>)
    ensures r.Done? ==> |r.rest| <= |bs| && IsBytes(r.value)
  {
    match Expect(bs, MagicTail())
    case Done(_, rest) =>
      (match GetBlock(rest, blockSize100k)
       case Done(d, rest') =>
         (match CheckedText(d)
          case Text(text) => Done(text, rest')
          case Unfinished => Bad)
       case NeedInput => NeedInput
       case Bad => Bad)
    case NeedInput => NeedInput
    case Bad => Bad
  }

  /** Blocks up to the trailer; combined is the checksum over the blocks before. */
  ghost function GetBlocks(bs: seq<bool>, blockSize100k: nat, combined: Word): (r: Parse<seq<int>>)
    ensures r.Done? ==> |r.rest| <= |bs|
    decreases |bs|
  {
    match GetBits(bs, 8)
    case Done(v, rest) =>
      (if v == 0x17 then GetTrailer(rest, combined)
       else if v != 0x31 then Bad
       else match GetText(rest, blockSize100k)
         case Done(text, rest') =>
           Prepend(text, GetBlocks(rest', blockSize100k, Combine(combined, Checksum(text))))
         case NeedInput => NeedInput
         case Bad => Bad)
    case NeedInput => NeedInput
    case Bad => Bad
  }

  ghost function GetTrailer(bs: seq<bool>, combined: Word): (r: Parse<seq<int>>)
    ensures r.Done? ==> |r.rest| <= |bs|
  {
    match Expect(bs, [0x72, 0x45, 0x38, 0x50, 0x90])
    case Done(_, rest) =>
      (match GetBits(rest, 32)
       case Done(crc, rest') => if crc == FromBits(combined) then Done([], rest') else Bad
       case NeedInput => NeedInput
       case Bad => Bad)
    case NeedInput => NeedInput
    case Bad => Bad
  }

  /** What a stream decodes to. */
  ghost function GetStream(bs: seq<bool>): (r: Parse<seq<int>>) {
    match Expect(bs, [0x42, 0x5a, 0x68])
    case Done(_, rest) =>
      (match GetBits(rest, 8)
       case Done(level, rest') =>
         if 0x31 <= level <= 0x39 then GetBlocks(rest', level - 0x30, Zero(32)) else Bad
       case NeedInput => NeedInput
       case Bad => Bad)
    case NeedInput => NeedInput
    case Bad => Bad
  }

  // ----- writing

  function Header(blockSize100k: nat): (r: seq<int>)
    requires 1 <= blockSize100k <= 9
    ensures IsBytes(r)
  {
    [0x42, 0x5a, 0x68, 0x30 + blockSize100k]
  }

  function EndMagic(): (r: seq<int>)
    ensures IsBytes(r)
  {
    [0x17, 0x72, 0x45, 0x38, 0x50, 0x90]
  }

  /** A compressed block together with the runs it stands for. */
  datatype Closed = Closed(runs: seq<Run>, e: Encoding)

  ghost predicate GoodClosed(c: Closed, blockSize100k: nat) {
    && Runs(c.runs) && IsBytes(Expanded(c.runs)) && c.e.crc == Checksum(Expanded(c.runs))
    && c.e.block == Packed(c.runs) && |c.e.block| <= 100000 * blockSize100k <= 900000 && Sound(c.e)
  }

  ghost predicate AllGood(cs: seq<Closed>, blockSize100k: nat) {
    forall i :: 0 <= i < |cs| ==> GoodClosed(cs[i], blockSize100k)
  }

  ghost function Texts(cs: seq<Closed>, blockSize100k: nat): (r: seq<int>)
    requires AllGood(cs, blockSize100k)
  {
    if cs == [] then [] else Texts(cs[..|cs| - 1], blockSize100k) + Expanded(cs[|cs| - 1].runs)
  }

  ghost function BlocksBits(cs: seq<Closed>, blockSize100k: nat): (r: seq<bool>)
    requires AllGood(cs, blockSize100k)
  {
    if cs == [] then [] else BlocksBits(cs[..|cs| - 1], blockSize100k) + EncodingBits(cs[|cs| - 1].e)
  }

  ghost function Combined(cs: seq<Closed>): (r: Word) {
    if cs == [] then Zero(32) else Combine(Combined(cs[..|cs| - 1]), cs[|cs| - 1].e.crc)
  }

  lemma Snoc(cs: seq<Closed>, c: Closed, blockSize100k: nat)
    requires AllGood(cs, blockSize100k) && GoodClosed(c, blockSize100k)
    ensures AllGood(cs + [c], blockSize100k) && Runs(c.runs) && Sound(c.e)
    ensures Texts(cs + [c], blockSize100k) == Texts(cs, blockSize100k) + Expanded(c.runs)
    ensures BlocksBits(cs + [c], blockSize100k) == BlocksBits(cs, blockSize100k) + EncodingBits(c.e)
    ensures Combined(cs + [c]) == Combine(Combined(cs), c.e.crc)
  {
    hide GoodClosed, EncodingBits, Expanded, Combine, Sound, Runs, Packed;
    GoodClosedIs(c, blockSize100k);
    assert (cs + [c])[..|cs|] == cs;
  }

  // ----- round trip

  lemma {:induction false} ExpectBytes(bytes: seq<int>, rest: seq<bool>)
    requires IsBytes(bytes)
    ensures Expect(ByteBits(bytes) + rest, bytes) == Done((), rest)
    decreases |bytes|
  {
    hide ToBits, ByteBits, GetBits;
    if bytes == [] {
      assert ByteBits(bytes) == [] by { NoBytes(bytes); assert bytes[..0] == bytes; }
      assert ByteBits(bytes) + rest == rest;
    } else {
      HeadOf(bytes);
      ExpectBytes(bytes[1..], rest);
      GetPut(8, bytes[0], ByteBits(bytes[1..]) + rest);
      assert ByteBits(bytes) + rest == ToBits(8, bytes[0]) + (ByteBits(bytes[1..]) + rest);
    }
  }

  lemma HeadOf(bytes: seq<int>)
    requires IsBytes(bytes) && bytes != []
    ensures Pow2(8) == 256 && IsBytes(bytes[1..]) && ByteBits(bytes) == ToBits(8, bytes[0]) + ByteBits(bytes[1..])
  {
    hide ToBits, ByteBits;
    Pow8();
    assert bytes == [bytes[0]] + bytes[1..];
    ByteBitsAppend([bytes[0]], bytes[1..]);
    ByteBitsSnoc([], bytes[0]);
    assert [] + [bytes[0]] == [bytes[0]];
    NoBytes([]);
    assert [] + ToBits(8, bytes[0]) == ToBits(8, bytes[0]);
  }

  lemma GoodClosedIs(c: Closed, blockSize100k: nat)
    requires GoodClosed(c, blockSize100k)
    ensures Runs(c.runs) && IsBytes(Expanded(c.runs)) && c.e.crc == Checksum(Expanded(c.runs))
    ensures c.e.block == Packed(c.runs) && |c.e.block| <= 100000 * blockSize100k <= 900000 && Sound(c.e)
  {
  }

  /** The walk along the last column of a sound encoding spells its block. */
  lemma ColumnSpells(e: Encoding)
    requires Sound(e)
    ensures e.origPtr < |Column(e)| && Walk(Column(e), e.origPtr, |Column(e)|) == e.block
  {
    hide Walk, GoodBlock, IsSortedOrder, FromBits;
    WalkSpellsBlock(e.block, e.order, e.origPtr);
  }

  ghost function DataOf(e: Encoding): (d: BlockData)
    requires Sound(e)
  {
    BlockData(FromBits(e.crc), false, e.origPtr, Column(e))
  }

  /** A closed block, read back, gives its text. */
  lemma ClosedText(c: Closed, blockSize100k: nat)
    requires GoodClosed(c, blockSize100k)
    ensures Sound(c.e) && Runs(c.runs) && DataOf(c.e).origPtr < |DataOf(c.e).last| && IsBytes(DataOf(c.e).last)
    ensures CheckedText(DataOf(c.e)) == Text(Expanded(c.runs))
  {
    hide Walk, Packed, Expanded, Column, UnRle, Checksum, FromBits, Sound, GoodClosed, Runs, R.Derandomise;
    GoodClosedIs(c, blockSize100k);
    ColumnSpells(c.e);
    R.NotRandomised(c.e.block);
    UnRlePacked(c.runs);
  }

  lemma ReadBlock(c: Closed, blockSize100k: nat, rest: seq<bool>)
    requires GoodClosed(c, blockSize100k)
    ensures Sound(c.e)
    ensures GetBlock(CoreBits(c.e) + rest, blockSize100k)
            == Done(DataOf(c.e), rest)
  {
    hide GetBlock, BlockBits, Column, GoodBlock, Sound, FromBits, GoodClosed;
    GoodClosedIs(c, blockSize100k);
    BlockRoundTrip(FromBits(c.e.crc), c.e.origPtr, Column(c.e), c.e.inUse, c.e.lens, c.e.sel, blockSize100k, rest);
  }

  lemma GetTextOf(c: Closed, blockSize100k: nat, rest: seq<bool>)
    requires GoodClosed(c, blockSize100k)
    ensures Sound(c.e) && Runs(c.runs)
    ensures GetText(ByteBits(MagicTail()) + (CoreBits(c.e) + rest), blockSize100k) == Done(Expanded(c.runs), rest)
  {
    hide GetBlock, CoreBits, Column, CheckedText, Expanded, Packed, FromBits, Expect, Sound, Checksum, ByteBits,
         GoodBlock, Runs, GoodClosed;
    GoodClosedIs(c, blockSize100k);
    ExpectBytes(MagicTail(), CoreBits(c.e) + rest);
    ReadBlock(c, blockSize100k, rest);
    ClosedText(c, blockSize100k);
  }

  lemma GetBlocksStep(c: Closed, blockSize100k: nat, combined: Word, rest: seq<bool>)
    requires GoodClosed(c, blockSize100k)
    ensures Sound(c.e) && Runs(c.runs)
    ensures GetBlocks(EncodingBits(c.e) + rest, blockSize100k, combined) ==
            Prepend(Expanded(c.runs), GetBlocks(rest, blockSize100k, Combine(combined, c.e.crc)))
  {
    hide GetText, CoreBits, Column, Expanded, Packed, FromBits, ToBits, GetBits, Sound, Checksum, Combine, ByteBits,
         GoodBlock, Runs, GoodClosed, Prepend;
    GoodClosedIs(c, blockSize100k);
    HeadOf(BlockMagic());
    assert BlockMagic()[1..] == MagicTail();
    var b := ByteBits(MagicTail()) + (CoreBits(c.e) + rest);
    assert EncodingBits(c.e) + rest == ToBits(8, 0x31) + b;
    GetPut(8, 0x31, b);
    GetTextOf(c, blockSize100k, rest);
  }

  lemma TrailerRoundTrip(blockSize100k: nat, combined: Word, rest: seq<bool>)
    ensures GetBlocks(ByteBits(EndMagic()) + combined + rest, blockSize100k, combined) == Done([], rest)
  {
    hide GetText, FromBits, ToBits, GetBits, Expect, ByteBits, Pow2;
    var tail: seq<int> := [0x72, 0x45, 0x38, 0x50, 0x90];
    HeadOf(EndMagic());
    assert EndMagic()[1..] == tail;
    var b := ByteBits(tail) + (combined + rest);
    assert ByteBits(EndMagic()) + combined + rest == ToBits(8, 0x17) + b;
    GetPut(8, 0x17, b);
    ExpectBytes(tail, combined + rest);
    WordRoundTrip(combined);
    GetPut(32, FromBits(combined), rest);
  }

  /** The blocks of a stream are decoded one after the other. */
  lemma {:induction false} BlocksRoundTrip(cs: seq<Closed>, blockSize100k: nat, rest: seq<bool>)
    requires AllGood(cs, blockSize100k)
    ensures GetBlocks(BlocksBits(cs, blockSize100k) + rest, blockSize100k, Zero(32))
            == Prepend(Texts(cs, blockSize100k), GetBlocks(rest, blockSize100k, Combined(cs)))
    decreases |cs|
  {
    hide GetBlocks, EncodingBits, Expanded, GoodClosed, Combine, Sound, Runs;
    if cs == [] {
      assert [] + rest == rest;
      PrependNone(GetBlocks(rest, blockSize100k, Combined(cs)));
    } else {
      var n := |cs| - 1;
      var init, c := cs[..n], cs[n];
      GoodClosedIs(c, blockSize100k);
      BlocksRoundTrip(init, blockSize100k, EncodingBits(c.e) + rest);
      GetBlocksStep(c, blockSize100k, Combined(init), rest);
      PrependTwice(Texts(init, blockSize100k), Expanded(c.runs), GetBlocks(rest, blockSize100k, Combined(cs)));
      assert BlocksBits(cs, blockSize100k) + rest == BlocksBits(init, blockSize100k) + (EncodingBits(c.e) + rest);
    }
  }

  function Prepend(text: seq<int>, r: Parse<seq<int>>): (p: Parse<seq<int>>) {
    match r
    case Done(more, end) => Done(text + more, end)
    case NeedInput => NeedInput
    case Bad => Bad
  }

  lemma PrependNone(r: Parse<seq<int>>)
    ensures Prepend([], r) == r
  {
    if r.Done? { assert [] + r.value == r.value; }
  }

  lemma PrependTwice(a: seq<int>, b: seq<int>, r: Parse<seq<int>>)
    ensures Prepend(a, Prepend(b, r)) == Prepend(a + b, r)
  {
    if r.Done? { assert a + (b + r.value) == a + b + r.value; }
  }

  /** A complete stream. */
  ghost function StreamBits(cs: seq<Closed>, blockSize100k: nat): (r: seq<bool>)
    requires 1 <= blockSize100k <= 9 && AllGood(cs, blockSize100k)
  {
    ByteBits(Header(blockSize100k)) + BlocksBits(cs, blockSize100k) + ByteBits(EndMagic()) + Combined(cs)
  }

  /** Whatever an encoder chose for its blocks, the stream decodes to the text. */
  lemma StreamRoundTrip(cs: seq<Closed>, blockSize100k: nat, rest: seq<bool>)
    requires 1 <= blockSize100k <= 9 && AllGood(cs, blockSize100k)
    ensures GetStream(StreamBits(cs, blockSize100k) + rest) == Done(Texts(cs, blockSize100k), rest)
  {
    hide GetBlocks, BlocksBits, Texts, Combined, Expect, GetBits, ToBits, ByteBits, AllGood;
    Pow8();
    var magic: seq<int> := [0x42, 0x5a, 0x68];
    var level := 0x30 + blockSize100k;
    var end := ByteBits(EndMagic()) + Combined(cs) + rest;
    BlocksRoundTrip(cs, blockSize100k, end);
    TrailerRoundTrip(blockSize100k, Combined(cs), rest);
    assert Texts(cs, blockSize100k) + [] == Texts(cs, blockSize100k);
    var b := BlocksBits(cs, blockSize100k) + end;
    ByteBitsSnoc(magic, level);
    assert Header(blockSize100k) == magic + [level];
    assert StreamBits(cs, blockSize100k) + rest == ByteBits(magic) + (ToBits(8, level) + b);
    ExpectBytes(magic, ToBits(8, level) + b);
    GetPut(8, level, b);
  }
}
