/** BZ2_compressBlock for one non-empty block: sort, move-to-front, choose tables, send. */
module BlockEncoder {
  import opened Bytes
  import opened Powers
  import opened BitStrings
  import opened BitWriter
  import opened CrcRegister
  import opened Rotations
  import opened InverseBwt
  import opened BlockFormat
  import opened BlockWriter
  import Permutations
  import FallbackSort
  import MainSort
  import QuadrantOrder
  import TableChoice
  import MF = MoveToFront
  import ME = MtfEncoder

  // ----- bytes and checksums as bits

  lemma {:induction false} WordRoundTrip(bs: seq<bool>)
    ensures FromBits(bs) < Pow2(|bs|) && ToBits(|bs|, FromBits(bs)) == bs
    decreases |bs|
  {
    if bs != [] {
      WordRoundTrip(bs[1..]);
      assert bs == [bs[0]] + bs[1..];
    }
  }

  /** A run of whole bytes. */
  method PutBytes(w: Writer, bytes: seq<int>)
    requires w.Valid() && 0 <= w.bsLive && IsBytes(bytes)
    modifies w
    ensures w.Valid() && 0 <= w.bsLive && w.Bits() == old(w.Bits()) + ByteBits(bytes) && old(w.zbits) <= w.zbits
  {
    hide ToBits, Pow2, ByteBits, Loaded;
    ghost var b0 := w.Bits();
    NoBytes(bytes);
    assert b0 + [] == b0;
    for i := 0 to |bytes|
      invariant w.Valid() && 0 <= w.bsLive && w.Bits() == b0 + ByteBits(bytes[..i]) && old(w.zbits) <= w.zbits
    {
      ByteBitsSnoc(bytes[..i], bytes[i]);
      assert bytes[..i + 1] == bytes[..i] + [bytes[i]];
      Assoc(b0, ByteBits(bytes[..i]), ToBits(8, bytes[i]));
      w.W(8, bytes[i]);
    }
    assert bytes[..|bytes|] == bytes;
  }

  lemma NoBytes(bytes: seq<int>)
    ensures ByteBits(bytes[..0]) == []
  {
  }

  lemma QuarterBits(u: Word, i: nat)
    requires i < 4
    ensures FromBits(u[8 * i..8 * i + 8]) < Pow2(8) && ToBits(8, FromBits(u[8 * i..8 * i + 8])) == u[8 * i..8 * i + 8]
  {
    WordRoundTrip(u[8 * i..8 * i + 8]);
  }

  /** bsPutUInt32 */
  method PutUInt32(w: Writer, u: Word)
    requires w.Valid() && 0 <= w.bsLive
    modifies w
    ensures w.Valid() && 0 <= w.bsLive && w.Bits() == old(w.Bits()) + u && old(w.zbits) <= w.zbits
  {
    hide ToBits, FromBits, Pow2, ByteBits, Loaded, IsBytes;
    ghost var b0 := w.Bits();
    QuarterBits(u, 0);
    QuarterBits(u, 1);
    QuarterBits(u, 2);
    QuarterBits(u, 3);
    w.W(8, FromBits(u[0..8]));
    w.W(8, FromBits(u[8..16]));
    w.W(8, FromBits(u[16..24]));
    w.W(8, FromBits(u[24..32]));
    assert b0 + u[0..8] + u[8..16] + u[16..24] + u[24..32] == b0 + u;
  }

  // ----- what a block is turned into

  /** Everything chosen while a block is compressed. */
  datatype Encoding = Encoding(block: seq<int>, crc: Word, order: seq<int>, origPtr: nat, inUse: seq<bool>,
                               lens: seq<seq<int>>, sel: seq<int>)

  ghost predicate Sound(e: Encoding) {
    && 0 < |e.block| && IsSortedOrder(e.block, e.order) && e.origPtr < |e.block| && e.order[e.origPtr] == 0
    && GoodBlock(FromBits(e.crc), e.origPtr, LastColumn(e.block, e.order), e.inUse, e.lens, e.sel)
  }

  lemma EncodingNotEmpty(e: Encoding)
    requires Sound(e)
    ensures e.block != []
  {
    hide IsSortedOrder, GoodBlock, LastColumn;
  }

  /** The last column of a sound encoding. */
  ghost function Column(e: Encoding): (last: seq<int>)
    requires Sound(e)
    ensures |last| == |e.block| && IsBytes(last)
    ensures GoodBlock(FromBits(e.crc), e.origPtr, last, e.inUse, e.lens, e.sel)
  {
    LastColumn(e.block, e.order)
  }

  /** A sound encoding of this block with this checksum. */
  ghost predicate Encodes(e: Encoding, block: seq<int>, crc: Word) {
    Sound(e) && e.block == block && e.crc == crc
  }

  /** The tables and selectors are those that four rounds of improvement give for the symbols. */
  ghost predicate Tailored(e: Encoding) {
    Sound(e) && Tailors(Column(e), e.inUse, e.lens, e.sel)
  }

  ghost predicate Tailors(last: seq<int>, inUse: seq<bool>, lens: seq<seq<int>>, sel: seq<int>) {
    ME.Covered(last, inUse) && TunedFor(ME.BlockSymbols(last, inUse), lens, sel, |ME.Used(inUse, 256)| + 2)
  }

  ghost predicate TunedFor(syms: seq<int>, lens: seq<seq<int>>, sel: seq<int>, alphaSize: nat) {
    exists freq :: ME.Tallied(freq, syms) && TableChoice.Tuned(syms, freq, lens, sel, alphaSize)
  }

  function BlockMagic(): (r: seq<int>)
    ensures IsBytes(r)
  {
    [0x31, 0x41, 0x59, 0x26, 0x53, 0x59]
  }

  /** The bits after the magic number. */
  ghost function CoreBits(e: Encoding): (r: seq<bool>)
    requires Sound(e)
  {
    BlockBits(FromBits(e.crc), e.origPtr, Column(e), e.inUse, e.lens, e.sel)
  }

  /** All bits of a sound encoding. */
  ghost function EncodingBits(e: Encoding): (r: seq<bool>) {
    if Sound(e) then ByteBits(BlockMagic()) + CoreBits(e) else []
  }

  /** The magic bytes and the fixed fields, bit for bit. */
  lemma EncodingBitsAre(e: Encoding)
    requires Sound(e)
    ensures 1 <= |e.block| <= 900000 && e.origPtr < Pow2(24)
    ensures var last := LastColumn(e.block, e.order);
            && ME.Covered(last, e.inUse) && |last| == |e.block|
            && GoodChoice(e.lens, e.sel, |ME.Used(e.inUse, 256)| + 2, |ME.BlockSymbols(last, e.inUse)|)
            && EncodingBits(e) ==
               ByteBits(BlockMagic()) +
                 (e.crc + (ToBits(1, 0) + (ToBits(24, e.origPtr) + Payload(last, e.inUse, e.lens, e.sel))))
  {
    hide Payload, ME.Covered, GoodChoice, IsSortedOrder, ByteBits, LastColumn;
    MorePowers();
    WordRoundTrip(e.crc);
  }

  /** Pointers as memory: two halves each, low half first. */
  method Halves(fmap: array<int>) returns (arr1: array<int>)
    requires forall k :: 0 <= k < fmap.Length ==> 0 <= fmap[k] < 0x1_0000_0000
    ensures fresh(arr1) && arr1.Length == 2 * fmap.Length && ME.Unread(arr1[..], fmap[..], 0)
  {
    arr1 := new int[2 * fmap.Length](_ => 0);
    for i := 0 to fmap.Length
      invariant forall k :: 0 <= k < i ==> arr1[2 * k] + 0x10000 * arr1[2 * k + 1] == fmap[k]
    {
      arr1[2 * i] := fmap[i] % 0x10000;
      arr1[2 * i + 1] := fmap[i] / 0x10000;
    }
  }

  /** The place of rotation 0 in the sorted order; assertion 1003 cannot fail. */
  method FindOrigPtr(ptr: array<int>, nblock: nat) returns (origPtr: nat)
    requires ptr.Length == nblock > 0 && Permutations.IsPermutation(ptr[..], nblock)
    ensures origPtr < nblock && ptr[origPtr] == 0
    ensures forall k :: 0 <= k < origPtr ==> ptr[k] != 0
  {
    ghost var z := Permutations.Position(ptr[..], nblock, 0);
    assert ptr[..][z] == ptr[z];
    origPtr := 0;
    while ptr[origPtr] != 0
      invariant origPtr <= z && forall k :: 0 <= k < origPtr ==> ptr[k] != 0
      decreases z - origPtr
    {
      origPtr := origPtr + 1;
    }
  }

  /** The allowance of mainSort for its comparisons. */
  function Budget(nblock: nat, workFactor: int): (r: nat)
  {
    nblock * (((if workFactor < 1 then 1 else if workFactor > 100 then 100 else workFactor) - 1) / 3)
  }

  /** mainSort in a work area with room behind the block; false if its budget ran out. */
  method TryMainSort(block: array<int>, ptr: array<int>, nblock: nat, workFactor: int) returns (sorted: bool)
    requires block != ptr && 10000 <= nblock == ptr.Length == block.Length && nblock <= 900000 && IsBytes(block[..])
    modifies ptr
    ensures sorted ==> IsSortedOrder(block[..], ptr[..])
    // it gives up only where rotations agree on many characters
    ensures !sorted ==> QuadrantOrder.Repetitive(block[..])
  {
    hide *;
    var wide := new int[nblock + 34](k requires 0 <= k < nblock + 34 reads block =>
      if k < block.Length then block[k] else 0);
    var quadrant, ftab := new int[nblock + 34](_ => 0), new int[65537](_ => 0);
    assert wide[..nblock] == block[..];
    Overshoot();
    var budget := MainSort.MainSort(ptr, wide, quadrant, ftab, nblock, Budget(nblock, workFactor));
    assert block[..] == old(block[..]);
    sorted := budget >= 0;
  }

  lemma Overshoot()
    ensures QuadrantOrder.OVERSHOOT == 34
  {
  }

  /** BZ2_blockSort on the first nblock bytes of the block: the main sort for blocks that are not
      small, the fallback sort if that gives up or for small ones. */
  method BlockSort(block: array<int>, nblock: nat, workFactor: int)
    returns (work: array<int>, ptr: array<int>, origPtr: nat)
    requires 0 < nblock <= 900000 && nblock <= block.Length && IsBytes(block[..nblock])
    ensures fresh(work) && fresh(ptr) && work != ptr && work.Length == ptr.Length == nblock
    ensures work[..] == block[..nblock] && IsSortedOrder(work[..], ptr[..])
    ensures origPtr < nblock && ptr[origPtr] == 0
  {
    hide IsSortedOrder;
    work := new int[nblock](i requires 0 <= i < nblock reads block => block[i]);
    ptr := new int[nblock](_ => 0);
    assert work[..] == block[..nblock];
    var sorted := false;
    if nblock >= 10000 { sorted := TryMainSort(work, ptr, nblock, workFactor); }
    if !sorted {
      var eclass, bhtab := new int[nblock](_ => 0), new bool[32 * (nblock / 32 + 3)](_ => false);
      FallbackSort.Sort(work, ptr, eclass, bhtab, nblock);
    }
    SortedPermutation(work[..], ptr[..]);
    origPtr := FindOrigPtr(ptr, nblock);
  }

  lemma SortedPermutation(b: seq<int>, p: seq<int>)
    requires IsSortedOrder(b, p)
    ensures Permutations.IsPermutation(p, |b|)
    ensures forall k :: 0 <= k < |p| ==> 0 <= p[k] < |b|
  {
  }

  /** The last column holds only bytes of the block. */
  lemma LastColumnCovered(b: seq<int>, p: seq<int>, inUse: seq<bool>)
    requires IsSortedOrder(b, p) && ME.Covered(b, inUse)
    ensures |p| == |b| && (forall i :: 0 <= i < |p| ==> 0 <= p[i] < |b|) && ME.Covered(LastColumn(b, p), inUse)
  {
  }

  lemma CoveredBytes(b: seq<int>, inUse: seq<bool>)
    requires ME.Covered(b, inUse)
    ensures IsBytes(b) && |inUse| == 256
  {
  }

  /** sendMTFValues: tables are chosen, then everything is sent. */
  method SendMtfValues(w: Writer, mtfv: seq<int>, mtfFreq: seq<int>, inUse: seq<bool>, ghost last: seq<int>)
    returns (lens: seq<seq<int>>, sel: seq<int>)
    requires w.Valid() && 0 <= w.bsLive && 0 < |last| <= 900000 && ME.Covered(last, inUse)
    requires mtfv == ME.BlockSymbols(last, inUse) && ME.Tallied(mtfFreq, mtfv)
    modifies w
    ensures GoodChoice(lens, sel, |ME.Used(inUse, 256)| + 2, |ME.BlockSymbols(last, inUse)|)
    ensures Tailors(last, inUse, lens, sel)
    ensures w.Valid() && 0 <= w.bsLive && old(w.zbits) <= w.zbits
    ensures w.Bits() == old(w.Bits()) + Payload(last, inUse, lens, sel)
  {
    hide *;
    CoveredBytes(last, inUse);
    ghost var b0 := w.Bits();
    var nInUse, _ := ME.MakeMapsEncode(inUse);
    var alphaSize := nInUse + 2;
    BlockSymbolsGood(last, inUse, alphaSize);
    TalliedIs(mtfFreq, mtfv);
    lens, sel := TableChoice.ChooseTables(mtfv, mtfFreq, alphaSize);
    TailorsIs(last, inUse, mtfFreq, lens, sel, alphaSize);
    GoodChoiceIs(lens, sel, alphaSize, |mtfv|);
    ChoiceEncodes(lens, sel, alphaSize, |mtfv|);
    var codes := AssignAll(lens, alphaSize);
    SendMapping(w, inUse);
    SendSelectors(w, sel, |lens|);
    SendTables(w, lens);
    SendCodes(w, mtfv, lens, codes, sel, alphaSize);
    PayloadIs(last, inUse, lens, sel, alphaSize);
    Regroup4(b0, Mapping(inUse), Selectors(sel, |lens|), CodingTables(lens, 0), Codes(mtfv, lens, sel, 0, alphaSize));
  }

  lemma TailorsIs(last: seq<int>, inUse: seq<bool>, freq: seq<int>, lens: seq<seq<int>>, sel: seq<int>,
                  alphaSize: nat)
    requires ME.Covered(last, inUse) && alphaSize == |ME.Used(inUse, 256)| + 2
    requires ME.Tallied(freq, ME.BlockSymbols(last, inUse))
    requires TableChoice.Tuned(ME.BlockSymbols(last, inUse), freq, lens, sel, alphaSize)
    ensures Tailors(last, inUse, lens, sel)
  {
    hide TableChoice.Tuned, ME.Tallied, ME.BlockSymbols, ME.Used, ME.Covered;
  }

  lemma Regroup4(a: seq<bool>, b: seq<bool>, c: seq<bool>, d: seq<bool>, e: seq<bool>)
    ensures a + b + c + d + e == a + (b + (c + (d + e)))
  {
  }

  lemma PayloadIs(last: seq<int>, inUse: seq<bool>, lens: seq<seq<int>>, sel: seq<int>, alphaSize: nat)
    requires ME.Covered(last, inUse) && last != [] && alphaSize == |ME.Used(inUse, 256)| + 2
    requires GoodChoice(lens, sel, alphaSize, |ME.BlockSymbols(last, inUse)|)
    ensures GoodTables(lens, alphaSize) && GoodSelectors(sel, |lens|, |ME.BlockSymbols(last, inUse)|)
    ensures GoodSymbols(ME.BlockSymbols(last, inUse), alphaSize)
    ensures MF.AllIn(sel, MF.Identity(|lens|)) && |lens| < 8 && |sel| < 32768
    ensures forall k :: 0 <= k < |lens| ==> |lens[k]| > 0 && 0 <= lens[k][0] < 32
    ensures Payload(last, inUse, lens, sel) ==
            Mapping(inUse) + (Selectors(sel, |lens|) +
              (CodingTables(lens, 0) + Codes(ME.BlockSymbols(last, inUse), lens, sel, 0, alphaSize)))
  {
    hide ME.Used, ME.BlockSymbols, Codes, Mapping, Selectors, CodingTables, GoodSymbols, GoodTables, GoodSelectors;
    BlockSymbolsGood(last, inUse, alphaSize);
    ChoiceEncodes(lens, sel, alphaSize, |ME.BlockSymbols(last, inUse)|);
  }

  lemma Glue(b0: seq<bool>, a: seq<bool>, b: seq<bool>, c: seq<bool>, d: seq<bool>, e: seq<bool>)
    ensures b0 + a + b + c + d + e == b0 + (a + (b + (c + (d + e))))
  {
  }

  lemma SoundMake(e: Encoding)
    requires 0 < |e.block| <= 900000 && IsSortedOrder(e.block, e.order) && e.origPtr < |e.block|
    requires e.order[e.origPtr] == 0
    requires |e.order| == |e.block| && (forall i :: 0 <= i < |e.order| ==> 0 <= e.order[i] < |e.block|)
    requires ME.Covered(LastColumn(e.block, e.order), e.inUse)
    requires GoodChoice(e.lens, e.sel, |ME.Used(e.inUse, 256)| + 2,
      |ME.BlockSymbols(LastColumn(e.block, e.order), e.inUse)|)
    ensures Sound(e)
  {
    MorePowers();
    hide ME.Covered, GoodChoice, ME.Used, ME.BlockSymbols, Pow2, LastColumn;
  }

  lemma TailoredIs(e: Encoding)
    requires Sound(e) && Tailors(Column(e), e.inUse, e.lens, e.sel)
    ensures Tailored(e)
  {
    hide Tailors;
  }

  lemma ColumnIs(e: Encoding)
    requires Sound(e)
    ensures |e.order| == |e.block| && (forall i :: 0 <= i < |e.order| ==> 0 <= e.order[i] < |e.block|)
    ensures Column(e) == LastColumn(e.block, e.order)
  {
    hide LastColumn, GoodBlock;
  }

  lemma SoundEncodes(e: Encoding)
    requires Sound(e)
    ensures Encodes(e, e.block, e.crc)
  {
  }

  lemma MagicBytes()
    ensures BlockMagic() == [0x31, 0x41, 0x59, 0x26, 0x53, 0x59] && IsBytes(BlockMagic())
    ensures Pow2(1) == 2 && Pow2(24) == 0x100_0000
  {
    MorePowers();
  }

  lemma TalliedIs(freq: seq<int>, written: seq<int>)
    requires ME.Tallied(freq, written)
    ensures |freq| == 258
  {
  }

  /** A block is sorted, coded and written, and its bits are a sound encoding of it. */
  method SendBlock(w: Writer, block: array<int>, nblock: nat, workFactor: int, inUse: seq<bool>, crc: Word)
    returns (ghost e: Encoding)
    requires w.Valid() && 0 <= w.bsLive
    requires 0 < nblock <= 900000 && nblock <= block.Length && ME.Covered(block[..nblock], inUse)
    modifies w
    ensures w.Valid() && 0 <= w.bsLive && old(w.zbits) <= w.zbits
    ensures Encodes(e, block[..nblock], crc) && e.inUse == inUse && Tailored(e)
    ensures w.Bits() == old(w.Bits()) + EncodingBits(e)
  {
    hide *;
    ghost var b0 := w.Bits();
    CoveredBytes(block[..nblock], inUse);
    MagicBytes();
    var work, ptr, origPtr := BlockSort(block, nblock, workFactor);
    ghost var order := ptr[..];
    LastColumnCovered(work[..], order, inUse);
    PutBytes(w, [0x31, 0x41, 0x59, 0x26, 0x53, 0x59]);
    PutUInt32(w, crc);
    w.W(1, 0);
    w.W(24, origPtr);
    assert ptr[..] == order;
    var arr1 := Halves(ptr);
    ghost var last := LastColumn(work[..], order);
    var nMTF, mtfFreq := ME.GenerateMtfValues(arr1, work, nblock, inUse, order);
    var lens, sel := SendMtfValues(w, arr1[..nMTF], mtfFreq, inUse, last);
    e := Encoding(block[..nblock], crc, order, origPtr, inUse, lens, sel);
    SoundMake(e);
    assert Encodes(e, block[..nblock], crc) by { SoundEncodes(e); }
    ColumnIs(e);
    TailoredIs(e);
    EncodingBitsAre(e);
    Glue(b0, ByteBits(BlockMagic()), crc, ToBits(1, 0), ToBits(24, origPtr), Payload(last, inUse, lens, sel));
  }
}
