/** How large the coded form of a block can be, and what follows for the buffers that hold it. */
module BlockSize {
  import opened Powers
  import opened BitStrings
  import opened BitWriter
  import opened HuffmanTree
  import opened HuffmanCodes
  import opened BlockFormat
  import opened BlockEncoder
  import opened InverseBwt
  import opened Rotations
  import QuadrantOrder
  import MF = MoveToFront
  import ME = MtfEncoder

  /** BZ_MAX_SELECTORS */
  const MAX_SELECTORS := 2 + 900000 / 50

  /** The bytes of arr2 that lie behind a block of nblock bytes. */
  function Room(blockSize100k: nat, nblock: nat): (r: int)
    ensures nblock <= 100000 * blockSize100k ==> r > 0
  {
    4 * (100000 * blockSize100k + QuadrantOrder.OVERSHOOT) - nblock
  }

  // ----- the parts of a block

  lemma {:induction false} UnaryLength(j: nat)
    ensures |Unary(j)| == j + 1
  {
    if j > 0 { UnaryLength(j - 1); }
  }

  lemma {:induction false} UnariesLength(places: seq<nat>)
    requires forall i :: 0 <= i < |places| ==> places[i] < 6
    ensures |Unaries(places)| <= 6 * |places|
    decreases |places|
  {
    if places != [] {
      UnaryLength(places[0]);
      UnariesLength(places[1..]);
    }
  }

  lemma SelectorsLength(sel: seq<int>, nGroups: nat)
    requires nGroups <= 6 && |sel| < 32768 && MF.AllIn(sel, MF.Identity(nGroups))
    ensures |Selectors(sel, nGroups)| <= 18 + 6 * |sel|
  {
    hide Unaries, SelectorPlaces, ToBits;
    PlacesInvert(sel, MF.Identity(nGroups));
    UnariesLength(SelectorPlaces(sel, MF.Identity(nGroups)));
  }

  lemma {:induction false} StepsLength(curr: int, target: int)
    requires 1 <= curr <= 20 && 1 <= target <= 20
    ensures |Steps(curr, target)| == 1 + 2 * (if curr < target then target - curr else curr - target)
    decreases if curr < target then target - curr else curr - target
  {
    if curr < target { StepsLength(curr + 1, target); }
    if curr > target { StepsLength(curr - 1, target); }
  }

  lemma {:induction false} DeltasLength(len: seq<int>, i: nat, curr: int)
    requires i <= |len| && 1 <= curr <= 20 && forall k :: 0 <= k < |len| ==> 1 <= len[k] <= 20
    ensures |LengthDeltas(len, i, curr)| <= 39 * (|len| - i)
    decreases |len| - i
  {
    if i < |len| {
      StepsLength(curr, len[i]);
      DeltasLength(len, i + 1, len[i]);
    }
  }

  lemma {:induction false} TablesLength(lens: seq<seq<int>>, t: nat)
    requires t <= |lens|
    requires forall k :: 0 <= k < |lens| ==>
      0 < |lens[k]| <= 258 && forall i :: 0 <= i < |lens[k]| ==> 1 <= lens[k][i] <= 20
    ensures |CodingTables(lens, t)| <= 10067 * (|lens| - t)
    decreases |lens| - t
  {
    if t < |lens| {
      DeltasLength(lens[t], 0, lens[t][0]);
      TablesLength(lens, t + 1);
    }
  }

  lemma {:induction false} RowsLength(inUse: seq<bool>, i: nat)
    requires |inUse| == 256 && i <= 16
    ensures |Rows(inUse, i)| <= 16 * (16 - i)
    decreases 16 - i
  {
    hide RowUsed;
    if i < 16 { RowsLength(inUse, i + 1); }
  }

  lemma CodeLength(len: seq<int>, s: int)
    requires ValidLengths(len) && 0 <= s < |len| && KraftSum(len, |len|) <= Pow2(20)
    ensures |CodeBits(len, s)| == len[s] <= 20
  {
    hide KraftSum;
    CodesFit(len, s);
  }

  lemma {:induction false} CodesLength(syms: seq<int>, lens: seq<seq<int>>, sel: seq<int>, k: nat, alphaSize: nat)
    requires GoodTables(lens, alphaSize) && GoodSelectors(sel, |lens|, |syms|) && GoodSymbols(syms, alphaSize)
    requires k <= |syms|
    ensures |Codes(syms, lens, sel, k, alphaSize)| <= 20 * (|syms| - k)
    decreases |syms| - k
  {
    hide *;
    CodesUnfold(syms, lens, sel, k, alphaSize);
    if k < |syms| {
      CodeLength(lens[sel[k / 50]], syms[k]);
      CodesLength(syms, lens, sel, k + 1, alphaSize);
    }
  }

  lemma SelectorCount(sel: seq<int>, nGroups: nat, nSyms: nat)
    requires GoodSelectors(sel, nGroups, nSyms)
    ensures 1 <= |sel| < 32768 && 50 * (|sel| - 1) < nSyms
  {
  }

  lemma PayloadLength(last: seq<int>, inUse: seq<bool>, lens: seq<seq<int>>, sel: seq<int>)
    requires ME.Covered(last, inUse) && last != []
    requires GoodChoice(lens, sel, |ME.Used(inUse, 256)| + 2, |ME.BlockSymbols(last, inUse)|)
    ensures |Payload(last, inUse, lens, sel)| <= 21 * |last| + 60730
  {
    hide GoodTables, GoodSelectors, GoodSymbols, Codes, CodingTables, Selectors, Rows, UsedRows, ME.Used,
         ME.BlockSymbols, MF.AllIn;
    var alphaSize := |ME.Used(inUse, 256)| + 2;
    var syms := ME.BlockSymbols(last, inUse);
    BlockSymbolsGood(last, inUse, alphaSize);
    ChoiceEncodes(lens, sel, alphaSize, |syms|);
    SelectorCount(sel, |lens|, |syms|);
    RowsLength(inUse, 0);
    SelectorsLength(sel, |lens|);
    TablesLength(lens, 0);
    CodesLength(syms, lens, sel, 0, alphaSize);
  }

  /** The last column, what was chosen for it, and the fields before its symbols. */
  lemma EncodingParts(e: Encoding)
    requires Sound(e)
    ensures var last := Column(e);
            && |last| == |e.block| > 0 && ME.Covered(last, e.inUse)
            && GoodChoice(e.lens, e.sel, |ME.Used(e.inUse, 256)| + 2, |ME.BlockSymbols(last, e.inUse)|)
            && |EncodingBits(e)| == 48 + 32 + 1 + 24 + |Payload(last, e.inUse, e.lens, e.sel)|
  {
    hide Payload, ME.Covered, GoodChoice, ByteBits, ToBits, LastColumn, ME.Used, ME.BlockSymbols, IsSortedOrder;
  }

  /** A coded block is not much longer than 21 bits for each byte. */
  lemma EncodingLength(e: Encoding)
    requires Sound(e)
    ensures |EncodingBits(e)| <= 21 * |e.block| + 60835
  {
    hide *;
    EncodingParts(e);
    PayloadLength(Column(e), e.inUse, e.lens, e.sel);
  }

  /** With the header of the stream, the trailer, and up to 32 bits held over from the block before,
      the bits of a block fit behind it. */
  lemma RoomEnough(blockSize100k: nat, nblock: nat, bits: nat)
    requires 1 <= blockSize100k && nblock <= 100000 * blockSize100k && bits <= 21 * nblock + 60835 + 32 + 80 + 7 + 32
    ensures bits <= 8 * Room(blockSize100k, nblock)
  {
  }

  // ----- the selectors

  /** An encoder's selectors fit the arrays made for them. */
  lemma SelectorsFit(e: Encoding)
    requires Sound(e)
    ensures |e.block| <= 900000 && |e.sel| < MAX_SELECTORS
  {
    hide ME.Covered, GoodTables, GoodSelectors, LastColumn, ME.Used, ME.BlockSymbols, IsSortedOrder, Payload,
         EncodingBits;
    EncodingParts(e);
    SelectorCount(e.sel, |e.lens|, |ME.BlockSymbols(Column(e), e.inUse)|);
  }

  /** How many places the decoder stores while it reads n selectors from bs. */
  function Stored(bs: seq<bool>, n: nat, nGroups: nat): (r: nat)
    requires nGroups > 0
    ensures r <= n
    decreases n
  {
    if n == 0 then 0
    else match GetUnary(bs, 0, nGroups)
      case Done(_, rest) => 1 + Stored(rest, n - 1, nGroups)
      case NeedInput => 0
      case Bad => 0
  }

  lemma {:induction false} AllStored(bs: seq<bool>, n: nat, nGroups: nat)
    requires nGroups > 0 && GetUnaries(bs, n, nGroups).Done?
    ensures Stored(bs, n, nGroups) == n
    decreases n
  {
    hide GetUnary;
    if n > 0 { AllStored(GetUnary(bs, 0, nGroups).rest, n - 1, nGroups); }
  }

  /** Whatever bits follow, no place is stored behind the array: exactly when the count read is at
      most MAX_SELECTORS. */
  lemma StoreInBounds(n: nat, nGroups: nat)
    requires 2 <= nGroups <= 6
    ensures (forall bs :: Stored(bs, n, nGroups) <= MAX_SELECTORS) <==> n <= MAX_SELECTORS
  {
    hide GetUnary, Stored, Unaries;
    var places: seq<nat> := seq(n, _ => 0);
    var bs := Unaries(places) + [];
    UnariesRoundTrip(places, nGroups, []);
    AllStored(bs, n, nGroups);
    assert Stored(bs, n, nGroups) == n;
  }

  /** The reader itself takes every count of 15 bits but zero. */
  lemma AnyCountTaken(n: nat, rest: seq<bool>)
    requires 1 <= n < 32768
    ensures MF.AllIn(seq(n, _ => 0), MF.Identity(2))
    ensures GetSelectors(Selectors(seq(n, _ => 0), 2) + rest) == Done((2, seq(n, _ => 0)), rest)
  {
    hide Selectors, GetSelectors;
    var sel: seq<int> := seq(n, _ => 0);
    assert MF.Identity(2)[0] == 0;
    assert forall i :: 0 <= i < n ==> sel[i] in MF.Identity(2);
    SelectorsRoundTrip(sel, 2, rest);
  }
}
