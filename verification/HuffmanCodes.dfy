/** Canonical Huffman codes: BZ2_hbAssignCodes, BZ2_hbCreateDecodeTables and the bit-by-bit
    decoding of GET_MTF_VAL. */
module HuffmanCodes {
  import opened Powers
  import opened Counting
  import opened BitStrings
  import opened HuffmanTree

  /** A length table the decoder accepts. */
  ghost predicate ValidLengths(len: seq<int>) {
    0 < |len| <= 258 && forall i :: 0 <= i < |len| ==> 1 <= len[i] <= 20
  }

  /** The first code of length l. */
  function First(len: seq<int>, l: nat): (r: nat) {
    if l == 0 then 0 else 2 * (First(len, l - 1) + Occurs(len, |len|, l - 1))
  }

  /** The code of symbol i: codes of one length are consecutive, in symbol order. */
  function CodeOf(len: seq<int>, i: nat): (r: nat)
    requires i < |len| && len[i] >= 0
  {
    First(len, len[i]) + Occurs(len, i, len[i])
  }

  /** One past the last code of length l. */
  function Next(len: seq<int>, l: nat): (r: nat) {
    First(len, l) + Occurs(len, |len|, l)
  }

  lemma {:induction false} NoneShorter(len: seq<int>, l: nat)
    requires forall i :: 0 <= i < |len| ==> len[i] >= l
    ensures First(len, l) == 0 && Below(len, |len|, l) == 0
  {
    if l > 0 {
      NoneShorter(len, l - 1);
      NoneOf(len, |len|, l - 1);
      BelowSuccessor(len, |len|, l - 1);
    } else {
      NoneBelow(len, |len|);
    }
  }

  lemma {:induction false} NoneOf(len: seq<int>, k: nat, c: int)
    requires k <= |len| && forall i :: 0 <= i < k ==> len[i] != c
    ensures Occurs(len, k, c) == 0
  {
    if k > 0 { NoneOf(len, k - 1, c); }
  }

  lemma {:induction false} NoneBelow(len: seq<int>, k: nat)
    requires k <= |len| && forall i :: 0 <= i < k ==> len[i] >= 0
    ensures Below(len, k, 0) == 0
  {
    if k > 0 { NoneBelow(len, k - 1); }
  }

  // ----- codes fit their lengths exactly when the Kraft sum is at most one

  /** Kraft sum over the symbols up to k whose length is at most l. */
  function PartKraft(len: seq<int>, k: nat, l: int): (r: nat)
    requires k <= |len|
  {
    if k == 0 then 0 else PartKraft(len, k - 1, l) + if len[k - 1] <= l then Share(len[k - 1]) else 0
  }

  lemma {:induction false} PartKraftStep(len: seq<int>, k: nat, l: int)
    requires k <= |len| && 0 <= l
    ensures PartKraft(len, k, l) == PartKraft(len, k, l - 1) + Occurs(len, k, l) * Share(l)
  {
    hide Share, PartKraft, Occurs;
    PartKraftNext(len, k, l);
    if k > 0 {
      PartKraftStep(len, k - 1, l);
      OneMore(Occurs(len, k - 1, l), Share(l));
    }
  }

  lemma PartKraftNext(len: seq<int>, k: nat, l: int)
    requires k <= |len|
    ensures k == 0 ==> PartKraft(len, k, l) == PartKraft(len, k, l - 1) == Occurs(len, k, l) == 0
    ensures k > 0 ==>
      && PartKraft(len, k, l) == PartKraft(len, k - 1, l) + (if len[k - 1] <= l then Share(len[k - 1]) else 0)
      && PartKraft(len, k, l - 1) == PartKraft(len, k - 1, l - 1) + (if len[k - 1] < l then Share(len[k - 1]) else 0)
      && Occurs(len, k, l) == Occurs(len, k - 1, l) + (if len[k - 1] == l then 1 else 0)
  {
    hide Share;
  }

  lemma OneMore(o: int, s: int)
    ensures (o + 1) * s == o * s + s && 0 * s == 0
  {
  }

  lemma {:induction false} PartKraftBound(len: seq<int>, k: nat, l: int)
    requires k <= |len|
    ensures PartKraft(len, k, l) <= KraftSum(len, k)
    ensures (forall i :: 0 <= i < k ==> len[i] <= l) ==> PartKraft(len, k, l) == KraftSum(len, k)
    ensures (forall i :: 0 <= i < k ==> len[i] > l) ==> PartKraft(len, k, l) == 0
  {
    if k > 0 { PartKraftBound(len, k - 1, l); }
  }

  /** Next(l) is the Kraft sum up to length l, in units of codes of length l. */
  lemma {:induction false} NextIsKraft(len: seq<int>, l: nat)
    requires ValidLengths(len) && l <= 20
    ensures Next(len, l) * Share(l) == PartKraft(len, |len|, l)
  {
    hide Share, PartKraft, Occurs;
    PartKraftStep(len, |len|, l);
    var s, o := Share(l), Occurs(len, |len|, l);
    if l == 0 {
      PartKraftBound(len, |len|, -1);
    } else {
      NextIsKraft(len, l - 1);
      ShareHalves(l - 1);
      Doubling(Next(len, l - 1), s, o);
    }
  }

  lemma Doubling(x: int, s: int, o: int)
    ensures (2 * x + o) * s == x * (2 * s) + o * s
  {
  }

  lemma SharePow(l: nat)
    requires l <= 20
    ensures Pow2(l) * Share(l) == Pow2(20) && Share(l) >= 1
  {
    hide Pow2;
    Pow2Add(l, 20 - l);
  }

  lemma CodesFit(len: seq<int>, i: nat)
    requires ValidLengths(len) && i < |len| && KraftSum(len, |len|) <= Pow2(20)
    ensures CodeOf(len, i) < Next(len, len[i]) <= Pow2(len[i])
  {
    hide Share, PartKraft, Occurs, Pow2, KraftSum, First;
    var l := len[i];
    OccursAfter(len, i, |len|, l);
    NextIsKraft(len, l);
    PartKraftBound(len, |len|, l);
    SharePow(l);
    if Next(len, l) > Pow2(l) { Exceeds(Next(len, l), Pow2(l), Share(l)); }
  }

  lemma Exceeds(x: int, y: int, s: int)
    requires x > y && s >= 1
    ensures x * s > y * s
  {
  }

  /** The last symbol of a given length gets the last code of that length. */
  lemma {:induction false} LastOf(len: seq<int>, k: nat, c: int) returns (i: nat)
    requires k <= |len| && Occurs(len, k, c) > 0
    ensures i < k && len[i] == c && Occurs(len, i, c) == Occurs(len, k, c) - 1
  {
    if len[k - 1] == c { i := k - 1; } else { i := LastOf(len, k - 1, c); }
  }

  /** All codes fit in their lengths if and only if the Kraft sum is at most one. */
  lemma CodesFitIffKraft(len: seq<int>, maxLen: int)
    requires ValidLengths(len) && maxLen in len && forall i :: 0 <= i < |len| ==> len[i] <= maxLen
    ensures (forall i :: 0 <= i < |len| ==> CodeOf(len, i) < Pow2(len[i])) <==> KraftSum(len, |len|) <= Pow2(20)
  {
    if KraftSum(len, |len|) <= Pow2(20) {
      forall i | 0 <= i < |len| ensures CodeOf(len, i) < Pow2(len[i]) { CodesFit(len, i); }
    } else {
      var k :| 0 <= k < |len| && len[k] == maxLen;
      OccursAfter(len, k, |len|, maxLen);
      var i := LastOf(len, |len|, maxLen);
      NextIsKraft(len, maxLen);
      PartKraftBound(len, |len|, maxLen);
      SharePow(maxLen);
      if Next(len, maxLen) <= Pow2(maxLen) { MulMonotone(Next(len, maxLen), Pow2(maxLen), Share(maxLen)); }
      assert CodeOf(len, i) >= Pow2(len[i]);
    }
  }

  // ----- decoding

  datatype Tables = Tables(limit: seq<int>, base: seq<int>, perm: seq<int>, minLen: int)

  /** The tables that BZ2_hbCreateDecodeTables fills. */
  ghost predicate DecodeTables(t: Tables, len: seq<int>, maxLen: int) {
    && ValidLengths(len) && 1 <= t.minLen <= maxLen <= 20
    && |t.limit| == 23 && |t.base| == 23 && |t.perm| == 258
    && (forall i :: 0 <= i < |len| ==> t.minLen <= len[i] <= maxLen)
    && (forall l :: t.minLen <= l <= maxLen ==> t.limit[l] == Next(len, l) - 1)
    && (forall l :: t.minLen <= l <= maxLen ==> t.base[l] == First(len, l) - Below(len, |len|, l))
    && (forall l :: maxLen < l < 23 ==> t.limit[l] == 0 && t.base[l] == |len|)
    && (forall i :: 0 <= i < |len| ==> t.perm[Slot(len, i)] == i)
  }

  function Bit(b: bool): (r: int) { if b then 1 else 0 }

  /** The inner loop of GET_MTF_VAL, after the first minLen bits. */
  function ReadCode(t: Tables, bs: seq<bool>, zn: nat, zvec: int): (r: Parse<int>)
    requires |t.limit| >= 23 && |t.base| >= 23 && |t.perm| == 258
    decreases 21 - zn
  {
    if zn > 20 then Bad
    else if zvec <= t.limit[zn] then
      if zvec - t.base[zn] < 0 || zvec - t.base[zn] >= 258 then Bad
      else Done(t.perm[zvec - t.base[zn]], bs)
    else if bs == [] then NeedInput
    else ReadCode(t, bs[1..], zn + 1, 2 * zvec + Bit(bs[0]))
  }

  /** One symbol from the bit stream. */
  function ReadSymbol(t: Tables, bs: seq<bool>): (r: Parse<int>)
    requires |t.limit| >= 23 && |t.base| >= 23 && |t.perm| == 258 && t.minLen >= 0
  {
    match GetBits(bs, t.minLen)
    case Done(zvec, rest) => ReadCode(t, rest, t.minLen, zvec)
    case NeedInput => NeedInput
    case Bad => Bad
  }

  /** Codes of length l, extended by k bits, lie below the codes of length l + k. */
  lemma {:induction false} LongerAbove(len: seq<int>, l: nat, k: nat)
    requires k > 0
    ensures First(len, l + k) >= Next(len, l) * Pow2(k)
    decreases k
  {
    hide First, Next, Pow2, Occurs;
    FirstAfter(len, l + k - 1);
    NextPower(k - 1);
    if k > 1 { LongerAbove(len, l, k - 1); }
    DoubleProduct(Next(len, l), Pow2(k - 1), Pow2(k));
  }

  lemma FirstAfter(len: seq<int>, l: nat)
    ensures First(len, l + 1) == 2 * Next(len, l) && Next(len, l) >= First(len, l)
  {
    hide Occurs;
  }

  lemma NextPower(k: nat)
    ensures Pow2(0) == 1 && Pow2(k + 1) == 2 * Pow2(k)
  {
  }

  lemma DoubleProduct(x: int, p: int, q: int)
    requires q == 2 * p
    ensures x * q == 2 * (x * p) && x * 1 == x
  {
  }

  /** While fewer than len[s] bits of the code of s are read, the limit is exceeded. */
  lemma PrefixAboveLimit(len: seq<int>, s: nat, l: nat, q: nat, r: nat)
    requires s < |len| && l < len[s] && r < Pow2(len[s] - l)
    requires CodeOf(len, s) == q * Pow2(len[s] - l) + r
    ensures q >= Next(len, l)
  {
    hide Pow2, First, Occurs, Next;
    LongerAbove(len, l, len[s] - l);
    HighPart(q, Next(len, l), Pow2(len[s] - l), r);
  }

  lemma HighPart(q: int, x: int, w: int, r: int)
    requires 0 <= r < w && q * w + r >= x * w
    ensures q >= x
  {
    if q < x { MulMonotone(q + 1, x, w); }
  }

  lemma ReadLast(t: Tables, len: seq<int>, maxLen: int, s: nat, bs: seq<bool>)
    requires DecodeTables(t, len, maxLen) && s < |len|
    ensures ReadCode(t, bs, len[s], CodeOf(len, s)) == Done(s, bs)
  {
    OccursAfter(len, s, |len|, len[s]);
    assert CodeOf(len, s) - t.base[len[s]] == Slot(len, s);
  }

  /** Peeling the top bit off the low part of a number moves it to the high part. */
  lemma TopBit(k: nat, q: nat, r: nat, b: bool, r': int)
    requires k > 0 && r < Pow2(k) && b == (r >= Pow2(k - 1)) && r' == if b then r - Pow2(k - 1) else r
    ensures 0 <= r' < Pow2(k - 1)
    ensures q * Pow2(k) + r == (2 * q + Bit(b)) * Pow2(k - 1) + r'
    ensures ToBits(k, r) == [b] + ToBits(k - 1, r')
  {
    var p := Pow2(k - 1);
    Doubling(q, p, Bit(b));
  }

  lemma ReadMore(t: Tables, len: seq<int>, maxLen: int, s: nat, bs: seq<bool>, l: nat, q: nat, b: bool)
    requires DecodeTables(t, len, maxLen) && s < |len| && t.minLen <= l < len[s] && q >= Next(len, l)
    ensures ReadCode(t, [b] + bs, l, q) == ReadCode(t, bs, l + 1, 2 * q + Bit(b))
  {
    assert ([b] + bs)[1..] == bs;
  }

  lemma TablesShape(t: Tables, len: seq<int>, maxLen: int, s: nat)
    requires DecodeTables(t, len, maxLen) && s < |len|
    ensures |t.limit| >= 23 && |t.base| >= 23 && |t.perm| == 258
    ensures 1 <= t.minLen <= len[s] <= maxLen <= 20 && ValidLengths(len)
  {
  }

  lemma {:induction false} ReadCodeFrom(t: Tables, len: seq<int>, maxLen: int, s: nat, l: nat, q: nat, r: nat,
                                        rest: seq<bool>)
    requires DecodeTables(t, len, maxLen) && s < |len| && t.minLen <= l <= len[s] && r < Pow2(len[s] - l)
    requires CodeOf(len, s) == q * Pow2(len[s] - l) + r
    ensures ReadCode(t, ToBits(len[s] - l, r) + rest, l, q) == Done(s, rest)
    decreases len[s] - l
  {
    hide *;
    var k := len[s] - l;
    TablesShape(t, len, maxLen, s);
    if k == 0 {
      PowZero();
      assert ToBits(0, r) + rest == rest;
      ReadLast(t, len, maxLen, s, rest);
    } else {
      PrefixAboveLimit(len, s, l, q, r);
      var b := r >= Pow2(k - 1);
      var r' := if b then r - Pow2(k - 1) else r;
      TopBit(k, q, r, b, r');
      BitNatural(b);
      ReadCodeFrom(t, len, maxLen, s, l + 1, 2 * q + Bit(b), r', rest);
      ReadMore(t, len, maxLen, s, ToBits(k - 1, r') + rest, l, q, b);
      assert ToBits(k, r) + rest == [b] + (ToBits(k - 1, r') + rest);
    }
  }

  lemma PowZero()
    ensures Pow2(0) == 1
  {
  }

  lemma BitNatural(b: bool)
    ensures Bit(b) >= 0
  {
  }

  /** Decoding inverts encoding: after exactly len[s] bits the symbol is back, whatever follows. */
  lemma SymbolRoundTrip(t: Tables, len: seq<int>, maxLen: int, s: nat, rest: seq<bool>)
    requires DecodeTables(t, len, maxLen) && s < |len| && KraftSum(len, |len|) <= Pow2(20)
    ensures ValidLengths(len) && CodeOf(len, s) < Pow2(len[s])
    ensures ReadSymbol(t, ToBits(len[s], CodeOf(len, s)) + rest) == Done(s, rest)
  {
    hide Pow2, CodeOf, DecodeTables, ToBits, GetBits, ReadCode, ValidLengths, KraftSum;
    TablesShape(t, len, maxLen, s);
    CodesFit(len, s);
    var m, c := t.minLen, CodeOf(len, s);
    var k := len[s] - m;
    var q, r := c / Pow2(k), c % Pow2(k);
    SplitCode(m, k, c, q, r);
    ToBitsSplit(m, k, q, r);
    assert ToBits(len[s], c) + rest == ToBits(m, q) + (ToBits(k, r) + rest);
    GetPut(m, q, ToBits(k, r) + rest);
    ReadCodeFrom(t, len, maxLen, s, m, q, r, rest);
  }

  lemma SplitCode(m: nat, k: nat, c: nat, q: int, r: int)
    requires c < Pow2(m + k) && q == c / Pow2(k) && r == c % Pow2(k)
    ensures c == q * Pow2(k) + r && 0 <= r < Pow2(k) && 0 <= q < Pow2(m)
  {
    hide Pow2;
    Pow2Add(m, k);
    SplitNumber(c, Pow2(m), Pow2(k), q, r);
  }

  lemma SplitNumber(c: nat, p: nat, w: nat, q: int, r: int)
    requires w > 0 && c < p * w && q == c / w && r == c % w
    ensures c == q * w + r && 0 <= r < w && 0 <= q < p
  {
    if q >= p { MulMonotone(p, q, w); }
    if q < 0 { MulMonotone(q, -1, w); }
  }

  /** Whatever the bits, a symbol read lies in the alphabet, and depends only on the lengths. */
  lemma {:induction false} ReadCodeInRange(t: Tables, u: Tables, len: seq<int>, maxLen: int, bs: seq<bool>, zn: nat,
                                           zvec: nat)
    requires DecodeTables(t, len, maxLen) && DecodeTables(u, len, maxLen) && zn >= t.minLen == u.minLen
    ensures ReadCode(t, bs, zn, zvec) == ReadCode(u, bs, zn, zvec)
    ensures ReadCode(t, bs, zn, zvec).Done? ==>
      0 <= ReadCode(t, bs, zn, zvec).value < |len| && |ReadCode(t, bs, zn, zvec).rest| <= |bs|
    decreases 21 - zn
  {
    if zn <= 20 {
      if zvec <= t.limit[zn] {
        if zn <= maxLen && 0 <= zvec - t.base[zn] < 258 { ReadIndex(t, u, len, maxLen, zn, zvec); }
      } else if bs != [] {
        ReadCodeInRange(t, u, len, maxLen, bs[1..], zn + 1, 2 * zvec + Bit(bs[0]));
      }
    }
  }

  lemma ReadIndex(t: Tables, u: Tables, len: seq<int>, maxLen: int, zn: nat, zvec: int)
    requires DecodeTables(t, len, maxLen) && DecodeTables(u, len, maxLen) && t.minLen == u.minLen
    requires t.minLen <= zn <= maxLen && 0 <= zvec - t.base[zn] < 258 && zvec <= t.limit[zn]
    ensures u.base[zn] == t.base[zn] && u.limit[zn] == t.limit[zn]
    ensures 0 <= t.perm[zvec - t.base[zn]] < |len| && u.perm[zvec - t.base[zn]] == t.perm[zvec - t.base[zn]]
  {
    hide ValidLengths, First, Occurs, Below, Slot;
    var k := zvec - t.base[zn];
    BelowSuccessor(len, |len|, zn);
    FirstNext(len, zn);
    var src := Sources(len);
    SourceSlot(len, k);
    assert t.perm[Slot(len, src[k])] == src[k];
  }

  lemma SourceSlot(len: seq<int>, k: int)
    requires 0 <= k < |len|
    ensures 0 <= Sources(len)[k] < |len| && Slot(len, Sources(len)[k]) == k
  {
    assert Slots(len)[Sources(len)[k]] == k;
  }

  lemma SymbolInRange(t: Tables, u: Tables, len: seq<int>, maxLen: int, bs: seq<bool>)
    requires DecodeTables(t, len, maxLen) && DecodeTables(u, len, maxLen) && t.minLen == u.minLen
    ensures ReadSymbol(t, bs) == ReadSymbol(u, bs)
    ensures ReadSymbol(t, bs).Done? ==>
      0 <= ReadSymbol(t, bs).value < |len| && |ReadSymbol(t, bs).rest| < |bs|
  {
    if |bs| >= t.minLen {
      ReadCodeInRange(t, u, len, maxLen, bs[t.minLen..], t.minLen, FromBits(bs[..t.minLen]));
    }
  }

  // ----- the loops that fill the tables

  /** BZ2_hbAssignCodes */
  method AssignCodes(length: seq<int>, minLen: int, maxLen: int) returns (code: seq<int>)
    requires ValidLengths(length) && 0 <= minLen <= maxLen
    requires forall i :: 0 <= i < |length| ==> minLen <= length[i] <= maxLen
    ensures |code| == |length| && forall i :: 0 <= i < |length| ==> code[i] == CodeOf(length, i)
  {
    var alphaSize := |length|;
    code := seq(alphaSize, _ => 0);
    NoneShorter(length, minLen);
    var vec := 0;
    for n := minLen to maxLen + 1
      invariant |code| == alphaSize && vec == First(length, n)
      invariant forall i :: 0 <= i < alphaSize && length[i] < n ==> code[i] == CodeOf(length, i)
    {
      for i := 0 to alphaSize
        invariant |code| == alphaSize && vec == First(length, n) + Occurs(length, i, n)
        invariant forall x :: 0 <= x < alphaSize && (length[x] < n || (length[x] == n && x < i)) ==>
          code[x] == CodeOf(length, x)
      {
        if length[i] == n { code := code[i := vec]; vec := vec + 1; }
      }
      vec := vec * 2;
    }
  }

  /** The symbols placed in perm so far: lengths below l, and length l up to symbol j. */
  ghost predicate Ranked(perm: seq<int>, len: seq<int>, l: int, j: nat) {
    && |perm| == 258 && |len| <= 258 && j <= |len|
    && forall x :: 0 <= x < |len| && (len[x] < l || (len[x] == l && x < j)) ==> perm[Slot(len, x)] == x
  }

  lemma RankStep(perm: seq<int>, len: seq<int>, l: int, j: nat, pp: int)
    requires Ranked(perm, len, l, j) && j < |len| && pp == Below(len, |len|, l) + Occurs(len, j, l)
    ensures len[j] == l ==> 0 <= pp < 258 && Ranked(perm[pp := j], len, l, j + 1)
    ensures len[j] != l ==> Ranked(perm, len, l, j + 1)
  {
    if len[j] == l {
      assert pp == Slot(len, j);
      forall x | 0 <= x < |len| && (len[x] < l || (len[x] == l && x < j)) ensures Slot(len, x) != pp {
        SlotMonotone(len, x, j);
      }
    }
  }

  lemma RankNext(perm: seq<int>, len: seq<int>, l: int)
    requires Ranked(perm, len, l, |len|)
    ensures Ranked(perm, len, l + 1, 0)
  {
  }

  /** Symbols in order of length, then of value. */
  method FillPerm(perm0: seq<int>, length: seq<int>, minLen: int, maxLen: int) returns (perm: seq<int>)
    requires |perm0| == 258 && 0 < |length| <= 258 && 0 <= minLen <= maxLen
    requires forall i :: 0 <= i < |length| ==> minLen <= length[i] <= maxLen
    ensures |perm| == 258 && forall i :: 0 <= i < |length| ==> perm[Slot(length, i)] == i
  {
    hide Slot, Occurs, Below;
    perm := perm0;
    NoneShorter(length, minLen);
    var pp := 0;
    for i := minLen to maxLen + 1
      invariant pp == Below(length, |length|, i) && Ranked(perm, length, i, 0)
    {
      OccursZero(length, i);
      for j := 0 to |length|
        invariant pp == Below(length, |length|, i) + Occurs(length, j, i) && Ranked(perm, length, i, j)
      {
        RankStep(perm, length, i, j, pp);
        OccursNext(length, j, i);
        if length[j] == i { perm := perm[pp := j]; pp := pp + 1; }
      }
      RankNext(perm, length, i);
      BelowSuccessor(length, |length|, i);
    }
  }

  lemma OccursZero(s: seq<int>, c: int)
    ensures Occurs(s, 0, c) == 0
  {
  }

  lemma OccursNext(s: seq<int>, k: nat, c: int)
    requires k < |s|
    ensures Occurs(s, k + 1, c) == Occurs(s, k, c) + if s[k] == c then 1 else 0
  {
  }

  /** How many symbols are shorter than each length. */
  method CountShorter(length: seq<int>) returns (base: seq<int>)
    requires ValidLengths(length)
    ensures |base| == 23 && forall l :: 0 <= l < 23 ==> base[l] == Below(length, |length|, l)
  {
    base := seq(23, _ => 0);
    for i := 0 to |length|
      invariant |base| == 23 && forall l :: 0 <= l < 23 ==> base[l] == Occurs(length, i, l - 1)
    {
      base := base[length[i] + 1 := base[length[i] + 1] + 1];
    }
    ghost var counts := base;
    NoneBelow(length, |length|);
    NoneOf(length, |length|, -1);
    for i := 1 to 23
      invariant |base| == 23
      invariant forall l :: 0 <= l < i ==> base[l] == Below(length, |length|, l)
      invariant forall l :: i <= l < 23 ==> base[l] == counts[l]
    {
      BelowSuccessor(length, |length|, i - 1);
      base := base[i := base[i] + base[i - 1]];
    }
  }

  /** BZ2_hbCreateDecodeTables */
  method CreateDecodeTables(perm0: seq<int>, length: seq<int>, minLen: int, maxLen: int) returns (t: Tables)
    requires |perm0| == 258 && ValidLengths(length) && 1 <= minLen <= maxLen <= 20
    requires forall i :: 0 <= i < |length| ==> minLen <= length[i] <= maxLen
    ensures DecodeTables(t, length, maxLen) && t.minLen == minLen
  {
    hide First, Below, Occurs, Slot;
    var perm := FillPerm(perm0, length, minLen, maxLen);
    var base := CountShorter(length);
    var limit := seq(23, _ => 0);
    NoneShorter(length, minLen);
    var vec := 0;
    for i := minLen to maxLen + 1
      invariant vec == First(length, i) && |limit| == 23
      invariant forall l :: i <= l < 23 ==> limit[l] == 0
      invariant forall l :: minLen <= l < i ==> limit[l] == Next(length, l) - 1
    {
      BelowSuccessor(length, |length|, i);
      FirstNext(length, i);
      vec := vec + (base[i + 1] - base[i]);
      limit := limit[i := vec - 1];
      vec := vec * 2;
    }
    ghost var shorter := base;
    for i := minLen + 1 to maxLen + 1
      invariant |base| == 23
      invariant forall l :: minLen <= l < i ==> base[l] == First(length, l) - Below(length, |length|, l)
      invariant forall l :: i <= l < 23 ==> base[l] == shorter[l]
    {
      FirstNext(length, i - 1);
      base := base[i := (limit[i - 1] + 1) * 2 - base[i]];
    }
    forall l | maxLen < l < 23 ensures base[l] == |length| { BelowExtremes(length, |length|, minLen, l); }
    t := Tables(limit, base, perm, minLen);
  }

  lemma FirstNext(len: seq<int>, l: nat)
    ensures First(len, l + 1) == 2 * Next(len, l) && Next(len, l) == First(len, l) + Occurs(len, |len|, l)
  {
  }

  // ----- the tables of a length table, as values

  function MinOf(len: seq<int>): (r: int)
    requires |len| > 0
    ensures r in len && forall i :: 0 <= i < |len| ==> r <= len[i]
  {
    if |len| == 1 then len[0]
    else
      var m := MinOf(len[..|len| - 1]);
      if len[|len| - 1] < m then len[|len| - 1] else m
  }

  function MaxOf(len: seq<int>): (r: int)
    requires |len| > 0
    ensures r in len && forall i :: 0 <= i < |len| ==> len[i] <= r
  {
    if |len| == 1 then len[0]
    else
      var m := MaxOf(len[..|len| - 1]);
      if len[|len| - 1] > m then len[|len| - 1] else m
  }

  ghost function TablesOf(len: seq<int>): (t: Tables)
    requires ValidLengths(len)
    ensures DecodeTables(t, len, MaxOf(len)) && t.minLen == MinOf(len)
  {
    TablesMade(len);
    MadeTables(len)
  }

  ghost function MadeTables(len: seq<int>): (t: Tables)
    requires ValidLengths(len)
  {
    var lo, hi := MinOf(len), MaxOf(len);
    Tables(seq(23, l requires 0 <= l < 23 => if lo <= l <= hi then Next(len, l) - 1 else 0),
           seq(23, l requires 0 <= l < 23 => if lo <= l <= hi then First(len, l) - Below(len, |len|, l)
                                             else if l > hi then |len| else 0),
           Sources(len) + seq(258 - |len|, _ => 0),
           lo)
  }

  lemma TablesMade(len: seq<int>)
    requires ValidLengths(len)
    ensures DecodeTables(MadeTables(len), len, MaxOf(len)) && MadeTables(len).minLen == MinOf(len)
  {
    hide First, Next, Below, Occurs;
    var t := MadeTables(len);
    forall i | 0 <= i < |len| ensures t.perm[Slot(len, i)] == i {
      assert Slots(len)[i] == Slot(len, i);
      assert Sources(len)[Slot(len, i)] == i;
    }
  }
}
