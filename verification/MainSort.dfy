/** mainSort: radix sort on two characters, then big bucket after big bucket, sorting what has not
    been copied from buckets sorted before. */
module MainSort {
  import opened Bytes
  import opened Permutations
  import opened Rotations
  import opened Counting
  import opened RotationRank
  import opened QuadrantOrder
  import opened MainSimpleSort
  import Q3 = MainQSort3
  import PS = PointerScan
  import Buckets
  import QS = QuickSort3

  // ----- the first two characters

  function Codes(b: seq<int>): (cd: seq<int>)
    ensures |cd| == |b|
  {
    seq(|b|, i requires 0 <= i < |b| => b[i] * 256 + b[Next(|b|, i)])
  }

  /** Where the small buckets start. */
  ghost function StartsOf(b: seq<int>): (st: seq<int>)
    ensures |st| == 65537
  {
    seq(65537, k requires 0 <= k < 65537 => Below(Codes(b), |b|, k))
  }

  lemma CodeRange(b: seq<int>, i: int)
    requires IsBytes(b) && 0 <= i < |b|
    ensures 0 <= Codes(b)[i] < 65536 && Codes(b)[i] == b[i] * 256 + b[Next(|b|, i)] && Codes(b)[i] / 256 == b[i]
  {
  }

  lemma CodesCoded(b: seq<int>)
    requires IsBytes(b)
    ensures PS.Coded(b, Codes(b))
  {
  }

  lemma StartsGood(b: seq<int>)
    requires IsBytes(b)
    ensures PS.Starts(StartsOf(b), |b|)
  {
    hide Below;
    var cd, st := Codes(b), StartsOf(b);
    forall i | 0 <= i < |b| ensures 0 <= cd[i] < 65536 { CodeRange(b, i); }
    BelowExtremes(cd, |b|, 0, 65536);
    forall k, m | 0 <= k <= m <= 65536 ensures 0 <= st[k] <= st[m] { BelowMonotone(cd, |b|, k, m); }
  }

  lemma RankLawsHold(b: seq<int>)
    requires IsBytes(b) && |b| >= 2
    ensures PS.RankLaws(b, Codes(b), Ranks(b))
  {
    hide Ranks;
    var n := |b|;
    forall i, j | 0 <= i < n && 0 <= j < n && Codes(b)[i] < Codes(b)[j] ensures Ranks(b)[i] <= Ranks(b)[j] {
      TwoCharacters(b, i, j);
      RankOrder(b, i, j);
    }
    forall i, j | 0 <= i < n && 0 <= j < n && b[i] == b[j] && Ranks(b)[Next(n, i)] <= Ranks(b)[Next(n, j)]
      ensures Ranks(b)[i] <= Ranks(b)[j]
    {
      RankOrder(b, Next(n, i), Next(n, j));
      CompareShorter(b, Next(n, i), Next(n, j), n - 1, n);
      RankOrder(b, i, j);
    }
    forall c, i, j | PS.Uniform(b, c) && 0 <= i < n && 0 <= j < n ensures Ranks(b)[i] == Ranks(b)[j] {
      UniformEqual(b, c, i, j, n);
      UniformEqual(b, c, j, i, n);
      RankOrder(b, i, j);
      RankOrder(b, j, i);
    }
  }

  lemma {:induction false} UniformEqual(b: seq<int>, c: int, i: int, j: int, d: nat)
    requires PS.Uniform(b, c) && 0 <= i < |b| && 0 <= j < |b|
    ensures Compare(b, i, j, d) == 0
    decreases d
  {
    if d > 0 { UniformEqual(b, c, Next(|b|, i), Next(|b|, j), d - 1); }
  }

  lemma TwoCharacters(b: seq<int>, i: int, j: int)
    requires IsBytes(b) && |b| >= 2 && 0 <= i < |b| && 0 <= j < |b|
    ensures Codes(b)[i] < Codes(b)[j] ==> Compare(b, i, j, |b|) <= 0
    ensures Codes(b)[i] == Codes(b)[j] ==> Compare(b, i, j, 2) == 0
  {
    CodeRange(b, i);
    CodeRange(b, j);
    var n := |b|;
    CompareSplit(b, i, j, 2, n - 2);
    var i', j' := Next(n, i), Next(n, j);
    assert Compare(b, i, j, 2) == if b[i] < b[j] then -1 else if b[i] > b[j] then 1 else Compare(b, i', j', 1);
    assert Compare(b, i', j', 1) == if b[i'] < b[j'] then -1 else if b[i'] > b[j'] then 1 else 0;
  }

  // ----- the radix sort

  /** ftab counts the codes from place i on. */
  ghost predicate Counted(ftab: seq<int>, cd: seq<int>, i: nat) {
    |ftab| == 65537 && i <= |cd| && ftab[65536] == 0
    && forall k :: 0 <= k < 65536 ==> ftab[k] == Occurs(cd, |cd|, k) - Occurs(cd, i, k)
  }

  lemma CountMore(ftab: seq<int>, cd: seq<int>, i: nat)
    requires Counted(ftab, cd, i + 1) && i < |cd| && 0 <= cd[i] < 65536
    ensures Counted(ftab[cd[i] := ftab[cd[i]] + 1], cd, i)
  {
  }

  /** The rolling pair of characters: the character of the place after i is in its high half. */
  lemma RollCode(b: seq<int>, i: nat, j: int)
    requires IsBytes(b) && i < |b| && j / 256 == b[Next(|b|, i)]
    ensures j / 256 + b[i] * 256 == Codes(b)[i] && (j / 256 + b[i] * 256) / 256 == b[i]
    ensures i > 0 ==> b[i] == b[Next(|b|, i - 1)]
  {
    CodeRange(b, i);
  }

  method CountCodes(block: array<int>, quadrant: array<int>, ftab: array<int>, nblock: nat, ghost b: seq<int>)
    requires block != quadrant && block != ftab && quadrant != ftab && ftab.Length == 65537
    requires 0 < nblock == |b| && nblock <= block.Length && nblock <= quadrant.Length && block[..nblock] == b
    requires IsBytes(b)
    modifies quadrant, ftab
    ensures Counted(ftab[..], Codes(b), 0) && forall i :: 0 <= i < nblock ==> quadrant[i] == 0
  {
    hide Counted, Codes, IsBytes;
    var i := 65536;
    while i >= 0
      invariant -1 <= i <= 65536 && forall k :: i < k <= 65536 ==> ftab[k] == 0
    {
      ftab[i] := 0;
      i := i - 1;
    }
    NoneCounted(ftab[..], Codes(b));
    var j := block[0] * 256;
    i := nblock - 1;
    FirstRoll(b, j);
    // the source handles four places in one turn
    while i >= 0
      invariant -1 <= i < nblock && Counted(ftab[..], Codes(b), i + 1) && (i >= 0 ==> j / 256 == b[Next(nblock, i)])
      invariant forall k :: i < k < nblock ==> quadrant[k] == 0
    {
      quadrant[i] := 0;
      RollCode(b, i, j);
      assert block[i] == block[..nblock][i];
      j := j / 256 + block[i] * 256;
      ghost var f := ftab[..];
      CodeRange(b, i);
      CountMore(f, Codes(b), i);
      ftab[j] := ftab[j] + 1;
      assert ftab[..] == f[j := f[j] + 1];
      i := i - 1;
    }
  }

  lemma NoneCounted(ftab: seq<int>, cd: seq<int>)
    requires |ftab| == 65537 && forall k :: 0 <= k <= 65536 ==> ftab[k] == 0
    ensures Counted(ftab, cd, |cd|)
  {
  }

  lemma FirstRoll(b: seq<int>, j: int)
    requires |b| > 0 && j == b[0] * 256
    ensures j / 256 == b[Next(|b|, |b| - 1)]
  {
  }

  /** ftab holds the end of each bucket up to k. */
  ghost predicate Summed(ftab: seq<int>, cd: seq<int>, i: nat) {
    |ftab| == 65537 && 1 <= i <= 65537
    && (forall k :: 0 <= k < i ==> ftab[k] == Below(cd, |cd|, k + 1) - if k == 65536 then Occurs(cd, |cd|, k) else 0)
    && (forall k :: i <= k < 65536 ==> ftab[k] == Occurs(cd, |cd|, k))
    && (i <= 65536 ==> ftab[65536] == 0)
  }

  lemma SumMore(ftab: seq<int>, cd: seq<int>, i: nat)
    requires Summed(ftab, cd, i) && i <= 65536
    ensures Summed(ftab[i := ftab[i] + ftab[i - 1]], cd, i + 1)
  {
    hide Below, Occurs;
    BelowSuccessor(cd, |cd|, i);
  }

  lemma SumStart(ftab: seq<int>, cd: seq<int>)
    requires Counted(ftab, cd, 0) && forall i :: 0 <= i < |cd| ==> 0 <= cd[i]
    ensures Summed(ftab, cd, 1)
  {
    BelowSuccessor(cd, |cd|, 0);
    NothingBelowZero(cd, |cd|);
    assert forall k :: Occurs(cd, 0, k) == 0;
    hide Below, Occurs;
  }

  lemma {:induction false} NothingBelowZero(cd: seq<int>, k: nat)
    requires k <= |cd| && forall i :: 0 <= i < k ==> 0 <= cd[i]
    ensures Below(cd, k, 0) == 0
  {
    if k > 0 { NothingBelowZero(cd, k - 1); }
  }

  /** The places from i on have been put where a stable sort puts them; ftab has come down to the
      codes of the places before i. */
  ghost predicate Dealt(ptr: seq<int>, ftab: seq<int>, cd: seq<int>, i: nat) {
    && i <= |cd| == |ptr| && |ftab| == 65537 && (forall m :: 0 <= m < |cd| ==> 0 <= cd[m] < 65536)
    && ftab[65536] == |cd|
    && (forall k :: 0 <= k < 65536 ==> ftab[k] == Below(cd, |cd|, k) + Occurs(cd, i, k))
    && (forall m :: i <= m < |cd| ==> ptr[Slot(cd, m)] == m)
  }

  lemma DealStart(ptr: seq<int>, ftab: seq<int>, cd: seq<int>)
    requires Summed(ftab, cd, 65537) && |ptr| == |cd| && forall m :: 0 <= m < |cd| ==> 0 <= cd[m] < 65536
    ensures Dealt(ptr, ftab, cd, |cd|)
  {
    hide Slot;
    forall k | 0 <= k <= 65536
      ensures Below(cd, |cd|, k + 1) == Below(cd, |cd|, k) + Occurs(cd, |cd|, k)
    {
      BelowSuccessor(cd, |cd|, k);
    }
    BelowExtremes(cd, |cd|, 0, 65536);
    hide Below, Occurs;
  }

  lemma DealMore(ptr: seq<int>, ftab: seq<int>, cd: seq<int>, i: nat)
    requires Dealt(ptr, ftab, cd, i + 1) && i < |cd|
    ensures 0 <= cd[i] < 65536 && ftab[cd[i]] - 1 == Slot(cd, i) < |ptr|
    ensures Dealt(ptr[Slot(cd, i) := i], ftab[cd[i] := Slot(cd, i)], cd, i)
  {
    forall m | i < m < |cd| ensures Slot(cd, m) != Slot(cd, i) {
      if cd[i] <= cd[m] { SlotMonotone(cd, i, m); } else { SlotMonotone(cd, m, i); }
    }
  }

  /** The result is the stable order by two characters. */
  lemma DealtBuckets(ptr: seq<int>, ftab: seq<int>, b: seq<int>)
    requires IsBytes(b) && Dealt(ptr, ftab, Codes(b), 0)
    ensures PS.InBuckets(Codes(b), StartsOf(b), ptr)
    ensures forall k :: 0 <= k <= 65536 ==> ftab[k] == StartsOf(b)[k]
  {
    hide Slots, Slot;
    var cd := Codes(b);
    BelowExtremes(cd, |b|, 0, 65536);
    var src := Sources(cd);
    forall x | 0 <= x < |cd|
      ensures 0 <= src[x] < |cd| && ptr[x] == src[x] && Slots(cd)[src[x]] == x
    {
      SlotOf(cd, src[x]);
    }
    forall x | 0 <= x < |cd| ensures 0 <= ptr[x] < |cd| && 0 <= cd[ptr[x]] < 65536
      && StartsOf(b)[cd[ptr[x]]] <= x < StartsOf(b)[cd[ptr[x]] + 1] {
      SlotOf(cd, src[x]);
    }
    forall x, y | 0 <= x < y < |cd| ensures ptr[x] != ptr[y] { assert Slots(cd)[src[x]] == x
      && Slots(cd)[src[y]] == y; }
    PS.InBucketsMake(cd, StartsOf(b), ptr);
  }

  lemma SlotOf(cd: seq<int>, m: int)
    requires 0 <= m < |cd|
    ensures Slots(cd)[m] == Slot(cd, m) && Below(cd, |cd|, cd[m]) <= Slot(cd, m) < Below(cd, |cd|, cd[m] + 1)
  {
    hide Below, Occurs;
    BelowSuccessor(cd, |cd|, cd[m]);
    OccursAfter(cd, m, |cd|, cd[m]);
  }

  /** The block and the cache are repeated behind their ends. */
  method SetUpOvershoot(block: array<int>, quadrant: array<int>, nblock: nat, ghost b: seq<int>)
    requires block != quadrant && OVERSHOOT < nblock == |b| && nblock + OVERSHOOT <= block.Length
    requires nblock + OVERSHOOT <= quadrant.Length
    requires block[..nblock] == b && forall i :: 0 <= i < nblock ==> quadrant[i] == 0
    modifies block, quadrant
    ensures block[..nblock] == b && Comparable(block[..], quadrant[..], b)
  {
    var i := 0;
    while i < OVERSHOOT
      invariant 0 <= i <= OVERSHOOT && block[..nblock] == b
      invariant forall k :: 0 <= k < nblock + i ==> quadrant[k] == 0
      invariant forall k :: nblock <= k < nblock + i ==> block[k] == b[k - nblock]
    {
      block[nblock + i] := block[i];
      quadrant[nblock + i] := 0;
      i := i + 1;
    }
    ZeroCache(block[..], quadrant[..], b);
  }

  lemma ZeroCache(block: seq<int>, quadrant: seq<int>, b: seq<int>)
    requires OVERSHOOT < |b| && |b| + OVERSHOOT <= |block| && |b| + OVERSHOOT <= |quadrant| && block[..|b|] == b
    requires forall k :: 0 <= k < |b| + OVERSHOOT ==> quadrant[k] == 0
    requires forall k :: |b| <= k < |b| + OVERSHOOT ==> block[k] == b[k - |b|]
    ensures Comparable(block, quadrant, b)
  {
    hide Compare;
    forall e | 0 <= e < |b| ensures block[e] == b[e] { assert block[..|b|][e] == block[e]; }
  }

  /** The initial radix sort on two characters. */
  method Radix(ptr: array<int>, block: array<int>, quadrant: array<int>, ftab: array<int>, nblock: nat,
               ghost b: seq<int>)
    requires ptr != block && ptr != quadrant && ptr != ftab && block != quadrant && block != ftab && quadrant != ftab
    requires OVERSHOOT < nblock == |b| == ptr.Length && nblock + OVERSHOOT <= block.Length
    requires nblock + OVERSHOOT <= quadrant.Length
    requires ftab.Length == 65537 && block[..nblock] == b && IsBytes(b)
    modifies ptr, block, quadrant, ftab
    ensures block[..nblock] == b && Comparable(block[..], quadrant[..], b)
    ensures PS.InBuckets(Codes(b), StartsOf(b), ptr[..])
    ensures forall k :: 0 <= k <= 65536 ==> ftab[k] == StartsOf(b)[k]
  {
    hide Counted, Summed, Dealt, Codes, IsBytes, StartsOf, Comparable, Slot, PS.InBuckets;
    ghost var cd := Codes(b);
    CountCodes(block, quadrant, ftab, nblock, b);
    SetUpOvershoot(block, quadrant, nblock, b);
    forall i | 0 <= i < |cd| ensures 0 <= cd[i] < 65536 { CodeRange(b, i); }
    SumStart(ftab[..], cd);
    var i := 1;
    while i <= 65536
      invariant 1 <= i <= 65537 && Summed(ftab[..], cd, i) && block[..nblock] == b
      invariant Comparable(block[..], quadrant[..], b)
    {
      ghost var f := ftab[..];
      SumMore(f, cd, i);
      ftab[i] := ftab[i] + ftab[i - 1];
      assert ftab[..] == f[i := f[i] + f[i - 1]];
      i := i + 1;
    }
    DealStart(ptr[..], ftab[..], cd);
    var s := block[0] * 256;
    assert block[0] == block[..nblock][0];
    FirstRoll(b, s);
    i := nblock - 1;
    while i >= 0
      invariant -1 <= i < nblock && Dealt(ptr[..], ftab[..], cd, i + 1) && (i >= 0 ==> s / 256 == b[Next(nblock, i)])
      invariant block[..nblock] == b && Comparable(block[..], quadrant[..], b)
    {
      RollCode(b, i, s);
      assert block[i] == block[..nblock][i];
      s := s / 256 + block[i] * 256;
      ghost var f, p := ftab[..], ptr[..];
      DealMore(p, f, cd, i);
      var j := ftab[s] - 1;
      ftab[s] := j;
      ptr[j] := i;
      assert ftab[..] == f[s := j] && ptr[..] == p[j := i];
      i := i - 1;
    }
    DealtBuckets(ptr[..], ftab[..], b);
  }

  // ----- the order of the big buckets

  /** BIGFREQ */
  function BigFreq(ftab: seq<int>, c: int): (r: int)
    requires |ftab| == 65537 && 0 <= c < 256
  {
    ftab[(c + 1) * 256] - ftab[c * 256]
  }

  function BigFreqs(ftab: seq<int>): (r: seq<int>)
    requires |ftab| == 65537
    ensures |r| == 256 && forall c :: 0 <= c < 256 ==> r[c] == BigFreq(ftab, c)
  {
    seq(256, c requires 0 <= c < 256 => BigFreq(ftab, c))
  }

  /** One insertion by bucket size with stride h. */
  method InsertBucket(order: array<int>, ftab: array<int>, i: int, h: int)
    requires order != ftab && order.Length == 256 && ftab.Length == 65537 && 1 <= h <= i < 256
    requires forall x :: 0 <= x < 256 ==> 0 <= order[x] < 256
    modifies order
    ensures QS.Permuted(old(order[..]), order[..], 0, 255) && forall x :: 0 <= x < 256 ==> 0 <= order[x] < 256
    ensures h == 1 && QS.SortedKeys(old(order[..]), BigFreqs(ftab[..]), 0, i - 1) ==>
      QS.SortedKeys(order[..], BigFreqs(ftab[..]), 0, i)
  {
    hide Hole, Passed, QS.Permuted, QS.SortedKeys, QS.Key, BigFreqs;
    ghost var f0, ec := order[..], BigFreqs(ftab[..]);
    HoleAtPlace(f0, ec, i);
    var vv := order[i];
    var j := i;
    while true
      invariant h <= j <= i && ftab[..] == old(ftab[..]) && Hole(f0, order[..], 0, i, 255, j, vv)
      invariant h == 1 ==> Passed(f0, order[..], ec, 0, i, j, vv)
      invariant forall x :: 0 <= x < 256 ==> 0 <= order[x] < 256
      decreases j
    {
      ghost var f := order[..];
      QS.KeyAt(f, ec, j - h);
      if BigFreq(ftab[..], order[j - h]) <= BigFreq(ftab[..], vv) { break; }
      HoleMoves(f0, f, 0, i, 255, j, h, vv);
      if h == 1 { PassOne(f0, f, ec, 0, i, j, vv); }
      order[j] := order[j - h];
      assert order[..] == f[j := f[j - h]];
      j := j - h;
      if j <= h - 1 { break; }
    }
    ghost var f := order[..];
    HoleDone(f0, f, 0, i, 255, j, vv);
    if h == 1 && QS.SortedKeys(f0, ec, 0, i - 1) {
      QS.KeyAt(f, ec, j - 1);
      PassDone(f0, f, ec, 0, i, j, vv);
    }
    order[j] := vv;
    assert order[..] == f[j := vv];
  }

  lemma HoleAtPlace(f: seq<int>, ec: seq<int>, i: int)
    requires |f| == 256 && 0 <= i < 256 && |ec| == 256 && 0 <= f[i] < 256
    ensures Hole(f, f, 0, i, 255, i, f[i]) && Passed(f, f, ec, 0, i, i, f[i])
  {
    assert f[i := f[i]] == f;
  }

  /** Shell sort of the big buckets, the least full first. */
  method RunningOrder(ftab: array<int>) returns (ro: seq<int>)
    requires ftab.Length == 65537
    ensures IsPermutation(ro, 256) && QS.SortedKeys(ro, BigFreqs(ftab[..]), 0, 255)
  {
    hide QS.Permuted, QS.SortedKeys, BigFreqs;
    var order := new int[256](i => i);
    ghost var f0 := order[..];
    var h := 1;
    while true
      invariant h in {1, 4, 13, 40, 121} && order[..] == f0
      decreases 364 - h
    {
      h := 3 * h + 1;
      if h > 256 { break; }
    }
    SortedOne(f0, BigFreqs(ftab[..]), 0);
    while true
      invariant h in {4, 13, 40, 121, 364} && QS.Permuted(f0, order[..], 0, 255)
      invariant forall x :: 0 <= x < 256 ==> 0 <= order[x] < 256
      decreases h
    {
      h := h / 3;
      var i := h;
      SortedOne(order[..], BigFreqs(ftab[..]), 0);
      while i <= 255
        invariant h <= i <= 256 && QS.Permuted(f0, order[..], 0, 255)
        invariant forall x :: 0 <= x < 256 ==> 0 <= order[x] < 256
        invariant h == 1 ==> QS.SortedKeys(order[..], BigFreqs(ftab[..]), 0, i - 1)
      {
        ghost var f := order[..];
        InsertBucket(order, ftab, i, h);
        QS.PermutedTransitive(f0, f, order[..], 0, 255);
        i := i + 1;
      }
      if h == 1 { break; }
    }
    OrderPermutation(f0, order[..]);
    ro := order[..];
  }

  lemma OrderPermutation(f: seq<int>, g: seq<int>)
    requires |f| == 256 && (forall i :: 0 <= i < 256 ==> f[i] == i) && QS.Permuted(f, g, 0, 255)
    ensures IsPermutation(g, 256)
  {
    Buckets.RearrangedPermutation(f, g, 256);
  }

  // ----- the state between two big buckets

  const SETMASK := 2097152

  ghost predicate BucketSorted(b: seq<int>, f: seq<int>, k: int) {
    0 <= k < 65536 && QS.SortedKeys(f, Ranks(b), StartsOf(b)[k], StartsOf(b)[k + 1] - 1)
  }

  /** ftab holds the starts of the small buckets; one with SETMASK added is sorted. */
  ghost predicate Marked(b: seq<int>, f: seq<int>, ftab: seq<int>) {
    && |ftab| == 65537 && ftab[65536] == StartsOf(b)[65536]
    && forall k :: 0 <= k < 65536 ==>
      ftab[k] == StartsOf(b)[k] || (ftab[k] == StartsOf(b)[k] + SETMASK && BucketSorted(b, f, k))
  }

  ghost predicate RowDone(ftab: seq<int>, c: int) {
    |ftab| == 65537 && 0 <= c < 256 && forall k :: c * 256 <= k < c * 256 + 256 ==> ftab[k] >= SETMASK
  }

  ghost predicate State(b: seq<int>, f: seq<int>, ftab: seq<int>, done: seq<bool>) {
    && IsBytes(b) && OVERSHOOT < |b| <= 900000 && PS.InBuckets(Codes(b), StartsOf(b), f) && Marked(b, f, ftab)
    && |done| == 256 && forall c :: 0 <= c < 256 && done[c] ==> RowDone(ftab, c)
  }

  lemma StateParts(b: seq<int>, f: seq<int>, ftab: seq<int>, done: seq<bool>)
    requires State(b, f, ftab, done)
    ensures IsBytes(b) && 34 < |b| <= 900000 && PS.InBuckets(Codes(b), StartsOf(b), f) && Marked(b, f, ftab)
    ensures |done| == 256
    ensures |ftab| == 65537 && IsPermutation(f, |b|) && |f| == |b|
  {
    hide Codes, StartsOf, BucketSorted, RowDone;
  }

  lemma FtabAt(b: seq<int>, f: seq<int>, ftab: seq<int>, done: seq<bool>, k: int)
    requires State(b, f, ftab, done) && 0 <= k <= 65536
    ensures |ftab| == 65537 && 0 <= StartsOf(b)[k] <= |b| && ftab[k] % SETMASK == StartsOf(b)[k] && ftab[k] >= 0
    ensures ftab[k] == StartsOf(b)[k] || (k < 65536 && ftab[k] == StartsOf(b)[k] + SETMASK && BucketSorted(b, f, k))
    ensures k < 65536 ==> StartsOf(b)[k] <= StartsOf(b)[k + 1]
  {
    hide Codes, StartsOf, BucketSorted, RowDone, PS.InBuckets;
    StartsGood(b);
    StartAt(b, k);
    if k < 65536 { StartAt(b, k + 1); }
  }

  lemma StartAt(b: seq<int>, k: int)
    requires PS.Starts(StartsOf(b), |b|) && 0 <= k <= 65536
    ensures 0 <= StartsOf(b)[k] <= |b| && (k < 65536 ==> StartsOf(b)[k] <= StartsOf(b)[k + 1])
  {
    hide StartsOf;
  }

  /** What stands in one small bucket agrees on two characters. */
  lemma BucketShares(b: seq<int>, f: seq<int>, ftab: seq<int>, done: seq<bool>, k: int)
    requires State(b, f, ftab, done) && 0 <= k < 65536
    ensures Q3.Shares(b, f, Q3.Item(StartsOf(b)[k], StartsOf(b)[k + 1] - 1, 2))
  {
    hide Codes, StartsOf, BucketSorted, RowDone, PS.InBuckets, Marked, Compare;
    StateParts(b, f, ftab, done);
    FtabAt(b, f, ftab, done, k);
    FtabAt(b, f, ftab, done, k + 1);
    var lo, hi := StartsOf(b)[k], StartsOf(b)[k + 1] - 1;
    forall x | lo <= x <= hi ensures 0 <= f[x] < |b| && Codes(b)[f[x]] == k { CodeAt(b, f, ftab, done, k, x); }
    forall x, y | lo <= x <= hi && lo <= y <= hi
      ensures Compare(b, f[x], f[y], 2) == 0
    {
      TwoCharacters(b, f[x], f[y]);
    }
  }

  lemma CodeAt(b: seq<int>, f: seq<int>, ftab: seq<int>, done: seq<bool>, k: int, x: int)
    requires State(b, f, ftab, done) && 0 <= k < 65536 && StartsOf(b)[k] <= x < StartsOf(b)[k + 1]
    ensures 0 <= x < |b| == |f| && 0 <= f[x] < |b| && Codes(b)[f[x]] == k
  {
    hide Codes, StartsOf, BucketSorted, RowDone, PS.InBuckets, Marked;
    StateParts(b, f, ftab, done);
    StartsGood(b);
    StartAt(b, k);
    StartAt(b, k + 1);
    PlaceOf(b, f, x);
    StartsOrder(b, k, Codes(b)[f[x]]);
  }

  lemma PlaceOf(b: seq<int>, f: seq<int>, x: int)
    requires PS.InBuckets(Codes(b), StartsOf(b), f) && 0 <= x < |b|
    ensures |f| == |b| && 0 <= f[x] < |b| && 0 <= Codes(b)[f[x]] < 65536
    ensures StartsOf(b)[Codes(b)[f[x]]] <= x < StartsOf(b)[Codes(b)[f[x]] + 1]
  {
    hide Codes, StartsOf;
  }

  lemma StartsOrder(b: seq<int>, k: int, m: int)
    requires PS.Starts(StartsOf(b), |b|) && 0 <= k < 65536 && 0 <= m < 65536
    ensures k < m ==> StartsOf(b)[k + 1] <= StartsOf(b)[m]
    ensures m < k ==> StartsOf(b)[m + 1] <= StartsOf(b)[k]
  {
    hide StartsOf;
  }

  /** One small bucket rearranged: the buckets stay what they are, and the others in order. */
  lemma BucketRearranged(b: seq<int>, f: seq<int>, g: seq<int>, ftab: seq<int>, done: seq<bool>, k: int)
    requires State(b, f, ftab, done) && 0 <= k < 65536 && QS.Permuted(f, g, StartsOf(b)[k], StartsOf(b)[k + 1] - 1)
    requires ftab[k] == StartsOf(b)[k] || BucketSorted(b, g, k)
    ensures State(b, g, ftab, done)
  {
    hide Codes, StartsOf, RowDone, PS.InBuckets, Marked, BucketSorted, QS.Permuted;
    StateParts(b, f, ftab, done);
    BucketsKept(b, f, g, ftab, done, k);
    forall m | 0 <= m < 65536
      ensures ftab[m] == StartsOf(b)[m] || (ftab[m] == StartsOf(b)[m] + SETMASK && BucketSorted(b, g, m))
    {
      FtabAt(b, f, ftab, done, m);
      if m != k && ftab[m] != StartsOf(b)[m] { OtherSorted(b, f, g, k, m); }
    }
    FtabAt(b, f, ftab, done, 65536);
    MarkedMake(b, g, ftab);
    StateMake(b, f, g, ftab, done);
  }

  lemma MarkedMake(b: seq<int>, f: seq<int>, ftab: seq<int>)
    requires |ftab| == 65537 && ftab[65536] == StartsOf(b)[65536]
    requires forall m :: 0 <= m < 65536 ==>
      ftab[m] == StartsOf(b)[m] || (ftab[m] == StartsOf(b)[m] + SETMASK && BucketSorted(b, f, m))
    ensures Marked(b, f, ftab)
  {
    hide StartsOf, BucketSorted;
  }

  lemma StateMake(b: seq<int>, f: seq<int>, g: seq<int>, ftab: seq<int>, done: seq<bool>)
    requires State(b, f, ftab, done) && PS.InBuckets(Codes(b), StartsOf(b), g) && Marked(b, g, ftab)
    ensures State(b, g, ftab, done)
  {
    hide Codes, StartsOf, RowDone, PS.InBuckets, Marked;
  }

  lemma BucketsKept(b: seq<int>, f: seq<int>, g: seq<int>, ftab: seq<int>, done: seq<bool>, k: int)
    requires State(b, f, ftab, done) && 0 <= k < 65536 && QS.Permuted(f, g, StartsOf(b)[k], StartsOf(b)[k + 1] - 1)
    ensures PS.InBuckets(Codes(b), StartsOf(b), g)
  {
    hide Codes, StartsOf, RowDone, PS.InBuckets, Marked, BucketSorted;
    StateParts(b, f, ftab, done);
    FtabAt(b, f, ftab, done, k);
    FtabAt(b, f, ftab, done, k + 1);
    Buckets.RearrangedPermutation(f, g, |b|);
    var lo, hi := StartsOf(b)[k], StartsOf(b)[k + 1] - 1;
    forall x | 0 <= x < |b|
      ensures 0 <= g[x] < |b| && 0 <= Codes(b)[g[x]] < 65536
      ensures StartsOf(b)[Codes(b)[g[x]]] <= x < StartsOf(b)[Codes(b)[g[x]] + 1]
    {
      PlaceOf(b, f, x);
      if lo <= x <= hi {
        var y := QS.PermutedFrom(f, g, lo, hi, x);
        CodeAt(b, f, ftab, done, k, x);
        CodeAt(b, f, ftab, done, k, y);
      }
    }
    PS.InBucketsMake(Codes(b), StartsOf(b), g);
  }

  lemma OtherSorted(b: seq<int>, f: seq<int>, g: seq<int>, k: int, m: int)
    requires IsBytes(b) && 0 <= k < 65536 && 0 <= m < 65536 && m != k && BucketSorted(b, f, m)
    requires QS.Permuted(f, g, StartsOf(b)[k], StartsOf(b)[k + 1] - 1)
    ensures BucketSorted(b, g, m)
  {
    hide StartsOf, Ranks;
    StartsGood(b);
    StartsOrder(b, k, m);
    StartAt(b, m);
    forall x | StartsOf(b)[m] <= x <= StartsOf(b)[m + 1] - 1
      ensures QS.Key(g, Ranks(b), x) == QS.Key(f, Ranks(b), x)
    {
    }
  }

  /** A sorted bucket is marked. */
  lemma MarkBucket(b: seq<int>, f: seq<int>, ftab: seq<int>, done: seq<bool>, k: int, v: int)
    requires State(b, f, ftab, done) && 0 <= k < 65536 && BucketSorted(b, f, k) && |ftab| == 65537
    requires v == if ftab[k] >= SETMASK then ftab[k] else ftab[k] + SETMASK
    ensures State(b, f, ftab[k := v], done) && v >= SETMASK
  {
    hide Codes, StartsOf, PS.InBuckets, Marked, BucketSorted, RowDone;
    StateParts(b, f, ftab, done);
    var t := ftab[k := v];
    FtabAt(b, f, ftab, done, k);
    forall m | 0 <= m < 65536
      ensures t[m] == StartsOf(b)[m] || (t[m] == StartsOf(b)[m] + SETMASK && BucketSorted(b, f, m))
    {
      FtabAt(b, f, ftab, done, m);
    }
    FtabAt(b, f, ftab, done, 65536);
    MarkedMake(b, f, t);
    RowsStay(b, f, ftab, done, k, v);
  }

  lemma RowsStay(b: seq<int>, f: seq<int>, ftab: seq<int>, done: seq<bool>, k: int, v: int)
    requires State(b, f, ftab, done) && 0 <= k < 65536 && v >= SETMASK && |ftab| == 65537 && Marked(b, f, ftab[k := v])
    ensures State(b, f, ftab[k := v], done)
  {
    hide Codes, StartsOf, PS.InBuckets, Marked;
  }

  lemma Flagged(b: seq<int>, f: seq<int>, ftab: seq<int>, done: seq<bool>, k: int)
    requires State(b, f, ftab, done) && 0 <= k < 65536
    ensures |ftab| == 65537 && (ftab[k] >= SETMASK ==> BucketSorted(b, f, k))
    ensures (ftab[k] < SETMASK ==> ftab[k] == StartsOf(b)[k])
  {
    hide Codes, StartsOf, PS.InBuckets, Marked, BucketSorted, RowDone;
    StateParts(b, f, ftab, done);
    FtabAt(b, f, ftab, done, k);
  }

  /** Two places are in order, unless they are in one small bucket not sorted yet. */
  lemma PairOrdered(b: seq<int>, f: seq<int>, ftab: seq<int>, done: seq<bool>, x: int, y: int)
    requires State(b, f, ftab, done) && 0 <= x < y < |b|
    ensures |f| == |b| && |ftab| == 65537 && 0 <= f[x] < |b| && 0 <= f[y] < |b| && 0 <= Codes(b)[f[x]] < 65536
    ensures f[x] != f[y]
    ensures Codes(b)[f[x]] != Codes(b)[f[y]] || ftab[Codes(b)[f[x]]] >= SETMASK ==> Ranks(b)[f[x]] <= Ranks(b)[f[y]]
  {
    hide Codes, StartsOf, PS.InBuckets, Marked, BucketSorted, RowDone, Ranks, Compare;
    StateParts(b, f, ftab, done);
    StartsGood(b);
    PlaceOf(b, f, x);
    PlaceOf(b, f, y);
    var k, m := Codes(b)[f[x]], Codes(b)[f[y]];
    StartsOrder(b, m, k);
    Flagged(b, f, ftab, done, k);
    if k < m {
      TwoCharacters(b, f[x], f[y]);
      RankOrder(b, f[x], f[y]);
    } else if ftab[k] >= SETMASK {
      SortedAt(b, f, k, x, y);
    }
  }

  lemma SortedAt(b: seq<int>, f: seq<int>, k: int, x: int, y: int)
    requires BucketSorted(b, f, k) && StartsOf(b)[k] <= x < y < StartsOf(b)[k + 1]
    requires 0 <= x && y < |f| && 0 <= f[x] < |b| && 0 <= f[y] < |b|
    ensures Ranks(b)[f[x]] <= Ranks(b)[f[y]]
  {
    hide StartsOf, Ranks;
    assert QS.Key(f, Ranks(b), x) <= QS.Key(f, Ranks(b), y);
  }

  /** Steps 1 and 2 of one small bucket: it is sorted by comparing, if it has not been sorted
      before, and marked. */
  method SortOne(ptr: array<int>, block: array<int>, quadrant: array<int>, ftab: array<int>, nblock: nat, sb: int,
                 budget0: nat,
                 ghost b: seq<int>, ghost done: seq<bool>)
    returns (budget: int)
    requires ptr != block && ptr != quadrant && ptr != ftab && block != ftab && quadrant != ftab && ftab.Length == 65537
    requires |b| == nblock && State(b, ptr[..], ftab[..], done) && Comparable(block[..], quadrant[..], b)
    requires 0 <= sb < 65536
    modifies ptr, ftab
    ensures budget <= budget0 && (budget < budget0 ==> Repetitive(b))
    ensures budget >= 0 ==> State(b, ptr[..], ftab[..], done) && ftab[sb] >= SETMASK
    ensures forall k :: 0 <= k <= 65536 && k != sb ==> ftab[k] == old(ftab[k])
  {
    hide State, Comparable, BucketSorted, StartsOf, Codes, Q3.Shares, QS.SortedKeys, QS.Permuted, Marked, PS.InBuckets;
    hide Once, Repetitive;
    budget := budget0;
    ghost var f, t := ptr[..], ftab[..];
    StateParts(b, f, t, done);
    FtabAt(b, f, t, done, sb);
    FtabAt(b, f, t, done, sb + 1);
    Flagged(b, f, t, done, sb);
    if ftab[sb] < SETMASK {
      var lo, hi := ftab[sb] % SETMASK, ftab[sb + 1] % SETMASK - 1;
      SortedOne(f, Ranks(b), lo);
      if hi > lo {
        BucketShares(b, f, t, done, sb);
        StateOnce(b, f, t, done);
        budget := Q3.Sort(ptr, block, quadrant, nblock, lo, hi, 2, budget, b);
        assert ftab[..] == t;
        if budget < 0 { return; }
      }
      BucketNowSorted(b, ptr[..], sb);
      BucketRearranged(b, f, ptr[..], t, done, sb);
      MarkBucket(b, ptr[..], t, done, sb, t[sb] + SETMASK);
      ftab[sb] := ftab[sb] + SETMASK;
      assert ftab[..] == t[sb := t[sb] + SETMASK];
    }
  }

  lemma StateOnce(b: seq<int>, f: seq<int>, ftab: seq<int>, done: seq<bool>)
    requires State(b, f, ftab, done)
    ensures Once(f)
  {
    hide State, Once, Codes, Ranks, Marked, StartsOf, PS.InBuckets;
    StateParts(b, f, ftab, done);
    forall x, y | 0 <= x < y < |f| ensures f[x] != f[y] { PairOrdered(b, f, ftab, done, x, y); }
    ApartOnce(f);
  }

  lemma BucketNowSorted(b: seq<int>, f: seq<int>, k: int)
    requires 0 <= k < 65536 && QS.SortedKeys(f, Ranks(b), StartsOf(b)[k], StartsOf(b)[k + 1] - 1)
    ensures BucketSorted(b, f, k)
  {
    hide StartsOf, QS.SortedKeys;
  }

  /** Step 1: the small buckets of ss are sorted, but for that of ss twice. */
  method SortSmallBuckets(ptr: array<int>, block: array<int>, quadrant: array<int>, ftab: array<int>, nblock: nat,
                          ss: int, budget0: nat,
                          ghost b: seq<int>, ghost done: seq<bool>)
    returns (budget: int)
    requires ptr != block && ptr != quadrant && ptr != ftab && block != ftab && quadrant != ftab && ftab.Length == 65537
    requires |b| == nblock && State(b, ptr[..], ftab[..], done) && Comparable(block[..], quadrant[..], b)
    requires 0 <= ss < 256
    modifies ptr, ftab
    ensures budget <= budget0 && (budget < budget0 ==> Repetitive(b))
    ensures budget >= 0 ==> State(b, ptr[..], ftab[..], done) && RowSorted(ftab[..], ss)
  {
    hide State, Comparable, Repetitive;
    budget := budget0;
    var j := 0;
    while j <= 255
      invariant 0 <= j <= 256 && 0 <= budget <= budget0 && State(b, ptr[..], ftab[..], done)
      invariant budget < budget0 ==> Repetitive(b)
      invariant block[..] == old(block[..]) && quadrant[..] == old(quadrant[..])
      invariant forall k :: ss * 256 <= k < ss * 256 + j && k != ss * 257 ==> ftab[k] >= SETMASK
    {
      if j != ss {
        budget := SortOne(ptr, block, quadrant, ftab, nblock, ss * 256 + j, budget, b, done);
        if budget < 0 { return; }
      }
      j := j + 1;
    }
  }

  // ----- step 2

  ghost function JobOf(b: seq<int>, f: seq<int>, ss: int, done: seq<bool>): (s: PS.Job) {
    PS.Job(b, Codes(b), StartsOf(b), Ranks(b), ss, done, f)
  }

  ghost predicate RowSorted(ftab: seq<int>, ss: int) {
    |ftab| == 65537 && 0 <= ss < 256 && forall k :: ss * 256 <= k < ss * 256 + 256 && k != ss * 257 ==>
      ftab[k] >= SETMASK
  }

  /** What stands in a big bucket starts with its character. */
  lemma BigBucketCode(b: seq<int>, f: seq<int>, ftab: seq<int>, done: seq<bool>, ss: int, x: int)
    requires State(b, f, ftab, done) && 0 <= ss < 256
    ensures |f| == |b| && 0 <= StartsOf(b)[ss * 256] <= StartsOf(b)[ss * 256 + 256] <= |b|
    ensures 0 <= x < |b| ==> 0 <= f[x] < |b| && 0 <= Codes(b)[f[x]] < 65536 && Codes(b)[f[x]] / 256 == b[f[x]]
    ensures 0 <= x < |b| ==> (StartsOf(b)[ss * 256] <= x < StartsOf(b)[ss * 256 + 256] <==> b[f[x]] == ss)
  {
    hide Codes, StartsOf, PS.InBuckets, Marked, BucketSorted, RowDone;
    StateParts(b, f, ftab, done);
    StartsGood(b);
    StartsBetween(b, ss * 256, ss * 256 + 256);
    if 0 <= x < |b| {
      PlaceOf(b, f, x);
      CodeRange(b, f[x]);
      var k := Codes(b)[f[x]];
      if k / 256 < ss { StartsBetween(b, k + 1, ss * 256); }
      if k / 256 > ss { StartsBetween(b, ss * 256 + 256, k); }
      if k / 256 == ss {
        StartsBetween(b, ss * 256, k);
        StartsBetween(b, k + 1, ss * 256 + 256);
      }
    }
  }

  lemma StartsBetween(b: seq<int>, k: int, m: int)
    requires PS.Starts(StartsOf(b), |b|) && 0 <= k <= m <= 65536
    ensures 0 <= StartsOf(b)[k] <= StartsOf(b)[m] <= |b|
  {
    hide StartsOf;
  }

  lemma JobGood(b: seq<int>, f: seq<int>, ftab: seq<int>, done: seq<bool>, ss: int)
    requires State(b, f, ftab, done) && RowSorted(ftab, ss) && |done| == 256 && !done[ss]
    ensures PS.Good(JobOf(b, f, ss, done))
  {
    hide Codes, StartsOf, PS.InBuckets, Marked, BucketSorted, State, Ranks, PS.Starts, PS.Coded, PS.RankLaws;
    StateParts(b, f, ftab, done);
    StartsGood(b);
    CodesCoded(b);
    RankLawsHold(b);
    BigBucketCode(b, f, ftab, done, ss, 0);
    forall x, y | StartsOf(b)[ss * 256] <= x < y < StartsOf(b)[ss * 256 + 256]
      ensures 0 <= f[x] < |b| && 0 <= f[y] < |b|
      ensures Codes(b)[f[x]] != ss * 257 ==> Ranks(b)[f[x]] <= Ranks(b)[f[y]]
    {
      BigBucketCode(b, f, ftab, done, ss, x);
      PairOrdered(b, f, ftab, done, x, y);
      var j := Codes(b)[f[x]] - ss * 256;
      assert Codes(b)[f[x]] == ss * 256 + j;
    }
  }

  /** After the scan everything sorted before is still sorted, and so are the small buckets of
      second character ss. */
  lemma AfterScan(b: seq<int>, f: seq<int>, g: seq<int>, ftab: seq<int>, done: seq<bool>, ss: int)
    requires State(b, f, ftab, done) && 0 <= ss < 256 && PS.After(JobOf(b, f, ss, done), g)
    ensures State(b, g, ftab, done)
    ensures forall j :: 0 <= j < 256 ==> BucketSorted(b, g, j * 256 + ss)
  {
    hide Codes, StartsOf, PS.InBuckets, Marked, BucketSorted, State, PS.Good;
    StateParts(b, f, ftab, done);
    AfterBuckets(b, f, g, ss, done);
    forall m | 0 <= m < 65536
      ensures ftab[m] == StartsOf(b)[m] || (ftab[m] == StartsOf(b)[m] + SETMASK && BucketSorted(b, g, m))
    {
      FtabAt(b, f, ftab, done, m);
      if ftab[m] != StartsOf(b)[m] { ScanKeepsSorted(b, f, g, ftab, done, ss, m); }
    }
    FtabAt(b, f, ftab, done, 65536);
    MarkedMake(b, g, ftab);
    StateMake(b, f, g, ftab, done);
    forall j | 0 <= j < 256 ensures BucketSorted(b, g, j * 256 + ss) {
      RowFlagged(b, f, ftab, done, j, ss);
      ScanKeepsSorted(b, f, g, ftab, done, ss, j * 256 + ss);
    }
  }

  lemma AfterBuckets(b: seq<int>, f: seq<int>, g: seq<int>, ss: int, done: seq<bool>)
    requires PS.After(JobOf(b, f, ss, done), g)
    ensures PS.InBuckets(Codes(b), StartsOf(b), g)
  {
    hide Codes, StartsOf, PS.InBuckets, PS.Good;
  }

  lemma RowFlagged(b: seq<int>, f: seq<int>, ftab: seq<int>, done: seq<bool>, c: int, j: int)
    requires State(b, f, ftab, done) && 0 <= c < 256 && 0 <= j < 256
    ensures |done| == 256 && (done[c] ==> BucketSorted(b, f, c * 256 + j))
  {
    hide Codes, StartsOf, PS.InBuckets, Marked, BucketSorted;
    Flagged(b, f, ftab, done, c * 256 + j);
  }

  /** A bucket is sorted after the scan if it was before, or if the scan has filled it. */
  lemma ScanKeepsSorted(b: seq<int>, f: seq<int>, g: seq<int>, ftab: seq<int>, done: seq<bool>, ss: int, k: int)
    requires State(b, f, ftab, done) && 0 <= ss < 256 && 0 <= k < 65536 && PS.After(JobOf(b, f, ss, done), g)
    requires BucketSorted(b, f, k) || (|done| == 256 && k % 256 == ss && !done[k / 256])
    ensures BucketSorted(b, g, k)
  {
    hide Codes, StartsOf, PS.InBuckets, Marked, BucketSorted, State, Ranks;
    StateParts(b, f, ftab, done);
    FtabAt(b, f, ftab, done, k);
    FtabAt(b, f, ftab, done, k + 1);
    AfterBuckets(b, f, g, ss, done);
    var lo, hi := StartsOf(b)[k], StartsOf(b)[k + 1];
    forall x, y | lo <= x < y < hi ensures QS.Key(g, Ranks(b), x) <= QS.Key(g, Ranks(b), y) {
      CodeAt(b, f, ftab, done, k, x);
      CodeAt(b, f, ftab, done, k, y);
      PlaceOf(b, g, x);
      PlaceOf(b, g, y);
      ScanPair(b, f, g, ss, done, k, x, y);
      if g[x] == f[x] && g[y] == f[y] && BucketSorted(b, f, k) { SortedAt(b, f, k, x, y); }
    }
    SortedMake(b, g, k);
  }

  lemma SortedMake(b: seq<int>, f: seq<int>, k: int)
    requires 0 <= k < 65536
    requires forall x, y :: StartsOf(b)[k] <= x < y < StartsOf(b)[k + 1] ==>
      QS.Key(f, Ranks(b), x) <= QS.Key(f, Ranks(b), y)
    ensures BucketSorted(b, f, k)
  {
    hide StartsOf, QS.Key;
  }

  lemma ScanPair(b: seq<int>, f: seq<int>, g: seq<int>, ss: int, done: seq<bool>, k: int, x: int, y: int)
    requires PS.After(JobOf(b, f, ss, done), g) && 0 <= x < y < |b| && |f| == |g| == |b| && |done| == 256
    requires 0 <= k < 65536
    requires 0 <= f[x] < |b| && 0 <= f[y] < |b| && 0 <= g[x] < |b| && 0 <= g[y] < |b|
    requires Codes(b)[f[x]] == Codes(b)[f[y]] == k
    ensures k % 256 == ss && !done[k / 256] ==> Ranks(b)[g[x]] <= Ranks(b)[g[y]]
    ensures !(k % 256 == ss && !done[k / 256]) ==> g[x] == f[x] && g[y] == f[y]
  {
    hide Codes, StartsOf, PS.InBuckets, Ranks, PS.Good;
    var s := JobOf(b, f, ss, done);
    assert PS.Bkt(s, x) == k && PS.Bkt(s, y) == k;
  }

  /** Step 2: the order of the big bucket is copied, and what it has ordered is marked. */
  method CopyAndMark(ptr: array<int>, block: array<int>, ftab: array<int>, nblock: nat, ss: int, bigDone: seq<bool>,
                     ghost b: seq<int>)
    requires ptr != block && ptr != ftab && block != ftab && ftab.Length == 65537 && nblock <= block.Length
    requires block[..nblock] == b
    requires State(b, ptr[..], ftab[..], bigDone) && RowSorted(ftab[..], ss) && |bigDone| == 256 && !bigDone[ss]
    modifies ptr, ftab
    ensures State(b, ptr[..], ftab[..], bigDone) && RowDone(ftab[..], ss)
    ensures forall k :: 0 <= k < 65536 && k % 256 == ss ==> ftab[k] >= SETMASK
  {
    hide State, BucketSorted, StartsOf, Codes, PS.Good, PS.After, Ranks, Marked, PS.InBuckets;
    ghost var f, t := ptr[..], ftab[..];
    StateParts(b, f, t, bigDone);
    JobGood(b, f, t, bigDone, ss);
    forall k | 0 <= k <= 65536 ensures t[k] >= 0 && t[k] % SETMASK == StartsOf(b)[k] { FtabAt(b, f, t, bigDone, k); }
    PS.CopyOrder(ptr, block, nblock, ftab[..], ss, bigDone, JobOf(b, f, ss, bigDone));
    ghost var g := ptr[..];
    assert ftab[..] == t;
    AfterScan(b, f, g, t, bigDone, ss);
    var j := 0;
    while j <= 255
      invariant 0 <= j <= 256 && ptr[..] == g && State(b, g, ftab[..], bigDone)
      invariant forall k :: 0 <= k < 65536 && t[k] >= SETMASK ==> ftab[k] >= SETMASK
      invariant forall k :: 0 <= k < 65536 && k % 256 == ss && k / 256 < j ==> ftab[k] >= SETMASK
    {
      ghost var u := ftab[..];
      var k := j * 256 + ss;
      MarkBucket(b, g, u, bigDone, k, if u[k] >= SETMASK then u[k] else u[k] + SETMASK);
      if ftab[k] < SETMASK {
        ftab[k] := ftab[k] + SETMASK;
        assert ftab[..] == u[k := u[k] + SETMASK];
      } else {
        assert ftab[..] == u[k := u[k]];
      }
      j := j + 1;
    }
    RowComplete(t, ftab[..], ss);
  }

  lemma RowComplete(t: seq<int>, u: seq<int>, ss: int)
    requires RowSorted(t, ss) && |u| == 65537 && forall k :: 0 <= k < 65536 && t[k] >= SETMASK ==> u[k] >= SETMASK
    requires u[ss * 257] >= SETMASK
    ensures RowDone(u, ss)
  {
  }

  lemma DoneMore(b: seq<int>, f: seq<int>, ftab: seq<int>, done: seq<bool>, ss: int)
    requires State(b, f, ftab, done) && RowDone(ftab, ss)
    ensures |done| == 256 && State(b, f, ftab, done[ss := true])
  {
    hide Codes, StartsOf, PS.InBuckets, Marked;
  }

  // ----- step 3

  /** A finished big bucket is what the cache is updated from. */
  lemma BucketFinished(b: seq<int>, f: seq<int>, ftab: seq<int>, done: seq<bool>, ss: int)
    requires State(b, f, ftab, done) && RowDone(ftab, ss)
    ensures 0 <= StartsOf(b)[ss * 256] <= StartsOf(b)[ss * 256 + 256] <= |b|
    ensures SortedBucket(b, f, ss, StartsOf(b)[ss * 256], StartsOf(b)[ss * 256 + 256] - StartsOf(b)[ss * 256])
  {
    hide Codes, StartsOf, PS.InBuckets, Marked, BucketSorted, State, Ranks, Compare;
    StateParts(b, f, ftab, done);
    BigBucketCode(b, f, ftab, done, ss, 0);
    var lo, hi := StartsOf(b)[ss * 256], StartsOf(b)[ss * 256 + 256];
    forall x | lo <= x < hi ensures 0 <= f[x] < |b| && b[f[x]] == ss { BigBucketCode(b, f, ftab, done, ss, x); }
    forall x, y | lo <= x < y < hi ensures f[x] != f[y] && Compare(b, f[x], f[y], |b|) <= 0 {
      BigBucketCode(b, f, ftab, done, ss, x);
      PairOrdered(b, f, ftab, done, x, y);
      var j := Codes(b)[f[x]] - ss * 256;
      assert Codes(b)[f[x]] == ss * 256 + j;
      RankOrder(b, f[x], f[y]);
    }
    forall i | 0 <= i < |b| && b[i] == ss ensures exists x :: lo <= x < hi && f[x] == i {
      var x := Position(f, |b|, i);
      BigBucketCode(b, f, ftab, done, ss, x);
    }
  }

  lemma ComparableSplit(block: seq<int>, quadrant: seq<int>, b: seq<int>)
    requires Comparable(block, quadrant, b)
    ensures |b| <= |quadrant| && Overshoots(block, b) && Overshoots(quadrant, quadrant[..|b|])
    ensures Cached(b, quadrant[..|b|])
  {
  }

  lemma ComparableJoin(block: seq<int>, quadrant: seq<int>, b: seq<int>)
    requires |b| <= |quadrant| && Overshoots(block, b) && Overshoots(quadrant, quadrant[..|b|])
    requires Cached(b, quadrant[..|b|])
    ensures Comparable(block, quadrant, b)
  {
  }

  /** With every big bucket finished all rotations are in order. */
  lemma AllDone(b: seq<int>, f: seq<int>, ftab: seq<int>, done: seq<bool>)
    requires State(b, f, ftab, done) && |done| == 256 && forall c :: 0 <= c < 256 ==> done[c]
    ensures IsSortedOrder(b, f)
  {
    hide Codes, StartsOf, PS.InBuckets, Marked, BucketSorted, Ranks, Compare, IsSortedOrder;
    StateParts(b, f, ftab, done);
    forall x, y | 0 <= x < y < |b| ensures Compare(b, f[x], f[y], |b|) <= 0 {
      PairOrdered(b, f, ftab, done, x, y);
      var k := Codes(b)[f[x]];
      assert done[k / 256] && RowDone(ftab, k / 256) && ftab[k] >= SETMASK;
      RankOrder(b, f[x], f[y]);
    }
    SortedToIsSortedOrder(b, f);
  }

  lemma StateStart(b: seq<int>, f: seq<int>, ftab: seq<int>)
    requires IsBytes(b) && OVERSHOOT < |b| <= 900000 && PS.InBuckets(Codes(b), StartsOf(b), f)
    requires |ftab| == 65537 && forall k :: 0 <= k <= 65536 ==> ftab[k] == StartsOf(b)[k]
    ensures State(b, f, ftab, seq(256, _ => false))
  {
    hide Codes, StartsOf, PS.InBuckets, BucketSorted;
  }

  /** mainSort: unless the budget runs out, the rotations are sorted; the block stays. The budget is
      only touched if two different rotations agree on twenty characters. */
  method MainSort(ptr: array<int>, block: array<int>, quadrant: array<int>, ftab: array<int>, nblock: nat, budget0: nat)
    returns (budget: int)
    requires ptr != block && ptr != quadrant && ptr != ftab && block != quadrant && block != ftab && quadrant != ftab
    requires OVERSHOOT < nblock == ptr.Length && nblock <= 900000 && nblock + OVERSHOOT <= block.Length
    requires nblock + OVERSHOOT <= quadrant.Length
    requires ftab.Length == 65537 && IsBytes(block[..nblock])
    modifies ptr, block, quadrant, ftab
    ensures block[..nblock] == old(block[..nblock]) && budget <= budget0
    ensures budget < budget0 ==> Repetitive(block[..nblock])
    ensures budget >= 0 ==> IsSortedOrder(block[..nblock], ptr[..])
  {
    hide State, Comparable, Codes, StartsOf, PS.InBuckets, SortedBucket, IsSortedOrder, RowDone, QS.SortedKeys,
         BigFreqs, IsBytes, Overshoots, Cached, Repetitive;
    ghost var b := block[..nblock];
    budget := budget0;
    Radix(ptr, block, quadrant, ftab, nblock, b);
    StateStart(b, ptr[..], ftab[..]);
    var bigDone := seq(256, _ => false);
    var ro := RunningOrder(ftab);
    ghost var whole := block[..];
    var i := 0;
    while i <= 255
      invariant 0 <= i <= 256 && 0 <= budget <= budget0 && block[..] == whole && whole[..nblock] == b
      invariant budget < budget0 ==> Repetitive(b)
      invariant State(b, ptr[..], ftab[..], bigDone) && Comparable(whole, quadrant[..], b)
      invariant |bigDone| == 256 && forall k :: 0 <= k < 256 ==> bigDone[ro[k]] == (k < i)
    {
      var ss := ro[i];
      budget := SortSmallBuckets(ptr, block, quadrant, ftab, nblock, ss, budget, b, bigDone);
      if budget < 0 { return; }
      assert !bigDone[ss];
      CopyAndMark(ptr, block, ftab, nblock, ss, bigDone, b);
      DoneMore(b, ptr[..], ftab[..], bigDone, ss);
      bigDone := bigDone[ss := true];
      if i < 255 {
        BucketFinished(b, ptr[..], ftab[..], bigDone, ss);
        FtabAt(b, ptr[..], ftab[..], bigDone, ss * 256);
        FtabAt(b, ptr[..], ftab[..], bigDone, ss * 256 + 256);
        var bbStart := ftab[ss * 256] % SETMASK;
        var bbSize := ftab[(ss + 1) * 256] % SETMASK - bbStart;
        ComparableSplit(whole, quadrant[..], b);
        UpdateQuadrants(ptr, quadrant, nblock, bbStart, bbSize, b, ss);
        ComparableJoin(whole, quadrant[..], b);
      }
      i := i + 1;
    }
    forall c | 0 <= c < 256 ensures bigDone[c] { assert bigDone[ro[Position(ro, 256, c)]]; }
    AllDone(b, ptr[..], ftab[..], bigDone);
  }
}
