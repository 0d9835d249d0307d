/** The doubling step of the block sort: buckets of rotations that agree on H characters
    are refined to buckets that agree on 2H. */
module Buckets {
  import opened Permutations
  import opened Rotations
  import QS = QuickSort3

  /** Place i of f differs from the place before it within d characters. */
  ghost predicate Differs(b: seq<int>, f: seq<int>, d: nat, i: int) {
    && 0 < i < |f| && 0 <= f[i - 1] < |b| && 0 <= f[i] < |b|
    && Compare(b, f[i - 1], f[i], d) != 0
  }

  /** bits mark exactly the first member of each class of rotations equal to depth d. */
  ghost predicate Heads(b: seq<int>, f: seq<int>, bits: seq<bool>, d: nat, lo: int, hi: int) {
    && |f| == |b| <= |bits| && 0 <= lo && hi <= |b|
    && (forall i :: 0 <= i < |b| ==> 0 <= f[i] < |b|)
    && (lo == 0 < hi ==> bits[0])
    && (forall i :: lo <= i < hi && 0 < i ==> (bits[i] <==> Differs(b, f, d, i)))
  }

  /** Start of the bucket that place i belongs to. */
  function HeadOf(bits: seq<bool>, i: nat): (r: nat)
    requires i < |bits|
    ensures r <= i
  {
    if i == 0 || bits[i] then i else HeadOf(bits, i - 1)
  }

  ghost predicate SameSign(x: int, c: int) {
    (x < 0 <==> c < 0) && (x == 0 <==> c == 0)
  }

  lemma {:induction false} HeadOrder(b: seq<int>, f: seq<int>, bits: seq<bool>, d: nat, i: nat, k: nat)
    requires SortedTo(b, f, d) && Heads(b, f, bits, d, 0, |b|) && i <= k < |b|
    ensures SameSign(HeadOf(bits, i) - HeadOf(bits, k), Compare(b, f[i], f[k], d))
    decreases k
  {
    if i == k {
      CompareFlip(b, f[i], f[i], d);
    } else {
      HeadOrder(b, f, bits, d, i, k - 1);
      CompareFlip(b, f[i], f[i], d);
      CompareTransitive(b, f[i], f[k - 1], f[k], d);
    }
  }

  /** The place H before y, cyclically. */
  function Retreat(n: nat, y: int, h: nat): (r: int)
    requires 0 <= y < n && h <= n
    ensures 0 <= r < n || (h == n && y == 0 && r == 0)
    ensures 0 <= r < n && Advance(n, r, h) == y
  {
    AdvanceWraps(n, if y - h < 0 then y - h + n else y - h, h);
    if y - h < 0 then y - h + n else y - h
  }

  lemma {:induction false} AdvanceInjective(n: nat, x: int, y: int, h: nat)
    requires 0 <= x < n && 0 <= y < n && Advance(n, x, h) == Advance(n, y, h)
    ensures x == y
    decreases h
  {
    if h > 0 { AdvanceInjective(n, Next(n, x), Next(n, y), h - 1); }
  }

  /** Classes order rotations x as the rotations h further on compare to depth h. */
  ghost predicate ClassOrder(b: seq<int>, ec: seq<int>, h: nat) {
    && |ec| == |b|
    && forall x, y :: 0 <= x < |b| && 0 <= y < |b| ==>
         SameSign(ec[x] - ec[y], Compare(b, Advance(|b|, x, h), Advance(|b|, y, h), h))
  }

  /** The classes that the first loop of a pass has written for the first m places. */
  ghost predicate ClassesSet(f: seq<int>, bits: seq<bool>, ec: seq<int>, h: nat, m: nat) {
    && h <= |f| == |ec| <= |bits| && m <= |f|
    && (forall i :: 0 <= i < |f| ==> 0 <= f[i] < |f|)
    && forall i :: 0 <= i < m ==> ec[Retreat(|f|, f[i], h)] == HeadOf(bits, i)
  }

  lemma ClassesStep(f: seq<int>, bits: seq<bool>, ec: seq<int>, h: nat, m: nat)
    requires ClassesSet(f, bits, ec, h, m) && m < |f| && IsPermutation(f, |f|)
    ensures ClassesSet(f, bits, ec[Retreat(|f|, f[m], h) := HeadOf(bits, m)], h, m + 1)
  {
  }

  lemma ClassesPair(b: seq<int>, f: seq<int>, bits: seq<bool>, ec: seq<int>, h: nat, x: int, y: int)
    requires SortedTo(b, f, h) && Heads(b, f, bits, h, 0, |b|) && ClassesSet(f, bits, ec, h, |f|)
    requires 0 <= x < |b| && 0 <= y < |b|
    ensures SameSign(ec[x] - ec[y], Compare(b, Advance(|b|, x, h), Advance(|b|, y, h), h))
  {
    var n := |b|;
    var i, k := Position(f, n, Advance(n, x, h)), Position(f, n, Advance(n, y, h));
    AdvanceInjective(n, x, Retreat(n, f[i], h), h);
    AdvanceInjective(n, y, Retreat(n, f[k], h), h);
    assert ec[x] == HeadOf(bits, i) && ec[y] == HeadOf(bits, k);
    if i <= k {
      HeadOrder(b, f, bits, h, i, k);
    } else {
      HeadOrder(b, f, bits, h, k, i);
      CompareFlip(b, f[k], f[i], h);
    }
  }

  lemma ClassesOrdered(b: seq<int>, f: seq<int>, bits: seq<bool>, ec: seq<int>, h: nat)
    requires SortedTo(b, f, h) && Heads(b, f, bits, h, 0, |b|) && ClassesSet(f, bits, ec, h, |f|)
    ensures ClassOrder(b, ec, h)
  {
    forall x, y | 0 <= x < |b| && 0 <= y < |b|
      ensures SameSign(ec[x] - ec[y], Compare(b, Advance(|b|, x, h), Advance(|b|, y, h), h))
    {
      ClassesPair(b, f, bits, ec, h, x, y);
    }
  }

  // ----- refining the buckets from left to right

  /** Ordered to depth 2h up to place r, and to depth h beyond, where a bucket starts at r + 1. */
  ghost predicate Mixed(b: seq<int>, f: seq<int>, bits: seq<bool>, h: nat, r: int) {
    && -1 <= r < |b| && SortedTo(b, f, h)
    && (forall x, y :: 0 <= x < y <= r ==> Compare(b, f[x], f[y], 2 * h) <= 0)
    && Heads(b, f, bits, 2 * h, 0, r + 1) && Heads(b, f, bits, h, r + 1, |b|)
    && (r + 1 < |b| ==> bits[r + 1])
  }

  lemma MixedStart(b: seq<int>, f: seq<int>, bits: seq<bool>, h: nat)
    requires SortedTo(b, f, h) && Heads(b, f, bits, h, 0, |b|) && |b| > 0
    ensures Mixed(b, f, bits, h, -1)
  {
    assert bits[0];
  }

  /** Across a bucket start the order to depth d is strict. */
  lemma StrictAcross(b: seq<int>, f: seq<int>, d: nat, x: int, z: int, y: int)
    requires SortedTo(b, f, d) && 0 <= x < z <= y < |b| && Compare(b, f[z - 1], f[z], d) != 0
    ensures Compare(b, f[x], f[y], d) < 0
  {
    CompareFlip(b, f[x], f[x], d);
    CompareFlip(b, f[y], f[y], d);
    CompareTransitive(b, f[x], f[z - 1], f[z], d);
    CompareTransitive(b, f[x], f[z], f[y], d);
  }

  /** Between bucket starts all rotations agree to depth d. */
  lemma {:induction false} EqualWithin(b: seq<int>, f: seq<int>, d: nat, x: int, y: int)
    requires SortedTo(b, f, d) && 0 <= x <= y < |b|
    requires forall i :: x < i <= y ==> !Differs(b, f, d, i)
    ensures Compare(b, f[x], f[y], d) == 0
    decreases y - x
  {
    CompareFlip(b, f[x], f[x], d);
    if x < y {
      EqualWithin(b, f, d, x, y - 1);
      assert !Differs(b, f, d, y);
      CompareTransitive(b, f[x], f[y - 1], f[y], d);
    }
  }

  /** Place i of bits heads a bucket of depth h within l..r. */
  ghost predicate Bucket(b: seq<int>, f: seq<int>, bits: seq<bool>, h: nat, l: int, r: int) {
    && 0 <= l <= r < |b| == |f| && |f| <= |bits|
    && bits[l] && (forall i :: l < i <= r ==> !bits[i]) && (r + 1 < |b| ==> bits[r + 1])
  }

  /** All places of the bucket hold rotations that agree to depth h, before and after sorting it. */
  lemma BucketEqual(b: seq<int>, f: seq<int>, g: seq<int>, bits: seq<bool>, h: nat, l: int, r: int, x: int)
    requires SortedTo(b, f, h) && Heads(b, f, bits, h, l, |b|) && Bucket(b, f, bits, h, l, r)
    requires QS.Permuted(f, g, l, r) && 0 <= x < |b|
    ensures |g| == |b| && 0 <= g[x] < |b|
    ensures Compare(b, g[x], f[x], h) == 0 && Compare(b, f[x], g[x], h) == 0
  {
    if l <= x <= r {
      var y := QS.PermutedFrom(f, g, l, r, x);
      EqualWithin(b, f, h, if x < y then x else y, if x < y then y else x);
      CompareFlip(b, f[x], f[y], h);
    } else {
      CompareFlip(b, f[x], f[x], h);
    }
  }

  /** Replacing rotations by rotations equal to depth d changes no comparison to depth d. */
  lemma CompareCongruent(b: seq<int>, x: int, y: int, x': int, y': int, d: nat)
    requires 0 <= x < |b| && 0 <= y < |b| && 0 <= x' < |b| && 0 <= y' < |b|
    requires Compare(b, x', x, d) == 0 && Compare(b, y', y, d) == 0 && Compare(b, x, y, d) <= 0
    ensures Compare(b, x', y', d) == Compare(b, x, y, d)
  {
    CompareTransitive(b, x', x, y, d);
    CompareFlip(b, y', y, d);
    CompareTransitive(b, x', y, y', d);
  }

  lemma {:induction false} CountDistinct(f: seq<int>, v: int)
    requires forall i, j :: 0 <= i < j < |f| ==> f[i] != f[j]
    ensures multiset(f)[v] <= 1
  {
    if f != [] {
      var g := f[..|f| - 1];
      assert f == g + [f[|f| - 1]];
      CountDistinct(g, v);
      assert f[|f| - 1] !in g;
    }
  }

  lemma CountTwice(g: seq<int>, i: int, j: int)
    requires 0 <= i < j < |g| && g[i] == g[j]
    ensures multiset(g)[g[i]] >= 2
  {
    assert g == g[..i] + [g[i]] + g[i + 1..j] + [g[j]] + g[j + 1..];
  }

  lemma RearrangedPermutation(f: seq<int>, g: seq<int>, n: nat)
    requires IsPermutation(f, n) && |f| == |g| && multiset(f) == multiset(g)
    ensures IsPermutation(g, n)
  {
    forall i, j | 0 <= i < j < n ensures g[i] != g[j] {
      if g[i] == g[j] {
        CountTwice(g, i, j);
        CountDistinct(f, g[i]);
      }
    }
    forall i | 0 <= i < n ensures 0 <= g[i] < n {
      assert g[i] in multiset(g);
      assert g[i] in f;
    }
  }

  /** Sorting one bucket keeps the order to depth h. */
  lemma BucketKeepsOrder(b: seq<int>, f: seq<int>, g: seq<int>, bits: seq<bool>, h: nat, l: int, r: int)
    requires SortedTo(b, f, h) && Heads(b, f, bits, h, l, |b|) && Bucket(b, f, bits, h, l, r)
    requires QS.Permuted(f, g, l, r)
    ensures |g| == |b| && (forall i :: 0 <= i < |b| ==> 0 <= g[i] < |b|) && SortedTo(b, g, h)
    ensures forall x, y :: 0 <= x < y < |b| ==> Compare(b, g[x], g[y], h) == Compare(b, f[x], f[y], h)
  {
    RearrangedPermutation(f, g, |b|);
    forall x, y | 0 <= x < y < |b| ensures Compare(b, g[x], g[y], h) == Compare(b, f[x], f[y], h) {
      BucketEqual(b, f, g, bits, h, l, r, x);
      BucketEqual(b, f, g, bits, h, l, r, y);
      CompareCongruent(b, f[x], f[y], g[x], g[y], h);
    }
  }

  /** Among rotations equal to depth h, order by class is order to depth 2h. */
  lemma ClassesDeepen(b: seq<int>, g: seq<int>, ec: seq<int>, h: nat, x: int, y: int)
    requires ClassOrder(b, ec, h) && |g| == |b| && 0 <= x < |b| && 0 <= y < |b|
    requires 0 <= g[x] < |b| && 0 <= g[y] < |b| && Compare(b, g[x], g[y], h) == 0
    ensures SameSign(QS.Key(g, ec, x) - QS.Key(g, ec, y), Compare(b, g[x], g[y], 2 * h))
  {
    hide Compare, SameSign, Advance;
    CompareSplit(b, g[x], g[y], h, h);
    assert h + h == 2 * h;
  }

  /** The bits after the header scan of bucket l..r. */
  ghost predicate Rescanned(bits: seq<bool>, bits': seq<bool>, g: seq<int>, ec: seq<int>, l: int, r: int) {
    && |bits'| == |bits| && 0 <= l <= r < |bits|
    && (forall i :: 0 <= i < |bits| && (i < l || r < i) ==> bits'[i] == bits[i])
    && bits'[l]
    && (forall i :: l < i <= r ==> (bits'[i] <==> QS.Key(g, ec, i - 1) != QS.Key(g, ec, i)))
  }

  /** Every place from r + 1 to l starts a bucket: the next bucket to sort starts at l. */
  ghost predicate Skipped(bits: seq<bool>, r: int, l: int) {
    l < |bits| && forall i :: r < i <= l ==> 0 <= i && bits[i]
  }

  lemma KeysInOrder(g: seq<int>, ec: seq<int>, lo: int, hi: int, x: int, y: int)
    requires QS.SortedKeys(g, ec, lo, hi) && lo <= x < y <= hi
    ensures QS.Key(g, ec, x) <= QS.Key(g, ec, y)
  {
    hide QS.Key;
  }

  lemma MixedOrder(b: seq<int>, f: seq<int>, g: seq<int>, bits: seq<bool>, ec: seq<int>,
                   h: nat, r: int, l: int, r': int, x: int, y: int)
    requires Mixed(b, f, bits, h, r) && r < l < r' < |b| && Skipped(bits, r, l) && Bucket(b, f, bits, h, l, r')
    requires QS.Permuted(f, g, l, r') && QS.SortedKeys(g, ec, l, r') && ClassOrder(b, ec, h)
    requires SortedTo(b, g, h)
    requires forall x, y :: 0 <= x < y < |b| ==> Compare(b, g[x], g[y], h) == Compare(b, f[x], f[y], h)
    requires 0 <= x < y <= r'
    ensures Compare(b, g[x], g[y], 2 * h) <= 0
  {
    hide Compare, ClassOrder, QS.SortedKeys, QS.Key;
    if y <= r {
      assert g[x] == f[x] && g[y] == f[y];
    } else if l <= x {
      KeysInOrder(g, ec, l, r', x, y);
      EqualWithin(b, f, h, x, y);
      ClassesDeepen(b, g, ec, h, x, y);
    } else {
      var z := if y < l then y else l;
      assert bits[z];
      StrictAcross(b, f, h, x, z, y);
      CompareShorter(b, g[x], g[y], h, 2 * h);
    }
  }

  lemma MixedHead(b: seq<int>, f: seq<int>, g: seq<int>, bits: seq<bool>, bits': seq<bool>, ec: seq<int>,
                  h: nat, r: int, l: int, r': int, i: int)
    requires Mixed(b, f, bits, h, r) && r < l < r' < |b| && Skipped(bits, r, l) && Bucket(b, f, bits, h, l, r')
    requires QS.Permuted(f, g, l, r') && ClassOrder(b, ec, h) && SortedTo(b, g, h)
    requires Rescanned(bits, bits', g, ec, l, r')
    requires forall x, y :: 0 <= x < y < |b| ==> Compare(b, g[x], g[y], h) == Compare(b, f[x], f[y], h)
    requires 0 < i <= r'
    ensures bits'[i] <==> Compare(b, g[i - 1], g[i], 2 * h) != 0
  {
    hide Compare, ClassOrder, QS.Key;
    if i <= r {
      assert g[i - 1] == f[i - 1] && g[i] == f[i];
    } else if i <= l {
      assert bits[i] && bits'[i];
      assert Compare(b, f[i - 1], f[i], h) != 0;
      CompareShorter(b, g[i - 1], g[i], h, 2 * h);
    } else {
      EqualWithin(b, f, h, i - 1, i);
      ClassesDeepen(b, g, ec, h, i - 1, i);
    }
  }

  lemma MixedStep(b: seq<int>, f: seq<int>, g: seq<int>, bits: seq<bool>, bits': seq<bool>, ec: seq<int>,
                  h: nat, r: int, l: int, r': int)
    requires Mixed(b, f, bits, h, r) && r < l < r' < |b| && Skipped(bits, r, l) && Bucket(b, f, bits, h, l, r')
    requires QS.Permuted(f, g, l, r') && QS.SortedKeys(g, ec, l, r') && ClassOrder(b, ec, h)
    requires Rescanned(bits, bits', g, ec, l, r')
    ensures Mixed(b, g, bits', h, r')
  {
    hide Heads, SortedTo, Compare, ClassOrder, Rescanned, Skipped, Bucket, Differs, QS.Permuted, QS.SortedKeys;
    MixedIsHeads(b, f, bits, h, r, l);
    BucketKeepsOrder(b, f, g, bits, h, l, r');
    forall x, y | 0 <= x < y <= r' ensures Compare(b, g[x], g[y], 2 * h) <= 0 {
      MixedOrder(b, f, g, bits, ec, h, r, l, r', x, y);
    }
    MixedHeads(b, f, g, bits, bits', ec, h, r, l, r');
    MixedBeyond(b, f, g, bits, bits', ec, h, r, l, r');
  }

  lemma MixedIsHeads(b: seq<int>, f: seq<int>, bits: seq<bool>, h: nat, r: int, l: int)
    requires Mixed(b, f, bits, h, r) && r < l < |b|
    ensures |f| == |b| && (forall i :: 0 <= i < |b| ==> 0 <= f[i] < |b|) && Heads(b, f, bits, h, l, |b|)
  {
  }

  lemma MixedHeads(b: seq<int>, f: seq<int>, g: seq<int>, bits: seq<bool>, bits': seq<bool>, ec: seq<int>,
                   h: nat, r: int, l: int, r': int)
    requires Mixed(b, f, bits, h, r) && r < l < r' < |b| && Skipped(bits, r, l) && Bucket(b, f, bits, h, l, r')
    requires QS.Permuted(f, g, l, r') && ClassOrder(b, ec, h) && SortedTo(b, g, h)
    requires Rescanned(bits, bits', g, ec, l, r')
    requires forall x, y :: 0 <= x < y < |b| ==> Compare(b, g[x], g[y], h) == Compare(b, f[x], f[y], h)
    ensures Heads(b, g, bits', 2 * h, 0, r' + 1)
  {
    hide ClassOrder, QS.Permuted, Compare, Skipped, Mixed;
    MixedIsHeads(b, f, bits, h, r, l);
    MixedFirst(b, f, g, bits, bits', ec, h, r, l, r');
    forall i | 0 < i <= r' ensures bits'[i] <==> Differs(b, g, 2 * h, i) {
      MixedHead(b, f, g, bits, bits', ec, h, r, l, r', i);
    }
  }

  lemma MixedFirst(b: seq<int>, f: seq<int>, g: seq<int>, bits: seq<bool>, bits': seq<bool>, ec: seq<int>,
                   h: nat, r: int, l: int, r': int)
    requires Mixed(b, f, bits, h, r) && r < l < r' < |b| && Skipped(bits, r, l)
    requires Rescanned(bits, bits', g, ec, l, r')
    ensures bits'[0]
  {
    if r < 0 { assert bits[0]; }
  }

  lemma MixedBeyond(b: seq<int>, f: seq<int>, g: seq<int>, bits: seq<bool>, bits': seq<bool>, ec: seq<int>,
                    h: nat, r: int, l: int, r': int)
    requires Mixed(b, f, bits, h, r) && r < l < r' < |b| && Bucket(b, f, bits, h, l, r')
    requires Rescanned(bits, bits', g, ec, l, r') && SortedTo(b, g, h)
    requires forall x, y :: 0 <= x < y < |b| ==> Compare(b, g[x], g[y], h) == Compare(b, f[x], f[y], h)
    ensures Heads(b, g, bits', h, r' + 1, |b|) && (r' + 1 < |b| ==> bits'[r' + 1])
  {
  }

  /** When every remaining place starts a bucket, the whole order holds to depth 2h. */
  lemma MixedEnd(b: seq<int>, f: seq<int>, bits: seq<bool>, h: nat, r: int)
    requires Mixed(b, f, bits, h, r) && forall i :: r < i < |b| ==> bits[i]
    ensures SortedTo(b, f, 2 * h) && Heads(b, f, bits, 2 * h, 0, |b|)
    ensures r == -1 && h <= |b| ==> SortedTo(b, f, |b|)
  {
    forall x, y | 0 <= x < y < |b| && y > r
      ensures Compare(b, f[x], f[y], 2 * h) < 0 && (h <= |b| ==> Compare(b, f[x], f[y], |b|) < 0)
    {
      assert bits[y];
      StrictAcross(b, f, h, x, y, y);
      CompareShorter(b, f[x], f[y], h, 2 * h);
      if h <= |b| { CompareShorter(b, f[x], f[y], h, |b|); }
    }
  }

  /** Order to a depth of at least the block length is order by full rotation. */
  lemma DeepEnough(b: seq<int>, f: seq<int>, d: nat)
    requires SortedTo(b, f, d) && d >= |b|
    ensures SortedTo(b, f, |b|)
  {
    forall x, y | 0 <= x < y < |b| ensures Compare(b, f[x], f[y], |b|) <= 0 {
      CompareShorter(b, f[x], f[y], |b|, d);
    }
  }
}
