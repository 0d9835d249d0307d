/** Cyclic rotations of a block and their lexicographic order. */
module Rotations {
  import opened Permutations

  function Next(n: nat, i: int): (r: int)
    requires 0 <= i < n
    ensures 0 <= r < n
  {
    if i + 1 == n then 0 else i + 1
  }

  function Prev(n: nat, i: int): (r: int)
    requires 0 <= i < n
    ensures 0 <= r < n
    ensures Next(n, r) == i
  {
    if i == 0 then n - 1 else i - 1
  }

  /** The position d places after i, cyclically. */
  function Advance(n: nat, i: int, d: nat): (r: int)
    requires 0 <= i < n
    ensures 0 <= r < n
    decreases d
  {
    if d == 0 then i else Advance(n, Next(n, i), d - 1)
  }

  /** One trip round the block needs at most one wrap. */
  lemma {:induction false} AdvanceWraps(n: nat, i: int, d: nat)
    requires 0 <= i < n && d <= n
    ensures Advance(n, i, d) == if i + d < n then i + d else i + d - n
    decreases d
  {
    if d > 0 {
      AdvanceWraps(n, Next(n, i), d - 1);
    }
  }

  /** Three-way comparison of the first d characters of rotations i and j. */
  function Compare(b: seq<int>, i: int, j: int, d: nat): (r: int)
    requires 0 <= i < |b| && 0 <= j < |b|
    ensures -1 <= r <= 1
    decreases d
  {
    if d == 0 then 0
    else if b[i] < b[j] then -1
    else if b[i] > b[j] then 1
    else Compare(b, Next(|b|, i), Next(|b|, j), d - 1)
  }

  /** Rotation i of the block, written out. */
  function Rotation(b: seq<int>, i: int): (r: seq<int>)
    requires 0 <= i < |b|
    ensures |r| == |b|
  {
    b[i..] + b[..i]
  }

  /** Lexicographic order. */
  predicate LexLe(x: seq<int>, y: seq<int>) {
    x == [] || (y != [] && (x[0] < y[0] || (x[0] == y[0] && LexLe(x[1..], y[1..]))))
  }

  // ----- algebra of Compare

  lemma {:induction false} CompareSplit(b: seq<int>, i: int, j: int, d: nat, e: nat)
    requires 0 <= i < |b| && 0 <= j < |b|
    ensures Compare(b, i, j, d + e) ==
            if Compare(b, i, j, d) != 0 then Compare(b, i, j, d)
            else Compare(b, Advance(|b|, i, d), Advance(|b|, j, d), e)
    decreases d
  {
    if d > 0 && b[i] == b[j] {
      CompareSplit(b, Next(|b|, i), Next(|b|, j), d - 1, e);
    }
  }

  lemma {:induction false} CompareFlip(b: seq<int>, i: int, j: int, d: nat)
    requires 0 <= i < |b| && 0 <= j < |b|
    ensures Compare(b, j, i, d) == -Compare(b, i, j, d)
    decreases d
  {
    if d > 0 && b[i] == b[j] {
      CompareFlip(b, Next(|b|, i), Next(|b|, j), d - 1);
    }
  }

  lemma {:induction false} CompareTransitive(b: seq<int>, i: int, j: int, k: int, d: nat)
    requires 0 <= i < |b| && 0 <= j < |b| && 0 <= k < |b|
    requires Compare(b, i, j, d) <= 0 && Compare(b, j, k, d) <= 0
    ensures Compare(b, i, k, d) <= 0
    ensures Compare(b, i, k, d) == 0 ==> Compare(b, i, j, d) == 0 && Compare(b, j, k, d) == 0
    ensures Compare(b, i, j, d) == 0 ==> Compare(b, i, k, d) == Compare(b, j, k, d)
    ensures Compare(b, j, k, d) == 0 ==> Compare(b, i, k, d) == Compare(b, i, j, d)
    decreases d
  {
    if d > 0 && b[i] == b[j] && b[j] == b[k] {
      CompareTransitive(b, Next(|b|, i), Next(|b|, j), Next(|b|, k), d - 1);
    }
  }

  /** A longer comparison refines a shorter one. */
  lemma CompareShorter(b: seq<int>, i: int, j: int, d: nat, e: nat)
    requires 0 <= i < |b| && 0 <= j < |b| && d <= e
    ensures Compare(b, i, j, d) != 0 ==> Compare(b, i, j, e) == Compare(b, i, j, d)
    ensures Compare(b, i, j, e) <= 0 ==> Compare(b, i, j, d) <= 0
    ensures Compare(b, i, j, e) == 0 ==> Compare(b, i, j, d) == 0
  {
    CompareSplit(b, i, j, d, e - d);
  }

  lemma EqualHead(b: seq<int>, i: int, j: int, d: nat)
    requires 0 <= i < |b| && 0 <= j < |b| && d > 0
    requires Compare(b, i, j, d) == 0
    ensures b[i] == b[j] && Compare(b, Next(|b|, i), Next(|b|, j), d - 1) == 0
  {
  }

  lemma AdvanceAround(n: nat, i: int)
    requires 0 <= i < n
    ensures Advance(n, Next(n, i), n - 1) == i
    ensures Advance(n, i, n - 1) == Prev(n, i)
  {
    hide Advance;
    AdvanceWraps(n, Next(n, i), n - 1);
    AdvanceWraps(n, i, n - 1);
  }

  /** Agreement on d characters and on the next one is agreement on d + 1. */
  lemma EqualExtend(b: seq<int>, i: int, j: int, d: nat)
    requires 0 <= i < |b| && 0 <= j < |b|
    ensures Compare(b, i, j, d + 1) == 0 <==>
            Compare(b, i, j, d) == 0 && b[Advance(|b|, i, d)] == b[Advance(|b|, j, d)]
  {
    CompareSplit(b, i, j, d, 1);
  }

  /** Equal rotations have the same last character. */
  lemma EqualRotationsLast(b: seq<int>, i: int, j: int)
    requires 0 <= i < |b| && 0 <= j < |b|
    requires Compare(b, i, j, |b|) == 0
    ensures b[Prev(|b|, i)] == b[Prev(|b|, j)]
  {
    hide *;
    EqualExtend(b, i, j, |b| - 1);
    AdvanceAround(|b|, i);
    AdvanceAround(|b|, j);
  }

  /** Equal rotations stay equal one step on. */
  lemma EqualRotationsStep(b: seq<int>, i: int, j: int)
    requires 0 <= i < |b| && 0 <= j < |b|
    requires Compare(b, i, j, |b|) == 0
    ensures Compare(b, Next(|b|, i), Next(|b|, j), |b|) == 0
  {
    hide *;
    EqualHead(b, i, j, |b|);
    EqualExtend(b, Next(|b|, i), Next(|b|, j), |b| - 1);
    AdvanceAround(|b|, i);
    AdvanceAround(|b|, j);
  }

  // ----- Compare agrees with the lexicographic order of the written-out rotations

  ghost function Prefix(b: seq<int>, i: int, d: nat): (r: seq<int>)
    requires 0 <= i < |b|
    ensures |r| == d
    decreases d
  {
    if d == 0 then [] else [b[i]] + Prefix(b, Next(|b|, i), d - 1)
  }

  lemma {:induction false} PrefixAt(b: seq<int>, i: int, d: nat, k: nat)
    requires 0 <= i < |b| && k < d
    ensures Prefix(b, i, d)[k] == b[Advance(|b|, i, k)]
    decreases d
  {
    if k > 0 {
      PrefixAt(b, Next(|b|, i), d - 1, k - 1);
    }
  }

  lemma PrefixIsRotation(b: seq<int>, i: int)
    requires 0 <= i < |b|
    ensures Prefix(b, i, |b|) == Rotation(b, i)
  {
    forall k | 0 <= k < |b| ensures Prefix(b, i, |b|)[k] == Rotation(b, i)[k] {
      PrefixAt(b, i, |b|, k);
      AdvanceWraps(|b|, i, k);
    }
  }

  lemma {:induction false} ComparePrefixes(b: seq<int>, i: int, j: int, d: nat)
    requires 0 <= i < |b| && 0 <= j < |b|
    ensures Compare(b, i, j, d) <= 0 <==> LexLe(Prefix(b, i, d), Prefix(b, j, d))
    decreases d
  {
    if d > 0 {
      ComparePrefixes(b, Next(|b|, i), Next(|b|, j), d - 1);
    }
  }

  lemma CompareIsLexicographic(b: seq<int>, i: int, j: int)
    requires 0 <= i < |b| && 0 <= j < |b|
    ensures Compare(b, i, j, |b|) <= 0 <==> LexLe(Rotation(b, i), Rotation(b, j))
  {
    ComparePrefixes(b, i, j, |b|);
    PrefixIsRotation(b, i);
    PrefixIsRotation(b, j);
  }

  // ----- sorted orders

  /** p lists all rotations of b, weakly sorted on their first d characters. */
  ghost predicate SortedTo(b: seq<int>, p: seq<int>, d: nat) {
    && IsPermutation(p, |b|)
    && (forall i, j :: 0 <= i < j < |b| ==> Compare(b, p[i], p[j], d) <= 0)
  }

  /** What the block sort promises: every rotation once, in weak lexicographic order. */
  ghost predicate IsSortedOrder(b: seq<int>, p: seq<int>) {
    && IsPermutation(p, |b|)
    && (forall i, j :: 0 <= i < j < |b| ==> LexLe(Rotation(b, p[i]), Rotation(b, p[j])))
  }

  lemma SortedToIsSortedOrder(b: seq<int>, p: seq<int>)
    ensures SortedTo(b, p, |b|) <==> IsSortedOrder(b, p)
  {
    if IsPermutation(p, |b|) {
      forall i, j | 0 <= i < j < |b|
        ensures Compare(b, p[i], p[j], |b|) <= 0 <==> LexLe(Rotation(b, p[i]), Rotation(b, p[j]))
      {
        CompareIsLexicographic(b, p[i], p[j]);
      }
    }
  }

  /** What p lists up to k, q lists before k, if p[k] were below q[k]. */
  lemma ListedEarlier(b: seq<int>, p: seq<int>, q: seq<int>, d: nat, k: int, i: int)
    requires SortedTo(b, p, d) && SortedTo(b, q, d) && 0 <= i <= k < |b|
    requires Compare(b, p[k], q[k], d) < 0
    ensures p[i] in q[..k]
  {
    var n := |b|;
    var m := Position(q, n, p[i]);
    if m >= k {
      CompareFlip(b, q[k], q[k], d);
      CompareFlip(b, p[k], p[k], d);
      CompareTransitive(b, q[k], p[i], p[k], d);
      CompareFlip(b, p[k], q[k], d);
      assert false;
    }
    assert q[..k][m] == p[i];
  }

  /** One half of SortedOrdersAgree: position k of p is not below position k of q. */
  lemma SortedOrderNotBelow(b: seq<int>, p: seq<int>, q: seq<int>, d: nat, k: int)
    requires SortedTo(b, p, d) && SortedTo(b, q, d) && 0 <= k < |b|
    ensures Compare(b, p[k], q[k], d) >= 0
  {
    if Compare(b, p[k], q[k], d) < 0 {
      forall i | 0 <= i <= k ensures p[i] in q[..k] {
        ListedEarlier(b, p, q, d, k, i);
      }
      Pigeonhole(p[..k + 1], q[..k]);
      assert false;
    }
  }

  /** Any two sorted orders of one block agree up to equality of what they are sorted by. */
  lemma SortedOrdersAgree(b: seq<int>, p: seq<int>, q: seq<int>, d: nat, k: int)
    requires SortedTo(b, p, d) && SortedTo(b, q, d) && 0 <= k < |b|
    ensures Compare(b, p[k], q[k], d) == 0
  {
    SortedOrderNotBelow(b, p, q, d, k);
    SortedOrderNotBelow(b, q, p, d, k);
    CompareFlip(b, p[k], q[k], d);
  }
}
