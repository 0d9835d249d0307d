/** Undoing the block sort: the decoder's T vector and the walk along it. */
module InverseBwt {
  import opened Permutations
  import opened Rotations
  import opened Counting

  /** The last column of the sorted rotations: the characters before each rotation. */
  function LastColumn(b: seq<int>, p: seq<int>): (r: seq<int>)
    requires |p| == |b| && forall i :: 0 <= i < |p| ==> 0 <= p[i] < |b|
    ensures |r| == |b|
  {
    seq(|b|, i requires 0 <= i < |b| => b[Prev(|b|, p[i])])
  }

  /** The characters met on m steps of the walk that starts at place t. */
  ghost function Walk(last: seq<int>, t: int, m: nat): (r: seq<int>)
    requires 0 <= t < |last|
    ensures |r| == m
    decreases m
  {
    if m == 0 then [] else [last[Sources(last)[t]]] + Walk(last, Sources(last)[t], m - 1)
  }

  /** Rotations one step back, listed through Source. */
  ghost function StepBack(b: seq<int>, p: seq<int>): (q: seq<int>)
    requires IsPermutation(p, |b|)
    ensures |q| == |b|
  {
    seq(|b|, k requires 0 <= k < |b| => Prev(|b|, p[Sources(LastColumn(b, p))[k]]))
  }

  lemma StepBackPermutation(b: seq<int>, p: seq<int>)
    requires IsPermutation(p, |b|)
    ensures IsPermutation(StepBack(b, p), |b|)
  {
    var q, last := StepBack(b, p), LastColumn(b, p);
    forall i, j | 0 <= i < j < |b| ensures q[i] != q[j] {
      SourceOrder(last, i, j);
      assert p[Sources(last)[i]] != p[Sources(last)[j]];
    }
  }

  /** Sorting stably on one more character in front keeps a sorted order sorted. */
  lemma StepBackSorted(b: seq<int>, p: seq<int>)
    requires SortedTo(b, p, |b|)
    ensures SortedTo(b, StepBack(b, p), |b|)
  {
    var n, q, last := |b|, StepBack(b, p), LastColumn(b, p);
    StepBackPermutation(b, p);
    forall i, j | 0 <= i < j < n ensures Compare(b, q[i], q[j], n) <= 0 {
      var u, v := Sources(last)[i], Sources(last)[j];
      SourceOrder(last, i, j);
      assert last[u] == b[q[i]] && last[v] == b[q[j]];
      if b[q[i]] == b[q[j]] {
        CompareShorter(b, p[u], p[v], n - 1, n);
      }
    }
  }

  /** One step of the walk moves one place forward in the block, up to equal rotations. */
  lemma WalkStep(b: seq<int>, p: seq<int>, t: nat)
    requires SortedTo(b, p, |b|) && t < |b|
    ensures Compare(b, p[Sources(LastColumn(b, p))[t]], Next(|b|, p[t]), |b|) == 0
  {
    StepBackSorted(b, p);
    SortedOrdersAgree(b, StepBack(b, p), p, |b|, t);
    EqualRotationsStep(b, StepBack(b, p)[t], p[t]);
  }

  lemma {:induction false} WalkFrom(b: seq<int>, p: seq<int>, t: nat, i: int, m: nat)
    requires SortedTo(b, p, |b|) && t < |b| && 0 <= i && i + m == |b|
    requires m > 0 ==> Compare(b, p[t], i, |b|) == 0
    ensures Walk(LastColumn(b, p), t, m) == b[i..]
    decreases m
  {
    if m > 0 {
      var n, last := |b|, LastColumn(b, p);
      var u := Sources(last)[t];
      WalkStep(b, p, t);
      EqualRotationsStep(b, p[t], i);
      var k, j := Next(n, p[t]), Next(n, i);
      CompareTransitive(b, p[u], k, j, n);
      EqualRotationsLast(b, p[u], j);
      assert last[u] == b[i];
      WalkFrom(b, p, u, i + 1, m - 1);
    }
  }

  /** The walk from the place of rotation 0 spells the block, for every sorted order,
      including those of periodic blocks, whose equal rotations may come in any order. */
  lemma WalkSpellsBlock(b: seq<int>, p: seq<int>, origPtr: nat)
    requires IsSortedOrder(b, p) && origPtr < |b| && p[origPtr] == 0
    ensures Walk(LastColumn(b, p), origPtr, |b|) == b
  {
    SortedToIsSortedOrder(b, p);
    CompareFlip(b, 0, 0, |b|);
    WalkFrom(b, p, origPtr, 0, |b|);
  }

  /** The last column does not depend on how equal rotations are ordered. */
  lemma LastColumnUnique(b: seq<int>, p: seq<int>, q: seq<int>)
    requires IsSortedOrder(b, p) && IsSortedOrder(b, q)
    ensures LastColumn(b, p) == LastColumn(b, q)
  {
    SortedToIsSortedOrder(b, p);
    SortedToIsSortedOrder(b, q);
    forall k | 0 <= k < |b| ensures LastColumn(b, p)[k] == LastColumn(b, q)[k] {
      SortedOrdersAgree(b, p, q, |b|, k);
      EqualRotationsLast(b, p[k], q[k]);
    }
  }
}
