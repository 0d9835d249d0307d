/** The order of rotations as a table of ranks, so that sorting rotations is sorting by key. */
module RotationRank {
  import opened Permutations
  import opened Rotations

  /** The rotations strictly below rotation i. */
  ghost function Lower(b: seq<int>, i: int): (r: set<int>)
    requires 0 <= i < |b|
    ensures forall k :: k in r <==> 0 <= k < |b| && Compare(b, k, i, |b|) < 0
  {
    set k | k in Range(|b|) && 0 <= k < |b| && Compare(b, k, i, |b|) < 0
  }

  ghost function Ranks(b: seq<int>): (r: seq<int>)
    ensures |r| == |b|
  {
    seq(|b|, i requires 0 <= i < |b| => |Lower(b, i)|)
  }

  lemma LowerGrows(b: seq<int>, i: int, j: int)
    requires 0 <= i < |b| && 0 <= j < |b| && Compare(b, i, j, |b|) <= 0
    ensures Lower(b, i) <= Lower(b, j)
    ensures Compare(b, i, j, |b|) < 0 ==> |Lower(b, i)| < |Lower(b, j)|
    ensures |Lower(b, i)| <= |Lower(b, j)|
  {
    hide Compare;
    forall k | k in Lower(b, i) ensures k in Lower(b, j) {
      CompareTransitive(b, k, i, j, |b|);
    }
    SubsetCardinality(Lower(b, i), Lower(b, j));
    if Compare(b, i, j, |b|) < 0 {
      CompareFlip(b, i, i, |b|);
      assert i in Lower(b, j) && i !in Lower(b, i);
    }
  }

  /** Comparing ranks is comparing rotations. */
  lemma RankOrder(b: seq<int>, i: int, j: int)
    requires 0 <= i < |b| && 0 <= j < |b|
    ensures Ranks(b)[i] <= Ranks(b)[j] <==> Compare(b, i, j, |b|) <= 0
  {
    hide Compare, Lower;
    CompareFlip(b, i, j, |b|);
    if Compare(b, i, j, |b|) <= 0 { LowerGrows(b, i, j); } else { LowerGrows(b, j, i); }
  }
}
