/** Permutations of 0..n-1 held in sequences. */
module Permutations {

  ghost predicate IsPermutation(p: seq<int>, n: nat) {
    && |p| == n
    && (forall i :: 0 <= i < n ==> 0 <= p[i] < n)
    && (forall i, j :: 0 <= i < j < n ==> p[i] != p[j])
  }

  function Range(n: nat): (s: set<int>)
    ensures |s| == n
    ensures forall x :: x in s <==> 0 <= x < n
  {
    if n == 0 then {} else Range(n - 1) + {n - 1}
  }

  /** The values of a duplicate-free sequence are as many as its positions. */
  lemma {:induction false} DistinctCardinality(p: seq<int>)
    requires forall i, j :: 0 <= i < j < |p| ==> p[i] != p[j]
    ensures |set x | x in p| == |p|
  {
    if p == [] {
      assert (set x | x in p) == {};
    } else {
      var q := p[..|p| - 1];
      DistinctCardinality(q);
      assert p == q + [p[|p| - 1]];
      assert (set x | x in p) == (set x | x in q) + {p[|p| - 1]};
    }
  }

  lemma SubsetCardinality(a: set<int>, b: set<int>)
    requires a <= b
    ensures |a| <= |b|
    ensures |a| == |b| ==> a == b
  {
    var c := b - a;
    assert b == a + c;
    assert |b| == |a| + |c|;
  }

  /** A permutation hits every value (pigeonhole). */
  lemma Surjective(p: seq<int>, n: nat)
    requires IsPermutation(p, n)
    ensures forall v :: 0 <= v < n ==> v in p
  {
    DistinctCardinality(p);
    SubsetCardinality((set x | x in p), Range(n));
    forall v | 0 <= v < n ensures v in p {
      assert v in Range(n);
    }
  }

  /** Where value v sits in permutation p. */
  ghost function Position(p: seq<int>, n: nat, v: int): (k: int)
    requires IsPermutation(p, n) && 0 <= v < n
    ensures 0 <= k < n && p[k] == v
  {
    Surjective(p, n);
    assert v in p;
    var k :| 0 <= k < n && p[k] == v;
    k
  }

  /** Distinct values that all lie in another sequence cannot outnumber it. */
  lemma Pigeonhole(p: seq<int>, q: seq<int>)
    requires forall i, j :: 0 <= i < j < |p| ==> p[i] != p[j]
    requires forall i, j :: 0 <= i < j < |q| ==> q[i] != q[j]
    requires forall i :: 0 <= i < |p| ==> p[i] in q
    ensures |p| <= |q|
  {
    DistinctCardinality(p);
    DistinctCardinality(q);
    SubsetCardinality((set x | x in p), (set x | x in q));
  }

  function Swap(s: seq<int>, i: int, j: int): (r: seq<int>)
    requires 0 <= i < |s| && 0 <= j < |s|
    ensures |r| == |s|
  {
    s[i := s[j]][j := s[i]]
  }

  lemma SwapIs(s: seq<int>, i: int, j: int)
    requires 0 <= i < |s| && 0 <= j < |s|
    ensures forall k :: 0 <= k < |s| ==> Swap(s, i, j)[k] == s[if k == i then j else if k == j then i else k]
  {
  }
}
