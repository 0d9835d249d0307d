/** Counting occurrences in prefixes, and the slots a stable counting sort assigns. */
module Counting {
  import opened Permutations

  function Sum(s: seq<int>, k: nat): (r: int)
    requires k <= |s|
  {
    if k == 0 then 0 else Sum(s, k - 1) + s[k - 1]
  }

  lemma {:induction false} SumMonotone(s: seq<int>, i: nat, k: nat)
    requires i <= k <= |s| && forall j :: 0 <= j < k ==> s[j] >= 0
    ensures 0 <= Sum(s, i) <= Sum(s, k)
    decreases k
  {
    if i < k { SumMonotone(s, i, k - 1); } else if k > 0 { SumMonotone(s, k - 1, k - 1); }
  }

  lemma {:induction false} SumBump(s: seq<int>, i: nat, k: nat)
    requires i < |s| && k <= |s|
    ensures Sum(s[i := s[i] + 1], k) == Sum(s, k) + if i < k then 1 else 0
  {
    if k > 0 { SumBump(s, i, k - 1); }
  }

  /** How often c occurs in s[..k]. */
  function Occurs(s: seq<int>, k: nat, c: int): (r: nat)
    requires k <= |s|
    ensures r <= k
  {
    if k == 0 then 0 else Occurs(s, k - 1, c) + if s[k - 1] == c then 1 else 0
  }

  /** How many entries of s[..k] lie below c. */
  function Below(s: seq<int>, k: nat, c: int): (r: nat)
    requires k <= |s|
    ensures r <= k
  {
    if k == 0 then 0 else Below(s, k - 1, c) + if s[k - 1] < c then 1 else 0
  }

  lemma {:induction false} BelowSuccessor(s: seq<int>, k: nat, c: int)
    requires k <= |s|
    ensures Below(s, k, c + 1) == Below(s, k, c) + Occurs(s, k, c)
  {
    if k > 0 { BelowSuccessor(s, k - 1, c); }
  }

  lemma {:induction false} BelowMonotone(s: seq<int>, k: nat, c: int, d: int)
    requires k <= |s| && c <= d
    ensures Below(s, k, c) <= Below(s, k, d)
  {
    if k > 0 { BelowMonotone(s, k - 1, c, d); }
  }

  /** Bounds on the values bound the counts. */
  lemma {:induction false} BelowExtremes(s: seq<int>, k: nat, lo: int, hi: int)
    requires k <= |s|
    requires forall i :: 0 <= i < k ==> lo <= s[i] < hi
    ensures Below(s, k, lo) == 0 && Below(s, k, hi) == k
  {
    if k > 0 { BelowExtremes(s, k - 1, lo, hi); }
  }

  /** An occurrence at i is counted from i + 1 on. */
  lemma {:induction false} OccursAfter(s: seq<int>, i: nat, k: nat, c: int)
    requires i <= k <= |s|
    ensures Occurs(s, i, c) <= Occurs(s, k, c)
    ensures i < k && s[i] == c ==> Occurs(s, i, c) < Occurs(s, k, c)
    decreases k
  {
    if i < k { OccursAfter(s, i, k - 1, c); }
  }

  lemma {:induction false} OccursPrefix(s: seq<int>, t: seq<int>, k: nat, c: int)
    requires k <= |s| && k <= |t| && s[..k] == t[..k]
    ensures Occurs(s, k, c) == Occurs(t, k, c)
  {
    if k > 0 {
      assert s[..k - 1] == s[..k][..k - 1] && t[..k - 1] == t[..k][..k - 1];
      assert s[k - 1] == s[..k][k - 1] == t[..k][k - 1] == t[k - 1];
      OccursPrefix(s, t, k - 1, c);
    }
  }

  /** The place of entry i once s is stably sorted. */
  function Slot(s: seq<int>, i: nat): (r: nat)
    requires i < |s|
    ensures r < |s|
  {
    BelowSuccessor(s, |s|, s[i]);
    OccursAfter(s, i, |s|, s[i]);
    Below(s, |s|, s[i]) + Occurs(s, i, s[i])
  }

  /** Slots follow the values, and positions among equal values. */
  lemma SlotMonotone(s: seq<int>, i: nat, j: nat)
    requires i < |s| && j < |s|
    requires s[i] < s[j] || (s[i] == s[j] && i < j)
    ensures Slot(s, i) < Slot(s, j)
  {
    if s[i] < s[j] {
      BelowSuccessor(s, |s|, s[i]);
      BelowMonotone(s, |s|, s[i] + 1, s[j]);
      OccursAfter(s, i, |s|, s[i]);
    } else {
      OccursAfter(s, i, j, s[i]);
    }
  }

  function Slots(s: seq<int>): (r: seq<int>)
    ensures |r| == |s|
  {
    seq(|s|, i requires 0 <= i < |s| => Slot(s, i))
  }

  lemma SlotsPermutation(s: seq<int>)
    ensures IsPermutation(Slots(s), |s|)
  {
    forall i, j | 0 <= i < j < |s| ensures Slots(s)[i] != Slots(s)[j] {
      if s[i] <= s[j] { SlotMonotone(s, i, j); } else { SlotMonotone(s, j, i); }
    }
  }

  /** p and q are permutations of 0..n-1 that undo each other. */
  ghost predicate Inverses(p: seq<int>, q: seq<int>, n: nat) {
    && |p| == |q| == n
    && (forall i :: 0 <= i < n ==> 0 <= p[i] < n && q[p[i]] == i)
    && (forall k :: 0 <= k < n ==> 0 <= q[k] < n && p[q[k]] == k)
  }

  lemma InverseExists(p: seq<int>, n: nat)
    requires IsPermutation(p, n)
    ensures exists q :: Inverses(p, q, n)
  {
    var q := seq(n, k requires 0 <= k < n => Position(p, n, k));
    forall i | 0 <= i < n ensures q[p[i]] == i {
      assert p[q[p[i]]] == p[i];
    }
    assert Inverses(p, q, n);
  }

  /** Entry k is the place in s of what the stable sort puts at place k. */
  ghost function Sources(s: seq<int>): (src: seq<int>)
    ensures Inverses(Slots(s), src, |s|)
  {
    SlotsPermutation(s);
    InverseExists(Slots(s), |s|);
    var q :| Inverses(Slots(s), q, |s|);
    q
  }

  /** Sources lists the entries in stable sorted order. */
  lemma SourceOrder(s: seq<int>, k: nat, m: nat)
    requires k < m < |s|
    ensures var i, j := Sources(s)[k], Sources(s)[m];
            s[i] < s[j] || (s[i] == s[j] && i < j)
  {
    var i, j := Sources(s)[k], Sources(s)[m];
    assert Slots(s)[i] == k && Slots(s)[j] == m;
    if s[i] > s[j] || (s[i] == s[j] && i > j) {
      SlotMonotone(s, j, i);
    }
  }
}
