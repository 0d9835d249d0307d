/** mainSimpleSort: shell sort of rotations that agree on their first d characters. */
module MainSimpleSort {
  import opened Rotations
  import opened QuadrantOrder
  import opened RotationRank
  import QS = QuickSort3

  /** The extended block and the cache, ready for comparisons. */
  ghost predicate Comparable(block: seq<int>, quadrant: seq<int>, b: seq<int>) {
    && Overshoots(block, b) && |b| <= |quadrant|
    && Overshoots(quadrant, quadrant[..|b|]) && Cached(b, quadrant[..|b|])
  }

  /** Entries lo to hi are rotations that agree with rotation w on d characters. */
  ghost predicate Pool(b: seq<int>, f: seq<int>, lo: int, hi: int, d: nat, w: int) {
    && 0 <= lo && hi < |f| && 0 <= w < |b|
    && forall x :: lo <= x <= hi ==> 0 <= f[x] < |b| && Compare(b, f[x], w, d) == 0
  }

  lemma PoolPermuted(b: seq<int>, f: seq<int>, g: seq<int>, lo: int, hi: int, d: nat, w: int)
    requires Pool(b, f, lo, hi, d, w) && QS.Permuted(f, g, lo, hi)
    ensures Pool(b, g, lo, hi, d, w)
  {
    hide Compare;
    forall x | lo <= x <= hi ensures 0 <= g[x] < |b| && Compare(b, g[x], w, d) == 0 {
      var y := QS.PermutedFrom(f, g, lo, hi, x);
    }
  }

  /** A comparison d characters on orders the rotations themselves. */
  lemma Verdict(b: seq<int>, x: int, y: int, w: int, d: nat, gt: bool)
    requires 0 <= x < |b| && 0 <= y < |b| && 0 <= w < |b| && d <= |b|
    requires Compare(b, x, w, d) == 0 && Compare(b, y, w, d) == 0
    requires Answers(gt, b, Cyc(|b|, x + d), Cyc(|b|, y + d))
    ensures if gt then Ranks(b)[x] >= Ranks(b)[y] else Ranks(b)[x] <= Ranks(b)[y]
  {
    hide Compare, Ranks;
    CompareFlip(b, y, w, d);
    CompareTransitive(b, x, w, y, d);
    AdvanceWraps(|b|, x, d);
    AdvanceWraps(|b|, y, d);
    AgreedOrder(b, x, y, d, Cyc(|b|, x + d), Cyc(|b|, y + d));
    RankOrder(b, x, y);
    RankOrder(b, y, x);
    CompareFlip(b, x, y, |b|);
  }

  /** Insertion in progress: the hole at j would take v. */
  ghost predicate Hole(f0: seq<int>, f: seq<int>, lo: int, i: int, hi: int, j: int, v: int) {
    0 <= lo <= j <= i <= hi < |f| && QS.Permuted(f0, f[j := v], lo, hi)
  }

  lemma HoleMoves(f0: seq<int>, f: seq<int>, lo: int, i: int, hi: int, j: int, h: int, v: int)
    requires Hole(f0, f, lo, i, hi, j, v) && h >= 1 && lo <= j - h
    ensures Hole(f0, f[j := f[j - h]], lo, i, hi, j - h, v)
  {
    var a := f[j := v];
    QS.SwapPermuted(a, j - h, j, lo, hi);
    assert a[j - h := a[j]][j := a[j - h]] == f[j := f[j - h]][j - h := v];
    QS.PermutedTransitive(f0, a, f[j := f[j - h]][j - h := v], lo, hi);
  }

  /** With stride 1: entries passed are not below v, and the others are as they were. */
  ghost predicate Passed(f0: seq<int>, f: seq<int>, ec: seq<int>, lo: int, i: int, j: int, v: int) {
    && |f0| == |f| && 0 <= lo <= j <= i < |f| && 0 <= v < |ec|
    && (forall x :: lo <= x < j ==> f[x] == f0[x])
    && (forall x :: j < x <= i ==> f[x] == f0[x - 1] && QS.Key(f, ec, x) >= ec[v])
  }

  lemma PassOne(f0: seq<int>, f: seq<int>, ec: seq<int>, lo: int, i: int, j: int, v: int)
    requires Passed(f0, f, ec, lo, i, j, v) && lo < j && QS.Key(f, ec, j - 1) >= ec[v]
    ensures Passed(f0, f[j := f[j - 1]], ec, lo, i, j - 1, v)
  {
  }

  lemma PassDone(f0: seq<int>, f: seq<int>, ec: seq<int>, lo: int, i: int, j: int, v: int)
    requires Passed(f0, f, ec, lo, i, j, v) && QS.SortedKeys(f0, ec, lo, i - 1)
    requires j > lo ==> QS.Key(f, ec, j - 1) <= ec[v]
    ensures QS.SortedKeys(f[j := v], ec, lo, i)
  {
    var g := f[j := v];
    forall x, y | lo <= x < y <= i ensures QS.Key(g, ec, x) <= QS.Key(g, ec, y) {
      if y < j {
        assert QS.Key(f0, ec, x) <= QS.Key(f0, ec, y);
      } else if y == j {
        if x < j - 1 { assert QS.Key(f0, ec, x) <= QS.Key(f0, ec, j - 1); }
      } else if x > j {
        assert QS.Key(f0, ec, x - 1) <= QS.Key(f0, ec, y - 1);
      } else if x < j {
        assert y - 1 > x ==> QS.Key(f0, ec, x) <= QS.Key(f0, ec, y - 1);
      }
    }
  }

  lemma HoleStart(b: seq<int>, f: seq<int>, lo: int, hi: int, i: int, d: nat, w: int)
    requires Pool(b, f, lo, hi, d, w) && lo <= i <= hi
    ensures 0 <= lo && hi < |f| && 0 <= f[i] < |b|
    ensures Hole(f, f, lo, i, hi, i, f[i]) && Passed(f, f, Ranks(b), lo, i, i, f[i])
    ensures Compare(b, f[i], w, d) == 0
  {
    hide Compare, Ranks;
    assert f[i := f[i]] == f;
  }

  lemma PoolAt(b: seq<int>, f: seq<int>, lo: int, hi: int, d: nat, w: int, x: int)
    requires Pool(b, f, lo, hi, d, w) && lo <= x <= hi
    ensures 0 <= w < |b| && 0 <= x < |f| && 0 <= f[x] < |b| && Compare(b, f[x], w, d) == 0
    ensures QS.Key(f, Ranks(b), x) == Ranks(b)[f[x]]
  {
    hide Compare, Ranks;
  }

  lemma PoolMoves(b: seq<int>, f: seq<int>, lo: int, hi: int, d: nat, w: int, x: int, y: int)
    requires Pool(b, f, lo, hi, d, w) && lo <= x <= hi && lo <= y <= hi
    ensures Pool(b, f[x := f[y]], lo, hi, d, w)
  {
    hide Compare;
  }

  lemma HoleDone(f0: seq<int>, f: seq<int>, lo: int, i: int, hi: int, j: int, v: int)
    requires Hole(f0, f, lo, i, hi, j, v)
    ensures 0 <= j < |f| && QS.Permuted(f0, f[j := v], lo, hi)
  {
  }

  lemma ComparableIs(block: seq<int>, quadrant: seq<int>, b: seq<int>)
    requires Comparable(block, quadrant, b)
    ensures Overshoots(block, b) && 34 < |b| <= |quadrant|
    ensures Overshoots(quadrant, quadrant[..|b|]) && Cached(b, quadrant[..|b|])
  {
    hide Cached;
  }

  /** No rotation stands twice. */
  ghost predicate Once(f: seq<int>) {
    forall v :: multiset(f)[v] <= 1
  }

  lemma OnceApart(f: seq<int>, x: int, y: int)
    requires Once(f) && 0 <= x < y < |f|
    ensures f[x] != f[y]
  {
    assert f == f[..x] + [f[x]] + f[x + 1..y] + [f[y]] + f[y + 1..];
    assert f[x] == f[y] ==> multiset(f)[f[x]] >= 2;
  }

  lemma {:induction false} ApartOnce(f: seq<int>)
    requires forall x, y :: 0 <= x < y < |f| ==> f[x] != f[y]
    ensures Once(f)
  {
    if f != [] {
      var g := f[..|f| - 1];
      ApartOnce(g);
      assert f == g + [f[|g|]];
      assert f[|g|] !in g;
    }
  }

  /** A comparison that costs is one of different rotations that agree. */
  lemma HoleCosts(b: seq<int>, f0: seq<int>, f: seq<int>, lo: int, i: int, hi: int, j: int, h: int, v: int, d: nat,
                  m: nat)
    requires Hole(f0, f, lo, i, hi, j, v) && h >= 1 && lo <= j - h && Once(f0)
    requires 0 <= f[j - h] < |b| && 0 <= v < |b| && d <= |b|
    requires Compare(b, Cyc(|b|, f[j - h] + d), Cyc(|b|, v + d), m) == 0 && m >= 20
    ensures Repetitive(b)
  {
    hide Compare, Repetitive;
    OnceApart(f[j := v], j - h, j);
    AgreeTwenty(b, Cyc(|b|, f[j - h] + d), Cyc(|b|, v + d), m);
  }

  lemma OncePermuted(f: seq<int>, g: seq<int>, lo: int, hi: int)
    requires QS.Permuted(f, g, lo, hi) && Once(f)
    ensures Once(g)
  {
  }

  /** One insertion, leftwards with stride h. */
  method InsertLeft(ptr: array<int>, block: array<int>, quadrant: array<int>, nblock: nat, lo: int, hi: int, i: int,
                    h: int, d: nat,
                    budget0: int, ghost b: seq<int>, ghost w: int)
    returns (budget: int)
    requires ptr != block && ptr != quadrant && |b| == nblock && Comparable(block[..], quadrant[..], b) && d <= 15
    requires Pool(b, ptr[..], lo, hi, d, w) && 1 <= h && lo + h <= i <= hi
    modifies ptr
    ensures QS.Permuted(old(ptr[..]), ptr[..], lo, hi) && budget <= budget0
    ensures budget < budget0 && Once(old(ptr[..])) ==> Repetitive(b)
    ensures h == 1 && QS.SortedKeys(old(ptr[..]), Ranks(b), lo, i - 1) ==> QS.SortedKeys(ptr[..], Ranks(b), lo, i)
  {
    hide *;
    ghost var f0, ec := ptr[..], Ranks(b);
    ComparableIs(block[..], quadrant[..], b);
    HoleStart(b, f0, lo, hi, i, d, w);
    budget := budget0;
    var v := ptr[i];
    var j := i;
    var gt := false;
    while true
      invariant lo <= j - h && j <= i && budget <= budget0 && (budget < budget0 && Once(f0) ==> Repetitive(b))
      invariant Hole(f0, ptr[..], lo, i, hi, j, v) && Pool(b, ptr[..], lo, hi, d, w)
      invariant h == 1 ==> Passed(f0, ptr[..], ec, lo, i, j, v)
      invariant block[..] == old(block[..]) && quadrant[..] == old(quadrant[..])
      decreases j
    {
      ghost var f := ptr[..];
      PoolAt(b, f, lo, hi, d, w, j - h);
      ghost var before := budget;
      gt, budget := MainGtU(ptr[j - h] + d, v + d, block, quadrant, nblock, budget, b);
      if budget < before && Once(f0) { HoleCosts(b, f0, f, lo, i, hi, j, h, v, d, 12 + 8 * (before - budget)); }
      Verdict(b, f[j - h], v, w, d, gt);
      if !gt { break; }
      HoleMoves(f0, f, lo, i, hi, j, h, v);
      PoolMoves(b, f, lo, hi, d, w, j, j - h);
      if h == 1 { PassOne(f0, f, ec, lo, i, j, v); }
      ptr[j] := ptr[j - h];
      assert ptr[..] == f[j := f[j - h]];
      j := j - h;
      if j <= lo + h - 1 { break; }
    }
    ghost var f := ptr[..];
    HoleDone(f0, f, lo, i, hi, j, v);
    if h == 1 && QS.SortedKeys(f0, ec, lo, i - 1) { PassDone(f0, f, ec, lo, i, j, v); }
    ptr[j] := v;
    assert ptr[..] == f[j := v];
  }

  /** Knuth's increments. */
  function Incs(): (s: seq<int>)
    ensures |s| == 14 && s[0] == 1 && s[13] == 2391484 && forall k :: 0 <= k < 14 ==> s[k] >= 1
  {
    [1, 4, 13, 40, 121, 364, 1093, 3280, 9841, 29524, 88573, 265720, 797161, 2391484]
  }

  lemma SortedOne(f: seq<int>, ec: seq<int>, lo: int)
    ensures QS.SortedKeys(f, ec, lo, lo) && forall hi :: hi <= lo ==> QS.SortedKeys(f, ec, lo, hi)
    ensures forall hi :: QS.Permuted(f, f, lo, hi)
  {
  }

  /** One pass with stride h; the budget is looked at after every third insertion. */
  method ShellPass(ptr: array<int>, block: array<int>, quadrant: array<int>, nblock: nat, lo: int, hi: int, h: int,
                   d: nat,
                   budget0: int, ghost b: seq<int>, ghost w: int)
    returns (budget: int, stop: bool)
    requires ptr != block && ptr != quadrant && |b| == nblock && Comparable(block[..], quadrant[..], b) && d <= 15
    requires Pool(b, ptr[..], lo, hi, d, w) && 1 <= h && lo <= hi
    modifies ptr
    ensures QS.Permuted(old(ptr[..]), ptr[..], lo, hi) && budget <= budget0 && (stop ==> budget < 0)
    ensures budget < budget0 && Once(old(ptr[..])) ==> Repetitive(b)
    ensures h == 1 && !stop ==> QS.SortedKeys(ptr[..], Ranks(b), lo, hi)
  {
    hide *;
    ghost var f0, ec := ptr[..], Ranks(b);
    SortedOne(f0, ec, lo);
    budget, stop := budget0, false;
    var i := lo + h;
    while i <= hi
      invariant lo + h <= i && budget <= budget0 && (h > 1 || i <= hi + 1) && block[..] == old(block[..])
      invariant budget < budget0 && Once(f0) ==> Repetitive(b)
      invariant quadrant[..] == old(quadrant[..])
      invariant QS.Permuted(f0, ptr[..], lo, hi) && Pool(b, ptr[..], lo, hi, d, w)
      invariant h == 1 ==> QS.SortedKeys(ptr[..], ec, lo, i - 1)
      decreases hi - i
    {
      var t := 0;
      ghost var i0 := i;
      while t < 3 && i <= hi
        invariant 0 <= t <= 3 && i == i0 + t && lo + h <= i && budget <= budget0 && (h > 1 || i <= hi + 1)
        invariant budget < budget0 && Once(f0) ==> Repetitive(b)
        invariant block[..] == old(block[..]) && quadrant[..] == old(quadrant[..])
        invariant QS.Permuted(f0, ptr[..], lo, hi) && Pool(b, ptr[..], lo, hi, d, w)
        invariant h == 1 ==> QS.SortedKeys(ptr[..], ec, lo, i - 1)
        invariant t == 0 ==> i <= hi
      {
        ghost var f := ptr[..];
        if Once(f0) { OncePermuted(f0, f, lo, hi); }
        budget := InsertLeft(ptr, block, quadrant, nblock, lo, hi, i, h, d, budget, b, w);
        QS.PermutedTransitive(f0, f, ptr[..], lo, hi);
        PoolPermuted(b, f, ptr[..], lo, hi, d, w);
        i, t := i + 1, t + 1;
      }
      if t == 3 && budget < 0 { stop := true; return; }
    }
    if h == 1 && lo == hi { SortedOne(ptr[..], ec, lo); }
  }

  /** mainSimpleSort */
  method SimpleSort(ptr: array<int>, block: array<int>, quadrant: array<int>, nblock: nat, lo: int, hi: int, d: nat,
                    budget0: int, ghost b: seq<int>, ghost w: int)
    returns (budget: int)
    requires ptr != block && ptr != quadrant && |b| == nblock <= 900000 && Comparable(block[..], quadrant[..], b)
    requires d <= 15
    requires Pool(b, ptr[..], lo, hi, d, w) && hi - lo < 900000
    modifies ptr
    ensures QS.Permuted(old(ptr[..]), ptr[..], lo, hi) && budget <= budget0
    ensures budget < budget0 && Once(old(ptr[..])) ==> Repetitive(b)
    ensures budget >= 0 ==> QS.SortedKeys(ptr[..], Ranks(b), lo, hi)
  {
    hide *;
    ghost var f0, ec := ptr[..], Ranks(b);
    SortedOne(f0, ec, lo);
    var bigN := hi - lo + 1;
    budget := budget0;
    if bigN < 2 { return; }
    var incs := Incs();
    var hp := 0;
    while incs[hp] < bigN
      invariant 0 <= hp < 14 && ptr[..] == f0 && block[..] == old(block[..]) && quadrant[..] == old(quadrant[..])
      decreases 14 - hp
    {
      hp := hp + 1;
    }
    assert hp > 0;
    hp := hp - 1;
    while hp >= 0
      invariant -1 <= hp < 14 && budget <= budget0 && block[..] == old(block[..]) && quadrant[..] == old(quadrant[..])
      invariant budget < budget0 && Once(f0) ==> Repetitive(b)
      invariant QS.Permuted(f0, ptr[..], lo, hi) && Pool(b, ptr[..], lo, hi, d, w)
      invariant hp == -1 ==> QS.SortedKeys(ptr[..], ec, lo, hi)
    {
      ghost var f := ptr[..];
      if Once(f0) { OncePermuted(f0, f, lo, hi); }
      var stop;
      budget, stop := ShellPass(ptr, block, quadrant, nblock, lo, hi, incs[hp], d, budget, b, w);
      QS.PermutedTransitive(f0, f, ptr[..], lo, hi);
      if stop { return; }
      PoolPermuted(b, f, ptr[..], lo, hi, d, w);
      hp := hp - 1;
    }
  }
}
