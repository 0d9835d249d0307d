/** fallbackQSort3: three-way quicksort of part of fmap by equivalence class. */
module QuickSort3 {
  import opened Permutations
  import opened Powers

  const STACK_SIZE := 100

  /** The class that entry x of f is sorted by. */
  function Key(f: seq<int>, ec: seq<int>, x: int): (r: int) {
    if 0 <= x < |f| && 0 <= f[x] < |ec| then ec[f[x]] else 0
  }

  /** Entries lo..hi of f exist and point into ec. */
  ghost predicate Indices(f: seq<int>, ec: seq<int>, lo: int, hi: int) {
    && 0 <= lo && hi < |f| && lo <= hi + 1
    && forall x :: lo <= x <= hi ==> 0 <= f[x] < |ec|
  }

  ghost predicate SortedKeys(f: seq<int>, ec: seq<int>, lo: int, hi: int) {
    forall x, y :: lo <= x < y <= hi ==> Key(f, ec, x) <= Key(f, ec, y)
  }

  /** g rearranges entries lo..hi of f and nothing else. */
  ghost predicate Permuted(f: seq<int>, g: seq<int>, lo: int, hi: int) {
    && |f| == |g| && multiset(f) == multiset(g)
    && forall x :: 0 <= x < |f| && (x < lo || hi < x) ==> g[x] == f[x]
  }

  // ----- rearrangements

  lemma Cancel(a: multiset<int>, b: multiset<int>, c: multiset<int>, d: multiset<int>)
    requires a + b + d == a + c + d
    ensures b == c
  {
    assert b == a + b + d - a - d;
    assert c == a + c + d - a - d;
  }

  lemma MiddleRearranged(f: seq<int>, g: seq<int>, lo: int, hi: int)
    requires Permuted(f, g, lo, hi) && 0 <= lo <= hi < |f|
    ensures multiset(f[lo..hi + 1]) == multiset(g[lo..hi + 1])
  {
    var f1, f2, f3 := f[..lo], f[lo..hi + 1], f[hi + 1..];
    var g2 := g[lo..hi + 1];
    assert f == f1 + f2 + f3;
    assert g == f1 + g2 + f3;
    Cancel(multiset(f1), multiset(f2), multiset(g2), multiset(f3));
  }

  lemma PermutedFrom(f: seq<int>, g: seq<int>, lo: int, hi: int, x: int) returns (y: int)
    requires Permuted(f, g, lo, hi) && 0 <= lo <= x <= hi < |f|
    ensures lo <= y <= hi && g[x] == f[y]
  {
    hide *;
    MiddleRearranged(f, g, lo, hi);
    PermutedLength(f, g, lo, hi);
    var f2, g2 := f[lo..hi + 1], g[lo..hi + 1];
    assert g2[x - lo] in multiset(g2);
    assert g[x] in f2;
    var k :| 0 <= k < |f2| && f2[k] == g[x];
    y := lo + k;
  }

  lemma PermutedLength(f: seq<int>, g: seq<int>, lo: int, hi: int)
    requires Permuted(f, g, lo, hi)
    ensures |f| == |g| && Permuted(g, f, lo, hi)
  {
  }

  lemma PermutedIndices(f: seq<int>, g: seq<int>, ec: seq<int>, lo: int, hi: int)
    requires Permuted(f, g, lo, hi) && Indices(f, ec, lo, hi)
    ensures Indices(g, ec, lo, hi)
  {
    forall x | lo <= x <= hi ensures 0 <= g[x] < |ec| {
      var y := PermutedFrom(f, g, lo, hi, x);
    }
  }

  lemma PermutedTransitive(f: seq<int>, g: seq<int>, h: seq<int>, lo: int, hi: int)
    requires Permuted(f, g, lo, hi) && Permuted(g, h, lo, hi)
    ensures Permuted(f, h, lo, hi)
  {
  }

  lemma SwapPermuted(f: seq<int>, i: int, j: int, lo: int, hi: int)
    requires 0 <= lo <= i <= hi < |f| && lo <= j <= hi
    ensures Permuted(f, f[i := f[j]][j := f[i]], lo, hi)
  {
  }

  // ----- fallbackSimpleSort

  /** Insertion in progress: the hole at j - gap would take tmp. */
  ghost predicate Inserting(f0: seq<int>, f: seq<int>, i: int, j: int, gap: int, hi: int, tmp: int) {
    && 0 <= i && 1 <= gap && i + gap <= j && j - gap <= hi < |f|
    && Permuted(f0, f[j - gap := tmp], i, hi)
  }

  lemma InsertStep(f0: seq<int>, f: seq<int>, i: int, j: int, gap: int, hi: int, tmp: int)
    requires Inserting(f0, f, i, j, gap, hi, tmp) && j <= hi
    ensures Inserting(f0, f[j - gap := f[j]], i, j + gap, gap, hi, tmp)
  {
    hide Permuted;
    var a := f[j - gap := tmp];
    SwapPermuted(a, j - gap, j, i, hi);
    assert a[j - gap := a[j]][j := a[j - gap]] == f[j - gap := f[j]][j := tmp];
    PermutedTransitive(f0, a, f[j - gap := f[j]][j := tmp], i, hi);
  }

  /** With gap 1: the entries passed over are below tmp and the rest are as they were. */
  ghost predicate Shifted(f0: seq<int>, f: seq<int>, ec: seq<int>, i: int, j: int, hi: int, ecTmp: int) {
    && |f0| == |f| && 0 <= i < j <= hi + 1 <= |f|
    && (forall x :: i <= x < j - 1 ==> f[x] == f0[x + 1] && Key(f, ec, x) < ecTmp)
    && (forall x :: j <= x <= hi ==> f[x] == f0[x])
  }

  lemma ShiftStep(f0: seq<int>, f: seq<int>, ec: seq<int>, i: int, j: int, hi: int, ecTmp: int)
    requires Shifted(f0, f, ec, i, j, hi, ecTmp) && j <= hi && Key(f, ec, j) < ecTmp
    ensures Shifted(f0, f[j - 1 := f[j]], ec, i, j + 1, hi, ecTmp)
  {
  }

  lemma ShiftDone(f0: seq<int>, f: seq<int>, ec: seq<int>, i: int, j: int, hi: int, tmp: int)
    requires 0 <= tmp < |ec| && Shifted(f0, f, ec, i, j, hi, ec[tmp])
    requires SortedKeys(f0, ec, i + 1, hi) && (j > hi || ec[tmp] <= Key(f, ec, j))
    ensures SortedKeys(f[j - 1 := tmp], ec, i, hi)
  {
    var g := f[j - 1 := tmp];
    forall x, y | i <= x < y <= hi ensures Key(g, ec, x) <= Key(g, ec, y) {
      if x < j - 1 && y < j - 1 {
        assert Key(f0, ec, x + 1) <= Key(f0, ec, y + 1);
      } else if j <= x {
        assert Key(f0, ec, x) <= Key(f0, ec, y);
      } else if j < y {
        assert Key(f0, ec, j) <= Key(f0, ec, y);
      }
    }
  }

  /** One insertion of fallbackSimpleSort, with stride gap. */
  method Insert(fmap: array<int>, eclass: array<int>, i: int, hi: int, gap: int)
    requires fmap != eclass && Indices(fmap[..], eclass[..], i, hi) && i <= hi
    requires 1 <= gap && i + gap <= hi + 1
    modifies fmap
    ensures Permuted(old(fmap[..]), fmap[..], i, hi)
    ensures gap == 1 && SortedKeys(old(fmap[..]), eclass[..], i + 1, hi) ==>
            SortedKeys(fmap[..], eclass[..], i, hi)
  {
    hide *;
    ghost var f0, ec := fmap[..], eclass[..];
    InsertStart(f0, ec, i, hi, gap);
    var tmp := fmap[i];
    var ecTmp := eclass[tmp];
    var j := i + gap;
    while j <= hi
      invariant i + gap <= j <= hi + gap && eclass[..] == ec
      invariant Inserting(f0, fmap[..], i, j, gap, hi, tmp)
      invariant gap == 1 ==> Shifted(f0, fmap[..], ec, i, j, hi, ecTmp)
      invariant forall x :: j <= x <= hi ==> 0 <= fmap[x] < |ec|
    {
      ghost var f := fmap[..];
      KeyAt(f, ec, j);
      if ecTmp <= eclass[fmap[j]] { break; }
      InsertStep(f0, f, i, j, gap, hi, tmp);
      if gap == 1 { ShiftStep(f0, f, ec, i, j, hi, ecTmp); }
      fmap[j - gap] := fmap[j];
      j := j + gap;
      assert fmap[..] == f[j - gap - gap := f[j - gap]];
    }
    ghost var f := fmap[..];
    InsertDone(f0, f, i, j, gap, hi, tmp);
    if gap == 1 && SortedKeys(f0, ec, i + 1, hi) {
      KeyAt(f, ec, j);
      ShiftDone(f0, f, ec, i, j, hi, tmp);
    }
    fmap[j - gap] := tmp;
    assert fmap[..] == f[j - gap := tmp];
  }

  lemma KeyAt(f: seq<int>, ec: seq<int>, x: int)
    ensures 0 <= x < |f| && 0 <= f[x] < |ec| ==> Key(f, ec, x) == ec[f[x]]
  {
  }

  lemma InsertStart(f: seq<int>, ec: seq<int>, i: int, hi: int, gap: int)
    requires Indices(f, ec, i, hi) && i <= hi && 1 <= gap && i + gap <= hi + 1
    ensures 0 <= i && hi < |f| && forall x :: i <= x <= hi ==> 0 <= f[x] < |ec|
    ensures Inserting(f, f, i, i + gap, gap, hi, f[i])
    ensures Shifted(f, f, ec, i, i + 1, hi, ec[f[i]])
  {
    assert f[i := f[i]] == f;
  }

  lemma InsertDone(f0: seq<int>, f: seq<int>, i: int, j: int, gap: int, hi: int, tmp: int)
    requires Inserting(f0, f, i, j, gap, hi, tmp)
    ensures 0 <= j - gap < |f| && Permuted(f0, f[j - gap := tmp], i, hi)
  {
  }

  lemma PermutedWiden(f: seq<int>, g: seq<int>, lo: int, hi: int, a: int, b: int)
    requires Permuted(f, g, lo, hi) && a <= lo && hi <= b
    ensures Permuted(f, g, a, b)
  {
  }

  lemma Narrow(f: seq<int>, ec: seq<int>, lo: int, hi: int, i: int)
    requires Indices(f, ec, lo, hi) && lo <= i <= hi + 1
    ensures Indices(f, ec, i, hi) && Permuted(f, f, lo, hi) && SortedKeys(f, ec, hi, hi)
    ensures lo >= hi ==> SortedKeys(f, ec, lo, hi)
  {
  }

  method SimpleSort(fmap: array<int>, eclass: array<int>, lo: int, hi: int)
    requires fmap != eclass && Indices(fmap[..], eclass[..], lo, hi) && lo <= hi + 1
    modifies fmap
    ensures Permuted(old(fmap[..]), fmap[..], lo, hi)
    ensures SortedKeys(fmap[..], eclass[..], lo, hi)
  {
    hide *;
    ghost var f0, ec := fmap[..], eclass[..];
    Narrow(f0, ec, lo, hi, lo);
    if lo == hi { return; }
    if hi - lo > 3 {
      var i := hi - 4;
      while i >= lo
        invariant lo - 1 <= i <= hi - 4 && eclass[..] == ec
        invariant Permuted(f0, fmap[..], lo, hi)
      {
        ghost var f := fmap[..];
        PermutedIndices(f0, f, ec, lo, hi);
        Narrow(f, ec, lo, hi, i);
        Insert(fmap, eclass, i, hi, 4);
        PermutedWiden(f, fmap[..], i, hi, lo, hi);
        PermutedTransitive(f0, f, fmap[..], lo, hi);
        i := i - 1;
      }
    }
    PermutedIndices(f0, fmap[..], ec, lo, hi);
    if lo <= hi { Narrow(fmap[..], ec, lo, hi, hi); } else { Narrow(fmap[..], ec, lo, hi, lo); }
    var i := hi - 1;
    while i >= lo
      invariant (lo - 1 <= i <= hi - 1 || i == hi - 1) && eclass[..] == ec
      invariant Permuted(f0, fmap[..], lo, hi)
      invariant SortedKeys(fmap[..], ec, i + 1, hi)
    {
      ghost var f := fmap[..];
      PermutedIndices(f0, f, ec, lo, hi);
      Narrow(f, ec, lo, hi, i);
      Insert(fmap, eclass, i, hi, 1);
      PermutedWiden(f, fmap[..], i, hi, lo, hi);
      PermutedTransitive(f0, f, fmap[..], lo, hi);
      i := i - 1;
    }
    if hi < lo { PermutedIndices(f0, fmap[..], ec, lo, hi); Narrow(fmap[..], ec, lo, hi, lo); }
  }

  // ----- partitioning

  /** Scan state: equal | below | unknown | above | equal. */
  ghost predicate Scanned(f: seq<int>, ec: seq<int>, med: int, lo: int, ltLo: int, unLo: int,
                          unHi: int, gtHi: int, hi: int)
  {
    && Indices(f, ec, lo, hi)
    && lo <= ltLo <= unLo <= unHi + 1 && unHi <= gtHi <= hi
    && (forall x :: lo <= x < ltLo ==> Key(f, ec, x) == med)
    && (forall x :: ltLo <= x < unLo ==> Key(f, ec, x) < med)
    && (forall x :: unHi < x <= gtHi ==> Key(f, ec, x) > med)
    && (forall x :: gtHi < x <= hi ==> Key(f, ec, x) == med)
  }

  /** The scanning of fallbackQSort3 in progress, with the unknown part between the marks. */
  datatype Marks = Marks(ltLo: int, unLo: int, unHi: int, gtHi: int)

  ghost predicate Scanning(f0: seq<int>, f: seq<int>, ec: seq<int>, med: int, lo: int, hi: int, k: Marks) {
    && Permuted(f0, f, lo, hi)
    && Scanned(f, ec, med, lo, k.ltLo, k.unLo, k.unHi, k.gtHi, hi)
  }

  lemma SwapStep(f0: seq<int>, f: seq<int>, ec: seq<int>, i: int, j: int, lo: int, hi: int)
    requires Permuted(f0, f, lo, hi) && Indices(f, ec, lo, hi) && lo <= i <= hi && lo <= j <= hi
    ensures Permuted(f0, Swap(f, i, j), lo, hi) && Indices(Swap(f, i, j), ec, lo, hi)
    ensures forall x :: 0 <= x < |f| ==>
      Key(Swap(f, i, j), ec, x) == Key(f, ec, if x == i then j else if x == j then i else x)
  {
    SwapPermuted(f, i, j, lo, hi);
    PermutedTransitive(f0, f, Swap(f, i, j), lo, hi);
  }

  lemma ScanBounds(f0: seq<int>, f: seq<int>, ec: seq<int>, med: int, lo: int, hi: int, k: Marks)
    requires Scanning(f0, f, ec, med, lo, hi, k)
    ensures 0 <= lo <= k.ltLo <= k.unLo <= k.unHi + 1 && k.unHi <= k.gtHi <= hi < |f|
    ensures forall x :: lo <= x <= hi ==> 0 <= f[x] < |ec| && Key(f, ec, x) == ec[f[x]]
  {
  }

  lemma LowEqual(f0: seq<int>, f: seq<int>, ec: seq<int>, med: int, lo: int, hi: int, k: Marks)
    requires Scanning(f0, f, ec, med, lo, hi, k) && k.unLo <= k.unHi && Key(f, ec, k.unLo) == med
    ensures 0 <= k.ltLo <= k.unLo < |f|
    ensures Scanning(f0, Swap(f, k.unLo, k.ltLo), ec, med, lo, hi, k.(ltLo := k.ltLo + 1, unLo := k.unLo + 1))
  {
    SwapStep(f0, f, ec, k.unLo, k.ltLo, lo, hi);
  }

  lemma HighEqual(f0: seq<int>, f: seq<int>, ec: seq<int>, med: int, lo: int, hi: int, k: Marks)
    requires Scanning(f0, f, ec, med, lo, hi, k) && k.unLo <= k.unHi && Key(f, ec, k.unHi) == med
    ensures 0 <= k.unHi <= k.gtHi < |f|
    ensures Scanning(f0, Swap(f, k.unHi, k.gtHi), ec, med, lo, hi, k.(gtHi := k.gtHi - 1, unHi := k.unHi - 1))
    ensures k.unLo < k.unHi ==> Key(Swap(f, k.unHi, k.gtHi), ec, k.unLo) == Key(f, ec, k.unLo)
  {
    SwapStep(f0, f, ec, k.unHi, k.gtHi, lo, hi);
  }

  lemma Exchange(f0: seq<int>, f: seq<int>, ec: seq<int>, med: int, lo: int, hi: int, k: Marks)
    requires Scanning(f0, f, ec, med, lo, hi, k) && k.unLo <= k.unHi
    requires Key(f, ec, k.unLo) > med > Key(f, ec, k.unHi)
    ensures 0 <= k.unLo <= k.unHi < |f|
    ensures Scanning(f0, Swap(f, k.unLo, k.unHi), ec, med, lo, hi, k.(unLo := k.unLo + 1, unHi := k.unHi - 1))
  {
    SwapStep(f0, f, ec, k.unLo, k.unHi, lo, hi);
  }

  lemma LowBelow(f0: seq<int>, f: seq<int>, ec: seq<int>, med: int, lo: int, hi: int, k: Marks)
    requires Scanning(f0, f, ec, med, lo, hi, k) && k.unLo <= k.unHi
    ensures Key(f, ec, k.unLo) < med ==> Scanning(f0, f, ec, med, lo, hi, k.(unLo := k.unLo + 1))
    ensures Key(f, ec, k.unHi) > med ==> Scanning(f0, f, ec, med, lo, hi, k.(unHi := k.unHi - 1))
  {
  }

  /** Move unLo up to the first entry above med. Keys are looked up d places on. */
  method ScanUp(fmap: array<int>, eclass: array<int>, d: nat, med: int, lo: int, hi: int, k0: Marks,
                ghost f0: seq<int>) returns (k: Marks)
    requires fmap != eclass && d <= eclass.Length && Scanning(f0, fmap[..], eclass[d..], med, lo, hi, k0)
    modifies fmap
    ensures Scanning(f0, fmap[..], eclass[d..], med, lo, hi, k)
    ensures k.unHi == k0.unHi && k.unHi - k.unLo <= k0.unHi - k0.unLo
    ensures k.unLo <= k.unHi ==> Key(fmap[..], eclass[d..], k.unLo) > med
  {
    hide *;
    k := k0;
    ghost var ec := eclass[d..];
    while k.unLo <= k.unHi
      invariant eclass[d..] == ec && Scanning(f0, fmap[..], ec, med, lo, hi, k)
      invariant k.unHi == k0.unHi && k.unLo >= k0.unLo
    {
      ghost var f := fmap[..];
      ScanBounds(f0, f, ec, med, lo, hi, k);
      var n := eclass[fmap[k.unLo] + d] - med;
      if n == 0 {
        LowEqual(f0, f, ec, med, lo, hi, k);
        SwapIs(f, k.unLo, k.ltLo);
        fmap[k.unLo], fmap[k.ltLo] := fmap[k.ltLo], fmap[k.unLo];
        assert fmap[..] == Swap(f, k.unLo, k.ltLo);
        k := k.(ltLo := k.ltLo + 1, unLo := k.unLo + 1);
        continue;
      }
      if n > 0 { break; }
      LowBelow(f0, f, ec, med, lo, hi, k);
      k := k.(unLo := k.unLo + 1);
    }
  }

  /** Move unHi down to the last entry below med. */
  method ScanDown(fmap: array<int>, eclass: array<int>, d: nat, med: int, lo: int, hi: int, k0: Marks,
                  ghost f0: seq<int>) returns (k: Marks)
    requires fmap != eclass && d <= eclass.Length && Scanning(f0, fmap[..], eclass[d..], med, lo, hi, k0)
    requires k0.unLo <= k0.unHi ==> Key(fmap[..], eclass[d..], k0.unLo) > med
    modifies fmap
    ensures Scanning(f0, fmap[..], eclass[d..], med, lo, hi, k)
    ensures k.unLo == k0.unLo && k.unHi - k.unLo <= k0.unHi - k0.unLo
    ensures k.unLo <= k.unHi ==> Key(fmap[..], eclass[d..], k.unLo) > med > Key(fmap[..], eclass[d..], k.unHi)
  {
    hide *;
    k := k0;
    ghost var ec := eclass[d..];
    while k.unLo <= k.unHi
      invariant eclass[d..] == ec && Scanning(f0, fmap[..], ec, med, lo, hi, k)
      invariant k.unLo == k0.unLo && k.unHi <= k0.unHi
      invariant k.unLo <= k.unHi ==> Key(fmap[..], ec, k.unLo) > med
    {
      ghost var f := fmap[..];
      ScanBounds(f0, f, ec, med, lo, hi, k);
      var n := eclass[fmap[k.unHi] + d] - med;
      if n == 0 {
        HighEqual(f0, f, ec, med, lo, hi, k);
        SwapIs(f, k.unHi, k.gtHi);
        fmap[k.unHi], fmap[k.gtHi] := fmap[k.gtHi], fmap[k.unHi];
        assert fmap[..] == Swap(f, k.unHi, k.gtHi);
        k := k.(gtHi := k.gtHi - 1, unHi := k.unHi - 1);
        continue;
      }
      if n < 0 { break; }
      LowBelow(f0, f, ec, med, lo, hi, k);
      k := k.(unHi := k.unHi - 1);
    }
  }

  /** The scanning loop: no unknown entries remain. */
  method Scan(fmap: array<int>, eclass: array<int>, d: nat, med: int, lo: int, hi: int) returns (k: Marks)
    requires fmap != eclass && d <= eclass.Length && Indices(fmap[..], eclass[d..], lo, hi) && lo <= hi
    modifies fmap
    ensures Scanning(old(fmap[..]), fmap[..], eclass[d..], med, lo, hi, k)
    ensures k.unHi == k.unLo - 1
  {
    hide *;
    ghost var f0, ec := fmap[..], eclass[d..];
    k := Marks(lo, lo, hi, hi);
    ScanStart(f0, ec, med, lo, hi);
    while true
      invariant eclass[d..] == ec && Scanning(f0, fmap[..], ec, med, lo, hi, k)
      decreases k.unHi - k.unLo + 2
    {
      ScanBounds(f0, fmap[..], ec, med, lo, hi, k);
      k := ScanUp(fmap, eclass, d, med, lo, hi, k, f0);
      k := ScanDown(fmap, eclass, d, med, lo, hi, k, f0);
      ghost var f := fmap[..];
      ScanBounds(f0, f, ec, med, lo, hi, k);
      if k.unLo > k.unHi { break; }
      Exchange(f0, f, ec, med, lo, hi, k);
      SwapIs(f, k.unLo, k.unHi);
      fmap[k.unLo], fmap[k.unHi] := fmap[k.unHi], fmap[k.unLo];
      assert fmap[..] == Swap(f, k.unLo, k.unHi);
      k := k.(unLo := k.unLo + 1, unHi := k.unHi - 1);
    }
  }

  lemma ScanStart(f: seq<int>, ec: seq<int>, med: int, lo: int, hi: int)
    requires Indices(f, ec, lo, hi) && lo <= hi
    ensures Scanning(f, f, ec, med, lo, hi, Marks(lo, lo, hi, hi))
  {
  }

  function SwapSource(p: int, q: int, n: int, x: int): (r: int) {
    if p <= x < p + n then x + q - p else if q <= x < q + n then x + p - q else x
  }

  /** g is f with the n entries from p and from q exchanged. */
  ghost predicate BlocksSwapped(f: seq<int>, g: seq<int>, p: int, q: int, n: int) {
    && |f| == |g| && 0 <= p && 0 <= n && p + n <= q && q + n <= |f|
    && forall x :: 0 <= x < |f| ==> g[x] == f[SwapSource(p, q, n, x)]
  }

  /** fvswap */
  method VectorSwap(fmap: array<int>, p: int, q: int, n: int)
    requires 0 <= p && 0 <= n && p + n <= q && q + n <= fmap.Length
    modifies fmap
    ensures BlocksSwapped(old(fmap[..]), fmap[..], p, q, n)
    ensures forall lo, hi :: lo <= p && q + n <= hi + 1 ==> Permuted(old(fmap[..]), fmap[..], lo, hi)
  {
    hide *;
    ghost var f0 := fmap[..];
    BlocksStart(f0, p, q, q + n - 1);
    for t := 0 to n
      invariant BlocksSwapped(f0, fmap[..], p, q, t)
      invariant Permuted(f0, fmap[..], p, q + n - 1)
    {
      ghost var f := fmap[..];
      SwapIs(f, p + t, q + t);
      fmap[p + t], fmap[q + t] := fmap[q + t], fmap[p + t];
      assert fmap[..] == Swap(f, p + t, q + t);
      BlocksStep(f0, f, p, q, t, n);
    }
    forall lo, hi | lo <= p && q + n <= hi + 1 ensures Permuted(f0, fmap[..], lo, hi) {
      PermutedWiden(f0, fmap[..], p, q + n - 1, lo, hi);
    }
  }

  lemma BlocksStart(f: seq<int>, p: int, q: int, hi: int)
    requires 0 <= p <= q <= |f|
    ensures BlocksSwapped(f, f, p, q, 0) && Permuted(f, f, p, hi)
  {
  }

  lemma BlocksGrow(f0: seq<int>, f: seq<int>, p: int, q: int, t: int)
    requires BlocksSwapped(f0, f, p, q, t) && p + t < q && q + t < |f|
    ensures BlocksSwapped(f0, Swap(f, p + t, q + t), p, q, t + 1)
  {
    SwapIs(f, p + t, q + t);
  }

  lemma BlocksStep(f0: seq<int>, f: seq<int>, p: int, q: int, t: int, n: int)
    requires BlocksSwapped(f0, f, p, q, t) && Permuted(f0, f, p, q + n - 1)
    requires 0 <= p && 0 <= t < n && p + n <= q && q + n <= |f|
    ensures BlocksSwapped(f0, Swap(f, p + t, q + t), p, q, t + 1)
    ensures Permuted(f0, Swap(f, p + t, q + t), p, q + n - 1)
  {
    hide BlocksSwapped, Permuted;
    BlocksGrow(f0, f, p, q, t);
    SwapPermuted(f, p + t, q + t, p, q + n - 1);
    PermutedTransitive(f0, f, Swap(f, p + t, q + t), p, q + n - 1);
  }

  /** Below med up to n, equal to med between, above med from m on. */
  ghost predicate ThreeWay(f: seq<int>, ec: seq<int>, med: int, lo: int, n: int, m: int, hi: int) {
    && lo - 1 <= n && n + 1 < m <= hi + 1
    && (forall x :: lo <= x <= n ==> Key(f, ec, x) < med)
    && (forall x :: n < x < m ==> Key(f, ec, x) == med)
    && (forall x :: m <= x <= hi ==> Key(f, ec, x) > med)
  }

  lemma SwapKeys(f: seq<int>, g: seq<int>, ec: seq<int>, p: int, q: int, n: int)
    requires BlocksSwapped(f, g, p, q, n)
    ensures forall x :: 0 <= x < |f| ==> Key(g, ec, x) == Key(f, ec, SwapSource(p, q, n, x))
  {
  }

  /** After the first fvswap: below | equal on the left, above | equal on the right. */
  ghost predicate LeftGathered(f: seq<int>, ec: seq<int>, med: int, lo: int, hi: int, k: Marks) {
    && lo <= k.ltLo <= k.unLo && k.unLo - 1 <= k.gtHi <= hi
    && (forall x :: lo <= x < lo + k.unLo - k.ltLo ==> Key(f, ec, x) < med)
    && (forall x :: lo + k.unLo - k.ltLo <= x < k.unLo ==> Key(f, ec, x) == med)
    && (forall x :: k.unLo <= x <= k.gtHi ==> Key(f, ec, x) > med)
    && (forall x :: k.gtHi < x <= hi ==> Key(f, ec, x) == med)
  }

  lemma GatherLeft(f0: seq<int>, f: seq<int>, g: seq<int>, ec: seq<int>, med: int, lo: int, hi: int, k: Marks, n: int)
    requires Scanning(f0, f, ec, med, lo, hi, k) && k.unHi == k.unLo - 1
    requires n == if k.ltLo - lo < k.unLo - k.ltLo then k.ltLo - lo else k.unLo - k.ltLo
    requires BlocksSwapped(f, g, lo, k.unLo - n, n)
    ensures LeftGathered(g, ec, med, lo, hi, k)
  {
    SwapKeys(f, g, ec, lo, k.unLo - n, n);
  }

  lemma GatherRight(f: seq<int>, g: seq<int>, ec: seq<int>, med: int, lo: int, hi: int, k: Marks, m: int)
    requires 0 <= lo && hi < |f| && LeftGathered(f, ec, med, lo, hi, k)
    requires m == if hi - k.gtHi < k.gtHi - k.unLo + 1 then hi - k.gtHi else k.gtHi - k.unLo + 1
    requires BlocksSwapped(f, g, k.unLo, hi - m + 1, m)
    requires k.gtHi >= k.ltLo
    requires k.ltLo > lo || k.gtHi < hi
    ensures ThreeWay(g, ec, med, lo, lo + k.unLo - k.ltLo - 1, hi - (k.gtHi - k.unLo + 1) + 1, hi)
  {
    SwapKeys(f, g, ec, k.unLo, hi - m + 1, m);
  }

  lemma MedianStays(f0: seq<int>, f: seq<int>, ec: seq<int>, med: int, lo: int, hi: int, k: Marks, x: int)
    requires Scanning(f0, f, ec, med, lo, hi, k) && k.unHi == k.unLo - 1
    requires lo <= x <= hi && Key(f0, ec, x) == med
    ensures k.ltLo > lo || k.gtHi < hi
  {
    PermutedLength(f0, f, lo, hi);
    var y := PermutedFrom(f, f0, lo, hi, x);
    assert Key(f, ec, y) == med;
  }

  lemma AllEqual(f0: seq<int>, f: seq<int>, ec: seq<int>, med: int, lo: int, hi: int, k: Marks)
    requires Scanning(f0, f, ec, med, lo, hi, k) && k.unHi == k.unLo - 1
    ensures k.gtHi < k.ltLo ==> AllAre(f, ec, med, lo, hi)
    ensures Permuted(f0, f, lo, hi)
  {
  }

  ghost predicate AllAre(f: seq<int>, ec: seq<int>, med: int, lo: int, hi: int) {
    forall x :: lo <= x <= hi ==> Key(f, ec, x) == med
  }

  lemma AllSorted(f: seq<int>, ec: seq<int>, med: int, lo: int, hi: int)
    requires AllAre(f, ec, med, lo, hi)
    ensures SortedKeys(f, ec, lo, hi)
  {
  }

  /** Partition by key med, which some entry has: either all keys are med, or three parts result. */
  method Split(fmap: array<int>, eclass: array<int>, d: nat, lo: int, hi: int, med: int, ghost pivot: int)
    returns (done: bool, n: int, m: int)
    requires fmap != eclass && d <= eclass.Length && Indices(fmap[..], eclass[d..], lo, hi) && lo <= pivot <= hi
    requires Key(fmap[..], eclass[d..], pivot) == med
    modifies fmap
    ensures Permuted(old(fmap[..]), fmap[..], lo, hi)
    ensures done ==> AllAre(fmap[..], eclass[d..], med, lo, hi)
    ensures !done ==> lo - 1 <= n < m <= hi + 1 && (lo <= n || m <= hi)
    ensures !done ==> ThreeWay(fmap[..], eclass[d..], med, lo, n, m, hi)
  {
    hide *;
    ghost var f0, ec := fmap[..], eclass[d..];
    var k := Scan(fmap, eclass, d, med, lo, hi);
    ghost var f1 := fmap[..];
    AllEqual(f0, f1, ec, med, lo, hi, k);
    MedianStays(f0, f1, ec, med, lo, hi, k, pivot);
    ScanBounds(f0, f1, ec, med, lo, hi, k);
    if k.gtHi < k.ltLo { return true, 0, 0; }
    n := if k.ltLo - lo < k.unLo - k.ltLo then k.ltLo - lo else k.unLo - k.ltLo;
    VectorSwap(fmap, lo, k.unLo - n, n);
    ghost var f2 := fmap[..];
    GatherLeft(f0, f1, f2, ec, med, lo, hi, k, n);
    PermutedTransitive(f0, f1, f2, lo, hi);
    m := if hi - k.gtHi < k.gtHi - k.unHi then hi - k.gtHi else k.gtHi - k.unHi;
    VectorSwap(fmap, k.unLo, hi - m + 1, m);
    GatherRight(f2, fmap[..], ec, med, lo, hi, k, m);
    PermutedTransitive(f0, f2, fmap[..], lo, hi);
    n := lo + k.unLo - k.ltLo - 1;
    m := hi - (k.gtHi - k.unHi) + 1;
    done := false;
  }

  /** Partition by the class of one entry: either all classes are equal, or three parts result. */
  method Partition(fmap: array<int>, eclass: array<int>, lo: int, hi: int, pivot: int)
    returns (done: bool, n: int, m: int)
    requires fmap != eclass && Indices(fmap[..], eclass[..], lo, hi) && lo <= pivot <= hi
    modifies fmap
    ensures Permuted(old(fmap[..]), fmap[..], lo, hi)
    ensures done ==> SortedKeys(fmap[..], eclass[..], lo, hi)
    ensures !done ==> lo - 1 <= n < m <= hi + 1 && (lo <= n || m <= hi)
    ensures !done ==> exists med :: ThreeWay(fmap[..], eclass[..], med, lo, n, m, hi)
  {
    hide *;
    ghost var f0, ec := fmap[..], eclass[..];
    assert eclass[0..] == ec;
    InsertStart(f0, ec, lo, hi, 1);
    KeyAt(f0, ec, pivot);
    var med := eclass[fmap[pivot]];
    done, n, m := Split(fmap, eclass, 0, lo, hi, med, pivot);
    assert eclass[0..] == ec;
    if done {
      AllSorted(fmap[..], ec, med, lo, hi);
    } else {
      assert ThreeWay(fmap[..], eclass[..], med, lo, n, m, hi);
    }
  }

  // ----- the explicit stack

  datatype Segment = Segment(lo: int, hi: int)

  /** x and y lie in one segment that is still to be sorted. */
  ghost predicate Together(stack: seq<Segment>, x: int, y: int) {
    exists s :: 0 <= s < |stack| && stack[s].lo <= x <= y <= stack[s].hi
  }

  ghost predicate Disjoint(stack: seq<Segment>) {
    forall s, t :: 0 <= s < |stack| && 0 <= t < |stack| && s != t ==>
      stack[s].hi < stack[t].lo || stack[t].hi < stack[s].lo
        || stack[s].lo > stack[s].hi || stack[t].lo > stack[t].hi
  }

  ghost predicate Within(stack: seq<Segment>, lo: int, hi: int) {
    forall s :: 0 <= s < |stack| ==> lo <= stack[s].lo <= stack[s].hi + 1 <= hi + 1
  }

  /** Entries not in one pending segment are already in order. */
  ghost predicate Separated(f: seq<int>, ec: seq<int>, lo: int, hi: int, stack: seq<Segment>) {
    && Within(stack, lo, hi) && Disjoint(stack)
    && forall x, y :: lo <= x < y <= hi && !Together(stack, x, y) ==> Key(f, ec, x) <= Key(f, ec, y)
  }

  /** Replace the top segment p by segments q inside it, after ordering p up to q. */
  lemma RefineTop(f: seq<int>, g: seq<int>, ec: seq<int>, lo: int, hi: int,
                  rest: seq<Segment>, p: Segment, q: seq<Segment>)
    requires Separated(f, ec, lo, hi, rest + [p]) && 0 <= lo && hi < |f|
    requires Permuted(f, g, p.lo, p.hi)
    requires Within(q, p.lo, p.hi) && Disjoint(q)
    requires forall x, y :: p.lo <= x < y <= p.hi && !Together(q, x, y) ==> Key(g, ec, x) <= Key(g, ec, y)
    ensures Separated(g, ec, lo, hi, rest + q)
  {
    RefineShape(lo, hi, rest, p, q);
    forall x, y | lo <= x < y <= hi && !Together(rest + q, x, y) ensures Key(g, ec, x) <= Key(g, ec, y) {
      RefinePair(f, g, ec, lo, hi, rest, p, q, x, y);
    }
  }

  lemma RefineShape(lo: int, hi: int, rest: seq<Segment>, p: Segment, q: seq<Segment>)
    requires Within(rest + [p], lo, hi) && Disjoint(rest + [p])
    requires Within(q, p.lo, p.hi) && Disjoint(q)
    ensures Within(rest + q, lo, hi) && Disjoint(rest + q)
  {
    assert (rest + [p])[|rest|] == p;
    forall s | 0 <= s < |rest| ensures (rest + [p])[s] == rest[s] {}
  }

  lemma RefinePair(f: seq<int>, g: seq<int>, ec: seq<int>, lo: int, hi: int,
                   rest: seq<Segment>, p: Segment, q: seq<Segment>, x: int, y: int)
    requires Separated(f, ec, lo, hi, rest + [p]) && 0 <= lo && hi < |f|
    requires Permuted(f, g, p.lo, p.hi)
    requires forall x, y :: p.lo <= x < y <= p.hi && !Together(q, x, y) ==> Key(g, ec, x) <= Key(g, ec, y)
    requires lo <= x < y <= hi && !Together(rest + q, x, y)
    ensures Key(g, ec, x) <= Key(g, ec, y)
  {
    assert (rest + [p])[|rest|] == p;
    var x', y' := Origin(f, g, ec, lo, hi, p, x), Origin(f, g, ec, lo, hi, p, y);
    if p.lo <= x && y <= p.hi {
      NotTogetherTail(rest, q, x, y);
    } else {
      NotTogetherMoved(rest, p, q, x, y, x', y');
    }
  }

  /** Where an entry of g came from in f: the same place, or a place in the rearranged part. */
  ghost function Origin(f: seq<int>, g: seq<int>, ec: seq<int>, lo: int, hi: int, p: Segment, x: int): (y: int)
    requires Permuted(f, g, p.lo, p.hi) && 0 <= lo <= p.lo && p.hi <= hi < |f| && lo <= x <= hi
    ensures if p.lo <= x <= p.hi then p.lo <= y <= p.hi else y == x
    ensures Key(g, ec, x) == Key(f, ec, y)
  {
    if p.lo <= x <= p.hi then
      OriginExists(f, g, p, x);
      var y :| p.lo <= y <= p.hi && g[x] == f[y];
      y
    else x
  }

  lemma OriginExists(f: seq<int>, g: seq<int>, p: Segment, x: int)
    requires Permuted(f, g, p.lo, p.hi) && 0 <= p.lo <= x <= p.hi < |f|
    ensures |f| == |g| && exists y :: p.lo <= y <= p.hi && g[x] == f[y]
  {
    var y := PermutedFrom(f, g, p.lo, p.hi, x);
  }

  lemma NotTogetherTail(rest: seq<Segment>, q: seq<Segment>, x: int, y: int)
    requires !Together(rest + q, x, y)
    ensures !Together(q, x, y) && !Together(rest, x, y)
  {
    forall s | 0 <= s < |q| ensures q[s] == (rest + q)[|rest| + s] {}
    forall s | 0 <= s < |rest| ensures rest[s] == (rest + q)[s] {}
  }

  lemma NotTogetherMoved(rest: seq<Segment>, p: Segment, q: seq<Segment>, x: int, y: int, x': int, y': int)
    requires Disjoint(rest + [p]) && x < y && !Together(rest + q, x, y)
    requires !(p.lo <= x && y <= p.hi)
    requires if p.lo <= x <= p.hi then p.lo <= x' <= p.hi else x' == x
    requires if p.lo <= y <= p.hi then p.lo <= y' <= p.hi else y' == y
    ensures x' < y' && !Together(rest + [p], x', y')
  {
    NotTogetherTail(rest, q, x, y);
    assert (rest + [p])[|rest|] == p;
    forall s | 0 <= s < |rest| ensures (rest + [p])[s] == rest[s] {}
  }

  // ----- depth of the stack, termination

  function Size(p: Segment): (r: int) { p.hi - p.lo + 1 }

  /** Each pending segment is at most half as large as the one below it could be. */
  ghost predicate Halving(stack: seq<Segment>, total: int) {
    && (forall k :: 0 <= k < |stack| ==> 0 <= Size(stack[k]) && Size(stack[k]) * Pow2(k) <= total)
    && (forall k :: 0 <= k < |stack| - 1 ==> 1 <= Size(stack[k]))
  }

  lemma {:induction false} PowerBound(k: nat, w: int, x: int)
    requires 20 <= k && w == Pow2(k) && x >= 1
    ensures x * w >= 1048576
  {
    Pow2Monotone(20, k);
    assert Pow2(10) == 1024;
    assert Pow2(20) == 1048576;
    assert x * w >= w;
  }

  lemma HalvingDepth(stack: seq<Segment>, total: int)
    requires Halving(stack, total) && total <= 900000
    ensures |stack| <= 21
  {
    if |stack| > 21 {
      PowerBound(|stack| - 2, Pow2(|stack| - 2), Size(stack[|stack| - 2]));
    }
  }

  /** Popping p and pushing its larger part under its smaller part keeps the stack halving. */
  lemma HalvingPush(rest: seq<Segment>, p: Segment, a: Segment, b: Segment, total: int)
    requires Halving(rest + [p], total)
    requires 0 <= Size(b) <= Size(a) && 1 <= Size(a) && Size(a) + Size(b) < Size(p)
    ensures Halving(rest + [a, b], total)
  {
    var s, t := rest + [p], rest + [a, b];
    assert s[|rest|] == p;
    HalvingArithmetic(Size(p), Size(a), Size(b), Pow2(|rest|), total);
    forall k | 0 <= k < |t| ensures 0 <= Size(t[k]) && Size(t[k]) * Pow2(k) <= total {
      if k < |rest| { assert s[k] == t[k]; }
    }
    forall k | 0 <= k < |t| - 1 ensures 1 <= Size(t[k]) {
      if k < |rest| { assert s[k] == t[k]; }
    }
  }

  lemma HalvingArithmetic(p: int, a: int, b: int, w: int, total: int)
    requires p * w <= total && 0 <= b <= a && a + b < p && w >= 1
    ensures a * w <= total && b * (2 * w) <= total
  {
    assert (p - a) * w >= 0 && (p - 2 * b) * w >= 0;
  }

  lemma HalvingPop(rest: seq<Segment>, p: Segment, total: int)
    requires Halving(rest + [p], total)
    ensures Halving(rest, total) && 0 <= Size(p)
  {
    assert (rest + [p])[|rest|] == p;
    forall k | 0 <= k < |rest| ensures (rest + [p])[k] == rest[k] {}
  }

  /** Work left, for termination. */
  ghost function Work(stack: seq<Segment>): (r: int) {
    if stack == [] then 0 else Work(stack[..|stack| - 1]) + 2 * Size(stack[|stack| - 1]) + 1
  }

  lemma {:induction false} WorkNonnegative(stack: seq<Segment>, lo: int, hi: int)
    requires Within(stack, lo, hi)
    ensures Work(stack) >= 0
  {
    if stack != [] { WorkNonnegative(stack[..|stack| - 1], lo, hi); }
  }

  lemma WorkPush(rest: seq<Segment>, p: Segment)
    ensures Work(rest + [p]) == Work(rest) + 2 * Size(p) + 1
  {
    assert (rest + [p])[..|rest|] == rest;
  }

  lemma WorkPushTwo(rest: seq<Segment>, a: Segment, b: Segment)
    ensures Work(rest + [a, b]) == Work(rest) + 2 * Size(a) + 2 * Size(b) + 2
  {
    WorkPush(rest, a);
    WorkPush(rest + [a], b);
    assert rest + [a] + [b] == rest + [a, b];
  }

  // ----- putting it together

  /** Loop invariant of fallbackQSort3. */
  ghost predicate Sorting(f0: seq<int>, f: seq<int>, ec: seq<int>, lo: int, hi: int, stack: seq<Segment>) {
    && Permuted(f0, f, lo, hi) && Indices(f, ec, lo, hi)
    && Separated(f, ec, lo, hi, stack)
    && Halving(stack, hi - lo + 1)
  }

  lemma SortingStart(f: seq<int>, ec: seq<int>, lo: int, hi: int)
    requires Indices(f, ec, lo, hi)
    ensures Sorting(f, f, ec, lo, hi, [Segment(lo, hi)])
  {
    assert [Segment(lo, hi)][0] == Segment(lo, hi);
    forall x, y | lo <= x < y <= hi ensures Together([Segment(lo, hi)], x, y) {}
  }

  lemma SortingTop(f0: seq<int>, f: seq<int>, ec: seq<int>, lo: int, hi: int, rest: seq<Segment>, p: Segment)
    requires Sorting(f0, f, ec, lo, hi, rest + [p])
    ensures lo <= p.lo <= p.hi + 1 <= hi + 1 && Indices(f, ec, p.lo, p.hi)
    ensures Work(rest) >= 0 && Work(rest + [p]) == Work(rest) + 2 * Size(p) + 1
  {
    assert (rest + [p])[|rest|] == p;
    forall k | 0 <= k < |rest| ensures (rest + [p])[k] == rest[k] {}
    WorkNonnegative(rest, lo, hi);
    WorkPush(rest, p);
  }

  lemma SortedPop(f0: seq<int>, f: seq<int>, g: seq<int>, ec: seq<int>, lo: int, hi: int,
                  rest: seq<Segment>, p: Segment)
    requires Sorting(f0, f, ec, lo, hi, rest + [p])
    requires Permuted(f, g, p.lo, p.hi) && SortedKeys(g, ec, p.lo, p.hi)
    ensures Sorting(f0, g, ec, lo, hi, rest)
  {
    hide Permuted, Separated, Halving, Indices;
    SortingTop(f0, f, ec, lo, hi, rest, p);
    PermutedWiden(f, g, p.lo, p.hi, lo, hi);
    PermutedTransitive(f0, f, g, lo, hi);
    PermutedIndices(f, g, ec, lo, hi);
    HalvingPop(rest, p, hi - lo + 1);
    IndicesBounds(f, ec, lo, hi);
    RefineTop(f, g, ec, lo, hi, rest, p, []);
    assert rest + [] == rest;
  }

  lemma IndicesBounds(f: seq<int>, ec: seq<int>, lo: int, hi: int)
    requires Indices(f, ec, lo, hi)
    ensures 0 <= lo && hi < |f| && lo <= hi + 1
  {
  }

  lemma PartedPush(f0: seq<int>, f: seq<int>, g: seq<int>, ec: seq<int>, lo: int, hi: int,
                   rest: seq<Segment>, p: Segment, med: int, n: int, m: int, a: Segment, b: Segment)
    requires Sorting(f0, f, ec, lo, hi, rest + [p])
    requires Permuted(f, g, p.lo, p.hi) && ThreeWay(g, ec, med, p.lo, n, m, p.hi)
    requires p.lo <= n || m <= p.hi
    requires (a == Segment(p.lo, n) && b == Segment(m, p.hi)) || (a == Segment(m, p.hi) && b == Segment(p.lo, n))
    requires Size(b) <= Size(a)
    ensures Sorting(f0, g, ec, lo, hi, rest + [a, b])
    ensures 0 <= Work(rest + [a, b]) < Work(rest + [p])
  {
    hide Permuted, Separated, Halving, Indices, Work;
    SortingTop(f0, f, ec, lo, hi, rest, p);
    PermutedWiden(f, g, p.lo, p.hi, lo, hi);
    PermutedTransitive(f0, f, g, lo, hi);
    PermutedIndices(f, g, ec, lo, hi);
    HalvingPush(rest, p, a, b, hi - lo + 1);
    IndicesBounds(f, ec, lo, hi);
    ThreeWayPairs(g, ec, med, p, n, m, a, b);
    RefineTop(f, g, ec, lo, hi, rest, p, [a, b]);
    WorkPushTwo(rest, a, b);
  }

  lemma ThreeWayPairs(g: seq<int>, ec: seq<int>, med: int, p: Segment, n: int, m: int, a: Segment, b: Segment)
    requires ThreeWay(g, ec, med, p.lo, n, m, p.hi)
    requires (a == Segment(p.lo, n) && b == Segment(m, p.hi)) || (a == Segment(m, p.hi) && b == Segment(p.lo, n))
    ensures Within([a, b], p.lo, p.hi) && Disjoint([a, b])
    ensures forall x, y :: p.lo <= x < y <= p.hi && !Together([a, b], x, y) ==> Key(g, ec, x) <= Key(g, ec, y)
  {
    assert [a, b][0] == a && [a, b][1] == b;
  }

  lemma SortingDone(f0: seq<int>, f: seq<int>, ec: seq<int>, lo: int, hi: int)
    requires Sorting(f0, f, ec, lo, hi, [])
    ensures Permuted(f0, f, lo, hi) && SortedKeys(f, ec, lo, hi)
  {
  }

  lemma SortingDepth(f0: seq<int>, f: seq<int>, ec: seq<int>, lo: int, hi: int, stack: seq<Segment>)
    requires Sorting(f0, f, ec, lo, hi, stack) && hi - lo < 900000
    ensures |stack| < STACK_SIZE - 1
  {
    HalvingDepth(stack, hi - lo + 1);
  }

  /** Sorts entries loSt..hiSt of fmap by class, rearranging nothing else. The stack of
      pending segments never reaches the size at which the source gives up. */
  method Sort(fmap: array<int>, eclass: array<int>, loSt: int, hiSt: int)
    requires fmap != eclass && Indices(fmap[..], eclass[..], loSt, hiSt)
    requires hiSt - loSt < 900000
    modifies fmap
    ensures Permuted(old(fmap[..]), fmap[..], loSt, hiSt)
    ensures SortedKeys(fmap[..], eclass[..], loSt, hiSt)
  {
    hide *;
    ghost var f0, ec := fmap[..], eclass[..];
    var r := 0;
    var stack := [Segment(loSt, hiSt)];
    SortingStart(f0, ec, loSt, hiSt);
    while stack != []
      invariant eclass[..] == ec && Sorting(f0, fmap[..], ec, loSt, hiSt, stack)
      decreases Work(stack)
    {
      ghost var f := fmap[..];
      SortingDepth(f0, f, ec, loSt, hiSt, stack);
      assert |stack| < STACK_SIZE - 1;
      var p, rest := stack[|stack| - 1], stack[..|stack| - 1];
      assert stack == rest + [p];
      SortingTop(f0, f, ec, loSt, hiSt, rest, p);
      SizeIs(p);
      if p.hi - p.lo < 10 {  // FALLBACK_QSORT_SMALL_THRESH
        SimpleSort(fmap, eclass, p.lo, p.hi);
        SortedPop(f0, f, fmap[..], ec, loSt, hiSt, rest, p);
        stack := rest;
        continue;
      }
      r := (r * 7621 + 1) % 32768;
      var r3 := r % 3;
      var pivot := if r3 == 0 then p.lo else if r3 == 1 then (p.lo + p.hi) / 2 else p.hi;
      var done, n, m := Partition(fmap, eclass, p.lo, p.hi, pivot);
      if done {
        SortedPop(f0, f, fmap[..], ec, loSt, hiSt, rest, p);
        stack := rest;
        continue;
      }
      var a, b := Segment(p.lo, n), Segment(m, p.hi);
      if !(n - p.lo > p.hi - m) { a, b := b, a; }
      SizeIs(a);
      SizeIs(b);
      ghost var med :| ThreeWay(fmap[..], ec, med, p.lo, n, m, p.hi);
      PartedPush(f0, f, fmap[..], ec, loSt, hiSt, rest, p, med, n, m, a, b);
      stack := rest + [a, b];
    }
    SortingDone(f0, fmap[..], ec, loSt, hiSt);
  }

  lemma SizeIs(p: Segment)
    ensures Size(p) == p.hi - p.lo + 1
  {
  }
}
