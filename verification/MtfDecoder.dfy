/** The decoder's two-level move-to-front list: 16 lists of 16 entries that slide down a
    4096-byte arena and are moved back to its top when they reach the bottom. */
module MtfDecoder {
  import opened Counting
  import opened MoveToFront

  /** Entry t of list i in the arena. */
  function Cell(a: seq<int>, base: seq<int>, i: int, t: int): (r: int) {
    if 0 <= i < |base| && 0 <= base[i] + t < |a| then a[base[i] + t] else 0
  }

  /** Entry t of the i-th sixteenth of a flat list. */
  function Item(l: seq<int>, i: int, t: int): (r: int) {
    if 0 <= 16 * i + t < |l| then l[16 * i + t] else 0
  }

  /** The lists lie in order and do not overlap. */
  ghost predicate Laid(base: seq<int>) {
    && |base| == 16 && 0 <= base[0]
    && (forall i, j :: 0 <= i < j < 16 ==> base[i] + 16 * (j - i) <= base[j])
    && (forall i :: 0 <= i < 16 ==> base[i] <= 3840 + 16 * i)
  }

  /** The arena holds flat list l. */
  ghost predicate Holds(a: seq<int>, base: seq<int>, l: seq<int>) {
    && |a| == 4096 && |l| == 256 && Laid(base)
    && forall i, t :: 0 <= i < 16 && 0 <= t < 16 ==> Cell(a, base, i, t) == Item(l, i, t)
  }

  lemma HoldsUnique(a: seq<int>, base: seq<int>, l: seq<int>, m: seq<int>)
    requires Holds(a, base, l) && Holds(a, base, m)
    ensures l == m
  {
    forall k | 0 <= k < 256 ensures l[k] == m[k] {
      var i, t := k / 16, k % 16;
      assert Item(l, i, t) == Cell(a, base, i, t) == Item(m, i, t);
    }
  }

  lemma ItemToFront(l: seq<int>, n: nat, i: int, t: int)
    requires |l| == 256 && n < 256 && 0 <= i < 16 && 0 <= t < 16
    ensures Item(ToFront(l, n), i, t) ==
            if 16 * i + t == 0 then l[n] else if 16 * i + t <= n then Item(l, i, t - 1) else Item(l, i, t)
  {
  }

  /** A write into one list leaves the other cells alone. */
  lemma CellsAfterWrite(a: seq<int>, b: seq<int>, base: seq<int>, i0: int, t0: int, v: int)
    requires |a| == 4096 && Laid(base) && 0 <= i0 < 16 && 0 <= t0 < 16
    requires 0 <= base[i0] + t0 < 4096 && b == a[base[i0] + t0 := v]
    ensures forall i, t :: 0 <= i < 16 && 0 <= t < 16 ==>
      Cell(b, base, i, t) == if i == i0 && t == t0 then v else Cell(a, base, i, t)
  {
    forall i, t | 0 <= i < 16 && 0 <= t < 16
      ensures Cell(b, base, i, t) == if i == i0 && t == t0 then v else Cell(a, base, i, t)
    {
      if i < i0 { assert base[i] + 16 * (i0 - i) <= base[i0]; }
      if i0 < i { assert base[i0] + 16 * (i - i0) <= base[i]; }
    }
  }

  // ----- moving up within one list

  /** Within list c, entries p..off already moved up one place. */
  ghost predicate ShiftingOne(a: seq<int>, base: seq<int>, l: seq<int>, c: int, off: int, p: int) {
    && |a| == 4096 && |l| == 256 && Laid(base) && 0 <= c < 16 && 0 <= p <= off < 16
    && (forall i, t :: 0 <= i < 16 && i != c && 0 <= t < 16 ==> Cell(a, base, i, t) == Item(l, i, t))
    && (forall t :: 0 <= t < 16 ==> Cell(a, base, c, t) == Item(l, c, if p < t <= off then t - 1 else t))
  }

  lemma ShiftOne(a: seq<int>, base: seq<int>, l: seq<int>, c: int, off: int, p: int)
    requires ShiftingOne(a, base, l, c, off, p) && p > 0
    ensures 0 < base[c] + p < 4096
    ensures ShiftingOne(a[base[c] + p := a[base[c] + p - 1]], base, l, c, off, p - 1)
  {
    var v := a[base[c] + p - 1];
    var b := a[base[c] + p := v];
    CellsAfterWrite(a, b, base, c, p, v);
    assert v == Cell(a, base, c, p - 1);
    assert ShiftingOne(b, base, l, c, off, p - 1);
  }

  /** Entry n of the first list, moved to its front. */
  lemma FirstDone(a: seq<int>, base: seq<int>, l: seq<int>, n: nat, uc: int)
    requires n < 16 && ShiftingOne(a, base, l, 0, n, 0) && uc == l[n]
    ensures 0 <= base[0] < 4096 && Holds(a[base[0] := uc], base, ToFront(l, n))
  {
    var b := a[base[0] := uc];
    assert base[0] + 0 == base[0];
    CellsAfterWrite(a, b, base, 0, 0, uc);
    forall i, t | 0 <= i < 16 && 0 <= t < 16 ensures Cell(b, base, i, t) == Item(ToFront(l, n), i, t) {
      ItemToFront(l, n, i, t);
    }
  }

  // ----- passing one entry from each list to the next

  /** List bases while the lists below c still wait and those above c have moved. */
  ghost predicate Sliding(base: seq<int>, base0: seq<int>, lno: int, c: int) {
    && Laid(base0) && 0 < base0[0] && |base| == 16 && 0 <= c <= lno < 16 && 0 < lno
    && (forall i :: 0 <= i < 16 ==>
          base[i] == if i == lno then (if c == lno then base0[i] + 1 else base0[i])
                     else if c < i < lno then base0[i] - 1 else base0[i])
  }

  /** Lists above c are final; list c has lost one entry and its 15 others start at its base;
      those below c are as they were, one place early. */
  ghost predicate Passing(a: seq<int>, base: seq<int>, m: seq<int>, c: int) {
    && |a| == 4096 && |m| == 256
    && (forall i, t :: c < i < 16 && 0 <= t < 16 ==> Cell(a, base, i, t) == Item(m, i, t))
    && (forall i, t :: 0 <= i <= c && 0 <= t < 15 ==> Cell(a, base, i, t) == Item(m, i, t + 1))
    && (forall i :: 0 <= i < c ==> Cell(a, base, i, 15) == Item(m, i, 16))
  }

  lemma PassCell(a: seq<int>, base: seq<int>, l: seq<int>, c: int, off: int, i: int, t: int)
    requires ShiftingOne(a, base, l, c, off, 0) && 0 <= i < 16 && 0 <= t < 16
    ensures var m, b := ToFront(l, 16 * c + off), base[c := base[c] + 1];
            && (i > c ==> Cell(a, b, i, t) == Item(m, i, t))
            && (i <= c && t < 15 ==> Cell(a, b, i, t) == Item(m, i, t + 1))
            && (i < c && t == 15 ==> Cell(a, b, i, t) == Item(m, i, 16))
  {
    var m, b := ToFront(l, 16 * c + off), base[c := base[c] + 1];
    hide ToFront;
    if i > c {
      ItemToFront(l, 16 * c + off, i, t);
      assert Cell(a, b, i, t) == Cell(a, base, i, t);
    } else if t < 15 {
      ItemToFront(l, 16 * c + off, i, t + 1);
      if i == c { assert Cell(a, b, c, t) == Cell(a, base, c, t + 1); }
      else { assert Cell(a, b, i, t) == Cell(a, base, i, t); }
    } else if i < c {
      ItemToFront(l, 16 * c + off, i + 1, 0);
      assert Item(m, i, 16) == Item(m, i + 1, 0);
      assert Cell(a, b, i, t) == Cell(a, base, i, t);
    }
  }

  lemma PassStart(a: seq<int>, base: seq<int>, l: seq<int>, c: int, off: int)
    requires ShiftingOne(a, base, l, c, off, 0) && 0 < base[0] && c > 0
    ensures Sliding(base[c := base[c] + 1], base, c, c)
    ensures Passing(a, base[c := base[c] + 1], ToFront(l, 16 * c + off), c)
  {
    var m, b := ToFront(l, 16 * c + off), base[c := base[c] + 1];
    hide Cell, Item, ToFront;
    forall i, t | 0 <= i < 16 && 0 <= t < 16
      ensures i > c ==> Cell(a, b, i, t) == Item(m, i, t)
      ensures i <= c && t < 15 ==> Cell(a, b, i, t) == Item(m, i, t + 1)
      ensures i < c && t == 15 ==> Cell(a, b, i, t) == Item(m, i, 16)
    {
      PassCell(a, base, l, c, off, i, t);
    }
  }

  /** Bases stay in the arena and apart while sliding. */
  lemma SlidingApart(base: seq<int>, base0: seq<int>, lno: int, c: int, i: int, j: int)
    requires Sliding(base, base0, lno, c) && 0 <= i < j < 16
    ensures 0 <= base[i] && base[i] + 15 <= base[j] && base[j] + 14 < 4096
    ensures j != c ==> base[j] + 15 < 4096
    ensures j <= c || c < i ==> base[i] + 16 * (j - i) <= base[j]
    ensures c <= i ==> base[i] + 16 * (j - i) - 1 <= base[j]
    ensures j == lno == c ==> base[i] + 17 <= base[j]
  {
    assert base0[i] + 16 * (j - i) <= base0[j];
  }

  lemma PassStep(a: seq<int>, base: seq<int>, base0: seq<int>, m: seq<int>, lno: int, c: int, a': seq<int>,
                 base': seq<int>)
    requires Sliding(base, base0, lno, c) && Passing(a, base, m, c) && c > 0
    requires base' == base[c := base[c] - 1]
    requires 0 <= base'[c] < 4096 && 0 <= base[c - 1] + 15 < 4096 && a' == a[base'[c] := a[base[c - 1] + 15]]
    ensures Sliding(base', base0, lno, c - 1) && Passing(a', base', m, c - 1)
  {
    forall i, t | 0 <= i < 16 && 0 <= t < 16
      ensures i > c - 1 ==> Cell(a', base', i, t) == Item(m, i, t)
      ensures i <= c - 1 && t < 15 ==> Cell(a', base', i, t) == Item(m, i, t + 1)
      ensures i < c - 1 && t == 15 ==> Cell(a', base', i, t) == Item(m, i, 16)
    {
      PassStepCell(a, base, base0, m, lno, c, a', base', i, t);
    }
  }

  lemma PassStepCell(a: seq<int>, base: seq<int>, base0: seq<int>, m: seq<int>, lno: int, c: int,
                     a': seq<int>, base': seq<int>, i: int, t: int)
    requires Sliding(base, base0, lno, c) && Passing(a, base, m, c) && c > 0 && 0 <= i < 16 && 0 <= t < 16
    requires base' == base[c := base[c] - 1]
    requires 0 <= base'[c] < 4096 && 0 <= base[c - 1] + 15 < 4096 && a' == a[base'[c] := a[base[c - 1] + 15]]
    ensures i > c - 1 ==> Cell(a', base', i, t) == Item(m, i, t)
    ensures i <= c - 1 && t < 15 ==> Cell(a', base', i, t) == Item(m, i, t + 1)
    ensures i < c - 1 && t == 15 ==> Cell(a', base', i, t) == Item(m, i, 16)
  {
    if i < c {
      SlidingApart(base, base0, lno, c, i, c);
      assert Cell(a, base, i, t) == Cell(a', base', i, t) || (i == c - 1 && t == 15);
    } else if i == c {
      if t == 0 {
        assert Cell(a, base, c - 1, 15) == Item(m, c - 1, 16) == Item(m, c, 0);
      } else {
        assert Cell(a', base', c, t) == Cell(a, base, c, t - 1) == Item(m, c, t);
      }
    } else {
      SlidingApart(base, base0, lno, c, c, i);
      assert Cell(a', base', i, t) == Cell(a, base, i, t);
    }
  }

  lemma PassEnd(a: seq<int>, base: seq<int>, base0: seq<int>, m: seq<int>, lno: int, a': seq<int>, base': seq<int>)
    requires Sliding(base, base0, lno, 0) && Passing(a, base, m, 0)
    requires base' == base[0 := base[0] - 1] && 0 <= base'[0] < 4096 && a' == a[base'[0] := m[0]]
    ensures Holds(a', base', m)
  {
    forall i, j | 0 <= i < j < 16 ensures base'[i] + 16 * (j - i) <= base'[j] {
      SlidingApart(base, base0, lno, 0, i, j);
    }
    forall i, t | 0 <= i < 16 && 0 <= t < 16 ensures Cell(a', base', i, t) == Item(m, i, t) {
      if i == 0 {
        if t > 0 { assert Cell(a', base', 0, t) == Cell(a, base, 0, t - 1); }
      } else {
        SlidingApart(base, base0, lno, 0, 0, i);
        assert Cell(a', base', i, t) == Cell(a, base, i, t);
      }
    }
  }

  // ----- back to the top of the arena

  /** Lists above ii, and entries above jj of list ii, have been copied up. */
  ghost predicate Lifting(a: seq<int>, base: seq<int>, base0: seq<int>, m: seq<int>, ii: int, jj: int) {
    && |a| == 4096 && |m| == 256 && Laid(base0) && |base| == 16 && -1 <= ii < 16 && -1 <= jj < 16
    && (forall i :: 0 <= i < 16 ==> base[i] == if i > ii then 3840 + 16 * i else base0[i])
    && (forall k :: 0 <= k < 256 && (k > 16 * ii + jj) ==> a[3840 + k] == m[k])
    && (forall i, t :: 0 <= i < 16 && 0 <= t < 16 && (i < ii || (i == ii && t <= jj)) ==>
      Cell(a, base0, i, t) == Item(m, i, t))
  }

  lemma LiftStep(a: seq<int>, base: seq<int>, base0: seq<int>, m: seq<int>, ii: int, jj: int)
    requires Lifting(a, base, base0, m, ii, jj) && ii >= 0 && jj >= 0
    ensures 0 <= base[ii] + jj < 4096
    ensures Lifting(a[3840 + 16 * ii + jj := a[base[ii] + jj]], base, base0, m, ii, jj - 1)
  {
    var v := a[base[ii] + jj];
    assert v == Cell(a, base0, ii, jj) == Item(m, ii, jj);
    var b := a[3840 + 16 * ii + jj := v];
    forall i, t | 0 <= i < 16 && 0 <= t < 16 && (i < ii || (i == ii && t <= jj - 1))
      ensures Cell(b, base0, i, t) == Item(m, i, t)
    {
      assert Cell(a, base0, i, t) == Item(m, i, t);
      assert base0[i] + t < 3840 + 16 * ii + jj;
    }
  }

  lemma LiftNext(a: seq<int>, base: seq<int>, base0: seq<int>, m: seq<int>, ii: int)
    requires Lifting(a, base, base0, m, ii, -1) && ii >= 0
    ensures Lifting(a, base[ii := 3840 + 16 * ii], base0, m, ii - 1, 15)
  {
  }

  lemma LiftDone(a: seq<int>, base: seq<int>, base0: seq<int>, m: seq<int>)
    requires Lifting(a, base, base0, m, -1, 15)
    ensures Holds(a, base, m) && base[0] == 3840
  {
    forall i, t | 0 <= i < 16 && 0 <= t < 16 ensures Cell(a, base, i, t) == Item(m, i, t) {
      assert a[3840 + (16 * i + t)] == m[16 * i + t];
    }
  }

  // ----- the list as an object

  lemma InitCell(a: seq<int>, base: seq<int>, l: seq<int>)
    requires |a| == 4096 && |base| == 16 && |l| == 256
    requires forall i :: 0 <= i < 16 ==> base[i] == 3840 + 16 * i
    requires forall k :: 0 <= k < 256 ==> a[3840 + k] == l[k]
    ensures Holds(a, base, l)
  {
    forall i, t | 0 <= i < 16 && 0 <= t < 16 ensures Cell(a, base, i, t) == Item(l, i, t) {
      assert a[3840 + (16 * i + t)] == l[16 * i + t];
    }
  }

  lemma HoldsParts(a: seq<int>, base: seq<int>, l: seq<int>)
    requires Holds(a, base, l)
    ensures |a| == 4096 && |l| == 256 && |base| == 16 && Laid(base)
    ensures forall i :: 0 <= i < 16 ==> 0 <= base[i] <= 4080
  {
  }

  lemma HoldsAt(a: seq<int>, base: seq<int>, l: seq<int>, c: int, off: int)
    requires Holds(a, base, l) && 0 <= c < 16 && 0 <= off < 16
    ensures |l| == 256 && 0 <= base[c] + off < 4096 && a[base[c] + off] == l[16 * c + off]
    ensures ShiftingOne(a, base, l, c, off, off)
  {
    assert Cell(a, base, c, off) == Item(l, c, off);
  }

  lemma SlidingIs(base: seq<int>, base0: seq<int>, lno: int, c: int)
    requires Sliding(base, base0, lno, c)
    ensures |base| == 16 && 0 <= c <= lno < 16
    ensures c > 0 ==> 0 <= base[c] - 1 < 4096 && 0 <= base[c - 1] && base[c - 1] + 15 < 4096
    ensures c == 0 ==> 0 <= base[0] - 1 < 4096
  {
    if c > 0 { SlidingApart(base, base0, lno, c, c - 1, c); }
  }

  class TwoLevelList {
    const mtfa: array<int>
    const mtfbase: array<int>
    ghost var list: seq<int>

    ghost predicate Valid()
      reads this, mtfa, mtfbase
    {
      mtfa != mtfbase && mtfa.Length == 4096 && mtfbase.Length == 16
      && Holds(mtfa[..], mtfbase[..], list) && mtfbase[0] > 0
    }

    constructor ()
      ensures Valid() && fresh(mtfa) && fresh(mtfbase)
      ensures list == Identity(256)
    {
      var a, b := new int[4096], new int[16];
      mtfa, mtfbase := a, b;
      new;
      Init();
    }

    /** MTF init: the identity list at the top of the arena. */
    method Init()
      requires mtfa != mtfbase && mtfa.Length == 4096 && mtfbase.Length == 16
      modifies this, mtfa, mtfbase
      ensures Valid() && list == Identity(256)
    {
      list := Identity(256);
      var kk := 4095;
      var ii := 15;
      while ii >= 0
        invariant -1 <= ii < 16 && kk == 3839 + 16 * (ii + 1)
        invariant forall q :: 3840 + 16 * (ii + 1) <= q < 4096 ==> mtfa[q] == q - 3840
        invariant forall i :: ii < i < 16 ==> mtfbase[i] == 3840 + 16 * i
        invariant list == Identity(256)
      {
        var jj := 15;
        while jj >= 0
          invariant -1 <= jj < 16 && kk == 3839 + 16 * ii + jj + 1
          invariant forall q :: 3840 + 16 * ii + jj < q < 4096 ==> mtfa[q] == q - 3840
          invariant forall i :: ii < i < 16 ==> mtfbase[i] == 3840 + 16 * i
          invariant list == Identity(256)
        {
          mtfa[kk] := ii * 16 + jj;
          kk := kk - 1;
          jj := jj - 1;
        }
        mtfbase[ii] := kk + 1;
        ii := ii - 1;
      }
      InitCell(mtfa[..], mtfbase[..], list);
    }

    /** Shift entries of list c up to place off, from the bottom of the list. */
    method ShiftUp(c: int, off: int)
      requires mtfa != mtfbase && mtfa.Length == 4096 && mtfbase.Length == 16
      requires 0 <= c < 16 && 0 <= off < 16 && ShiftingOne(mtfa[..], mtfbase[..], list, c, off, off)
      modifies mtfa
      ensures ShiftingOne(mtfa[..], mtfbase[..], list, c, off, 0)
    {
      hide *;
      ghost var base := mtfbase[..];
      var p := off;
      while p > 0
        invariant 0 <= p <= off && mtfbase[..] == base && ShiftingOne(mtfa[..], base, list, c, off, p)
      {
        ghost var a := mtfa[..];
        ShiftOne(a, base, list, c, off, p);
        var pp := mtfbase[c] + p;
        mtfa[pp] := mtfa[pp - 1];
        assert mtfa[..] == a[base[c] + p := a[base[c] + p - 1]];
        p := p - 1;
      }
    }

    /** The same, four entries at a time while more than three are left. */
    method ShiftUpUnrolled(n: int)
      requires mtfa != mtfbase && mtfa.Length == 4096 && mtfbase.Length == 16
      requires 0 <= n < 16 && ShiftingOne(mtfa[..], mtfbase[..], list, 0, n, n)
      modifies mtfa
      ensures ShiftingOne(mtfa[..], mtfbase[..], list, 0, n, 0)
    {
      hide *;
      ghost var base := mtfbase[..];
      var nn, pp := n, mtfbase[0];
      while nn > 3
        invariant 0 <= nn <= n && mtfbase[..] == base && ShiftingOne(mtfa[..], base, list, 0, n, nn)
      {
        var z := pp + nn;
        ghost var a := mtfa[..];
        ShiftOne(a, base, list, 0, n, nn);
        mtfa[z] := mtfa[z - 1];
        assert mtfa[..] == a[base[0] + nn := a[base[0] + nn - 1]];
        ghost var b := mtfa[..];
        ShiftOne(b, base, list, 0, n, nn - 1);
        mtfa[z - 1] := mtfa[z - 2];
        assert mtfa[..] == b[base[0] + (nn - 1) := b[base[0] + (nn - 1) - 1]];
        ghost var c := mtfa[..];
        ShiftOne(c, base, list, 0, n, nn - 2);
        mtfa[z - 2] := mtfa[z - 3];
        assert mtfa[..] == c[base[0] + (nn - 2) := c[base[0] + (nn - 2) - 1]];
        ghost var d := mtfa[..];
        ShiftOne(d, base, list, 0, n, nn - 3);
        mtfa[z - 3] := mtfa[z - 4];
        assert mtfa[..] == d[base[0] + (nn - 3) := d[base[0] + (nn - 3) - 1]];
        nn := nn - 4;
      }
      while nn > 0
        invariant 0 <= nn <= n && mtfbase[..] == base && ShiftingOne(mtfa[..], base, list, 0, n, nn)
      {
        ghost var a := mtfa[..];
        ShiftOne(a, base, list, 0, n, nn);
        mtfa[pp + nn] := mtfa[pp + nn - 1];
        assert mtfa[..] == a[base[0] + nn := a[base[0] + nn - 1]];
        nn := nn - 1;
      }
    }

    /** Move all lists to the top of the arena, in place. */
    method Lift()
      requires mtfa != mtfbase && mtfa.Length == 4096 && mtfbase.Length == 16
      requires Holds(mtfa[..], mtfbase[..], list)
      modifies mtfa, mtfbase
      ensures Holds(mtfa[..], mtfbase[..], list) && mtfbase[0] == 3840
    {
      hide *;
      ghost var base0 := mtfbase[..];
      LiftStart(mtfa[..], base0, list);
      var kk, ii := 4095, 15;
      while ii >= 0
        invariant -1 <= ii < 16 && kk == 3839 + 16 * (ii + 1)
        invariant Lifting(mtfa[..], mtfbase[..], base0, list, ii, 15)
      {
        ghost var base := mtfbase[..];
        var jj := 15;
        while jj >= 0
          invariant -1 <= jj < 16 && kk == 3840 + 16 * ii + jj && mtfbase[..] == base
          invariant Lifting(mtfa[..], base, base0, list, ii, jj)
        {
          ghost var a := mtfa[..];
          LiftStep(a, base, base0, list, ii, jj);
          mtfa[kk] := mtfa[mtfbase[ii] + jj];
          assert mtfa[..] == a[3840 + 16 * ii + jj := a[base[ii] + jj]];
          kk := kk - 1;
          jj := jj - 1;
        }
        LiftNext(mtfa[..], base, base0, list, ii);
        mtfbase[ii] := kk + 1;
        assert mtfbase[..] == base[ii := 3840 + 16 * ii];
        ii := ii - 1;
      }
      LiftDone(mtfa[..], mtfbase[..], base0, list);
    }

    /** The front entry. */
    method First() returns (x: int)
      requires Valid()
      ensures |list| == 256 && x == list[0]
    {
      HoldsAt(mtfa[..], mtfbase[..], list, 0, 0);
      x := mtfa[mtfbase[0]];
    }

    /** Take entry nn and move it to the front: the whole structure acts as one plain list. */
    method Take(nn: nat) returns (uc: int)
      requires Valid() && nn < 256
      modifies this, mtfa, mtfbase
      ensures Valid() && |old(list)| == 256
      ensures uc == old(list)[nn] && list == ToFront(old(list), nn)
    {
      hide Holds, ShiftingOne, Sliding, Passing, Laid, Cell, Item, ToFront;
      ghost var l, base0 := list, mtfbase[..];
      HoldsParts(mtfa[..], base0, l);
      if nn < 16 {
        HoldsAt(mtfa[..], base0, l, 0, nn);
        var pp := mtfbase[0];
        uc := mtfa[pp + nn];
        ShiftUpUnrolled(nn);
        ghost var a := mtfa[..];
        FirstDone(a, base0, l, nn, uc);
        mtfa[pp] := uc;
        assert mtfa[..] == a[base0[0] := uc];
        list := ToFront(l, nn);
      } else {
        uc := TakeFar(nn);
      }
    }

    /** The general case: an entry beyond the first list. */
    method TakeFar(nn: nat) returns (uc: int)
      requires Valid() && 16 <= nn < 256
      modifies this, mtfa, mtfbase
      ensures Valid() && |old(list)| == 256
      ensures uc == old(list)[nn] && list == ToFront(old(list), nn)
    {
      hide Holds, ShiftingOne, Sliding, Passing, Laid, Cell, Item, ToFront;
      ghost var l, base0 := list, mtfbase[..];
      var lno, off := nn / 16, nn % 16;
      HoldsParts(mtfa[..], base0, l);
      HoldsAt(mtfa[..], base0, l, lno, off);
      uc := mtfa[mtfbase[lno] + off];
      ShiftUp(lno, off);
      PassStart(mtfa[..], base0, l, lno, off);
      mtfbase[lno] := mtfbase[lno] + 1;
      assert mtfbase[..] == base0[lno := base0[lno] + 1];
      PassDown(lno, base0, ToFront(l, nn));
      ghost var a, base := mtfa[..], mtfbase[..];
      SlidingIs(base, base0, lno, 0);
      mtfbase[0] := mtfbase[0] - 1;
      mtfa[mtfbase[0]] := uc;
      FrontIs(l, nn);
      assert mtfbase[..] == base[0 := base[0] - 1];
      assert mtfa[..] == a[mtfbase[0] := uc];
      PassEnd(a, base, base0, ToFront(l, nn), lno, mtfa[..], mtfbase[..]);
      list := ToFront(l, nn);
      if mtfbase[0] == 0 { Lift(); }
    }

    /** Hand the last entry of each list to the next list up. */
    method PassDown(lno: int, ghost base0: seq<int>, ghost m: seq<int>)
      requires mtfa != mtfbase && mtfa.Length == 4096 && mtfbase.Length == 16
      requires Sliding(mtfbase[..], base0, lno, lno) && Passing(mtfa[..], mtfbase[..], m, lno)
      modifies mtfa, mtfbase
      ensures Sliding(mtfbase[..], base0, lno, 0) && Passing(mtfa[..], mtfbase[..], m, 0)
    {
      hide *;
      var c := lno;
      SlidingIs(mtfbase[..], base0, lno, c);
      while c > 0
        invariant 0 <= c <= lno < 16
        invariant Sliding(mtfbase[..], base0, lno, c) && Passing(mtfa[..], mtfbase[..], m, c)
      {
        ghost var a, base := mtfa[..], mtfbase[..];
        SlidingIs(base, base0, lno, c);
        mtfbase[c] := mtfbase[c] - 1;
        mtfa[mtfbase[c]] := mtfa[mtfbase[c - 1] + 15];
        assert mtfbase[..] == base[c := base[c] - 1];
        assert mtfa[..] == a[base[c] - 1 := a[base[c - 1] + 15]];
        PassStep(a, base, base0, m, lno, c, mtfa[..], mtfbase[..]);
        c := c - 1;
      }
    }
  }

  lemma FrontIs(l: seq<int>, n: nat)
    requires n < |l|
    ensures ToFront(l, n)[0] == l[n]
  {
  }

  lemma LiftStart(a: seq<int>, base: seq<int>, l: seq<int>)
    requires Holds(a, base, l)
    ensures Lifting(a, base, base, l, 15, 15)
  {
  }

  // ----- decoding a symbol stream

  /** Ranks renamed to the bytes in use. */
  function Rename(out: seq<int>, seqToUnseq: seq<int>): (r: seq<int>)
    requires |seqToUnseq| == 256
    ensures |r| == |out|
  {
    seq(|out|, i requires 0 <= i < |out| => if 0 <= out[i] < 256 then seqToUnseq[out[i]] else 0)
  }

  /** tt holds the bytes so far and unzftab counts them. */
  ghost predicate Produced(tt: seq<int>, nblock: nat, unzftab: seq<int>, out: seq<int>, seqToUnseq: seq<int>) {
    && |seqToUnseq| == 256 && nblock == |out| <= |tt| && |unzftab| == 256
    && tt[..nblock] == Rename(out, seqToUnseq)
    && forall c :: 0 <= c < 256 ==> unzftab[c] == Occurs(Rename(out, seqToUnseq), |out|, c)
  }

  lemma ProduceOne(tt: seq<int>, nblock: nat, unzftab: seq<int>, out: seq<int>, seqToUnseq: seq<int>, x: int)
    requires Produced(tt, nblock, unzftab, out, seqToUnseq) && nblock < |tt| && 0 <= x < 256
    requires 0 <= seqToUnseq[x] < 256
    ensures |unzftab| == 256
    ensures var c := seqToUnseq[x];
            Produced(tt[nblock := c], nblock + 1, unzftab[c := unzftab[c] + 1], out + [x], seqToUnseq)
  {
    var c := seqToUnseq[x];
    var r, r' := Rename(out, seqToUnseq), Rename(out + [x], seqToUnseq);
    assert r' == r + [c];
    assert tt[nblock := c][..nblock + 1] == tt[..nblock] + [c];
    forall v | 0 <= v < 256 ensures Occurs(r', |r'|, v) == Occurs(r, |r|, v) + if v == c then 1 else 0 {
      assert r'[..|r|] == r[..|r|];
      OccursPrefix(r', r, |r|, v);
    }
  }

  /** Writing a run one byte at a time, with the whole run counted up front. */
  ghost predicate Filling(tt: seq<int>, nblock: nat, unzftab: seq<int>, out: seq<int>, seqToUnseq: seq<int>, uc: int,
                          es: int) {
    && 0 <= uc < 256 && |unzftab| == 256
    && Produced(tt, nblock, unzftab[uc := unzftab[uc] - es], out, seqToUnseq)
  }

  lemma FillOne(tt: seq<int>, nblock: nat, unzftab: seq<int>, out: seq<int>, seqToUnseq: seq<int>, x: int, es: int)
    requires |seqToUnseq| == 256 && 0 <= x < 256 && Filling(tt, nblock, unzftab, out, seqToUnseq, seqToUnseq[x], es)
    requires nblock < |tt|
    ensures Filling(tt[nblock := seqToUnseq[x]], nblock + 1, unzftab, out + [x], seqToUnseq, seqToUnseq[x], es - 1)
  {
    var uc := seqToUnseq[x];
    ProduceOne(tt, nblock, unzftab[uc := unzftab[uc] - es], out, seqToUnseq, x);
    assert unzftab[uc := unzftab[uc] - es][uc := unzftab[uc] - es + 1] == unzftab[uc := unzftab[uc] - (es - 1)];
  }

  lemma FillEnds(tt: seq<int>, nblock: nat, unzftab: seq<int>, out: seq<int>, seqToUnseq: seq<int>, uc: int, es: int)
    requires 0 <= uc < 256 && |unzftab| == 256
    ensures Produced(tt, nblock, unzftab, out, seqToUnseq) ==>
            Filling(tt, nblock, unzftab[uc := unzftab[uc] + es], out, seqToUnseq, uc, es)
    ensures Filling(tt, nblock, unzftab, out, seqToUnseq, uc, 0) ==> Produced(tt, nblock, unzftab, out, seqToUnseq)
  {
    assert unzftab[uc := unzftab[uc] + es][uc := unzftab[uc] + es - es] == unzftab;
    assert unzftab[uc := unzftab[uc] - 0] == unzftab;
  }

  /** The cells fit the 16-bit array of the small decoder. */
  ghost predicate Halfwords(a: seq<int>) {
    forall i :: 0 <= i < |a| ==> 0 <= a[i] < 0x10000
  }

  lemma HalfwordsKept(a: seq<int>, k: nat, c: int)
    requires k < |a| && 0 <= c < 256
    ensures Halfwords(a) ==> Halfwords(a[k := c])
  {
  }

  /** es copies of the front byte, or rejection if the block overflows. */
  method FillRun(tt: array<int>, nblock0: nat, unzftab0: seq<int>, es0: nat, limit: nat, seqToUnseq: seq<int>, x: int,
                 ghost out: seq<int>)
    returns (ok: bool, nblock: nat, unzftab: seq<int>)
    requires Produced(tt[..], nblock0, unzftab0, out, seqToUnseq) && limit <= tt.Length && nblock0 <= limit
    requires |seqToUnseq| == 256 && 0 <= x < 256 && 0 <= seqToUnseq[x] < 256 && |unzftab0| == 256
    modifies tt
    ensures ok <==> es0 == 0 || nblock0 + es0 <= limit
    ensures ok ==> nblock == nblock0 + es0 && Produced(tt[..], nblock, unzftab, out + Repeat(x, es0), seqToUnseq)
    ensures Halfwords(old(tt[..])) ==> Halfwords(tt[..])
  {
    hide *;
    var uc, es := seqToUnseq[x], es0;
    unzftab := unzftab0[uc := unzftab0[uc] + es];
    nblock := nblock0;
    FillEnds(tt[..], nblock, unzftab0, out, seqToUnseq, uc, es);
    ghost var made := out;
    assert out + Repeat(x, 0) == out;
    while es > 0
      invariant 0 <= es <= es0 && nblock == nblock0 + (es0 - es) && nblock <= limit
      invariant made == out + Repeat(x, es0 - es) && |unzftab| == 256
      invariant Filling(tt[..], nblock, unzftab, made, seqToUnseq, uc, es)
      invariant Halfwords(old(tt[..])) ==> Halfwords(tt[..])
    {
      if nblock >= limit { return false, nblock, unzftab; }
      ghost var t := tt[..];
      FillOne(t, nblock, unzftab, made, seqToUnseq, x, es);
      HalfwordsKept(t, nblock, uc);
      tt[nblock] := uc;
      assert tt[..] == t[nblock := uc];
      assert made + [x] == out + Repeat(x, es0 - (es - 1));
      made := made + [x];
      nblock := nblock + 1;
      es := es - 1;
    }
    FillEnds(tt[..], nblock, unzftab, made, seqToUnseq, uc, 0);
    ok := true;
  }

  ghost predicate ByteList(l: seq<int>) {
    |l| == 256 && forall k :: 0 <= k < 256 ==> 0 <= l[k] < 256
  }

  lemma ByteListFront(l: seq<int>, j: nat)
    requires ByteList(l) && j < 256
    ensures ByteList(ToFront(l, j)) && 0 <= l[j] < 256
  {
  }
}
