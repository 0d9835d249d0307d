/** The comparison of mainSort: rotations are compared character by character, with a cache of
    orders already known. */
module QuadrantOrder {
  import opened Rotations
  import opened Powers

  /** BZ_N_OVERSHOOT */
  const OVERSHOOT := 34

  /** A place of the extended arrays as a place of the block. */
  function Cyc(n: nat, e: int): (r: int)
    requires 0 <= e < 2 * n
    ensures 0 <= r < n
  {
    if e < n then e else e - n
  }

  /** An array that repeats its first entries after its end. */
  ghost predicate Overshoots(a: seq<int>, s: seq<int>) {
    |s| + OVERSHOOT <= |a| && |s| > OVERSHOOT && forall e :: 0 <= e < |s| + OVERSHOOT ==> a[e] == s[Cyc(|s|, e)]
  }

  /** Places with the same character and different entries are ordered as their entries are. */
  ghost predicate Cached(b: seq<int>, q: seq<int>) {
    |q| == |b| && forall i, j :: 0 <= i < |b| && 0 <= j < |b| && b[i] == b[j] && q[i] < q[j] ==>
      Compare(b, i, j, |b|) <= 0
  }

  /** m characters of rotations r1 and r2 agree; c1 and c2 are the places reached. */
  ghost predicate Agreed(b: seq<int>, r1: int, r2: int, m: nat, c1: int, c2: int) {
    && 0 <= r1 < |b| && 0 <= r2 < |b| && Compare(b, r1, r2, m) == 0
    && c1 == Rotations.Advance(|b|, r1, m) && c2 == Rotations.Advance(|b|, r2, m)
  }

  lemma AgreedStart(b: seq<int>, r1: int, r2: int)
    requires 0 <= r1 < |b| && 0 <= r2 < |b|
    ensures Agreed(b, r1, r2, 0, r1, r2)
  {
  }

  lemma {:induction false} AdvanceNext(n: nat, i: int, d: nat)
    requires 0 <= i < n
    ensures Rotations.Advance(n, i, d + 1) == Next(n, Rotations.Advance(n, i, d))
    decreases d
  {
    if d > 0 { AdvanceNext(n, Next(n, i), d - 1); }
  }

  lemma AgreedMore(b: seq<int>, r1: int, r2: int, m: nat, c1: int, c2: int)
    requires Agreed(b, r1, r2, m, c1, c2)
    ensures 0 <= c1 < |b| && 0 <= c2 < |b|
    ensures b[c1] == b[c2] ==> Agreed(b, r1, r2, m + 1, Next(|b|, c1), Next(|b|, c2))
  {
    hide Compare, Next, Rotations.Advance;
    AdvanceNext(|b|, r1, m);
    AdvanceNext(|b|, r2, m);
    EqualExtend(b, r1, r2, m);
  }

  /** Agreement on m characters makes the order that of the places reached. */
  lemma AgreedOrder(b: seq<int>, r1: int, r2: int, m: nat, c1: int, c2: int)
    requires Agreed(b, r1, r2, m, c1, c2)
    ensures 0 <= c1 < |b| && 0 <= c2 < |b|
    ensures Compare(b, c1, c2, |b|) <= 0 ==> Compare(b, r1, r2, |b|) <= 0
    ensures Compare(b, c1, c2, |b|) >= 0 ==> Compare(b, r1, r2, |b|) >= 0
  {
    hide Compare, Rotations.Advance;
    var n := |b|;
    if m >= n {
      CompareShorter(b, r1, r2, n, m);
    } else {
      CompareSplit(b, r1, r2, m, n - m);
      CompareFlip(b, c1, c2, n);
      CompareFlip(b, c1, c2, n - m);
      CompareShorter(b, c1, c2, n - m, n);
      CompareShorter(b, c2, c1, n - m, n);
    }
  }

  lemma FirstDiffers(b: seq<int>, c1: int, c2: int)
    requires 0 <= c1 < |b| && 0 <= c2 < |b|
    ensures b[c1] < b[c2] ==> Compare(b, c1, c2, |b|) <= 0
    ensures b[c1] > b[c2] ==> Compare(b, c1, c2, |b|) >= 0
  {
  }

  /** A decision by different characters. */
  lemma DecidedByBlock(b: seq<int>, r1: int, r2: int, m: nat, c1: int, c2: int)
    requires Agreed(b, r1, r2, m, c1, c2)
    ensures 0 <= c1 < |b| && 0 <= c2 < |b| && 0 <= r1 < |b| && 0 <= r2 < |b|
    ensures b[c1] < b[c2] ==> Compare(b, r1, r2, |b|) <= 0
    ensures b[c1] > b[c2] ==> Compare(b, r1, r2, |b|) >= 0
  {
    hide Compare;
    AgreedOrder(b, r1, r2, m, c1, c2);
    FirstDiffers(b, c1, c2);
  }

  /** A decision by the cache. */
  lemma DecidedByCache(b: seq<int>, q: seq<int>, r1: int, r2: int, m: nat, c1: int, c2: int)
    requires Agreed(b, r1, r2, m, c1, c2) && Cached(b, q)
    ensures 0 <= c1 < |b| && 0 <= c2 < |b| && |q| == |b| && 0 <= r1 < |b| && 0 <= r2 < |b|
    ensures b[c1] == b[c2] && q[c1] < q[c2] ==> Compare(b, r1, r2, |b|) <= 0
    ensures b[c1] == b[c2] && q[c1] > q[c2] ==> Compare(b, r1, r2, |b|) >= 0
  {
    hide Compare;
    AgreedOrder(b, r1, r2, m, c1, c2);
    CompareFlip(b, c1, c2, |b|);
  }

  lemma AgreedThroughout(b: seq<int>, r1: int, r2: int, m: nat, c1: int, c2: int)
    requires Agreed(b, r1, r2, m, c1, c2) && m >= |b|
    ensures Compare(b, r1, r2, |b|) == 0
  {
    CompareShorter(b, r1, r2, |b|, m);
  }

  lemma OvershootAt(a: seq<int>, s: seq<int>, e: int)
    requires Overshoots(a, s) && 0 <= e < |s| + OVERSHOOT
    ensures e < |a| && a[e] == s[Cyc(|s|, e)]
  {
  }

  lemma OvershootNext(n: nat, e: int)
    requires OVERSHOOT < n && 0 <= e < n + OVERSHOOT
    ensures Next(n, Cyc(n, e)) == Cyc(n, e + 1)
  {
  }

  /** What the answer of a comparison says. */
  ghost predicate Answers(gt: bool, b: seq<int>, r1: int, r2: int) {
    && 0 <= r1 < |b| && 0 <= r2 < |b|
    && if gt then Compare(b, r1, r2, |b|) >= 0 else Compare(b, r1, r2, |b|) <= 0
  }

  /** Two different rotations agree on their first twenty characters. */
  ghost predicate Repetitive(b: seq<int>) {
    exists x, y :: 0 <= x < |b| && 0 <= y < |b| && x != y && Compare(b, x, y, 20) == 0
  }

  lemma AgreeTwenty(b: seq<int>, x: int, y: int, m: nat)
    requires 0 <= x < |b| && 0 <= y < |b| && x != y && Compare(b, x, y, m) == 0 && m >= 20
    ensures Repetitive(b)
  {
    hide Compare;
    CompareShorter(b, x, y, 20, m);
  }

  lemma AgreedCompare(b: seq<int>, r1: int, r2: int, m: nat, c1: int, c2: int)
    requires Agreed(b, r1, r2, m, c1, c2)
    ensures 0 <= r1 < |b| && 0 <= r2 < |b| && Compare(b, r1, r2, m) == 0
  {
    hide Compare;
  }

  /** mainGtU: rotations may be equal, and then either answer is right. After twelve characters the
      budget pays for every eight that are equal. */
  method MainGtU(i1: nat, i2: nat, block: array<int>, quadrant: array<int>, nblock: nat, budget0: int,
                 ghost b: seq<int>)
    returns (gt: bool, budget: int)
    requires |b| == nblock && Overshoots(block[..], b) && i1 <= nblock + 14 && i2 <= nblock + 14
    requires nblock <= quadrant.Length && Overshoots(quadrant[..], quadrant[..nblock]) && Cached(b, quadrant[..nblock])
    ensures Answers(gt, b, Cyc(nblock, i1), Cyc(nblock, i2)) && budget <= budget0
    ensures budget < budget0 ==> Compare(b, Cyc(nblock, i1), Cyc(nblock, i2), 12 + 8 * (budget0 - budget)) == 0
  {
    hide Compare, Agreed, Overshoots, Cached, Next, Cyc;
    budget := budget0;
    OvershootSizes(block[..], b);
    OvershootSizes(quadrant[..], quadrant[..nblock]);
    ghost var q, r1, r2 := quadrant[..nblock], Cyc(nblock, i1), Cyc(nblock, i2);
    var j1: nat, j2: nat := i1, i2;
    var decided;
    AgreedStart(b, r1, r2);
    var t := 0;
    while t < 12
      invariant 0 <= t <= 12 && j1 == i1 + t && j2 == i2 + t && Agreed(b, r1, r2, t, Cyc(nblock, j1), Cyc(nblock, j2))
    {
      OvershootAt(block[..], b, j1);
      OvershootAt(block[..], b, j2);
      OvershootNext(nblock, j1);
      OvershootNext(nblock, j2);
      DecidedByBlock(b, r1, r2, t, Cyc(nblock, j1), Cyc(nblock, j2));
      AgreedMore(b, r1, r2, t, Cyc(nblock, j1), Cyc(nblock, j2));
      if block[j1] != block[j2] { return block[j1] > block[j2], budget; }
      j1, j2, t := j1 + 1, j2 + 1, t + 1;
    }
    var k := nblock + 8;
    while true
      invariant -8 < k <= nblock + 8 && t == 12 + (nblock + 8 - k) == 12 + 8 * (budget0 - budget)
      invariant j1 <= nblock + 26 && j2 <= nblock + 26 && Agreed(b, r1, r2, t, Cyc(nblock, j1), Cyc(nblock, j2))
      invariant k >= 0
      decreases k
    {
      ghost var j0, k0 := j1, j2;
      decided, gt, j1, j2 := EightWithCache(j1, j2, block, quadrant, nblock, b, r1, r2, t);
      if decided {
        AgreedCompare(b, r1, r2, t, Cyc(nblock, j0), Cyc(nblock, k0));
        return;
      }
      t := t + 8;
      WrapBack(nblock, j1);
      WrapBack(nblock, j2);
      if j1 >= nblock { j1 := j1 - nblock; }
      if j2 >= nblock { j2 := j2 - nblock; }
      k := k - 8;
      budget := budget - 1;
      if k < 0 { break; }
    }
    AgreedThroughout(b, r1, r2, t, Cyc(nblock, j1), Cyc(nblock, j2));
    AgreedCompare(b, r1, r2, t, Cyc(nblock, j1), Cyc(nblock, j2));
    gt := false;
  }

  lemma OvershootSizes(a: seq<int>, s: seq<int>)
    requires Overshoots(a, s)
    ensures OVERSHOOT < |s| && |s| + OVERSHOOT <= |a|
  {
  }

  lemma WrapBack(n: nat, e: int)
    requires OVERSHOOT < n && 0 <= e <= n + OVERSHOOT
    ensures e >= n ==> e - n <= OVERSHOOT && Cyc(n, e) == Cyc(n, e - n)
  {
  }

  /** Eight characters, each with its cache entry. */
  method EightWithCache(i1: nat, i2: nat, block: array<int>, quadrant: array<int>, nblock: nat, ghost b: seq<int>,
                        ghost r1: int, ghost r2: int, ghost m: nat)
    returns (decided: bool, gt: bool, j1: nat, j2: nat)
    requires |b| == nblock && Overshoots(block[..], b) && i1 <= nblock + 26 && i2 <= nblock + 26
    requires nblock <= quadrant.Length && Overshoots(quadrant[..], quadrant[..nblock]) && Cached(b, quadrant[..nblock])
    requires OVERSHOOT < nblock && Agreed(b, r1, r2, m, Cyc(nblock, i1), Cyc(nblock, i2))
    ensures decided ==> Answers(gt, b, r1, r2)
    ensures !decided ==> j1 == i1 + 8 && j2 == i2 + 8 && j1 < 2 * nblock && j2 < 2 * nblock
                         && Agreed(b, r1, r2, m + 8, Cyc(nblock, j1), Cyc(nblock, j2))
  {
    hide Compare, Agreed, Overshoots, Cached, Next, Cyc;
    OvershootSizes(block[..], b);
    OvershootSizes(quadrant[..], quadrant[..nblock]);
    ghost var q := quadrant[..nblock];
    decided, gt, j1, j2 := false, false, i1, i2;
    var t := 0;
    while t < 8
      invariant 0 <= t <= 8 && j1 == i1 + t && j2 == i2 + t && !decided
      invariant Agreed(b, r1, r2, m + t, Cyc(nblock, j1), Cyc(nblock, j2))
    {
      OvershootAt(block[..], b, j1);
      OvershootAt(block[..], b, j2);
      OvershootAt(quadrant[..], q, j1);
      OvershootAt(quadrant[..], q, j2);
      OvershootNext(nblock, j1);
      OvershootNext(nblock, j2);
      DecidedByBlock(b, r1, r2, m + t, Cyc(nblock, j1), Cyc(nblock, j2));
      DecidedByCache(b, q, r1, r2, m + t, Cyc(nblock, j1), Cyc(nblock, j2));
      AgreedMore(b, r1, r2, m + t, Cyc(nblock, j1), Cyc(nblock, j2));
      if block[j1] != block[j2] { return true, block[j1] > block[j2], j1, j2; }
      if quadrant[j1] != quadrant[j2] { return true, quadrant[j1] > quadrant[j2], j1, j2; }
      j1, j2, t := j1 + 1, j2 + 1, t + 1;
    }
  }

  // ----- the cache after a big bucket is sorted

  /** Entries start up to start + size list the rotations that begin with ss, in weak order. */
  ghost predicate SortedBucket(b: seq<int>, ptr: seq<int>, ss: int, start: nat, size: nat) {
    && start + size <= |ptr|
    && (forall j :: start <= j < start + size ==> 0 <= ptr[j] < |b| && b[ptr[j]] == ss)
    && (forall j, k :: start <= j < k < start + size ==> ptr[j] != ptr[k] && Compare(b, ptr[j], ptr[k], |b|) <= 0)
    && (forall i :: 0 <= i < |b| && b[i] == ss ==> exists j :: start <= j < start + size && ptr[j] == i)
  }

  /** The entries of places start + j and on of the bucket are set. */
  ghost predicate SetFrom(q: seq<int>, q0: seq<int>, b: seq<int>, ptr: seq<int>, ss: int, start: nat, size: nat,
                          j: int, unit: int) {
    && |q| == |q0| == |b| && unit > 0 && start + size <= |ptr| && 0 <= j <= size
    && (forall i :: 0 <= i < |b| && b[i] != ss ==> q[i] == q0[i])
    && (forall k :: start + j <= k < start + size ==> 0 <= ptr[k] < |b| && q[ptr[k]] == (k - start) / unit)
  }

  lemma SetOne(q: seq<int>, q0: seq<int>, b: seq<int>, ptr: seq<int>, ss: int, start: nat, size: nat, j: nat, unit: int)
    requires SortedBucket(b, ptr, ss, start, size) && SetFrom(q, q0, b, ptr, ss, start, size, j + 1, unit)
    ensures start + j < |ptr| && 0 <= ptr[start + j] < |q|
    ensures SetFrom(q[ptr[start + j] := j / unit], q0, b, ptr, ss, start, size, j, unit)
  {
  }

  lemma QuotientOrder(j: nat, k: nat, unit: int)
    requires unit > 0 && j / unit < k / unit
    ensures j < k
  {
    if k <= j { QuotientMonotone(k, j, unit); }
  }

  lemma QuotientMonotone(k: nat, j: nat, unit: int)
    requires unit > 0 && k <= j
    ensures 0 <= k / unit <= j / unit <= j
  {
    var a, c := k / unit, j / unit;
    Quotient(k, a, k % unit, unit);
    Quotient(j, c, j % unit, unit);
    if a > c { MulMonotone(c + 1, a, unit); TimesNext(c, unit); }
    MulMonotone(1, unit, c);
  }

  lemma Quotient(x: nat, q: int, r: int, unit: int)
    requires unit > 0 && q == x / unit && r == x % unit
    ensures x == q * unit + r && 0 <= r < unit && q >= 0
  {
  }

  lemma TimesNext(c: int, unit: int)
    ensures (c + 1) * unit == c * unit + unit
  {
  }

  /** With the whole bucket set, entries of equal characters are ordered as the rotations are. */
  lemma CachedAgain(q: seq<int>, q0: seq<int>, b: seq<int>, ptr: seq<int>, ss: int, start: nat, size: nat, unit: int)
    requires Cached(b, q0) && SortedBucket(b, ptr, ss, start, size) && SetFrom(q, q0, b, ptr, ss, start, size, 0, unit)
    ensures Cached(b, q)
  {
    hide Compare, SortedBucket;
    forall i, j | 0 <= i < |b| && 0 <= j < |b| && b[i] == b[j] && q[i] < q[j] ensures Compare(b, i, j, |b|) <= 0 {
      if b[i] == ss {
        var k := PlaceOf(b, ptr, ss, start, size, i);
        var m := PlaceOf(b, ptr, ss, start, size, j);
        QuotientOrder(k - start, m - start, unit);
        BucketOrder(b, ptr, ss, start, size, k, m);
      }
    }
  }

  lemma PlaceOf(b: seq<int>, ptr: seq<int>, ss: int, start: nat, size: nat, i: int) returns (k: nat)
    requires SortedBucket(b, ptr, ss, start, size) && 0 <= i < |b| && b[i] == ss
    ensures start <= k < start + size <= |ptr| && ptr[k] == i
  {
    hide Compare;
    k :| start <= k < start + size && ptr[k] == i;
  }

  lemma BucketOrder(b: seq<int>, ptr: seq<int>, ss: int, start: nat, size: nat, k: nat, m: nat)
    requires SortedBucket(b, ptr, ss, start, size) && start <= k < m < start + size
    ensures start + size <= |ptr| && 0 <= ptr[k] < |b| && 0 <= ptr[m] < |b| && Compare(b, ptr[k], ptr[m], |b|) <= 0
  {
    hide Compare;
  }

  ghost predicate Halfwords(q: seq<int>) {
    forall i :: 0 <= i < |q| ==> 0 <= q[i] <= 0xffff
  }

  /** One more shift halves at least. */
  lemma Halved(x: nat, unit: int)
    requires unit > 0
    ensures 0 <= 2 * (x / (2 * unit)) <= x / unit
  {
    var d, e := x / unit, x / (2 * unit);
    Quotient(x, d, x % unit, unit);
    Quotient(x, e, x % (2 * unit), 2 * unit);
    assert e * (2 * unit) == (2 * e) * unit;
    if 2 * e > d { MulMonotone(d + 1, 2 * e, unit); TimesNext(d, unit); }
  }

  lemma OvershootSet(a: seq<int>, s: seq<int>, i: nat, v: int)
    requires Overshoots(a, s) && i < |s|
    ensures i < |a| && (i < OVERSHOOT ==> i + |s| < |a|)
    ensures Overshoots(if i < OVERSHOOT then a[i := v][i + |s| := v] else a[i := v], s[i := v])
  {
  }

  /** The cache is brought up to date with a sorted big bucket, its copy behind the end too. */
  method UpdateQuadrants(ptr: array<int>, quadrant: array<int>, nblock: nat, bbStart: nat, bbSize: nat,
                         ghost b: seq<int>, ghost ss: int)
    requires ptr != quadrant && |b| == nblock <= quadrant.Length && bbSize <= 900000
    requires SortedBucket(b, ptr[..], ss, bbStart, bbSize)
    requires Overshoots(quadrant[..], quadrant[..nblock]) && Cached(b, quadrant[..nblock])
    modifies quadrant
    ensures Overshoots(quadrant[..], quadrant[..nblock]) && Cached(b, quadrant[..nblock])
    ensures forall i :: 0 <= i < nblock && b[i] != ss ==> quadrant[i] == old(quadrant[i])
    ensures Halfwords(old(quadrant[..])) ==> Halfwords(quadrant[..])
  {
    hide Compare, Cached, SortedBucket, Overshoots, SetFrom, Halfwords;
    ghost var q0, p := quadrant[..nblock], ptr[..];
    OvershootSizes(quadrant[..], q0);
    var unit := 1;
    while bbSize / unit > 65534
      invariant unit >= 1 && quadrant[..] == old(quadrant[..])
      decreases bbSize / unit
    {
      Halved(bbSize, unit);
      unit := 2 * unit;
    }
    var j := bbSize - 1;
    ghost var q := q0;
    SetNone(q0, b, p, ss, bbStart, bbSize, unit);
    while j >= 0
      invariant -1 <= j < bbSize && quadrant[..nblock] == q && Overshoots(quadrant[..], q)
      invariant SetFrom(q, q0, b, p, ss, bbStart, bbSize, j + 1, unit)
      invariant Halfwords(old(quadrant[..])) ==> Halfwords(quadrant[..])
    {
      SetOne(q, q0, b, p, ss, bbStart, bbSize, j, unit);
      var a2update := ptr[bbStart + j];
      var qVal := j / unit % 0x10000;
      QuotientMonotone(j, bbSize, unit);
      ghost var a := quadrant[..];
      OvershootSet(a, q, a2update, qVal);
      HalfwordsSet(a, a2update, qVal);
      quadrant[a2update] := qVal;
      assert quadrant[..] == a[a2update := qVal];
      if a2update < OVERSHOOT {
        HalfwordsSet(quadrant[..], a2update + nblock, qVal);
        quadrant[a2update + nblock] := qVal;
        assert quadrant[..] == a[a2update := qVal][a2update + nblock := qVal];
      }
      q := q[a2update := qVal];
      j := j - 1;
    }
    CachedAgain(q, q0, b, p, ss, bbStart, bbSize, unit);
    OthersKept(q, q0, b, p, ss, bbStart, bbSize, unit);
  }

  lemma SetNone(q: seq<int>, b: seq<int>, ptr: seq<int>, ss: int, start: nat, size: nat, unit: int)
    requires |q| == |b| && unit > 0 && SortedBucket(b, ptr, ss, start, size)
    ensures SetFrom(q, q, b, ptr, ss, start, size, size, unit)
  {
  }

  lemma OthersKept(q: seq<int>, q0: seq<int>, b: seq<int>, ptr: seq<int>, ss: int, start: nat, size: nat, unit: int)
    requires SetFrom(q, q0, b, ptr, ss, start, size, 0, unit)
    ensures |q| == |q0| == |b| && forall i :: 0 <= i < |b| && b[i] != ss ==> q[i] == q0[i]
  {
  }

  lemma HalfwordsSet(q: seq<int>, i: nat, v: int)
    requires i < |q| && 0 <= v <= 0xffff
    ensures Halfwords(q) ==> Halfwords(q[i := v])
  {
  }
}
