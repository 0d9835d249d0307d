/** Step 2 of mainSort: from one sorted big bucket ss, the order of all rotations whose second
    character is ss is copied, small bucket by small bucket, without comparing anything. */
module PointerScan {
  import opened Permutations
  import opened Rotations

  /** b: the block; cd: the first two characters of each rotation as a number; st: where the small
      buckets start; rk: ranks of the rotations; done: big buckets finished before; f0: the
      order when the scan starts. */
  datatype Job = Job(b: seq<int>, cd: seq<int>, st: seq<int>, rk: seq<int>, ss: int, done: seq<bool>, f0: seq<int>)

  /** The next free place of each small bucket from the left and from the right, and how far the
      two scans have come. */
  datatype Pos = Pos(cs: seq<int>, ce: seq<int>, j1: int, j2: int)

  ghost predicate Starts(st: seq<int>, n: nat) {
    |st| == 65537 && st[65536] == n && st[0] == 0 && forall k, m :: 0 <= k <= m <= 65536 ==> 0 <= st[k] <= st[m]
  }

  ghost predicate Coded(b: seq<int>, cd: seq<int>) {
    && |cd| == |b| && (forall i :: 0 <= i < |b| ==> 0 <= b[i] < 256)
    && forall i :: 0 <= i < |b| ==> cd[i] == b[i] * 256 + b[Next(|b|, i)]
  }

  /** Every rotation is in the small bucket of its first two characters. */
  ghost predicate InBuckets(cd: seq<int>, st: seq<int>, f: seq<int>) {
    && IsPermutation(f, |cd|) && |st| == 65537
    && forall x :: 0 <= x < |cd| ==> 0 <= cd[f[x]] < 65536 && st[cd[f[x]]] <= x < st[cd[f[x]] + 1]
  }

  /** Ranks follow the first two characters, and among rotations with the same first character
      those of the rotations one place on; equal rotations have equal ranks. */
  ghost predicate RankLaws(b: seq<int>, cd: seq<int>, rk: seq<int>) {
    && |rk| == |b| == |cd|
    && (forall i, j :: 0 <= i < |b| && 0 <= j < |b| && cd[i] < cd[j] ==> rk[i] <= rk[j])
    && (forall i, j :: 0 <= i < |b| && 0 <= j < |b| && b[i] == b[j] && rk[Next(|b|, i)] <= rk[Next(|b|, j)] ==>
      rk[i] <= rk[j])
    && (forall c :: Uniform(b, c) ==> forall i, j :: 0 <= i < |b| && 0 <= j < |b| ==> rk[i] == rk[j])
  }

  /** A block of one character: all rotations are equal. */
  ghost predicate Uniform(b: seq<int>, c: int) {
    forall i :: 0 <= i < |b| ==> b[i] == c
  }

  function Bb(s: Job): (r: int)
    requires |s.st| == 65537 && 0 <= s.ss < 256
  {
    s.st[s.ss * 256]
  }

  function Be(s: Job): (r: int)
    requires |s.st| == 65537 && 0 <= s.ss < 256
  {
    s.st[s.ss * 256 + 256]
  }

  function Lo(s: Job, c: int): (r: int)
    requires |s.st| == 65537 && 0 <= s.ss < 256 && 0 <= c < 256
  {
    s.st[c * 256 + s.ss]
  }

  function Hi(s: Job, c: int): (r: int)
    requires |s.st| == 65537 && 0 <= s.ss < 256 && 0 <= c < 256
  {
    s.st[c * 256 + s.ss + 1]
  }

  ghost predicate Good(s: Job) {
    && Starts(s.st, |s.b|) && Coded(s.b, s.cd) && InBuckets(s.cd, s.st, s.f0) && RankLaws(s.b, s.cd, s.rk)
    && 0 <= s.ss < 256 && |s.done| == 256 && !s.done[s.ss]
    && (forall x, y :: Bb(s) <= x < y < Be(s) && s.cd[s.f0[x]] != s.ss * 257 && s.cd[s.f0[y]] != s.ss * 257
                       ==> s.rk[s.f0[x]] <= s.rk[s.f0[y]])
  }

  /** The small bucket that place x belongs to. */
  function Bkt(s: Job, x: int): (k: int)
    requires 0 <= x < |s.f0| && 0 <= s.f0[x] < |s.cd|
  {
    s.cd[s.f0[x]]
  }

  /** Place x is to be filled by the scan. */
  predicate Active(s: Job, x: int)
    requires 0 <= x < |s.f0| && 0 <= s.f0[x] < |s.cd| && |s.done| == 256 && 0 <= Bkt(s, x) < 65536
  {
    Bkt(s, x) % 256 == s.ss && !s.done[Bkt(s, x) / 256]
  }

  ghost predicate PlacedL(s: Job, p: Pos, x: int)
    requires Good(s) && |p.cs| == 256
  {
    0 <= x < |s.b| && Active(s, x) && x < p.cs[Bkt(s, x) / 256]
  }

  ghost predicate PlacedR(s: Job, p: Pos, x: int)
    requires Good(s) && |p.ce| == 256
  {
    0 <= x < |s.b| && Active(s, x) && x > p.ce[Bkt(s, x) / 256]
  }

  /** Places of the big bucket ss whose rotations are known. */
  predicate Known(s: Job, p: Pos, t: int)
    requires |s.st| == 65537 && 0 <= s.ss < 256 && |p.cs| == |p.ce| == 256
  {
    Bb(s) <= t < p.cs[s.ss] || p.ce[s.ss] < t < Be(s)
  }

  ghost predicate Bounds(s: Job, p: Pos)
    requires Good(s)
  {
    && |p.cs| == |p.ce| == 256
    && (forall c :: 0 <= c < 256 ==> Lo(s, c) <= p.cs[c] <= p.ce[c] + 1 <= Hi(s, c))
    && (forall c :: 0 <= c < 256 && s.done[c] ==> p.cs[c] == Lo(s, c) && p.ce[c] + 1 == Hi(s, c))
    && Bb(s) <= p.j1 <= p.cs[s.ss] && p.ce[s.ss] <= p.j2 < Be(s)
  }

  /** Places hold rotations of their bucket, and those not reached yet what they held. */
  ghost predicate Kept(s: Job, f: seq<int>, p: Pos)
    requires Good(s) && |p.cs| == |p.ce| == 256
  {
    && |f| == |s.b|
    && (forall x :: 0 <= x < |s.b| ==> 0 <= f[x] < |s.b| && s.cd[f[x]] == Bkt(s, x))
    && (forall x :: 0 <= x < |s.b| && !PlacedL(s, p, x) && !PlacedR(s, p, x) ==> f[x] == s.f0[x])
  }

  /** The rotations one place on from those placed have been scanned. */
  ghost predicate Succ(s: Job, f: seq<int>, p: Pos)
    requires Good(s) && |p.cs| == |p.ce| == 256 && Kept(s, f, p)
  {
    && (forall x :: PlacedL(s, p, x) ==> exists t :: Bb(s) <= t < p.j1 && t < |f| && f[t] == Next(|s.b|, f[x]))
    && (forall x :: PlacedR(s, p, x) ==> exists t :: p.j2 < t < Be(s) && 0 <= t < |f| && f[t] == Next(|s.b|, f[x]))
  }

  predicate Scanned(s: Job, p: Pos, t: int)
    requires |s.st| == 65537 && 0 <= s.ss < 256
  {
    Bb(s) <= t < p.j1 || p.j2 < t < Be(s)
  }

  ghost predicate IsPlaced(s: Job, f: seq<int>, p: Pos, k: int)
    requires Good(s) && |p.cs| == |p.ce| == 256
  {
    exists x :: 0 <= x < |f| && (PlacedL(s, p, x) || PlacedR(s, p, x)) && f[x] == k
  }

  /** For every rotation scanned, the one before it is placed, if its bucket is not finished. */
  ghost predicate Told(s: Job, f: seq<int>, p: Pos)
    requires Good(s) && |p.cs| == |p.ce| == 256 && Kept(s, f, p)
  {
    forall t :: 0 <= t < |f| && Scanned(s, p, t) && !s.done[s.b[Prev(|s.b|, f[t])]] ==>
      IsPlaced(s, f, p, Prev(|s.b|, f[t]))
  }

  ghost predicate Distinct(s: Job, f: seq<int>, p: Pos)
    requires Good(s) && |p.cs| == |p.ce| == 256
  {
    forall x, y ::
      0 <= x < y < |f| && (PlacedL(s, p, x) || PlacedR(s, p, x)) && (PlacedL(s, p, y) || PlacedR(s, p, y)) ==>
        f[x] != f[y]
  }

  ghost predicate Ascending(s: Job, f: seq<int>, p: Pos)
    requires Good(s) && |p.cs| == |p.ce| == 256 && Kept(s, f, p)
  {
    forall x, y ::
      (&& 0 <= x < y < |f| && (PlacedL(s, p, x) || PlacedR(s, p, x)) && (PlacedL(s, p, y) || PlacedR(s, p, y))
       && Bkt(s, x) == Bkt(s, y)) ==>
        s.rk[f[x]] <= s.rk[f[y]]
  }

  ghost predicate Inv(s: Job, f: seq<int>, p: Pos) {
    && Good(s) && Bounds(s, p) && Kept(s, f, p) && Succ(s, f, p) && Told(s, f, p) && Distinct(s, f, p)
    && Ascending(s, f, p)
  }

  // ----- what the predicates say of one place

  lemma GoodAt(s: Job, x: int)
    requires Good(s) && 0 <= x < |s.b|
    ensures |s.f0| == |s.cd| == |s.b| == |s.rk| && |s.st| == 65537 && 0 <= s.f0[x] < |s.b|
    ensures 0 <= Bkt(s, x) < 65536 && s.st[Bkt(s, x)] <= x < s.st[Bkt(s, x) + 1]
  {
    hide Starts, Coded, RankLaws;
    GoodShape(s);
  }

  lemma GoodShape(s: Job)
    requires Good(s)
    ensures |s.f0| == |s.cd| == |s.b| == |s.rk| && |s.st| == 65537 && 0 <= s.ss < 256 && |s.done| == 256
    ensures !s.done[s.ss]
  {
    hide Starts, Coded;
  }

  lemma StartsAt(s: Job, k: int, m: int)
    requires Good(s) && 0 <= k <= m <= 65536
    ensures |s.st| == 65537 && 0 <= s.st[k] <= s.st[m] <= |s.b|
  {
    hide Coded, RankLaws, InBuckets;
  }

  lemma BktUnique(s: Job, x: int, k: int)
    requires Good(s) && 0 <= k < 65536 && s.st[k] <= x < s.st[k + 1]
    ensures 0 <= x < |s.b| && |s.f0| == |s.b| == |s.cd| && 0 <= s.f0[x] < |s.b| && Bkt(s, x) == k
  {
    hide Good;
    StartsAt(s, k, k + 1);
    GoodAt(s, x);
    var m := Bkt(s, x);
    if k < m { StartsAt(s, k + 1, m); }
    if m < k { StartsAt(s, m + 1, k); }
  }

  lemma BktOrder(s: Job, x: int, y: int)
    requires Good(s) && 0 <= x < y < |s.b|
    ensures |s.f0| == |s.b| == |s.cd| && 0 <= s.f0[x] < |s.b| && 0 <= s.f0[y] < |s.b| && Bkt(s, x) <= Bkt(s, y)
  {
    hide Good;
    GoodAt(s, x);
    GoodAt(s, y);
    if Bkt(s, y) < Bkt(s, x) { StartsAt(s, Bkt(s, y) + 1, Bkt(s, x)); }
  }

  lemma CodeParts(s: Job, i: int)
    requires Good(s) && 0 <= i < |s.b|
    ensures |s.cd| == |s.b| && 0 <= s.b[i] < 256 && 0 <= s.b[Next(|s.b|, i)] < 256
    ensures s.cd[i] == s.b[i] * 256 + s.b[Next(|s.b|, i)]
    ensures s.cd[i] / 256 == s.b[i] && s.cd[i] % 256 == s.b[Next(|s.b|, i)]
  {
    hide Starts, RankLaws, InBuckets;
  }

  lemma KeptAt(s: Job, f: seq<int>, p: Pos, x: int)
    requires Good(s) && |p.cs| == |p.ce| == 256 && Kept(s, f, p) && 0 <= x < |s.b|
    ensures |f| == |s.b| == |s.cd| == |s.f0| && 0 <= f[x] < |s.b| && 0 <= s.f0[x] < |s.b| && s.cd[f[x]] == Bkt(s, x)
    ensures !PlacedL(s, p, x) && !PlacedR(s, p, x) ==> f[x] == s.f0[x]
  {
    hide Good;
    GoodAt(s, x);
  }

  ghost predicate Placed(s: Job, p: Pos, x: int)
    requires Good(s) && |p.cs| == |p.ce| == 256
  {
    PlacedL(s, p, x) || PlacedR(s, p, x)
  }

  lemma BoundsAt(s: Job, p: Pos, c: int)
    requires Good(s) && Bounds(s, p) && 0 <= c < 256
    ensures |p.cs| == |p.ce| == 256 && |s.st| == 65537 && 0 <= s.ss < 256 && |s.done| == 256
    ensures Lo(s, c) <= p.cs[c] <= p.ce[c] + 1 <= Hi(s, c)
    ensures s.done[c] ==> p.cs[c] == Lo(s, c) && p.ce[c] + 1 == Hi(s, c)
    ensures 0 <= Bb(s) <= p.j1 <= p.cs[s.ss] && p.ce[s.ss] <= p.j2 < Be(s) <= |s.b|
    ensures Bb(s) <= Lo(s, s.ss) && Hi(s, s.ss) <= Be(s)
  {
    hide Good;
    GoodShape(s);
    StartsAt(s, s.ss * 256, s.ss * 256 + s.ss);
    StartsAt(s, s.ss * 256 + s.ss + 1, s.ss * 256 + 256);
  }

  /** A known place holds a rotation that starts with ss. */
  lemma KnownHead(s: Job, f: seq<int>, p: Pos, t: int)
    requires Good(s) && Bounds(s, p) && Kept(s, f, p) && Known(s, p, t)
    ensures 0 <= t < |s.b| == |f| == |s.f0| == |s.cd| && 0 <= f[t] < |s.b| && 0 <= s.f0[t] < |s.b| && s.b[f[t]] == s.ss
    ensures s.ss * 256 <= Bkt(s, t) < s.ss * 256 + 256
  {
    hide Good, Bounds, Kept;
    GoodShape(s);
    BoundsAt(s, p, s.ss);
    GoodAt(s, t);
    KeptAt(s, f, p, t);
    var k := Bkt(s, t);
    if k < s.ss * 256 { StartsAt(s, k + 1, s.ss * 256); }
    if k >= s.ss * 256 + 256 { StartsAt(s, s.ss * 256 + 256, k); }
    CodeParts(s, f[t]);
  }

  /** A known place outside the small bucket of ss twice is as it was; inside, it has been filled. */
  lemma KnownKind(s: Job, f: seq<int>, p: Pos, t: int)
    requires Good(s) && Bounds(s, p) && Kept(s, f, p) && Known(s, p, t)
    ensures 0 <= t < |s.b| == |f| == |s.f0| == |s.cd| && 0 <= s.f0[t] < |s.cd|
    ensures Bkt(s, t) == s.ss * 257 ==> Placed(s, p, t)
    ensures Bkt(s, t) != s.ss * 257 ==> f[t] == s.f0[t]
  {
    hide Good, Bounds, Kept;
    GoodShape(s);
    BoundsAt(s, p, s.ss);
    KnownHead(s, f, p, t);
    KeptAt(s, f, p, t);
    GoodAt(s, t);
    BucketParts(s.ss, Bkt(s, t));
  }

  lemma BucketParts(ss: int, k: int)
    requires 0 <= ss < 256
    ensures (ss * 257) % 256 == ss && (ss * 257) / 256 == ss
    ensures ss * 256 <= k < ss * 256 + 256 && k % 256 == ss ==> k == ss * 257
  {
  }

  lemma SortedBefore(s: Job, x: int, y: int)
    requires Good(s) && Bb(s) <= x < y < Be(s) && 0 <= x && y < |s.b|
    ensures |s.f0| == |s.b| == |s.cd| == |s.rk| && 0 <= s.f0[x] < |s.b| && 0 <= s.f0[y] < |s.b|
    ensures Bkt(s, x) != s.ss * 257 && Bkt(s, y) != s.ss * 257 ==> s.rk[s.f0[x]] <= s.rk[s.f0[y]]
    ensures s.f0[x] != s.f0[y]
  {
    hide Starts;
  }

  lemma CodeLaw(s: Job, i: int, j: int)
    requires Good(s) && 0 <= i < |s.b| && 0 <= j < |s.b|
    ensures |s.cd| == |s.rk| == |s.b| && (s.cd[i] < s.cd[j] ==> s.rk[i] <= s.rk[j])
    ensures s.b[i] == s.b[j] && s.rk[Next(|s.b|, i)] <= s.rk[Next(|s.b|, j)] ==> s.rk[i] <= s.rk[j]
  {
    hide Starts, Coded, InBuckets;
  }

  lemma InvParts(s: Job, f: seq<int>, p: Pos)
    requires Inv(s, f, p)
    ensures Good(s) && Bounds(s, p) && |p.cs| == |p.ce| == 256 && Kept(s, f, p) && Succ(s, f, p) && Told(s, f, p)
    ensures Distinct(s, f, p) && Ascending(s, f, p)
  {
    hide Good, Kept, Succ, Told, Distinct, Ascending;
  }

  lemma PlacedPair(s: Job, f: seq<int>, p: Pos, x: int, y: int)
    requires Good(s) && |p.cs| == |p.ce| == 256 && Kept(s, f, p) && Distinct(s, f, p) && Ascending(s, f, p)
    requires 0 <= x < y < |s.b| && Placed(s, p, x) && Placed(s, p, y)
    ensures |f| == |s.b| == |s.f0| == |s.cd| == |s.rk| && 0 <= f[x] < |s.b| && 0 <= f[y] < |s.b| && f[x] != f[y]
    ensures 0 <= s.f0[x] < |s.cd| && 0 <= s.f0[y] < |s.cd| && (Bkt(s, x) == Bkt(s, y) ==> s.rk[f[x]] <= s.rk[f[y]])
  {
    hide Good;
    GoodAt(s, x);
    GoodAt(s, y);
  }

  /** The known places hold different rotations, in order. */
  lemma KnownPair(s: Job, f: seq<int>, p: Pos, x: int, y: int)
    requires Inv(s, f, p) && Known(s, p, x) && Known(s, p, y) && x < y
    ensures 0 <= x < y < |s.b| == |f| == |s.rk| && 0 <= f[x] < |s.b| && 0 <= f[y] < |s.b| && f[x] != f[y]
    ensures s.rk[f[x]] <= s.rk[f[y]]
  {
    hide Good, Bounds, Kept, Succ, Told, Distinct, Ascending, Placed, Inv, Known;
    InvParts(s, f, p);
    KnownHead(s, f, p, x);
    KnownHead(s, f, p, y);
    KnownKind(s, f, p, x);
    KnownKind(s, f, p, y);
    KeptAt(s, f, p, x);
    KeptAt(s, f, p, y);
    BktOrder(s, x, y);
    GoodShape(s);
    CodeLaw(s, f[x], f[y]);
    if Bkt(s, x) == Bkt(s, y) {
      if Bkt(s, x) == s.ss * 257 {
        PlacedPair(s, f, p, x, y);
      } else {
        KnownRange(s, p, x);
        KnownRange(s, p, y);
        SortedBefore(s, x, y);
      }
    }
  }

  lemma KnownRange(s: Job, p: Pos, t: int)
    requires Good(s) && Bounds(s, p) && |p.cs| == |p.ce| == 256 && |s.st| == 65537 && 0 <= s.ss < 256 && Known(s, p, t)
    ensures Bb(s) <= t < Be(s) && 0 <= t < |s.b|
  {
    hide Good, Bounds;
    BoundsAt(s, p, s.ss);
  }

  // ----- the rotation before a scanned one

  lemma ScannedKnown(s: Job, p: Pos, t: int)
    requires Good(s) && Bounds(s, p) && |s.st| == 65537 && 0 <= s.ss < 256 && Scanned(s, p, t)
    ensures |p.cs| == |p.ce| == 256 && Known(s, p, t)
  {
    hide Good;
  }

  lemma SuccAt(s: Job, f: seq<int>, p: Pos, x: int) returns (t: int)
    requires Good(s) && |p.cs| == |p.ce| == 256 && Kept(s, f, p) && Succ(s, f, p) && Placed(s, p, x)
    ensures 0 <= x < |s.b| == |f| && 0 <= f[x] < |s.b| && |s.st| == 65537 && 0 <= s.ss < 256 && 0 <= t < |f|
    ensures f[t] == Next(|s.b|, f[x]) && Scanned(s, p, t)
    ensures PlacedL(s, p, x) ==> Bb(s) <= t < p.j1
    ensures !PlacedL(s, p, x) ==> p.j2 < t < Be(s)
  {
    hide Good, Kept;
    GoodShape(s);
    KeptAt(s, f, p, x);
    StartsAt(s, 0, s.ss * 256);
    if PlacedL(s, p, x) {
      t :| Bb(s) <= t < p.j1 && t < |f| && f[t] == Next(|s.b|, f[x]);
    } else {
      t :| p.j2 < t < Be(s) && 0 <= t < |f| && f[t] == Next(|s.b|, f[x]);
    }
  }

  /** The rotation before a known one that is not scanned yet has not been placed. */
  lemma NotYetPlaced(s: Job, f: seq<int>, p: Pos, t: int)
    requires Inv(s, f, p) && Known(s, p, t) && !Scanned(s, p, t)
    ensures 0 <= t < |s.b| == |f| && 0 <= f[t] < |s.b| && !IsPlaced(s, f, p, Prev(|s.b|, f[t]))
  {
    hide Good, Bounds, Kept, Succ, Told, Distinct, Ascending, Placed, Inv, Known, Scanned;
    InvParts(s, f, p);
    KnownHead(s, f, p, t);
    var k := Prev(|s.b|, f[t]);
    if IsPlaced(s, f, p, k) {
      var x := PlacedWhere(s, f, p, k);
      var u := SuccAt(s, f, p, x);
      ScannedKnown(s, p, u);
      assert f[u] == f[t];
      if u < t { KnownPair(s, f, p, u, t); }
      if t < u { KnownPair(s, f, p, t, u); }
      assert false;
    }
  }

  lemma PlacedWhere(s: Job, f: seq<int>, p: Pos, k: int) returns (x: int)
    requires Good(s) && |p.cs| == |p.ce| == 256 && IsPlaced(s, f, p, k)
    ensures 0 <= x < |f| && Placed(s, p, x) && f[x] == k
  {
    x :| 0 <= x < |f| && (PlacedL(s, p, x) || PlacedR(s, p, x)) && f[x] == k;
  }

  /** Every rotation with these two characters was in the bucket. */
  lemma InList(s: Job, k: int, q: int)
    requires Good(s) && 0 <= k < |s.b| && |s.cd| == |s.b| && 0 <= q < 65536 && s.cd[k] == q
    ensures |s.st| == 65537 && 0 <= s.st[q] <= s.st[q + 1] <= |s.f0| && k in s.f0[s.st[q]..s.st[q + 1]]
  {
    GoodPermutation(s);
    hide Good;
    GoodShape(s);
    StartsAt(s, q, q + 1);
    var x := Position(s.f0, |s.b|, k);
    GoodAt(s, x);
    assert s.f0[s.st[q]..s.st[q + 1]][x - s.st[q]] == k;
  }

  lemma GoodPermutation(s: Job)
    requires Good(s)
    ensures IsPermutation(s.f0, |s.b|)
  {
    hide Starts, RankLaws;
  }

  lemma BucketDistinct(s: Job, q: int)
    requires Good(s) && 0 <= q < 65536
    ensures |s.st| == 65537 && 0 <= s.st[q] <= s.st[q + 1] <= |s.f0|
    ensures var l := s.f0[s.st[q]..s.st[q + 1]]; forall i, j :: 0 <= i < j < |l| ==> l[i] != l[j]
  {
    GoodPermutation(s);
    hide Good;
    GoodShape(s);
    StartsAt(s, q, q + 1);
  }

  lemma PlaceInBucket(s: Job, p: Pos, c: int, x: int)
    requires Good(s) && Bounds(s, p) && 0 <= c < 256 && !Finished(s, c) && |s.st| == 65537 && 0 <= s.ss < 256
    requires Lo(s, c) <= x < Hi(s, c)
    ensures 0 <= x < |s.b| == |s.f0| == |s.cd| && 0 <= s.f0[x] < |s.b| && Bkt(s, x) == c * 256 + s.ss
    ensures |p.cs| == |p.ce| == 256
    ensures PlacedL(s, p, x) <==> x < p.cs[c]
    ensures PlacedR(s, p, x) <==> x > p.ce[c]
  {
    hide Good;
    GoodShape(s);
    BktUnique(s, x, c * 256 + s.ss);
    assert (c * 256 + s.ss) / 256 == c && (c * 256 + s.ss) % 256 == s.ss;
  }

  predicate Finished(s: Job, c: int) {
    |s.done| == 256 && 0 <= c < 256 && s.done[c]
  }

  /** Whatever the state, the places of a bucket hold rotations of that bucket. */
  lemma StaysInList(s: Job, f: seq<int>, p: Pos, q: int, x: int)
    requires Good(s) && |p.cs| == |p.ce| == 256 && Kept(s, f, p) && 0 <= q < 65536 && s.st[q] <= x < s.st[q + 1]
    ensures |s.st| == 65537 && 0 <= s.st[q] <= s.st[q + 1] <= |s.f0| && 0 <= x < |f|
    ensures f[x] in s.f0[s.st[q]..s.st[q + 1]]
  {
    hide Good, Kept;
    BktUnique(s, x, q);
    KeptAt(s, f, p, x);
    InList(s, f[x], q);
  }

  /** A bucket filled from both sides is full of different rotations. */
  lemma FullDistinct(s: Job, f: seq<int>, p: Pos, c: int, x: int, y: int)
    requires Good(s) && Bounds(s, p) && |p.cs| == |p.ce| == 256 && Kept(s, f, p) && Distinct(s, f, p)
    requires Ascending(s, f, p)
    requires 0 <= c < 256 && !Finished(s, c) && p.cs[c] > p.ce[c] && |s.st| == 65537 && 0 <= s.ss < 256
    requires Lo(s, c) <= x < Hi(s, c) && Lo(s, c) <= y < Hi(s, c)
    ensures 0 <= x < |s.b| == |f| && 0 <= y < |s.b| && Placed(s, p, x) && Placed(s, p, y)
    ensures x < y ==> f[x] != f[y]
  {
    hide Good, Bounds, Kept, Distinct, Ascending, PlacedL, PlacedR;
    PlaceInBucket(s, p, c, x);
    PlaceInBucket(s, p, c, y);
    KeptLength(s, f, p);
    if x < y { PlacedPair(s, f, p, x, y); }
  }

  /** While a rotation of the bucket is missing, there is a free place. */
  lemma Room(s: Job, f: seq<int>, p: Pos, c: int, k: int)
    requires Inv(s, f, p) && 0 <= c < 256 && 0 <= k < |s.b| && !Finished(s, c) && |s.cd| == |s.b|
    requires s.cd[k] == c * 256 + s.ss
    requires !IsPlaced(s, f, p, k)
    ensures |p.cs| == |p.ce| == 256 && p.cs[c] <= p.ce[c]
  {
    hide Good, Bounds, Kept, Succ, Told, Distinct, Ascending, Placed, Inv, IsPlaced, Finished;
    InvParts(s, f, p);
    GoodShape(s);
    var q := c * 256 + s.ss;
    StartsAt(s, q, q + 1);
    if p.cs[c] > p.ce[c] {
      var lo, hi := s.st[q], s.st[q + 1];
      KeptLength(s, f, p);
      var l, m := f[lo..hi] + [k], s.f0[lo..hi];
      BucketDistinct(s, q);
      InList(s, k, q);
      forall i | 0 <= i < |l| ensures l[i] in m {
        if i < hi - lo { StaysInList(s, f, p, q, lo + i); }
      }
      forall i, j | 0 <= i < j < |l| ensures l[i] != l[j] {
        FullDistinct(s, f, p, c, lo + i, if j < hi - lo then lo + j else lo + i);
        PlacedIs(s, f, p, lo + i);
      }
      Pigeonhole(l, m);
    }
  }

  lemma KeptLength(s: Job, f: seq<int>, p: Pos)
    requires Good(s) && |p.cs| == |p.ce| == 256 && Kept(s, f, p)
    ensures |f| == |s.b|
  {
    hide Good;
  }

  lemma FullyPlaced(s: Job, p: Pos, x: int)
    requires Good(s) && |p.cs| == |p.ce| == 256 && (PlacedL(s, p, x) || PlacedR(s, p, x))
    ensures Placed(s, p, x)
  {
    hide Good;
  }

  lemma PlacedIs(s: Job, f: seq<int>, p: Pos, x: int)
    requires Good(s) && |p.cs| == |p.ce| == 256 && 0 <= x < |f| && Placed(s, p, x)
    ensures IsPlaced(s, f, p, f[x])
  {
    hide Good;
  }

  // ----- one step of either scan

  /** One place further, with nothing copied. */
  function Skipped(p: Pos, left: bool): (r: Pos) {
    if left then p.(j1 := p.j1 + 1) else p.(j2 := p.j2 - 1)
  }

  function Filled(p: Pos, c: int, left: bool): (r: Pos)
    requires |p.cs| == |p.ce| == 256 && 0 <= c < 256
  {
    if left then Pos(p.cs[c := p.cs[c] + 1], p.ce, p.j1 + 1, p.j2)
    else Pos(p.cs, p.ce[c := p.ce[c] - 1], p.j1, p.j2 - 1)
  }

  function At(p: Pos, left: bool): (t: int) { if left then p.j1 else p.j2 }

  function Free(p: Pos, c: int, left: bool): (x: int)
    requires |p.cs| == |p.ce| == 256 && 0 <= c < 256
  {
    if left then p.cs[c] else p.ce[c]
  }

  /** There is a known place that this scan has not reached. */
  predicate More(s: Job, p: Pos, left: bool)
    requires |p.cs| == |p.ce| == 256 && 0 <= s.ss < 256
  {
    if left then p.j1 < p.cs[s.ss] else p.j2 > p.ce[s.ss]
  }

  /** A rotation k, found one place before the one scanned, is about to go into its bucket. */
  ghost predicate Placing(s: Job, f: seq<int>, p: Pos, c: int, k: int, left: bool) {
    && Inv(s, f, p) && |p.cs| == |p.ce| == 256 && 0 <= s.ss < 256 && More(s, p, left) && 0 <= c < 256 && !Finished(s, c)
    && 0 <= At(p, left) < |f| && 0 <= k < |s.b| && f[At(p, left)] == Next(|s.b|, k) && s.b[k] == c && p.cs[c] <= p.ce[c]
    && !IsPlaced(s, f, p, k)
  }

  lemma MoreKnown(s: Job, p: Pos, left: bool)
    requires Good(s) && Bounds(s, p) && |p.cs| == |p.ce| == 256 && 0 <= s.ss < 256 && More(s, p, left)
    ensures |s.st| == 65537 && Known(s, p, At(p, left)) && !Scanned(s, p, At(p, left))
  {
    hide Good, Bounds;
    GoodShape(s);
    BoundsAt(s, p, s.ss);
  }

  /** The rotation before the one scanned: its place is still free, or its bucket is finished. */
  lemma BeforeScanned(s: Job, f: seq<int>, p: Pos, left: bool)
    requires Inv(s, f, p) && |p.cs| == |p.ce| == 256 && 0 <= s.ss < 256 && More(s, p, left)
    ensures 0 <= At(p, left) < |s.b| == |f| && 0 <= f[At(p, left)] < |s.b|
    ensures var k := Prev(|s.b|, f[At(p, left)]);
            0 <= s.b[k] < 256 && (!Finished(s, s.b[k]) ==> Placing(s, f, p, s.b[k], k, left))
  {
    hide Good, Bounds, Kept, Succ, Told, Distinct, Ascending, Placed, Inv, Known, Scanned, IsPlaced;
    InvParts(s, f, p);
    GoodShape(s);
    MoreKnown(s, p, left);
    var t := At(p, left);
    KnownHead(s, f, p, t);
    NotYetPlaced(s, f, p, t);
    var k := Prev(|s.b|, f[t]);
    CodeParts(s, k);
    if !Finished(s, s.b[k]) { Room(s, f, p, s.b[k], k); }
  }

  lemma PlacingFacts(s: Job, f: seq<int>, p: Pos, c: int, k: int, left: bool)
    requires Placing(s, f, p, c, k, left)
    ensures Good(s) && Bounds(s, p) && |s.st| == 65537 && |s.cd| == |s.b| == |s.f0| == |f| == |s.rk| && |s.done| == 256
    ensures !s.done[c]
    ensures var x := Free(p, c, left);
            && 0 <= x < |s.b| && 0 <= s.f0[x] < |s.b| && Bkt(s, x) == c * 256 + s.ss && 0 <= Bkt(s, x) < 65536
            && !PlacedL(s, p, x) && !PlacedR(s, p, x) && !Known(s, p, x)
    ensures s.cd[k] == c * 256 + s.ss && Kept(s, f, p)
    ensures Known(s, p, At(p, left)) && !Scanned(s, p, At(p, left))
  {
    hide Good, Bounds, Kept, Succ, Told, Distinct, Ascending, Inv, Scanned, IsPlaced;
    InvParts(s, f, p);
    GoodShape(s);
    BoundsAt(s, p, c);
    BoundsAt(s, p, s.ss);
    MoreKnown(s, p, left);
    KnownHead(s, f, p, At(p, left));
    CodeParts(s, k);
    var x := Free(p, c, left);
    PlaceInBucket(s, p, c, x);
    if Known(s, p, x) { KnownHead(s, f, p, x); }
  }

  lemma PlacingShape(s: Job, f: seq<int>, p: Pos, c: int, k: int, left: bool)
    requires Placing(s, f, p, c, k, left)
    ensures Inv(s, f, p) && |p.cs| == |p.ce| == 256 && 0 <= s.ss < 256 && More(s, p, left) && 0 <= c < 256
    ensures |s.done| == 256 && !s.done[c]
    ensures 0 <= At(p, left) < |f| == |s.b| && 0 <= k < |s.b| && f[At(p, left)] == Next(|s.b|, k) && s.b[k] == c
    ensures p.cs[c] <= p.ce[c]
    ensures !IsPlaced(s, f, p, k) && Prev(|s.b|, f[At(p, left)]) == k
  {
    hide Good, Kept, Succ, Told, Distinct, Ascending, Inv, IsPlaced, Bounds;
    InvParts(s, f, p);
    GoodShape(s);
    KeptLength(s, f, p);
  }

  lemma WhoIsPlaced(s: Job, f: seq<int>, p: Pos, c: int, k: int, left: bool, x: int)
    requires Placing(s, f, p, c, k, left)
    ensures Good(s) && |p.cs| == |p.ce| == 256
    ensures PlacedL(s, Filled(p, c, left), x) <==> PlacedL(s, p, x) || (left && x == Free(p, c, left))
    ensures PlacedR(s, Filled(p, c, left), x) <==> PlacedR(s, p, x) || (!left && x == Free(p, c, left))
  {
    hide Good, Bounds, Kept, Inv, IsPlaced, Known, Placing, PlacedL, PlacedR, Active, Bkt, Scanned;
    PlacingFacts(s, f, p, c, k, left);
    PlacingShape(s, f, p, c, k, left);
    GoodShape(s);
    PlacedWithin(s, p, x);
    PlacedWithin(s, Filled(p, c, left), x);
    if 0 <= x < |s.b| {
      GoodAt(s, x);
      ActiveBucket(s, x, c);
      ActiveBucket(s, Free(p, c, left), c);
    }
  }

  lemma PlacedWithin(s: Job, p: Pos, x: int)
    requires Good(s) && |p.cs| == |p.ce| == 256
    ensures !(0 <= x < |s.b|) ==> !PlacedL(s, p, x) && !PlacedR(s, p, x)
    ensures 0 <= x < |s.b| ==>
      && |s.f0| == |s.cd| == |s.b| && |s.done| == 256 && 0 <= s.f0[x] < |s.b| && 0 <= Bkt(s, x) < 65536
      && (PlacedL(s, p, x) <==> Active(s, x) && x < p.cs[Bkt(s, x) / 256])
      && (PlacedR(s, p, x) <==> Active(s, x) && x > p.ce[Bkt(s, x) / 256])
  {
    hide Active, Bkt, Good;
    GoodShape(s);
    if 0 <= x < |s.b| { GoodAt(s, x); }
  }

  lemma ActiveBucket(s: Job, x: int, c: int)
    requires Good(s) && 0 <= x < |s.b| && 0 <= c < 256 && |s.f0| == |s.b| == |s.cd| && 0 <= s.f0[x] < |s.cd|
    requires |s.done| == 256
    requires 0 <= Bkt(s, x) < 65536
    ensures Bkt(s, x) == c * 256 + s.ss && !s.done[c] ==> Active(s, x)
    ensures Active(s, x) && Bkt(s, x) / 256 == c ==> Bkt(s, x) == c * 256 + s.ss
  {
    hide Good;
    GoodShape(s);
  }

  lemma InBucketBounds(s: Job, x: int, c: int)
    requires Good(s) && 0 <= x < |s.b| && 0 <= c < 256 && |s.f0| == |s.b| == |s.cd| && 0 <= s.f0[x] < |s.cd|
    requires Bkt(s, x) == c * 256 + s.ss
    ensures |s.st| == 65537 && 0 <= s.ss < 256 && Lo(s, c) <= x < Hi(s, c)
  {
    hide Good;
    GoodShape(s);
    GoodAt(s, x);
  }

  lemma BoundsFilled(s: Job, f: seq<int>, p: Pos, c: int, k: int, left: bool)
    requires Placing(s, f, p, c, k, left)
    ensures Good(s) && |p.cs| == |p.ce| == 256 && Bounds(s, Filled(p, c, left))
  {
    hide Good, Kept, Inv, IsPlaced, Known, Scanned, Bounds, Lo, Hi, Bb, Be, Placing;
    PlacingFacts(s, f, p, c, k, left);
    PlacingShape(s, f, p, c, k, left);
    GoodShape(s);
    var p' := Filled(p, c, left);
    forall d | 0 <= d < 256
      ensures Lo(s, d) <= p'.cs[d] <= p'.ce[d] + 1 <= Hi(s, d)
      ensures s.done[d] ==> p'.cs[d] == Lo(s, d) && p'.ce[d] + 1 == Hi(s, d)
    {
      BoundsAt(s, p, d);
    }
    BoundsAt(s, p, s.ss);
    BoundsMake(s, p');
  }

  lemma BoundsMake(s: Job, p: Pos)
    requires Good(s) && |p.cs| == |p.ce| == 256 && |s.st| == 65537 && 0 <= s.ss < 256 && |s.done| == 256
    requires forall d :: 0 <= d < 256 ==> Lo(s, d) <= p.cs[d] <= p.ce[d] + 1 <= Hi(s, d)
    requires forall d :: 0 <= d < 256 && s.done[d] ==> p.cs[d] == Lo(s, d) && p.ce[d] + 1 == Hi(s, d)
    requires Bb(s) <= p.j1 <= p.cs[s.ss] && p.ce[s.ss] <= p.j2 < Be(s)
    ensures Bounds(s, p)
  {
    hide Good, Lo, Hi, Bb, Be;
  }

  lemma KeptFilled(s: Job, f: seq<int>, p: Pos, c: int, k: int, left: bool)
    requires Placing(s, f, p, c, k, left)
    ensures Good(s) && |p.cs| == |p.ce| == 256 && 0 <= Free(p, c, left) < |f|
    ensures Kept(s, f[Free(p, c, left) := k], Filled(p, c, left))
  {
    PlacingFacts(s, f, p, c, k, left);
    hide Good, Kept, Inv, IsPlaced, Known, Scanned, PlacedL, PlacedR, Bounds;
    var x0 := Free(p, c, left);
    var g, p' := f[x0 := k], Filled(p, c, left);
    forall x | 0 <= x < |s.b|
      ensures 0 <= g[x] < |s.b| && |s.f0| == |s.cd| == |s.b| && 0 <= s.f0[x] < |s.b| && s.cd[g[x]] == Bkt(s, x)
      ensures !PlacedL(s, p', x) && !PlacedR(s, p', x) ==> g[x] == s.f0[x]
    {
      KeptAt(s, f, p, x);
      WhoIsPlaced(s, f, p, c, k, left, x);
    }
    KeptMake(s, g, p');
  }

  lemma KeptMake(s: Job, f: seq<int>, p: Pos)
    requires Good(s) && |p.cs| == |p.ce| == 256 && |f| == |s.b|
    requires forall x :: 0 <= x < |s.b| ==>
      0 <= f[x] < |s.b| && |s.f0| == |s.cd| == |s.b| && 0 <= s.f0[x] < |s.b| && s.cd[f[x]] == Bkt(s, x)
    requires forall x :: 0 <= x < |s.b| && !PlacedL(s, p, x) && !PlacedR(s, p, x) ==> f[x] == s.f0[x]
    ensures Kept(s, f, p)
  {
    hide Good, PlacedL, PlacedR;
  }

  /** Known places hold what they held. */
  lemma KnownSame(s: Job, f: seq<int>, p: Pos, c: int, k: int, left: bool, t: int)
    requires Placing(s, f, p, c, k, left) && |s.st| == 65537 && 0 <= s.ss < 256 && Known(s, p, t)
    ensures 0 <= t < |f| && 0 <= Free(p, c, left) < |f| && f[Free(p, c, left) := k][t] == f[t]
  {
    PlacingFacts(s, f, p, c, k, left);
    hide Good, Kept, Inv, IsPlaced, Known, Scanned, Bounds;
    KnownHead(s, f, p, t);
  }

  lemma ScannedFilled(s: Job, f: seq<int>, p: Pos, c: int, k: int, left: bool, t: int)
    requires Placing(s, f, p, c, k, left) && |s.st| == 65537 && 0 <= s.ss < 256
    ensures Scanned(s, Filled(p, c, left), t) <==> Scanned(s, p, t) || t == At(p, left)
    ensures left ==> Bb(s) <= At(p, left) < p.j1 + 1
    ensures !left ==> p.j2 - 1 < At(p, left) < Be(s)
  {
    hide Good, Kept, Inv, IsPlaced, Placing, Known;
    PlacingFacts(s, f, p, c, k, left);
    PlacingShape(s, f, p, c, k, left);
    BoundsAt(s, p, s.ss);
  }

  lemma SuccFilled(s: Job, f: seq<int>, p: Pos, c: int, k: int, left: bool)
    requires Placing(s, f, p, c, k, left)
    ensures Good(s) && |p.cs| == |p.ce| == 256 && 0 <= Free(p, c, left) < |f|
    ensures var g := f[Free(p, c, left) := k]; Kept(s, g, Filled(p, c, left)) && Succ(s, g, Filled(p, c, left))
  {
    PlacingFacts(s, f, p, c, k, left);
    KeptFilled(s, f, p, c, k, left);
    InvParts(s, f, p);
    hide Good, Kept, Inv, IsPlaced, Known, Scanned, PlacedL, PlacedR, Bounds, Succ;
    var x0 := Free(p, c, left);
    var g, p' := f[x0 := k], Filled(p, c, left);
    GoodShape(s);
    forall x | PlacedL(s, p', x)
      ensures 0 <= x < |g| && exists t :: Bb(s) <= t < p'.j1 && 0 <= t < |g| && g[t] == Next(|s.b|, g[x])
    {
      var t := SuccOf(s, f, p, c, k, left, x);
    }
    forall x | PlacedR(s, p', x)
      ensures 0 <= x < |g| && exists t :: p'.j2 < t < Be(s) && 0 <= t < |g| && g[t] == Next(|s.b|, g[x])
    {
      var t := SuccOf(s, f, p, c, k, left, x);
    }
    StartsAt(s, 0, s.ss * 256);
    SuccMake(s, g, p');
  }

  lemma SuccMake(s: Job, f: seq<int>, p: Pos)
    requires Good(s) && |p.cs| == |p.ce| == 256 && Kept(s, f, p) && |s.st| == 65537 && 0 <= s.ss < 256 && Bb(s) >= 0
    requires forall x :: PlacedL(s, p, x) ==>
      0 <= x < |f| && exists t :: Bb(s) <= t < p.j1 && 0 <= t < |f| && f[t] == Next(|s.b|, f[x])
    requires forall x :: PlacedR(s, p, x) ==>
      0 <= x < |f| && exists t :: p.j2 < t < Be(s) && 0 <= t < |f| && f[t] == Next(|s.b|, f[x])
    ensures Succ(s, f, p)
  {
    hide Good, Kept, PlacedL, PlacedR;
  }

  /** Where the successor of a placed rotation stands afterwards. */
  lemma SuccOf(s: Job, f: seq<int>, p: Pos, c: int, k: int, left: bool, x: int) returns (t: int)
    requires Placing(s, f, p, c, k, left) && Good(s)
    requires (PlacedL(s, Filled(p, c, left), x) || PlacedR(s, Filled(p, c, left), x))
    ensures |s.st| == 65537 && 0 <= s.ss < 256 && 0 <= Free(p, c, left) < |f| && 0 <= x < |f| == |s.b| && 0 <= t < |f|
    ensures var g := f[Free(p, c, left) := k]; 0 <= g[x] < |s.b| && g[t] == Next(|s.b|, g[x])
    ensures PlacedL(s, Filled(p, c, left), x) ==> Bb(s) <= t < Filled(p, c, left).j1
    ensures PlacedR(s, Filled(p, c, left), x) ==> Filled(p, c, left).j2 < t < Be(s)
  {
    hide Good, Kept, Inv, IsPlaced, Known, Scanned, PlacedL, PlacedR, Bounds, Succ, Bb, Be, Placing, Bkt;
    PlacingFacts(s, f, p, c, k, left);
    PlacingShape(s, f, p, c, k, left);
    InvParts(s, f, p);
    WhoIsPlaced(s, f, p, c, k, left, x);
    GoodShape(s);
    if x == Free(p, c, left) {
      t := At(p, left);
      KnownSame(s, f, p, c, k, left, t);
      ScannedFilled(s, f, p, c, k, left, t);
      SidesApart(s, p, x);
    } else {
      FullyPlaced(s, p, x);
      t := SuccAt(s, f, p, x);
      ScannedKnown(s, p, t);
      KnownSame(s, f, p, c, k, left, t);
      OneSide(s, p, x);
    }
  }

  lemma SidesApart(s: Job, p: Pos, x: int)
    requires Good(s) && |p.cs| == |p.ce| == 256
    ensures !PlacedL(s, p, x) && !PlacedR(s, p, x) ==> !Placed(s, p, x)
  {
    hide Good;
  }

  /** No place is filled from both sides. */
  lemma OneSide(s: Job, p: Pos, x: int)
    requires Good(s) && Bounds(s, p)
    ensures |p.cs| == |p.ce| == 256 && !(PlacedL(s, p, x) && PlacedR(s, p, x))
  {
    hide Good, Bounds;
    GoodShape(s);
    BoundsAt(s, p, 0);
    if 0 <= x < |s.b| {
      GoodAt(s, x);
      BoundsAt(s, p, Bkt(s, x) / 256);
    }
  }

  lemma PlacedSame(s: Job, f: seq<int>, p: Pos, c: int, k: int, left: bool, x: int)
    requires Placing(s, f, p, c, k, left) && Good(s) && |p.cs| == |p.ce| == 256
    ensures 0 <= Free(p, c, left) < |f| == |s.b|
    ensures (Placed(s, Filled(p, c, left), x) <==> Placed(s, p, x) || x == Free(p, c, left))
    ensures Placed(s, p, x) ==> 0 <= x < |s.b| && x != Free(p, c, left) && f[Free(p, c, left) := k][x] == f[x]
    ensures f[Free(p, c, left) := k][Free(p, c, left)] == k
  {
    hide Good, Kept, Inv, IsPlaced, Known, Scanned, Bounds, Placing, Bkt, PlacedL, PlacedR;
    PlacingFacts(s, f, p, c, k, left);
    PlacingShape(s, f, p, c, k, left);
    WhoIsPlaced(s, f, p, c, k, left, x);
    PlacedRange(s, p, x);
  }

  lemma PlacedRange(s: Job, p: Pos, x: int)
    requires Good(s) && |p.cs| == |p.ce| == 256
    ensures PlacedL(s, p, x) || PlacedR(s, p, x) ==> 0 <= x < |s.b|
  {
    hide Good;
  }

  lemma IsPlacedFilled(s: Job, f: seq<int>, p: Pos, c: int, k: int, left: bool, m: int)
    requires Placing(s, f, p, c, k, left) && Good(s) && |p.cs| == |p.ce| == 256
    ensures 0 <= Free(p, c, left) < |f|
    ensures IsPlaced(s, f, p, m) || m == k ==> IsPlaced(s, f[Free(p, c, left) := k], Filled(p, c, left), m)
  {
    hide Good, Kept, Inv, IsPlaced, Known, Scanned, Bounds, Placing, Placed, PlacedL, PlacedR;
    PlacingFacts(s, f, p, c, k, left);
    PlacingShape(s, f, p, c, k, left);
    var g, p' := f[Free(p, c, left) := k], Filled(p, c, left);
    if m == k {
      PlacedSame(s, f, p, c, k, left, Free(p, c, left));
      PlacedIs(s, g, p', Free(p, c, left));
    } else if IsPlaced(s, f, p, m) {
      var x := PlacedWhere(s, f, p, m);
      PlacedSame(s, f, p, c, k, left, x);
      PlacedIs(s, g, p', x);
    }
  }

  lemma ToldFilled(s: Job, f: seq<int>, p: Pos, c: int, k: int, left: bool)
    requires Placing(s, f, p, c, k, left)
    ensures Good(s) && |p.cs| == |p.ce| == 256 && 0 <= Free(p, c, left) < |f|
    ensures var g := f[Free(p, c, left) := k]; Kept(s, g, Filled(p, c, left)) && Told(s, g, Filled(p, c, left))
  {
    hide Good, Kept, Inv, IsPlaced, Known, Scanned, Bounds, Placing, Placed, PlacedL, PlacedR, Told, Prev;
    PlacingFacts(s, f, p, c, k, left);
    PlacingShape(s, f, p, c, k, left);
    KeptFilled(s, f, p, c, k, left);
    InvParts(s, f, p);
    GoodShape(s);
    CodedIs(s);
    var g, p' := f[Free(p, c, left) := k], Filled(p, c, left);
    forall t | 0 <= t < |g| && Scanned(s, p', t)
      ensures 0 <= g[t] < |s.b| && (!s.done[ByteAt(s, Prev(|s.b|, g[t]))] ==> IsPlaced(s, g, p', Prev(|s.b|, g[t])))
    {
      ScannedFilled(s, f, p, c, k, left, t);
      if t == At(p, left) {
        KnownSame(s, f, p, c, k, left, t);
        KeptAt(s, f, p, t);
        IsPlacedFilled(s, f, p, c, k, left, k);
      } else {
        ScannedKnown(s, p, t);
        KnownSame(s, f, p, c, k, left, t);
        KeptAt(s, f, p, t);
        ToldAt(s, f, p, t);
        IsPlacedFilled(s, f, p, c, k, left, Prev(|s.b|, f[t]));
      }
    }
    ToldMake(s, g, p');
  }

  lemma CodedIs(s: Job)
    requires Good(s)
    ensures Coded(s.b, s.cd)
  {
    hide Starts, InBuckets, RankLaws, Coded;
  }

  function ByteAt(s: Job, i: int): (r: int)
    requires 0 <= i < |s.b| && Coded(s.b, s.cd)
    ensures 0 <= r < 256
  {
    s.b[i]
  }

  lemma ToldAt(s: Job, f: seq<int>, p: Pos, t: int)
    requires Good(s) && |p.cs| == |p.ce| == 256 && Kept(s, f, p) && Told(s, f, p) && 0 <= t < |f| && Scanned(s, p, t)
    ensures |s.done| == 256 && |f| == |s.b| && 0 <= f[t] < |s.b| && Coded(s.b, s.cd)
    ensures !s.done[ByteAt(s, Prev(|s.b|, f[t]))] ==> IsPlaced(s, f, p, Prev(|s.b|, f[t]))
  {
    hide IsPlaced, Starts, InBuckets, RankLaws;
  }

  lemma ToldMake(s: Job, f: seq<int>, p: Pos)
    requires Good(s) && |p.cs| == |p.ce| == 256 && Kept(s, f, p) && |s.done| == 256 && |f| == |s.b| && Coded(s.b, s.cd)
    requires forall t :: 0 <= t < |f| && Scanned(s, p, t) ==>
      0 <= f[t] < |s.b| && (!s.done[ByteAt(s, Prev(|s.b|, f[t]))] ==> IsPlaced(s, f, p, Prev(|s.b|, f[t])))
    ensures Told(s, f, p)
  {
    hide IsPlaced, Starts, InBuckets, RankLaws, Kept, Coded;
  }

  lemma DistinctFilled(s: Job, f: seq<int>, p: Pos, c: int, k: int, left: bool)
    requires Placing(s, f, p, c, k, left)
    ensures Good(s) && |p.cs| == |p.ce| == 256 && 0 <= Free(p, c, left) < |f|
    ensures Distinct(s, f[Free(p, c, left) := k], Filled(p, c, left))
  {
    hide Good, Kept, Inv, IsPlaced, Known, Scanned, Bounds, Placing, Placed, PlacedL, PlacedR, Distinct;
    PlacingFacts(s, f, p, c, k, left);
    PlacingShape(s, f, p, c, k, left);
    InvParts(s, f, p);
    var x0 := Free(p, c, left);
    var g, p' := f[x0 := k], Filled(p, c, left);
    forall x, y | 0 <= x < y < |g| && Placed(s, p', x) && Placed(s, p', y) ensures g[x] != g[y] {
      PlacedSame(s, f, p, c, k, left, x);
      PlacedSame(s, f, p, c, k, left, y);
      if x != x0 { PlacedIs(s, f, p, x); }
      if y != x0 { PlacedIs(s, f, p, y); }
      if x != x0 && y != x0 { PlacedPair(s, f, p, x, y); }
    }
    DistinctMake(s, g, p');
  }

  lemma DistinctMake(s: Job, f: seq<int>, p: Pos)
    requires Good(s) && |p.cs| == |p.ce| == 256
    requires forall x, y :: 0 <= x < y < |f| && Placed(s, p, x) && Placed(s, p, y) ==> f[x] != f[y]
    ensures Distinct(s, f, p)
  {
    hide Good, PlacedL, PlacedR;
  }

  /** The new rotation is in order with those already in its bucket. */
  lemma InOrder(s: Job, f: seq<int>, p: Pos, c: int, k: int, left: bool, y: int)
    requires Placing(s, f, p, c, k, left) && Good(s) && |p.cs| == |p.ce| == 256 && Placed(s, p, y)
    requires 0 <= y < |s.b| == |s.f0| == |s.cd| == |f| == |s.rk| && 0 <= s.f0[y] < |s.cd| && Bkt(s, y) == c * 256 + s.ss
    requires 0 <= f[y] < |s.b|
    ensures 0 <= k < |s.b|
    ensures y < Free(p, c, left) ==> s.rk[f[y]] <= s.rk[k]
    ensures y > Free(p, c, left) ==> s.rk[k] <= s.rk[f[y]]
  {
    hide Good, Kept, Inv, IsPlaced, Known, Scanned, Bounds, Placing, Placed, Succ;
    PlacingFacts(s, f, p, c, k, left);
    PlacingShape(s, f, p, c, k, left);
    InvParts(s, f, p);
    BoundsAt(s, p, c);
    BoundsAt(s, p, s.ss);
    var t := At(p, left);
    var u := SuccAt(s, f, p, y);
    ScannedKnown(s, p, u);
    KeptAt(s, f, p, y);
    CodeParts(s, f[y]);
    CodeParts(s, k);
    PlacedSide(s, f, p, c, y);
    if u < t { KnownPair(s, f, p, u, t); CodeLaw(s, f[y], k); }
    if t < u { KnownPair(s, f, p, t, u); CodeLaw(s, k, f[y]); }
  }

  lemma PlacedSide(s: Job, f: seq<int>, p: Pos, c: int, y: int)
    requires Good(s) && Bounds(s, p) && |p.cs| == |p.ce| == 256 && Placed(s, p, y) && 0 <= c < 256
    requires 0 <= y < |s.b| == |s.f0| == |s.cd| && 0 <= s.f0[y] < |s.cd| && 0 <= s.ss < 256
    requires Bkt(s, y) == c * 256 + s.ss
    ensures PlacedL(s, p, y) <==> y < p.cs[c]
    ensures PlacedR(s, p, y) <==> y > p.ce[c]
    ensures y < p.cs[c] || y > p.ce[c]
  {
    hide Good, Bounds;
    GoodShape(s);
  }

  lemma AscendingFilled(s: Job, f: seq<int>, p: Pos, c: int, k: int, left: bool)
    requires Placing(s, f, p, c, k, left)
    ensures Good(s) && |p.cs| == |p.ce| == 256 && 0 <= Free(p, c, left) < |f|
    ensures var g := f[Free(p, c, left) := k]; Kept(s, g, Filled(p, c, left)) && Ascending(s, g, Filled(p, c, left))
  {
    hide Good, Kept, Inv, IsPlaced, Known, Scanned, Bounds, Placing, Placed, PlacedL, PlacedR, Ascending;
    PlacingFacts(s, f, p, c, k, left);
    PlacingShape(s, f, p, c, k, left);
    KeptFilled(s, f, p, c, k, left);
    InvParts(s, f, p);
    GoodShape(s);
    var x0 := Free(p, c, left);
    var g, p' := f[x0 := k], Filled(p, c, left);
    forall x, y | 0 <= x < y < |g| && Placed(s, p', x) && Placed(s, p', y) && SameBucket(s, x, y)
      ensures 0 <= g[x] < |s.rk| && 0 <= g[y] < |s.rk| && s.rk[g[x]] <= s.rk[g[y]]
    {
      PlacedSame(s, f, p, c, k, left, x);
      PlacedSame(s, f, p, c, k, left, y);
      KeptAt(s, f, p, x);
      KeptAt(s, f, p, y);
      if x == x0 {
        InOrder(s, f, p, c, k, left, y);
      } else if y == x0 {
        InOrder(s, f, p, c, k, left, x);
      } else {
        PlacedPair(s, f, p, x, y);
      }
    }
    AscendingMake(s, g, p');
  }

  predicate SameBucket(s: Job, x: int, y: int) {
    && 0 <= x < |s.f0| && 0 <= y < |s.f0| && 0 <= s.f0[x] < |s.cd| && 0 <= s.f0[y] < |s.cd| && Bkt(s, x) == Bkt(s, y)
  }

  lemma AscendingMake(s: Job, f: seq<int>, p: Pos)
    requires Good(s) && |p.cs| == |p.ce| == 256 && Kept(s, f, p)
    requires forall x, y :: 0 <= x < y < |f| && Placed(s, p, x) && Placed(s, p, y) && SameBucket(s, x, y) ==>
      0 <= f[x] < |s.rk| && 0 <= f[y] < |s.rk| && s.rk[f[x]] <= s.rk[f[y]]
    ensures Ascending(s, f, p)
  {
    hide Good, PlacedL, PlacedR, Kept, Bkt;
    KeptLength(s, f, p);
    GoodShape(s);
    forall x | 0 <= x < |f| ensures 0 <= s.f0[x] < |s.cd| { GoodAt(s, x); }
    forall x, y | 0 <= x < y < |f| && (PlacedL(s, p, x) || PlacedR(s, p, x)) && (PlacedL(s, p, y) || PlacedR(s, p, y))
      && Bkt(s, x) == Bkt(s, y)
      ensures 0 <= f[x] < |s.rk| && 0 <= f[y] < |s.rk| && s.rk[f[x]] <= s.rk[f[y]]
    {
      assert Placed(s, p, x) && Placed(s, p, y) && SameBucket(s, x, y);
    }
  }

  /** A rotation goes into its bucket. */
  lemma StepFilled(s: Job, f: seq<int>, p: Pos, c: int, k: int, left: bool)
    requires Placing(s, f, p, c, k, left)
    ensures |p.cs| == |p.ce| == 256 && 0 <= Free(p, c, left) < |f|
    ensures Inv(s, f[Free(p, c, left) := k], Filled(p, c, left))
  {
    hide Good, Kept, IsPlaced, Known, Scanned, Bounds, Placing, Placed, PlacedL, PlacedR, Ascending, Succ, Told,
         Distinct;
    BoundsFilled(s, f, p, c, k, left);
    KeptFilled(s, f, p, c, k, left);
    SuccFilled(s, f, p, c, k, left);
    ToldFilled(s, f, p, c, k, left);
    DistinctFilled(s, f, p, c, k, left);
    AscendingFilled(s, f, p, c, k, left);
  }

  /** The bucket of the rotation found is finished: nothing is copied. */
  lemma StepSkipped(s: Job, f: seq<int>, p: Pos, left: bool)
    requires Inv(s, f, p) && |p.cs| == |p.ce| == 256 && 0 <= s.ss < 256 && More(s, p, left)
    requires 0 <= At(p, left) < |s.b| == |f| && 0 <= f[At(p, left)] < |s.b|
    requires Finished(s, s.b[Prev(|s.b|, f[At(p, left)])])
    ensures Inv(s, f, Skipped(p, left))
  {
    hide Good, Kept, IsPlaced, Known, Bounds, Placed, PlacedL, PlacedR, Ascending, Succ, Told, Distinct;
    InvParts(s, f, p);
    GoodShape(s);
    CodedIs(s);
    var p' := Skipped(p, left);
    BoundsSkipped(s, p, left);
    forall x ensures PlacedL(s, p', x) <==> PlacedL(s, p, x) ensures PlacedR(s, p', x) <==>
      PlacedR(s, p, x) { SidesSkipped(s, p, left, x); }
    KeptSkipped(s, f, p, left);
    forall t | 0 <= t < |f| && Scanned(s, p', t)
      ensures 0 <= f[t] < |s.b| && (!s.done[ByteAt(s, Prev(|s.b|, f[t]))] ==> IsPlaced(s, f, p', Prev(|s.b|, f[t])))
    {
      KeptAt(s, f, p, t);
      if t != At(p, left) {
        ToldAt(s, f, p, t);
        SamePlaced(s, f, p, left, Prev(|s.b|, f[t]));
      }
    }
    ToldMake(s, f, p');
    SuccSkipped(s, f, p, left);
    PairsSkipped(s, f, p, left);
  }

  lemma BoundsSkipped(s: Job, p: Pos, left: bool)
    requires Good(s) && Bounds(s, p) && |p.cs| == |p.ce| == 256 && 0 <= s.ss < 256 && More(s, p, left)
    ensures Bounds(s, Skipped(p, left))
  {
    hide Good;
  }

  lemma SidesSkipped(s: Job, p: Pos, left: bool, x: int)
    requires Good(s) && |p.cs| == |p.ce| == 256
    ensures PlacedL(s, Skipped(p, left), x) <==> PlacedL(s, p, x)
    ensures PlacedR(s, Skipped(p, left), x) <==> PlacedR(s, p, x)
  {
    hide Good;
  }

  lemma KeptSkipped(s: Job, f: seq<int>, p: Pos, left: bool)
    requires Good(s) && |p.cs| == |p.ce| == 256 && Kept(s, f, p)
    ensures Kept(s, f, Skipped(p, left))
  {
    hide Good;
  }

  lemma SamePlaced(s: Job, f: seq<int>, p: Pos, left: bool, k: int)
    requires Good(s) && |p.cs| == |p.ce| == 256
    ensures IsPlaced(s, f, p, k) ==> IsPlaced(s, f, Skipped(p, left), k)
  {
    hide Good;
    if IsPlaced(s, f, p, k) {
      var x := PlacedWhere(s, f, p, k);
      assert Placed(s, Skipped(p, left), x);
    }
  }

  lemma SuccSkipped(s: Job, f: seq<int>, p: Pos, left: bool)
    requires Good(s) && Bounds(s, p) && |p.cs| == |p.ce| == 256 && Kept(s, f, p) && Succ(s, f, p)
    ensures Kept(s, f, Skipped(p, left)) && Succ(s, f, Skipped(p, left))
  {
    hide Good, Bounds, Kept;
    KeptSkipped(s, f, p, left);
    GoodShape(s);
    StartsAt(s, 0, s.ss * 256);
    var p' := Skipped(p, left);
    forall x | PlacedL(s, p', x) ensures 0 <= x < |f| == |s.b| && 0 <= f[x] < |s.b| && exists t ::
      Bb(s) <= t < p'.j1 && 0 <= t < |f| && f[t] == Next(|s.b|, f[x]) {
      SidesSkipped(s, p, left, x);
      FullyPlaced(s, p, x);
      var t := SuccAt(s, f, p, x);
    }
    forall x | PlacedR(s, p', x) ensures 0 <= x < |f| == |s.b| && 0 <= f[x] < |s.b| && exists t ::
      p'.j2 < t < Be(s) && 0 <= t < |f| && f[t] == Next(|s.b|, f[x]) {
      SidesSkipped(s, p, left, x);
      FullyPlaced(s, p, x);
      OneSide(s, p, x);
      var t := SuccAt(s, f, p, x);
    }
    SuccMake(s, f, p');
  }

  lemma PairsSkipped(s: Job, f: seq<int>, p: Pos, left: bool)
    requires Good(s) && |p.cs| == |p.ce| == 256 && Kept(s, f, p) && Distinct(s, f, p) && Ascending(s, f, p)
    ensures Distinct(s, f, Skipped(p, left)) && Kept(s, f, Skipped(p, left)) && Ascending(s, f, Skipped(p, left))
  {
    hide Good, Kept;
    KeptSkipped(s, f, p, left);
  }

  // ----- the start of the scans

  function StartPos(s: Job): (p: Pos)
    requires |s.st| == 65537 && 0 <= s.ss < 256
  {
    Pos(seq(256, c requires 0 <= c < 256 => Lo(s, c)), seq(256, c requires 0 <= c < 256 => Hi(s, c) - 1), Bb(s),
      Be(s) - 1)
  }

  lemma InvStart(s: Job)
    requires Good(s)
    ensures |s.st| == 65537 && 0 <= s.ss < 256 && Inv(s, s.f0, StartPos(s))
  {
    hide Good, Lo, Hi, Bb, Be;
    GoodShape(s);
    CodedIs(s);
    var p := StartPos(s);
    forall c | 0 <= c < 256 ensures Lo(s, c) <= Hi(s, c) { StartsInside(s, c); }
    StartsInside(s, s.ss);
    BoundsMake(s, p);
    forall x ensures !PlacedL(s, p, x) && !PlacedR(s, p, x) { NothingPlaced(s, x); }
    forall x | 0 <= x < |s.b| ensures 0 <= s.f0[x] < |s.b| { GoodAt(s, x); }
    KeptMake(s, s.f0, p);
    forall t ensures !Scanned(s, p, t) { NothingScanned(s, t); }
    StartsAt(s, 0, s.ss * 256);
    SuccMake(s, s.f0, p);
    ToldMake(s, s.f0, p);
    DistinctMake(s, s.f0, p);
    AscendingMake(s, s.f0, p);
  }

  lemma StartsInside(s: Job, c: int)
    requires Good(s) && 0 <= c < 256
    ensures |s.st| == 65537 && 0 <= s.ss < 256 && Lo(s, c) <= Hi(s, c)
    ensures 0 <= Bb(s) <= Lo(s, s.ss) && Hi(s, s.ss) <= Be(s)
  {
    hide Good;
    GoodShape(s);
    StartsAt(s, c * 256 + s.ss, c * 256 + s.ss + 1);
    StartsAt(s, s.ss * 256, s.ss * 256 + s.ss);
    StartsAt(s, s.ss * 256 + s.ss + 1, s.ss * 256 + 256);
  }

  lemma NothingPlaced(s: Job, x: int)
    requires Good(s) && |s.st| == 65537 && 0 <= s.ss < 256
    ensures !PlacedL(s, StartPos(s), x) && !PlacedR(s, StartPos(s), x)
  {
    hide Good;
    GoodShape(s);
    if 0 <= x < |s.b| {
      GoodAt(s, x);
      var c := Bkt(s, x) / 256;
      if Active(s, x) { InBucketBounds(s, x, c); }
    }
  }

  lemma NothingScanned(s: Job, t: int)
    requires Good(s) && |s.st| == 65537 && 0 <= s.ss < 256
    ensures !Scanned(s, StartPos(s), t)
  {
    hide Good;
  }

  // ----- the end of the scans

  predicate Ended(s: Job, p: Pos)
    requires |p.cs| == |p.ce| == 256 && 0 <= s.ss < 256
  {
    p.j1 == p.cs[s.ss] && p.j2 == p.ce[s.ss]
  }

  /** Where a rotation y of the big bucket stands, if it is known; then the one before it is placed. */
  lemma ScansBefore(s: Job, f: seq<int>, p: Pos, y: int)
    requires Inv(s, f, p) && |p.cs| == |p.ce| == 256 && 0 <= s.ss < 256 && Ended(s, p) && Good(s)
    requires 0 <= y < |s.b| && s.b[y] == s.ss && |s.cd| == |s.b| && (s.cd[y] == s.ss * 257 ==> IsPlaced(s, f, p, y))
    ensures var z := Prev(|s.b|, y); 0 <= s.b[z] < 256 && (!Finished(s, s.b[z]) ==> IsPlaced(s, f, p, z))
  {
    hide Good, Kept, IsPlaced, Bounds, Placed, PlacedL, PlacedR, Ascending, Succ, Told, Distinct, Inv;
    InvParts(s, f, p);
    GoodShape(s);
    CodedIs(s);
    CodeParts(s, y);
    CodeParts(s, Prev(|s.b|, y));
    BoundsAt(s, p, s.ss);
    KeptLength(s, f, p);
    var x := KnownPlace(s, f, p, y);
    ToldAt(s, f, p, x);
  }

  lemma KnownPlace(s: Job, f: seq<int>, p: Pos, y: int) returns (x: int)
    requires Inv(s, f, p) && |p.cs| == |p.ce| == 256 && 0 <= s.ss < 256 && Ended(s, p) && Good(s)
    requires 0 <= y < |s.b| && s.b[y] == s.ss && |s.cd| == |s.b| && (s.cd[y] == s.ss * 257 ==> IsPlaced(s, f, p, y))
    ensures 0 <= x < |f| == |s.b| && f[x] == y && |s.st| == 65537 && Scanned(s, p, x)
  {
    hide Good, Kept, IsPlaced, Bounds, PlacedL, PlacedR, Ascending, Succ, Told, Distinct, Inv;
    InvParts(s, f, p);
    GoodShape(s);
    CodeParts(s, y);
    BoundsAt(s, p, s.ss);
    KeptLength(s, f, p);
    if s.cd[y] == s.ss * 257 {
      x := PlacedWhere(s, f, p, y);
      KeptAt(s, f, p, x);
      PlacedSide(s, f, p, s.ss, x);
      InBucketBounds(s, x, s.ss);
    } else {
      GoodPermutation(s);
      x := Position(s.f0, |s.b|, y);
      GoodAt(s, x);
      KeptAt(s, f, p, x);
      Beside(s, p, x);
    }
  }

  /** A place of the big bucket outside its small bucket of ss twice is known and not filled. */
  lemma Beside(s: Job, p: Pos, x: int)
    requires Good(s) && Bounds(s, p) && |p.cs| == |p.ce| == 256 && 0 <= s.ss < 256 && Ended(s, p) && |s.st| == 65537
    requires 0 <= x < |s.b| == |s.f0| == |s.cd| && 0 <= s.f0[x] < |s.b| && s.ss * 256 <= Bkt(s, x) < s.ss * 256 + 256
    requires Bkt(s, x) != s.ss * 257
    ensures Scanned(s, p, x) && !PlacedL(s, p, x) && !PlacedR(s, p, x)
  {
    hide Good, Bounds;
    GoodShape(s);
    GoodAt(s, x);
    BoundsAt(s, p, s.ss);
    BucketParts(s.ss, Bkt(s, x));
    StartsAt(s, s.ss * 256, Bkt(s, x));
    StartsAt(s, Bkt(s, x) + 1, s.ss * 256 + 256);
    if Bkt(s, x) < s.ss * 257 {
      StartsAt(s, Bkt(s, x) + 1, s.ss * 257);
    } else {
      StartsAt(s, s.ss * 257 + 1, Bkt(s, x));
    }
  }

  /** If all of the small bucket of ss twice is placed, so is everything whose second character is ss. */
  lemma AllOfBucket(s: Job, f: seq<int>, p: Pos, z: int)
    requires Inv(s, f, p) && |p.cs| == |p.ce| == 256 && 0 <= s.ss < 256 && Ended(s, p) && Good(s) && |s.cd| == |s.b|
    requires forall y :: 0 <= y < |s.b| && s.cd[y] == s.ss * 257 ==> IsPlaced(s, f, p, y)
    requires 0 <= z < |s.b| && s.cd[z] % 256 == s.ss && 0 <= s.b[z] < 256 && !Finished(s, s.b[z])
    ensures IsPlaced(s, f, p, z)
  {
    hide Good, Kept, IsPlaced, Bounds, Ascending, Succ, Told, Distinct, Inv;
    CodeParts(s, z);
    var y := Next(|s.b|, z);
    assert Prev(|s.b|, y) == z;
    ScansBefore(s, f, p, y);
  }

  /** Then every bucket to be filled is full. */
  lemma BucketFull(s: Job, f: seq<int>, p: Pos, c: int)
    requires Inv(s, f, p) && |p.cs| == |p.ce| == 256 && 0 <= s.ss < 256 && Ended(s, p) && Good(s) && |s.cd| == |s.b|
    requires forall y :: 0 <= y < |s.b| && s.cd[y] == s.ss * 257 ==> IsPlaced(s, f, p, y)
    requires 0 <= c < 256 && !Finished(s, c)
    ensures p.cs[c] == p.ce[c] + 1
  {
    hide Good, Kept, IsPlaced, Bounds, Ascending, Succ, Told, Distinct, Inv, Placed, PlacedL, PlacedR;
    InvParts(s, f, p);
    GoodShape(s);
    BoundsAt(s, p, c);
    KeptLength(s, f, p);
    var q := c * 256 + s.ss;
    StartsAt(s, q, q + 1);
    if p.cs[c] <= p.ce[c] {
      var lo, hi := s.st[q], s.st[q + 1];
      var m, l := s.f0[lo..hi], f[lo..p.cs[c]] + f[p.ce[c] + 1..hi];
      BucketDistinct(s, q);
      forall i | 0 <= i < |m| ensures m[i] in l { PlacedInList(s, f, p, c, lo + i); }
      forall i, j | 0 <= i < j < |l| ensures l[i] != l[j] { ListDistinct(s, f, p, c, i, j); }
      Pigeonhole(m, l);
    }
  }

  lemma ListDistinct(s: Job, f: seq<int>, p: Pos, c: int, i: int, j: int)
    requires Inv(s, f, p) && |p.cs| == |p.ce| == 256 && 0 <= s.ss < 256 && Good(s) && 0 <= c < 256 && !Finished(s, c)
    requires |s.st| == 65537
    requires 0 <= Lo(s, c) <= p.cs[c] <= p.ce[c] + 1 <= Hi(s, c) <= |f|
    requires var l := f[Lo(s, c)..p.cs[c]] + f[p.ce[c] + 1..Hi(s, c)]; 0 <= i < j < |l|
    ensures var l := f[Lo(s, c)..p.cs[c]] + f[p.ce[c] + 1..Hi(s, c)]; l[i] != l[j]
  {
    hide Good, Kept, IsPlaced, Bounds, Ascending, Succ, Told, Distinct, Inv, Placed, PlacedL, PlacedR;
    InvParts(s, f, p);
    var n := p.cs[c] - Lo(s, c);
    var x := if i < n then Lo(s, c) + i else p.ce[c] + 1 + (i - n);
    var y := if j < n then Lo(s, c) + j else p.ce[c] + 1 + (j - n);
    PlaceInBucket(s, p, c, x);
    PlaceInBucket(s, p, c, y);
    FullyPlaced(s, p, x);
    FullyPlaced(s, p, y);
    PlacedPair(s, f, p, x, y);
  }

  lemma PlacedInList(s: Job, f: seq<int>, p: Pos, c: int, x: int)
    requires Inv(s, f, p) && |p.cs| == |p.ce| == 256 && 0 <= s.ss < 256 && Ended(s, p) && Good(s) && |s.cd| == |s.b|
    requires |s.st| == 65537
    requires forall y :: 0 <= y < |s.b| && s.cd[y] == s.ss * 257 ==> IsPlaced(s, f, p, y)
    requires 0 <= c < 256 && !Finished(s, c) && Lo(s, c) <= x < Hi(s, c)
    ensures 0 <= x < |s.f0| && 0 <= Lo(s, c) <= p.cs[c] <= p.ce[c] + 1 <= Hi(s, c) <= |f|
    ensures s.f0[x] in f[Lo(s, c)..p.cs[c]] + f[p.ce[c] + 1..Hi(s, c)]
  {
    hide Good, Kept, IsPlaced, Bounds, Ascending, Succ, Told, Distinct, Inv, Placed, PlacedL, PlacedR;
    InvParts(s, f, p);
    GoodShape(s);
    BoundsAt(s, p, c);
    StartsAt(s, c * 256 + s.ss, c * 256 + s.ss + 1);
    KeptLength(s, f, p);
    PlaceInBucket(s, p, c, x);
    var z := s.f0[x];
    CodeParts(s, z);
    assert (c * 256 + s.ss) / 256 == c && (c * 256 + s.ss) % 256 == s.ss;
    AllOfBucket(s, f, p, z);
    var y := PlacedWhere(s, f, p, z);
    KeptAt(s, f, p, y);
    PlacedSide(s, f, p, c, y);
    InBucketBounds(s, y, c);
    var n := p.cs[c] - Lo(s, c);
    var l := f[Lo(s, c)..p.cs[c]] + f[p.ce[c] + 1..Hi(s, c)];
    assert l[if y < p.cs[c] then y - Lo(s, c) else n + (y - p.ce[c] - 1)] == z;
  }

  /** A rotation of ss twice that is not placed is followed by another such. */
  lemma UnplacedNext(s: Job, f: seq<int>, p: Pos, y: int)
    requires Inv(s, f, p) && |p.cs| == |p.ce| == 256 && 0 <= s.ss < 256 && Ended(s, p) && Good(s) && |s.cd| == |s.b|
    requires 0 <= y < |s.b| && s.cd[y] == s.ss * 257 && !IsPlaced(s, f, p, y)
    ensures s.cd[Next(|s.b|, y)] == s.ss * 257 && !IsPlaced(s, f, p, Next(|s.b|, y)) && s.b[y] == s.ss
  {
    hide Good, Kept, IsPlaced, Bounds, Ascending, Succ, Told, Distinct, Inv;
    GoodShape(s);
    CodeParts(s, y);
    BucketParts(s.ss, s.cd[y]);
    var z := Next(|s.b|, y);
    CodeParts(s, z);
    assert Prev(|s.b|, z) == y;
    if s.cd[z] != s.ss * 257 || IsPlaced(s, f, p, z) { ScansBefore(s, f, p, z); }
  }

  lemma {:induction false} UnplacedChain(s: Job, f: seq<int>, p: Pos, y: int, m: nat)
    requires Inv(s, f, p) && |p.cs| == |p.ce| == 256 && 0 <= s.ss < 256 && Ended(s, p) && Good(s) && |s.cd| == |s.b|
    requires 0 <= y < |s.b| && s.cd[y] == s.ss * 257 && !IsPlaced(s, f, p, y)
    ensures var z := Rotations.Advance(|s.b|, y, m); s.cd[z] == s.ss * 257 && !IsPlaced(s, f, p, z) && s.b[z] == s.ss
    decreases m
  {
    hide Good, Kept, IsPlaced, Bounds, Ascending, Succ, Told, Distinct, Inv;
    UnplacedNext(s, f, p, y);
    if m > 0 { UnplacedChain(s, f, p, Next(|s.b|, y), m - 1); }
  }

  /** Then the block has one character only, and nothing was placed. */
  lemma UnplacedAll(s: Job, f: seq<int>, p: Pos, y: int, z: int)
    requires Inv(s, f, p) && |p.cs| == |p.ce| == 256 && 0 <= s.ss < 256 && Ended(s, p) && Good(s) && |s.cd| == |s.b|
    requires 0 <= y < |s.b| && s.cd[y] == s.ss * 257 && !IsPlaced(s, f, p, y) && 0 <= z < |s.b|
    ensures s.cd[z] == s.ss * 257 && !IsPlaced(s, f, p, z) && s.b[z] == s.ss
  {
    hide Good, Kept, IsPlaced, Bounds, Ascending, Succ, Told, Distinct, Inv;
    var m := if y <= z then z - y else z + |s.b| - y;
    AdvanceWraps(|s.b|, y, m);
    UnplacedChain(s, f, p, y, m);
  }

  /** The scans have ended: places not to be filled are as they were, and the filled buckets are
      in order. */
  ghost predicate After(s: Job, f: seq<int>) {
    && Good(s) && InBuckets(s.cd, s.st, f)
    && (forall x :: 0 <= x < |s.b| && !Active(s, x) ==> f[x] == s.f0[x])
    && (forall x, y :: 0 <= x < y < |s.b| && Bkt(s, x) == Bkt(s, y) && Active(s, x) ==> s.rk[f[x]] <= s.rk[f[y]])
  }

  lemma AfterMake(s: Job, f: seq<int>, p: Pos)
    requires Good(s) && |p.cs| == |p.ce| == 256 && Kept(s, f, p) && |f| == |s.b|
    requires forall x, y :: 0 <= x < y < |s.b| ==> f[x] != f[y]
    requires forall x ::
      (&& 0 <= x < |s.b| && |s.f0| == |s.cd| == |s.b| && 0 <= s.f0[x] < |s.b| && |s.done| == 256
       && 0 <= Bkt(s, x) < 65536 && !Active(s, x)) ==>
        f[x] == s.f0[x]
    requires forall x, y ::
      0 <= x < y < |s.b| && SameBucket(s, x, y) && |s.done| == 256 && 0 <= Bkt(s, x) < 65536 && Active(s, x) ==>
      0 <= f[x] < |s.rk| && 0 <= f[y] < |s.rk| && s.rk[f[x]] <= s.rk[f[y]]
    ensures After(s, f)
  {
    hide Good, Kept, Bkt, Active, InBuckets;
    GoodShape(s);
    forall x | 0 <= x < |s.b|
      ensures 0 <= s.f0[x] < |s.b| && 0 <= f[x] < |s.b| && 0 <= s.cd[f[x]] < 65536
      ensures s.st[s.cd[f[x]]] <= x < s.st[s.cd[f[x]] + 1] && 0 <= Bkt(s, x) < 65536
    {
      GoodAt(s, x);
      KeptAt(s, f, p, x);
    }
    InBucketsMake(s.cd, s.st, f);
    AfterIs(s, f);
  }

  lemma InBucketsMake(cd: seq<int>, st: seq<int>, f: seq<int>)
    requires |f| == |cd| && |st| == 65537 && (forall x, y :: 0 <= x < y < |cd| ==> f[x] != f[y])
    requires forall x :: 0 <= x < |cd| ==>
      0 <= f[x] < |cd| && 0 <= cd[f[x]] < 65536 && st[cd[f[x]]] <= x < st[cd[f[x]] + 1]
    ensures InBuckets(cd, st, f)
  {
  }

  lemma AfterIs(s: Job, f: seq<int>)
    requires Good(s) && InBuckets(s.cd, s.st, f) && |s.f0| == |s.cd| == |s.b| == |s.rk| == |f| && |s.done| == 256
    requires forall x :: 0 <= x < |s.b| ==> 0 <= s.f0[x] < |s.b| && 0 <= f[x] < |s.b| && 0 <= Bkt(s, x) < 65536
    requires forall x :: 0 <= x < |s.b| && !Active(s, x) ==> f[x] == s.f0[x]
    requires forall x, y :: 0 <= x < y < |s.b| && SameBucket(s, x, y) && Active(s, x) ==> s.rk[f[x]] <= s.rk[f[y]]
    ensures After(s, f)
  {
    hide Good, InBuckets, Bkt, Active;
    forall x, y | 0 <= x < y < |s.b| && Bkt(s, x) == Bkt(s, y) && Active(s, x) ensures s.rk[f[x]] <= s.rk[f[y]] {
      assert SameBucket(s, x, y);
    }
  }

  lemma ActivePlaced(s: Job, f: seq<int>, p: Pos, x: int)
    requires Good(s) && Bounds(s, p) && |p.cs| == |p.ce| == 256 && 0 <= x < |s.b| && |s.f0| == |s.cd| == |s.b|
    requires 0 <= s.f0[x] < |s.b| && |s.done| == 256
    requires 0 <= Bkt(s, x) < 65536
    requires Active(s, x) ==> p.cs[Bkt(s, x) / 256] == p.ce[Bkt(s, x) / 256] + 1
    ensures Active(s, x) <==> PlacedL(s, p, x) || PlacedR(s, p, x)
  {
    hide Good, Bounds;
  }

  /** All buckets filled. */
  lemma ConcludeFull(s: Job, f: seq<int>, p: Pos)
    requires Inv(s, f, p) && |p.cs| == |p.ce| == 256 && 0 <= s.ss < 256 && Ended(s, p) && Good(s) && |s.cd| == |s.b|
    requires forall y :: 0 <= y < |s.b| && s.cd[y] == s.ss * 257 ==> IsPlaced(s, f, p, y)
    ensures After(s, f) && p.cs[s.ss] == p.ce[s.ss] + 1
  {
    hide Good, Kept, IsPlaced, Bounds, Ascending, Succ, Told, Distinct, Inv, PlacedL, PlacedR, Bkt, Active;
    InvParts(s, f, p);
    GoodShape(s);
    KeptLength(s, f, p);
    BucketFull(s, f, p, s.ss);
    forall x | 0 <= x < |s.b|
      ensures 0 <= s.f0[x] < |s.b| && 0 <= Bkt(s, x) < 65536 && (Active(s, x) <==> Placed(s, p, x))
      ensures (!Active(s, x) ==> f[x] == s.f0[x])
    {
      GoodAt(s, x);
      KeptAt(s, f, p, x);
      if Active(s, x) { ActiveNotFinished(s, x); BucketFull(s, f, p, Bkt(s, x) / 256); }
      ActivePlaced(s, f, p, x);
    }
    forall x, y | 0 <= x < y < |s.b| ensures f[x] != f[y] {
      KeptAt(s, f, p, x);
      KeptAt(s, f, p, y);
      GoodPermutation(s);
      if Placed(s, p, x) && Placed(s, p, y) {
        PlacedPair(s, f, p, x, y);
      } else if Bkt(s, x) == Bkt(s, y) {
        SameActive(s, x, y);
      }
    }
    forall x, y | 0 <= x < y < |s.b| && SameBucket(s, x, y) && 0 <= Bkt(s, x) < 65536 && Active(s, x)
      ensures 0 <= f[x] < |s.rk| && 0 <= f[y] < |s.rk| && s.rk[f[x]] <= s.rk[f[y]]
    {
      SameActive(s, x, y);
      PlacedPair(s, f, p, x, y);
    }
    AfterMake(s, f, p);
  }

  lemma ActiveNotFinished(s: Job, x: int)
    requires 0 <= x < |s.f0| && 0 <= s.f0[x] < |s.cd| && |s.done| == 256 && 0 <= Bkt(s, x) < 65536 && Active(s, x)
    ensures 0 <= Bkt(s, x) / 256 < 256 && !Finished(s, Bkt(s, x) / 256)
  {
  }

  lemma SameActive(s: Job, x: int, y: int)
    requires 0 <= x < |s.f0| && 0 <= s.f0[x] < |s.cd| && |s.done| == 256 && 0 <= Bkt(s, x) < 65536
    requires 0 <= y < |s.f0| && 0 <= s.f0[y] < |s.cd| && 0 <= Bkt(s, y) < 65536 && Bkt(s, x) == Bkt(s, y)
    ensures Active(s, x) <==> Active(s, y)
  {
  }

  /** A block of one character: nothing moved, and nothing needed to. */
  lemma ConcludeUniform(s: Job, f: seq<int>, p: Pos, y: int)
    requires Inv(s, f, p) && |p.cs| == |p.ce| == 256 && 0 <= s.ss < 256 && Ended(s, p) && Good(s) && |s.cd| == |s.b|
    requires 0 <= y < |s.b| && s.cd[y] == s.ss * 257 && !IsPlaced(s, f, p, y)
    ensures After(s, f) && p.cs[s.ss] == 0 && p.ce[s.ss] == |s.b| - 1 && Uniform(s.b, s.ss)
  {
    hide Good, Kept, IsPlaced, Bounds, Ascending, Succ, Told, Distinct, Inv, PlacedL, PlacedR, Bkt, Active;
    InvParts(s, f, p);
    GoodShape(s);
    KeptLength(s, f, p);
    forall z | 0 <= z < |s.b|
      ensures s.cd[z] == s.ss * 257 && !IsPlaced(s, f, p, z) && s.b[z] == s.ss
    {
      UnplacedAll(s, f, p, y, z);
    }
    AllRanksEqual(s);
    forall x | 0 <= x < |s.b| ensures !PlacedL(s, p, x) && !PlacedR(s, p, x) && 0 <= s.f0[x] < |s.b| && f[x] == s.f0[x]
      && Bkt(s, x) == s.ss * 257 {
      KeptAt(s, f, p, x);
      if PlacedL(s, p, x) || PlacedR(s, p, x) { FullyPlaced(s, p, x); PlacedIs(s, f, p, x); }
    }
    GoodPermutation(s);
    AfterMake(s, f, p);
    UniformBucket(s, p);
  }

  lemma AllRanksEqual(s: Job)
    requires Good(s) && Uniform(s.b, s.ss)
    ensures |s.rk| == |s.b| && forall i, j :: 0 <= i < |s.b| && 0 <= j < |s.b| ==> s.rk[i] == s.rk[j]
  {
    hide Starts, Coded, InBuckets, Uniform;
  }

  lemma UniformBucket(s: Job, p: Pos)
    requires Good(s) && Bounds(s, p) && |p.cs| == |p.ce| == 256 && 0 <= s.ss < 256 && |s.b| > 0
    requires |s.f0| == |s.cd| == |s.b|
    requires forall x :: 0 <= x < |s.b| ==>
      !PlacedL(s, p, x) && !PlacedR(s, p, x) && 0 <= s.f0[x] < |s.b| && Bkt(s, x) == s.ss * 257
    ensures p.cs[s.ss] == 0 && p.ce[s.ss] == |s.b| - 1
  {
    hide Good, Bounds, PlacedL, PlacedR, Bkt;
    GoodShape(s);
    BoundsAt(s, p, s.ss);
    GoodAt(s, 0);
    GoodAt(s, |s.b| - 1);
    StartsAt(s, 0, s.ss * 257);
    StartsAt(s, s.ss * 257 + 1, 65536);
    if p.cs[s.ss] > 0 { PlaceInBucket(s, p, s.ss, 0); }
    if p.ce[s.ss] < |s.b| - 1 { PlaceInBucket(s, p, s.ss, |s.b| - 1); }
  }

  /** What the two scans achieve. The source's assertion on where they meet never fails. */
  lemma Conclude(s: Job, f: seq<int>, p: Pos)
    requires Inv(s, f, p) && |p.cs| == |p.ce| == 256 && 0 <= s.ss < 256 && Ended(s, p)
    ensures After(s, f)
    ensures p.cs[s.ss] - 1 == p.ce[s.ss] || (p.cs[s.ss] == 0 && p.ce[s.ss] == |s.b| - 1 && Uniform(s.b, s.ss))
  {
    hide Good, Kept, IsPlaced, Bounds, Ascending, Succ, Told, Distinct, Inv, PlacedL, PlacedR, Bkt, Active, Ended,
         After;
    InvParts(s, f, p);
    GoodShape(s);
    if y :| 0 <= y < |s.b| && s.cd[y] == s.ss * 257 && !IsPlaced(s, f, p, y) {
      ConcludeUniform(s, f, p, y);
    } else {
      ConcludeFull(s, f, p);
    }
  }

  const SETMASK := 2097152

  /** Both scans of the big bucket ss. */
  method CopyOrder(ptr: array<int>, block: array<int>, nblock: nat, ftab: seq<int>, ss: int, bigDone: seq<bool>,
                   ghost s: Job)
    requires ptr != block && ptr.Length == nblock <= block.Length
    requires s == Job(block[..nblock], s.cd, s.st, s.rk, ss, bigDone, ptr[..]) && Good(s)
    requires |ftab| == 65537 && forall k :: 0 <= k <= 65536 ==> ftab[k] >= 0 && ftab[k] % SETMASK == s.st[k]
    modifies ptr
    ensures After(s, ptr[..])
  {
    hide Good, Inv, IsPlaced, Bounds, Kept, After, Lo, Hi, Bb, Be, Placing, Uniform;
    GoodShape(s);
    var copyStart := seq(256, j requires 0 <= j < 256 => ftab[j * 256 + ss] % SETMASK);
    var copyEnd := seq(256, j requires 0 <= j < 256 => ftab[j * 256 + ss + 1] % SETMASK - 1);
    InvStart(s);
    var j := ftab[ss * 256] % SETMASK;
    StartPosIs(s, copyStart, copyEnd, j, ftab[(ss + 1) * 256] % SETMASK - 1);
    ghost var last := ftab[(ss + 1) * 256] % SETMASK - 1;
    InvBounds(s, ptr[..], Pos(copyStart, copyEnd, j, last));
    while j < copyStart[ss]
      invariant |copyStart| == |copyEnd| == 256 && block[..nblock] == s.b
      invariant Inv(s, ptr[..], Pos(copyStart, copyEnd, j, last))
      invariant j <= copyStart[ss] <= nblock
      decreases nblock - j
    {
      copyStart, copyEnd := CopyOne(ptr, block, nblock, bigDone, s, copyStart, copyEnd, j, true, last);
      j := j + 1;
      InvBounds(s, ptr[..], Pos(copyStart, copyEnd, j, last));
    }
    ghost var front := j;
    j := ftab[(ss + 1) * 256] % SETMASK - 1;
    InvBounds(s, ptr[..], Pos(copyStart, copyEnd, front, j));
    while j > copyEnd[ss]
      invariant |copyStart| == |copyEnd| == 256 && block[..nblock] == s.b
      invariant Inv(s, ptr[..], Pos(copyStart, copyEnd, front, j))
      invariant j >= copyEnd[ss] >= -1 && front == copyStart[ss]
      decreases j
    {
      copyStart, copyEnd := CopyOne(ptr, block, nblock, bigDone, s, copyStart, copyEnd, j, false, front);
      j := j - 1;
      InvBounds(s, ptr[..], Pos(copyStart, copyEnd, front, j));
    }
    Conclude(s, ptr[..], Pos(copyStart, copyEnd, front, j));
    // assertion 1007; its second form only for a block of one character
    assert copyStart[ss] - 1 == copyEnd[ss] || (copyStart[ss] == 0 && copyEnd[ss] == nblock - 1 && Uniform(s.b, ss));
  }

  lemma StartPosIs(s: Job, copyStart: seq<int>, copyEnd: seq<int>, j1: int, j2: int)
    requires |s.st| == 65537 && 0 <= s.ss < 256 && |copyStart| == |copyEnd| == 256
    requires forall c :: 0 <= c < 256 ==>
      copyStart[c] == s.st[c * 256 + s.ss] && copyEnd[c] == s.st[c * 256 + s.ss + 1] - 1
    requires j1 == s.st[s.ss * 256] && j2 == s.st[s.ss * 256 + 256] - 1
    ensures StartPos(s) == Pos(copyStart, copyEnd, j1, j2)
  {
    assert StartPos(s).cs == copyStart && StartPos(s).ce == copyEnd;
  }

  lemma InvBounds(s: Job, f: seq<int>, p: Pos)
    requires Inv(s, f, p)
    ensures |p.cs| == |p.ce| == 256 && 0 <= s.ss < 256 && p.j1 <= p.cs[s.ss] <= |s.b| && -1 <= p.ce[s.ss] <= p.j2
    ensures |s.b| == |f|
  {
    hide Good, Bounds, Kept, Succ, Told, Distinct, Ascending, Inv;
    InvParts(s, f, p);
    GoodShape(s);
    BoundsAt(s, p, s.ss);
    KeptLength(s, f, p);
  }

  /** How far the scans have come, given the place of one and that of the other. */
  function Both(cs: seq<int>, ce: seq<int>, j: int, left: bool, other: int): (p: Pos) {
    if left then Pos(cs, ce, j, other) else Pos(cs, ce, other, j)
  }

  /** The rotation before the one at the scan's place goes to its bucket, unless that is finished. */
  method CopyOne(ptr: array<int>, block: array<int>, nblock: nat, bigDone: seq<bool>, ghost s: Job, cs: seq<int>,
                 ce: seq<int>,
                 j: int, left: bool, ghost other: int)
    returns (copyStart: seq<int>, copyEnd: seq<int>)
    requires ptr != block && nblock <= block.Length && block[..nblock] == s.b && bigDone == s.done
    requires |cs| == |ce| == 256 && 0 <= s.ss < 256
    requires Inv(s, ptr[..], Both(cs, ce, j, left, other)) && More(s, Both(cs, ce, j, left, other), left)
    modifies ptr
    ensures |copyStart| == |copyEnd| == 256 && (left ==> copyEnd == ce) && (!left ==> copyStart == cs)
    ensures Inv(s, ptr[..], Both(copyStart, copyEnd, if left then j + 1 else j - 1, left, other))
  {
    hide Good, Inv, IsPlaced, Placing, Placed;
    ghost var p, f := Both(cs, ce, j, left, other), ptr[..];
    BeforeScanned(s, f, p, left);
    copyStart, copyEnd := cs, ce;
    var k := ptr[j] - 1;
    if k < 0 { k := k + nblock; }
    assert k == Prev(|s.b|, f[j]) && block[k] == block[..nblock][k];
    var c1 := block[k];
    DoneShape(s, f, p);
    if bigDone[c1] {
      StepSkipped(s, f, p, left);
      return;
    }
    StepFilled(s, f, p, c1, k, left);
    if left {
      ptr[copyStart[c1]] := k;
      assert ptr[..] == f[Free(p, c1, left) := k];
      copyStart := copyStart[c1 := copyStart[c1] + 1];
    } else {
      ptr[copyEnd[c1]] := k;
      assert ptr[..] == f[Free(p, c1, left) := k];
      copyEnd := copyEnd[c1 := copyEnd[c1] - 1];
    }
  }

  lemma DoneShape(s: Job, f: seq<int>, p: Pos)
    requires Inv(s, f, p)
    ensures |s.done| == 256 && |f| == |s.b|
  {
    hide Good, Inv;
    InvBounds(s, f, p);
    InvParts(s, f, p);
    GoodShape(s);
  }
}
