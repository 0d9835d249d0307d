/** mainQSort3: three-way quicksort of rotations by one character after the other. */
module MainQSort3 {
  import opened Rotations
  import opened QuadrantOrder
  import opened RotationRank
  import opened MainSimpleSort
  import opened Powers
  import QS = QuickSort3

  const STACK_SIZE := 100
  const SMALL_THRESH := 20
  const DEPTH_THRESH := 14

  /** A range still to be sorted, whose rotations agree on d characters. */
  datatype Item = Item(lo: int, hi: int, d: int)

  function Seg(p: Item): (s: QS.Segment) { QS.Segment(p.lo, p.hi) }

  function Segs(stack: seq<Item>): (s: seq<QS.Segment>)
    ensures |s| == |stack| && forall k :: 0 <= k < |stack| ==> s[k] == Seg(stack[k])
  {
    seq(|stack|, k requires 0 <= k < |stack| => Seg(stack[k]))
  }

  ghost predicate Shares(b: seq<int>, f: seq<int>, p: Item) {
    && 0 <= p.lo && p.hi < |f| && 2 <= p.d <= 15
    && (forall x :: p.lo <= x <= p.hi ==> 0 <= f[x] < |b|)
    && (forall x, y :: p.lo <= x <= p.hi && p.lo <= y <= p.hi ==> Compare(b, f[x], f[y], p.d) == 0)
  }

  ghost predicate AllShare(b: seq<int>, f: seq<int>, stack: seq<Item>) {
    forall k :: 0 <= k < |stack| ==> Shares(b, f, stack[k])
  }

  lemma SharesPool(b: seq<int>, f: seq<int>, p: Item)
    requires Shares(b, f, p) && p.lo <= p.hi
    ensures Pool(b, f, p.lo, p.hi, p.d, f[p.lo])
  {
    hide Compare;
  }

  lemma SharesPermuted(b: seq<int>, f: seq<int>, g: seq<int>, p: Item)
    requires Shares(b, f, p) && QS.Permuted(f, g, p.lo, p.hi)
    ensures Shares(b, g, p)
  {
    hide Compare;
    if p.lo <= p.hi {
      SharesPool(b, f, p);
      PoolPermuted(b, f, g, p.lo, p.hi, p.d, f[p.lo]);
      PoolShares(b, g, p, f[p.lo]);
    }
  }

  lemma PoolShares(b: seq<int>, f: seq<int>, p: Item, w: int)
    requires 2 <= p.d <= 15 && Pool(b, f, p.lo, p.hi, p.d, w)
    ensures Shares(b, f, p)
  {
    hide Compare;
    forall x, y | p.lo <= x <= p.hi && p.lo <= y <= p.hi ensures Compare(b, f[x], f[y], p.d) == 0 {
      CompareFlip(b, f[y], w, p.d);
      CompareTransitive(b, f[x], w, f[y], p.d);
    }
  }

  /** A part of a range shares what the range shares. */
  lemma SharesPart(b: seq<int>, f: seq<int>, p: Item, lo: int, hi: int)
    requires Shares(b, f, p) && p.lo <= lo && hi <= p.hi
    ensures Shares(b, f, Item(lo, hi, p.d))
  {
    hide Compare;
  }

  /** Ranges apart from the rearranged one keep what they share. */
  lemma SharesElsewhere(b: seq<int>, f: seq<int>, g: seq<int>, p: Item, q: Item)
    requires Shares(b, f, q) && QS.Permuted(f, g, p.lo, p.hi)
    requires p.hi < q.lo || q.hi < p.lo || p.lo > p.hi || q.lo > q.hi
    ensures Shares(b, g, q)
  {
    hide Compare;
  }

  lemma RestShares(b: seq<int>, f: seq<int>, g: seq<int>, rest: seq<Item>, p: Item)
    requires AllShare(b, f, rest + [p]) && QS.Permuted(f, g, p.lo, p.hi) && QS.Disjoint(Segs(rest + [p]))
    ensures AllShare(b, g, rest)
  {
    hide Shares;
    var s := Segs(rest + [p]);
    assert (rest + [p])[|rest|] == p && s[|rest|] == Seg(p);
    forall k | 0 <= k < |rest| ensures Shares(b, g, rest[k]) {
      assert (rest + [p])[k] == rest[k] && s[k] == Seg(rest[k]);
      SharesElsewhere(b, f, g, p, rest[k]);
    }
  }

  // ----- the characters at depth d

  /** The key of an entry is the character d places on in its rotation. */
  lemma DeepKey(block: seq<int>, b: seq<int>, f: seq<int>, p: Item, x: int)
    requires Overshoots(block, b) && Shares(b, f, p) && p.lo <= x <= p.hi && p.d <= 15
    ensures 0 <= f[x] < |block| - p.d && 0 <= f[x] < |b|
    ensures QS.Key(f, block[p.d..], x) == b[Rotations.Advance(|b|, f[x], p.d)]
  {
    hide Compare, Rotations.Advance, Overshoots;
    OvershootSizes(block, b);
    AdvanceWraps(|b|, f[x], p.d);
    OvershootAt(block, b, f[x] + p.d);
  }

  lemma SmallerKey(block: seq<int>, b: seq<int>, f: seq<int>, p: Item, x: int, y: int)
    requires Overshoots(block, b) && Shares(b, f, p) && p.lo <= x <= p.hi && p.lo <= y <= p.hi
    requires QS.Key(f, block[p.d..], x) < QS.Key(f, block[p.d..], y)
    ensures QS.Key(f, Ranks(b), x) <= QS.Key(f, Ranks(b), y)
  {
    hide Compare, Ranks, Rotations.Advance;
    DeepKey(block, b, f, p, x);
    DeepKey(block, b, f, p, y);
    var c1, c2 := Rotations.Advance(|b|, f[x], p.d), Rotations.Advance(|b|, f[y], p.d);
    assert Agreed(b, f[x], f[y], p.d, c1, c2);
    DecidedByBlock(b, f[x], f[y], p.d, c1, c2);
    RankOrder(b, f[x], f[y]);
  }

  /** Entries with equal keys share one character more. */
  lemma SameKeyShares(block: seq<int>, b: seq<int>, f: seq<int>, p: Item, med: int, lo: int, hi: int)
    requires Overshoots(block, b) && Shares(b, f, p) && p.lo <= lo && hi <= p.hi && p.d <= 14
    requires QS.AllAre(f, block[p.d..], med, lo, hi)
    ensures Shares(b, f, Item(lo, hi, p.d + 1))
  {
    hide Compare, Rotations.Advance;
    forall x, y | lo <= x <= hi && lo <= y <= hi ensures Compare(b, f[x], f[y], p.d + 1) == 0 {
      DeepKey(block, b, f, p, x);
      DeepKey(block, b, f, p, y);
      EqualExtend(b, f[x], f[y], p.d);
    }
  }

  lemma DeepIndices(block: seq<int>, b: seq<int>, f: seq<int>, p: Item)
    requires Overshoots(block, b) && Shares(b, f, p) && p.lo <= p.hi
    ensures p.d <= |block| && QS.Indices(f, block[p.d..], p.lo, p.hi)
  {
    hide Compare, Overshoots;
    OvershootSizes(block, b);
  }

  /** The three parts are in order among each other. */
  lemma PartsOrdered(block: seq<int>, b: seq<int>, f: seq<int>, p: Item, med: int, n: int, m: int, q: seq<QS.Segment>)
    requires 0 <= p.d <= |block| && Overshoots(block, b) && Shares(b, f, p)
    requires QS.ThreeWay(f, block[p.d..], med, p.lo, n, m, p.hi)
    requires forall s :: s in [QS.Segment(p.lo, n), QS.Segment(n + 1, m - 1), QS.Segment(m, p.hi)] ==> s in q
    ensures forall x, y :: p.lo <= x < y <= p.hi && !QS.Together(q, x, y) ==>
      QS.Key(f, Ranks(b), x) <= QS.Key(f, Ranks(b), y)
  {
    hide Shares, Overshoots, Ranks;
    forall x, y | p.lo <= x < y <= p.hi && !QS.Together(q, x, y)
      ensures QS.Key(f, Ranks(b), x) <= QS.Key(f, Ranks(b), y)
    {
      var s := [QS.Segment(p.lo, n), QS.Segment(n + 1, m - 1), QS.Segment(m, p.hi)];
      assert s[0] in s && s[1] in s && s[2] in s;
      if QS.Key(f, block[p.d..], x) < QS.Key(f, block[p.d..], y) {
        SmallerKey(block, b, f, p, x, y);
      } else {
        InOneOf(q, if y <= n then s[0] else if y < m then s[1] else s[2], x, y);
      }
    }
  }

  lemma InOneOf(q: seq<QS.Segment>, s: QS.Segment, x: int, y: int)
    requires s in q && s.lo <= x <= y <= s.hi
    ensures QS.Together(q, x, y)
  {
    var k :| 0 <= k < |q| && q[k] == s;
  }

  // ----- depth of the stack, and termination

  function Size(p: Item): (r: int) { p.hi - p.lo + 1 }

  function Pow3(k: nat): (r: nat)
    ensures r >= 1
  {
    if k == 0 then 1 else 3 * Pow3(k - 1)
  }

  /** The range at place k of the stack is at most total / sqrt(3)^k large. */
  ghost predicate Thirding(stack: seq<Item>, total: int) {
    && (forall k :: 0 <= k < |stack| ==>
      0 <= Size(stack[k]) && Size(stack[k]) * Size(stack[k]) * Pow3(k) <= total * total)
    && (forall k :: 0 <= k < |stack| - 1 ==> 1 <= Size(stack[k]))
  }

  lemma {:induction false} Pow3Monotone(j: nat, k: nat)
    requires j <= k
    ensures Pow3(j) <= Pow3(k)
    decreases k
  {
    if j < k { Pow3Monotone(j, k - 1); }
  }

  lemma Pow3Value()
    ensures Pow3(27) == 7625597484987
  {
    assert Pow3(9) == 19683;
    assert Pow3(18) == 387420489;
  }

  lemma DepthBound(stack: seq<Item>, total: int)
    requires Thirding(stack, total) && 0 <= total <= 900000
    ensures |stack| <= 28
  {
    if |stack| > 28 {
      var k := |stack| - 2;
      var s := Size(stack[k]);
      Pow3Value();
      Pow3Monotone(27, k);
      TotalSquare(total);
      SquarePositive(s, Pow3(k));
    }
  }

  lemma TotalSquare(total: int)
    requires 0 <= total <= 900000
    ensures total * total <= 810000000000
  {
    MulMonotone(total, 900000, total);
    MulMonotone(total, 900000, 900000);
  }

  lemma SquarePositive(s: int, w: int)
    requires s >= 1 && w >= 1
    ensures s * s * w >= w
  {
    assert s * s >= 1;
  }

  /** Three parts, the largest pushed first. */
  lemma ThirdArithmetic(p: int, a: int, c: int, e: int, w: int, total: int)
    requires p * p * w <= total * total && w >= 1 && 0 <= e <= c <= a && a + c + e == p
    ensures a * a * w <= total * total && c * c * (3 * w) <= total * total && e * e * (9 * w) <= total * total
  {
    Squares(a, p, w);
    Squares(2 * c, p, w);
    Squares(3 * e, p, w);
    SquareNonnegative(c, w);
    FourSquares(c, w);
    NineSquares(e, w);
  }

  lemma FourSquares(c: int, w: int)
    ensures (2 * c) * (2 * c) * w == 4 * (c * c * w) && c * c * (3 * w) == 3 * (c * c * w)
  {
    assert (2 * c) * (2 * c) == 4 * (c * c);
  }

  lemma NineSquares(e: int, w: int)
    ensures (3 * e) * (3 * e) * w == 9 * (e * e * w) && e * e * (9 * w) == 9 * (e * e * w)
  {
    assert (3 * e) * (3 * e) == 9 * (e * e);
  }

  lemma SquareNonnegative(c: int, w: int)
    requires w >= 1
    ensures c * c * w >= 0
  {
    assert c * c >= 0;
  }

  lemma Squares(x: int, y: int, w: int)
    requires 0 <= x <= y && w >= 1
    ensures x * x * w <= y * y * w
  {
    MulMonotone(x, y, x);
    MulMonotone(x, y, y);
    MulMonotone(x * x, y * y, w);
  }

  lemma ThirdingPush(rest: seq<Item>, p: Item, a: Item, c: Item, e: Item, total: int)
    requires Thirding(rest + [p], total)
    requires 0 <= Size(e) <= Size(c) <= Size(a) && 1 <= Size(c) && Size(a) + Size(c) + Size(e) == Size(p)
    ensures Thirding(rest + [a, c, e], total)
  {
    var s, t := rest + [p], rest + [a, c, e];
    assert s[|rest|] == p;
    ThirdArithmetic(Size(p), Size(a), Size(c), Size(e), Pow3(|rest|), total);
    forall k | 0 <= k < |t| ensures 0 <= Size(t[k]) && Size(t[k]) * Size(t[k]) * Pow3(k) <= total * total {
      if k < |rest| { assert s[k] == t[k]; }
    }
    forall k | 0 <= k < |t| - 1 ensures 1 <= Size(t[k]) {
      if k < |rest| { assert s[k] == t[k]; }
    }
  }

  lemma ThirdingDeeper(rest: seq<Item>, p: Item, total: int)
    requires Thirding(rest + [p], total)
    ensures Thirding(rest + [p.(d := p.d + 1)], total) && Thirding(rest, total) && 0 <= Size(p)
  {
    var s, t := rest + [p], rest + [p.(d := p.d + 1)];
    assert s[|rest|] == p;
    forall k | 0 <= k < |t|
      ensures 0 <= Size(t[k]) && Size(t[k]) * Size(t[k]) * Pow3(k) <= total * total
    {
      assert Size(s[k]) == Size(t[k]);
    }
    forall k | 0 <= k < |t| - 1 ensures 1 <= Size(t[k]) { assert s[k] == t[k]; }
    forall k | 0 <= k < |rest| ensures s[k] == rest[k] {}
  }

  /** Work left: every item is three units a character it may still go down. */
  ghost function Work(stack: seq<Item>): (r: int) {
    if stack == [] then 0 else Work(stack[..|stack| - 1]) + Burden(stack[|stack| - 1])
  }

  function Burden(p: Item): (r: int) { 3 * Size(p) * (17 - p.d) + 1 }

  lemma WorkPush(rest: seq<Item>, p: Item)
    ensures Work(rest + [p]) == Work(rest) + Burden(p)
  {
    assert (rest + [p])[..|rest|] == rest;
  }

  lemma {:induction false} WorkNonnegative(stack: seq<Item>)
    requires forall k :: 0 <= k < |stack| ==> Size(stack[k]) >= 0 && stack[k].d <= 15
    ensures Work(stack) >= 0
  {
    if stack != [] {
      WorkNonnegative(stack[..|stack| - 1]);
      BurdenPositive(stack[|stack| - 1]);
    }
  }

  lemma BurdenPositive(p: Item)
    requires Size(p) >= 0 && p.d <= 15
    ensures Burden(p) >= 1
  {
    assert Size(p) * (17 - p.d) >= 0;
  }

  lemma BurdenParts(p: Item, a: Item, c: Item, e: Item)
    requires Size(a) + Size(c) + Size(e) == Size(p) && p.d <= 15 && 0 <= Size(a) && 0 <= Size(c) && 0 <= Size(e)
    requires a.d == p.d && e.d == p.d && c.d == p.d + 1 && Size(c) >= 1
    ensures Burden(a) + Burden(c) + Burden(e) < Burden(p)
  {
    var k := 17 - p.d;
    assert Burden(a) == 3 * (Size(a) * k) + 1 && Burden(e) == 3 * (Size(e) * k) + 1;
    assert Burden(c) == 3 * (Size(c) * k) - 3 * Size(c) +
      1 by { assert Size(c) * (k - 1) == Size(c) * k - Size(c); assert 3 * Size(c) * (k - 1) ==
      3 * (Size(c) * (k - 1)); }
    assert Burden(p) == 3 * (Size(p) * k) + 1;
    assert Size(p) * k == Size(a) * k + Size(c) * k + Size(e) * k;
  }

  lemma BurdenDeeper(p: Item)
    requires Size(p) >= 1
    ensures Burden(p.(d := p.d + 1)) < Burden(p)
  {
    assert 3 * Size(p) * (17 - (p.d + 1)) == 3 * Size(p) * (17 - p.d) - 3 * Size(p);
  }

  // ----- putting it together

  /** Loop invariant of mainQSort3. */
  ghost predicate Sorting(b: seq<int>, f0: seq<int>, f: seq<int>, lo: int, hi: int, stack: seq<Item>) {
    && QS.Permuted(f0, f, lo, hi) && QS.Indices(f, Ranks(b), lo, hi)
    && QS.Separated(f, Ranks(b), lo, hi, Segs(stack)) && AllShare(b, f, stack) && Thirding(stack, hi - lo + 1)
  }

  lemma SortingStart(b: seq<int>, f: seq<int>, p: Item)
    requires Shares(b, f, p) && p.lo <= p.hi + 1
    ensures Sorting(b, f, f, p.lo, p.hi, [p])
  {
    hide Compare;
    assert Segs([p])[0] == Seg(p);
    forall x, y | p.lo <= x < y <= p.hi ensures QS.Together(Segs([p]), x, y) {}
  }

  lemma SortingTop(b: seq<int>, f0: seq<int>, f: seq<int>, lo: int, hi: int, rest: seq<Item>, p: Item)
    requires Sorting(b, f0, f, lo, hi, rest + [p])
    ensures lo <= p.lo <= p.hi + 1 <= hi + 1 && Shares(b, f, p) && Size(p) >= 0
    ensures Work(rest) >= 0 && Work(rest + [p]) == Work(rest) + Burden(p) && Burden(p) >= 1
    ensures Segs(rest + [p]) == Segs(rest) + [Seg(p)]
  {
    hide Shares, QS.Permuted, QS.Indices;
    var s := rest + [p];
    assert s[|rest|] == p && Segs(s)[|rest|] == Seg(p);
    forall k | 0 <= k < |rest|
      ensures s[k] == rest[k] && Size(rest[k]) >= 0 && rest[k].d <= 15
    {
      assert Shares(b, f, s[k]);
      SharesDepth(b, f, s[k]);
    }
    SharesDepth(b, f, p);
    WorkNonnegative(rest);
    WorkPush(rest, p);
    BurdenPositive(p);
  }

  lemma SharesDepth(b: seq<int>, f: seq<int>, p: Item)
    requires Shares(b, f, p)
    ensures 2 <= p.d <= 15
  {
  }

  lemma SortingDepth(b: seq<int>, f0: seq<int>, f: seq<int>, lo: int, hi: int, stack: seq<Item>)
    requires Sorting(b, f0, f, lo, hi, stack) && lo - 1 <= hi && hi - lo < 900000
    ensures |stack| < STACK_SIZE - 2
  {
    DepthBound(stack, hi - lo + 1);
  }

  /** What the top item is replaced by: items inside it that share, with everything else in order. */
  lemma Replaced(b: seq<int>, f0: seq<int>, f: seq<int>, g: seq<int>, lo: int, hi: int, rest: seq<Item>, p: Item,
                 q: seq<Item>)
    requires Sorting(b, f0, f, lo, hi, rest + [p]) && QS.Permuted(f, g, p.lo, p.hi)
    requires AllShare(b, g, q) && QS.Within(Segs(q), p.lo, p.hi) && QS.Disjoint(Segs(q))
    requires forall x, y :: p.lo <= x < y <= p.hi && !QS.Together(Segs(q), x, y) ==>
      QS.Key(g, Ranks(b), x) <= QS.Key(g, Ranks(b), y)
    requires Thirding(rest + q, hi - lo + 1)
    ensures Sorting(b, f0, g, lo, hi, rest + q)
  {
    hide Shares, QS.Permuted, QS.Indices, QS.Separated, Thirding, Ranks;
    SortingTop(b, f0, f, lo, hi, rest, p);
    QS.PermutedWiden(f, g, p.lo, p.hi, lo, hi);
    QS.PermutedTransitive(f0, f, g, lo, hi);
    QS.PermutedIndices(f, g, Ranks(b), lo, hi);
    QS.IndicesBounds(f, Ranks(b), lo, hi);
    SeparatedDisjoint(f, Ranks(b), lo, hi, Segs(rest + [p]));
    RestShares(b, f, g, rest, p);
    QS.RefineTop(f, g, Ranks(b), lo, hi, Segs(rest), Seg(p), Segs(q));
    assert Segs(rest + q) == Segs(rest) + Segs(q);
    forall k | 0 <= k < |rest + q| ensures Shares(b, g, (rest + q)[k]) {
      if k >= |rest| { assert (rest + q)[k] == q[k - |rest|]; }
    }
  }

  lemma SeparatedDisjoint(f: seq<int>, ec: seq<int>, lo: int, hi: int, stack: seq<QS.Segment>)
    requires QS.Separated(f, ec, lo, hi, stack)
    ensures QS.Disjoint(stack)
  {
  }

  /** A range that has been sorted leaves the stack. */
  lemma SortedPop(b: seq<int>, f0: seq<int>, f: seq<int>, g: seq<int>, lo: int, hi: int, rest: seq<Item>, p: Item)
    requires Sorting(b, f0, f, lo, hi, rest + [p]) && QS.Permuted(f, g, p.lo, p.hi)
    requires QS.SortedKeys(g, Ranks(b), p.lo, p.hi)
    ensures Sorting(b, f0, g, lo, hi, rest)
  {
    hide Shares, QS.Permuted, QS.Indices, QS.Separated, Ranks, Thirding;
    SortingThirding(b, f0, f, lo, hi, rest + [p]);
    ThirdingDeeper(rest, p, hi - lo + 1);
    assert rest + [] == rest;
    Replaced(b, f0, f, g, lo, hi, rest, p, []);
  }

  lemma SortingThirding(b: seq<int>, f0: seq<int>, f: seq<int>, lo: int, hi: int, stack: seq<Item>)
    requires Sorting(b, f0, f, lo, hi, stack)
    ensures Thirding(stack, hi - lo + 1)
  {
  }

  /** A range whose rotations agree on one character more. */
  lemma DeeperPush(b: seq<int>, f0: seq<int>, f: seq<int>, g: seq<int>, lo: int, hi: int, rest: seq<Item>, p: Item)
    requires Sorting(b, f0, f, lo, hi, rest + [p]) && QS.Permuted(f, g, p.lo, p.hi) && Size(p) >= 1
    requires Shares(b, g, p.(d := p.d + 1))
    ensures Sorting(b, f0, g, lo, hi, rest + [p.(d := p.d + 1)])
    ensures 0 <= Work(rest + [p.(d := p.d + 1)]) < Work(rest + [p])
  {
    hide Shares, QS.Permuted, QS.Indices, QS.Separated, Ranks, Thirding, Work;
    SortingTop(b, f0, f, lo, hi, rest, p);
    SortingThirding(b, f0, f, lo, hi, rest + [p]);
    ThirdingDeeper(rest, p, hi - lo + 1);
    var q := [p.(d := p.d + 1)];
    assert Segs(q)[0] == Seg(p);
    forall x, y | p.lo <= x < y <= p.hi ensures QS.Together(Segs(q), x, y) {}
    Replaced(b, f0, f, g, lo, hi, rest, p, q);
    WorkPush(rest, p.(d := p.d + 1));
    BurdenDeeper(p);
    SharesDepth(b, g, p.(d := p.d + 1));
    BurdenPositive(p.(d := p.d + 1));
  }

  /** The three parts in the order in which they are pushed. */
  ghost predicate Parts(p: Item, n: int, m: int, q: seq<Item>) {
    && |q| == 3 && multiset(q) == multiset{Item(p.lo, n, p.d), Item(n + 1, m - 1, p.d + 1), Item(m, p.hi, p.d)}
    && Size(q[0]) >= Size(q[1]) >= Size(q[2])
  }

  lemma PartsAre(p: Item, n: int, m: int, q: seq<Item>)
    requires Parts(p, n, m, q)
    ensures var a, c, e := Item(p.lo, n, p.d), Item(n + 1, m - 1, p.d + 1), Item(m, p.hi, p.d);
            || q == [a, c, e] || q == [a, e, c] || q == [c, a, e] || q == [c, e, a] || q == [e, a, c] || q == [e, c, a]
  {
    var a, c, e := Item(p.lo, n, p.d), Item(n + 1, m - 1, p.d + 1), Item(m, p.hi, p.d);
    var s := multiset{a, c, e};
    assert q == [q[0], q[1], q[2]];
    assert multiset(q) == multiset{q[0], q[1], q[2]};
    assert q[0] in s && q[1] in s && q[2] in s;
    assert a in multiset(q) && c in multiset(q) && e in multiset(q);
  }

  /** Each part shares what it should. */
  lemma PartsShare(b: seq<int>, g: seq<int>, block: seq<int>, p: Item, med: int, n: int, m: int, q: seq<Item>)
    requires Shares(b, g, p) && Overshoots(block, b) && 0 <= p.d <= 14 && p.d <= |block|
    requires QS.ThreeWay(g, block[p.d..], med, p.lo, n, m, p.hi) && Parts(p, n, m, q)
    ensures AllShare(b, g, q)
  {
    hide Shares, Overshoots, QS.AllAre, Parts;
    PartsAre(p, n, m, q);
    MiddleAre(g, block, p, med, n, m);
    SharesPart(b, g, p, p.lo, n);
    SharesPart(b, g, p, m, p.hi);
    SameKeyShares(block, b, g, p, med, n + 1, m - 1);
  }

  lemma PartsWork(rest: seq<Item>, p: Item, n: int, m: int, q: seq<Item>)
    requires Parts(p, n, m, q) && p.lo - 1 <= n && n + 1 < m <= p.hi + 1 && 0 <= p.d <= 14
    ensures Work(rest) <= Work(rest + q) < Work(rest) + Burden(p)
  {
    hide Work, Burden, Parts;
    PartsAre(p, n, m, q);
    var a, c, e := Item(p.lo, n, p.d), Item(n + 1, m - 1, p.d + 1), Item(m, p.hi, p.d);
    assert q == [q[0], q[1], q[2]];
    WorkThree(rest, q[0], q[1], q[2]);
    BurdenParts(p, a, c, e);
    BurdenPositive(a);
    BurdenPositive(c);
    BurdenPositive(e);
  }

  lemma PartedPush(b: seq<int>, f0: seq<int>, f: seq<int>, g: seq<int>, block: seq<int>, lo: int, hi: int,
                   rest: seq<Item>, p: Item,
                   med: int, n: int, m: int, q: seq<Item>)
    requires Sorting(b, f0, f, lo, hi, rest + [p]) && QS.Permuted(f, g, p.lo, p.hi) && Overshoots(block, b)
    requires 0 <= p.d <= 14 && p.d <= |block| && QS.ThreeWay(g, block[p.d..], med, p.lo, n, m, p.hi)
    requires (p.lo <= n || m <= p.hi)
    requires Parts(p, n, m, q)
    ensures Sorting(b, f0, g, lo, hi, rest + q) && 0 <= Work(rest + q) < Work(rest + [p])
  {
    hide *;
    SortingTop(b, f0, f, lo, hi, rest, p);
    SharesPermuted(b, f, g, p);
    SortingThirding(b, f0, f, lo, hi, rest + [p]);
    PartsShare(b, g, block, p, med, n, m, q);
    MiddleAre(g, block, p, med, n, m);
    PartsShape(p, n, m, q);
    PartsOrdered(block, b, g, p, med, n, m, Segs(q));
    assert q == [q[0], q[1], q[2]];
    ThirdingPush(rest, p, q[0], q[1], q[2], hi - lo + 1);
    Replaced(b, f0, f, g, lo, hi, rest, p, q);
    PartsWork(rest, p, n, m, q);
  }

  lemma MiddleAre(g: seq<int>, block: seq<int>, p: Item, med: int, n: int, m: int)
    requires 0 <= p.d <= |block| && QS.ThreeWay(g, block[p.d..], med, p.lo, n, m, p.hi)
    ensures p.lo - 1 <= n && n + 1 < m <= p.hi + 1 && QS.AllAre(g, block[p.d..], med, n + 1, m - 1)
  {
  }

  predicate Apart(s: QS.Segment, t: QS.Segment) {
    s.hi < t.lo || t.hi < s.lo
  }

  predicate Inside(s: QS.Segment, lo: int, hi: int) {
    lo <= s.lo <= s.hi + 1 <= hi + 1
  }

  lemma ThreeApart(s: seq<QS.Segment>, lo: int, hi: int)
    requires |s| == 3 && Apart(s[0], s[1]) && Apart(s[0], s[2]) && Apart(s[1], s[2])
    requires Inside(s[0], lo, hi) && Inside(s[1], lo, hi) && Inside(s[2], lo, hi)
    ensures QS.Within(s, lo, hi) && QS.Disjoint(s)
  {
  }

  lemma PartsShape(p: Item, n: int, m: int, q: seq<Item>)
    requires p.lo - 1 <= n && n + 1 < m <= p.hi + 1 && (p.lo <= n || m <= p.hi) && Parts(p, n, m, q)
    ensures |q| == 3 && QS.Within(Segs(q), p.lo, p.hi) && QS.Disjoint(Segs(q))
    ensures forall s :: s in [QS.Segment(p.lo, n), QS.Segment(n + 1, m - 1), QS.Segment(m, p.hi)] ==> s in Segs(q)
    ensures Size(q[0]) + Size(q[1]) + Size(q[2]) == Size(p) && 0 <= Size(q[2]) <= Size(q[1]) <= Size(q[0])
    ensures 1 <= Size(q[1])
  {
    hide Parts, QS.Within, QS.Disjoint, Apart, Inside, Seg, Size;
    PartsAre(p, n, m, q);
    PartsSizes(p, n, m, q);
    var s := Segs(q);
    var a, c, e := QS.Segment(p.lo, n), QS.Segment(n + 1, m - 1), QS.Segment(m, p.hi);
    PartsApart(p, n, m);
    assert s[0] == Seg(q[0]) && s[1] == Seg(q[1]) && s[2] == Seg(q[2]);
    ThreeApart(s, p.lo, p.hi);
  }

  lemma PartsApart(p: Item, n: int, m: int)
    requires p.lo - 1 <= n && n + 1 < m <= p.hi + 1
    ensures var a, c, e := Seg(Item(p.lo, n, p.d)), Seg(Item(n + 1, m - 1, p.d + 1)), Seg(Item(m, p.hi, p.d));
            && Inside(a, p.lo, p.hi) && Inside(c, p.lo, p.hi) && Inside(e, p.lo, p.hi)
            && Apart(a, c) && Apart(a, e) && Apart(c, e) && Apart(c, a) && Apart(e, a) && Apart(e, c)
            && a == QS.Segment(p.lo, n) && c == QS.Segment(n + 1, m - 1) && e == QS.Segment(m, p.hi)
  {
  }

  lemma PartsSizes(p: Item, n: int, m: int, q: seq<Item>)
    requires p.lo - 1 <= n && n + 1 < m <= p.hi + 1 && (p.lo <= n || m <= p.hi) && Parts(p, n, m, q)
    ensures |q| == 3
    ensures Size(q[0]) + Size(q[1]) + Size(q[2]) == Size(p) && 0 <= Size(q[2]) <= Size(q[1]) <= Size(q[0])
    ensures 1 <= Size(q[1])
  {
    PartsAre(p, n, m, q);
  }

  lemma WorkThree(rest: seq<Item>, a: Item, c: Item, e: Item)
    ensures Work(rest + [a, c, e]) == Work(rest) + Burden(a) + Burden(c) + Burden(e)
  {
    WorkPush(rest, a);
    WorkPush(rest + [a], c);
    WorkPush(rest + [a] + [c], e);
    assert rest + [a] + [c] + [e] == rest + [a, c, e];
  }

  /** mmed3 */
  function Med3(a0: int, b0: int, c: int): (r: int)
    ensures r == a0 || r == b0 || r == c
    ensures (r >= a0 && r >= b0) || (r >= a0 && r >= c) || (r >= b0 && r >= c)
    ensures (r <= a0 && r <= b0) || (r <= a0 && r <= c) || (r <= b0 && r <= c)
  {
    var a, b := if a0 > b0 then b0 else a0, if a0 > b0 then a0 else b0;
    if b > c then (if a > c then a else c) else b
  }

  /** The median of three characters at depth d, and an entry that has it. */
  method Median(ptr: array<int>, block: array<int>, p: Item, ghost b: seq<int>) returns (med: int, ghost pivot: int)
    requires Overshoots(block[..], b) && Shares(b, ptr[..], p) && p.lo <= p.hi
    ensures p.d <= block.Length && p.lo <= pivot <= p.hi && QS.Key(ptr[..], block[p.d..], pivot) == med
    ensures med == Med3(QS.Key(ptr[..], block[p.d..], p.lo), QS.Key(ptr[..], block[p.d..], p.hi),
                        QS.Key(ptr[..], block[p.d..], (p.lo + p.hi) / 2))
  {
    hide Shares, Overshoots;
    var mid := (p.lo + p.hi) / 2;
    EntryAt(block[..], b, ptr[..], p, p.lo);
    EntryAt(block[..], b, ptr[..], p, p.hi);
    EntryAt(block[..], b, ptr[..], p, mid);
    med := Med3(block[ptr[p.lo] + p.d], block[ptr[p.hi] + p.d], block[ptr[mid] + p.d]);
    pivot := if med == block[ptr[p.lo] + p.d] then p.lo else if med == block[ptr[p.hi] + p.d] then p.hi else mid;
  }

  lemma EntryAt(block: seq<int>, b: seq<int>, f: seq<int>, p: Item, x: int)
    requires Overshoots(block, b) && Shares(b, f, p) && p.lo <= x <= p.hi
    ensures 2 <= p.d <= 15 && 0 <= x < |f| && 0 <= f[x] < |b| && f[x] + p.d < |block|
    ensures QS.Key(f, block[p.d..], x) == block[f[x] + p.d]
  {
    hide Compare;
    DeepKey(block, b, f, p, x);
  }

  /** Three ranges, the largest first. */
  method Ordered(a0: Item, c0: Item, e0: Item) returns (a: Item, c: Item, e: Item)
    ensures multiset{a, c, e} == multiset{a0, c0, e0} && Size(a) >= Size(c) >= Size(e)
  {
    a, c, e := a0, c0, e0;
    if a.hi - a.lo < c.hi - c.lo { a, c := c, a; }
    if c.hi - c.lo < e.hi - e.lo { c, e := e, c; }
    if a.hi - a.lo < c.hi - c.lo { a, c := c, a; }
  }

  /** mainQSort3: the rotations in ptr[loSt..hiSt] are sorted, unless the budget runs out. The
      stack never reaches the size at which the source gives up. */
  method Sort(ptr: array<int>, block: array<int>, quadrant: array<int>, nblock: nat, loSt: int, hiSt: int, dSt: nat,
              budget0: int,
              ghost b: seq<int>)
    returns (budget: int)
    requires ptr != block && ptr != quadrant && |b| == nblock <= 900000 && Comparable(block[..], quadrant[..], b)
    requires Shares(b, ptr[..], Item(loSt, hiSt, dSt)) && loSt <= hiSt + 1 && hiSt - loSt < 900000
    modifies ptr
    ensures QS.Permuted(old(ptr[..]), ptr[..], loSt, hiSt) && budget <= budget0
    ensures budget < budget0 && Once(old(ptr[..])) ==> Repetitive(b)
    ensures budget >= 0 ==> QS.SortedKeys(ptr[..], Ranks(b), loSt, hiSt)
  {
    hide *;
    ghost var f0 := ptr[..];
    budget := budget0;
    ComparableIs(block[..], quadrant[..], b);
    var stack := [Item(loSt, hiSt, dSt)];
    SortingStart(b, f0, Item(loSt, hiSt, dSt));
    while stack != []
      invariant block[..] == old(block[..]) && quadrant[..] == old(quadrant[..]) && budget <= budget0
      invariant budget < budget0 && Once(f0) ==> Repetitive(b)
      invariant Sorting(b, f0, ptr[..], loSt, hiSt, stack)
      decreases Work(stack)
    {
      ghost var f := ptr[..];
      SortingDepth(b, f0, f, loSt, hiSt, stack);
      assert |stack| < STACK_SIZE - 2;
      var p, rest := stack[|stack| - 1], stack[..|stack| - 1];
      assert stack == rest + [p];
      SortingTop(b, f0, f, loSt, hiSt, rest, p);
      SharesDepth(b, f, p);
      SizeIs(p);
      if p.hi - p.lo < SMALL_THRESH || p.d > DEPTH_THRESH {
        if Once(f0) { SortingOnce(b, f0, f, loSt, hiSt, stack); }
        budget := Small(ptr, block, quadrant, nblock, p, budget, b);
        if budget < 0 {
          SortingPermuted(b, f0, f, ptr[..], loSt, hiSt, stack, p);
          return;
        }
        SortedPop(b, f0, f, ptr[..], loSt, hiSt, rest, p);
        stack := rest;
        continue;
      }
      ghost var pivot;
      var med, done, n, m;
      med, pivot := Median(ptr, block, p, b);
      DeepIndices(block[..], b, f, p);
      DropIs(block, p.d);
      done, n, m := QS.Split(ptr, block, p.d, p.lo, p.hi, med, pivot);
      DropIs(block, p.d);
      if done {
        SharesPermuted(b, f, ptr[..], p);
        SameKeyShares(block[..], b, ptr[..], p, med, p.lo, p.hi);
        DeeperPush(b, f0, f, ptr[..], loSt, hiSt, rest, p);
        stack := rest + [Item(p.lo, p.hi, p.d + 1)];
        continue;
      }
      var x, y, z := Ordered(Item(p.lo, n, p.d), Item(m, p.hi, p.d), Item(n + 1, m - 1, p.d + 1));
      PartsMake(p, n, m, x, y, z);
      PartedPush(b, f0, f, ptr[..], block[..], loSt, hiSt, rest, p, med, n, m, [x, y, z]);
      stack := rest + [x, y, z];
    }
    SortingDone(b, f0, ptr[..], loSt, hiSt);
  }

  lemma DropIs(block: array<int>, d: nat)
    requires d <= block.Length
    ensures block[..][d..] == block[d..]
  {
  }

  lemma SizeIs(p: Item)
    ensures Size(p) == p.hi - p.lo + 1 && SMALL_THRESH == 20 && DEPTH_THRESH == 14
  {
  }

  lemma PartsMake(p: Item, n: int, m: int, x: Item, y: Item, z: Item)
    requires multiset{x, y, z} == multiset{Item(p.lo, n, p.d), Item(m, p.hi, p.d), Item(n + 1, m - 1, p.d + 1)}
    requires Size(x) >= Size(y) >= Size(z)
    ensures Parts(p, n, m, [x, y, z])
  {
  }

  /** mainSimpleSort on one range. */
  method Small(ptr: array<int>, block: array<int>, quadrant: array<int>, nblock: nat, p: Item, budget0: int,
               ghost b: seq<int>)
    returns (budget: int)
    requires ptr != block && ptr != quadrant && |b| == nblock <= 900000 && Comparable(block[..], quadrant[..], b)
    requires Shares(b, ptr[..], p) && p.hi - p.lo < 900000 && p.lo <= p.hi + 1
    modifies ptr
    ensures QS.Permuted(old(ptr[..]), ptr[..], p.lo, p.hi) && budget <= budget0
    ensures budget < budget0 && Once(old(ptr[..])) ==> Repetitive(b)
    ensures budget >= 0 ==> QS.SortedKeys(ptr[..], Ranks(b), p.lo, p.hi)
  {
    hide *;
    ComparableIs(block[..], quadrant[..], b);
    ghost var w := PoolOf(b, ptr[..], p);
    budget := SimpleSort(ptr, block, quadrant, nblock, p.lo, p.hi, p.d, budget0, b, w);
  }

  lemma PoolOf(b: seq<int>, f: seq<int>, p: Item) returns (w: int)
    requires Shares(b, f, p) && b != []
    ensures 2 <= p.d <= 15 && Pool(b, f, p.lo, p.hi, p.d, w)
  {
    hide Compare;
    w := if p.lo <= p.hi then f[p.lo] else 0;
  }

  lemma SortingPermuted(b: seq<int>, f0: seq<int>, f: seq<int>, g: seq<int>, lo: int, hi: int, stack: seq<Item>,
                        p: Item)
    requires Sorting(b, f0, f, lo, hi, stack) && QS.Permuted(f, g, p.lo, p.hi) && lo <= p.lo && p.hi <= hi
    ensures QS.Permuted(f0, g, lo, hi)
  {
    hide Shares, QS.Separated, Thirding, Ranks;
    QS.PermutedWiden(f, g, p.lo, p.hi, lo, hi);
    QS.PermutedTransitive(f0, f, g, lo, hi);
  }

  lemma SortingOnce(b: seq<int>, f0: seq<int>, f: seq<int>, lo: int, hi: int, stack: seq<Item>)
    requires Sorting(b, f0, f, lo, hi, stack) && Once(f0)
    ensures Once(f)
  {
    hide Shares, QS.Separated, Thirding, Ranks, QS.Permuted, Once;
    OncePermuted(f0, f, lo, hi);
  }

  lemma SortingDone(b: seq<int>, f0: seq<int>, f: seq<int>, lo: int, hi: int)
    requires Sorting(b, f0, f, lo, hi, [])
    ensures QS.Permuted(f0, f, lo, hi) && QS.SortedKeys(f, Ranks(b), lo, hi)
  {
    hide Ranks;
  }
}
