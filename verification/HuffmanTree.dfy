/** The trees of BZ2_hbMakeCodeLengths: forests under construction, depths of leaves, Kraft sums. */
module HuffmanTree {
  import opened Powers

  /** A packed node weight: the weight proper above eight bits of tree height. */
  function Weight(z: int): (r: int) { z / 256 }

  function Height(z: int): (r: int)
    ensures 0 <= r < 256
  {
    z % 256
  }

  function Max(x: int, y: int): (r: int) { if x > y then x else y }

  /** ADDWEIGHTS. The heights stay below 255, so the source's or is an addition. */
  function AddWeights(x: int, y: int): (r: int)
    requires 0 <= x && 0 <= y && Height(x) < 255 && Height(y) < 255
    ensures Weight(r) == Weight(x) + Weight(y) && Height(r) == 1 + Max(Height(x), Height(y))
    ensures r >= 0
  {
    (Weight(x) + Weight(y)) * 256 + (1 + Max(Height(x), Height(y)))
  }

  /** The least weight a Huffman subtree of height h can have. */
  function Fib(h: nat): (r: nat)
    ensures r >= 1
  {
    if h == 0 then 1 else if h == 1 then 2 else Fib(h - 1) + Fib(h - 2)
  }

  lemma {:induction false} FibMonotone(g: nat, h: nat)
    requires g <= h
    ensures Fib(g) <= Fib(h)
    decreases h
  {
    if g < h { FibMonotone(g, h - 1); }
  }

  lemma FibValues()
    ensures Fib(13) == 610 && Fib(33) == 9227465
  {
    assert Fib(5) == 13 && Fib(6) == 21;
    assert Fib(7) == 34 && Fib(8) == 55;
    assert Fib(9) == 89 && Fib(10) == 144;
    assert Fib(11) == 233 && Fib(12) == 377;
    assert Fib(13) == 610 && Fib(14) == 987;
    assert Fib(15) == 1597 && Fib(16) == 2584;
    assert Fib(17) == 4181 && Fib(18) == 6765;
    assert Fib(19) == 10946 && Fib(20) == 17711;
    assert Fib(21) == 28657 && Fib(22) == 46368;
    assert Fib(23) == 75025 && Fib(24) == 121393;
    assert Fib(25) == 196418 && Fib(26) == 317811;
    assert Fib(27) == 514229 && Fib(28) == 832040;
    assert Fib(29) == 1346269 && Fib(30) == 2178309;
    assert Fib(31) == 3524578 && Fib(32) == 5702887;
  }

  /** Height is bounded by weight. */
  lemma HeightBound(h: nat, w: int)
    requires Fib(h) <= w
    ensures w <= 0x7fffff ==> h <= 32
    ensures w <= 516 ==> h <= 12
  {
    hide Fib;
    FibValues();
    if h > 32 { FibMonotone(33, h); }
    if h > 12 { FibMonotone(13, h); }
  }

  // ----- the forest of trees built so far

  /** Weights of the trees' roots among nodes 1..k. */
  function RootSum(wt: seq<int>, par: seq<int>, k: nat): (r: int)
    requires k < |wt| && k < |par|
  {
    if k == 0 then 0 else RootSum(wt, par, k - 1) + if par[k] == -1 then Weight(wt[k]) else 0
  }

  /** Roots are the nodes without parent; every inner node has exactly its two children. */
  ghost predicate Shape(par: seq<int>, kids: seq<(int, int)>, alpha: nat, n: nat, m: set<int>) {
    && 1 <= alpha <= n < |par| && |kids| == |par|
    && (forall v :: v in m <==> 1 <= v <= n && par[v] == -1)
    && (forall v :: 1 <= v <= n && par[v] != -1 ==>
          v < par[v] <= n && alpha < par[v] && (v == kids[par[v]].0 || v == kids[par[v]].1))
    && (forall q :: alpha < q <= n ==>
          && 1 <= kids[q].0 < q && 1 <= kids[q].1 < q && kids[q].0 != kids[q].1
          && par[kids[q].0] == q && par[kids[q].1] == q)
  }

  /** Every tree of height h weighs at least Fib(h), and below it hangs one of height h - 1
      that weighs at most low. */
  ghost predicate Fibs(wt: seq<int>, n: nat, low: int) {
    && n < |wt|
    && (forall v :: 1 <= v <= n ==> wt[v] >= 256 && Fib(Height(wt[v])) <= Weight(wt[v]))
    && (forall v :: 1 <= v <= n && Height(wt[v]) >= 1 ==> Fib(Height(wt[v]) - 1) <= low)
  }

  ghost predicate Leaves(wt: seq<int>, alpha: nat) {
    alpha < |wt| && forall v :: 1 <= v <= alpha ==> Height(wt[v]) == 0
  }

  /** No root weighs less than low, the weight last taken from the heap. */
  ghost predicate Tops(wt: seq<int>, n: nat, m: set<int>, low: int) {
    n < |wt| && forall v :: v in m ==> 1 <= v <= n && Weight(wt[v]) >= low
  }

  ghost predicate Rising(wt: seq<int>, par: seq<int>, n: nat) {
    && n < |wt| && n < |par|
    && forall v :: 1 <= v <= n && 1 <= par[v] <= n ==> Height(wt[v]) < Height(wt[par[v]])
  }

  /** The weights and heights of a Huffman forest under construction. */
  ghost predicate Balanced(wt: seq<int>, par: seq<int>, alpha: nat, n: nat, m: set<int>, low: int) {
    alpha <= n && Fibs(wt, n, low) && Leaves(wt, alpha) && Tops(wt, n, m, low) && Rising(wt, par, n)
  }

  lemma {:induction false} RootBound(wt: seq<int>, par: seq<int>, k: nat, v: nat)
    requires k < |wt| && k < |par| && forall u :: 1 <= u <= k ==> wt[u] >= 0
    ensures RootSum(wt, par, k) >= 0
    ensures 1 <= v <= k && par[v] == -1 ==> Weight(wt[v]) <= RootSum(wt, par, k)
  {
    if k > 0 { RootBound(wt, par, k - 1, v); }
  }

  /** The sum over roots when nodes a and b get parents. */
  lemma {:induction false} RootSumLink(wt: seq<int>, par: seq<int>, wt': seq<int>, par': seq<int>, k: nat, a: nat,
                                       b: nat)
    requires k < |wt| && k < |par| && |wt'| == |wt| && |par'| == |par| && a != b
    requires forall u :: 1 <= u <= k ==> wt'[u] == wt[u]
    requires forall u :: 1 <= u <= k && u != a && u != b ==> par'[u] == par[u]
    requires 1 <= a <= k ==> par[a] == -1 && par'[a] != -1
    requires 1 <= b <= k ==> par[b] == -1 && par'[b] != -1
    ensures RootSum(wt', par', k) == RootSum(wt, par, k)
              - (if 1 <= a <= k then Weight(wt[a]) else 0) - (if 1 <= b <= k then Weight(wt[b]) else 0)
  {
    if k > 0 { RootSumLink(wt, par, wt', par', k - 1, a, b); }
  }

  /** The forest after nodes a and b become the children of new node n + 1. */
  lemma ShapeLink(par: seq<int>, kids: seq<(int, int)>, alpha: nat, n: nat, m: set<int>, a: int, b: int)
    requires Shape(par, kids, alpha, n, m) && a in m && b in m && a != b && n + 1 < |par|
    ensures 1 <= a <= n && 1 <= b <= n
    ensures Shape(par[a := n + 1][b := n + 1][n + 1 := -1], kids[n + 1 := (a, b)], alpha, n + 1, Linked(m, n, a, b))
  {
  }

  ghost function Linked(m: set<int>, n: nat, a: int, b: int): (r: set<int>) {
    m - {a, b} + {n + 1}
  }

  lemma BalancedLink(wt: seq<int>, par: seq<int>, kids: seq<(int, int)>, alpha: nat, n: nat, m: set<int>, low: int,
                     a: int, b: int, w: int)
    requires Shape(par, kids, alpha, n, m) && Balanced(wt, par, alpha, n, m, low) && n + 1 < |wt| && n + 1 < |par|
    requires a in m && b in m && a != b && 1 <= a <= n && 1 <= b <= n && wt[a] <= wt[b]
    requires forall v :: v in m && v != a ==> 1 <= v < |wt| && wt[b] <= wt[v]
    requires Weight(w) == Weight(wt[a]) + Weight(wt[b])
    requires Height(w) == 1 + Max(Height(wt[a]), Height(wt[b])) && w >= 0
    ensures Balanced(wt[n + 1 := w], par[a := n + 1][b := n + 1][n + 1 := -1], alpha, n + 1,
                     Linked(m, n, a, b), Weight(wt[b]))
  {
    hide Weight, Height, Fib, Max, Linked, Shape, Rising;
    WeightMonotone(wt[a], wt[b]);
    FibLink(Height(wt[a]), Height(wt[b]), Weight(wt[a]), Weight(wt[b]), low);
    WeightPositive(w);
    TopsLink(wt, m, n, low, w, a, b);
    FibsLink(wt, n, low, Weight(wt[b]), w);
    RisingLink(wt, par, kids, alpha, n, m, a, b, w);
  }

  lemma FibsLink(wt: seq<int>, n: nat, low: int, low': int, w: int)
    requires Fibs(wt, n, low) && low <= low' && n + 1 < |wt|
    requires w >= 256 && Fib(Height(w)) <= Weight(w) && (Height(w) >= 1 ==> Fib(Height(w) - 1) <= low')
    ensures Fibs(wt[n + 1 := w], n + 1, low')
  {
    hide Fib, Weight, Height;
  }

  lemma WeightPositive(w: int)
    requires Weight(w) >= 1
    ensures w >= 256
  {
  }

  lemma TopsLink(wt: seq<int>, m: set<int>, n: nat, low: int, w: int, a: int, b: int)
    requires Tops(wt, n, m, low) && n + 1 < |wt|
    requires a in m && b in m && forall v :: v in m && v != a ==> 1 <= v < |wt| && wt[b] <= wt[v]
    requires Weight(w) >= Weight(wt[b])
    ensures Tops(wt[n + 1 := w], n + 1, Linked(m, n, a, b), Weight(wt[b]))
  {
    hide Weight;
    forall v | v in Linked(m, n, a, b) ensures 1 <= v <= n + 1 && Weight(wt[n + 1 := w][v]) >= Weight(wt[b]) {
      if v != n + 1 { WeightMonotone(wt[b], wt[v]); }
    }
  }

  lemma RisingLink(wt: seq<int>, par: seq<int>, kids: seq<(int, int)>, alpha: nat, n: nat, m: set<int>,
                   a: int, b: int, w: int)
    requires Shape(par, kids, alpha, n, m) && Rising(wt, par, n) && n + 1 < |wt| && n + 1 < |par|
    requires a in m && b in m && a != b && 1 <= a <= n && 1 <= b <= n
    requires Height(w) == 1 + Max(Height(wt[a]), Height(wt[b]))
    ensures Rising(wt[n + 1 := w], par[a := n + 1][b := n + 1][n + 1 := -1], n + 1)
  {
    hide Height;
    var wt', par' := wt[n + 1 := w], par[a := n + 1][b := n + 1][n + 1 := -1];
    forall v | 1 <= v <= n + 1 && 1 <= par'[v] <= n + 1 ensures Height(wt'[v]) < Height(wt'[par'[v]]) {
      if v != a && v != b { assert par'[v] == par[v] != n + 1; }
    }
  }

  lemma WeightMonotone(x: int, y: int)
    requires x <= y
    ensures Weight(x) <= Weight(y)
  {
  }

  /** A new tree of height h weighs at least Fib(h). */
  lemma FibLink(ha: nat, hb: nat, wa: int, wb: int, low: int)
    requires Fib(ha) <= wa && Fib(hb) <= wb && low <= wa <= wb
    requires ha >= 1 ==> Fib(ha - 1) <= low
    requires hb >= 1 ==> Fib(hb - 1) <= low
    ensures Fib(1 + Max(ha, hb)) <= wa + wb && Fib(Max(ha, hb)) <= wb
  {
  }

  // ----- depth of leaves in the finished tree

  /** Steps from node v up to root n. */
  function DepthOf(par: seq<int>, n: nat, v: int): (r: nat)
    requires n < |par|
    decreases n - v
  {
    if v < 1 || v >= n || !(v < par[v] <= n) then 0 else 1 + DepthOf(par, n, par[v])
  }

  /** Parents lie above their children, up to root n. */
  ghost predicate Upward(par: seq<int>, n: nat) {
    1 <= n < |par| && par[n] == -1 && forall u :: 1 <= u < n ==> u < par[u] <= n
  }

  lemma TreeUpward(par: seq<int>, kids: seq<(int, int)>, alpha: nat, n: nat, m: set<int>)
    requires Shape(par, kids, alpha, n, m) && |m| == 1
    ensures Upward(par, n) && m == {n}
  {
    assert n in m;
    var rest := m - {n};
    assert m == rest + {n};
    assert |rest| == 0;
  }

  lemma {:induction false} DepthBelowHeight(wt: seq<int>, par: seq<int>, n: nat, v: int)
    requires Rising(wt, par, n) && Upward(par, n) && 1 <= v <= n
    ensures DepthOf(par, n, v) + Height(wt[v]) <= Height(wt[n])
    decreases n - v
  {
    hide Height;
    if v < n { DepthBelowHeight(wt, par, n, par[v]); }
  }

  /** If no leaf is deeper than limit, no node is. */
  lemma {:induction false} NodesAboveLeaves(par: seq<int>, kids: seq<(int, int)>, alpha: nat, n: nat, limit: nat,
                                            v: nat)
    requires Shape(par, kids, alpha, n, {n}) && Upward(par, n) && 1 <= v <= n
    requires forall u :: 1 <= u <= alpha ==> DepthOf(par, n, u) <= limit
    ensures DepthOf(par, n, v) <= limit && (v > alpha ==> DepthOf(par, n, v) < limit)
  {
    if v > alpha {
      NodesAboveLeaves(par, kids, alpha, n, limit, kids[v].0);
    }
  }

  // ----- the Kraft sum

  /** The share of all 20-bit words that start with a code of length l. */
  function Share(l: int): (r: nat) {
    if 0 <= l <= 20 then Pow2(20 - l) else 0
  }

  function KraftSum(len: seq<int>, k: nat): (r: nat)
    requires k <= |len|
  {
    if k == 0 then 0 else KraftSum(len, k - 1) + Share(len[k - 1])
  }

  lemma ShareHalves(d: int)
    requires 0 <= d < 20
    ensures Share(d) == 2 * Share(d + 1)
  {
  }

  /** Which nodes are children of q. */
  lemma ChildOf(par: seq<int>, kids: seq<(int, int)>, alpha: nat, n: nat, k: nat, q: nat)
    requires Shape(par, kids, alpha, n, {n}) && Upward(par, n) && alpha < q <= n && 1 <= k < q
    ensures par[k] == q <==> k == kids[q].0 || k == kids[q].1
    ensures par[k] == q ==> DepthOf(par, n, k) == DepthOf(par, n, q) + 1
    ensures par[k] >= 1
  {
  }
}
