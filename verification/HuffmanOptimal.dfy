/** Huffman's theorem for the trees of BZ2_hbMakeCodeLengths: a tree that always joins the two
    lightest nodes costs no more than any other code, however long its words may be. */
module HuffmanOptimal {
  import opened HuffmanTree
  import opened Powers

  /** Every inner node weighs what its children weigh, and these were the lightest when it was made. */
  ghost predicate Greedy(wt: seq<int>, par: seq<int>, kids: seq<(int, int)>, alpha: nat, n: nat) {
    && n < |wt| && n < |par| && |kids| == |par|
    && forall q :: alpha < q <= n ==> Joined(wt, par, q, kids[q].0, kids[q].1)
  }

  ghost predicate Joined(wt: seq<int>, par: seq<int>, q: int, a: int, b: int)
    requires q < |wt| && q < |par|
  {
    && 1 <= a < q && 1 <= b < q
    && Weight(wt[q]) == Weight(wt[a]) + Weight(wt[b]) && Weight(wt[a]) <= Weight(wt[b])
    && forall v :: 1 <= v < q && v != a && (par[v] == -1 || par[v] >= q) ==> Weight(wt[b]) <= Weight(wt[v])
  }

  lemma GreedyLink(wt: seq<int>, par: seq<int>, kids: seq<(int, int)>, alpha: nat, n: nat, m: set<int>,
                   a: int, b: int, w: int)
    requires Shape(par, kids, alpha, n, m) && Greedy(wt, par, kids, alpha, n) && n + 1 < |wt| && n + 1 < |par|
    requires a in m && b in m && a != b && wt[a] <= wt[b]
    requires forall v :: v in m && v != a ==> 1 <= v < |wt| && wt[b] <= wt[v]
    requires Weight(w) == Weight(wt[a]) + Weight(wt[b])
    ensures Greedy(wt[n + 1 := w], par[a := n + 1][b := n + 1][n + 1 := -1], kids[n + 1 := (a, b)], alpha, n + 1)
  {
    hide Weight;
    var wt', par' := wt[n + 1 := w], par[a := n + 1][b := n + 1][n + 1 := -1];
    forall q | alpha < q <= n
      ensures Joined(wt', par', q, kids[q].0, kids[q].1)
    {
      JoinedKept(wt, par, kids, alpha, n, m, a, b, w, q);
    }
    JoinedNew(wt, par, kids, alpha, n, m, a, b, w);
  }

  lemma JoinedKept(wt: seq<int>, par: seq<int>, kids: seq<(int, int)>, alpha: nat, n: nat, m: set<int>,
                   a: int, b: int, w: int, q: int)
    requires Shape(par, kids, alpha, n, m) && n + 1 < |wt| && n + 1 < |par| && alpha < q <= n
    requires a in m && b in m && a != b && Joined(wt, par, q, kids[q].0, kids[q].1)
    ensures Joined(wt[n + 1 := w], par[a := n + 1][b := n + 1][n + 1 := -1], q, kids[q].0, kids[q].1)
  {
    hide Weight;
  }

  lemma JoinedNew(wt: seq<int>, par: seq<int>, kids: seq<(int, int)>, alpha: nat, n: nat, m: set<int>,
                  a: int, b: int, w: int)
    requires Shape(par, kids, alpha, n, m) && n + 1 < |wt| && n + 1 < |par|
    requires a in m && b in m && a != b && wt[a] <= wt[b]
    requires forall v :: v in m && v != a ==> 1 <= v < |wt| && wt[b] <= wt[v]
    requires Weight(w) == Weight(wt[a]) + Weight(wt[b])
    ensures Joined(wt[n + 1 := w], par[a := n + 1][b := n + 1][n + 1 := -1], n + 1, a, b)
  {
    hide Weight;
    WeightMonotone(wt[a], wt[b]);
    forall v | 1 <= v <= n && v != a && (par[v] == -1 || v == b)
      ensures Weight(wt[b]) <= Weight(wt[v])
    {
      WeightMonotone(wt[b], wt[v]);
    }
  }

  // ----- sums over the nodes that have no ancestor up to t

  predicate Free(par: seq<int>, t: int, v: int)
    requires 0 <= v < |par|
  {
    par[v] == -1 || par[v] > t
  }

  function Over(par: seq<int>, t: int, g: seq<int>, k: nat): (r: int)
    requires k < |par| && k < |g|
  {
    if k == 0 then 0 else Over(par, t, g, k - 1) + if Free(par, t, k) then g[k] else 0
  }

  lemma {:induction false} OverUpdate(par: seq<int>, t: int, g: seq<int>, k: nat, v: int, x: int)
    requires k < |par| && k < |g| && 1 <= v < |g| && v < |par|
    ensures Over(par, t, g[v := x], k) == Over(par, t, g, k) + if v <= k && Free(par, t, v) then x - g[v] else 0
  {
    hide Free;
    if k > 0 { OverUpdate(par, t, g, k - 1, v, x); }
  }

  /** Below q, the nodes free at q - 1 are those free at q and the children of q. */
  lemma {:induction false} OverRaise(par: seq<int>, kids: seq<(int, int)>, alpha: nat, n: nat, g: seq<int>,
                                     k: nat, q: nat)
    requires Shape(par, kids, alpha, n, {n}) && Upward(par, n) && alpha < q <= n && k < q && k < |g|
    ensures Over(par, q - 1, g, k) == Over(par, q, g, k)
              + (if kids[q].0 <= k then g[kids[q].0] else 0) + (if kids[q].1 <= k then g[kids[q].1] else 0)
  {
    if k > 0 {
      OverRaise(par, kids, alpha, n, g, k - 1, q);
      FreeRaise(par, kids, alpha, n, k, q);
    }
  }

  lemma FreeRaise(par: seq<int>, kids: seq<(int, int)>, alpha: nat, n: nat, k: nat, q: nat)
    requires Shape(par, kids, alpha, n, {n}) && Upward(par, n) && alpha < q <= n && 1 <= k < q
    ensures Free(par, q - 1, k) <==> Free(par, q, k) || k == kids[q].0 || k == kids[q].1
    ensures Free(par, q, k) ==> k != kids[q].0 && k != kids[q].1
  {
    ChildOf(par, kids, alpha, n, k, q);
  }

  /** Joining a and b at q: the sum changes by what the three nodes count. */
  lemma OverJoin(par: seq<int>, kids: seq<(int, int)>, alpha: nat, n: nat, g: seq<int>, q: nat)
    requires Shape(par, kids, alpha, n, {n}) && Upward(par, n) && alpha < q <= n && n < |g|
    ensures 1 <= kids[q].0 < q && 1 <= kids[q].1 < q && kids[q].0 != kids[q].1
    ensures Over(par, q, g, q) == Over(par, q - 1, g, q - 1) - g[kids[q].0] - g[kids[q].1] + g[q]
    ensures Free(par, q - 1, kids[q].0) && Free(par, q - 1, kids[q].1) && Free(par, q, q)
    ensures !Free(par, q, kids[q].0) && !Free(par, q, kids[q].1)
  {
    OverRaise(par, kids, alpha, n, g, q - 1, q);
  }

  // ----- codes for the free nodes

  /** What a code of length l takes of the words of M bits. */
  function Part(l: int, M: nat): (r: nat) {
    if 0 <= l <= M then Pow2(M - l) else 0
  }

  function Parts(L: seq<int>, M: nat): (r: seq<int>)
    ensures |r| == |L|
  {
    seq(|L|, v requires 0 <= v < |L| => Part(L[v], M))
  }

  function Times(wt: seq<int>, L: seq<int>): (r: seq<int>)
    requires |L| <= |wt|
    ensures |r| == |L|
  {
    seq(|L|, v requires 0 <= v < |L| => Weight(wt[v]) * L[v])
  }

  /** The free nodes have a prefix code with these lengths, none above M. */
  ghost predicate Codes(par: seq<int>, t: nat, L: seq<int>, M: nat) {
    && t < |par| && t < |L|
    && (forall v :: 1 <= v <= t && Free(par, t, v) ==> 0 <= L[v] <= M)
    && Over(par, t, Parts(L, M), t) <= Pow2(M)
  }

  /** A node with the longest code, other than skip. */
  lemma {:induction false} Longest(par: seq<int>, t: nat, L: seq<int>, k: nat, skip: int, seed: int) returns (x: int)
    requires k < |par| && k < |L| && 1 <= seed <= k && Free(par, t, seed) && seed != skip
    ensures 1 <= x <= k && Free(par, t, x) && x != skip
    ensures forall v :: 1 <= v <= k && Free(par, t, v) && v != skip ==> L[v] <= L[x]
    decreases k
  {
    hide Free;
    if k == seed && forall v :: 1 <= v < k && Free(par, t, v) && v != skip ==> L[v] <= L[seed] {
      x := seed;
    } else if k == seed {
      var y :| 1 <= y < k && Free(par, t, y) && y != skip && L[y] > L[seed];
      x := Longest(par, t, L, k - 1, skip, y);
    } else {
      x := Longest(par, t, L, k - 1, skip, seed);
      if Free(par, t, k) && k != skip && L[k] > L[x] { x := k; }
    }
  }

  /** Giving the longer code to the lighter node. */
  lemma Exchange(wt: seq<int>, par: seq<int>, t: nat, L: seq<int>, M: nat, a: int, x: int) returns (L': seq<int>)
    requires Codes(par, t, L, M) && |L| <= |wt| && |L| <= |par| && 1 <= a <= t && 1 <= x <= t
    requires Free(par, t, a) && Free(par, t, x) && L[a] <= L[x]
    requires a == x || Weight(wt[a]) <= Weight(wt[x])
    ensures L' == L[a := L[x]][x := L[a]] && Codes(par, t, L', M)
    ensures Over(par, t, Times(wt, L'), t) <= Over(par, t, Times(wt, L), t)
  {
    hide Weight, Part, Free, Pow2;
    L' := L[a := L[x]][x := L[a]];
    var p, c := Parts(L, M), Times(wt, L);
    assert Parts(L', M) == p[a := p[x]][x := p[a]];
    OverUpdate(par, t, p, t, a, p[x]);
    OverUpdate(par, t, p[a := p[x]], t, x, p[a]);
    var ca, cx := Weight(wt[a]) * L[x], Weight(wt[x]) * L[a];
    assert Times(wt, L') == c[a := ca][x := if a == x then ca else cx];
    OverUpdate(par, t, c, t, a, ca);
    OverUpdate(par, t, c[a := ca], t, x, if a == x then ca else cx);
    if a != x { Crossed(Weight(wt[a]), Weight(wt[x]), L[a], L[x]); }
  }

  lemma Crossed(w: int, w': int, l: int, l': int)
    requires w <= w' && l <= l'
    ensures w * l' + w' * l <= w * l + w' * l'
  {
    assert (w' - w) * (l' - l) >= 0;
    assert (w' - w) * (l' - l) == w' * l' - w' * l - w * l' + w * l;
  }

  // ----- shortening the longest code

  /** A shorter code takes a multiple of what a longer one takes. */
  lemma PartDivides(l: int, l': int, M: nat)
    requires 0 <= l' <= l <= M
    ensures Part(l', M) == Pow2(l - l') * Part(l, M) && Part(l, M) >= 1
    ensures Pow2(M) == Pow2(l) * Part(l, M)
  {
    hide Pow2;
    Pow2Add(l - l', M - l);
    Pow2Add(l, M - l);
  }

  /** Parts of codes no longer than l come in multiples of the part of l. */
  lemma {:induction false} OverMultiple(par: seq<int>, t: nat, g: seq<int>, k: nat, u: int) returns (i: int)
    requires k < |par| && k < |g| && u > 0
    requires forall v :: 1 <= v <= k && Free(par, t, v) ==> exists j: int {:trigger j * u} :: g[v] == j * u
    ensures Over(par, t, g, k) == i * u
  {
    hide Free;
    if k == 0 {
      i := 0;
    } else {
      i := OverMultiple(par, t, g, k - 1, u);
      if Free(par, t, k) {
        var j: int :| g[k] == j * u;
        MulAdd(i, j, u);
        i := i + j;
      }
    }
  }

  lemma MulAdd(i: int, j: int, u: int)
    ensures i * u + j * u == (i + j) * u
  {
  }

  lemma MulGap(i: int, j: int, u: int)
    requires i * u < j * u && u > 0
    ensures i * u + u <= j * u
  {
    if i >= j { MulMonotone(j, i, u); }
    MulMonotone(i + 1, j, u);
  }

  /** If all codes but that of a are at most l long, a can do with l too. */
  lemma Shorten(par: seq<int>, t: nat, L: seq<int>, M: nat, a: int, l: int)
    requires Codes(par, t, L, M) && 1 <= a <= t && Free(par, t, a) && 0 <= l <= L[a]
    requires forall v :: 1 <= v <= t && Free(par, t, v) && v != a ==> L[v] <= l
    ensures Codes(par, t, L[a := l], M)
  {
    hide Free, Part, Over, Pow2;
    var p, u := Parts(L, M), Part(l, M);
    PartDivides(l, l, M);
    PartDivides(L[a], L[a], M);
    var rest := p[a := 0];
    forall v | 1 <= v <= t && Free(par, t, v)
      ensures exists j: int {:trigger j * u} :: rest[v] == j * u
    {
      if v == a {
        assert rest[v] == 0 * u;
      } else {
        PartDivides(l, L[v], M);
        assert rest[v] == Pow2(l - L[v]) * u;
      }
    }
    var i := OverMultiple(par, t, rest, t, u);
    OverUpdate(par, t, p, t, a, 0);
    MulGap(i, Pow2(l), u);
    OverUpdate(par, t, p, t, a, u);
    assert Parts(L[a := l], M) == p[a := u];
  }

  /** Two codes of the length of the longest: they are not empty. */
  lemma NotEmpty(par: seq<int>, t: nat, L: seq<int>, M: nat, a: int, b: int)
    requires Codes(par, t, L, M) && 1 <= a <= t && 1 <= b <= t && a != b && Free(par, t, a) && Free(par, t, b)
    requires L[a] == L[b]
    ensures L[a] >= 1
  {
    hide Free, Over, Pow2;
    var p := Parts(L, M);
    OverUpdate(par, t, p, t, a, 0);
    OverUpdate(par, t, p[a := 0], t, b, 0);
    OverPositive(par, t, p[a := 0][b := 0], t);
    assert p[a] == p[b] == Part(L[a], M);
    PowerPositive(M);
  }

  lemma PowerPositive(M: nat)
    ensures 0 < Pow2(M)
  {
  }

  lemma {:induction false} OverPositive(par: seq<int>, t: nat, g: seq<int>, k: nat)
    requires k < |par| && k < |g| && forall v :: 1 <= v <= k ==> g[v] >= 0
    ensures Over(par, t, g, k) >= 0
  {
    hide Free;
    if k > 0 { OverPositive(par, t, g, k - 1); }
  }

  // ----- the theorem

  /** What is known of the finished tree. */
  ghost predicate Finished(wt: seq<int>, par: seq<int>, kids: seq<(int, int)>, alpha: nat, n: nat) {
    && Shape(par, kids, alpha, n, {n}) && Upward(par, n) && Greedy(wt, par, kids, alpha, n)
    && |wt| == |par| && forall v :: 1 <= v <= n ==> Weight(wt[v]) >= 0
  }

  function Depths(par: seq<int>, n: nat): (r: seq<int>)
    requires n < |par|
    ensures |r| == |par|
  {
    seq(|par|, v => DepthOf(par, n, v))
  }

  /** From a code for the nodes free below q, one for those free at q that costs less by the weight of q. */
  lemma Join(wt: seq<int>, par: seq<int>, kids: seq<(int, int)>, alpha: nat, n: nat, q: nat, L: seq<int>, M: nat)
    returns (L': seq<int>)
    requires Finished(wt, par, kids, alpha, n) && alpha < q <= n && |L| == |par| && Codes(par, q - 1, L, M)
    ensures |L'| == |L| && Codes(par, q, L', M)
    ensures Over(par, q, Times(wt, L'), q) + Weight(wt[q]) <= Over(par, q - 1, Times(wt, L), q - 1)
  {
    hide Weight, Free, Over, Codes, Upward, Shape;
    var a, b, t := kids[q].0, kids[q].1, q - 1;
    OverJoin(par, kids, alpha, n, L, q);
    assert Joined(wt, par, q, a, b);
    var x := Longest(par, t, L, t, 0, a);
    LightPair(wt, par, q, a, b, x);
    var L1 := Exchange(wt, par, t, L, M, a, x);
    var y := Longest(par, t, L1, t, a, b);
    LightPair(wt, par, q, a, b, y);
    var L2 := Exchange(wt, par, t, L1, M, b, y);
    var l := L2[b];
    LongestPair(par, t, L, a, b, x, y);
    CodesAt(par, t, L2, M, b);
    Shorten(par, t, L2, M, a, l);
    var L3 := L2[a := l];
    NotEmpty(par, t, L3, M, a, b);
    L' := L3[q := l - 1];
    JoinCodes(par, kids, alpha, n, q, L3, M, l);
    JoinCost(wt, par, kids, alpha, n, q, L2, l);
  }

  lemma CodesAt(par: seq<int>, t: nat, L: seq<int>, M: nat, v: int)
    requires Codes(par, t, L, M) && 1 <= v <= t && Free(par, t, v)
    ensures 0 <= L[v] <= M
  {
  }

  /** No free node but a is lighter than b. */
  lemma LightPair(wt: seq<int>, par: seq<int>, q: int, a: int, b: int, x: int)
    requires 0 <= q < |wt| && q < |par| && Joined(wt, par, q, a, b) && 1 <= x < q && Free(par, q - 1, x)
    ensures x != a ==> Weight(wt[a]) <= Weight(wt[x]) && Weight(wt[b]) <= Weight(wt[x])
  {
    hide Weight;
  }

  lemma LongestPair(par: seq<int>, t: nat, L: seq<int>, a: int, b: int, x: int, y: int)
    requires t < |par| && t < |L| && 1 <= a <= t && 1 <= b <= t && 1 <= x <= t && 1 <= y <= t && a != b && y != a
    requires forall v :: 1 <= v <= t && Free(par, t, v) ==> L[v] <= L[x]
    requires Free(par, t, x) && Free(par, t, y) && Free(par, t, a) && Free(par, t, b)
    requires var L1 := L[a := L[x]][x := L[a]];
             forall v :: 1 <= v <= t && Free(par, t, v) && v != a ==> L1[v] <= L1[y]
    ensures var L1 := L[a := L[x]][x := L[a]];
            var L2 := L1[b := L1[y]][y := L1[b]];
            && L2[b] <= L2[a]
            && forall v :: 1 <= v <= t && Free(par, t, v) && v != a ==> L2[v] <= L2[b]
  {
    hide Free;
  }

  lemma JoinCodes(par: seq<int>, kids: seq<(int, int)>, alpha: nat, n: nat, q: nat, L: seq<int>, M: nat, l: int)
    requires Shape(par, kids, alpha, n, {n}) && Upward(par, n) && alpha < q <= n && |L| == |par|
    requires Codes(par, q - 1, L, M) && L[kids[q].0] == l && L[kids[q].1] == l && l >= 1
    ensures Codes(par, q, L[q := l - 1], M)
  {
    hide Free, Over, Pow2;
    var L', p := L[q := l - 1], Parts(L, M);
    OverJoin(par, kids, alpha, n, p, q);
    var p' := p[q := Part(l - 1, M)];
    assert Parts(L', M) == p';
    OverJoin(par, kids, alpha, n, p', q);
    OverUpdate(par, q - 1, p, q - 1, q, Part(l - 1, M));
    CodesAt(par, q - 1, L, M, kids[q].0);
    PartDivides(l, l - 1, M);
    assert Pow2(1) == 2 by { PowerOne(); }
    forall v | 1 <= v <= q && Free(par, q, v)
      ensures 0 <= L'[v] <= M
    {
      if v != q { FreeRaise(par, kids, alpha, n, v, q); CodesAt(par, q - 1, L, M, v); }
    }
  }

  lemma PowerOne()
    ensures Pow2(1) == 2
  {
  }

  lemma JoinCost(wt: seq<int>, par: seq<int>, kids: seq<(int, int)>, alpha: nat, n: nat, q: nat, L: seq<int>, l: int)
    requires Finished(wt, par, kids, alpha, n) && alpha < q <= n && |L| == |par|
    requires L[kids[q].1] == l <= L[kids[q].0]
    ensures Over(par, q, Times(wt, L[kids[q].0 := l][q := l - 1]), q) + Weight(wt[q])
         <= Over(par, q - 1, Times(wt, L), q - 1)
  {
    hide Weight, Free, Over, Upward, Shape;
    var a, b := kids[q].0, kids[q].1;
    var c := Times(wt, L);
    OverJoin(par, kids, alpha, n, c, q);
    assert Joined(wt, par, q, a, b);
    var ca, cq := Weight(wt[a]) * l, Weight(wt[q]) * (l - 1);
    var c' := c[a := ca][q := cq];
    assert Times(wt, L[a := l][q := l - 1]) == c';
    OverJoin(par, kids, alpha, n, c', q);
    OverUpdate(par, q - 1, c, q - 1, a, ca);
    OverUpdate(par, q - 1, c[a := ca], q - 1, q, cq);
    MulMonotone(l, L[a], Weight(wt[a]));
    Spread(Weight(wt[a]), Weight(wt[b]), l);
  }

  lemma Spread(x: int, y: int, l: int)
    ensures (x + y) * (l - 1) + (x + y) == x * l + y * l
  {
  }

  /** Depths in the tree cost the least, at every stage of its making. */
  lemma {:induction false} Best(wt: seq<int>, par: seq<int>, kids: seq<(int, int)>, alpha: nat, n: nat, t: nat,
                                L: seq<int>, M: nat)
    requires Finished(wt, par, kids, alpha, n) && alpha <= t <= n && |L| == |par| && Codes(par, t, L, M)
    ensures Over(par, t, Times(wt, Depths(par, n)), t) <= Over(par, t, Times(wt, L), t)
    decreases n - t
  {
    hide Weight, Over, Codes, Upward, Shape, DepthOf, Greedy;
    if t == n {
      BestRoot(wt, par, kids, alpha, n, L, M);
    } else {
      var L' := Join(wt, par, kids, alpha, n, t + 1, L, M);
      Best(wt, par, kids, alpha, n, t + 1, L', M);
      DepthCost(wt, par, kids, alpha, n, t + 1);
    }
  }

  lemma BestRoot(wt: seq<int>, par: seq<int>, kids: seq<(int, int)>, alpha: nat, n: nat, L: seq<int>, M: nat)
    requires Finished(wt, par, kids, alpha, n) && |L| == |par| && Codes(par, n, L, M)
    ensures Over(par, n, Times(wt, Depths(par, n)), n) <= Over(par, n, Times(wt, L), n)
  {
    hide Weight, Over, Greedy;
    OnlyRoot(par, n, Times(wt, Depths(par, n)), n);
    OnlyRoot(par, n, Times(wt, L), n);
    CodesAt(par, n, L, M, n);
    assert DepthOf(par, n, n) == 0;
    MulMonotone(0, L[n], Weight(wt[n]));
  }

  lemma {:induction false} OnlyRoot(par: seq<int>, n: nat, g: seq<int>, k: nat)
    requires Upward(par, n) && k <= n < |g|
    ensures Over(par, n, g, k) == if k == n then g[n] else 0
  {
    if k > 0 { OnlyRoot(par, n, g, k - 1); }
  }

  lemma DepthCost(wt: seq<int>, par: seq<int>, kids: seq<(int, int)>, alpha: nat, n: nat, q: nat)
    requires Finished(wt, par, kids, alpha, n) && alpha < q <= n
    ensures Over(par, q, Times(wt, Depths(par, n)), q) + Weight(wt[q])
         == Over(par, q - 1, Times(wt, Depths(par, n)), q - 1)
  {
    hide Weight, Over;
    var a, b := kids[q].0, kids[q].1;
    OverJoin(par, kids, alpha, n, Times(wt, Depths(par, n)), q);
    assert Joined(wt, par, q, a, b);
    ChildOf(par, kids, alpha, n, a, q);
    ChildOf(par, kids, alpha, n, b, q);
    Spread(Weight(wt[a]), Weight(wt[b]), DepthOf(par, n, q) + 1);
  }

  // ----- the code of a finished tree

  /** The leaves of a finished tree fill the code space exactly, whatever stage is looked at. */
  lemma {:induction false} TreeFits(par: seq<int>, kids: seq<(int, int)>, alpha: nat, n: nat, t: nat, M: nat)
    requires Shape(par, kids, alpha, n, {n}) && Upward(par, n) && alpha <= t <= n
    requires forall u :: 1 <= u <= alpha ==> DepthOf(par, n, u) <= M
    ensures Over(par, t, Parts(Depths(par, n), M), t) == Pow2(M)
    decreases n - t
  {
    hide Over, Part;
    var p := Parts(Depths(par, n), M);
    if t == n {
      OnlyRoot(par, n, p, n);
      RootPart(par, n, M);
    } else {
      var q := t + 1;
      TreeFits(par, kids, alpha, n, q, M);
      OverJoin(par, kids, alpha, n, p, q);
      ChildOf(par, kids, alpha, n, kids[q].0, q);
      ChildOf(par, kids, alpha, n, kids[q].1, q);
      NodesAboveLeaves(par, kids, alpha, n, M, q);
      PartHalves(DepthOf(par, n, q), M);
    }
  }

  lemma RootPart(par: seq<int>, n: nat, M: nat)
    requires Upward(par, n)
    ensures Part(DepthOf(par, n, n), M) == Pow2(M)
  {
  }

  lemma PartHalves(d: int, M: nat)
    requires 0 <= d < M
    ensures Part(d, M) == 2 * Part(d + 1, M)
  {
  }

  /** What the codes of the first k symbols take of the words of M bits. */
  function Space(L: seq<int>, M: nat, k: nat): (r: nat)
    requires k <= |L|
  {
    if k == 0 then 0 else Space(L, M, k - 1) + Part(L[k - 1], M)
  }

  /** What a text costs in which symbol i stands w[i] times. */
  function Cost(w: seq<int>, L: seq<int>, k: nat): (r: int)
    requires k <= |w| && k <= |L|
  {
    if k == 0 then 0 else Cost(w, L, k - 1) + w[k - 1] * L[k - 1]
  }

  /** There is a prefix code with these lengths: Kraft's inequality, in words of M bits. */
  ghost predicate PrefixWithin(L: seq<int>, M: nat) {
    (forall i :: 0 <= i < |L| ==> 0 <= L[i] <= M) && Space(L, M, |L|) <= Pow2(M)
  }

  ghost predicate PrefixCode(L: seq<int>) {
    exists M: nat :: PrefixWithin(L, M)
  }

  /** A prefix code than which none is cheaper. */
  ghost predicate Cheapest(w: seq<int>, len: seq<int>) {
    && |len| == |w| && PrefixCode(len)
    && forall L: seq<int> :: |L| == |w| && PrefixCode(L) ==> Cost(w, len, |w|) <= Cost(w, L, |w|)
  }

  /** Leaf v has entry v - 1. */
  function OnLeaves(L: seq<int>, size: nat): (r: seq<int>)
    ensures |r| == size
  {
    seq(size, v => if 1 <= v <= |L| then L[v - 1] else 0)
  }

  lemma {:induction false} LeafSpace(par: seq<int>, alpha: nat, g: seq<int>, L: seq<int>, M: nat, k: nat)
    requires k <= alpha < |par| && k <= |L| && k < |g|
    requires forall v :: 1 <= v <= alpha ==> Free(par, alpha, v)
    requires forall v :: 1 <= v <= k ==> g[v] == Part(L[v - 1], M)
    ensures Over(par, alpha, g, k) == Space(L, M, k)
  {
    hide Free, Part;
    if k > 0 { LeafSpace(par, alpha, g, L, M, k - 1); }
  }

  lemma {:induction false} LeafCost(par: seq<int>, alpha: nat, g: seq<int>, w: seq<int>, L: seq<int>, k: nat)
    requires k <= alpha < |par| && k <= |L| && k <= |w| && k < |g|
    requires forall v :: 1 <= v <= alpha ==> Free(par, alpha, v)
    requires forall v :: 1 <= v <= k ==> g[v] == w[v - 1] * L[v - 1]
    ensures Over(par, alpha, g, k) == Cost(w, L, k)
  {
    hide Free;
    if k > 0 { LeafCost(par, alpha, g, w, L, k - 1); }
  }

  lemma LeavesFree(par: seq<int>, kids: seq<(int, int)>, alpha: nat, n: nat)
    requires Shape(par, kids, alpha, n, {n})
    ensures 1 <= alpha <= n < |par| && forall v :: 1 <= v <= alpha ==> Free(par, alpha, v)
  {
  }

  /** The weights of the leaves. */
  ghost predicate Weighs(wt: seq<int>, w: seq<int>) {
    |w| < |wt| && forall v :: 1 <= v <= |w| ==> Weight(wt[v]) == w[v - 1]
  }

  /** Huffman's theorem: the depths of the leaves are a cheapest prefix code. */
  lemma TreeCheapest(wt: seq<int>, par: seq<int>, kids: seq<(int, int)>, alpha: nat, n: nat, w: seq<int>,
                     len: seq<int>, M: nat)
    requires Finished(wt, par, kids, alpha, n) && Weighs(wt, w) && |w| == |len| == alpha
    requires forall u :: 1 <= u <= alpha ==> len[u - 1] == DepthOf(par, n, u) <= M
    ensures Space(len, M, alpha) == Pow2(M) && Cheapest(w, len)
  {
    hide DepthOf, Weight, Upward, Greedy, PrefixCode, Space, Cost, Shape;
    TreeSpace(par, kids, alpha, n, len, M);
    TreeIsCode(len, M);
    forall L: seq<int> | |L| == |w| && PrefixCode(L)
      ensures Cost(w, len, |w|) <= Cost(w, L, |w|)
    {
      CostLeast(wt, par, kids, alpha, n, w, len, L);
    }
  }

  lemma TreeSpace(par: seq<int>, kids: seq<(int, int)>, alpha: nat, n: nat, len: seq<int>, M: nat)
    requires Shape(par, kids, alpha, n, {n}) && Upward(par, n) && |len| == alpha
    requires forall u :: 1 <= u <= alpha ==> len[u - 1] == DepthOf(par, n, u) <= M
    ensures Space(len, M, alpha) == Pow2(M)
    ensures forall i :: 0 <= i < alpha ==> 0 <= len[i] <= M
  {
    hide DepthOf, Shape, Free, Over, Space;
    LeavesFree(par, kids, alpha, n);
    TreeFits(par, kids, alpha, n, alpha, M);
    LeafSpace(par, alpha, Parts(Depths(par, n), M), len, M, alpha);
    forall i | 0 <= i < alpha
      ensures 0 <= len[i] <= M
    {
      assert len[i + 1 - 1] == DepthOf(par, n, i + 1);
    }
  }

  lemma TreeIsCode(len: seq<int>, M: nat)
    requires Space(len, M, |len|) == Pow2(M) && forall i :: 0 <= i < |len| ==> 0 <= len[i] <= M
    ensures PrefixCode(len)
  {
    hide Space, Pow2;
    assert PrefixWithin(len, M);
  }

  lemma CostLeast(wt: seq<int>, par: seq<int>, kids: seq<(int, int)>, alpha: nat, n: nat, w: seq<int>,
                  len: seq<int>, L: seq<int>)
    requires Finished(wt, par, kids, alpha, n) && Weighs(wt, w) && |w| == |len| == |L| == alpha
    requires (forall u :: 1 <= u <= alpha ==> len[u - 1] == DepthOf(par, n, u)) && PrefixCode(L)
    ensures Cost(w, len, alpha) <= Cost(w, L, alpha)
  {
    hide DepthOf, Weight, Greedy, Space, Cost, Part, Over, Shape, Pow2, Free;
    LeavesFree(par, kids, alpha, n);
    var M: nat :| PrefixWithin(L, M);
    var K := OnLeaves(L, |par|);
    LeafSpace(par, alpha, Parts(K, M), L, M, alpha);
    Best(wt, par, kids, alpha, n, alpha, K, M);
    LeafCost(par, alpha, Times(wt, K), w, L, alpha);
    LeafCost(par, alpha, Times(wt, Depths(par, n)), w, len, alpha);
  }

  lemma {:induction false} SpaceIsKraft(len: seq<int>, k: nat)
    requires k <= |len|
    ensures Space(len, 20, k) == KraftSum(len, k)
  {
    if k > 0 { SpaceIsKraft(len, k - 1); }
  }

  // ----- the limit on the lengths

  /** The weights after k scalings: symbols never seen count once, and each scaling takes a weight to
      one more than its half. */
  function Halved(freq: seq<int>, k: nat): (r: seq<int>)
    ensures |r| == |freq|
  {
    if k == 0 then seq(|freq|, i requires 0 <= i < |freq| => if freq[i] == 0 then 1 else freq[i])
    else seq(|freq|, i requires 0 <= i < |freq| => 1 + Halved(freq, k - 1)[i] / 2)
  }

  /** A cheapest code has a word longer than maxLen. */
  ghost predicate TooLong(w: seq<int>, maxLen: int) {
    exists L: seq<int> :: Cheapest(w, L) && exists i :: 0 <= i < |L| && L[i] > maxLen
  }

  /** The lengths are those of a cheapest code for the weights, scaled as often as was needed. */
  ghost predicate Limited(freq: seq<int>, maxLen: int, len: seq<int>) {
    exists k: nat :: Cheapest(Halved(freq, k), len) && forall j: nat :: j < k ==> TooLong(Halved(freq, j), maxLen)
  }
}
