/** BZ2_hbMakeCodeLengths: code lengths from frequencies, with a length limit. */
module HuffmanLengths {
  import opened HH = HuffmanHeap
  import opened HuffmanOptimal
  import opened HuffmanTree
  import opened Powers

  // ----- building one tree

  /** The state of the merging loop: roots in the heap, and the forest over 1..n. */
  ghost predicate Growing(a: seq<int>, wt: seq<int>, par: seq<int>, kids: seq<(int, int)>, alpha: nat, n: nat,
                          k: nat, m: set<int>, low: int, total: int)
  {
    && Heap(a, wt, k, m) && Ordered(a, wt, k)
    && Shape(par, kids, alpha, n, m) && Balanced(wt, par, alpha, n, m, low)
    && RootSum(wt, par, n) == total && n + k == 2 * alpha && Greedy(wt, par, kids, alpha, n)
  }

  /** Writing the weight of a node outside the heap leaves the heap alone. */
  lemma HeapReweigh(a: seq<int>, wt: seq<int>, k: nat, m: set<int>, v: int, w: int)
    requires Heap(a, wt, k, m) && Ordered(a, wt, k) && v !in m && 0 < v < |wt|
    ensures Heap(a, wt[v := w], k, m) && Ordered(a, wt[v := w], k)
  {
    forall i | 1 <= i <= k ensures a[i] in m && a[i] != v && 0 < a[i] < |wt| {
      assert a[i] in Members(a, k);
    }
    forall i | 0 <= i <= k ensures Wt(a, wt[v := w], i) == Wt(a, wt, i) {
      if i > 0 { assert a[i] != v; }
    }
  }

  /** The two lightest roots can be merged. */
  lemma GrowPair(a: seq<int>, wt: seq<int>, par: seq<int>, kids: seq<(int, int)>, alpha: nat, n: nat,
                 k: nat, m: set<int>, low: int, total: int, v: int)
    requires Growing(a, wt, par, kids, alpha, n, k, m, low, total) && total <= 0x7fffff && v in m
    ensures 1 <= v <= n < |wt| && n < |par| && n + 1 !in m && n + k == 2 * alpha
    ensures wt[v] >= 256 && Height(wt[v]) < 255
  {
    RootBound(wt, par, n, v);
    HeightBound(Height(wt[v]), Weight(wt[v]));
  }

  lemma GrowLink(wt: seq<int>, par: seq<int>, kids: seq<(int, int)>, alpha: nat, n: nat, m: set<int>, low: int,
                 total: int, u: int, v: int, w: int)
    requires Shape(par, kids, alpha, n, m) && Balanced(wt, par, alpha, n, m, low) && RootSum(wt, par, n) == total
    requires Greedy(wt, par, kids, alpha, n) && n + 1 < |wt| == |par|
    requires u in m && v in m && u != v && 1 <= u <= n && 1 <= v <= n && wt[u] <= wt[v]
    requires forall x :: x in m && x != u ==> 1 <= x < |wt| && wt[v] <= wt[x]
    requires Weight(w) == Weight(wt[u]) + Weight(wt[v])
    requires Height(w) == 1 + Max(Height(wt[u]), Height(wt[v])) && w >= 0
    ensures var par', wt', kids', m' := par[u := n + 1][v := n + 1][n + 1 := -1], wt[n + 1 := w],
                                        kids[n + 1 := (u, v)], Linked(m, n, u, v);
            && Shape(par', kids', alpha, n + 1, m')
            && Balanced(wt', par', alpha, n + 1, m', Weight(wt[v]))
            && RootSum(wt', par', n + 1) == total && Greedy(wt', par', kids', alpha, n + 1)
    ensures |kids| == |par|
  {
    hide Weight, Height, Fib, Max, Balanced, Greedy;
    GreedyLink(wt, par, kids, alpha, n, m, u, v, w);
    ShapeLink(par, kids, alpha, n, m, u, v);
    BalancedLink(wt, par, kids, alpha, n, m, low, u, v, w);
    RootSumLink(wt, par, wt[n + 1 := w], par[u := n + 1][v := n + 1][n + 1 := -1], n, u, v);
  }

  lemma LinkedIs(m: set<int>, n: nat, u: int, v: int)
    ensures m - {u} - {v} + {n + 1} == Linked(m, n, u, v)
  {
  }

  /** One round of the merging loop. */
  method MergeLightest(heap: array<int>, weight: array<int>, parent: array<int>, nNodes: nat, nHeap: nat,
                       ghost kids: seq<(int, int)>, ghost alpha: nat, ghost m: set<int>, ghost low: int,
                                        ghost total: int)
    returns (ghost kids': seq<(int, int)>, ghost m': set<int>, ghost low': int)
    requires heap != weight && heap != parent && weight != parent
    requires Growing(heap[..], weight[..], parent[..], kids, alpha, nNodes, nHeap, m, low, total)
    requires total <= 0x7fffff && 2 <= nHeap <= alpha && alpha + 1 < heap.Length
    requires 2 * alpha <= weight.Length == parent.Length
    modifies heap, weight, parent
    ensures Growing(heap[..], weight[..], parent[..], kids', alpha, nNodes + 1, nHeap - 1, m', low', total)
    ensures forall v :: 1 <= v <= nNodes && v < weight.Length ==> weight[v] == old(weight[v])
  {
    hide *;
    ghost var a, wt, par := heap[..], weight[..], parent[..];
    GrowParts(a, wt, par, kids, alpha, nNodes, nHeap, m, low, total);
    var n1 := TakeLightest(heap, weight, nHeap, m);
    var n2 := TakeLightest(heap, weight, nHeap - 1, m - {n1});
    GrowPair(a, wt, par, kids, alpha, nNodes, nHeap, m, low, total, n1);
    GrowPair(a, wt, par, kids, alpha, nNodes, nHeap, m, low, total, n2);
    var node := nNodes + 1;
    parent[n1] := node;
    parent[n2] := node;
    var w := AddWeights(weight[n1], weight[n2]);
    GrowLink(wt, par, kids, alpha, nNodes, m, low, total, n1, n2, w);
    HeapReweigh(heap[..], wt, nHeap - 2, m - {n1} - {n2}, node, w);
    weight[node] := w;
    parent[node] := -1;
    assert weight[..] == wt[node := w];
    assert parent[..] == par[n1 := node][n2 := node][node := -1];
    SumPositive(w, wt[n1], wt[n2]);
    Insert(heap, weight, nHeap - 2, node, m - {n1} - {n2});
    LinkedIs(m, nNodes, n1, n2);
    kids', m', low' := kids[node := (n1, n2)], Linked(m, nNodes, n1, n2), Weight(wt[n2]);
    GrowJoin(heap[..], weight[..], parent[..], kids', alpha, node, nHeap - 1, m', low', total);
  }

  lemma GrowParts(a: seq<int>, wt: seq<int>, par: seq<int>, kids: seq<(int, int)>, alpha: nat, n: nat,
                  k: nat, m: set<int>, low: int, total: int)
    requires Growing(a, wt, par, kids, alpha, n, k, m, low, total)
    ensures Heap(a, wt, k, m) && Ordered(a, wt, k) && n + k == 2 * alpha
    ensures Shape(par, kids, alpha, n, m) && Balanced(wt, par, alpha, n, m, low)
    ensures n < |wt| && n < |par| && |kids| == |par| && RootSum(wt, par, n) == total
    ensures Greedy(wt, par, kids, alpha, n)
  {
  }

  lemma GrowJoin(a: seq<int>, wt: seq<int>, par: seq<int>, kids: seq<(int, int)>, alpha: nat, n: nat,
                 k: nat, m: set<int>, low: int, total: int)
    requires Heap(a, wt, k, m) && Ordered(a, wt, k) && n + k == 2 * alpha
    requires Shape(par, kids, alpha, n, m) && Balanced(wt, par, alpha, n, m, low) && Greedy(wt, par, kids, alpha, n)
    requires n < |wt| && n < |par| && RootSum(wt, par, n) == total
    ensures Growing(a, wt, par, kids, alpha, n, k, m, low, total)
  {
  }

  lemma SumPositive(w: int, x: int, y: int)
    requires Weight(w) == Weight(x) + Weight(y) && x >= 256 && y >= 256
    ensures w > 0
  {
  }

  /** Leaf weights: no height, at least one. */
  ghost predicate LeafWeights(wt: seq<int>, alpha: nat) {
    alpha < |wt| && forall v :: 1 <= v <= alpha ==> Height(wt[v]) == 0 && wt[v] >= 256
  }

  function LeafSum(wt: seq<int>, k: nat): (r: int)
    requires k < |wt|
  {
    if k == 0 then 0 else LeafSum(wt, k - 1) + Weight(wt[k])
  }

  lemma {:induction false} LeavesAreRoots(wt: seq<int>, par: seq<int>, k: nat)
    requires k < |wt| && k < |par| && forall v :: 1 <= v <= k ==> par[v] == -1
    ensures RootSum(wt, par, k) == LeafSum(wt, k)
  {
    if k > 0 { LeavesAreRoots(wt, par, k - 1); }
  }

  /** Before any merge every leaf is a tree of its own. */
  lemma GrowStart(a: seq<int>, wt: seq<int>, par: seq<int>, kids: seq<(int, int)>, alpha: nat, m: set<int>)
    requires Heap(a, wt, alpha, m) && Ordered(a, wt, alpha) && LeafWeights(wt, alpha) && alpha >= 1
    requires alpha < |par| == |kids| && (forall v :: 1 <= v <= alpha ==> par[v] == -1)
    requires forall v :: v in m <==> 1 <= v <= alpha
    ensures Growing(a, wt, par, kids, alpha, alpha, alpha, m, 1, LeafSum(wt, alpha))
  {
    LeavesAreRoots(wt, par, alpha);
    forall v | 1 <= v <= alpha ensures Weight(wt[v]) >= 1 { }
  }

  /** All leaves into the heap. */
  method PlantLeaves(heap: array<int>, weight: array<int>, parent: array<int>, alpha: nat)
    returns (ghost m: set<int>)
    requires heap != weight && heap != parent && weight != parent
    requires 1 <= alpha && alpha + 1 < heap.Length && alpha < weight.Length == parent.Length
    requires LeafWeights(weight[..], alpha)
    modifies heap, weight, parent
    ensures LeafWeights(weight[..], alpha) && forall v :: 1 <= v <= alpha ==> weight[v] == old(weight[v])
    ensures Heap(heap[..], weight[..], alpha, m) && Ordered(heap[..], weight[..], alpha)
    ensures forall v :: 1 <= v <= alpha ==> parent[v] == -1
    ensures forall v :: v in m <==> 1 <= v <= alpha
  {
    hide *;
    ghost var wt0 := weight[..];
    heap[0] := 0;
    weight[0] := 0;
    parent[0] := -2;
    LeafReset(wt0, weight[..], alpha);
    ghost var wt := weight[..];
    m := {};
    EmptyHeap(heap[..], wt);
    for i := 1 to alpha + 1
      invariant weight[..] == wt
      invariant Heap(heap[..], wt, i - 1, m) && Ordered(heap[..], wt, i - 1)
      invariant forall v :: 1 <= v < i ==> parent[v] == -1
      invariant forall v :: v in m <==> 1 <= v < i
    {
      parent[i] := -1;
      assert weight[i] == wt[i];
      Insert(heap, weight, i - 1, i, m);
      m := m + {i};
    }
  }

  lemma LeafReset(wt: seq<int>, wt': seq<int>, alpha: nat)
    requires LeafWeights(wt, alpha) && |wt'| == |wt| && forall v :: 1 <= v <= alpha ==> wt'[v] == wt[v]
    ensures LeafWeights(wt', alpha) && forall v :: 1 <= v <= alpha ==> wt'[v] > 0
  {
  }

  lemma EmptyHeap(a: seq<int>, wt: seq<int>)
    requires |a| > 0 && |wt| > 0 && a[0] == 0 && wt[0] == 0
    ensures Heap(a, wt, 0, {}) && Ordered(a, wt, 0)
  {
  }

  /** The heap and merging loops: one tree over all leaves. */
  method BuildTree(heap: array<int>, weight: array<int>, parent: array<int>, alpha: nat)
    returns (nNodes: nat, ghost kids: seq<(int, int)>)
    requires heap != weight && heap != parent && weight != parent
    requires 2 <= alpha <= 258 && heap.Length == 260 && weight.Length == parent.Length == 516
    requires LeafWeights(weight[..], alpha) && LeafSum(weight[..], alpha) <= 0x7fffff
    modifies heap, weight, parent
    ensures forall v :: 1 <= v <= alpha ==> weight[v] == old(weight[v])
    ensures nNodes == 2 * alpha - 1
    ensures Shape(parent[..], kids, alpha, nNodes, {nNodes}) && Upward(parent[..], nNodes)
    ensures Rising(weight[..], parent[..], nNodes)
    ensures Fib(Height(weight[nNodes])) <= LeafSum(weight[..], alpha)
    ensures Finished(weight[..], parent[..], kids, alpha, nNodes)
  {
    hide *;
    ghost var m := PlantLeaves(heap, weight, parent, alpha);
    ghost var total, low := LeafSum(weight[..], alpha), 1;
    kids := seq(516, _ => (0, 0));
    LeafSumSame(old(weight[..]), weight[..], alpha);
    GrowStart(heap[..], weight[..], parent[..], kids, alpha, m);
    nNodes := alpha;
    var nHeap := alpha;
    ghost var wt := weight[..];
    while nHeap > 1
      invariant 1 <= nHeap <= alpha && nNodes + nHeap == 2 * alpha
      invariant Growing(heap[..], weight[..], parent[..], kids, alpha, nNodes, nHeap, m, low, total)
      invariant forall v :: 1 <= v <= alpha ==> weight[v] == wt[v]
    {
      kids, m, low := MergeLightest(heap, weight, parent, nNodes, nHeap, kids, alpha, m, low, total);
      nNodes := nNodes + 1;
      nHeap := nHeap - 1;
    }
    GrowParts(heap[..], weight[..], parent[..], kids, alpha, nNodes, nHeap, m, low, total);
    HeapSize(heap[..], weight[..], 1, m);
    TreeUpward(parent[..], kids, alpha, nNodes, m);
    LeafSumSame(wt, weight[..], alpha);
    TreeWeight(weight[..], parent[..], kids, alpha, nNodes, low, total);
    TreeFinished(weight[..], parent[..], kids, alpha, nNodes);
  }

  lemma TreeFinished(wt: seq<int>, par: seq<int>, kids: seq<(int, int)>, alpha: nat, n: nat)
    requires Shape(par, kids, alpha, n, {n}) && Upward(par, n) && Greedy(wt, par, kids, alpha, n)
    requires |wt| == |par| && forall v :: 1 <= v <= n ==> Weight(wt[v]) >= 0
    ensures Finished(wt, par, kids, alpha, n)
  {
  }

  lemma {:induction false} LeafSumSame(wt: seq<int>, wt': seq<int>, k: nat)
    requires k < |wt| && k < |wt'| && forall v :: 1 <= v <= k ==> wt'[v] == wt[v]
    ensures LeafSum(wt', k) == LeafSum(wt, k)
  {
    if k > 0 { LeafSumSame(wt, wt', k - 1); }
  }

  lemma HeapSize(a: seq<int>, wt: seq<int>, k: nat, m: set<int>)
    requires Heap(a, wt, k, m) && k == 1
    ensures |m| == 1
  {
    assert Members(a, 1) == {a[1]};
  }

  lemma TreeWeight(wt: seq<int>, par: seq<int>, kids: seq<(int, int)>, alpha: nat, n: nat, low: int, total: int)
    requires Shape(par, kids, alpha, n, {n}) && Balanced(wt, par, alpha, n, {n}, low)
    requires n < |wt| && n < |par| && RootSum(wt, par, n) == total
    ensures Fib(Height(wt[n])) <= total && Rising(wt, par, n)
    ensures forall v :: 1 <= v <= n ==> Weight(wt[v]) >= 0
  {
    assert n in {n};
    RootBound(wt, par, n, n);
  }

  // ----- lengths, limit, scaling

  ghost predicate Lengths(par: seq<int>, n: nat, len: seq<int>, alpha: nat) {
    alpha <= |len| && n < |par| && forall u :: 1 <= u <= alpha ==> len[u - 1] == DepthOf(par, n, u)
  }

  /** Leaf depths, by walking up the parents. */
  method MeasureDepths(parent: array<int>, alpha: nat, maxLen: int, ghost n: nat) returns (len: seq<int>, tooLong: bool)
    requires Upward(parent[..], n) && alpha < n
    ensures |len| == alpha && Lengths(parent[..], n, len, alpha)
    ensures tooLong <==> exists i :: 0 <= i < alpha && len[i] > maxLen
    ensures forall i :: 0 <= i < alpha ==> len[i] >= 1
  {
    ghost var par := parent[..];
    len := [];
    tooLong := false;
    for i := 1 to alpha + 1
      invariant |len| == i - 1 && parent[..] == par
      invariant Lengths(par, n, len, i - 1)
      invariant tooLong <==> exists x :: 0 <= x < i - 1 && len[x] > maxLen
      invariant forall x :: 0 <= x < i - 1 ==> len[x] >= 1
    {
      var j, k := 0, i;
      while parent[k] >= 0
        invariant 1 <= k <= n && j + DepthOf(par, n, k) == DepthOf(par, n, i)
        invariant k == i || j >= 1
        decreases n - k
      {
        k := parent[k];
        j := j + 1;
      }
      ghost var shorter := len;
      len := len + [j];
      assert len[i - 1] == j && forall x :: 0 <= x < i - 1 ==> len[x] == shorter[x];
      if j > maxLen { tooLong := true; }
    }
  }

  /** weight[i] = (1 + weight[i] / 2), on the weight proper. */
  function Scaled(z: int): (r: int) { (1 + z / 256 / 2) * 256 }

  lemma ScaledWeight(z: int)
    requires z >= 256
    ensures Weight(Scaled(z)) == 1 + Weight(z) / 2 && Height(Scaled(z)) == 0 && Scaled(z) >= 256
    ensures Weight(Scaled(z)) <= Weight(z) && (Weight(z) >= 3 ==> Weight(Scaled(z)) < Weight(z))
  {
  }

  lemma {:induction false} ScaledSum(wt: seq<int>, wt': seq<int>, k: nat)
    requires k < |wt| && k < |wt'|
    requires forall v :: 1 <= v <= k ==> wt[v] >= 256 && wt'[v] == Scaled(wt[v])
    ensures 0 <= LeafSum(wt', k) <= LeafSum(wt, k)
    ensures LeafSum(wt', k) < LeafSum(wt, k) || LeafSum(wt, k) <= 2 * k
  {
    if k > 0 {
      ScaledSum(wt, wt', k - 1);
      ScaledWeight(wt[k]);
    }
  }

  method ScaleWeights(weight: array<int>, alpha: nat)
    requires LeafWeights(weight[..], alpha)
    modifies weight
    ensures LeafWeights(weight[..], alpha)
    ensures 0 <= LeafSum(weight[..], alpha) <= LeafSum(old(weight[..]), alpha)
    ensures LeafSum(weight[..], alpha) < LeafSum(old(weight[..]), alpha) || LeafSum(old(weight[..]), alpha) <= 2 * alpha
    ensures forall v :: 1 <= v <= alpha ==> weight[v] == Scaled(old(weight[v]))
  {
    ghost var wt := weight[..];
    hide Height, Weight, LeafSum;
    for i := 1 to alpha + 1
      invariant forall v :: 1 <= v < i ==> weight[v] == Scaled(wt[v])
      invariant forall v :: i <= v < weight.Length ==> weight[v] == wt[v]
    {
      var j := weight[i] / 256;
      j := 1 + j / 2;
      weight[i] := j * 256;
    }
    forall v | 1 <= v <= alpha ensures Height(weight[v]) == 0 && weight[v] >= 256 { ScaledWeight(wt[v]); }
    ScaledSum(wt, weight[..], alpha);
  }

  /** A code that is too long means the weights were not all at most 2. */
  lemma TooLongIsHeavy(wt: seq<int>, par: seq<int>, alpha: nat, n: nat, len: seq<int>, maxLen: int, i: int)
    requires Rising(wt, par, n) && Upward(par, n) && Lengths(par, n, len, alpha) && alpha <= n
    requires alpha < |wt| && Fib(Height(wt[n])) <= LeafSum(wt, alpha) && 0 <= i < alpha <= 258 && len[i] > maxLen >= 12
    ensures LeafSum(wt, alpha) > 2 * alpha
  {
    hide Fib, Height, LeafSum, DepthOf, Upward;
    assert len[i + 1 - 1] == DepthOf(par, n, i + 1);
    DepthBelowHeight(wt, par, n, i + 1);
    HeightBound(Height(wt[n]), LeafSum(wt, alpha));
  }

  /** The sum of the weights before any scaling. */
  function StartWeight(freq: seq<int>, k: nat): (r: int)
    requires k <= |freq|
  {
    if k == 0 then 0 else StartWeight(freq, k - 1) + if freq[k - 1] == 0 then 1 else freq[k - 1]
  }

  lemma {:induction false} StartSum(freq: seq<int>, wt: seq<int>, k: nat)
    requires k <= |freq| && |freq| < |wt| && Weighs(wt, Halved(freq, 0))
    ensures LeafSum(wt, k) == StartWeight(freq, k)
  {
    if k > 0 { StartSum(freq, wt, k - 1); assert Weight(wt[k]) == Halved(freq, 0)[k - 1]; }
  }

  lemma StartWeights(freq: seq<int>, wt: seq<int>)
    requires |freq| < |wt|
    requires forall v :: 1 <= v <= |freq| ==> wt[v] == (if freq[v - 1] == 0 then 1 else freq[v - 1]) * 256
    requires forall i :: 0 <= i < |freq| ==> freq[i] >= 0
    ensures LeafWeights(wt, |freq|) && Weighs(wt, Halved(freq, 0))
  {
    forall v | 1 <= v <= |freq|
      ensures Height(wt[v]) == 0 && wt[v] >= 256 && Weight(wt[v]) == Halved(freq, 0)[v - 1]
    {
      assert freq[v - 1] >= 0;
    }
  }

  lemma ScaledHalved(freq: seq<int>, wt: seq<int>, wt': seq<int>, k: nat)
    requires Weighs(wt, Halved(freq, k)) && LeafWeights(wt, |freq|) && |wt'| == |wt|
    requires forall v :: 1 <= v <= |freq| ==> wt'[v] == Scaled(wt[v])
    ensures Weighs(wt', Halved(freq, k + 1))
  {
    hide Weight, Height, Scaled;
    forall v | 1 <= v <= |freq|
      ensures Weight(wt'[v]) == Halved(freq, k + 1)[v - 1]
    {
      ScaledWeight(wt[v]);
    }
  }

  /** Code lengths for any frequencies whose packed weights fit 32 bits: the loop ends, every
      length lies in 1..maxLen, the lengths fill the code space exactly, and no prefix code is
      cheaper for the frequencies, scaled as often as it took for the longest word to fit. */
  method MakeCodeLengths(freq: seq<int>, maxLen: int) returns (len: seq<int>)
    requires 2 <= |freq| <= 258 && 12 <= maxLen <= 20
    requires (forall i :: 0 <= i < |freq| ==> freq[i] >= 0) && StartWeight(freq, |freq|) <= 0x7fffff
    ensures |len| == |freq|
    ensures forall i :: 0 <= i < |len| ==> 1 <= len[i] <= maxLen
    ensures KraftSum(len, |len|) == Pow2(20)
    ensures Limited(freq, maxLen, len)
  {
    hide *;
    var alphaSize := |freq|;
    var heap, weight, parent := new int[260], new int[516], new int[516];
    for i := 0 to alphaSize
      invariant forall v :: 1 <= v <= i ==> weight[v] == (if freq[v - 1] == 0 then 1 else freq[v - 1]) * 256
    {
      weight[i + 1] := (if freq[i] == 0 then 1 else freq[i]) * 256;
    }
    StartWeights(freq, weight[..]);
    StartSum(freq, weight[..], alphaSize);
    ghost var rounds: nat := 0;
    while true
      invariant LeafWeights(weight[..], alphaSize) && LeafSum(weight[..], alphaSize) <= 0x7fffff
      invariant Weighs(weight[..], Halved(freq, rounds))
      invariant forall j: nat :: j < rounds ==> TooLong(Halved(freq, j), maxLen)
      decreases LeafSum(weight[..], alphaSize)
    {
      ghost var wt := weight[..];
      var nNodes, kids := BuildTree(heap, weight, parent, alphaSize);
      LeafSumSame(wt, weight[..], alphaSize);
      LeafKept(wt, weight[..], alphaSize);
      WeighsKept(wt, weight[..], Halved(freq, rounds));
      var tooLong;
      len, tooLong := MeasureDepths(parent, alphaSize, maxLen, nNodes);
      LengthsCheapest(weight[..], parent[..], kids, alphaSize, nNodes, len, Halved(freq, rounds));
      if !tooLong {
        LengthsKraft(parent[..], kids, alphaSize, nNodes, len, maxLen);
        LimitedAt(freq, maxLen, len, rounds);
        break;
      }
      ghost var i :| 0 <= i < alphaSize && len[i] > maxLen;
      TooLongIsHeavy(weight[..], parent[..], alphaSize, nNodes, len, maxLen, i);
      TooLongAt(Halved(freq, rounds), maxLen, len, i);
      wt := weight[..];
      ScaleWeights(weight, alphaSize);
      ScaledHalved(freq, wt, weight[..], rounds);
      rounds := rounds + 1;
    }
  }

  lemma WeighsKept(wt: seq<int>, wt': seq<int>, w: seq<int>)
    requires Weighs(wt, w) && |wt'| == |wt| && forall v :: 1 <= v <= |w| ==> wt'[v] == wt[v]
    ensures Weighs(wt', w)
  {
  }

  lemma LimitedAt(freq: seq<int>, maxLen: int, len: seq<int>, k: nat)
    requires Cheapest(Halved(freq, k), len) && forall j: nat :: j < k ==> TooLong(Halved(freq, j), maxLen)
    ensures Limited(freq, maxLen, len)
  {
    hide Cheapest, TooLong;
  }

  lemma TooLongAt(w: seq<int>, maxLen: int, len: seq<int>, i: int)
    requires Cheapest(w, len) && 0 <= i < |len| && len[i] > maxLen
    ensures TooLong(w, maxLen)
  {
    hide Cheapest;
  }

  lemma LeafKept(wt: seq<int>, wt': seq<int>, alpha: nat)
    requires LeafWeights(wt, alpha) && |wt'| == |wt| && forall v :: 1 <= v <= alpha ==> wt'[v] == wt[v]
    ensures LeafWeights(wt', alpha)
  {
  }

  lemma LengthsCheapest(wt: seq<int>, par: seq<int>, kids: seq<(int, int)>, alpha: nat, n: nat, len: seq<int>,
                        w: seq<int>)
    requires Finished(wt, par, kids, alpha, n) && |len| == alpha && Lengths(par, n, len, alpha)
    requires Weighs(wt, w) && |w| == alpha
    ensures Cheapest(w, len)
  {
    hide DepthOf, Finished, Weighs, Cheapest, Space;
    TreeCheapest(wt, par, kids, alpha, n, w, len, Most(len, alpha));
  }

  /** The longest of the first k lengths. */
  ghost function Most(len: seq<int>, k: nat): (r: nat)
    requires k <= |len|
    ensures forall i :: 0 <= i < k ==> len[i] <= r
  {
    if k == 0 then 0 else if len[k - 1] > Most(len, k - 1) then len[k - 1] else Most(len, k - 1)
  }

  lemma LengthsKraft(par: seq<int>, kids: seq<(int, int)>, alpha: nat, n: nat, len: seq<int>, maxLen: int)
    requires Shape(par, kids, alpha, n, {n}) && Upward(par, n) && |len| == alpha && Lengths(par, n, len, alpha)
    requires !(exists i :: 0 <= i < alpha && len[i] > maxLen) && maxLen <= 20
    ensures KraftSum(len, |len|) == Pow2(20)
  {
    hide DepthOf, Shape, Upward, Space, KraftSum, Pow2;
    forall u | 1 <= u <= alpha ensures len[u - 1] == DepthOf(par, n, u) <= 20 { assert len[u - 1] <= maxLen; }
    TreeSpace(par, kids, alpha, n, len, 20);
    SpaceIsKraft(len, alpha);
  }
}
