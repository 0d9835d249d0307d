/** The binary heap of tree nodes in huffman.c: entries run from 1, and entry 0 is a
    sentinel node of weight 0. */
module HuffmanHeap {
  import opened Permutations

  /** Weight of the node at heap entry k. */
  function Wt(a: seq<int>, wt: seq<int>, k: int): (r: int) {
    if 0 <= k < |a| && 0 <= a[k] < |wt| then wt[a[k]] else 0
  }

  ghost predicate Nodes(a: seq<int>, wt: seq<int>, n: nat) {
    && n < |a| && |wt| > 0 && a[0] == 0 && wt[0] == 0
    && forall k :: 1 <= k <= n ==> 0 < a[k] < |wt| && wt[a[k]] > 0
  }

  ghost predicate Ordered(a: seq<int>, wt: seq<int>, n: nat) {
    forall k :: 1 <= k <= n ==> Wt(a, wt, k / 2) <= Wt(a, wt, k)
  }

  /** Ordered, except that entry z may be lighter than its parent. */
  ghost predicate UpOk(a: seq<int>, wt: seq<int>, n: nat, z: int) {
    && 1 <= z <= n
    && (forall k :: 1 <= k <= n && k != z ==> Wt(a, wt, k / 2) <= Wt(a, wt, k))
    && (forall k :: 1 <= k <= n && k / 2 == z ==> Wt(a, wt, z / 2) <= Wt(a, wt, k))
  }

  /** Ordered, except that entry z may be heavier than its children. */
  ghost predicate DownOk(a: seq<int>, wt: seq<int>, n: nat, z: int) {
    && 1 <= z
    && (forall k :: 1 <= k <= n && k / 2 != z ==> Wt(a, wt, k / 2) <= Wt(a, wt, k))
    && (forall k :: 1 <= k <= n && k / 2 == z ==> Wt(a, wt, z / 2) <= Wt(a, wt, k))
  }

  ghost function Members(a: seq<int>, n: nat): (r: set<int>) {
    set k | 1 <= k <= n && k < |a| :: a[k]
  }

  ghost predicate Distinct(a: seq<int>, n: nat) {
    n < |a| && forall i, j :: 1 <= i < j <= n ==> a[i] != a[j]
  }

  /** A well-formed heap holding the nodes m. */
  ghost predicate Heap(a: seq<int>, wt: seq<int>, n: nat, m: set<int>) {
    && Nodes(a, wt, n) && Distinct(a, n) && Members(a, n) == m
  }

  lemma SwapHeap(a: seq<int>, wt: seq<int>, n: nat, m: set<int>, i: int, j: int)
    requires Heap(a, wt, n, m) && 1 <= i <= n && 1 <= j <= n
    ensures Heap(Swap(a, i, j), wt, n, m)
    ensures forall k :: 0 <= k <= n ==>
      Wt(Swap(a, i, j), wt, k) == Wt(a, wt, if k == i then j else if k == j then i else k)
  {
    var b := Swap(a, i, j);
    forall v ensures v in Members(b, n) <==> v in Members(a, n) {
      if v in Members(a, n) {
        var k :| 1 <= k <= n && a[k] == v;
        assert b[if k == i then j else if k == j then i else k] == v;
      }
      if v in Members(b, n) {
        var k :| 1 <= k <= n && b[k] == v;
        assert a[if k == i then j else if k == j then i else k] == v;
      }
    }
  }

  lemma UpStep(a: seq<int>, wt: seq<int>, n: nat, m: set<int>, z: int)
    requires Heap(a, wt, n, m) && UpOk(a, wt, n, z) && Wt(a, wt, z) < Wt(a, wt, z / 2)
    ensures 1 <= z / 2 <= n < |a|
    ensures Heap(Swap(a, z, z / 2), wt, n, m) && UpOk(Swap(a, z, z / 2), wt, n, z / 2)
  {
    var p := z / 2;
    SwapHeap(a, wt, n, m, z, p);
    var b := Swap(a, z, p);
    forall k | 1 <= k <= n && k != p ensures Wt(b, wt, k / 2) <= Wt(b, wt, k) {
      assert Wt(a, wt, k / 2) <= Wt(a, wt, k) || k == z;
    }
    forall k | 1 <= k <= n && k / 2 == p ensures Wt(b, wt, p / 2) <= Wt(b, wt, k) {
      assert Wt(a, wt, p / 2) <= Wt(a, wt, p);
      if k != z { assert Wt(a, wt, k / 2) <= Wt(a, wt, k); }
    }
  }

  lemma UpDone(a: seq<int>, wt: seq<int>, n: nat, z: int)
    requires UpOk(a, wt, n, z) && Wt(a, wt, z) >= Wt(a, wt, z / 2)
    ensures Ordered(a, wt, n)
  {
  }

  /** The lighter child of entry z. */
  ghost predicate LighterChild(a: seq<int>, wt: seq<int>, n: nat, z: int, y: int) {
    && (y == 2 * z || y == 2 * z + 1) && y <= n
    && forall k :: 1 <= k <= n && k / 2 == z ==> Wt(a, wt, y) <= Wt(a, wt, k)
  }

  lemma DownStep(a: seq<int>, wt: seq<int>, n: nat, m: set<int>, z: int, y: int)
    requires Heap(a, wt, n, m) && DownOk(a, wt, n, z) && LighterChild(a, wt, n, z, y)
    requires Wt(a, wt, z) >= Wt(a, wt, y)
    ensures 1 <= z < y <= n < |a|
    ensures Heap(Swap(a, z, y), wt, n, m) && DownOk(Swap(a, z, y), wt, n, y)
  {
    SwapHeap(a, wt, n, m, z, y);
    var b := Swap(a, z, y);
    forall k | 1 <= k <= n && k / 2 != y ensures Wt(b, wt, k / 2) <= Wt(b, wt, k) {
      assert Wt(a, wt, k / 2) <= Wt(a, wt, k) || k / 2 == z;
    }
    forall k | 1 <= k <= n && k / 2 == y ensures Wt(b, wt, y / 2) <= Wt(b, wt, k) {
      assert Wt(a, wt, k / 2) <= Wt(a, wt, k);
    }
  }

  lemma DownDone(a: seq<int>, wt: seq<int>, n: nat, z: int, y: int)
    requires DownOk(a, wt, n, z)
    requires 2 * z > n || (LighterChild(a, wt, n, z, y) && Wt(a, wt, z) <= Wt(a, wt, y))
    ensures Ordered(a, wt, n)
  {
  }

  /** The root of an ordered heap is lightest. */
  lemma {:induction false} RootLightest(a: seq<int>, wt: seq<int>, n: nat, k: int)
    requires Ordered(a, wt, n) && 1 <= k <= n
    ensures Wt(a, wt, 1) <= Wt(a, wt, k)
    decreases k
  {
    if k > 1 { RootLightest(a, wt, n, k / 2); }
  }

  // ----- the macros

  lemma HeapEntry(a: seq<int>, wt: seq<int>, n: nat, m: set<int>, k: int)
    requires Heap(a, wt, n, m) && 0 <= k <= n
    ensures k <= n < |a| && 0 <= a[k] < |wt| && Wt(a, wt, k) == wt[a[k]]
    ensures k > 0 ==> 0 < a[k]
  {
  }

  /** UPHEAP: entry z moves towards the root until its parent is not heavier. */
  method UpHeap(heap: array<int>, weight: array<int>, z: nat, n: nat, ghost m: set<int>)
    requires heap != weight && Heap(heap[..], weight[..], n, m) && UpOk(heap[..], weight[..], n, z)
    modifies heap
    ensures Heap(heap[..], weight[..], n, m) && Ordered(heap[..], weight[..], n)
  {
    hide *;
    ghost var wt := weight[..];
    UpBounds(heap[..], wt, n, z);
    HeapEntry(heap[..], wt, n, m, z);
    var zz, tmp := z, heap[z];
    ghost var a := heap[..];  // the heap with tmp in the hole at zz
    while true
      invariant weight[..] == wt && |a| == heap.Length && 1 <= zz <= n < |a|
      invariant a == heap[..][zz := tmp] && 0 < tmp < |wt|
      invariant Heap(a, wt, n, m) && UpOk(a, wt, n, zz)
      decreases zz
    {
      HeapEntry(a, wt, n, m, zz);
      HeapEntry(a, wt, n, m, zz / 2);
      assert heap[zz / 2] == a[zz / 2];
      if weight[tmp] >= weight[heap[zz / 2]] { break; }
      UpStep(a, wt, n, m, zz);
      SwapIs(a, zz, zz / 2);
      ghost var b := Swap(a, zz, zz / 2);
      heap[zz] := heap[zz / 2];
      zz := zz / 2;
      assert b == heap[..][zz := tmp];
      a := b;
    }
    UpDone(a, wt, n, zz);
    heap[zz] := tmp;
    assert heap[..] == a;
  }

  lemma UpBounds(a: seq<int>, wt: seq<int>, n: nat, z: int)
    requires UpOk(a, wt, n, z)
    ensures 1 <= z <= n
  {
  }

  lemma ChooseChild(a: seq<int>, wt: seq<int>, n: nat, z: int, y: int)
    requires 1 <= z && 2 * z <= n
    requires y == if 2 * z < n && Wt(a, wt, 2 * z + 1) < Wt(a, wt, 2 * z) then 2 * z + 1 else 2 * z
    ensures LighterChild(a, wt, n, z, y)
  {
    forall k | 1 <= k <= n && k / 2 == z ensures Wt(a, wt, y) <= Wt(a, wt, k) {
      assert k == 2 * z || k == 2 * z + 1;
    }
  }

  /** DOWNHEAP(1): the root entry moves down until no child is lighter. */
  method DownHeap(heap: array<int>, weight: array<int>, n: nat, ghost m: set<int>)
    requires heap != weight && 1 < heap.Length && Heap(heap[..], weight[..], n, m)
    requires n > 0 ==> DownOk(heap[..], weight[..], n, 1)
    modifies heap
    ensures Heap(heap[..], weight[..], n, m) && Ordered(heap[..], weight[..], n)
  {
    hide *;
    ghost var wt := weight[..];
    if n == 0 {
      // the source stores the root entry back where it was
      heap[1] := heap[1];
      assert heap[..] == old(heap[..]);
      EmptyOrdered(heap[..], wt);
      return;
    }
    HeapEntry(heap[..], wt, n, m, 1);
    var zz, tmp := 1, heap[1];
    ghost var a := heap[..];
    assert a[1 := a[1]] == a;
    while true
      invariant weight[..] == wt && |a| == heap.Length && 1 <= zz <= n < |a|
      invariant a == heap[..][zz := tmp] && 0 < tmp < |wt|
      invariant Heap(a, wt, n, m) && DownOk(a, wt, n, zz)
      decreases n - zz
    {
      HeapEntry(a, wt, n, m, zz);
      var yy := 2 * zz;
      if yy > n { DownDone(a, wt, n, zz, yy); break; }
      HeapEntry(a, wt, n, m, yy);
      assert heap[yy] == a[yy];
      if yy < n {
        HeapEntry(a, wt, n, m, yy + 1);
        assert heap[yy + 1] == a[yy + 1];
        if weight[heap[yy + 1]] < weight[heap[yy]] { yy := yy + 1; }
      }
      ChooseChild(a, wt, n, zz, yy);
      if weight[tmp] < weight[heap[yy]] { DownDone(a, wt, n, zz, yy); break; }
      DownStep(a, wt, n, m, zz, yy);
      SwapIs(a, zz, yy);
      ghost var b := Swap(a, zz, yy);
      heap[zz] := heap[yy];
      zz := yy;
      assert b == heap[..][zz := tmp];
      a := b;
    }
    heap[zz] := tmp;
    assert heap[..] == a;
  }

  lemma EmptyOrdered(a: seq<int>, wt: seq<int>)
    ensures Ordered(a, wt, 0)
  {
  }

  // ----- taking out the lightest node, putting in a new one

  lemma RemoveRoot(a: seq<int>, wt: seq<int>, n: nat, m: set<int>)
    requires Heap(a, wt, n, m) && Ordered(a, wt, n) && n >= 1
    ensures a[1] in m && 0 < a[1] < |wt|
    ensures forall v :: v in m ==> 0 < v < |wt| && wt[a[1]] <= wt[v]
    ensures Heap(a[1 := a[n]], wt, n - 1, m - {a[1]})
    ensures n > 1 ==> DownOk(a[1 := a[n]], wt, n - 1, 1)
  {
    var b := a[1 := a[n]];
    forall v | v in m ensures 0 < v < |wt| && wt[a[1]] <= wt[v] {
      var k :| 1 <= k <= n && a[k] == v;
      RootLightest(a, wt, n, k);
    }
    RemoveMembers(a, n);
    if n > 1 {
      forall k | 1 <= k <= n - 1 && k / 2 != 1 ensures Wt(b, wt, k / 2) <= Wt(b, wt, k) {
        assert Wt(a, wt, k / 2) <= Wt(a, wt, k);
      }
    }
  }

  lemma RemoveMembers(a: seq<int>, n: nat)
    requires Distinct(a, n) && n >= 1
    ensures Members(a[1 := a[n]], n - 1) == Members(a, n) - {a[1]}
  {
    var b := a[1 := a[n]];
    forall v ensures v in Members(b, n - 1) <==> v in Members(a, n) && v != a[1] {
      if v in Members(a, n) && v != a[1] {
        var k :| 1 <= k <= n && a[k] == v;
        assert b[if k == n then 1 else k] == v;
      }
    }
  }

  /** n1 = heap[1]; heap[1] = heap[nHeap]; nHeap--; DOWNHEAP(1) */
  method TakeLightest(heap: array<int>, weight: array<int>, n: nat, ghost m: set<int>) returns (v: int)
    requires heap != weight && n >= 1
    requires Heap(heap[..], weight[..], n, m) && Ordered(heap[..], weight[..], n)
    modifies heap
    ensures v in m && 0 < v < weight.Length
    ensures forall u :: u in m ==> 0 < u < weight.Length && weight[v] <= weight[u]
    ensures Heap(heap[..], weight[..], n - 1, m - {v}) && Ordered(heap[..], weight[..], n - 1)
  {
    hide *;
    ghost var a, wt := heap[..], weight[..];
    HeapEntry(a, wt, n, m, n);
    RemoveRoot(a, wt, n, m);
    v := heap[1];
    heap[1] := heap[n];
    assert heap[..] == a[1 := a[n]];
    DownHeap(heap, weight, n - 1, m - {v});
  }

  lemma AddMember(a: seq<int>, wt: seq<int>, n: nat, m: set<int>, v: int)
    requires Heap(a, wt, n, m) && Ordered(a, wt, n) && v !in m && 0 < v < |wt| && wt[v] > 0 && n + 1 < |a|
    ensures Heap(a[n + 1 := v], wt, n + 1, m + {v}) && UpOk(a[n + 1 := v], wt, n + 1, n + 1)
  {
    var b := a[n + 1 := v];
    forall u ensures u in Members(b, n + 1) <==> u in m || u == v {
      if u in m { var k :| 1 <= k <= n && a[k] == u; assert b[k] == u; }
      if u == v { assert b[n + 1] == v; }
    }
    forall i, j | 1 <= i < j <= n + 1 ensures b[i] != b[j] {
      assert a[i] in Members(a, n);
    }
    forall k | 1 <= k <= n ensures Wt(b, wt, k / 2) <= Wt(b, wt, k) {
      assert Wt(a, wt, k / 2) <= Wt(a, wt, k);
    }
  }

  /** nHeap++; heap[nHeap] = v; UPHEAP(nHeap) */
  method Insert(heap: array<int>, weight: array<int>, n: nat, v: int, ghost m: set<int>)
    requires heap != weight && n + 1 < heap.Length
    requires Heap(heap[..], weight[..], n, m) && Ordered(heap[..], weight[..], n)
    requires v !in m && 0 < v < weight.Length && weight[v] > 0
    modifies heap
    ensures Heap(heap[..], weight[..], n + 1, m + {v}) && Ordered(heap[..], weight[..], n + 1)
  {
    hide *;
    ghost var a, wt := heap[..], weight[..];
    AddMember(a, wt, n, m, v);
    heap[n + 1] := v;
    assert heap[..] == a[n + 1 := v];
    UpHeap(heap, weight, n + 1, n + 1, m + {v});
  }
}
