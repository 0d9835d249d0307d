/** The decoder's two ways of undoing the block sort: the tt vector (fast) and the
    pointer-reversed 20-bit packed vector (small). */
module BwtDecoder {
  import opened Bytes
  import opened Permutations
  import opened Counting

  lemma {:induction false} SumOfOccurrences(last: seq<int>, counts: seq<int>, c: nat)
    requires IsBytes(last) && |counts| == 256 && c <= 256
    requires forall v :: 0 <= v < 256 ==> counts[v] == Occurs(last, |last|, v)
    ensures Sum(counts, c) == Below(last, |last|, c)
  {
    if c == 0 {
      BelowExtremes(last, |last|, 0, 256);
    } else {
      SumOfOccurrences(last, counts, c - 1);
      BelowSuccessor(last, |last|, c - 1);
    }
  }

  lemma SumStep(s: seq<int>)
    ensures Sum(s, 0) == 0 && forall k :: 0 < k <= |s| ==> Sum(s, k) == Sum(s, k - 1) + s[k - 1]
  {
  }

  /** Range checks of the symbol counts and the table of bucket starts. */
  method MakeCftab(unzftab: seq<int>, nblock: nat) returns (ok: bool, cftab: seq<int>)
    requires |unzftab| == 256
    ensures ok <==> (forall c :: 0 <= c < 256 ==> unzftab[c] >= 0) && Sum(unzftab, 256) <= nblock
    ensures ok ==> |cftab| == 257 && forall c :: 0 <= c <= 256 ==> cftab[c] == Sum(unzftab, c)
  {
    hide Sum;
    SumStep(unzftab);
    cftab := [];
    for i := 0 to 256
      invariant forall c :: 0 <= c < i ==> 0 <= unzftab[c] <= nblock
    {
      if unzftab[i] < 0 || unzftab[i] > nblock {
        if unzftab[i] > nblock && forall c :: 0 <= c < 256 ==> unzftab[c] >= 0 {
          SumMonotone(unzftab, i, 256);
          SumMonotone(unzftab, i + 1, 256);
        }
        return false, [];
      }
    }
    cftab := [0];
    for i := 1 to 257
      invariant |cftab| == i && cftab[0] == 0
      invariant forall c :: 1 <= c < i ==> cftab[c] == unzftab[c - 1]
    {
      cftab := cftab + [unzftab[i - 1]];
    }
    for i := 1 to 257
      invariant |cftab| == 257
      invariant forall c :: 0 <= c < i ==> cftab[c] == Sum(unzftab, c)
      invariant forall c :: i <= c < 257 ==> cftab[c] == unzftab[c - 1]
    {
      cftab := cftab[i := cftab[i] + cftab[i - 1]];
    }
    for i := 0 to 257
      invariant forall c :: 0 <= c < i ==> 0 <= cftab[c] <= nblock
    {
      if cftab[i] < 0 || cftab[i] > nblock {
        SumMonotone(unzftab, i, 256);
        return false, [];
      }
    }
    for i := 1 to 257 {
      if cftab[i - 1] > cftab[i] {
        SumMonotone(unzftab, i - 1, i);
        return false, [];
      }
    }
    ok := true;
  }

  /** cftab starts each character's bucket in the sorted first column. */
  ghost predicate Buckets(cftab: seq<int>, last: seq<int>) {
    |cftab| == 257 && forall c :: 0 <= c <= 256 ==> cftab[c] == Below(last, |last|, c)
  }

  // ----- fast form

  lemma Unpack(x: int, c: int, i: int)
    requires x == c + 256 * i && 0 <= c < 256
    ensures x % 256 == c && x / 256 == i
  {
  }

  /** tt packs each character of the last column with the walk's next place. */
  ghost predicate FastTable(tt: seq<int>, last: seq<int>) {
    && |last| <= |tt|
    && forall k :: 0 <= k < |last| ==> tt[k] == last[k] + 256 * Sources(last)[k]
  }

  /** cftab has advanced past the first i characters of the last column. */
  ghost predicate Advanced(cftab: seq<int>, last: seq<int>, i: nat) {
    && |cftab| == 257 && i <= |last|
    && forall c :: 0 <= c < 256 ==> cftab[c] == Below(last, |last|, c) + Occurs(last, i, c)
  }

  lemma AdvanceTable(cftab: seq<int>, last: seq<int>, i: nat)
    requires Advanced(cftab, last, i) && i < |last| && IsBytes(last)
    ensures |cftab| == 257 && 0 <= last[i] < 256
    ensures cftab[last[i]] == Slots(last)[i] && 0 <= cftab[last[i]] < |last|
    ensures Advanced(cftab[last[i] := cftab[last[i]] + 1], last, i + 1)
  {
  }

  /** FastTable with the places of only the first i characters filled in. */
  ghost predicate FastPartial(tt: seq<int>, last: seq<int>, src: seq<int>, i: nat) {
    && |src| == |last| <= |tt|
    && forall k :: 0 <= k < |last| ==> tt[k] == last[k] + if src[k] < i then 256 * src[k] else 0
  }

  lemma FillFast(tt: seq<int>, last: seq<int>, src: seq<int>, i: nat, k: int)
    requires FastPartial(tt, last, src, i) && i < |last| && IsBytes(last) && 0 <= k < |last|
    requires forall m :: 0 <= m < |last| ==> (src[m] == i <==> m == k)
    ensures 0 <= tt[k] < 256
    ensures FastPartial(tt[k := tt[k] + i * 256], last, src, i + 1)
  {
  }

  lemma ReadFast(tt: seq<int>, last: seq<int>, src: seq<int>, i: nat)
    requires FastPartial(tt, last, src, i) && i < |last| && IsBytes(last)
    ensures tt[i] % 256 == last[i]
  {
    Unpack(tt[i], last[i], if src[i] < i then src[i] else 0);
  }

  lemma SourceOfSlot(last: seq<int>, i: nat)
    requires i < |last|
    ensures forall m :: 0 <= m < |last| ==> (Sources(last)[m] == i <==> m == Slots(last)[i])
  {
    hide Sources, Slots;
  }

  lemma FastStartEnd(tt: seq<int>, last: seq<int>, cftab: seq<int>)
    requires |last| <= |tt|
    ensures Buckets(cftab, last) ==> Advanced(cftab, last, 0)
    ensures tt[..|last|] == last ==> FastPartial(tt, last, Sources(last), 0)
    ensures FastPartial(tt, last, Sources(last), |last|) ==> FastTable(tt, last)
  {
    hide Slots, Sources;
    assert forall k :: 0 <= k < |last| ==> tt[k] == tt[..|last|][k];
  }

  method BuildFast(tt: array<int>, nblock: nat, cftab0: seq<int>, ghost last: seq<int>)
    requires nblock <= tt.Length && tt[..nblock] == last && IsBytes(last)
    requires Buckets(cftab0, last)
    modifies tt
    ensures FastTable(tt[..], last)
    ensures tt[nblock..] == old(tt[nblock..])
  {
    hide *;
    var cftab := cftab0;
    FastStartEnd(tt[..], last, cftab);
    for i := 0 to nblock
      invariant Advanced(cftab, last, i)
      invariant FastPartial(tt[..], last, Sources(last), i)
      invariant tt[nblock..] == old(tt[nblock..])
    {
      ghost var before := tt[..];
      AdvanceTable(cftab, last, i);
      SourceOfSlot(last, i);
      ReadFast(before, last, Sources(last), i);
      FillFast(before, last, Sources(last), i, cftab[last[i]]);
      var uc := tt[i] % 256;
      var k := cftab[uc];
      // the high bits of tt[k] are still clear, so or-ing i << 8 into it is adding it
      tt[k] := tt[k] + i * 256;
      cftab := cftab[uc := cftab[uc] + 1];
      assert tt[..] == before[k := before[k] + i * 256];
    }
    FastStartEnd(tt[..], last, cftab0);
  }

  /** One BZ_GET_FAST: the character and the next position, or corruption. */
  method GetFast(tt: array<int>, tPos: nat, blockSize100k: nat, ghost last: seq<int>)
    returns (corrupt: bool, c: int, next: int)
    requires FastTable(tt[..], last) && IsBytes(last)
    requires |last| <= 100000 * blockSize100k <= tt.Length
    ensures corrupt <==> tPos >= 100000 * blockSize100k
    ensures tPos < |last| ==> c == last[tPos] && next == Sources(last)[tPos]
  {
    if tPos >= 100000 * blockSize100k { return true, 0, 0; }
    var x := tt[tPos];
    c, next, corrupt := x % 256, x / 256, false;
    if tPos < |last| {
      assert x == tt[..][tPos];
      Unpack(x, last[tPos], Sources(last)[tPos]);
    }
  }

  // ----- small form: twenty-bit cells, 16 bits in ll16 and 4 bits in half a byte of ll4

  predicate PackedValid(ll16: seq<int>, ll4: seq<int>) {
    && |ll16| <= 2 * |ll4|
    && (forall i :: 0 <= i < |ll16| ==> 0 <= ll16[i] < 0x10000)
    && (forall i :: 0 <= i < |ll4| ==> 0 <= ll4[i] < 0x100)
  }

  /** GET_LL */
  function Cell(ll16: seq<int>, ll4: seq<int>, i: nat): (r: int)
    requires PackedValid(ll16, ll4) && i < |ll16|
    ensures 0 <= r < 0x100000
  {
    ll16[i] + 0x10000 * (if i % 2 == 0 then ll4[i / 2] % 16 else ll4[i / 2] / 16)
  }

  ghost function Cells(ll16: seq<int>, ll4: seq<int>): (r: seq<int>)
    requires PackedValid(ll16, ll4)
    ensures |r| == |ll16|
    ensures forall i :: 0 <= i < |r| ==> r[i] == Cell(ll16, ll4, i)
  {
    seq(|ll16|, i requires 0 <= i < |ll16| => Cell(ll16, ll4, i))
  }

  /** The byte of ll4 that SET_LL4 writes back: the other half is kept. */
  function WithNibble(x: int, i: nat, m: int): (r: int)
    requires 0 <= x < 0x100 && 0 <= m < 16
    ensures 0 <= r < 0x100
    ensures if i % 2 == 0 then r % 16 == m && r / 16 == x / 16 else r % 16 == x % 16 && r / 16 == m
  {
    if i % 2 == 0 then x / 16 * 16 + m else x % 16 + m * 16
  }

  lemma WideValue(n: int)
    requires 0 <= n < 0x100000
    ensures 0 <= n % 0x10000 < 0x10000 && 0 <= n / 0x10000 < 16
    ensures n == n % 0x10000 + 0x10000 * (n / 0x10000)
  {
  }

  lemma SetCell(ll16: seq<int>, ll4: seq<int>, i: nat, n: int)
    requires PackedValid(ll16, ll4) && i < |ll16| && 0 <= n < 0x100000
    ensures 0 <= n / 0x10000 < 16 && i / 2 < |ll4| && 0 <= ll4[i / 2] < 0x100
    ensures var a, b := ll16[i := n % 0x10000], ll4[i / 2 := WithNibble(ll4[i / 2], i, n / 0x10000)];
            PackedValid(a, b) && Cells(a, b) == Cells(ll16, ll4)[i := n]
  {
    WideValue(n);
    var a, b := ll16[i := n % 0x10000], ll4[i / 2 := WithNibble(ll4[i / 2], i, n / 0x10000)];
    forall k | 0 <= k < |a| ensures Cell(a, b, k) == Cells(ll16, ll4)[i := n][k] {
      hide Cells, WithNibble;
      if k != i && k / 2 == i / 2 {
        assert k % 2 != i % 2;
      }
    }
  }

  /** SET_LL: the neighbour that shares the ll4 byte keeps its value. */
  method SetPacked(ll16: array<int>, ll4: array<int>, i: nat, n: int)
    requires ll16 != ll4 && PackedValid(ll16[..], ll4[..]) && i < ll16.Length && 0 <= n < 0x100000
    modifies ll16, ll4
    ensures PackedValid(ll16[..], ll4[..])
    ensures Cells(ll16[..], ll4[..]) == old(Cells(ll16[..], ll4[..]))[i := n]
    ensures ll16[..] == old(ll16[..])[i := n % 0x10000]
  {
    hide *;
    ghost var a, b := ll16[..], ll4[..];
    SetCell(a, b, i, n);
    ll16[i] := n % 0x10000;
    ll4[i / 2] := WithNibble(ll4[i / 2], i, n / 0x10000);
    assert ll16[..] == a[i := n % 0x10000];
    assert ll4[..] == b[i / 2 := WithNibble(b[i / 2], i, n / 0x10000)];
  }

  /** Of a table of characters, the first i entries are now slots. */
  ghost predicate SlotsDone(ll16: seq<int>, cells: seq<int>, last: seq<int>, i: nat) {
    && i <= |last| <= |ll16| == |cells|
    && (forall k :: 0 <= k < i ==> cells[k] == Slots(last)[k])
    && (forall k :: i <= k < |last| ==> ll16[k] == last[k])
  }

  lemma SlotsStep(ll16: seq<int>, cells: seq<int>, last: seq<int>, i: nat, n: int)
    requires SlotsDone(ll16, cells, last, i) && i < |last| && IsBytes(last) && n == Slots(last)[i]
    ensures ll16[i] == last[i] && ll16[i] % 256 == last[i]
    ensures SlotsDone(ll16[i := n % 0x10000], cells[i := n], last, i + 1)
  {
    hide Slots;
  }

  lemma SlotsStartEnd(ll16: seq<int>, cells: seq<int>, last: seq<int>, cftab: seq<int>)
    requires |last| <= |ll16| == |cells| && Buckets(cftab, last)
    ensures Advanced(cftab, last, 0)
    ensures ll16[..|last|] == last ==> SlotsDone(ll16, cells, last, 0)
    ensures SlotsDone(ll16, cells, last, |last|) ==> cells[..|last|] == Slots(last)
  {
    FastStartEnd(ll16, last, cftab);
    hide Slots;
    assert forall k :: 0 <= k < |last| ==> ll16[k] == ll16[..|last|][k];
  }

  /** The T vector: each character of the last column is replaced by its slot. */
  method BuildSlots(ll16: array<int>, ll4: array<int>, nblock: nat, cftab: seq<int>, ghost last: seq<int>)
    requires ll16 != ll4 && PackedValid(ll16[..], ll4[..]) && nblock <= ll16.Length && nblock <= 900000
    requires ll16[..nblock] == last && IsBytes(last) && Buckets(cftab, last)
    modifies ll16, ll4
    ensures PackedValid(ll16[..], ll4[..]) && Cells(ll16[..], ll4[..])[..nblock] == Slots(last)
  {
    hide *;
    SlotsStartEnd(ll16[..], Cells(ll16[..], ll4[..]), last, cftab);
    var cftabCopy := cftab;
    for i := 0 to nblock
      invariant PackedValid(ll16[..], ll4[..])
      invariant Advanced(cftabCopy, last, i)
      invariant SlotsDone(ll16[..], Cells(ll16[..], ll4[..]), last, i)
    {
      AdvanceTable(cftabCopy, last, i);
      SlotsStep(ll16[..], Cells(ll16[..], ll4[..]), last, i, cftabCopy[last[i]]);
      var uc := ll16[i] % 256;
      SetPacked(ll16, ll4, i, cftabCopy[uc]);
      cftabCopy := cftabCopy[uc := cftabCopy[uc] + 1];
    }
    SlotsStartEnd(ll16[..], Cells(ll16[..], ll4[..]), last, cftab);
  }

  /** Cells hold permutation p, except on visited places, where they hold its inverse q. */
  ghost predicate Reversed(cells: seq<int>, p: seq<int>, q: seq<int>, visited: set<int>) {
    && |p| == |q| <= |cells|
    && forall k :: 0 <= k < |p| ==> cells[k] == if k in visited then q[k] else p[k]
  }

  /** The places visited so far are the start of the cycle of p through start, up to i. */
  ghost predicate Trail(p: seq<int>, q: seq<int>, start: int, i: int, visited: set<int>) {
    && Inverses(p, q, |p|) && 0 <= start < |p| && 0 <= i < |p|
    && (i == start ==> visited == {})
    && (i != start ==> i in visited)
    && (forall y :: y in visited ==> 0 <= y < |p| && y != start)
    && (forall y :: y in visited ==> q[y] == start || (q[y] in visited && q[y] != i))
  }

  /** Every place the walk along q from start can reach has been reversed. */
  ghost predicate CycleReversed(cells: seq<int>, q: seq<int>, start: int, visited: set<int>) {
    && start in visited && |q| <= |cells|
    && (forall k :: k in visited ==> 0 <= k < |q| && q[k] in visited && cells[k] == q[k])
  }

  lemma TrailStep(cells: seq<int>, p: seq<int>, q: seq<int>, start: int, i: int, visited: set<int>)
    requires Trail(p, q, start, i, visited) && Reversed(cells, p, q, visited)
    ensures |p| == |q| <= |cells| && 0 <= i < |p|
    ensures var j := p[i];
            && 0 <= j < |p| && j !in visited
            && cells[j] == p[j]
            && Reversed(cells[j := i], p, q, visited + {j})
            && (j != start ==> Trail(p, q, start, j, visited + {j}))
            && (j == start ==> CycleReversed(cells[j := i], q, start, visited + {j}))
  {
    var j := p[i];
    assert q[j] == i;
  }

  lemma TrailStart(cells: seq<int>, p: seq<int>, q: seq<int>, start: int)
    requires Inverses(p, q, |p|) && 0 <= start < |p| <= |cells| && cells[..|p|] == p
    ensures Trail(p, q, start, start, {}) && Reversed(cells, p, q, {}) && cells[start] == p[start]
  {
    assert forall k :: 0 <= k < |p| ==> cells[k] == cells[..|p|][k];
  }

  lemma TrailBounded(p: seq<int>, q: seq<int>, start: int, i: int, visited: set<int>)
    requires Trail(p, q, start, i, visited)
    ensures |visited| <= |p|
  {
    SubsetCardinality(visited, Range(|p|));
  }

  /** In-place pointer reversal along the cycle through origPtr. */
  method ReverseCycle(ll16: array<int>, ll4: array<int>, origPtr: nat, ghost p: seq<int>, ghost q: seq<int>)
    returns (ghost visited: set<int>)
    requires ll16 != ll4 && PackedValid(ll16[..], ll4[..])
    requires origPtr < |p| <= ll16.Length && |p| <= 900000 && Inverses(p, q, |p|)
    requires Cells(ll16[..], ll4[..])[..|p|] == p
    modifies ll16, ll4
    ensures PackedValid(ll16[..], ll4[..])
    ensures CycleReversed(Cells(ll16[..], ll4[..]), q, origPtr, visited)
  {
    hide *;
    TrailStart(Cells(ll16[..], ll4[..]), p, q, origPtr);
    visited := {};
    var i, j := origPtr, Cell(ll16[..], ll4[..], origPtr);
    while true
      invariant PackedValid(ll16[..], ll4[..])
      invariant Reversed(Cells(ll16[..], ll4[..]), p, q, visited)
      invariant 0 <= i < |p| && j == p[i] && Trail(p, q, origPtr, i, visited)
      decreases |p| + 1 - |visited|
    {
      TrailStep(Cells(ll16[..], ll4[..]), p, q, origPtr, i, visited);
      var tmp := Cell(ll16[..], ll4[..], j);
      SetPacked(ll16, ll4, j, i);
      visited := visited + {j};
      i, j := j, tmp;
      if i == origPtr { break; }
      TrailBounded(p, q, origPtr, i, visited);
    }
  }

  /** The character whose bucket of the first column holds place indx (binary search). */
  method IndexIntoF(indx: int, cftab: seq<int>) returns (nb: int)
    requires |cftab| == 257
    ensures 0 <= nb < 256
    ensures cftab[0] <= indx < cftab[256] ==> cftab[nb] <= indx < cftab[nb + 1]
  {
    nb := 0;
    var na := 256;
    while true
      invariant 0 <= nb < na <= 256
      invariant cftab[0] <= indx < cftab[256] ==> cftab[nb] <= indx < cftab[na]
      invariant na - nb > 1
      decreases na - nb
    {
      var mid := (nb + na) / 2;
      if indx >= cftab[mid] { nb := mid; } else { na := mid; }
      if na - nb == 1 { break; }
    }
  }

  lemma BucketOfSource(last: seq<int>, k: nat, c: int)
    requires k < |last| && IsBytes(last)
    requires Below(last, |last|, c) <= k < Below(last, |last|, c + 1)
    ensures c == last[Sources(last)[k]]
  {
    var i := Sources(last)[k];
    assert Slots(last)[i] == k;
    BelowSuccessor(last, |last|, last[i]);
    OccursAfter(last, i, |last|, last[i]);
    if c < last[i] {
      BelowMonotone(last, |last|, c + 1, last[i]);
    } else if c > last[i] {
      BelowMonotone(last, |last|, last[i] + 1, c);
    }
  }

  /** One BZ_GET_SMALL: the character and the next position, or corruption. */
  method GetSmall(ll16: array<int>, ll4: array<int>, tPos: nat, blockSize100k: nat, cftab: seq<int>,
                  ghost last: seq<int>, ghost origPtr: nat, ghost visited: set<int>)
    returns (corrupt: bool, c: int, next: int)
    requires PackedValid(ll16[..], ll4[..]) && |last| <= 100000 * blockSize100k <= ll16.Length
    requires CycleReversed(Cells(ll16[..], ll4[..]), Sources(last), origPtr, visited)
    requires IsBytes(last) && Buckets(cftab, last)
    ensures corrupt <==> tPos >= 100000 * blockSize100k
    ensures tPos in visited ==> next == Sources(last)[tPos] && c == last[next] && next in visited
  {
    if tPos >= 100000 * blockSize100k { return true, 0, 0; }
    BelowExtremes(last, |last|, 0, 256);
    c := IndexIntoF(tPos, cftab);
    if tPos < |last| { BucketOfSource(last, tPos, c); }
    hide PackedValid, Cell, Sources, Below;
    next, corrupt := Cell(ll16[..], ll4[..], tPos), false;
    assert next == Cells(ll16[..], ll4[..])[tPos];
  }
}
