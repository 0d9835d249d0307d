/** fallbackSort: radix sort on one character, then doubling passes, then the block bytes
    are rebuilt. The byte view of the class array is a separate array here, and is
    overwritten with arbitrary bytes where the source overwrites it with classes. */
module FallbackSort {
  import opened Bytes
  import opened Permutations
  import opened Rotations
  import opened Counting
  import opened Buckets
  import QS = QuickSort3

  // ----- radix sort on the first character

  /** Where the radix sort puts rotation i: buckets are filled from their ends. */
  function RadixSlot(b: seq<int>, i: nat): (r: int)
    requires i < |b|
    ensures 0 <= Below(b, |b|, b[i]) <= r < Below(b, |b|, b[i] + 1) <= |b|
  {
    BelowSuccessor(b, |b|, b[i]);
    OccursAfter(b, i, |b|, b[i]);
    Below(b, |b|, b[i] + 1) - 1 - Occurs(b, i, b[i])
  }

  lemma RadixSlotDistinct(b: seq<int>, i: nat, j: nat)
    requires i < |b| && j < |b| && i != j
    ensures RadixSlot(b, i) != RadixSlot(b, j)
  {
    if b[i] == b[j] {
      OccursAfter(b, if i < j then i else j, if i < j then j else i, b[i]);
    } else if b[i] < b[j] {
      BelowMonotone(b, |b|, b[i] + 1, b[j]);
    } else {
      BelowMonotone(b, |b|, b[j] + 1, b[i]);
    }
  }

  function RadixSlots(b: seq<int>): (r: seq<int>)
    ensures |r| == |b|
  {
    seq(|b|, i requires 0 <= i < |b| => RadixSlot(b, i))
  }

  lemma RadixSlotsPermutation(b: seq<int>)
    ensures IsPermutation(RadixSlots(b), |b|)
  {
    forall i, j | 0 <= i < j < |b| ensures RadixSlots(b)[i] != RadixSlots(b)[j] {
      RadixSlotDistinct(b, i, j);
    }
  }

  /** The first i rotations have been placed. */
  ghost predicate Placed(b: seq<int>, f: seq<int>, i: nat) {
    i <= |b| == |f| && forall m :: 0 <= m < i ==> f[RadixSlot(b, m)] == m
  }

  lemma PlaceStep(b: seq<int>, f: seq<int>, i: nat)
    requires Placed(b, f, i) && i < |b|
    ensures Placed(b, f[RadixSlot(b, i) := i], i + 1)
  {
    forall m | 0 <= m < i ensures RadixSlot(b, m) != RadixSlot(b, i) { RadixSlotDistinct(b, m, i); }
  }

  /** ftab after the first i rotations have been placed. */
  ghost predicate Taken(ftab: seq<int>, b: seq<int>, i: nat) {
    && |ftab| == 257 && i <= |b|
    && forall c :: 0 <= c < 256 ==> ftab[c] == Below(b, |b|, c + 1) - Occurs(b, i, c)
  }

  lemma TakeStep(ftab: seq<int>, b: seq<int>, i: nat)
    requires Taken(ftab, b, i) && i < |b| && IsBytes(b)
    ensures |ftab| == 257 && 0 <= b[i] < 256 && ftab[b[i]] - 1 == RadixSlot(b, i)
    ensures 0 <= ftab[b[i]] - 1 < |b|
    ensures Taken(ftab[b[i] := ftab[b[i]] - 1], b, i + 1)
  {
  }

  /** Place k of the first column holds the character whose bucket contains k. */
  ghost predicate FirstColumn(b: seq<int>, f: seq<int>) {
    && IsPermutation(f, |b|)
    && forall k :: 0 <= k < |b| ==> Below(b, |b|, b[f[k]]) <= k < Below(b, |b|, b[f[k]] + 1)
  }

  lemma PlacedAll(b: seq<int>, f: seq<int>)
    requires Placed(b, f, |b|)
    ensures FirstColumn(b, f)
  {
    RadixSlotsPermutation(b);
    var p := RadixSlots(b);
    forall k | 0 <= k < |b|
      ensures 0 <= f[k] < |b| && p[f[k]] == k && Below(b, |b|, b[f[k]]) <= k < Below(b, |b|, b[f[k]] + 1)
    {
      var m := Position(p, |b|, k);
      assert RadixSlot(b, m) == k;
    }
  }

  /** The bucket test is monotone: a smaller character ends before a larger one starts. */
  lemma ColumnOrder(b: seq<int>, f: seq<int>, i: int, k: int)
    requires FirstColumn(b, f) && 0 <= i <= k < |b|
    ensures b[f[i]] <= b[f[k]]
  {
    if b[f[i]] > b[f[k]] {
      BelowMonotone(b, |b|, b[f[k]] + 1, b[f[i]]);
    }
  }

  lemma ColumnSorted(b: seq<int>, f: seq<int>)
    requires FirstColumn(b, f)
    ensures SortedTo(b, f, 1)
  {
    forall i, k | 0 <= i < k < |b| ensures Compare(b, f[i], f[k], 1) <= 0 {
      ColumnOrder(b, f, i, k);
    }
  }

  /** Every order sorted by rotation has the same first column. */
  lemma ColumnOfSorted(b: seq<int>, f0: seq<int>, f: seq<int>)
    requires FirstColumn(b, f0) && SortedTo(b, f, |b|)
    ensures FirstColumn(b, f)
  {
    ColumnSorted(b, f0);
    forall i, k | 0 <= i < k < |b| ensures Compare(b, f[i], f[k], 1) <= 0 {
      CompareShorter(b, f[i], f[k], 1, |b|);
    }
    forall k | 0 <= k < |b| ensures b[f[k]] == b[f0[k]] {
      SortedOrdersAgree(b, f, f0, 1, k);
    }
  }

  /** Bits of the first m bucket starts. */
  ghost predicate Marked(bits: seq<bool>, b: seq<int>, m: nat) {
    && |b| < |bits|
    && forall i :: 0 <= i < |b| ==> (bits[i] <==> exists c :: 0 <= c < m && Below(b, |b|, c) == i)
  }

  lemma MarkStep(bits: seq<bool>, b: seq<int>, m: nat)
    requires Marked(bits, b, m)
    ensures 0 <= Below(b, |b|, m) < |bits|
    ensures Marked(bits[Below(b, |b|, m) := true], b, m + 1)
  {
  }

  lemma MarkedHead(bits: seq<bool>, b: seq<int>, f: seq<int>, i: int)
    requires Marked(bits, b, 256) && IsBytes(b) && FirstColumn(b, f) && 0 < i < |b|
    ensures bits[i] <==> b[f[i - 1]] != b[f[i]]
  {
    var c := b[f[i]];
    ColumnOrder(b, f, i - 1, i);
    if b[f[i - 1]] < c {
      BelowMonotone(b, |b|, b[f[i - 1]] + 1, c);
      assert Below(b, |b|, c) == i;
    } else if bits[i] {
      var c' :| 0 <= c' < 256 && Below(b, |b|, c') == i;
      if c' <= c { BelowMonotone(b, |b|, c', c); } else { BelowMonotone(b, |b|, c + 1, c'); }
    }
  }

  lemma MarkedHeads(bits: seq<bool>, b: seq<int>, f: seq<int>)
    requires Marked(bits, b, 256) && IsBytes(b) && FirstColumn(b, f) && |b| > 0
    ensures Heads(b, f, bits, 1, 0, |b|)
  {
    BelowExtremes(b, |b|, 0, 256);
    assert bits[0];
    forall i | 0 < i < |b| ensures bits[i] <==> Differs(b, f, 1, i) {
      MarkedHead(bits, b, f, i);
    }
  }

  // ----- rebuilding the block

  /** How many c are left once the first i places of the first column are done. */
  function Left(b: seq<int>, i: nat, c: int): (r: int) {
    var lo, hi := Below(b, |b|, c), Below(b, |b|, c + 1);
    if hi <= i then 0 else if i <= lo then hi - lo else hi - i
  }

  ghost predicate Rebuilding(ftabCopy: seq<int>, b: seq<int>, i: nat, j: int) {
    && |ftabCopy| == 256 && 0 <= j && i <= |b|
    && (forall c :: 0 <= c < 256 ==> ftabCopy[c] == Left(b, i, c))
    && (forall c :: 0 <= c < j && c < 256 ==> ftabCopy[c] == 0)
  }

  lemma LeftAt(b: seq<int>, f: seq<int>, i: nat, c: int)
    requires FirstColumn(b, f) && i < |b|
    ensures c == b[f[i]] ==> Left(b, i, c) > 0 && Left(b, i + 1, c) == Left(b, i, c) - 1
    ensures c < b[f[i]] ==> Left(b, i, c) == 0
    ensures c != b[f[i]] ==> Left(b, i + 1, c) == Left(b, i, c)
  {
    if c < b[f[i]] { BelowMonotone(b, |b|, c + 1, b[f[i]]); BelowMonotone(b, |b|, c, c + 1); }
    if c > b[f[i]] { BelowMonotone(b, |b|, b[f[i]] + 1, c); BelowMonotone(b, |b|, c, c + 1); }
  }

  lemma RebuildStep(ftabCopy: seq<int>, b: seq<int>, f: seq<int>, i: nat, j: int)
    requires Rebuilding(ftabCopy, b, i, j) && FirstColumn(b, f) && IsBytes(b) && i < |b|
    ensures 0 <= f[i] < |b| && |ftabCopy| == 256
    ensures j <= b[f[i]] < 256
    ensures ftabCopy[j] == 0 ==> Rebuilding(ftabCopy, b, i, j + 1)
    ensures ftabCopy[j] != 0 ==> j == b[f[i]] && Rebuilding(ftabCopy[j := ftabCopy[j] - 1], b, i + 1, j)
  {
    LeftAt(b, f, i, b[f[i]]);
    forall c | 0 <= c < 256
      ensures c == b[f[i]] ==> Left(b, i + 1, c) == Left(b, i, c) - 1
      ensures c < b[f[i]] ==> Left(b, i, c) == 0
      ensures c != b[f[i]] ==> Left(b, i + 1, c) == Left(b, i, c)
    {
      LeftAt(b, f, i, c);
    }
  }

  lemma RebuildStart(ftabCopy: seq<int>, b: seq<int>)
    requires |ftabCopy| == 256 && forall c :: 0 <= c < 256 ==> ftabCopy[c] == Occurs(b, |b|, c)
    ensures Rebuilding(ftabCopy, b, 0, 0)
  {
    forall c | 0 <= c < 256 ensures Left(b, 0, c) == Occurs(b, |b|, c) { BelowSuccessor(b, |b|, c); }
  }

  /** The places listed so far hold their bytes again. */
  ghost predicate Restored(b: seq<int>, f: seq<int>, a: seq<int>, i: nat) {
    && |a| == |b| == |f| && i <= |b|
    && forall m :: 0 <= m < i && 0 <= f[m] < |b| ==> a[f[m]] == b[f[m]]
  }

  lemma RestoredAll(b: seq<int>, f: seq<int>, a: seq<int>)
    requires Restored(b, f, a, |b|) && IsPermutation(f, |b|)
    ensures a == b
  {
    forall x | 0 <= x < |b| ensures a[x] == b[x] {
      var k := Position(f, |b|, x);
    }
  }

  lemma RestoreStep(b: seq<int>, f: seq<int>, a: seq<int>, i: nat)
    requires Restored(b, f, a, i) && i < |b| && 0 <= f[i] < |b|
    ensures Restored(b, f, a[f[i] := b[f[i]]], i + 1)
  {
  }

  // ----- the loops

  lemma CountStep(ftab: seq<int>, b: seq<int>, i: nat)
    requires i < |b| && IsBytes(b) && |ftab| == 257
    requires forall c :: 0 <= c < 257 ==> ftab[c] == Occurs(b, i, c)
    ensures 0 <= b[i] < 257
    ensures var t := ftab[b[i] := ftab[b[i]] + 1];
            |t| == 257 && forall c :: 0 <= c < 257 ==> t[c] == Occurs(b, i + 1, c)
  {
  }

  /** Character counts, kept in ftabCopy, and their running sums in ftab. */
  method CountCharacters(block: array<int>, ghost b: seq<int>) returns (ftab: seq<int>, ftabCopy: seq<int>)
    requires block[..] == b && IsBytes(b)
    ensures Taken(ftab, b, 0)
    ensures |ftabCopy| == 256 && forall c :: 0 <= c < 256 ==> ftabCopy[c] == Occurs(b, |b|, c)
  {
    ftab := seq(257, _ => 0);
    for i := 0 to block.Length
      invariant |ftab| == 257 && block[..] == b
      invariant forall c :: 0 <= c < 257 ==> ftab[c] == Occurs(b, i, c)
    {
      CountStep(ftab, b, i);
      var j := block[i];
      ftab := ftab[j := ftab[j] + 1];
    }
    ftabCopy := ftab[..256];
    ghost var counts := ftab;
    BelowExtremes(b, |b|, 0, 256);
    BelowSuccessor(b, |b|, 0);
    for i := 1 to 257
      invariant |ftab| == 257
      invariant forall c :: 0 <= c < i ==> ftab[c] == Below(b, |b|, c + 1)
      invariant forall c :: i <= c < 257 ==> ftab[c] == counts[c]
    {
      BelowSuccessor(b, |b|, i);
      ftab := ftab[i := ftab[i] + ftab[i - 1]];
    }
  }

  /** Place every rotation in the bucket of its first character. */
  method PlaceRotations(block: array<int>, fmap: array<int>, ftab0: seq<int>, ghost b: seq<int>)
    returns (ftab: seq<int>)
    requires block != fmap && block[..] == b && IsBytes(b) && fmap.Length == |b| && Taken(ftab0, b, 0)
    modifies fmap
    ensures FirstColumn(b, fmap[..]) && Taken(ftab, b, |b|)
  {
    hide *;
    ftab := ftab0;
    PlaceStart(b, fmap[..]);
    for i := 0 to block.Length
      invariant block[..] == b && Placed(b, fmap[..], i) && Taken(ftab, b, i)
    {
      ghost var f := fmap[..];
      TakeStep(ftab, b, i);
      PlaceStep(b, f, i);
      assert block[i] == b[i];
      var j := block[i];
      var k := ftab[j] - 1;
      ftab := ftab[j := k];
      fmap[k] := i;
      assert fmap[..] == f[k := i];
    }
    PlacedAll(b, fmap[..]);
  }

  lemma PlaceStart(b: seq<int>, f: seq<int>)
    requires |b| == |f|
    ensures Placed(b, f, 0)
  {
  }

  /** Bits past the block stop the scans for bucket ends. */
  ghost predicate Sentinels(bits: seq<bool>, n: nat) {
    |bits| == 32 * (n / 32 + 3) && n + 1 < |bits| && bits[n] && !bits[n + 1]
  }

  lemma TakenAll(ftab: seq<int>, b: seq<int>, c: nat)
    requires Taken(ftab, b, |b|) && c < 256
    ensures |ftab| == 257 && ftab[c] == Below(b, |b|, c)
  {
    BelowSuccessor(b, |b|, c);
  }

  lemma MarkOutside(bits: seq<bool>, bits': seq<bool>, b: seq<int>, m: nat)
    requires |b| <= |bits| == |bits'| && (forall i :: 0 <= i < |b| ==> bits'[i] == bits[i])
    ensures Marked(bits, b, m) ==> Marked(bits', b, m)
  {
  }

  lemma MarkStart(bits: seq<bool>, b: seq<int>)
    requires |b| < |bits| && forall i :: 0 <= i < |b| ==> !bits[i]
    ensures Marked(bits, b, 0)
  {
  }

  /** Set the bits of the bucket starts and the sentinel bits. */
  method MarkHeads(bhtab: array<bool>, nblock: nat, ftab: seq<int>, ghost b: seq<int>)
    requires nblock == |b| && bhtab.Length == 32 * (nblock / 32 + 3) && Taken(ftab, b, |b|)
    modifies bhtab
    ensures Marked(bhtab[..], b, 256) && Sentinels(bhtab[..], nblock)
  {
    hide Marked, Taken;
    var nBhtab := 2 + nblock / 32;
    for i := 0 to 32 * nBhtab
      invariant forall k :: 0 <= k < i ==> !bhtab[k]
    {
      bhtab[i] := false;
    }
    MarkStart(bhtab[..], b);
    for i := 0 to 256
      invariant Marked(bhtab[..], b, i)
    {
      ghost var bits := bhtab[..];
      MarkStep(bits, b, i);
      TakenAll(ftab, b, i);
      bhtab[ftab[i]] := true;
      assert bhtab[..] == bits[ftab[i] := true];
    }
    for i := 0 to 32
      invariant Marked(bhtab[..], b, 256)
      invariant forall k :: 0 <= k < i ==> bhtab[nblock + 2 * k] && !bhtab[nblock + 2 * k + 1]
    {
      ghost var bits := bhtab[..];
      bhtab[nblock + 2 * i] := true;
      bhtab[nblock + 2 * i + 1] := false;
      MarkOutside(bits, bhtab[..], b, 256);
    }
    assert bhtab[nblock + 2 * 0] && !bhtab[nblock + 2 * 0 + 1];
  }

  /** First loop of a pass: the class of each rotation h before place i is i's bucket start. */
  method AssignClasses(fmap: array<int>, eclass: array<int>, bhtab: array<bool>, h: nat, ghost b: seq<int>)
    requires fmap != eclass && fmap.Length == eclass.Length == |b| < bhtab.Length && h <= |b|
    requires SortedTo(b, fmap[..], h) && Heads(b, fmap[..], bhtab[..], h, 0, |b|)
    modifies eclass
    ensures ClassOrder(b, eclass[..], h)
    ensures forall x :: 0 <= x < |b| ==> eclass[x] >= 0
  {
    hide *;
    ghost var f, bits := fmap[..], bhtab[..];
    var nblock := fmap.Length;
    ClassesStart(b, f, bits, eclass[..], h);
    var j := 0;
    for i := 0 to nblock
      invariant fmap[..] == f && bhtab[..] == bits && ClassesSet(f, bits, eclass[..], h, i)
      invariant i > 0 ==> j == HeadOf(bits, i - 1)
      invariant i == 0 ==> j == 0
    {
      ghost var ec := eclass[..];
      HeadUnfold(bits, i);
      if bhtab[i] { j := i; }
      RetreatIs(nblock, f[i], h);
      var k := fmap[i] - h;
      if k < 0 { k := k + nblock; }
      ClassesStep(f, bits, ec, h, i);
      eclass[k] := j;
      assert eclass[..] == ec[k := j];
    }
    ClassesOrdered(b, f, bits, eclass[..], h);
    forall x | 0 <= x < |b| ensures eclass[x] >= 0 { ClassNatural(b, f, bits, eclass[..], h, x); }
  }

  lemma ClassesStart(b: seq<int>, f: seq<int>, bits: seq<bool>, ec: seq<int>, h: nat)
    requires SortedTo(b, f, h) && h <= |b| == |ec| <= |bits|
    ensures ClassesSet(f, bits, ec, h, 0) && |f| == |b| && IsPermutation(f, |f|)
    ensures forall i :: 0 <= i < |f| ==> 0 <= f[i] < |f|
  {
  }

  lemma HeadUnfold(bits: seq<bool>, i: nat)
    requires i < |bits|
    ensures HeadOf(bits, i) == if i == 0 || bits[i] then i else HeadOf(bits, i - 1)
  {
  }

  lemma RetreatIs(n: nat, y: int, h: nat)
    requires 0 <= y < n && h <= n
    ensures Retreat(n, y, h) == if y - h < 0 then y - h + n else y - h
    ensures 0 <= Retreat(n, y, h) < n
  {
  }

  lemma ClassNatural(b: seq<int>, f: seq<int>, bits: seq<bool>, ec: seq<int>, h: nat, x: int)
    requires SortedTo(b, f, h) && ClassesSet(f, bits, ec, h, |f|) && 0 <= x < |b|
    ensures ec[x] >= 0
  {
    var i := Position(f, |b|, Advance(|b|, x, h));
    AdvanceInjective(|b|, x, Retreat(|b|, f[i], h), h);
  }

  predicate Word(bhtab: array<bool>, k: nat, v: bool)
    reads bhtab
  {
    k + 32 <= bhtab.Length && forall i :: k <= i < k + 32 ==> bhtab[i] == v
  }

  /** The first place from k0 on whose bit is not v: bit by bit to a word boundary, then by
      whole words, then bit by bit. A stopper known to lie ahead keeps the scan in bounds. */
  method FindOther(bhtab: array<bool>, k0: nat, v: bool, ghost stop: nat) returns (k: nat)
    requires k0 <= stop < bhtab.Length && bhtab[stop] != v && bhtab.Length % 32 == 0
    ensures k0 <= k <= stop && bhtab[k] != v
    ensures forall i :: k0 <= i < k ==> bhtab[i] == v
  {
    hide Word;
    k := k0;
    while bhtab[k] == v && k % 32 != 0
      invariant k0 <= k <= stop
      invariant forall i :: k0 <= i < k ==> bhtab[i] == v
      decreases stop - k
    {
      k := k + 1;
    }
    if bhtab[k] == v {
      while Word(bhtab, k, v)
        invariant k0 <= k <= stop && k % 32 == 0
        invariant forall i :: k0 <= i < k ==> bhtab[i] == v
        decreases stop - k
      {
        WordIs(bhtab, k, v, stop);
        k := k + 32;
      }
      while bhtab[k] == v
        invariant k0 <= k <= stop
        invariant forall i :: k0 <= i < k ==> bhtab[i] == v
        decreases stop - k
      {
        k := k + 1;
      }
    }
  }

  /** A word without the stopper ends before it. */
  lemma WordIs(bhtab: array<bool>, k: nat, v: bool, stop: nat)
    requires Word(bhtab, k, v) && k <= stop < bhtab.Length && bhtab[stop] != v
    ensures k + 32 <= stop && forall i :: k <= i < k + 32 ==> bhtab[i] == v
  {
  }

  /** Set header bits where the class changes within the sorted bucket. */
  method ScanBucket(fmap: array<int>, eclass: array<int>, bhtab: array<bool>, l: nat, r: nat)
    requires fmap != eclass && l <= r < fmap.Length <= bhtab.Length
    requires forall i :: 0 <= i < fmap.Length ==> 0 <= fmap[i] < eclass.Length
    requires forall i :: 0 <= i < eclass.Length ==> 0 <= eclass[i]
    requires bhtab[l] && forall i :: l < i <= r ==> !bhtab[i]
    modifies bhtab
    ensures Rescanned(old(bhtab[..]), bhtab[..], fmap[..], eclass[..], l, r)
  {
    ghost var f, ec, bits := fmap[..], eclass[..], bhtab[..];
    var cc := -1;
    for i := l to r + 1
      invariant fmap[..] == f && eclass[..] == ec
      invariant i == l ==> cc == -1
      invariant i > l ==> cc == QS.Key(f, ec, i - 1) && bhtab[l]
      invariant forall k :: 0 <= k < bhtab.Length && (k < l || i <= k) ==> bhtab[k] == bits[k]
      invariant forall k :: l < k < i ==> (bhtab[k] <==> QS.Key(f, ec, k - 1) != QS.Key(f, ec, k))
    {
      var cc1 := eclass[fmap[i]];
      assert cc1 == QS.Key(f, ec, i);
      if cc != cc1 { bhtab[i] := true; cc := cc1; }
    }
  }

  lemma PassBits(b: seq<int>, f: seq<int>, bits: seq<bool>, h: nat, r: int)
    requires Mixed(b, f, bits, h, r) && Sentinels(bits, |b|)
    ensures -1 <= r < |b| && bits[r + 1] && |b| + 1 < |bits| && bits[|b|] && !bits[|b| + 1] && |bits| % 32 == 0
  {
  }

  /** What the scan for the next bucket establishes. */
  lemma PassBucket(b: seq<int>, f: seq<int>, bits: seq<bool>, h: nat, r: int, l: int, r': int)
    requires Mixed(b, f, bits, h, r) && r < l < r' < |b|
    requires forall i :: r + 1 <= i < l + 1 ==> bits[i]
    requires forall i :: l + 1 <= i < r' + 1 ==> !bits[i]
    requires r' + 1 < |bits| && bits[r' + 1]
    ensures Skipped(bits, r, l) && Bucket(b, f, bits, h, l, r')
    ensures |f| == |b| && QS.Indices(f, f, l, r') && (forall i :: 0 <= i < |f| ==> 0 <= f[i] < |b|)
  {
  }

  lemma PassIndices(f: seq<int>, ec: seq<int>, l: int, r: int)
    requires QS.Indices(f, f, l, r) && |ec| == |f|
    ensures QS.Indices(f, ec, l, r)
  {
  }

  lemma PassSorted(b: seq<int>, f: seq<int>, g: seq<int>, bits: seq<bool>, h: nat, r: int, l: int, r': int)
    requires Mixed(b, f, bits, h, r) && r < l && Bucket(b, f, bits, h, l, r') && QS.Permuted(f, g, l, r')
    ensures |g| == |b| && forall i :: 0 <= i < |g| ==> 0 <= g[i] < |b|
  {
    forall i | 0 <= i < |g| ensures 0 <= g[i] < |b| {
      if l <= i <= r' { var y := QS.PermutedFrom(f, g, l, r', i); }
    }
  }

  lemma PassSentinels(bits: seq<bool>, bits': seq<bool>, g: seq<int>, ec: seq<int>, n: nat, l: int, r: int)
    requires Sentinels(bits, n) && Rescanned(bits, bits', g, ec, l, r) && r < n
    ensures Sentinels(bits', n)
  {
  }

  /** Sort one bucket by class and mark the buckets it splits into. */
  method RefineBucket(fmap: array<int>, eclass: array<int>, bhtab: array<bool>, h: nat, r: int, l: nat, r': nat,
                      ghost b: seq<int>)
    requires fmap != eclass && fmap.Length == eclass.Length == |b| <= 900000
    requires Mixed(b, fmap[..], bhtab[..], h, r) && Sentinels(bhtab[..], |b|) && ClassOrder(b, eclass[..], h)
    requires -1 <= r < l < r' < |b| && r' + 1 < bhtab.Length && bhtab[r' + 1]
    requires forall x :: 0 <= x < |b| ==> eclass[x] >= 0
    requires forall i :: r + 1 <= i < l + 1 ==> bhtab[i]
    requires forall i :: l + 1 <= i < r' + 1 ==> !bhtab[i]
    modifies fmap, bhtab
    ensures Mixed(b, fmap[..], bhtab[..], h, r') && Sentinels(bhtab[..], |b|)
  {
    hide *;
    ghost var f, ec, bits := fmap[..], eclass[..], bhtab[..];
    PassBucket(b, f, bits, h, r, l, r');
    PassIndices(f, ec, l, r');
    QS.Sort(fmap, eclass, l, r');
    ghost var g := fmap[..];
    PassSorted(b, f, g, bits, h, r, l, r');
    assert bits[l];
    ScanBucket(fmap, eclass, bhtab, l, r');
    MixedStep(b, f, g, bits, bhtab[..], ec, h, r, l, r');
    PassSentinels(bits, bhtab[..], g, ec, |b|, l, r');
  }

  /** One doubling pass: from buckets equal to depth h to buckets equal to depth 2h. */
  method Pass(fmap: array<int>, eclass: array<int>, bhtab: array<bool>, h: nat, ghost b: seq<int>)
    returns (nNotDone: nat)
    requires fmap != eclass && fmap.Length == eclass.Length == |b| <= 900000 && |b| < bhtab.Length
    requires 1 <= h <= |b| && Sentinels(bhtab[..], |b|)
    requires SortedTo(b, fmap[..], h) && Heads(b, fmap[..], bhtab[..], h, 0, |b|)
    modifies fmap, eclass, bhtab
    ensures SortedTo(b, fmap[..], 2 * h) && Heads(b, fmap[..], bhtab[..], 2 * h, 0, |b|)
    ensures Sentinels(bhtab[..], |b|)
    ensures nNotDone == 0 ==> SortedTo(b, fmap[..], |b|)
  {
    hide *;
    var nblock := fmap.Length;
    MixedStart(b, fmap[..], bhtab[..], h);
    AssignClasses(fmap, eclass, bhtab, h, b);
    ghost var ec := eclass[..];
    nNotDone := 0;
    var r := -1;
    while true
      invariant eclass[..] == ec && Mixed(b, fmap[..], bhtab[..], h, r) && Sentinels(bhtab[..], |b|)
      invariant nNotDone == 0 ==> r == -1
      invariant -1 <= r < nblock
      decreases nblock - r
    {
      PassBits(b, fmap[..], bhtab[..], h, r);
      var k := FindOther(bhtab, r + 1, true, nblock + 1);
      var l := k - 1;
      if l >= nblock { break; }
      k := FindOther(bhtab, k, false, nblock);
      var r' := k - 1;
      if r' >= nblock { break; }
      if r' > l {
        nNotDone := nNotDone + (r' - l + 1);
        RefineBucket(fmap, eclass, bhtab, h, r, l, r', b);
      }
      r := r';
    }
    MixedEnd(b, fmap[..], bhtab[..], h, r);
  }

  /** The log(N) loop. */
  method Double(fmap: array<int>, eclass: array<int>, bhtab: array<bool>, ghost b: seq<int>)
    requires fmap != eclass && fmap.Length == eclass.Length == |b| < bhtab.Length && 0 < |b| <= 900000
    requires SortedTo(b, fmap[..], 1) && Heads(b, fmap[..], bhtab[..], 1, 0, |b|) && Sentinels(bhtab[..], |b|)
    modifies fmap, eclass, bhtab
    ensures SortedTo(b, fmap[..], |b|)
  {
    hide *;
    var h := 1;
    while true
      invariant 1 <= h <= |b| && Sentinels(bhtab[..], |b|)
      invariant SortedTo(b, fmap[..], h) && Heads(b, fmap[..], bhtab[..], h, 0, |b|)
      decreases |b| - h
    {
      var nNotDone := Pass(fmap, eclass, bhtab, h, b);
      h := h * 2;
      if h > fmap.Length || nNotDone == 0 { break; }
    }
    if h > |b| { DeepEnough(b, fmap[..], h); }
  }

  /** The bytes the classes were written over hold nothing the rest relies on. */
  method Clobber(block: array<int>)
    modifies block
  {
    for i := 0 to block.Length {
      block[i] := *;
    }
  }

  /** Rebuild the block from its first column. */
  method Rebuild(block: array<int>, fmap: array<int>, ftabCopy0: seq<int>, ghost b: seq<int>)
    requires block != fmap && block.Length == fmap.Length == |b| && IsBytes(b)
    requires FirstColumn(b, fmap[..]) && Rebuilding(ftabCopy0, b, 0, 0)
    modifies block
    ensures block[..] == b
  {
    hide *;
    ghost var f := fmap[..];
    var ftabCopy, j := ftabCopy0, 0;
    RestoreStart(b, f, block[..]);
    for i := 0 to fmap.Length
      invariant fmap[..] == f && Rebuilding(ftabCopy, b, i, j) && Restored(b, f, block[..], i)
      invariant 0 <= j < 256  // AssertH 1005
    {
      RebuildStep(ftabCopy, b, f, i, j);
      ghost var a := block[..];
      while ftabCopy[j] == 0
        invariant block[..] == a
        invariant 0 <= j <= b[f[i]] < 256 && |ftabCopy| == 256
        invariant Rebuilding(ftabCopy, b, i, j)
        decreases 256 - j
      {
        RebuildStep(ftabCopy, b, f, i, j);
        j := j + 1;
        RebuildStep(ftabCopy, b, f, i, j);
      }
      RebuildStep(ftabCopy, b, f, i, j);
      ftabCopy := ftabCopy[j := ftabCopy[j] - 1];
      RestoreStep(b, f, a, i);
      block[fmap[i]] := j;
      assert block[..] == a[f[i] := b[f[i]]];
    }
    RestoredDone(b, f, block[..]);
  }

  lemma RestoreStart(b: seq<int>, f: seq<int>, a: seq<int>)
    requires |a| == |b| == |f|
    ensures Restored(b, f, a, 0)
  {
  }

  lemma RestoredDone(b: seq<int>, f: seq<int>, a: seq<int>)
    requires Restored(b, f, a, |b|) && FirstColumn(b, f)
    ensures a == b
  {
    RestoredAll(b, f, a);
  }

  /** fallbackSort: all rotations of the block in weak lexicographic order, and the block intact. */
  method Sort(block: array<int>, fmap: array<int>, eclass: array<int>, bhtab: array<bool>, nblock: nat)
    requires 0 < nblock <= 900000 && block.Length == fmap.Length == eclass.Length == nblock
    requires block != fmap && block != eclass && fmap != eclass
    requires bhtab.Length == 32 * (nblock / 32 + 3)
    requires IsBytes(block[..])
    modifies block, fmap, eclass, bhtab
    ensures block[..] == old(block[..])
    ensures IsSortedOrder(block[..], fmap[..])
  {
    hide *;
    ghost var b := block[..];
    var ftab, ftabCopy := CountCharacters(block, b);
    RebuildStart(ftabCopy, b);
    ftab := PlaceRotations(block, fmap, ftab, b);
    ghost var f0 := fmap[..];
    ColumnSorted(b, f0);
    Clobber(block);
    MarkHeads(bhtab, nblock, ftab, b);
    MarkedHeads(bhtab[..], b, f0);
    Double(fmap, eclass, bhtab, b);
    ColumnOfSorted(b, f0, fmap[..]);
    Rebuild(block, fmap, ftabCopy, b);
    SortedToIsSortedOrder(b, fmap[..]);
  }
}
