/** unRLE_obuf_to_output_FAST and _SMALL: following the inverse block sort and undoing the
    run-length layer, into whatever space the caller offers. */
module TextOutput {
  import opened Bytes
  import opened Counting
  import opened InverseBwt
  import opened BwtDecoder
  import opened RunLength
  import opened CrcRegister
  import opened BlockChecksum
  import MF = MoveToFront
  import opened RandTable
  import R = Randomised

  // ----- what is still to come

  /** Bytes still to come, and whether the block turns out to be cut short after them. */
  datatype Rest = Rest(bytes: seq<int>, cut: bool)

  function Before(a: seq<int>, t: Rest): (r: Rest) {
    t.(bytes := a + t.bytes)
  }

  /** What the decoder makes of a block: its runs one after the other. Four equal bytes at the very end
      lack their count; the decoder finds extra in its place and gives that run too. */
  function Unrun(s: seq<int>, extra: nat): (r: Rest)
    requires IsBytes(s)
    decreases |s|
  {
    if s == [] then Rest([], false)
    else
      var k := Lead(s);
      if k < 4 then Before(MF.Repeat(s[0], k), Unrun(s[k..], extra))
      else if |s| == 4 then Rest(MF.Repeat(s[0], 4 + extra), true)
      else Before(MF.Repeat(s[0], 4 + s[4]), Unrun(s[5..], extra))
  }

  /** Of a block that is not cut short the decoder makes its text. */
  lemma {:induction false} UnrunIs(s: seq<int>, extra: nat)
    requires IsBytes(s)
    ensures UnRle(s) == if Unrun(s, extra).cut then Unfinished else Text(Unrun(s, extra).bytes)
    decreases |s|
  {
    hide MF.Repeat, Lead;
    if s != [] {
      if Lead(s) < 4 { UnrunIs(s[Lead(s)..], extra); } else if |s| > 4 { UnrunIs(s[5..], extra); }
    }
  }

  /** len more bytes ch, then the runs of block s from the used-th byte on; the last byte taken is
      the first of the next run. */
  function Pending(s: seq<int>, ch: int, len: nat, used: nat, extra: nat): (r: Rest)
    requires IsBytes(s) && used >= 1
  {
    Before(MF.Repeat(ch, len),
           if used <= |s| then Unrun(s[used - 1..], extra) else Rest([], used > |s| + 1))
  }

  /** Nothing is to come only when the current run and all runs after it are done. */
  lemma NothingPending(s: seq<int>, ch: int, len: nat, used: nat, extra: nat)
    requires IsBytes(s) && used >= 1 && Pending(s, ch, len, used, extra) == Rest([], false)
    ensures len == 0 && used == |s| + 1
  {
  }

  /** One byte of the current run. */
  lemma GiveOne(s: seq<int>, ch: int, len: nat, used: nat, extra: nat)
    requires IsBytes(s) && used >= 1 && len > 0
    ensures Pending(s, ch, len, used, extra) == Before([ch], Pending(s, ch, len - 1, used, extra))
  {
    hide Unrun;
    var t := if used <= |s| then Unrun(s[used - 1..], extra) else Rest([], used > |s| + 1);
    assert MF.Repeat(ch, len) == [ch] + MF.Repeat(ch, len - 1);
    assert [ch] + MF.Repeat(ch, len - 1) + t.bytes == [ch] + (MF.Repeat(ch, len - 1) + t.bytes);
  }

  lemma BeforeTwice(a: seq<int>, b: seq<int>, t: Rest)
    ensures Before(a, Before(b, t)) == Before(a + b, t)
    ensures Before([], t) == t
  {
    assert a + (b + t.bytes) == a + b + t.bytes;
    assert [] + t.bytes == t.bytes;
  }

  /** How a new run is found: k equal bytes, and after four of them a count. */
  lemma NewRun(s: seq<int>, ch: int, used: nat, k: nat, extra: nat)
    requires IsBytes(s) && 1 <= used <= |s| && 1 <= k <= 4 && used - 1 + k <= |s|
    requires forall i :: used - 1 <= i < used - 1 + k ==> s[i] == s[used - 1]
    requires k < 4 && used - 1 + k < |s| ==> s[used - 1 + k] != s[used - 1]
    ensures k < 4 ==> Pending(s, ch, 0, used, extra) == Pending(s, s[used - 1], k, used + k, extra)
    ensures k == 4 ==>
      Pending(s, ch, 0, used, extra) ==
      Pending(s, s[used - 1], 4 + (if used + 4 <= |s| then s[used + 3] else extra), used + 5, extra)
  {
    hide Unrun, MF.Repeat;
    var tail := s[used - 1..];
    RunOff(tail, k, extra);
    NothingBefore(ch, Unrun(tail, extra), extra);
    if k < 4 {
      assert tail[k..] == s[used - 1 + k..];
      if used - 1 + k == |s| { assert tail[k..] == []; }
    } else if used + 4 <= |s| {
      assert tail[4] == s[used + 3] && tail[5..] == s[used + 4..];
      if used + 4 == |s| { assert tail[5..] == []; }
    } else {
      EmptyAfter(MF.Repeat(s[used - 1], 4 + extra));
    }
  }

  lemma EmptyAfter(a: seq<int>)
    ensures Before(a, Rest([], true)) == Rest(a, true)
  {
    assert a + [] == a;
  }

  lemma NothingBefore(ch: int, t: Rest, extra: nat)
    ensures Before(MF.Repeat(ch, 0), t) == t && Unrun([], extra) == Rest([], false)
  {
    assert MF.Repeat(ch, 0) == [];
    assert [] + t.bytes == t.bytes;
  }

  /** A run of k bytes, or of four and a count, comes off the front. */
  lemma RunOff(tail: seq<int>, k: nat, extra: nat)
    requires IsBytes(tail) && 1 <= k <= 4 && k <= |tail|
    requires forall i :: 0 <= i < k ==> tail[i] == tail[0]
    requires k < 4 && k < |tail| ==> tail[k] != tail[0]
    ensures k < 4 ==> Unrun(tail, extra) == Before(MF.Repeat(tail[0], k), Unrun(tail[k..], extra))
    ensures k == 4 && |tail| > 4 ==>
      Unrun(tail, extra) == Before(MF.Repeat(tail[0], 4 + tail[4]), Unrun(tail[5..], extra))
    ensures k == 4 && |tail| == 4 ==> Unrun(tail, extra) == Rest(MF.Repeat(tail[0], 4 + extra), true)
  {
    hide MF.Repeat;
    LeadIs(tail, k);
  }

  lemma LeadIs(tail: seq<int>, k: nat)
    requires 1 <= k <= 4 && k <= |tail|
    requires forall i :: 0 <= i < k ==> tail[i] == tail[0]
    requires k < 4 && k < |tail| ==> tail[k] != tail[0]
    ensures Lead(tail) == k
  {
    if k >= 2 { assert tail[1] == tail[0]; }
    if k >= 3 { assert tail[2] == tail[0]; }
    if k >= 4 { assert tail[3] == tail[0]; }
  }

  // ----- the walk

  /** The place reached after m steps. */
  ghost function WalkPos(last: seq<int>, t: int, m: nat): (r: int)
    requires 0 <= t < |last|
    ensures 0 <= r < |last|
    decreases m
  {
    if m == 0 then t else Sources(last)[WalkPos(last, t, m - 1)]
  }

  lemma {:induction false} WalkPosFirst(last: seq<int>, t: int, m: nat)
    requires 0 <= t < |last|
    ensures WalkPos(last, t, m + 1) == WalkPos(last, Sources(last)[t], m)
    decreases m
  {
    hide Sources;
    SourcesInRange(last, t);
    if m > 0 { WalkPosFirst(last, t, m - 1); }
  }

  lemma SourcesInRange(last: seq<int>, t: int)
    requires 0 <= t < |last|
    ensures |Sources(last)| == |last| && 0 <= Sources(last)[t] < |last|
  {
  }

  lemma {:induction false} WalkAt(last: seq<int>, t: int, m: nat, i: nat)
    requires 0 <= t < |last| && i < m
    ensures Walk(last, t, m)[i] == last[WalkPos(last, t, i + 1)]
    decreases m
  {
    hide Sources;
    SourcesInRange(last, t);
    WalkPosFirst(last, t, i);
    if i > 0 { WalkAt(last, Sources(last)[t], m - 1, i - 1); }
  }

  /** What the decoder finds after m steps, also beyond the end of the block. */
  ghost function CharAt(last: seq<int>, origPtr: int, randomised: bool, m: nat): (c: int)
    ensures IsBytes(last) ==> 0 <= c < 256
  {
    if 0 <= origPtr < |last| then R.Unmask(randomised, m, last[WalkPos(last, origPtr, m + 1)]) else 0
  }

  // ----- the decoder's output state

  /** The table for the last column is in place, in either form. */
  ghost predicate TableOk(small: bool, tt: seq<int>, ll16: seq<int>, ll4: seq<int>, cftab: seq<int>, blockSize100k: nat,
                          last: seq<int>, origPtr: int, visited: set<int>) {
    && 0 <= origPtr < |last| && IsBytes(last) && |last| <= 100000 * blockSize100k
    && if small then
         && PackedValid(ll16, ll4) && 100000 * blockSize100k <= |ll16| && Buckets(cftab, last)
         && CycleReversed(Cells(ll16, ll4), Sources(last), origPtr, visited)
       else FastTable(tt, last) && 100000 * blockSize100k <= |tt|
  }

  /** tPos when m bytes have been taken. */
  ghost predicate Stands(small: bool, tPos: int, last: seq<int>, origPtr: int, visited: set<int>, m: nat) {
    && 0 <= origPtr < |last|
    && if small then tPos == WalkPos(last, origPtr, m) && tPos in visited else tPos == WalkPos(last, origPtr, m + 1)
  }

  ghost predicate Whole(s: seq<int>, last: seq<int>, origPtr: int, randomised: bool) {
    0 <= origPtr < |last| && s == R.Derandomise(Walk(last, origPtr, |last|), randomised) && IsBytes(s)
  }

  /** s is the block that the walk spells, with the flipped bits put right. */
  ghost predicate Spells(s: seq<int>, last: seq<int>, origPtr: int, randomised: bool) {
    IsBytes(last) && Whole(s, last, origPtr, randomised)
  }

  /** rNToGo and rTPos when m bytes have been taken. */
  ghost predicate Masked(randomised: bool, rNToGo: int, rTPos: nat, m: nat) {
    randomised ==> R.Mask(rNToGo, rTPos) == R.After(m)
  }

  /** One step along the table, whichever form it has. */
  lemma StepAlong(small: bool, tPos: int, last: seq<int>, origPtr: int, visited: set<int>, m: nat, s: seq<int>,
                  randomised: bool)
    requires Stands(small, tPos, last, origPtr, visited, m) && Spells(s, last, origPtr, randomised)
    ensures 0 <= tPos < |last| && |Sources(last)| == |last|
    ensures var next := Sources(last)[tPos];
            && 0 <= next < |last|
            && (small && next in visited ==> Stands(true, next, last, origPtr, visited, m + 1))
            && (!small ==> Stands(false, next, last, origPtr, visited, m + 1))
            && var c := (if small then last[next] else last[tPos]);
            && 0 <= c < 256 && R.Unmask(randomised, m, c) == CharAt(last, origPtr, randomised, m)
            && (m < |s| ==> R.Unmask(randomised, m, c) == s[m])
  {
    hide Sources, R.Unmask;
    SourcesInRange(last, tPos);
    if m < |s| { WalkAt(last, origPtr, |last|, m); }
  }

  /** What was given out, and what is still due, make up what was due before. */
  ghost predicate Given(before: Rest, crc0: Word, out: seq<int>, due: Rest, crc: Word) {
    IsBytes(out) && before == Before(out, due) && crc == UpdateAll(crc0, out)
  }

  lemma GivenNothing(due: Rest, crc: Word)
    ensures Given(due, crc, [], due, crc)
  {
    BeforeTwice([], [], due);
    assert Octets([]) == [];
  }

  lemma GivenMore(before: Rest, crc0: Word, out: seq<int>, due: Rest, crc: Word, b: int, due': Rest)
    requires Given(before, crc0, out, due, crc) && 0 <= b < 256 && due == Before([b], due')
    ensures Given(before, crc0, out + [b], due', Update(crc, Bits8(b)))
  {
    hide UpdateAll, Update, Bits8;
    BeforeTwice(out, [b], due');
    UpdateSnoc(crc0, out, b);
  }

  /** With nothing left but the news that the block is cut short, all bytes due have been given. */
  lemma GivenAll(before: Rest, crc0: Word, out: seq<int>, due: Rest, crc: Word)
    requires Given(before, crc0, out, due, crc) && due == Rest([], true)
    ensures before == Rest(out, true)
  {
    assert out + [] == out;
  }

  // ----- the start of a block

  /** unzftab counts the bytes of the last column. */
  ghost predicate Tallied(unzftab: seq<int>, last: seq<int>) {
    |unzftab| == 256 && IsBytes(last) && forall c :: 0 <= c < 256 ==> unzftab[c] == Occurs(last, |last|, c)
  }

  /** The range checks pass, and the table of sums starts the buckets. */
  lemma TalliedBuckets(unzftab: seq<int>, last: seq<int>, ok: bool, cftab: seq<int>)
    requires Tallied(unzftab, last)
    requires ok <==> (forall c :: 0 <= c < 256 ==> unzftab[c] >= 0) && Sum(unzftab, 256) <= |last|
    requires ok ==> |cftab| == 257 && forall c :: 0 <= c <= 256 ==> cftab[c] == Sum(unzftab, c)
    ensures |unzftab| == 256 && IsBytes(last) && ok && Buckets(cftab, last)
  {
    forall c | 0 <= c <= 256 ensures Sum(unzftab, c) == Below(last, |last|, c) { SumOfOccurrences(last, unzftab, c); }
    BelowExtremes(last, |last|, 0, 256);
  }

  /** The bucket bounds of a tallied column are never out of range. */
  method Bounds(unzftab: seq<int>, nblock: nat, ghost last: seq<int>) returns (ok: bool, cftab: seq<int>)
    requires nblock == |last| && |unzftab| == 256 && Tallied(unzftab, last)
    ensures ok && IsBytes(last) && Buckets(cftab, last)
  {
    hide Tallied, Buckets, IsBytes;
    ok, cftab := MakeCftab(unzftab, nblock);
    TalliedBuckets(unzftab, last, ok, cftab);
  }

  lemma SlotsInverse(last: seq<int>)
    ensures |Slots(last)| == |last| && Inverses(Slots(last), Sources(last), |last|)
  {
    hide Slots;
  }

  lemma StartVisited(cells: seq<int>, q: seq<int>, start: int, visited: set<int>)
    requires CycleReversed(cells, q, start, visited)
    ensures start in visited
  {
  }

  lemma FirstPlace(tt: seq<int>, last: seq<int>, origPtr: nat)
    requires FastTable(tt, last) && origPtr < |last| && IsBytes(last)
    ensures |Sources(last)| == |last| && tt[origPtr] / 256 == Sources(last)[origPtr] >= 0
  {
    hide Sources;
    SourcesInRange(last, origPtr);
    Unpack(tt[origPtr], last[origPtr], Sources(last)[origPtr]);
  }

  lemma TableMade(small: bool, tt: seq<int>, ll16: seq<int>, ll4: seq<int>, cftab: seq<int>, blockSize100k: nat,
                  last: seq<int>, origPtr: nat, visited: set<int>)
    requires origPtr < |last| && IsBytes(last) && |last| <= 100000 * blockSize100k
    requires small ==> PackedValid(ll16, ll4) && 100000 * blockSize100k <= |ll16| && Buckets(cftab, last)
    requires small ==> CycleReversed(BwtDecoder.Cells(ll16, ll4), Sources(last), origPtr, visited)
    requires !small ==> FastTable(tt, last) && 100000 * blockSize100k <= |tt|
    ensures TableOk(small, tt, ll16, ll4, cftab, blockSize100k, last, origPtr, visited)
  {
    hide PackedValid, Buckets, CycleReversed, FastTable, Sources;
  }

  lemma StandsAtStart(small: bool, tPos: int, last: seq<int>, origPtr: nat, visited: set<int>)
    requires origPtr < |last| && |Sources(last)| == |last|
    requires small ==> tPos == origPtr && origPtr in visited
    requires !small ==> tPos == Sources(last)[origPtr]
    ensures Stands(small, tPos, last, origPtr, visited, 0)
  {
    hide Sources;
    if !small { WalkPosFirst(last, origPtr, 0); }
  }

  lemma SpellsIt(last: seq<int>, origPtr: nat, randomised: bool)
    requires origPtr < |last| && IsBytes(last)
    ensures var s := R.Derandomise(Walk(last, origPtr, |last|), randomised);
            Spells(s, last, origPtr, randomised) && Whole(s, last, origPtr, randomised)
  {
    hide Walk, R.Unmask;
    var w := Walk(last, origPtr, |last|);
    forall i | 0 <= i < |last| ensures 0 <= R.Unmask(randomised, i, w[i]) < 256 { WalkAt(last, origPtr, |last|, i); }
  }

  lemma SpellsBytes(s: seq<int>, last: seq<int>, origPtr: int, randomised: bool)
    requires Spells(s, last, origPtr, randomised)
    ensures IsBytes(s)
  {
  }

  lemma WholeIs(s: seq<int>, last: seq<int>, origPtr: int, randomised: bool)
    requires Whole(s, last, origPtr, randomised)
    ensures |s| == |last| > 0 && IsBytes(s)
  {
  }

  lemma MaskedFirst(randomised: bool, rNToGo: int, rTPos: nat)
    requires randomised ==> rNToGo == 0 && rTPos == 0
    ensures Masked(randomised, rNToGo, rTPos, 0)
  {
  }

  lemma MaskedNext(rNToGo: int, rTPos: nat, m: nat, c: int)
    requires Masked(true, rNToGo, rTPos, m)
    ensures 0 <= rNToGo && rTPos < 512
    ensures var next := R.Next(R.Mask(rNToGo, rTPos));
            && Masked(true, next.toGo, next.pos, m + 1)
            && R.Unmask(true, m, c) == if next.toGo == 1 then R.Flip(c) else c
  {
    hide R.Next, R.Flip;
  }

  lemma Unmasked(rNToGo: int, rTPos: nat, m: nat, c: int)
    ensures R.Unmask(false, m, c) == c && Masked(false, rNToGo, rTPos, m + 1)
  {
  }

  lemma WholeBlock(s: seq<int>, extra: nat)
    requires IsBytes(s) && s != []
    ensures Pending(s, 0, 0, 1, extra) == Unrun(s, extra)
  {
    hide Unrun;
    assert s[0..] == s;
    BeforeTwice([], [], Unrun(s, extra));
  }

  class Output {
    const small: bool
    var tt: array<int>
    var ll16: array<int>
    var ll4: array<int>
    var blockSize100k: nat
    var blockRandomised: bool
    var rNToGo: int
    var rTPos: nat
    var cftab: seq<int>
    var tPos: nat
    var k0: int
    var nblockUsed: nat
    var saveNblock: nat
    var stateOutCh: int
    var stateOutLen: nat
    var calculatedBlockCRC: Word
    ghost var last: seq<int>
    ghost var origPtr: int
    ghost var visited: set<int>
    ghost var s: seq<int>

    constructor (small: bool)
      ensures this.small == small && fresh(tt) && fresh(ll16) && fresh(ll4) && Allocated(0)
    {
      this.small := small;
      tt, ll16, ll4 := new int[0], new int[0], new int[0];
      blockSize100k, cftab, tPos, k0, nblockUsed, saveNblock := 0, [], 0, 0, 0, 0;
      stateOutCh, stateOutLen, calculatedBlockCRC := 0, 0, Zero(32);
      blockRandomised, rNToGo, rTPos := false, 0, 0;
    }

    /** The arrays have the size that the stream's level asks for. */
    ghost predicate Sized(level: nat)
      reads `tt, `ll16, `ll4, `blockSize100k
    {
      && ll16 != ll4 && tt != ll16 && tt != ll4 && blockSize100k == level && Column().Length == 100000 * level
    }

    ghost predicate Allocated(level: nat)
      reads `tt, `ll16, `ll4, `blockSize100k, tt, ll16, ll4
    {
      Sized(level) && (small ==> PackedValid(ll16[..], ll4[..]))
    }

    /** The allocation after the header of the stream. */
    method Allocate(level: nat)
      modifies `tt, `ll16, `ll4, `blockSize100k
      ensures Allocated(level) && fresh(tt) && fresh(ll16) && fresh(ll4)
    {
      tt, ll16, ll4 := new int[0], new int[0], new int[0];
      blockSize100k := level;
      if small {
        ll16 := new int[100000 * level](_ => 0);
        ll4 := new int[(1 + 100000 * level) / 2](_ => 0);
      } else {
        tt := new int[100000 * level];
      }
    }

    /** The array that takes the bytes of the last column. */
    function Column(): (r: array<int>)
      reads `tt, `ll16
    {
      if small then ll16 else tt
    }

    /** The column ends up as last. */
    ghost predicate ColumnIs(nblock: nat, last: seq<int>)
      reads `tt, `ll16, tt, ll16
    {
      Column().Length >= nblock && Column()[..nblock] == last
    }

    /** The table for a last column: a permutation with one cycle through origPtr to follow. */
    method MakeTable(origPtr: nat, nblock: nat, ghost last: seq<int>) returns (ghost visited: set<int>)
      requires Allocated(blockSize100k) && blockSize100k <= 9 && origPtr < nblock <= 100000 * blockSize100k
      requires ColumnIs(nblock, last) && IsBytes(last) && Buckets(cftab, last)
      modifies this`tPos, tt, ll16, ll4
      ensures TableOk(small, tt[..], ll16[..], ll4[..], cftab, blockSize100k, last, origPtr, visited)
      ensures Stands(small, tPos, last, origPtr, visited, 0)
      ensures small ==> PackedValid(ll16[..], ll4[..])
    {
      hide Buckets, PackedValid, FastTable, CycleReversed, Cells, Sources, Slots, TableOk, Stands, IsBytes;
      SlotsInverse(last);
      if small {
        BuildSlots(ll16, ll4, nblock, cftab, last);
        visited := ReverseCycle(ll16, ll4, origPtr, Slots(last), Sources(last));
        StartVisited(Cells(ll16[..], ll4[..]), Sources(last), origPtr, visited);
        tPos := origPtr;
      } else {
        BuildFast(tt, nblock, cftab, last);
        visited := {};
        FirstPlace(tt[..], last, origPtr);
        tPos := tt[origPtr] / 256;
      }
      TableMade(small, tt[..], ll16[..], ll4[..], cftab, blockSize100k, last, origPtr, visited);
      StandsAtStart(small, tPos, last, origPtr, visited);
    }

    /** The table and the walk are set up. */
    method Prepare(origPtr: nat, nblock: nat, ghost last: seq<int>)
      requires Allocated(blockSize100k) && blockSize100k <= 9 && origPtr < nblock <= 100000 * blockSize100k
      requires ColumnIs(nblock, last) && IsBytes(last) && Buckets(cftab, last)
      modifies this`tPos, this`saveNblock, this`last, this`origPtr, this`visited, this`s, tt, ll16, ll4
      ensures Shaped() && Stands(small, tPos, this.last, this.origPtr, visited, 0)
      ensures Whole(s, last, origPtr, blockRandomised) && Allocated(blockSize100k)
      ensures this.last == last && this.origPtr == origPtr
    {
      hide Buckets, PackedValid, Walk, Spells, TableOk, Stands, IsBytes, Whole, ColumnIs, Masked;
      ColumnLength(this, nblock, last);
      visited := MakeTable(origPtr, nblock, last);
      this.last, this.origPtr := last, origPtr;
      SpellsIt(last, origPtr, blockRandomised);
      s := R.Derandomise(Walk(last, origPtr, |last|), blockRandomised);
      saveNblock := nblock;
    }

    /** The first byte of the block, which is the first of its first run. */
    method FirstByte()
      requires Shaped() && Stands(small, tPos, last, origPtr, visited, 0) && s != [] && stateOutCh == 0
      modifies this`tPos, this`rNToGo, this`rTPos, this`k0, this`nblockUsed
      ensures Valid() && IsBytes(s) && Due(0) == Unrun(s, Extra())
    {
      hide TableOk, Stands, Unrun, Pending, Spells, Masked, CharAt;
      SpellsBytes(s, last, origPtr, blockRandomised);
      var corrupt;
      if blockRandomised { rNToGo, rTPos := 0, 0; }
      MaskedFirst(blockRandomised, rNToGo, rTPos);
      corrupt, k0 := GetChar(0);
      nblockUsed := 1;
      WholeBlock(s, Extra());
    }

    /** The block is complete: make the table, and take its first byte. */
    method Begin(origPtr: nat, nblock: nat, unzftab: seq<int>, randomised: bool, ghost last: seq<int>)
      returns (ok: bool)
      requires Allocated(blockSize100k) && blockSize100k <= 9 && origPtr < nblock <= 100000 * blockSize100k
      requires ColumnIs(nblock, last) && |unzftab| == 256 && Tallied(unzftab, last)
      modifies this`cftab, this`tPos, this`k0, this`nblockUsed, this`saveNblock, this`stateOutCh, this`stateOutLen,
               this`calculatedBlockCRC, this`blockRandomised, this`rNToGo, this`rTPos, this`last, this`origPtr,
                 this`visited, this`s, tt, ll16, ll4
      ensures ok && Valid() && stateOutLen == 0 && calculatedBlockCRC == Ones()
      ensures Whole(s, last, origPtr, randomised) && IsBytes(s)
      ensures Due(0) == Unrun(s, CharAt(last, origPtr, randomised, |s|)) && blockRandomised == randomised
      ensures Allocated(blockSize100k)
    {
      hide *;
      ColumnLength(this, nblock, last);
      ok, cftab := Bounds(unzftab, nblock, last);
      if !ok { return; }
      stateOutLen, stateOutCh, calculatedBlockCRC, blockRandomised := 0, 0, Ones(), randomised;
      Prepare(origPtr, nblock, last);
      WholeIs(s, last, origPtr, randomised);
      ExtraIs(this);
      FirstByte();
    }

    ghost predicate Shaped()
      reads `tt, `ll16, `ll4, tt, ll16, ll4, `blockSize100k, `cftab, `saveNblock, `last, `origPtr, `visited, `s,
            `blockRandomised
    {
      && TableOk(small, tt[..], ll16[..], ll4[..], cftab, blockSize100k, last, origPtr, visited)
      && Spells(s, last, origPtr, blockRandomised) && saveNblock == |s|
    }

    /** Within a run. */
    ghost predicate Mid()
      reads `tt, `ll16, `ll4, tt, ll16, ll4, `blockSize100k, `cftab, `saveNblock, `last, `origPtr, `visited, `s,
            `blockRandomised
      reads `tPos, `rNToGo, `rTPos, `k0, `nblockUsed, `stateOutCh
    {
      && Shaped() && nblockUsed >= 1 && Stands(small, tPos, last, origPtr, visited, nblockUsed)
      && Masked(blockRandomised, rNToGo, rTPos, nblockUsed)
      && 0 <= k0 < 256 && 0 <= stateOutCh < 256
    }

    /** Between two runs. */
    ghost predicate Valid()
      reads `tt, `ll16, `ll4, tt, ll16, ll4, `blockSize100k, `cftab, `saveNblock, `last, `origPtr, `visited, `s,
            `blockRandomised
      reads `tPos, `rNToGo, `rTPos, `k0, `nblockUsed, `stateOutCh
    {
      Mid() && (nblockUsed <= |s| ==> k0 == s[nblockUsed - 1]) && nblockUsed <= saveNblock + 5
    }

    /** What the decoder would find behind the end of the block. */
    ghost function Extra(): (c: nat)
      reads `last, `origPtr, `s, `blockRandomised
    {
      var c := CharAt(last, origPtr, blockRandomised, |s|);
      if c >= 0 then c else 0
    }

    /** The text still to come, if len more bytes of the current run are due. */
    ghost function Due(len: nat): (r: Rest)
      requires Valid()
      reads `tt, `ll16, `ll4, tt, ll16, ll4, `blockSize100k, `cftab, `saveNblock, `last, `origPtr, `visited, `s,
            `blockRandomised
      reads `tPos, `rNToGo, `rTPos, `k0, `nblockUsed, `stateOutCh
    {
      ShapedIs(this);
      Pending(s, stateOutCh, len, nblockUsed, Extra())
    }

    /** BZ_RAND_UPD_MASK, and the byte under BZ_RAND_MASK. */
    method UnderMask(ghost m: nat, c: int) returns (r: int)
      requires blockRandomised && Masked(true, rNToGo, rTPos, m) && 0 <= c < 256
      modifies this`rNToGo, this`rTPos
      ensures Masked(true, rNToGo, rTPos, m + 1) && r == R.Unmask(true, m, c)
    {
      hide Masked, R.Unmask, RNum, R.Flip;
      MaskedNext(rNToGo, rTPos, m, c);
      if rNToGo == 0 {
        rNToGo := RNum(rTPos);
        rTPos := rTPos + 1;
        if rTPos == 512 { rTPos := 0; }
      }
      rNToGo := rNToGo - 1;
      r := if rNToGo == 1 then R.Flip(c) else c;
    }

    /** BZ_GET_FAST or BZ_GET_SMALL, and the mask of a randomised block; the range check never
        fails. */
    method GetChar(ghost m: nat) returns (corrupt: bool, c: int)
      requires Shaped() && Stands(small, tPos, last, origPtr, visited, m)
      requires Masked(blockRandomised, rNToGo, rTPos, m)
      modifies this`tPos, this`rNToGo, this`rTPos
      ensures !corrupt && 0 <= c < 256 && (m < |s| ==> c == s[m]) && c == CharAt(last, origPtr, blockRandomised, m)
      ensures Shaped() && Stands(small, tPos, last, origPtr, visited, m + 1)
      ensures Masked(blockRandomised, rNToGo, rTPos, m + 1)
    {
      hide Stands, Spells, Masked, FastTable, PackedValid, CycleReversed, Buckets, Sources, Walk, Cells, R.Unmask,
           R.After, CharAt;
      StepAlong(small, tPos, last, origPtr, visited, m, s, blockRandomised);
      var next;
      if small {
        InVisited(tPos, last, origPtr, visited, m);
        corrupt, c, next := GetSmall(ll16, ll4, tPos, blockSize100k, cftab, last, origPtr, visited);
      } else {
        corrupt, c, next := GetFast(tt, tPos, blockSize100k, last);
      }
      tPos := next;
      if blockRandomised {
        c := UnderMask(m, c);
      } else {
        Unmasked(rNToGo, rTPos, m, c);
      }
    }

    /** One more byte of the block. */
    method Take() returns (corrupt: bool, c: int)
      requires Mid()
      modifies this`tPos, this`rNToGo, this`rTPos, this`nblockUsed
      ensures !corrupt && Mid() && nblockUsed == old(nblockUsed) + 1 && 0 <= c < 256
      ensures old(nblockUsed) < |s| ==> c == s[old(nblockUsed)]
      ensures old(nblockUsed) == |s| ==> c == Extra()
    {
      hide Stands, TableOk, Spells, Masked, CharAt;
      corrupt, c := GetChar(nblockUsed);
      nblockUsed := nblockUsed + 1;
    }

    /** k equal bytes of a run have been taken, and nothing of what follows. */
    ghost predicate InRun(k: nat)
      reads `tt, `ll16, `ll4, tt, ll16, ll4, `blockSize100k, `cftab, `saveNblock, `last, `origPtr, `visited, `s,
            `blockRandomised
      reads `tPos, `rNToGo, `rTPos, `k0, `nblockUsed, `stateOutCh
    {
      && Mid() && 1 <= k <= 4 && k <= nblockUsed <= |s| && stateOutCh == k0 && IsBytes(s) && saveNblock == |s|
      && forall i :: nblockUsed - k <= i < nblockUsed ==> s[i] == k0
    }

    /** One byte more: the run goes on, or it has k bytes. */
    method Longer(k: nat, ghost ch0: int) returns (corrupt: bool, over: bool)
      requires InRun(k) && k < 4
      modifies this`tPos, this`rNToGo, this`rTPos, this`k0, this`nblockUsed, this`stateOutLen
      ensures !corrupt && nblockUsed == old(nblockUsed) + 1
      ensures over ==> Valid() && stateOutLen == k && Due(k) == old(Pending(s, ch0, 0, nblockUsed + 1 - k, Extra()))
      ensures !over ==> InRun(k + 1)
    {
      hide Mid, Unrun, Pending, Extra, TableOk, Stands, Spells, Masked, IsBytes;
      var k1;
      MidIs(this);
      stateOutLen := k;
      MidStays(this);
      corrupt, k1 := Take();
      if corrupt { return; }
      MidIs(this);
      over := true;
      if nblockUsed == saveNblock + 1 { NewRun(s, ch0, nblockUsed - k, k, Extra()); return; }
      if k1 != k0 { NewRun(s, ch0, nblockUsed - k, k, Extra()); k0 := k1; MidStays(this); return; }
      over := false;
    }

    /** Four equal bytes: a count, and the first byte of the next run. */
    method Counted(ghost ch0: int) returns (corrupt: bool)
      requires InRun(4)
      modifies this`tPos, this`rNToGo, this`rTPos, this`k0, this`nblockUsed, this`stateOutLen
      ensures !corrupt && nblockUsed == old(nblockUsed) + 2
      ensures Valid() && stateOutLen >= 1 && Due(stateOutLen) == old(Pending(s, ch0, 0, nblockUsed - 3, Extra()))
    {
      hide Mid, Unrun, Pending, Extra, TableOk, Stands, Spells, Masked, IsBytes;
      ghost var used0 := nblockUsed - 3;
      MidIs(this);
      var k1;
      corrupt, k1 := Take();
      if corrupt { return; }
      MidIs(this);
      stateOutLen := k1 + 4;
      MidStays(this);
      corrupt, k1 := Take();
      if corrupt { return; }
      MidIs(this);
      k0 := k1;
      MidStays(this);
      NewRun(s, ch0, used0, 4, Extra());
    }

    /** From the second byte of a run on. */
    method RestOfRun(ghost ch0: int) returns (corrupt: bool)
      requires InRun(2)
      modifies this`tPos, this`rNToGo, this`rTPos, this`k0, this`nblockUsed, this`stateOutLen
      ensures !corrupt && nblockUsed > old(nblockUsed)
      ensures Valid() && stateOutLen >= 1 && Due(stateOutLen) == old(Pending(s, ch0, 0, nblockUsed - 1, Extra()))
    {
      hide Mid, Unrun, Pending, Extra, Valid, TableOk, Stands, Spells, Masked, IsBytes;
      InRunIs(this, 2);
      var over;
      corrupt, over := Longer(2, ch0);
      if corrupt || over { return; }
      InRunIs(this, 3);
      corrupt, over := Longer(3, ch0);
      if corrupt || over { return; }
      InRunIs(this, 4);
      corrupt := Counted(ch0);
    }

    /** The first byte of a run is known: stateOutCh becomes it. */
    method StartRun()
      requires Valid() && nblockUsed <= saveNblock
      modifies this`stateOutCh
      ensures InRun(1)
    {
      hide Mid, Unrun, Pending, Extra, TableOk, Stands, Spells, Masked, IsBytes;
      MidIs(this);
      stateOutCh := k0;
      MidStays(this);
    }

    /** The first byte of a run is settled, and the byte after it taken. */
    method Second() returns (corrupt: bool, k1: int)
      requires Valid() && nblockUsed <= saveNblock
      modifies this`tPos, this`rNToGo, this`rTPos, this`nblockUsed, this`stateOutCh
      ensures !corrupt && Mid() && nblockUsed == old(nblockUsed) + 1 && 2 <= nblockUsed <= |s| + 1 && saveNblock == |s|
      ensures stateOutCh == k0 == s[nblockUsed - 2] && 0 <= k1 < 256 && IsBytes(s)
      ensures nblockUsed <= |s| ==> k1 == s[nblockUsed - 1]
    {
      hide Mid, Unrun, Pending, Extra, TableOk, Stands, Spells, Masked, IsBytes;
      StartRun();
      MidIs(this);
      corrupt, k1 := Take();
    }

    /** The next run; single stands for the jump into the middle of the output loop, which leaves
        stateOutLen as it was. */
    method NextRunFast() returns (corrupt: bool, single: bool)
      requires Valid() && nblockUsed <= saveNblock
      modifies this`tPos, this`rNToGo, this`rTPos, this`k0, this`nblockUsed, this`stateOutCh, this`stateOutLen
      ensures old(nblockUsed) < nblockUsed
      ensures !corrupt && Valid() && (single || stateOutLen >= 1)
      ensures Due(if single then 1 else stateOutLen) == old(Due(0))
    {
      hide Mid, Unrun, Pending, Extra, TableOk, Stands, Spells, Masked, IsBytes;
      ghost var ch0 := stateOutCh;
      var k1;
      corrupt, k1 := Second();
      single := true;
      if corrupt { return; }
      MidIs(this);
      if k1 != k0 || nblockUsed == saveNblock + 1 {
        NewRun(s, ch0, nblockUsed - 1, 1, Extra());
        if k1 != k0 { k0 := k1; }
        MidStays(this);
        return;
      }
      single := false;
      stateOutLen := 2;
      MidStays(this);
      corrupt := RestOfRun(ch0);
    }

    /** The same, in the order of the small decoder. */
    method NextRunSmall() returns (corrupt: bool)
      requires Valid() && nblockUsed <= saveNblock
      modifies this`tPos, this`rNToGo, this`rTPos, this`k0, this`nblockUsed, this`stateOutCh, this`stateOutLen
      ensures old(nblockUsed) < nblockUsed
      ensures !corrupt && Valid() && stateOutLen >= 1
      ensures Due(stateOutLen) == old(Due(0))
    {
      hide Mid, Unrun, Pending, Extra, TableOk, Stands, Spells, Masked, IsBytes;
      ghost var ch0 := stateOutCh;
      StartRun();
      var over;
      corrupt, over := Longer(1, ch0);
      if corrupt || over { return; }
      corrupt := RestOfRun(ch0);
    }

    /** One byte of the current run is given out. */
    method Give(ghost len: nat) returns (b: int)
      requires Valid() && len > 0
      modifies this`calculatedBlockCRC
      ensures Valid() && b == stateOutCh && 0 <= b < 256 && Due(len) == Before([b], Due(len - 1))
      ensures calculatedBlockCRC == Update(old(calculatedBlockCRC), Bits8(b))
    {
      hide Stands, TableOk, Spells, Masked, Unrun, Update, Bits8, IsBytes, Pending, Extra;
      ShapedIs(this);
      GiveOne(s, stateOutCh, len, nblockUsed, Extra());
      b := stateOutCh;
      calculatedBlockCRC := Update(calculatedBlockCRC, Bits8(b));
    }

    /** The loop of both decoders for randomised blocks and of the small one for all blocks. */
    method RunByRun(availOut: nat) returns (corrupt: bool, out: seq<int>, left: nat)
      requires Valid()
      modifies this`tPos, this`rNToGo, this`rTPos, this`k0, this`nblockUsed, this`stateOutCh, this`stateOutLen,
               this`calculatedBlockCRC
      ensures Valid() && |out| + left == availOut
      ensures corrupt ==> old(Due(stateOutLen)) == Rest(out, true) && left > 0
      ensures !corrupt ==> Given(old(Due(stateOutLen)), old(calculatedBlockCRC), out, Due(stateOutLen),
        calculatedBlockCRC)
      ensures !corrupt ==> left == 0 || (nblockUsed == saveNblock + 1 && stateOutLen == 0)
    {
      hide *;
      ghost var due0, crc0 := Due(stateOutLen), calculatedBlockCRC;
      out, left, corrupt := [], availOut, false;
      GivenNothing(due0, crc0);
      while true
        invariant Valid() && |out| + left == availOut && !corrupt
        invariant Given(due0, crc0, out, Due(stateOutLen), calculatedBlockCRC)
        decreases saveNblock + 5 - nblockUsed
      {
        ghost var u := nblockUsed;
        while true
          invariant nblockUsed == u
          invariant Valid() && |out| + left == availOut
          invariant Given(due0, crc0, out, Due(stateOutLen), calculatedBlockCRC)
          decreases stateOutLen
        {
          if left == 0 { return; }
          if stateOutLen == 0 { break; }
          out, left := GiveNext(out, left, stateOutLen, due0, crc0);
          stateOutLen := stateOutLen - 1;
        }
        if nblockUsed == saveNblock + 1 { return; }
        if nblockUsed > saveNblock + 1 {
          ghost var due := Due(0);
          NothingLeft(this);
          GivenAll(due0, crc0, out, due, calculatedBlockCRC);
          return true, out, left;
        }
        corrupt := NextRunSmall();
        if corrupt { return; }
      }
    }

    /** One more byte, entered into the account. */
    method GiveNext(out0: seq<int>, left0: nat, ghost len: nat, ghost due0: Rest, ghost crc0: Word)
      returns (out: seq<int>, left: nat)
      requires Valid() && len > 0 && left0 > 0 && Given(due0, crc0, out0, Due(len), calculatedBlockCRC)
      modifies this`calculatedBlockCRC
      ensures Valid() && |out| + left == |out0| + left0 && left == left0 - 1
      ensures Given(due0, crc0, out, Due(len - 1), calculatedBlockCRC)
    {
      hide *;
      ghost var due, crc := Due(len), calculatedBlockCRC;
      var b := Give(len);
      GivenMore(due0, crc0, out0, due, crc, b, Due(len - 1));
      out, left := out0 + [b], left0 - 1;
    }

    /** As much as there is room for of all bytes of the current run but its last. */
    method AllButLast(out0: seq<int>, left0: nat, ghost due0: Rest, ghost crc0: Word) returns (out: seq<int>, left: nat)
      requires Valid() && stateOutLen > 0 && Given(due0, crc0, out0, Due(stateOutLen), calculatedBlockCRC)
      modifies this`stateOutLen, this`calculatedBlockCRC
      ensures Valid() && |out| + left == |out0| + left0 && stateOutLen > 0 && (left == 0 || stateOutLen == 1)
      ensures Given(due0, crc0, out, Due(stateOutLen), calculatedBlockCRC)
    {
      hide *;
      out, left := out0, left0;
      while left != 0 && stateOutLen != 1
        invariant Valid() && |out| + left == |out0| + left0 && stateOutLen > 0
        invariant Given(due0, crc0, out, Due(stateOutLen), calculatedBlockCRC)
        decreases stateOutLen
      {
        out, left := GiveNext(out, left, stateOutLen, due0, crc0);
        stateOutLen := stateOutLen - 1;
      }
    }

    /** unRLE_obuf_to_output_FAST. */
    method Fast(availOut: nat) returns (corrupt: bool, out: seq<int>, left: nat)
      requires Valid()
      modifies this`tPos, this`rNToGo, this`rTPos, this`k0, this`nblockUsed, this`stateOutCh, this`stateOutLen,
               this`calculatedBlockCRC
      ensures Valid() && |out| + left == availOut
      ensures corrupt ==> old(Due(stateOutLen)) == Rest(out, true) && (blockRandomised ==> left > 0)
      ensures !corrupt ==> Given(old(Due(stateOutLen)), old(calculatedBlockCRC), out, Due(stateOutLen),
        calculatedBlockCRC)
      ensures !corrupt ==> left == 0 || (nblockUsed == saveNblock + 1 && stateOutLen == 0)
      ensures !corrupt && !blockRandomised ==>
        Due(stateOutLen).bytes != [] || (nblockUsed == saveNblock + 1 && stateOutLen == 0)
    {
      hide *;
      if blockRandomised {
        corrupt, out, left := RunByRun(availOut);
        return;
      }
      ghost var due0, crc0 := Due(stateOutLen), calculatedBlockCRC;
      out, left, corrupt := [], availOut, false;
      // set by the jump to the last byte of a run of one
      var single := false;
      GivenNothing(due0, crc0);
      while true
        invariant Valid() && |out| + left == availOut && !corrupt
        invariant Given(due0, crc0, out, Due(if single then 1 else stateOutLen), calculatedBlockCRC)
        decreases saveNblock + 5 - nblockUsed
      {
        if single || stateOutLen > 0 {
          if !single {
            out, left := AllButLast(out, left, due0, crc0);
          }
          if left == 0 {
            if single { stateOutLen := 1; }
            BytesDue(this, stateOutLen);
            return;
          }
          out, left := GiveNext(out, left, 1, due0, crc0);
        }
        if nblockUsed > saveNblock + 1 {
          ghost var due := Due(0);
          NothingLeft(this);
          GivenAll(due0, crc0, out, due, calculatedBlockCRC);
          return true, out, left;
        }
        if nblockUsed == saveNblock + 1 { stateOutLen := 0; return; }
        corrupt, single := NextRunFast();
        if corrupt { return; }
      }
    }

    /** unRLE_obuf_to_output_SMALL. */
    method Small(availOut: nat) returns (corrupt: bool, out: seq<int>, left: nat)
      requires Valid()
      modifies this`tPos, this`rNToGo, this`rTPos, this`k0, this`nblockUsed, this`stateOutCh, this`stateOutLen,
               this`calculatedBlockCRC
      ensures Valid() && |out| + left == availOut
      ensures corrupt ==> old(Due(stateOutLen)) == Rest(out, true) && left > 0
      ensures !corrupt ==> Given(old(Due(stateOutLen)), old(calculatedBlockCRC), out, Due(stateOutLen),
        calculatedBlockCRC)
      ensures !corrupt ==> left == 0 || (nblockUsed == saveNblock + 1 && stateOutLen == 0)
    {
      hide *;
      corrupt, out, left := RunByRun(availOut);
    }

    /** The output loop in the form chosen at the start. */
    method ToOutput(availOut: nat) returns (corrupt: bool, out: seq<int>, left: nat)
      requires Valid()
      modifies this`tPos, this`rNToGo, this`rTPos, this`k0, this`nblockUsed, this`stateOutCh, this`stateOutLen,
               this`calculatedBlockCRC
      ensures Valid() && |out| + left == availOut
      // a block cut short is refused at once by the look-ahead loop, by the other only when there is room
      ensures corrupt ==> old(Due(stateOutLen)) == Rest(out, true) && (small || blockRandomised ==> left > 0)
      ensures !corrupt ==> Given(old(Due(stateOutLen)), old(calculatedBlockCRC), out, Due(stateOutLen),
        calculatedBlockCRC)
      ensures !corrupt ==> left == 0 || (nblockUsed == saveNblock + 1 && stateOutLen == 0)
      ensures !corrupt && !small && !blockRandomised ==>
        Due(stateOutLen).bytes != [] || (nblockUsed == saveNblock + 1 && stateOutLen == 0)
    {
      hide *;
      if small {
        corrupt, out, left := Small(availOut);
      } else {
        corrupt, out, left := Fast(availOut);
      }
    }
  }

  lemma BytesDue(o: Output, len: nat)
    requires o.Valid() && len > 0
    ensures o.Due(len).bytes != []
  {
    hide Unrun;
    ShapedIs(o);
  }

  lemma ExtraIs(o: Output)
    requires o.Shaped()
    ensures o.Extra() == CharAt(o.last, o.origPtr, o.blockRandomised, |o.s|)
  {
    hide CharAt, TableOk;
  }

  lemma ColumnLength(o: Output, nblock: nat, last: seq<int>)
    requires o.ColumnIs(nblock, last)
    ensures |last| == nblock
  {
  }

  lemma InVisited(tPos: int, last: seq<int>, origPtr: int, visited: set<int>, m: nat)
    requires Stands(true, tPos, last, origPtr, visited, m)
    ensures tPos in visited
  {
  }

  lemma MidIs(o: Output)
    requires o.Mid()
    ensures IsBytes(o.s) && o.saveNblock == |o.s| && o.Shaped() && o.nblockUsed >= 1
    ensures Stands(o.small, o.tPos, o.last, o.origPtr, o.visited, o.nblockUsed)
    ensures Masked(o.blockRandomised, o.rNToGo, o.rTPos, o.nblockUsed)
    ensures 0 <= o.k0 < 256 && 0 <= o.stateOutCh < 256
  {
    hide TableOk, Stands, Masked;
  }

  lemma InRunIs(o: Output, k: nat)
    requires o.InRun(k)
    ensures o.Mid() && IsBytes(o.s) && k <= o.nblockUsed
  {
  }

  lemma MidStays(o: Output)
    requires o.Shaped() && o.nblockUsed >= 1 && Stands(o.small, o.tPos, o.last, o.origPtr, o.visited, o.nblockUsed)
    requires Masked(o.blockRandomised, o.rNToGo, o.rTPos, o.nblockUsed)
    requires 0 <= o.k0 < 256 && 0 <= o.stateOutCh < 256
    ensures o.Mid()
  {
    hide TableOk, Stands, Masked;
  }

  lemma ShapedIs(o: Output)
    requires o.Valid()
    ensures IsBytes(o.s) && o.saveNblock == |o.s| && o.Shaped() && o.nblockUsed >= 1
    ensures Stands(o.small, o.tPos, o.last, o.origPtr, o.visited, o.nblockUsed)
    ensures Masked(o.blockRandomised, o.rNToGo, o.rTPos, o.nblockUsed)
    ensures o.nblockUsed <= |o.s| ==> o.k0 == o.s[o.nblockUsed - 1]
    ensures 0 <= o.k0 < 256 && 0 <= o.stateOutCh < 256
  {
    hide TableOk, Stands, Masked;
  }

  /** Past the end of the block nothing is due but the news that it was cut short. */
  lemma NothingLeft(o: Output)
    requires o.Valid() && o.nblockUsed > o.saveNblock + 1
    ensures o.Due(0) == Rest([], true)
  {
    BeforeTwice([], [], Rest([], true));
  }
}
