/** generateMTFValues: from sorted order and block to move-to-front symbols. The 16-bit symbols
    are written over the 32-bit pointers they are computed from; arr1 is that memory, as
    16-bit halves. */
module MtfEncoder {
  import opened Counting
  import opened Rotations
  import opened InverseBwt
  import opened MoveToFront

  // ----- maps between bytes and their ranks among the bytes in use

  /** The bytes below k that are in use. */
  function Used(inUse: seq<bool>, k: nat): (r: seq<int>)
    requires k <= |inUse|
    ensures |r| <= k
  {
    if k == 0 then [] else if inUse[k - 1] then Used(inUse, k - 1) + [k - 1] else Used(inUse, k - 1)
  }

  /** A byte in use stands at its rank. */
  lemma {:induction false} RankOf(inUse: seq<bool>, c: nat, k: nat)
    requires c < k <= |inUse| && inUse[c]
    ensures |Used(inUse, c)| < |Used(inUse, k)| && Used(inUse, k)[|Used(inUse, c)|] == c
    decreases k
  {
    if k - 1 > c { RankOf(inUse, c, k - 1); }
  }

  lemma {:induction false} UsedBytes(inUse: seq<bool>, k: nat)
    requires k <= |inUse|
    ensures forall i :: 0 <= i < |Used(inUse, k)| ==> 0 <= Used(inUse, k)[i] < k && inUse[Used(inUse, k)[i]]
  {
    if k > 0 { UsedBytes(inUse, k - 1); }
  }

  /** makeMaps_e */
  method MakeMapsEncode(inUse: seq<bool>) returns (nInUse: nat, unseqToSeq: seq<int>)
    requires |inUse| == 256
    ensures nInUse == |Used(inUse, 256)| && |unseqToSeq| == 256
    ensures forall c :: 0 <= c < 256 && inUse[c] ==> unseqToSeq[c] == |Used(inUse, c)|
  {
    nInUse := 0;
    unseqToSeq := seq(256, _ => 0);
    for i := 0 to 256
      invariant nInUse == |Used(inUse, i)| && |unseqToSeq| == 256
      invariant forall c :: 0 <= c < i && inUse[c] ==> unseqToSeq[c] == |Used(inUse, c)|
    {
      if inUse[i] {
        unseqToSeq := unseqToSeq[i := nInUse];
        nInUse := nInUse + 1;
      }
    }
  }

  /** makeMaps_d */
  method MakeMapsDecode(inUse: seq<bool>, seqToUnseq0: seq<int>) returns (nInUse: nat, seqToUnseq: seq<int>)
    requires |inUse| == 256 && |seqToUnseq0| == 256 && forall c :: 0 <= c < 256 ==> 0 <= seqToUnseq0[c] < 256
    ensures nInUse == |Used(inUse, 256)| && |seqToUnseq| == 256
    ensures seqToUnseq[..nInUse] == Used(inUse, 256)
    ensures forall c :: 0 <= c < 256 ==> 0 <= seqToUnseq[c] < 256
  {
    nInUse := 0;
    seqToUnseq := seqToUnseq0;
    for i := 0 to 256
      invariant nInUse == |Used(inUse, i)| && |seqToUnseq| == 256
      invariant forall c :: 0 <= c < 256 ==> 0 <= seqToUnseq[c] < 256
      invariant seqToUnseq[..nInUse] == Used(inUse, i)
    {
      if inUse[i] {
        var shorter := seqToUnseq[..nInUse];
        seqToUnseq := seqToUnseq[nInUse := i];
        nInUse := nInUse + 1;
        assert seqToUnseq[..nInUse] == shorter + [i];
      }
    }
  }

  // ----- what is to be written

  /** All bytes of the last column are marked in use. */
  ghost predicate Covered(last: seq<int>, inUse: seq<bool>) {
    |inUse| == 256 && forall i :: 0 <= i < |last| ==> 0 <= last[i] < 256 && inUse[last[i]]
  }

  /** The last column as ranks of bytes in use. */
  function Ranks(last: seq<int>, inUse: seq<bool>): (r: seq<int>)
    requires Covered(last, inUse)
    ensures |r| == |last|
  {
    seq(|last|, i requires 0 <= i < |last| => |Used(inUse, last[i])|)
  }

  lemma RanksInList(last: seq<int>, inUse: seq<bool>)
    requires Covered(last, inUse)
    ensures AllIn(Ranks(last, inUse), Identity(|Used(inUse, 256)|))
    ensures forall i :: 0 <= i < |last| ==> 0 <= Ranks(last, inUse)[i] < |Used(inUse, 256)|
  {
    forall i | 0 <= i < |last|
      ensures Ranks(last, inUse)[i] < |Used(inUse, 256)| && Ranks(last, inUse)[i] in Identity(|Used(inUse, 256)|)
    {
      RankOf(inUse, last[i], 256);
      assert Identity(|Used(inUse, 256)|)[Ranks(last, inUse)[i]] == Ranks(last, inUse)[i];
    }
  }

  /** The symbols of a block, with the end-of-block symbol. */
  function BlockSymbols(last: seq<int>, inUse: seq<bool>): (r: seq<int>)
    requires Covered(last, inUse)
    ensures 1 <= |r| <= |last| + 1
  {
    RanksInList(last, inUse);
    Symbols(Ranks(last, inUse), Identity(|Used(inUse, 256)|), 0) + [|Used(inUse, 256)| + 1]
  }

  lemma BlockSymbolsIs(last: seq<int>, inUse: seq<bool>)
    requires Covered(last, inUse)
    ensures AllIn(Ranks(last, inUse), Identity(|Used(inUse, 256)|))
    ensures BlockSymbols(last, inUse) ==
            Symbols(Ranks(last, inUse), Identity(|Used(inUse, 256)|), 0) + [|Used(inUse, 256)| + 1]
    ensures |last| > 0 ==> |Used(inUse, 256)| > 0
  {
    RanksInList(last, inUse);
  }

  lemma RanksNamed(last: seq<int>, inUse: seq<bool>)
    requires Covered(last, inUse)
    ensures forall i :: 0 <= i < |last| ==>
      0 <= Ranks(last, inUse)[i] < |Used(inUse, 256)| && Used(inUse, 256)[Ranks(last, inUse)[i]] == last[i]
  {
    forall i | 0 <= i < |last|
      ensures 0 <= Ranks(last, inUse)[i] < |Used(inUse, 256)| && Used(inUse, 256)[Ranks(last, inUse)[i]] == last[i]
    {
      RankOf(inUse, last[i], 256);
    }
  }

  /** Reading the symbols back and renaming ranks to bytes gives the last column. */
  lemma SymbolsInvert(last: seq<int>, inUse: seq<bool>, limit: nat)
    requires Covered(last, inUse) && 0 < |last| <= limit < 2 * 1024 * 1024
    ensures var used := Used(inUse, 256);
            var syms, eob := BlockSymbols(last, inUse), |used| + 1;
            && |used| >= 1
            && (forall k :: 0 <= k < |syms| ==> 0 <= syms[k] <= eob)
            && Feed(State(Identity(256), [], 0, 1), syms, eob, limit) == Finished(Ranks(last, inUse))
            && (forall i :: 0 <= i < |last| ==>
              0 <= Ranks(last, inUse)[i] < |used| && used[Ranks(last, inUse)[i]] == last[i])
  {
    hide Used, Ranks, Symbols, Feed, BlockSymbols, AllIn, Identity, Repeat;
    var used, ranks := Used(inUse, 256), Ranks(last, inUse);
    BlockSymbolsIs(last, inUse);
    RanksNamed(last, inUse);
    assert Identity(256)[..|used|] == Identity(|used|);
    FeedSymbols(State(Identity(256), [], 0, 1), ranks, Identity(|used|), 0, |used| + 1, limit);
    assert [] + Repeat(Identity(|used|)[0], 0) + ranks == ranks;
  }

  // ----- the overlaid memory

  /** Entries from i on still hold their 32-bit pointers. */
  ghost predicate Unread(arr: seq<int>, ptr: seq<int>, i: nat) {
    && 2 * |ptr| <= |arr|
    && forall k :: i <= k < |ptr| ==> arr[2 * k] + 0x10000 * arr[2 * k + 1] == ptr[k]
  }

  /** The symbols written so far, counted by value. */
  ghost predicate Tallied(freq: seq<int>, written: seq<int>) {
    |freq| == 258 && forall c :: 0 <= c < 258 ==> freq[c] == Occurs(written, |written|, c)
  }

  lemma TallyStep(freq: seq<int>, written: seq<int>, sym: int)
    requires Tallied(freq, written) && 0 <= sym < 258
    ensures Tallied(freq[sym := freq[sym] + 1], written + [sym])
  {
    var w := written + [sym];
    forall c | 0 <= c < 258 ensures Occurs(w, |w|, c) == Occurs(written, |written|, c) + if sym == c then 1 else 0 {
      assert w[..|written|] == written[..|written|];
      OccursPrefix(w, written, |written|, c);
    }
  }

  /** The writing position is at or before the reading position: nothing unread is lost. */
  ghost predicate Writing(arr: seq<int>, ptr: seq<int>, i: nat, wr: nat, written: seq<int>, freq: seq<int>) {
    wr == |written| <= |arr| && arr[..wr] == written && Unread(arr, ptr, i) && Tallied(freq, written)
  }

  lemma WriteStep(arr: seq<int>, ptr: seq<int>, i: nat, wr: nat, written: seq<int>, freq: seq<int>, sym: int)
    requires Writing(arr, ptr, i, wr, written, freq) && wr < |arr| && (wr < 2 * i || i >= |ptr|) && 0 <= sym < 258
    ensures |freq| == 258
    ensures Writing(arr[wr := sym], ptr, i, wr + 1, written + [sym], freq[sym := freq[sym] + 1])
  {
    TallyStep(freq, written, sym);
    assert arr[wr := sym][..wr + 1] == arr[..wr] + [sym];
  }

  /** mtfv[wr] = sym; wr++; mtfFreq[sym]++ */
  method Emit(arr1: array<int>, wr0: nat, sym: int, freq0: seq<int>, ghost ptr: seq<int>, ghost i: nat,
              ghost written: seq<int>)
    returns (wr: nat, freq: seq<int>)
    requires Writing(arr1[..], ptr, i, wr0, written, freq0) && wr0 < arr1.Length && (wr0 < 2 * i || i >= |ptr|)
    requires 0 <= sym < 258
    modifies arr1
    ensures wr == wr0 + 1 && Writing(arr1[..], ptr, i, wr, written + [sym], freq)
  {
    hide *;
    ghost var arr := arr1[..];
    WriteStep(arr, ptr, i, wr0, written, freq0, sym);
    arr1[wr0] := sym;
    wr := wr0 + 1;
    freq := freq0[sym := freq0[sym] + 1];
    assert arr1[..] == arr[wr0 := sym];
  }

  lemma DigitsUnfold(n: nat)
    requires n > 0
    ensures RunDigits(n) == [(n - 1) % 2] + RunDigits((n - 1) / 2)
    ensures RunDigits(0) == []
  {
  }

  /** Write out a pending run. */
  method EmitRun(arr1: array<int>, wr0: nat, zPend0: nat, freq0: seq<int>,
                 ghost ptr: seq<int>, ghost i: nat, ghost written: seq<int>)
    returns (wr: nat, freq: seq<int>)
    requires Writing(arr1[..], ptr, i, wr0, written, freq0) && zPend0 > 0
    requires wr0 + zPend0 <= arr1.Length && (wr0 + zPend0 <= 2 * i || i >= |ptr|)
    modifies arr1
    ensures wr <= wr0 + zPend0 && Writing(arr1[..], ptr, i, wr, written + RunDigits(zPend0), freq)
  {
    hide *;
    wr, freq := wr0, freq0;
    var zPend := zPend0 - 1;
    ghost var done := [];
    assert written + done == written;
    while true
      invariant 0 <= zPend && done + RunDigits(zPend + 1) == RunDigits(zPend0)
      invariant wr + zPend + 1 <= wr0 + zPend0
      invariant Writing(arr1[..], ptr, i, wr, written + done, freq)
      decreases zPend
    {
      DigitsUnfold(zPend + 1);
      ghost var d := if zPend % 2 == 1 then 1 else 0;
      if zPend % 2 == 1 {
        wr, freq := Emit(arr1, wr, 1, freq, ptr, i, written + done);
      } else {
        wr, freq := Emit(arr1, wr, 0, freq, ptr, i, written + done);
      }
      assert written + done + [d] == written + (done + [d]);
      assert done + ([d] + RunDigits(zPend / 2)) == done + [d] + RunDigits(zPend / 2);
      done := done + [d];
      if zPend < 2 { break; }
      zPend := (zPend - 2) / 2;
    }
    assert done + [] == done;
  }

  /** The register loop that finds x in the list and moves it to the front. */
  method MoveFront(yy0: seq<int>, x: int) returns (yy: seq<int>, j: nat)
    requires |yy0| >= 2 && yy0[0] != x && x in yy0
    ensures j == IndexOf(yy0, x) && yy == ToFront(yy0, j)
  {
    ghost var at := IndexOf(yy0, x);
    yy := yy0;
    var rtmp := yy[1];
    yy := yy[1 := yy[0]];
    j := 1;
    while x != rtmp
      invariant 1 <= j <= at && |yy| == |yy0| && rtmp == yy0[j] && yy[0] == yy0[0]
      invariant forall k :: 1 <= k <= j ==> yy[k] == yy0[k - 1]
      invariant forall k :: j < k < |yy| ==> yy[k] == yy0[k]
      decreases at - j
    {
      j := j + 1;
      var rtmp2 := rtmp;
      rtmp := yy[j];
      yy := yy[j := rtmp2];
    }
    yy := yy[0 := rtmp];
    assert j == at;
    assert yy == ToFront(yy0, j);
  }

  /** State of the main loop: what is written, and what the rest will add to it. */
  ghost predicate Coding(ranks: seq<int>, i: nat, yy: seq<int>, z: nat, written: seq<int>, nInUse: nat) {
    && i <= |ranks| && |yy| == nInUse > 0 && AllIn(ranks[i..], yy) && AllIn(ranks, Identity(nInUse))
    && written + Symbols(ranks[i..], yy, z) == Symbols(ranks, Identity(nInUse), 0)
  }

  lemma CodingStart(ranks: seq<int>, nInUse: nat)
    requires nInUse > 0 && AllIn(ranks, Identity(nInUse))
    ensures Coding(ranks, 0, Identity(nInUse), 0, [], nInUse)
  {
    hide *;
    assert ranks[0..] == ranks;
    assert [] + Symbols(ranks, Identity(nInUse), 0) == Symbols(ranks, Identity(nInUse), 0);
    CodingMake(ranks, 0, Identity(nInUse), 0, [], nInUse);
  }

  lemma CodingMake(ranks: seq<int>, i: nat, yy: seq<int>, z: nat, written: seq<int>, nInUse: nat)
    requires i <= |ranks| && |yy| == nInUse > 0 && AllIn(ranks[i..], yy) && AllIn(ranks, Identity(nInUse))
    requires written + Symbols(ranks[i..], yy, z) == Symbols(ranks, Identity(nInUse), 0)
    ensures Coding(ranks, i, yy, z, written, nInUse)
  {
  }

  lemma CodingParts(ranks: seq<int>, i: nat, yy: seq<int>, z: nat, written: seq<int>, nInUse: nat)
    requires Coding(ranks, i, yy, z, written, nInUse)
    ensures i <= |ranks| && |yy| == nInUse > 0 && AllIn(ranks[i..], yy) && AllIn(ranks, Identity(nInUse))
    ensures written + Symbols(ranks[i..], yy, z) == Symbols(ranks, Identity(nInUse), 0)
  {
  }

  lemma CodingFront(ranks: seq<int>, i: nat, yy: seq<int>, z: nat, written: seq<int>, nInUse: nat)
    requires Coding(ranks, i, yy, z, written, nInUse) && i < |ranks|
    ensures |yy| == nInUse > 0 && ranks[i] in yy
    ensures yy[0] == ranks[i] ==> Coding(ranks, i + 1, yy, z + 1, written, nInUse)
  {
    hide *;
    CodingParts(ranks, i, yy, z, written, nInUse);
    var s := ranks[i..];
    assert s[0] == ranks[i] && s[1..] == ranks[i + 1..];
    SymbolsHead(s, yy, z);
    if yy[0] == ranks[i] { CodingMake(ranks, i + 1, yy, z + 1, written, nInUse); }
  }

  lemma CodingEntry(ranks: seq<int>, i: nat, yy: seq<int>, z: nat, written: seq<int>, nInUse: nat, j: nat)
    requires Coding(ranks, i, yy, z, written, nInUse) && i < |ranks|
    requires |yy| > 0 && ranks[i] in yy && yy[0] != ranks[i] && j == IndexOf(yy, ranks[i])
    ensures Coding(ranks, i + 1, ToFront(yy, j), 0, written + RunDigits(z) + [j + 1], nInUse)
  {
    hide *;
    CodingParts(ranks, i, yy, z, written, nInUse);
    var s := ranks[i..];
    assert s[0] == ranks[i] && s[1..] == ranks[i + 1..];
    SymbolsHead(s, yy, z);
    var next := Symbols(s[1..], ToFront(yy, j), 0);
    assert written + (RunDigits(z) + [j + 1] + next) == written + RunDigits(z) + [j + 1] + next;
    CodingMake(ranks, i + 1, ToFront(yy, j), 0, written + RunDigits(z) + [j + 1], nInUse);
  }

  lemma CodingDone(ranks: seq<int>, yy: seq<int>, z: nat, written: seq<int>, nInUse: nat)
    requires Coding(ranks, |ranks|, yy, z, written, nInUse)
    ensures written + RunDigits(z) == Symbols(ranks, Identity(nInUse), 0)
  {
    hide *;
    CodingParts(ranks, |ranks|, yy, z, written, nInUse);
    SymbolsHead(ranks[|ranks|..], yy, z);
  }

  lemma UnreadAt(arr: seq<int>, ptr: seq<int>, i: nat, wr: nat, written: seq<int>, freq: seq<int>)
    requires Writing(arr, ptr, i, wr, written, freq) && i < |ptr|
    ensures 2 * |ptr| <= |arr| && arr[2 * i] + 0x10000 * arr[2 * i + 1] == ptr[i]
    ensures Writing(arr, ptr, i + 1, wr, written, freq)
  {
  }

  lemma RankAt(b: seq<int>, ptr: seq<int>, inUse: seq<bool>, unseqToSeq: seq<int>, i: nat)
    requires |ptr| == |b| && (forall k :: 0 <= k < |ptr| ==> 0 <= ptr[k] < |b|) && i < |b|
    requires Covered(LastColumn(b, ptr), inUse) && |unseqToSeq| == 256
    requires forall c :: 0 <= c < 256 && inUse[c] ==> unseqToSeq[c] == |Used(inUse, c)|
    ensures var j := if ptr[i] - 1 < 0 then ptr[i] - 1 + |b| else ptr[i] - 1;
            0 <= j < |b| && 0 <= b[j] < 256 && unseqToSeq[b[j]] == Ranks(LastColumn(b, ptr), inUse)[i]
  {
    var last := LastColumn(b, ptr);
    assert last[i] == b[Prev(|b|, ptr[i])];
  }

  lemma WritingStart(arr: seq<int>, ptr: seq<int>)
    requires Unread(arr, ptr, 0)
    ensures Writing(arr, ptr, 0, 0, [], seq(258, _ => 0))
  {
    assert arr[..0] == [];
  }

  lemma WritingIs(arr: seq<int>, ptr: seq<int>, i: nat, wr: nat, written: seq<int>, freq: seq<int>)
    requires Writing(arr, ptr, i, wr, written, freq)
    ensures wr == |written| <= |arr| && arr[..wr] == written && Tallied(freq, written)
  {
  }

  /** generateMTFValues: the symbols of the last column, in place of the pointers, and their counts. */
  method GenerateMtfValues(arr1: array<int>, block: array<int>, nblock: nat, inUse: seq<bool>, ghost ptr: seq<int>)
    returns (nMTF: nat, mtfFreq: seq<int>)
    requires arr1 != block && block.Length == nblock == |ptr| && nblock > 0 && 2 * nblock <= arr1.Length
    requires forall k :: 0 <= k < |ptr| ==> 0 <= ptr[k] < nblock
    requires Unread(arr1[..], ptr, 0) && Covered(LastColumn(block[..], ptr), inUse)
    modifies arr1
    ensures nMTF <= arr1.Length && arr1[..nMTF] == BlockSymbols(LastColumn(block[..], ptr), inUse)
    ensures Tallied(mtfFreq, arr1[..nMTF])
  {
    hide *;
    ghost var b := block[..];
    ghost var last := LastColumn(b, ptr);
    CoveredIs(last, inUse);
    ghost var ranks := Ranks(last, inUse);
    var nInUse, unseqToSeq := MakeMapsEncode(inUse);
    var eob := nInUse + 1;
    BlockSymbolsIs(last, inUse);
    mtfFreq := seq(258, _ => 0);
    WritingStart(arr1[..], ptr);
    CodingStart(ranks, nInUse);
    var wr: nat, zPend: nat := 0, 0;
    ghost var written: seq<int> := [];
    var yy := Identity(nInUse);
    for i := 0 to nblock
      invariant block[..] == b && |yy| == nInUse
      invariant Writing(arr1[..], ptr, i, wr, written, mtfFreq)
      invariant Coding(ranks, i, yy, zPend, written, nInUse)
      invariant wr + zPend <= i
    {
      UnreadAt(arr1[..], ptr, i, wr, written, mtfFreq);
      RankAt(b, ptr, inUse, unseqToSeq, i);
      var j := arr1[2 * i] + 0x10000 * arr1[2 * i + 1] - 1;
      if j < 0 { j := j + nblock; }
      assert block[j] == b[j];
      var ll := unseqToSeq[block[j]];
      assert ll == ranks[i];
      CodingFront(ranks, i, yy, zPend, written, nInUse);
      if yy[0] == ll {
        zPend := zPend + 1;
      } else {
        ghost var z := zPend;
        if zPend > 0 {
          wr, mtfFreq := EmitRun(arr1, wr, zPend, mtfFreq, ptr, i + 1, written);
          zPend := 0;
        } else {
          NoDigits();
          assert written + [] == written;
        }
        ListBig(yy, ll);
        ghost var at := IndexOf(yy, ll);
        CodingEntry(ranks, i, yy, z, written, nInUse, at);
        yy, j := MoveFront(yy, ll);
        wr, mtfFreq := Emit(arr1, wr, j + 1, mtfFreq, ptr, i + 1, written + RunDigits(z));
        written := written + RunDigits(z) + [j + 1];
      }
    }
    CodingDone(ranks, yy, zPend, written, nInUse);
    if zPend > 0 {
      wr, mtfFreq := EmitRun(arr1, wr, zPend, mtfFreq, ptr, nblock, written);
    } else {
      NoDigits();
      assert written + [] == written;
    }
    wr, mtfFreq := Emit(arr1, wr, eob, mtfFreq, ptr, nblock, written + RunDigits(zPend));
    nMTF := wr;
    WritingIs(arr1[..], ptr, nblock, wr, written + RunDigits(zPend) + [eob], mtfFreq);
  }

  lemma NoDigits()
    ensures RunDigits(0) == []
  {
  }

  lemma ListBig(yy: seq<int>, x: int)
    requires x in yy && yy[0] != x
    ensures |yy| >= 2
  {
  }

  lemma CoveredIs(last: seq<int>, inUse: seq<bool>)
    requires Covered(last, inUse)
    ensures |inUse| == 256
  {
  }
}
