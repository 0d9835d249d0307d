/** The second half of sendMTFValues: mapping table, selectors, coding tables and codes. */
module BlockWriter {
  import opened Bytes
  import opened Powers
  import opened BitStrings
  import opened BitWriter
  import opened HuffmanTree
  import opened HuffmanCodes
  import opened BlockFormat
  import MF = MoveToFront

  lemma SmallBits()
    ensures Pow2(1) == 2 && Pow2(2) == 4
    ensures ToBits(1, 0) == [false] && ToBits(1, 1) == [true]
    ensures ToBits(2, 2) == [true, false] && ToBits(2, 3) == [true, true]
  {
    assert Pow2(0) == 1;
    assert ToBits(0, 0) == [];
    assert ToBits(1, 1) == [true] + ToBits(0, 0) && ToBits(1, 0) == [false] + ToBits(0, 0);
    assert ToBits(2, 2) == [true] + ToBits(1, 0) && ToBits(2, 3) == [true] + ToBits(1, 1);
  }

  lemma Assoc(a: seq<bool>, b: seq<bool>, c: seq<bool>)
    ensures a + b + c == a + (b + c)
  {
  }

  /** bsW(s,1,b) */
  method PutFlag(w: Writer, b: bool)
    requires w.Valid() && 0 <= w.bsLive
    modifies w
    ensures w.Valid() && 0 <= w.bsLive && w.Bits() == old(w.Bits()) + [b] && old(w.zbits) <= w.zbits
  {
    hide ToBits, Pow2, ByteBits, Loaded, IsBytes;
    SmallBits();
    if b { w.W(1, 1); } else { w.W(1, 0); }
  }

  /** A run of flags. */
  method PutFlags(w: Writer, flags: seq<bool>)
    requires w.Valid() && 0 <= w.bsLive
    modifies w
    ensures w.Valid() && 0 <= w.bsLive && w.Bits() == old(w.Bits()) + flags && old(w.zbits) <= w.zbits
  {
    hide ToBits, Pow2, ByteBits, Loaded, IsBytes;
    ghost var b0 := w.Bits();
    assert b0 + flags[..0] == b0;
    for j := 0 to |flags|
      invariant w.Valid() && 0 <= w.bsLive && w.Bits() == b0 + flags[..j] && old(w.zbits) <= w.zbits
    {
      PutFlag(w, flags[j]);
      assert flags[..j + 1] == flags[..j] + [flags[j]];
      Assoc(b0, flags[..j], [flags[j]]);
    }
    assert flags[..|flags|] == flags;
  }

  /** inUse16 */
  method RowFlags(inUse: seq<bool>) returns (rows: seq<bool>)
    requires |inUse| == 256
    ensures rows == UsedRows(inUse)
  {
    rows := [];
    for i := 0 to 16
      invariant |rows| == i && forall k :: 0 <= k < i ==> rows[k] == RowUsed(inUse, k)
    {
      var used := false;
      for j := 0 to 16
        invariant used <==> exists k :: 16 * i <= k < 16 * i + j && inUse[k]
      {
        if inUse[i * 16 + j] { used := true; }
      }
      rows := rows + [used];
    }
  }

  method SendMapping(w: Writer, inUse: seq<bool>)
    requires w.Valid() && 0 <= w.bsLive && |inUse| == 256
    modifies w
    ensures w.Valid() && 0 <= w.bsLive && w.Bits() == old(w.Bits()) + Mapping(inUse) && old(w.zbits) <= w.zbits
  {
    hide ToBits, Pow2, ByteBits, Loaded, IsBytes, Rows, UsedRows, RowUsed;
    ghost var b0 := w.Bits();
    var rows := RowFlags(inUse);
    PutFlags(w, rows);
    Assoc(b0, rows, Rows(inUse, 0));
    for i := 0 to 16
      invariant w.Valid() && 0 <= w.bsLive && w.Bits() + Rows(inUse, i) == b0 + Mapping(inUse)
      invariant old(w.zbits) <= w.zbits
    {
      RowsUnfold(inUse, i);
      ghost var b := w.Bits();
      if rows[i] {
        PutFlags(w, inUse[16 * i..16 * i + 16]);
        Assoc(b, inUse[16 * i..16 * i + 16], Rows(inUse, i + 1));
      } else {
        assert [] + Rows(inUse, i + 1) == Rows(inUse, i + 1);
      }
    }
    RowsUnfold(inUse, 16);
    assert w.Bits() + [] == w.Bits();
  }

  /** The shifting search of the selector list. */
  method Bring(pos0: seq<int>, x: int) returns (pos: seq<int>, j: nat)
    requires x in pos0
    ensures j == MF.IndexOf(pos0, x) && pos == MF.ToFront(pos0, j)
  {
    ghost var at := MF.IndexOf(pos0, x);
    pos := pos0;
    j := 0;
    var tmp := pos[0];
    while x != tmp
      invariant 0 <= j <= at && |pos| == |pos0| && tmp == pos0[j]
      invariant forall k :: 1 <= k <= j ==> pos[k] == pos0[k - 1]
      invariant forall k :: j < k < |pos| ==> pos[k] == pos0[k]
      decreases at - j
    {
      j := j + 1;
      var tmp2 := tmp;
      tmp := pos[j];
      pos := pos[j := tmp2];
    }
    pos := pos[0 := tmp];
    assert pos == MF.ToFront(pos0, j);
  }

  lemma PlacesUnfold(sel: seq<int>, pos: seq<int>)
    requires MF.AllIn(sel, pos)
    ensures sel == [] ==> SelectorPlaces(sel, pos) == []
    ensures sel != [] ==> sel[0] in pos && MF.AllIn(sel[1..], MF.ToFront(pos, MF.IndexOf(pos, sel[0])))
    ensures sel != [] ==>
      var j := MF.IndexOf(pos, sel[0]);
      SelectorPlaces(sel, pos) == [j] + SelectorPlaces(sel[1..], MF.ToFront(pos, j))
  {
    if sel != [] {
      assert sel[0] in pos;
      MF.AllInToFront(sel, pos, MF.IndexOf(pos, sel[0]));
    }
  }

  /** selectorMtf */
  method SelectorMtf(sel: seq<int>, nGroups: nat) returns (places: seq<nat>)
    requires MF.AllIn(sel, MF.Identity(nGroups))
    ensures places == SelectorPlaces(sel, MF.Identity(nGroups))
  {
    hide SelectorPlaces, MF.AllIn, MF.IndexOf, MF.ToFront;
    var pos := MF.Identity(nGroups);
    places := [];
    assert sel[0..] == sel;
    for i := 0 to |sel|
      invariant MF.AllIn(sel[i..], pos)
      invariant places + SelectorPlaces(sel[i..], pos) == SelectorPlaces(sel, MF.Identity(nGroups))
    {
      PlacesUnfold(sel[i..], pos);
      assert sel[i..][0] == sel[i] && sel[i..][1..] == sel[i + 1..];
      var j;
      ghost var before := places;
      pos, j := Bring(pos, sel[i]);
      places := places + [j];
      assert before + ([j] + SelectorPlaces(sel[i + 1..], pos)) == places + SelectorPlaces(sel[i + 1..], pos);
    }
    PlacesUnfold(sel[|sel|..], pos);
  }

  lemma UnaryIs(j: nat)
    ensures Unary(j) == seq(j, _ => true) + [false]
  {
    if j > 0 { UnaryIs(j - 1); }
  }

  method PutUnary(w: Writer, n: nat)
    requires w.Valid() && 0 <= w.bsLive
    modifies w
    ensures w.Valid() && 0 <= w.bsLive && w.Bits() == old(w.Bits()) + Unary(n) && old(w.zbits) <= w.zbits
  {
    hide ToBits, Pow2, ByteBits, Loaded, IsBytes, Unary;
    ghost var b0 := w.Bits();
    assert b0 + seq(0, _ => true) == b0;
    for j := 0 to n
      invariant w.Valid() && 0 <= w.bsLive && w.Bits() == b0 + seq(j, _ => true) && old(w.zbits) <= w.zbits
    {
      PutFlag(w, true);
      assert b0 + seq(j, _ => true) + [true] == b0 + seq(j + 1, _ => true);
    }
    PutFlag(w, false);
    UnaryIs(n);
    Assoc(b0, seq(n, _ => true), [false]);
  }

  lemma UnariesUnfold(places: seq<nat>, i: nat)
    requires i <= |places|
    ensures i == |places| ==> Unaries(places[i..]) == []
    ensures i < |places| ==> Unaries(places[i..]) == Unary(places[i]) + Unaries(places[i + 1..])
  {
    if i < |places| { assert places[i..][1..] == places[i + 1..]; }
  }

  method SendSelectors(w: Writer, sel: seq<int>, nGroups: nat)
    requires w.Valid() && 0 <= w.bsLive && nGroups < 8 && |sel| < 32768 && MF.AllIn(sel, MF.Identity(nGroups))
    modifies w
    ensures w.Valid() && 0 <= w.bsLive && w.Bits() == old(w.Bits()) + Selectors(sel, nGroups) && old(w.zbits) <= w.zbits
  {
    hide ToBits, Pow2, ByteBits, Loaded, IsBytes, Unaries, SelectorPlaces, MF.AllIn, MF.Identity;
    Powers3And15();
    ghost var b0 := w.Bits();
    var places := SelectorMtf(sel, nGroups);
    w.W(3, nGroups);
    w.W(15, |sel|);
    assert places[0..] == places;
    Regroup(b0, ToBits(3, nGroups), ToBits(15, |sel|), Unaries(places));
    for i := 0 to |sel|
      invariant w.Valid() && 0 <= w.bsLive && old(w.zbits) <= w.zbits
      invariant w.Bits() + Unaries(places[i..]) == b0 + Selectors(sel, nGroups)
    {
      UnariesUnfold(places, i);
      Assoc(w.Bits(), Unary(places[i]), Unaries(places[i + 1..]));
      PutUnary(w, places[i]);
    }
    UnariesUnfold(places, |places|);
    assert w.Bits() + [] == w.Bits();
  }

  lemma Regroup(a: seq<bool>, b: seq<bool>, c: seq<bool>, d: seq<bool>)
    ensures a + b + c + d == a + (b + c + d)
  {
  }

  lemma StepsUnfold(curr: int, target: int)
    ensures curr == target ==> Steps(curr, target) == [false]
    ensures curr < target ==> Steps(curr, target) == [true, false] + Steps(curr + 1, target)
    ensures curr > target ==> Steps(curr, target) == [true, true] + Steps(curr - 1, target)
  {
  }

  /** From length curr0 to length target. */
  method SendSteps(w: Writer, curr0: int, target: int)
    requires w.Valid() && 0 <= w.bsLive
    modifies w
    ensures w.Valid() && 0 <= w.bsLive && w.Bits() == old(w.Bits()) + Steps(curr0, target) && old(w.zbits) <= w.zbits
  {
    hide ToBits, Pow2, ByteBits, Loaded, IsBytes, Steps;
    SmallBits();
    ghost var b0 := w.Bits();
    var curr := curr0;
    while curr < target
      invariant w.Valid() && 0 <= w.bsLive && old(w.zbits) <= w.zbits
      invariant curr <= target || curr == curr0
      invariant w.Bits() + Steps(curr, target) == b0 + Steps(curr0, target)
    {
      StepsUnfold(curr, target);
      Assoc(w.Bits(), [true, false], Steps(curr + 1, target));
      w.W(2, 2);
      curr := curr + 1;
    }
    while curr > target
      invariant w.Valid() && 0 <= w.bsLive && old(w.zbits) <= w.zbits
      invariant curr >= target
      invariant w.Bits() + Steps(curr, target) == b0 + Steps(curr0, target)
    {
      StepsUnfold(curr, target);
      Assoc(w.Bits(), [true, true], Steps(curr - 1, target));
      w.W(2, 3);
      curr := curr - 1;
    }
    StepsUnfold(curr, target);
    w.W(1, 0);
  }

  lemma LengthsUnfold(len: seq<int>, i: nat, curr: int)
    requires i <= |len|
    ensures i == |len| ==> LengthDeltas(len, i, curr) == []
    ensures i < |len| ==> LengthDeltas(len, i, curr) == Steps(curr, len[i]) + LengthDeltas(len, i + 1, len[i])
  {
  }

  method SendTable(w: Writer, len: seq<int>)
    requires w.Valid() && 0 <= w.bsLive && |len| > 0 && 0 <= len[0] < 32
    modifies w
    ensures w.Valid() && 0 <= w.bsLive && w.Bits() == old(w.Bits()) + CodingTable(len) && old(w.zbits) <= w.zbits
  {
    hide ToBits, Pow2, ByteBits, Loaded, IsBytes, Steps, LengthDeltas;
    Powers3And15();
    ghost var b0 := w.Bits();
    var curr := len[0];
    w.W(5, curr);
    Assoc(b0, ToBits(5, curr), LengthDeltas(len, 0, curr));
    for i := 0 to |len|
      invariant w.Valid() && 0 <= w.bsLive && old(w.zbits) <= w.zbits
      invariant w.Bits() + LengthDeltas(len, i, curr) == b0 + CodingTable(len)
    {
      LengthsUnfold(len, i, curr);
      Assoc(w.Bits(), Steps(curr, len[i]), LengthDeltas(len, i + 1, len[i]));
      SendSteps(w, curr, len[i]);
      curr := len[i];
    }
    LengthsUnfold(len, |len|, curr);
    assert w.Bits() + [] == w.Bits();
  }

  lemma TablesUnfold(lens: seq<seq<int>>, t: nat)
    requires t <= |lens| && forall k :: 0 <= k < |lens| ==> |lens[k]| > 0 && 0 <= lens[k][0] < 32
    ensures t == |lens| ==> CodingTables(lens, t) == []
    ensures t < |lens| ==> CodingTables(lens, t) == CodingTable(lens[t]) + CodingTables(lens, t + 1)
  {
  }

  method SendTables(w: Writer, lens: seq<seq<int>>)
    requires w.Valid() && 0 <= w.bsLive && forall k :: 0 <= k < |lens| ==> |lens[k]| > 0 && 0 <= lens[k][0] < 32
    modifies w
    ensures w.Valid() && 0 <= w.bsLive && w.Bits() == old(w.Bits()) + CodingTables(lens, 0) && old(w.zbits) <= w.zbits
  {
    hide ToBits, Pow2, ByteBits, Loaded, IsBytes, CodingTable, CodingTables;
    ghost var b0 := w.Bits();
    for t := 0 to |lens|
      invariant w.Valid() && 0 <= w.bsLive && old(w.zbits) <= w.zbits
      invariant w.Bits() + CodingTables(lens, t) == b0 + CodingTables(lens, 0)
    {
      TablesUnfold(lens, t);
      Assoc(w.Bits(), CodingTable(lens[t]), CodingTables(lens, t + 1));
      SendTable(w, lens[t]);
    }
    TablesUnfold(lens, |lens|);
    assert w.Bits() + [] == w.Bits();
  }

  // ----- codes

  ghost predicate AssignedCodes(codes: seq<seq<int>>, lens: seq<seq<int>>, alphaSize: nat) {
    && |codes| == |lens|
    && forall t :: 0 <= t < |lens| ==>
         && |codes[t]| == |lens[t]| == alphaSize && ValidLengths(lens[t])
         && forall v :: 0 <= v < alphaSize ==> codes[t][v] == CodeOf(lens[t], v)
  }

  /** Codes for all tables. */
  method AssignAll(lens: seq<seq<int>>, alphaSize: nat) returns (codes: seq<seq<int>>)
    requires GoodTables(lens, alphaSize)
    ensures AssignedCodes(codes, lens, alphaSize)
  {
    hide CodeOf, KraftSum, Pow2;
    codes := [];
    for t := 0 to |lens|
      invariant |codes| == t
      invariant forall u :: 0 <= u < t ==>
        |codes[u]| == alphaSize && forall v :: 0 <= v < alphaSize ==> codes[u][v] == CodeOf(lens[u], v)
    {
      assert ValidLengths(lens[t]);
      var minLen, maxLen := 32, 0;
      for i := 0 to alphaSize
        invariant forall k :: 0 <= k < i ==> minLen <= lens[t][k] <= maxLen
        invariant 1 <= minLen <= 32 && 0 <= maxLen <= 20 && (i > 0 ==> minLen <= maxLen)
      {
        if lens[t][i] > maxLen { maxLen := lens[t][i]; }
        if lens[t][i] < minLen { minLen := lens[t][i]; }
      }
      var code := AssignCodes(lens[t], minLen, maxLen);
      codes := codes + [code];
    }
  }

  lemma CodeFits(lens: seq<seq<int>>, codes: seq<seq<int>>, alphaSize: nat, t: int, v: int)
    requires GoodTables(lens, alphaSize) && AssignedCodes(codes, lens, alphaSize) && 0 <= t < |lens|
    requires 0 <= v < alphaSize
    ensures |codes| == |lens| && |codes[t]| == |lens[t]| == alphaSize && ValidLengths(lens[t])
    ensures KraftSum(lens[t], alphaSize) <= Pow2(20)
    ensures 1 <= lens[t][v] <= 20 && 0 <= codes[t][v] < Pow2(lens[t][v])
    ensures ToBits(lens[t][v], codes[t][v]) == CodeBits(lens[t], v)
  {
    assert ValidLengths(lens[t]);
    CodesFit(lens[t], v);
  }

  /** The block data proper, group by group. */
  method SendCodes(w: Writer, mtfv: seq<int>, lens: seq<seq<int>>, codes: seq<seq<int>>, sel: seq<int>, alphaSize: nat)
    requires w.Valid() && 0 <= w.bsLive
    requires GoodTables(lens, alphaSize) && GoodSelectors(sel, |lens|, |mtfv|) && GoodSymbols(mtfv, alphaSize)
    requires AssignedCodes(codes, lens, alphaSize)
    modifies w
    ensures w.Valid() && 0 <= w.bsLive && w.Bits() == old(w.Bits()) + Codes(mtfv, lens, sel, 0, alphaSize)
    ensures old(w.zbits) <= w.zbits
  {
    hide *;
    ghost var b0 := w.Bits();
    var nMTF := |mtfv|;
    var selCtr, gs := 0, 0;
    while gs < nMTF
      invariant 0 <= gs <= nMTF && (gs < nMTF ==> gs == 50 * selCtr)
      invariant w.Valid() && 0 <= w.bsLive && old(w.zbits) <= w.zbits
      invariant w.Bits() + Codes(mtfv, lens, sel, gs, alphaSize) == b0 + Codes(mtfv, lens, sel, 0, alphaSize)
    {
      var ge := if gs + 49 >= nMTF then nMTF else gs + 50;
      for i := gs to ge
        invariant w.Valid() && 0 <= w.bsLive && old(w.zbits) <= w.zbits
        invariant w.Bits() + Codes(mtfv, lens, sel, i, alphaSize) == b0 + Codes(mtfv, lens, sel, 0, alphaSize)
      {
        CodesUnfold(mtfv, lens, sel, i, alphaSize);
        assert i / 50 == selCtr;
        var t := sel[selCtr];
        CodeFits(lens, codes, alphaSize, t, mtfv[i]);
        Assoc(w.Bits(), CodeBits(lens[t], mtfv[i]), Codes(mtfv, lens, sel, i + 1, alphaSize));
        w.W(lens[t][mtfv[i]], codes[t][mtfv[i]]);
      }
      gs := ge;
      selCtr := selCtr + 1;
    }
    CodesUnfold(mtfv, lens, sel, nMTF, alphaSize);
    assert w.Bits() + [] == w.Bits();
  }
}
