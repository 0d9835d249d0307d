/** The bit layout of one block: what BZ2_compressBlock and sendMTFValues write, and what
    BZ2_decompress reads back. */
module BlockFormat {
  import opened Powers
  import opened BitStrings
  import opened HuffmanTree
  import opened HuffmanCodes
  import MF = MoveToFront
  import ME = MtfEncoder

  // ----- mapping table

  /** Some byte of row i is in use. */
  predicate RowUsed(inUse: seq<bool>, i: nat)
    requires |inUse| == 256 && i < 16
  {
    exists j :: 16 * i <= j < 16 * i + 16 && inUse[j]
  }

  function UsedRows(inUse: seq<bool>): (r: seq<bool>)
    requires |inUse| == 256
    ensures |r| == 16
  {
    seq(16, i requires 0 <= i < 16 => RowUsed(inUse, i))
  }

  /** The rows from i on: sixteen bits for each row in use. */
  function Rows(inUse: seq<bool>, i: nat): (r: seq<bool>)
    requires |inUse| == 256 && i <= 16
    decreases 16 - i
  {
    if i == 16 then []
    else (if RowUsed(inUse, i) then inUse[16 * i..16 * i + 16] else []) + Rows(inUse, i + 1)
  }

  function Mapping(inUse: seq<bool>): (r: seq<bool>)
    requires |inUse| == 256
  {
    UsedRows(inUse) + Rows(inUse, 0)
  }

  /** n single-bit reads. */
  function GetFlags(bs: seq<bool>, n: nat): (r: Parse<seq<bool>>)
    ensures r.Done? ==> |r.rest| <= |bs|
  {
    if |bs| < n then NeedInput else Done(bs[..n], bs[n..])
  }

  function GetRows(bs: seq<bool>, rows: seq<bool>, i: nat): (r: Parse<seq<bool>>)
    ensures r.Done? ==> |r.rest| <= |bs|
    requires |rows| == 16 && i <= 16
    decreases 16 - i
  {
    if i == 16 then Done([], bs)
    else if rows[i] then
      match GetFlags(bs, 16)
      case Done(row, rest) =>
        (match GetRows(rest, rows, i + 1)
         case Done(more, rest') => Done(row + more, rest')
         case NeedInput => NeedInput
         case Bad => Bad)
      case NeedInput => NeedInput
      case Bad => Bad
    else
      match GetRows(bs, rows, i + 1)
      case Done(more, rest') => Done(seq(16, _ => false) + more, rest')
      case NeedInput => NeedInput
      case Bad => Bad
  }

  function GetMapping(bs: seq<bool>): (r: Parse<seq<bool>>)
    ensures r.Done? ==> |r.rest| <= |bs|
  {
    match GetFlags(bs, 16)
    case Done(rows, rest) => GetRows(rest, rows, 0)
    case NeedInput => NeedInput
    case Bad => Bad
  }

  lemma {:induction false} RowsRoundTrip(inUse: seq<bool>, i: nat, rest: seq<bool>)
    requires |inUse| == 256 && i <= 16
    ensures GetRows(Rows(inUse, i) + rest, UsedRows(inUse), i) == Done(inUse[16 * i..], rest)
    decreases 16 - i
  {
    hide *;
    RowsUnfold(inUse, i);
    if i == 16 {
      assert [] + rest == rest;
      RowsRead(inUse, i, rest, rest);
    } else {
      RowsRoundTrip(inUse, i + 1, rest);
      var row, next := inUse[16 * i..16 * i + 16], Rows(inUse, i + 1) + rest;
      assert row + Rows(inUse, i + 1) + rest == row + next;
      RowsRead(inUse, i, Rows(inUse, i) + rest, next);
    }
  }

  lemma RowsUnfold(inUse: seq<bool>, i: nat)
    requires |inUse| == 256 && i <= 16
    ensures i < 16 ==> UsedRows(inUse)[i] == RowUsed(inUse, i)
    ensures Rows(inUse, i) ==
            if i == 16 then []
            else if RowUsed(inUse, i) then inUse[16 * i..16 * i + 16] + Rows(inUse, i + 1)
            else Rows(inUse, i + 1)
  {
  }

  /** One row is read, if it is there. */
  lemma RowsRead(inUse: seq<bool>, i: nat, bs: seq<bool>, next: seq<bool>)
    requires |inUse| == 256 && i <= 16 && (i == 16 ==> next == bs)
    requires i < 16 ==> bs == (if RowUsed(inUse, i) then inUse[16 * i..16 * i + 16] + next else next)
    ensures var r := GetRows(bs, UsedRows(inUse), i);
            if i == 16 then r == Done(inUse[16 * i..], bs)
            else forall rest :: GetRows(next, UsedRows(inUse), i + 1) == Done(inUse[16 * (i + 1)..], rest) ==>
              r == Done(inUse[16 * i..], rest)
  {
    if i < 16 {
      hide GetRows;
      var row := inUse[16 * i..16 * i + 16];
      assert inUse[16 * i..] == row + inUse[16 * (i + 1)..];
      RowOf(inUse, i, bs, next);
      GetRowsUnfold(bs, UsedRows(inUse), i);
    } else {
      assert inUse[16 * i..] == [];
    }
  }

  lemma RowOf(inUse: seq<bool>, i: nat, bs: seq<bool>, next: seq<bool>)
    requires |inUse| == 256 && i < 16 && bs == (if RowUsed(inUse, i) then inUse[16 * i..16 * i + 16] + next else next)
    ensures if RowUsed(inUse, i) then GetFlags(bs, 16) == Done(inUse[16 * i..16 * i + 16], next)
            else inUse[16 * i..16 * i + 16] == seq(16, _ => false)
    ensures UsedRows(inUse)[i] == RowUsed(inUse, i)
  {
    if RowUsed(inUse, i) { assert bs[..16] == inUse[16 * i..16 * i + 16] && bs[16..] == next; }
  }

  lemma GetRowsUnfold(bs: seq<bool>, rows: seq<bool>, i: nat)
    requires |rows| == 16 && i <= 16
    ensures GetRows(bs, rows, i) ==
            if i == 16 then Done([], bs)
            else if rows[i] then
              match GetFlags(bs, 16)
              case Done(row, rest) => Before(row, GetRows(rest, rows, i + 1))
              case NeedInput => NeedInput
              case Bad => Bad
            else Before(seq(16, _ => false), GetRows(bs, rows, i + 1))
  {
    hide GetFlags;
  }

  function Before(row: seq<bool>, r: Parse<seq<bool>>): (p: Parse<seq<bool>>) {
    match r
    case Done(more, rest) => Done(row + more, rest)
    case NeedInput => NeedInput
    case Bad => Bad
  }

  lemma MappingRoundTrip(inUse: seq<bool>, rest: seq<bool>)
    requires |inUse| == 256
    ensures GetMapping(Mapping(inUse) + rest) == Done(inUse, rest)
  {
    var bs := Mapping(inUse) + rest;
    assert bs == UsedRows(inUse) + (Rows(inUse, 0) + rest);
    assert bs[..16] == UsedRows(inUse) && bs[16..] == Rows(inUse, 0) + rest;
    RowsRoundTrip(inUse, 0, rest);
    assert inUse[16 * 0..] == inUse;
  }

  // ----- selectors

  /** j ones and a zero. */
  function Unary(j: nat): (r: seq<bool>) {
    if j == 0 then [false] else [true] + Unary(j - 1)
  }

  function GetUnary(bs: seq<bool>, j: nat, nGroups: nat): (r: Parse<nat>)
    ensures r.Done? ==> |r.rest| <= |bs|
    requires j < nGroups
    ensures r.Done? ==> r.value < nGroups
    decreases |bs|
  {
    if bs == [] then NeedInput
    else if !bs[0] then Done(j, bs[1..])
    else if j + 1 >= nGroups then Bad
    else GetUnary(bs[1..], j + 1, nGroups)
  }

  lemma {:induction false} UnaryRoundTrip(j: nat, k: nat, nGroups: nat, rest: seq<bool>)
    requires k + j < nGroups
    ensures GetUnary(Unary(j) + rest, k, nGroups) == Done(k + j, rest)
    decreases j
  {
    var bs := Unary(j) + rest;
    if j == 0 {
      assert bs[1..] == rest;
    } else {
      UnaryRoundTrip(j - 1, k + 1, nGroups, rest);
      assert bs[1..] == Unary(j - 1) + rest;
    }
  }

  /** Selectors as places in a move-to-front list. */
  function SelectorPlaces(sel: seq<int>, pos: seq<int>): (r: seq<nat>)
    requires MF.AllIn(sel, pos)
    ensures |r| == |sel|
    decreases |sel|
  {
    if sel == [] then []
    else
      assert sel[0] in pos;
      var j := MF.IndexOf(pos, sel[0]);
      MF.AllInToFront(sel, pos, j);
      [j] + SelectorPlaces(sel[1..], MF.ToFront(pos, j))
  }

  function SelectorsOf(places: seq<nat>, pos: seq<int>): (r: seq<int>)
    requires forall i :: 0 <= i < |places| ==> places[i] < |pos|
    ensures |r| == |places|
    decreases |places|
  {
    if places == [] then []
    else [pos[places[0]]] + SelectorsOf(places[1..], MF.ToFront(pos, places[0]))
  }

  lemma {:induction false} PlacesInvert(sel: seq<int>, pos: seq<int>)
    requires MF.AllIn(sel, pos)
    ensures forall i :: 0 <= i < |sel| ==> SelectorPlaces(sel, pos)[i] < |pos|
    ensures SelectorsOf(SelectorPlaces(sel, pos), pos) == sel
    decreases |sel|
  {
    if sel != [] {
      assert sel[0] in pos;
      var j := MF.IndexOf(pos, sel[0]);
      MF.AllInToFront(sel, pos, j);
      PlacesInvert(sel[1..], MF.ToFront(pos, j));
      assert SelectorPlaces(sel, pos)[1..] == SelectorPlaces(sel[1..], MF.ToFront(pos, j));
    }
  }

  function Unaries(places: seq<nat>): (r: seq<bool>)
    decreases |places|
  {
    if places == [] then [] else Unary(places[0]) + Unaries(places[1..])
  }

  function GetUnaries(bs: seq<bool>, n: nat, nGroups: nat): (r: Parse<seq<nat>>)
    ensures r.Done? ==> |r.rest| <= |bs|
    requires nGroups > 0
    ensures r.Done? ==> |r.value| == n && forall i :: 0 <= i < n ==> r.value[i] < nGroups
    decreases n
  {
    if n == 0 then Done([], bs)
    else match GetUnary(bs, 0, nGroups)
      case Done(j, rest) =>
        (match GetUnaries(rest, n - 1, nGroups)
         case Done(more, rest') => Done([j] + more, rest')
         case NeedInput => NeedInput
         case Bad => Bad)
      case NeedInput => NeedInput
      case Bad => Bad
  }

  lemma {:induction false} UnariesRoundTrip(places: seq<nat>, nGroups: nat, rest: seq<bool>)
    requires nGroups > 0 && forall i :: 0 <= i < |places| ==> places[i] < nGroups
    ensures GetUnaries(Unaries(places) + rest, |places|, nGroups) == Done(places, rest)
    decreases |places|
  {
    if places == [] {
      assert Unaries(places) + rest == rest;
    } else {
      var more := Unaries(places[1..]) + rest;
      assert Unaries(places) + rest == Unary(places[0]) + more;
      UnaryRoundTrip(places[0], 0, nGroups, more);
      UnariesRoundTrip(places[1..], nGroups, rest);
      assert [places[0]] + places[1..] == places;
    }
  }

  /** Number of tables, number of selectors, the selectors. */
  function Selectors(sel: seq<int>, nGroups: nat): (r: seq<bool>)
    requires nGroups < 8 && |sel| < 32768 && MF.AllIn(sel, MF.Identity(nGroups))
  {
    Powers3And15();
    ToBits(3, nGroups) + ToBits(15, |sel|) + Unaries(SelectorPlaces(sel, MF.Identity(nGroups)))
  }

  lemma Powers3And15()
    ensures Pow2(3) == 8 && Pow2(5) == 32 && Pow2(15) == 32768
  {
    assert Pow2(8) == 256;
    assert Pow2(13) == 8192;
  }

  /** nGroups and the selectors, with the decoder's range checks. */
  function GetSelectors(bs: seq<bool>): (r: Parse<(nat, seq<int>)>)
    ensures r.Done? ==> |r.rest| <= |bs|
    ensures r.Done? ==> 2 <= r.value.0 <= 6 && |r.value.1| >= 1
  {
    match GetBits(bs, 3)
    case Done(nGroups, rest) =>
      (if nGroups < 2 || nGroups > 6 then Bad
       else match GetBits(rest, 15)
         case Done(nSelectors, rest') =>
           (if nSelectors < 1 then Bad
            else match GetUnaries(rest', nSelectors, nGroups)
              case Done(places, rest'') => Done((nGroups, SelectorsOf(places, MF.Identity(nGroups))), rest'')
              case NeedInput => NeedInput
              case Bad => Bad)
         case NeedInput => NeedInput
         case Bad => Bad)
    case NeedInput => NeedInput
    case Bad => Bad
  }

  lemma SelectorsRoundTrip(sel: seq<int>, nGroups: nat, rest: seq<bool>)
    requires 2 <= nGroups <= 6 && 1 <= |sel| < 32768 && MF.AllIn(sel, MF.Identity(nGroups))
    ensures GetSelectors(Selectors(sel, nGroups) + rest) == Done((nGroups, sel), rest)
  {
    Powers3And15();
    var places := SelectorPlaces(sel, MF.Identity(nGroups));
    PlacesInvert(sel, MF.Identity(nGroups));
    var c := Unaries(places) + rest;
    var b := ToBits(15, |sel|) + c;
    assert Selectors(sel, nGroups) + rest == ToBits(3, nGroups) + b;
    GetPut(3, nGroups, b);
    GetPut(15, |sel|, c);
    UnariesRoundTrip(places, nGroups, rest);
  }

  // ----- coding tables

  /** Steps from length curr to length target, then a stop bit. */
  function Steps(curr: int, target: int): (r: seq<bool>)
    decreases if curr < target then target - curr else curr - target
  {
    if curr == target then [false]
    else if curr < target then [true, false] + Steps(curr + 1, target)
    else [true, true] + Steps(curr - 1, target)
  }

  function GetLength(bs: seq<bool>, curr: int): (r: Parse<int>)
    ensures r.Done? ==> 1 <= r.value <= 20 && |r.rest| < |bs|
    decreases |bs|
  {
    if curr < 1 || curr > 20 then Bad
    else if bs == [] then NeedInput
    else if !bs[0] then Done(curr, bs[1..])
    else if |bs| == 1 then NeedInput
    else GetLength(bs[2..], if !bs[1] then curr + 1 else curr - 1)
  }

  lemma {:induction false} LengthRoundTrip(curr: int, target: int, rest: seq<bool>)
    requires 1 <= curr <= 20 && 1 <= target <= 20
    ensures GetLength(Steps(curr, target) + rest, curr) == Done(target, rest)
    decreases if curr < target then target - curr else curr - target
  {
    var bs := Steps(curr, target) + rest;
    if curr == target {
      assert bs[1..] == rest;
    } else {
      var next := if curr < target then curr + 1 else curr - 1;
      LengthRoundTrip(next, target, rest);
      assert bs[2..] == Steps(next, target) + rest;
    }
  }

  function LengthDeltas(len: seq<int>, i: nat, curr: int): (r: seq<bool>)
    requires i <= |len|
    decreases |len| - i
  {
    if i == |len| then [] else Steps(curr, len[i]) + LengthDeltas(len, i + 1, len[i])
  }

  function GetLengths(bs: seq<bool>, n: nat, curr: int): (r: Parse<seq<int>>)
    ensures r.Done? ==> |r.rest| <= |bs|
    ensures r.Done? ==> |r.value| == n && forall i :: 0 <= i < n ==> 1 <= r.value[i] <= 20
    decreases n
  {
    if n == 0 then Done([], bs)
    else match GetLength(bs, curr)
      case Done(l, rest) =>
        (match GetLengths(rest, n - 1, l)
         case Done(more, rest') => Done([l] + more, rest')
         case NeedInput => NeedInput
         case Bad => Bad)
      case NeedInput => NeedInput
      case Bad => Bad
  }

  lemma {:induction false} LengthsRoundTrip(len: seq<int>, i: nat, curr: int, rest: seq<bool>)
    requires i <= |len| && 1 <= curr <= 20 && forall k :: 0 <= k < |len| ==> 1 <= len[k] <= 20
    ensures GetLengths(LengthDeltas(len, i, curr) + rest, |len| - i, curr) == Done(len[i..], rest)
    decreases |len| - i
  {
    if i == |len| {
      assert LengthDeltas(len, i, curr) + rest == rest;
    } else {
      var more := LengthDeltas(len, i + 1, len[i]) + rest;
      assert LengthDeltas(len, i, curr) + rest == Steps(curr, len[i]) + more;
      LengthRoundTrip(curr, len[i], more);
      LengthsRoundTrip(len, i + 1, len[i], rest);
      assert [len[i]] + len[i + 1..] == len[i..];
    }
  }

  function CodingTable(len: seq<int>): (r: seq<bool>)
    requires |len| > 0 && 0 <= len[0] < 32
  {
    Powers3And15();
    ToBits(5, len[0]) + LengthDeltas(len, 0, len[0])
  }

  function CodingTables(lens: seq<seq<int>>, t: nat): (r: seq<bool>)
    requires t <= |lens| && forall k :: 0 <= k < |lens| ==> |lens[k]| > 0 && 0 <= lens[k][0] < 32
    decreases |lens| - t
  {
    if t == |lens| then [] else CodingTable(lens[t]) + CodingTables(lens, t + 1)
  }

  function GetCodingTable(bs: seq<bool>, alphaSize: nat): (r: Parse<seq<int>>)
    ensures r.Done? ==> |r.rest| <= |bs|
    ensures r.Done? ==> |r.value| == alphaSize && forall i :: 0 <= i < alphaSize ==> 1 <= r.value[i] <= 20
  {
    match GetBits(bs, 5)
    case Done(curr, rest) => GetLengths(rest, alphaSize, curr)
    case NeedInput => NeedInput
    case Bad => Bad
  }

  lemma CodingTableRoundTrip(len: seq<int>, rest: seq<bool>)
    requires |len| > 0 && forall i :: 0 <= i < |len| ==> 1 <= len[i] <= 20
    ensures GetCodingTable(CodingTable(len) + rest, |len|) == Done(len, rest)
  {
    hide LengthDeltas, GetLengths, ToBits, GetBits;
    Powers3And15();
    var b := LengthDeltas(len, 0, len[0]) + rest;
    assert CodingTable(len) + rest == ToBits(5, len[0]) + b;
    GetPut(5, len[0], b);
    LengthsRoundTrip(len, 0, len[0], rest);
    assert len[0..] == len;
  }

  function GetCodingTables(bs: seq<bool>, n: nat, alphaSize: nat): (r: Parse<seq<seq<int>>>)
    ensures r.Done? ==> |r.rest| <= |bs|
    ensures r.Done? ==> |r.value| == n && forall k :: 0 <= k < n ==>
      |r.value[k]| == alphaSize && forall i :: 0 <= i < alphaSize ==> 1 <= r.value[k][i] <= 20
    decreases n
  {
    if n == 0 then Done([], bs)
    else match GetCodingTable(bs, alphaSize)
      case Done(len, rest) =>
        (match GetCodingTables(rest, n - 1, alphaSize)
         case Done(more, rest') => Done([len] + more, rest')
         case NeedInput => NeedInput
         case Bad => Bad)
      case NeedInput => NeedInput
      case Bad => Bad
  }

  lemma {:induction false} CodingTablesRoundTrip(lens: seq<seq<int>>, t: nat, alphaSize: nat, rest: seq<bool>)
    requires t <= |lens| && alphaSize > 0
    requires forall k :: 0 <= k < |lens| ==>
      |lens[k]| == alphaSize && forall i :: 0 <= i < alphaSize ==> 1 <= lens[k][i] <= 20
    ensures GetCodingTables(CodingTables(lens, t) + rest, |lens| - t, alphaSize) == Done(lens[t..], rest)
    decreases |lens| - t
  {
    hide CodingTable, GetCodingTable;
    if t == |lens| {
      assert CodingTables(lens, t) + rest == rest;
    } else {
      var c := CodingTables(lens, t + 1) + rest;
      assert CodingTables(lens, t) + rest == CodingTable(lens[t]) + c;
      CodingTableRoundTrip(lens[t], c);
      CodingTablesRoundTrip(lens, t + 1, alphaSize, rest);
      assert [lens[t]] + lens[t + 1..] == lens[t..];
    }
  }

  // ----- the symbols, in groups of 50

  /** Every table is a usable code for the alphabet. */
  ghost predicate GoodTables(lens: seq<seq<int>>, alphaSize: nat) {
    && 2 <= |lens| <= 6 && 3 <= alphaSize <= 258
    && forall t :: 0 <= t < |lens| ==>
         |lens[t]| == alphaSize && ValidLengths(lens[t]) && KraftSum(lens[t], alphaSize) <= Pow2(20)
  }

  /** One selector for each group of 50 symbols. */
  ghost predicate GoodSelectors(sel: seq<int>, nGroups: nat, nSyms: nat) {
    && 1 <= |sel| < 32768 && 50 * (|sel| - 1) < nSyms <= 50 * |sel|
    && forall g :: 0 <= g < |sel| ==> 0 <= sel[g] < nGroups
  }

  ghost function CodeBits(len: seq<int>, s: int): (r: seq<bool>)
    requires ValidLengths(len) && 0 <= s < |len| && KraftSum(len, |len|) <= Pow2(20)
  {
    CodesFit(len, s);
    ToBits(len[s], CodeOf(len, s))
  }

  ghost predicate GoodSymbols(syms: seq<int>, alphaSize: nat) {
    forall k :: 0 <= k < |syms| ==> 0 <= syms[k] < alphaSize
  }

  /** The codes of the symbols from place k on. */
  ghost function Codes(syms: seq<int>, lens: seq<seq<int>>, sel: seq<int>, k: nat, alphaSize: nat): (r: seq<bool>)
    requires GoodTables(lens, alphaSize) && GoodSelectors(sel, |lens|, |syms|) && GoodSymbols(syms, alphaSize)
    requires k <= |syms|
    decreases |syms| - k
  {
    if k == |syms| then []
    else
      GroupIndex(k, |sel|);
      CodeBits(lens[sel[k / 50]], syms[k]) + Codes(syms, lens, sel, k + 1, alphaSize)
  }

  lemma GroupIndex(k: nat, n: nat)
    requires k < 50 * n
    ensures 0 <= k / 50 < n
  {
  }

  /** Where the decoder stands: group number and symbols left in the group. */
  datatype Cursor = Cursor(groupNo: int, groupPos: nat)

  /** Start of GET_MTF_VAL: move to the next group when one is used up. */
  function NextGroup(c: Cursor): (r: Cursor)
    ensures r.groupPos > 0 || c.groupPos > 0
  {
    if c.groupPos == 0 then Cursor(c.groupNo + 1, 50) else c
  }

  /** Reading symbols until the end of the block. */
  ghost function GetSymbols(bs: seq<bool>, lens: seq<seq<int>>, sel: seq<int>, c: Cursor, st: MF.State, alphaSize: nat,
                            limit: nat)
    : (r: Parse<seq<int>>)
    ensures r.Done? ==> |r.rest| <= |bs|
    requires Readable(lens, sel, alphaSize) && |st.list| == 256 && c.groupNo >= -1
    decreases |bs|
  {
    var c' := NextGroup(c);
    if c'.groupNo < 0 || c'.groupNo >= |sel| then Bad
    else
      var len := lens[sel[c'.groupNo]];
      SymbolInRange(TablesOf(len), TablesOf(len), len, MaxOf(len), bs);
      match ReadSymbol(TablesOf(len), bs)
      case Done(sym, rest) =>
        (match MF.Step(st, sym, alphaSize - 1, limit)
         case More(st') => GetSymbols(rest, lens, sel, Cursor(c'.groupNo, c'.groupPos - 1), st', alphaSize, limit)
         case Finished(out) => Done(out, rest)
         case Corrupt => Bad)
      case NeedInput => NeedInput
      case Bad => Bad
  }

  /** The decoder stands before symbol k. */
  ghost predicate At(c: Cursor, k: nat) {
    if k % 50 == 0 then c == Cursor(k / 50 - 1, 0) else c == Cursor(k / 50, 50 - k % 50)
  }

  lemma AtNext(c: Cursor, k: nat)
    requires At(c, k)
    ensures NextGroup(c).groupNo == k / 50 && NextGroup(c).groupPos > 0
    ensures At(Cursor(k / 50, NextGroup(c).groupPos - 1), k + 1)
    ensures c.groupNo >= -1
  {
  }

  /** One coded symbol is read back. */
  lemma ReadCoded(len: seq<int>, s: int, rest: seq<bool>)
    requires ValidLengths(len) && 0 <= s < |len| && KraftSum(len, |len|) <= Pow2(20)
    ensures ReadSymbol(TablesOf(len), CodeBits(len, s) + rest) == Done(s, rest)
  {
    SymbolRoundTrip(TablesOf(len), len, MaxOf(len), s, rest);
  }

  lemma CodesUnfold(syms: seq<int>, lens: seq<seq<int>>, sel: seq<int>, k: nat, alphaSize: nat)
    requires GoodTables(lens, alphaSize) && GoodSelectors(sel, |lens|, |syms|) && GoodSymbols(syms, alphaSize)
    requires k <= |syms|
    ensures k == |syms| ==> Codes(syms, lens, sel, k, alphaSize) == []
    ensures k < |syms| ==>
      && 0 <= k / 50 < |sel| && 0 <= sel[k / 50] < |lens| && 0 <= syms[k] < alphaSize
      && |lens[sel[k / 50]]| == alphaSize && ValidLengths(lens[sel[k / 50]])
      && KraftSum(lens[sel[k / 50]], alphaSize) <= Pow2(20)
      && Codes(syms, lens, sel, k, alphaSize) ==
        CodeBits(lens[sel[k / 50]], syms[k]) + Codes(syms, lens, sel, k + 1, alphaSize)
  {
    hide KraftSum, ValidLengths, CodeBits;
    if k < |syms| { GroupIndex(k, |sel|); }
  }

  ghost predicate Readable(lens: seq<seq<int>>, sel: seq<int>, alphaSize: nat) {
    && 3 <= alphaSize <= 258
    && (forall t :: 0 <= t < |lens| ==> |lens[t]| == alphaSize && ValidLengths(lens[t]))
    && (forall g :: 0 <= g < |sel| ==> 0 <= sel[g] < |lens|)
  }

  lemma GoodIsReadable(lens: seq<seq<int>>, sel: seq<int>, alphaSize: nat, nSyms: nat)
    requires GoodTables(lens, alphaSize) && GoodSelectors(sel, |lens|, nSyms)
    ensures Readable(lens, sel, alphaSize)
  {
  }

  lemma GetSymbolsStep(bs: seq<bool>, lens: seq<seq<int>>, sel: seq<int>, c: Cursor, st: MF.State, alphaSize: nat,
                       limit: nat,
                       sym: int, rest: seq<bool>)
    requires Readable(lens, sel, alphaSize) && |st.list| == 256 && c.groupNo >= -1 && 0 <= sym < alphaSize
    requires 0 <= NextGroup(c).groupNo < |sel| && NextGroup(c).groupPos > 0
    requires ReadSymbol(TablesOf(lens[sel[NextGroup(c).groupNo]]), bs) == Done(sym, rest)
    ensures GetSymbols(bs, lens, sel, c, st, alphaSize, limit) ==
            match MF.Step(st, sym, alphaSize - 1, limit)
            case More(st') => GetSymbols(rest, lens, sel, Cursor(NextGroup(c).groupNo, NextGroup(c).groupPos - 1), st',
              alphaSize, limit)
            case Finished(out) => Done(out, rest)
            case Corrupt => Bad
  {
    hide NextGroup, ReadSymbol, TablesOf, MF.Step;
  }

  lemma FeedUnfold(st: MF.State, syms: seq<int>, k: nat, eob: int, limit: nat)
    requires |st.list| == 256 && 2 <= eob <= 257 && (forall i :: 0 <= i < |syms| ==> 0 <= syms[i] <= eob) && k <= |syms|
    ensures k == |syms| ==> MF.Feed(st, syms[k..], eob, limit) == MF.More(st)
    ensures k < |syms| ==>
      match MF.Step(st, syms[k], eob, limit)
      case More(st') => MF.Feed(st, syms[k..], eob, limit) == MF.Feed(st', syms[k + 1..], eob, limit)
      case Finished(out) => MF.Feed(st, syms[k..], eob, limit) == MF.Finished(out)
      case Corrupt => MF.Feed(st, syms[k..], eob, limit) == MF.Corrupt
    ensures k < |syms| && MF.Step(st, syms[k], eob, limit).More? ==> |MF.Step(st, syms[k], eob, limit).st.list| == 256
    ensures k < |syms| && MF.Step(st, syms[k], eob, limit).Finished? ==> syms[k] == eob
  {
    if k < |syms| { assert syms[k..][0] == syms[k] && syms[k..][1..] == syms[k + 1..]; }
  }

  lemma GoodSymbolsAre(syms: seq<int>, lens: seq<seq<int>>, alphaSize: nat)
    requires GoodTables(lens, alphaSize) && GoodSymbols(syms, alphaSize)
    ensures 3 <= alphaSize <= 258 && forall i :: 0 <= i < |syms| ==> 0 <= syms[i] <= alphaSize - 1
  {
  }

  /** What the coded symbols do to the decoder is what the symbols themselves do. */
  lemma {:induction false} SymbolsRoundTrip(syms: seq<int>, lens: seq<seq<int>>, sel: seq<int>, k: nat, alphaSize: nat,
                                            c: Cursor, st: MF.State, limit: nat, rest: seq<bool>)
    requires GoodTables(lens, alphaSize) && GoodSelectors(sel, |lens|, |syms|) && GoodSymbols(syms, alphaSize)
    requires k <= |syms|
    requires At(c, k) && |st.list| == 256
    requires MF.Feed(st, syms[k..], alphaSize - 1, limit).Finished?
    requires forall i :: k <= i < |syms| - 1 ==> syms[i] != alphaSize - 1
    ensures c.groupNo >= -1 && Readable(lens, sel, alphaSize)
    ensures GetSymbols(Codes(syms, lens, sel, k, alphaSize) + rest, lens, sel, c, st, alphaSize, limit)
              == Done(MF.Feed(st, syms[k..], alphaSize - 1, limit).out, rest)
    decreases |syms| - k
  {
    hide *;
    GoodIsReadable(lens, sel, alphaSize, |syms|);
    GoodSymbolsAre(syms, lens, alphaSize);
    FeedUnfold(st, syms, k, alphaSize - 1, limit);
    AtNext(c, k);
    CodesUnfold(syms, lens, sel, k, alphaSize);
    var len := lens[sel[k / 50]];
    var more := Codes(syms, lens, sel, k + 1, alphaSize) + rest;
    assert Codes(syms, lens, sel, k, alphaSize) + rest == CodeBits(len, syms[k]) + more;
    ReadCoded(len, syms[k], more);
    GetSymbolsStep(CodeBits(len, syms[k]) + more, lens, sel, c, st, alphaSize, limit, syms[k], more);
    match MF.Step(st, syms[k], alphaSize - 1, limit)
    case More(st') =>
      SymbolsRoundTrip(syms, lens, sel, k + 1, alphaSize, Cursor(k / 50, NextGroup(c).groupPos - 1), st', limit, rest);
    case Finished(out) =>
      CodesUnfold(syms, lens, sel, k + 1, alphaSize);
      assert more == rest;
    case Corrupt =>
  }

  // ----- a whole block

  /** What the decoder learns from a block: checksum, randomisation bit, place of rotation 0
      and last column. */
  datatype BlockData = BlockData(crc: nat, randomised: bool, origPtr: nat, last: seq<int>)

  /** The tables and selectors an encoder may choose for a block of nSyms symbols. */
  ghost predicate GoodChoice(lens: seq<seq<int>>, sel: seq<int>, alphaSize: nat, nSyms: nat) {
    GoodTables(lens, alphaSize) && GoodSelectors(sel, |lens|, nSyms)
  }

  ghost predicate GoodBlock(crc: nat, origPtr: nat, last: seq<int>, inUse: seq<bool>, lens: seq<seq<int>>,
                            sel: seq<int>) {
    && crc < 0x1_0000_0000 && origPtr < |last| <= 900000 && ME.Covered(last, inUse)
    && GoodChoice(lens, sel, |ME.Used(inUse, 256)| + 2, |ME.BlockSymbols(last, inUse)|)
  }

  lemma MorePowers()
    ensures Pow2(1) == 2 && Pow2(8) == 256 && Pow2(24) == 0x100_0000 && Pow2(32) == 0x1_0000_0000
  {
    assert Pow2(8) == 256;
    assert Pow2(16) == 65536 by { Pow2Add(8, 8); }
    Pow2Add(16, 8);
    Pow2Add(16, 16);
  }

  lemma BlockSymbolsGood(last: seq<int>, inUse: seq<bool>, alphaSize: nat)
    requires ME.Covered(last, inUse) && last != [] && alphaSize == |ME.Used(inUse, 256)| + 2
    ensures 3 <= alphaSize <= 258
    ensures GoodSymbols(ME.BlockSymbols(last, inUse), alphaSize)
    ensures var syms := ME.BlockSymbols(last, inUse);
            forall i :: 0 <= i < |syms| - 1 ==> syms[i] != alphaSize - 1
  {
    hide ME.Used;
    ME.BlockSymbolsIs(last, inUse);
    MF.SymbolsBounded(ME.Ranks(last, inUse), MF.Identity(|ME.Used(inUse, 256)|), 0);
  }

  /** From the mapping table to the last symbol. */
  ghost function Payload(last: seq<int>, inUse: seq<bool>, lens: seq<seq<int>>, sel: seq<int>): (r: seq<bool>)
    requires ME.Covered(last, inUse) && last != []
    requires GoodChoice(lens, sel, |ME.Used(inUse, 256)| + 2, |ME.BlockSymbols(last, inUse)|)
  {
    var alphaSize := |ME.Used(inUse, 256)| + 2;
    BlockSymbolsGood(last, inUse, alphaSize);
    ChoiceEncodes(lens, sel, alphaSize, |ME.BlockSymbols(last, inUse)|);
    Mapping(inUse) + (Selectors(sel, |lens|) +
      (CodingTables(lens, 0) + Codes(ME.BlockSymbols(last, inUse), lens, sel, 0, alphaSize)))
  }

  lemma ChoiceEncodes(lens: seq<seq<int>>, sel: seq<int>, alphaSize: nat, nSyms: nat)
    requires GoodChoice(lens, sel, alphaSize, nSyms)
    ensures MF.AllIn(sel, MF.Identity(|lens|)) && 2 <= |lens| <= 6 && 1 <= |sel| < 32768
    ensures forall k :: 0 <= k < |lens| ==>
      |lens[k]| == alphaSize > 0 && 0 <= lens[k][0] < 32 && forall i :: 0 <= i < alphaSize ==> 1 <= lens[k][i] <= 20
  {
    forall g | 0 <= g < |sel| ensures sel[g] in MF.Identity(|lens|) {
      assert MF.Identity(|lens|)[sel[g]] == sel[g];
    }
    forall k | 0 <= k < |lens|
      ensures |lens[k]| == alphaSize > 0 && 0 <= lens[k][0] < 32
      ensures forall i :: 0 <= i < alphaSize ==> 1 <= lens[k][i] <= 20
    {
      assert ValidLengths(lens[k]);
    }
  }

  ghost function GetPayload(bs: seq<bool>, limit: nat): (r: Parse<seq<int>>)
    ensures r.Done? ==> |r.rest| <= |bs|
    ensures r.Done? ==> forall i :: 0 <= i < |r.value| ==> 0 <= r.value[i] < 256
  {
    match GetMapping(bs)
    case Done(inUse, rest) =>
      (if |inUse| != 256 || ME.Used(inUse, 256) == [] then Bad
       else
         var used := ME.Used(inUse, 256);
         ME.UsedBytes(inUse, 256);
         var alphaSize := |used| + 2;
         match GetSelectors(rest)
         case Done(p, rest') =>
           (match GetCodingTables(rest', p.0, alphaSize)
            case Done(lens, rest'') => GetData(rest'', lens, p.1, used, limit)
            case NeedInput => NeedInput
            case Bad => Bad)
         case NeedInput => NeedInput
         case Bad => Bad)
    case NeedInput => NeedInput
    case Bad => Bad
  }

  /** The symbols, then ranks renamed to bytes. */
  ghost function GetData(bs: seq<bool>, lens: seq<seq<int>>, sel: seq<int>, used: seq<int>,
                         limit: nat): (r: Parse<seq<int>>)
    ensures r.Done? ==> |r.rest| <= |bs|
    requires 1 <= |used| <= 256
    requires forall i :: 0 <= i < |used| ==> 0 <= used[i] < 256
    ensures r.Done? ==> forall i :: 0 <= i < |r.value| ==> 0 <= r.value[i] < 256
  {
    if !Readable(lens, sel, |used| + 2) then Bad
    else match GetSymbols(bs, lens, sel, Cursor(-1, 0), MF.State(MF.Identity(256), [], 0, 1), |used| + 2, limit)
      case Done(out, rest) => Done(Renamed(out, used), rest)
      case NeedInput => NeedInput
      case Bad => Bad
  }

  function Renamed(out: seq<int>, used: seq<int>): (r: seq<int>)
    ensures |r| == |out|
  {
    seq(|out|, i requires 0 <= i < |out| => if 0 <= out[i] < |used| then used[out[i]] else 0)
  }

  lemma DataRoundTrip(last: seq<int>, inUse: seq<bool>, lens: seq<seq<int>>, sel: seq<int>, limit: nat, rest: seq<bool>)
    requires ME.Covered(last, inUse) && 0 < |last| <= limit < 2 * 1024 * 1024
    requires GoodChoice(lens, sel, |ME.Used(inUse, 256)| + 2, |ME.BlockSymbols(last, inUse)|)
    requires GoodSymbols(ME.BlockSymbols(last, inUse), |ME.Used(inUse, 256)| + 2)
    ensures 1 <= |ME.Used(inUse, 256)| <= 256
    ensures forall i :: 0 <= i < |ME.Used(inUse, 256)| ==> 0 <= ME.Used(inUse, 256)[i] < 256
    ensures GetData(Codes(ME.BlockSymbols(last, inUse), lens, sel, 0, |ME.Used(inUse, 256)| + 2) + rest, lens, sel,
                    ME.Used(inUse, 256), limit) == Done(last, rest)
  {
    hide ME.Used, ME.BlockSymbols, ME.Ranks, Codes, GetSymbols, GoodSymbols, GoodTables, GoodSelectors, Readable,
         MF.Feed;
    var used, syms := ME.Used(inUse, 256), ME.BlockSymbols(last, inUse);
    var alphaSize := |used| + 2;
    BlockSymbolsGood(last, inUse, alphaSize);
    ME.UsedBytes(inUse, 256);
    ME.SymbolsInvert(last, inUse, limit);
    assert syms[0..] == syms;
    var st := MF.State(MF.Identity(256), [], 0, 1);
    SymbolsRoundTrip(syms, lens, sel, 0, alphaSize, Cursor(-1, 0), st, limit, rest);
    assert Renamed(ME.Ranks(last, inUse), used) == last;
  }

  lemma PayloadRoundTrip(last: seq<int>, inUse: seq<bool>, lens: seq<seq<int>>, sel: seq<int>, limit: nat,
                         rest: seq<bool>)
    requires ME.Covered(last, inUse) && 0 < |last| <= limit < 2 * 1024 * 1024
    requires GoodChoice(lens, sel, |ME.Used(inUse, 256)| + 2, |ME.BlockSymbols(last, inUse)|)
    ensures GetPayload(Payload(last, inUse, lens, sel) + rest, limit) == Done(last, rest)
  {
    hide ME.Used, ME.BlockSymbols, Codes, GetMapping, GetSelectors, GetCodingTables, GetData, Mapping, Selectors,
         CodingTables,
         GoodSymbols, GoodTables, GoodSelectors, GoodChoice;
    var used, syms := ME.Used(inUse, 256), ME.BlockSymbols(last, inUse);
    var alphaSize := |used| + 2;
    BlockSymbolsGood(last, inUse, alphaSize);
    ChoiceEncodes(lens, sel, alphaSize, |syms|);
    GoodChoiceIs(lens, sel, alphaSize, |syms|);
    var d := Codes(syms, lens, sel, 0, alphaSize) + rest;
    var c := CodingTables(lens, 0) + d;
    var b := Selectors(sel, |lens|) + c;
    assert Payload(last, inUse, lens, sel) + rest == Mapping(inUse) + b;
    MappingRoundTrip(inUse, b);
    SelectorsRoundTrip(sel, |lens|, c);
    CodingTablesRoundTrip(lens, 0, alphaSize, d);
    assert lens[0..] == lens;
    DataRoundTrip(last, inUse, lens, sel, limit, rest);
  }

  lemma GoodChoiceIs(lens: seq<seq<int>>, sel: seq<int>, alphaSize: nat, nSyms: nat)
    requires GoodChoice(lens, sel, alphaSize, nSyms)
    ensures GoodTables(lens, alphaSize) && GoodSelectors(sel, |lens|, nSyms)
  {
  }

  /** A block after its 48-bit magic number. */
  ghost function BlockBits(crc: nat, origPtr: nat, last: seq<int>, inUse: seq<bool>, lens: seq<seq<int>>,
                           sel: seq<int>): (r: seq<bool>)
    requires GoodBlock(crc, origPtr, last, inUse, lens, sel)
  {
    MorePowers();
    ToBits(32, crc) + (ToBits(1, 0) + (ToBits(24, origPtr) + Payload(last, inUse, lens, sel)))
  }

  ghost function GetBlock(bs: seq<bool>, blockSize100k: nat): (r: Parse<BlockData>)
    ensures r.Done? ==> |r.rest| <= |bs|
    ensures r.Done? ==> r.value.origPtr < |r.value.last| && forall i :: 0 <= i < |r.value.last| ==>
      0 <= r.value.last[i] < 256
  {
    match GetBits(bs, 32)
    case Done(crc, rest) =>
      (match GetBits(rest, 1)
       case Done(rnd, rest') =>
         (match GetBits(rest', 24)
          case Done(origPtr, rest'') =>
            (if origPtr > 10 + 100000 * blockSize100k then Bad
             else match GetPayload(rest'', 100000 * blockSize100k)
               case Done(last, rest3) =>
                 (if origPtr >= |last| then Bad else Done(BlockData(crc, rnd == 1, origPtr, last), rest3))
               case NeedInput => NeedInput
               case Bad => Bad)
          case NeedInput => NeedInput
          case Bad => Bad)
       case NeedInput => NeedInput
       case Bad => Bad)
    case NeedInput => NeedInput
    case Bad => Bad
  }

  /** A block written with any choice of valid tables and selectors is read back exactly. */
  lemma BlockRoundTrip(crc: nat, origPtr: nat, last: seq<int>, inUse: seq<bool>, lens: seq<seq<int>>, sel: seq<int>,
                       blockSize100k: nat, rest: seq<bool>)
    requires GoodBlock(crc, origPtr, last, inUse, lens, sel) && |last| <= 100000 * blockSize100k <= 900000
    ensures GetBlock(BlockBits(crc, origPtr, last, inUse, lens, sel) + rest, blockSize100k) ==
            Done(BlockData(crc, false, origPtr, last), rest)
  {
    hide Payload, GetPayload, ToBits, GetBits, Pow2, GoodChoice;
    MorePowers();
    var d := Payload(last, inUse, lens, sel) + rest;
    var c := ToBits(24, origPtr) + d;
    var b := ToBits(1, 0) + c;
    assert BlockBits(crc, origPtr, last, inUse, lens, sel) + rest == ToBits(32, crc) + b;
    GetPut(32, crc, b);
    GetPut(1, 0, c);
    GetPut(24, origPtr, d);
    PayloadRoundTrip(last, inUse, lens, sel, 100000 * blockSize100k, rest);
  }
}
