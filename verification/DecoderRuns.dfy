/** Running the resumable machine over a whole block, or over the trailer, gives what parsing in
    one go gives. */
module DecoderRuns {
  import opened Powers
  import opened BitStrings
  import opened HuffmanCodes
  import opened BlockFormat
  import opened StreamFormat
  import opened DecoderSteps
  import opened BitWriter
  import MF = MoveToFront
  import ME = MtfEncoder

  /** A move made outside the symbols: on entering them the list is set up. */
  ghost function RunHead(m: Move, st: MF.State, bs: seq<bool>): (r: Parse<Event>)
    requires MoveOk(m) && StOk(st)
  {
    RunMove(Moved(m, if m.Go? && m.p.Mtf? then FreshState() else st), bs)
  }

  lemma RunPlace(p: Parser, st: MF.State, bs: seq<bool>)
    requires Ok(p) && !p.Mtf? && StOk(st)
    ensures var r := GetBits(bs, Need(p));
            if r.Done? then MoveOk(NextHead(p, r.value)) && Run(p, st, bs) == RunHead(NextHead(p, r.value), st, r.rest)
            else r.NeedInput? && Run(p, st, bs) == NeedInput
  {
    hide Ok, NextHead, GetBits;
    GetBitsIs(bs, Need(p));
    var r := GetBits(bs, Need(p));
    if r.Done? { NextHeadOk(p, r.value); NextIs(p, st, r.value); }
  }

  lemma NextIs(p: Parser, st: MF.State, v: nat)
    requires Ok(p) && !p.Mtf? && StOk(st)
    ensures DecoderSteps.Next(p, st, v) ==
      Moved(NextHead(p, v), if NextHead(p, v).Go? && NextHead(p, v).p.Mtf? then FreshState() else st)
  {
    hide Settle;
  }

  lemma GetBitsIs(bs: seq<bool>, n: nat)
    ensures GetBits(bs, n) == if |bs| < n then NeedInput else Done(FromBits(bs[..n]), bs[n..])
  {
  }

  /** The machine at a place that reads one bit. */
  lemma RunBit(p: Parser, st: MF.State, bs: seq<bool>)
    requires Ok(p) && !p.Mtf? && StOk(st) && Need(p) == 1
    ensures bs == [] ==> Run(p, st, bs) == NeedInput
    ensures bs != [] ==>
      Bit(bs[0]) >= 0 && MoveOk(NextHead(p, Bit(bs[0])))
        && Run(p, st, bs) == RunHead(NextHead(p, Bit(bs[0])), st, bs[1..])
  {
    hide Ok, NextHead, RunHead, Run;
    RunPlace(p, st, bs);
    GetBitsIs(bs, 1);
    if bs != [] { OneBit(bs); }
  }

  /** A part that cannot be read, or not yet. */
  function Failed<T>(r: Parse<T>): (e: Parse<Event>) {
    if r.NeedInput? then NeedInput else Bad
  }

  // ----- coding tables

  ghost predicate InTable(plan: Plan, lens: seq<seq<int>>, len: seq<int>) {
    LensOk(plan, lens) && |lens| < plan.nGroups && LenOk(len) && |len| < AlphaSize(plan.inUse)
  }

  lemma {:induction false} RunLength(plan: Plan, lens: seq<seq<int>>, curr: int, len: seq<int>, st: MF.State,
                                     bs: seq<bool>)
    requires InTable(plan, lens, len) && StOk(st)
    ensures |plan.inUse| == 256 && MoveOk(CheckLength(plan, lens, curr, len))
    ensures var r := GetLength(bs, curr);
            if r.Done? then
              && MoveOk(EnterLength(plan, lens, r.value, len + [r.value]))
              && RunHead(CheckLength(plan, lens, curr, len), st, bs) ==
                RunHead(EnterLength(plan, lens, r.value, len + [r.value]), st, r.rest)
            else RunHead(CheckLength(plan, lens, curr, len), st, bs) == Failed(r)
    decreases |bs|
  {
    hide LensOk, EnterLength, Run, AlphaSize;
    InTableIs(plan, lens, len, curr);
    if 1 <= curr <= 20 {
      var p := Coding2(plan, lens, curr, len);
      RunBit(p, st, bs);
      if bs != [] && bs[0] {
        var q := Coding3(plan, lens, curr, len);
        RunBit(q, st, bs[1..]);
        if |bs| > 1 {
          assert bs[1..][1..] == bs[2..];
          RunLength(plan, lens, if !bs[1] then curr + 1 else curr - 1, len, st, bs[2..]);
        }
      }
    }
  }

  lemma InTableIs(plan: Plan, lens: seq<seq<int>>, len: seq<int>, curr: int)
    requires InTable(plan, lens, len)
    ensures |plan.inUse| == 256
    ensures 1 <= curr <= 20 ==> Ok(Coding2(plan, lens, curr, len)) && Ok(Coding3(plan, lens, curr, len))
    ensures MoveOk(CheckLength(plan, lens, curr, len))
    ensures 1 <= curr <= 20 ==> MoveOk(EnterLength(plan, lens, curr, len + [curr]))
  {
    if 1 <= curr <= 20 { EnterLengthOk(plan, lens, curr, len + [curr]); }
  }

  ghost predicate BeforeLength(plan: Plan, lens: seq<seq<int>>, len: seq<int>) {
    LensOk(plan, lens) && |lens| < plan.nGroups && LenOk(len) && |len| <= AlphaSize(plan.inUse)
  }

  lemma {:induction false} RunLengths(plan: Plan, lens: seq<seq<int>>, curr: int, len: seq<int>, st: MF.State,
                                      bs: seq<bool>)
    requires BeforeLength(plan, lens, len) && StOk(st)
    ensures |plan.inUse| == 256 && |len| <= AlphaSize(plan.inUse) && MoveOk(EnterLength(plan, lens, curr, len))
    ensures var r := GetLengths(bs, AlphaSize(plan.inUse) - |len|, curr);
            if r.Done? then
              && LensOk(plan, lens + [len + r.value]) && MoveOk(EnterTable(plan, lens + [len + r.value]))
              && RunHead(EnterLength(plan, lens, curr, len), st, bs) ==
                RunHead(EnterTable(plan, lens + [len + r.value]), st, r.rest)
            else RunHead(EnterLength(plan, lens, curr, len), st, bs) == Failed(r)
    decreases AlphaSize(plan.inUse) - |len|
  {
    hide LensOk, LenOk, AlphaSize, RunHead, EnterTable, GetLength, CheckLength;
    BeforeLengthIs(plan, lens, curr, len);
    var n := AlphaSize(plan.inUse) - |len|;
    if n == 0 {
      assert len + [] == len;
    } else {
      RunLength(plan, lens, curr, len, st, bs);
      var one := GetLength(bs, curr);
      if one.Done? {
        BeforeMore(plan, lens, len, one.value);
        RunLengths(plan, lens, one.value, len + [one.value], st, one.rest);
        var more := GetLengths(one.rest, n - 1, one.value);
        if more.Done? { assert len + [one.value] + more.value == len + ([one.value] + more.value); }
      }
    }
  }

  lemma BeforeLengthIs(plan: Plan, lens: seq<seq<int>>, curr: int, len: seq<int>)
    requires BeforeLength(plan, lens, len)
    ensures |plan.inUse| == 256 && |len| <= AlphaSize(plan.inUse) && MoveOk(EnterLength(plan, lens, curr, len))
    ensures |len| < AlphaSize(plan.inUse) ==> InTable(plan, lens, len)
    ensures |len| == AlphaSize(plan.inUse) ==> LensOk(plan, lens + [len]) && MoveOk(EnterTable(plan, lens + [len]))
  {
    EnterLengthOk(plan, lens, curr, len);
    if |len| == AlphaSize(plan.inUse) { EnterTableOk(plan, lens + [len]); }
  }

  lemma BeforeMore(plan: Plan, lens: seq<seq<int>>, len: seq<int>, l: int)
    requires InTable(plan, lens, len) && 1 <= l <= 20
    ensures BeforeLength(plan, lens, len + [l])
  {
  }

  lemma RunTable(plan: Plan, lens: seq<seq<int>>, st: MF.State, bs: seq<bool>)
    requires LensOk(plan, lens) && |lens| < plan.nGroups && StOk(st)
    ensures |plan.inUse| == 256 && MoveOk(EnterTable(plan, lens))
    ensures var r := GetCodingTable(bs, AlphaSize(plan.inUse));
            if r.Done? then
              && LensOk(plan, lens + [r.value]) && MoveOk(EnterTable(plan, lens + [r.value]))
              && RunHead(EnterTable(plan, lens), st, bs) == RunHead(EnterTable(plan, lens + [r.value]), st, r.rest)
            else RunHead(EnterTable(plan, lens), st, bs) == Failed(r)
  {
    hide LensOk, AlphaSize, EnterLength, GetLengths, Run, GetBits;
    BeforeTable(plan, lens);
    EnterTableOk(plan, lens);
    var p := Coding1(plan, lens);
    RunPlace(p, st, bs);
    var curr := GetBits(bs, 5);
    if curr.Done? {
      RunLengths(plan, lens, curr.value, [], st, curr.rest);
      var r := GetLengths(curr.rest, AlphaSize(plan.inUse), curr.value);
      if r.Done? { assert [] + r.value == r.value; }
    }
  }

  lemma BeforeTable(plan: Plan, lens: seq<seq<int>>)
    requires LensOk(plan, lens) && |lens| < plan.nGroups
    ensures |plan.inUse| == 256 && BeforeLength(plan, lens, []) && Ok(Coding1(plan, lens))
  {
  }

  lemma {:induction false} RunTables(plan: Plan, lens: seq<seq<int>>, st: MF.State, bs: seq<bool>)
    requires LensOk(plan, lens) && StOk(st)
    ensures |plan.inUse| == 256 && |lens| <= plan.nGroups && MoveOk(EnterTable(plan, lens))
    ensures var r := GetCodingTables(bs, plan.nGroups - |lens|, AlphaSize(plan.inUse));
            if r.Done? then
              && LensOk(plan, lens + r.value) && |lens + r.value| == plan.nGroups
              && MoveOk(EnterSymbol(plan, lens + r.value, Cursor(-1, 0)))
              && RunHead(EnterTable(plan, lens), st, bs) ==
                RunHead(EnterSymbol(plan, lens + r.value, Cursor(-1, 0)), st, r.rest)
            else RunHead(EnterTable(plan, lens), st, bs) == Failed(r)
    decreases plan.nGroups - |lens|
  {
    hide LensOk, AlphaSize, RunHead, GetCodingTable, EnterSymbol;
    LensOkIs(plan, lens);
    var n := plan.nGroups - |lens|;
    if n == 0 {
      assert lens + [] == lens;
      EnterSymbolOk(plan, lens, Cursor(-1, 0));
    } else {
      RunTable(plan, lens, st, bs);
      var one := GetCodingTable(bs, AlphaSize(plan.inUse));
      if one.Done? {
        RunTables(plan, lens + [one.value], st, one.rest);
        var more := GetCodingTables(one.rest, n - 1, AlphaSize(plan.inUse));
        if more.Done? { assert lens + [one.value] + more.value == lens + ([one.value] + more.value); }
      }
    }
  }

  lemma LensOkIs(plan: Plan, lens: seq<seq<int>>)
    requires LensOk(plan, lens)
    ensures |plan.inUse| == 256 && |lens| <= plan.nGroups && MoveOk(EnterTable(plan, lens))
  {
    EnterTableOk(plan, lens);
  }

  /** From the coding tables to the end of the block. */
  lemma RunData(plan: Plan, st: MF.State, bs: seq<bool>)
    requires LensOk(plan, []) && StOk(st)
    ensures |plan.inUse| == 256 && MoveOk(EnterTable(plan, [])) && 1 <= |ME.Used(plan.inUse, 256)| <= 256
    ensures forall i :: 0 <= i < |ME.Used(plan.inUse, 256)| ==> 0 <= ME.Used(plan.inUse, 256)[i] < 256
    ensures var r := GetCodingTables(bs, plan.nGroups, AlphaSize(plan.inUse));
            RunHead(EnterTable(plan, []), st, bs) ==
            if r.Done? then
              BlockEvent(plan, GetData(r.rest, r.value, plan.sel, ME.Used(plan.inUse, 256), 100000 * plan.head.level))
            else Failed(r)
  {
    hide LensOk, GetCodingTables, GetSymbols, Run, Renamed;
    RunTables(plan, [], st, bs);
    LensOkUsed(plan);
    var r := GetCodingTables(bs, plan.nGroups, AlphaSize(plan.inUse));
    if r.Done? {
      assert [] + r.value == r.value;
      RunSymbols(plan, r.value, Cursor(-1, 0), FreshState(), r.rest);
      FirstSymbol(plan, r.value, st, r.rest);
    }
  }

  lemma LensOkUsed(plan: Plan)
    requires LensOk(plan, [])
    ensures |plan.inUse| == 256 && 1 <= |ME.Used(plan.inUse, 256)| <= 256
    ensures forall i :: 0 <= i < |ME.Used(plan.inUse, 256)| ==> 0 <= ME.Used(plan.inUse, 256)[i] < 256
  {
    ME.UsedBytes(plan.inUse, 256);
  }

  lemma FirstSymbol(plan: Plan, lens: seq<seq<int>>, st: MF.State, bs: seq<bool>)
    requires MoveOk(EnterSymbol(plan, lens, Cursor(-1, 0))) && StOk(st)
    ensures RunHead(EnterSymbol(plan, lens, Cursor(-1, 0)), st, bs) ==
      RunMove(Moved(EnterSymbol(plan, lens, Cursor(-1, 0)), FreshState()), bs)
  {
    hide LensOk, Run;
  }

  // ----- selectors

  ghost predicate Choosing(inUse: seq<bool>, nGroups: nat, nSelectors: nat, places: seq<nat>) {
    && |inUse| == 256 && ME.Used(inUse, 256) != [] && 2 <= nGroups <= 6 && |places| <= nSelectors && nSelectors > 0
    && forall i :: 0 <= i < |places| ==> places[i] < nGroups
  }

  lemma ChoosingIs(head: Head, inUse: seq<bool>, nGroups: nat, nSelectors: nat, places: seq<nat>, j: nat)
    requires Choosing(inUse, nGroups, nSelectors, places) && j < nGroups
    ensures |inUse| == 256 && nGroups > 0 && forall i :: 0 <= i < |places| ==> places[i] < nGroups
    ensures MoveOk(EnterSelector(head, inUse, nGroups, nSelectors, places))
    ensures |places| < nSelectors ==> Ok(Selector3(head, inUse, nGroups, nSelectors, places, j))
    ensures |places| < nSelectors ==> Choosing(inUse, nGroups, nSelectors, places + [j])
    ensures |places| == nSelectors ==> LensOk(Plan(head, inUse, nGroups, SelectorsOf(places, MF.Identity(nGroups))), [])
  {
    EnterSelectorOk(head, inUse, nGroups, nSelectors, places);
  }

  lemma {:induction false} RunUnary(head: Head, inUse: seq<bool>, nGroups: nat, nSelectors: nat, places: seq<nat>,
                                    j: nat,
                                    st: MF.State, bs: seq<bool>)
    requires Choosing(inUse, nGroups, nSelectors, places) && |places| < nSelectors && j < nGroups && StOk(st)
    ensures Ok(Selector3(head, inUse, nGroups, nSelectors, places, j)) && nGroups > 0
    ensures var r := GetUnary(bs, j, nGroups);
            if r.Done? then
              && Choosing(inUse, nGroups, nSelectors, places + [r.value])
              && MoveOk(EnterSelector(head, inUse, nGroups, nSelectors, places + [r.value]))
              && Run(Selector3(head, inUse, nGroups, nSelectors, places, j), st, bs)
                 == RunHead(EnterSelector(head, inUse, nGroups, nSelectors, places + [r.value]), st, r.rest)
            else Run(Selector3(head, inUse, nGroups, nSelectors, places, j), st, bs) == Failed(r)
    decreases |bs|
  {
    hide Choosing, EnterSelector, Run;
    ChoosingIs(head, inUse, nGroups, nSelectors, places, j);
    var p := Selector3(head, inUse, nGroups, nSelectors, places, j);
    RunBit(p, st, bs);
    if bs != [] {
      if !bs[0] {
        ChoosingIs(head, inUse, nGroups, nSelectors, places + [j], 0);
      } else if j + 1 < nGroups {
        RunUnary(head, inUse, nGroups, nSelectors, places, j + 1, st, bs[1..]);
      }
    }
  }

  lemma {:induction false} RunUnaries(head: Head, inUse: seq<bool>, nGroups: nat, nSelectors: nat, places: seq<nat>,
                                      st: MF.State, bs: seq<bool>)
    requires Choosing(inUse, nGroups, nSelectors, places) && StOk(st)
    ensures nGroups > 0 && |places| <= nSelectors && MoveOk(EnterSelector(head, inUse, nGroups, nSelectors, places))
    ensures var r := GetUnaries(bs, nSelectors - |places|, nGroups);
            if r.Done? then
              && (forall i :: 0 <= i < |places + r.value| ==> (places + r.value)[i] < nGroups)
              && var plan := Plan(head, inUse, nGroups, SelectorsOf(places + r.value, MF.Identity(nGroups)));
              && LensOk(plan, []) && MoveOk(EnterTable(plan, []))
              && RunHead(EnterSelector(head, inUse, nGroups, nSelectors, places), st, bs) ==
                RunHead(EnterTable(plan, []), st, r.rest)
            else RunHead(EnterSelector(head, inUse, nGroups, nSelectors, places), st, bs) == Failed(r)
    decreases nSelectors - |places|
  {
    hide Choosing, GetUnary, Run, SelectorsOf, LensOk, EnterTable;
    ChoosingSome(inUse, nGroups, nSelectors, places);
    ChoosingIs(head, inUse, nGroups, nSelectors, places, 0);
    var n := nSelectors - |places|;
    if n == 0 {
      assert places + [] == places;
      EnterTableOk(Plan(head, inUse, nGroups, SelectorsOf(places, MF.Identity(nGroups))), []);
    } else {
      RunUnary(head, inUse, nGroups, nSelectors, places, 0, st, bs);
      EnterOne(head, inUse, nGroups, nSelectors, places, st, bs);
      var one := GetUnary(bs, 0, nGroups);
      if one.Done? {
        RunUnaries(head, inUse, nGroups, nSelectors, places + [one.value], st, one.rest);
        var more := GetUnaries(one.rest, n - 1, nGroups);
        if more.Done? { assert places + [one.value] + more.value == places + ([one.value] + more.value); }
      }
    }
  }

  lemma ChoosingSome(inUse: seq<bool>, nGroups: nat, nSelectors: nat, places: seq<nat>)
    requires Choosing(inUse, nGroups, nSelectors, places)
    ensures nGroups > 0 && |places| <= nSelectors
  {
  }

  lemma EnterOne(head: Head, inUse: seq<bool>, nGroups: nat, nSelectors: nat, places: seq<nat>, st: MF.State,
                 bs: seq<bool>)
    requires Choosing(inUse, nGroups, nSelectors, places) && |places| < nSelectors && StOk(st)
    requires Ok(Selector3(head, inUse, nGroups, nSelectors, places, 0))
    requires MoveOk(EnterSelector(head, inUse, nGroups, nSelectors, places))
    ensures RunHead(EnterSelector(head, inUse, nGroups, nSelectors, places), st, bs)
            == Run(Selector3(head, inUse, nGroups, nSelectors, places, 0), st, bs)
  {
    hide Run;
  }

  ghost predicate InUseOk(inUse: seq<bool>) {
    |inUse| == 256 && ME.Used(inUse, 256) != []
  }

  lemma InUseIs(head: Head, inUse: seq<bool>, nGroups: nat, nSelectors: nat)
    requires InUseOk(inUse)
    ensures |inUse| == 256 && Ok(Selector1(head, inUse))
    ensures 2 <= nGroups <= 6 ==> Ok(Selector2(head, inUse, nGroups))
    ensures 2 <= nGroups <= 6 && nSelectors > 0 ==> Choosing(inUse, nGroups, nSelectors, [])
  {
  }

  /** What a block's data is, after its mapping table. */
  ghost function RestOfBlock(head: Head, inUse: seq<bool>, bs: seq<bool>): (r: Parse<Event>)
    requires InUseOk(inUse)
  {
    var r := GetSelectors(bs);
    if !r.Done? then Failed(r)
    else
      UsedIs(inUse);
      var plan := Plan(head, inUse, r.value.0, r.value.1);
      var tables := GetCodingTables(r.rest, plan.nGroups, AlphaSize(inUse));
      if tables.Done? then
        BlockEvent(plan, GetData(tables.rest, tables.value, plan.sel, ME.Used(inUse, 256), 100000 * head.level))
      else Failed(tables)
  }

  lemma UsedIs(inUse: seq<bool>)
    requires InUseOk(inUse)
    ensures |inUse| == 256 && 1 <= |ME.Used(inUse, 256)| <= 256
    ensures forall i :: 0 <= i < |ME.Used(inUse, 256)| ==> 0 <= ME.Used(inUse, 256)[i] < 256
  {
    ME.UsedBytes(inUse, 256);
  }

  lemma RunCount(head: Head, inUse: seq<bool>, nGroups: nat, st: MF.State, bs: seq<bool>)
    requires InUseOk(inUse) && StOk(st) && 2 <= nGroups <= 6
    ensures Ok(Selector2(head, inUse, nGroups)) && nGroups > 0
    ensures var n := GetBits(bs, 15);
            if !n.Done? then n.NeedInput? && Run(Selector2(head, inUse, nGroups), st, bs) == NeedInput
            else if n.value < 1 then Run(Selector2(head, inUse, nGroups), st, bs) == Bad
            else
              var r := GetUnaries(n.rest, n.value, nGroups);
              if r.Done? then
                && var plan := Plan(head, inUse, nGroups, SelectorsOf(r.value, MF.Identity(nGroups)));
                && LensOk(plan, []) && MoveOk(EnterTable(plan, []))
                && Run(Selector2(head, inUse, nGroups), st, bs) == RunHead(EnterTable(plan, []), st, r.rest)
              else Run(Selector2(head, inUse, nGroups), st, bs) == Failed(r)
  {
    hide InUseOk, Run, RunHead, GetUnaries, GetBits, EnterSelector, EnterTable, LensOk, SelectorsOf, Choosing;
    InUseIs(head, inUse, nGroups, 1);
    RunPlace(Selector2(head, inUse, nGroups), st, bs);
    var n := GetBits(bs, 15);
    if n.Done? {
      if n.value < 1 {
        RunFail(st, n.rest);
      } else {
        InUseIs(head, inUse, nGroups, n.value);
        RunUnaries(head, inUse, nGroups, n.value, [], st, n.rest);
        var places := GetUnaries(n.rest, n.value, nGroups);
        if places.Done? { assert [] + places.value == places.value; }
      }
    }
  }

  lemma RunChoice(head: Head, inUse: seq<bool>, st: MF.State, bs: seq<bool>)
    requires InUseOk(inUse) && StOk(st)
    ensures Ok(Selector1(head, inUse))
    ensures var r := GetSelectors(bs);
            if r.Done? then
              && var plan := Plan(head, inUse, r.value.0, r.value.1);
              && LensOk(plan, []) && MoveOk(EnterTable(plan, []))
              && Run(Selector1(head, inUse), st, bs) == RunHead(EnterTable(plan, []), st, r.rest)
            else Run(Selector1(head, inUse), st, bs) == Failed(r)
  {
    hide InUseOk, Run, RunHead, GetUnaries, GetBits, EnterSelector, EnterTable, LensOk, SelectorsOf, Choosing;
    InUseIs(head, inUse, 2, 1);
    RunPlace(Selector1(head, inUse), st, bs);
    GetBitsIs(bs, 3);
    var g := GetBits(bs, 3);
    if g.Done? {
      if 2 <= g.value <= 6 {
        InUseIs(head, inUse, g.value, 1);
        RunGo(Selector2(head, inUse, g.value), st, g.rest);
        RunCount(head, inUse, g.value, st, g.rest);
        GetBitsIs(g.rest, 15);
      } else {
        RunFail(st, g.rest);
      }
    }
  }

  lemma RunGo(p: Parser, st: MF.State, bs: seq<bool>)
    requires Ok(p) && !p.Mtf? && StOk(st)
    ensures MoveOk(Go(p)) && RunHead(Go(p), st, bs) == Run(p, st, bs)
  {
    hide Run, Ok;
  }

  lemma RunFail(st: MF.State, bs: seq<bool>)
    requires StOk(st)
    ensures MoveOk(Fail) && RunHead(Fail, st, bs) == Bad
  {
  }

  lemma RunSelectors(head: Head, inUse: seq<bool>, st: MF.State, bs: seq<bool>)
    requires InUseOk(inUse) && StOk(st)
    ensures Ok(Selector1(head, inUse))
    ensures Run(Selector1(head, inUse), st, bs) == RestOfBlock(head, inUse, bs)
  {
    hide InUseOk, Run, RunHead, GetSelectors, EnterTable, LensOk, GetCodingTables, GetData;
    RunChoice(head, inUse, st, bs);
    var r := GetSelectors(bs);
    if r.Done? { RunData(Plan(head, inUse, r.value.0, r.value.1), st, r.rest); }
  }

  // ----- mapping table

  lemma {:induction false} RunRowBits(head: Head, rows: seq<bool>, inUse: seq<bool>, st: MF.State, bs: seq<bool>)
    requires |rows| == 16 && |inUse| < 256 && rows[|inUse| / 16] && StOk(st)
    ensures Ok(Mapping2(head, rows, inUse))
    ensures var r := GetFlags(bs, 16 - |inUse| % 16);
            if r.Done? then
              && |inUse + r.value| <= 256 && |inUse + r.value| % 16 == 0
              && MoveOk(EnterRow(head, rows, inUse + r.value))
              && Run(Mapping2(head, rows, inUse), st, bs) == RunHead(EnterRow(head, rows, inUse + r.value), st, r.rest)
            else r.NeedInput? && Run(Mapping2(head, rows, inUse), st, bs) == NeedInput
    decreases 16 - |inUse| % 16
  {
    hide Run, RunHead, EnterRow, GetFlags;
    RunBit(Mapping2(head, rows, inUse), st, bs);
    NoFlags(bs, 16 - |inUse| % 16);
    if bs != [] {
      var more := inUse + [Bit(bs[0]) == 1];
      NextOfRow(|inUse|);
      if |inUse| % 16 < 15 {
        RunGo(Mapping2(head, rows, more), st, bs[1..]);
        RunRowBits(head, rows, more, st, bs[1..]);
        FlagsSplit(bs, 16 - |inUse| % 16);
        var r := GetFlags(bs[1..], 15 - |inUse| % 16);
        if r.Done? { assert more + r.value == inUse + ([bs[0]] + r.value); }
      } else {
        OneFlag(bs);
        EnterRowOk(head, rows, more);
      }
    }
  }

  lemma NoFlags(bs: seq<bool>, n: nat)
    requires n > 0
    ensures bs == [] ==> GetFlags(bs, n) == NeedInput
  {
  }

  lemma OneFlag(bs: seq<bool>)
    requires bs != []
    ensures GetFlags(bs, 1) == Done([bs[0]], bs[1..])
  {
    assert bs[..1] == [bs[0]];
  }

  lemma NextOfRow(k: nat)
    requires k < 256
    ensures k % 16 < 15 ==> (k + 1) / 16 == k / 16 && (k + 1) % 16 == k % 16 + 1 && k + 1 < 256
    ensures k % 16 == 15 ==> (k + 1) % 16 == 0
  {
  }

  lemma FlagsSplit(bs: seq<bool>, n: nat)
    requires n >= 1 && bs != []
    ensures var r, s := GetFlags(bs, n), GetFlags(bs[1..], n - 1);
            if s.Done? then r == Done([bs[0]] + s.value, s.rest) else r.NeedInput? && s.NeedInput?
  {
    if |bs| >= n {
      assert bs[..n] == [bs[0]] + bs[1..][..n - 1];
      assert bs[n..] == bs[1..][n - 1..];
    }
  }

  lemma {:induction false} RunRows(head: Head, rows: seq<bool>, i: nat, inUse: seq<bool>, st: MF.State, bs: seq<bool>)
    requires |rows| == 16 && i <= 16 && |inUse| == 16 * i && StOk(st)
    ensures MoveOk(EnterRow(head, rows, inUse))
    ensures var r := GetRows(bs, rows, i);
            if r.Done? then
              && |inUse + r.value| == 256 && MoveOk(EnterSelectors(head, inUse + r.value))
              && RunHead(EnterRow(head, rows, inUse), st, bs) ==
                RunHead(EnterSelectors(head, inUse + r.value), st, r.rest)
            else RunHead(EnterRow(head, rows, inUse), st, bs) == Failed(r)
    decreases 16 - i
  {
    hide Run, RunHead, EnterSelectors, GetFlags, EnterRow, GetRows;
    EnterRowOk(head, rows, inUse);
    EnterRowUnfold(head, rows, i, inUse);
    GetRowsUnfold(bs, rows, i);
    if i == 16 {
      assert inUse + [] == inUse;
    } else if rows[i] {
      RunRowBits(head, rows, inUse, st, bs);
      RunGo(Mapping2(head, rows, inUse), st, bs);
      FlagsAre(bs, 16);
      var row := GetFlags(bs, 16);
      if row.Done? {
        RunRows(head, rows, i + 1, inUse + row.value, st, row.rest);
        var more := GetRows(row.rest, rows, i + 1);
        if more.Done? { assert inUse + row.value + more.value == inUse + (row.value + more.value); }
      }
    } else {
      var none := seq(16, _ => false);
      RunRows(head, rows, i + 1, inUse + none, st, bs);
      var more := GetRows(bs, rows, i + 1);
      if more.Done? { assert inUse + none + more.value == inUse + (none + more.value); }
    }
  }

  lemma EnterRowUnfold(head: Head, rows: seq<bool>, i: nat, inUse: seq<bool>)
    requires |rows| == 16 && i <= 16 && |inUse| == 16 * i
    ensures EnterRow(head, rows, inUse) ==
            if i == 16 then EnterSelectors(head, inUse)
            else if rows[i] then Go(Mapping2(head, rows, inUse))
            else EnterRow(head, rows, inUse + seq(16, _ => false))
  {
    hide EnterSelectors;
  }

  lemma FlagsAre(bs: seq<bool>, n: nat)
    ensures var r := GetFlags(bs, n); if r.Done? then |r.value| == n else r.NeedInput?
  {
  }

  lemma {:induction false} RunRowFlags(head: Head, rows: seq<bool>, st: MF.State, bs: seq<bool>)
    requires |rows| < 16 && StOk(st)
    ensures Ok(Mapping1(head, rows))
    ensures var r := GetFlags(bs, 16 - |rows|);
            if r.Done? then
              && |rows + r.value| == 16 && MoveOk(EnterRow(head, rows + r.value, []))
              && Run(Mapping1(head, rows), st, bs) == RunHead(EnterRow(head, rows + r.value, []), st, r.rest)
            else r.NeedInput? && Run(Mapping1(head, rows), st, bs) == NeedInput
    decreases 16 - |rows|
  {
    hide Run, RunHead, EnterRow, GetFlags;
    RunBit(Mapping1(head, rows), st, bs);
    NoFlags(bs, 16 - |rows|);
    if bs != [] {
      var more := rows + [Bit(bs[0]) == 1];
      if |rows| < 15 {
        RunGo(Mapping1(head, more), st, bs[1..]);
        RunRowFlags(head, more, st, bs[1..]);
        FlagsSplit(bs, 16 - |rows|);
        var r := GetFlags(bs[1..], 15 - |rows|);
        if r.Done? { assert more + r.value == rows + ([bs[0]] + r.value); }
      } else {
        OneFlag(bs);
        EnterRowOk(head, more, []);
      }
    }
  }

  /** The block after its head. */
  ghost function BodyEvent(head: Head, bs: seq<bool>): (r: Parse<Event>) {
    var r := GetPayload(bs, 100000 * head.level);
    if !r.Done? then Failed(r)
    else if head.origPtr >= |r.value| then Bad
    else Done(BlockReady(head.level, BlockData(head.crc, head.randomised, head.origPtr, r.value)), r.rest)
  }

  lemma RunMapping(head: Head, st: MF.State, bs: seq<bool>)
    requires StOk(st)
    ensures var r := GetMapping(bs);
            if r.Done? then
              && |r.value| == 256 && MoveOk(EnterSelectors(head, r.value))
              && Run(Mapping1(head, []), st, bs) == RunHead(EnterSelectors(head, r.value), st, r.rest)
            else Run(Mapping1(head, []), st, bs) == Failed(r)
  {
    hide Run, RunHead, GetRows, GetFlags, EnterRow, EnterSelectors;
    RunRowFlags(head, [], st, bs);
    var rows := GetFlags(bs, 16);
    FlagsAre(bs, 16);
    if rows.Done? {
      assert [] + rows.value == rows.value;
      RunRows(head, rows.value, 0, [], st, rows.rest);
      var marks := GetRows(rows.rest, rows.value, 0);
      if marks.Done? { assert [] + marks.value == marks.value; }
    }
  }

  /** Parsing a body in one go, part by part. */
  lemma BodyIs(head: Head, bs: seq<bool>)
    ensures var r := GetMapping(bs);
            BodyEvent(head, bs) ==
            if !r.Done? then Failed(r)
            else if !InUseOk(r.value) then Bad
            else RestOfBlock(head, r.value, r.rest)
  {
    hide GetMapping, GetSelectors, GetCodingTables, GetData, ME.Used;
    var r := GetMapping(bs);
    if r.Done? && InUseOk(r.value) { UsedIs(r.value); }
  }

  lemma RunBody(head: Head, st: MF.State, bs: seq<bool>)
    requires StOk(st)
    ensures Run(Mapping1(head, []), st, bs) == BodyEvent(head, bs)
  {
    hide Run, RunHead, GetMapping, BodyEvent, RestOfBlock, EnterSelectors;
    RunMapping(head, st, bs);
    BodyIs(head, bs);
    var r := GetMapping(bs);
    if r.Done? { RunMapped(head, r.value, st, r.rest); }
  }

  lemma RunMapped(head: Head, inUse: seq<bool>, st: MF.State, bs: seq<bool>)
    requires |inUse| == 256 && StOk(st)
    ensures MoveOk(EnterSelectors(head, inUse))
    ensures RunHead(EnterSelectors(head, inUse), st, bs) ==
            if InUseOk(inUse) then RestOfBlock(head, inUse, bs) else Bad
  {
    hide Run, RestOfBlock;
    if InUseOk(inUse) { RunSelectors(head, inUse, st, bs); }
  }

  // ----- fixed fields

  lemma {:induction false} FromBitsAppend(a: seq<bool>, b: seq<bool>)
    ensures FromBits(a + b) == FromBits(a) * Pow2(|b|) + FromBits(b)
    decreases |a|
  {
    hide Pow2;
    if a == [] {
      assert a + b == b;
    } else {
      FromBitsAppend(a[1..], b);
      assert (a + b)[1..] == a[1..] + b;
      Pow2Add(|a| - 1, |b|);
      AppendArithmetic(Pow2(|a| - 1), Pow2(|b|), FromBits(a[1..]), if a[0] then 1 else 0, FromBits(b));
    }
  }

  lemma AppendArithmetic(p: nat, q: nat, x: nat, bit: nat, y: nat)
    requires bit <= 1
    ensures (if bit == 1 then p * q else 0) + (x * q + y) == ((if bit == 1 then p else 0) + x) * q + y
  {
    assert (p + x) * q == p * q + x * q;
  }

  /** A byte more, then n bits. */
  lemma ByteThen(bs: seq<bool>, n: nat, acc: nat)
    ensures Pow2(8) == 256
    ensures var first, all := GetBits(bs, 8), GetBits(bs, 8 + n);
            if !first.Done? then first.NeedInput? && all.NeedInput?
            else
              var more := GetBits(first.rest, n);
              if !more.Done? then more.NeedInput? && all.NeedInput?
              else all.Done? && all.rest == more.rest
                   && acc * Pow2(8 + n) + all.value == (acc * 256 + first.value) * Pow2(n) + more.value
  {
    Pow8();
    if |bs| >= 8 + n {
      var a, b := bs[..8], bs[8..][..n];
      assert bs[..8 + n] == a + b && bs[8..][n..] == bs[8 + n..];
      FromBitsAppend(a, b);
      Pow2Add(8, n);
      JoinParts(acc, FromBits(a), Pow2(n), FromBits(b));
    }
  }

  lemma JoinParts(acc: nat, a: nat, w: nat, b: nat)
    ensures acc * (256 * w) + (a * w + b) == (acc * 256 + a) * w + b
  {
    assert acc * (256 * w) == acc * 256 * w;
  }

  lemma {:induction false} RunBlockCrc(level: nat, k: nat, crc: nat, st: MF.State, bs: seq<bool>)
    requires k < 4 && StOk(st)
    ensures var r := GetBits(bs, 8 * (4 - k));
            if r.Done? then
              Run(BlockCrc(level, k, crc), st, bs) == Run(RandBit(level, crc * Pow2(8 * (4 - k)) + r.value), st, r.rest)
            else r.NeedInput? && Run(BlockCrc(level, k, crc), st, bs) == NeedInput
    decreases 4 - k
  {
    hide Run, RunHead, GetBits, Pow2;
    var p := BlockCrc(level, k, crc);
    RunPlace(p, st, bs);
    ByteThen(bs, 8 * (3 - k), crc);
    var r := GetBits(bs, 8);
    if r.Done? {
      if k < 3 {
        RunGo(BlockCrc(level, k + 1, crc * 256 + r.value), st, r.rest);
        RunBlockCrc(level, k + 1, crc * 256 + r.value, st, r.rest);
      } else {
        RunGo(RandBit(level, crc * 256 + r.value), st, r.rest);
      }
    }
  }

  lemma {:induction false} RunEndCrc(level: nat, k: nat, crc: nat, st: MF.State, bs: seq<bool>)
    requires k < 4 && StOk(st)
    ensures var r := GetBits(bs, 8 * (4 - k));
            if r.Done? then
              Run(EndCrc(level, k, crc), st, bs) == Done(Trailer(level, crc * Pow2(8 * (4 - k)) + r.value), r.rest)
            else r.NeedInput? && Run(EndCrc(level, k, crc), st, bs) == NeedInput
    decreases 4 - k
  {
    hide Run, GetBits, Pow2;
    var p := EndCrc(level, k, crc);
    RunPlace(p, st, bs);
    ByteThen(bs, 8 * (3 - k), crc);
    var r := GetBits(bs, 8);
    if r.Done? && k < 3 {
      RunGo(EndCrc(level, k + 1, crc * 256 + r.value), st, r.rest);
      RunEndCrc(level, k + 1, crc * 256 + r.value, st, r.rest);
    }
  }

  lemma {:induction false} RunOrigPtr(level: nat, crc: nat, randomised: bool, k: nat, ptr: nat, st: MF.State,
                                      bs: seq<bool>)
    requires k < 3 && StOk(st)
    ensures var r := GetBits(bs, 8 * (3 - k));
            if r.Done? then
              var origPtr := ptr * Pow2(8 * (3 - k)) + r.value;
              Run(OrigPtr(level, crc, randomised, k, ptr), st, bs) ==
              if origPtr > 10 + 100000 * level then Bad
              else Run(Mapping1(Head(level, crc, randomised, origPtr), []), st, r.rest)
            else r.NeedInput? && Run(OrigPtr(level, crc, randomised, k, ptr), st, bs) == NeedInput
    decreases 3 - k
  {
    hide Run, RunHead, GetBits, Pow2;
    var p := OrigPtr(level, crc, randomised, k, ptr);
    RunPlace(p, st, bs);
    ByteThen(bs, 8 * (2 - k), ptr);
    var r := GetBits(bs, 8);
    if r.Done? {
      var more := ptr * 256 + r.value;
      if k < 2 {
        RunGo(OrigPtr(level, crc, randomised, k + 1, more), st, r.rest);
        RunOrigPtr(level, crc, randomised, k + 1, more, st, r.rest);
      } else {
        RunFail(st, r.rest);
        if more <= 10 + 100000 * level { RunGo(Mapping1(Head(level, crc, randomised, more), []), st, r.rest); }
      }
    }
  }

  // ----- events

  /** The next block, or the trailer, in one go. */
  ghost function GetEvent(bs: seq<bool>, level: nat): (r: Parse<Event>) {
    var v := GetBits(bs, 8);
    if !v.Done? then Failed(v)
    else if v.value == 0x17 then
      var tail := Expect(v.rest, EndTail());
      if !tail.Done? then Failed(tail)
      else
        var crc := GetBits(tail.rest, 32);
        if !crc.Done? then Failed(crc) else Done(Trailer(level, crc.value), crc.rest)
    else if v.value != 0x31 then Bad
    else
      var tail := Expect(v.rest, MagicTail());
      if !tail.Done? then Failed(tail)
      else
        var block := GetBlock(tail.rest, level);
        if !block.Done? then Failed(block) else Done(BlockReady(level, block.value), block.rest)
  }

  function EndTail(): (r: seq<int>) {
    [0x72, 0x45, 0x38, 0x50, 0x90]
  }

  lemma ExpectStep(bs: seq<bool>, bytes: seq<int>)
    requires bytes != []
    ensures var v := GetBits(bs, 8);
            Expect(bs, bytes) ==
            if !v.Done? then NeedInput else if v.value != bytes[0] then Bad else Expect(v.rest, bytes[1..])
    ensures GetBits(bs, 8).Done? || GetBits(bs, 8).NeedInput?
    ensures Expect(bs, []) == Done((), bs)
  {
  }

  lemma {:induction false} RunBlockHead(level: nat, k: nat, st: MF.State, bs: seq<bool>)
    requires 1 <= k < 6 && StOk(st)
    ensures var r := Expect(bs, MagicTail()[k - 1..]);
            Run(BlockHead(level, k), st, bs) == if r.Done? then Run(BlockCrc(level, 0, 0), st, r.rest) else Failed(r)
    decreases 6 - k
  {
    hide Run, RunHead, GetBits, Expect;
    var tail := MagicTail()[k - 1..];
    RunPlace(BlockHead(level, k), st, bs);
    ExpectStep(bs, tail);
    assert tail[1..] == MagicTail()[k..];
    var r := GetBits(bs, 8);
    if r.Done? {
      RunFail(st, r.rest);
      if k < 5 {
        RunGo(BlockHead(level, k + 1), st, r.rest);
        RunBlockHead(level, k + 1, st, r.rest);
      } else {
        ExpectStep(r.rest, [0]);
        RunGo(BlockCrc(level, 0, 0), st, r.rest);
      }
    }
  }

  lemma EndTailLength()
    ensures |EndTail()| == 5
  {
  }

  /** One byte of the trailer's magic number. */
  lemma EndTailStep(bs: seq<bool>, k: nat)
    requires 1 <= k < 6
    ensures |EndTail()| == 5
    ensures var v := GetBits(bs, 8);
            Expect(bs, EndTail()[k - 1..]) ==
            if !v.Done? then NeedInput
            else if v.value != EndTail()[k - 1] then Bad
            else if k < 5 then Expect(v.rest, EndTail()[k..]) else Done((), v.rest)
    ensures GetBits(bs, 8).Done? || GetBits(bs, 8).NeedInput?
  {
    hide GetBits, Expect;
    var tail := EndTail()[k - 1..];
    ExpectStep(bs, tail);
    assert tail[1..] == EndTail()[k..];
    var r := GetBits(bs, 8);
    if r.Done? { ExpectStep(r.rest, [0]); }
  }

  lemma EndHeadPlace(level: nat, k: nat)
    requires 1 <= k < 6
    ensures Ok(EndHead(level, k)) && Need(EndHead(level, k)) == 8
  {
  }

  lemma EndHeadMove(level: nat, k: nat, v: nat)
    requires 1 <= k < 6
    ensures NextHead(EndHead(level, k), v) ==
            if v != EndTail()[k - 1] then Fail else if k < 5 then Go(EndHead(level, k + 1)) else Go(EndCrc(level, 0, 0))
    ensures Ok(EndCrc(level, 0, 0)) && (k < 5 ==> Ok(EndHead(level, k + 1)))
  {
  }

  /** One byte of the trailer's magic number is read. */
  lemma RunEndByte(level: nat, k: nat, st: MF.State, bs: seq<bool>)
    requires 1 <= k < 6 && StOk(st)
    ensures |EndTail()| == 5 && Ok(EndHead(level, k)) && Ok(EndCrc(level, 0, 0))
    ensures k < 5 ==> Ok(EndHead(level, k + 1))
    ensures var v := GetBits(bs, 8);
            Run(EndHead(level, k), st, bs) ==
            if !v.Done? then NeedInput
            else if v.value != EndTail()[k - 1] then Bad
            else if k < 5 then Run(EndHead(level, k + 1), st, v.rest) else Run(EndCrc(level, 0, 0), st, v.rest)
  {
    hide Run, RunHead, GetBits, NextHead, Ok, Need, EndTail;
    EndTailLength();
    EndHeadPlace(level, k);
    EndHeadMove(level, k, 0);
    RunPlace(EndHead(level, k), st, bs);
    var v := GetBits(bs, 8);
    if v.Done? {
      RunFail(st, v.rest);
      EndHeadMove(level, k, v.value);
      if k < 5 { RunGo(EndHead(level, k + 1), st, v.rest); } else { RunGo(EndCrc(level, 0, 0), st, v.rest); }
    }
  }

  lemma {:induction false} RunEndHead(level: nat, k: nat, st: MF.State, bs: seq<bool>)
    requires 1 <= k < 6 && StOk(st)
    ensures |EndTail()| == 5 && Ok(EndHead(level, k)) && Ok(EndCrc(level, 0, 0))
    ensures var r := Expect(bs, EndTail()[k - 1..]);
            Run(EndHead(level, k), st, bs) == if r.Done? then Run(EndCrc(level, 0, 0), st, r.rest) else Failed(r)
    decreases 6 - k
  {
    hide Run, GetBits, Expect, Ok, EndTail;
    RunEndByte(level, k, st, bs);
    EndTailStep(bs, k);
    var v := GetBits(bs, 8);
    if v.Done? && k < 5 { RunEndHead(level, k + 1, st, v.rest); }
  }

  /** The block after its magic number. */
  lemma RunBlock(level: nat, st: MF.State, bs: seq<bool>)
    requires StOk(st)
    ensures var r := GetBlock(bs, level);
            Run(BlockCrc(level, 0, 0), st, bs) ==
            if r.Done? then Done(BlockReady(level, r.value), r.rest) else Failed(r)
  {
    hide Run, RunHead, GetBits, GetPayload, Pow2;
    RunBlockCrc(level, 0, 0, st, bs);
    GetBitsIs(bs, 32);
    var crc := GetBits(bs, 32);
    if crc.Done? {
      RunPlace(RandBit(level, crc.value), st, crc.rest);
      GetBitsIs(crc.rest, 1);
      var rnd := GetBits(crc.rest, 1);
      if rnd.Done? {
        RunGo(OrigPtr(level, crc.value, rnd.value == 1, 0, 0), st, rnd.rest);
        RunOrigPtr(level, crc.value, rnd.value == 1, 0, 0, st, rnd.rest);
        GetBitsIs(rnd.rest, 24);
        var ptr := GetBits(rnd.rest, 24);
        if ptr.Done? && ptr.value <= 10 + 100000 * level {
          RunBody(Head(level, crc.value, rnd.value == 1, ptr.value), st, ptr.rest);
        }
      }
    }
  }

  /** Between blocks: resuming wherever the input breaks off gives the same block or trailer. */
  lemma RunEvent(level: nat, st: MF.State, bs: seq<bool>)
    requires StOk(st)
    ensures Run(BlockHead(level, 0), st, bs) == GetEvent(bs, level)
  {
    hide Run, RunHead, GetBits, GetBlock, Expect, Pow2;
    RunPlace(BlockHead(level, 0), st, bs);
    var v := GetBits(bs, 8);
    if v.Done? {
      RunFail(st, v.rest);
      if v.value == 0x17 {
        RunGo(EndHead(level, 1), st, v.rest);
        RunEndHead(level, 1, st, v.rest);
        assert EndTail()[0..] == EndTail();
        var tail := Expect(v.rest, EndTail());
        if tail.Done? { RunEndCrc(level, 0, 0, st, tail.rest); }
      } else if v.value == 0x31 {
        RunGo(BlockHead(level, 1), st, v.rest);
        RunBlockHead(level, 1, st, v.rest);
        assert MagicTail()[0..] == MagicTail();
        var tail := Expect(v.rest, MagicTail());
        if tail.Done? { RunBlock(level, st, tail.rest); }
      }
    }
  }
}
