/** BZ2_decompress as the machine it is: every read of bits is a place where it can stop for lack
    of input and be resumed. Parser is what it saves between reads; running the machine on a
    bit string is shown to be the same as parsing that string in one go. */
module DecoderSteps {
  import opened BitStrings
  import opened HuffmanCodes
  import opened BlockFormat
  import MF = MoveToFront
  import ME = MtfEncoder

  /** What is known of a block before its mapping table. */
  datatype Head = Head(level: nat, crc: nat, randomised: bool, origPtr: nat)

  /** What is known before its coding tables. */
  datatype Plan = Plan(head: Head, inUse: seq<bool>, nGroups: nat, sel: seq<int>)

  /** The state and the saved variables, one constructor for each place where bits are read. */
  datatype Parser =
    | Magic(k: nat)
    | Level
    | BlockHead(level: nat, k: nat)
    | BlockCrc(level: nat, k: nat, crc: nat)
    | RandBit(level: nat, crc: nat)
    | OrigPtr(level: nat, crc: nat, randomised: bool, k: nat, ptr: nat)
    | Mapping1(head: Head, rows: seq<bool>)
    | Mapping2(head: Head, rows: seq<bool>, inUse: seq<bool>)
    | Selector1(head: Head, inUse: seq<bool>)
    | Selector2(head: Head, inUse: seq<bool>, nGroups: nat)
    | Selector3(head: Head, inUse: seq<bool>, nGroups: nat, nSelectors: nat, places: seq<nat>, j: nat)
    | Coding1(plan: Plan, lens: seq<seq<int>>)
    | Coding2(plan: Plan, lens: seq<seq<int>>, curr: int, len: seq<int>)
    | Coding3(plan: Plan, lens: seq<seq<int>>, curr: int, len: seq<int>)
    | Mtf(plan: Plan, lens: seq<seq<int>>, c: Cursor, zn: nat, zvec: nat)
    | EndHead(level: nat, k: nat)
    | EndCrc(level: nat, k: nat, crc: nat)

  /** What reading leads to in the end. */
  datatype Event = BlockReady(level: nat, d: BlockData) | Trailer(level: nat, crc: nat)

  datatype Move = Go(p: Parser) | Stop(e: Event) | Fail

  function AlphaSize(inUse: seq<bool>): (r: nat)
    requires |inUse| == 256
  {
    |ME.Used(inUse, 256)| + 2
  }

  // ----- what each place needs and leads to

  ghost predicate PlanOk(plan: Plan) {
    && |plan.inUse| == 256 && ME.Used(plan.inUse, 256) != [] && 2 <= plan.nGroups <= 6
    && 1 <= |plan.sel| && forall g :: 0 <= g < |plan.sel| ==> 0 <= plan.sel[g] < plan.nGroups
  }

  ghost predicate LensOk(plan: Plan, lens: seq<seq<int>>) {
    && PlanOk(plan) && |lens| <= plan.nGroups
    && forall t :: 0 <= t < |lens| ==> LenOk(lens[t]) && |lens[t]| == AlphaSize(plan.inUse)
  }

  ghost predicate LenOk(len: seq<int>) {
    forall i :: 0 <= i < |len| ==> 1 <= len[i] <= 20
  }

  ghost predicate Ok(p: Parser) {
    match p
    case Magic(k) => k < 3
    case Level => true
    case BlockHead(level, k) => k < 6
    case BlockCrc(level, k, crc) => k < 4
    case RandBit(level, crc) => true
    case OrigPtr(level, crc, randomised, k, ptr) => k < 3
    case Mapping1(head, rows) => |rows| < 16
    case Mapping2(head, rows, inUse) => |rows| == 16 && |inUse| < 256 && rows[|inUse| / 16]
    case Selector1(head, inUse) => |inUse| == 256 && ME.Used(inUse, 256) != []
    case Selector2(head, inUse, nGroups) => |inUse| == 256 && ME.Used(inUse, 256) != [] && 2 <= nGroups <= 6
    case Selector3(head, inUse, nGroups, nSelectors, places, j) =>
      && |inUse| == 256 && ME.Used(inUse, 256) != [] && 2 <= nGroups <= 6 && j < nGroups && |places| < nSelectors
      && forall i :: 0 <= i < |places| ==> places[i] < nGroups
    case Coding1(plan, lens) => LensOk(plan, lens) && |lens| < plan.nGroups
    case Coding2(plan, lens, curr, len) =>
      LensOk(plan, lens) && |lens| < plan.nGroups && 1 <= curr <= 20 && LenOk(len) && |len| < AlphaSize(plan.inUse)
    case Coding3(plan, lens, curr, len) =>
      LensOk(plan, lens) && |lens| < plan.nGroups && 1 <= curr <= 20 && LenOk(len) && |len| < AlphaSize(plan.inUse)
    case Mtf(plan, lens, c, zn, zvec) =>
      LensOk(plan, lens) && |lens| == plan.nGroups && 0 <= c.groupNo < |plan.sel| && zn <= 20
    case EndHead(level, k) => 1 <= k < 6
    case EndCrc(level, k, crc) => k < 4
  }

  /** Entries stay symbols of the alphabet and the list stays a list of bytes. */
  ghost predicate StOk(st: MF.State) {
    |st.list| == 256
  }

  /** How many bits the place reads. */
  ghost function Need(p: Parser): (n: nat)
    requires Ok(p)
    ensures 1 <= n <= 20
  {
    match p
    case Mtf(plan, lens, c, zn, zvec) =>
      if zn == 0 then
        (MinBounds(plan, lens, c.groupNo);
         MinOf(lens[plan.sel[c.groupNo]]))
      else 1
    case RandBit(_, _) => 1
    case Mapping1(_, _) => 1
    case Mapping2(_, _, _) => 1
    case Selector1(_, _) => 3
    case Selector2(_, _, _) => 15
    case Selector3(_, _, _, _, _, _) => 1
    case Coding1(_, _) => 5
    case Coding2(_, _, _, _) => 1
    case Coding3(_, _, _, _) => 1
    case _ => 8
  }

  lemma MinBounds(plan: Plan, lens: seq<seq<int>>, g: int)
    requires LensOk(plan, lens) && |lens| == plan.nGroups && 0 <= g < |plan.sel|
    ensures 0 <= plan.sel[g] < |lens| && |lens[plan.sel[g]]| > 0 && 1 <= MinOf(lens[plan.sel[g]]) <= 20
    ensures ValidLengths(lens[plan.sel[g]]) && |lens[plan.sel[g]]| == AlphaSize(plan.inUse) <= 258
  {
    var len := lens[plan.sel[g]];
    assert LenOk(len);
    var i :| 0 <= i < |len| && len[i] == MinOf(len);
  }

  /** After the mapping table: some byte must be in use. */
  function EnterSelectors(head: Head, inUse: seq<bool>): (m: Move)
    requires |inUse| == 256
  {
    if ME.Used(inUse, 256) == [] then Fail else Go(Selector1(head, inUse))
  }

  /** Rows of sixteen unused bytes are not in the stream. */
  function EnterRow(head: Head, rows: seq<bool>, inUse: seq<bool>): (m: Move)
    requires |rows| == 16 && |inUse| <= 256 && |inUse| % 16 == 0
    decreases 256 - |inUse|
  {
    if |inUse| == 256 then EnterSelectors(head, inUse)
    else if rows[|inUse| / 16] then Go(Mapping2(head, rows, inUse))
    else EnterRow(head, rows, inUse + seq(16, _ => false))
  }

  /** The next selector, or the coding tables. */
  function EnterSelector(head: Head, inUse: seq<bool>, nGroups: nat, nSelectors: nat, places: seq<nat>): (m: Move)
    requires nGroups > 0 && |places| <= nSelectors && forall i :: 0 <= i < |places| ==> places[i] < nGroups
  {
    if |places| == nSelectors then EnterTable(Plan(head, inUse, nGroups, SelectorsOf(places, MF.Identity(nGroups))), [])
    else Go(Selector3(head, inUse, nGroups, nSelectors, places, 0))
  }

  /** The next coding table, or the symbols. */
  function EnterTable(plan: Plan, lens: seq<seq<int>>): (m: Move) {
    if |lens| >= plan.nGroups then EnterSymbol(plan, lens, Cursor(-1, 0)) else Go(Coding1(plan, lens))
  }

  /** The next code length of a table, or the table is complete. */
  function EnterLength(plan: Plan, lens: seq<seq<int>>, curr: int, len: seq<int>): (m: Move)
    requires |plan.inUse| == 256
  {
    if |len| >= AlphaSize(plan.inUse) then EnterTable(plan, lens + [len])
    else CheckLength(plan, lens, curr, len)
  }

  function CheckLength(plan: Plan, lens: seq<seq<int>>, curr: int, len: seq<int>): (m: Move) {
    if curr < 1 || curr > 20 then Fail else Go(Coding2(plan, lens, curr, len))
  }

  /** GET_MTF_VAL up to its first read: a new group when one is used up. */
  function EnterSymbol(plan: Plan, lens: seq<seq<int>>, c: Cursor): (m: Move) {
    var c' := NextGroup(c);
    if c'.groupNo < 0 || c'.groupNo >= |plan.sel| || c'.groupPos == 0 then Fail
    else Go(Mtf(plan, lens, Cursor(c'.groupNo, c'.groupPos - 1), 0, 0))
  }

  /** Every place but the symbols. */
  function NextHead(p: Parser, v: nat): (m: Move)
    requires !p.Mtf?
    requires p.Mapping1? ==> |p.rows| < 16
    requires p.Mapping2? ==> |p.rows| == 16 && |p.inUse| < 256
    requires p.Selector3? ==> p.nGroups > 0 && p.j < p.nGroups && |p.places| < p.nSelectors
    requires p.Selector3? ==> forall i :: 0 <= i < |p.places| ==> p.places[i] < p.nGroups
    requires p.Selector2? ==> p.nGroups > 0
    requires p.Coding1? || p.Coding2? || p.Coding3? ==> |p.plan.inUse| == 256
  {
    match p
    case Magic(k) =>
      if v != (if k == 0 then 0x42 else if k == 1 then 0x5a else 0x68) then Fail
      else if k < 2 then Go(Magic(k + 1)) else Go(Level)
    case Level => if 0x31 <= v <= 0x39 then Go(BlockHead(v - 0x30, 0)) else Fail
    case BlockHead(level, k) =>
      if k == 0 && v == 0x17 then Go(EndHead(level, 1))
      else if v != (if k == 0 then 0x31 else if k == 1 then 0x41 else if k == 2 then 0x59
                    else if k == 3 then 0x26 else if k == 4 then 0x53 else 0x59) then Fail
      else if k < 5 then Go(BlockHead(level, k + 1)) else Go(BlockCrc(level, 0, 0))
    case BlockCrc(level, k, crc) =>
      if k < 3 then Go(BlockCrc(level, k + 1, crc * 256 + v)) else Go(RandBit(level, crc * 256 + v))
    case RandBit(level, crc) => Go(OrigPtr(level, crc, v == 1, 0, 0))
    case OrigPtr(level, crc, randomised, k, ptr) =>
      if k < 2 then Go(OrigPtr(level, crc, randomised, k + 1, ptr * 256 + v))
      else if ptr * 256 + v > 10 + 100000 * level then Fail
      else Go(Mapping1(Head(level, crc, randomised, ptr * 256 + v), []))
    case Mapping1(head, rows) =>
      if |rows| < 15 then Go(Mapping1(head, rows + [v == 1])) else EnterRow(head, rows + [v == 1], [])
    case Mapping2(head, rows, inUse) =>
      if |inUse| % 16 < 15 then Go(Mapping2(head, rows, inUse + [v == 1])) else EnterRow(head, rows, inUse + [v == 1])
    case Selector1(head, inUse) => if v < 2 || v > 6 then Fail else Go(Selector2(head, inUse, v))
    case Selector2(head, inUse, nGroups) =>
      if v < 1 then Fail else EnterSelector(head, inUse, nGroups, v, [])
    case Selector3(head, inUse, nGroups, nSelectors, places, j) =>
      if v == 0 then EnterSelector(head, inUse, nGroups, nSelectors, places + [j])
      else if j + 1 >= nGroups then Fail
      else Go(p.(j := j + 1))
    case Coding1(plan, lens) => EnterLength(plan, lens, v, [])
    case Coding2(plan, lens, curr, len) =>
      if v == 0 then EnterLength(plan, lens, curr, len + [curr]) else Go(Coding3(plan, lens, curr, len))
    case Coding3(plan, lens, curr, len) =>
      CheckLength(plan, lens, if v == 0 then curr + 1 else curr - 1, len)
    case EndHead(level, k) =>
      if v != (if k == 1 then 0x72 else if k == 2 then 0x45 else if k == 3 then 0x38
               else if k == 4 then 0x50 else 0x90) then Fail
      else if k < 5 then Go(EndHead(level, k + 1)) else Go(EndCrc(level, 0, 0))
    case EndCrc(level, k, crc) =>
      if k < 3 then Go(EndCrc(level, k + 1, crc * 256 + v)) else Stop(Trailer(level, crc * 256 + v))
  }

  /** Where the machine is, with the move-to-front decoder as it is then. */
  datatype Moved = Moved(m: Move, st: MF.State)

  function FreshState(): (st: MF.State)
    ensures StOk(st)
  {
    MF.State(MF.Identity(256), [], 0, 1)
  }

  /** A symbol has been read. */
  ghost function SymbolMove(plan: Plan, lens: seq<seq<int>>, c: Cursor, st: MF.State, sym: int): (r: Moved)
    requires PlanOk(plan) && StOk(st) && 0 <= sym < AlphaSize(plan.inUse)
    ensures r.m.Go? ==> StOk(r.st)
  {
    AlphaBounds(plan.inUse);
    match MF.Step(st, sym, AlphaSize(plan.inUse) - 1, 100000 * plan.head.level)
    case More(st') => Moved(EnterSymbol(plan, lens, c), st')
    case Finished(out) => Moved(Finish(plan, out), st)
    case Corrupt => Moved(Fail, st)
  }

  lemma AlphaBounds(inUse: seq<bool>)
    requires |inUse| == 256
    ensures 2 <= AlphaSize(inUse) <= 258
  {
  }

  /** The block is complete; now its place of rotation 0 can be checked. */
  ghost function Finish(plan: Plan, out: seq<int>): (m: Move)
    requires |plan.inUse| == 256
  {
    var last := Renamed(out, ME.Used(plan.inUse, 256));
    if plan.head.origPtr >= |last| then Fail
    else Stop(BlockReady(plan.head.level, BlockData(plan.head.crc, plan.head.randomised, plan.head.origPtr, last)))
  }

  /** The inner loop of GET_MTF_VAL up to its next read. */
  ghost function Settle(plan: Plan, lens: seq<seq<int>>, c: Cursor, st: MF.State, zn: nat, zvec: nat): (r: Moved)
    requires LensOk(plan, lens) && |lens| == plan.nGroups && 0 <= c.groupNo < |plan.sel| && StOk(st)
    ensures r.m.Go? ==> StOk(r.st)
  {
    MinBounds(plan, lens, c.groupNo);
    var len := lens[plan.sel[c.groupNo]];
    var t := TablesOf(len);
    if zn > 20 then Moved(Fail, st)
    else if zvec > t.limit[zn] then Moved(Go(Mtf(plan, lens, c, zn, zvec)), st)
    else if zvec - t.base[zn] < 0 || zvec - t.base[zn] >= 258 then Moved(Fail, st)
    else
      var sym := t.perm[zvec - t.base[zn]];
      if 0 <= sym < AlphaSize(plan.inUse) then SymbolMove(plan, lens, c, st, sym) else Moved(Fail, st)
  }

  /** One read of the machine. */
  ghost function Next(p: Parser, st: MF.State, v: nat): (r: Moved)
    requires Ok(p) && StOk(st)
    ensures r.m.Go? ==> StOk(r.st)
  {
    match p
    case Mtf(plan, lens, c, zn, zvec) =>
      if zn == 0 then Settle(plan, lens, c, st, Need(p), v) else Settle(plan, lens, c, st, zn + 1, 2 * zvec + v)
    case _ =>
      var m := NextHead(p, v);
      Moved(m, if m.Go? && m.p.Mtf? then FreshState() else st)
  }

  // ----- the machine stays within its places

  ghost predicate MoveOk(m: Move) {
    m.Go? ==> Ok(m.p)
  }

  lemma {:induction false} EnterRowOk(head: Head, rows: seq<bool>, inUse: seq<bool>)
    requires |rows| == 16 && |inUse| <= 256 && |inUse| % 16 == 0
    ensures MoveOk(EnterRow(head, rows, inUse))
    decreases 256 - |inUse|
  {
    if |inUse| < 256 && !rows[|inUse| / 16] { EnterRowOk(head, rows, inUse + seq(16, _ => false)); }
  }

  lemma EnterSymbolOk(plan: Plan, lens: seq<seq<int>>, c: Cursor)
    requires LensOk(plan, lens) && |lens| == plan.nGroups
    ensures MoveOk(EnterSymbol(plan, lens, c))
  {
  }

  lemma EnterTableOk(plan: Plan, lens: seq<seq<int>>)
    requires LensOk(plan, lens)
    ensures MoveOk(EnterTable(plan, lens))
  {
    if |lens| >= plan.nGroups { EnterSymbolOk(plan, lens, Cursor(-1, 0)); }
  }

  lemma EnterLengthOk(plan: Plan, lens: seq<seq<int>>, curr: int, len: seq<int>)
    requires LensOk(plan, lens) && |lens| < plan.nGroups && LenOk(len) && |len| <= AlphaSize(plan.inUse)
    ensures MoveOk(EnterLength(plan, lens, curr, len))
    ensures |len| == AlphaSize(plan.inUse) ==> LensOk(plan, lens + [len])
  {
    if |len| == AlphaSize(plan.inUse) { EnterTableOk(plan, lens + [len]); }
  }

  lemma {:induction false} SelectorsInRange(places: seq<nat>, pos: seq<int>, n: int)
    requires forall i :: 0 <= i < |places| ==> places[i] < |pos|
    requires forall i :: 0 <= i < |pos| ==> 0 <= pos[i] < n
    ensures forall i :: 0 <= i < |places| ==> 0 <= SelectorsOf(places, pos)[i] < n
    decreases |places|
  {
    if places != [] { SelectorsInRange(places[1..], MF.ToFront(pos, places[0]), n); }
  }

  lemma EnterSelectorOk(head: Head, inUse: seq<bool>, nGroups: nat, nSelectors: nat, places: seq<nat>)
    requires |inUse| == 256 && ME.Used(inUse, 256) != [] && 2 <= nGroups <= 6 && |places| <= nSelectors
    requires nSelectors > 0
    requires forall i :: 0 <= i < |places| ==> places[i] < nGroups
    ensures MoveOk(EnterSelector(head, inUse, nGroups, nSelectors, places))
    ensures |places| == nSelectors ==> PlanOk(Plan(head, inUse, nGroups, SelectorsOf(places, MF.Identity(nGroups))))
  {
    if |places| == nSelectors {
      SelectorsInRange(places, MF.Identity(nGroups), nGroups);
      EnterTableOk(Plan(head, inUse, nGroups, SelectorsOf(places, MF.Identity(nGroups))), []);
    }
  }

  /** Places of fixed shape. */
  predicate Fixed(p: Parser) {
    p.Magic? || p.Level? || p.BlockHead? || p.BlockCrc? || p.RandBit? || p.OrigPtr? || p.EndHead? || p.EndCrc?
  }

  lemma FixedOk(p: Parser, v: nat)
    requires Ok(p) && Fixed(p)
    ensures MoveOk(NextHead(p, v))
  {
    hide EnterRow, EnterSelector, EnterLength, CheckLength, LensOk, LenOk, AlphaSize, ME.Used;
  }

  lemma MappingOk(p: Parser, v: nat)
    requires Ok(p) && (p.Mapping1? || p.Mapping2?)
    ensures MoveOk(NextHead(p, v))
  {
    hide EnterRow, EnterSelector, EnterLength, CheckLength, LensOk, LenOk, AlphaSize, ME.Used;
    match p
    case Mapping1(head, rows) => if |rows| == 15 { EnterRowOk(head, rows + [v == 1], []); }
    case Mapping2(head, rows, inUse) =>
      if |inUse| % 16 == 15 { EnterRowOk(head, rows, inUse + [v == 1]); } else { SameRow(|inUse|); }
  }

  lemma SelectorOk(p: Parser, v: nat)
    requires Ok(p) && (p.Selector1? || p.Selector2? || p.Selector3?)
    ensures MoveOk(NextHead(p, v))
  {
    hide EnterRow, EnterSelector, EnterLength, CheckLength, LensOk, LenOk, AlphaSize, ME.Used;
    match p
    case Selector1(head, inUse) =>
    case Selector2(head, inUse, nGroups) => if v >= 1 { EnterSelectorOk(head, inUse, nGroups, v, []); }
    case Selector3(head, inUse, nGroups, nSelectors, places, j) =>
      if v == 0 { EnterSelectorOk(head, inUse, nGroups, nSelectors, places + [j]); }
  }

  lemma CodingOk(p: Parser, v: nat)
    requires Ok(p) && (p.Coding1? || p.Coding2? || p.Coding3?)
    ensures MoveOk(NextHead(p, v))
  {
    hide EnterRow, EnterSelector, EnterLength, LensOk, AlphaSize, ME.Used;
    LensSized(p.plan, p.lens);
    match p
    case Coding1(plan, lens) => EnterLengthOk(plan, lens, v, []);
    case Coding2(plan, lens, curr, len) => if v == 0 { EnterLengthOk(plan, lens, curr, len + [curr]); }
    case Coding3(plan, lens, curr, len) =>
  }

  lemma LensSized(plan: Plan, lens: seq<seq<int>>)
    requires LensOk(plan, lens)
    ensures |plan.inUse| == 256
  {
  }

  /** Every place leads to a place whose saved variables are in range. */
  lemma NextHeadOk(p: Parser, v: nat)
    requires Ok(p) && !p.Mtf?
    ensures MoveOk(NextHead(p, v))
  {
    hide Ok, NextHead, MoveOk;
    if Fixed(p) {
      FixedOk(p, v);
    } else if p.Mapping1? || p.Mapping2? {
      MappingOk(p, v);
    } else if p.Selector1? || p.Selector2? || p.Selector3? {
      SelectorOk(p, v);
    } else {
      CodingOk(p, v);
    }
  }

  lemma SameRow(k: nat)
    requires k % 16 < 15
    ensures (k + 1) / 16 == k / 16
  {
  }

  lemma SettleOk(plan: Plan, lens: seq<seq<int>>, c: Cursor, st: MF.State, zn: nat, zvec: nat)
    requires LensOk(plan, lens) && |lens| == plan.nGroups && 0 <= c.groupNo < |plan.sel| && StOk(st)
    ensures MoveOk(Settle(plan, lens, c, st, zn, zvec).m)
  {
    hide MF.Step, Renamed, TablesOf;
    EnterSymbolOk(plan, lens, c);
  }

  lemma NextOk(p: Parser, st: MF.State, v: nat)
    requires Ok(p) && StOk(st)
    ensures MoveOk(Next(p, st, v).m)
  {
    hide Settle;
    match p
    case Mtf(plan, lens, c, zn, zvec) =>
      if zn == 0 {
        SettleOk(plan, lens, c, st, Need(p), v);
      } else {
        SettleOk(plan, lens, c, st, zn + 1, 2 * zvec + v);
      }
    case _ => NextHeadOk(p, v);
  }

  // ----- running on a string of bits

  ghost function Run(p: Parser, st: MF.State, bs: seq<bool>): (r: Parse<Event>)
    requires Ok(p) && StOk(st)
    decreases |bs|, 0
  {
    match GetBits(bs, Need(p))
    case Done(v, rest) =>
      NextOk(p, st, v);
      RunMove(Next(p, st, v), rest)
    case NeedInput => NeedInput
    case Bad => Bad
  }

  ghost function RunMove(m: Moved, bs: seq<bool>): (r: Parse<Event>)
    requires MoveOk(m.m) && (m.m.Go? ==> StOk(m.st))
    decreases |bs|, 1
  {
    match m.m
    case Go(p) => Run(p, m.st, bs)
    case Stop(e) => Done(e, bs)
    case Fail => Bad
  }

  // ----- symbols

  lemma SettleCases(plan: Plan, lens: seq<seq<int>>, c: Cursor, st: MF.State, zn: nat, zvec: nat)
    requires LensOk(plan, lens) && |lens| == plan.nGroups && 0 <= c.groupNo < |plan.sel| && StOk(st)
    ensures 0 <= plan.sel[c.groupNo] < |lens| && ValidLengths(lens[plan.sel[c.groupNo]])
    ensures |TablesOf(lens[plan.sel[c.groupNo]]).limit| >= 23 && |TablesOf(lens[plan.sel[c.groupNo]]).base| >= 23
    ensures |TablesOf(lens[plan.sel[c.groupNo]]).perm| == 258
    ensures var t, r := TablesOf(lens[plan.sel[c.groupNo]]), Settle(plan, lens, c, st, zn, zvec);
            if zn > 20 then r == Moved(Fail, st)
            else if zvec > t.limit[zn] then r == Moved(Go(Mtf(plan, lens, c, zn, zvec)), st)
            else if zvec - t.base[zn] < 0 || zvec - t.base[zn] >= 258 then r == Moved(Fail, st)
            else var sym := t.perm[zvec - t.base[zn]];
                 r == if 0 <= sym < AlphaSize(plan.inUse) then SymbolMove(plan, lens, c, st, sym) else Moved(Fail, st)
  {
    hide SymbolMove, TablesOf, MF.Step;
    MinBounds(plan, lens, c.groupNo);
    TablesMin(lens[plan.sel[c.groupNo]]);
  }

  /** One more bit of a code. */
  lemma RunMtfBit(plan: Plan, lens: seq<seq<int>>, c: Cursor, st: MF.State, zn: nat, zvec: nat, bs: seq<bool>)
    requires Ok(Mtf(plan, lens, c, zn, zvec)) && StOk(st) && zn >= 1
    ensures bs == [] ==> Run(Mtf(plan, lens, c, zn, zvec), st, bs) == NeedInput
    ensures bs != [] ==>
      && Bit(bs[0]) >= 0 && MoveOk(Settle(plan, lens, c, st, zn + 1, 2 * zvec + Bit(bs[0])).m)
      && Run(Mtf(plan, lens, c, zn, zvec), st, bs) ==
        RunMove(Settle(plan, lens, c, st, zn + 1, 2 * zvec + Bit(bs[0])), bs[1..])
  {
    hide Settle, GetBits, LensOk;
    NoBits(bs);
    if bs != [] {
      OneBit(bs);
      SettleOk(plan, lens, c, st, zn + 1, 2 * zvec + Bit(bs[0]));
    }
  }

  lemma NoBits(bs: seq<bool>)
    ensures bs == [] ==> GetBits(bs, 1) == NeedInput
  {
  }

  /** The first bits of a code. */
  lemma RunMtfFirst(plan: Plan, lens: seq<seq<int>>, c: Cursor, st: MF.State, bs: seq<bool>)
    requires Ok(Mtf(plan, lens, c, 0, 0)) && StOk(st)
    ensures 0 <= plan.sel[c.groupNo] < |lens| && |lens[plan.sel[c.groupNo]]| > 0
    ensures MinOf(lens[plan.sel[c.groupNo]]) >= 1
    ensures var n := MinOf(lens[plan.sel[c.groupNo]]);
            var r := GetBits(bs, n);
            if r.Done? then
              && MoveOk(Settle(plan, lens, c, st, n, r.value).m)
              && Run(Mtf(plan, lens, c, 0, 0), st, bs) == RunMove(Settle(plan, lens, c, st, n, r.value), r.rest)
            else r.NeedInput? && Run(Mtf(plan, lens, c, 0, 0), st, bs) == NeedInput
  {
    hide Settle, MinOf, LensOk;
    MinBounds(plan, lens, c.groupNo);
    var n := MinOf(lens[plan.sel[c.groupNo]]);
    var r := GetBits(bs, n);
    if r.Done? { SettleOk(plan, lens, c, st, n, r.value); }
  }

  ghost function AfterCode(plan: Plan, lens: seq<seq<int>>, c: Cursor, st: MF.State, r: Parse<int>): (e: Parse<Event>)
    requires LensOk(plan, lens) && |lens| == plan.nGroups && StOk(st)
  {
    match r
    case Done(sym, rest) => RunSymbol(plan, lens, c, st, sym, rest)
    case NeedInput => NeedInput
    case Bad => Bad
  }

  lemma {:induction false} RunCode(plan: Plan, lens: seq<seq<int>>, c: Cursor, st: MF.State, zn: nat, zvec: nat,
                                   bs: seq<bool>)
    requires LensOk(plan, lens) && |lens| == plan.nGroups && 0 <= c.groupNo < |plan.sel| && StOk(st) && zn >= 1
    ensures 0 <= plan.sel[c.groupNo] < |lens| && ValidLengths(lens[plan.sel[c.groupNo]])
    ensures |TablesOf(lens[plan.sel[c.groupNo]]).limit| >= 23 && |TablesOf(lens[plan.sel[c.groupNo]]).base| >= 23
    ensures |TablesOf(lens[plan.sel[c.groupNo]]).perm| == 258
    ensures MoveOk(Settle(plan, lens, c, st, zn, zvec).m)
    ensures RunMove(Settle(plan, lens, c, st, zn, zvec), bs) ==
            AfterCode(plan, lens, c, st, ReadCode(TablesOf(lens[plan.sel[c.groupNo]]), bs, zn, zvec))
    decreases 21 - zn
  {
    hide MF.Step, SymbolMove, Settle, TablesOf, LensOk;
    SettleOk(plan, lens, c, st, zn, zvec);
    SettleCases(plan, lens, c, st, zn, zvec);
    var t := TablesOf(lens[plan.sel[c.groupNo]]);
    if zn <= 20 && zvec > t.limit[zn] {
      RunMtfBit(plan, lens, c, st, zn, zvec, bs);
      if bs != [] { RunCode(plan, lens, c, st, zn + 1, 2 * zvec + Bit(bs[0]), bs[1..]); }
    }
  }

  lemma OneBit(bs: seq<bool>)
    requires bs != []
    ensures GetBits(bs, 1) == Done(Bit(bs[0]), bs[1..])
  {
    assert bs[..1] == [bs[0]];
    assert bs[..1][1..] == [];
  }

  ghost function RunSymbol(plan: Plan, lens: seq<seq<int>>, c: Cursor, st: MF.State, sym: int,
                           bs: seq<bool>): (r: Parse<Event>)
    requires LensOk(plan, lens) && |lens| == plan.nGroups && StOk(st)
  {
    if 0 <= sym < AlphaSize(plan.inUse) then
      (SymbolMoveOk(plan, lens, c, st, sym);
       RunMove(SymbolMove(plan, lens, c, st, sym), bs))
    else Bad
  }

  lemma SymbolMoveOk(plan: Plan, lens: seq<seq<int>>, c: Cursor, st: MF.State, sym: int)
    requires LensOk(plan, lens) && |lens| == plan.nGroups && StOk(st) && 0 <= sym < AlphaSize(plan.inUse)
    ensures MoveOk(SymbolMove(plan, lens, c, st, sym).m)
  {
    hide MF.Step, Renamed;
    EnterSymbolOk(plan, lens, c);
  }

  /** The block from its symbols. */
  ghost function BlockEvent(plan: Plan, r: Parse<seq<int>>): (e: Parse<Event>) {
    match r
    case Done(last, rest) =>
      if plan.head.origPtr >= |last| then Bad
      else Done(BlockReady(plan.head.level, BlockData(plan.head.crc, plan.head.randomised, plan.head.origPtr, last)),
        rest)
    case NeedInput => NeedInput
    case Bad => Bad
  }

  ghost function RenamedAll(r: Parse<seq<int>>, used: seq<int>): (e: Parse<seq<int>>) {
    match r
    case Done(out, rest) => Done(Renamed(out, used), rest)
    case NeedInput => NeedInput
    case Bad => Bad
  }

  lemma LensReadable(plan: Plan, lens: seq<seq<int>>)
    requires LensOk(plan, lens) && |lens| == plan.nGroups
    ensures |plan.inUse| == 256 && Readable(lens, plan.sel, AlphaSize(plan.inUse)) && AlphaSize(plan.inUse) >= 3
  {
    forall t | 0 <= t < |lens| ensures |lens[t]| == AlphaSize(plan.inUse) && ValidLengths(lens[t]) {
      assert LenOk(lens[t]);
    }
  }

  /** What is left to do after one symbol, in one go. */
  ghost function AfterStep(o: MF.Outcome, bs: seq<bool>, plan: Plan, lens: seq<seq<int>>,
                           c: Cursor): (r: Parse<seq<int>>)
    requires |plan.inUse| == 256 && Readable(lens, plan.sel, AlphaSize(plan.inUse)) && c.groupNo >= -1
  {
    match o
    case More(st) =>
      if |st.list| != 256 then Bad
      else GetSymbols(bs, lens, plan.sel, c, st, AlphaSize(plan.inUse), 100000 * plan.head.level)
    case Finished(out) => Done(out, bs)
    case Corrupt => Bad
  }

  lemma GetSymbolsCases(plan: Plan, lens: seq<seq<int>>, c: Cursor, st: MF.State, bs: seq<bool>)
    requires LensOk(plan, lens) && |lens| == plan.nGroups && StOk(st) && c.groupNo >= -1
    requires |plan.inUse| == 256 && Readable(lens, plan.sel, AlphaSize(plan.inUse))
    ensures var r := GetSymbols(bs, lens, plan.sel, c, st, AlphaSize(plan.inUse), 100000 * plan.head.level);
            var c' := NextGroup(c);
            if c'.groupNo < 0 || c'.groupNo >= |plan.sel| then r == Bad
            else
              && 0 <= plan.sel[c'.groupNo] < |lens| && ValidLengths(lens[plan.sel[c'.groupNo]])
              && var t := TablesOf(lens[plan.sel[c'.groupNo]]);
              && |t.limit| >= 23 && |t.base| >= 23 && |t.perm| == 258
              && t.minLen == MinOf(lens[plan.sel[c'.groupNo]]) >= 1
              && var first := GetBits(bs, t.minLen);
              && if !first.Done? then first.NeedInput? && r == NeedInput
                 else
                   var code := ReadCode(t, first.rest, t.minLen, first.value);
                   if code.Done? then
                     && 0 <= code.value < AlphaSize(plan.inUse) && |code.rest| < |bs|
                     && AlphaSize(plan.inUse) - 1 <= 257
                     && r == AfterStep(MF.Step(st, code.value, AlphaSize(plan.inUse) - 1, 100000 * plan.head.level),
                       code.rest, plan, lens,
                                       Cursor(c'.groupNo, c'.groupPos - 1))
                   else r == if code.NeedInput? then NeedInput else Bad
  {
    hide *;
    var c' := NextGroup(c);
    LensReadable(plan, lens);
    AlphaBounds(plan.inUse);
    StIs(st);
    GetSymbolsUnfold(plan, lens, c, st, bs);
    if 0 <= c'.groupNo < |plan.sel| {
      MinBounds(plan, lens, c'.groupNo);
      var len := lens[plan.sel[c'.groupNo]];
      TablesMin(len);
      SymbolInRange(TablesOf(len), TablesOf(len), len, MaxOf(len), bs);
      ReadSymbolIs(TablesOf(len), bs);
    }
  }

  lemma StIs(st: MF.State)
    requires StOk(st)
    ensures |st.list| == 256
  {
  }

  lemma ReadSymbolIs(t: Tables, bs: seq<bool>)
    requires |t.limit| >= 23 && |t.base| >= 23 && |t.perm| == 258 && t.minLen >= 0
    ensures var first := GetBits(bs, t.minLen);
            if first.Done? then ReadSymbol(t, bs) == ReadCode(t, first.rest, t.minLen, first.value)
            else first.NeedInput? && ReadSymbol(t, bs) == NeedInput
  {
    hide ReadCode;
  }

  lemma GetSymbolsUnfold(plan: Plan, lens: seq<seq<int>>, c: Cursor, st: MF.State, bs: seq<bool>)
    requires |plan.inUse| == 256 && Readable(lens, plan.sel, AlphaSize(plan.inUse)) && |st.list| == 256
    requires c.groupNo >= -1
    ensures var r := GetSymbols(bs, lens, plan.sel, c, st, AlphaSize(plan.inUse), 100000 * plan.head.level);
            var c' := NextGroup(c);
            if c'.groupNo < 0 || c'.groupNo >= |plan.sel| then r == Bad
            else
              && 0 <= plan.sel[c'.groupNo] < |lens| && ValidLengths(lens[plan.sel[c'.groupNo]])
              && var t := TablesOf(lens[plan.sel[c'.groupNo]]);
              && |t.limit| >= 23 && |t.base| >= 23 && |t.perm| == 258 && t.minLen >= 0
              && var sym := ReadSymbol(t, bs);
              && (sym.Done? ==> 0 <= sym.value < AlphaSize(plan.inUse) <= 258)
              && r == (if sym.Done? then
                         AfterStep(MF.Step(st, sym.value, AlphaSize(plan.inUse) - 1, 100000 * plan.head.level),
                           sym.rest, plan, lens,
                                   Cursor(c'.groupNo, c'.groupPos - 1))
                       else if sym.NeedInput? then NeedInput else Bad)
  {
    hide TablesOf, ReadSymbol, AlphaSize, NextGroup;
    var c' := NextGroup(c);
    NextGroupIs(c);
    AlphaBounds(plan.inUse);
    if 0 <= c'.groupNo < |plan.sel| {
      var len := lens[plan.sel[c'.groupNo]];
      TablesMin(len);
      SymbolInRange(TablesOf(len), TablesOf(len), len, MaxOf(len), bs);
    }
  }

  lemma NextGroupIs(c: Cursor)
    ensures NextGroup(c).groupPos > 0 && NextGroup(c).groupNo >= c.groupNo
  {
  }

  /** Symbol by symbol, with a stop possible at every bit, the symbols are those read in one go. */
  lemma {:induction false} RunSymbols(plan: Plan, lens: seq<seq<int>>, c: Cursor, st: MF.State, bs: seq<bool>)
    requires LensOk(plan, lens) && |lens| == plan.nGroups && StOk(st) && c.groupNo >= -1
    ensures MoveOk(EnterSymbol(plan, lens, c)) && Readable(lens, plan.sel, AlphaSize(plan.inUse)) && |plan.inUse| == 256
    ensures RunMove(Moved(EnterSymbol(plan, lens, c), st), bs) ==
            BlockEvent(plan, RenamedAll(GetSymbols(bs, lens, plan.sel, c, st, AlphaSize(plan.inUse),
              100000 * plan.head.level),
                                        ME.Used(plan.inUse, 256)))
    decreases |bs|, 1
  {
    hide MF.Step, Settle, TablesOf, Renamed, ReadCode, LensOk, Readable, RunSymbol, GetSymbols, GetBits, AlphaSize,
         AfterStep, Run, MinOf;
    EnterSymbolOk(plan, lens, c);
    LensReadable(plan, lens);
    GetSymbolsCases(plan, lens, c, st, bs);
    var c' := NextGroup(c);
    if 0 <= c'.groupNo < |plan.sel| {
      var k := Cursor(c'.groupNo, c'.groupPos - 1);
      RunMtfFirst(plan, lens, k, st, bs);
      var t := TablesOf(lens[plan.sel[k.groupNo]]);
      var first := GetBits(bs, t.minLen);
      if first.Done? {
        RunCode(plan, lens, k, st, t.minLen, first.value, first.rest);
        var code := ReadCode(t, first.rest, t.minLen, first.value);
        if code.Done? { RunSymbolIs(plan, lens, k, st, code.value, code.rest, |bs|); }
      }
    }
  }

  lemma TablesMin(len: seq<int>)
    requires ValidLengths(len)
    ensures DecodeTables(TablesOf(len), len, MaxOf(len)) && TablesOf(len).minLen == MinOf(len)
    ensures |TablesOf(len).limit| >= 23 && |TablesOf(len).base| >= 23 && |TablesOf(len).perm| == 258
  {
  }

  lemma {:induction false} RunSymbolIs(plan: Plan, lens: seq<seq<int>>, c: Cursor, st: MF.State, sym: int,
                                       bs: seq<bool>, bound: nat)
    requires LensOk(plan, lens) && |lens| == plan.nGroups && StOk(st) && c.groupNo >= -1 && |bs| < bound
    requires 0 <= sym < AlphaSize(plan.inUse)
    ensures 0 <= AlphaSize(plan.inUse) - 1 <= 257 && Readable(lens, plan.sel, AlphaSize(plan.inUse))
    ensures |plan.inUse| == 256 && AlphaSize(plan.inUse) - 1 <= 257
    ensures RunSymbol(plan, lens, c, st, sym, bs) ==
            BlockEvent(plan, RenamedAll(AfterStep(MF.Step(st, sym, AlphaSize(plan.inUse) - 1, 100000 * plan.head.level),
              bs, plan, lens, c),
                                        ME.Used(plan.inUse, 256)))
    decreases bound, 0
  {
    hide Renamed;
    AlphaBounds(plan.inUse);
    LensReadable(plan, lens);
    SymbolMoveOk(plan, lens, c, st, sym);
    match MF.Step(st, sym, AlphaSize(plan.inUse) - 1, 100000 * plan.head.level)
    case More(st') => RunSymbols(plan, lens, c, st', bs);
    case Finished(out) =>
    case Corrupt =>
  }
}
