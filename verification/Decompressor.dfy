/** BZ2_bzDecompress: a stream decoded call by call, whatever pieces it arrives in and whatever
    space is offered for its text. */
module Decompressor {
  import opened Bytes
  import opened BitStrings
  import opened BitWriter
  import opened BitReader
  import opened CrcRegister
  import opened BlockChecksum
  import opened HuffmanCodes
  import opened BlockFormat
  import opened BlockBuilder
  import opened DecoderOutcome
  import opened DecoderSteps
  import opened DecoderText
  import opened StreamHeader
  import opened TextOutput
  import MD = MtfDecoder
  import BD = BwtDecoder
  import CT = Counting
  import MF = MoveToFront
  import ME = MtfEncoder

  /** Where the decoder is between two calls: one of the reading states, BZ_X_OUTPUT, BZ_X_IDLE,
      or after an error. */
  datatype Where = Parsing(p: Parser) | Output | Idle | Failed

  /** Whether a read found its bits. */
  datatype Pace = Onward | Starved

  datatype Status = StatusOk | StreamEnd | DataErrorMagic | DataError | SequenceError

  // ----- places

  /** How many bits a place other than the symbols reads. */
  function HeadNeed(p: Parser): (n: nat)
    ensures 1 <= n <= 20
  {
    match p
    case RandBit(_, _) => 1
    case Mapping1(_, _) => 1
    case Mapping2(_, _, _) => 1
    case Selector1(_, _) => 3
    case Selector2(_, _, _) => 15
    case Selector3(_, _, _, _, _, _) => 1
    case Coding1(_, _) => 5
    case Coding2(_, _, _, _) => 1
    case Coding3(_, _, _, _) => 1
    case _ => 8
  }

  lemma HeadNeedIs(p: Parser)
    requires Ok(p) && !p.Mtf?
    ensures HeadNeed(p) == Need(p)
  {
  }

  /** The level of the stream, once it is known. */
  function LevelOf(p: Parser): (level: nat) {
    match p
    case Magic(_) => 0
    case Level => 0
    case BlockHead(level, _) => level
    case BlockCrc(level, _, _) => level
    case RandBit(level, _) => level
    case OrigPtr(level, _, _, _, _) => level
    case Mapping1(head, _) => head.level
    case Mapping2(head, _, _) => head.level
    case Selector1(head, _) => head.level
    case Selector2(head, _, _) => head.level
    case Selector3(head, _, _, _, _, _) => head.level
    case Coding1(plan, _) => plan.head.level
    case Coding2(plan, _, _, _) => plan.head.level
    case Coding3(plan, _, _, _) => plan.head.level
    case Mtf(plan, _, _, _, _) => plan.head.level
    case EndHead(level, _) => level
    case EndCrc(level, _, _) => level
  }

  lemma {:induction false} RowLevel(head: Head, rows: seq<bool>, inUse: seq<bool>)
    requires |rows| == 16 && |inUse| <= 256 && |inUse| % 16 == 0
    ensures EnterRow(head, rows, inUse).Go? ==> LevelOf(EnterRow(head, rows, inUse).p) == head.level
    ensures EnterRow(head, rows, inUse).Go? ==>
      EnterRow(head, rows, inUse).p.Mapping2? || EnterRow(head, rows, inUse).p.Selector1?
    ensures !EnterRow(head, rows, inUse).Stop?
    decreases 256 - |inUse|
  {
    if |inUse| < 256 && !rows[|inUse| / 16] { RowLevel(head, rows, inUse + seq(16, _ => false)); }
  }

  method Advance(p: Parser, v: nat) returns (m: Move)
    requires Ok(p) && !p.Mtf?
    ensures MoveOk(m) && m == NextHead(p, v)
  {
    hide NextHead;
    NextHeadOk(p, v);
    m := NextHead(p, v);
  }

  /** The level is read once, and a place other than the symbols stops only at the trailer. */
  lemma HeadMoves(p: Parser, v: nat)
    requires Ok(p) && !p.Mtf?
    ensures var m := NextHead(p, v);
            && (m.Go? && p.Level? ==> m.p == BlockHead(v - 0x30, 0) && 1 <= LevelOf(m.p) <= 9)
            && (m.Go? && !p.Level? ==> LevelOf(m.p) == LevelOf(p))
            && (m.Go? && m.p.Mtf? ==> m.p.zn == 0 && !p.Level? && !p.Magic?)
            && (m.Go? ==> ((m.p.Level? || m.p.Magic?) <==> p.Magic?))
            && (m.Stop? ==> m.e.Trailer?)
  {
    hide Ok, NextHead, LevelOf;
    if Fixed(p) {
      FixedMoves(p, v);
    } else if p.Mapping1? || p.Mapping2? {
      MappingMoves(p, v);
    } else {
      ChoiceMoves(p, v);
    }
  }

  lemma FixedMoves(p: Parser, v: nat)
    requires Ok(p) && Fixed(p)
    ensures var m := NextHead(p, v);
            && (m.Go? && p.Level? ==> m.p == BlockHead(v - 0x30, 0) && 1 <= LevelOf(m.p) <= 9)
            && (m.Go? && !p.Level? ==> LevelOf(m.p) == LevelOf(p))
            && (m.Go? ==> !m.p.Mtf? && ((m.p.Level? || m.p.Magic?) <==> p.Magic?))
            && (m.Stop? ==> m.e.Trailer?)
  {
    hide EnterRow, EnterSelector, EnterLength, CheckLength, LensOk, LenOk, AlphaSize, ME.Used;
  }

  lemma MappingMoves(p: Parser, v: nat)
    requires Ok(p) && (p.Mapping1? || p.Mapping2?)
    ensures var m := NextHead(p, v);
            (m.Go? ==> LevelOf(m.p) == LevelOf(p) && !m.p.Mtf? && !m.p.Level? && !m.p.Magic?) && !m.Stop?
  {
    hide EnterRow, EnterSelector, EnterLength, CheckLength, LensOk, LenOk, AlphaSize, ME.Used;
    match p
    case Mapping1(head, rows) => if |rows| == 15 { RowLevel(head, rows + [v == 1], []); }
    case Mapping2(head, rows, inUse) => if |inUse| % 16 == 15 { RowLevel(head, rows, inUse + [v == 1]); }
  }

  /** Selectors and coding tables. */
  lemma ChoiceMoves(p: Parser, v: nat)
    requires Ok(p) && !p.Mtf? && !Fixed(p) && !p.Mapping1? && !p.Mapping2?
    ensures var m := NextHead(p, v);
            (m.Go? ==> LevelOf(m.p) == LevelOf(p) && (m.p.Mtf? ==> m.p.zn == 0) && !m.p.Level? && !m.p.Magic?)
              && !m.Stop?
  {
    hide EnterRow, LensOk, LenOk, AlphaSize, ME.Used, SelectorsOf;
    if p.Coding1? || p.Coding2? || p.Coding3? { LensSized(p.plan, p.lens); }
  }

  // ----- coding tables

  /** The tables made for the lengths read. */
  ghost predicate TablesFor(tables: seq<Tables>, lens: seq<seq<int>>) {
    && |lens| <= |tables|
    && forall t :: 0 <= t < |lens| ==>
      |lens[t]| > 0 && DecodeTables(tables[t], lens[t], MaxOf(lens[t])) && tables[t].minLen == MinOf(lens[t])
  }

  ghost predicate PermSized(tables: seq<Tables>) {
    forall t :: 0 <= t < |tables| ==> |tables[t].perm| == 258
  }

  /** The bounds of a table of code lengths, from the bounds 32 and 0. */
  method Bounds(len: seq<int>) returns (minLen: int, maxLen: int)
    requires LenOk(len) && len != []
    ensures minLen == MinOf(len) && maxLen == MaxOf(len)
  {
    minLen, maxLen := 32, 0;
    for i := 0 to |len|
      invariant forall k :: 0 <= k < i ==> minLen <= len[k] <= maxLen
      invariant if i == 0 then minLen == 32 && maxLen == 0 else minLen in len && maxLen in len
    {
      if len[i] > maxLen { maxLen := len[i]; }
      if len[i] < minLen { minLen := len[i]; }
    }
  }

  /** BZ2_hbCreateDecodeTables for every table; perm keeps what it held beyond the alphabet. */
  method MakeTables(tables0: seq<Tables>, plan: Plan, lens: seq<seq<int>>) returns (tables: seq<Tables>)
    requires LensOk(plan, lens) && |lens| <= |tables0| && PermSized(tables0)
    ensures |tables| == |tables0| && PermSized(tables) && TablesFor(tables, lens)
  {
    hide AlphaSize, DecodeTables, LenOk;
    tables := tables0;
    for t := 0 to |lens|
      invariant |tables| == |tables0| && PermSized(tables) && TablesFor(tables, lens[..t])
    {
      LengthsOf(plan, lens, t);
      var minLen, maxLen := Bounds(lens[t]);
      var made := CreateDecodeTables(tables[t].perm, lens[t], minLen, maxLen);
      MadeSized(made, lens[t], maxLen);
      tables := tables[t := made];
      assert lens[..t + 1] == lens[..t] + [lens[t]];
    }
    assert lens[..|lens|] == lens;
  }

  lemma LengthsOf(plan: Plan, lens: seq<seq<int>>, t: nat)
    requires LensOk(plan, lens) && t < |lens|
    ensures LenOk(lens[t]) && lens[t] != [] && ValidLengths(lens[t]) && 1 <= MinOf(lens[t]) <= MaxOf(lens[t]) <= 20
  {
    AlphaBounds(plan.inUse);
    assert LenOk(lens[t]);
  }

  lemma MadeSized(t: Tables, len: seq<int>, maxLen: int)
    requires DecodeTables(t, len, maxLen)
    ensures |t.limit| == 23 && |t.base| == 23 && |t.perm| == 258
  {
  }

  /** The step at a code, made by the stored tables: the symbol looked up is always one of the
      alphabet, whatever the stale entries of perm. */
  lemma SettleBy(plan: Plan, lens: seq<seq<int>>, c: Cursor, st: MF.State, zn: nat, zvec: nat, t: Tables)
    requires LensOk(plan, lens) && |lens| == plan.nGroups && 0 <= c.groupNo < |plan.sel| && StOk(st)
    requires 0 <= plan.sel[c.groupNo] < |lens| && |lens[plan.sel[c.groupNo]]| > 0
    requires DecodeTables(t, lens[plan.sel[c.groupNo]], MaxOf(lens[plan.sel[c.groupNo]]))
    requires t.minLen == MinOf(lens[plan.sel[c.groupNo]]) && zn >= t.minLen
    ensures |t.limit| == 23 && |t.base| == 23 && |t.perm| == 258
    ensures var r := Settle(plan, lens, c, st, zn, zvec);
            if zn > 20 then r == Moved(Fail, st)
            else if zvec > t.limit[zn] then r == Moved(Go(Mtf(plan, lens, c, zn, zvec)), st)
            else if zvec - t.base[zn] < 0 || zvec - t.base[zn] >= 258 then r == Moved(Fail, st)
            else
              && 0 <= t.perm[zvec - t.base[zn]] < AlphaSize(plan.inUse)
              && r == SymbolMove(plan, lens, c, st, t.perm[zvec - t.base[zn]])
  {
    hide SymbolMove, TablesOf, MF.Step, Settle, AlphaSize, LensOk, First, CT.Slot, CT.Below, HuffmanCodes.Next;
    SettleCases(plan, lens, c, st, zn, zvec);
    var len := lens[plan.sel[c.groupNo]];
    MinBounds(plan, lens, c.groupNo);
    TablesMin(len);
    MadeSized(t, len, MaxOf(len));
    if zn <= MaxOf(len) && zvec <= t.limit[zn] && 0 <= zvec - t.base[zn] < 258 {
      ReadIndex(t, TablesOf(len), len, MaxOf(len), zn, zvec);
    }
  }

  lemma NextAtCode(plan: Plan, lens: seq<seq<int>>, c: Cursor, zn: nat, zvec: nat, st: MF.State, v: nat)
    requires Ok(Mtf(plan, lens, c, zn, zvec)) && StOk(st)
    ensures DecoderSteps.Next(Mtf(plan, lens, c, zn, zvec), st, v) ==
            if zn == 0 then Settle(plan, lens, c, st, Need(Mtf(plan, lens, c, zn, zvec)), v)
            else Settle(plan, lens, c, st, zn + 1, 2 * zvec + v)
  {
    hide Settle, Need;
  }

  // ----- the end of a block's symbols

  ghost predicate Nibbles(n: nat, ll4: seq<int>) {
    n <= 2 * |ll4| && forall i :: 0 <= i < |ll4| ==> 0 <= ll4[i] < 0x100
  }

  lemma PackedParts(ll16: seq<int>, ll4: seq<int>)
    ensures BD.PackedValid(ll16, ll4) <==> MD.Halfwords(ll16) && Nibbles(|ll16|, ll4)
  {
  }

  /** What the builder holds at the end: the last column, its length and its counts. */
  lemma ColumnMade(cells: seq<int>, nblock: nat, unzftab: seq<int>, out: seq<int>, seqToUnseq: seq<int>, used: seq<int>)
    requires MD.Produced(cells, nblock, unzftab, out, seqToUnseq) && Maps(seqToUnseq, used) && InRange(out, |used|)
    ensures nblock == |out| <= |cells| && cells[..nblock] == Renamed(out, used) && |unzftab| == 256
    ensures Tallied(unzftab, Renamed(out, used)) && IsBytes(Renamed(out, used))
  {
    RenamesAgree(out, seqToUnseq, used);
    var last := Renamed(out, used);
    assert MD.Rename(out, seqToUnseq) == last;
    forall i | 0 <= i < |last| ensures 0 <= last[i] < 256 {
      assert last[i] == seqToUnseq[out[i]];
    }
    forall c | 0 <= c < 256 ensures unzftab[c] == CT.Occurs(last, |last|, c) { }
  }

  /** Where the last symbol leads. */
  lemma FinishIs(plan: Plan, out: seq<int>, last: seq<int>, combined: Word)
    requires |plan.inUse| == 256 && last == Renamed(out, ME.Used(plan.inUse, 256))
    ensures Entered(Moved(Finish(plan, out), FreshState()), combined) ==
            if plan.head.origPtr >= |last| then Broken([], Wrong)
            else Giving(plan.head.level, plan.head.crc, plan.head.randomised, Ones(),
                        RestOf(BlockData(plan.head.crc, plan.head.randomised, plan.head.origPtr, last)))
  {
    hide RestOf, Renamed, ME.Used;
  }

  lemma OutputSized(o: TextOutput.Output, level: nat)
    requires o.Allocated(level)
    ensures o.blockSize100k == level
  {
    hide BD.PackedValid;
  }

  lemma GivingIs(d: Decoder)
    requires d.state.Output? && 1 <= d.output.blockSize100k <= 9 && d.output.Allocated(d.output.blockSize100k)
    requires d.output.Valid()
    ensures d.Placed()
    ensures d.Now() == Giving(d.output.blockSize100k, d.storedBlockCRC, d.output.blockRandomised,
                              d.output.calculatedBlockCRC,
                              d.output.Due(d.output.stateOutLen))
  {
    hide TextOutput.Output.Valid, TextOutput.Output.Due, TextOutput.Output.Allocated;
  }

  lemma RefusedIs(d: Decoder)
    requires d.state.Failed?
    ensures d.Placed() && d.Now() == Broken(d.lost, d.fault)
  {
  }

  /** The six tables before any is made. */
  function FreshTables(): (r: seq<Tables>)
    ensures |r| == 6 && forall t :: 0 <= t < 6 ==> |r[t].perm| == 258
  {
    seq(6, _ => Tables([], [], seq(258, _ => 0), 0))
  }

  lemma NothingRead(unread: seq<bool>)
    requires unread == ByteBits([])
    ensures Tells(ByteBits([]), [], Reading(Magic(0), FreshState()), Zero(32), unread)
  {
    TellsAtStart(FreshState());
  }

  class Decoder {
    const reader: Reader
    const builder: Builder
    const output: TextOutput.Output
    var state: Where
    /** limit, base, perm and minLens of the coding tables. */
    var tables: seq<Tables>
    var storedBlockCRC: nat
    var calculatedCombinedCRC: Word
    var nextOut: seq<int>
    var availOut: nat
    /** All input so far. */
    ghost var all: seq<int>
    /** After a refusal: the bytes given before it of which the caller was not told, and the reason. */
    ghost var lost: seq<int>
    ghost var fault: Fault

    ghost function Stuff(): (r: set<object>)
      reads output`tt, output`ll16, output`ll4
    {
      {this, reader, builder, builder.mtf, builder.mtf.mtfa, builder.mtf.mtfbase, output, output.tt, output.ll16,
        output.ll4}
    }

    ghost predicate Wired()
      reads `tables, builder`cells, builder`narrow, builder`seqToUnseq, output`tt, output`ll16, output`ll4
    {
      && builder.Apart() && builder.cells == output.Column() && builder.narrow == output.small
      && {builder.mtf.mtfa, builder.mtf.mtfbase} !! {output.tt, output.ll16, output.ll4}
      && output.ll16 != output.ll4 && output.tt != output.ll16 && output.tt != output.ll4
      && |tables| == 6 && PermSized(tables)
      && |builder.seqToUnseq| == 256 && IsBytes(builder.seqToUnseq)
    }

    /** In the middle of the symbols of a block. */
    ghost predicate Decoding(plan: Plan, lens: seq<seq<int>>)
      reads `tables, builder, builder.mtf, builder.mtf.mtfa, builder.mtf.mtfbase, builder.cells, output, output.ll4
    {
      && LensOk(plan, lens) && |lens| == plan.nGroups && TablesFor(tables, lens) && 1 <= plan.head.level <= 9
      && builder.Valid() && builder.used == ME.Used(plan.inUse, 256) && builder.nblock <= 100000 * plan.head.level
      && output.Sized(plan.head.level) && (output.small ==> Nibbles(output.ll16.Length, output.ll4[..]))
    }

    /** The length of the code read so far is none or at least the shortest. */
    ghost predicate CodeBegun(p: Parser)
      requires p.Mtf? && Ok(p)
    {
      p.zn == 0 || p.zn >= Need(p.(zn := 0))
    }

    ghost predicate Placed()
      reads `state, `tables, builder, builder.mtf, builder.mtf.mtfa, builder.mtf.mtfbase, builder.cells, output,
            output.tt, output.ll16, output.ll4
    {
      match state
      case Parsing(p) =>
        && Ok(p)
        && (if p.Mtf? then Decoding(p.plan, p.lens) && CodeBegun(p)
            else p.Magic? || p.Level? || (1 <= LevelOf(p) <= 9 && output.Allocated(LevelOf(p))))
      case Output => 1 <= output.blockSize100k <= 9 && output.Allocated(output.blockSize100k) && output.Valid()
      case _ => true
    }

    /** What the state means. */
    ghost function Now(): (s: Stage)
      reads `state, `storedBlockCRC, `lost, `fault, builder, output, output.tt, output.ll16, output.ll4
    {
      match state
      case Parsing(p) => Reading(p, if p.Mtf? then builder.st else FreshState())
      case Output =>
        if output.Valid() then
          Giving(output.blockSize100k, storedBlockCRC, output.blockRandomised, output.calculatedBlockCRC,
                 output.Due(output.stateOutLen))
        else Broken([], Wrong)
      case Idle => Over
      case Failed => Broken(lost, fault)
    }

    ghost predicate Valid()
      reads `state, `tables, `storedBlockCRC, `calculatedCombinedCRC, `nextOut, `all, `lost, `fault
      reads reader, builder, builder.mtf, builder.mtf.mtfa, builder.mtf.mtfbase, builder.cells
      reads output, output.tt, output.ll16, output.ll4
    {
      && Wired() && Placed() && reader.Valid() && IsBytes(all)
      && Tells(ByteBits(all), nextOut, Now(), calculatedCombinedCRC, reader.Unread())
    }

    /** Where the decoder stands in the header of the stream, or that the header was good. */
    ghost predicate Headed()
      reads `state, `all, reader
    {
      reader.Valid() && Heads(state, all, reader.Unread())
    }

    /** BZ2_bzDecompressInit */
    constructor (small: bool)
      ensures fresh(Stuff())
      ensures Valid() && Headed()
      ensures state == Parsing(Magic(0)) && all == [] && nextOut == [] && output.small == small
    {
      hide Tells, ByteBits, BD.PackedValid, Valid, Wired, Placed, Now, Reader.Valid, Reader.Unread, IsBytes, Headed,
           Heads;
      hide FreshTables, TextOutput.Output.Allocated, TextOutput.Output.Sized;
      reader := new Reader([]);
      var b := new Builder();
      builder := b;
      var o := new TextOutput.Output(small);
      output := o;
      state := Parsing(Magic(0));
      tables := FreshTables();
      storedBlockCRC, calculatedCombinedCRC := 0, Zero(32);
      nextOut, availOut := [], 0;
      all, lost, fault := [], [], Wrong;
      new;
      builder.cells := output.Column();
      builder.narrow := small;
      FreshDecoder(this);
      FreshHeaded(this);
    }

    /** The last column of a block is complete: its text becomes due. */
    method BeginOutput(head: Head, ghost last: seq<int>)
      requires Wired() && 1 <= head.level <= 9 && output.Allocated(head.level)
      requires head.origPtr < builder.nblock <= 100000 * head.level && output.ColumnIs(builder.nblock, last)
      requires |builder.unzftab| == 256 && Tallied(builder.unzftab, last) && IsBytes(last)
      modifies this`state, this`storedBlockCRC, output, output.tt, output.ll16, output.ll4
      ensures Wired() && Placed() && Stuff() == old(Stuff())
      ensures Now() == Giving(head.level, head.crc, head.randomised, Ones(),
        RestOf(BlockData(head.crc, head.randomised, head.origPtr, last)))
    {
      hide Tallied, BD.PackedValid, Whole, Unrun, CharAt, TextOutput.Output.Valid, TextOutput.Output.Due, RestOf;
      hide TextOutput.Output.ColumnIs, TextOutput.Output.Allocated, Wired, Now, Placed, IsBytes;
      OutputSized(output, head.level);
      var _ := output.Begin(head.origPtr, builder.nblock, builder.unzftab, head.randomised, last);
      WholeText(BlockData(head.crc, head.randomised, head.origPtr, last), output.s);
      storedBlockCRC := head.crc;
      state := Output;
      GivingIs(this);
    }

    /** The last symbol of a block has been read. */
    method FinishBlock(plan: Plan, lens: seq<seq<int>>, ghost out: seq<int>)
      requires Wired() && Decoding(plan, lens) && builder.st.out == out && |plan.inUse| == 256
      modifies Stuff()
      ensures Wired() && Placed() && Now() == Entered(Moved(Finish(plan, out), FreshState()), calculatedCombinedCRC)
      ensures unchanged(reader) && unchanged(this`all) && unchanged(this`nextOut) && unchanged(this`availOut)
      ensures calculatedCombinedCRC == old(calculatedCombinedCRC) && Stuff() == old(Stuff())
    {
      hide LensOk, TablesFor, Maps, MD.Produced, InRange, Tallied, Nibbles, BD.PackedValid, MD.Halfwords, Builder.Valid;
      hide Decoding, Now, Placed, TextOutput.Output.Valid, Renamed, RestOf, IsBytes, FreshState, ME.Used, Finish,
           Entered;
      DecodingIs(this, plan, lens);
      ghost var last := Renamed(out, builder.used);
      ColumnMade(builder.cells[..], builder.nblock, builder.unzftab, out, builder.seqToUnseq, builder.used);
      FinishIs(plan, out, last, calculatedCombinedCRC);
      if plan.head.origPtr >= builder.nblock {
        state, lost, fault := Failed, [], Wrong;
        RefusedIs(this);
        return;
      }
      PackedParts(output.ll16[..], output.ll4[..]);
      BeginOutput(plan.head, last);
    }

    /** A symbol has been read. */
    method TakeSymbol(plan: Plan, lens: seq<seq<int>>, c: Cursor, sym: nat)
      requires Wired() && Decoding(plan, lens) && PlanOk(plan) && StOk(builder.st) && sym < AlphaSize(plan.inUse)
      requires 0 <= c.groupNo
      modifies Stuff()
      ensures Wired() && Placed()
      ensures Now() == Entered(SymbolMove(plan, lens, c, old(builder.st), sym), calculatedCombinedCRC)
      ensures unchanged(reader) && unchanged(this`all) && unchanged(this`nextOut) && unchanged(this`availOut)
      ensures calculatedCombinedCRC == old(calculatedCombinedCRC) && Stuff() == old(Stuff())
    {
      hide LensOk, TablesFor, Builder.Valid, Nibbles, TextOutput.Output.Valid, TextOutput.Output.Due, MF.Step, Renamed,
           RestOf, FreshState, Decoding;
      hide MD.Produced, Maps, InRange, ME.Used, BD.PackedValid, MD.Halfwords, EnterSymbol, AlphaSize, Need, Ok,
           IsBytes, PlanOk;
      DecodingIs(this, plan, lens);
      CodeFacts(plan, lens, c, builder.used);
      var told := builder.Symbol(sym, AlphaSize(plan.inUse) - 1, 100000 * plan.head.level);
      match told
      case Bad => state, lost, fault := Failed, [], Wrong;
      case Further =>
        DecodingAgain(this, plan, lens);
        match EnterSymbol(plan, lens, c) {
          case Fail => state, lost, fault := Failed, [], Wrong;
          case Go(p) => state := Parsing(p);
        }
      case Full =>
        DecodingAgain(this, plan, lens);
        FinishBlock(plan, lens, builder.st.out);
    }

    /** Some bits of a code have been read: a symbol, or a wait for the next bit. */
    method SettleCode(plan: Plan, lens: seq<seq<int>>, c: Cursor, zn: nat, zvec: nat)
      requires Wired() && Decoding(plan, lens) && 0 <= c.groupNo < |plan.sel|
      requires LensOk(plan, lens) && |lens| == plan.nGroups && StOk(builder.st)
      requires 0 <= plan.sel[c.groupNo] < |lens| && |lens[plan.sel[c.groupNo]]| > 0
      requires zn >= MinOf(lens[plan.sel[c.groupNo]]) >= 1
      modifies Stuff()
      ensures Wired() && Placed()
      ensures Now() == Entered(Settle(plan, lens, c, old(builder.st), zn, zvec), calculatedCombinedCRC)
      ensures unchanged(reader) && unchanged(this`all) && unchanged(this`nextOut) && unchanged(this`availOut)
      ensures calculatedCombinedCRC == old(calculatedCombinedCRC) && Stuff() == old(Stuff())
    {
      hide Builder.Valid, Nibbles, TextOutput.Output.Valid, TextOutput.Output.Due, RestOf, FreshState, Decoding,
           Settle, SymbolMove, LensOk, DecodeTables;
      hide MD.Produced, Maps, InRange, ME.Used, BD.PackedValid, MD.Halfwords, AlphaSize, IsBytes, MinOf;
      DecodingIs(this, plan, lens);
      var t := tables[plan.sel[c.groupNo]];
      SettleBy(plan, lens, c, builder.st, zn, zvec, t);
      if zn > 20 { state, lost, fault := Failed, [], Wrong; return; }
      if zvec > t.limit[zn] {
        state := Parsing(Mtf(plan, lens, c, zn, zvec));
        return;
      }
      if zvec - t.base[zn] < 0 || zvec - t.base[zn] >= 258 { state, lost, fault := Failed, [], Wrong; return; }
      PlanIs(plan, lens);
      TakeSymbol(plan, lens, c, t.perm[zvec - t.base[zn]]);
    }

    /** One read among the symbols. */
    method CodeStep() returns (pace: Pace)
      requires Valid() && state.Parsing? && state.p.Mtf? && Headed()
      modifies Stuff()
      ensures Valid() && Stuff() == old(Stuff()) && Headed() && GoodHeader(all)
      ensures unchanged(this`all) && unchanged(this`nextOut) && unchanged(this`availOut)
      ensures state.Failed? ==> lost == [] && fault == Wrong
      ensures pace == Starved ==>
        state == old(state) && reader.nextIn == |reader.input| && YieldStream(ByteBits(all)) == Hungry(nextOut)
      ensures pace == Onward ==> |reader.Unread()| < |old(reader.Unread())|
    {
      hide Builder.Valid, TextOutput.Output.Valid, TextOutput.Output.Due, FreshState, Decoding, Settle,
           DecoderSteps.Next, Ok, Entered, Tells, YieldStream;
      hide ME.Used, AlphaSize, MinOf, Reader.Valid, Reader.Unread, GetBits, ByteBits, LensOk, Need, Wired, Placed;
      CodeIs(this);
      var p := state.p;
      ghost var st := builder.st;
      var n := if p.zn == 0 then tables[p.plan.sel[p.c.groupNo]].minLen else 1;
      TellsAfterRead(ByteBits(all), nextOut, p, st, calculatedCombinedCRC, reader.Unread());
      var ok, v := reader.Get(n);
      if !ok { return Starved; }
      NextAtCode(p.plan, p.lens, p.c, p.zn, p.zvec, st, v);
      if p.zn == 0 {
        SettleCode(p.plan, p.lens, p.c, n, v);
        SettleStays(p.plan, p.lens, p.c, st, n, v);
      } else {
        SettleCode(p.plan, p.lens, p.c, p.zn + 1, 2 * p.zvec + v);
        SettleStays(p.plan, p.lens, p.c, st, p.zn + 1, 2 * p.zvec + v);
      }
      pace := Onward;
      StateOf(this, DecoderSteps.Next(p, st, v));
    }

    /** The header of the stream is complete: the arrays for its block size. */
    method EnterLevel(level: nat)
      requires Wired() && 1 <= level <= 9
      modifies Stuff()
      ensures Wired() && Placed() && state == Parsing(BlockHead(level, 0)) && Now() == Reading(state.p, FreshState())
      ensures unchanged(reader) && unchanged(this`all) && unchanged(this`nextOut) && unchanged(this`availOut)
      ensures calculatedCombinedCRC == old(calculatedCombinedCRC) && fresh(Stuff() - old(Stuff()))
    {
      hide BD.PackedValid, FreshState, IsBytes, PermSized;
      output.Allocate(level);
      builder.cells, builder.narrow := output.Column(), output.small;
      state := Parsing(BlockHead(level, 0));
    }

    /** All coding tables are read: they are made, and the symbols begin. */
    method EnterSymbols(p: Parser)
      requires Wired() && p.Mtf? && p.zn == 0 && Ok(p) && 1 <= LevelOf(p) <= 9 && output.Allocated(LevelOf(p))
      modifies Stuff()
      ensures Wired() && Placed() && state == Parsing(p) && Now() == Reading(p, FreshState())
      ensures unchanged(reader) && unchanged(this`all) && unchanged(this`nextOut) && unchanged(this`availOut)
      ensures calculatedCombinedCRC == old(calculatedCombinedCRC) && Stuff() == old(Stuff())
    {
      hide BD.PackedValid, Builder.Valid, MD.Halfwords, Nibbles, LensOk, TablesFor, PermSized, ME.Used, TablesOf;
      LensUsed(p.plan, p.lens);
      PackedParts(output.ll16[..], output.ll4[..]);
      builder.Start(p.plan.inUse);
      StartBytes(builder);
      tables := MakeTables(tables, p.plan, p.lens);
      state := Parsing(p);
      DecodingAgain(this, p.plan, p.lens);
    }

    /** The end of the stream, or a refusal. */
    method EndReading(good: bool)
      modifies this`state, this`lost, this`fault
      ensures Placed() && Now() == if good then Over else Broken([], Wrong)
    {
      state, lost, fault := if good then Idle else Failed, [], Wrong;
    }

    /** The value read at a place other than the symbols takes the decoder to the next place. */
    method Enter(p: Parser, v: nat)
      requires Wired() && Ok(p) && !p.Mtf?
      requires p.Magic? || p.Level? || (1 <= LevelOf(p) <= 9 && output.Allocated(LevelOf(p)))
      modifies Stuff()
      ensures Wired() && Placed()
      ensures Now() == Entered(DecoderSteps.Next(p, FreshState(), v), calculatedCombinedCRC)
      ensures unchanged(reader) && unchanged(this`all) && unchanged(this`nextOut) && unchanged(this`availOut)
      ensures calculatedCombinedCRC == old(calculatedCombinedCRC) && fresh(Stuff() - old(Stuff()))
    {
      hide Builder.Valid, TextOutput.Output.Allocated, FreshState, NextHead, DecoderSteps.Next, LevelOf, FromBits, Ok;
      HeadMoves(p, v);
      NextAtHead(p, FreshState(), v);
      var m := Advance(p, v);
      match m
      case Fail => EndReading(false);
      case Stop(e) => EndReading(e.crc == FromBits(calculatedCombinedCRC));
      case Go(next) =>
        if p.Level? {
          LevelIs(next);
          EnterLevel(v - 0x30);
        } else if next.Mtf? {
          EnterSymbols(next);
        } else {
          state := Parsing(next);
        }
    }

    /** One read outside the symbols. */
    method HeadStep() returns (pace: Pace)
      requires Valid() && state.Parsing? && !state.p.Mtf? && Headed()
      modifies Stuff()
      ensures Valid() && fresh(Stuff() - old(Stuff())) && Headed()
      ensures state.Failed? ==> if InHeader(old(state.p)) then BadHeader(all) else GoodHeader(all)
      ensures unchanged(this`all) && unchanged(this`nextOut) && unchanged(this`availOut)
      ensures state.Failed? ==> lost == [] && fault == Wrong
      ensures pace == Starved ==>
        state == old(state) && reader.nextIn == |reader.input| && YieldStream(ByteBits(all)) == Hungry(nextOut)
      ensures pace == Onward ==> |reader.Unread()| < |old(reader.Unread())|
    {
      hide Builder.Valid, TextOutput.Output.Valid, TextOutput.Output.Due, FreshState, Decoding, DecoderSteps.Next, Ok,
           Entered, Tells, YieldStream;
      hide Reader.Valid, Reader.Unread, GetBits, ByteBits, Need, Wired, Placed, TextOutput.Output.Allocated, HeadNeed,
           LevelOf;
      HeadIs(this);
      var p := state.p;
      HeadNeedIs(p);
      TellsAfterRead(ByteBits(all), nextOut, p, FreshState(), calculatedCombinedCRC, reader.Unread());
      ghost var unread := reader.Unread();
      var ok, v := reader.Get(HeadNeed(p));
      if !ok { return Starved; }
      HeaderMove(p, all, unread, v, reader.Unread());
      NextAtHead(p, FreshState(), v);
      HeadMoves(p, v);
      Enter(p, v);
      pace := Onward;
      StateOf(this, DecoderSteps.Next(p, FreshState(), v));
    }

    /** The whole text of a block has been given out: its checksum decides, and enters the one of
        the stream. */
    method EndBlock() returns (ok: bool)
      requires Valid() && state.Output? && output.nblockUsed == output.saveNblock + 1 && output.stateOutLen == 0
      modifies this`state, this`calculatedCombinedCRC, this`lost, this`fault, output`calculatedBlockCRC
      ensures Valid() && (GoodHeader(all) ==> Headed())
      ensures if ok then state.Parsing? else state.Failed? && lost == [] && fault == Wrong
    {
      hide *;
      OutputIs(this);
      NothingDue(output);
      TellsAfterBlock(ByteBits(all), nextOut, output.blockSize100k, storedBlockCRC, output.blockRandomised,
                      output.calculatedBlockCRC, calculatedCombinedCRC, FreshState(), reader.Unread());
      ghost var sum := Xor(output.calculatedBlockCRC, Ones());
      output.calculatedBlockCRC := Xor(output.calculatedBlockCRC, Ones());
      if FromBits(output.calculatedBlockCRC) != storedBlockCRC {
        TellsRefused(ByteBits(all), nextOut, [], Wrong, Combine(calculatedCombinedCRC, sum), calculatedCombinedCRC,
          reader.Unread());
        state, lost, fault := Failed, [], Wrong;
        FailedIs(this);
        return false;
      }
      calculatedCombinedCRC := Combine(calculatedCombinedCRC, output.calculatedBlockCRC);
      state := Parsing(BlockHead(output.blockSize100k, 0));
      BetweenIs(this);
      ok := true;
    }

    /** Between the calls of the look-ahead loop: a byte is due, or the block is complete. */
    ghost predicate Known()
      reads output, output.tt, output.ll16, output.ll4
    {
      && output.Valid()
      && (output.Due(output.stateOutLen).bytes != []
          || (output.nblockUsed == output.saveNblock + 1 && output.stateOutLen == 0))
    }

    /** The block is cut short after the bytes out, for which there was room. */
    method CutOff(out: seq<int>, left: nat, ghost level: nat, ghost crc: Word)
      requires Wired() && reader.Valid() && IsBytes(all) && |out| + left == availOut
      requires output.small || output.blockRandomised ==> left > 0
      requires Tells(ByteBits(all), nextOut,
                     Giving(level, storedBlockCRC, output.blockRandomised, crc, Rest(out, true)),
                     calculatedCombinedCRC, reader.Unread())
      modifies this`state, this`lost, this`fault, this`nextOut, this`availOut
      ensures Valid() && state.Failed? && Needed(nextOut + lost, fault, output.small) <= |nextOut| + availOut
      ensures old(nextOut) <= nextOut && |nextOut| + availOut == |old(nextOut)| + old(availOut)
    {
      hide Tells, ByteBits, Reader.Valid, Reader.Unread, Wired, Placed, Now, Valid, StageOk, IsBytes;
      TellsCut(ByteBits(all), nextOut, level, storedBlockCRC, output.blockRandomised, crc, out,
               calculatedCombinedCRC, reader.Unread());
      lost, fault := out, Cut(output.blockRandomised);
      // the look-ahead loop returns before it has stored how far it got
      if output.small || output.blockRandomised { nextOut, availOut, lost := nextOut + out, left, []; }
      state := Failed;
      NeededIs(nextOut, lost, output.blockRandomised, output.small);
      FailedIs(this);
    }

    /** unRLE_obuf_to_output, in the form chosen at the start. */
    method GiveText() returns (corrupt: bool)
      requires Valid() && state.Output?
      modifies Stuff()
      ensures Valid() && Stuff() == old(Stuff()) && unchanged(this`all) && unchanged(reader)
      ensures old(Headed()) ==> Headed() && GoodHeader(all)
      ensures old(nextOut) <= nextOut && |nextOut| + availOut == |old(nextOut)| + old(availOut)
      ensures if corrupt then state.Failed? && Needed(nextOut + lost, fault, output.small) <= |nextOut| + availOut
              else
                && state.Output?
                && (availOut == 0 || (output.nblockUsed == output.saveNblock + 1 && output.stateOutLen == 0))
                && (!output.small && !output.blockRandomised ==> Known())
    {
      hide TextOutput.Output.Valid, TextOutput.Output.Due, TextOutput.Output.Allocated, FreshState, Tells, ByteBits,
           Reader.Valid, Reader.Unread;
      hide Given, Wired, Placed, Now, Valid, StageOk;
      OutputIs(this);
      ghost var due0, crc0, unread := output.Due(output.stateOutLen), output.calculatedBlockCRC, reader.Unread();
      ghost var level := output.blockSize100k;
      var out, left;
      corrupt, out, left := output.ToOutput(availOut);
      if corrupt {
        CutOff(out, left, level, crc0);
        return;
      }
      ghost var due := output.Due(output.stateOutLen);
      TellsAfterGiving(ByteBits(all), nextOut, level, storedBlockCRC, output.blockRandomised, due0, crc0, out, due,
                       output.calculatedBlockCRC, calculatedCombinedCRC, unread);
      nextOut, availOut := nextOut + out, left;
      StillOutput(this);
    }

    /** BZ2_decompress: places are read until a block is complete, the stream ends, the data are
        refused, or the input runs out. */
    method Read() returns (status: Status)
      requires Valid() && state.Parsing? && Headed()
      modifies Stuff()
      ensures Valid() && fresh(Stuff() - old(Stuff())) && Headed()
      ensures unchanged(this`all) && unchanged(this`nextOut) && unchanged(this`availOut)
      ensures match status
              case StatusOk =>
                if state.Output? then |reader.Unread()| < |old(reader.Unread())|
                else state.Parsing? && reader.nextIn == |reader.input| && YieldStream(ByteBits(all)) == Hungry(nextOut)
              case StreamEnd => state.Idle?
              case DataErrorMagic => state.Failed? && BadHeader(all) && lost == [] && fault == Wrong
              case DataError => state.Failed? && GoodHeader(all) && lost == [] && fault == Wrong
              case SequenceError => false
    {
      hide Valid, Reader.Unread, YieldStream, ByteBits;
      ReaderIs(this);
      while true
        invariant Valid() && Headed() && state.Parsing? && reader.Valid() && |reader.Unread()| <= |old(reader.Unread())|
        invariant fresh(Stuff() - old(Stuff()))
        invariant unchanged(this`all) && unchanged(this`nextOut) && unchanged(this`availOut)
        decreases |reader.Unread()|
      {
        var magic := state.p.Magic? || state.p.Level?;
        var pace;
        if state.p.Mtf? { pace := CodeStep(); } else { pace := HeadStep(); }
        ReaderIs(this);
        if pace == Starved { return StatusOk; }
        match state {
          case Parsing(_) =>
          case Output => return StatusOk;
          case Idle => return StreamEnd;
          case Failed => return if magic then DataErrorMagic else DataError;
        }
      }
    }

    /** However the input goes on, it is refused after the text given out, and there was room for that. */
    ghost predicate Refusal()
      reads `all, `nextOut, `availOut, `lost, `fault
    {
      && IsBytes(all) && Needed(nextOut + lost, fault, output.small) <= |nextOut| + availOut
      && forall rest :: YieldStream(ByteBits(all) + rest) == Refused(nextOut + lost, fault)
    }

    /** BZ2_bzDecompress, with more input appended to what is unread and space bytes of output
        space. Whatever the pieces: the text given out is that of the stream, the end is reported
        exactly when the stream is complete, and an error means that no continuation of the input
        is a stream. */
    method Decompress(more: seq<int>, space: nat) returns (status: Status)
      requires Valid() && Headed() && IsBytes(more) && !state.Failed?
      modifies Stuff()
      ensures Valid() && Headed() && fresh(Stuff() - old(Stuff())) && all == old(all) + more
      ensures old(nextOut) <= nextOut && |nextOut| + availOut == |old(nextOut)| + space
      ensures status == SequenceError <==> old(state).Idle?
      ensures match status
              case StatusOk => StoppedWith(StatusOk)
              case StreamEnd =>
                state.Idle? && reader.Valid() && forall rest ::
                  YieldStream(ByteBits(all) + rest) == Ended(nextOut, reader.Unread() + rest)
              case DataErrorMagic => state.Failed? && BadHeader(all) && Refusal()
              case DataError => state.Failed? && GoodHeader(all) && Refusal()
              case SequenceError => state.Idle? && nextOut == old(nextOut)
      ensures nextOut <= YieldStream(ByteBits(all)).text
    {
      hide Valid, Reader.Unread, Reader.Valid, YieldStream, ByteBits, TextOutput.Output.Valid, Beyond, Refusal;
      Supply(more);
      availOut := space;
      if state.Idle? {
        PrefixGiven(this);
        return SequenceError;
      }
      status := Pump();
      PrefixGiven(this);
      match status
      case StreamEnd => EndIs(this);
      case StatusOk =>
      case _ => RefusalIs(this);
    }

    /** What a call of the loop stops with. */
    ghost predicate StoppedWith(status: Status)
      reads `state, `all, `nextOut, `availOut, `lost, `fault, reader
    {
      match status
      case StatusOk =>
        && (state.Parsing? || state.Output?) && IsBytes(all)
        && (availOut == 0 || (reader.nextIn == |reader.input| && YieldStream(ByteBits(all)) == Hungry(nextOut)))
        && Beyond(YieldStream(ByteBits(all)), |nextOut|, output.small)
      case StreamEnd => state.Idle?
      case DataErrorMagic =>
        state.Failed? && BadHeader(all) && Needed(nextOut + lost, fault, output.small) <= |nextOut| + availOut
      case DataError =>
        state.Failed? && GoodHeader(all) && Needed(nextOut + lost, fault, output.small) <= |nextOut| + availOut
      case SequenceError => false
    }

    /** The output of a block, up to its end. */
    method GiveBlock() returns (stop: bool, status: Status)
      requires Valid() && state.Output? && Headed()
      modifies Stuff()
      ensures Valid() && Stuff() == old(Stuff()) && all == old(all) && Headed() && unchanged(reader)
      ensures old(nextOut) <= nextOut && |nextOut| + availOut == |old(nextOut)| + old(availOut)
      ensures if stop then StoppedWith(status) else state.Parsing?
    {
      hide Valid, Reader.Unread, Reader.Valid, YieldStream, ByteBits, TextOutput.Output.Valid, Known, Needed, Beyond;
      stop, status := true, DataError;
      var corrupt := GiveText();
      if corrupt { return; }
      if output.nblockUsed != output.saveNblock + 1 || output.stateOutLen != 0 {
        MoreDue(this);
        return true, StatusOk;
      }
      var ok := EndBlock();
      NeededNone(nextOut, output.small);
      stop := !ok;
    }

    /** The loop of BZ2_bzDecompress. */
    method Pump() returns (status: Status)
      requires Valid() && (state.Parsing? || state.Output?) && Headed()
      modifies Stuff()
      ensures Valid() && fresh(Stuff() - old(Stuff())) && all == old(all) && Headed()
      ensures old(nextOut) <= nextOut && |nextOut| + availOut == |old(nextOut)| + old(availOut)
      ensures StoppedWith(status)
    {
      hide Valid, Reader.Unread, Reader.Valid, YieldStream, ByteBits, TextOutput.Output.Valid, Needed, Beyond;
      ReaderIs(this);
      while true
        invariant Valid() && Headed() && (state.Parsing? || state.Output?) && reader.Valid() && all == old(all)
        invariant fresh(Stuff() - old(Stuff()))
        invariant old(nextOut) <= nextOut && |nextOut| + availOut == |old(nextOut)| + old(availOut)
        decreases |reader.Unread()|
      {
        if state.Output? {
          var stop;
          stop, status := GiveBlock();
          if stop { return; }
        }
        status := Read();
        NeededNone(nextOut, output.small);
        ReaderIs(this);
        HungerBeyond(YieldStream(ByteBits(all)), |nextOut|, output.small);
        if status != StatusOk || !state.Output? { return; }
      }
    }

    /** The caller's input is appended to what is unread. */
    method Supply(more: seq<int>)
      requires Valid() && IsBytes(more)
      modifies this`all, reader
      ensures Valid() && reader.Valid() && all == old(all) + more && (old(Headed()) ==> Headed())
    {
      hide Reader.Unread, Reader.Valid, Tells, ByteBits, Wired, Placed, IsBytes, TextOutput.Output.Valid,
           TextOutput.Output.Due, FreshState, Now;
      ByteBitsAll(all, more);
      TellsMoreInput(ByteBits(all), nextOut, Now(), calculatedCombinedCRC, reader.Unread(), ByteBits(more));
      HeadsMore(state, all, reader.Unread(), more);
      reader.Supply(more);
      all := all + more;
    }
  }

  /** What the input so far says of a state. */
  ghost predicate Heads(state: Where, all: seq<int>, unread: seq<bool>) {
    match state
    case Parsing(p) => HeaderAt(p, all, unread)
    case Failed => true
    case _ => GoodHeader(all)
  }

  lemma HeadsMore(state: Where, all: seq<int>, unread: seq<bool>, more: seq<int>)
    requires IsBytes(more)
    ensures Heads(state, all, unread) ==> Heads(state, all + more, unread + ByteBits(more))
  {
    hide HeaderAt;
    if state.Parsing? && HeaderAt(state.p, all, unread) { HeaderMore(state.p, all, unread, more); }
  }

  /** The state after a move. */
  lemma StateOf(d: Decoder, m: Moved)
    requires d.Placed() && d.Now() == Entered(m, d.calculatedCombinedCRC)
    ensures m.m.Go? ==> d.state == Parsing(m.m.p)
    ensures m.m.Fail? ==> d.state.Failed?
    ensures !d.state.Failed? && m.m.Stop? && m.m.e.Trailer? ==> d.state.Idle?
    ensures m.m.Stop? ==> !d.state.Parsing?
    ensures d.state.Failed? ==> d.lost == [] && d.fault == Wrong
  {
    hide Ok, Decoder.Decoding, TextOutput.Output.Allocated, TextOutput.Output.Valid, TextOutput.Output.Due, FromBits,
         RestOf, LevelOf;
  }

  lemma SettleStays(plan: Plan, lens: seq<seq<int>>, c: Cursor, st: MF.State, zn: nat, zvec: nat)
    requires LensOk(plan, lens) && |lens| == plan.nGroups && 0 <= c.groupNo < |plan.sel| && StOk(st)
    ensures Settle(plan, lens, c, st, zn, zvec).m.Go? ==> Settle(plan, lens, c, st, zn, zvec).m.p.Mtf?
  {
    hide TablesOf, LensOk, MF.Step, AlphaSize, ME.Used;
  }

  lemma ByteBitsAll(a: seq<int>, b: seq<int>)
    requires IsBytes(a) && IsBytes(b)
    ensures IsBytes(a + b) && ByteBits(a + b) == ByteBits(a) + ByteBits(b)
  {
    ByteBitsAppend(a, b);
  }

  lemma ReaderIs(d: Decoder)
    requires d.Valid()
    ensures d.reader.Valid() && IsBytes(d.all)
  {
    hide Tells, Reader.Unread, Reader.Valid, Decoder.Wired, Decoder.Placed, Decoder.Now;
  }

  lemma PrefixGiven(d: Decoder)
    requires d.Valid()
    ensures IsBytes(d.all) && d.nextOut <= YieldStream(ByteBits(d.all)).text
  {
    hide Tells, Reader.Unread, Reader.Valid, Decoder.Wired, Decoder.Placed, Decoder.Now, YieldStream, ByteBits;
    TellsPrefix(ByteBits(d.all), d.nextOut, d.Now(), d.calculatedCombinedCRC, d.reader.Unread());
  }

  lemma RefusalIs(d: Decoder)
    requires d.Valid() && d.state.Failed?
    requires Needed(d.nextOut + d.lost, d.fault, d.output.small) <= |d.nextOut| + d.availOut
    ensures d.Refusal()
  {
    hide Tells, Reader.Unread, Reader.Valid, Decoder.Wired, Decoder.Placed, YieldStream, ByteBits, Needed;
    TellsBroken(ByteBits(d.all), d.nextOut, d.lost, d.fault, d.calculatedCombinedCRC, d.reader.Unread());
  }

  lemma EndIs(d: Decoder)
    requires d.Valid() && d.state.Idle?
    ensures IsBytes(d.all) && d.reader.Valid()
    ensures forall rest :: YieldStream(ByteBits(d.all) + rest) == Ended(d.nextOut, d.reader.Unread() + rest)
  {
    hide Tells, Reader.Unread, Reader.Valid, Decoder.Wired, Decoder.Placed, YieldStream, ByteBits;
    TellsOver(ByteBits(d.all), d.nextOut, d.calculatedCombinedCRC, d.reader.Unread());
  }

  lemma OutputIs(d: Decoder)
    requires d.Valid() && d.state.Output?
    ensures d.Wired() && 1 <= d.output.blockSize100k <= 9 && d.output.Allocated(d.output.blockSize100k)
    ensures d.output.Valid()
    ensures d.reader.Valid() && IsBytes(d.all)
    ensures var now := Giving(d.output.blockSize100k, d.storedBlockCRC, d.output.blockRandomised,
                              d.output.calculatedBlockCRC, d.output.Due(d.output.stateOutLen));
            Tells(ByteBits(d.all), d.nextOut, now, d.calculatedCombinedCRC, d.reader.Unread())
  {
    hide TextOutput.Output.Valid, TextOutput.Output.Due, TextOutput.Output.Allocated, Tells, Reader.Valid,
         Reader.Unread, Decoder.Wired;
  }

  lemma StillOutput(d: Decoder)
    requires d.Wired() && 1 <= d.output.blockSize100k <= 9 && d.output.Allocated(d.output.blockSize100k)
    requires d.output.Valid()
    requires d.reader.Valid() && IsBytes(d.all) && d.state.Output?
    requires var now := Giving(d.output.blockSize100k, d.storedBlockCRC, d.output.blockRandomised,
                              d.output.calculatedBlockCRC, d.output.Due(d.output.stateOutLen));
             Tells(ByteBits(d.all), d.nextOut, now, d.calculatedCombinedCRC, d.reader.Unread())
    ensures d.Valid()
  {
    hide TextOutput.Output.Valid, TextOutput.Output.Due, TextOutput.Output.Allocated, Tells, Reader.Valid,
         Reader.Unread, Decoder.Wired;
  }

  lemma FailedIs(d: Decoder)
    requires d.Wired() && d.reader.Valid() && IsBytes(d.all) && d.state.Failed?
    requires Tells(ByteBits(d.all), d.nextOut, Broken(d.lost, d.fault), d.calculatedCombinedCRC, d.reader.Unread())
    ensures d.Valid() && (GoodHeader(d.all) ==> d.Headed())
  {
    hide Tells, Reader.Valid, Reader.Unread, Decoder.Wired;
  }

  lemma BetweenIs(d: Decoder)
    requires d.Wired() && d.reader.Valid() && IsBytes(d.all)
    requires 1 <= d.output.blockSize100k <= 9 && d.output.Allocated(d.output.blockSize100k)
    requires d.state == Parsing(BlockHead(d.output.blockSize100k, 0))
    requires Tells(ByteBits(d.all), d.nextOut, Reading(d.state.p, FreshState()), d.calculatedCombinedCRC,
      d.reader.Unread())
    ensures d.Valid() && (GoodHeader(d.all) ==> d.Headed())
  {
    hide Tells, Reader.Valid, Reader.Unread, Decoder.Wired, TextOutput.Output.Allocated, FreshState;
  }

  /** Text or a refusal is still to come. */
  lemma MoreDue(d: Decoder)
    requires d.Valid() && d.state.Output?
    requires d.output.nblockUsed != d.output.saveNblock + 1 || d.output.stateOutLen != 0
    requires !d.output.small && !d.output.blockRandomised ==> d.Known()
    ensures IsBytes(d.all) && Beyond(YieldStream(ByteBits(d.all)), |d.nextOut|, d.output.small)
  {
    hide Tells, YieldStream, ByteBits, Decoder.Valid, TableOk, Stands, Reader.Valid, Reader.Unread, Decoder.Wired,
         Unrun;
    OutputIs(d);
    var o := d.output;
    DueNotOver(o);
    PrefixGiven(d);
    TellsMore(ByteBits(d.all), d.nextOut, o.blockSize100k, d.storedBlockCRC, o.blockRandomised, o.calculatedBlockCRC,
              o.Due(o.stateOutLen), d.calculatedCombinedCRC, d.reader.Unread());
  }

  lemma DueNotOver(o: TextOutput.Output)
    requires o.Valid() && (o.nblockUsed != o.saveNblock + 1 || o.stateOutLen != 0)
    ensures o.Due(o.stateOutLen) != Rest([], false)
  {
    hide TableOk, Stands, Unrun;
    ShapedIs(o);
    if o.Due(o.stateOutLen) == Rest([], false) {
      NothingPending(o.s, o.stateOutCh, o.stateOutLen, o.nblockUsed, o.Extra());
      assert false;
    }
  }

  lemma NothingDue(o: TextOutput.Output)
    requires o.Valid() && o.nblockUsed == o.saveNblock + 1 && o.stateOutLen == 0
    ensures o.Due(0) == Rest([], false)
  {
    hide TableOk, Stands;
    ShapedIs(o);
  }

  lemma NeededIs(out: seq<int>, lost: seq<int>, randomised: bool, small: bool)
    ensures Needed(out + lost, Cut(randomised), small) == |out| + |lost| + if small || randomised then 1 else 0
  {
  }

  lemma HungerBeyond(o: Outcome, given: nat, small: bool)
    ensures o.Hungry? && |o.text| == given ==> Beyond(o, given, small)
  {
  }

  lemma NeededNone(out: seq<int>, small: bool)
    ensures Needed(out + [], Wrong, small) == |out|
  {
  }

  lemma LevelIs(p: Parser)
    requires p.BlockHead?
    ensures LevelOf(p) == p.level
  {
  }

  lemma NextAtHead(p: Parser, st: MF.State, v: nat)
    requires Ok(p) && !p.Mtf? && StOk(st)
    ensures var m := NextHead(p, v);
            DecoderSteps.Next(p, st, v) == Moved(m, if m.Go? && m.p.Mtf? then FreshState() else st)
  {
    hide NextHead;
  }

  lemma HeadIs(d: Decoder)
    requires d.Valid() && d.state.Parsing? && !d.state.p.Mtf?
    ensures var p := d.state.p;
            d.Wired() && Ok(p) && (p.Magic? || p.Level? || (1 <= LevelOf(p) <= 9 && d.output.Allocated(LevelOf(p))))
    ensures d.Now() == Reading(d.state.p, FreshState()) && d.reader.Valid() && IsBytes(d.all)
    ensures Tells(ByteBits(d.all), d.nextOut, Reading(d.state.p, FreshState()), d.calculatedCombinedCRC,
      d.reader.Unread())
  {
    hide Ok, Reader.Valid, Reader.Unread, Tells, FreshState, LevelOf, TextOutput.Output.Allocated;
  }

  lemma LensUsed(plan: Plan, lens: seq<seq<int>>)
    requires LensOk(plan, lens)
    ensures |plan.inUse| == 256 && ME.Used(plan.inUse, 256) != [] && |lens| <= 6
  {
  }

  lemma StartBytes(b: Builder)
    requires b.Valid()
    ensures |b.seqToUnseq| == 256 && IsBytes(b.seqToUnseq)
  {
  }

  lemma CodeIs(d: Decoder)
    requires d.Valid() && d.state.Parsing? && d.state.p.Mtf?
    ensures var p := d.state.p;
            && d.Wired() && d.Decoding(p.plan, p.lens) && LensOk(p.plan, p.lens) && |p.lens| == p.plan.nGroups && Ok(p)
            && 0 <= p.c.groupNo < |p.plan.sel| && 0 <= p.plan.sel[p.c.groupNo] < |p.lens| <= |d.tables|
            && |p.lens[p.plan.sel[p.c.groupNo]]| > 0
            && var least := MinOf(p.lens[p.plan.sel[p.c.groupNo]]);
            && 1 <= least <= 20 && p.zn <= 20 && (p.zn == 0 || p.zn >= least)
            && d.tables[p.plan.sel[p.c.groupNo]].minLen == least
            && Need(p) == if p.zn == 0 then least else 1
    ensures StOk(d.builder.st) && d.Now() == Reading(d.state.p, d.builder.st)
    ensures d.reader.Valid() && IsBytes(d.all)
    ensures Tells(ByteBits(d.all), d.nextOut, Reading(d.state.p, d.builder.st), d.calculatedCombinedCRC,
      d.reader.Unread())
  {
    hide Builder.Valid, DecodeTables, AlphaSize, ME.Used, Reader.Valid, Reader.Unread, Tells, FreshState, MinOf;
    var p := d.state.p;
    MinBounds(p.plan, p.lens, p.c.groupNo);
    ValidIs(d.builder);
  }

  lemma PlanIs(plan: Plan, lens: seq<seq<int>>)
    requires LensOk(plan, lens)
    ensures PlanOk(plan)
  {
  }

  lemma CodeFacts(plan: Plan, lens: seq<seq<int>>, c: Cursor, used: seq<int>)
    requires LensOk(plan, lens) && |lens| == plan.nGroups && used == ME.Used(plan.inUse, 256) && |plan.inUse| == 256
    ensures MoveOk(EnterSymbol(plan, lens, c)) && 2 <= AlphaSize(plan.inUse) <= 258
    ensures AlphaSize(plan.inUse) == |used| + 2
    ensures !EnterSymbol(plan, lens, c).Stop?
    ensures EnterSymbol(plan, lens, c).Go? ==>
      var p := EnterSymbol(plan, lens, c).p;
      p.Mtf? && p.plan == plan && p.lens == lens && p.zn == 0
  {
    EnterSymbolOk(plan, lens, c);
    AlphaBounds(plan.inUse);
  }

  lemma DecodingAgain(d: Decoder, plan: Plan, lens: seq<seq<int>>)
    requires d.Wired() && LensOk(plan, lens) && |lens| == plan.nGroups && TablesFor(d.tables, lens)
    requires 1 <= plan.head.level <= 9
    requires d.builder.Valid() && d.builder.used == ME.Used(plan.inUse, 256)
    requires d.builder.nblock <= 100000 * plan.head.level
    requires d.output.Sized(plan.head.level) && (d.output.small ==> Nibbles(d.output.ll16.Length, d.output.ll4[..]))
    ensures d.Decoding(plan, lens)
  {
    hide LensOk, TablesFor, Builder.Valid, Nibbles, ME.Used;
  }

  lemma FreshHeaded(d: Decoder)
    requires d.state == Parsing(Magic(0)) && d.all == [] && d.reader.Valid() && d.reader.Unread() == ByteBits([])
    ensures d.Headed()
  {
    hide Reader.Valid, Reader.Unread, ByteBits;
    HeaderStart();
  }

  lemma FreshDecoder(d: Decoder)
    requires d.builder.Apart()
    requires {d.builder.mtf.mtfa, d.builder.mtf.mtfbase} !! {d.output.tt, d.output.ll16, d.output.ll4}
    requires d.output.Allocated(0) && d.builder.cells == d.output.Column() && d.builder.narrow == d.output.small
    requires |d.builder.seqToUnseq| == 256 && (forall c :: 0 <= c < 256 ==> 0 <= d.builder.seqToUnseq[c] < 256)
    requires |d.tables| == 6 && forall t :: 0 <= t < 6 ==> |d.tables[t].perm| == 258
    requires d.state == Parsing(Magic(0)) && d.all == [] && d.nextOut == [] && d.calculatedCombinedCRC == Zero(32)
    requires d.reader.Valid() && d.reader.Unread() == ByteBits([])
    ensures d.Valid()
  {
    hide Tells, ByteBits, BD.PackedValid, Reader.Valid, Reader.Unread;
    NothingRead(d.reader.Unread());
  }

  lemma DecodingIs(d: Decoder, plan: Plan, lens: seq<seq<int>>)
    requires d.Wired() && d.Decoding(plan, lens)
    ensures var b := d.builder;
            && MD.Produced(b.cells[..], b.nblock, b.unzftab, b.st.out, b.seqToUnseq) && Maps(b.seqToUnseq, b.used)
            && InRange(b.st.out, |b.used|)
            && b.Valid() && b.used == ME.Used(plan.inUse, 256) && b.nblock <= 100000 * plan.head.level
            && 1 <= plan.head.level <= 9
    ensures d.output.Sized(plan.head.level) && |plan.inUse| == 256 && LensOk(plan, lens) && |lens| == plan.nGroups
    ensures TablesFor(d.tables, lens)
    ensures d.output.small ==> Nibbles(d.output.ll16.Length, d.output.ll4[..]) && MD.Halfwords(d.output.ll16[..])
  {
    hide LensOk, TablesFor, Maps, MD.Produced, InRange, Nibbles, MD.Halfwords, Front, ME.Used;
    LensReadable(plan, lens);
  }

  lemma WholeText(d: BlockData, s: seq<int>)
    requires Whole(s, d.last, d.origPtr, d.randomised) && IsBytes(d.last) && IsBytes(s)
    ensures RestOf(d) == Unrun(s, CharAt(d.last, d.origPtr, d.randomised, |s|))
  {
    hide Unrun, CharAt;
  }
}
