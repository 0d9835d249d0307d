/** The compressor between any two steps: its state, what has happened so far, and the
    invariant that ties them together. */
module CompressorState {
  import opened Bytes
  import opened BitStrings
  import opened BitWriter
  import opened CrcRegister
  import opened BlockChecksum
  import opened RunLength
  import opened StreamFormat
  import BE = BlockEncoder
  import BlockSize
  import MF = MoveToFront
  import ME = MtfEncoder

  datatype Mode = Idle | Running | Flushing | Finishing

  datatype Phase = Output | Input

  /** The fields of EState and bz_stream that the run machine uses. bits are the bits written
      since zbits was last emptied, after those then still waiting in the bit buffer. */
  datatype State = State(blockSize100k: nat, mode: Mode, phase: Phase, expected: nat,
                         block: seq<int>, inUse: seq<bool>, ch: int, len: int, crc: Word, combined: Word, blockNo: nat,
                         zbits: seq<int>, outPos: nat, bits: seq<bool>,
                         nextIn: seq<int>, nextOut: seq<int>, availOut: nat)

  /** runs: what the current block stands for; closed: the blocks compressed; consumed: all input
      taken; flushed: bytes of zbits emptied earlier; ended: the trailer is written, followed by
      pad zero bits. */
  datatype History = History(runs: seq<Run>, closed: seq<Closed>, consumed: seq<int>, flushed: seq<int>, ended: bool,
                             pad: nat)

  /** nblockMAX */
  function Limit(s: State): (r: int) { 100000 * s.blockSize100k - 19 }

  /** isempty_RL */
  predicate EmptyRL(s: State) { !(s.ch < 256 && s.len > 0) }

  /** The run being collected. */
  ghost function PendingText(s: State): (r: seq<int>) {
    if 0 <= s.ch < 256 && s.len >= 0 then MF.Repeat(s.ch, s.len) else []
  }

  // ----- the invariant

  ghost predicate Marked(block: seq<int>, inUse: seq<bool>) {
    |inUse| == 256 && forall c :: 0 <= c < 256 ==> (inUse[c] <==> c in block)
  }

  /** The block holds the runs collected, its marks and checksum agree, nothing waits for output. */
  ghost predicate Filling(s: State, h: History) {
    && Runs(h.runs) && s.block == Packed(h.runs) && Marked(s.block, s.inUse)
    && IsBytes(Expanded(h.runs)) && s.crc == UpdateAll(Ones(), Expanded(h.runs))
    && s.zbits == [] && s.outPos == 0 && !h.ended
  }

  /** Either no run is pending, or one that cannot be joined to the last one in the block. */
  ghost predicate PendingOk(s: State, h: History) {
    || (s.ch == 256 && s.len == 0)
    || (Run(s.ch, s.len).Valid() && (h.runs != [] ==> Apart(h.runs[|h.runs| - 1], Run(s.ch, s.len))))
  }

  /** Closed blocks, current block and pending run together are the input consumed. */
  ghost predicate Accounted(s: State, h: History) {
    && Runs(h.runs) && AllGood(h.closed, s.blockSize100k)
    && h.consumed == Texts(h.closed, s.blockSize100k) + Expanded(h.runs) + PendingText(s)
    && s.combined == Combined(h.closed)
  }

  /** What has been written so far, from the first bit of the stream. */
  ghost predicate Written(s: State, h: History) {
    && 1 <= s.blockSize100k <= 9 && AllGood(h.closed, s.blockSize100k) && IsBytes(h.flushed)
    && ByteBits(h.flushed) + s.bits ==
       if s.phase == Input && s.blockNo == 1 then []
       else if h.ended then StreamBits(h.closed, s.blockSize100k) + Zeros(h.pad)
       else ByteBits(Header(s.blockSize100k)) + BlocksBits(h.closed, s.blockSize100k)
  }

  ghost predicate Delivered(s: State, h: History) {
    && s.outPos <= |s.zbits| && IsBytes(s.zbits) && ByteBits(s.zbits) <= s.bits
    && s.nextOut == h.flushed + s.zbits[..s.outPos]
  }

  /** Runs are added to a block only while it is below the limit. */
  ghost predicate Early(runs: seq<Run>, limit: int) {
    Runs(runs) && (runs != [] ==> |Packed(runs[..|runs| - 1])| < limit)
  }

  /** A block closed because it is full: its last run is what took it to the limit. */
  ghost predicate Whole(c: Closed, limit: int) {
    Early(c.runs, limit) && |c.e.block| >= limit
  }

  /** A block closed by a flush or by the end: the run then pending was added, whatever the limit. */
  ghost predicate Cut(c: Closed, limit: int) {
    c.runs != [] && Early(c.runs[..|c.runs| - 1], limit)
  }

  /** Closed blocks are added one after the other, each of them full, but for the last one if it is
      forced. */
  ghost predicate Filled(cs: seq<Closed>, cs': seq<Closed>, limit: int, forced: bool) {
    && cs <= cs'
    && forall i :: |cs| <= i < |cs'| ==> Whole(cs'[i], limit) || (forced && i == |cs'| - 1 && Cut(cs'[i], limit))
  }

  /** And each is coded as its own bytes and symbols ask for. */
  ghost predicate Grown(cs: seq<Closed>, cs': seq<Closed>, limit: int, forced: bool) {
    Filled(cs, cs', limit, forced) && forall i :: |cs| <= i < |cs'| ==> Fitted(cs'[i].e)
  }

  ghost predicate Fitted(e: BE.Encoding) {
    BE.Tailored(e) && Marked(e.block, e.inUse)
  }

  lemma GrownNone(cs: seq<Closed>, limit: int, forced: bool)
    ensures Grown(cs, cs, limit, forced)
  {
  }

  lemma FilledMore(cs: seq<Closed>, cs': seq<Closed>, cs'': seq<Closed>, limit: int, forced: bool)
    requires Filled(cs, cs', limit, false) && Filled(cs', cs'', limit, forced)
    ensures Filled(cs, cs'', limit, forced)
  {
    hide Whole, Cut;
  }

  lemma GrownForced(cs: seq<Closed>, cs': seq<Closed>, limit: int, forced: bool, forced': bool)
    requires Grown(cs, cs', limit, forced) && (forced ==> forced')
    ensures Grown(cs, cs', limit, forced')
  {
    hide Whole, Cut, Fitted;
  }

  lemma GrownMore(cs: seq<Closed>, cs': seq<Closed>, cs'': seq<Closed>, limit: int, forced: bool)
    requires Grown(cs, cs', limit, false) && Grown(cs', cs'', limit, forced)
    ensures Grown(cs, cs'', limit, forced)
  {
    hide Whole, Cut, Fitted;
  }

  /** Where the machine may stand. A block closed for being full leaves a run pending, so that
      output with nothing pending means a completed flush or the end of the stream. */
  ghost predicate Placed(s: State, h: History) {
    && s.blockNo >= 1 && IsBytes(s.nextIn)
    && (s.phase == Input && s.blockNo == 1 ==> h.closed == [])
    && (s.phase == Input ==> Filling(s, h) && |s.block| <= Limit(s) + 4 && Early(h.runs, Limit(s)))
    && (s.phase == Output || EmptyRL(s) ==> h.runs == [])
    && (s.phase == Output && !h.ended && EmptyRL(s) ==> s.mode == Flushing && s.expected == 0)
    && (h.ended ==> s.phase == Output && EmptyRL(s) && s.expected == 0 && s.mode in {Finishing, Idle}
                    && h.pad < 8 && IsBytes(s.zbits) && s.bits == ByteBits(s.zbits))
    && (s.mode == Idle ==> h.ended && s.outPos == |s.zbits|)
  }

  ghost predicate Inv(s: State, h: History) {
    Written(s, h) && Accounted(s, h) && PendingOk(s, h) && Delivered(s, h) && Placed(s, h)
  }

  // ----- taking input

  /** add_pair_to_block */
  function AddPair(s: State): (r: State)
    requires Run(s.ch, s.len).Valid() && |s.inUse| == 256
  {
    var marks := s.inUse[s.ch := true];
    s.(block := s.block + RunBytes(Run(s.ch, s.len)),
       inUse := if s.len < 4 then marks else marks[s.len - 4 := true],
       crc := UpdateAll(s.crc, MF.Repeat(s.ch, s.len)))
  }

  /** ADD_CHAR_TO_BLOCK: a longer run, or a new one after the old one went into the block. */
  function AddChar(s: State, c: int): (r: State)
    requires EmptyRL(s) || Run(s.ch, s.len).Valid()
    requires |s.inUse| == 256
  {
    if c == s.ch && s.len < 255 then s.(len := s.len + 1)
    else (if EmptyRL(s) then s else AddPair(s)).(ch := c, len := 1)
  }

  /** flush_RL */
  function FlushRL(s: State): (r: State)
    requires EmptyRL(s) || Run(s.ch, s.len).Valid()
    requires |s.inUse| == 256
  {
    (if EmptyRL(s) then s else AddPair(s)).(ch := 256, len := 0)
  }

  lemma MarkedMore(block: seq<int>, inUse: seq<bool>, r: Run)
    requires Marked(block, inUse) && r.Valid()
    ensures var marks := inUse[r.ch := true];
            Marked(block + RunBytes(r), if r.len < 4 then marks else marks[r.len - 4 := true])
  {
    var more := RunBytes(r);
    assert more[0] == r.ch;
    assert forall i :: 0 <= i < |more| ==> more[i] == r.ch || (r.len >= 4 && more[i] == r.len - 4);
    assert r.len >= 4 ==> more[4] == r.len - 4;
  }

  lemma ChecksumMore(text: seq<int>, more: seq<int>)
    requires IsBytes(text) && IsBytes(more)
    ensures IsBytes(text + more) && UpdateAll(Ones(), text + more) == UpdateAll(UpdateAll(Ones(), text), more)
  {
    hide CrcRegister.Run, Bits8;
    RunAppend(Ones(), Octets(text), Octets(more));
    assert Octets(text + more) == Octets(text) + Octets(more);
  }

  lemma RepeatBytes(ch: int, len: nat)
    requires 0 <= ch < 256
    ensures IsBytes(MF.Repeat(ch, len))
  {
  }

  /** The pending run goes into the block. */
  lemma AddPairKeeps(s: State, h: History)
    requires Filling(s, h) && PendingOk(s, h) && !EmptyRL(s)
    ensures Run(s.ch, s.len).Valid() && |s.inUse| == 256 && Runs(h.runs + [Run(s.ch, s.len)])
    ensures Filling(AddPair(s), h.(runs := h.runs + [Run(s.ch, s.len)]))
    ensures |AddPair(s).block| <= |s.block| + 5
    ensures Expanded(h.runs + [Run(s.ch, s.len)]) == Expanded(h.runs) + PendingText(s)
  {
    hide Packed, Expanded, RunBytes, UpdateAll, Marked, Runs;
    FillingIs(s, h);
    var r := Run(s.ch, s.len);
    PackedSnoc(h.runs, r);
    MarkedMore(s.block, s.inUse, r);
    RepeatBytes(s.ch, s.len);
    ChecksumMore(Expanded(h.runs), MF.Repeat(s.ch, s.len));
  }

  lemma FillingIs(s: State, h: History)
    requires Filling(s, h)
    ensures Runs(h.runs) && |s.inUse| == 256 && IsBytes(Expanded(h.runs))
  {
  }

  /** One more byte of input: the invariant holds with that byte consumed. */
  lemma AddCharKeeps(s: State, h: History) returns (h': History)
    requires Inv(s, h) && s.phase == Input && s.nextIn != [] && |s.block| < Limit(s)
    requires s.mode == Running || s.expected > 0
    ensures (EmptyRL(s) || Run(s.ch, s.len).Valid()) && |s.inUse| == 256
    ensures var t := AddChar(s, s.nextIn[0]).(nextIn := s.nextIn[1..],
                                              expected := if s.mode == Running then s.expected else s.expected - 1);
            && t.expected >= 0 && Inv(t, h') && !EmptyRL(t)
    ensures h' == h.(runs := h'.runs, consumed := h.consumed + [s.nextIn[0]])
  {
    hide Written, Texts, Packed, Expanded, UpdateAll, Marked, AllGood, Runs, Combined, ByteBits, Early, Accounted,
         IsBytes;
    var c := s.nextIn[0];
    FirstByte(s.nextIn);
    FillingIs(s, h);
    var longer := c == s.ch && s.len < 255;
    var runs := if longer || EmptyRL(s) then h.runs else h.runs + [Run(s.ch, s.len)];
    h' := h.(runs := runs, consumed := h.consumed + [c]);
    if !longer && !EmptyRL(s) {
      AddPairKeeps(s, h);
      EarlyMore(h.runs, Run(s.ch, s.len), Limit(s));
    }
    var t := AddChar(s, c).(nextIn := s.nextIn[1..],
                            expected := if s.mode == Running then s.expected else s.expected - 1);
    WrittenSame(s, h, t, h');
    AccountMore(s, h, t, h', c);
  }

  lemma FirstByte(input: seq<int>)
    requires IsBytes(input) && input != []
    ensures 0 <= input[0] < 256 && IsBytes(input[1..])
  {
  }

  lemma EarlyMore(runs: seq<Run>, r: Run, limit: int)
    requires Runs(runs) && Runs(runs + [r]) && |Packed(runs)| < limit
    ensures Early(runs + [r], limit)
  {
    hide Packed, Runs;
    assert (runs + [r])[..|runs|] == runs;
  }

  lemma WrittenSame(s: State, h: History, t: State, h': History)
    requires Written(s, h) && h'.closed == h.closed && h'.flushed == h.flushed && h'.ended == h.ended && h'.pad == h.pad
    requires t.blockSize100k == s.blockSize100k && t.phase == s.phase && t.blockNo == s.blockNo && t.bits == s.bits
    ensures Written(t, h')
  {
  }

  /** Text moves from the pending run to the block, or one byte is added to it. */
  lemma AccountMore(s: State, h: History, t: State, h': History, c: int)
    requires Accounted(s, h) && Runs(h'.runs) && 0 <= c < 256 && PendingOk(s, h)
    requires h'.closed == h.closed && t.blockSize100k == s.blockSize100k && t.combined == s.combined
    requires h'.consumed == h.consumed + [c] && t.ch == c
    requires if h'.runs == h.runs then (s.ch == c && t.len == s.len + 1) || (EmptyRL(s) && t.len == 1)
             else t.len == 1 && Expanded(h'.runs) == Expanded(h.runs) + PendingText(s)
    ensures Accounted(t, h')
  {
    hide Texts, Expanded, AllGood, Combined, Runs;
    var a, e := Texts(h.closed, s.blockSize100k), Expanded(h.runs);
    if h'.runs == h.runs {
      assert PendingText(t) == PendingText(s) + [c];
      assert a + e + PendingText(s) + [c] == a + e + (PendingText(s) + [c]);
    } else {
      assert PendingText(t) == [c];
      assert a + e + PendingText(s) + [c] == a + (e + PendingText(s)) + [c];
    }
  }

  // ----- closing a block

  lemma PendingEmpty(s: State, h: History)
    requires PendingOk(s, h) && EmptyRL(s)
    ensures s.ch == 256 && s.len == 0 && PendingText(s) == []
  {
  }

  /** The pending run joins the block before a flush or the end. */
  lemma FlushKeeps(s: State, h: History) returns (h': History)
    requires Inv(s, h) && s.phase == Input
    ensures (EmptyRL(s) || Run(s.ch, s.len).Valid()) && |s.inUse| == 256
    ensures var t := FlushRL(s);
            && Written(t, h') && Accounted(t, h') && PendingOk(t, h') && Delivered(t, h') && Filling(t, h')
            && EmptyRL(t) && |t.block| <= |s.block| + 5
    ensures h' == h.(runs := h'.runs)
    ensures h'.runs == h.runs || (h'.runs != [] && h.runs == h'.runs[..|h'.runs| - 1])
    ensures h'.runs == h.runs ==> EmptyRL(s)
  {
    hide Written, Texts, Packed, Expanded, UpdateAll, Marked, AllGood, Runs, Combined, ByteBits;
    FillingIs(s, h);
    var t := FlushRL(s);
    if EmptyRL(s) {
      h' := h;
      PendingEmpty(s, h);
    } else {
      h' := h.(runs := h.runs + [Run(s.ch, s.len)]);
      AddPairKeeps(s, h);
    }
    WrittenSame(s, h, t, h');
    AccountFlushed(s, h, t, h');
  }

  lemma AccountFlushed(s: State, h: History, t: State, h': History)
    requires Accounted(s, h) && Runs(h'.runs) && t.ch == 256 && t.combined == s.combined
    requires h'.closed == h.closed && t.blockSize100k == s.blockSize100k && h'.consumed == h.consumed
    requires Expanded(h'.runs) == Expanded(h.runs) + PendingText(s)
    ensures Accounted(t, h')
  {
    hide Texts, Expanded, AllGood, Combined, Runs;
    var a, e := Texts(h.closed, s.blockSize100k), Expanded(h.runs);
    assert a + e + PendingText(s) == a + (e + PendingText(s)) + PendingText(t);
  }

  /** What BZ2_compressBlock leaves of a state: the block, if any, is closed with encoding e. */
  ghost function Closing(s: State, h: History, e: BE.Encoding, zbits: seq<int>, bits: seq<bool>): (r: State) {
    s.(phase := Output, zbits := zbits, bits := bits,
       crc := if s.block == [] then s.crc else Xor(s.crc, Ones()),
       combined := if s.block == [] then s.combined else Combine(s.combined, e.crc))
  }

  ghost function ClosedMore(s: State, h: History, e: BE.Encoding, ended: bool, pad: nat): (r: History) {
    h.(runs := [], closed := if s.block == [] then h.closed else h.closed + [Closed(h.runs, e)],
       ended := ended, pad := pad)
  }

  ghost function BlockPart(s: State, e: BE.Encoding): (r: seq<bool>) {
    if s.block == [] then [] else BE.EncodingBits(e)
  }

  /** The bits a close writes: the header before the first block, the block, the trailer at the end. */
  ghost function CloseBits(s: State, e: BE.Encoding, last: bool, pad: nat): (r: seq<bool>)
    requires 1 <= s.blockSize100k <= 9
  {
    (if s.blockNo == 1 then ByteBits(Header(s.blockSize100k)) else []) + BlockPart(s, e) +
    (if last
     then ByteBits(EndMagic()) + (if s.block == [] then s.combined else Combine(s.combined, e.crc)) + Zeros(pad)
     else [])
  }

  /** What a close writes, after the bits held over, fits behind the block. */
  lemma CloseFits(s: State, e: BE.Encoding, last: bool, pad: nat)
    requires 1 <= s.blockSize100k <= 9 && |s.block| <= 100000 * s.blockSize100k && (last ==> pad < 8)
    requires s.block != [] ==> BE.Encodes(e, s.block, e.crc)
    ensures 32 + |CloseBits(s, e, last, pad)| <= 8 * BlockSize.Room(s.blockSize100k, |s.block|)
  {
    hide BE.Sound, BE.EncodingBits, ByteBits, Combine, BlockSize.Room;
    if s.block != [] { BlockSize.EncodingLength(e); }
    BlockSize.RoomEnough(s.blockSize100k, |s.block|, 32 + |CloseBits(s, e, last, pad)|);
  }

  /** The encoding of the current block makes a good closed block. */
  lemma CloseGood(s: State, h: History, e: BE.Encoding)
    requires Filling(s, h) && s.block != [] && BE.Sound(e) && e.block == s.block && e.crc == Xor(s.crc, Ones())
    requires 1 <= s.blockSize100k <= 9 && |s.block| <= 100000 * s.blockSize100k
    ensures GoodClosed(Closed(h.runs, e), s.blockSize100k)
  {
    hide BE.Sound, Packed, Expanded, UpdateAll, Runs, Marked, Xor, Ones;
  }

  lemma AccountedParts(s: State, h: History)
    requires Accounted(s, h)
    ensures Runs(h.runs) && AllGood(h.closed, s.blockSize100k) && s.combined == Combined(h.closed)
    ensures h.consumed == Texts(h.closed, s.blockSize100k) + Expanded(h.runs) + PendingText(s)
  {
    hide Runs, AllGood, Texts, Expanded, Combined;
  }

  lemma AccountedMake(s: State, h: History)
    requires Runs(h.runs) && AllGood(h.closed, s.blockSize100k) && s.combined == Combined(h.closed)
    requires h.consumed == Texts(h.closed, s.blockSize100k) + Expanded(h.runs) + PendingText(s)
    ensures Accounted(s, h)
  {
    hide Runs, AllGood, Texts, Expanded, Combined;
  }

  lemma PendingSame(s: State, t: State)
    requires t.ch == s.ch && t.len == s.len
    ensures PendingText(t) == PendingText(s)
  {
  }

  lemma ClosedAccount(s: State, h: History, e: BE.Encoding, t: State, h': History)
    requires Accounted(s, h) && Runs(h.runs) && (s.block == [] <==> h.runs == [])
    requires s.block != [] ==> GoodClosed(Closed(h.runs, e), s.blockSize100k)
    requires h'.runs == [] && h'.consumed == h.consumed && t.ch == s.ch && t.len == s.len
    requires t.blockSize100k == s.blockSize100k
    requires h'.closed == (if s.block == [] then h.closed else h.closed + [Closed(h.runs, e)])
    requires t.combined == (if s.block == [] then s.combined else Combine(s.combined, e.crc))
    ensures Accounted(t, h')
  {
    hide *;
    EmptyRuns();
    NoRuns();
    AccountedParts(s, h);
    PendingSame(s, t);
    var a, b, c := Texts(h.closed, s.blockSize100k), Expanded(h.runs), PendingText(s);
    if s.block == [] {
      assert Expanded([]) == b;
    } else {
      Snoc(h.closed, Closed(h.runs, e), s.blockSize100k);
      assert a + b + c == (a + b) + [] + c;
    }
    AccountedMake(t, h');
  }

  lemma NoRuns()
    ensures Runs([])
  {
  }

  lemma WrittenMake(s: State, h: History)
    requires 1 <= s.blockSize100k <= 9 && AllGood(h.closed, s.blockSize100k) && IsBytes(h.flushed) && s.phase == Output
    requires ByteBits(h.flushed) + s.bits == ByteBits(Header(s.blockSize100k)) + BlocksBits(h.closed, s.blockSize100k) +
             (if h.ended then ByteBits(EndMagic()) + Combined(h.closed) + Zeros(h.pad) else [])
    ensures Written(s, h)
  {
    hide ByteBits, BlocksBits, Combined, Header, EndMagic, Zeros, AllGood;
    var a := ByteBits(Header(s.blockSize100k)) + BlocksBits(h.closed, s.blockSize100k);
    assert a + [] == a;
    assert a + (ByteBits(EndMagic()) + Combined(h.closed) + Zeros(h.pad)) ==
      a + ByteBits(EndMagic()) + Combined(h.closed) + Zeros(h.pad);
  }

  lemma WrittenOpen(s: State, h: History)
    requires Written(s, h) && s.phase == Input && !h.ended
    ensures 1 <= s.blockSize100k <= 9 && AllGood(h.closed, s.blockSize100k) && IsBytes(h.flushed)
    ensures ByteBits(h.flushed) + s.bits ==
            if s.blockNo == 1 then [] else ByteBits(Header(s.blockSize100k)) + BlocksBits(h.closed, s.blockSize100k)
  {
  }

  lemma ClosedWritten(s: State, h: History, e: BE.Encoding, last: bool, pad: nat, t: State, h': History)
    requires Written(s, h) && s.phase == Input && !h.ended && s.combined == Combined(h.closed) && s.blockNo >= 1
    requires s.blockNo == 1 ==> h.closed == []
    requires s.block != [] ==> GoodClosed(Closed(h.runs, e), s.blockSize100k) && BE.Sound(e)
    requires t.phase == Output && t.blockSize100k == s.blockSize100k && t.blockNo == s.blockNo
    requires 1 <= s.blockSize100k <= 9 && t.bits == s.bits + CloseBits(s, e, last, pad)
    requires h' == ClosedMore(s, h, e, last, pad)
    ensures Written(t, h')
  {
    hide ByteBits, BlocksBits, Combined, Header, EndMagic, Zeros, AllGood, GoodClosed, Written, CloseBits, BlockPart,
         Combine, BE.Sound, IsBytes;
    WrittenOpen(s, h);
    var z := s.blockSize100k;
    var hd := ByteBits(Header(z));
    NoBlocks(z);
    CombinedMore(s, h, e, last, pad, h'.closed);
    ClosePieces(s, e, last, pad, Combined(h'.closed));
    var bs, first, mid := BlocksBits(h.closed, z), (if s.blockNo == 1 then hd else []), BlockPart(s, e);
    var tail := if last then ByteBits(EndMagic()) + Combined(h'.closed) + Zeros(pad) else [];
    HeaderFirst(ByteBits(h.flushed), s.bits, hd, bs, s.blockNo == 1);
    CloseGlue(ByteBits(h.flushed), s.bits, first, mid, tail, hd, bs);
    WrittenMake(t, h');
  }

  lemma HeaderFirst(f: seq<bool>, b: seq<bool>, hd: seq<bool>, bs: seq<bool>, first: bool)
    requires f + b == (if first then [] else hd + bs) && (first ==> bs == [])
    ensures f + b + (if first then hd else []) == hd + bs
  {
  }

  /** Bits and combined checksum of the blocks, after one more or none. */
  lemma CombinedMore(s: State, h: History, e: BE.Encoding, last: bool, pad: nat, closed: seq<Closed>)
    requires closed == ClosedMore(s, h, e, last, pad).closed
    requires AllGood(h.closed, s.blockSize100k) && s.combined == Combined(h.closed) && 1 <= s.blockSize100k <= 9
    requires s.block != [] ==> GoodClosed(Closed(h.runs, e), s.blockSize100k) && BE.Sound(e)
    ensures AllGood(closed, s.blockSize100k)
    ensures BlocksBits(closed, s.blockSize100k) == BlocksBits(h.closed, s.blockSize100k) + BlockPart(s, e)
    ensures Combined(closed) == if s.block == [] then s.combined else Combine(s.combined, e.crc)
  {
    hide GoodClosed, BlocksBits, Combined, BE.EncodingBits, BE.Sound, Combine, AllGood;
    if s.block != [] { Snoc(h.closed, Closed(h.runs, e), s.blockSize100k); }
  }

  lemma ClosePieces(s: State, e: BE.Encoding, last: bool, pad: nat, combined: Word)
    requires 1 <= s.blockSize100k <= 9 && combined == (if s.block == [] then s.combined else Combine(s.combined, e.crc))
    ensures CloseBits(s, e, last, pad) ==
            (if s.blockNo == 1 then ByteBits(Header(s.blockSize100k)) else []) + BlockPart(s, e) +
            (if last then ByteBits(EndMagic()) + combined + Zeros(pad) else [])
  {
    hide ByteBits, BlockPart, Header, EndMagic, Zeros, Combine;
  }

  lemma CloseGlue(f: seq<bool>, b: seq<bool>, first: seq<bool>, mid: seq<bool>, tail: seq<bool>, hd: seq<bool>,
                  bs: seq<bool>)
    requires f + b + first == hd + bs
    ensures f + (b + (first + mid + tail)) == hd + (bs + mid) + tail
  {
    assert f + (b + (first + mid + tail)) == (f + b + first) + mid + tail;
    assert hd + (bs + mid) + tail == (hd + bs) + mid + tail;
  }

  lemma NoBlocks(z: nat)
    ensures AllGood([], z) && BlocksBits([], z) == [] && Texts([], z) == []
  {
  }

  /** The block may be closed: it is full with a run left pending, or a flush or the end is due. */
  ghost predicate Closable(s: State, h: History, last: bool) {
    && Written(s, h) && Accounted(s, h) && PendingOk(s, h) && Delivered(s, h) && Filling(s, h)
    && s.phase == Input && s.blockNo >= 1 && (s.blockNo == 1 ==> h.closed == []) && IsBytes(s.nextIn)
    && |s.block| <= 100000 * s.blockSize100k - 10 && s.mode != Idle
    && (if EmptyRL(s) then h.runs == [] || Early(h.runs[..|h.runs| - 1], Limit(s))
        else Early(h.runs, Limit(s)) && |s.block| >= Limit(s))
    && if last then EmptyRL(s) && s.expected == 0 && s.mode == Finishing
       else !EmptyRL(s) || (s.mode == Flushing && s.expected == 0)
  }

  /** A block that is full leaves a run pending: closing it cannot be mistaken for the end. */
  lemma FullLeavesPending(s: State, h: History)
    requires Inv(s, h) && s.phase == Input && |s.block| >= Limit(s)
    ensures !EmptyRL(s)
  {
    hide Texts, Expanded, UpdateAll, AllGood, Runs, Combined, ByteBits, BlocksBits, Accounted, Marked;
    EmptyRuns();
  }

  lemma FullClosable(s: State, h: History)
    requires Inv(s, h) && s.phase == Input && |s.block| >= Limit(s) && s.mode != Idle
    ensures Closable(s, h, false)
  {
    hide Written, Accounted, PendingOk, Delivered, Filling;
    FullLeavesPending(s, h);
  }

  lemma FlushedClosable(s: State, h: History, t: State, h': History)
    requires Inv(s, h) && s.phase == Input && s.mode in {Flushing, Finishing} && s.expected == 0
    requires (EmptyRL(s) || Run(s.ch, s.len).Valid()) && |s.inUse| == 256 && t == FlushRL(s)
    requires h'.closed == h.closed
    requires Written(t, h') && Accounted(t, h') && PendingOk(t, h') && Delivered(t, h') && Filling(t, h') && EmptyRL(t)
    requires |t.block| <= |s.block| + 5
    requires h'.runs == h.runs || (h'.runs != [] && h.runs == h'.runs[..|h'.runs| - 1])
    requires h'.runs == h.runs ==> EmptyRL(s)
    ensures Closable(t, h', s.mode == Finishing)
  {
    hide Written, Accounted, PendingOk, Delivered, Filling, UpdateAll, Early;
  }

  lemma CloseFills(s: State, h: History, e: BE.Encoding, last: bool, ended: bool, pad: nat)
    requires Closable(s, h, last) && (s.block != [] ==> e.block == s.block)
    ensures Filled(h.closed, ClosedMore(s, h, e, ended, pad).closed, Limit(s), EmptyRL(s))
  {
    hide Written, Accounted, PendingOk, Delivered, UpdateAll, Early;
    if s.block != [] { BlockIffRuns(s, h); }
  }

  /** What a close adds to the closed blocks. */
  lemma CloseGrows(s: State, h: History, e: BE.Encoding, last: bool, ended: bool, pad: nat)
    requires Closable(s, h, last)
    requires s.block != [] ==> BE.Encodes(e, s.block, e.crc) && BE.Tailored(e) && e.inUse == s.inUse
    ensures Grown(h.closed, ClosedMore(s, h, e, ended, pad).closed, Limit(s), EmptyRL(s))
  {
    hide Written, Accounted, PendingOk, Delivered, BE.Sound, BE.Tailored, UpdateAll, Early, Filled, Fitted;
    CloseFills(s, h, e, last, ended, pad);
    if s.block != [] { FittedIs(s, h, e); }
  }

  lemma FittedIs(s: State, h: History, e: BE.Encoding)
    requires Filling(s, h) && e.block == s.block && e.inUse == s.inUse && BE.Tailored(e)
    ensures Fitted(e)
  {
    hide BE.Tailored, UpdateAll, Packed, Expanded;
  }

  /** Closing the block keeps the books. */
  lemma CloseKeeps(s: State, h: History, e: BE.Encoding, last: bool, pad: nat, zbits: seq<int>, bits: seq<bool>)
    requires Closable(s, h, last) && 1 <= s.blockSize100k <= 9
    requires s.block != [] ==> BE.Encodes(e, s.block, Xor(s.crc, Ones()))
    requires IsBytes(zbits) && ByteBits(zbits) <= bits && bits == s.bits + CloseBits(s, e, last, pad)
    requires last ==> pad < 8 && bits == ByteBits(zbits)
    ensures Inv(Closing(s, h, e, zbits, bits), ClosedMore(s, h, e, last, pad))
  {
    hide Written, Accounted, Texts, Packed, Expanded, UpdateAll, Marked, AllGood, Runs, Combined, ByteBits, CloseBits,
         BE.Sound, GoodClosed, Combine, Xor, Ones;
    BlockIffRuns(s, h);
    AccountedIs(s, h);
    WrittenIs(s, h);
    if s.block != [] { CloseGood(s, h, e); }
    var t, h' := Closing(s, h, e, zbits, bits), ClosedMore(s, h, e, last, pad);
    ClosedWritten(s, h, e, last, pad, t, h');
    ClosedAccount(s, h, e, t, h');
  }

  lemma BlockIffRuns(s: State, h: History)
    requires Filling(s, h)
    ensures Runs(h.runs) && (s.block == [] <==> h.runs == [])
  {
    PackedAre(h.runs);
  }

  lemma AccountedIs(s: State, h: History)
    requires Accounted(s, h)
    ensures s.combined == Combined(h.closed)
  {
  }

  lemma ClosableParts(s: State, h: History, last: bool)
    requires Closable(s, h, last)
    ensures 1 <= s.blockSize100k <= 9 && s.blockNo >= 1 && s.zbits == [] && s.outPos == 0 && !h.ended
    ensures s.block != [] ==> ME.Covered(s.block, s.inUse)
    ensures s.blockNo == 1 ==> s.bits == []
    ensures |s.block| <= 900000 && |s.block| <= 100000 * s.blockSize100k
  {
    hide Texts, Packed, Expanded, UpdateAll, AllGood, Runs, Combined, BlocksBits, Header;
    PackedAre(h.runs);
  }

  lemma WrittenIs(s: State, h: History)
    requires Written(s, h)
    ensures 1 <= s.blockSize100k <= 9 && IsBytes(h.flushed)
  {
  }

  // ----- giving output

  /** k more bytes handed over. */
  function Deliver(s: State, k: nat): (r: State)
    requires s.outPos + k <= |s.zbits| && k <= s.availOut
  {
    s.(nextOut := s.nextOut + s.zbits[s.outPos..s.outPos + k], outPos := s.outPos + k, availOut := s.availOut - k)
  }

  lemma DeliverKeeps(s: State, h: History, k: nat)
    requires Inv(s, h) && s.phase == Output && s.outPos + k <= |s.zbits| && k <= s.availOut
    ensures Inv(Deliver(s, k), h)
  {
    hide Written, Accounted, AllGood, ByteBits, IsBytes;
    var t := Deliver(s, k);
    WrittenSame(s, h, t, h);
    AccountSame(s, h, t);
    assert h.flushed + s.zbits[..s.outPos] + s.zbits[s.outPos..s.outPos + k] == h.flushed + s.zbits[..s.outPos + k];
  }

  lemma AccountSame(s: State, h: History, t: State)
    requires Accounted(s, h) && t.blockSize100k == s.blockSize100k && t.ch == s.ch && t.len == s.len
    requires t.combined == s.combined
    ensures Accounted(t, h)
  {
    hide Runs, AllGood, Texts, Expanded, Combined;
  }

  /** prepare_new_block */
  function Prepare(s: State): (r: State)
    requires 8 * |s.zbits| <= |s.bits|
  {
    s.(phase := Input, block := [], inUse := seq(256, _ => false), crc := Ones(), blockNo := s.blockNo + 1,
       zbits := [], outPos := 0, bits := s.bits[8 * |s.zbits|..])
  }

  /** When all of zbits has been handed over, a new block can begin. */
  lemma HandedOver(a: seq<bool>, b: seq<bool>, bits: seq<bool>)
    requires b <= bits
    ensures a + b + bits[|b|..] == a + bits
  {
    assert b + bits[|b|..] == bits;
    assert a + b + bits[|b|..] == a + (b + bits[|b|..]);
  }

  lemma PrepareKeeps(s: State, h: History)
    requires Inv(s, h) && s.phase == Output && s.outPos == |s.zbits| && !h.ended
    ensures 8 * |s.zbits| <= |s.bits|
    ensures Inv(Prepare(s), h.(flushed := h.flushed + s.zbits))
  {
    hide Accounted, AllGood, ByteBits, IsBytes, Runs, Packed, Expanded, UpdateAll, Header, BlocksBits;
    var t, h' := Prepare(s), h.(flushed := h.flushed + s.zbits);
    assert s.zbits[..s.outPos] == s.zbits;
    AccountMoved(s, h, t, h');
    WrittenIs(s, h);
    FreshFilling();
    ByteBitsAppend(h.flushed, s.zbits);
    HandedOver(ByteBits(h.flushed), ByteBits(s.zbits), s.bits);
    EmptyBytes(t);
  }

  lemma EmptyBytes(t: State)
    ensures IsBytes([]) && ByteBits([]) == [] && [] <= t.bits
  {
  }

  lemma AccountMoved(s: State, h: History, t: State, h': History)
    requires Accounted(s, h) && t.blockSize100k == s.blockSize100k && t.ch == s.ch && t.len == s.len
    requires t.combined == s.combined
    requires h'.runs == h.runs && h'.closed == h.closed && h'.consumed == h.consumed
    ensures Accounted(t, h')
  {
    hide Runs, AllGood, Texts, Expanded, Combined;
  }

  lemma FreshFilling()
    ensures Runs([]) && Packed([]) == [] && Expanded([]) == [] && Marked([], seq(256, _ => false))
    ensures IsBytes([]) && UpdateAll(Ones(), []) == Ones()
  {
    assert Octets([]) == [];
  }

  // ----- the end of the stream

  /** These bytes are the stream of these blocks, the last byte filled with zero bits. */
  ghost predicate Complete(bytes: seq<int>, cs: seq<Closed>, blockSize100k: nat, pad: nat) {
    && IsBytes(bytes) && 1 <= blockSize100k <= 9 && AllGood(cs, blockSize100k) && pad < 8
    && ByteBits(bytes) == StreamBits(cs, blockSize100k) + Zeros(pad)
  }

  /** Once the trailer is out, everything delivered is a complete stream, and it decodes to
      everything consumed. */
  lemma EndDecodes(s: State, h: History)
    requires Inv(s, h) && h.ended && s.outPos == |s.zbits|
    ensures Complete(s.nextOut, h.closed, s.blockSize100k, h.pad) && h.consumed == Texts(h.closed, s.blockSize100k)
    ensures GetStream(ByteBits(s.nextOut)) == Done(h.consumed, Zeros(h.pad))
  {
    hide AllGood, ByteBits, IsBytes, Runs, Expanded, StreamBits, GetStream, Texts;
    assert s.zbits[..s.outPos] == s.zbits;
    WrittenIs(s, h);
    ByteBitsAppend(h.flushed, s.zbits);
    PendingEmpty(s, h);
    EmptyRuns();
    StreamRoundTrip(h.closed, s.blockSize100k, Zeros(h.pad));
    assert Texts(h.closed, s.blockSize100k) + [] + [] == Texts(h.closed, s.blockSize100k);
  }

  /** The state after BZ2_bzCompressInit. */
  function Start(blockSize100k: nat): (s: State) {
    State(blockSize100k, Running, Input, 0, [], seq(256, _ => false), 256, 0, Ones(), Zero(32), 1, [], 0, [], [], [], 0)
  }

  lemma StartInv(blockSize100k: nat)
    requires 1 <= blockSize100k <= 9
    ensures Inv(Start(blockSize100k), History([], [], [], [], false, 0))
  {
    hide Packed, Expanded, UpdateAll;
    FreshFilling();
    NoBlocks(blockSize100k);
    var s := Start(blockSize100k);
    EmptyBytes(s);
  }
}
