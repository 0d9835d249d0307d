/** bzlib.c, compression side: run-length coding into the block, and BZ2_bzCompress. */
module Compressor {
  import opened Bytes
  import opened Powers
  import opened BitStrings
  import opened BitWriter
  import opened CrcRegister
  import opened BlockChecksum
  import opened RunLength
  import opened StreamFormat
  import opened CompressorState
  import BE = BlockEncoder
  import MF = MoveToFront
  import ME = MtfEncoder
  import BlockSize

  datatype Action = DoRun | DoFlush | DoFinish | Unknown

  datatype Option<+T> = None | Some(value: T)

  datatype Code = RunOk | FlushOk | FinishOk | StreamEnd | SequenceError | ParamError

  /** Nothing is lost between two states: input consumed comes off the front of what was offered,
      output is appended within the space offered, closed blocks stay. */
  ghost predicate Flow(s: State, h: History, t: State, h': History) {
    && h'.consumed + t.nextIn == h.consumed + s.nextIn && |t.nextIn| <= |s.nextIn|
    && s.nextOut <= t.nextOut && |t.nextOut| + t.availOut == |s.nextOut| + s.availOut
    && h.closed <= h'.closed
  }

  lemma FlowTransitive(s: State, h: History, t: State, h': History, u: State, h'': History)
    requires Flow(s, h, t, h') && Flow(t, h', u, h'')
    ensures Flow(s, h, u, h'')
  {
  }

  /** Without progress nothing has moved. */
  lemma FlowStill(s: State, h: History, t: State, h': History)
    requires Flow(s, h, t, h') && |t.nextIn| == |s.nextIn| && |t.nextOut| == |s.nextOut|
    ensures t.nextIn == s.nextIn && t.nextOut == s.nextOut && h'.consumed == h.consumed
  {
    assert s.nextIn == (h.consumed + s.nextIn)[|h.consumed|..];
    assert t.nextIn == (h'.consumed + t.nextIn)[|h'.consumed|..];
    assert h.consumed == (h.consumed + s.nextIn)[..|h.consumed|];
    assert h'.consumed == (h'.consumed + t.nextIn)[..|h'.consumed|];
  }

  lemma RunMatched(s: State)
    ensures s.mode == Running ==> Matched(s) && !Forced(s)
    ensures s.mode != Idle && s.expected == |s.nextIn| ==> Matched(s)
  {
  }

  lemma ForcedTaken(s: State)
    requires Matched(s)
    ensures Forced(s) ==> s.nextIn == []
  {
  }

  /** In a flush or finish call, what is offered is exactly what is expected. */
  ghost predicate Matched(s: State) {
    s.mode != Idle && (s.mode != Running ==> |s.nextIn| == s.expected)
  }

  /** All that a flush or the end must wait for has been taken and put into blocks. */
  ghost predicate Forced(s: State) {
    s.mode != Running && s.expected == 0 && EmptyRL(s)
  }

  /** Why handle_compress may stop. */
  ghost predicate Stopped(s: State, h: History) {
    || (s.phase == Output && s.outPos < |s.zbits| && s.availOut == 0)
    || (s.phase == Output && s.outPos == |s.zbits| && h.ended)
    || (s.phase == Input && s.mode == Flushing && s.expected == 0 && EmptyRL(s) && s.block == [])
    || (s.phase == Input && s.mode == Running && s.nextIn == [] && |s.block| < Limit(s))
  }

  /** The answer to a call that is refused outright: the stream is over, the action is not the one
      under way, or input came or went since it began. */
  function Refusal(s: State, action: Action): (r: Option<Code>) {
    match s.mode
    case Idle => Some(SequenceError)
    case Running => if action == Unknown then Some(ParamError) else None
    case Flushing => if action != DoFlush || s.expected != |s.nextIn| then Some(SequenceError) else None
    case Finishing => if action != DoFinish || s.expected != |s.nextIn| then Some(SequenceError) else None
  }

  /** Input was taken or output given. */
  predicate Progress(s: State, t: State) {
    |t.nextIn| < |s.nextIn| || |t.nextOut| > |s.nextOut|
  }

  /** The answer to a call that is not refused outright. */
  predicate Answered(s: State, action: Action, r: Code, t: State) {
    match action
    case DoRun =>
      // as much as possible is done; an error says that nothing could be
      && r == (if Progress(s, t) then RunOk else ParamError)
      && t.mode == Running && (t.availOut == 0 || t.nextIn == [])
    case DoFlush => (r == FlushOk && t.mode == Flushing && t.availOut == 0) || (r == RunOk && t.mode == Running)
    case DoFinish =>
      || (r == StreamEnd && t.mode == Idle && Progress(s, t))
      || (r == FinishOk && t.mode == Finishing && t.availOut == 0 && Progress(s, t))
      || (r == SequenceError && s.availOut == 0 && t.nextIn == s.nextIn && t.nextOut == s.nextOut)
    case Unknown => false
  }

  lemma GrownRound(cs: seq<Closed>, cs': seq<Closed>, cs'': seq<Closed>, limit: int, forced: bool, forced': bool)
    requires Grown(cs, cs', limit, forced)
    requires if forced then cs'' == cs' && forced' else Grown(cs', cs'', limit, forced')
    ensures Grown(cs, cs'', limit, forced')
  {
    hide Grown;
    if !forced { GrownMore(cs, cs', cs'', limit, forced'); }
  }

  lemma ForcedIs(c: Compressor)
    requires c.Valid()
    ensures c.IsEmptyRL() <==> !(c.stateInCh < 256 && c.stateInLen > 0)
    ensures EmptyRL(c.S()) <==> c.IsEmptyRL()
    ensures Forced(c.S()) <==> c.mode != Running && c.availInExpect == 0 && c.IsEmptyRL()
    ensures Matched(c.S()) && c.mode != Running ==> |c.nextIn| == c.availInExpect
    ensures c.nblockMAX > 0
  {
    ValidParts(c);
  }

  lemma ForcedSame(c: Compressor, s: State)
    requires c.Valid() && c.mode == s.mode && c.availInExpect == s.expected
    requires c.stateInCh == s.ch && c.stateInLen == s.len
    ensures Forced(c.S()) == Forced(s) && EmptyRL(c.S()) == EmptyRL(s)
  {
    ValidParts(c);
  }

  lemma StoppedIs(c: Compressor)
    requires c.Valid() && Stopped(c.S(), c.h)
    ensures c.h.ended && c.stateOutPos != |c.w.zbits| ==> c.availOut == 0
    ensures c.stateOutPos <= |c.w.zbits|
  {
    hide Written, Accounted, Delivered, PendingOk, Filling;
    ValidParts(c);
    OutputParts(c.S(), c.h);
  }

  /** A finish call that is stuck with input left has taken some input before. */
  lemma StuckEmpty(s: State, h: History)
    requires Inv(s, h) && Stopped(s, h) && Matched(s) && s.mode == Finishing && s.nextIn != []
    ensures h.consumed != []
  {
    hide Written, Delivered, AllGood, Texts;
    assert |PendingText(s)| > 0;
  }

  lemma FlowIs(s: State, h: History, t: State, h': History)
    requires Flow(s, h, t, h')
    ensures h'.consumed + t.nextIn == h.consumed + s.nextIn && |t.nextIn| <= |s.nextIn|
    ensures |s.nextOut| <= |t.nextOut| && |t.nextOut| + t.availOut == |s.nextOut| + s.availOut
  {
  }

  lemma RestingShape(c: Compressor)
    requires c.Resting()
    ensures c.Shaped()
  {
  }

  lemma StartRests(c: Compressor)
    requires c.Valid() && c.mode == Running
    ensures c.Resting()
  {
    hide Compressor.Valid;
  }

  lemma RunStopped(s: State, h: History)
    requires Inv(s, h) && Stopped(s, h) && s.mode == Running
    ensures s.availOut == 0 || s.nextIn == []
  {
  }

  class Compressor {
    const blockSize100k: nat
    const workFactor: nat
    const nblockMAX: int
    const block: array<int>
    const w: Writer
    var mode: Mode
    var phase: Phase
    var availInExpect: nat
    var nblock: nat
    var inUse: seq<bool>
    var stateInCh: int
    var stateInLen: int
    var blockCRC: Word
    var combinedCRC: Word
    var blockNo: nat
    var stateOutPos: nat
    // bz_stream
    var nextIn: seq<int>
    var nextOut: seq<int>
    var availOut: nat
    ghost var h: History

    ghost predicate Shaped()
      reads this, block, w
    {
      && 1 <= blockSize100k <= 9 && nblockMAX == 100000 * blockSize100k - 19 && block.Length == 100000 * blockSize100k
      && nblock <= block.Length && w.Valid()
    }

    /** The state as a value. */
    ghost function S(): (s: State)
      requires Shaped()
      reads this, block, w
    {
      State(blockSize100k, mode, phase, availInExpect, block[..nblock], inUse, stateInCh, stateInLen, blockCRC,
            combinedCRC, blockNo, w.zbits, stateOutPos, w.Bits(), nextIn, nextOut, availOut)
    }

    ghost predicate Valid()
      reads this, block, w
    {
      && Shaped() && Inv(S(), h) && (!h.ended ==> 0 <= w.bsLive)
    }

    /** isempty_RL */
    predicate IsEmptyRL()
      reads this
    {
      !(stateInCh < 256 && stateInLen > 0)
    }

    /** BZ2_bzCompressInit, for arguments it accepts. */
    constructor (blockSize100k: nat, workFactor: nat)
      requires 1 <= blockSize100k <= 9 && workFactor <= 250
      ensures Valid() && fresh(block) && fresh(w)
      ensures S() == Start(blockSize100k) && h == History([], [], [], [], false, 0)
    {
      this.blockSize100k := blockSize100k;
      this.workFactor := if workFactor == 0 then 30 else workFactor;
      nblockMAX := 100000 * blockSize100k - 19;
      block := new int[100000 * blockSize100k](_ => 0);
      w := new Writer();
      mode, phase, availInExpect, nblock := Running, Input, 0, 0;
      inUse := seq(256, _ => false);
      stateInCh, stateInLen := 256, 0;
      blockCRC, combinedCRC, blockNo, stateOutPos := Ones(), Zero(32), 1, 0;
      nextIn, nextOut, availOut := [], [], 0;
      h := History([], [], [], [], false, 0);
      new;
      assert block[..0] == [];
      StartInv(blockSize100k);
    }

    /** BZ_UPDATE_CRC, n times with the same byte. */
    method UpdateChecksum(ch: int, n: nat)
      requires 0 <= ch < 256
      modifies this`blockCRC
      ensures IsBytes(MF.Repeat(ch, n)) && blockCRC == UpdateAll(old(blockCRC), MF.Repeat(ch, n))
    {
      hide UpdateAll, Update, Bits8;
      ghost var crc0 := blockCRC;
      NoUpdates(crc0, ch);
      for i := 0 to n
        invariant blockCRC == UpdateAll(crc0, MF.Repeat(ch, i))
      {
        UpdateSnoc(crc0, MF.Repeat(ch, i), ch);
        assert MF.Repeat(ch, i) + [ch] == MF.Repeat(ch, i + 1);
        blockCRC := Update(blockCRC, Bits8(ch));
      }
    }

    /** The bytes of the pending run. */
    method PutRun()
      requires Run(stateInCh, stateInLen).Valid() && |inUse| == 256 && nblock + 5 <= block.Length
      modifies this`nblock, this`inUse, block
      ensures nblock <= block.Length && block[..nblock] == old(block[..nblock]) + RunBytes(Run(stateInCh, stateInLen))
      ensures inUse == if stateInLen < 4 then old(inUse) else old(inUse)[stateInLen - 4 := true]
    {
      var ch := stateInCh;
      ghost var b0 := block[..nblock];
      if stateInLen == 1 {
        Append(ch);
        assert b0 + [ch] == b0 + RunBytes(Run(stateInCh, stateInLen));
      } else if stateInLen == 2 {
        Append(ch);
        Append(ch);
        assert b0 + [ch] + [ch] == b0 + RunBytes(Run(stateInCh, stateInLen));
      } else if stateInLen == 3 {
        Append(ch);
        Append(ch);
        Append(ch);
        assert b0 + [ch] + [ch] + [ch] == b0 + RunBytes(Run(stateInCh, stateInLen));
      } else {
        inUse := inUse[stateInLen - 4 := true];
        Append(ch);
        Append(ch);
        Append(ch);
        Append(ch);
        Append(stateInLen - 4);
        assert b0 + [ch] + [ch] + [ch] + [ch] + [stateInLen - 4] == b0 + RunBytes(Run(stateInCh, stateInLen));
      }
    }

    /** add_pair_to_block */
    method AddPairToBlock()
      requires Shaped() && Run(stateInCh, stateInLen).Valid() && |inUse| == 256 && nblock + 5 <= block.Length
      modifies this`blockCRC, this`inUse, this`nblock, block
      ensures Shaped() && S() == AddPair(old(S()))
    {
      hide UpdateAll, RunBytes, IsBytes;
      UpdateChecksum(stateInCh, stateInLen);
      inUse := inUse[stateInCh := true];
      PutRun();
    }

    /** block[nblock] = c; nblock++ */
    method Append(c: int)
      requires nblock < block.Length
      modifies this`nblock, block
      ensures nblock == old(nblock) + 1 && block[..nblock] == old(block[..nblock]) + [c]
    {
      block[nblock] := c;
      nblock := nblock + 1;
    }

    /** flush_RL */
    method FlushRunLength()
      requires Shaped() && |inUse| == 256 && nblock + 5 <= block.Length
      requires (stateInCh == 256 && stateInLen == 0) || Run(stateInCh, stateInLen).Valid()
      modifies this, block
      ensures Shaped() && S() == FlushRL(old(S())) && h == old(h)
    {
      hide AddPair;
      if stateInCh < 256 { AddPairToBlock(); }
      stateInCh, stateInLen := 256, 0;
    }

    /** The common case: a run of one byte goes into the block. */
    method AddSingle()
      requires Shaped() && 0 <= stateInCh < 256 && stateInLen == 1 && |inUse| == 256 && nblock < block.Length
      modifies this`blockCRC, this`inUse, this`nblock, block
      ensures Shaped() && S() == AddPair(old(S()))
    {
      hide UpdateAll, IsBytes;
      var ch := stateInCh;
      assert MF.Repeat(ch, 1) == [ch];
      UpdateChecksum(ch, 1);
      inUse := inUse[ch := true];
      Append(ch);
    }

    /** ADD_CHAR_TO_BLOCK */
    method AddCharToBlock(zchh: int)
      requires Shaped() && |inUse| == 256 && nblock + 5 <= block.Length && 0 <= zchh < 256
      requires (stateInCh == 256 && stateInLen == 0) || Run(stateInCh, stateInLen).Valid()
      modifies this, block
      ensures Shaped() && S() == AddChar(old(S()), zchh) && h == old(h)
    {
      hide UpdateAll, IsBytes, AddPair, ByteBits, Writer.Valid, Writer.Bits;
      if zchh != stateInCh && stateInLen == 1 {
        AddSingle();
        stateInCh := zchh;
      } else if zchh != stateInCh || stateInLen == 255 {
        if stateInCh < 256 { AddPairToBlock(); }
        stateInCh := zchh;
        stateInLen := 1;
      } else {
        stateInLen := stateInLen + 1;
      }
    }

    /** One byte of input goes in. */
    method TakeChar()
      requires Valid() && phase == Input && nextIn != [] && nblock < nblockMAX && (mode == Running || availInExpect > 0)
      modifies this, block
      ensures Valid() && Flow(old(S()), old(h), S(), h)
      ensures S() == AddChar(old(S()), old(nextIn)[0]).(nextIn := nextIn, expected := availInExpect)
      ensures nextIn == old(nextIn)[1..] && availInExpect == old(availInExpect) - (if mode == Running then 0 else 1)
      ensures h.closed == old(h.closed) && !h.ended && !EmptyRL(S())
    {
      hide *;
      ValidParts(this);
      ghost var s0, h0 := S(), h;
      SIs(this);
      InputParts(s0, h0);
      LimitIs(s0);
      EmptyIs(s0);
      FirstIsByte(s0.nextIn);
      ghost var h' := AddCharKeeps(s0, h0);
      AddCharToBlock(nextIn[0]);
      AddCharSame(s0, s0.nextIn[0]);
      SIs(this);
      if mode != Running { availInExpect := availInExpect - 1; }
      nextIn := nextIn[1..];
      h := h';
      ShapedStays(this);
      SIs(this);
      ValidMake(this);
      FlowTaken(s0, h0, S(), h);
    }

    /** copy_input_until_stop */
    method CopyInputUntilStop() returns (progressIn: bool)
      requires Valid() && phase == Input && Matched(S())
      modifies this, block
      ensures Valid() && Flow(old(S()), old(h), S(), h) && Matched(S())
      ensures mode == old(mode) && phase == Input && nextOut == old(nextOut) && h.closed == old(h.closed) && !h.ended
      ensures progressIn <==> |nextIn| < |old(nextIn)|
      ensures if progressIn then !EmptyRL(S()) else S() == old(S()) && h == old(h)
      ensures nblock >= nblockMAX || nextIn == []
    {
      hide Inv, AddChar, ByteBits, ToBits, Pow2, Loaded, Live, IsBytes, Writer.Valid, Writer.Bits, AddPair;
      InputParts(S(), h);
      ghost var s0, h0 := S(), h;
      progressIn := false;
      if mode == Running {
        while nblock < nblockMAX && nextIn != []
          invariant Valid() && Flow(s0, h0, S(), h) && Matched(S()) && mode == Running && phase == Input
          invariant h.closed == h0.closed && !h.ended
          invariant progressIn <==> |nextIn| < |s0.nextIn|
          invariant nextOut == s0.nextOut
          invariant if progressIn then !EmptyRL(S()) else S() == s0 && h == h0
          decreases |nextIn|
        {
          progressIn := true;
          ghost var s1, h1 := S(), h;
          AddCharIs(s1, nextIn[0], h1);
          TakeChar();
          FlowTransitive(s0, h0, s1, h1, S(), h);
        }
      } else {
        while nblock < nblockMAX && nextIn != [] && availInExpect != 0
          invariant Valid() && Flow(s0, h0, S(), h) && Matched(S()) && mode == s0.mode && phase == Input
          invariant h.closed == h0.closed && !h.ended
          invariant progressIn <==> |nextIn| < |s0.nextIn|
          invariant nextOut == s0.nextOut
          invariant if progressIn then !EmptyRL(S()) else S() == s0 && h == h0
          decreases |nextIn|
        {
          progressIn := true;
          ghost var s1, h1 := S(), h;
          AddCharIs(s1, nextIn[0], h1);
          TakeChar();
          FlowTransitive(s0, h0, s1, h1, S(), h);
        }
      }
    }

    /** copy_output_until_stop */
    method CopyOutputUntilStop() returns (progressOut: bool)
      requires Valid() && phase == Output
      modifies this`nextOut, this`stateOutPos, this`availOut
      ensures Valid() && Flow(old(S()), old(h), S(), h)
      ensures progressOut <==> |nextOut| > |old(nextOut)|
      ensures availOut == 0 || stateOutPos == |w.zbits|
      ensures progressOut <==> stateOutPos > old(stateOutPos)
      ensures stateOutPos >= old(stateOutPos)
    {
      hide *;
      progressOut := false;
      ValidParts(this);
      ghost var s0, k: nat := S(), 0;
      SIs(this);
      OutputParts(s0, h);
      assert s0.nextOut + s0.zbits[s0.outPos..s0.outPos] == s0.nextOut;
      while availOut != 0 && stateOutPos < |w.zbits|
        invariant stateOutPos == s0.outPos + k <= |w.zbits| && availOut + k == s0.availOut
        invariant nextOut == s0.nextOut + s0.zbits[s0.outPos..s0.outPos + k]
        invariant progressOut <==> k > 0
        decreases availOut
      {
        progressOut := true;
        SliceMore(s0.nextOut, s0.zbits, s0.outPos, k);
        nextOut := nextOut + [w.zbits[stateOutPos]];
        stateOutPos := stateOutPos + 1;
        availOut := availOut - 1;
        k := k + 1;
      }
      ShapedStays(this);
      SIs(this);
      DeliverIs(s0, k);
      DeliverKeeps(s0, h, k);
      ValidMake(this);
      FlowDeliver(s0, h, k);
    }

    /** prepare_new_block */
    method PrepareNewBlock()
      requires Valid() && phase == Output && stateOutPos == |w.zbits| && !h.ended
      modifies this, w
      ensures Shaped() && S() == Prepare(old(S())).(phase := Output) && 0 <= w.bsLive
      ensures h == old(h).(flushed := old(h).flushed + old(w.zbits)) && 8 * |old(w.zbits)| <= |old(w.Bits())|
    {
      hide Inv, ByteBits, ToBits, Pow2, Loaded, Live, IsBytes, Writer.Valid, Writer.Bits, AddPair;
      PrepareKeeps(S(), h);
      nblock := 0;
      h := h.(flushed := h.flushed + w.zbits);
      w.Empty();
      stateOutPos := 0;
      blockCRC := Ones();
      inUse := seq(256, _ => false);
      blockNo := blockNo + 1;
    }

    /** BZ2_compressBlock */
    method CompressBlock(isLast: bool)
      requires Shaped() && Closable(S(), h, isLast) && 0 <= w.bsLive
      modifies this`blockCRC, this`combinedCRC, this`h, w
      ensures Shaped() && Inv(S().(phase := Output), h) && (!isLast ==> 0 <= w.bsLive)
      ensures h.ended == isLast && h.consumed == old(h.consumed) && old(h.closed) <= h.closed
      ensures isLast ==> |w.zbits| > 0
      ensures |w.zbits| <= BlockSize.Room(blockSize100k, nblock)
      ensures Grown(old(h.closed), h.closed, nblockMAX, EmptyRL(old(S())))
    {
      hide *;
      ghost var s0, h0 := S(), h;
      SIs(this);
      ClosableParts(s0, h0, isLast);
      HeldOver(w);
      FinishChecksum();
      StartStream();
      ghost var b1 := w.Bits();
      ghost var e := SendCurrent();
      ghost var b2 := w.Bits();
      ghost var pad := WriteTrailer(isLast);
      WriterBits(w);
      ShapedStays(this);
      SIs(this);
      SentIs(s0, e, isLast, pad, b1, b2, S());
      CloseResult(s0, h0, e, isLast, pad, b1, b2, S());
      BitsFit(s0, e, isLast, pad, b1, b2, S());
      CrcKept(e, s0);
      CloseGrows(s0, h0, e, isLast, isLast, pad);
      LimitIs(s0);
      h := ClosedMore(s0, h0, e, isLast, pad);
      ShapedStays(this);
      SIs(this);
    }

    /** The checksums of the block and of all blocks. */
    method FinishChecksum()
      requires w.Valid() && 0 <= w.bsLive && w.zbits == []
      modifies this`blockCRC, this`combinedCRC, w`zbits
      ensures w.Valid() && w.zbits == [] && w.Bits() == old(w.Bits())
      ensures blockCRC == if nblock == 0 then old(blockCRC) else Xor(old(blockCRC), Ones())
      ensures combinedCRC == if nblock == 0 then old(combinedCRC) else Combine(old(combinedCRC), blockCRC)
    {
      hide *;
      if nblock > 0 {
        blockCRC := Xor(blockCRC, Ones());
        combinedCRC := Combine(combinedCRC, blockCRC);
        if blockNo > 1 { w.Empty(); }
        assert old(w.Bits())[0..] == old(w.Bits());
      }
    }

    /** The stream header, before the first block. */
    method StartStream()
      requires w.Valid() && 0 <= w.bsLive && 1 <= blockSize100k <= 9 && (blockNo == 1 ==> w.Bits() == [])
      modifies w
      ensures w.Valid() && 0 <= w.bsLive
      ensures w.Bits() == old(w.Bits()) + (if blockNo == 1 then ByteBits(Header(blockSize100k)) else [])
    {
      hide *;
      HeaderIs(blockSize100k);
      if blockNo == 1 {
        w.Init();
        BE.PutBytes(w, [0x42, 0x5a, 0x68, 0x30 + blockSize100k]);
      }
      assert w.Bits() + [] == w.Bits();
    }

    /** The block itself. */
    method SendCurrent() returns (ghost e: BE.Encoding)
      requires w.Valid() && 0 <= w.bsLive && nblock <= 900000 && nblock <= block.Length
      requires block[..nblock] != [] ==> ME.Covered(block[..nblock], inUse)
      modifies w
      ensures w.Valid() && 0 <= w.bsLive && (nblock == 0 ==> w.Bits() == old(w.Bits()))
      ensures nblock > 0 ==> BE.Encodes(e, block[..nblock], blockCRC) && w.Bits() == old(w.Bits()) + BE.EncodingBits(e)
      ensures nblock > 0 ==> BE.Tailored(e) && e.inUse == inUse
    {
      hide *;
      if nblock > 0 {
        e := BE.SendBlock(w, block, nblock, workFactor, inUse, blockCRC);
      } else {
        e := BE.Encoding([], blockCRC, [], 0, [], [], []);
      }
    }

    /** The stream trailer, after the last block. */
    method WriteTrailer(isLast: bool) returns (ghost pad: nat)
      requires w.Valid() && 0 <= w.bsLive
      modifies w
      ensures w.Valid() && pad < 8 && (!isLast ==> 0 <= w.bsLive)
      ensures isLast ==> IsBytes(w.zbits) && w.Bits() == ByteBits(w.zbits) && |w.zbits| > 0
      ensures w.Bits() == old(w.Bits()) + (if isLast then ByteBits(EndMagic()) + combinedCRC + Zeros(pad) else [])
    {
      hide *;
      ghost var b0 := w.Bits();
      EndMagicIs();
      pad := 0;
      assert b0 + [] == b0;
      if isLast {
        BE.PutBytes(w, [0x17, 0x72, 0x45, 0x38, 0x50, 0x90]);
        BE.PutUInt32(w, combinedCRC);
        pad := w.Finish();
        TrailerGlue(b0, ByteBits(EndMagic()), combinedCRC, Zeros(pad));
        WriterBits(w);
        NoByteBits();
      }
    }

    /** The half of handle_compress that gives output. */
    method OutputPart() returns (moved: bool, stop: bool)
      requires Valid() && phase == Output && Matched(S())
      modifies this, w
      ensures Valid() && Flow(old(S()), old(h), S(), h) && Matched(S()) && mode == old(mode)
      ensures availInExpect == old(availInExpect) && stateInCh == old(stateInCh) && stateInLen == old(stateInLen)
      ensures nextIn == old(nextIn) && h.ended == old(h.ended) && h.closed == old(h.closed)
      ensures moved <==> |nextOut| > |old(nextOut)|
      ensures stop ==> Stopped(S(), h)
      ensures !stop ==> phase == Input && nblock == 0 && (mode != Running && availInExpect == 0 ==> !EmptyRL(S()))
      ensures |nextOut| >= |old(nextOut)| && |nextOut| + availOut == |old(nextOut)| + old(availOut)
      ensures phase == Output ==>
        w.zbits == old(w.zbits) && stateOutPos >= old(stateOutPos) && (moved <==> stateOutPos > old(stateOutPos))
      ensures phase == Input ==> !h.ended
    {
      hide *;
      ValidParts(this);
      ghost var s0, h0 := S(), h;
      SIs(this);
      moved := CopyOutputUntilStop();
      ValidParts(this);
      ghost var s1 := S();
      SIs(this);
      MatchedSame(s0, s1);
      OutputParts(s1, h);
      EndParts(s1, h);
      EmptyIs(s1);
      IsEmptyIs(this);
      StoppedOutput(s1, h);
      FlowIs(s0, h0, s1, h);
      stop := true;
      if stateOutPos < |w.zbits| { return; }
      if mode == Finishing && availInExpect == 0 && IsEmptyRL() { return; }
      PrepareKeeps(s1, h);
      PrepareNewBlock();
      PrepareIs(s1);
      SIs(this);
      phase := Input;
      ShapedStays(this);
      SIs(this);
      ValidMake(this);
      IsEmptyIs(this);
      EmptyIs(S());
      stop := mode == Flushing && availInExpect == 0 && IsEmptyRL();
      StoppedFlush(S(), h);
      MatchedSame(s1, S());
      FlowSame(s1, h0, S(), h);
      FlowTransitive(s0, h0, s1, h0, S(), h);
    }

    /** The half of handle_compress that takes input and closes blocks. */
    method InputPart() returns (moved: bool, stop: bool)
      requires Valid() && phase == Input && Matched(S())
      modifies this, block, w
      ensures Valid() && Flow(old(S()), old(h), S(), h) && Matched(S()) && mode == old(mode) && nextOut == old(nextOut)
      ensures |nextIn| <= |old(nextIn)| && (moved <==> |nextIn| < |old(nextIn)|)
      ensures !moved ==> nextIn == old(nextIn)
      ensures availOut == old(availOut)
      ensures stop ==> Stopped(S(), h) && !h.ended
      ensures !stop ==> phase == Output && (h.ended ==> stateOutPos < |w.zbits|)
      ensures Grown(old(h.closed), h.closed, nblockMAX, Forced(S()))
      ensures !stop && !moved ==>
        || (mode != Running && availInExpect == 0 && EmptyRL(S()))
        || (old(nblock) >= nblockMAX && stateInCh == old(stateInCh) && stateInLen == old(stateInLen))
    {
      hide Inv, ByteBits, ToBits, Pow2, Loaded, Live, IsBytes, Writer.Valid, Writer.Bits, AddPair, FlushRL, Grown;
      ghost var s0, h0 := S(), h;
      moved := CopyInputUntilStop();
      ghost var s1, h1 := S(), h;
      InputParts(s1, h1);
      stop := false;
      if mode != Running && availInExpect == 0 {
        FlushAndClose();
      } else if nblock >= nblockMAX {
        CloseFull();
      } else {
        stop := true;
        GrownNone(h.closed, nblockMAX, Forced(S()));
      }
      FlowTransitive(s0, h0, s1, h1, S(), h);
    }

    /** The pending run goes into the block before it is closed. */
    method FlushPending()
      requires Valid() && phase == Input && mode in {Flushing, Finishing} && availInExpect == 0
      modifies this, block
      ensures Shaped() && S() == FlushRL(old(S())) && Closable(S(), h, mode == Finishing) && 0 <= w.bsLive
      ensures h.consumed == old(h.consumed) && h.closed == old(h.closed)
    {
      hide *;
      ValidParts(this);
      ghost var s1, h1 := S(), h;
      SIs(this);
      InputParts(s1, h1);
      LimitIs(s1);
      ghost var h2 := FlushKeeps(s1, h1);
      FlushRunLength();
      SIs(this);
      FlushIs(s1);
      h := h2;
      ShapedStays(this);
      SIs(this);
      FlushedClosable(s1, h1, S(), h);
    }

    /** The pending run joins the block, and the block is closed for a flush or for the end. */
    method FlushAndClose()
      requires Valid() && phase == Input && mode in {Flushing, Finishing} && availInExpect == 0
      modifies this, block, w
      ensures Valid() && Flow(old(S()), old(h), S(), h) && phase == Output && mode == old(mode) && availInExpect == 0
      ensures nextIn == old(nextIn) && nextOut == old(nextOut) && availOut == old(availOut) && EmptyRL(S())
      ensures h.ended == (mode == Finishing) && (h.ended ==> stateOutPos < |w.zbits|)
      ensures Grown(old(h.closed), h.closed, nblockMAX, true)
    {
      hide *;
      ValidParts(this);
      ghost var s1, h1 := S(), h;
      SIs(this);
      InputParts(s1, h1);
      EmptyIs(s1);
      FlushIs(s1);
      FlushPending();
      SIs(this);
      EmptyIs(S());
      ClosableParts(S(), h, mode == Finishing);
      CompressBlock(mode == Finishing);
      SIs(this);
      phase := Output;
      ShapedStays(this);
      SIs(this);
      EmptyIs(S());
      ValidMake(this);
      FlowSame(s1, h1, S(), h);
    }

    /** The block is full and is closed, with a run left pending. */
    method CloseFull()
      requires Valid() && phase == Input && mode != Idle && nblock >= nblockMAX
      modifies this, block, w
      ensures Valid() && Flow(old(S()), old(h), S(), h) && phase == Output && mode == old(mode)
      ensures availInExpect == old(availInExpect)
      ensures nextIn == old(nextIn) && nextOut == old(nextOut) && availOut == old(availOut)
      ensures stateInCh == old(stateInCh) && stateInLen == old(stateInLen) && !h.ended
      ensures Grown(old(h.closed), h.closed, nblockMAX, false)
    {
      hide Inv, ByteBits, ToBits, Pow2, Loaded, Live, IsBytes, Writer.Valid, Writer.Bits, AddPair, FlushRL, Closable,
           Written, Accounted, PendingOk, Delivered, Filling, ME.Covered, Grown;
      ghost var s1, h1 := S(), h;
      ValidParts(this);
      LimitIs(s1);
      FullLeavesPending(s1, h1);
      FullClosable(s1, h1);
      ClosableParts(s1, h1, false);
      CompressBlock(false);
      phase := Output;
      FlowSame(s1, h1, S(), h);
    }

    /** Once round the loop of handle_compress. */
    method Round() returns (movedIn: bool, movedOut: bool, stop: bool)
      requires Valid() && Matched(S())
      modifies this, block, w
      ensures Shaped() && Valid() && Flow(old(S()), old(h), S(), h) && Matched(S()) && mode == old(mode)
      ensures |nextIn| <= |old(nextIn)| && (movedIn <==> |nextIn| < |old(nextIn)|)
      ensures |nextOut| >= |old(nextOut)| && |nextOut| + availOut == |old(nextOut)| + old(availOut)
      ensures movedOut <==> |nextOut| > |old(nextOut)|
      ensures stop ==> Stopped(S(), h)
      ensures h.ended && stateOutPos == |w.zbits| ==> movedOut || (old(h.ended) && old(stateOutPos) == |old(w.zbits)|)
      ensures !stop && !movedIn ==>
        (IsEmptyRL() && !old(IsEmptyRL())) || (old(phase) == Input && IsEmptyRL() == old(IsEmptyRL()))
      ensures !stop ==> phase == Output
      ensures if old(phase) == Output && Forced(old(S())) then h.closed == old(h.closed) && Forced(S())
              else Grown(old(h.closed), h.closed, nblockMAX, Forced(S()))
    {
      hide *;
      ValidParts(this);
      SIs(this);
      ForcedIs(this);
      ghost var s1, h1 := S(), h;
      FlowNone(s1, h1);
      movedIn, movedOut, stop := false, false, false;
      if phase == Output {
        movedOut, stop := OutputPart();
        ValidParts(this);
        ForcedSame(this, s1);
        GrownNone(h.closed, nblockMAX, Forced(S()));
        if stop { return; }
      }
      ghost var s2, h2 := S(), h;
      ForcedIs(this);
      movedIn, stop := InputPart();
      ValidParts(this);
      FlowTransitive(s1, h1, s2, h2, S(), h);
      ForcedIs(this);
    }

    /** handle_compress */
    method HandleCompress() returns (progress: bool)
      requires Valid() && Matched(S())
      modifies this, block, w
      ensures Valid() && Flow(old(S()), old(h), S(), h) && Matched(S()) && mode == old(mode) && Stopped(S(), h)
      ensures progress <==> |nextIn| < |old(nextIn)| || |nextOut| > |old(nextOut)|
      ensures h.ended && !(old(h.ended) && old(stateOutPos) == |old(w.zbits)|)
              && (old(availOut) > 0 || stateOutPos == |w.zbits|) ==>
        progress
      ensures Grown(old(h.closed), h.closed, nblockMAX, Forced(S()))
    {
      hide *;
      ValidParts(this);
      ghost var s0, h0, in0, out0, room0 := S(), h, nextIn, nextOut, availOut;
      ghost var doneBefore := h0.ended && stateOutPos == |w.zbits|;
      var progressIn, progressOut, stop := false, false, false;
      FlowNone(s0, h0);
      GrownNone(h0.closed, nblockMAX, Forced(s0));
      while !stop
        invariant Shaped() && Valid() && Flow(s0, h0, S(), h) && Matched(S()) && mode == old(mode)
        invariant |nextIn| <= |in0| && (progressIn <==> |nextIn| < |in0|)
        invariant |nextOut| >= |out0| && |nextOut| + availOut == |out0| + room0
        invariant progressOut <==> |nextOut| > |out0|
        invariant h.ended && stateOutPos == |w.zbits| ==> progressOut || doneBefore
        invariant stop ==> Stopped(S(), h)
        invariant Grown(h0.closed, h.closed, nblockMAX, Forced(S()))
        invariant !stop && phase == Input ==> h.closed == h0.closed
        decreases !stop, |nextIn|, !IsEmptyRL(), phase == Input
      {
        ghost var s1, h1 := S(), h;
        ghost var forced := phase == Output && Forced(s1);
        if phase == Input { GrownNone(h0.closed, nblockMAX, false); }
        var movedIn, movedOut;
        movedIn, movedOut, stop := Round();
        progressIn := progressIn || movedIn;
        progressOut := progressOut || movedOut;
        FlowTransitive(s0, h0, s1, h1, S(), h);
        GrownRound(h0.closed, h1.closed, h.closed, nblockMAX, forced, Forced(S()));
      }
      StoppedIs(this);
      progress := progressIn || progressOut;
    }

    /** Between calls: the end of the stream is reported as soon as all of it is delivered. */
    ghost predicate Resting()
      reads this, block, w
    {
      Valid() && (mode == Finishing && h.ended ==> stateOutPos < |w.zbits|)
    }

    /** The caller sets next_in, avail_in and avail_out. */
    method Supply(input: seq<int>, space: nat)
      requires Resting() && IsBytes(input)
      modifies this`nextIn, this`availOut
      ensures Resting() && h == old(h) && S() == old(S()).(nextIn := input, availOut := space)
    {
      hide Inv, ByteBits, ToBits, Pow2, Loaded, Live, IsBytes, Writer.Valid, Writer.Bits;
      ghost var s0 := S();
      nextIn := input;
      availOut := space;
      SupplyKeeps(s0, h, input, space);
    }

    /** As much input is taken, and output given, as can be. */
    method ContinueRun() returns (r: Code)
      requires Resting() && mode == Running
      modifies this, block, w
      ensures Resting() && Flow(old(S()), old(h), S(), h) && mode == Running
      ensures r == (if Progress(old(S()), S()) then RunOk else ParamError)
      ensures availOut == 0 || nextIn == []
      ensures Grown(old(h.closed), h.closed, nblockMAX, h.ended)
    {
      hide Inv, ByteBits, ToBits, Pow2, Loaded, Live, IsBytes, Writer.Valid, Writer.Bits, AddPair, Flow, Grown, Matched;
      ghost var h0 := h;
      RunMatched(S());
      var progress := HandleCompress();
      RunStopped(S(), h);
      RunMatched(S());
      GrownForced(h0.closed, h.closed, nblockMAX, Forced(S()), h.ended);
      return if progress then RunOk else ParamError;
    }

    /** A flush under way, with no input lost or gained since it began. */
    method ContinueFlush() returns (r: Code)
      requires Resting() && Matched(S()) && mode == Flushing
      modifies this, block, w
      ensures Resting() && Flow(old(S()), old(h), S(), h) && mode != Idle
      ensures (r == FlushOk && mode == Flushing && availOut == 0) || (r == RunOk && mode == Running)
      ensures r == RunOk ==>
        nextIn == [] && AllGood(h.closed, blockSize100k) && h.consumed == Texts(h.closed, blockSize100k)
      ensures r == FlushOk ==> Matched(S())
      ensures Grown(old(h.closed), h.closed, nblockMAX, nextIn == [])
    {
      hide Inv, ByteBits, ToBits, Pow2, Loaded, Live, IsBytes, Writer.Valid, Writer.Bits, AddPair, Grown;
      ghost var s0, h0 := S(), h;
      var _ := HandleCompress();
      ghost var s1 := S();
      ForcedTaken(s1);
      GrownForced(h0.closed, h.closed, nblockMAX, Forced(s1), nextIn == []);
      OutputParts(s1, h);
      FlushEnds(s1, h);
      if availInExpect > 0 || !IsEmptyRL() || stateOutPos < |w.zbits| { return FlushOk; }
      mode := Running;
      FlowSame(s1, h, S(), h);
      FlowTransitive(s0, h0, s1, h, S(), h);
      return RunOk;
    }

    /** A finish under way, with no input lost or gained since it began. */
    method ContinueFinish() returns (r: Code)
      requires Resting() && Matched(S()) && mode == Finishing
      modifies this, block, w
      ensures Resting() && Flow(old(S()), old(h), S(), h) && mode in {Finishing, Idle}
      ensures r in {SequenceError, FinishOk, StreamEnd}
      ensures r == StreamEnd <==> mode == Idle
      ensures r == FinishOk ==> availOut == 0
      ensures mode == Idle ==> nextIn == [] && h.ended && stateOutPos == |w.zbits|
      ensures r == SequenceError ==> old(availOut) == 0 && nextIn == old(nextIn) && nextOut == old(nextOut)
      ensures r == SequenceError ==> (nextIn != [] ==> h.consumed != [])
      ensures r != SequenceError ==> Progress(old(S()), S())
      ensures r == FinishOk ==> Matched(S())
      ensures Grown(old(h.closed), h.closed, nblockMAX, h.ended)
    {
      hide Inv, ByteBits, ToBits, Pow2, Loaded, Live, IsBytes, Writer.Valid, Writer.Bits, AddPair, Grown;
      ghost var s0, h0 := S(), h;
      var progress := HandleCompress();
      ghost var s1 := S();
      OutputParts(s1, h);
      FinishEnds(s1, h);
      GrownForced(h0.closed, h.closed, nblockMAX, Forced(s1), h.ended);
      if !progress {
        FlowStill(s0, h0, s1, h);
        if nextIn != [] { StuckEmpty(s1, h); }
        return SequenceError;
      }
      if availInExpect > 0 || !IsEmptyRL() || stateOutPos < |w.zbits| { return FinishOk; }
      mode := Idle;
      FlowSame(s1, h, S(), h);
      FlowTransitive(s0, h0, s1, h, S(), h);
      return StreamEnd;
    }

    /** A call of BZ2_bzCompress other than BZ_RUN begins or goes on. */
    method Begin(m: Mode)
      requires Resting() && mode == Running && m in {Flushing, Finishing}
      modifies this`mode, this`availInExpect
      ensures Resting() && Matched(S()) && mode == m && Flow(old(S()), old(h), S(), h)
      ensures S() == old(S()).(mode := m, expected := |nextIn|)
    {
      hide Inv, ByteBits, ToBits, Pow2, Loaded, Live, IsBytes, Writer.Valid, Writer.Bits, AddPair;
      ghost var s0 := S();
      BeginKeeps(s0, h, m);
      availInExpect := |nextIn|;
      mode := m;
      FlowSame(s0, h, S(), h);
    }

    /** BZ2_bzCompress. */
    method Compress(action: Action) returns (r: Code)
      requires Resting()
      modifies this, block, w
      ensures Resting() && Flow(old(S()), old(h), S(), h)
      // what may be called when
      ensures Refusal(old(S()), action).Some? ==> r == Refusal(old(S()), action).value && S() == old(S()) && h == old(h)
      // what the answer means
      ensures r == StreamEnd <==> old(mode) != Idle && mode == Idle
      ensures r == StreamEnd ==>
        && Complete(nextOut, h.closed, blockSize100k, h.pad) && h.consumed == Texts(h.closed, blockSize100k)
        && GetStream(ByteBits(nextOut)) == Done(h.consumed, Zeros(h.pad))
      ensures r == StreamEnd ==> nextIn == [] && h.ended && stateOutPos == |w.zbits|
      ensures r == RunOk && action == DoFlush ==>
        mode == Running && nextIn == [] && AllGood(h.closed, blockSize100k)
          && h.consumed == Texts(h.closed, blockSize100k)
      ensures r in {FlushOk, FinishOk} ==> availOut == 0 && Matched(S())
      // a block is closed when it is full, or when a flush or the end has taken all input
      ensures Grown(old(h.closed), h.closed, nblockMAX, h.ended || (action == DoFlush && nextIn == []))
      ensures Refusal(old(S()), action).None? ==> Answered(old(S()), action, r, S())
      ensures Refusal(old(S()), action).None? && r == SequenceError ==> (nextIn != [] ==> h.consumed != [])
    {
      hide Inv, ByteBits, ToBits, Pow2, Loaded, Live, IsBytes, Writer.Valid, Writer.Bits, AddPair, Flow, GetStream,
           AllGood, Texts, Grown, Complete, Matched;
      ghost var s0, h0 := S(), h;
      FlowNone(s0, h0);
      GrownNone(h0.closed, nblockMAX, h.ended || (action == DoFlush && nextIn == []));
      match mode {
        case Idle =>
          return SequenceError;
        case Running =>
          if action == DoRun {
            r := ContinueRun();
          } else if action == DoFlush {
            Begin(Flushing);
            ghost var s1 := S();
            r := ContinueFlush();
            FlowTransitive(s0, h0, s1, h0, S(), h);
            GrownForced(h0.closed, h.closed, nblockMAX, nextIn == [], h.ended || nextIn == []);
          } else if action == DoFinish {
            Begin(Finishing);
            ghost var s1 := S();
            r := ContinueFinish();
            FlowTransitive(s0, h0, s1, h0, S(), h);
            if r == StreamEnd { EndDecodes(S(), h); }
          } else {
            return ParamError;
          }
        case Flushing =>
          if action != DoFlush || availInExpect != |nextIn| { return SequenceError; }
          RunMatched(S());
          r := ContinueFlush();
          GrownForced(h0.closed, h.closed, nblockMAX, nextIn == [], h.ended || nextIn == []);
        case Finishing =>
          if action != DoFinish || availInExpect != |nextIn| { return SequenceError; }
          RunMatched(S());
          r := ContinueFinish();
          if r == StreamEnd { EndDecodes(S(), h); }
      }
    }
  }

  lemma TrailerGlue(a: seq<bool>, b: seq<bool>, c: Word, d: seq<bool>)
    ensures a + b + c + d == a + (b + c + d) && a + b + c + d != []
  {
  }

  lemma NoUpdates(crc: Word, c: int)
    ensures IsBytes(MF.Repeat(c, 0)) && UpdateAll(crc, MF.Repeat(c, 0)) == crc
  {
    assert Octets(MF.Repeat(c, 0)) == [];
  }

  lemma InputParts(s: State, h: History)
    requires Inv(s, h) && s.phase == Input
    ensures |s.inUse| == 256 && !h.ended && ((s.ch == 256 && s.len == 0) || Run(s.ch, s.len).Valid())
    ensures |s.block| <= Limit(s) + 4 && IsBytes(s.nextIn)
  {
  }

  lemma OutputParts(s: State, h: History)
    requires Inv(s, h)
    ensures s.outPos <= |s.zbits|
  {
  }

  lemma AddCharSame(s: State, c: int)
    requires (EmptyRL(s) || Run(s.ch, s.len).Valid()) && |s.inUse| == 256
    ensures var t := AddChar(s, c);
            && t.blockSize100k == s.blockSize100k && t.mode == s.mode && t.phase == s.phase && t.expected == s.expected
            && t.nextIn == s.nextIn && t.nextOut == s.nextOut && t.availOut == s.availOut && t.bits == s.bits
            && t.zbits == s.zbits
  {
  }

  lemma AddCharIs(s: State, c: int, h: History)
    requires Inv(s, h) && s.phase == Input
    ensures (EmptyRL(s) || Run(s.ch, s.len).Valid()) && |s.inUse| == 256
    ensures var t := AddChar(s, c);
            && t.blockSize100k == s.blockSize100k && t.mode == s.mode && t.phase == s.phase && t.expected == s.expected
            && t.nextIn == s.nextIn && t.nextOut == s.nextOut && t.availOut == s.availOut
  {
    InputParts(s, h);
    AddCharSame(s, c);
  }

  lemma SIs(c: Compressor)
    requires c.Shaped()
    ensures c.S() == State(c.blockSize100k, c.mode, c.phase, c.availInExpect, c.block[..c.nblock], c.inUse,
                           c.stateInCh, c.stateInLen, c.blockCRC, c.combinedCRC, c.blockNo, c.w.zbits, c.stateOutPos,
                           c.w.Bits(), c.nextIn, c.nextOut, c.availOut)
    ensures 1 <= c.blockSize100k <= 9 && c.nblockMAX == 100000 * c.blockSize100k - 19
    ensures c.block.Length == 100000 * c.blockSize100k && c.nblock <= c.block.Length && c.w.Valid()
  {
  }

  lemma HeaderIs(blockSize100k: nat)
    requires 1 <= blockSize100k <= 9
    ensures IsBytes([0x42, 0x5a, 0x68, 0x30 + blockSize100k])
    ensures Header(blockSize100k) == [0x42, 0x5a, 0x68, 0x30 + blockSize100k]
  {
  }

  lemma EndMagicIs()
    ensures IsBytes([0x17, 0x72, 0x45, 0x38, 0x50, 0x90]) && EndMagic() == [0x17, 0x72, 0x45, 0x38, 0x50, 0x90]
  {
  }

  lemma NoByteBits()
    ensures IsBytes([]) && ByteBits([]) == []
  {
  }

  lemma WriterBits(w: Writer)
    requires w.Valid()
    ensures IsBytes(w.zbits) && ByteBits(w.zbits) <= w.Bits()
  {
    hide ByteBits, ToBits, Loaded, Pow2;
  }

  lemma HeldOver(w: Writer)
    requires w.Valid() && w.zbits == []
    ensures |w.Bits()| <= 32
  {
    hide ByteBits, ToBits, Loaded, Pow2;
  }

  /** From s to t, header, block and trailer were written one after the other. */
  ghost predicate Sent(s: State, e: BE.Encoding, last: bool, pad: nat, b1: seq<bool>, b2: seq<bool>, t: State) {
    && 1 <= s.blockSize100k <= 9
    && b1 == s.bits + (if s.blockNo == 1 then ByteBits(Header(s.blockSize100k)) else [])
    && b2 == (if s.block == [] then b1 else b1 + BE.EncodingBits(e))
    && t == s.(zbits := t.zbits, bits := t.bits, crc := if s.block == [] then s.crc else Xor(s.crc, Ones()),
               combined := if s.block == [] then s.combined else Combine(s.combined, Xor(s.crc, Ones())))
    && t.bits == b2 + (if last then ByteBits(EndMagic()) + t.combined + Zeros(pad) else [])
    && IsBytes(t.zbits) && ByteBits(t.zbits) <= t.bits && (last ==> pad < 8 && t.bits == ByteBits(t.zbits))
  }

  lemma CloseResult(s: State, h: History, e: BE.Encoding, last: bool, pad: nat, b1: seq<bool>, b2: seq<bool>, t: State)
    requires Sent(s, e, last, pad, b1, b2, t) && Closable(s, h, last)
    requires s.block != [] ==> BE.Encodes(e, s.block, Xor(s.crc, Ones()))
    ensures Inv(t.(phase := Output), ClosedMore(s, h, e, last, pad))
    ensures var h' := ClosedMore(s, h, e, last, pad);
            h'.ended == last && h'.consumed == h.consumed && h.closed <= h'.closed
  {
    hide *;
    CrcOf(e, s);
    SentBits(s, e, last, pad, b1, b2, t);
    SentCloses(s, h, e, last, pad, b1, b2, t);
    CloseKeeps(s, h, e, last, pad, t.zbits, t.bits);
    MoreIs(s, h, e, last, pad);
  }

  /** The bytes written fit behind the block. */
  lemma BitsFit(s: State, e: BE.Encoding, last: bool, pad: nat, b1: seq<bool>, b2: seq<bool>, t: State)
    requires Sent(s, e, last, pad, b1, b2, t) && |s.block| <= 100000 * s.blockSize100k && |s.bits| <= 32
    requires s.block != [] ==> BE.Encodes(e, s.block, Xor(s.crc, Ones()))
    ensures |t.zbits| <= BlockSize.Room(s.blockSize100k, |s.block|)
  {
    hide *;
    CrcOf(e, s);
    EncodesIs(e, s.block, Xor(s.crc, Ones()));
    SentBits(s, e, last, pad, b1, b2, t);
    CloseFits(s, e, last, pad);
  }

  lemma EncodesIs(e: BE.Encoding, block: seq<int>, crc: Word)
    ensures BE.Encodes(e, block, crc) ==> BE.Encodes(e, block, e.crc)
  {
    hide BE.Sound;
  }

  lemma MoreIs(s: State, h: History, e: BE.Encoding, last: bool, pad: nat)
    ensures var h' := ClosedMore(s, h, e, last, pad);
            h'.ended == last && h'.consumed == h.consumed && h.closed <= h'.closed
  {
  }

  /** The bits written are those of a close, after what was there. */
  lemma SentBits(s: State, e: BE.Encoding, last: bool, pad: nat, b1: seq<bool>, b2: seq<bool>, t: State)
    requires Sent(s, e, last, pad, b1, b2, t) && (s.block != [] ==> e.crc == Xor(s.crc, Ones()))
    ensures 1 <= s.blockSize100k <= 9 && t.bits == s.bits + CloseBits(s, e, last, pad)
    ensures IsBytes(t.zbits) && ByteBits(t.zbits) <= t.bits && (last ==> pad < 8 && t.bits == ByteBits(t.zbits))
    ensures 8 * |t.zbits| <= |t.bits|
  {
    hide BE.EncodingBits, ByteBits, Combine, Xor, Ones, Header, EndMagic, Zeros, IsBytes;
    var first := if s.blockNo == 1 then ByteBits(Header(s.blockSize100k)) else [];
    var tail := if last then ByteBits(EndMagic()) + t.combined + Zeros(pad) else [];
    Joined(s.bits, first, BlockPart(s, e), tail);
    assert b2 == s.bits + first + BlockPart(s, e);
  }

  lemma Joined(a: seq<bool>, b: seq<bool>, c: seq<bool>, d: seq<bool>)
    ensures a + b + c + d == a + (b + c + d)
    ensures a + b + [] == a + b && a + b + c + [] == a + b + c
  {
  }

  lemma SentCloses(s: State, h: History, e: BE.Encoding, last: bool, pad: nat, b1: seq<bool>, b2: seq<bool>, t: State)
    requires Sent(s, e, last, pad, b1, b2, t) && (s.block != [] ==> e.crc == Xor(s.crc, Ones()))
    ensures Closing(s, h, e, t.zbits, t.bits) == t.(phase := Output)
  {
    hide BE.EncodingBits, ByteBits, Combine, Xor, Ones, Header, EndMagic, Zeros, IsBytes;
  }

  lemma SentIs(s: State, e: BE.Encoding, last: bool, pad: nat, b1: seq<bool>, b2: seq<bool>, t: State)
    requires 1 <= s.blockSize100k <= 9
    requires b1 == s.bits + (if s.blockNo == 1 then ByteBits(Header(s.blockSize100k)) else [])
    requires b2 == if s.block == [] then b1 else b1 + BE.EncodingBits(e)
    requires t == s.(zbits := t.zbits, bits := t.bits, crc := if s.block == [] then s.crc else Xor(s.crc, Ones()),
                     combined := if s.block == [] then s.combined else Combine(s.combined, Xor(s.crc, Ones())))
    requires t.bits == b2 + (if last then ByteBits(EndMagic()) + t.combined + Zeros(pad) else [])
    requires IsBytes(t.zbits) && ByteBits(t.zbits) <= t.bits && (last ==> pad < 8 && t.bits == ByteBits(t.zbits))
    ensures Sent(s, e, last, pad, b1, b2, t)
  {
  }

  lemma CrcKept(e: BE.Encoding, s: State)
    requires s.block != [] ==> BE.Encodes(e, s.block, Xor(s.crc, Ones()))
    ensures s.block != [] ==> BE.Encodes(e, s.block, e.crc)
  {
    hide BE.Sound;
  }

  lemma CrcOf(e: BE.Encoding, s: State)
    requires s.block != [] ==> BE.Encodes(e, s.block, Xor(s.crc, Ones()))
    ensures s.block != [] ==> e.crc == Xor(s.crc, Ones())
  {
    hide BE.Sound;
  }

  lemma ShapedStays(c: Compressor)
    requires 1 <= c.blockSize100k <= 9 && c.nblockMAX == 100000 * c.blockSize100k - 19
    requires c.block.Length == 100000 * c.blockSize100k && c.nblock <= c.block.Length && c.w.Valid()
    ensures c.Shaped()
  {
  }

  lemma ValidMake(c: Compressor)
    requires c.Shaped() && Inv(c.S(), c.h) && (!c.h.ended ==> 0 <= c.w.bsLive)
    ensures c.Valid()
  {
    hide Inv;
  }

  lemma SliceMore(o: seq<int>, z: seq<int>, i: nat, k: nat)
    requires i + k < |z|
    ensures o + z[i..i + k] + [z[i + k]] == o + z[i..i + (k + 1)]
  {
    assert z[i..i + k] + [z[i + k]] == z[i..i + (k + 1)];
    assert o + z[i..i + k] + [z[i + k]] == o + (z[i..i + k] + [z[i + k]]);
  }

  lemma DeliverIs(s: State, k: nat)
    requires s.outPos + k <= |s.zbits| && k <= s.availOut
    ensures Deliver(s, k) == s.(nextOut := s.nextOut + s.zbits[s.outPos..s.outPos + k], outPos := s.outPos + k,
                                availOut := s.availOut - k)
  {
  }

  lemma FlowDeliver(s: State, h: History, k: nat)
    requires s.outPos + k <= |s.zbits| && k <= s.availOut
    ensures Flow(s, h, Deliver(s, k), h)
  {
  }

  lemma FirstIsByte(input: seq<int>)
    requires IsBytes(input) && input != []
    ensures 0 <= input[0] < 256
  {
  }

  lemma FlowTaken(s: State, h: History, t: State, h': History)
    requires s.nextIn != [] && h'.consumed == h.consumed + [s.nextIn[0]] && t.nextIn == s.nextIn[1..]
    requires h.closed == h'.closed
    requires t.nextOut == s.nextOut && t.availOut == s.availOut
    ensures Flow(s, h, t, h')
  {
    assert h.consumed + [s.nextIn[0]] + s.nextIn[1..] == h.consumed + s.nextIn;
  }

  lemma EmptyIs(s: State)
    ensures EmptyRL(s) <==> !(s.ch < 256 && s.len > 0)
  {
  }

  lemma IsEmptyIs(c: Compressor)
    ensures c.IsEmptyRL() <==> !(c.stateInCh < 256 && c.stateInLen > 0)
  {
  }

  lemma MatchedSame(s: State, t: State)
    requires Matched(s) && t.mode == s.mode && t.nextIn == s.nextIn && t.expected == s.expected
    ensures Matched(t) && s.mode != Idle
  {
  }

  /** The two ways to stop while there is output. */
  lemma StoppedOutput(s: State, h: History)
    requires s.phase == Output && s.outPos <= |s.zbits| && (s.availOut == 0 || s.outPos == |s.zbits|)
    ensures s.outPos < |s.zbits| || h.ended ==> Stopped(s, h)
  {
  }

  lemma StoppedFlush(s: State, h: History)
    requires s.phase == Input && s.block == []
    ensures s.mode == Flushing && s.expected == 0 && EmptyRL(s) ==> Stopped(s, h)
  {
  }

  lemma PrepareIs(s: State)
    requires 8 * |s.zbits| <= |s.bits|
    ensures var t := Prepare(s);
            && t.phase == Input && t.mode == s.mode && t.expected == s.expected && t.block == [] && t.ch == s.ch
            && t.len == s.len
            && t.nextIn == s.nextIn && t.nextOut == s.nextOut && t.availOut == s.availOut
            && t.blockSize100k == s.blockSize100k
  {
  }

  lemma EndParts(s: State, h: History)
    requires Inv(s, h) && s.phase == Output && s.mode != Idle
    ensures h.ended ==> EmptyRL(s) && s.expected == 0 && s.mode == Finishing
    ensures !h.ended && EmptyRL(s) ==> s.mode == Flushing && s.expected == 0
  {
  }

  lemma FlowSame(s: State, h: History, t: State, h': History)
    requires h'.consumed == h.consumed && t.nextIn == s.nextIn && t.nextOut == s.nextOut && t.availOut == s.availOut
    requires h.closed <= h'.closed
    ensures Flow(s, h, t, h')
  {
  }

  lemma FlowNone(s: State, h: History)
    ensures Flow(s, h, s, h)
  {
  }

  lemma FlushIs(s: State)
    requires (EmptyRL(s) || Run(s.ch, s.len).Valid()) && |s.inUse| == 256
    ensures var t := FlushRL(s);
            && t.mode == s.mode && t.expected == s.expected && t.nextIn == s.nextIn && t.nextOut == s.nextOut
            && t.availOut == s.availOut && t.ch == 256 && t.len == 0 && t.blockSize100k == s.blockSize100k
  {
  }

  lemma LimitIs(s: State)
    ensures Limit(s) == 100000 * s.blockSize100k - 19
  {
  }

  lemma ValidParts(c: Compressor)
    requires c.Valid()
    ensures c.Shaped() && Inv(c.S(), c.h) && (!c.h.ended ==> 0 <= c.w.bsLive)
    ensures c.phase == Input ==> !c.h.ended && c.nblock + 5 <= c.block.Length
  {
    hide Written, Accounted, PendingOk, Delivered, Packed, Expanded, UpdateAll, Marked, Runs, ByteBits;
  }

  lemma SupplyKeeps(s: State, h: History, input: seq<int>, space: nat)
    requires Inv(s, h) && IsBytes(input)
    ensures Inv(s.(nextIn := input, availOut := space), h)
  {
    hide AllGood, ByteBits, Runs, Expanded, Packed, Texts, Marked, UpdateAll;
  }

  lemma BeginKeeps(s: State, h: History, m: Mode)
    requires Inv(s, h) && s.mode == Running && m in {Flushing, Finishing}
    ensures !h.ended && Inv(s.(mode := m, expected := |s.nextIn|), h)
  {
    hide AllGood, ByteBits, Runs, Expanded, Packed, Texts, Marked, UpdateAll;
  }

  /** A flush that has handed everything over has put everything consumed into closed blocks. */
  lemma FlushEnds(s: State, h: History)
    requires Inv(s, h) && s.mode == Flushing && Matched(s) && Stopped(s, h)
    ensures s.phase == Output ==> s.outPos < |s.zbits| && s.availOut == 0
    ensures s.phase == Input ==>
      && s.expected == 0 && EmptyRL(s) && s.outPos == |s.zbits| && s.nextIn == [] && !h.ended
      && AllGood(h.closed, s.blockSize100k) && h.consumed == Texts(h.closed, s.blockSize100k)
      && Inv(s.(mode := Running), h)
  {
    hide AllGood, ByteBits, Runs, Texts, Marked, UpdateAll;
    if s.phase == Input {
      EmptyRuns();
      BlockIffRuns(s, h);
      PendingEmpty(s, h);
      assert Texts(h.closed, s.blockSize100k) + [] + [] == Texts(h.closed, s.blockSize100k);
    }
  }

  lemma FinishEnds(s: State, h: History)
    requires Inv(s, h) && s.mode == Finishing && Matched(s) && Stopped(s, h)
    ensures s.phase == Output && (Forced(s) ==> h.ended)
    ensures s.outPos < |s.zbits| ==> s.availOut == 0
    ensures s.outPos == |s.zbits| ==>
      h.ended && s.expected == 0 && EmptyRL(s) && s.nextIn == [] && Inv(s.(mode := Idle), h)
  {
    hide AllGood, ByteBits, Runs, Expanded, Packed, Texts, Marked, UpdateAll;
  }
}
