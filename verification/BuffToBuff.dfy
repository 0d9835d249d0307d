/** The one-call forms: a whole buffer compressed into another, and back. */
module BuffToBuff {
  import opened Bytes
  import opened BitStrings
  import opened BitWriter
  import opened StreamFormat
  import opened DecoderOutcome
  import opened StreamHeader
  import C = Compressor
  import CS = CompressorState
  import Completion
  import D = Decompressor
  import StreamSize

  datatype Answer = Fine | OutbuffFull | UnexpectedEof | DataError | DataErrorMagic | SequenceError | ParamError

  /** A complete stream of blocks that are full, but for the last one, and whose texts one after the
      other are the text. */
  ghost predicate Whole(bytes: seq<int>, text: seq<int>, blockSize100k: nat, cs: seq<Closed>, pad: nat) {
    && CS.Complete(bytes, cs, blockSize100k, pad) && Texts(cs, blockSize100k) == text
    && CS.Filled([], cs, 100000 * blockSize100k - 19, true)
  }

  /** Compressed: the tables and selectors of every block are those its symbols ask for. */
  ghost predicate Compressed(dest: seq<int>, text: seq<int>, blockSize100k: nat) {
    exists cs: seq<Closed>, pad ::
      Whole(dest, text, blockSize100k, cs, pad) && forall i :: 0 <= i < |cs| ==> CS.Fitted(cs[i].e)
  }

  /** Cut short: there is a longer complete stream for the text that begins with these bytes. */
  ghost predicate CutShort(dest: seq<int>, text: seq<int>, blockSize100k: nat) {
    exists bytes, cs, pad :: Whole(bytes, text, blockSize100k, cs, pad) && dest < bytes
  }

  /** What was compressed decodes to the text, with fewer than eight zero bits left over. */
  lemma CompressedDecodes(dest: seq<int>, text: seq<int>, blockSize100k: nat)
    requires Compressed(dest, text, blockSize100k)
    ensures IsBytes(dest) && YieldStream(ByteBits(dest)).Ended? && YieldStream(ByteBits(dest)).text == text
  {
    hide AllGood, GetStream, YieldStream, StreamBits, CS.Filled, CS.Fitted, Texts, ByteBits;
    var cs, pad :| Whole(dest, text, blockSize100k, cs, pad);
    StreamRoundTrip(cs, blockSize100k, Zeros(pad));
    StreamOutcome(ByteBits(dest));
  }

  /** "BZh", the level and the magic number of a block; or that of the trailer, and a checksum of zero. */
  predicate Begins(dest: seq<int>, empty: bool, blockSize100k: int) {
    if empty then dest == [0x42, 0x5a, 0x68, 0x30 + blockSize100k, 0x17, 0x72, 0x45, 0x38, 0x50, 0x90, 0, 0, 0, 0]
    else [0x42, 0x5a, 0x68, 0x30 + blockSize100k, 0x31, 0x41, 0x59, 0x26, 0x53, 0x59] <= dest
  }

  lemma CompressedBegins(dest: seq<int>, text: seq<int>, blockSize100k: nat)
    requires Compressed(dest, text, blockSize100k)
    ensures Begins(dest, text == [], blockSize100k)
  {
    hide CS.Complete, Texts, CS.Filled, CS.Fitted;
    var cs, pad :| Whole(dest, text, blockSize100k, cs, pad);
    StreamSize.StreamBegins(dest, cs, blockSize100k, pad);
  }

  /** With enough room nothing is cut short. */
  lemma NotCutShort(dest: seq<int>, text: seq<int>, blockSize100k: nat)
    requires CutShort(dest, text, blockSize100k)
    ensures 1 <= blockSize100k && |dest| < StreamSize.Enough(|text|, blockSize100k)
  {
    hide AllGood, CS.Filled, Texts, CS.Complete;
    var bytes, cs, pad :| Whole(bytes, text, blockSize100k, cs, pad) && dest < bytes;
    StreamSize.StreamLength(bytes, cs, blockSize100k, pad);
  }

  /** Output stopped for want of room: what is given is cut short. */
  lemma FullIsCut(strm: C.Compressor, source: seq<int>)
    requires strm.Resting() && strm.mode == CS.Mode.Finishing && C.Matched(strm.S())
    requires strm.h.consumed + strm.nextIn == source
    requires CS.Grown([], strm.h.closed, strm.nblockMAX, strm.h.ended)
    ensures CutShort(strm.nextOut, source, strm.blockSize100k)
  {
    hide CS.Inv, CS.Complete, Texts, AllGood, CS.Fitted, CS.Filled;
    C.RestingShape(strm);
    C.SIs(strm);
    C.LimitIs(strm.S());
    var bytes, cs, pad := Completion.CompletesWhole(strm.S(), strm.h);
    CutIs(strm.nextOut, source, strm.blockSize100k, bytes, cs, pad);
  }

  lemma CutIs(dest: seq<int>, text: seq<int>, blockSize100k: nat, bytes: seq<int>, cs: seq<Closed>, pad: nat)
    requires Whole(bytes, text, blockSize100k, cs, pad) && dest < bytes
    ensures CutShort(dest, text, blockSize100k)
  {
    hide Whole;
  }

  lemma EndIsWhole(dest: seq<int>, text: seq<int>, blockSize100k: nat, cs: seq<Closed>, pad: nat)
    requires CS.Complete(dest, cs, blockSize100k, pad) && Texts(cs, blockSize100k) == text
    requires CS.Grown([], cs, 100000 * blockSize100k - 19, true)
    ensures Compressed(dest, text, blockSize100k)
  {
    hide CS.Complete, Texts, CS.Filled, CS.Fitted;
    assert Whole(dest, text, blockSize100k, cs, pad);
  }

  /** BZ2_bzBuffToBuffCompress. The stream is complete exactly if it fits; otherwise as much of one as
      fits has been given. An empty text with no room for output is answered with the error for calls
      out of sequence. */
  method BuffToBuffCompress(source: seq<int>, destLen: nat, blockSize100k: int, verbosity: int, workFactor: int)
    returns (ret: Answer, dest: seq<int>)
    requires IsBytes(source)
    ensures ret == ParamError <==> !(1 <= blockSize100k <= 9 && 0 <= verbosity <= 4 && 0 <= workFactor <= 250)
    ensures ret in {Fine, OutbuffFull, SequenceError, ParamError}
    ensures ret != ParamError ==> (ret == SequenceError <==> destLen == 0 && source == [])
    ensures ret == Fine ==> |dest| <= destLen && Compressed(dest, source, blockSize100k)
    ensures ret == Fine ==> Begins(dest, source == [], blockSize100k)
    ensures ret == OutbuffFull ==> |dest| == destLen && CutShort(dest, source, blockSize100k)
    ensures ret in {SequenceError, ParamError} ==> dest == []
    ensures ret != ParamError && destLen >= StreamSize.Enough(|source|, blockSize100k) ==> ret == Fine
  {
    hide C.Compressor.Valid, C.Compressor.Shaped, CS.Inv, C.Flow, GetStream, ByteBits, CS.Complete, Compressed,
         CutShort, Texts, AllGood, CS.Grown, StreamSize.Enough, CS.Fitted, Begins;
    if blockSize100k < 1 || blockSize100k > 9 || verbosity < 0 || verbosity > 4 || workFactor < 0 || workFactor > 250 {
      return ParamError, [];
    }
    var strm := new C.Compressor(blockSize100k, if workFactor == 0 then 30 else workFactor);
    C.StartRests(strm);
    strm.Supply(source, destLen);
    C.RestingShape(strm);
    ghost var s0, h0 := strm.S(), strm.h;
    var r := strm.Compress(C.DoFinish);
    dest := strm.nextOut;
    C.RestingShape(strm);
    C.FlowIs(s0, h0, strm.S(), strm.h);
    match r
    case FinishOk =>
      ret := OutbuffFull;
      FullIsCut(strm, source);
      NotCutShort(dest, source, blockSize100k);
    case StreamEnd =>
      ret := Fine;
      assert strm.h.consumed + [] == strm.h.consumed && [] + source == source;
      EndIsWhole(dest, source, blockSize100k, strm.h.closed, strm.h.pad);
      CompressedBegins(dest, source, blockSize100k);
    case _ => ret := SequenceError;
  }

  /** BZ2_bzBuffToBuffDecompress: as much of the text as there is room for. The data are refused, or input
      is found wanting, only after all text in front of that has been given, and there is still room then;
      the error for the header comes exactly with a wrong one. */
  method BuffToBuffDecompress(source: seq<int>, destLen: nat, small: bool, verbosity: int)
    returns (ret: Answer, dest: seq<int>)
    requires IsBytes(source)
    ensures ret == ParamError <==> !(0 <= verbosity <= 4)
    ensures ret == ParamError ==> dest == []
    ensures ret != ParamError ==>
      match YieldStream(ByteBits(source))
      case Ended(text, _) =>
        if |text| <= destLen then ret == Fine && dest == text else ret == OutbuffFull && dest == text[..destLen]
      case Hungry(text) =>
        if |text| < destLen then ret == UnexpectedEof && dest == text
        else ret == OutbuffFull && dest == text[..destLen]
      case Refused(text, fault) =>
        if Needed(text, fault, small) <= destLen then
          ret == (if BadHeader(source) then DataErrorMagic else DataError) && dest <= text
        else
          destLen <= |text| && ret == OutbuffFull && dest == text[..destLen]
    ensures ret != ParamError ==> (BadHeader(source) <==> ret == DataErrorMagic)
    ensures |dest| <= destLen
  {
    hide D.Decoder.Valid, D.Decoder.Headed, D.Decoder.Stuff, YieldStream, ByteBits, GoodHeader, BadHeader;
    if verbosity < 0 || verbosity > 4 { return ParamError, []; }
    var strm := new D.Decoder(small);
    assert [] + source == source;
    var r := strm.Decompress(source, destLen);
    dest := strm.nextOut;
    assert ByteBits(source) + [] == ByteBits(source);
    HeaderKinds(source);
    match r
    case StatusOk => ret := if strm.availOut > 0 then UnexpectedEof else OutbuffFull;
    case StreamEnd =>
      ret := Fine;
      assert YieldStream(ByteBits(source) + []).Ended?;
    case DataErrorMagic =>
      ret := DataErrorMagic;
      assert YieldStream(ByteBits(source) + []).Refused?;
    case DataError =>
      ret := DataError;
      assert YieldStream(ByteBits(source) + []).Refused?;
    case SequenceError => ret := SequenceError;
  }

  lemma HeaderKinds(source: seq<int>)
    requires IsBytes(source)
    ensures BadHeader(source) ==> YieldStream(ByteBits(source)) == Refused([], Wrong)
    ensures !(GoodHeader(source) && BadHeader(source))
  {
    hide YieldStream, ByteBits;
    if BadHeader(source) { BadHeaderRefused(source); }
  }

  /** What was compressed is what comes back, in either form of the decoder; with enough room it is
      compressed. */
  method RoundTrip(source: seq<int>, destLen: nat, blockSize100k: int, workFactor: int, small: bool)
    returns (packed: Answer, ret: Answer, back: seq<int>)
    requires IsBytes(source) && 1 <= blockSize100k <= 9 && 0 <= workFactor <= 250
    ensures packed == Fine ==> ret == Fine && back == source
    ensures destLen >= StreamSize.Enough(|source|, blockSize100k) ==> packed == Fine && ret == Fine && back == source
  {
    hide Compressed, CutShort, StreamSize.Enough, YieldStream, BadHeader;
    var dest;
    packed, dest := BuffToBuffCompress(source, destLen, blockSize100k, 0, workFactor);
    if packed != Fine { return packed, packed, []; }
    CompressedDecodes(dest, source, blockSize100k);
    ret, back := BuffToBuffDecompress(dest, |source|, small, 0);
  }
}
