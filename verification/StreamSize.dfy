/** How long a complete stream can be, so that room for this many bytes is always enough; and which bytes
    it begins with. */
module StreamSize {
  import opened Bytes
  import opened BitWriter
  import opened CrcRegister
  import opened RunLength
  import opened StreamFormat
  import opened CompressorState
  import opened BitStrings
  import opened Powers
  import BE = BlockEncoder
  import BlockSize

  /** Run-length coding adds at most a quarter. */
  lemma {:induction false} PackedLength(runs: seq<Run>)
    requires Runs(runs)
    ensures 4 * |Packed(runs)| <= 5 * |Expanded(runs)|
    decreases |runs|
  {
    if runs != [] { PackedLength(runs[..|runs| - 1]); }
  }

  /** The bytes of all blocks. */
  ghost function Total(cs: seq<Closed>): (r: nat) {
    if cs == [] then 0 else Total(cs[..|cs| - 1]) + |cs[|cs| - 1].e.block|
  }

  lemma {:induction false} BlocksLength(cs: seq<Closed>, blockSize100k: nat)
    requires AllGood(cs, blockSize100k)
    ensures |BlocksBits(cs, blockSize100k)| <= 21 * Total(cs) + 60835 * |cs|
    ensures 4 * Total(cs) <= 5 * |Texts(cs, blockSize100k)|
    decreases |cs|
  {
    hide BE.EncodingBits, BE.Sound, GoodClosed, Expanded, Packed;
    if cs != [] {
      var n := |cs| - 1;
      GoodClosedIs(cs[n], blockSize100k);
      BlocksLength(cs[..n], blockSize100k);
      BlockSize.EncodingLength(cs[n].e);
      PackedLength(cs[n].runs);
    }
  }

  /** All blocks but the last are full. */
  lemma {:induction false} CountBound(cs: seq<Closed>, limit: int, forced: bool)
    requires Filled([], cs, limit, forced)
    ensures limit * (if forced then |cs| - 1 else |cs|) <= Total(cs) || cs == []
    decreases |cs|
  {
    hide Early;
    if cs != [] {
      var n := |cs| - 1;
      FilledLess(cs, limit, forced);
      CountBound(cs[..n], limit, false);
      if !forced {
        assert Whole(cs[n], limit);
        assert limit * (n + 1) == limit * n + limit;
      }
    }
  }

  lemma FilledLess(cs: seq<Closed>, limit: int, forced: bool)
    requires Filled([], cs, limit, forced) && cs != []
    ensures Filled([], cs[..|cs| - 1], limit, false)
  {
    hide Whole, Cut;
  }

  lemma NoQuotientBelow(n: nat, d: int)
    requires d > 0
    ensures n / d >= 0
  {
  }

  /** At most so many blocks: all but one are full. */
  function BlocksFor(packed: nat, blockSize100k: int): (r: int)
    requires 1 <= blockSize100k
    ensures r >= 1
  {
    NoQuotientBelow(packed, 100000 * blockSize100k - 19);
    packed / (100000 * blockSize100k - 19) + 1
  }

  /** Room that is enough for a text of n bytes: the header, the trailer and the last zero bits; for
      every byte after run-length coding 21 bits; and for every block what its tables take. */
  function Enough(n: nat, blockSize100k: int): (r: int)
    requires 1 <= blockSize100k
    ensures r > 0
  {
    var packed := 5 * n / 4;
    (32 + 80 + 7 + 21 * packed + 60835 * BlocksFor(packed, blockSize100k)) / 8
  }

  lemma StreamLength(bytes: seq<int>, cs: seq<Closed>, blockSize100k: nat, pad: nat)
    requires Complete(bytes, cs, blockSize100k, pad) && Filled([], cs, 100000 * blockSize100k - 19, true)
    ensures 1 <= blockSize100k && AllGood(cs, blockSize100k)
    ensures |bytes| <= Enough(|Texts(cs, blockSize100k)|, blockSize100k)
  {
    hide AllGood, Filled, Texts, BlocksBits, Combined, ByteBits;
    var limit, n := 100000 * blockSize100k - 19, |Texts(cs, blockSize100k)|;
    BlocksLength(cs, blockSize100k);
    CountBound(cs, limit, true);
    CountDivides(|cs|, limit, Total(cs), 5 * n / 4);
    FixedParts(blockSize100k);
    BytesLength(bytes);
  }

  lemma CountDivides(count: nat, limit: int, total: nat, packed: nat)
    requires limit > 0 && total <= packed && (limit * (count - 1) <= total || count == 0)
    ensures count <= packed / limit + 1
  {
    if count > packed / limit + 1 {
      BlockLimit(packed, limit, count);
    }
  }

  lemma BlockLimit(packed: nat, limit: int, count: nat)
    requires limit > 0 && count >= packed / limit + 2
    ensures limit * (count - 1) > packed
  {
    assert limit * (count - 1) >= limit * (packed / limit + 1);
  }

  lemma BytesLength(bytes: seq<int>)
    requires IsBytes(bytes)
    ensures |ByteBits(bytes)| == 8 * |bytes|
  {
  }

  lemma FixedParts(blockSize100k: nat)
    requires 1 <= blockSize100k <= 9
    ensures |ByteBits(Header(blockSize100k))| == 32 && |ByteBits(EndMagic())| == 48
  {
    BytesLength(Header(blockSize100k));
    BytesLength(EndMagic());
  }

  // ----- the first bytes of a stream

  lemma {:induction false} BytesDetermined(a: seq<int>, b: seq<int>)
    requires IsBytes(a) && IsBytes(b) && ByteBits(a) == ByteBits(b)
    ensures a == b
    decreases |a|
  {
    hide ToBits, ByteBits, FromBits, Pow2;
    BytesLength(a);
    BytesLength(b);
    Pow8();
    if a != [] {
      var n := |a| - 1;
      var x, y := ByteBits(a), ByteBits(b);
      assert a == a[..n] + [a[n]] && b == b[..n] + [b[n]];
      ByteBitsSnoc(a[..n], a[n]);
      ByteBitsSnoc(b[..n], b[n]);
      BytesLength(a[..n]);
      BytesLength(b[..n]);
      assert ByteBits(a[..n]) == x[..8 * n] == ByteBits(b[..n]);
      assert ToBits(8, a[n]) == x[8 * n..] == ToBits(8, b[n]);
      BytesDetermined(a[..n], b[..n]);
      BitsRoundTrip(8, a[n]);
      BitsRoundTrip(8, b[n]);
    }
  }

  lemma BytesBegin(first: seq<int>, bytes: seq<int>)
    requires IsBytes(first) && IsBytes(bytes) && ByteBits(first) <= ByteBits(bytes)
    ensures first <= bytes
  {
    hide ByteBits;
    BytesLength(first);
    BytesLength(bytes);
    var n := |first|;
    ByteBitsAppend(bytes[..n], bytes[n..]);
    assert bytes == bytes[..n] + bytes[n..];
    BytesLength(bytes[..n]);
    assert ByteBits(first) == ByteBits(bytes)[..8 * n] == ByteBits(bytes[..n]);
    BytesDetermined(first, bytes[..n]);
  }

  lemma {:induction false} BlocksBegin(cs: seq<Closed>, blockSize100k: nat)
    requires AllGood(cs, blockSize100k) && cs != []
    ensures ByteBits(BE.BlockMagic()) <= BlocksBits(cs, blockSize100k)
    decreases |cs|
  {
    hide BE.CoreBits, BE.Sound, GoodClosed, ByteBits;
    GoodClosedIs(cs[|cs| - 1], blockSize100k);
    if |cs| > 1 { BlocksBegin(cs[..|cs| - 1], blockSize100k); }
  }

  lemma TextsEmpty(cs: seq<Closed>, blockSize100k: nat)
    requires AllGood(cs, blockSize100k)
    ensures Texts(cs, blockSize100k) == [] <==> cs == []
  {
    hide BE.Sound, GoodClosed, Expanded, Packed;
    if cs != [] {
      var c := cs[|cs| - 1];
      GoodClosedIs(c, blockSize100k);
      BE.EncodingNotEmpty(c.e);
      PackedLength(c.runs);
    }
  }

  /** "BZh", the level, and the magic number of a block, or of the trailer with a checksum of zero. */
  function Opening(empty: bool, blockSize100k: int): (r: seq<int>) {
    [0x42, 0x5a, 0x68, 0x30 + blockSize100k]
    + if empty then [0x17, 0x72, 0x45, 0x38, 0x50, 0x90, 0, 0, 0, 0] else [0x31, 0x41, 0x59, 0x26, 0x53, 0x59]
  }

  lemma StreamBegins(bytes: seq<int>, cs: seq<Closed>, blockSize100k: nat, pad: nat)
    requires Complete(bytes, cs, blockSize100k, pad)
    ensures AllGood(cs, blockSize100k)
    ensures var text := Texts(cs, blockSize100k);
            Opening(text == [], blockSize100k) <= bytes && (text == [] ==> bytes == Opening(true, blockSize100k))
  {
    hide AllGood, Texts, BlocksBits, ByteBits, Combined, Zeros;
    TextsEmpty(cs, blockSize100k);
    if cs == [] {
      NoBlocksBits(blockSize100k);
      ByteBitsAppend(Header(blockSize100k), EndMagic());
      ZeroBytes();
      ByteBitsAppend(Header(blockSize100k) + EndMagic(), [0, 0, 0, 0]);
      var first := Header(blockSize100k) + EndMagic() + [0, 0, 0, 0];
      assert first == Opening(true, blockSize100k);
      assert ByteBits(bytes) == ByteBits(first) + Zeros(pad);
      BytesBegin(first, bytes);
      BytesLength(first);
      BytesLength(bytes);
      ZerosLength(pad);
    } else {
      BlocksBegin(cs, blockSize100k);
      ByteBitsAppend(Header(blockSize100k), BE.BlockMagic());
      assert Header(blockSize100k) + BE.BlockMagic() == Opening(false, blockSize100k);
      BytesBegin(Opening(false, blockSize100k), bytes);
    }
  }

  lemma NoBlocksBits(blockSize100k: nat)
    ensures AllGood([], blockSize100k) && BlocksBits([], blockSize100k) == [] && Combined([]) == Zero(32)
  {
  }

  lemma ZeroBytes()
    ensures IsBytes([0, 0, 0, 0]) && ByteBits([0, 0, 0, 0]) == Zero(32)
  {
    hide ByteBits;
    ZeroRun(4);
    assert seq(4, _ => 0) == [0, 0, 0, 0];
  }

  lemma {:induction false} ZeroRun(n: nat)
    ensures IsBytes(seq(n, _ => 0)) && ByteBits(seq(n, _ => 0)) == Zero(8 * n)
  {
    hide ByteBits, ToBits, Pow2;
    if n == 0 {
      BytesLength([]);
    } else {
      ZeroRun(n - 1);
      Pow8();
      ZeroBits(8);
      ByteBitsSnoc(seq(n - 1, _ => 0), 0);
      assert seq(n - 1, _ => 0) + [0] == seq(n, _ => 0);
    }
  }

  lemma {:induction false} ZeroBits(n: nat)
    ensures Pow2(n) > 0 && ToBits(n, 0) == Zero(n)
  {
    if n > 0 { ZeroBits(n - 1); }
  }

  lemma ZerosLength(pad: nat)
    ensures |Zeros(pad)| == pad
  {
  }
}
