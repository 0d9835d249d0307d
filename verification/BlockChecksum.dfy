/** Checksums of bzip2: of the bytes of one block, and of all blocks together. */
module BlockChecksum {
  import opened Bytes
  import opened BitStrings
  import opened CrcRegister
  import opened BitWriter
  import opened CrcNumbers
  import opened Powers

  /** A byte as it enters the register, most significant bit first. */
  function Bits8(ch: int): (r: seq<bool>)
    requires 0 <= ch < 256
    ensures |r| == 8
  {
    Pow8();
    ToBits(8, ch)
  }

  function Octets(s: seq<int>): (r: seq<seq<bool>>)
    requires IsBytes(s)
    ensures |r| == |s| && AreBytes(r)
  {
    seq(|s|, i requires 0 <= i < |s| => Bits8(s[i]))
  }

  /** BZ_UPDATE_CRC over a string of bytes. */
  function UpdateAll(crc: Word, s: seq<int>): (r: Word)
    requires IsBytes(s)
  {
    Run(crc, Octets(s))
  }

  lemma UpdateSnoc(crc: Word, s: seq<int>, c: int)
    requires IsBytes(s) && 0 <= c < 256
    ensures IsBytes(s + [c]) && UpdateAll(crc, s + [c]) == Update(UpdateAll(crc, s), Bits8(c))
  {
    hide Update, Run, Bits8;
    RunSnoc(crc, Octets(s), Bits8(c));
    assert Octets(s + [c]) == Octets(s) + [Bits8(c)];
  }

  /** From BZ_INITIALISE_CRC over the bytes to BZ_FINALISE_CRC. */
  function Checksum(s: seq<int>): (r: Word)
    requires IsBytes(s)
  {
    Xor(UpdateAll(Ones(), s), Ones())
  }

  /** Combined checksum: rotate by one, add the next block's. */
  function Combine(combined: Word, crc: Word): (r: Word) {
    Xor(combined[1..] + [combined[0]], crc)
  }

  // ----- the registers of the two programs

  /** The checksum as a number: shifts to the left, 0x04c11db7 added for every bit that leaves set. */
  lemma ChecksumNumber(s: seq<int>)
    requires IsBytes(s)
    ensures Number(Checksum(s), false)
         == Complement(StepsAll(0xffff_ffff, false, ByteNumbers(Octets(s), false)))
  {
    hide *;
    OctetsAre(s);
    ConstantNumbers(false);
    RunIsSteps(Ones(), Octets(s), false);
    ComplementNumber(UpdateAll(Ones(), s), false);
  }

  lemma OctetsAre(s: seq<int>)
    requires IsBytes(s)
    ensures AreBytes(Octets(s))
    ensures UpdateAll(Ones(), s) == Run(Ones(), Octets(s))
    ensures Checksum(s) == Xor(UpdateAll(Ones(), s), Ones())
  {
    hide Run, Xor, Octets;
  }

  lemma HalfByte(d: nat)
    requires d < 16 == Pow2(4)
    ensures Bits8(0x30 + d) == [false, false, true, true] + ToBits(4, d)
  {
    Pow8();
    assert Pow2(7) == 128 && Pow2(6) == 64 && Pow2(5) == 32;
    assert ToBits(5, 0x10 + d) == [true] + ToBits(4, d);
    assert ToBits(6, 0x30 + d) == [true] + ToBits(5, 0x10 + d);
    assert ToBits(7, 0x30 + d) == [false] + ToBits(6, 0x30 + d);
  }

  lemma LowHalves()
    ensures Pow2(4) == 16
    ensures ToBits(4, 1) == [false, false, false, true]
    ensures ToBits(4, 2) == [false, false, true, false]
    ensures ToBits(4, 3) == [false, false, true, true]
    ensures ToBits(4, 4) == [false, true, false, false]
    ensures ToBits(4, 5) == [false, true, false, true]
    ensures ToBits(4, 6) == [false, true, true, false]
    ensures ToBits(4, 7) == [false, true, true, true]
    ensures ToBits(4, 8) == [true, false, false, false]
    ensures ToBits(4, 9) == [true, false, false, true]
  {
  }

  lemma DigitNumber(d: nat)
    requires 1 <= d <= 9
    ensures ByteNumber(Bits8(0x30 + d), false) == HIGH_DIGITS[d - 1]
  {
    hide Bits8, ToBits, ByteNumber, Pow2;
    LowHalves();
    HalfByte(d);
    NineHighDigits();
    HighByte(Bits8(0x30 + d), HIGH_DIGITS[d - 1]);
  }

  /** The checksum of the nine digits "123456789". */
  lemma CheckValue(s: seq<int>)
    requires IsBytes(s) && |s| == 9 && forall k: nat :: k < 9 ==> s[k] == 0x31 + k
    ensures Number(Checksum(s), false) == 0xfc89_1918
  {
    hide StepsAll, Number, ByteNumbers, Octets, HIGH_DIGITS, Checksum;
    ChecksumNumber(s);
    NineHighDigits();
    OctetsAre(s);
    forall k: nat | k < 9
      ensures ByteNumbers(Octets(s), false)[k] == HIGH_DIGITS[k]
    {
      OctetNumber(s, k);
      DigitNumber(k + 1);
    }
    assert ByteNumbers(Octets(s), false) == HIGH_DIGITS;
    LeftCheck();
  }

  lemma OctetNumber(s: seq<int>, k: nat)
    requires IsBytes(s) && k < |s|
    ensures ByteNumbers(Octets(s), false)[k] == ByteNumber(Bits8(s[k]), false)
  {
    hide Bits8, ByteNumber;
  }

  /** The combined checksum as a number: rotated to the left by one, the checksum of the block added. */
  lemma CombineNumber(combined: Word, crc: Word)
    ensures Number(Combine(combined, crc), false)
         == ((Number(combined, false) << 1) | (Number(combined, false) >> 31)) ^ Number(crc, false)
  {
    hide *;
    var c := Number(combined, false);
    var last: Word := Zero(31) + [combined[0]];
    NumberReads(combined, false);
    MovedReads(combined, c, false);
    NumberIs(Moved(combined), c << 1, false);
    LastBit(combined, c);
    CombineIs(combined, crc);
    XorNumbers(Xor(Moved(combined), last), crc, false);
    Rotated(Moved(combined), last, c);
  }

  lemma CombineIs(combined: Word, crc: Word)
    ensures Combine(combined, crc) == Xor(Xor(Moved(combined), Zero(31) + [combined[0]]), crc)
  {
    assert combined[1..] + [combined[0]] == Xor(Moved(combined), Zero(31) + [combined[0]]);
  }

  lemma Rotated(moved: Word, last: Word, c: bv32)
    requires Number(moved, false) == c << 1 && Number(last, false) == c >> 31
    ensures Number(Xor(moved, last), false) == (c << 1) | (c >> 31)
  {
    hide Number, Xor;
    XorNumbers(moved, last, false);
    RotateBits(c);
  }

  lemma RotateBits(c: bv32)
    ensures (c << 1) ^ (c >> 31) == (c << 1) | (c >> 31)
  {
  }

  lemma LastBit(w: Word, c: bv32)
    requires Reads(w, c, false)
    ensures Number(Zero(31) + [w[0]], false) == c >> 31
  {
    hide Mask, Number, Has, Reads;
    ReadsAt(w, c, false, 31);
    OneBit(w[0], c);
  }

  lemma OneBit(b: bool, c: bv32)
    requires b == Has(c, Mask(31))
    ensures Number(Zero(31) + [b], false) == c >> 31
  {
    hide Mask, Number, Has;
    Ends(c);
    TopBit(c);
    forall i | 0 <= i < 32
      ensures (Zero(31) + [b])[31 - i] == Has(c >> 31, Mask(i))
    {
      NoBit(i);
      MasksApart(0, i);
      Masks();
    }
    NumberIs(Zero(31) + [b], c >> 31, false);
  }

  lemma TopBit(c: bv32)
    ensures c >> 31 == if c & 0x8000_0000 != 0 then 1 else 0
  {
  }
}
