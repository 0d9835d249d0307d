/** The register of CrcRegister as the 32-bit numbers of the two programs: zlib shifts right and
    keeps the leaving bit lowest, bzip2 shifts left and keeps it highest. */
module CrcNumbers {
  import opened CrcRegister

  // ----- bits of numbers

  /** At most one bit is set. */
  predicate Single(m: bv32) {
    m & (m - 1) == 0
  }

  /** 1 << i */
  function Mask(i: nat): (r: bv32)
    ensures Single(r)
  {
    if i == 0 then 1 else (ShiftedMask(Mask(i - 1)); Mask(i - 1) << 1)
  }

  lemma ShiftedMask(m: bv32)
    requires Single(m)
    ensures Single(m << 1)
  {
  }

  predicate Has(v: bv32, m: bv32) {
    v & m != 0
  }

  /** Where bit i of the number stands in a register that shifts right, or left. */
  function Place(i: int, right: bool): (r: int) {
    if right then i else 31 - i
  }

  /** The word as a number: the bit that leaves lowest if it shifts right, highest if left. */
  predicate Reads(w: Word, v: bv32, right: bool) {
    forall i {:trigger Mask(i)} :: 0 <= i < 32 ==> w[Place(i, right)] == Has(v, Mask(i))
  }

  lemma ReadsAt(w: Word, v: bv32, right: bool, i: nat)
    requires Reads(w, v, right) && i < 32
    ensures w[Place(i, right)] == Has(v, Mask(i))
  {
  }

  lemma HasXor(a: bv32, b: bv32, m: bv32)
    requires Single(m)
    ensures Has(a ^ b, m) <==> Has(a, m) != Has(b, m)
  {
  }

  lemma HasRight(v: bv32, m: bv32)
    ensures Has(v >> 1, m) <==> Has(v, m << 1)
  {
  }

  lemma HasLeft(v: bv32, m: bv32)
    requires m << 1 != 0 && Single(m)
    ensures Has(v << 1, m << 1) <==> Has(v, m)
  {
  }

  /** The masks, eight at a time. */
  lemma Masks()
    ensures Mask(0) == 0x1 && Mask(1) == 0x2 && Mask(2) == 0x4 && Mask(3) == 0x8
    ensures Mask(4) == 0x10 && Mask(5) == 0x20 && Mask(6) == 0x40 && Mask(7) == 0x80
    ensures Mask(8) == 0x100 && Mask(9) == 0x200 && Mask(10) == 0x400 && Mask(11) == 0x800
    ensures Mask(12) == 0x1000 && Mask(13) == 0x2000 && Mask(14) == 0x4000 && Mask(15) == 0x8000
    ensures Mask(16) == 0x1_0000 && Mask(17) == 0x2_0000 && Mask(18) == 0x4_0000 && Mask(19) == 0x8_0000
    ensures Mask(20) == 0x10_0000 && Mask(21) == 0x20_0000 && Mask(22) == 0x40_0000 && Mask(23) == 0x80_0000
    ensures Mask(24) == 0x100_0000 && Mask(25) == 0x200_0000 && Mask(26) == 0x400_0000 && Mask(27) == 0x800_0000
    ensures Mask(28) == 0x1000_0000 && Mask(29) == 0x2000_0000 && Mask(30) == 0x4000_0000 && Mask(31) == 0x8000_0000
    ensures Mask(32) == 0
  {
    assert Mask(4) == 0x10 && Mask(8) == 0x100;
    assert Mask(12) == 0x1000 && Mask(16) == 0x1_0000;
    assert Mask(20) == 0x10_0000 && Mask(24) == 0x100_0000;
    assert Mask(28) == 0x1000_0000 && Mask(32) == 0;
  }

  // ----- every word is one number

  lemma {:induction false} MasksApart(k: nat, i: nat)
    requires k < 32 && i < 32
    ensures Has(Mask(k), Mask(i)) <==> k == i
  {
    hide *;
    if k == 0 || i == 0 {
      FirstMask(k, i);
    } else {
      MasksApart(k - 1, i - 1);
      NextApart(k - 1, i - 1);
    }
  }

  lemma NextApart(k: nat, i: nat)
    requires k < 31 && i < 31
    ensures Has(Mask(k + 1), Mask(i + 1)) <==> Has(Mask(k), Mask(i))
  {
    hide Mask, Has, Single, Doubled;
    MaskDoubled(k);
    MaskDoubled(i);
    HasDoubled(Mask(k), Mask(i));
  }

  function Doubled(m: bv32): (r: bv32) { m << 1 }

  lemma MaskDoubled(i: nat)
    ensures Mask(i + 1) == Doubled(Mask(i))
    ensures i < 31 ==> Doubled(Mask(i)) != 0
  {
    hide Mask;
    MaskNext(i);
  }

  lemma HasDoubled(v: bv32, m: bv32)
    requires Doubled(m) != 0 && Single(m)
    ensures Has(Doubled(v), Doubled(m)) <==> Has(v, m)
  {
    hide Has, Single;
    HasLeft(v, m);
  }

  lemma FirstMask(k: nat, i: nat)
    requires k < 32 && i < 32 && (k == 0 || i == 0)
    ensures Has(Mask(k), Mask(i)) <==> k == i
  {
    hide Mask;
    Masks();
    if k > 0 { MaskNext(k - 1); }
    if i > 0 { MaskNext(i - 1); }
  }

  function Added(a: bv32, b: bv32): (r: bv32) { a ^ b }

  lemma HasAdded(a: bv32, b: bv32, m: bv32)
    requires Single(m)
    ensures Has(Added(a, b), m) <==> Has(a, m) != Has(b, m)
  {
    hide Has, Single;
    HasXor(a, b, m);
  }

  /** The number in the lowest k bits. */
  function NumberUpTo(w: Word, right: bool, k: nat): (r: bv32)
    requires k <= 32
  {
    if k == 0 then 0
    else
      var v := NumberUpTo(w, right, k - 1);
      if w[Place(k - 1, right)] then Added(v, Mask(k - 1)) else v
  }

  lemma NumberNext(w: Word, right: bool, k: nat, i: nat)
    requires 1 <= k <= 32
    ensures 0 <= Place(k - 1, right) < 32
    ensures Has(NumberUpTo(w, right, k), Mask(i)) <==>
      Has(NumberUpTo(w, right, k - 1), Mask(i)) != (w[Place(k - 1, right)] && Has(Mask(k - 1), Mask(i)))
  {
    hide Mask, Has, Single, Added;
    HasAdded(NumberUpTo(w, right, k - 1), Mask(k - 1), Mask(i));
  }

  lemma {:induction false} NumberBit(w: Word, right: bool, k: nat, i: nat)
    requires k <= 32 && i < 32
    ensures Has(NumberUpTo(w, right, k), Mask(i)) <==> i < k && w[Place(i, right)]
  {
    hide *;
    if k == 0 {
      NoNumber(w, right);
      NoBit(i);
    } else {
      NumberBit(w, right, k - 1, i);
      NumberNext(w, right, k, i);
      MasksApart(k - 1, i);
    }
  }

  lemma NoNumber(w: Word, right: bool)
    ensures NumberUpTo(w, right, 0) == 0
  {
  }

  lemma NoBit(i: nat)
    ensures !Has(0, Mask(i))
  {
    hide Mask;
  }

  /** The word as a number. */
  function Number(w: Word, right: bool): (r: bv32) {
    NumberUpTo(w, right, 32)
  }

  lemma NumberReads(w: Word, right: bool)
    ensures Reads(w, Number(w, right), right)
  {
    hide Mask, Has, NumberUpTo;
    forall i | 0 <= i < 32
      ensures w[Place(i, right)] == Has(Number(w, right), Mask(i))
    {
      NumberBit(w, right, 32, i);
    }
  }

  lemma NumberIs(w: Word, v: bv32, right: bool)
    requires Reads(w, v, right)
    ensures Number(w, right) == v
  {
    hide *;
    NumberReads(w, right);
    SameNumber(w, Number(w, right), v, right);
  }

  lemma SameNumber(w: Word, u: bv32, v: bv32, right: bool)
    requires Reads(w, u, right) && Reads(w, v, right)
    ensures u == v
  {
    hide *;
    forall i: nat | i < 32
      ensures !Has(u ^ v, Mask(i))
    {
      SameBit(w, u, v, right, i);
    }
    AllClear(u ^ v);
    XorZero(u, v);
  }

  lemma SameBit(w: Word, u: bv32, v: bv32, right: bool, i: nat)
    requires Reads(w, u, right) && Reads(w, v, right) && i < 32
    ensures !Has(u ^ v, Mask(i))
  {
    hide Mask, Has, Reads;
    ReadsAt(w, u, right, i);
    ReadsAt(w, v, right, i);
    HasXor(u, v, Mask(i));
  }

  lemma XorZero(a: bv32, b: bv32)
    requires a ^ b == 0
    ensures a == b
  {
  }

  lemma AllClear(x: bv32)
    requires forall i: nat :: i < 32 ==> !Has(x, Mask(i))
    ensures x == 0
  {
    hide Mask;
    Masks();
  }

  // ----- the polynomial

  lemma PolyTerm(i: nat)
    requires i < 32
    ensures Poly()[i] <==> 31 - i in {0, 1, 2, 4, 5, 7, 8, 10, 11, 12, 16, 22, 23, 26}
  {
  }

  lemma PolyBits(i: nat)
    requires i < 32
    ensures Poly()[i] == Has(0xedb8_8320, Mask(i)) == Has(0x04c1_1db7, Mask(31 - i))
  {
    hide *;
    Masks();
    PolyTerm(i);
    if i < 8 {
      PolyBits0(i);
    } else if i < 16 {
      PolyBits1(i);
    } else if i < 24 {
      PolyBits2(i);
    } else {
      PolyBits3(i);
    }
  }

  lemma PolyBits0(i: nat)
    requires i < 8
    ensures Poly()[i] == Has(0xedb8_8320, Mask(i)) == Has(0x04c1_1db7, Mask(31 - i))
  {
    hide Poly, Mask;
    Masks();
    PolyTerm(i);
  }

  lemma PolyBits1(i: nat)
    requires 8 <= i < 16
    ensures Poly()[i] == Has(0xedb8_8320, Mask(i)) == Has(0x04c1_1db7, Mask(31 - i))
  {
    hide Poly, Mask;
    Masks();
    PolyTerm(i);
  }

  lemma PolyBits2(i: nat)
    requires 16 <= i < 24
    ensures Poly()[i] == Has(0xedb8_8320, Mask(i)) == Has(0x04c1_1db7, Mask(31 - i))
  {
    hide Poly, Mask;
    Masks();
    PolyTerm(i);
  }

  lemma PolyBits3(i: nat)
    requires 24 <= i < 32
    ensures Poly()[i] == Has(0xedb8_8320, Mask(i)) == Has(0x04c1_1db7, Mask(31 - i))
  {
    hide Poly, Mask;
    Masks();
    PolyTerm(i);
  }

  /** The polynomial as a number, from either end. */
  function Pattern(right: bool): (r: bv32) {
    if right then 0xedb8_8320 else 0x04c1_1db7
  }

  /** The polynomial of the model is the constant of either program. */
  lemma PolyIs(right: bool)
    ensures Reads(Poly(), Pattern(right), right)
  {
    hide Poly, Mask, Has;
    forall i | 0 <= i < 32
      ensures Poly()[Place(i, right)] == Has(Pattern(right), Mask(i))
    {
      PolyBits(Place(i, right));
    }
  }

  // ----- the register as a number

  /** One bit of the register. */
  function Step(c: bv32, right: bool): (r: bv32) {
    if right then
      if c & 1 == 1 then (c >> 1) ^ Pattern(true) else c >> 1
    else
      if c & 0x8000_0000 != 0 then (c << 1) ^ Pattern(false) else c << 1
  }

  function Steps(c: bv32, right: bool, k: nat): (r: bv32)
    decreases k
  {
    if k == 0 then c else Steps(Step(c, right), right, k - 1)
  }

  /** A byte is added where the bits leave, and eight bits leave. */
  function ByteStep(c: bv32, right: bool, n: bv32): (r: bv32) {
    Steps(c ^ n, right, 8)
  }

  function StepsAll(c: bv32, right: bool, ns: seq<bv32>): (r: bv32) {
    if ns == [] then c else ByteStep(StepsAll(c, right, ns[..|ns| - 1]), right, ns[|ns| - 1])
  }

  lemma XorReads(a: Word, b: Word, x: bv32, y: bv32, right: bool)
    requires Reads(a, x, right) && Reads(b, y, right)
    ensures Reads(Xor(a, b), x ^ y, right)
  {
    hide Mask, Has, Xor;
    forall i | 0 <= i < 32
      ensures Xor(a, b)[Place(i, right)] == Has(x ^ y, Mask(i))
    {
      XorAt(a, b, Place(i, right));
      HasXor(x, y, Mask(i));
    }
  }

  lemma XorAt(a: Word, b: Word, i: nat)
    requires i < 32
    ensures Xor(a, b)[i] == (a[i] != b[i])
  {
  }

  lemma MovedReads(w: Word, v: bv32, right: bool)
    requires Reads(w, v, right)
    ensures Reads(Moved(w), if right then v >> 1 else v << 1, right)
  {
    hide Mask, Has, Reads;
    var moved := if right then v >> 1 else v << 1;
    forall i | 0 <= i < 32
      ensures Moved(w)[Place(i, right)] == Has(moved, Mask(i))
    {
      MovedAt(w, v, right, i);
    }
    AllReads(Moved(w), moved, right);
  }

  lemma AllReads(w: Word, v: bv32, right: bool)
    requires forall i {:trigger Mask(i)} :: 0 <= i < 32 ==> w[Place(i, right)] == Has(v, Mask(i))
    ensures Reads(w, v, right)
  {
    hide Mask, Has;
  }

  lemma MovedAt(w: Word, v: bv32, right: bool, i: nat)
    requires Reads(w, v, right) && i < 32
    ensures Moved(w)[Place(i, right)] == Has(if right then v >> 1 else v << 1, Mask(i))
  {
    hide Mask, Has, Reads, Moved;
    if right { MovedRight(w, v, i); } else { MovedLeft(w, v, i); }
  }

  lemma MovedRight(w: Word, v: bv32, i: nat)
    requires Reads(w, v, true) && i < 32
    ensures Moved(w)[i] == Has(v >> 1, Mask(i))
  {
    hide Mask, Has, Reads;
    Ends(v);
    HasRight(v, Mask(i));
    MaskNext(i);
    if i < 31 { ReadsAt(w, v, true, i + 1); }
  }

  lemma MovedLeft(w: Word, v: bv32, i: nat)
    requires Reads(w, v, false) && i < 32
    ensures Moved(w)[31 - i] == Has(v << 1, Mask(i))
  {
    hide Mask, Has, Reads;
    if i == 0 {
      Ends(v);
    } else {
      ReadsAt(w, v, false, i - 1);
      MaskNext(i - 1);
      HasLeft(v, Mask(i - 1));
    }
  }

  lemma MaskNext(i: nat)
    ensures Mask(i + 1) == Mask(i) << 1
    ensures i < 31 ==> Mask(i) << 1 != 0
  {
    hide Mask;
    MaskDouble(i);
    Masks();
  }

  lemma MaskDouble(i: nat)
    ensures Mask(i + 1) == Mask(i) << 1
  {
  }

  lemma Ends(v: bv32)
    ensures !Has(v, Mask(32)) && !Has(v << 1, Mask(0))
    ensures Has(v, Mask(0)) <==> v & 1 == 1
    ensures Has(v, Mask(31)) <==> v & 0x8000_0000 != 0
  {
    hide Mask;
    Masks();
  }

  lemma ShiftReads(w: Word, v: bv32, right: bool)
    requires Reads(w, v, right)
    ensures Reads(Shift(w), Step(v, right), right)
  {
    hide Reads, Moved, Poly, Xor, Pattern, Mask, Has;
    ReadsAt(w, v, right, if right then 0 else 31);
    Ends(v);
    MovedReads(w, v, right);
    PolyIs(right);
    XorReads(Moved(w), Poly(), if right then v >> 1 else v << 1, Pattern(right), right);
  }

  lemma {:induction false} ShiftsReads(w: Word, v: bv32, right: bool, k: nat)
    requires Reads(w, v, right)
    ensures Reads(Shifts(w, k), Steps(v, right, k), right)
    decreases k
  {
    hide Reads, Shift, Step;
    if k > 0 {
      ShiftReads(w, v, right);
      ShiftsReads(Shift(w), Step(v, right), right, k - 1);
    }
  }

  /** A byte as the number that is added to the register: at the low end, or at the high end. */
  function ByteNumber(b: seq<bool>, right: bool): (r: bv32)
    requires |b| == 8
  {
    Number(b + Zero(24), right)
  }

  function ByteNumbers(bs: seq<seq<bool>>, right: bool): (r: seq<bv32>)
    requires AreBytes(bs)
    ensures |r| == |bs|
  {
    seq(|bs|, i requires 0 <= i < |bs| => ByteNumber(bs[i], right))
  }

  lemma UpdateReads(w: Word, v: bv32, b: seq<bool>, right: bool)
    requires Reads(w, v, right) && |b| == 8
    ensures Reads(Update(w, b), ByteStep(v, right, ByteNumber(b, right)), right)
  {
    hide Reads, Update, Steps, Zero, Shifts, Xor, Number;
    var n := ByteNumber(b, right);
    UpdateIsBitwise(w, b);
    NumberReads(b + Zero(24), right);
    XorReads(w, b + Zero(24), v, n, right);
    ShiftsReads(Xor(w, b + Zero(24)), v ^ n, right, 8);
  }

  lemma {:induction false} RunReads(w: Word, v: bv32, bs: seq<seq<bool>>, right: bool)
    requires Reads(w, v, right) && AreBytes(bs)
    ensures Reads(Run(w, bs), StepsAll(v, right, ByteNumbers(bs, right)), right)
    decreases |bs|
  {
    hide Reads, Update, ByteStep, ByteNumber;
    if bs != [] {
      var n := |bs| - 1;
      RunReads(w, v, bs[..n], right);
      UpdateReads(Run(w, bs[..n]), StepsAll(v, right, ByteNumbers(bs[..n], right)), bs[n], right);
      assert ByteNumbers(bs, right)[..n] == ByteNumbers(bs[..n], right);
    }
  }

  /** The register of the model is that of the program, whatever it holds and whatever bytes follow. */
  lemma RunIsSteps(w: Word, bs: seq<seq<bool>>, right: bool)
    requires AreBytes(bs)
    ensures Number(Run(w, bs), right) == StepsAll(Number(w, right), right, ByteNumbers(bs, right))
  {
    hide *;
    NumberReads(w, right);
    RunReads(w, Number(w, right), bs, right);
    NumberIs(Run(w, bs), StepsAll(Number(w, right), right, ByteNumbers(bs, right)), right);
  }

  lemma XorNumbers(a: Word, b: Word, right: bool)
    ensures Number(Xor(a, b), right) == Number(a, right) ^ Number(b, right)
  {
    hide *;
    NumberReads(a, right);
    NumberReads(b, right);
    XorReads(a, b, Number(a, right), Number(b, right), right);
    NumberIs(Xor(a, b), Number(a, right) ^ Number(b, right), right);
  }

  lemma ConstantNumbers(right: bool)
    ensures Number(Ones(), right) == 0xffff_ffff && Number(Zero(32), right) == 0
  {
    hide Mask, Has, Number;
    forall i | 0 <= i < 32
      ensures Ones()[Place(i, right)] == Has(0xffff_ffff, Mask(i))
      ensures Zero(32)[Place(i, right)] == Has(0, Mask(i))
    {
      SomeBit(i);
    }
    NumberIs(Ones(), 0xffff_ffff, right);
    NumberIs(Zero(32), 0, right);
  }

  function Complement(v: bv32): (r: bv32) {
    v ^ 0xffff_ffff
  }

  lemma ComplementNumber(w: Word, right: bool)
    ensures Number(Xor(w, Ones()), right) == Complement(Number(w, right))
  {
    hide Number, Xor, Ones;
    ConstantNumbers(right);
    XorNumbers(w, Ones(), right);
  }

  lemma SomeBit(i: nat)
    requires i < 32
    ensures Has(0xffff_ffff, Mask(i)) && !Has(0, Mask(i))
  {
    hide Mask;
    Masks();
  }

  /** A byte with its highest bit first, at the high end. */
  lemma HighByte(b: seq<bool>, n: bv32)
    requires |b| == 8 && n & 0x00ff_ffff == 0
    requires b[0] == Has(n, 0x8000_0000) && b[1] == Has(n, 0x4000_0000) && b[2] == Has(n, 0x2000_0000)
    requires b[3] == Has(n, 0x1000_0000) && b[4] == Has(n, 0x0800_0000) && b[5] == Has(n, 0x0400_0000)
    requires b[6] == Has(n, 0x0200_0000) && b[7] == Has(n, 0x0100_0000)
    ensures ByteNumber(b, false) == n
  {
    hide Mask, Has, Number;
    forall i | 0 <= i < 32
      ensures (b + Zero(24))[31 - i] == Has(n, Mask(i))
    {
      if i < 24 { LowBitsClear(n, i); } else { Masks(); }
    }
    NumberIs(b + Zero(24), n, false);
  }

  lemma LowBitsClear(n: bv32, i: nat)
    requires n & 0x00ff_ffff == 0 && i < 24
    ensures !Has(n, Mask(i))
  {
    hide Mask;
    Masks();
  }

  // ----- the check value: the nine digits "123456789"

  const DIGITS: seq<bv32> := [0x31, 0x32, 0x33, 0x34, 0x35, 0x36, 0x37, 0x38, 0x39]

  const HIGH_DIGITS: seq<bv32> := [
    0x3100_0000, 0x3200_0000, 0x3300_0000, 0x3400_0000, 0x3500_0000, 0x3600_0000, 0x3700_0000, 0x3800_0000,
    0x3900_0000
  ]

  lemma RightDigits()
    ensures ByteStep(0xffff_ffff, true, 0x31) == 0x7c23_1048
    ensures ByteStep(0x7c23_1048, true, 0x32) == 0xb0ac_bb32
    ensures ByteStep(0xb0ac_bb32, true, 0x33) == 0x77b7_9c2d
    ensures ByteStep(0x77b7_9c2d, true, 0x34) == 0x641c_1f5c
    ensures ByteStep(0x641c_1f5c, true, 0x35) == 0x340a_c5e3
    ensures ByteStep(0x340a_c5e3, true, 0x36) == 0xf68d_2c9e
    ensures ByteStep(0xf68d_2c9e, true, 0x37) == 0xaffc_9660
    ensures ByteStep(0xaffc_9660, true, 0x38) == 0x651f_2550
    ensures ByteStep(0x651f_2550, true, 0x39) == 0x340b_c6d9
  {
  }

  lemma LeftDigits()
    ensures ByteStep(0xffff_ffff, false, 0x3100_0000) == 0x9efb_cf93
    ensures ByteStep(0x9efb_cf93, false, 0x3200_0000) == 0x3fec_5e6a
    ensures ByteStep(0x3fec_5e6a, false, 0x3300_0000) == 0xd952_f164
    ensures ByteStep(0xd952_f164, false, 0x3400_0000) == 0xa695_c4aa
    ensures ByteStep(0xa695_c4aa, false, 0x3500_0000) == 0xbd9a_b747
    ensures ByteStep(0xbd9a_b747, false, 0x3600_0000) == 0xd8f0_6c8f
    ensures ByteStep(0xd8f0_6c8f, false, 0x3700_0000) == 0x0d8a_14c4
    ensures ByteStep(0x0d8a_14c4, false, 0x3800_0000) == 0x49e3_c2fb
    ensures ByteStep(0x49e3_c2fb, false, 0x3900_0000) == 0x0376_e6e7
  {
  }

  lemma StepsTake(c: bv32, right: bool, ns: seq<bv32>, k: nat)
    requires k < |ns|
    ensures StepsAll(c, right, ns[..k + 1]) == ByteStep(StepsAll(c, right, ns[..k]), right, ns[k])
    ensures StepsAll(c, right, ns[..0]) == c
  {
    hide ByteStep;
    assert ns[..k + 1][..k] == ns[..k];
  }

  lemma NineDigits()
    ensures |DIGITS| == 9 && DIGITS[0] == 0x31 && DIGITS[1] == 0x32 && DIGITS[2] == 0x33
    ensures DIGITS[3] == 0x34 && DIGITS[4] == 0x35 && DIGITS[5] == 0x36
    ensures DIGITS[6] == 0x37 && DIGITS[7] == 0x38 && DIGITS[8] == 0x39
  {
  }

  lemma NineHighDigits()
    ensures |HIGH_DIGITS| == 9
    ensures HIGH_DIGITS[0] == 0x3100_0000 && HIGH_DIGITS[1] == 0x3200_0000 && HIGH_DIGITS[2] == 0x3300_0000
    ensures HIGH_DIGITS[3] == 0x3400_0000 && HIGH_DIGITS[4] == 0x3500_0000 && HIGH_DIGITS[5] == 0x3600_0000
    ensures HIGH_DIGITS[6] == 0x3700_0000 && HIGH_DIGITS[7] == 0x3800_0000 && HIGH_DIGITS[8] == 0x3900_0000
  {
  }

  lemma RightCheck()
    ensures StepsAll(0xffff_ffff, true, DIGITS) == 0x340b_c6d9
  {
    hide *;
    RightDigits();
    NineDigits();
    assert DIGITS[..9] == DIGITS;
    StepsTake(0xffff_ffff, true, DIGITS, 0);
    StepsTake(0xffff_ffff, true, DIGITS, 1);
    StepsTake(0xffff_ffff, true, DIGITS, 2);
    StepsTake(0xffff_ffff, true, DIGITS, 3);
    StepsTake(0xffff_ffff, true, DIGITS, 4);
    StepsTake(0xffff_ffff, true, DIGITS, 5);
    StepsTake(0xffff_ffff, true, DIGITS, 6);
    StepsTake(0xffff_ffff, true, DIGITS, 7);
    StepsTake(0xffff_ffff, true, DIGITS, 8);
  }

  lemma LeftCheck()
    ensures StepsAll(0xffff_ffff, false, HIGH_DIGITS) == 0x0376_e6e7
  {
    hide *;
    LeftDigits();
    NineHighDigits();
    assert HIGH_DIGITS[..9] == HIGH_DIGITS;
    StepsTake(0xffff_ffff, false, HIGH_DIGITS, 0);
    StepsTake(0xffff_ffff, false, HIGH_DIGITS, 1);
    StepsTake(0xffff_ffff, false, HIGH_DIGITS, 2);
    StepsTake(0xffff_ffff, false, HIGH_DIGITS, 3);
    StepsTake(0xffff_ffff, false, HIGH_DIGITS, 4);
    StepsTake(0xffff_ffff, false, HIGH_DIGITS, 5);
    StepsTake(0xffff_ffff, false, HIGH_DIGITS, 6);
    StepsTake(0xffff_ffff, false, HIGH_DIGITS, 7);
    StepsTake(0xffff_ffff, false, HIGH_DIGITS, 8);
  }
}
