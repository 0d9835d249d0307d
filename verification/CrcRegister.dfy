/** The 32-bit CRC register shared by bzip2 and zlib, as a string of coefficients over GF(2).

    Position 0 is the bit that leaves the register: the most significant one in bzip2, which
    shifts left, and the least significant one in zlib, which shifts right. In this order the
    patterns 0x04c11db7 (bzip2) and 0xedb88320 (zlib) are the same string. */
module CrcRegister {

  type Word = w: seq<bool> | |w| == 32 witness seq(32, _ => false)

  function Zero(n: nat): (r: seq<bool>)
    ensures |r| == n
  {
    seq(n, _ => false)
  }

  function Ones(): (r: Word) {
    seq(32, _ => true)
  }

  /** Exclusive or, position by position. */
  function Xor(a: seq<bool>, b: seq<bool>): (r: seq<bool>)
    requires |a| == |b|
    ensures |r| == |a|
  {
    seq(|a|, i requires 0 <= i < |a| => a[i] != b[i])
  }

  lemma XorCommutes(a: seq<bool>, b: seq<bool>)
    requires |a| == |b|
    ensures Xor(a, b) == Xor(b, a)
  {
  }

  lemma XorAssociates(a: seq<bool>, b: seq<bool>, c: seq<bool>)
    requires |a| == |b| == |c|
    ensures Xor(Xor(a, b), c) == Xor(a, Xor(b, c))
  {
  }

  lemma XorUnits(a: seq<bool>)
    ensures Xor(a, Zero(|a|)) == a && Xor(Zero(|a|), a) == a && Xor(a, a) == Zero(|a|)
  {
  }

  /** Terms of a sum of four can be exchanged. */
  lemma XorSwap(a: seq<bool>, b: seq<bool>, c: seq<bool>, d: seq<bool>)
    requires |a| == |b| == |c| == |d|
    ensures Xor(Xor(a, b), Xor(c, d)) == Xor(Xor(a, c), Xor(b, d))
  {
  }

  lemma XorAppend(a: seq<bool>, b: seq<bool>, c: seq<bool>, d: seq<bool>)
    requires |a| == |c| && |b| == |d|
    ensures Xor(a + b, c + d) == Xor(a, c) + Xor(b, d)
  {
  }

  /** x^26 + x^23 + x^22 + x^16 + x^12 + x^11 + x^10 + x^8 + x^7 + x^5 + x^4 + x^2 + x + 1,
      position 31 - k holding the coefficient of x^k. */
  function Poly(): (r: Word) {
    var terms := {0, 1, 2, 4, 5, 7, 8, 10, 11, 12, 16, 22, 23, 26};
    seq(32, i requires 0 <= i < 32 => (31 - i) in terms)
  }

  /** The register moved up by one place. */
  function Moved(c: Word): (r: Word) {
    c[1..] + [false]
  }

  /** One bit of the register: multiplication by x modulo the polynomial. */
  function Shift(c: Word): (r: Word) {
    if c[0] then Xor(Moved(c), Poly()) else Moved(c)
  }

  function Shifts(c: Word, k: nat): (r: Word)
    decreases k
  {
    if k == 0 then c else Shifts(Shift(c), k - 1)
  }

  lemma {:induction false} ShiftsAdd(c: Word, j: nat, k: nat)
    ensures Shifts(Shifts(c, j), k) == Shifts(c, j + k)
    decreases j
  {
    hide Shift;
    if j > 0 { ShiftsAdd(Shift(c), j - 1, k); }
  }

  lemma MovedLinear(a: Word, b: Word)
    ensures Moved(Xor(a, b)) == Xor(Moved(a), Moved(b))
  {
  }

  lemma ShiftLinear(a: Word, b: Word)
    ensures Shift(Xor(a, b)) == Xor(Shift(a), Shift(b))
  {
    hide Poly, Moved;
    var z: Word := Zero(32);
    var pa, pb := if a[0] then Poly() else z, if b[0] then Poly() else z;
    MovedLinear(a, b);
    XorSwap(Moved(a), Moved(b), pa, pb);
    XorUnits(Poly());
    XorUnits(Moved(a));
    XorUnits(Moved(b));
    XorUnits(Moved(Xor(a, b)));
    XorUnits(z);
  }

  lemma {:induction false} ShiftsLinear(a: Word, b: Word, k: nat)
    ensures Shifts(Xor(a, b), k) == Xor(Shifts(a, k), Shifts(b, k))
    decreases k
  {
    hide Shift, Xor;
    if k > 0 {
      ShiftLinear(a, b);
      ShiftsLinear(Shift(a), Shift(b), k - 1);
    }
  }

  /** While the bits that leave are zeros the register only moves. */
  lemma {:induction false} ShiftsClear(c: Word, k: nat)
    requires k <= 32 && forall i :: 0 <= i < k ==> !c[i]
    ensures Shifts(c, k) == c[k..] + Zero(k)
    decreases k
  {
    hide Poly, Xor;
    if k > 0 {
      ShiftsClear(Moved(c), k - 1);
      assert Moved(c)[k - 1..] + Zero(k - 1) == c[k..] + Zero(k);
    }
  }

  /** Entry b of the byte-wide table. */
  function TableEntry(b: seq<bool>): (r: Word)
    requires |b| == 8
  {
    Shifts(b + Zero(24), 8)
  }

  /** The table-driven step for one byte. */
  function Update(crc: Word, b: seq<bool>): (r: Word)
    requires |b| == 8
  {
    Xor(crc[8..] + Zero(8), TableEntry(Xor(crc[..8], b)))
  }

  /** The table-driven step is eight single-bit steps with the byte added where bits leave. */
  lemma UpdateIsBitwise(crc: Word, b: seq<bool>)
    requires |b| == 8
    ensures Update(crc, b) == Shifts(Xor(crc, b + Zero(24)), 8)
  {
    hide Shifts, Xor;
    var high, low: Word := Xor(crc[..8], b) + Zero(24), Zero(8) + crc[8..];
    SplitRegister(crc, b);
    ShiftsLinear(high, low, 8);
    ShiftsClear(low, 8);
    assert low[8..] == crc[8..];
    XorCommutes(Shifts(high, 8), Shifts(low, 8));
  }

  lemma SplitRegister(crc: Word, b: seq<bool>)
    requires |b| == 8
    ensures Xor(crc, b + Zero(24)) == Xor(Xor(crc[..8], b) + Zero(24), Zero(8) + crc[8..])
  {
    hide Xor;
    var x := Xor(crc[..8], b);
    XorAppend(crc[..8], crc[8..], b, Zero(24));
    assert crc == crc[..8] + crc[8..];
    XorAppend(x, Zero(24), Zero(8), crc[8..]);
    XorUnits(x);
    XorUnits(crc[8..]);
  }

  /** The step is linear in register and byte together. */
  lemma UpdateLinear(a: Word, b: Word, c: seq<bool>)
    requires |c| == 8
    ensures Update(Xor(a, b), c) == Xor(Shifts(a, 8), Update(b, c))
  {
    hide *;
    UpdateIsBitwise(Xor(a, b), c);
    UpdateIsBitwise(b, c);
    XorAssociates(a, b, c + Zero(24));
    ShiftsLinear(a, Xor(b, c + Zero(24)), 8);
  }

  predicate AreBytes(bs: seq<seq<bool>>) {
    forall i :: 0 <= i < |bs| ==> |bs[i]| == 8
  }

  /** The register after a string of bytes. */
  function Run(crc: Word, bs: seq<seq<bool>>): (r: Word)
    requires AreBytes(bs)
  {
    if bs == [] then crc else Update(Run(crc, bs[..|bs| - 1]), bs[|bs| - 1])
  }

  lemma RunSnoc(crc: Word, bs: seq<seq<bool>>, b: seq<bool>)
    requires AreBytes(bs) && |b| == 8
    ensures AreBytes(bs + [b]) && Run(crc, bs + [b]) == Update(Run(crc, bs), b)
  {
    assert (bs + [b])[..|bs|] == bs;
  }

  lemma {:induction false} RunAppend(crc: Word, a: seq<seq<bool>>, b: seq<seq<bool>>)
    requires AreBytes(a) && AreBytes(b)
    ensures AreBytes(a + b) && Run(crc, a + b) == Run(Run(crc, a), b)
    decreases |b|
  {
    hide Update;
    if b == [] {
      assert a + b == a;
    } else {
      RunAppend(crc, a, b[..|b| - 1]);
      assert (a + b)[..|a + b| - 1] == a + b[..|b| - 1];
    }
  }

  /** What is in the register beforehand moves along independently of the bytes. */
  lemma {:induction false} RunLinear(a: Word, c: Word, bs: seq<seq<bool>>)
    requires AreBytes(bs)
    ensures Run(Xor(a, c), bs) == Xor(Shifts(a, 8 * |bs|), Run(c, bs))
    decreases |bs|
  {
    hide Update, Xor, Shifts;
    if bs == [] {
      NoShifts(a);
    } else {
      var n := |bs| - 1;
      RunLinear(a, c, bs[..n]);
      UpdateLinear(Shifts(a, 8 * n), Run(c, bs[..n]), bs[n]);
      ShiftsAdd(a, 8 * n, 8);
    }
  }

  lemma NoShifts(a: Word)
    ensures Shifts(a, 0) == a
  {
  }
}
