/** crc32.c: the CRC of section 8 of RFC 1952, its word-at-a-time forms and crc32_combine.
    Bytes and words are strings of bits, least significant first. */
module ZlibCrc {
  import opened CrcNumbers
  import opened CrcRegister

  type Byte = b: seq<bool> | |b| == 8 witness seq(8, _ => false)

  /** The checksum of more bytes, from a checksum so far. */
  function Extend(crc: Word, bs: seq<Byte>): (r: Word) {
    Xor(Run(Xor(crc, Ones()), bs), Ones())
  }

  function Crc(bs: seq<Byte>): (r: Word) {
    Extend(Zero(32), bs)
  }

  /** Checksums can be taken piece by piece. */
  lemma ExtendAppend(crc: Word, a: seq<Byte>, b: seq<Byte>)
    ensures Extend(Extend(crc, a), b) == Extend(crc, a + b)
  {
    hide Run, Xor, Ones;
    var c := Run(Xor(crc, Ones()), a);
    XorAssociates(c, Ones(), Ones());
    XorUnits(Ones());
    XorUnits(c);
    RunAppend(Xor(crc, Ones()), a, b);
  }

  /** The law behind crc32_combine. */
  lemma CrcOfConcatenation(a: seq<Byte>, b: seq<Byte>)
    ensures Xor(Shifts(Crc(a), 8 * |b|), Crc(b)) == Crc(a + b)
  {
    hide Run, Xor, Ones, Shifts;
    var one: Word := Ones();
    ExtendAppend(Zero(32), a, b);
    RunLinear(Crc(a), one, b);
    XorUnits(one);
    XorAssociates(Shifts(Crc(a), 8 * |b|), Run(one, b), one);
  }

  /** The checksum as a number, for all checksums so far and all bytes: complement, shifts to the
      right with 0xedb88320 added for every bit that leaves set, complement. */
  lemma ExtendNumber(crc: Word, bs: seq<Byte>)
    ensures Number(Extend(crc, bs), true)
         == Complement(StepsAll(Complement(Number(crc, true)), true, ByteNumbers(bs, true)))
  {
    hide *;
    ExtendIs(crc, bs);
    ComplementNumber(crc, true);
    RunIsSteps(Xor(crc, Ones()), bs, true);
    ComplementNumber(Run(Xor(crc, Ones()), bs), true);
  }

  lemma ExtendIs(crc: Word, bs: seq<Byte>)
    ensures AreBytes(bs) && Extend(crc, bs) == Xor(Run(Xor(crc, Ones()), bs), Ones())
  {
    hide Run, Xor, Ones;
  }

  // ----- tables for whole words

  /** crc_table[k][b], for k < 4 */
  function Table(k: nat, b: Byte): (r: Word) {
    if k == 0 then TableEntry(b)
    else
      var c := Table(k - 1, b);
      Xor(TableEntry(c[..8]), c[8..] + Zero(8))
  }

  lemma UpdateZero(c: Word)
    ensures Xor(TableEntry(c[..8]), c[8..] + Zero(8)) == Shifts(c, 8)
  {
    hide Xor, Shifts;
    UpdateIsBitwise(c, Zero(8));
    XorUnits(c[..8]);
    XorUnits(c);
    assert Zero(8) + Zero(24) == Zero(32);
    XorCommutes(TableEntry(c[..8]), c[8..] + Zero(8));
  }

  /** Table k holds the byte followed by k zero bytes. */
  lemma {:induction false} TableIs(k: nat, b: Byte)
    ensures Table(k, b) == Shifts(b + Zero(24), 8 * (k + 1))
  {
    hide Xor, Shifts;
    if k > 0 {
      TableIs(k - 1, b);
      UpdateZero(Table(k - 1, b));
      ShiftsAdd(b + Zero(24), 8 * k, 8);
    }
  }

  /** Bytes side by side, the first lowest. */
  function Flat(bs: seq<Byte>): (r: seq<bool>)
    ensures |r| == 8 * |bs|
  {
    if bs == [] then [] else Flat(bs[..|bs| - 1]) + bs[|bs| - 1]
  }

  /** Up to four bytes can be added to the register before any bit leaves it. */
  lemma {:induction false} RunIsWide(c: Word, bs: seq<Byte>)
    requires |bs| <= 4
    ensures Run(c, bs) == Shifts(Xor(c, Flat(bs) + Zero(32 - 8 * |bs|)), 8 * |bs|)
    decreases |bs|
  {
    hide Xor, Shifts, Update;
    if bs == [] {
      assert Flat(bs) + Zero(32) == Zero(32);
      XorUnits(c);
      NoShifts(c);
    } else {
      var m := 8 * (|bs| - 1);
      var b, f := bs[|bs| - 1], Flat(bs[..|bs| - 1]);
      var F: Word := f + Zero(32 - m);
      var G: Word := Zero(m) + (b + Zero(24 - m));
      RunIsWide(c, bs[..|bs| - 1]);
      UpdateIsBitwise(Shifts(Xor(c, F), m), b);
      ShiftsClear(G, m);
      assert G[m..] + Zero(m) == b + Zero(24);
      ShiftsLinear(Xor(c, F), G, m);
      ShiftsAdd(Xor(Xor(c, F), G), m, 8);
      XorAssociates(c, F, G);
      FlatSnoc(f, b, m);
    }
  }

  lemma FlatSnoc(f: seq<bool>, b: Byte, m: nat)
    requires |f| == m <= 24
    ensures Xor(f + Zero(32 - m), Zero(m) + (b + Zero(24 - m))) == f + b + Zero(24 - m)
  {
    hide Xor;
    XorAppend(f, Zero(32 - m), Zero(m), b + Zero(24 - m));
    XorUnits(f);
    XorUnits(b + Zero(24 - m));
  }

  /** Byte i of a word. */
  function At(c: Word, i: nat): (r: Byte)
    requires i < 4
  {
    c[8 * i..8 * i + 8]
  }

  /** DOLIT4, after the word from the buffer has been added. */
  function FourTables(c: Word): (r: Word) {
    Xor(Xor(Xor(Table(3, At(c, 0)), Table(2, At(c, 1))), Table(1, At(c, 2))), Table(0, At(c, 3)))
  }

  function Only(c: Word, i: nat): (r: Word)
    requires i < 4
  {
    Zero(8 * i) + At(c, i) + Zero(24 - 8 * i)
  }

  lemma OnlyShifts(c: Word, i: nat)
    requires i < 4
    ensures Shifts(Only(c, i), 32) == Table(3 - i, At(c, i))
  {
    hide Shifts, Table;
    TableIs(3 - i, At(c, i));
    ShiftsClear(Only(c, i), 8 * i);
    assert Only(c, i)[8 * i..] + Zero(8 * i) == At(c, i) + Zero(24);
    ShiftsAdd(Only(c, i), 8 * i, 32 - 8 * i);
  }

  lemma SumOfBytes(c: Word)
    ensures Xor(Xor(Xor(Only(c, 0), Only(c, 1)), Only(c, 2)), Only(c, 3)) == c
  {
    var x, y := Xor(Only(c, 0), Only(c, 1)), Xor(Only(c, 2), Only(c, 3));
    assert forall i :: 0 <= i < 32 ==> x[i] == (i < 16 && c[i]);
    assert forall i :: 0 <= i < 32 ==> y[i] == (i >= 16 && c[i]);
    assert Xor(x, y) == c;
    XorAssociates(x, Only(c, 2), Only(c, 3));
  }

  /** Four table lookups are thirty-two steps of the register. */
  lemma FourTablesIs(c: Word)
    ensures FourTables(c) == Shifts(c, 32)
  {
    hide Shifts, Xor, Only, Table, At;
    SumOfBytes(c);
    OnlyShifts(c, 0);
    OnlyShifts(c, 1);
    OnlyShifts(c, 2);
    OnlyShifts(c, 3);
    var x := Xor(Only(c, 0), Only(c, 1));
    ShiftsLinear(Only(c, 0), Only(c, 1), 32);
    ShiftsLinear(x, Only(c, 2), 32);
    ShiftsLinear(Xor(x, Only(c, 2)), Only(c, 3), 32);
  }

  /** A word in memory, lowest byte first. */
  function Load(b0: Byte, b1: Byte, b2: Byte, b3: Byte): (r: Word) {
    var low, high: seq<bool> := b0, b1;
    var low2, high2: seq<bool> := b2, b3;
    (low + high) + (low2 + high2)
  }

  lemma FourBytes(c: Word, b: seq<Byte>, i: nat)
    requires i + 4 <= |b|
    ensures FourTables(Xor(c, Load(b[i], b[i + 1], b[i + 2], b[i + 3]))) == Run(c, b[i..i + 4])
  {
    hide Shifts, Xor, FourTables, Run;
    var q := b[i..i + 4];
    RunIsWide(c, q);
    assert q[..3] == b[i..i + 3] && q[..3][..2] == b[i..i + 2] && q[..3][..2][..1] == [b[i]];
    assert q[..1][..0] == [];
    var f1, f2, f3: seq<bool> := Flat(q[..1]), Flat(q[..2]), Flat(q[..3]);
    assert q[..2][..1] == q[..1] && q[..3][..2] == q[..2];
    assert f1 == b[i] && f2 == f1 + b[i + 1] && f3 == f2 + b[i + 2] && Flat(q) == f3 + b[i + 3];
    assert Flat(q) == Load(b[i], b[i + 1], b[i + 2], b[i + 3]);
    assert Flat(q) + Zero(0) == Flat(q);
    FourTablesIs(Xor(c, Flat(q)));
  }

  lemma RunMore(c: Word, b: seq<Byte>, i: nat, j: nat)
    requires i <= j <= |b|
    ensures Run(Run(c, b[..i]), b[i..j]) == Run(c, b[..j])
  {
    hide Run;
    RunAppend(c, b[..i], b[i..j]);
    assert b[..i] + b[i..j] == b[..j];
  }

  lemma RunOne(c: Word, b: seq<Byte>, i: nat)
    requires i < |b|
    ensures Update(Run(c, b[..i]), b[i]) == Run(c, b[..i + 1])
  {
    hide Run, Update;
    RunSnoc(c, b[..i], b[i]);
    assert b[..i] + [b[i]] == b[..i + 1];
  }

  lemma RunAll(c: Word, b: seq<Byte>)
    ensures b[..|b|] == b && Run(c, b[..0]) == c
  {
  }

  /** The loop of crc32 itself, a byte at a time. */
  method Crc32Bytes(crc: Word, buf: seq<Byte>) returns (r: Word)
    ensures r == Extend(crc, buf)
  {
    hide Run, Update, Xor, Ones;
    ghost var start := Xor(crc, Ones());
    var c, i := Xor(crc, Ones()), 0;
    RunAll(start, buf);
    while i < |buf|
      invariant i <= |buf| && c == Run(start, buf[..i])
    {
      RunOne(start, buf, i);
      c := Update(c, buf[i]);
      i := i + 1;
    }
    r := Xor(c, Ones());
  }

  /** crc32_little: single bytes up to an aligned address, then words, then the rest. */
  method Crc32Little(crc: Word, buf: seq<Byte>, address: nat) returns (r: Word)
    ensures r == Extend(crc, buf)
  {
    hide Run, Update, Xor, Ones, FourTables;
    ghost var start := Xor(crc, Ones());
    var c, i := Xor(crc, Ones()), 0;
    RunAll(start, buf);
    while i < |buf| && (address + i) % 4 != 0
      invariant i <= |buf| && c == Run(start, buf[..i])
    {
      RunOne(start, buf, i);
      c := Update(c, buf[i]);
      i := i + 1;
    }
    while |buf| - i >= 4
      invariant i <= |buf| && c == Run(start, buf[..i])
    {
      FourBytes(c, buf, i);
      RunMore(start, buf, i, i + 4);
      c := FourTables(Xor(c, Load(buf[i], buf[i + 1], buf[i + 2], buf[i + 3])));
      i := i + 4;
    }
    while i < |buf|
      invariant i <= |buf| && c == Run(start, buf[..i])
    {
      RunOne(start, buf, i);
      c := Update(c, buf[i]);
      i := i + 1;
    }
    r := Xor(c, Ones());
  }

  // ----- big-endian words

  /** ZSWAP32 */
  function Swap(c: Word): (r: Word) {
    c[24..] + c[16..24] + c[8..16] + c[..8]
  }

  lemma SwapSwap(c: Word)
    ensures Swap(Swap(c)) == c
  {
    var d := Swap(c);
    assert d[24..] == c[..8] && d[16..24] == c[8..16] && d[8..16] == c[16..24] && d[..8] == c[24..];
    assert Swap(d) == c[..8] + c[8..16] + c[16..24] + c[24..];
  }

  lemma SwapXor(a: Word, b: Word)
    ensures Swap(Xor(a, b)) == Xor(Swap(a), Swap(b))
  {
  }

  lemma SwapOnes()
    ensures Swap(Ones()) == Ones()
  {
  }

  /** crc_table[4 + k][b] */
  function SwappedTable(k: nat, b: Byte): (r: Word) {
    Swap(Table(k, b))
  }

  /** crc_table[4][(c >> 24) ^ b] ^ (c << 8) */
  function UpdateBig(c: Word, b: Byte): (r: Word) {
    Xor(SwappedTable(0, Xor(c[24..], b)), Zero(8) + c[..24])
  }

  lemma UpdateBigIs(c: Word, b: Byte)
    ensures UpdateBig(Swap(c), b) == Swap(Update(c, b))
  {
    hide Xor, TableEntry;
    var t := TableEntry(Xor(c[..8], b));
    assert Swap(c)[24..] == c[..8];
    assert Swap(c[8..] + Zero(8)) == Zero(8) + Swap(c)[..24];
    SwapXor(c[8..] + Zero(8), t);
    XorCommutes(Swap(t), Zero(8) + Swap(c)[..24]);
  }

  /** DOBIG4, after the word from the buffer has been added. */
  function FourTablesBig(c: Word): (r: Word) {
    Xor(Xor(Xor(SwappedTable(0, At(c, 0)), SwappedTable(1, At(c, 1))), SwappedTable(2, At(c, 2))),
      SwappedTable(3, At(c, 3)))
  }

  lemma FourTablesBigIs(c: Word)
    ensures FourTablesBig(Swap(c)) == Swap(FourTables(c))
  {
    hide Xor, Table, Swap, At;
    SwapBytes(c);
    var t0, t1, t2, t3 := Table(0, At(c, 3)), Table(1, At(c, 2)), Table(2, At(c, 1)), Table(3, At(c, 0));
    SwapXor(t3, t2);
    SwapXor(Xor(t3, t2), t1);
    SwapXor(Xor(Xor(t3, t2), t1), t0);
    XorReversed(Swap(t0), Swap(t1), Swap(t2), Swap(t3));
  }

  lemma SwapBytes(c: Word)
    ensures At(Swap(c), 0) == At(c, 3) && At(Swap(c), 1) == At(c, 2)
    ensures At(Swap(c), 2) == At(c, 1) && At(Swap(c), 3) == At(c, 0)
  {
  }

  lemma XorReversed(a: Word, b: Word, c: Word, d: Word)
    ensures Xor(Xor(Xor(a, b), c), d) == Xor(Xor(Xor(d, c), b), a)
  {
  }

  lemma FourBytesBig(c: Word, b: seq<Byte>, i: nat)
    requires i + 4 <= |b|
    ensures FourTablesBig(Xor(Swap(c), Load(b[i + 3], b[i + 2], b[i + 1], b[i]))) == Swap(Run(c, b[i..i + 4]))
  {
    hide Xor, FourTables, FourTablesBig, Run;
    var w: Word := Load(b[i], b[i + 1], b[i + 2], b[i + 3]);
    FourBytes(c, b, i);
    assert Swap(w) == Load(b[i + 3], b[i + 2], b[i + 1], b[i]);
    SwapXor(c, w);
    FourTablesBigIs(Xor(c, w));
  }

  /** crc32_big: the register is kept byte-swapped. */
  method Crc32Big(crc: Word, buf: seq<Byte>, address: nat) returns (r: Word)
    ensures r == Extend(crc, buf)
  {
    hide Run, Update, UpdateBig, Xor, Ones, FourTablesBig, Swap;
    ghost var start := Xor(crc, Ones());
    SwapXor(crc, Ones());
    SwapOnes();
    var c, i := Xor(Swap(crc), Ones()), 0;
    RunAll(start, buf);
    while i < |buf| && (address + i) % 4 != 0
      invariant i <= |buf| && c == Swap(Run(start, buf[..i]))
    {
      RunOne(start, buf, i);
      UpdateBigIs(Run(start, buf[..i]), buf[i]);
      c := UpdateBig(c, buf[i]);
      i := i + 1;
    }
    while |buf| - i >= 4
      invariant i <= |buf| && c == Swap(Run(start, buf[..i]))
    {
      FourBytesBig(Run(start, buf[..i]), buf, i);
      RunMore(start, buf, i, i + 4);
      c := FourTablesBig(Xor(c, Load(buf[i + 3], buf[i + 2], buf[i + 1], buf[i])));
      i := i + 4;
    }
    while i < |buf|
      invariant i <= |buf| && c == Swap(Run(start, buf[..i]))
    {
      RunOne(start, buf, i);
      UpdateBigIs(Run(start, buf[..i]), buf[i]);
      c := UpdateBig(c, buf[i]);
      i := i + 1;
    }
    ghost var end := Run(start, buf);
    SwapXor(Swap(end), Ones());
    SwapSwap(end);
    r := Swap(Xor(c, Ones()));
  }

  lemma CheckDigits(c: bv32, bs: seq<Byte>)
    ensures c == 0 && ByteNumbers(bs, true) == DIGITS ==>
      Complement(StepsAll(Complement(c), true, ByteNumbers(bs, true))) == 0xcbf4_3926
  {
    hide StepsAll, ByteNumbers, DIGITS;
    RightCheck();
  }

  /** crc32: with BYFOUR defined, by words in the order of the machine; a null buffer gives zero. */
  method Crc32(crc: Word, buf: seq<Byte>, isNull: bool, byFour: bool, littleEndian: bool, address: nat)
    returns (r: Word)
    ensures r == if isNull then Zero(32) else Extend(crc, buf)
    ensures !isNull ==>
      Number(r, true) == Complement(StepsAll(Complement(Number(crc, true)), true, ByteNumbers(buf, true)))
    ensures !isNull && Number(crc, true) == 0 && ByteNumbers(buf, true) == DIGITS ==>
      Number(r, true) == 0xcbf4_3926
  {
    hide *;
    ExtendNumber(crc, buf);
    CheckDigits(Number(crc, true), buf);
    if isNull { return Zero(32); }
    if byFour {
      if littleEndian {
        r := Crc32Little(crc, buf, address);
      } else {
        r := Crc32Big(crc, buf, address);
      }
    } else {
      r := Crc32Bytes(crc, buf);
    }
  }

  // ----- operators on the register as matrices over GF(2)

  function Unit(n: nat): (r: Word)
    requires n < 32
  {
    Zero(n) + [true] + Zero(31 - n)
  }

  /** The columns of mat picked by the bits of v from position i on, added up. */
  function Apply(mat: seq<Word>, v: Word, i: nat): (r: Word)
    requires |mat| == 32 && i <= 32
    decreases 32 - i
  {
    if i == 32 then Zero(32) else if v[i] then Xor(mat[i], Apply(mat, v, i + 1)) else Apply(mat, v, i + 1)
  }

  /** mat is the operator for k zero bits. */
  ghost predicate Represents(mat: seq<Word>, k: nat) {
    |mat| == 32 && forall n :: 0 <= n < 32 ==> mat[n] == Shifts(Unit(n), k)
  }

  lemma {:induction false} ShiftsZero(k: nat)
    ensures Shifts(Zero(32), k) == Zero(32)
    decreases k
  {
    if k > 0 {
      assert Shift(Zero(32)) == Zero(32);
      ShiftsZero(k - 1);
    }
  }

  lemma TailUnit(v: Word, i: nat)
    requires i < 32
    ensures v[i] ==> Zero(i) + v[i..] == Xor(Unit(i), Zero(i + 1) + v[i + 1..])
    ensures !v[i] ==> Zero(i) + v[i..] == Zero(i + 1) + v[i + 1..]
  {
  }

  lemma {:induction false} ApplyIsShifts(mat: seq<Word>, k: nat, v: Word, i: nat)
    requires Represents(mat, k) && i <= 32
    ensures Apply(mat, v, i) == Shifts(Zero(i) + v[i..], k)
    decreases 32 - i
  {
    hide Shifts, Xor, Unit;
    if i == 32 {
      ShiftsZero(k);
      assert Zero(32) + v[32..] == Zero(32);
    } else {
      ApplyIsShifts(mat, k, v, i + 1);
      TailUnit(v, i);
      ShiftsLinear(Unit(i), Zero(i + 1) + v[i + 1..], k);
    }
  }

  lemma ApplyZero(mat: seq<Word>, v: Word, i: nat)
    requires |mat| == 32 && i <= 32 && forall j :: i <= j < 32 ==> !v[j]
    ensures Apply(mat, v, i) == Zero(32)
    decreases 32 - i
  {
  }

  /** gf2_matrix_times: stops at the last bit set, so never reads past the matrix. */
  method MatrixTimes(mat: seq<Word>, v: Word) returns (sum: Word)
    requires |mat| == 32
    ensures sum == Apply(mat, v, 0)
  {
    hide Xor;
    sum := Zero(32);
    var vec, i := v, 0;
    XorUnits(Apply(mat, v, 0));
    while vec != Zero(32)
      invariant i <= 32 && vec == v[i..] + Zero(i)
      invariant Xor(sum, Apply(mat, v, i)) == Apply(mat, v, 0)
      decreases 32 - i
    {
      NonzeroEarly(v, i);
      if vec[0] {
        XorAssociates(sum, mat[i], Apply(mat, v, i + 1));
        sum := Xor(sum, mat[i]);
      }
      vec := Moved(vec);
      i := i + 1;
    }
    RestIsZero(v, i);
    ApplyZero(mat, v, i);
    XorUnits(sum);
  }

  lemma NonzeroEarly(v: Word, i: nat)
    requires i <= 32 && v[i..] + Zero(i) != Zero(32)
    ensures i < 32
  {
    assert v[32..] + Zero(32) == Zero(32);
  }

  lemma RestIsZero(v: Word, i: nat)
    requires i <= 32 && v[i..] + Zero(i) == Zero(32)
    ensures forall j :: i <= j < 32 ==> !v[j]
  {
    forall j | i <= j < 32 ensures !v[j] {
      assert (v[i..] + Zero(i))[j - i] == v[j];
    }
  }

  lemma SquareColumn(mat: seq<Word>, k: nat, n: nat)
    requires Represents(mat, k) && n < 32
    ensures Apply(mat, mat[n], 0) == Shifts(Unit(n), 2 * k)
  {
    hide Shifts, Apply;
    ApplyIsShifts(mat, k, mat[n], 0);
    assert Zero(0) + mat[n][0..] == mat[n];
    ShiftsAdd(Unit(n), k, k);
  }

  /** gf2_matrix_square: the operator for k zero bits becomes the one for 2k. */
  method MatrixSquare(square: array<Word>, mat: array<Word>, ghost k: nat)
    requires square != mat && square.Length == mat.Length == 32 && Represents(mat[..], k)
    modifies square
    ensures Represents(square[..], 2 * k)
  {
    hide Shifts, Apply, Unit;
    var n := 0;
    while n < 32
      invariant n <= 32 && Represents(mat[..], k)
      invariant forall j :: 0 <= j < n ==> square[j] == Shifts(Unit(j), 2 * k)
    {
      SquareColumn(mat[..], k, n);
      square[n] := MatrixTimes(mat[..], mat[n]);
      n := n + 1;
    }
  }

  lemma ShiftUnit(n: nat)
    requires n < 32
    ensures Shifts(Unit(n), 1) == if n == 0 then Poly() else Unit(n - 1)
  {
    NoShifts(Shift(Unit(n)));
    assert Shifts(Unit(n), 1) == Shift(Unit(n));
    if n == 0 {
      assert Moved(Unit(0)) == Zero(32);
      XorUnits(Poly());
    } else {
      assert Moved(Unit(n)) == Unit(n - 1);
    }
  }

  /** Half of the loop of crc32_combine_: one bit of the length is used up. */
  lemma HalfStep(crc: Word, k: nat, len: nat)
    ensures Shifts(if len % 2 == 1 then Shifts(crc, k) else crc, 2 * k * (len / 2)) == Shifts(crc, k * len)
  {
    hide Shifts;
    var h := len / 2;
    if len % 2 == 1 {
      ShiftsAdd(crc, k, 2 * k * h);
      assert k + 2 * k * h == k * len by { assert len == 2 * h + 1; TimesOdd(k, h); }
    } else {
      assert 2 * k * h == k * len by { assert len == 2 * h; TimesOdd(k, h); }
    }
  }

  lemma TimesOdd(k: nat, h: nat)
    ensures k * (2 * h) == 2 * k * h && k * (2 * h + 1) == k + 2 * k * h
  {
    assert k * (2 * h) == 2 * k * h;
  }

  method ApplyOperator(mat: array<Word>, crc: Word, ghost k: nat) returns (r: Word)
    requires mat.Length == 32 && Represents(mat[..], k)
    ensures r == Shifts(crc, k)
  {
    hide Shifts, Apply, Represents;
    ApplyIsShifts(mat[..], k, crc, 0);
    assert Zero(0) + crc[0..] == crc;
    r := MatrixTimes(mat[..], crc);
  }

  /** crc32_combine_: the checksum of a concatenation from the checksums of its parts. */
  method Crc32Combine(crc1: Word, crc2: Word, len2: int) returns (r: Word)
    ensures len2 <= 0 ==> r == crc1
    ensures len2 > 0 ==> r == Xor(Shifts(crc1, 8 * len2), crc2)
    ensures forall a: seq<Byte>, b: seq<Byte> :: crc1 == Crc(a) && crc2 == Crc(b) && len2 == |b| ==> r == Crc(a + b)
  {
    hide *;
    if len2 <= 0 {
      forall a: seq<Byte>, b: seq<Byte> | crc1 == Crc(a) && crc2 == Crc(b) && len2 == |b| ensures crc1 == Crc(a + b) {
        assert a + b == a;
      }
      return crc1;
    }
    var even, odd := new Word[32](_ => Zero(32)), new Word[32](_ => Zero(32));
    var n := 0;
    while n < 32
      invariant n <= 32 && forall j :: 0 <= j < n ==> odd[j] == Shifts(Unit(j), 1)
    {
      ShiftUnit(n);
      odd[n] := if n == 0 then Poly() else Unit(n - 1);
      n := n + 1;
    }
    OneBit(odd[..]);
    MatrixSquare(even, odd, 1);
    MatrixSquare(odd, even, 2);
    var crc, len := crc1, len2 as nat;
    ghost var k := 4;
    while len != 0
      invariant Represents(odd[..], k)
      invariant Shifts(crc, 2 * k * len) == Shifts(crc1, 8 * len2)
      decreases len
    {
      MatrixSquare(even, odd, k);
      HalfStep(crc, 2 * k, len);
      if len % 2 == 1 { crc := ApplyOperator(even, crc, 2 * k); }
      len := len / 2;
      k := 2 * k;
      if len == 0 { break; }
      MatrixSquare(odd, even, k);
      HalfStep(crc, 2 * k, len);
      if len % 2 == 1 { crc := ApplyOperator(odd, crc, 2 * k); }
      len := len / 2;
      k := 2 * k;
    }
    assert 2 * k * 0 == 0;
    NoShifts(crc);
    forall a: seq<Byte>, b: seq<Byte> | crc1 == Crc(a) && crc2 == Crc(b) && len2 == |b|
      ensures Xor(crc, crc2) == Crc(a + b)
    {
      CrcOfConcatenation(a, b);
    }
    r := Xor(crc, crc2);
  }

  lemma OneBit(mat: seq<Word>)
    requires |mat| == 32 && forall j :: 0 <= j < 32 ==> mat[j] == Shifts(Unit(j), 1)
    ensures Represents(mat, 1)
  {
  }
}
