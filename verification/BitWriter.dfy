/** The bit buffer of compress.c: bits gather at the top of a 32-bit word and leave as bytes. */
module BitWriter {
  import opened Bytes
  import opened Powers
  import opened BitStrings

  lemma Pow8()
    ensures Pow2(8) == 256
  {
  }

  /** The bits of a byte string. */
  function ByteBits(zs: seq<int>): (r: seq<bool>)
    requires IsBytes(zs)
    ensures |r| == 8 * |zs|
  {
    if zs == [] then []
    else
      Pow8();
      ByteBits(zs[..|zs| - 1]) + ToBits(8, zs[|zs| - 1])
  }

  lemma ByteBitsSnoc(zs: seq<int>, z: int)
    requires IsBytes(zs) && 0 <= z < 256
    ensures IsBytes(zs + [z]) && z < Pow2(8) && ByteBits(zs + [z]) == ByteBits(zs) + ToBits(8, z)
  {
    Pow8();
    assert (zs + [z])[..|zs|] == zs;
  }

  lemma {:induction false} ByteBitsAppend(a: seq<int>, b: seq<int>)
    requires IsBytes(a) && IsBytes(b)
    ensures IsBytes(a + b) && ByteBits(a + b) == ByteBits(a) + ByteBits(b)
    decreases |b|
  {
    hide ByteBits, ToBits, Pow2;
    if b == [] {
      assert a + b == a;
      assert ByteBits(b) == [];
    } else {
      var c, z := b[..|b| - 1], b[|b| - 1];
      ByteBitsAppend(a, c);
      assert a + b == (a + c) + [z] && b == c + [z];
      ByteBitsSnoc(a + c, z);
      ByteBitsSnoc(c, z);
      assert ByteBits(a) + ByteBits(c) + ToBits(8, z) == ByteBits(a) + (ByteBits(c) + ToBits(8, z));
    }
  }

  lemma DivModUnique(x: int, q: int, r: int, m: int)
    requires m > 0 && x == q * m + r && 0 <= r < m
    ensures x / m == q && x % m == r
  {
    var q', r' := x / m, x % m;
    assert x == q' * m + r';
    if q' > q { MulMonotone(q + 1, q', m); }
    if q' < q { MulMonotone(q' + 1, q, m); }
  }

  lemma Pow2432()
    ensures Pow2(24) == 0x100_0000 && Pow2(32) == 0x1_0000_0000
  {
    assert Pow2(8) == 256;
    Pow2Add(8, 8);
    Pow2Add(16, 8);
    Pow2Add(16, 16);
  }

  /** The word holds the live bits of pend at its top, zeros below. */
  ghost predicate Loaded(buf: int, live: int, pend: int) {
    0 <= live <= 32 && 0 <= pend < Pow2(live) && buf == pend * Pow2(32 - live)
  }

  /** Taking the top byte off the word. */
  lemma DrainByte(buf: int, live: int, pend: int) returns (hi: int, lo: int)
    requires Loaded(buf, live, pend) && live >= 8
    ensures 0 <= hi < 256 && hi == buf / 0x100_0000
    ensures Loaded(buf * 256 % 0x1_0000_0000, live - 8, lo)
    ensures Pow2(8) == 256 && ToBits(live, pend) == ToBits(8, hi) + ToBits(live - 8, lo)
  {
    hide Pow2, ToBits;
    var k, w := live - 8, Pow2(32 - live);
    hi, lo := pend / Pow2(k), pend % Pow2(k);
    Pow8();
    SplitPending(k, pend, hi, lo);
    ToBitsSplit(8, k, hi, lo);
    Pow2Add(k, 32 - live);
    Pow2Add(8, 32 - live);
    Pow2432();
    DrainArithmetic(hi, lo, Pow2(k), w);
    DivModUnique(buf, hi, lo * w, 0x100_0000);
    DivModUnique(buf * 256, hi, lo * w * 256, 0x1_0000_0000);
    assert lo * w * 256 == lo * (256 * w);
  }

  lemma SplitPending(k: nat, pend: int, hi: int, lo: int)
    requires 0 <= pend < Pow2(k + 8) && hi == pend / Pow2(k) && lo == pend % Pow2(k)
    ensures pend == hi * Pow2(k) + lo && 0 <= lo < Pow2(k) && 0 <= hi < 256
  {
    Pow2Add(k, 8);
    Pow8();
    if hi >= 256 { MulMonotone(256, hi, Pow2(k)); }
    if hi < 0 { MulMonotone(hi, -1, Pow2(k)); }
  }

  lemma DrainArithmetic(hi: int, lo: int, p: int, w: int)
    requires p * w == 0x100_0000 && 0 <= lo < p && w >= 1
    ensures (hi * p + lo) * w == hi * 0x100_0000 + lo * w
    ensures 0 <= lo * w < 0x100_0000
  {
    assert (hi * p + lo) * w == hi * (p * w) + lo * w;
    MulMonotone(lo + 1, p, w);
    assert (lo + 1) * w == lo * w + w;
  }

  lemma LoadArithmetic(pend: int, a: int, b: int, v: int)
    ensures (pend * a + v) * b == pend * (a * b) + v * b
  {
    assert pend * a * b == pend * (a * b);
  }

  /** Putting n more bits below the live ones. */
  lemma LoadBits(buf: int, live: int, pend: int, n: nat, v: nat)
    requires Loaded(buf, live, pend) && live + n <= 32 && v < Pow2(n)
    ensures 0 <= pend < Pow2(live) && Loaded(buf + v * Pow2(32 - live - n), live + n, pend * Pow2(n) + v)
    ensures ToBits(live + n, pend * Pow2(n) + v) == ToBits(live, pend) + ToBits(n, v)
  {
    hide Pow2, ToBits;
    ToBitsSplit(live, n, pend, v);
    Pow2Add(n, 32 - live - n);
    LoadArithmetic(pend, Pow2(n), Pow2(32 - live - n), v);
  }

  function Zeros(k: nat): (r: seq<bool>)
    ensures |r| == k
  {
    seq(k, _ => false)
  }

  lemma {:induction false} ZeroBits(k: nat)
    ensures ToBits(k, 0) == Zeros(k)
  {
    if k > 0 { ZeroBits(k - 1); }
  }

  /** Live bits, if any: after the last byte the source's count can be below zero. */
  function Live(bsLive: int): (r: nat) { if bsLive < 0 then 0 else bsLive }

  /** Zero bits missing from the last byte. */
  function Missing(bsLive: int): (r: nat) { if 0 < bsLive < 8 then 8 - bsLive else 0 }

  /** One byte leaves the word; missing bits of the last byte count as zeros. */
  lemma TakeByte(zbits: seq<int>, buf: int, live: int, pend: int) returns (lo: int)
    requires IsBytes(zbits) && Loaded(buf, live, pend) && live > 0
    ensures 0 <= buf / 0x100_0000 < 256 && IsBytes(zbits + [buf / 0x100_0000])
    ensures Loaded(buf * 256 % 0x1_0000_0000, Live(live - 8), lo)
    ensures ByteBits(zbits + [buf / 0x100_0000]) + ToBits(Live(live - 8), lo) ==
            ByteBits(zbits) + ToBits(live, pend) + Zeros(Missing(live))
  {
    var hi;
    if live >= 8 {
      hi, lo := DrainByte(buf, live, pend);
    } else {
      var k := 8 - live;
      LoadBits(buf, live, pend, k, 0);
      ZeroBits(k);
      hi, lo := DrainByte(buf, 8, pend * Pow2(k) + 0);
    }
    ByteBitsSnoc(zbits, hi);
    TakenBits(ByteBits(zbits), ToBits(8, hi), ToBits(Live(live - 8), lo), ToBits(live, pend), Zeros(Missing(live)));
  }

  lemma TakenBits(a: seq<bool>, b: seq<bool>, c: seq<bool>, d: seq<bool>, e: seq<bool>)
    requires b + c == d + e
    ensures a + b + c == a + d + e
  {
    assert a + b + c == a + (b + c);
    assert a + d + e == a + (d + e);
  }

  class Writer {
    var zbits: seq<int>
    var bsBuff: int
    var bsLive: int
    ghost var pend: int

    ghost predicate Valid()
      reads this
    {
      IsBytes(zbits) && -8 < bsLive <= 32 && Loaded(bsBuff, Live(bsLive), pend)
    }

    /** Every bit written since zbits was last emptied, after the bits then still in the word. */
    ghost function Bits(): (r: seq<bool>)
      requires Valid()
      reads this
    {
      ByteBits(zbits) + ToBits(Live(bsLive), pend)
    }

    /** BZ2_bsInitWrite */
    constructor ()
      ensures Valid() && Bits() == [] && zbits == [] && bsLive == 0
    {
      zbits, bsBuff, bsLive, pend := [], 0, 0, 0;
    }

    /** numZ = 0, once zbits has been handed over: bits still in the word stay. */
    method Empty()
      requires Valid()
      modifies this`zbits
      ensures Valid() && zbits == [] && Bits() == old(Bits())[8 * |old(zbits)|..]
    {
      hide ToBits, Pow2;
      zbits := [];
      assert ByteBits(zbits) == [];
    }

    /** BZ2_bsInitWrite, with nothing written yet. */
    method Init()
      requires Valid() && Bits() == []
      modifies this
      ensures Valid() && Bits() == [] && zbits == [] && bsLive == 0
    {
      NothingWritten(this);
      bsBuff, bsLive, pend := 0, 0, 0;
    }

    /** zbits[numZ] = bsBuff >> 24; numZ++; bsBuff <<= 8; bsLive -= 8 */
    method PutByte()
      requires Valid() && bsLive > 0
      modifies this
      ensures Valid() && Bits() == old(Bits()) + Zeros(Missing(old(bsLive))) && bsLive == old(bsLive) - 8
      ensures old(zbits) <= zbits
    {
      ghost var lo := TakeByte(zbits, bsBuff, bsLive, pend);
      hide Loaded, ToBits, ByteBits, Pow2;
      zbits := zbits + [bsBuff / 0x100_0000];
      bsBuff := bsBuff * 256 % 0x1_0000_0000;
      bsLive := bsLive - 8;
      pend := lo;
    }

    /** bsW: n bits of v. */
    method W(n: nat, v: nat)
      requires Valid() && n <= 24 && v < Pow2(n) && 0 <= bsLive
      modifies this
      ensures Valid() && 0 <= bsLive && Bits() == old(Bits()) + ToBits(n, v)
      ensures old(zbits) <= zbits
    {
      hide Loaded, ToBits, ByteBits, Pow2, IsBytes;
      while bsLive >= 8
        invariant Valid() && Bits() == old(Bits()) && old(zbits) <= zbits && 0 <= bsLive
      {
        PutByte();
        assert Bits() + [] == Bits();
      }
      LoadBits(bsBuff, bsLive, pend, n, v);
      assert ByteBits(zbits) + (ToBits(bsLive, pend) + ToBits(n, v)) == Bits() + ToBits(n, v);
      bsBuff := bsBuff + v * Pow2(32 - bsLive - n);
      pend := pend * Pow2(n) + v;
      bsLive := bsLive + n;
    }

    /** bsFinishWrite: the last byte is filled up with zeros. */
    method Finish() returns (ghost pad: nat)
      requires Valid() && 0 <= bsLive
      modifies this
      ensures Valid() && pad < 8 && Bits() == ByteBits(zbits) == old(Bits()) + Zeros(pad)
      ensures old(zbits) <= zbits
    {
      hide Loaded, ToBits, ByteBits, Pow2, IsBytes;
      pad := 0;
      assert Bits() == old(Bits()) + Zeros(0);
      while bsLive > 0
        invariant Valid() && old(zbits) <= zbits && pad < 8 && Bits() == old(Bits()) + Zeros(pad)
        invariant pad > 0 ==> bsLive <= 0
      {
        pad := Missing(bsLive);
        PutByte();
        assert old(Bits()) + Zeros(0) + Zeros(pad) == old(Bits()) + Zeros(pad);
      }
      OnlyBytes(this);
    }
  }

  lemma NothingWritten(w: Writer)
    requires w.Valid() && w.Bits() == []
    ensures w.zbits == []
  {
    hide Loaded, ToBits;
    assert |w.Bits()| >= 8 * |w.zbits|;
  }

  lemma OnlyBytes(w: Writer)
    requires w.Valid() && w.bsLive <= 0
    ensures w.Bits() == ByteBits(w.zbits)
  {
  }
}
