/** GET_BITS of decompress.c: bytes enter a 32-bit word at the bottom, and a read that runs out
    of input leaves everything in place to be tried again. */
module BitReader {
  import opened Bytes
  import opened Powers
  import opened BitStrings
  import opened BitWriter

  /** The low live bits of the word are pend; what is above them has been read already. */
  ghost predicate Fetched(buf: int, live: int, pend: int) {
    0 <= live <= 32 && 0 <= pend < Pow2(live) && 0 <= buf && exists h: nat :: buf == h * Pow2(live) + pend
  }

  /** Reading n bits off the top of the live ones. */
  lemma SplitFetched(buf: int, live: int, pend: int, n: nat) returns (q: int, r: int)
    requires Fetched(buf, live, pend) && n <= live
    ensures Fetched(buf, live - n, r) && 0 <= r < Pow2(live - n)
    ensures 0 <= q < Pow2(n) && buf / Pow2(live - n) % Pow2(n) == q
    ensures ToBits(live, pend) == ToBits(n, q) + ToBits(live - n, r)
  {
    hide Pow2, ToBits;
    var h: nat :| buf == h * Pow2(live) + pend;
    var k, m := live - n, Pow2(live - n);
    q, r := pend / m, pend % m;
    Pow2Add(n, k);
    HighLow(pend, q, r, Pow2(n), m);
    ToBitsSplit(n, k, q, r);
    ShiftArithmetic(h, q, r, Pow2(n), m);
    DivModUnique(buf, h * Pow2(n) + q, r, m);
    DivModUnique(h * Pow2(n) + q, h, q, Pow2(n));
    assert h * Pow2(n) + q >= 0;
  }

  lemma HighLow(x: int, q: int, r: int, a: int, m: int)
    requires 0 <= x < a * m && m > 0 && q == x / m && r == x % m
    ensures x == q * m + r && 0 <= r < m && 0 <= q < a
  {
    if q >= a { MulMonotone(a, q, m); }
    if q < 0 { MulMonotone(q, -1, m); }
  }

  lemma ShiftArithmetic(h: int, q: int, r: int, a: int, m: int)
    ensures h * (a * m) + (q * m + r) == (h * a + q) * m + r
  {
    assert h * (a * m) == h * a * m;
  }

  /** A byte enters the word, whose top byte is lost. */
  lemma FetchByte(buf: int, live: int, pend: int, z: int)
    requires Fetched(buf, live, pend) && live <= 24 && 0 <= z < 256
    ensures Pow2(8) == 256
    ensures Fetched((buf * 256 + z) % 0x1_0000_0000, live + 8, pend * 256 + z)
    ensures ToBits(live + 8, pend * 256 + z) == ToBits(live, pend) + ToBits(8, z)
  {
    hide Pow2, ToBits;
    Pow8();
    Pow2432();
    ToBitsSplit(live, 8, pend, z);
    Pow2Add(live, 8);
    Pow2Add(24 - live, live + 8);
    var h: nat :| buf == h * Pow2(live) + pend;
    var w, c := Pow2(live + 8), Pow2(24 - live);
    assert buf * 256 + z ==
      h * w + (pend * 256 + z) by { ShiftArithmetic(h, pend, 0, Pow2(live), 256); Widen(h, Pow2(live), pend, z); }
    var x := buf * 256 + z;
    var q, r := x / (c * w), x % (c * w);
    KeepLow(h, w, pend * 256 + z, c, q, r);
  }

  lemma Widen(h: int, p: int, pend: int, z: int)
    ensures (h * p + pend) * 256 + z == h * (p * 256) + (pend * 256 + z)
  {
    assert h * p * 256 == h * (p * 256);
  }

  /** Dropping multiples of c * w keeps the remainder modulo w. */
  lemma KeepLow(h: nat, w: int, low: int, c: int, q: int, r: int)
    requires w > 0 && c > 0 && 0 <= low < w && q == (h * w + low) / (c * w) && r == (h * w + low) % (c * w)
    ensures 0 <= r && exists g: nat :: r == g * w + low
  {
    assert c * w > 0;
    var g := h - q * c;
    assert h * w + low == q * (c * w) + r;
    assert q * (c * w) == (q * c) * w;
    assert r == (h - q * c) * w + low;
    if g < 0 { MulMonotone(g, -1, w); }
  }

  lemma Regroup(a: seq<bool>, b: seq<bool>, c: seq<bool>)
    ensures a + b + c == a + (b + c)
  {
  }

  class Reader {
    var bsBuff: int
    var bsLive: int
    var input: seq<int>
    var nextIn: nat
    ghost var pend: int

    ghost predicate Valid()
      reads this
    {
      Fetched(bsBuff, bsLive, pend) && nextIn <= |input| && IsBytes(input[nextIn..])
    }

    /** The bits still to be read. */
    ghost function Unread(): (r: seq<bool>)
      requires Valid()
      reads this
    {
      ToBits(bsLive, pend) + ByteBits(input[nextIn..])
    }

    constructor (input: seq<int>)
      requires IsBytes(input)
      ensures Valid() && Unread() == ByteBits(input)
    {
      bsBuff, bsLive, pend := 0, 0, 0;
      this.input, nextIn := input, 0;
      new;
      assert 0 == 0 * Pow2(0) + 0;
      assert this.input[0..] == input;
      assert ToBits(0, 0) + ByteBits(input) == ByteBits(input);
    }

    /** The caller supplies more input. */
    method Supply(more: seq<int>)
      requires Valid() && IsBytes(more)
      modifies this
      ensures Valid() && Unread() == old(Unread()) + ByteBits(more)
    {
      hide Fetched, ToBits, ByteBits;
      LiveBits(this);
      ByteBitsAppend(input[nextIn..], more);
      input := input + more;
      assert input[nextIn..] == old(input)[nextIn..] + more;
      assert ToBits(bsLive, pend) + (ByteBits(old(input)[nextIn..]) + ByteBits(more)) == old(Unread()) + ByteBits(more);
    }

    /** One byte from the input into the word. */
    method Fetch()
      requires Valid() && bsLive <= 24 && nextIn < |input|
      modifies this
      ensures Valid() && Unread() == old(Unread()) && bsLive == old(bsLive) + 8 && nextIn == old(nextIn) + 1
      ensures input == old(input)
    {
      hide Fetched, ToBits, ByteBits, Pow2, IsBytes;
      LiveBits(this);
      HeadByte(input, nextIn);
      FetchByte(bsBuff, bsLive, pend, input[nextIn]);
      ghost var z, rest := ToBits(8, input[nextIn]), ByteBits(input[nextIn + 1..]);
      assert ToBits(bsLive, pend) + z + rest == ToBits(bsLive, pend) + (z + rest);
      pend := pend * 256 + input[nextIn];
      bsBuff := (bsBuff * 256 + input[nextIn]) % 0x1_0000_0000;
      bsLive := bsLive + 8;
      nextIn := nextIn + 1;
    }

    /** GET_BITS: the next n bits, or all input taken in and nothing lost. */
    method Get(n: nat) returns (ok: bool, v: int)
      requires Valid() && n <= 24
      modifies this
      ensures Valid() && input == old(input)
      ensures match GetBits(old(Unread()), n)
              case Done(value, rest) => ok && v == value && Unread() == rest
              case NeedInput => !ok && Unread() == old(Unread()) && nextIn == |input|
              case Bad => false
    {
      hide Fetched, ToBits, ByteBits, Pow2, IsBytes, FromBits;
      v := 0;
      LiveBits(this);
      while true
        invariant Valid() && input == old(input) && Unread() == old(Unread()) && bsLive <= 32
        decreases |input| - nextIn
      {
        LiveBits(this);
        if bsLive >= n {
          ghost var q, r := SplitFetched(bsBuff, bsLive, pend, n);
          ghost var tail := ByteBits(input[nextIn..]);
          Regroup(ToBits(n, q), ToBits(bsLive - n, r), tail);
          GetPut(n, q, ToBits(bsLive - n, r) + tail);
          v := bsBuff / Pow2(bsLive - n) % Pow2(n);
          bsLive := bsLive - n;
          pend := r;
          ok := true;
          return;
        }
        if nextIn == |input| { ok := false; break; }
        Fetch();
      }
    }
  }

  lemma LiveBits(r: Reader)
    requires r.Valid()
    ensures 0 <= r.bsLive <= 32 && 0 <= r.pend < Pow2(r.bsLive)
    ensures |r.Unread()| == r.bsLive + 8 * (|r.input| - r.nextIn)
  {
  }

  lemma HeadByte(input: seq<int>, i: nat)
    requires i < |input| && IsBytes(input[i..])
    ensures 0 <= input[i] < 256 && Pow2(8) == 256 && IsBytes(input[i + 1..])
    ensures ByteBits(input[i..]) == ToBits(8, input[i]) + ByteBits(input[i + 1..])
  {
    var tail := input[i..];
    assert tail[0] == input[i] && tail == [tail[0]] + tail[1..] && tail[1..] == input[i + 1..];
    Pow8();
    ByteBitsAppend([tail[0]], tail[1..]);
    ByteBitsSnoc([], tail[0]);
    assert [] + [tail[0]] == [tail[0]];
    assert ByteBits([]) + ToBits(8, tail[0]) == ToBits(8, tail[0]);
  }
}
