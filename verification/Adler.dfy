/** adler32.c: the checksum of section 8.2 of RFC 1950, its deferred reductions and
    adler32_combine. */
module Adler {
  import opened Bytes
  import opened Powers

  const BASE: int := 65521
  const NMAX: int := 5552

  /** The two sums, each in range. */
  datatype Sums = Sums(low: int, high: int)

  predicate Reduced(s: Sums) {
    0 <= s.low < 65521 && 0 <= s.high < 65521
  }

  /** The halves of any 32-bit word, in range or not. */
  predicate Halves(s: Sums) {
    0 <= s.low < 65536 && 0 <= s.high < 65536
  }

  function Split(adler: nat): (s: Sums)
    ensures Halves(s)
  {
    Sums(adler % 65536, adler / 65536 % 65536)
  }

  /** One byte, reducing at once. */
  function Add(s: Sums, b: int): (r: Sums)
    ensures Reduced(r)
  {
    var low := (s.low + b) % 65521;
    Sums(low, (s.high + low) % 65521)
  }

  function Packed(s: Sums): (r: int)
    requires Reduced(s)
    ensures 0 <= r < 0x1_0000_0000 && r % 65536 == s.low && r / 65536 == s.high
  {
    s.low + s.high * 65536
  }

  function Mod(s: Sums): (r: Sums)
    ensures Reduced(r)
  {
    Sums(s.low % 65521, s.high % 65521)
  }

  /** The definition: byte by byte. */
  function AddAll(s: Sums, bs: seq<int>): (r: Sums)
    requires Reduced(s)
    ensures Reduced(r)
  {
    if bs == [] then s else Add(AddAll(s, bs[..|bs| - 1]), bs[|bs| - 1])
  }

  function Start(): (r: Sums)
    ensures Reduced(r)
  {
    Sums(1, 0)
  }

  function Checksum(bs: seq<int>): (r: int) {
    Packed(AddAll(Start(), bs))
  }

  lemma NextDigit(bs: seq<int>, k: nat, low: nat, high: nat)
    requires k < 9 == |bs| && bs[k] == 0x31 + k && low < 1000 && high < 10000
    requires AddAll(Start(), bs[..k]) == Sums(low, high)
    ensures AddAll(Start(), bs[..k + 1]) == Sums(low + 0x31 + k, high + low + 0x31 + k)
  {
    assert bs[..k + 1][..k] == bs[..k];
  }

  lemma NoDigits(bs: seq<int>)
    requires |bs| == 9
    ensures AddAll(Start(), bs[..0]) == Sums(1, 0)
    ensures AddAll(Start(), bs[..9]) == Sums(478, 2334) ==> Checksum(bs) == 0x091e_01de
  {
    hide Add;
    assert bs[..9] == bs;
  }

  /** The checksum of the nine digits "123456789". */
  lemma CheckValue(bs: seq<int>)
    requires |bs| == 9 && forall k: nat :: k < 9 ==> bs[k] == 0x31 + k
    ensures Checksum(bs) == 0x091e_01de
  {
    hide *;
    NoDigits(bs);
    NextDigit(bs, 0, 1, 0);
    NextDigit(bs, 1, 50, 50);
    NextDigit(bs, 2, 100, 150);
    NextDigit(bs, 3, 151, 301);
    NextDigit(bs, 4, 203, 504);
    NextDigit(bs, 5, 256, 760);
    NextDigit(bs, 6, 310, 1070);
    NextDigit(bs, 7, 365, 1435);
    NextDigit(bs, 8, 421, 1856);
  }

  /** The sums without any reduction. */
  function Raw(s: Sums, bs: seq<int>): (r: Sums) {
    if bs == [] then s
    else
      var t := Raw(s, bs[..|bs| - 1]);
      Sums(t.low + bs[|bs| - 1], t.high + (t.low + bs[|bs| - 1]))
  }

  /** Reducing once at the end is enough. */
  lemma {:induction false} RawReduces(s: Sums, t: Sums, bs: seq<int>)
    requires Reduced(s) && Mod(t) == s
    ensures Mod(Raw(t, bs)) == AddAll(s, bs)
    decreases |bs|
  {
    if bs != [] {
      RawReduces(s, t, bs[..|bs| - 1]);
      AddReduces(Raw(t, bs[..|bs| - 1]), bs[|bs| - 1]);
    }
  }

  lemma AddReduces(t: Sums, b: int)
    ensures Add(Mod(t), b) == Mod(Sums(t.low + b, t.high + (t.low + b)))
  {
    var low := t.low % 65521 + b;
    SameRemainder(t.low + b, low, t.low / 65521);
    SameRemainder(t.high + (t.low + b), t.high % 65521 + low % 65521,
                  t.high / 65521 + t.low / 65521 + low / 65521);
  }

  lemma RawSnoc(s: Sums, bs: seq<int>, i: nat)
    requires i < |bs|
    ensures var t := Raw(s, bs[..i]); Raw(s, bs[..i + 1]) == Sums(t.low + bs[i], t.high + (t.low + bs[i]))
  {
    assert bs[..i + 1][..i] == bs[..i];
  }

  lemma {:induction false} AddAllAppend(s: Sums, a: seq<int>, b: seq<int>)
    requires Reduced(s)
    ensures AddAll(s, a + b) == AddAll(AddAll(s, a), b)
    decreases |b|
  {
    if b == [] {
      assert a + b == a;
    } else {
      AddAllAppend(s, a, b[..|b| - 1]);
      assert (a + b)[..|a + b| - 1] == a + b[..|b| - 1];
    }
  }

  /** How far n bytes can raise the sums. */
  lemma {:induction false} RawBound(s: Sums, bs: seq<int>)
    requires Halves(s) && IsBytes(bs)
    ensures 0 <= Raw(s, bs).low <= 65535 + 255 * |bs|
    ensures 0 <= 2 * Raw(s, bs).high <= 2 * 65535 * (|bs| + 1) + 255 * (|bs| * (|bs| + 1))
    decreases |bs|
  {
    if bs != [] {
      var n := |bs| - 1;
      RawBound(s, bs[..n]);
      BoundStep(n, Raw(s, bs[..n]).low, Raw(s, bs[..n]).high, bs[n]);
    }
  }

  lemma BoundStep(n: nat, low: int, high: int, b: int)
    requires 0 <= low <= 65535 + 255 * n && 0 <= b < 256
    requires 0 <= 2 * high <= 2 * 65535 * (n + 1) + 255 * (n * (n + 1))
    ensures 2 * (high + (low + b)) <= 2 * 65535 * (n + 2) + 255 * ((n + 1) * (n + 2))
  {
    assert (n + 1) * (n + 2) == n * (n + 1) + 2 * (n + 1);
  }

  lemma SquareMonotone(n: nat, m: nat)
    requires n <= m
    ensures n * (n + 1) <= m * (m + 1)
  {
    MulMonotone(n, m, n + 1);
    MulMonotone(n + 1, m + 1, m);
    assert (n + 1) * m == m * (n + 1);
    assert n * (n + 1) <= m * (n + 1) && (n + 1) * m <= (m + 1) * m;
  }

  /** NMAX bytes cannot carry a 32-bit sum past its range. */
  lemma NoOverflow(s: Sums, bs: seq<int>)
    requires Halves(s) && IsBytes(bs) && |bs| <= 5552
    ensures 0 <= Raw(s, bs).low <= Raw(s, bs).low + 255 < 0x1_0000_0000 && 0 <= Raw(s, bs).high < 0x1_0000_0000
  {
    hide Raw;
    RawBound(s, bs);
    SquareMonotone(|bs|, 5552);
  }

  /** One more byte than NMAX can: the bound in the source is the largest. */
  lemma NMaxIsLargest()
    ensures exists s: Sums, bs: seq<int> ::
      Reduced(s) && IsBytes(bs) && |bs| == 5553 && Raw(s, bs).high >= 0x1_0000_0000
  {
    var bs := seq(5553, _ => 255);
    var s := Sums(65520, 65520);
    RawFull(s, bs);
    assert Reduced(s) && IsBytes(bs) && |bs| == 5553 && Raw(s, bs).high >= 0x1_0000_0000;
  }

  lemma {:induction false} RawFull(s: Sums, bs: seq<int>)
    requires s == Sums(65520, 65520) && forall i :: 0 <= i < |bs| ==> bs[i] == 255
    ensures Raw(s, bs).low == 65520 + 255 * |bs|
    ensures 2 * Raw(s, bs).high == 2 * 65520 * (|bs| + 1) + 255 * (|bs| * (|bs| + 1))
    decreases |bs|
  {
    if bs != [] {
      var n := |bs| - 1;
      RawFull(s, bs[..n]);
      assert (n + 1) * (n + 2) == n * (n + 1) + 2 * (n + 1);
    }
  }

  /** Addition of 32-bit words. */
  function Plus32(x: int, y: int): (r: int) {
    (x + y) % 0x1_0000_0000
  }

  /** DO1, as often as there are bytes, in 32-bit words. */
  method Accumulate(low: int, high: int, bs: seq<int>) returns (low': int, high': int)
    requires Halves(Sums(low, high)) && IsBytes(bs) && |bs| <= 5552
    ensures Sums(low', high') == Raw(Sums(low, high), bs)
  {
    hide Raw;
    ghost var s := Sums(low, high);
    low', high' := low, high;
    var i := 0;
    RawNone(s, bs);
    while i < |bs|
      invariant i <= |bs| && Sums(low', high') == Raw(s, bs[..i])
    {
      RawSnoc(s, bs, i);
      NoOverflow(s, bs[..i]);
      NoOverflow(s, bs[..i + 1]);
      low' := Plus32(low', bs[i]);
      high' := Plus32(high', low');
      i := i + 1;
    }
  }

  lemma RawNone(s: Sums, bs: seq<int>)
    ensures Raw(s, bs[..0]) == s && bs[..|bs|] == bs
  {
  }

  lemma AddAllNone(s: Sums, bs: seq<int>)
    requires Reduced(s)
    ensures AddAll(s, bs[..0]) == s && bs[..|bs|] == bs
  {
  }

  /** Sums in range are their own remainders. */
  lemma ReducedMod(s: Sums)
    requires Reduced(s)
    ensures Mod(s) == s && Halves(s)
  {
  }

  /** From one multiple of NMAX bytes to the next. */
  lemma {:induction false} NextPart(s: Sums, t: Sums, bs: seq<int>, i: nat, j: nat)
    requires Reduced(s) && i <= j <= |bs| && Mod(t) == AddAll(s, bs[..i])
    ensures Mod(Raw(t, bs[i..j])) == AddAll(s, bs[..j])
  {
    hide *;
    RawReduces(Mod(t), t, bs[i..j]);
    AddAllAppend(s, bs[..i], bs[i..j]);
    assert bs[..i] + bs[i..j] == bs[..j];
  }

  /** One subtraction reduces a sum below twice the base. */
  lemma OneSubtraction(x: int, y: int)
    requires 0 <= x < 2 * 65521 && y == if x >= 65521 then x - 65521 else x
    ensures y == x % 65521
  {
  }

  /** The single-byte case: no division. One subtraction brings the first sum into range, and the
      second one exactly when it was below twice the base. */
  method AddByte(low0: int, high0: int, b: int) returns (low: int, high: int)
    requires Halves(Sums(low0, high0)) && 0 <= b < 256
    ensures Halves(Sums(low, high)) && Mod(Sums(low, high)) == AddAll(Mod(Sums(low0, high0)), [b])
    ensures low == AddAll(Mod(Sums(low0, high0)), [b]).low
    ensures Reduced(Sums(low, high)) <==> high0 + low < 2 * BASE
  {
    hide AddAll;
    OneByte(Mod(Sums(low0, high0)), b);
    AddReduces(Sums(low0, high0), b);
    low := low0 + b;
    ghost var x := low;
    if low >= BASE { low := low - BASE; }
    OneSubtraction(x, low);
    high := high0 + low;
    ghost var y := high;
    if high >= BASE { high := high - BASE; }
    SameRemainder(y, high, if y >= BASE then 1 else 0);
    SameRemainder(high0 + x, y, if x >= BASE then 1 else 0);
  }

  lemma OneByte(s: Sums, b: int)
    requires Reduced(s)
    ensures AddAll(s, [b]) == Add(s, b)
  {
    assert [b][..0] == [];
    assert AddAll(s, []) == s;
  }

  /** Fewer than sixteen bytes: one division. */
  method AddFew(low0: int, high0: int, buf: seq<int>) returns (low: int, high: int)
    requires Halves(Sums(low0, high0)) && IsBytes(buf) && |buf| < 16
    ensures Sums(low, high) == AddAll(Mod(Sums(low0, high0)), buf)
  {
    hide AddAll, Raw;
    ghost var s := Sums(low0, high0);
    RawReduces(Mod(s), s, buf);
    FewBytes(s, buf);
    low, high := Accumulate(low0, high0, buf);
    ModParts(low, high);
    ghost var x := low;
    if low >= BASE { low := low - BASE; }
    OneSubtraction(x, low);
    high := high % BASE;
  }

  lemma FewBytes(s: Sums, bs: seq<int>)
    requires Halves(s) && IsBytes(bs) && |bs| < 16
    ensures 0 <= Raw(s, bs).low < 2 * 65521
  {
    hide Raw;
    RawBound(s, bs);
  }

  /** At least one byte: one division for every NMAX of them, and one for what is left. */
  method AddMany(low0: int, high0: int, buf: seq<int>) returns (low: int, high: int)
    requires Halves(Sums(low0, high0)) && IsBytes(buf) && buf != []
    ensures Sums(low, high) == AddAll(Mod(Sums(low0, high0)), buf)
  {
    hide AddAll, Raw, Mod, Reduced, Halves;
    ghost var s := Mod(Sums(low0, high0));
    low, high := low0, high0;
    AddAllNone(s, buf);
    var i := 0;
    while |buf| - i >= NMAX
      invariant 0 <= i <= |buf| && Mod(Sums(low, high)) == AddAll(s, buf[..i])
      invariant Halves(Sums(low, high)) && (i > 0 ==> Reduced(Sums(low, high)))
    {
      NextPart(s, Sums(low, high), buf, i, i + NMAX);
      low, high := Accumulate(low, high, buf[i..i + NMAX]);
      low, high := DivideBoth(low, high);
      i := i + NMAX;
    }
    if i < |buf| {
      NextPart(s, Sums(low, high), buf, i, |buf|);
      low, high := Accumulate(low, high, buf[i..|buf|]);
      low, high := DivideBoth(low, high);
    }
    ReducedMod(Sums(low, high));
  }

  /** MOD on both sums. */
  method DivideBoth(low0: int, high0: int) returns (low: int, high: int)
    ensures Sums(low, high) == Mod(Sums(low0, high0)) == Mod(Sums(low, high))
    ensures Reduced(Sums(low, high)) && Halves(Sums(low, high))
  {
    low, high := low0 % BASE, high0 % BASE;
  }

  /** adler32 on a checksum so far, which may be any 32-bit word. With a null buffer only the length
      counts, which must not be one. */
  method Adler32(adler: nat, buf: seq<int>, isNull: bool) returns (r: nat)
    requires IsBytes(buf) && (isNull ==> |buf| != 1)
    ensures isNull ==> r == Checksum([])
    ensures !isNull && |buf| != 1 ==> r == Packed(AddAll(Mod(Split(adler)), buf))
    ensures !isNull && |buf| == 1 ==>
      var sums := AddAll(Mod(Split(adler)), buf);
      && r < 0x1_0000_0000 && Mod(Split(r)) == sums && Split(r).low == sums.low
      && (r == Packed(sums) <==> Split(adler).high + sums.low < 2 * BASE)
  {
    hide AddAll, Reduced, IsBytes, Mod;
    var low, high := adler % 65536, adler / 65536 % 65536;
    if |buf| == 1 {
      assert buf == [buf[0]];
      ByteAt(buf, 0);
      low, high := AddByte(low, high, buf[0]);
      ReducedOnce(low, high, AddAll(Mod(Split(adler)), buf));
    } else if isNull {
      AddAllNone(Start(), []);
      return 1;
    } else {
      if |buf| < 16 {
        low, high := AddFew(low, high, buf);
      } else {
        low, high := AddMany(low, high, buf);
      }
      ReducedMod(Sums(low, high));
    }
    JoinedHalves(low, high);
    r := low + high * 65536;
  }

  lemma JoinedHalves(low: int, high: int)
    requires Halves(Sums(low, high))
    ensures 0 <= low + high * 65536 < 0x1_0000_0000 && Split(low + high * 65536) == Sums(low, high)
  {
  }

  /** Two ways to have the same remainders: in range, or not. */
  lemma ReducedOnce(low: int, high: int, sums: Sums)
    requires Reduced(sums) && Halves(Sums(low, high)) && Mod(Sums(low, high)) == sums
    ensures Reduced(Sums(low, high)) <==> low + high * 65536 == Packed(sums)
  {
  }

  /** A start out of range, for which one subtraction is not enough. */
  lemma NotReduced()
    ensures var s := Sums(65519, 65535); Halves(s) && s.high + AddAll(Mod(s), [1]).low >= 2 * 65521
  {
    OneByte(Mod(Sums(65519, 65535)), 1);
  }

  lemma ByteAt(bs: seq<int>, i: nat)
    requires IsBytes(bs) && i < |bs|
    ensures 0 <= bs[i] < 256
  {
  }

  // ----- joining two checksums

  /** The sums of a string started elsewhere. */
  lemma {:induction false} RawShift(s: Sums, bs: seq<int>)
    ensures Raw(s, bs).low == s.low - 1 + Raw(Start(), bs).low
    ensures Raw(s, bs).high == s.high + |bs| * (s.low - 1) + Raw(Start(), bs).high
    decreases |bs|
  {
    if bs != [] {
      var n := |bs| - 1;
      RawShift(s, bs[..n]);
      assert (n + 1) * (s.low - 1) == n * (s.low - 1) + (s.low - 1);
    }
  }

  lemma ModProduct(n: nat, x: int)
    ensures ((n % 65521) * x) % 65521 == (n * x) % 65521
  {
    var q, r := n / 65521, n % 65521;
    assert n == q * 65521 + r;
    assert n * x == (q * x) * 65521 + r * x;
    ModMultiple(q * x, r * x);
  }

  lemma ModMultiple(k: int, z: int)
    ensures (k * 65521 + z) % 65521 == z % 65521
  {
  }

  /** Both sums of a concatenation, from those of the parts. */
  lemma {:induction false} JoinedSums(a: seq<int>, b: seq<int>)
    ensures var s, t, rem := AddAll(Start(), a), AddAll(Start(), b), |b| % 65521;
            AddAll(Start(), a + b) ==
            Mod(Sums(s.low + t.low - 1, (rem * s.low) % 65521 + s.high + t.high - rem))
  {
    hide *;
    var s, t, n := AddAll(Start(), a), AddAll(Start(), b), |b|;
    AddAllAppend(Start(), a, b);
    ReducedMod(s);
    ReducedMod(Start());
    RawReduces(s, s, b);
    RawReduces(Start(), Start(), b);
    RawShift(s, b);
    ModProduct(n, s.low);
    JoinArithmetic(s, t, Raw(Start(), b), Raw(s, b), n, n * s.low);
    assert n * (s.low - 1) == n * s.low - n;
  }

  /** The remainders of both sums, with the product and the length reduced beforehand. */
  lemma JoinArithmetic(s: Sums, t: Sums, raw: Sums, joined: Sums, n: nat, product: int)
    requires Mod(raw) == t
    requires joined == Sums(s.low - 1 + raw.low, s.high + (product - n) + raw.high)
    ensures Mod(joined) == Mod(Sums(s.low + t.low - 1, product % 65521 + s.high + t.high - n % 65521))
  {
    SameRemainder(joined.low, s.low + t.low - 1, raw.low / 65521);
    SameRemainder(joined.high, product % 65521 + s.high + t.high - n % 65521,
                  product / 65521 + raw.high / 65521 - n / 65521);
  }

  lemma SameRemainder(x: int, y: int, k: int)
    requires x == y + k * 65521
    ensures x % 65521 == y % 65521
  {
    ModMultiple(k, y);
  }

  /** At most two subtractions of the base bring the sums of adler32_combine_ into range. */
  lemma CombineArithmetic(s: Sums, t: Sums, rem: int, product: int, sum1: int, sum2: int, r1: int, r2: int)
    requires Reduced(s) && Reduced(t) && 0 <= rem < 65521 && 0 <= product < 65521
    requires sum1 == s.low + t.low + 65521 - 1 && sum2 == product + s.high + t.high + 65521 - rem
    requires r1 == if sum1 >= 2 * 65521 then sum1 - 2 * 65521 else if sum1 >= 65521 then sum1 - 65521 else sum1
    requires r2 == var x := (if sum2 >= 2 * 65521 then sum2 - 2 * 65521 else sum2); if x >= 65521 then x - 65521 else x
    ensures r1 == (s.low + t.low - 1) % 65521
    ensures r2 == (product + s.high + t.high - rem) % 65521
  {
  }

  lemma {:induction false} CombineIs(adler1: int, adler2: int, a: seq<int>, b: seq<int>, rem: int, product: int,
                                     sum1: int, sum2: int, r1: int, r2: int)
    requires adler1 == Checksum(a) && adler2 == Checksum(b)
    requires rem == |b| % 65521 && product == (rem * (adler1 % 65536)) % 65521
    requires sum1 == adler1 % 65536 + adler2 % 65536 + 65521 - 1
    requires sum2 == product + adler1 / 65536 + adler2 / 65536 + 65521 - rem
    requires r1 == if sum1 >= 2 * 65521 then sum1 - 2 * 65521 else if sum1 >= 65521 then sum1 - 65521 else sum1
    requires r2 == var x := (if sum2 >= 2 * 65521 then sum2 - 2 * 65521 else sum2); if x >= 65521 then x - 65521 else x
    ensures r1 + r2 * 65536 == Checksum(a + b)
  {
    hide *;
    var s, t := AddAll(Start(), a), AddAll(Start(), b);
    ChecksumIs(a);
    ChecksumIs(b);
    ChecksumIs(a + b);
    PackedParts(s);
    PackedParts(t);
    JoinedSums(a, b);
    ModParts(s.low + t.low - 1, product + s.high + t.high - rem);
    CombineArithmetic(s, t, rem, product, sum1, sum2, r1, r2);
  }

  lemma ChecksumIs(bs: seq<int>)
    ensures Reduced(AddAll(Start(), bs)) && Checksum(bs) == Packed(AddAll(Start(), bs))
    ensures Checksum(bs) == AddAll(Start(), bs).low + AddAll(Start(), bs).high * 65536
  {
  }

  lemma PackedParts(s: Sums)
    requires Reduced(s)
    ensures Packed(s) % 65536 == s.low && Packed(s) / 65536 == s.high
  {
  }

  lemma ModParts(x: int, y: int)
    ensures Mod(Sums(x, y)) == Sums(x % 65521, y % 65521)
  {
  }

  /** adler32_combine_ */
  method Adler32Combine(adler1: int, adler2: int, len2: int) returns (r: int)
    requires 0 <= adler1 < 0x1_0000_0000 && 0 <= adler2 < 0x1_0000_0000
    ensures len2 < 0 ==> r == 0xffff_ffff
    ensures forall a, b :: adler1 == Checksum(a) && adler2 == Checksum(b) && len2 == |b| ==> r == Checksum(a + b)
  {
    hide Raw, AddAll, Packed, Mod, Add, Reduced, Checksum, Start;
    if len2 < 0 { return 0xffff_ffff; }
    var rem := len2 % BASE;
    var sum1 := adler1 % 65536;
    var sum2 := rem * sum1;
    sum2 := sum2 % BASE;
    ghost var product := sum2;
    sum1 := sum1 + (adler2 % 65536) + BASE - 1;
    sum2 := sum2 + adler1 / 65536 + adler2 / 65536 + BASE - rem;
    ghost var s1, s2 := sum1, sum2;
    if sum1 >= BASE { sum1 := sum1 - BASE; }
    if sum1 >= BASE { sum1 := sum1 - BASE; }
    if sum2 >= 2 * BASE { sum2 := sum2 - 2 * BASE; }
    if sum2 >= BASE { sum2 := sum2 - BASE; }
    r := sum1 + sum2 * 65536;
    forall a, b | adler1 == Checksum(a) && adler2 == Checksum(b) && len2 == |b| ensures r == Checksum(a + b) {
      CombineIs(adler1, adler2, a, b, rem, product, s1, s2, sum1, sum2);
    }
  }

  // ----- reduction without division

  /** CHOP: 65536 is 15 modulo the base. */
  function Chop(a: int): (r: int)
    requires 0 <= a
    ensures r % 65521 == a % 65521 && 0 <= r <= 65535 + 15 * (a / 65536)
  {
    var r := a % 65536 + ((a / 65536) * 16 - a / 65536);
    SameRemainder(a, r, a / 65536);
    r
  }

  /** MOD28 in its division-free form: right for every 28-bit value. */
  function Mod28(a: int): (r: int)
    requires 0 <= a
    ensures a < 0x1000_0000 ==> r == a % 65521
  {
    var c := Chop(a);
    if c >= 65521 then c - 65521 else c
  }

  /** MOD in its division-free form: right for every 32-bit value. */
  function Mod32(a: int): (r: int)
    requires 0 <= a
    ensures a < 0x1_0000_0000 ==> r == a % 65521
  {
    Mod28(Chop(a))
  }

  /** MOD63 in its division-free form: right for every nonnegative 63-bit value. */
  function Mod63(a: int): (r: int)
    requires 0 <= a
    ensures a < 0x8000_0000_0000_0000 ==> r == a % 65521
  {
    var tmp := a / 0x1_0000_0000;
    var b := a % 0x1_0000_0000 + (tmp * 256 - tmp * 32 + tmp);
    SameRemainder(a, b, 65551 * tmp);
    Mod28(Chop(b))
  }
}
