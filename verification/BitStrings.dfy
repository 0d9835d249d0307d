/** Bit strings, most significant bit first, and what a reader makes of them. */
module BitStrings {
  import opened Powers

  /** Outcome of reading from a bit string: a value and what is left, a need for more
      input, or a rejection of the data. */
  datatype Parse<+T> = Done(value: T, rest: seq<bool>) | NeedInput | Bad

  /** The n-bit form of v. */
  function ToBits(n: nat, v: nat): (r: seq<bool>)
    requires v < Pow2(n)
    ensures |r| == n
  {
    if n == 0 then []
    else if v >= Pow2(n - 1) then [true] + ToBits(n - 1, v - Pow2(n - 1))
    else [false] + ToBits(n - 1, v)
  }

  function FromBits(bs: seq<bool>): (r: nat)
    ensures r < Pow2(|bs|)
  {
    if bs == [] then 0 else (if bs[0] then Pow2(|bs| - 1) else 0) + FromBits(bs[1..])
  }

  lemma {:induction false} BitsRoundTrip(n: nat, v: nat)
    requires v < Pow2(n)
    ensures FromBits(ToBits(n, v)) == v
  {
    hide ToBits, FromBits, Pow2;
    NoBits(v);
    NoneFrom([]);
    if n > 0 {
      var top := v >= Pow2(n - 1);
      var low := if top then v - Pow2(n - 1) else v;
      TopBitFirst(n, v, low);
      BitsRoundTrip(n - 1, low);
      FromTop(top, ToBits(n - 1, low));
    }
  }

  lemma NoneFrom(bs: seq<bool>)
    ensures bs == [] ==> FromBits(bs) == 0
  {
  }

  lemma FromTop(b: bool, bs: seq<bool>)
    ensures FromBits([b] + bs) == (if b then Pow2(|bs|) else 0) + FromBits(bs)
  {
    assert ([b] + bs)[1..] == bs;
  }

  /** GET_BITS, on the bits still to come. */
  function GetBits(bs: seq<bool>, n: nat): (r: Parse<nat>)
    ensures r.Done? ==> |r.rest| == |bs| - n && r.value < Pow2(n)
  {
    if |bs| < n then NeedInput else Done(FromBits(bs[..n]), bs[n..])
  }

  lemma GetPut(n: nat, v: nat, rest: seq<bool>)
    requires v < Pow2(n)
    ensures GetBits(ToBits(n, v) + rest, n) == Done(v, rest)
  {
    var bs := ToBits(n, v) + rest;
    assert bs[..n] == ToBits(n, v) && bs[n..] == rest;
    BitsRoundTrip(n, v);
  }

  /** High and low parts of a number are written one after the other. */
  lemma {:induction false} ToBitsSplit(m: nat, k: nat, q: nat, r: nat)
    requires q < Pow2(m) && r < Pow2(k)
    ensures q * Pow2(k) + r < Pow2(m + k)
    ensures ToBits(m + k, q * Pow2(k) + r) == ToBits(m, q) + ToBits(k, r)
    decreases m
  {
    hide ToBits, Pow2;
    NoBits(q);
    if m == 0 {
      assert ToBits(0, 0) + ToBits(k, r) == ToBits(k, r);
    } else {
      var p, w := Pow2(m - 1), Pow2(k);
      Pow2Add(m - 1, k);
      Pow2Next(m - 1);
      Pow2Next(m + k - 1);
      var q' := if q >= p then q - p else q;
      ToBitsSplit(m - 1, k, q', r);
      SplitArithmetic(p, q, q', w, r);
      SplitBits(m, k, q, q', r, q * w + r, q' * w + r);
    }
  }

  /** A bit more in front, of the high part and of the whole. */
  lemma SplitBits(m: nat, k: nat, q: nat, q': nat, r: nat, x: nat, x': nat)
    requires m > 0 && q < Pow2(m) && r < Pow2(k) && q' < Pow2(m - 1) && x < Pow2(m + k) && x' < Pow2(m - 1 + k)
    requires q' == if q >= Pow2(m - 1) then q - Pow2(m - 1) else q
    requires x' == if q >= Pow2(m - 1) then x - Pow2(m + k - 1) else x
    requires q >= Pow2(m - 1) <==> x >= Pow2(m + k - 1)
    requires ToBits(m - 1 + k, x') == ToBits(m - 1, q') + ToBits(k, r)
    ensures ToBits(m + k, x) == ToBits(m, q) + ToBits(k, r)
  {
    hide ToBits, Pow2;
    TopBitFirst(m, q, q');
    TopBitFirst(m + k, x, x');
    var b := [q >= Pow2(m - 1)];
    assert b + (ToBits(m - 1, q') + ToBits(k, r)) == b + ToBits(m - 1, q') + ToBits(k, r);
  }

  lemma NoBits(q: nat)
    ensures Pow2(0) == 1 && (q == 0 ==> ToBits(0, q) == [])
  {
  }

  lemma Pow2Next(k: nat)
    ensures Pow2(k + 1) == 2 * Pow2(k)
  {
  }

  lemma TopBitFirst(n: nat, v: nat, rest: nat)
    requires n > 0 && v < Pow2(n) && rest == if v >= Pow2(n - 1) then v - Pow2(n - 1) else v
    ensures rest < Pow2(n - 1) && ToBits(n, v) == [v >= Pow2(n - 1)] + ToBits(n - 1, rest)
  {
  }

  lemma SplitArithmetic(p: nat, q: nat, q': nat, w: nat, r: nat)
    requires q < 2 * p && r < w && q' == if q >= p then q - p else q
    ensures q * w + r < 2 * (p * w)
    ensures q >= p <==> q * w + r >= p * w
    ensures q' * w + r == if q >= p then q * w + r - p * w else q * w + r
  {
    MulMonotone(q, 2 * p - 1, w);
    assert (2 * p - 1) * w == 2 * (p * w) - w;
    if q >= p {
      MulMonotone(p, q, w);
      assert (q - p) * w == q * w - p * w;
    } else {
      MulMonotone(q, p - 1, w);
      assert (p - 1) * w == p * w - w;
    }
  }
}
