/** UPDATE_HASH of deflate.c: a hash key of n bits that shifts left by s bits for every byte, so
    that after three bytes older ones are gone. */
module RollingHash {
  import opened Powers
  import opened BitStrings
  import opened BitWriter
  import opened CrcRegister
  import opened BlockChecksum

  /** hash_shift * MIN_MATCH >= hash_bits, and a byte fits the key. */
  predicate Shape(n: nat, s: nat) {
    8 <= n && 0 < s < n && 3 * s >= n
  }

  /** A byte as a key of n bits. */
  function Wide(n: nat, c: int): (r: seq<bool>)
    requires n >= 8 && 0 <= c < 256
    ensures |r| == n
  {
    Zero(n - 8) + Bits8(c)
  }

  /** (h << s) ^ c, cut to n bits. */
  function UpdateHash(h: seq<bool>, n: nat, s: nat, c: int): (r: seq<bool>)
    requires Shape(n, s) && |h| == n && 0 <= c < 256
    ensures |r| == n
  {
    Xor(h[s..] + Zero(s), Wide(n, c))
  }

  /** The key of a string of three bytes. */
  function Hash3(n: nat, s: nat, a: int, b: int, c: int): (r: seq<bool>)
    requires Shape(n, s) && 0 <= a < 256 && 0 <= b < 256 && 0 <= c < 256
    ensures |r| == n
  {
    UpdateHash(UpdateHash(Wide(n, a), n, s, b), n, s, c)
  }

  /** The running key has just taken in bytes a and b. */
  ghost predicate Ready(h: seq<bool>, n: nat, s: nat, a: int, b: int) {
    && Shape(n, s) && |h| == n && 0 <= a < 256 && 0 <= b < 256
    && forall c :: 0 <= c < 256 ==> UpdateHash(h, n, s, c) == Hash3(n, s, a, b, c)
  }

  lemma FirstTwo(n: nat, s: nat, a: int, b: int)
    requires Shape(n, s) && 0 <= a < 256 && 0 <= b < 256
    ensures Ready(UpdateHash(Wide(n, a), n, s, b), n, s, a, b)
  {
  }

  /** Rolling on by one byte drops the oldest. */
  lemma Rolled(n: nat, s: nat, x: int, a: int, b: int)
    requires Shape(n, s) && 0 <= x < 256 && 0 <= a < 256 && 0 <= b < 256
    ensures Ready(Hash3(n, s, x, a, b), n, s, a, b)
  {
    hide Bits8;
    var h := Hash3(n, s, x, a, b);
    forall c | 0 <= c < 256 ensures UpdateHash(h, n, s, c) == Hash3(n, s, a, b, c) {
      var u, v := UpdateHash(h, n, s, c), Hash3(n, s, a, b, c);
      forall i | 0 <= i < n ensures u[i] == v[i] {
        if i + s < n {
          assert u[i] == (h[i + s] != Wide(n, c)[i]);
          if i + 2 * s < n {
            assert h[i + s] == (UpdateHash(Wide(n, x), n, s, a)[i + 2 * s] != Wide(n, b)[i + s]);
          }
        }
      }
    }
  }

  /** Strings with equal keys and equal first two bytes are equal: the third comparison in
      longest_match can be left out. */
  lemma ThirdByteEqual(n: nat, s: nat, a: int, b: int, c: int, d: int)
    requires Shape(n, s) && 0 <= a < 256 && 0 <= b < 256 && 0 <= c < 256 && 0 <= d < 256
    requires Hash3(n, s, a, b, c) == Hash3(n, s, a, b, d)
    ensures c == d
  {
    hide Bits8;
    var h := UpdateHash(Wide(n, a), n, s, b);
    var u, v := UpdateHash(h, n, s, c), UpdateHash(h, n, s, d);
    forall i | 0 <= i < 8 ensures Bits8(c)[i] == Bits8(d)[i] {
      assert u[n - 8 + i] == v[n - 8 + i];
      assert Wide(n, c)[n - 8 + i] == Bits8(c)[i] && Wide(n, d)[n - 8 + i] == Bits8(d)[i];
    }
    assert Bits8(c) == Bits8(d);
    ByteOfBits(c, d);
  }

  lemma ByteOfBits(c: int, d: int)
    requires 0 <= c < 256 && 0 <= d < 256 && Bits8(c) == Bits8(d)
    ensures c == d
  {
    Pow8();
    BitsRoundTrip(8, c);
    BitsRoundTrip(8, d);
  }

  /** A key is known from its number. */
  lemma {:induction false} FromBitsInjective(a: seq<bool>, b: seq<bool>)
    requires |a| == |b| && FromBits(a) == FromBits(b)
    ensures a == b
    decreases |a|
  {
    if a != [] {
      var k := Pow2(|a| - 1);
      assert FromBits(a[1..]) < k && FromBits(b[1..]) < k;
      FromBitsInjective(a[1..], b[1..]);
      assert a == [a[0]] + a[1..] && b == [b[0]] + b[1..];
    }
  }

  /** The number of the key of three bytes, which selects a hash chain. */
  function Key(n: nat, s: nat, a: int, b: int, c: int): (r: nat)
    requires Shape(n, s) && 0 <= a < 256 && 0 <= b < 256 && 0 <= c < 256
    ensures r < Pow2(n)
  {
    FromBits(Hash3(n, s, a, b, c))
  }

  lemma SameKeySameThird(n: nat, s: nat, a: int, b: int, c: int, d: int)
    requires Shape(n, s) && 0 <= a < 256 && 0 <= b < 256 && 0 <= c < 256 && 0 <= d < 256
    requires Key(n, s, a, b, c) == Key(n, s, a, b, d)
    ensures c == d
  {
    hide Hash3, FromBits;
    FromBitsInjective(Hash3(n, s, a, b, c), Hash3(n, s, a, b, d));
    ThirdByteEqual(n, s, a, b, c, d);
  }
}
