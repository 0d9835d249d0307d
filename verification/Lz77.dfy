/** Literals and (distance, length) pairs, and the text they stand for. */
module Lz77 {

  datatype Token = Literal(c: int) | Match(dist: int, len: int)

  /** Section 3.2.5 of RFC 1951 allows lengths 3 to 258 and distances 1 to 32768; here distances
      are limited further. */
  predicate Allowed(t: Token, maxDist: int) {
    match t
    case Literal(c) => 0 <= c < 256
    case Match(dist, len) => 3 <= len <= 258 && 1 <= dist <= maxDist
  }

  /** What _tr_tally stores: a zero distance marks a literal, lengths are kept less 3. */
  function TokenOf(d: int, lc: int): (t: Token) {
    if d == 0 then Literal(lc) else Match(d, lc + 3)
  }

  /** n bytes copied one at a time from dist back, so that a copy may overlap itself. */
  function Copied(out: seq<int>, dist: int, n: nat): (r: seq<int>)
    requires 1 <= dist <= |out|
    ensures |r| == |out| + n
    decreases n
  {
    if n == 0 then out else Copied(out + [out[|out| - dist]], dist, n - 1)
  }

  /** Every pair reaches back no further than the text there is. */
  ghost predicate Reaches(ts: seq<Token>)
    decreases |ts|, 0
  {
    ts == [] ||
    (Reaches(ts[..|ts| - 1]) &&
     var t := ts[|ts| - 1];
     t.Match? ==> 1 <= t.dist <= |Expand(ts[..|ts| - 1])| && t.len >= 0)
  }

  ghost function Expand(ts: seq<Token>): (r: seq<int>)
    requires Reaches(ts)
    decreases |ts|, 1
  {
    if ts == [] then []
    else
      var out := Expand(ts[..|ts| - 1]);
      match ts[|ts| - 1]
      case Literal(c) => out + [c]
      case Match(dist, len) => Copied(out, dist, len)
  }

  /** The text up to p, and len bytes from there repeat those dist back. */
  ghost predicate Repeats(text: seq<int>, p: int, dist: int, len: int) {
    1 <= dist <= p && 0 <= len && p + len <= |text| && forall k :: p <= k < p + len ==> text[k] == text[k - dist]
  }

  lemma {:induction false} CopyRepeats(text: seq<int>, p: int, dist: int, len: nat)
    requires Repeats(text, p, dist, len)
    ensures Copied(text[..p], dist, len) == text[..p + len]
    decreases len
  {
    if len > 0 {
      assert text[..p] + [text[..p][p - dist]] == text[..p + 1];
      CopyRepeats(text, p + 1, dist, len - 1);
    }
  }

  /** The tokens stand for the first p bytes of the text. */
  ghost predicate Covers(ts: seq<Token>, text: seq<int>, p: int) {
    0 <= p <= |text| && Reaches(ts) && Expand(ts) == text[..p]
  }

  lemma CoverLiteral(ts: seq<Token>, text: seq<int>, p: int)
    requires Covers(ts, text, p) && p < |text|
    ensures Covers(ts + [Literal(text[p])], text, p + 1)
  {
    assert (ts + [Literal(text[p])])[..|ts|] == ts;
    assert text[..p] + [text[p]] == text[..p + 1];
  }

  lemma CoverMatch(ts: seq<Token>, text: seq<int>, p: int, dist: int, len: int)
    requires Covers(ts, text, p) && Repeats(text, p, dist, len)
    ensures Covers(ts + [Match(dist, len)], text, p + len)
  {
    assert (ts + [Match(dist, len)])[..|ts|] == ts;
    CopyRepeats(text, p, dist, len);
  }

  lemma CoverMoreText(ts: seq<Token>, text: seq<int>, p: int, more: seq<int>)
    requires Covers(ts, text, p)
    ensures Covers(ts, text + more, p)
  {
    assert (text + more)[..p] == text[..p];
  }
}
