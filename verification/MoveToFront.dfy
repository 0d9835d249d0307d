/** Move-to-front and zero-run coding of the last column: what the encoder writes and what
    the decoder makes of it. */
module MoveToFront {

  const RUNA := 0
  const RUNB := 1

  /** The list with entry j moved to the front. */
  function ToFront(l: seq<int>, j: nat): (r: seq<int>)
    requires j < |l|
    ensures |r| == |l|
  {
    [l[j]] + l[..j] + l[j + 1..]
  }

  function Identity(n: nat): (r: seq<int>)
    ensures |r| == n && forall i :: 0 <= i < n ==> r[i] == i
  {
    seq(n, i => i)
  }

  function IndexOf(l: seq<int>, x: int): (j: nat)
    requires x in l
    ensures j < |l| && l[j] == x && forall k :: 0 <= k < j ==> l[k] != x
  {
    if l[0] == x then 0 else 1 + IndexOf(l[1..], x)
  }

  lemma ToFrontMembers(l: seq<int>, j: nat, x: int)
    requires j < |l|
    ensures x in ToFront(l, j) <==> x in l
  {
    var r := ToFront(l, j);
    if x in l {
      var k :| 0 <= k < |l| && l[k] == x;
      assert r[if k < j then k + 1 else if k == j then 0 else k] == x;
    }
    if x in r {
      var k :| 0 <= k < |r| && r[k] == x;
      assert l[if k == 0 then j else if k <= j then k - 1 else k] == x;
    }
  }

  /** A run of n in bijective base 2, least significant digit first, digits RUNA and RUNB. */
  function RunDigits(n: nat): (r: seq<int>)
    ensures |r| <= n && forall k :: 0 <= k < |r| ==> r[k] == RUNA || r[k] == RUNB
  {
    if n == 0 then [] else [(n - 1) % 2] + RunDigits((n - 1) / 2)
  }

  ghost predicate AllIn(s: seq<int>, l: seq<int>) {
    forall k :: 0 <= k < |s| ==> s[k] in l
  }

  /** Symbols for s with current list l, after a pending run of z front entries. */
  function Symbols(s: seq<int>, l: seq<int>, z: nat): (r: seq<int>)
    requires AllIn(s, l)
    ensures |r| <= z + |s|
    decreases |s|
  {
    if s == [] then RunDigits(z)
    else
      assert s[0] in l;
      if l[0] == s[0] then (assert AllIn(s[1..], l); Symbols(s[1..], l, z + 1))
      else
        var j := IndexOf(l, s[0]);
        AllInToFront(s, l, j);
        RunDigits(z) + [j + 1] + Symbols(s[1..], ToFront(l, j), 0)
  }

  lemma AllInToFront(s: seq<int>, l: seq<int>, j: nat)
    requires AllIn(s, l) && j < |l| && s != []
    ensures AllIn(s[1..], ToFront(l, j))
  {
    forall k | 0 <= k < |s| - 1 ensures s[1..][k] in ToFront(l, j) {
      assert s[k + 1] in l;
      ToFrontMembers(l, j, s[k + 1]);
    }
  }

  // ----- the decoder, symbol by symbol

  /** list: current order; out: entries produced; run, weight: the run being read. */
  datatype State = State(list: seq<int>, out: seq<int>, run: nat, weight: nat)

  datatype Outcome = More(st: State) | Finished(out: seq<int>) | Corrupt

  function Repeat(x: int, n: nat): (r: seq<int>)
    ensures |r| == n && forall k :: 0 <= k < n ==> r[k] == x
  {
    seq(n, _ => x)
  }

  /** What one symbol does: a run digit, the end of the block, or a list entry. */
  function Step(st: State, sym: int, eob: int, limit: nat): (r: Outcome)
    requires 0 <= sym <= eob && eob <= |st.list| + 1 && |st.list| > 0
  {
    if sym <= 1 then
      if st.weight >= 2 * 1024 * 1024 then Corrupt
      else More(st.(run := st.run + (sym + 1) * st.weight, weight := st.weight * 2))
    else if st.run > 0 && |st.out| + st.run > limit then Corrupt
    else
      var out := st.out + Repeat(st.list[0], st.run);
      if sym == eob then Finished(out)
      else if |out| >= limit then Corrupt
      else More(State(ToFront(st.list, sym - 1), out + [st.list[sym - 1]], 0, 1))
  }

  function Feed(st: State, syms: seq<int>, eob: int, limit: nat): (r: Outcome)
    requires |st.list| > 0 && eob <= |st.list| + 1
    requires forall k :: 0 <= k < |syms| ==> 0 <= syms[k] <= eob
    decreases |syms|
  {
    if syms == [] then More(st)
    else match Step(st, syms[0], eob, limit)
      case More(st') => Feed(st', syms[1..], eob, limit)
      case Finished(out) => Finished(out)
      case Corrupt => Corrupt
  }

  lemma {:induction false} FeedAppend(st: State, a: seq<int>, b: seq<int>, eob: int, limit: nat)
    requires |st.list| > 0 && eob <= |st.list| + 1
    requires forall k :: 0 <= k < |a| ==> 0 <= a[k] <= eob
    requires forall k :: 0 <= k < |b| ==> 0 <= b[k] <= eob
    requires Feed(st, a, eob, limit).More?
    ensures |Feed(st, a, eob, limit).st.list| == |st.list|
    ensures Feed(st, a + b, eob, limit) == Feed(Feed(st, a, eob, limit).st, b, eob, limit)
    decreases |a|
  {
    if a == [] {
      assert a + b == b;
    } else {
      assert (a + b)[1..] == a[1..] + b;
      FeedAppend(Step(st, a[0], eob, limit).st, a[1..], b, eob, limit);
    }
  }

  /** Reading the digits of n adds n times the current weight to the run. */
  lemma {:induction false} FeedRun(st: State, n: nat, eob: int, limit: nat)
    requires |st.list| > 0 && 2 <= eob <= |st.list| + 1 && n * st.weight < 2 * 1024 * 1024
    ensures Feed(st, RunDigits(n), eob, limit).More?
    ensures var r := Feed(st, RunDigits(n), eob, limit).st;
            r.list == st.list && r.out == st.out && r.run == st.run + n * st.weight
    decreases n
  {
    if n > 0 {
      var d, m, w := (n - 1) % 2, (n - 1) / 2, st.weight;
      assert n == d + 1 + 2 * m;
      RunArithmetic(n, d, m, w);
      var st' := Step(st, d, eob, limit).st;
      FeedRun(st', m, eob, limit);
      assert RunDigits(n)[1..] == RunDigits(m);
    }
  }

  lemma RunArithmetic(n: nat, d: nat, m: nat, w: nat)
    requires n == d + 1 + 2 * m
    ensures n * w == (d + 1) * w + m * (2 * w)
    ensures w <= n * w && m * (2 * w) <= n * w
  {
    assert (d + 1 + 2 * m) * w == (d + 1) * w + (2 * m) * w;
    assert (2 * m) * w == m * (2 * w);
    assert d * w >= 0;
  }

  /** Decoder list that starts with the encoder's list. */
  ghost predicate Extends(list: seq<int>, l: seq<int>) {
    |l| <= |list| && list[..|l|] == l
  }

  lemma ExtendsToFront(list: seq<int>, l: seq<int>, j: nat)
    requires Extends(list, l) && j < |l|
    ensures list[j] == l[j] && Extends(ToFront(list, j), ToFront(l, j))
  {
    assert list[j] == list[..|l|][j];
    forall k | 0 <= k < |l| ensures ToFront(list, j)[k] == ToFront(l, j)[k] {
      assert forall i :: 0 <= i < |l| ==> list[i] == list[..|l|][i];
    }
  }

  lemma SymbolsBounded(s: seq<int>, l: seq<int>, z: nat)
    requires AllIn(s, l) && |l| > 0
    ensures forall k :: 0 <= k < |Symbols(s, l, z)| ==> 0 <= Symbols(s, l, z)[k] <= |l|
    decreases |s|
  {
    if s != [] {
      assert s[0] in l;
      if l[0] == s[0] {
        assert AllIn(s[1..], l);
        SymbolsBounded(s[1..], l, z + 1);
      } else {
        var j := IndexOf(l, s[0]);
        AllInToFront(s, l, j);
        SymbolsBounded(s[1..], ToFront(l, j), 0);
      }
    }
  }

  /** A run of z and the symbol after it, fed to a decoder between runs. */
  lemma FeedRunThen(st: State, z: nat, sym: int, tail: seq<int>, eob: int, limit: nat)
    requires |st.list| > 0 && 2 <= sym <= eob <= |st.list| + 1 && st.run == 0 && st.weight == 1
    requires |st.out| + z <= limit < 2 * 1024 * 1024
    requires forall k :: 0 <= k < |tail| ==> 0 <= tail[k] <= eob
    ensures var out := st.out + Repeat(st.list[0], z);
            Feed(st, RunDigits(z) + ([sym] + tail), eob, limit) ==
              if sym == eob then Finished(out)
              else if |out| >= limit then Corrupt
              else Feed(State(ToFront(st.list, sym - 1), out + [st.list[sym - 1]], 0, 1), tail, eob, limit)
  {
    FeedRun(st, z, eob, limit);
    FeedAppend(st, RunDigits(z), [sym] + tail, eob, limit);
    assert ([sym] + tail)[1..] == tail;
  }

  lemma SymbolsHead(s: seq<int>, l: seq<int>, z: nat)
    requires AllIn(s, l) && |l| > 0
    ensures s == [] ==> Symbols(s, l, z) == RunDigits(z)
    ensures s != [] ==> s[0] in l
    ensures s != [] && l[0] == s[0] ==> AllIn(s[1..], l) && Symbols(s, l, z) == Symbols(s[1..], l, z + 1)
    ensures s != [] && l[0] != s[0] ==>
      var j := IndexOf(l, s[0]);
      && j >= 1 && AllIn(s[1..], ToFront(l, j))
      && Symbols(s, l, z) == RunDigits(z) + [j + 1] + Symbols(s[1..], ToFront(l, j), 0)
  {
    if s != [] {
      assert s[0] in l;
      AllInToFront(s, l, IndexOf(l, s[0]));
      assert l[0] == s[0] ==> AllIn(s[1..], l);
    }
  }

  lemma ExtendsFront(list: seq<int>, l: seq<int>)
    requires Extends(list, l) && |l| > 0
    ensures |list| >= |l| && list[0] == l[0]
  {
    assert list[0] == list[..|l|][0];
  }

  lemma RepeatMore(out: seq<int>, x: int, z: nat, s: seq<int>)
    requires s != [] && s[0] == x
    ensures out + Repeat(x, z) + s == out + Repeat(x, z + 1) + s[1..]
  {
    assert Repeat(x, z) + s == Repeat(x, z + 1) + s[1..];
    assert out + Repeat(x, z) + s == out + (Repeat(x, z) + s);
    assert out + Repeat(x, z + 1) + s[1..] == out + (Repeat(x, z + 1) + s[1..]);
  }

  lemma EntryPieces(out: seq<int>, x: int, y: int, z: nat, s: seq<int>, digits: seq<int>, sym: int, next: seq<int>,
                    eob: int)
    requires s != []
    ensures out + Repeat(x, z) + [s[0]] + Repeat(y, 0) + s[1..] == out + Repeat(x, z) + s
    ensures digits + [sym] + next + [eob] == digits + ([sym] + (next + [eob]))
  {
  }

  /** The decoder recovers what the encoder coded, for every list, pending run and rest. */
  lemma {:induction false} FeedSymbols(st: State, s: seq<int>, l: seq<int>, z: nat, eob: int, limit: nat)
    requires AllIn(s, l) && |l| > 0 && Extends(st.list, l) && eob == |l| + 1
    requires st.run == 0 && st.weight == 1 && |st.out| + z + |s| <= limit < 2 * 1024 * 1024
    ensures |st.list| >= |l|
    ensures forall k :: 0 <= k < |Symbols(s, l, z) + [eob]| ==> 0 <= (Symbols(s, l, z) + [eob])[k] <= eob
    ensures Feed(st, Symbols(s, l, z) + [eob], eob, limit) == Finished(st.out + Repeat(l[0], z) + s)
    decreases |s|
  {
    hide *;
    SymbolsBounded(s, l, z);
    SymbolsHead(s, l, z);
    ExtendsFront(st.list, l);
    if s == [] {
      FeedRunThen(st, z, eob, [], eob, limit);
      assert RunDigits(z) + ([eob] + []) == Symbols(s, l, z) + [eob];
      assert st.out + Repeat(l[0], z) + s == st.out + Repeat(l[0], z);
    } else if l[0] == s[0] {
      FeedSymbols(st, s[1..], l, z + 1, eob, limit);
      RepeatMore(st.out, l[0], z, s);
    } else {
      var j := IndexOf(l, s[0]);
      ExtendsToFront(st.list, l, j);
      var next := Symbols(s[1..], ToFront(l, j), 0);
      var out := st.out + Repeat(l[0], z) + [s[0]];
      FeedSymbols(State(ToFront(st.list, j), out, 0, 1), s[1..], ToFront(l, j), 0, eob, limit);
      FeedRunThen(st, z, j + 1, next + [eob], eob, limit);
      EntryPieces(st.out, l[0], ToFront(l, j)[0], z, s, RunDigits(z), j + 1, next, eob);
    }
  }
}
