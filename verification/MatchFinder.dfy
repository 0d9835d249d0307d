/** What longest_match of deflate.c looks for, told of the window and the links as values: the
    candidates along a chain, how far each agrees with the string looked for, and the best of them. */
module MatchFinder {

  const MAX_MATCH := 258

  /** Window places a and b start len equal bytes. */
  ghost predicate Alike(win: seq<int>, a: int, b: int, len: int) {
    0 <= a <= b && 0 <= len && b + len <= |win| && forall k :: b <= k < b + len ==> win[k] == win[k - (b - a)]
  }

  /** Equal up to len, and not further, unless no longer match can be told. */
  ghost predicate Agrees(win: seq<int>, a: int, b: int, len: int) {
    && Alike(win, a, b, len) && len <= MAX_MATCH && b + MAX_MATCH < |win|
    && (len < MAX_MATCH ==> win[a + len] != win[b + len])
  }

  /** How many bytes are equal from a on and from b on, from the k-th: no more than MAX_MATCH. */
  ghost function AgreeFrom(win: seq<int>, a: int, b: int, k: nat): (n: nat)
    requires 0 <= a < b && b + MAX_MATCH < |win| && k <= MAX_MATCH
    decreases MAX_MATCH - k
  {
    if k == MAX_MATCH || win[a + k] != win[b + k] then k else AgreeFrom(win, a, b, k + 1)
  }

  ghost function Agree(win: seq<int>, a: int, b: int): (n: nat) {
    if 0 <= a < b && b + MAX_MATCH < |win| then AgreeFrom(win, a, b, 0) else 0
  }

  lemma {:induction false} AgreeFromIs(win: seq<int>, a: int, b: int, k: nat)
    requires 0 <= a < b && b + MAX_MATCH < |win| && k <= MAX_MATCH && Alike(win, a, b, k)
    ensures Agrees(win, a, b, AgreeFrom(win, a, b, k))
    decreases MAX_MATCH - k
  {
    if k < MAX_MATCH && win[a + k] == win[b + k] { AgreeFromIs(win, a, b, k + 1); }
  }

  lemma AgreeIs(win: seq<int>, a: int, b: int)
    requires 0 <= a < b && b + MAX_MATCH < |win|
    ensures Agrees(win, a, b, Agree(win, a, b))
  {
    AgreeFromIs(win, a, b, 0);
  }

  lemma AlikeAt(win: seq<int>, a: int, b: int, len: int, k: int)
    requires Alike(win, a, b, len) && 0 <= k < len
    ensures win[a + k] == win[b + k]
  {
    assert win[b + k] == win[b + k - (b - a)];
  }

  /** Only one length does. */
  lemma AgreeOnly(win: seq<int>, a: int, b: int, len: nat)
    requires 0 <= a < b && Agrees(win, a, b, len)
    ensures Agree(win, a, b) == len
  {
    hide Agree;
    AgreeIs(win, a, b);
    var n := Agree(win, a, b);
    if n < len { AlikeAt(win, a, b, len, n); }
    if len < n { AlikeAt(win, a, b, n, len); }
  }

  /** Where two bytes differ, agreement has ended. */
  lemma AgreeStops(win: seq<int>, a: int, b: int, k: nat)
    requires 0 <= a < b && b + MAX_MATCH < |win| && k <= MAX_MATCH && win[a + k] != win[b + k]
    ensures Agree(win, a, b) <= k
  {
    hide Agree;
    AgreeIs(win, a, b);
    if Agree(win, a, b) > k { AlikeAt(win, a, b, Agree(win, a, b), k); }
  }

  // ----- the candidates

  /** The first n links of a chain from cur on, as long as they lie above the limit. */
  ghost function Chain(prev: seq<int>, limit: nat, cur: nat, n: nat): (cs: seq<nat>)
    ensures |cs| >= 1 && cs[0] == cur
    decreases n
  {
    if n <= 1 || |prev| == 0 || prev[cur % |prev|] <= limit then [cur]
    else [cur] + Chain(prev, limit, prev[cur % |prev|], n - 1)
  }

  /** The best so far: its length, and where it starts. */
  datatype Found = Found(len: nat, at: nat)

  /** The candidates one after the other, up to one that is both better and good enough. */
  ghost function Pick(win: seq<int>, b: int, cs: seq<nat>, nice: int, best: Found): (r: Found)
    decreases |cs|
  {
    if cs == [] then best
    else
      var n := Agree(win, cs[0], b);
      if n <= best.len then Pick(win, b, cs[1..], nice, best)
      else if n >= nice then Found(n, cs[0])
      else Pick(win, b, cs[1..], nice, Found(n, cs[0]))
  }

  /** One candidate, and the rest of its chain. */
  lemma PickStep(win: seq<int>, b: int, prev: seq<int>, limit: nat, cur: nat, n: nat, nice: int, best: Found)
    requires n >= 1 && |prev| > 0
    ensures var a, next := Agree(win, cur, b), prev[cur % |prev|];
            var best' := if a > best.len then Found(a, cur) else best;
            Pick(win, b, Chain(prev, limit, cur, n), nice, best) ==
              if (a > best.len && a >= nice) || next <= limit || n == 1 then best'
              else Pick(win, b, Chain(prev, limit, next, n - 1), nice, best')
  {
    hide Agree;
    var cs := Chain(prev, limit, cur, n);
    if n == 1 || prev[cur % |prev|] <= limit {
      assert cs == [cur] && cs[1..] == [];
    } else {
      assert cs[1..] == Chain(prev, limit, prev[cur % |prev|], n - 1);
    }
  }

  /** Of the first m candidates, those visited, none agrees further than found says, and it is the
      first that agrees so far, unless none is better than what there was before. A visit before the
      last found nothing that is better than that and good enough, and the last did, unless all were
      visited. */
  ghost predicate BestOf(win: seq<int>, b: int, cs: seq<nat>, nice: int, before: Found, m: nat, found: Found) {
    && m <= |cs| && found.len >= before.len
    && (forall i :: 0 <= i < m ==> Agree(win, cs[i], b) <= found.len)
    && (if found.len == before.len then found == before
        else exists i :: 0 <= i < m && FirstAt(win, b, cs, i, found))
    && (forall i :: 0 <= i < m - 1 ==> Agree(win, cs[i], b) <= before.len || Agree(win, cs[i], b) < nice)
    && (m < |cs| ==> m > 0 && before.len < found.len && nice <= found.len && found.at == cs[m - 1])
  }

  ghost predicate FirstAt(win: seq<int>, b: int, cs: seq<nat>, i: int, found: Found) {
    && 0 <= i < |cs| && found.at == cs[i] && found.len == Agree(win, cs[i], b)
    && forall j :: 0 <= j < i ==> Agree(win, cs[j], b) < found.len
  }

  lemma {:induction false} PickIsBest(win: seq<int>, b: int, cs: seq<nat>, nice: int, before: Found) returns (m: nat)
    ensures BestOf(win, b, cs, nice, before, m, Pick(win, b, cs, nice, before))
    decreases |cs|
  {
    hide Agree;
    m := 0;
    if cs != [] {
      var n := Agree(win, cs[0], b);
      var found := Pick(win, b, cs, nice, before);
      if n > before.len && n >= nice {
        m := 1;
        assert FirstAt(win, b, cs, 0, found);
      } else {
        var next := if n <= before.len then before else Found(n, cs[0]);
        var k := PickIsBest(win, b, cs[1..], nice, next);
        m := k + 1;
        BestMore(win, b, cs, nice, before, next, k, found);
      }
    }
  }

  lemma BestMore(win: seq<int>, b: int, cs: seq<nat>, nice: int, before: Found, next: Found, k: nat, found: Found)
    requires cs != [] && BestOf(win, b, cs[1..], nice, next, k, found)
    requires var n := Agree(win, cs[0], b);
             if n <= before.len then next == before else n < nice && next == Found(n, cs[0])
    ensures BestOf(win, b, cs, nice, before, k + 1, found)
  {
    hide Agree;
    var rest := cs[1..];
    forall i | 0 <= i < k + 1
      ensures Agree(win, cs[i], b) <= found.len
    {
      if i > 0 { assert cs[i] == rest[i - 1]; }
    }
    forall i | 0 <= i < k
      ensures Agree(win, cs[i], b) <= before.len || Agree(win, cs[i], b) < nice
    {
      if i > 0 { assert cs[i] == rest[i - 1]; }
    }
    if found.len > next.len {
      var i :| 0 <= i < k && FirstAt(win, b, rest, i, found);
      LaterFirst(win, b, cs, i, found);
    } else if found.len > before.len {
      assert FirstAt(win, b, cs, 0, found);
    }
  }

  lemma LaterFirst(win: seq<int>, b: int, cs: seq<nat>, i: nat, found: Found)
    requires cs != [] && FirstAt(win, b, cs[1..], i, found) && Agree(win, cs[0], b) < found.len
    ensures FirstAt(win, b, cs, i + 1, found)
  {
    hide Agree;
    forall j | 0 <= j < i + 1
      ensures Agree(win, cs[j], b) < found.len
    {
      if j > 0 { assert cs[j] == cs[1..][j - 1]; }
    }
  }
}
