/** The hash chains of deflate.c: head and prev hold places in the sliding window; what they
    mean is said of the text that the window shows. */
module HashChains {
  import opened Bytes
  import opened Powers
  import opened BitWriter
  import opened MatchFinder
  import opened RollingHash

  /** Key width n and shift s, window size w, all text read so far, and the place in it of the
      first byte of the window. */
  datatype Scene = Scene(n: nat, s: nat, w: nat, text: seq<int>, base: nat)

  ghost predicate Ok(c: Scene) {
    Shape(c.n, c.s) && c.w > 0 && IsBytes(c.text)
  }

  /** The key of the string at place a of the text, if it is complete. */
  ghost function KeyOf(c: Scene, a: int): (k: int)
    requires Ok(c)
  {
    if 0 <= a && a + 3 <= |c.text| then Key(c.n, c.s, c.text[a], c.text[a + 1], c.text[a + 2]) else -1
  }

  /** v is the end of a chain, or the window place of an inserted string with this key. */
  ghost predicate Linked(c: Scene, v: int, ins: set<int>, key: int)
    requires Ok(c)
  {
    v == 0 || (v > 0 && c.base + v in ins && KeyOf(c, c.base + v) == key)
  }

  ghost predicate Heads(c: Scene, head: seq<int>, ins: set<int>) {
    Ok(c) && |head| == Pow2(c.n) && forall h :: 0 <= h < |head| ==> Linked(c, head[h], ins, h)
  }

  /** The links of inserted strings are right as long as they are within one window of the last. */
  ghost predicate Links(c: Scene, prev: seq<int>, ins: set<int>, last: int) {
    && Ok(c) && |prev| == c.w
    && forall a :: a in ins && a >= c.base && last - c.w < a ==> Linked(c, prev[(a - c.base) % c.w], ins, KeyOf(c, a))
  }

  ghost predicate Inserted(c: Scene, ins: set<int>, last: int) {
    forall a :: a in ins ==> 0 <= a <= last && a + 3 <= |c.text|
  }

  /** v is before bound, and no inserted string before bound with this key is newer than it. */
  ghost predicate Newest(c: Scene, v: int, ins: set<int>, key: int, bound: int)
    requires Ok(c)
  {
    (v > 0 ==> c.base + v < bound) && forall a :: a in ins && a < bound && KeyOf(c, a) == key ==> a <= c.base + v
  }

  ghost predicate NewestHeads(c: Scene, head: seq<int>, ins: set<int>, last: int) {
    Ok(c) && forall h :: 0 <= h < |head| ==> Newest(c, head[h], ins, h, last + 1)
  }

  ghost predicate NewestLinks(c: Scene, prev: seq<int>, ins: set<int>, last: int) {
    && Ok(c) && |prev| == c.w
    && forall a :: a in ins && a >= c.base && last - c.w < a ==>
         Newest(c, prev[(a - c.base) % c.w], ins, KeyOf(c, a), a)
  }

  /** Nothing inserted is lost: every head is the newest string of its key, and every link of a string
      within one window of the last leads to the next newest. */
  ghost predicate Lossless(c: Scene, head: seq<int>, prev: seq<int>, ins: set<int>, last: int) {
    NewestHeads(c, head, ins, last) && NewestLinks(c, prev, ins, last) && (last >= 0 ==> last + 3 <= |c.text|)
  }

  ghost predicate Chains(c: Scene, head: seq<int>, prev: seq<int>, ins: set<int>, last: int) {
    Heads(c, head, ins) && Links(c, prev, ins, last) && Inserted(c, ins, last) && Lossless(c, head, prev, ins, last)
  }

  lemma SlotsApart(w: int, a: int, b: int)
    requires w > 0 && a % w == b % w && -w < a - b < w
    ensures a == b
  {
    var q, r := a / w, b / w;
    assert a - b == (q - r) * w;
    if q > r { Multiple(q - r, w); }
    if q < r { Multiple(r - q, w); }
  }

  lemma Multiple(k: int, w: int)
    requires k >= 1 && w > 0
    ensures k * w >= w
  {
  }

  lemma KeyInRange(c: Scene, a: int)
    requires Ok(c) && 0 <= a && a + 3 <= |c.text|
    ensures 0 <= KeyOf(c, a) < Pow2(c.n)
  {
  }

  lemma LinkedMore(c: Scene, v: int, ins: set<int>, a: int, key: int)
    requires Ok(c) && Linked(c, v, ins, key)
    ensures Linked(c, v, ins + {a}, key)
  {
    hide KeyOf;
  }

  lemma LinkedNew(c: Scene, p: nat, ins: set<int>)
    requires Ok(c)
    ensures Linked(c, p, ins + {c.base + p}, KeyOf(c, c.base + p))
  {
    hide KeyOf;
  }

  lemma InsertHeads(c: Scene, head: seq<int>, ins: set<int>, p: nat)
    requires Heads(c, head, ins) && 0 <= KeyOf(c, c.base + p) < |head|
    ensures Heads(c, head[KeyOf(c, c.base + p) := p], ins + {c.base + p})
  {
    hide KeyOf, Linked, Ok;
    var a := c.base + p;
    var head' := head[KeyOf(c, a) := p];
    forall h | 0 <= h < |head'| ensures Linked(c, head'[h], ins + {a}, h) {
      if h == KeyOf(c, a) { LinkedNew(c, p, ins); } else { LinkedMore(c, head[h], ins, a, h); }
    }
  }

  /** The link of p is set to v; strings in the same slot are too far back to matter. */
  lemma InsertLinks(c: Scene, prev: seq<int>, ins: set<int>, last: int, p: nat, v: int)
    requires Links(c, prev, ins, last) && Inserted(c, ins, last) && last < c.base + p
    requires Linked(c, v, ins, KeyOf(c, c.base + p))
    ensures 0 <= p % c.w < |prev|
    ensures Links(c, prev[p % c.w := v], ins + {c.base + p}, c.base + p)
    ensures Links(c, prev[p % c.w := v], ins, c.base + p)
  {
    hide KeyOf, Linked;
    var a := c.base + p;
    var prev' := prev[p % c.w := v];
    forall d | d in ins + {a} && d >= c.base && a - c.w < d
      ensures Linked(c, prev'[(d - c.base) % c.w], ins + {a}, KeyOf(c, d))
      ensures d in ins ==> Linked(c, prev'[(d - c.base) % c.w], ins, KeyOf(c, d))
    {
      if (d - c.base) % c.w == p % c.w {
        SlotsApart(c.w, d - c.base, p);
        LinkedMore(c, v, ins, a, KeyOf(c, a));
      } else {
        LinkedMore(c, prev[(d - c.base) % c.w], ins, a, KeyOf(c, d));
      }
    }
  }

  lemma InsertNewestHeads(c: Scene, head: seq<int>, ins: set<int>, last: int, p: nat)
    requires NewestHeads(c, head, ins, last) && Inserted(c, ins, last) && last < c.base + p
    requires 0 <= KeyOf(c, c.base + p) < |head|
    ensures NewestHeads(c, head[KeyOf(c, c.base + p) := p], ins + {c.base + p}, c.base + p)
  {
    hide KeyOf, Ok;
    var a := c.base + p;
    var head' := head[KeyOf(c, a) := p];
    forall h | 0 <= h < |head'|
      ensures Newest(c, head'[h], ins + {a}, h, a + 1)
    {
      if h != KeyOf(c, a) { assert Newest(c, head[h], ins, h, last + 1); }
    }
  }

  lemma InsertNewestLinks(c: Scene, prev: seq<int>, ins: set<int>, last: int, p: nat, v: int)
    requires NewestLinks(c, prev, ins, last) && Inserted(c, ins, last) && last < c.base + p
    requires Newest(c, v, ins, KeyOf(c, c.base + p), last + 1)
    ensures 0 <= p % c.w < |prev| && NewestLinks(c, prev[p % c.w := v], ins + {c.base + p}, c.base + p)
  {
    hide KeyOf;
    var a := c.base + p;
    var prev' := prev[p % c.w := v];
    forall d | d in ins + {a} && d >= c.base && a - c.w < d
      ensures Newest(c, prev'[(d - c.base) % c.w], ins + {a}, KeyOf(c, d), d)
    {
      if (d - c.base) % c.w == p % c.w {
        SlotsApart(c.w, d - c.base, p);
      } else {
        assert Newest(c, prev[(d - c.base) % c.w], ins, KeyOf(c, d), d);
      }
    }
  }

  /** INSERT_STRING at window place p, after the last one. */
  lemma InsertKeeps(c: Scene, head: seq<int>, prev: seq<int>, ins: set<int>, last: int, p: nat)
    requires Chains(c, head, prev, ins, last) && c.base + p + 3 <= |c.text| && last < c.base + p
    ensures var a := c.base + p;
            && 0 <= KeyOf(c, a) < |head| && 0 <= p % c.w < |prev|
            && Linked(c, head[KeyOf(c, a)], ins, KeyOf(c, a))
            && Chains(c, head[KeyOf(c, a) := p], prev[p % c.w := head[KeyOf(c, a)]], ins + {a}, a)
            && Links(c, prev[p % c.w := head[KeyOf(c, a)]], ins, a)
            && NewestLinks(c, prev[p % c.w := head[KeyOf(c, a)]], ins, a)
            && Newest(c, head[KeyOf(c, a)], ins, KeyOf(c, a), a)
  {
    hide KeyOf, Linked, Links, Heads, Ok, Newest, NewestHeads, NewestLinks;
    var a := c.base + p;
    HeadsIs(c, head, ins);
    KeyInRange(c, a);
    var k := KeyOf(c, a);
    HeadAt(c, head, ins, k);
    InsertHeads(c, head, ins, p);
    InsertLinks(c, prev, ins, last, p, head[k]);
    NewestAt(c, head, ins, last, k);
    InsertNewestHeads(c, head, ins, last, p);
    InsertNewestLinks(c, prev, ins, last, p, head[k]);
    NewestLess(c, prev[p % c.w := head[k]], ins, a);
    NewestUp(c, head[k], ins, k, last, a);
  }

  lemma HeadsIs(c: Scene, head: seq<int>, ins: set<int>)
    requires Heads(c, head, ins)
    ensures Ok(c) && |head| == Pow2(c.n)
  {
  }

  lemma NewestLess(c: Scene, prev: seq<int>, ins: set<int>, a: int)
    requires NewestLinks(c, prev, ins + {a}, a)
    ensures NewestLinks(c, prev, ins, a)
  {
    hide KeyOf;
    forall d | d in ins && d >= c.base && a - c.w < d
      ensures Newest(c, prev[(d - c.base) % c.w], ins, KeyOf(c, d), d)
    {
      assert Newest(c, prev[(d - c.base) % c.w], ins + {a}, KeyOf(c, d), d);
    }
  }

  lemma NewestUp(c: Scene, v: int, ins: set<int>, key: int, last: int, bound: int)
    requires Ok(c) && Newest(c, v, ins, key, last + 1) && Inserted(c, ins, last) && last < bound
    ensures Newest(c, v, ins, key, bound)
  {
    hide KeyOf;
  }

  lemma NewestAt(c: Scene, head: seq<int>, ins: set<int>, last: int, h: int)
    requires NewestHeads(c, head, ins, last) && 0 <= h < |head|
    ensures Newest(c, head[h], ins, h, last + 1)
  {
    hide Newest;
  }

  lemma HeadAt(c: Scene, head: seq<int>, ins: set<int>, h: int)
    requires Heads(c, head, ins) && 0 <= h < |head|
    ensures Linked(c, head[h], ins, h)
  {
  }

  /** A link followed from a string that is recent enough leads to one with the same key. */
  lemma Follow(c: Scene, prev: seq<int>, ins: set<int>, last: int, cur: nat)
    requires Links(c, prev, ins, last) && c.base + cur in ins && last - c.w < c.base + cur
    ensures 0 <= cur % c.w < |prev| && Linked(c, prev[cur % c.w], ins, KeyOf(c, c.base + cur))
  {
    assert (c.base + cur - c.base) % c.w == cur % c.w;
  }

  lemma LinkedText(c: Scene, more: seq<int>, v: int, ins: set<int>, key: int)
    requires Ok(c) && IsBytes(more) && key >= 0 && Linked(c, v, ins, key)
    ensures Ok(c.(text := c.text + more)) && Linked(c.(text := c.text + more), v, ins, key)
  {
    hide Key;
  }

  lemma KeyText(c: Scene, more: seq<int>, a: int)
    requires Ok(c) && IsBytes(more) && 0 <= a && a + 3 <= |c.text|
    ensures Ok(c.(text := c.text + more)) && KeyOf(c.(text := c.text + more), a) == KeyOf(c, a) >= 0
  {
    hide Key;
  }

  lemma MoreText(c: Scene, more: seq<int>, head: seq<int>, prev: seq<int>, ins: set<int>, last: int)
    requires Chains(c, head, prev, ins, last) && IsBytes(more)
    ensures Chains(c.(text := c.text + more), head, prev, ins, last)
  {
    hide KeyOf, Linked, NewestHeads, NewestLinks;
    var c' := c.(text := c.text + more);
    assert Ok(c');
    NewestText(c, more, head, prev, ins, last);
    forall h | 0 <= h < |head| ensures Linked(c', head[h], ins, h) { LinkedText(c, more, head[h], ins, h); }
    forall a | a in ins && a >= c.base && last - c.w < a
      ensures Linked(c', prev[(a - c.base) % c.w], ins, KeyOf(c', a))
    {
      KeyText(c, more, a);
      LinkedText(c, more, prev[(a - c.base) % c.w], ins, KeyOf(c, a));
    }
  }

  lemma NewestText(c: Scene, more: seq<int>, head: seq<int>, prev: seq<int>, ins: set<int>, last: int)
    requires Inserted(c, ins, last) && IsBytes(more)
    requires NewestHeads(c, head, ins, last) && NewestLinks(c, prev, ins, last)
    ensures NewestHeads(c.(text := c.text + more), head, ins, last)
    ensures NewestLinks(c.(text := c.text + more), prev, ins, last)
  {
    hide KeyOf;
    var c' := c.(text := c.text + more);
    forall a | a in ins
      ensures Ok(c') && KeyOf(c', a) == KeyOf(c, a)
    {
      KeyText(c, more, a);
    }
    assert Ok(c');
    forall h | 0 <= h < |head|
      ensures Newest(c', head[h], ins, h, last + 1)
    {
      assert Newest(c, head[h], ins, h, last + 1);
    }
    forall a | a in ins && a >= c.base && last - c.w < a
      ensures Newest(c', prev[(a - c.base) % c.w], ins, KeyOf(c', a), a)
    {
      assert Newest(c, prev[(a - c.base) % c.w], ins, KeyOf(c, a), a);
    }
  }

  // ----- sliding

  function Slid(m: int, w: int): (r: int) {
    if m >= w then m - w else 0
  }

  function AllSlid(s: seq<int>, w: int): (r: seq<int>)
    ensures |r| == |s|
  {
    seq(|s|, i requires 0 <= i < |s| => Slid(s[i], w))
  }

  lemma SameSlot(x: int, w: int)
    requires w > 0
    ensures (x - w) % w == x % w
  {
    var q, r := x / w, x % w;
    assert x - w == (q - 1) * w + r;
    DivModUnique(x - w, q - 1, r, w);
  }

  lemma LinkedSlid(c: Scene, v: int, ins: set<int>, key: int)
    requires Ok(c) && Linked(c, v, ins, key)
    ensures Linked(c.(base := c.base + c.w), Slid(v, c.w), ins, key)
  {
    hide Key;
  }

  lemma KeySlid(c: Scene, a: int)
    requires Ok(c)
    ensures Ok(c.(base := c.base + c.w)) && KeyOf(c.(base := c.base + c.w), a) == KeyOf(c, a)
  {
  }

  /** The window moves up by its size and every entry down. */
  lemma SlideKeeps(c: Scene, head: seq<int>, prev: seq<int>, ins: set<int>, last: int)
    requires Chains(c, head, prev, ins, last)
    ensures Chains(c.(base := c.base + c.w), AllSlid(head, c.w), AllSlid(prev, c.w), ins, last)
  {
    hide KeyOf, Linked, Slid, NewestHeads, NewestLinks;
    var c' := c.(base := c.base + c.w);
    NewestSlid(c, head, prev, ins, last);
    forall h | 0 <= h < |head| ensures Linked(c', AllSlid(head, c.w)[h], ins, h) { LinkedSlid(c, head[h], ins, h); }
    forall a | a in ins && a >= c'.base && last - c.w < a
      ensures Linked(c', AllSlid(prev, c.w)[(a - c'.base) % c.w], ins, KeyOf(c', a))
    {
      SameSlot(a - c.base, c.w);
      assert a - c'.base == a - c.base - c.w;
      KeySlid(c, a);
      LinkedSlid(c, prev[(a - c.base) % c.w], ins, KeyOf(c, a));
    }
  }

  lemma OneSlid(c: Scene, v: int, ins: set<int>, key: int, bound: int)
    requires Ok(c) && Newest(c, v, ins, key, bound)
    ensures Ok(c.(base := c.base + c.w)) && Newest(c.(base := c.base + c.w), Slid(v, c.w), ins, key, bound)
  {
    hide KeyOf;
    var c' := c.(base := c.base + c.w);
    forall a | a in ins && a < bound && KeyOf(c', a) == key
      ensures a <= c'.base + Slid(v, c.w)
    {
      KeySlid(c, a);
    }
  }

  lemma NewestSlid(c: Scene, head: seq<int>, prev: seq<int>, ins: set<int>, last: int)
    requires NewestHeads(c, head, ins, last) && NewestLinks(c, prev, ins, last)
    ensures NewestHeads(c.(base := c.base + c.w), AllSlid(head, c.w), ins, last)
    ensures NewestLinks(c.(base := c.base + c.w), AllSlid(prev, c.w), ins, last)
  {
    hide KeyOf, Newest, Slid;
    var c' := c.(base := c.base + c.w);
    forall h | 0 <= h < |head|
      ensures Newest(c', AllSlid(head, c.w)[h], ins, h, last + 1)
    {
      OneSlid(c, head[h], ins, h, last + 1);
    }
    forall a | a in ins && a >= c'.base && last - c.w < a
      ensures Newest(c', AllSlid(prev, c.w)[(a - c'.base) % c.w], ins, KeyOf(c', a), a)
    {
      SameSlot(a - c.base, c.w);
      assert a - c'.base == a - c.base - c.w;
      KeySlid(c, a);
      OneSlid(c, prev[(a - c.base) % c.w], ins, KeyOf(c, a), a);
    }
  }

  lemma NothingInserted(c: Scene, head: seq<int>, prev: seq<int>, last: int)
    requires Ok(c) && |head| == Pow2(c.n) && |prev| == c.w && forall h :: 0 <= h < |head| ==> head[h] == 0
    requires last < 0
    ensures Chains(c, head, prev, {}, last)
  {
  }

  // ----- following a chain

  ghost predicate Member(c: Scene, ins: set<int>, key: int, a: int)
    requires Ok(c)
  {
    a in ins && KeyOf(c, a) == key
  }

  /** The candidates are inserted strings with the key, newest first. */
  ghost predicate NewestFirst(c: Scene, ins: set<int>, key: int, cs: seq<nat>)
    requires Ok(c)
  {
    && (forall v :: v in cs ==> Member(c, ins, key, c.base + v))
    && (forall i, j :: 0 <= i < j < |cs| ==> cs[j] < cs[i])
  }

  /** The string at a is a candidate, or older than all of as many as were asked for. */
  ghost predicate Reached(c: Scene, cs: seq<nat>, n: nat, a: int) {
    a - c.base in cs || (|cs| == n && forall v :: v in cs ==> a < c.base + v)
  }

  /** No string that can be reached is missed: the links lead through all inserted strings with the key. */
  lemma {:induction false} ChainLists(c: Scene, prev: seq<int>, ins: set<int>, place: int, limit: nat, cur: nat,
                                      n: nat, key: int, bound: int)
    requires Links(c, prev, ins, place) && NewestLinks(c, prev, ins, place) && n >= 1
    requires 0 < cur && Linked(c, cur, ins, key) && Newest(c, cur, ins, key, bound)
    requires place - c.w < c.base + cur && place - c.w <= c.base + limit
    ensures NewestFirst(c, ins, key, Chain(prev, limit, cur, n))
    ensures forall a :: Member(c, ins, key, a) && c.base + limit < a < bound ==>
      Reached(c, Chain(prev, limit, cur, n), n, a)
    decreases n
  {
    hide KeyOf, Links, NewestLinks, Newest, Chain, NewestFirst, Reached, Member, Linked;
    LinksSize(c, prev, ins, place);
    LinkedMember(c, cur, ins, key);
    NextNewest(c, prev, ins, place, cur);
    var next := prev[cur % c.w];
    ChainIs(prev, limit, cur, n);
    if n > 1 && next > limit {
      ChainLists(c, prev, ins, place, limit, next, n - 1, key, c.base + cur);
      CandidateFirst(c, ins, key, cur, prev, limit, next, n - 1);
    } else {
      OneCandidate(c, ins, key, cur);
    }
    forall a | Member(c, ins, key, a) && c.base + limit < a < bound
      ensures Reached(c, Chain(prev, limit, cur, n), n, a)
    {
      MemberBelow(c, cur, ins, key, bound, a);
      if a < c.base + cur {
        MemberBelow(c, next, ins, key, c.base + cur, a);
        if n > 1 && next > limit { ReachedMore(c, Chain(prev, limit, next, n - 1), n - 1, a, cur); }
        if n == 1 { ReachedOne(c, a, cur); }
      } else {
        ReachedFirst(c, Chain(prev, limit, cur, n), n, a);
      }
    }
  }

  lemma LinksSize(c: Scene, prev: seq<int>, ins: set<int>, place: int)
    requires Links(c, prev, ins, place)
    ensures Ok(c) && |prev| == c.w > 0
  {
  }

  lemma LinkedMember(c: Scene, v: int, ins: set<int>, key: int)
    requires Ok(c) && Linked(c, v, ins, key) && v > 0
    ensures Member(c, ins, key, c.base + v) && c.base + v in ins && KeyOf(c, c.base + v) == key
  {
    hide KeyOf;
  }

  lemma ChainIs(prev: seq<int>, limit: nat, cur: nat, n: nat)
    requires |prev| > 0 && n >= 1
    ensures var next := prev[cur % |prev|];
            Chain(prev, limit, cur, n)
            == if n == 1 || next <= limit then [cur] else [cur] + Chain(prev, limit, next, n - 1)
  {
  }

  lemma OneCandidate(c: Scene, ins: set<int>, key: int, cur: nat)
    requires Ok(c) && Member(c, ins, key, c.base + cur)
    ensures NewestFirst(c, ins, key, [cur])
  {
    hide Member;
  }

  lemma CandidateFirst(c: Scene, ins: set<int>, key: int, cur: nat, prev: seq<int>, limit: nat, next: nat, n: nat)
    requires Ok(c) && Member(c, ins, key, c.base + cur) && next < cur
    requires NewestFirst(c, ins, key, Chain(prev, limit, next, n))
    ensures NewestFirst(c, ins, key, [cur] + Chain(prev, limit, next, n))
  {
    hide Member;
    var cs := Chain(prev, limit, next, n);
    var more := [cur] + cs;
    forall i, j | 0 <= i < j < |more|
      ensures more[j] < more[i]
    {
      assert more[j] == cs[j - 1] && cs[j - 1] <= cs[0] == next;
      if i > 0 { assert more[i] == cs[i - 1]; }
    }
  }

  lemma MemberBelow(c: Scene, v: int, ins: set<int>, key: int, bound: int, a: int)
    requires Ok(c) && Newest(c, v, ins, key, bound) && Member(c, ins, key, a) && a < bound
    ensures a <= c.base + v
  {
    hide KeyOf;
  }

  lemma ReachedMore(c: Scene, cs: seq<nat>, n: nat, a: int, cur: nat)
    requires Reached(c, cs, n, a) && a < c.base + cur
    ensures Reached(c, [cur] + cs, n + 1, a)
  {
  }

  lemma ReachedOne(c: Scene, a: int, cur: nat)
    requires a < c.base + cur
    ensures Reached(c, [cur], 1, a)
  {
  }

  lemma ReachedFirst(c: Scene, cs: seq<nat>, n: nat, a: int)
    requires cs != [] && a == c.base + cs[0]
    ensures Reached(c, cs, n, a)
  {
  }

  lemma NextNewest(c: Scene, prev: seq<int>, ins: set<int>, place: int, cur: nat)
    requires Links(c, prev, ins, place) && NewestLinks(c, prev, ins, place) && c.base + cur in ins
    requires place - c.w < c.base + cur
    ensures 0 <= cur % c.w < |prev| && Linked(c, prev[cur % c.w], ins, KeyOf(c, c.base + cur))
    ensures Newest(c, prev[cur % c.w], ins, KeyOf(c, c.base + cur), c.base + cur)
    ensures cur > 0 ==> prev[cur % c.w] < cur
  {
    hide KeyOf;
    assert (c.base + cur - c.base) % c.w == cur % c.w;
    var v := prev[cur % c.w];
    assert Newest(c, v, ins, KeyOf(c, c.base + cur), c.base + cur);
    assert v > 0 ==> c.base + v < c.base + cur;
  }

  // ----- comparing through a chain

  /** Two strings with the same key and the same first two bytes have the same third. */
  lemma ThirdByte(c: Scene, a: int, b: int)
    requires Ok(c) && 0 <= a && a + 3 <= |c.text| && 0 <= b && b + 3 <= |c.text|
    requires KeyOf(c, a) == KeyOf(c, b) && c.text[a] == c.text[b] && c.text[a + 1] == c.text[b + 1]
    ensures c.text[a + 2] == c.text[b + 2]
  {
    hide Key;
    SameKeySameThird(c.n, c.s, c.text[a], c.text[a + 1], c.text[a + 2], c.text[b + 2]);
  }
}
