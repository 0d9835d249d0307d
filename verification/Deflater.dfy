/** The match finder of deflate.c up to the tallied literals and (distance, length) pairs. */
module Deflater {
  import opened Bytes
  import opened Powers
  import opened BitStrings
  import opened RollingHash
  import opened Lz77
  import opened HashChains
  import opened MatchFinder
  import CR = CrcRegister

  const MIN_MATCH := 3
  const MIN_LOOKAHEAD := 262
  const WIN_INIT := 258
  const TOO_FAR := 4096

  /** Unsigned arithmetic of 32 bits. */
  function Wrap(x: int): (r: nat) {
    x % 0x1_0000_0000
  }

  datatype Flush = NoFlush | PartialFlush | SyncFlush | FullFlush | Finish | Block

  datatype BlockState = NeedMore | BlockDone | FinishStarted | FinishDone

  datatype Config = Config(goodLength: nat, maxLazy: nat, niceLength: nat, maxChain: nat)

  /** configuration_table, without the function to use. */
  function ConfigOf(level: nat): (c: Config)
    requires 1 <= level <= 9
    ensures c.maxLazy >= 3 && c.maxChain >= 4
  {
    match level
    case 1 => Config(4, 4, 8, 4)
    case 2 => Config(4, 5, 16, 8)
    case 3 => Config(4, 6, 32, 32)
    case 4 => Config(4, 4, 16, 16)
    case 5 => Config(8, 16, 32, 32)
    case 6 => Config(8, 16, 128, 128)
    case 7 => Config(8, 32, 128, 256)
    case 8 => Config(32, 128, 258, 1024)
    case _ => Config(32, 258, 258, 4096)
  }

  // ----- the window and the running key

  /** The first filled bytes of the window are the text from base on. */
  ghost predicate Shows(win: seq<int>, text: seq<int>, base: nat, filled: int) {
    && IsBytes(win) && IsBytes(text) && 0 <= filled <= |win| && base + filled == |text| && win[..filled] == text[base..]
  }

  lemma ShowsAt(win: seq<int>, text: seq<int>, base: nat, filled: int, i: int)
    requires Shows(win, text, base, filled) && 0 <= i < filled
    ensures i < |win| && base + i < |text| && win[i] == text[base + i] && 0 <= win[i] < 256
  {
    assert win[..filled][i] == text[base..][i];
  }

  /** The running key is ready for the string at p, if there is one. */
  ghost predicate Rolling(h: seq<bool>, c: Scene, p: int) {
    Ok(c) && |h| == c.n && (0 <= p && p + 3 <= |c.text| ==> Ready(h, c.n, c.s, c.text[p], c.text[p + 1]))
  }

  /** Equal stretches of the window are a repetition in the text, up to the end of the text. */
  lemma AlikeRepeats(win: seq<int>, text: seq<int>, base: nat, filled: int, a: int, b: int, len: int, n: int)
    requires Shows(win, text, base, filled) && Alike(win, a, b, len) && a < b && 0 <= n <= len && b + n <= filled
    ensures Repeats(text, base + b, b - a, n)
  {
    forall k | base + b <= k < base + b + n ensures text[k] == text[k - (b - a)] {
      var i := k - base - b;
      ShowsAt(win, text, base, filled, a + i);
      ShowsAt(win, text, base, filled, b + i);
      assert win[b + i] == win[b + i - (b - a)];
    }
  }

  /** A match is no longer than the text. */
  function Within(f: Found, lookahead: nat): (r: Found) {
    if f.len <= lookahead then f else f.(len := lookahead)
  }

  /** What longest_match finds from cur on for the string at strstart, knowing of a match of length len
      that starts at at: a quarter of the chain is followed if that is long already, and nothing longer
      than the text is asked for. */
  ghost function Scout(c: Config, win: seq<int>, links: seq<int>, strstart: nat, lookahead: nat, maxDist: int,
                       cur: nat, len: nat, at: nat): (r: Found)
  {
    var n := if len >= c.goodLength then c.maxChain / 4 else c.maxChain;
    var nice := if c.niceLength > lookahead then lookahead else c.niceLength;
    Pick(win, strstart, Chain(links, Limit(strstart, maxDist), cur, n), nice, Found(len, at))
  }

  /** Strings further back are out of reach. */
  function Limit(strstart: nat, maxDist: int): (r: nat) {
    if strstart > maxDist then if maxDist >= 0 then strstart - maxDist else strstart else 0
  }

  /** The places from p up to q. */
  ghost function Span(p: int, q: int): (s: set<int>)
    ensures forall a :: a in s <==> p <= a < q
    decreases q - p
  {
    if p >= q then {} else Span(p, q - 1) + {q - 1}
  }

  /** Those of strings that are complete. */
  ghost function Complete(text: seq<int>, p: int, q: int): (s: set<int>)
    ensures forall a :: a in s <==> p <= a < q && a + 3 <= |text|
  {
    Span(p, if q <= |text| - 2 then q else |text| - 2)
  }

  ghost predicate AllAllowed(ts: seq<Token>, maxDist: int) {
    forall i :: 0 <= i < |ts| ==> Allowed(ts[i], maxDist)
  }

  function Buffered(dBuf: seq<int>, lBuf: seq<int>): (ts: seq<Token>)
    requires |dBuf| == |lBuf|
    ensures |ts| == |dBuf|
  {
    seq(|dBuf|, i requires 0 <= i < |dBuf| => TokenOf(dBuf[i], lBuf[i]))
  }

  class Deflate {
    const wSize: nat
    const hashBits: nat
    const hashShift: nat
    const litBufsize: nat
    const config: Config
    /** Strategy Z_FILTERED. */
    const filtered: bool
    const window: array<int>
    const prev: array<int>
    const head: array<int>
    var insH: seq<bool>
    var strstart: nat
    var lookahead: nat
    var insert: nat
    var matchLength: nat
    var matchStart: nat
    var prevLength: nat
    var prevMatch: nat
    var matchAvailable: bool
    var highWater: nat
    var dBuf: seq<int>
    var lBuf: seq<int>
    var nextIn: seq<int>
    var availOut: nat
    /** The text read into the window so far, and where in it the window begins. */
    ghost var text: seq<int>
    ghost var base: nat
    /** The places of the text whose strings were inserted, and the furthest of them. */
    ghost var ins: set<int>
    ghost var last: int
    /** The tokens of the blocks already flushed. */
    ghost var written: seq<Token>
    /** The tokens decided on so far: one decision for every string looked up. */
    ghost var chosen: seq<Token>

    function MaxDist(): (r: int) { wSize - MIN_LOOKAHEAD }

    ghost function Here(): (c: Scene)
      reads `text, `base
    {
      Scene(hashBits, hashShift, wSize, text, base)
    }

    /** The place in the text of the next string to deal with. */
    ghost function Place(): (p: nat)
      reads `base, `strstart
    {
      base + strstart
    }

    /** Everything tallied since the start. */
    ghost function Tokens(): (ts: seq<Token>)
      reads `written, `dBuf, `lBuf
    {
      written + if |dBuf| == |lBuf| then Buffered(dBuf, lBuf) else []
    }

    ghost predicate Sized() {
      && Shape(hashBits, hashShift) && 512 <= wSize <= 32768 && litBufsize >= 2 && config.maxChain >= 4
      && window.Length == 2 * wSize && prev.Length == wSize && head.Length == Pow2(hashBits)
      && window != prev && window != head && prev != head
    }

    /** filled bytes of the window are valid, and the strings before window place upTo have been
        dealt with. */
    ghost predicate Dealt(upTo: int, filled: int)
      reads `insH, `highWater, `nextIn, `text, `base, `ins, `last, window, prev, head
    {
      && Sized() && Shows(window[..], text, base, filled) && Chains(Here(), head[..], prev[..], ins, last)
      && last < base + upTo && Rolling(insH, Here(), base + upTo) && IsBytes(nextIn) && highWater <= 2 * wSize
    }

    ghost predicate Core()
      reads `insH, `strstart, `lookahead, `insert, `highWater, `nextIn, `text, `base, `ins, `last, window, prev, head
    {
      Dealt(strstart, strstart + lookahead) && Pending()
    }

    /** The strings before strstart that are not inserted because they are not complete yet. */
    ghost predicate Pending()
      reads `strstart, `lookahead, `insert, `base, `last
    {
      && insert <= 2 && insert <= strstart
      && (insert > 0 ==> lookahead + insert < MIN_MATCH && last < Place() - insert)
    }

    ghost predicate Tallied()
      reads `written, `dBuf, `lBuf
    {
      |dBuf| == |lBuf| && AllAllowed(Tokens(), MaxDist())
    }

    /** deflateInit2_ and lm_init: window bits 9 to 15, memory level 1 to 9, level 1 to 9. */
    constructor (windowBits: nat, memLevel: nat, level: nat, filtered: bool)
      requires 9 <= windowBits <= 15 && 1 <= memLevel <= 9 && 1 <= level <= 9
      ensures FastState() && SlowState() && |dBuf| < litBufsize - 1 && text + nextIn == [] && Tokens() == []
      ensures fresh(window) && fresh(prev) && fresh(head) && config == ConfigOf(level)
    {
      hide Shows, Chains, Rolling, Covers, Pow2, Wrap, Core, Dealt, Tallied, Tokens, FastState, SlowState, Here;
      Parameters(windowBits, memLevel);
      wSize, hashBits, hashShift, litBufsize := Pow2(windowBits), memLevel + 7, (memLevel + 9) / 3, Pow2(memLevel + 6);
      config, this.filtered := ConfigOf(level), filtered;
      window := new int[2 * Pow2(windowBits)](_ => 0);
      prev := new int[Pow2(windowBits)](_ => 0);
      head := new int[Pow2(memLevel + 7)](_ => 0);
      insH := CR.Zero(memLevel + 7);
      strstart, lookahead, insert, highWater := 0, 0, 0, 0;
      matchLength, prevLength, matchStart, prevMatch, matchAvailable := MIN_MATCH - 1, MIN_MATCH - 1, 0, 0, false;
      dBuf, lBuf, nextIn, availOut := [], [], [], 0;
      text, base, ins, last, written, chosen := [], 0, {}, -1, [], [];
      new;
      NewCore(this);
      NewStates(this);
    }

    /** The caller supplies input and output space. */
    method Offer(more: seq<int>, space: nat)
      requires IsBytes(more)
      modifies `nextIn, `availOut
      ensures nextIn == old(nextIn) + more && availOut == space
      ensures old(FastState()) ==> FastState()
      ensures old(SlowState()) ==> SlowState()
    {
      hide Shows, Chains, Rolling, Covers, Tallied, Repeats;
      nextIn, availOut := nextIn + more, space;
    }

    /** CLEAR_HASH */
    method ClearHash()
      requires Core()
      modifies `ins, `last, head
      ensures Core() && ins == {} && last == -1
    {
      hide Shows, Rolling, IsBytes, Sized, Chains;
      SizedIs(this);
      ChainsOk(Here(), head[..], prev[..], ins, last);
      ghost var win, links := window[..], prev[..];
      forall i | 0 <= i < head.Length { head[i] := 0; }
      assert window[..] == win && prev[..] == links;
      ins, last := {}, -1;
      NothingInserted(Here(), head[..], prev[..], -1);
    }

    /** What deflate() does after a full flush: no string inserted so far is found again, and with
        nothing in lookahead the window starts over. */
    method ForgetHistory()
      requires Core()
      modifies `strstart, `insert, `base, `ins, `last, head
      ensures Core() && Place() == old(Place()) && ins == {}
      ensures lookahead == 0 ==> strstart == 0
    {
      hide Shows, Rolling, IsBytes, Sized, Chains;
      ClearHash();
      if lookahead == 0 {
        NothingLeftToShow(window[..], text, base, strstart, insH, Here());
        NoChains(Here(), base + strstart, head[..], prev[..], last);
        base := base + strstart;
        strstart := 0;
        insert := 0;
      }
    }

    // ----- inserting and matching

    /** INSERT_STRING: the string at window place p joins the chain of its key. */
    method InsertString(p: nat, ghost filled: int) returns (matchHead: nat)
      requires Sized() && Shows(window[..], text, base, filled) && Chains(Here(), head[..], prev[..], ins, last)
      requires base + p + 3 <= |text| && last < base + p && Rolling(insH, Here(), base + p)
      modifies `insH, `ins, `last, prev, head
      ensures Chains(Here(), head[..], prev[..], ins, last) && ins == old(ins) + {base + p}
      ensures last == base + p
      ensures Rolling(insH, Here(), base + p + 1)
      ensures Linked(Here(), matchHead, old(ins), KeyOf(Here(), base + p))
      ensures Newest(Here(), matchHead, old(ins), KeyOf(Here(), base + p), base + p)
      ensures Links(Here(), prev[..], old(ins), base + p) && NewestLinks(Here(), prev[..], old(ins), base + p)
      ensures 0 <= KeyOf(Here(), base + p) < head.Length
      ensures var k := KeyOf(Here(), base + p);
              && matchHead == old(head[..])[k] && head[..] == old(head[..])[k := p]
              && prev[..] == old(prev[..])[p % wSize := matchHead]
    {
      hide Chains, Links, Shows, Rolling, Pow2, Linked, Hash3, Ok, Ready, Newest, NewestLinks;
      HashIs(window[..], insH, Here(), base + p, filled);
      InsertKeeps(Here(), head[..], prev[..], ins, last, p);
      insH := UpdateHash(insH, hashBits, hashShift, window[p + 2]);
      var h := FromBits(insH);
      LinkedNat(Here(), head[h], ins, h);
      matchHead := head[h];
      ghost var was := prev[..];
      prev[p % wSize] := matchHead;
      assert prev[..] == was[p % wSize := matchHead];
      ghost var heads := head[..];
      head[h] := p;
      assert head[..] == heads[h := p];
      ins, last := ins + {base + p}, base + p;
    }

    /** The comparison from the fourth byte on, eight bytes between two checks for the limit. */
    method Compare(cur: nat) returns (len: nat)
      requires Sized() && cur < strstart && strstart + MAX_MATCH < 2 * wSize && Alike(window[..], cur, strstart, 3)
      ensures 3 <= len <= MAX_MATCH && Alike(window[..], cur, strstart, len)
      ensures len == Agree(window[..], cur, strstart)
    {
      hide Alike, Sized;
      SizedIs(this);
      var scan, at := strstart + 2, cur + 2;
      var strend := strstart + MAX_MATCH;
      ghost var g := 0;
      while true
        invariant scan - strstart == at - cur == 2 + 8 * g && 0 <= g < 32
        invariant Alike(window[..], cur, strstart, scan - strstart + 1)
        decreases 32 - g
      {
        var k, same := 0, true;
        while k < 8 && same
          invariant 0 <= k <= 8 && scan - strstart == at - cur == 2 + 8 * g + k && (k > 0 || same)
          invariant Alike(window[..], cur, strstart, scan - strstart + if same then 1 else 0)
          invariant !same ==> window[scan] != window[at]
        {
          scan, at, k := scan + 1, at + 1, k + 1;
          same := window[scan] == window[at];
          if same { AlikeMore(window[..], cur, strstart, scan - strstart); }
        }
        if !same || scan >= strend {
          AlikeLess(window[..], cur, strstart, scan - strstart + (if same then 1 else 0), scan - strstart);
          assert scan < strend ==> window[..][cur + (scan - strstart)] != window[..][scan];
          break;
        }
        g := g + 1;
      }
      len := MAX_MATCH - (strend - scan);
      AgreesHere(window[..], cur, strstart, len);
    }

    /** The string at cur: how far it agrees, or none when one of the four quick checks tells that this
        is no further than the best so far. */
    method Try(cur: nat, bestLen: nat, scanEnd1: int, scanEnd: int) returns (len: nat)
      requires Sized() && Shows(window[..], text, base, strstart + lookahead) && strstart + MIN_LOOKAHEAD <= 2 * wSize
      requires 0 < cur < strstart && lookahead >= 3 && 1 <= bestLen <= MAX_MATCH && Ok(Here())
      requires KeyOf(Here(), base + cur) == KeyOf(Here(), Place())
      requires scanEnd1 == window[strstart + bestLen - 1] && scanEnd == window[strstart + bestLen]
      ensures len <= MAX_MATCH && (len > 0 ==> Alike(window[..], cur, strstart, len))
      ensures if len == 0 then Agree(window[..], cur, strstart) <= bestLen else len == Agree(window[..], cur, strstart)
    {
      hide Sized, Shows, Alike, KeyOf, Ok, Agree;
      SizedIs(this);
      CheckTells(window[..], cur, strstart, bestLen);
      if window[cur + bestLen] != scanEnd || window[cur + bestLen - 1] != scanEnd1 || window[cur] != window[strstart]
         || window[cur + 1] != window[strstart + 1] {
        return 0;
      }
      ThreeAlike(window[..], Here(), cur, strstart, strstart + lookahead);
      len := Compare(cur);
    }

    /** prev[cur & wmask] */
    method Older(cur: nat, ghost older: set<int>) returns (next: nat)
      requires Sized() && Links(Here(), prev[..], older, Place()) && base + cur in older && strstart - cur <= MaxDist()
      requires Ok(Here()) && KeyOf(Here(), base + cur) == KeyOf(Here(), Place())
      ensures Linked(Here(), next, older, KeyOf(Here(), Place())) && next == prev[cur % wSize]
    {
      hide Links, Linked, KeyOf, Ok, Pow2;
      NextCandidate(Here(), prev[..], older, Place(), cur);
      next := prev[cur % wSize];
    }

    /** The candidates on the chain from curMatch on. */
    ghost function Candidates(curMatch: nat): (cs: seq<nat>)
      reads `strstart, `prevLength, prev
    {
      Chain(prev[..], Limit(strstart, MaxDist()), curMatch,
            if prevLength >= config.goodLength then config.maxChain / 4 else config.maxChain)
    }

    /** The length that is good enough. */
    ghost function Nice(): (n: nat)
      reads `lookahead
    {
      if config.niceLength > lookahead then lookahead else config.niceLength
    }

    /** The longest match among the candidates visited; before that, the match before was known. */
    ghost predicate Longest(curMatch: nat, before: Found, found: Found)
      reads `strstart, `lookahead, `prevLength, window, prev
    {
      exists m :: BestOf(window[..], strstart, Candidates(curMatch), Nice(), before, m, found)
    }

    /** What the search finds. */
    ghost function Best(curMatch: nat): (r: Found)
      reads `strstart, `lookahead, `prevLength, `matchStart, window, prev
    {
      Scout(config, window[..], prev[..], strstart, lookahead, MaxDist(), curMatch, prevLength, matchStart)
    }

    /** The loop of longest_match along a chain of strings with the key of the string at strstart. */
    method Search(curMatch: nat, ghost older: set<int>) returns (bestLen: nat)
      requires Sized() && Shows(window[..], text, base, strstart + lookahead) && strstart + MIN_LOOKAHEAD <= 2 * wSize
      requires lookahead >= 3 && 1 <= prevLength <= MAX_MATCH
      requires 0 < curMatch && strstart - curMatch <= MaxDist() && LookedUp(curMatch, older)
      modifies `matchStart
      ensures prevLength <= bestLen <= MAX_MATCH
      ensures bestLen > prevLength ==>
        matchStart < strstart && strstart - matchStart <= MaxDist() && Alike(window[..], matchStart, strstart, bestLen)
      ensures Found(bestLen, matchStart) == old(Best(curMatch))
    {
      hide Links, Linked, Inserted, Shows, Alike, KeyOf, Ok, Sized, Agree, Pick, Chain, Best, Candidates, Nice;
      hide LookedUp, Here, Place;
      SizedIs(this);
      BestIs(this, curMatch);
      LookedUpIs(this, curMatch, older);
      var chainLength := config.maxChain;
      bestLen := prevLength;
      var nice := config.niceLength;
      var limit := if strstart > MaxDist() then strstart - MaxDist() else 0;
      var scanEnd1, scanEnd := window[strstart + bestLen - 1], window[strstart + bestLen];
      if prevLength >= config.goodLength { chainLength := chainLength / 4; }
      if nice > lookahead { nice := lookahead; }
      var cur := curMatch;
      ghost var win, links := window[..], prev[..];
      while true
        invariant 0 < cur && limit <= cur && strstart - cur <= MaxDist()
        invariant Linked(Here(), cur, older, KeyOf(Here(), Place()))
        invariant chainLength >= 1 && prevLength <= bestLen <= MAX_MATCH
        invariant scanEnd1 == window[strstart + bestLen - 1] && scanEnd == window[strstart + bestLen]
        invariant bestLen > prevLength ==>
          matchStart < strstart && strstart - matchStart <= MaxDist()
            && Alike(window[..], matchStart, strstart, bestLen)
        invariant Pick(win, strstart, Chain(links, limit, cur, chainLength), nice, Found(bestLen, matchStart)) ==
                  old(Best(curMatch))
        decreases chainLength
      {
        PickStep(win, strstart, links, limit, cur, chainLength, nice, Found(bestLen, matchStart));
        Candidate(Here(), cur, older, Place());
        var len := Try(cur, bestLen, scanEnd1, scanEnd);
        if len > bestLen {
          matchStart := cur;
          bestLen := len;
          if len >= nice { break; }
          scanEnd1, scanEnd := window[strstart + bestLen - 1], window[strstart + bestLen];
        }
        cur := Older(cur, older);
        if cur <= limit { break; }
        chainLength := chainLength - 1;
        if chainLength == 0 { break; }
      }
    }

    /** longest_match: a better match than prevLength within the text read, or none. */
    method LongestMatch(curMatch: nat, ghost older: set<int>) returns (len: nat)
      requires Sized() && Shows(window[..], text, base, strstart + lookahead) && strstart + MIN_LOOKAHEAD <= 2 * wSize
      requires lookahead >= 3 && 1 <= prevLength <= MAX_MATCH
      requires 0 < curMatch && strstart - curMatch <= MaxDist() && LookedUp(curMatch, older)
      modifies `matchStart
      ensures len <= lookahead && len <= MAX_MATCH && (len >= prevLength || len == lookahead)
      ensures len > prevLength ==>
        matchStart < strstart && strstart - matchStart <= MaxDist()
          && Repeats(text, Place(), strstart - matchStart, len)
      // the best of the candidates visited, as far as there is text
      ensures Found(len, matchStart) == Within(old(Best(curMatch)), lookahead)
      ensures Longest(curMatch, Found(prevLength, old(matchStart)), old(Best(curMatch)))
    {
      hide LookedUp, Shows, Alike, Repeats, Sized, Pick, BestOf, Chain, Candidates, Nice, Best;
      BestIs(this, curMatch);
      ghost var found := Best(curMatch);
      ghost var m := PickIsBest(window[..], strstart, Candidates(curMatch), Nice(), Found(prevLength, matchStart));
      ghost var win, links := window[..], prev[..];
      var bestLen := Search(curMatch, older);
      assert window[..] == win && prev[..] == links;
      assert BestOf(window[..], strstart, Candidates(curMatch), Nice(), Found(prevLength, old(matchStart)), m, found);
      len := if bestLen <= lookahead then bestLen else lookahead;
      if len > prevLength {
        AlikeRepeats(window[..], text, base, strstart + lookahead, matchStart, strstart, bestLen, len);
      }
    }

    // ----- filling the window

    /** Every entry of a table moves down by the window size, from the top. */
    method SlideTable(p: array<int>)
      requires p.Length > 0
      modifies p
      ensures p[..] == AllSlid(old(p[..]), wSize)
    {
      var n := p.Length;
      while true
        invariant 0 < n <= p.Length
        invariant forall i :: 0 <= i < n ==> p[i] == old(p[i])
        invariant forall i :: n <= i < p.Length ==> p[i] == Slid(old(p[i]), wSize)
        decreases n
      {
        var m := p[n - 1];
        p[n - 1] := if m >= wSize then m - wSize else 0;
        n := n - 1;
        if n == 0 { break; }
      }
    }

    /** The upper half of the window is copied to the lower one. */
    method CopyDown()
      requires Sized() && Shows(window[..], text, base, strstart + lookahead) && wSize <= strstart
      modifies window
      ensures Shows(window[..], text, base + wSize, strstart + lookahead - wSize)
    {
      hide Shows;
      ghost var win := window[..];
      forall i | 0 <= i < wSize { window[i] := window[wSize + i]; }
      ShowsSlid(win, window[..], text, base, strstart + lookahead, wSize);
    }

    /** The window moves up by its size, and everything that refers to it down. */
    method Slide()
      requires Core() && strstart >= wSize + MaxDist()
      modifies `matchStart, `strstart, `base, window, prev, head
      ensures Core() && Place() == old(Place()) && strstart + wSize == old(strstart)
      ensures Wrap(strstart - 1 - matchStart) == old(Wrap(strstart - 1 - matchStart))
    {
      hide Shows, Chains, Rolling, AllSlid, Pow2, IsBytes, Wrap;
      CopyDown();
      WrapSlid(strstart, matchStart, wSize);
      matchStart := Wrap(matchStart - wSize);
      strstart := strstart - wSize;
      ChainsOk(Here(), head[..], prev[..], ins, last);
      SlideKeeps(Here(), head[..], prev[..], ins, last);
      SlideTable(head);
      SlideTable(prev);
      RollingSlid(insH, Here(), Place() + wSize);
      base := base + wSize;
    }

    /** read_buf into the free end of the window. */
    method ReadBuf(more: nat) returns (n: nat)
      requires Core() && strstart + lookahead + more <= 2 * wSize
      modifies `nextIn, `lookahead, `text, `insH, window
      ensures n == if |old(nextIn)| > more then more else |old(nextIn)|
      ensures lookahead == old(lookahead) + n && text == old(text) + old(nextIn)[..n] && nextIn == old(nextIn)[n..]
      ensures Sized() && Shows(window[..], text, base, strstart + lookahead)
      ensures Chains(Here(), head[..], prev[..], ins, last)
      ensures IsBytes(nextIn) && |insH| == hashBits && (n == 0 ==> Core())
    {
      hide Shows, Chains, Rolling, Pow2, IsBytes;
      n := |nextIn|;
      if n > more { n := more; }
      if n == 0 {
        assert text + nextIn[..0] == text && nextIn[0..] == nextIn;
        RollingLength(insH, Here(), Place());
        return;
      }
      ghost var win, heads, links := window[..], head[..], prev[..];
      var at := strstart + lookahead;
      forall i | at <= i < at + n { window[i] := nextIn[i - at]; }
      assert head[..] == heads && prev[..] == links;
      ShowsMore(win, window[..], text, base, at, nextIn, n);
      MoreText(Here(), nextIn[..n], head[..], prev[..], ins, last);
      RollingLength(insH, Here(), Place());
      text := text + nextIn[..n];
      nextIn := nextIn[n..];
      lookahead := lookahead + n;
    }

    /** The running key starts over at the strings still to be inserted, and those that are now
        complete are inserted. */
    method Rehash()
      requires Sized() && Shows(window[..], text, base, strstart + lookahead)
      requires Chains(Here(), head[..], prev[..], ins, last)
      requires insert <= 2 && insert <= strstart && last < Place() - insert && |insH| == hashBits
      requires lookahead + insert >= MIN_MATCH
      modifies `insH, `insert, `ins, `last, prev, head
      ensures Shows(window[..], text, base, strstart + lookahead)
      ensures Chains(Here(), head[..], prev[..], ins, last) && last < Place() && insert <= old(insert) && Pending()
      ensures ins == old(ins) + Span(Place() - old(insert), Place() - insert)
      ensures Rolling(insH, Here(), Place())
    {
      hide Shows, Chains, Rolling, Pow2, Wide, UpdateHash, Sized, Linked, Links, KeyOf, IsBytes, Newest, NewestLinks,
           Span;
      SizedIs(this);
      var str := strstart - insert;
      ShowsLength(window[..], text, base, strstart + lookahead);
      ChainsOk(Here(), head[..], prev[..], ins, last);
      FirstKey(window[..], Here(), str, strstart + lookahead);
      insH := Wide(hashBits, window[str]);
      insH := UpdateHash(insH, hashBits, hashShift, window[str + 1]);
      while insert > 0
        invariant insert <= old(insert) && str + insert == strstart && lookahead + insert >= MIN_MATCH
        invariant Rolling(insH, Here(), base + str)
        invariant Chains(Here(), head[..], prev[..], ins, last) && last < Place() - insert
        invariant ins == old(ins) + Span(Place() - old(insert), Place() - insert)
      {
        var _ := InsertString(str, strstart + lookahead);
        str := str + 1;
        insert := insert - 1;
        if lookahead + insert < MIN_MATCH {
          ShortRolling(insH, Here(), base + str, Place());
          break;
        }
      }
    }

    /** The bytes behind the data that longest_match may look at have been written. */
    ghost predicate Cleared()
      reads `strstart, `lookahead, `highWater
    {
      highWater >= 2 * wSize || highWater >= strstart + lookahead + WIN_INIT
    }

    /** The bytes behind the data that longest_match may look at are cleared once. */
    method ZeroAhead()
      requires Core()
      modifies `highWater, window
      ensures Core() && Cleared() && highWater >= old(highWater)
      ensures forall i :: 0 <= i < window.Length ==>
        window[i] == if highWater > i >= old(highWater) && i >= strstart + lookahead then 0 else old(window[i])
    {
      hide Shows, Chains, Rolling, Pow2, IsBytes;
      ShowsLength(window[..], text, base, strstart + lookahead);
      if highWater < 2 * wSize {
        var curr := strstart + lookahead;
        var from, n := curr, 0;
        if highWater < curr {
          n := if 2 * wSize - curr > WIN_INIT then WIN_INIT else 2 * wSize - curr;
          highWater := curr + n;
        } else if highWater < curr + WIN_INIT {
          from := highWater;
          n := curr + WIN_INIT - highWater;
          if n > 2 * wSize - highWater { n := 2 * wSize - highWater; }
          highWater := highWater + n;
        }
        ghost var win, heads, links := window[..], head[..], prev[..];
        forall i | from <= i < from + n { window[i] := 0; }
        assert head[..] == heads && prev[..] == links;
        ShowsZeroed(win, window[..], text, base, curr, from, n);
      }
    }

    /** The window slides when there is little room left behind the lookahead. */
    method MakeRoom()
      requires Core() && lookahead < MIN_LOOKAHEAD
      modifies `matchStart, `strstart, `base, window, prev, head
      ensures Core() && Place() == old(Place()) && strstart < wSize + MaxDist()
      ensures old(strstart) >= 1 ==> strstart >= 1
      ensures Wrap(strstart - 1 - matchStart) == old(Wrap(strstart - 1 - matchStart))
    {
      hide Core, Wrap;
      SizedCore(this);
      CoreLength(this);
      if strstart >= wSize + MaxDist() { Slide(); }
    }

    /** fill_window: bytes are read until there is lookahead enough or no input. */
    method FillWindow()
      requires Core() && lookahead < MIN_LOOKAHEAD
      modifies `insH, `strstart, `lookahead, `insert, `matchStart, `highWater, `nextIn, `text, `base, `ins, `last,
               window, prev, head
      ensures Core() && Place() == old(Place()) && text + nextIn == old(text + nextIn) && old(text) <= text
      ensures lookahead >= MIN_LOOKAHEAD || nextIn == []
      ensures strstart + MIN_LOOKAHEAD <= 2 * wSize && lookahead >= old(lookahead)
      ensures (old(strstart) >= 1 ==> strstart >= 1)
      ensures Wrap(strstart - 1 - matchStart) == old(Wrap(strstart - 1 - matchStart))
      ensures insert <= old(insert) && ins == old(ins) + Span(Place() - old(insert), Place() - insert) && Cleared()
    {
      hide Core, Wrap, Span, Cleared;
      SizedCore(this);
      NoSpan(Place() - insert);
      while true
        invariant Core() && Place() == old(Place()) && text + nextIn == old(text + nextIn) && old(text) <= text
        invariant lookahead < MIN_LOOKAHEAD && lookahead >= old(lookahead) && (old(strstart) >= 1 ==> strstart >= 1)
        invariant Wrap(strstart - 1 - matchStart) == old(Wrap(strstart - 1 - matchStart))
        invariant insert <= old(insert) && ins == old(ins) + Span(Place() - old(insert), Place() - insert)
        decreases |nextIn|
      {
        MakeRoom();
        if nextIn == [] { break; }
        ghost var pending := insert;
        ReadMore();
        SpanJoin(Place() - old(insert), Place() - pending, Place() - insert);
        if lookahead >= MIN_LOOKAHEAD || nextIn == [] { break; }
      }
      CoreLength(this);
      ZeroAhead();
    }

    /** Input goes into the window, and the running key follows. */
    method ReadMore()
      requires Core() && lookahead < MIN_LOOKAHEAD && strstart < wSize + MaxDist() && nextIn != []
      modifies `insH, `lookahead, `insert, `nextIn, `text, `ins, `last, window, prev, head
      ensures Core() && text + nextIn == old(text + nextIn) && old(text) <= text
      ensures |nextIn| < |old(nextIn)| && lookahead > old(lookahead)
      ensures insert <= old(insert) && ins == old(ins) + Span(Place() - old(insert), Place() - insert)
    {
      hide Shows, Chains, Rolling, Pow2, IsBytes, Span;
      NoSpan(Place() - insert);
      var more := 2 * wSize - lookahead - strstart;
      ghost var text0, in0 := text, nextIn;
      var n := ReadBuf(more);
      assert text0 + in0 == text0 + (in0[..n] + in0[n..]);
      ShowsLength(window[..], text, base, strstart + lookahead);
      if lookahead + insert >= MIN_MATCH {
        Rehash();
      } else {
        ChainsOk(Here(), head[..], prev[..], ins, last);
        ShortRolling(insH, Here(), Place(), Place());
      }
    }

    // ----- tallying

    /** _tr_tally_lit */
    method TallyLit(c: int) returns (bflush: bool)
      requires Tallied() && 0 <= c < 256 && |dBuf| < litBufsize - 1
      modifies `dBuf, `lBuf
      ensures Tallied() && Tokens() == old(Tokens()) + [Literal(c)]
      ensures |dBuf| <= litBufsize - 1 && (bflush <==> |dBuf| == litBufsize - 1)
    {
      dBuf, lBuf := dBuf + [0], lBuf + [c];
      assert Buffered(dBuf, lBuf) == Buffered(old(dBuf), old(lBuf)) + [Literal(c)];
      assert Tokens() == old(Tokens()) + [Literal(c)];
      bflush := |dBuf| == litBufsize - 1;
    }

    /** _tr_tally_dist: the distance is kept in 16 bits, the length less 3 in 8. */
    method TallyDist(dist: int, len: int) returns (bflush: bool)
      requires Tallied() && 1 <= dist <= MaxDist() <= 0xffff && 0 <= len <= 255 && |dBuf| < litBufsize - 1
      modifies `dBuf, `lBuf
      ensures Tallied() && Tokens() == old(Tokens()) + [Match(dist, len + 3)]
      ensures |dBuf| <= litBufsize - 1 && (bflush <==> |dBuf| == litBufsize - 1)
    {
      dBuf, lBuf := dBuf + [dist % 0x10000], lBuf + [len % 0x100];
      assert Buffered(dBuf, lBuf) == Buffered(old(dBuf), old(lBuf)) + [Match(dist, len + 3)];
      assert Tokens() == old(Tokens()) + [Match(dist, len + 3)];
      bflush := |dBuf| == litBufsize - 1;
    }

    /** FLUSH_BLOCK_ONLY: the buffered tokens become a block, and some output is given away. How
        much depends on the coding of the block. */
    method FlushBlock()
      requires Tallied()
      modifies `dBuf, `lBuf, `written, `availOut
      ensures Tallied() && Tokens() == old(Tokens()) && dBuf == [] && availOut <= old(availOut)
    {
      written := written + Buffered(dBuf, lBuf);
      dBuf, lBuf := [], [];
      var given: nat :| given <= availOut;
      availOut := availOut - given;
      assert written + Buffered([], []) == written;
    }

    // ----- deflate_fast

    ghost predicate FastState()
      reads `insH, `strstart, `lookahead, `insert, `highWater, `nextIn, `text, `base, `ins, `last, window, prev, head
      reads `matchLength, `prevLength, `written, `chosen, `dBuf, `lBuf
    {
      && Core() && Tallied() && matchLength < MIN_MATCH && prevLength == MIN_MATCH - 1
      && Covers(Tokens(), text, Place()) && Tokens() == chosen
    }

    /** The newest string with the key of that at strstart, if that is complete. */
    ghost function HeadHere(): (v: int)
      reads `text, `base, `strstart, `lookahead, head
    {
      if lookahead >= MIN_MATCH && Ok(Here()) && 0 <= KeyOf(Here(), Place()) < head.Length then
        head[..][KeyOf(Here(), Place())]
      else 0
    }

    /** The links once the string at strstart has joined the chain of its key. */
    ghost function LinksHere(): (s: seq<int>)
      reads `text, `base, `strstart, `lookahead, head, prev
    {
      if lookahead >= MIN_MATCH && 0 < wSize == prev.Length then prev[..][strstart % wSize := HeadHere()] else prev[..]
    }

    /** What longest_match finds for the string at strstart, if there is anything near enough, when a
        match of length len that starts at at is known. */
    ghost function Searched(len: nat, at: nat): (r: Found)
      requires 0 < HeadHere()
      reads `text, `base, `strstart, `lookahead, window, head, prev
    {
      Scout(config, window[..], LinksHere(), strstart, lookahead, MaxDist(), HeadHere(), len, at)
    }

    ghost predicate Near()
      reads `text, `base, `strstart, `lookahead, head
    {
      0 < HeadHere() && strstart - HeadHere() <= MaxDist()
    }

    /** What deflate_fast looks up. */
    ghost function FastFind(): (r: Found)
      reads `text, `base, `strstart, `lookahead, `matchLength, `matchStart, `prevLength, window, head, prev
    {
      if Near() then Within(Searched(prevLength, matchStart), lookahead) else Found(matchLength, matchStart)
    }

    /** What deflate_fast makes of the string at strstart: a pair, or a literal. */
    ghost function FastToken(): (t: Token)
      reads `text, `base, `strstart, `lookahead, `matchLength, `matchStart, `prevLength, window, head, prev
    {
      if FastFind().len >= MIN_MATCH then Match(Wrap(strstart - FastFind().at), FastFind().len)
      else if strstart < window.Length then Literal(window[..][strstart])
      else Literal(0)
    }

    /** The chain of the string at strstart, which is inserted if it is complete. */
    method LookUp() returns (hashHead: nat, ghost older: set<int>)
      requires Core() && lookahead > 0
      modifies `insH, `ins, `last, prev, head
      ensures Dealt(strstart + 1, strstart + lookahead)
      ensures hashHead != 0 ==> lookahead >= MIN_MATCH && hashHead < strstart && LookedUp(hashHead, older)
      ensures hashHead == old(HeadHere()) && prev[..] == old(LinksHere())
      ensures older == old(ins) && ins == older + Complete(text, Place(), Place() + 1) && Pending()
    {
      hide Shows, Chains, Rolling, Pow2, IsBytes, Ok, KeyOf, Linked, Links, Inserted, Newest, NewestLinks;
      hashHead, older := 0, ins;
      ShowsLength(window[..], text, base, strstart + lookahead);
      InsertedBefore(Here(), head[..], prev[..], ins, last, Place());
      if lookahead >= MIN_MATCH {
        hashHead := InsertString(strstart, strstart + lookahead);
        NotPast(Here(), hashHead, older, Place());
      } else {
        ShortRolling(insH, Here(), Place(), Place() + 1);
      }
    }

    /** older are the strings inserted before that at strstart, and curMatch has its key. */
    ghost predicate LookedUp(curMatch: nat, older: set<int>)
      reads `text, `base, `strstart, prev
    {
      && Ok(Here()) && Links(Here(), prev[..], older, Place()) && Inserted(Here(), older, Place() - 1)
      && NewestLinks(Here(), prev[..], older, Place())
      && Linked(Here(), curMatch, older, KeyOf(Here(), Place()))
      && Newest(Here(), curMatch, older, KeyOf(Here(), Place()), Place())
    }

    /** The string at strstart is inserted and looked up. */
    method FindFast()
      requires FastState() && lookahead > 0 && strstart + MIN_LOOKAHEAD <= 2 * wSize
      modifies `insH, `ins, `last, `matchStart, `matchLength, `chosen, prev, head
      ensures Dealt(strstart + 1, strstart + lookahead) && Pending()
      ensures matchLength >= MIN_MATCH ==> Matched(strstart, matchLength)
      ensures ins == old(ins) + Complete(text, Place(), Place() + 1)
      ensures Found(matchLength, matchStart) == old(FastFind()) && chosen == old(chosen) + [old(FastToken())]
    {
      hide Shows, IsBytes, Covers, Tallied, Repeats, LookedUp, Sized, Wrap, Dealt, FastToken, Scout, Within,
           HeadHere, LinksHere, FastFind, Near, Longest, Complete, Pending;
      SizedCore(this);
      FastFindIs(this);
      chosen := chosen + [FastToken()];
      ghost var older;
      ghost var win := window[..];
      var hashHead;
      hashHead, older := LookUp();
      assert window[..] == win;
      DealtSized(this, strstart + 1, strstart + lookahead);
      if hashHead != 0 && strstart - hashHead <= MaxDist() {
        matchLength := LongestMatch(hashHead, older);
        WrapSmall(strstart - matchStart);
      }
    }

    /** A usable match for the string at window place p. */
    ghost predicate Matched(p: int, len: int)
      reads `matchStart, `text, `base, `lookahead, `strstart
    {
      && len <= MAX_MATCH && 1 <= Wrap(p - matchStart) <= MaxDist() && p + len <= strstart + lookahead
      && Repeats(text, base + p, Wrap(p - matchStart), len)
    }

    /** All strings inside a short match are inserted. */
    method InsertInside(ghost filled: int)
      requires Dealt(strstart + 1, filled) && matchLength >= 2 && strstart + matchLength + 3 <= filled
      modifies `insH, `ins, `last, `strstart, `matchLength, prev, head
      ensures Dealt(strstart, filled) && strstart == old(strstart + matchLength) && matchLength == 0
      ensures ins == old(ins) + Span(old(Place()) + 1, Place())
    {
      hide Shows, Chains, Rolling, Pow2, IsBytes, Sized, Linked, Links, Ok, KeyOf, Newest, NewestLinks, Span;
      SizedIs(this);
      ShowsLength(window[..], text, base, filled);
      matchLength := matchLength - 1;
      while true
        invariant matchLength >= 1 && strstart + matchLength + 1 == old(strstart + matchLength)
        invariant Dealt(strstart + 1, filled) && ins == old(ins) + Span(old(Place()) + 1, Place() + 1)
        decreases matchLength
      {
        strstart := strstart + 1;
        var _ := InsertString(strstart, filled);
        matchLength := matchLength - 1;
        if matchLength == 0 { break; }
      }
      strstart := strstart + 1;
    }

    /** A long match is passed over, and the running key starts over behind it. */
    method PassOver(ghost filled: int)
      requires Dealt(strstart + 1, filled) && matchLength >= 1 && strstart + matchLength <= filled
      requires strstart + matchLength + 1 < 2 * wSize
      modifies `insH, `strstart, `matchLength
      ensures Dealt(strstart, filled) && strstart == old(strstart + matchLength) && matchLength == 0
    {
      hide Shows, Chains, Rolling, Pow2, Sized, UpdateHash, Wide;
      SizedIs(this);
      ChainsOk(Here(), head[..], prev[..], ins, last);
      WindowBytes(window[..], text, base, filled);
      ShowsLength(window[..], text, base, filled);
      strstart := strstart + matchLength;
      matchLength := 0;
      insH := Wide(hashBits, window[strstart]);
      insH := UpdateHash(insH, hashBits, hashShift, window[strstart + 1]);
      if base + strstart + 3 <= |text| {
        FirstKey(window[..], Here(), strstart, filled);
      } else {
        ShortRolling(insH, Here(), base + strstart, base + strstart);
      }
    }

    /** The match found is tallied, and the strings in it are inserted or passed over. */
    method EmitMatch() returns (bflush: bool)
      requires Dealt(strstart + 1, strstart + lookahead) && Pending()
      requires strstart + MIN_LOOKAHEAD <= 2 * wSize
      requires Tallied() && |dBuf| < litBufsize - 1 && prevLength == MIN_MATCH - 1 && Covers(Tokens(), text, Place())
      requires matchLength >= MIN_MATCH && Matched(strstart, matchLength)
      requires chosen == Tokens() + [Match(Wrap(strstart - matchStart), matchLength)]
      modifies `insH, `ins, `last, `strstart, `lookahead, `matchLength, `dBuf, `lBuf, prev, head
      ensures FastState() && lookahead < old(lookahead) && old(Tokens()) <= Tokens()
      ensures Place() == old(Place()) + old(matchLength)
      ensures ins == old(ins) +
        if old(matchLength) <= config.maxLazy && lookahead >= MIN_MATCH then Complete(text, old(Place()) + 1, Place())
        else {}
      ensures |dBuf| <= litBufsize - 1 && (bflush <==> |dBuf| == litBufsize - 1)
    {
      hide Shows, Chains, Rolling, IsBytes, Covers, Tallied, Repeats, Sized, Tokens, Wrap, Dealt, Span, Complete;
      DealtSized(this, strstart + 1, strstart + lookahead);
      ghost var filled := strstart + lookahead;
      CoverMatch(Tokens(), text, Place(), Wrap(strstart - matchStart), matchLength);
      bflush := TallyDist(Wrap(strstart - matchStart), matchLength - MIN_MATCH);
      lookahead := lookahead - matchLength;
      if matchLength <= config.maxLazy && lookahead >= MIN_MATCH {
        InsertInside(filled);
        DealtLength(this, filled);
        SpanComplete(text, old(Place()) + 1, Place());
      } else {
        PassOver(filled);
      }
    }

    /** A literal is tallied. */
    method EmitLiteral() returns (bflush: bool)
      requires Dealt(strstart + 1, strstart + lookahead) && Pending()
      requires lookahead > 0 && Tallied() && |dBuf| < litBufsize - 1 && Covers(Tokens(), text, Place())
      requires prevLength == MIN_MATCH - 1 && matchLength < MIN_MATCH
      requires strstart < window.Length && chosen == Tokens() + [Literal(window[strstart])]
      modifies `strstart, `lookahead, `dBuf, `lBuf
      ensures FastState() && lookahead < old(lookahead) && old(Tokens()) <= Tokens()
      ensures Place() == old(Place()) + 1
      ensures |dBuf| <= litBufsize - 1 && (bflush <==> |dBuf| == litBufsize - 1)
    {
      hide Shows, Covers, Tallied, Sized, Tokens, Dealt;
      DealtSized(this, strstart + 1, strstart + lookahead);
      ShowsAt(window[..], text, base, strstart + lookahead, strstart);
      CoverLiteral(Tokens(), text, Place());
      bflush := TallyLit(window[strstart]);
      lookahead := lookahead - 1;
      strstart := strstart + 1;
    }

    /** FLUSH_BLOCK in deflate_fast. */
    method FlushFast()
      requires FastState()
      modifies `dBuf, `lBuf, `written, `availOut
      ensures FastState() && Tokens() == old(Tokens()) && dBuf == [] && availOut <= old(availOut)
    {
      hide Core, Covers, Tallied, Matched, Tokens;
      FlushBlock();
    }

    /** One match or literal. */
    method StepFast() returns (stop: bool)
      requires FastState() && |dBuf| < litBufsize - 1 && lookahead > 0 && strstart + MIN_LOOKAHEAD <= 2 * wSize
      modifies this, prev, head
      ensures FastState() && |dBuf| < litBufsize - 1 && lookahead < old(lookahead)
      ensures Tokens() == old(Tokens()) + [old(FastToken())]
      ensures Place() == old(Place()) + if old(FastToken()).Match? then old(FastToken()).len else 1
      // all strings of the text told are inserted, but those inside a long match
      ensures ins == old(ins) +
        if old(FastToken()).Match? && (old(FastToken()).len > config.maxLazy || lookahead < MIN_MATCH) then
          Complete(text, old(Place()), old(Place()) + 1)
        else Complete(text, old(Place()), Place())
      ensures text == old(text) && nextIn == old(nextIn) && (stop ==> availOut == 0)
    {
      hide Dealt, Covers, Tallied, Sized, Tokens, Matched, Core, FastState, FastFind, Wrap, Complete, Pending;
      FastParts(this);
      ghost var win := window[..];
      FindFast();
      assert window[..] == win;
      var bflush;
      if matchLength >= MIN_MATCH { bflush := EmitMatch(); } else { bflush := EmitLiteral(); }
      stop := false;
      if bflush {
        FlushFast();
        stop := availOut == 0;
      }
      FastParts(this);
    }

    /** What every call of a compression function keeps and tells. */
    ghost predicate Told(flush: Flush, r: BlockState)
      reads `lookahead, `nextIn, `availOut, `dBuf, `written, `lBuf, `text
    {
      match r
      case NeedMore => availOut == 0 || (flush == NoFlush && nextIn == [] && lookahead < MIN_LOOKAHEAD)
      case BlockDone => flush != NoFlush && flush != Finish && AllTold()
      case FinishStarted => flush == Finish && availOut == 0 && AllTold()
      case FinishDone => flush == Finish && AllTold()
    }

    /** The last strings, which are not complete, are to be inserted when more text comes. */
    ghost predicate Waiting()
      reads `strstart, `insert
    {
      insert == if strstart < MIN_MATCH - 1 then strstart else MIN_MATCH - 1
    }

    /** All input is in tokens, and all tokens in blocks. */
    ghost predicate AllTold()
      reads `lookahead, `nextIn, `dBuf, `written, `lBuf, `text
    {
      nextIn == [] && lookahead == 0 && dBuf == [] && Covers(Tokens(), text, |text|)
    }

    /** deflate_fast: the tokens stand for the text passed, whatever the pieces it came in. */
    method DeflateFast(flush: Flush) returns (r: BlockState)
      requires FastState() && |dBuf| < litBufsize - 1
      modifies this, window, prev, head
      ensures FastState() && |dBuf| < litBufsize - 1
      ensures text + nextIn == old(text + nextIn) && old(Tokens()) <= Tokens()
      ensures Told(flush, r) && (r != NeedMore ==> Waiting())
    {
      hide Core, Covers, Tallied, Tokens, FastState, Waiting;
      while true
        invariant FastState() && |dBuf| < litBufsize - 1
        invariant text + nextIn == old(text + nextIn) && old(Tokens()) <= Tokens()
        decreases |nextIn| + lookahead
      {
        FillFast();
        if lookahead < MIN_LOOKAHEAD && flush == NoFlush { return NeedMore; }
        if lookahead == 0 { break; }
        var stop := StepFast();
        if stop { return NeedMore; }
      }
      EndFast();
      FastParts(this);
      r := LastBlock(flush);
    }

    /** With the input used up, the strings that are not complete yet are counted. */
    method EndFast()
      requires FastState() && lookahead == 0
      modifies `insert
      ensures FastState() && Waiting() && Covers(Tokens(), text, |text|)
    {
      hide Covers, Tallied, Core, Tokens, Waiting;
      AllPassed(this);
      CountPending();
    }

    /** More lookahead, if there is little. */
    method FillFast()
      requires FastState()
      modifies `insH, `strstart, `lookahead, `insert, `matchStart, `highWater, `nextIn, `text, `base, `ins, `last,
               window, prev, head
      ensures FastState() && text + nextIn == old(text + nextIn) && |nextIn| + lookahead == old(|nextIn| + lookahead)
      ensures (lookahead >= MIN_LOOKAHEAD || nextIn == []) && strstart + MIN_LOOKAHEAD <= 2 * wSize
    {
      hide Dealt, Covers, Tallied, Sized, Tokens, Wrap;
      CoreLength(this);
      if lookahead < MIN_LOOKAHEAD {
        ghost var text0 := text;
        FillWindow();
        CoreLength(this);
        assert text == text0 + text[|text0|..];
        CoverMoreText(Tokens(), text0, Place(), text[|text0|..]);
      }
    }

    /** The end of a call whose input is used up. */
    method LastBlock(flush: Flush) returns (r: BlockState)
      requires Tallied() && flush != NoFlush && nextIn == [] && lookahead == 0 && Covers(Tokens(), text, |text|)
      modifies `dBuf, `lBuf, `written, `availOut
      ensures Tallied() && Tokens() == old(Tokens()) && dBuf == [] && Told(flush, r)
      ensures (old(FastState()) ==> FastState()) && (old(SlowState()) ==> SlowState())
    {
      hide Covers, Tallied, Tokens, Core, Matched;
      NoneBuffered(this);
      if flush == Finish {
        FlushBlock();
        return if availOut == 0 then FinishStarted else FinishDone;
      }
      if dBuf != [] {
        FlushBlock();
        if availOut == 0 { return NeedMore; }
      }
      r := BlockDone;
    }

    // ----- deflate_slow

    /** The bytes before strstart that are still to be told: one, if a match is being put off. */
    ghost function PutOff(): (n: nat)
      reads `matchAvailable
    {
      if matchAvailable then 1 else 0
    }

    ghost predicate SlowState()
      reads `insH, `strstart, `lookahead, `insert, `highWater, `nextIn, `text, `base, `ins, `last, window, prev, head
      reads `matchLength, `matchStart, `matchAvailable, `written, `chosen, `dBuf, `lBuf
    {
      && Core() && Tallied() && matchLength >= MIN_MATCH - 1 && (matchAvailable ==> strstart >= 1)
      && (matchLength >= MIN_MATCH ==> matchAvailable && Matched(strstart - 1, matchLength))
      && Covers(Tokens(), text, Place() - PutOff()) && Tokens() == chosen
    }

    /** A short match is given up if it is far away, or in any case under the filtered strategy. */
    ghost function Lazy(best: Found): (r: Found)
      reads `strstart, `lookahead
    {
      var f := Within(best, lookahead);
      var far := f.len == MIN_MATCH && Wrap(strstart - f.at) > TOO_FAR;
      if f.len <= 5 && (filtered || far) then f.(len := MIN_MATCH - 1) else f
    }

    /** What the lazy evaluation looks up: nothing if the match put off is long enough. */
    ghost function SlowFind(): (r: Found)
      reads `text, `base, `strstart, `lookahead, `matchLength, `matchStart, window, head, prev
    {
      if Near() && matchLength < config.maxLazy then Lazy(Searched(matchLength, matchStart))
      else Found(MIN_MATCH - 1, matchStart)
    }

    /** What the lazy evaluation tells: the match put off, if what is found now is no longer; or the byte
        put off. */
    ghost function SlowTokens(): (ts: seq<Token>)
      reads `text, `base, `strstart, `lookahead, `matchLength, `matchStart, `matchAvailable, window, head, prev
    {
      if matchLength >= MIN_MATCH && SlowFind().len <= matchLength then
        [Match(Wrap(strstart - 1 - matchStart), matchLength)]
      else if matchAvailable && 1 <= strstart <= window.Length then [Literal(window[..][strstart - 1])]
      else []
    }

    /** The match put off, if there is one. */
    ghost predicate PutOffMatch()
      reads `prevMatch, `prevLength, `text, `base, `lookahead, `strstart, `matchAvailable
    {
      prevLength >= MIN_MATCH ==>
        && matchAvailable && strstart >= 1 && prevLength <= MAX_MATCH
        && 1 <= Wrap(strstart - 1 - prevMatch) <= MaxDist()
        && prevLength <= lookahead + 1 && Repeats(text, Place() - 1, Wrap(strstart - 1 - prevMatch), prevLength)
    }

    /** The search, and the second thoughts about short matches that are far away. */
    method Better(hashHead: nat, ghost older: set<int>)
      requires Dealt(strstart + 1, strstart + lookahead) && strstart + MIN_LOOKAHEAD <= 2 * wSize
      requires lookahead >= MIN_MATCH && MIN_MATCH - 1 <= prevLength <= MAX_MATCH && LookedUp(hashHead, older)
      requires 0 < hashHead && strstart - hashHead <= MaxDist()
      modifies `matchStart, `matchLength
      ensures matchLength >= MIN_MATCH - 1 && (matchLength > prevLength ==> Matched(strstart, matchLength))
      ensures Found(matchLength, matchStart) == Lazy(old(Best(hashHead)))
    {
      hide Shows, Repeats, LookedUp, Sized, Wrap, Dealt, Matched, Scout, Best, Longest;
      DealtSized(this, strstart + 1, strstart + lookahead);
      matchLength := LongestMatch(hashHead, older);
      FoundIs(this, matchLength);
      if matchLength <= 5 && (filtered || (matchLength == MIN_MATCH && Wrap(strstart - matchStart) > TOO_FAR)) {
        matchLength := MIN_MATCH - 1;
      }
    }

    /** The last match found is put off. */
    method SetAside()
      requires matchLength >= MIN_MATCH ==> matchAvailable && strstart >= 1 && Matched(strstart - 1, matchLength)
      modifies `prevLength, `prevMatch, `matchLength
      ensures prevLength == old(matchLength) && prevMatch == matchStart && matchLength == MIN_MATCH - 1 && PutOffMatch()
    {
      hide Matched, PutOffMatch;
      prevLength, prevMatch := matchLength, matchStart;
      PuttingOff(this);
      matchLength := MIN_MATCH - 1;
    }

    /** The string at strstart is inserted and looked up; the last match found is put off. */
    method FindSlow()
      requires SlowState() && lookahead > 0 && strstart + MIN_LOOKAHEAD <= 2 * wSize
      modifies `insH, `ins, `last, `matchStart, `matchLength, `prevMatch, `prevLength, `chosen, prev, head
      ensures Dealt(strstart + 1, strstart + lookahead) && prevLength >= MIN_MATCH - 1 && PutOffMatch() && Pending()
      ensures matchLength >= MIN_MATCH - 1 && (matchLength > prevLength ==> Matched(strstart, matchLength))
      ensures ins == old(ins) + Complete(text, Place(), Place() + 1)
      ensures prevLength == old(matchLength) && prevMatch == old(matchStart)
      ensures Found(matchLength, matchStart) == old(SlowFind()) && chosen == old(chosen) + old(SlowTokens())
    {
      hide Shows, Repeats, LookedUp, Sized, Dealt, Matched, PutOffMatch, SlowState, Core, SlowTokens, Scout, Within,
           HeadHere, LinksHere, Lazy, SlowFind, Near, Longest, Best, Searched, Complete, Pending;
      SlowIs(this);
      SizedCore(this);
      SlowFindIs(this);
      ghost var found := SlowFind();
      chosen := chosen + SlowTokens();
      ghost var older;
      ghost var win := window[..];
      var hashHead;
      hashHead, older := LookUp();
      assert window[..] == win;
      SetAside();
      BestScout(this, hashHead);
      if hashHead != 0 && prevLength < config.maxLazy && strstart - hashHead <= MaxDist() {
        Better(hashHead, older);
      }
    }

    /** The next string is inserted, if it is complete. */
    method InsertNext(maxInsert: int, ghost filled: int)
      requires Dealt(strstart + 1, filled) && maxInsert == filled - MIN_MATCH && strstart + 1 < filled
      modifies `insH, `ins, `last, `strstart, prev, head
      ensures Dealt(strstart + 1, filled) && strstart == old(strstart) + 1
      ensures ins == old(ins) + Complete(text, Place(), Place() + 1)
    {
      hide Shows, Chains, Rolling, Pow2, IsBytes, Sized, Linked, Links, Ok, KeyOf, Newest, NewestLinks, Complete;
      SizedIs(this);
      ShowsLength(window[..], text, base, filled);
      strstart := strstart + 1;
      OneComplete(text, Place());
      if strstart <= maxInsert {
        var _ := InsertString(strstart, filled);
      } else {
        ChainsOk(Here(), head[..], prev[..], ins, last);
        ShortRolling(insH, Here(), base + strstart, base + strstart + 1);
      }
    }

    /** The strings in the match told are inserted, as far as they are complete. */
    method InsertAfter(maxInsert: int, ghost filled: int)
      requires Dealt(strstart + 1, filled) && maxInsert == filled - MIN_MATCH && prevLength >= 1
      requires strstart + prevLength < filled
      modifies `insH, `ins, `last, `strstart, `prevLength, prev, head
      ensures Dealt(strstart, filled) && strstart == old(strstart + prevLength) + 1
      ensures ins == old(ins) + Complete(text, old(Place()) + 1, Place())
    {
      hide Dealt, Complete;
      NothingComplete(text, Place() + 1);
      while true
        invariant prevLength >= 1 && strstart + prevLength == old(strstart + prevLength) && Dealt(strstart + 1, filled)
        invariant old(Place()) <= Place() && ins == old(ins) + Complete(text, old(Place()) + 1, Place() + 1)
        decreases prevLength
      {
        InsertNext(maxInsert, filled);
        CompleteSnoc(text, old(Place()) + 1, Place());
        prevLength := prevLength - 1;
        if prevLength == 0 { break; }
      }
      strstart := strstart + 1;
    }

    /** The pair of the match put off. */
    method TellMatch() returns (bflush: bool)
      requires Dealt(strstart + 1, strstart + lookahead)
      requires Tallied() && |dBuf| < litBufsize - 1 && Covers(Tokens(), text, Place() - PutOff())
      requires prevLength >= MIN_MATCH && PutOffMatch()
      modifies `dBuf, `lBuf
      ensures Tallied() && Covers(Tokens(), text, Place() - 1 + prevLength) && prevLength <= lookahead + 1
      ensures Tokens() == old(Tokens()) + [Match(Wrap(strstart - 1 - prevMatch), prevLength)]
      ensures |dBuf| <= litBufsize - 1 && (bflush <==> |dBuf| == litBufsize - 1)
    {
      hide Shows, Covers, Tallied, Repeats, Sized, Tokens, Wrap, Dealt;
      DealtSized(this, strstart + 1, strstart + lookahead);
      CoverMatch(Tokens(), text, Place() - 1, Wrap(strstart - 1 - prevMatch), prevLength);
      bflush := TallyDist(Wrap(strstart - 1 - prevMatch), prevLength - MIN_MATCH);
    }

    /** No better match: the one put off is told. */
    method EmitPutOff() returns (bflush: bool)
      requires Dealt(strstart + 1, strstart + lookahead) && Pending()
      requires Tallied() && |dBuf| < litBufsize - 1 && Covers(Tokens(), text, Place() - PutOff())
      requires prevLength >= MIN_MATCH && PutOffMatch()
      requires chosen == Tokens() + [Match(Wrap(strstart - 1 - prevMatch), prevLength)]
      modifies `insH, `ins, `last, `strstart, `lookahead, `matchLength, `prevLength, `matchAvailable, `dBuf, `lBuf,
               prev, head
      ensures SlowState() && lookahead < old(lookahead) && old(Tokens()) <= Tokens()
      ensures ins == old(ins) + Complete(text, old(Place()) + 1, Place()) && old(Place()) < Place()
      ensures |dBuf| <= litBufsize - 1 && (bflush <==> |dBuf| == litBufsize - 1)
    {
      hide Covers, Tallied, Tokens, Wrap, Dealt, Complete, SlowState, Core, PutOffMatch;
      ghost var filled := strstart + lookahead;
      var maxInsert := strstart + lookahead - MIN_MATCH;
      bflush := TellMatch();
      lookahead := lookahead - (prevLength - 1);
      prevLength := prevLength - 2;
      InsertAfter(maxInsert, filled);
      matchAvailable := false;
      matchLength := MIN_MATCH - 1;
      CoreMake(this);
      SlowMake(this);
    }

    /** The byte before strstart is told as a literal. */
    method TellBefore() returns (bflush: bool)
      requires Shows(window[..], text, base, strstart + lookahead)
      requires strstart >= 1 && |window[..]| >= strstart + lookahead
      requires Tallied() && |dBuf| < litBufsize - 1 && Covers(Tokens(), text, Place() - 1)
      modifies `dBuf, `lBuf
      ensures Tallied() && Covers(Tokens(), text, Place())
      ensures Tokens() == old(Tokens()) + [Literal(window[..][strstart - 1])]
      ensures |dBuf| <= litBufsize - 1 && (bflush <==> |dBuf| == litBufsize - 1)
    {
      hide Shows, Covers, Tallied, Tokens;
      ShowsLength(window[..], text, base, strstart + lookahead);
      ShowsAt(window[..], text, base, strstart + lookahead, strstart - 1);
      CoverLiteral(Tokens(), text, Place() - 1);
      bflush := TallyLit(window[strstart - 1]);
    }

    /** The byte before strstart is told as a literal, or put off together with what was found. */
    method PutOffOne() returns (bflush: bool)
      requires Dealt(strstart + 1, strstart + lookahead) && Pending() && lookahead > 0
      requires Tallied() && |dBuf| < litBufsize - 1 && Covers(Tokens(), text, Place() - PutOff()) && PutOffMatch()
      requires matchAvailable ==> strstart >= 1
      requires prevLength >= MIN_MATCH - 1 && matchLength >= MIN_MATCH - 1
      requires (matchLength > prevLength ==> Matched(strstart, matchLength))
      requires prevLength >= MIN_MATCH ==> matchLength > prevLength
      requires chosen == Tokens()
        + if matchAvailable && strstart <= window.Length then [Literal(window[..][strstart - 1])] else []
      modifies `strstart, `lookahead, `matchAvailable, `dBuf, `lBuf
      ensures SlowState() && lookahead < old(lookahead) && old(Tokens()) <= Tokens()
      ensures strstart == old(strstart) + 1
      ensures |dBuf| <= litBufsize - 1 && (bflush <==> |dBuf| == litBufsize - 1) && (bflush ==> old(matchAvailable))
    {
      hide Shows, Covers, Tallied, Sized, Tokens, Dealt, Matched, SlowState, Pending, PutOffMatch;
      DealtSized(this, strstart + 1, strstart + lookahead);
      bflush := false;
      if matchAvailable {
        bflush := TellBefore();
      } else {
        assert chosen == Tokens() + [] == Tokens();
      }
      PutOffByte();
    }

    /** The byte at strstart is put off. */
    method PutOffByte()
      requires Dealt(strstart + 1, strstart + lookahead) && Pending() && lookahead > 0
      requires Tallied() && Covers(Tokens(), text, Place()) && Tokens() == chosen
      requires matchLength >= MIN_MATCH - 1 && (matchLength >= MIN_MATCH ==> Matched(strstart, matchLength))
      modifies `strstart, `lookahead, `matchAvailable
      ensures SlowState() && strstart == old(strstart) + 1 && lookahead == old(lookahead) - 1
    {
      hide Covers, Tallied, Tokens, Dealt, Repeats, Wrap, SlowState, Core;
      matchAvailable := true;
      strstart := strstart + 1;
      lookahead := lookahead - 1;
      CoreMake(this);
      SlowOn(this);
    }

    /** FLUSH_BLOCK in deflate_slow. */
    method FlushSlow()
      requires SlowState()
      modifies `dBuf, `lBuf, `written, `availOut
      ensures SlowState() && Tokens() == old(Tokens()) && dBuf == [] && availOut <= old(availOut)
    {
      hide Core, Covers, Tallied, Matched, Tokens;
      FlushBlock();
    }

    /** The match put off is told, or the byte put off. */
    method TellSlow() returns (stop: bool)
      requires Dealt(strstart + 1, strstart + lookahead) && Pending() && lookahead > 0
      requires Tallied() && |dBuf| < litBufsize - 1 && Covers(Tokens(), text, Place() - PutOff()) && PutOffMatch()
      requires matchAvailable ==> 1 <= strstart <= window.Length
      requires litBufsize >= 2 && prevLength >= MIN_MATCH - 1 && matchLength >= MIN_MATCH - 1
      requires matchLength > prevLength ==> Matched(strstart, matchLength)
      requires chosen == Tokens() +
        if prevLength >= MIN_MATCH && matchLength <= prevLength then [Match(Wrap(strstart - 1 - prevMatch), prevLength)]
        else if matchAvailable then [Literal(window[..][strstart - 1])]
        else []
      modifies this, prev, head
      ensures SlowState() && |dBuf| < litBufsize - 1 && lookahead < old(lookahead) && chosen == old(chosen)
      ensures old(Place()) < Place() && ins == old(ins) + Complete(text, old(Place()) + 1, Place())
      ensures text == old(text) && nextIn == old(nextIn) && (stop ==> availOut == 0)
    {
      hide Dealt, Covers, Tallied, Sized, Tokens, Matched, PutOffMatch, Core, SlowState, Wrap, Complete, Pending;
      var bflush;
      if prevLength >= MIN_MATCH && matchLength <= prevLength {
        bflush := EmitPutOff();
        stop := false;
        if bflush {
          FlushSlow();
          stop := availOut == 0;
        }
      } else {
        var told := matchAvailable;
        bflush := PutOffOne();
        if bflush { FlushSlow(); }
        stop := told && availOut == 0;
        NothingComplete(text, Place());
      }
    }

    /** One step of the lazy evaluation. */
    method StepSlow() returns (stop: bool)
      requires SlowState() && |dBuf| < litBufsize - 1 && lookahead > 0 && strstart + MIN_LOOKAHEAD <= 2 * wSize
      modifies this, prev, head
      ensures SlowState() && |dBuf| < litBufsize - 1 && lookahead < old(lookahead)
      ensures Tokens() == old(Tokens()) + old(SlowTokens())
      ensures old(Place()) < Place() && ins == old(ins) + Complete(text, old(Place()), Place())
      ensures text == old(text) && nextIn == old(nextIn) && (stop ==> availOut == 0)
    {
      hide Dealt, Covers, Tallied, Sized, Tokens, Matched, PutOffMatch, Core, SlowState, SlowFind, Wrap,
           Complete, Pending;
      SlowParts(this);
      ghost var win := window[..];
      FindSlow();
      assert window[..] == win;
      stop := TellSlow();
      SlowParts(this);
      CompleteJoin(text, old(Place()), Place());
    }

    method FillSlow()
      requires SlowState()
      modifies `insH, `strstart, `lookahead, `insert, `matchStart, `highWater, `nextIn, `text, `base, `ins, `last,
               window, prev, head
      ensures SlowState() && text + nextIn == old(text + nextIn) && |nextIn| + lookahead == old(|nextIn| + lookahead)
      ensures (lookahead >= MIN_LOOKAHEAD || nextIn == []) && strstart + MIN_LOOKAHEAD <= 2 * wSize
    {
      hide Dealt, Covers, Tallied, Sized, Tokens, Wrap, Repeats;
      CoreLength(this);
      if lookahead < MIN_LOOKAHEAD {
        ghost var text0, p := text, Place();
        ghost var dist := Wrap(strstart - 1 - matchStart);
        FillWindow();
        CoreLength(this);
        assert text == text0 + text[|text0|..];
        CoverMoreText(Tokens(), text0, p - PutOff(), text[|text0|..]);
        RepeatsMore(text0, text, p - 1, dist, matchLength);
      }
    }

    /** deflate_slow: the tokens stand for the text passed, less the byte put off. */
    method DeflateSlow(flush: Flush) returns (r: BlockState)
      requires SlowState() && |dBuf| < litBufsize - 1
      modifies this, window, prev, head
      ensures SlowState() && |dBuf| < litBufsize - 1
      ensures text + nextIn == old(text + nextIn) && old(Tokens()) <= Tokens()
      ensures Told(flush, r) && (r != NeedMore ==> !matchAvailable && Waiting())
    {
      hide Core, Covers, Tallied, Tokens, Matched, SlowState, Waiting;
      while true
        invariant SlowState() && |dBuf| < litBufsize - 1
        invariant text + nextIn == old(text + nextIn) && old(Tokens()) <= Tokens()
        decreases |nextIn| + lookahead
      {
        FillSlow();
        if lookahead < MIN_LOOKAHEAD && flush == NoFlush { return NeedMore; }
        if lookahead == 0 { break; }
        var stop := StepSlow();
        if stop { return NeedMore; }
      }
      LastPutOff();
      SlowParts(this);
      r := LastBlock(flush);
    }

    /** The byte put off is told. */
    method TellPutOff()
      requires SlowState() && |dBuf| < litBufsize - 1 && lookahead == 0 && matchAvailable
      modifies `matchAvailable, `dBuf, `lBuf, `chosen
      ensures Tallied() && Covers(Tokens(), text, Place()) && Tokens() == chosen
      ensures !matchAvailable && |dBuf| <= litBufsize - 1 && old(Tokens()) <= Tokens()
    {
      hide Shows, Covers, Tallied, Sized, Tokens, Core, Matched;
      SlowParts(this);
      CoreLength(this);
      CoreShows(this);
      chosen := chosen + [Literal(window[..][strstart - 1])];
      var _ := TellBefore();
      matchAvailable := false;
    }

    /** With the input used up, the byte put off is told. */
    method LastPutOff()
      requires SlowState() && |dBuf| < litBufsize - 1 && lookahead == 0
      modifies `matchAvailable, `dBuf, `lBuf, `insert, `chosen
      ensures SlowState() && !matchAvailable && Covers(Tokens(), text, |text|) && old(Tokens()) <= Tokens()
      ensures |dBuf| <= litBufsize - 1 && Waiting()
    {
      hide Covers, Tallied, Tokens, Core, SlowState, Matched, Waiting;
      SlowParts(this);
      SlowMatch(this);
      AllPassed(this);
      if matchAvailable { TellPutOff(); }
      CountPending();
      SlowMake(this);
    }

    /** The strings that are not complete yet are counted. */
    method CountPending()
      requires Core() && lookahead == 0
      modifies `insert
      ensures Core() && Waiting()
    {
      hide Dealt;
      LastPassed(this);
      insert := if strstart < MIN_MATCH - 1 then strstart else MIN_MATCH - 1;
    }
  }

  /** With no lookahead, a match that may be put off is at most one byte long. */
  lemma SlowMatch(d: Deflate)
    requires d.SlowState() && d.lookahead == 0
    ensures d.Core() && d.matchLength == MIN_MATCH - 1
  {
    hide Deflate.Dealt, Covers, Deflate.Tallied, Repeats, Wrap;
  }

  lemma DealtLength(d: Deflate, filled: int)
    requires d.Dealt(d.strstart, filled)
    ensures d.base + filled == |d.text|
  {
    hide Chains, Rolling;
  }

  lemma SpanComplete(text: seq<int>, p: int, q: int)
    requires q + 2 <= |text|
    ensures Span(p, q) == Complete(text, p, q)
  {
  }

  lemma NoSpan(p: int)
    ensures Span(p, p) == {}
  {
  }

  lemma SpanJoin(p: int, q: int, r: int)
    requires p <= q <= r
    ensures Span(p, q) + Span(q, r) == Span(p, r)
  {
  }

  lemma OneComplete(text: seq<int>, p: int)
    ensures Complete(text, p, p + 1) == if p + 3 <= |text| then {p} else {}
  {
  }

  lemma CompleteSnoc(text: seq<int>, p: int, q: int)
    requires p <= q
    ensures Complete(text, p, q) + Complete(text, q, q + 1) == Complete(text, p, q + 1)
  {
  }

  lemma NothingComplete(text: seq<int>, p: int)
    ensures Complete(text, p, p) == {}
  {
  }

  lemma CompleteJoin(text: seq<int>, p: int, q: int)
    requires p < q
    ensures Complete(text, p, p + 1) + Complete(text, p + 1, q) == Complete(text, p, q)
  {
  }

  lemma CoreMake(d: Deflate)
    requires d.Dealt(d.strstart, d.strstart + d.lookahead) && d.Pending()
    ensures d.Core()
  {
  }

  lemma SlowOn(d: Deflate)
    requires d.Core() && d.Tallied() && d.matchLength >= MIN_MATCH - 1 && d.matchAvailable && d.strstart >= 1
    requires d.matchLength >= MIN_MATCH ==> d.Matched(d.strstart - 1, d.matchLength)
    requires Covers(d.Tokens(), d.text, d.Place() - 1) && d.Tokens() == d.chosen
    ensures d.SlowState()
  {
    hide Deflate.Core, Covers, Deflate.Tallied, Deflate.Tokens, Deflate.Matched;
  }

  lemma SlowMake(d: Deflate)
    requires d.Core() && d.Tallied() && d.matchLength == MIN_MATCH - 1 && !d.matchAvailable
    requires Covers(d.Tokens(), d.text, d.Place()) && d.Tokens() == d.chosen
    ensures d.SlowState()
  {
    hide Deflate.Core, Covers, Deflate.Tallied, Deflate.Tokens;
  }

  lemma LookedUpIs(d: Deflate, curMatch: nat, older: set<int>)
    requires d.LookedUp(curMatch, older)
    ensures Ok(d.Here()) && |d.prev[..]| == d.wSize && Links(d.Here(), d.prev[..], older, d.Place())
    ensures Inserted(d.Here(), older, d.Place() - 1) && Linked(d.Here(), curMatch, older, KeyOf(d.Here(), d.Place()))
    ensures d.Place() == d.base + d.strstart && d.Here().base == d.base
  {
    hide Linked, Inserted, KeyOf;
  }

  lemma BestIs(d: Deflate, curMatch: nat)
    ensures d.Best(curMatch) ==
            Pick(d.window[..], d.strstart, d.Candidates(curMatch), d.Nice(), Found(d.prevLength, d.matchStart))
    ensures d.Best(curMatch) ==
            Pick(d.window[..], d.strstart,
                 Chain(d.prev[..], Limit(d.strstart, d.MaxDist()), curMatch,
                       if d.prevLength >= d.config.goodLength then d.config.maxChain / 4 else d.config.maxChain),
                 if d.config.niceLength > d.lookahead then d.lookahead else d.config.niceLength,
                 Found(d.prevLength, d.matchStart))
  {
    hide Pick, Chain;
  }

  lemma FastFindIs(d: Deflate)
    ensures d.Near() <==> 0 < d.HeadHere() && d.strstart - d.HeadHere() <= d.MaxDist()
    ensures d.Near() ==> d.FastFind() == Within(d.Searched(d.prevLength, d.matchStart), d.lookahead)
    ensures !d.Near() ==> d.FastFind() == Found(d.matchLength, d.matchStart)
  {
    hide Pick, Chain, Deflate.HeadHere, Deflate.LinksHere, Within, Deflate.Searched;
  }

  lemma SlowFindIs(d: Deflate)
    ensures d.Near() <==> 0 < d.HeadHere() && d.strstart - d.HeadHere() <= d.MaxDist()
    ensures d.Near() && d.matchLength < d.config.maxLazy ==>
      d.SlowFind() == d.Lazy(Scout(d.config, d.window[..], d.LinksHere(), d.strstart, d.lookahead, d.MaxDist(),
                                   d.HeadHere(), d.matchLength, d.matchStart))
    ensures !(d.Near() && d.matchLength < d.config.maxLazy) ==> d.SlowFind() == Found(MIN_MATCH - 1, d.matchStart)
  {
    hide Scout, Deflate.HeadHere, Deflate.LinksHere, Within, Deflate.Lazy;
  }

  lemma BestScout(d: Deflate, curMatch: nat)
    ensures d.Best(curMatch) == Scout(d.config, d.window[..], d.prev[..], d.strstart, d.lookahead, d.MaxDist(),
                                      curMatch, d.prevLength, d.matchStart)
  {
    hide Scout;
  }

  /** The candidates are the inserted strings with the key of the string at strstart that are in reach,
      newest first; one that is left out is older than all of as many as are followed. */
  lemma NothingMissed(d: Deflate, curMatch: nat, older: set<int>)
    requires d.Sized() && d.LookedUp(curMatch, older) && 0 < curMatch && d.strstart - curMatch <= d.MaxDist()
    ensures Ok(d.Here()) && NewestFirst(d.Here(), older, KeyOf(d.Here(), d.Place()), d.Candidates(curMatch))
    ensures var n := if d.prevLength >= d.config.goodLength then d.config.maxChain / 4 else d.config.maxChain;
            forall a | d.base < a && d.Place() - d.MaxDist() < a < d.Place() ::
              Member(d.Here(), older, KeyOf(d.Here(), d.Place()), a) ==>
                Reached(d.Here(), d.Candidates(curMatch), n, a)
  {
    hide Links, NewestLinks, Newest, KeyOf, Member, NewestFirst, Reached, Chain, Linked, Ok;
    SizedIs(d);
    LinksSize(d.Here(), d.prev[..], older, d.Place());
    var n := if d.prevLength >= d.config.goodLength then d.config.maxChain / 4 else d.config.maxChain;
    ChainLists(d.Here(), d.prev[..], older, d.Place(), Limit(d.strstart, d.MaxDist()), curMatch, n,
               KeyOf(d.Here(), d.Place()), d.Place());
  }

  lemma SlowIs(d: Deflate)
    requires d.SlowState()
    ensures d.Core() && MIN_MATCH - 1 <= d.matchLength <= MAX_MATCH
    ensures d.matchLength >= MIN_MATCH ==>
      d.matchAvailable && d.strstart >= 1 && d.Matched(d.strstart - 1, d.matchLength)
  {
    hide Deflate.Dealt, Covers, Repeats, Wrap;
  }

  lemma PuttingOff(d: Deflate)
    requires d.matchLength >= MIN_MATCH ==>
      d.matchAvailable && d.strstart >= 1 && d.Matched(d.strstart - 1, d.matchLength)
    requires d.prevLength == d.matchLength && d.prevMatch == d.matchStart
    ensures d.PutOffMatch()
  {
    hide Wrap, Repeats;
  }

  lemma FoundIs(d: Deflate, len: nat)
    requires len <= MAX_MATCH && d.strstart <= 0x1_0000 && len <= d.lookahead
    requires len > d.prevLength ==>
      d.matchStart < d.strstart && d.strstart - d.matchStart <= d.MaxDist()
        && Repeats(d.text, d.Place(), d.strstart - d.matchStart, len)
    ensures len > d.prevLength ==> d.Matched(d.strstart, len)
  {
    hide Repeats;
    WrapSmall(d.strstart - d.matchStart);
  }

  lemma Parameters(windowBits: nat, memLevel: nat)
    requires 9 <= windowBits <= 15 && 1 <= memLevel <= 9
    ensures 512 <= Pow2(windowBits) <= 32768 && Pow2(memLevel + 6) >= 2 && Shape(memLevel + 7, (memLevel + 9) / 3)
  {
    Pow2Monotone(9, windowBits);
    Pow2Monotone(windowBits, 15);
    Pow2Monotone(1, memLevel + 6);
  }

  lemma NothingShown(win: seq<int>, h: seq<bool>, c: Scene)
    requires IsBytes(win) && c.text == [] && c.base == 0 && |h| == c.n && Shape(c.n, c.s) && c.w > 0
    ensures Shows(win, [], 0, 0) && Rolling(h, c, 0) && Covers([], [], 0)
  {
  }

  lemma NoChains(c: Scene, base: nat, head: seq<int>, prev: seq<int>, last: int)
    requires Chains(c, head, prev, {}, last)
    ensures Chains(c.(base := base), head, prev, {}, last)
  {
    hide KeyOf;
    var c' := c.(base := base);
    forall h | 0 <= h < |head| ensures Linked(c', head[h], {}, h) { assert Linked(c, head[h], {}, h); }
  }

  lemma NothingLeftToShow(win: seq<int>, text: seq<int>, base: nat, filled: nat, h: seq<bool>, c: Scene)
    requires Shows(win, text, base, filled) && c.text == text && c.base == base && Rolling(h, c, base + filled)
    ensures Shows(win, text, base + filled, 0) && Rolling(h, c.(base := base + filled), base + filled)
    ensures Ok(c.(base := base + filled))
  {
  }

  lemma CoreShows(d: Deflate)
    requires d.Core()
    ensures Shows(d.window[..], d.text, d.base, d.strstart + d.lookahead)
  {
  }

  lemma RepeatsMore(text: seq<int>, text': seq<int>, p: int, dist: int, len: int)
    requires text <= text'
    ensures Repeats(text, p, dist, len) ==> Repeats(text', p, dist, len)
  {
  }

  lemma DealtSized(d: Deflate, upTo: int, filled: int)
    requires d.Dealt(upTo, filled)
    ensures d.Sized() && 512 <= d.wSize <= 32768 && Shows(d.window[..], d.text, d.base, filled)
    ensures filled <= 2 * d.wSize == d.window.Length
  {
    hide Chains, Rolling;
  }

  lemma NewCore(d: Deflate)
    requires d.Sized() && IsBytes(d.window[..]) && (forall h :: 0 <= h < d.head.Length ==> d.head[h] == 0)
    requires d.text == d.nextIn == [] && d.base == d.strstart == d.lookahead == d.insert == d.highWater == 0
    requires |d.insH| == d.hashBits && d.ins == {} && d.last == -1
    ensures d.Core()
  {
    hide Shows, Chains, Rolling, Covers, Pow2;
    NothingInserted(d.Here(), d.head[..], d.prev[..], -1);
    NothingShown(d.window[..], d.insH, d.Here());
  }

  lemma NewStates(d: Deflate)
    requires d.Core() && d.dBuf == d.lBuf == [] && d.written == [] && d.text == [] && d.Place() == 0
    requires d.matchLength == d.prevLength == MIN_MATCH - 1 && !d.matchAvailable && d.chosen == []
    ensures d.FastState() && d.SlowState() && d.Tokens() == []
  {
    hide Deflate.Core, Deflate.Matched, Allowed;
    assert d.Tokens() == [];
    assert d.text[..0] == [];
  }

  lemma FastParts(d: Deflate)
    requires d.FastState()
    ensures d.litBufsize >= 2 && d.insert <= 2 && d.insert <= d.strstart && d.prevLength == MIN_MATCH - 1
    ensures d.Tallied() && Covers(d.Tokens(), d.text, d.Place()) && d.chosen == d.Tokens()
    ensures d.window != d.prev && d.window != d.head && d.window.Length == 2 * d.wSize
  {
    hide Covers, Deflate.Tallied, Deflate.Matched, Deflate.Tokens;
    SizedCore(d);
  }

  lemma SlowParts(d: Deflate)
    requires d.SlowState()
    ensures d.litBufsize >= 2 && d.insert <= 2 && d.insert <= d.strstart && (d.matchAvailable ==> d.strstart >= 1)
    ensures d.Tallied() && Covers(d.Tokens(), d.text, d.Place() - d.PutOff()) && d.chosen == d.Tokens()
    ensures d.window != d.prev && d.window != d.head && d.window.Length == 2 * d.wSize
  {
    hide Covers, Deflate.Tallied, Deflate.Matched, Deflate.Tokens;
    SizedCore(d);
  }

  lemma SizedCore(d: Deflate)
    requires d.Core()
    ensures d.litBufsize >= 2 && 512 <= d.wSize <= 32768 && d.strstart + d.lookahead <= 2 * d.wSize
    ensures d.insert <= 2 && d.insert <= d.strstart
    ensures d.window != d.prev && d.window != d.head && d.window.Length == 2 * d.wSize
  {
  }

  lemma NoneBuffered(d: Deflate)
    requires d.Tallied()
    ensures |d.dBuf| == |d.lBuf|
  {
  }

  lemma AllPassed(d: Deflate)
    requires d.Core() && d.lookahead == 0
    ensures d.Place() == |d.text|
  {
  }

  /** With all text passed, the last string inserted ends before the strings that are not complete. */
  lemma LastPassed(d: Deflate)
    requires d.Core() && d.lookahead == 0
    ensures d.last < d.Place() - 2 || (d.last < 0 <= d.base)
  {
  }

  lemma WindowBytes(win: seq<int>, text: seq<int>, base: nat, filled: int)
    requires Shows(win, text, base, filled)
    ensures forall i :: 0 <= i < |win| ==> 0 <= win[i] < 256
  {
  }

  lemma InsertedBefore(c: Scene, head: seq<int>, prev: seq<int>, ins: set<int>, last: int, place: int)
    requires Chains(c, head, prev, ins, last) && last < place
    ensures Inserted(c, ins, place - 1) && Ok(c)
  {
  }

  /** A chain read before the string at place was inserted leads only back. */
  lemma NotPast(c: Scene, v: nat, older: set<int>, place: int)
    requires Ok(c) && Inserted(c, older, place - 1) && Linked(c, v, older, KeyOf(c, place))
    ensures v > 0 ==> c.base + v < place
  {
    hide KeyOf;
  }

  lemma CoreLength(d: Deflate)
    requires d.Core()
    ensures d.strstart + d.lookahead <= 2 * d.wSize && d.Place() + d.lookahead == |d.text|
  {
  }

  lemma ShowsLength(win: seq<int>, text: seq<int>, base: nat, filled: int)
    requires Shows(win, text, base, filled)
    ensures 0 <= filled <= |win| && base + filled == |text|
  {
  }

  lemma ShowsZeroed(win: seq<int>, win': seq<int>, text: seq<int>, base: nat, filled: int, start: nat, n: nat)
    requires Shows(win, text, base, filled) && filled <= start && start + n <= |win| == |win'|
    requires forall i :: 0 <= i < |win| ==> win'[i] == if start <= i < start + n then 0 else win[i]
    ensures Shows(win', text, base, filled)
  {
    assert win'[..filled] == win[..filled];
  }

  /** No string is complete where the text is too short. */
  lemma ShortRolling(h: seq<bool>, c: Scene, p: int, place: int)
    requires Ok(c) && (|h| == c.n || Rolling(h, c, p)) && place + 3 > |c.text|
    ensures Rolling(h, c, place)
  {
  }

  lemma FirstKey(win: seq<int>, c: Scene, str: nat, filled: int)
    requires Ok(c) && Shows(win, c.text, c.base, filled) && str + 2 < filled
    ensures str + 1 < |win| && 0 <= win[str] < 256 && 0 <= win[str + 1] < 256
    ensures Rolling(UpdateHash(Wide(c.n, win[str]), c.n, c.s, win[str + 1]), c, c.base + str)
  {
    hide Hash3, UpdateHash, Wide;
    ShowsAt(win, c.text, c.base, filled, str);
    ShowsAt(win, c.text, c.base, filled, str + 1);
    FirstTwo(c.n, c.s, win[str], win[str + 1]);
  }

  /** The window after its upper half was copied down. */
  lemma ShowsSlid(win: seq<int>, win': seq<int>, text: seq<int>, base: nat, filled: int, w: nat)
    requires Shows(win, text, base, filled) && |win| == |win'| == 2 * w && w <= filled
    requires forall i :: 0 <= i < w ==> win'[i] == win[w + i]
    requires forall i :: w <= i < 2 * w ==> win'[i] == win[i]
    ensures Shows(win', text, base + w, filled - w)
  {
    forall i | 0 <= i < filled - w ensures win'[i] == text[base + w..][i] { ShowsAt(win, text, base, filled, w + i); }
    assert win'[..filled - w] == text[base + w..];
  }

  lemma ShowsMore(win: seq<int>, win': seq<int>, text: seq<int>, base: nat, filled: int, input: seq<int>, n: nat)
    requires Shows(win, text, base, filled) && IsBytes(input) && n <= |input| && filled + n <= |win| && |win'| == |win|
    requires forall i :: filled <= i < filled + n ==> win'[i] == input[i - filled]
    requires forall i :: 0 <= i < |win| && !(filled <= i < filled + n) ==> win'[i] == win[i]
    ensures Shows(win', text + input[..n], base, filled + n) && IsBytes(input[..n]) && IsBytes(input[n..])
  {
    var text' := text + input[..n];
    forall i | 0 <= i < filled + n ensures win'[i] == text'[base..][i] {
      if i < filled { ShowsAt(win, text, base, filled, i); }
    }
    assert win'[..filled + n] == text'[base..];
  }

  lemma WrapSmall(x: int)
    ensures 0 <= x < 0x1_0000_0000 ==> Wrap(x) == x
  {
  }

  lemma WrapSlid(strstart: nat, matchStart: nat, w: nat)
    requires w <= strstart
    ensures Wrap(strstart - w - 1 - Wrap(matchStart - w)) == Wrap(strstart - 1 - matchStart)
  {
    var m := 0x1_0000_0000;
    var q := (matchStart - w) / m;
    assert Wrap(matchStart - w) == matchStart - w - q * m;
    assert strstart - w - 1 - Wrap(matchStart - w) == strstart - 1 - matchStart + q * m;
  }

  lemma ChainsOk(c: Scene, head: seq<int>, prev: seq<int>, ins: set<int>, last: int)
    requires Chains(c, head, prev, ins, last)
    ensures Ok(c) && |head| == Pow2(c.n) && |prev| == c.w
  {
  }

  lemma RollingLength(h: seq<bool>, c: Scene, p: int)
    requires Rolling(h, c, p)
    ensures |h| == c.n
  {
  }

  lemma RollingSlid(h: seq<bool>, c: Scene, p: int)
    requires Rolling(h, c, p)
    ensures Rolling(h, c.(base := c.base + c.w), p)
  {
  }

  lemma SizedIs(d: Deflate)
    requires d.Sized()
    ensures 512 <= d.wSize <= 32768 && d.window.Length == 2 * d.wSize && d.prev.Length == d.wSize
    ensures d.config.maxChain >= 4
    ensures d.window != d.prev && d.window != d.head && d.prev != d.head
  {
  }

  /** A quick check that fails bounds the agreement. */
  lemma CheckTells(win: seq<int>, cur: nat, strstart: nat, bestLen: nat)
    requires cur < strstart && strstart + MAX_MATCH < |win| && 1 <= bestLen <= MAX_MATCH
    ensures Agree(win, cur, strstart) <= bestLen || (
              && win[cur + bestLen] == win[strstart + bestLen] && win[cur + bestLen - 1] == win[strstart + bestLen - 1]
              && win[cur] == win[strstart] && win[cur + 1] == win[strstart + 1])
  {
    hide Agree;
    if win[cur + bestLen] != win[strstart + bestLen] {
      AgreeStops(win, cur, strstart, bestLen);
    } else if win[cur + bestLen - 1] != win[strstart + bestLen - 1] {
      AgreeStops(win, cur, strstart, bestLen - 1);
    } else if win[cur] != win[strstart] {
      AgreeStops(win, cur, strstart, 0);
    } else if win[cur + 1] != win[strstart + 1] {
      AgreeStops(win, cur, strstart, 1);
    }
  }

  lemma AgreesHere(win: seq<int>, a: int, b: int, len: nat)
    requires Alike(win, a, b, len) && 0 <= a < b && len <= MAX_MATCH && b + MAX_MATCH < |win|
    requires len < MAX_MATCH ==> win[a + len] != win[b + len]
    ensures len == Agree(win, a, b)
  {
    hide Agree, Alike;
    assert Agrees(win, a, b, len);
    AgreeOnly(win, a, b, len);
  }

  lemma AlikeMore(win: seq<int>, a: int, b: int, len: int)
    requires Alike(win, a, b, len) && b + len < |win| && win[a + len] == win[b + len]
    ensures Alike(win, a, b, len + 1)
  {
  }

  lemma AlikeLess(win: seq<int>, a: int, b: int, len: int, n: int)
    requires Alike(win, a, b, len) && 0 <= n <= len
    ensures Alike(win, a, b, n)
  {
  }

  /** What is on the chain lies before the string looked for and has its key. */
  lemma Candidate(c: Scene, cur: nat, older: set<int>, place: int)
    requires Ok(c) && 0 < cur && Inserted(c, older, place - 1) && Linked(c, cur, older, KeyOf(c, place))
    ensures c.base + cur in older && c.base + cur < place && c.base + cur + 3 <= |c.text|
    ensures KeyOf(c, c.base + cur) == KeyOf(c, place)
  {
    hide KeyOf;
  }

  /** Equal keys make the third byte equal. */
  lemma ThreeAlike(win: seq<int>, c: Scene, cur: nat, strstart: nat, filled: int)
    requires Ok(c) && Shows(win, c.text, c.base, filled) && cur < strstart && strstart + 3 <= filled
    requires KeyOf(c, c.base + cur) == KeyOf(c, c.base + strstart)
    requires strstart + 1 < |win| && win[cur] == win[strstart] && win[cur + 1] == win[strstart + 1]
    ensures Alike(win, cur, strstart, 3)
  {
    hide KeyOf, Ok;
    ShowsAt(win, c.text, c.base, filled, cur);
    ShowsAt(win, c.text, c.base, filled, cur + 1);
    ShowsAt(win, c.text, c.base, filled, cur + 2);
    ShowsAt(win, c.text, c.base, filled, strstart);
    ShowsAt(win, c.text, c.base, filled, strstart + 1);
    ShowsAt(win, c.text, c.base, filled, strstart + 2);
    ThirdByte(c, c.base + cur, c.base + strstart);
  }

  lemma NextCandidate(c: Scene, prev: seq<int>, older: set<int>, place: int, cur: nat)
    requires Links(c, prev, older, place) && c.base + cur in older && place - c.w < c.base + cur
    requires KeyOf(c, c.base + cur) == KeyOf(c, place)
    ensures Ok(c) && 0 <= cur % c.w < |prev| && prev[cur % c.w] >= 0
    ensures Linked(c, prev[cur % c.w], older, KeyOf(c, place))
  {
    hide KeyOf;
    Follow(c, prev, older, place, cur);
  }

  lemma LinkedNat(c: Scene, v: int, ins: set<int>, key: int)
    requires Ok(c) && Linked(c, v, ins, key)
    ensures v >= 0
  {
  }

  /** A rolling key, updated with the third byte, is the key of the string at a and rolls on. */
  lemma KeyReady(h: seq<bool>, c: Scene, a: int)
    requires Rolling(h, c, a) && 0 <= a && a + 3 <= |c.text| && 0 <= c.text[a + 2] < 256
    ensures Ok(c) && |h| == c.n && Shape(c.n, c.s)
    ensures var h' := UpdateHash(h, c.n, c.s, c.text[a + 2]); FromBits(h') == KeyOf(c, a) && Rolling(h', c, a + 1)
  {
    hide Hash3, FromBits, UpdateHash, IsBytes;
    Rolled(c.n, c.s, c.text[a], c.text[a + 1], c.text[a + 2]);
    assert UpdateHash(h, c.n, c.s, c.text[a + 2]) == Hash3(c.n, c.s, c.text[a], c.text[a + 1], c.text[a + 2]);
  }

  /** The key updated with the third byte of the string at a. */
  lemma HashIs(win: seq<int>, h: seq<bool>, c: Scene, a: int, filled: int)
    requires Shows(win, c.text, c.base, filled) && Rolling(h, c, a) && c.base <= a && a + 3 <= |c.text|
    ensures Ok(c) && |h| == c.n && a - c.base + 2 < |win| && 0 <= win[a - c.base + 2] < 256 && Shape(c.n, c.s)
    ensures var h' := UpdateHash(h, c.n, c.s, win[a - c.base + 2]);
            FromBits(h') == KeyOf(c, a) && Rolling(h', c, a + 1)
  {
    hide Hash3, FromBits, UpdateHash, Ready, KeyOf, Shows, IsBytes;
    ShowsLength(win, c.text, c.base, filled);
    ShowsAt(win, c.text, c.base, filled, a - c.base + 2);
    KeyReady(h, c, a);
  }
}
