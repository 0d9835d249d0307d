/** The first half of sendMTFValues: choosing coding tables and a table for each group of 50
    symbols. */
module TableChoice {
  import opened Powers
  import opened Counting
  import opened HuffmanLengths
  import opened HuffmanOptimal
  import opened HuffmanTree
  import opened HuffmanCodes
  import opened BlockFormat

  /** What the symbols gs..ge-1 cost with the given code lengths. */
  function GroupCost(len: seq<int>, mtfv: seq<int>, gs: nat, ge: nat): (r: int)
    requires gs <= ge <= |mtfv| && forall k :: gs <= k < ge ==> 0 <= mtfv[k] < |len|
  {
    if gs == ge then 0 else GroupCost(len, mtfv, gs, ge - 1) + len[mtfv[ge - 1]]
  }

  lemma {:induction false} CostBound(len: seq<int>, mtfv: seq<int>, gs: nat, ge: nat)
    requires gs <= ge <= |mtfv| && forall k :: gs <= k < ge ==> 0 <= mtfv[k] < |len|
    requires forall v :: 0 <= v < |len| ==> 0 <= len[v] <= 20
    ensures 0 <= GroupCost(len, mtfv, gs, ge) <= 20 * (ge - gs)
    decreases ge
  {
    if gs < ge { CostBound(len, mtfv, gs, ge - 1); }
  }

  /** All tables have an entry from 0 to 20 for every symbol. */
  ghost predicate Costs(lens: seq<seq<int>>, alphaSize: nat) {
    forall t :: 0 <= t < |lens| ==> |lens[t]| == alphaSize && forall v :: 0 <= v < alphaSize ==> 0 <= lens[t][v] <= 20
  }

  /** Two costs summed in one word do not run into each other. */
  method PackedCost(a: seq<int>, b: seq<int>, mtfv: seq<int>, gs: nat) returns (lo: int, hi: int)
    requires gs + 50 <= |mtfv| && |a| == |b| && Costs([a, b], |a|)
    requires forall k :: gs <= k < gs + 50 ==> 0 <= mtfv[k] < |a|
    ensures lo == GroupCost(a, mtfv, gs, gs + 50) && hi == GroupCost(b, mtfv, gs, gs + 50)
  {
    assert [a, b][0] == a && [a, b][1] == b;
    var cost := 0;
    for nn := 0 to 50
      invariant cost == 0x10000 * GroupCost(b, mtfv, gs, gs + nn) + GroupCost(a, mtfv, gs, gs + nn)
    {
      var icv := mtfv[gs + nn];
      cost := cost + (0x10000 * b[icv] + a[icv]);
    }
    CostBound(a, mtfv, gs, gs + 50);
    lo, hi := cost % 0x10000, cost / 0x10000;
  }

  /** The cost of one group with each table. */
  method AllCosts(lens: seq<seq<int>>, mtfv: seq<int>, gs: nat, ge: nat, alphaSize: nat) returns (cost: seq<int>)
    requires gs < ge <= |mtfv| && Costs(lens, alphaSize) && forall k :: 0 <= k < |mtfv| ==> 0 <= mtfv[k] < alphaSize
    ensures |cost| == |lens| && forall t :: 0 <= t < |lens| ==> cost[t] == GroupCost(lens[t], mtfv, gs, ge)
  {
    if |lens| == 6 && 50 == ge - gs {
      PairCosts(lens, alphaSize);
      var c0, c1 := PackedCost(lens[0], lens[1], mtfv, gs);
      var c2, c3 := PackedCost(lens[2], lens[3], mtfv, gs);
      var c4, c5 := PackedCost(lens[4], lens[5], mtfv, gs);
      cost := [c0, c1, c2, c3, c4, c5];
    } else {
      cost := seq(|lens|, _ => 0);
      for i := gs to ge
        invariant |cost| == |lens| && forall t :: 0 <= t < |lens| ==> cost[t] == GroupCost(lens[t], mtfv, gs, i)
      {
        var icv := mtfv[i];
        ghost var before := cost;
        for t := 0 to |lens|
          invariant |cost| == |lens|
          invariant forall u :: 0 <= u < t ==> cost[u] == GroupCost(lens[u], mtfv, gs, i + 1)
          invariant forall u :: t <= u < |lens| ==> cost[u] == before[u]
        {
          cost := cost[t := cost[t] + lens[t][icv]];
        }
      }
    }
  }

  lemma PairCosts(lens: seq<seq<int>>, alphaSize: nat)
    requires Costs(lens, alphaSize) && |lens| == 6
    ensures forall t :: 0 <= t < 6 ==> |lens[t]| == alphaSize
    ensures Costs([lens[0], lens[1]], alphaSize) && Costs([lens[2], lens[3]], alphaSize)
    ensures Costs([lens[4], lens[5]], alphaSize)
  {
  }

  /** The first of the cheapest tables. */
  method Cheapest(cost: seq<int>) returns (bt: int)
    requires |cost| > 0 && forall t :: 0 <= t < |cost| ==> cost[t] < 999999999
    ensures 0 <= bt < |cost|
    ensures forall t :: 0 <= t < |cost| ==> cost[bt] <= cost[t] && (t < bt ==> cost[bt] < cost[t])
  {
    var bc := 999999999;
    bt := -1;
    for t := 0 to |cost|
      invariant t > 0 ==> 0 <= bt < t && bc == cost[bt]
      invariant t == 0 ==> bc == 999999999 && bt == -1
      invariant forall u :: 0 <= u < t ==> bc <= cost[u] && (u < bt ==> bc < cost[u])
    {
      if cost[t] < bc { bc, bt := cost[t], t; }
    }
  }

  /** Symbol counts per table; their sums stay within the symbols seen. */
  ghost predicate Counts(rfreq: seq<seq<int>>, nGroups: nat, alphaSize: nat, seen: nat) {
    |rfreq| == nGroups && forall t :: 0 <= t < nGroups ==>
      && |rfreq[t]| == alphaSize && Sum(rfreq[t], alphaSize) <= seen
      && forall v :: 0 <= v < alphaSize ==> rfreq[t][v] >= 0
  }

  lemma CountsBump(rfreq: seq<seq<int>>, nGroups: nat, alphaSize: nat, seen: nat, t: nat, v: nat)
    requires Counts(rfreq, nGroups, alphaSize, seen) && t < nGroups && v < alphaSize
    ensures |rfreq| == nGroups && |rfreq[t]| == alphaSize
    ensures Counts(rfreq[t := rfreq[t][v := rfreq[t][v] + 1]], nGroups, alphaSize, seen + 1)
  {
    SumBump(rfreq[t], v, alphaSize);
  }

  lemma {:induction false} StartBound(freq: seq<int>, k: nat)
    requires k <= |freq| && forall v :: 0 <= v < |freq| ==> freq[v] >= 0
    ensures StartWeight(freq, k) <= Sum(freq, k) + k
  {
    if k > 0 { StartBound(freq, k - 1); }
  }

  lemma {:induction false} SumZeros(n: nat, k: nat)
    requires k <= n
    ensures Sum(seq(n, _ => 0), k) == 0
  {
    if k > 0 { SumZeros(n, k - 1); }
  }

  lemma CountsStart(nGroups: nat, alphaSize: nat)
    ensures Counts(seq(nGroups, _ => seq(alphaSize, _ => 0)), nGroups, alphaSize, 0)
  {
    SumZeros(alphaSize, alphaSize);
  }

  /** One table selected for each group begun. */
  ghost predicate Selecting(sel: seq<int>, nGroups: nat, gs: nat, n: nat) {
    && gs <= n && (forall g :: 0 <= g < |sel| ==> 0 <= sel[g] < nGroups)
    && (gs < n ==> gs == 50 * |sel|)
    && (gs == n ==> |sel| > 0 && 50 * (|sel| - 1) < n <= 50 * |sel|)
  }

  /** What table t would make of group g. */
  ghost function CostOf(len: seq<int>, mtfv: seq<int>, g: nat): (r: int)
    requires 50 * g < |mtfv| && forall k :: 0 <= k < |mtfv| ==> 0 <= mtfv[k] < |len|
  {
    GroupCost(len, mtfv, 50 * g, if 50 * g + 50 <= |mtfv| then 50 * g + 50 else |mtfv|)
  }

  /** For every group the table selected is the first of those with which it costs least. */
  ghost predicate Chosen(lens: seq<seq<int>>, mtfv: seq<int>, sel: seq<int>, alphaSize: nat)
    requires Costs(lens, alphaSize) && forall k :: 0 <= k < |mtfv| ==> 0 <= mtfv[k] < alphaSize
  {
    forall g, t :: 0 <= g < |sel| && 0 <= t < |lens| && 50 * g < |mtfv| && 0 <= sel[g] < |lens| ==>
      && CostOf(lens[sel[g]], mtfv, g) <= CostOf(lens[t], mtfv, g)
      && (t < sel[g] ==> CostOf(lens[sel[g]], mtfv, g) < CostOf(lens[t], mtfv, g))
  }

  /** How often symbol v stands among the first k in groups that select table t. */
  ghost function Uses(mtfv: seq<int>, sel: seq<int>, t: int, v: int, k: nat): (r: nat)
    requires k <= |mtfv|
  {
    if k == 0 then 0
    else
      Uses(mtfv, sel, t, v, k - 1)
      + if (k - 1) / 50 < |sel| && sel[(k - 1) / 50] == t && mtfv[k - 1] == v then 1 else 0
  }

  /** rfreq counts the uses among the first k symbols. */
  ghost predicate Used(rfreq: seq<seq<int>>, mtfv: seq<int>, sel: seq<int>, nGroups: nat, alphaSize: nat, k: nat) {
    && |rfreq| == nGroups && k <= |mtfv| && (forall t :: 0 <= t < nGroups ==> |rfreq[t]| == alphaSize)
    && forall t, v :: 0 <= t < nGroups && 0 <= v < alphaSize ==> rfreq[t][v] == Uses(mtfv, sel, t, v, k)
  }

  lemma UsedMore(rfreq: seq<seq<int>>, mtfv: seq<int>, sel: seq<int>, nGroups: nat, alphaSize: nat, k: nat, t: nat)
    requires Used(rfreq, mtfv, sel, nGroups, alphaSize, k) && k < |mtfv| && k / 50 < |sel| && sel[k / 50] == t < nGroups
    requires 0 <= mtfv[k] < alphaSize && |rfreq[t]| == alphaSize
    ensures Used(rfreq[t := rfreq[t][mtfv[k] := rfreq[t][mtfv[k]] + 1]], mtfv, sel, nGroups, alphaSize, k + 1)
  {
    var r' := rfreq[t := rfreq[t][mtfv[k] := rfreq[t][mtfv[k]] + 1]];
    forall u, v | 0 <= u < nGroups && 0 <= v < alphaSize ensures r'[u][v] == Uses(mtfv, sel, u, v, k + 1) {
      assert rfreq[u][v] == Uses(mtfv, sel, u, v, k);
    }
  }

  lemma {:induction false} UsesKept(mtfv: seq<int>, sel: seq<int>, more: seq<int>, t: int, v: int, k: nat)
    requires k <= |mtfv| && k <= 50 * |sel|
    ensures Uses(mtfv, sel + more, t, v, k) == Uses(mtfv, sel, t, v, k)
  {
    if k > 0 { UsesKept(mtfv, sel, more, t, v, k - 1); }
  }

  lemma UsedKept(rfreq: seq<seq<int>>, mtfv: seq<int>, sel: seq<int>, bt: int, nGroups: nat, alphaSize: nat, k: nat)
    requires Used(rfreq, mtfv, sel, nGroups, alphaSize, k) && k <= 50 * |sel|
    ensures Used(rfreq, mtfv, sel + [bt], nGroups, alphaSize, k)
  {
    forall t, v | 0 <= t < nGroups && 0 <= v < alphaSize ensures rfreq[t][v] == Uses(mtfv, sel + [bt], t, v, k) {
      UsesKept(mtfv, sel, [bt], t, v, k);
    }
  }

  lemma ChosenMore(lens: seq<seq<int>>, mtfv: seq<int>, sel: seq<int>, alphaSize: nat, cost: seq<int>, bt: int)
    requires Costs(lens, alphaSize) && (forall k :: 0 <= k < |mtfv| ==> 0 <= mtfv[k] < alphaSize)
    requires Chosen(lens, mtfv, sel, alphaSize) && 50 * |sel| < |mtfv| && |cost| == |lens| && 0 <= bt < |lens|
    requires forall t :: 0 <= t < |lens| ==> cost[t] == CostOf(lens[t], mtfv, |sel|)
    requires forall t :: 0 <= t < |cost| ==> cost[bt] <= cost[t] && (t < bt ==> cost[bt] < cost[t])
    ensures Chosen(lens, mtfv, sel + [bt], alphaSize)
  {
    hide CostOf;
  }

  /** One pass over the groups: select the cheapest table for each and count its symbols. */
  method SelectTables(lens: seq<seq<int>>, mtfv: seq<int>, alphaSize: nat) returns (sel: seq<int>, rfreq: seq<seq<int>>)
    requires 2 <= |lens| <= 6 && Costs(lens, alphaSize) && 0 < |mtfv| && GoodSymbols(mtfv, alphaSize)
    ensures Selecting(sel, |lens|, |mtfv|, |mtfv|) && (forall k :: 0 <= k < |mtfv| ==> 0 <= mtfv[k] < alphaSize)
    ensures Chosen(lens, mtfv, sel, alphaSize)
    ensures Counts(rfreq, |lens|, alphaSize, |mtfv|) && Used(rfreq, mtfv, sel, |lens|, alphaSize, |mtfv|)
  {
    var nGroups, nMTF := |lens|, |mtfv|;
    hide Counts, Chosen, Used, CostOf, Uses;
    rfreq := seq(nGroups, _ => seq(alphaSize, _ => 0));
    CountsStart(nGroups, alphaSize);
    sel := [];
    NothingChosen(lens, mtfv, rfreq, alphaSize);
    var gs := 0;
    while gs < nMTF
      invariant 0 <= gs <= nMTF && Selecting(sel, nGroups, gs, nMTF) && Counts(rfreq, nGroups, alphaSize, gs)
      invariant Chosen(lens, mtfv, sel, alphaSize) && Used(rfreq, mtfv, sel, nGroups, alphaSize, gs)
    {
      var ge := if gs + 49 >= nMTF then nMTF else gs + 50;
      var cost := AllCosts(lens, mtfv, gs, ge, alphaSize);
      forall t | 0 <= t < nGroups ensures cost[t] < 999999999 && cost[t] == CostOf(lens[t], mtfv, |sel|) {
        CostBound(lens[t], mtfv, gs, ge);
        CostIs(lens[t], mtfv, |sel|, ge);
      }
      var bt := Cheapest(cost);
      ChosenMore(lens, mtfv, sel, alphaSize, cost, bt);
      UsedKept(rfreq, mtfv, sel, bt, nGroups, alphaSize, gs);
      ghost var g := |sel|;
      sel := sel + [bt];
      for i := gs to ge
        invariant Counts(rfreq, nGroups, alphaSize, i) && Used(rfreq, mtfv, sel, nGroups, alphaSize, i)
      {
        CountsBump(rfreq, nGroups, alphaSize, i, bt, mtfv[i]);
        UsedMore(rfreq, mtfv, sel, nGroups, alphaSize, i, bt);
        rfreq := rfreq[bt := rfreq[bt][mtfv[i] := rfreq[bt][mtfv[i]] + 1]];
      }
      gs := ge;
    }
  }

  lemma NothingChosen(lens: seq<seq<int>>, mtfv: seq<int>, rfreq: seq<seq<int>>, alphaSize: nat)
    requires Costs(lens, alphaSize) && forall k :: 0 <= k < |mtfv| ==> 0 <= mtfv[k] < alphaSize
    requires |rfreq| == |lens| && forall t :: 0 <= t < |rfreq| ==> rfreq[t] == seq(alphaSize, _ => 0)
    ensures Chosen(lens, mtfv, [], alphaSize) && Used(rfreq, mtfv, [], |lens|, alphaSize, 0)
  {
  }

  lemma CostIs(len: seq<int>, mtfv: seq<int>, g: nat, ge: nat)
    requires 50 * g < |mtfv| && forall k :: 0 <= k < |mtfv| ==> 0 <= mtfv[k] < |len|
    requires ge == if 50 * g + 49 >= |mtfv| then |mtfv| else 50 * g + 50
    ensures CostOf(len, mtfv, g) == GroupCost(len, mtfv, 50 * g, ge)
  {
  }

  /** What assertions 3004 and 3005 ask for. */
  ghost predicate Short(lens: seq<seq<int>>) {
    forall t, v :: 0 <= t < |lens| && 0 <= v < |lens[t]| ==> 1 <= lens[t][v] <= 17
  }

  /** New code lengths for every table. */
  method RebuildTables(rfreq: seq<seq<int>>, nGroups: nat, alphaSize: nat, ghost seen: nat)
    returns (lens: seq<seq<int>>)
    requires 2 <= nGroups <= 6 && 3 <= alphaSize <= 258 && Counts(rfreq, nGroups, alphaSize, seen) && seen <= 900001
    ensures |lens| == nGroups && GoodTables(lens, alphaSize) && Short(lens)
    ensures forall t :: 0 <= t < nGroups ==> Limited(rfreq[t], 17, lens[t])
  {
    hide StartWeight, KraftSum, Pow2, Limited;
    lens := [];
    for t := 0 to nGroups
      invariant |lens| == t
      invariant forall u :: 0 <= u < t ==>
        |lens[u]| == alphaSize && ValidLengths(lens[u]) && KraftSum(lens[u], alphaSize) <= Pow2(20)
      invariant Short(lens) && forall u :: 0 <= u < t ==> Limited(rfreq[u], 17, lens[u])
    {
      StartBound(rfreq[t], alphaSize);
      var len := MakeCodeLengths(rfreq[t], 17);
      lens := lens + [len];
    }
  }

  lemma GoodTablesCost(lens: seq<seq<int>>, alphaSize: nat)
    requires GoodTables(lens, alphaSize)
    ensures Costs(lens, alphaSize)
  {
    forall t, v | 0 <= t < |lens| && 0 <= v < alphaSize ensures |lens[t]| == alphaSize && 0 <= lens[t][v] <= 20 {
      assert ValidLengths(lens[t]);
    }
  }

  /** The tables from number k on split the symbols below the last cut: table |lens| - 1 - i costs
      nothing from cut i to the next, and 15 elsewhere. */
  ghost predicate Banded(lens: seq<seq<int>>, cut: seq<int>, alphaSize: nat, k: nat) {
    && k <= |lens| && |cut| == |lens| - k + 1 && cut[0] == 0
    && (forall i :: 0 <= i < |cut| ==> 0 <= cut[i] <= alphaSize)
    && (forall i :: 0 <= i < |cut| - 1 ==> cut[i] <= cut[i + 1])
    && (forall t :: k <= t < |lens| ==> |lens[t]| == alphaSize)
    && (forall t, v :: k <= t < |lens| && 0 <= v < alphaSize ==>
          lens[t][v] == if cut[|lens| - 1 - t] <= v < cut[|lens| - t] then 0 else 15)
  }

  lemma BandedMore(lens: seq<seq<int>>, cut: seq<int>, alphaSize: nat, k: nat, len: seq<int>, to: int)
    requires Banded(lens, cut, alphaSize, k) && k > 0 && cut[|cut| - 1] <= to <= alphaSize && |len| == alphaSize
    requires forall v :: 0 <= v < alphaSize ==> len[v] == if cut[|cut| - 1] <= v < to then 0 else 15
    ensures Banded(lens[k - 1 := len], cut + [to], alphaSize, k - 1)
  {
  }

  /** The range of symbols from gs up to to is the shortest in which goal symbols stand, and all that
      are left if there are not so many. */
  ghost predicate Reaches(mtfFreq: seq<int>, gs: int, to: int, goal: int, alphaSize: nat)
    requires 0 <= gs <= to <= alphaSize <= |mtfFreq|
  {
    && (to == alphaSize || Sum(mtfFreq, to) - Sum(mtfFreq, gs) >= goal)
    && forall e :: gs <= e < to ==> Sum(mtfFreq, e) - Sum(mtfFreq, gs) < goal
  }

  /** Every range reaches its share of what the ranges before it leave; of the ranges between the
      first and the last, every other one is then one symbol shorter, if it has more than one. */
  ghost predicate FairCuts(mtfFreq: seq<int>, nMTF: nat, cut: seq<int>, nGroups: nat, alphaSize: nat) {
    && 0 < |cut| <= nGroups + 1 && cut[0] == 0 && alphaSize <= |mtfFreq|
    && forall i :: 0 <= i < |cut| - 1 ==> FairCut(mtfFreq, nMTF, cut[i], cut[i + 1], i, nGroups, alphaSize)
  }

  ghost predicate FairCut(mtfFreq: seq<int>, nMTF: nat, gs: int, next: int, i: int, nGroups: nat, alphaSize: nat)
    requires 0 <= i < nGroups && alphaSize <= |mtfFreq|
  {
    0 <= gs <= next <= alphaSize && exists to :: CutAt(mtfFreq, nMTF, gs, to, next, i, nGroups, alphaSize)
  }

  ghost predicate CutAt(mtfFreq: seq<int>, nMTF: nat, gs: int, to: int, next: int, i: int, nGroups: nat,
                        alphaSize: nat)
    requires 0 <= i < nGroups && alphaSize <= |mtfFreq|
  {
    && 0 <= gs <= to <= alphaSize
    && Reaches(mtfFreq, gs, to, Quotient(nMTF - Sum(mtfFreq, gs), nGroups - i), alphaSize)
    && next == if to - gs >= 2 && 0 < i < nGroups - 1 && i % 2 == 1 then to - 1 else to
  }

  lemma FairMore(mtfFreq: seq<int>, nMTF: nat, cut: seq<int>, nGroups: nat, alphaSize: nat, to: int, next: int)
    requires FairCuts(mtfFreq, nMTF, cut, nGroups, alphaSize) && |cut| <= nGroups
    requires CutAt(mtfFreq, nMTF, cut[|cut| - 1], to, next, |cut| - 1, nGroups, alphaSize)
    ensures FairCuts(mtfFreq, nMTF, cut + [next], nGroups, alphaSize)
  {
    hide Reaches, Quotient, Sum, FairCut;
    CutIsFair(mtfFreq, nMTF, cut[|cut| - 1], to, next, |cut| - 1, nGroups, alphaSize);
    var more := cut + [next];
    forall i | 0 <= i < |more| - 1
      ensures FairCut(mtfFreq, nMTF, more[i], more[i + 1], i, nGroups, alphaSize)
    {
      if i < |cut| - 1 { assert FairCut(mtfFreq, nMTF, cut[i], cut[i + 1], i, nGroups, alphaSize); }
    }
  }

  lemma CutIsFair(mtfFreq: seq<int>, nMTF: nat, gs: int, to: int, next: int, i: int, nGroups: nat, alphaSize: nat)
    requires 0 <= i < nGroups && alphaSize <= |mtfFreq|
    requires CutAt(mtfFreq, nMTF, gs, to, next, i, nGroups, alphaSize)
    ensures FairCut(mtfFreq, nMTF, gs, next, i, nGroups, alphaSize)
  {
    hide Reaches, Quotient, Sum;
  }

  ghost predicate Initial(mtfFreq: seq<int>, nMTF: nat, lens: seq<seq<int>>, alphaSize: nat) {
    exists cut :: Banded(lens, cut, alphaSize, 0) && FairCuts(mtfFreq, nMTF, cut, |lens|, alphaSize)
  }

  /** Initial tables: each is cheap in one of consecutive ranges of symbols only. */
  method InitialTables(mtfFreq: seq<int>, nMTF: nat, nGroups: nat, alphaSize: nat) returns (lens: seq<seq<int>>)
    requires |mtfFreq| >= alphaSize && nGroups > 0
    ensures |lens| == nGroups && Costs(lens, alphaSize) && Initial(mtfFreq, nMTF, lens, alphaSize)
  {
    hide Banded, FairCuts, Quotient;
    lens := seq(nGroups, _ => seq(alphaSize, _ => 15));
    ghost var cut := [0];
    NoBands(lens, alphaSize);
    NoCuts(mtfFreq, nMTF, nGroups, alphaSize);
    var nPart, remF, gs := nGroups, nMTF, 0;
    while nPart > 0
      invariant 0 <= nPart <= nGroups && 0 <= gs <= alphaSize && |lens| == nGroups && Costs(lens, alphaSize)
      invariant |cut| == nGroups - nPart + 1 && cut[|cut| - 1] == gs && Banded(lens, cut, alphaSize, nPart)
      invariant FairCuts(mtfFreq, nMTF, cut, nGroups, alphaSize) && remF == nMTF - Sum(mtfFreq, gs)
    {
      var tFreq, ge, aFreq := Quotient(remF, nPart), gs - 1, 0;
      while aFreq < tFreq && ge < alphaSize - 1
        invariant gs - 1 <= ge <= alphaSize - 1 && aFreq == Sum(mtfFreq, ge + 1) - Sum(mtfFreq, gs)
        invariant forall e :: gs <= e < ge + 1 ==> Sum(mtfFreq, e) - Sum(mtfFreq, gs) < tFreq
        decreases alphaSize - ge
      {
        ge := ge + 1;
        aFreq := aFreq + mtfFreq[ge];
      }
      ghost var to := ge + 1;
      if ge > gs && nPart != nGroups && nPart != 1 && (nGroups - nPart) % 2 == 1 {
        aFreq := aFreq - mtfFreq[ge];
        ge := ge - 1;
      }
      var len := seq(alphaSize, v => if gs <= v <= ge then 0 else 15);
      BandedMore(lens, cut, alphaSize, nPart, len, ge + 1);
      FairMore(mtfFreq, nMTF, cut, nGroups, alphaSize, to, ge + 1);
      cut := cut + [ge + 1];
      lens := lens[nPart - 1 := len];
      nPart := nPart - 1;
      gs := ge + 1;
      remF := remF - aFreq;
    }
    InitialIs(mtfFreq, nMTF, lens, cut, alphaSize);
  }

  lemma InitialIs(mtfFreq: seq<int>, nMTF: nat, lens: seq<seq<int>>, cut: seq<int>, alphaSize: nat)
    requires Banded(lens, cut, alphaSize, 0) && FairCuts(mtfFreq, nMTF, cut, |lens|, alphaSize)
    ensures Initial(mtfFreq, nMTF, lens, alphaSize)
  {
    hide Banded, FairCuts;
  }

  lemma NoCuts(mtfFreq: seq<int>, nMTF: nat, nGroups: nat, alphaSize: nat)
    requires alphaSize <= |mtfFreq|
    ensures FairCuts(mtfFreq, nMTF, [0], nGroups, alphaSize)
  {
  }

  lemma NoBands(lens: seq<seq<int>>, alphaSize: nat)
    ensures Banded(lens, [0], alphaSize, |lens|)
  {
  }

  /** C division: towards zero. */
  function Quotient(x: int, y: int): (r: int)
    requires y > 0
    ensures x >= 0 ==> r * y <= x < r * y + y
    ensures x < 0 ==> r * y - y < x <= r * y
  {
    if x >= 0 then x / y else -((-x) / y)
  }

  /** More tables for longer blocks. */
  function GroupsFor(nMTF: nat): (r: nat)
    ensures 2 <= r <= 6
  {
    if nMTF < 200 then 2 else if nMTF < 600 then 3 else if nMTF < 1200 then 4 else if nMTF < 2400 then 5 else 6
  }

  ghost predicate BestFor(lens: seq<seq<int>>, mtfv: seq<int>, sel: seq<int>, alphaSize: nat) {
    Costs(lens, alphaSize) && (forall k :: 0 <= k < |mtfv| ==> 0 <= mtfv[k] < alphaSize)
      && Chosen(lens, mtfv, sel, alphaSize)
  }

  /** How often every symbol stands in groups that select table t. */
  ghost function UsesOf(mtfv: seq<int>, sel: seq<int>, t: int, alphaSize: nat): (r: seq<int>)
    ensures |r| == alphaSize
  {
    seq(alphaSize, v => Uses(mtfv, sel, t, v, |mtfv|))
  }

  /** One round: every group selects the best of the tables before, and every new table is a cheapest
      code within 17 bits for the groups that selected it. */
  ghost predicate Improved(before: seq<seq<int>>, mtfv: seq<int>, sel: seq<int>, lens: seq<seq<int>>,
                           alphaSize: nat)
  {
    && |lens| == |before| && BestFor(before, mtfv, sel, alphaSize)
    && Selecting(sel, |lens|, |mtfv|, |mtfv|)
    && forall t :: 0 <= t < |lens| ==> Limited(UsesOf(mtfv, sel, t, alphaSize), 17, lens[t])
  }

  /** Rounds one after the other, from the initial tables. */
  ghost predicate Rounds(mtfv: seq<int>, mtfFreq: seq<int>, tables: seq<seq<seq<int>>>, sels: seq<seq<int>>,
                         alphaSize: nat)
  {
    && |tables| == |sels| + 1 && |tables[0]| == GroupsFor(|mtfv|) && Initial(mtfFreq, |mtfv|, tables[0], alphaSize)
    && forall i :: 0 <= i < |sels| ==> Improved(tables[i], mtfv, sels[i], tables[i + 1], alphaSize)
  }

  /** Tables and selectors after four rounds. */
  ghost predicate Tuned(mtfv: seq<int>, mtfFreq: seq<int>, lens: seq<seq<int>>, sel: seq<int>, alphaSize: nat) {
    exists tables, sels :: Rounds(mtfv, mtfFreq, tables, sels, alphaSize)
      && |sels| == 4 && lens == tables[4] && sel == sels[3]
  }

  lemma RoundsMore(mtfv: seq<int>, mtfFreq: seq<int>, tables: seq<seq<seq<int>>>, sels: seq<seq<int>>,
                   lens: seq<seq<int>>, sel: seq<int>, rfreq: seq<seq<int>>, alphaSize: nat)
    requires Rounds(mtfv, mtfFreq, tables, sels, alphaSize) && |lens| == |tables[|sels|]|
    requires BestFor(tables[|sels|], mtfv, sel, alphaSize) && Selecting(sel, |lens|, |mtfv|, |mtfv|)
    requires Used(rfreq, mtfv, sel, |lens|, alphaSize, |mtfv|)
    requires forall t :: 0 <= t < |lens| ==> Limited(rfreq[t], 17, lens[t])
    ensures Rounds(mtfv, mtfFreq, tables + [lens], sels + [sel], alphaSize)
  {
    hide Uses, Limited, BestFor, Selecting, Initial, GroupsFor;
    forall t | 0 <= t < |lens|
      ensures Limited(UsesOf(mtfv, sel, t, alphaSize), 17, lens[t])
    {
      assert rfreq[t] == UsesOf(mtfv, sel, t, alphaSize);
    }
    ImprovedRounds(mtfv, mtfFreq, tables, sels, lens, sel, alphaSize);
  }

  lemma ImprovedRounds(mtfv: seq<int>, mtfFreq: seq<int>, tables: seq<seq<seq<int>>>, sels: seq<seq<int>>,
                       lens: seq<seq<int>>, sel: seq<int>, alphaSize: nat)
    requires Rounds(mtfv, mtfFreq, tables, sels, alphaSize)
    requires Improved(tables[|sels|], mtfv, sel, lens, alphaSize)
    ensures Rounds(mtfv, mtfFreq, tables + [lens], sels + [sel], alphaSize)
  {
    hide Improved, Initial, GroupsFor;
    var tables', sels' := tables + [lens], sels + [sel];
    forall i | 0 <= i < |sels'|
      ensures Improved(tables'[i], mtfv, sels'[i], tables'[i + 1], alphaSize)
    {
      if i < |sels| { assert Improved(tables[i], mtfv, sels[i], tables[i + 1], alphaSize); }
    }
  }

  /** Tables and selectors for a block: four rounds from the initial tables. */
  method ChooseTables(mtfv: seq<int>, mtfFreq: seq<int>, alphaSize: nat) returns (lens: seq<seq<int>>, sel: seq<int>)
    requires 0 < |mtfv| <= 900001 && 3 <= alphaSize <= 258 && |mtfFreq| >= alphaSize && GoodSymbols(mtfv, alphaSize)
    ensures GoodChoice(lens, sel, alphaSize, |mtfv|) && |lens| == GroupsFor(|mtfv|) && Short(lens) && |sel| <= 18001
    ensures Tuned(mtfv, mtfFreq, lens, sel, alphaSize)
  {
    hide Chosen, Used, Initial, Rounds, Limited, GroupsFor, Tuned;
    var nMTF := |mtfv|;
    var nGroups := GroupsFor(nMTF);
    lens := InitialTables(mtfFreq, nMTF, nGroups, alphaSize);
    sel := [];
    ghost var tables, sels := [lens], [];
    NoRounds(mtfv, mtfFreq, lens, alphaSize);
    for iter := 0 to 4
      invariant |lens| == nGroups && Costs(lens, alphaSize)
      invariant iter > 0 ==> GoodTables(lens, alphaSize) && Short(lens) && Selecting(sel, nGroups, nMTF, nMTF)
      invariant |sels| == iter && |tables| == iter + 1 && lens == tables[iter] && (iter > 0 ==> sel == sels[iter - 1])
      invariant Rounds(mtfv, mtfFreq, tables, sels, alphaSize)
    {
      var rfreq;
      sel, rfreq := SelectTables(lens, mtfv, alphaSize);
      lens := RebuildTables(rfreq, nGroups, alphaSize, nMTF);
      GoodTablesCost(lens, alphaSize);
      RoundsMore(mtfv, mtfFreq, tables, sels, lens, sel, rfreq, alphaSize);
      tables, sels := tables + [lens], sels + [sel];
    }
    TunedIs(mtfv, mtfFreq, tables, sels, alphaSize);
  }

  lemma TunedIs(mtfv: seq<int>, mtfFreq: seq<int>, tables: seq<seq<seq<int>>>, sels: seq<seq<int>>, alphaSize: nat)
    requires Rounds(mtfv, mtfFreq, tables, sels, alphaSize) && |sels| == 4
    ensures |tables| == 5 && Tuned(mtfv, mtfFreq, tables[4], sels[3], alphaSize)
  {
    hide Improved, Initial, GroupsFor;
  }

  lemma NoRounds(mtfv: seq<int>, mtfFreq: seq<int>, lens: seq<seq<int>>, alphaSize: nat)
    requires |lens| == GroupsFor(|mtfv|) && Initial(mtfFreq, |mtfv|, lens, alphaSize)
    ensures Rounds(mtfv, mtfFreq, [lens], [], alphaSize)
  {
    hide Initial, GroupsFor;
  }
}
