/** The run-length layer before block sorting: runs of 4 to 255 equal bytes become four bytes
    and a count. */
module RunLength {
  import opened MoveToFront

  datatype Run = Run(ch: int, len: int) {
    predicate Valid() { 0 <= ch < 256 && 1 <= len <= 255 }
  }

  /** What add_pair_to_block appends for one run. */
  function RunBytes(r: Run): (s: seq<int>)
    requires r.Valid()
    ensures 1 <= |s| <= 5
  {
    if r.len < 4 then Repeat(r.ch, r.len) else Repeat(r.ch, 4) + [r.len - 4]
  }

  predicate Apart(r: Run, next: Run) { r.ch != next.ch || r.len == 255 }

  /** Every run is complete: the next one has another byte, unless this one is of full length. */
  ghost predicate Runs(runs: seq<Run>) {
    && (forall i :: 0 <= i < |runs| ==> runs[i].Valid())
    && (forall i, j :: 0 <= i < j < |runs| && j == i + 1 ==> Apart(runs[i], runs[j]))
  }

  ghost function Packed(runs: seq<Run>): (s: seq<int>)
    requires Runs(runs)
  {
    if runs == [] then [] else Packed(runs[..|runs| - 1]) + RunBytes(runs[|runs| - 1])
  }

  ghost function Expanded(runs: seq<Run>): (s: seq<int>)
    requires Runs(runs)
  {
    if runs == [] then [] else Expanded(runs[..|runs| - 1]) + Repeat(runs[|runs| - 1].ch, runs[|runs| - 1].len)
  }

  lemma {:induction false} PackedAre(runs: seq<Run>)
    requires Runs(runs)
    ensures forall i :: 0 <= i < |Packed(runs)| ==> 0 <= Packed(runs)[i] < 256
    ensures forall i :: 0 <= i < |Expanded(runs)| ==> 0 <= Expanded(runs)[i] < 256
    ensures |runs| > 0 <==> |Packed(runs)| > 0
    ensures |runs| > 0 ==> Packed(runs)[0] == runs[0].ch
    decreases |runs|
  {
    if runs != [] { PackedAre(runs[..|runs| - 1]); }
  }

  lemma {:induction false} PackedSnoc(runs: seq<Run>, r: Run)
    requires Runs(runs) && r.Valid() && (runs != [] ==> Apart(runs[|runs| - 1], r))
    ensures Runs(runs + [r])
    ensures Packed(runs + [r]) == Packed(runs) + RunBytes(r)
    ensures Expanded(runs + [r]) == Expanded(runs) + Repeat(r.ch, r.len)
  {
    hide RunBytes, Apart;
    assert (runs + [r])[..|runs|] == runs;
  }

  lemma {:induction false} PackedCons(runs: seq<Run>)
    requires Runs(runs) && runs != []
    ensures Runs(runs[1..])
    ensures Packed(runs) == RunBytes(runs[0]) + Packed(runs[1..])
    ensures Expanded(runs) == Repeat(runs[0].ch, runs[0].len) + Expanded(runs[1..])
    decreases |runs|
  {
    hide RunBytes, Apart;
    var n := |runs| - 1;
    if n == 0 {
      assert runs[1..] == [] && runs[..0] == [];
    } else {
      var init := runs[..n];
      PackedCons(init);
      assert runs[1..][..n - 1] == init[1..];
      var a, b, c := RunBytes(runs[0]), Packed(init[1..]), RunBytes(runs[n]);
      assert a + b + c == a + (b + c);
      var d, e, f := Repeat(runs[0].ch, runs[0].len), Expanded(init[1..]), Repeat(runs[n].ch, runs[n].len);
      assert d + e + f == d + (e + f);
    }
  }

  // ----- the decoder's side

  datatype Text = Text(bytes: seq<int>) | Unfinished

  /** How many of the first four bytes equal the first. */
  function Lead(s: seq<int>): (k: nat)
    requires s != []
    ensures 1 <= k <= 4 && k <= |s|
    ensures forall i :: 0 <= i < k ==> s[i] == s[0]
    ensures k < 4 && k < |s| ==> s[k] != s[0]
  {
    if |s| < 2 || s[1] != s[0] then 1
    else if |s| < 3 || s[2] != s[0] then 2
    else if |s| < 4 || s[3] != s[0] then 3
    else 4
  }

  /** What a block stands for; four equal bytes at its very end lack their count. */
  function UnRle(s: seq<int>): (r: Text)
    requires forall i :: 0 <= i < |s| ==> 0 <= s[i] < 256
    decreases |s|
  {
    if s == [] then Text([])
    else
      var k := Lead(s);
      if k < 4 then
        match UnRle(s[k..])
        case Text(more) => Text(Repeat(s[0], k) + more)
        case Unfinished => Unfinished
      else if |s| == 4 then Unfinished
      else
        match UnRle(s[5..])
        case Text(more) => Text(Repeat(s[0], 4 + s[4]) + more)
        case Unfinished => Unfinished
  }

  lemma {:induction false} LeadOfRun(r: Run, rest: seq<int>)
    requires r.Valid() && (r.len < 4 && rest != [] ==> rest[0] != r.ch)
    ensures var s := RunBytes(r) + rest;
            && s != [] && s[0] == r.ch
            && (if r.len < 4 then Lead(s) == r.len && s[r.len..] == rest
                else Lead(s) == 4 && |s| > 4 && s[4] == r.len - 4 && s[5..] == rest)
  {
    var s := RunBytes(r) + rest;
    if r.len < 4 {
      assert s[..r.len] == Repeat(r.ch, r.len);
      assert forall i :: 0 <= i < r.len ==> s[i] == r.ch;
      assert rest != [] ==> s[r.len] == rest[0];
    } else {
      assert forall i :: 0 <= i < 4 ==> s[i] == r.ch;
    }
  }

  /** Run-length coding is undone, for every sequence of complete runs. */
  lemma {:induction false} UnRlePacked(runs: seq<Run>)
    requires Runs(runs)
    ensures forall i :: 0 <= i < |Packed(runs)| ==> 0 <= Packed(runs)[i] < 256
    ensures UnRle(Packed(runs)) == Text(Expanded(runs))
    decreases |runs|
  {
    hide *;
    PackedAre(runs);
    EmptyRuns();
    if runs != [] {
      HeadRun(runs);
      PackedCons(runs);
      PackedAre(runs[1..]);
      UnRlePacked(runs[1..]);
      UnRleRun(runs[0], Packed(runs[1..]));
    }
  }

  lemma HeadRun(runs: seq<Run>)
    requires Runs(runs) && runs != []
    ensures runs[0].Valid() && (|runs| > 1 && runs[0].len < 4 ==> runs[1].ch != runs[0].ch)
  {
    if |runs| > 1 { assert Apart(runs[0], runs[1]); }
  }

  /** The decoder takes one run off the front. */
  lemma {:induction false} UnRleRun(r: Run, rest: seq<int>)
    requires r.Valid() && (r.len < 4 && rest != [] ==> rest[0] != r.ch)
    requires forall i :: 0 <= i < |rest| ==> 0 <= rest[i] < 256
    ensures forall i :: 0 <= i < |RunBytes(r) + rest| ==> 0 <= (RunBytes(r) + rest)[i] < 256
    ensures UnRle(rest).Text? ==> UnRle(RunBytes(r) + rest) == Text(Repeat(r.ch, r.len) + UnRle(rest).bytes)
  {
    LeadOfRun(r, rest);
    assert forall i :: 0 <= i < |RunBytes(r)| ==> 0 <= RunBytes(r)[i] < 256;
    hide Lead, RunBytes;
  }

  lemma EmptyRuns()
    ensures Packed([]) == [] && Expanded([]) == [] && UnRle([]) == Text([])
  {
  }
}
