/** The symbol half of BZ2_decompress, one symbol per call: runs, the two-level list and the
    bytes of the last column, in place. */
module BlockBuilder {
  import opened MtfDecoder
  import opened MoveToFront
  import opened BlockFormat
  import ME = MtfEncoder

  /** The first n entries of the list are the ranks in use. */
  ghost predicate Front(l: seq<int>, n: nat) {
    n <= |l| && forall k :: 0 <= k < n ==> 0 <= l[k] < n
  }

  ghost predicate InRange(out: seq<int>, n: nat) {
    forall k :: 0 <= k < |out| ==> 0 <= out[k] < n
  }

  lemma FrontTaken(l: seq<int>, n: nat, j: nat)
    requires Front(l, n) && j < n
    ensures Front(ToFront(l, j), n) && 0 <= l[j] < n
  {
  }

  ghost predicate Maps(seqToUnseq: seq<int>, used: seq<int>) {
    && |seqToUnseq| == 256 && |used| <= 256 && seqToUnseq[..|used|] == used
    && forall c :: 0 <= c < 256 ==> 0 <= seqToUnseq[c] < 256
  }

  /** Renaming by table and by list of bytes in use agree on ranks in use. */
  lemma RenamesAgree(out: seq<int>, seqToUnseq: seq<int>, used: seq<int>)
    requires Maps(seqToUnseq, used) && InRange(out, |used|)
    ensures Rename(out, seqToUnseq) == Renamed(out, used)
  {
    forall i | 0 <= i < |out| ensures Rename(out, seqToUnseq)[i] == Renamed(out, used)[i] {
      assert seqToUnseq[out[i]] == seqToUnseq[..|used|][out[i]];
    }
  }

  datatype Told = Further | Full | Bad

  class Builder {
    const mtf: TwoLevelList
    /** The bytes of the last column: tt or ll16. */
    var cells: array<int>
    var nblock: nat
    var unzftab: seq<int>
    var seqToUnseq: seq<int>
    /** The run being read, less one, and the weight of its next digit. */
    var es: int
    var N: nat
    ghost var st: State
    ghost var used: seq<int>
    /** Whether the cells are the small decoder's. */
    ghost var narrow: bool

    ghost predicate Valid()
      reads this, mtf, mtf.mtfa, mtf.mtfbase, cells
    {
      && Apart()
      && mtf.Valid() && ByteList(mtf.list) && es >= -1 && st == State(mtf.list, st.out, es + 1, N)
      && Produced(cells[..], nblock, unzftab, st.out, seqToUnseq) && Maps(seqToUnseq, used)
      && Front(st.list, |used|) && InRange(st.out, |used|) && |used| > 0
      && (narrow ==> Halfwords(cells[..]))
    }

    ghost predicate Apart()
      reads `cells
    {
      mtf.mtfa != cells && mtf.mtfbase != cells && mtf.mtfa != mtf.mtfbase && mtf.mtfa.Length == 4096
        && mtf.mtfbase.Length == 16
    }

    constructor ()
      ensures fresh(mtf) && fresh(mtf.mtfa) && fresh(mtf.mtfbase) && Apart() && fresh(cells)
      ensures |seqToUnseq| == 256 && forall c :: 0 <= c < 256 ==> 0 <= seqToUnseq[c] < 256
    {
      var list := new TwoLevelList();
      mtf := list;
      cells := new int[0];
      nblock, es, N := 0, -1, 1;
      unzftab, seqToUnseq := [], seq(256, _ => 0);
      st, used, narrow := State([], [], 0, 1), [], false;
    }

    /** Before the first symbol of a block. */
    method Start(inUse: seq<bool>)
      requires Apart() && |inUse| == 256 && ME.Used(inUse, 256) != []
      requires |seqToUnseq| == 256 && forall c :: 0 <= c < 256 ==> 0 <= seqToUnseq[c] < 256
      requires narrow ==> Halfwords(cells[..])
      modifies `nblock, `unzftab, `seqToUnseq, `es, `N, `st, `used, mtf, mtf.mtfa, mtf.mtfbase
      ensures Valid() && st == State(Identity(256), [], 0, 1) && used == ME.Used(inUse, 256) && nblock == 0
    {
      hide TwoLevelList.Valid, Produced, Maps, Front, InRange, ByteList, Halfwords, ME.Used, Valid, Identity;
      var nInUse;
      nInUse, seqToUnseq := ME.MakeMapsDecode(inUse, seqToUnseq);
      unzftab := seq(256, _ => 0);
      mtf.Init();
      nblock, es, N := 0, -1, 1;
      used := ME.Used(inUse, 256);
      st := State(Identity(256), [], 0, 1);
      NothingProduced(cells[..], seqToUnseq, used);
      StartValid(this);
    }

    /** A pending run is written out, if it fits. */
    method FlushRun(limit: nat) returns (ok: bool)
      requires Valid() && limit <= cells.Length && nblock <= limit
      modifies `nblock, `unzftab, `es, `N, `st, cells
      ensures |old(st).list| == 256
      ensures ok <==> old(st).run == 0 || |old(st).out| + old(st).run <= limit
      ensures ok ==> Valid() && nblock <= limit
                     && st == State(old(st).list, old(st).out + Repeat(old(st).list[0], old(st).run), 0, 1)
    {
      hide ToFront, TwoLevelList.Valid, Produced, Maps, Front, InRange, Repeat, ByteList, Halfwords;
      ValidIs(this);
      ok := true;
      if es >= 0 {
        var x := mtf.First();
        ok, nblock, unzftab := FillRun(cells, nblock, unzftab, es + 1, limit, seqToUnseq, x, st.out);
        if !ok { return; }
        RunInRange(st.out, st.list, es + 1, |used|);
      } else {
        NoRun(st);
      }
      st := State(st.list, st.out + Repeat(st.list[0], es + 1), 0, 1);
      es, N := -1, 1;
    }

    /** One entry of the list becomes one byte. */
    method TakeEntry(j: nat, limit: nat)
      requires Valid() && j < |used| && nblock < limit <= cells.Length && st.run == 0 && st.weight == 1
      modifies `nblock, `unzftab, `st, mtf, mtf.mtfa, mtf.mtfbase, cells
      ensures |old(st).list| == 256
      ensures Valid() && nblock <= limit && st == State(ToFront(old(st).list, j), old(st).out + [old(st).list[j]], 0, 1)
    {
      hide ToFront, TwoLevelList.Valid, Produced, Maps, Front, InRange, Repeat, ByteList, Halfwords;
      ValidIs(this);
      EntryOf(st.list, |used|, j);
      ghost var a, l := cells[..], mtf.list;
      ByteListFront(l, j);
      var uc := mtf.Take(j);
      MapsAt(seqToUnseq, used, uc);
      ProduceOne(a, nblock, unzftab, st.out, seqToUnseq, uc);
      HalfwordsKept(a, nblock, seqToUnseq[uc]);
      unzftab := unzftab[seqToUnseq[uc] := unzftab[seqToUnseq[uc]] + 1];
      cells[nblock] := seqToUnseq[uc];
      assert cells[..] == a[nblock := seqToUnseq[uc]];
      nblock := nblock + 1;
      OneInRange(st.out, uc, |used|);
      st := State(mtf.list, st.out + [uc], 0, 1);
    }

    /** RUNA or RUNB. */
    method RunDigit(nextSym: nat)
      requires Valid() && nextSym <= 1
      modifies `es, `N, `st
      ensures Valid()
      ensures st == old(st).(run := old(st).run + (nextSym + 1) * old(st).weight, weight := old(st).weight * 2)
    {
      hide ToFront, TwoLevelList.Valid, Produced, Maps, Front, InRange, Repeat, ByteList, Halfwords;
      es := es + (nextSym + 1) * N;
      N := N * 2;
      st := st.(run := es + 1, weight := N);
    }

    /** One symbol: exactly what the plain list would do with it. */
    method Symbol(nextSym: nat, eob: nat, limit: nat) returns (told: Told)
      requires Valid() && eob == |used| + 1 && nextSym <= eob && limit <= cells.Length && nblock <= limit
      modifies `nblock, `unzftab, `es, `N, `st, mtf, mtf.mtfa, mtf.mtfbase, cells
      ensures |old(st).list| == 256 && eob <= 257
      ensures match Step(old(st), nextSym, eob, limit)
              case More(st') => told == Further && Valid() && st == st' && nblock <= limit
              case Finished(out) => told == Full && Valid() && nblock <= limit && st.out == out
              case Corrupt => told == Bad
    {
      hide ToFront, Valid, Repeat;
      ValidIs(this);
      if nextSym <= 1 {
        if N >= 2 * 1024 * 1024 { return Bad; }
        RunDigit(nextSym);
        return Further;
      }
      var ok := FlushRun(limit);
      if !ok { return Bad; }
      if nextSym == eob { return Full; }
      ValidIs(this);
      if nblock >= limit { return Bad; }
      TakeEntry(nextSym - 1, limit);
      return Further;
    }
  }

  lemma ValidIs(b: Builder)
    requires b.Valid()
    ensures |b.st.list| == 256 && |b.unzftab| == 256 && |b.seqToUnseq| == 256 && b.nblock == |b.st.out|
    ensures b.es >= -1 && b.st.run == b.es + 1 && b.st.weight == b.N && b.mtf.list == b.st.list && b.mtf.Valid()
    ensures 0 <= b.st.list[0] < 256 && 0 <= b.seqToUnseq[b.st.list[0]] < 256 && |b.used| <= 256
  {
  }

  lemma StartValid(b: Builder)
    requires b.Apart() && b.mtf.Valid() && b.mtf.list == Identity(256) && b.es == -1 && b.nblock == 0 && b.used != []
    requires b.st == State(Identity(256), [], 0, b.N) && (b.narrow ==> Halfwords(b.cells[..]))
    requires Produced(b.cells[..], 0, b.unzftab, [], b.seqToUnseq) && Maps(b.seqToUnseq, b.used)
    requires ByteList(Identity(256)) && Front(Identity(256), |b.used|) && InRange([], |b.used|)
    ensures b.Valid()
  {
    hide TwoLevelList.Valid, Produced, Maps, Front, InRange, ByteList, Halfwords, Identity;
  }

  lemma NothingProduced(cells: seq<int>, seqToUnseq: seq<int>, used: seq<int>)
    requires |seqToUnseq| == 256 && |used| <= 256 && seqToUnseq[..|used|] == used
    requires forall c :: 0 <= c < 256 ==> 0 <= seqToUnseq[c] < 256
    ensures Produced(cells, 0, seq(256, _ => 0), [], seqToUnseq) && Maps(seqToUnseq, used)
    ensures ByteList(Identity(256)) && Front(Identity(256), |used|) && InRange([], |used|)
  {
    assert cells[..0] == Rename([], seqToUnseq);
  }

  lemma NoRun(st: State)
    requires |st.list| > 0
    ensures st.out + Repeat(st.list[0], 0) == st.out
  {
  }

  lemma RunInRange(out: seq<int>, l: seq<int>, n: nat, m: nat)
    requires InRange(out, m) && Front(l, m) && m > 0
    ensures |l| > 0 && InRange(out + Repeat(l[0], n), m)
  {
  }

  lemma OneInRange(out: seq<int>, x: int, m: nat)
    requires InRange(out, m) && 0 <= x < m
    ensures InRange(out + [x], m)
  {
  }

  lemma EntryOf(l: seq<int>, n: nat, j: nat)
    requires Front(l, n) && j < n
    ensures j < |l| && 0 <= l[j] < n && Front(ToFront(l, j), n)
  {
    FrontTaken(l, n, j);
  }

  lemma MapsAt(seqToUnseq: seq<int>, used: seq<int>, c: int)
    requires Maps(seqToUnseq, used) && 0 <= c < 256
    ensures |seqToUnseq| == 256 && 0 <= seqToUnseq[c] < 256
  {
  }
}
