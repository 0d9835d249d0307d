/** Blocks that an old encoder has randomised: the lowest bit of bytes at places given by a table is
    flipped. */
module Randomised {
  import opened RandTable

  /** rNToGo and rTPos */
  datatype Mask = Mask(toGo: int, pos: nat)

  /** BZ_RAND_UPD_MASK */
  function Next(m: Mask): (r: Mask)
    requires m.pos < 512
    ensures r.pos < 512
  {
    if m.toGo == 0 then Mask(RNum(m.pos) - 1, if m.pos + 1 == 512 then 0 else m.pos + 1) else m.(toGo := m.toGo - 1)
  }

  /** The mask after k updates from BZ_RAND_INIT_MASK. */
  function After(k: nat): (m: Mask)
    ensures 0 <= m.toGo && m.pos < 512
  {
    if k == 0 then Mask(0, 0) else Next(After(k - 1))
  }

  /** A byte with its lowest bit flipped. */
  function Flip(c: int): (r: int)
    ensures 0 <= c < 256 ==> 0 <= r < 256
    ensures r / 2 == c / 2 && r % 2 == 1 - c % 2
  {
    if c % 2 == 0 then c + 1 else c - 1
  }

  /** What byte k of a block stands for. */
  function Unmask(randomised: bool, k: nat, c: int): (r: int)
    ensures 0 <= c < 256 ==> 0 <= r < 256
  {
    if randomised && After(k + 1).toGo == 1 then Flip(c) else c
  }

  function Derandomise(s: seq<int>, randomised: bool): (r: seq<int>)
    ensures |r| == |s| && forall k :: 0 <= k < |s| ==> r[k] == Unmask(randomised, k, s[k])
  {
    seq(|s|, k requires 0 <= k < |s| => Unmask(randomised, k, s[k]))
  }

  lemma NotRandomised(s: seq<int>)
    ensures Derandomise(s, false) == s
  {
  }

  /** Randomising and derandomising are the same thing. */
  lemma FlippedTwice(s: seq<int>, randomised: bool)
    ensures Derandomise(Derandomise(s, randomised), randomised) == s
  {
    hide After;
  }

  /** Where stretch j begins; its length is the table's entry j, taken around. */
  function Start(j: nat): (k: nat)
    ensures k >= 50 * j
  {
    if j == 0 then 0 else Start(j - 1) + RNum((j - 1) % 512)
  }

  lemma {:induction false} WithinStretch(j: nat, i: nat)
    requires 1 <= i <= RNum(j % 512)
    ensures After(Start(j) + i) == Mask(RNum(j % 512) - i, (j + 1) % 512)
    decreases j, i
  {
    hide RNum, After, Start;
    StartIs(j);
    AfterIs(Start(j) + i - 1);
    if i > 1 {
      WithinStretch(j, i - 1);
    } else if j > 0 {
      WithinStretch(j - 1, RNum((j - 1) % 512));
    }
    Around(j);
  }

  lemma StartIs(j: nat)
    ensures Start(j) == if j == 0 then 0 else Start(j - 1) + RNum((j - 1) % 512)
  {
    hide RNum;
  }

  lemma AfterIs(k: nat)
    ensures After(0) == Mask(0, 0) && After(k + 1) == Next(After(k))
  {
    hide RNum, Next;
  }

  lemma Around(j: nat)
    ensures (j + 1) % 512 == if j % 512 + 1 == 512 then 0 else j % 512 + 1
  {
  }

  /** Exactly the last byte but one of every stretch is flipped. */
  lemma FlippedPlaces(j: nat, i: nat, c: int)
    requires i < RNum(j % 512)
    ensures Unmask(true, Start(j) + i, c) == if i == RNum(j % 512) - 2 then Flip(c) else c
  {
    hide RNum, After;
    WithinStretch(j, i + 1);
  }
  /** Every byte lies in one of the stretches. */
  lemma {:induction false} InStretch(k: nat) returns (j: nat, i: nat)
    ensures i < RNum(j % 512) && k == Start(j) + i
    decreases k
  {
    hide RNum, Start;
    StartIs(0);
    if k == 0 { return 0, 0; }
    j, i := InStretch(k - 1);
    StartIs(j + 1);
    if i + 1 < RNum(j % 512) { i := i + 1; } else { j, i := j + 1, 0; }
  }
}
