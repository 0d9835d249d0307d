/** The first four bytes of a stream, and which error answers them. */
module StreamHeader {
  import opened Bytes
  import opened BitStrings
  import opened BitWriter
  import opened StreamFormat
  import opened DecoderOutcome
  import opened DecoderSteps

  /** BZh and a digit from 1 to 9. */
  predicate GoodHeader(all: seq<int>) {
    |all| >= 4 && all[0] == 0x42 && all[1] == 0x5a && all[2] == 0x68 && 0x31 <= all[3] <= 0x39
  }

  /** What there is of the header is wrong. */
  predicate BadHeader(all: seq<int>) {
    || (|all| > 0 && all[0] != 0x42) || (|all| > 1 && all[1] != 0x5a) || (|all| > 2 && all[2] != 0x68)
    || (|all| > 3 && !(0x31 <= all[3] <= 0x39))
  }

  predicate Begins(all: seq<int>, k: nat) {
    k <= 3 && k <= |all| && (k > 0 ==> all[0] == 0x42) && (k > 1 ==> all[1] == 0x5a) && (k > 2 ==> all[2] == 0x68)
  }

  predicate InHeader(p: Parser) { p.Magic? || p.Level? }

  function HeaderPlace(p: Parser): (k: nat) {
    if p.Magic? then p.k else 3
  }

  /** Before the end of the header, what is unread begins where the place says; after it, the header
      is good. */
  ghost predicate HeaderAt(p: Parser, all: seq<int>, unread: seq<bool>) {
    && IsBytes(all)
    && if InHeader(p) then Begins(all, HeaderPlace(p)) && unread == ByteBits(all[HeaderPlace(p)..]) else GoodHeader(all)
  }

  lemma HeaderStart()
    ensures HeaderAt(Magic(0), [], ByteBits([]))
  {
  }

  lemma HeaderMore(p: Parser, all: seq<int>, unread: seq<bool>, more: seq<int>)
    requires HeaderAt(p, all, unread) && IsBytes(more)
    ensures HeaderAt(p, all + more, unread + ByteBits(more))
  {
    hide ByteBits, IsBytes, GoodHeader, Begins, HeaderPlace;
    HeaderStays(all, more, HeaderPlace(p));
    if InHeader(p) { MoreBytes(all, more, HeaderPlace(p)); } else { MoreBytes(all, more, 0); }
  }

  lemma MoreBytes(all: seq<int>, more: seq<int>, k: nat)
    requires IsBytes(all) && IsBytes(more) && k <= |all|
    ensures IsBytes(all + more) && ByteBits((all + more)[k..]) == ByteBits(all[k..]) + ByteBits(more)
  {
    hide ByteBits;
    ByteBitsAppend(all[k..], more);
    assert (all + more)[k..] == all[k..] + more;
  }

  /** Bytes read do not change. */
  lemma HeaderStays(all: seq<int>, more: seq<int>, k: nat)
    ensures GoodHeader(all) ==> GoodHeader(all + more)
    ensures Begins(all, k) ==> k <= |all| && Begins(all + more, k)
  {
  }

  /** One byte of the header is read. */
  lemma HeaderByte(all: seq<int>, k: nat, v: nat, rest: seq<bool>)
    requires IsBytes(all) && k <= |all| && GetBits(ByteBits(all[k..]), 8) == Done(v, rest)
    ensures k < |all| && v == all[k] && rest == ByteBits(all[k + 1..])
  {
    hide ToBits, FromBits;
    if k < |all| {
      hide ByteBits, GetBits;
      HeadOf(all[k..]);
      GetPut(8, all[k], ByteBits(all[k..][1..]));
      assert all[k..][1..] == all[k + 1..];
    }
  }

  /** A value read, whether of the header or after it. */
  lemma HeaderMove(p: Parser, all: seq<int>, unread: seq<bool>, v: nat, rest: seq<bool>)
    requires HeaderAt(p, all, unread) && Ok(p) && !p.Mtf? && GetBits(unread, Need(p)) == Done(v, rest)
    ensures var m := NextHead(p, v);
            && (m.Go? ==> HeaderAt(m.p, all, rest))
            && (m.Stop? ==> GoodHeader(all))
            && (m.Fail? ==> if InHeader(p) then BadHeader(all) else GoodHeader(all))
  {
    hide ByteBits, GetBits;
    if InHeader(p) {
      HeaderByte(all, HeaderPlace(p), v, rest);
      hide IsBytes;
    } else {
      hide Ok, Need, IsBytes;
      NotBack(p, v);
    }
  }

  lemma {:induction false} RowPlaces(head: Head, rows: seq<bool>, inUse: seq<bool>)
    requires |rows| == 16 && |inUse| <= 256 && |inUse| % 16 == 0
    ensures EnterRow(head, rows, inUse).Go? ==> !InHeader(EnterRow(head, rows, inUse).p)
    decreases 256 - |inUse|
  {
    if |inUse| < 256 && !rows[|inUse| / 16] { RowPlaces(head, rows, inUse + seq(16, _ => false)); }
  }

  lemma NotBack(p: Parser, v: nat)
    requires Ok(p) && !p.Mtf? && !InHeader(p)
    ensures NextHead(p, v).Go? ==> !InHeader(NextHead(p, v).p)
  {
    match p
    case Mapping1(head, rows) => if |rows| == 15 { RowPlaces(head, rows + [v == 1], []); }
    case Mapping2(head, rows, inUse) => if |inUse| % 16 == 15 { RowPlaces(head, rows, inUse + [v == 1]); }
    case _ =>
  }

  // ----- a wrong header, decoded in one go

  /** One byte that must come next. */
  lemma ExpectByte(all: seq<int>, bytes: seq<int>)
    requires IsBytes(all) && all != [] && bytes != []
    ensures IsBytes(all[1..])
    ensures Expect(ByteBits(all), bytes) == if all[0] != bytes[0] then Bad else Expect(ByteBits(all[1..]), bytes[1..])
  {
    hide ToBits, ByteBits, GetBits;
    HeadOf(all);
    GetPut(8, all[0], ByteBits(all[1..]));
  }

  lemma LevelByte(all: seq<int>)
    requires IsBytes(all) && all != []
    ensures GetBits(ByteBits(all), 8) == Done(all[0], ByteBits(all[1..]))
  {
    hide ToBits, ByteBits, GetBits;
    HeadOf(all);
    GetPut(8, all[0], ByteBits(all[1..]));
  }

  /** A wrong header is refused before any text is given. */
  lemma BadHeaderRefused(all: seq<int>)
    requires IsBytes(all) && BadHeader(all)
    ensures YieldStream(ByteBits(all)) == Refused([], Wrong)
  {
    hide ByteBits, Expect, GetBits, Yield;
    var magic: seq<int> := [0x42, 0x5a, 0x68];
    ExpectByte(all, magic);
    if all[0] == 0x42 {
      var a1 := all[1..];
      assert magic[1..] == [0x5a, 0x68] && a1[0] == all[1];
      ExpectByte(a1, magic[1..]);
      if all[1] == 0x5a {
        var a2 := a1[1..];
        assert magic[1..][1..] == [0x68] && a2[0] == all[2];
        ExpectByte(a2, magic[1..][1..]);
        if all[2] == 0x68 {
          var a3 := a2[1..];
          assert magic[1..][1..][1..] == [] && a3[0] == all[3];
          ExpectNothing(ByteBits(a3));
          LevelByte(a3);
        }
      }
    }
  }

  lemma ExpectNothing(bs: seq<bool>)
    ensures Expect(bs, []) == Done((), bs)
  {
  }
}
