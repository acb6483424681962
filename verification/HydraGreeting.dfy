// The first packets of a Hydra session, START and INITACK, and the "hydra" that HTX_START puts on
// the tty past the buffer (source/bforce/prot_hydra.c): it may fall inside such a packet, which is
// then lost, but nothing is ever heard that has not been sent.
module HydraGreeting {
  import opened Wrappers
  import opened Crc
  import opened Files
  import opened HydraCodec
  import opened HydraTransparency
  import opened HydraQueue

  // ---------------------------------------------------------------------------
  // Their texts
  // ---------------------------------------------------------------------------

  // Packet type and check bytes, both of them sent as hexadecimal digits
  function GreetingText(ack: bool): (t: seq<Byte>)
    ensures |t| == 13
  {
    [DLE, HEXPKT]
    + (if ack then [0x43, BACKSLASH, 0x65, 0x37, BACKSLASH, 0x38, 0x30]
       else [0x41, BACKSLASH, 0x66, 0x35, BACKSLASH, 0x61, 0x33])
    + [DLE, PKTEND, CR, LF]
  }

  lemma StartCheck()
    ensures Crc16(0xffff, [PKT_START]) == 0x5c0a && Trailer16(0x5c0a) == [0xf5, 0xa3]
  {
    Division(0xffff, PKT_START);
    assert Xor16(0xffff, In16(PKT_START)) == 0xffbe;
    assert Bit16(0xffbe) == 0x7fdf && Bit16(0x7fdf) == 0xbbe7 && Bit16(0xbbe7) == 0xd9fb && Bit16(0xd9fb) == 0xe8f5;
    assert Bit16(0xe8f5) == 0xf072 && Bit16(0xf072) == 0x7839 && Bit16(0x7839) == 0xb814 && Bit16(0xb814) == 0x5c0a;
  }

  lemma InitAckCheck()
    ensures Crc16(0xffff, [PKT_INITACK]) == 0x7f18 && Trailer16(0x7f18) == [0xe7, 0x80]
  {
    Division(0xffff, PKT_INITACK);
    assert Xor16(0xffff, In16(PKT_INITACK)) == 0xffbc;
    assert Bit16(0xffbc) == 0x7fde && Bit16(0x7fde) == 0x3fef && Bit16(0x3fef) == 0x9bff && Bit16(0x9bff) == 0xc9f7;
    assert Bit16(0xc9f7) == 0xe0f3 && Bit16(0xe0f3) == 0xf471 && Bit16(0xf471) == 0xfe30 && Bit16(0xfe30) == 0x7f18;
  }

  lemma Division(reg: bv16, b: Byte)
    ensures Crc16(reg, [b]) == Bits16(Xor16(reg, In16(b)))
  {
    assert [b][..0] == [];
    assert Crc16(reg, []) == reg;
  }

  lemma HexBytes()
    ensures HexByte(0xf5) == [BACKSLASH, 0x66, 0x35] && HexByte(0xa3) == [BACKSLASH, 0x61, 0x33]
    ensures HexByte(0xe7) == [BACKSLASH, 0x65, 0x37] && HexByte(0x80) == [BACKSLASH, 0x38, 0x30]
    ensures HexByte(PKT_START) == [PKT_START] && HexByte(PKT_INITACK) == [PKT_INITACK]
  {
  }

  lemma HexOfThree(a: Byte, b: Byte, c: Byte)
    ensures HexText([a, b, c]) == HexByte(a) + HexByte(b) + HexByte(c)
  {
    hide HexByte;
    assert [a, b, c][..2] == [a, b] && [a, b][..1] == [a] && [a][..0] == [];
    assert HexText([]) == [] && HexText([a]) == [] + HexByte(a);
    assert [] + HexByte(a) == HexByte(a);
  }

  lemma GreetingIs(o: Options, last: LastChar, ack: bool, pad: Byte)
    ensures OutgoingText(o, Outgoing(if ack then PKT_INITACK else PKT_START, [], last, pad)) == GreetingText(ack)
  {
    hide Crc16, Trailer16, HexText, HexByte;
    var kind := if ack then PKT_INITACK else PKT_START;
    StartCheck();
    InitAckCheck();
    HexBytes();
    assert [] + [kind] == [kind];
    var b := Body(o, kind, []);
    HexOfThree(b[0], b[1], b[2]);
    assert b == [b[0], b[1], b[2]];
  }

  // ---------------------------------------------------------------------------
  // What a HEX block decodes to, one character at a time
  // ---------------------------------------------------------------------------

  // The characters an escape still lacks, its first digit, and whether every byte so far is
  // harmless: one of `kinds`, or no packet type at all.
  datatype Scan = Scan(needs: nat, first: Byte, harmless: bool)

  predicate Harmless(b: Byte, kinds: set<Byte>) {
    b in kinds || !KnownKind(b)
  }

  function ScanChar(sc: Scan, c: Byte, kinds: set<Byte>): Scan {
    if sc.needs == 0 then
      if c == BACKSLASH then Scan(2, 0, sc.harmless) else Scan(0, 0, sc.harmless && Harmless(c, kinds))
    else if sc.needs == 2 then
      if c == BACKSLASH then Scan(0, 0, sc.harmless && Harmless(c, kinds)) else Scan(1, c, sc.harmless)
    else Scan(0, 0, sc.harmless && Harmless(Hexed(sc.first, c), kinds))
  }

  function Hexed(x: Byte, y: Byte): Byte {
    (HexValue(x) << 4) | HexValue(y)
  }

  function ScanFrom(sc: Scan, t: seq<Byte>, kinds: set<Byte>): Scan
    decreases |t|
  {
    if t == [] then sc else ScanFrom(ScanChar(sc, t[0], kinds), t[1..], kinds)
  }

  const FRESH := Scan(0, 0, true)

  lemma {:induction false} ScanAppend(sc: Scan, t: seq<Byte>, c: Byte, kinds: set<Byte>)
    ensures ScanFrom(sc, t + [c], kinds) == ScanChar(ScanFrom(sc, t, kinds), c, kinds)
    decreases |t|
  {
    hide ScanChar;
    if t == [] {
      assert (t + [c])[1..] == [] && (t + [c])[0] == c;
    } else {
      assert (t + [c])[0] == t[0] && (t + [c])[1..] == t[1..] + [c];
      ScanAppend(ScanChar(sc, t[0], kinds), t[1..], c, kinds);
    }
  }

  lemma {:induction false} ScanHarmless(sc: Scan, t: seq<Byte>, kinds: set<Byte>)
    requires ScanFrom(sc, t, kinds).harmless
    ensures sc.harmless
    decreases |t|
  {
    if t != [] {
      ScanHarmless(ScanChar(sc, t[0], kinds), t[1..], kinds);
    }
  }

  // A block whose escapes are complete decodes to harmless bytes.
  lemma {:induction false} DecodedHarmless(room: nat, t: seq<Byte>, beyond: seq<Byte>, kinds: set<Byte>)
    requires ScanFrom(FRESH, t, kinds).harmless && ScanFrom(FRESH, t, kinds).needs == 0
    ensures forall b :: b in HexDecode(room, t, beyond) ==> Harmless(b, kinds)
    decreases |t|
  {
    hide Harmless, HexValue;
    if t != [] && room > 0 {
      if t[0] != BACKSLASH {
        ScanHarmless(ScanChar(FRESH, t[0], kinds), t[1..], kinds);
        DecodedHarmless(room - 1, t[1..], beyond, kinds);
      } else {
        assert |t| > 1;
        var sc := ScanChar(Scan(2, 0, true), t[1], kinds);
        assert ScanFrom(FRESH, t, kinds) == ScanFrom(sc, t[2..], kinds) by { assert t[1..][1..] == t[2..]; }
        if t[1] == BACKSLASH {
          ScanHarmless(sc, t[2..], kinds);
          DecodedHarmless(room - 1, t[2..], beyond, kinds);
        } else {
          assert sc == Scan(1, t[1], true);
          assert |t| > 2;
          var sc' := ScanChar(sc, t[2], kinds);
          assert ScanFrom(sc, t[2..], kinds) == ScanFrom(sc', t[3..], kinds) by { assert t[2..][1..] == t[3..]; }
          ScanHarmless(sc', t[3..], kinds);
          DecodedHarmless(room - 1, t[3..], beyond, kinds);
        }
      }
    }
  }

  // Whatever its check, such a block is junk or a packet of one of the kinds.
  lemma ClosingHarmless(o: Options, t: seq<Byte>, beyond: seq<Byte>, kinds: set<Byte>)
    requires ScanFrom(FRESH, t, kinds).harmless && ScanFrom(FRESH, t, kinds).needs == 0
    ensures Greets(Closing(o, HEXPKT, t, beyond), kinds)
  {
    hide GoodCheck, KnownKind, HexDecode;
    DecodedHarmless(MAXDATALEN, t, beyond, kinds);
    var b := HexDecode(MAXDATALEN, t, beyond);
    var size := |b| - 3;
    assert size >= 0 ==> Harmless(b[size], kinds);
  }

  predicate Greets(e: Event, kinds: set<Byte>) {
    e == Junk || (e.Packet? && e.kind in kinds)
  }

  // ---------------------------------------------------------------------------
  // A receiver amid such packets
  // ---------------------------------------------------------------------------

  // What the escape at hand still lacks, behind `off` characters of the text
  function Want(off: nat): nat {
    if off == 4 || off == 7 then 2 else if off == 5 || off == 8 then 1 else 0
  }

  // The first character of a hexadecimal number, of the text's own or of a hail's making
  predicate Leading(c: Byte) {
    c in HAIL[..5] || c in [0x65, 0x38, 0x66, 0x61]
  }

  predicate Following(c: Byte) {
    c in HAIL[..5] || c in [0x65, 0x38, 0x66, 0x61, 0x37, 0x30, 0x35, 0x33]
  }

  predicate ScanOk(sc: Scan, off: nat) {
    sc.harmless && sc.needs <= Want(off) && (sc.needs == 1 ==> Leading(sc.first))
  }

  // A DLE is pending only right behind one of the text.
  predicate Cut(s: Receiver, off: nat, hail: bool, kinds: set<Byte>) {
    && s.idle <= 1 && (s.idle == 1 ==> (off == 1 || off == 10) && !hail)
    && (s.receiving ==> s.format == HEXPKT && ScanOk(ScanFrom(FRESH, s.enc, kinds), off))
  }

  lemma High(v: Byte)
    requires v < 0x40
    ensures 0x10 | v < 0x40 && 0x20 | v < 0x40
    ensures 0xd0 | v >= 0x80 && 0xa0 | v >= 0x80 && 0xb0 | v >= 0x80
    ensures 0xe0 | v >= 0x80 && 0x80 | v >= 0x80 && 0xf0 | v >= 0x80
  {
  }

  // The values of the hail's letters and of the digits that occur
  lemma LetterValues()
    ensures HexValue(0x68) == 0x11
  {
  }

  lemma NextLetterValue()
    ensures HexValue(0x79) == 0x22
  {
  }

  lemma LastLetterValue()
    ensures HexValue(0x72) == 0x1b
  {
  }

  lemma LowLetterValues()
    ensures HexValue(0x61) == 0x0a && HexValue(0x64) == 0x0d
  {
  }

  lemma MoreLetterValues()
    ensures HexValue(0x65) == 0x0e && HexValue(0x66) == 0x0f
  {
  }

  lemma DigitValues()
    ensures HexValue(0x30) == 0 && HexValue(0x33) == 3 && HexValue(0x35) == 5
    ensures HexValue(0x37) == 7 && HexValue(0x38) == 8
  {
  }

  lemma HexValues()
    ensures HexValue(0x68) == 0x11 && HexValue(0x79) == 0x22 && HexValue(0x64) == 0x0d && HexValue(0x72) == 0x1b
    ensures HexValue(0x61) == 0x0a && HexValue(0x65) == 0x0e && HexValue(0x66) == 0x0f && HexValue(0x38) == 8
    ensures HexValue(0x37) == 7 && HexValue(0x30) == 0 && HexValue(0x35) == 5 && HexValue(0x33) == 3
  {
    hide HexValue;
    LetterValues();
    NextLetterValue();
    LastLetterValue();
    LowLetterValues();
    MoreLetterValues();
    DigitValues();
  }

  lemma LeadingNibble(x: Byte)
    requires Leading(x)
    ensures HexValue(x) << 4 in [0x10, 0x20, 0xd0, 0xa0, 0xb0, 0xe0, 0x80, 0xf0]
  {
    hide HexValue;
    HexValues();
  }

  lemma FollowingValue(y: Byte)
    requires Following(y)
    ensures HexValue(y) < 0x40
  {
    hide HexValue;
    HexValues();
  }

  lemma HexedHarmless(x: Byte, y: Byte, kinds: set<Byte>)
    requires Leading(x) && Following(y)
    ensures Harmless(Hexed(x, y), kinds)
  {
    hide HexValue, Leading, Following;
    LeadingNibble(x);
    FollowingValue(y);
    High(HexValue(y));
  }

  predicate Visible(c: Byte) {
    0x20 <= c < 0x7f
  }

  lemma VisiblePasses(o: Options, c: Byte)
    requires Visible(c)
    ensures Strip(o, c) == c && !Discarded(o, c) && c != DLE
  {
  }

  lemma LineEndsDiscarded(o: Options, c: Byte)
    requires o.ctlchrs && (c == CR || c == LF)
    ensures Discarded(o, Strip(o, c))
  {
  }

  // The character fits the escape at hand.
  predicate Suits(sc: Scan, c: Byte, kinds: set<Byte>) {
    && (sc.needs == 0 && c != BACKSLASH ==> Harmless(c, kinds))
    && (sc.needs == 1 ==> Following(c))
    && (sc.needs == 2 ==> c != BACKSLASH && Leading(c))
  }

  lemma CharScanned(sc: Scan, c: Byte, off: nat, off': nat, kinds: set<Byte>)
    requires ScanOk(sc, off) && Suits(sc, c, kinds)
    requires if sc.needs > 0 then sc.needs - 1 <= Want(off') else if c == BACKSLASH then Want(off') == 2 else true
    ensures ScanOk(ScanChar(sc, c, kinds), off')
  {
    hide Leading, Following, Hexed, Harmless;
    if sc.needs == 1 {
      HexedHarmless(sc.first, c, kinds);
    }
  }

  // A character is stored.
  lemma StoreKeepsCut(s: Receiver, c: Byte, off: nat, off': nat, hail: bool, hail': bool, kinds: set<Byte>)
    requires Cut(s, off, hail, kinds) && s.idle == 0
    requires s.receiving ==> Suits(ScanFrom(FRESH, s.enc, kinds), c, kinds)
    requires s.receiving ==>
               var sc := ScanFrom(FRESH, s.enc, kinds);
               if sc.needs > 0 then sc.needs - 1 <= Want(off') else if c == BACKSLASH then Want(off') == 2 else true
    ensures Cut(Store(s, c), off', hail', kinds)
  {
    hide Suits, ScanOk, ScanChar, ScanFrom;
    if s.receiving {
      CharScanned(ScanFrom(FRESH, s.enc, kinds), c, off, off', kinds);
      ScanAppend(FRESH, s.enc, c, kinds);
    }
  }

  lemma HailIsVisible(c: Byte, kinds: set<Byte>)
    requires c in HAIL && c != CR
    ensures Visible(c) && Leading(c) && Following(c) && c != BACKSLASH && Harmless(c, kinds)
  {
  }

  // The next character is a hail's.
  lemma HailHeard(o: Options, s: Receiver, off: nat, hail: bool, c: Byte, beyond: seq<Byte>, kinds: set<Byte>)
    requires o.ctlchrs && Cut(s, off, hail, kinds) && c in HAIL && (!hail ==> c == HAIL[0])
    ensures var (t, e) := Receive(o, s, c, beyond); e == Pending && Cut(t, off, true, kinds)
  {
    hide Strip, Discarded, Visible, Leading, Following, ScanFrom, Judge, Decode, Store;
    if c == CR {
      LineEndsDiscarded(o, c);
    } else {
      HailIsVisible(c, kinds);
      VisiblePasses(o, c);
      if s.idle == 1 {
        assert Flip(c) == 0x28 && Harmless(0x28, kinds);
        StoreKeepsCut(s.(idle := 0), 0x28, off, off, hail, true, kinds);
      } else {
        StoreKeepsCut(s, c, off, off, hail, true, kinds);
      }
    }
  }

  function KindOf(ack: bool): Byte {
    if ack then PKT_INITACK else PKT_START
  }

  // A character of the text proper
  lemma BodyHeard(o: Options, s: Receiver, off: nat, hail: bool, ack: bool, beyond: seq<Byte>, kinds: set<Byte>)
    requires o.ctlchrs && Cut(s, off, hail, kinds) && KindOf(ack) in kinds && 2 <= off < 9
    ensures var (t, e) := Receive(o, s, GreetingText(ack)[off], beyond); e == Pending && Cut(t, off + 1, false, kinds)
  {
    hide Strip, Discarded, ScanFrom, Judge, Decode, Store;
    var c := GreetingText(ack)[off];
    VisiblePasses(o, c);
    StoreKeepsCut(s, c, off, off + 1, hail, false, kinds);
  }

  // Its frame
  lemma FrameHeard(o: Options, s: Receiver, off: nat, hail: bool, ack: bool, beyond: seq<Byte>, kinds: set<Byte>)
    requires o.ctlchrs && Cut(s, off, hail, kinds) && (off < 2 || 9 <= off < 13)
    ensures var (t, e) := Receive(o, s, GreetingText(ack)[off], beyond);
            Cut(t, (off + 1) % 13, false, kinds) && (e == Pending || (off == 10 && Greets(e, kinds)))
  {
    hide Strip, Discarded, Judge, Decode, Store, Greets;
    var c := GreetingText(ack)[off];
    if off == 11 || off == 12 {
      LineEndsDiscarded(o, c);
    } else if off == 0 || off == 9 {
      DlePasses(o);
    } else if s.idle == 1 {
      FormatPasses(o, c);
      if s.receiving && off == 10 {
        ClosingHarmless(o, s.enc, beyond, kinds);
      }
      assert Greets(Junk, kinds) by { JunkGreets(kinds); }
    } else {
      VisiblePasses(o, c);
      StoreKeepsCut(s, c, off, off + 1, hail, false, kinds);
    }
  }

  lemma JunkGreets(kinds: set<Byte>)
    ensures Greets(Junk, kinds)
  {
  }

  // ---------------------------------------------------------------------------
  // A whole greeting
  // ---------------------------------------------------------------------------

  // Bytes of packets before sign j
  function Pos(tape: seq<Sign>, j: nat): nat
    requires j <= |tape|
  {
    |Text(tape[..j])|
  }

  // Behind a hail
  predicate Hailing(tape: seq<Sign>, j: nat)
    requires j <= |tape|
  {
    j > 0 && tape[j - 1].hail
  }

  // Sign j is one of a hail, or the next one of the greeting's packets.
  predicate GreetingSign(tape: seq<Sign>, j: nat, acks: seq<bool>)
    requires j < |tape|
  {
    if tape[j].hail then tape[j].c in HAIL && (!Hailing(tape, j) ==> tape[j].c == HAIL[0])
    else
      var p := Pos(tape, j);
      p < 13 * |acks| && tape[j].c == GreetingText(acks[p / 13])[p % 13]
  }

  lemma PosNext(tape: seq<Sign>, j: nat)
    requires j < |tape|
    ensures Pos(tape, j + 1) == Pos(tape, j) + if tape[j].hail then 0 else 1
  {
    assert tape[..j + 1][..j] == tape[..j];
  }

  predicate AllKinds(acks: seq<bool>, kinds: set<Byte>) {
    forall k :: 0 <= k < |acks| ==> KindOf(acks[k]) in kinds
  }

  // One sign is heard.
  lemma SignHeard(o: Options, s: Receiver, tape: seq<Sign>, j: nat, acks: seq<bool>, kinds: set<Byte>,
                  beyond: seq<Byte>)
    requires o.ctlchrs && j < |tape| && GreetingSign(tape, j, acks) && AllKinds(acks, kinds)
    requires Cut(s, Pos(tape, j) % 13, Hailing(tape, j), kinds)
    ensures var (t, e) := Receive(o, s, tape[j].c, beyond);
            && Cut(t, Pos(tape, j + 1) % 13, Hailing(tape, j + 1), kinds) && (e == Pending || Greets(e, kinds))
  {
    hide Receive, Cut, Greets, GreetingText;
    PosNext(tape, j);
    hide Pos;
    var p := Pos(tape, j);
    if tape[j].hail {
      HailHeard(o, s, p % 13, Hailing(tape, j), tape[j].c, beyond, kinds);
    } else {
      var ack := acks[p / 13];
      Wraps(p);
      if 2 <= p % 13 < 9 {
        BodyHeard(o, s, p % 13, Hailing(tape, j), ack, beyond, kinds);
      } else {
        FrameHeard(o, s, p % 13, Hailing(tape, j), ack, beyond, kinds);
      }
    }
  }

  lemma Wraps(p: nat)
    ensures (p + 1) % 13 == (p % 13 + 1) % 13
  {
  }

  // Whatever is cut where, only junk and packets of the greeting are heard.
  lemma {:induction false} GreetingHeard(o: Options, s: Receiver, tape: seq<Sign>, a: nat, b: nat, acks: seq<bool>,
                                         kinds: set<Byte>, beyond: seq<Byte>)
    requires o.ctlchrs && a <= b <= |tape| && AllKinds(acks, kinds)
    requires forall j :: a <= j < b ==> GreetingSign(tape, j, acks)
    requires Cut(s, Pos(tape, a) % 13, Hailing(tape, a), kinds)
    ensures var t := ReceiveAll(o, s, Line(tape[a..b]), beyond);
            var c := b - |t.rest|;
            && a <= c && t.rest == Line(tape[c..b]) && Cut(t.state, Pos(tape, c) % 13, Hailing(tape, c), kinds)
            && (if t.event == Pending then c == b else a < c && Greets(t.event, kinds))
    decreases b - a
  {
    hide Receive, Cut, Greets, GreetingSign, AllKinds, Hailing, Pos;
    var input := Line(tape[a..b]);
    if a < b {
      SignHeard(o, s, tape, a, acks, kinds, beyond);
      var (t, e) := Receive(o, s, tape[a].c, beyond);
      assert input[0] == tape[a].c && input[1..] == Line(tape[a + 1..b]);
      if e == Pending {
        GreetingHeard(o, t, tape, a + 1, b, acks, kinds, beyond);
      }
    } else {
      assert input == [];
    }
  }

  // More kinds of packets do no harm.
  lemma {:induction false} ScanGrows(sc: Scan, sc': Scan, t: seq<Byte>, kinds: set<Byte>, more: set<Byte>)
    requires sc' == sc.(harmless := sc'.harmless) && (sc.harmless ==> sc'.harmless) && kinds <= more
    ensures var r, r' := ScanFrom(sc, t, kinds), ScanFrom(sc', t, more);
            r' == r.(harmless := r'.harmless) && (r.harmless ==> r'.harmless)
    decreases |t|
  {
    hide KnownKind, Hexed;
    if t != [] {
      ScanGrows(ScanChar(sc, t[0], kinds), ScanChar(sc', t[0], more), t[1..], kinds, more);
    }
  }

  lemma CutGrows(s: Receiver, off: nat, hail: bool, kinds: set<Byte>, more: set<Byte>)
    requires Cut(s, off, hail, kinds) && kinds <= more
    ensures Cut(s, off, hail, more)
  {
    hide Leading, ScanFrom;
    ScanGrows(FRESH, FRESH, s.enc, kinds, more);
  }
}
