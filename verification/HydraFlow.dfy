// One direction of a Hydra session over a line that delivers the bytes written: how far the
// receiving station has got, and what its next event is.
module HydraFlow {
  import opened Wrappers
  import opened Crc
  import opened Files
  import opened HydraSession
  import opened HydraPackets
  import opened HydraQueue
  import opened HydraTurn
  import opened HydraGreeting
  import opened HydraDelivery
  import opened HydraOpening
  import Link = HydraCodec
  import Transparent = HydraTransparency
  import Negotiation = HydraNegotiation

  // ---------------------------------------------------------------------------
  // How far a station has got
  // ---------------------------------------------------------------------------

  // The first `greet` packets have been sent in HTX_START and HTX_SWAIT, and so have all hails.
  ghost predicate Greeted(m: Moment, greet: nat) {
    && m.hailed <= greet <= |m.sent|
    && (forall k :: 0 <= k < greet ==> OfGreeting(m.sent[k]))
    && (Early(m.st.tx.state) ==> greet == |m.sent|)
  }

  function Acks(sent: seq<Packet>, greet: nat): (a: seq<bool>)
    requires greet <= |sent|
    ensures |a| == greet
  {
    seq(greet, k requires 0 <= k < greet => sent[k].PInitAck?)
  }

  function KindsOf(acks: seq<bool>): set<Byte> {
    set k | 0 <= k < |acks| :: KindOf(acks[k])
  }

  // Bytes taken so far, and behind the greeting: where the packet at hand begins, how many are
  // behind it, what its predecessor's line end still lacks, and the receiver's state there.
  datatype Reading = Reading(greeting: bool, taken: nat, from: nat, heard: nat, end: seq<Byte>, base: Link.Receiver)

  const UNREAD := Reading(true, 0, 0, 0, [], Link.Receiver(0, false, 0, []))

  // In the greeting
  ghost predicate Amid(m: Moment, greet: nat, state: Link.Receiver, r: Reading)
    requires greet <= |m.sent|
  {
    && r.taken <= |m.tape| && Pos(m.tape, r.taken) <= 13 * greet
    && Cut(state, Pos(m.tape, r.taken) % 13, Hailing(m.tape, r.taken), KindsOf(Acks(m.sent, greet)))
  }

  // Behind the greeting
  ghost predicate Past(m: Moment, greet: nat, o: Link.Options, state: Link.Receiver, r: Reading) {
    && !Early(m.st.tx.state)
    && r.from <= r.taken <= |m.tape| && greet <= r.heard <= |m.texts|
    && NoHails(m.tape[r.from..]) && Text(m.tape[..r.from]) + r.end == Concat(m.texts[..r.heard])
    && EndOk(r.end, r.base) && r.base.idle == 0
    && forall b: seq<Byte> :: Link.ReceiveAll(o, r.base, Line(m.tape[r.from..r.taken]), b)
                              == Link.Taken(state, Link.Pending, [])
  }

  ghost predicate Reads(m: Moment, greet: nat, o: Link.Options, state: Link.Receiver, r: Reading)
    requires greet <= |m.sent|
  {
    if r.greeting then o.ctlchrs && Amid(m, greet, state, r) else Past(m, greet, o, state, r)
  }

  ghost predicate Sound(m: Moment, greet: nat, x: Extra) {
    Written(m) && Recorded(m.texts, m.under, m.sent, x) && Greeted(m, greet) && GoodExtra(x)
  }

  ghost predicate Flows(m: Moment, greet: nat, x: Extra, p: Port, r: Reading) {
    && greet <= |m.sent| && Sound(m, greet, x)
    && r.taken + |p.line| <= |m.tape| && p.line == Line(m.tape[r.taken..r.taken + |p.line|])
    && Reads(m, greet, p.rx, p.state, r)
  }

  // The packet that comes next behind the greeting
  function Due(greet: nat, r: Reading): nat {
    if r.greeting then greet else r.heard
  }

  // Packets behind the greeting can be understood.
  ghost predicate Understood(m: Moment, greet: nat, o: Link.Options) {
    && !o.canuue && |m.under| == |m.sent|
    && forall k :: greet <= k < |m.sent| ==> Portable(m.sent[k]) && (o == m.under[k] || Negotiation.InHex(m.sent[k]))
  }

  // What an event is: nothing, junk or a packet of the greeting, or the packet that is due.
  ghost predicate NextEvent(m: Moment, greet: nat, x: Extra, r: Reading, e: Link.Event, r': Reading)
    requires greet <= |m.sent|
  {
    if e == Link.Pending then if r'.greeting then r.greeting else r'.heard == Due(greet, r)
    else if r'.greeting then r.greeting && Greets(e, KindsOf(Acks(m.sent, greet)))
    else
      var k := Due(greet, r);
      k < |m.sent| && e == Link.Packet(Kind(m.sent[k]), Payload(m.sent[k], x)) && r'.heard == k + 1
  }

  // ---------------------------------------------------------------------------
  // The texts of the greeting on the tape
  // ---------------------------------------------------------------------------

  lemma GreetingCarried(text: seq<Byte>, o: Link.Options, p: Packet, x: Extra)
    requires Carries(text, o, p, x) && OfGreeting(p)
    ensures text == GreetingText(p.PInitAck?)
  {
    hide Link.OutgoingText;
    var last, pad :| text == Link.OutgoingText(o, Link.Outgoing(Kind(p), Payload(p, x), last, pad));
    GreetingIs(o, last, p.PInitAck?, pad);
  }

  lemma {:induction false} GreetingConcat(texts: seq<seq<Byte>>, acks: seq<bool>, p: nat)
    requires |texts| == |acks| && forall k :: 0 <= k < |texts| ==> texts[k] == GreetingText(acks[k])
    ensures |Concat(texts)| == 13 * |texts|
    ensures p < 13 * |texts| ==> Concat(texts)[p] == GreetingText(acks[p / 13])[p % 13]
    decreases |texts|
  {
    hide GreetingText;
    if texts != [] {
      var n := |texts| - 1;
      GreetingConcat(texts[..n], acks[..n], p);
      if 13 * n <= p < 13 * |texts| {
        assert p / 13 == n && p % 13 == p - 13 * n;
      }
    }
  }

  lemma GreetingTexts(m: Moment, greet: nat, x: Extra)
    requires Recorded(m.texts, m.under, m.sent, x) && Greeted(m, greet)
    ensures forall k :: 0 <= k < greet ==> m.texts[..greet][k] == GreetingText(Acks(m.sent, greet)[k])
    ensures |Concat(m.texts[..greet])| == 13 * greet
  {
    hide Carries, GreetingText, OfGreeting, Concat;
    forall k | 0 <= k < greet ensures m.texts[..greet][k] == GreetingText(Acks(m.sent, greet)[k]) {
      GreetingCarried(m.texts[k], m.under[k], m.sent[k], x);
    }
    GreetingConcat(m.texts[..greet], Acks(m.sent, greet), 0);
  }

  lemma TextAt(t: seq<Sign>, j: nat)
    requires j < |t| && !t[j].hail
    ensures Pos(t, j) < |Text(t)| && Text(t)[Pos(t, j)] == t[j].c
  {
    assert t == t[..j + 1] + t[j + 1..];
    TextConcat(t[..j + 1], t[j + 1..]);
    assert t[..j + 1][..j] == t[..j];
  }

  lemma GreetingTape(m: Moment, greet: nat, x: Extra, j: nat)
    requires Sound(m, greet, x) && j < |m.tape| && (m.tape[j].hail || Pos(m.tape, j) < 13 * greet)
    ensures GreetingSign(m.tape, j, Acks(m.sent, greet))
  {
    hide Carries, GreetingText, OfGreeting, Concat, Text, Pos, GoodExtra;
    if m.tape[j].hail {
      assert HailAt(m.tape, j, |Concat(m.texts[..m.hailed])|);
    } else {
      var acks, p := Acks(m.sent, greet), Pos(m.tape, j);
      GreetingTexts(m, greet, x);
      GreetingConcat(m.texts[..greet], acks, p);
      ConcatGrows(m.texts, greet);
      TextAt(m.tape, j);
    }
  }

  // There are no hails behind the greeting.
  lemma HailsEnd(m: Moment, greet: nat, x: Extra, j: nat)
    requires Sound(m, greet, x) && j < |m.tape| && m.tape[j].hail
    ensures Pos(m.tape, j) <= 13 * greet
  {
    hide Carries, OfGreeting, Concat, Text, GoodExtra;
    assert HailAt(m.tape, j, |Concat(m.texts[..m.hailed])|);
    GreetingTexts(m, greet, x);
    ConcatGrows(m.texts[..greet], m.hailed);
    assert m.texts[..greet][..m.hailed] == m.texts[..m.hailed];
  }

  // ---------------------------------------------------------------------------
  // Reading behind the greeting
  // ---------------------------------------------------------------------------

  lemma TextPrefix(t: seq<Sign>, e: nat)
    requires e <= |t|
    ensures Text(t[..e]) <= Text(t)
  {
    hide Text;
    TextConcat(t[..e], t[e..]);
    assert t[..e] + t[e..] == t;
  }

  // What has come in since `from` follows the texts heard so far.
  lemma Ahead(m: Moment, greet: nat, o: Link.Options, state: Link.Receiver, r: Reading, e: nat)
    requires Written(m) && Past(m, greet, o, state, r) && r.from <= e <= |m.tape|
    ensures Text(m.tape[..r.from]) + Line(m.tape[r.from..e]) == Text(m.tape[..e])
    ensures Text(m.tape[..e]) <= Concat(m.texts)
  {
    hide Text, Concat, HailsWithin, Link.ReceiveAll;
    TextPrefix(m.tape, e);
    assert m.tape[..e] == m.tape[..r.from] + m.tape[r.from..e];
    TextConcat(m.tape[..r.from], m.tape[r.from..e]);
    assert NoHails(m.tape[r.from..e]) by {
      assert forall j :: 0 <= j < e - r.from ==> m.tape[r.from..e][j] == m.tape[r.from..][j];
    }
    NoHailsText(m.tape[r.from..e]);
  }

  // Two beginnings of the same
  lemma Beginnings(all: seq<Byte>, gone: seq<Byte>, q: seq<Byte>, w: seq<Byte>)
    requires gone + q <= all && gone + w <= all
    ensures q <= w || w <= q
  {
    assert q == all[|gone|..|gone| + |q|] && w == all[|gone|..|gone| + |w|];
    if |q| <= |w| {
      assert q == w[..|q|];
    } else {
      assert w == q[..|w|];
    }
  }

  lemma DueText(texts: seq<seq<Byte>>, k: nat)
    requires k < |texts|
    ensures Concat(texts[..k]) + texts[k] == Concat(texts[..k + 1]) <= Concat(texts)
  {
    hide Concat;
    ConcatGrows(texts, k + 1);
    assert texts[..k + 1] == texts[..k] + [texts[k]];
    ConcatAppend(texts[..k], texts[k]);
  }

  // What the receiver makes of all that has come in since `from`
  lemma PastEvent(m: Moment, greet: nat, x: Extra, o: Link.Options, state: Link.Receiver, r: Reading, e: nat,
                  beyond: seq<Byte>)
    requires Sound(m, greet, x) && Past(m, greet, o, state, r) && r.taken <= e <= |m.tape| && Understood(m, greet, o)
    ensures var t := Link.ReceiveAll(o, r.base, Line(m.tape[r.from..e]), beyond);
            t.event != Link.Pending ==>
              && r.heard < |m.texts| && t.event == Link.Packet(Kind(m.sent[r.heard]), Payload(m.sent[r.heard], x))
              && |t.rest| <= e - r.from
              && (exists f: Byte :: t.state == Link.Receiver(0, false, f, []))
              && Text(m.tape[..r.from]) + Line(m.tape[r.from..e])[..e - r.from - |t.rest|]
                 + LineEndOf(o, m.sent[r.heard]) == Concat(m.texts[..r.heard + 1])
  {
    hide Text, Concat, HailsWithin, Link.ReceiveAll, Carries, OfGreeting, GoodExtra, EndOk, Portable, Kind, Payload,
         Link.LineEnd, Link.Format, Negotiation.InHex;
    var q, k := Line(m.tape[r.from..e]), r.heard;
    Ahead(m, greet, o, state, r, e);
    var gone := Text(m.tape[..r.from]);
    if k < |m.texts| {
      DueText(m.texts, k);
      assert gone + r.end + m.texts[k] == gone + (r.end + m.texts[k]);
      Beginnings(Concat(m.texts), gone, q, r.end + m.texts[k]);
      FirstEvent(r.end, m.texts[k], m.under[k], m.sent[k], x, o, r.base, q, beyond);
      var t := Link.ReceiveAll(o, r.base, q, beyond);
      if t.event != Link.Pending {
        var n := |q| - |t.rest|;
        assert gone + q[..n] + LineEndOf(o, m.sent[k]) == gone + (q[..n] + LineEndOf(o, m.sent[k]));
      }
    } else {
      assert m.texts[..k] == m.texts;
      Beginnings(Concat(m.texts), gone, q, r.end);
      assert |gone + q| <= |Concat(m.texts)| == |gone + r.end|;
      assert q <= r.end;
      NoEvent(r.end, o, r.base, q, beyond);
    }
  }

  lemma ReadPast(m: Moment, greet: nat, x: Extra, o: Link.Options, state: Link.Receiver, r: Reading, e: nat,
                 beyond: seq<Byte>) returns (r': Reading)
    requires Sound(m, greet, x) && Past(m, greet, o, state, r) && r.taken <= e <= |m.tape| && Understood(m, greet, o)
    requires !r.greeting
    ensures var t := Link.ReceiveAll(o, state, Line(m.tape[r.taken..e]), beyond);
            && |t.rest| <= e && r'.taken == e - |t.rest| && t.rest == Line(m.tape[r'.taken..e]) && !r'.greeting
            && NextEvent(m, greet, x, r, t.event, r') && Past(m, greet, o, t.state, r')
            && (t.event != Link.Pending ==> forall o': Link.Options :: Past(m, greet, o', t.state, r'))
  {
    hide Link.ReceiveAll, Past, Sound, Understood, Payload, Kind;
    var b := Line(m.tape[r.taken..e]);
    var t := Link.ReceiveAll(o, state, b, beyond);
    PastBounds(m, greet, o, state, r);
    PastContinues(m, greet, o, state, r, e, beyond);
    RestIsSuffix(o, state, b, beyond);
    assert t.rest == Line(m.tape[e - |t.rest|..e]);
    if t.event == Link.Pending {
      r' := r.(taken := e);
      PastStays(m, greet, o, state, r, e, beyond);
    } else {
      r' := PastMoves(m, greet, x, o, state, r, e, beyond);
    }
  }

  lemma PastBounds(m: Moment, greet: nat, o: Link.Options, state: Link.Receiver, r: Reading)
    requires Past(m, greet, o, state, r)
    ensures r.from <= r.taken
  {
    hide Link.ReceiveAll, Text, Concat;
  }

  // The input so far goes on.
  lemma PastContinues(m: Moment, greet: nat, o: Link.Options, state: Link.Receiver, r: Reading, e: nat,
                      beyond: seq<Byte>)
    requires Past(m, greet, o, state, r) && r.from <= r.taken <= e <= |m.tape|
    ensures Link.ReceiveAll(o, r.base, Line(m.tape[r.from..e]), beyond)
            == Link.ReceiveAll(o, state, Line(m.tape[r.taken..e]), beyond)
  {
    hide Link.ReceiveAll, Text, Concat;
    var a, b := Line(m.tape[r.from..r.taken]), Line(m.tape[r.taken..e]);
    assert a + b == Line(m.tape[r.from..e]);
    Transparent.ReceiveConcat(o, r.base, a, b, beyond);
  }

  lemma PastStays(m: Moment, greet: nat, o: Link.Options, state: Link.Receiver, r: Reading, e: nat, beyond: seq<Byte>)
    requires Past(m, greet, o, state, r) && r.from <= r.taken <= e <= |m.tape|
    requires Link.ReceiveAll(o, r.base, Line(m.tape[r.from..e]), beyond).event == Link.Pending
    ensures Past(m, greet, o, Link.ReceiveAll(o, r.base, Line(m.tape[r.from..e]), beyond).state, r.(taken := e))
  {
    hide Link.ReceiveAll, Text, Concat, NoHails, EndOk;
    var q := Line(m.tape[r.from..e]);
    var t := Link.ReceiveAll(o, r.base, q, beyond);
    RestIsSuffix(o, r.base, q, beyond);
    forall c: seq<Byte> ensures Link.ReceiveAll(o, r.base, q, c) == Link.Taken(t.state, Link.Pending, []) {
      PendingForAll(o, r.base, q, beyond, c);
    }
  }

  lemma PastMoves(m: Moment, greet: nat, x: Extra, o: Link.Options, state: Link.Receiver, r: Reading, e: nat,
                  beyond: seq<Byte>) returns (r': Reading)
    requires Sound(m, greet, x) && Past(m, greet, o, state, r) && r.from <= r.taken <= e <= |m.tape|
    requires Understood(m, greet, o) && !r.greeting
    requires Link.ReceiveAll(o, r.base, Line(m.tape[r.from..e]), beyond).event != Link.Pending
    ensures var t := Link.ReceiveAll(o, r.base, Line(m.tape[r.from..e]), beyond);
            && |t.rest| <= e && r'.taken == e - |t.rest| && !r'.greeting && NextEvent(m, greet, x, r, t.event, r')
            && forall o': Link.Options :: Past(m, greet, o', t.state, r')
  {
    hide Link.ReceiveAll, Past, Understood, Text, Concat, HailsWithin, Carries, OfGreeting, GoodExtra, Payload, Kind,
         LineEndOf;
    var t := Link.ReceiveAll(o, r.base, Line(m.tape[r.from..e]), beyond);
    PastEvent(m, greet, x, o, state, r, e, beyond);
    r' := Reading(false, e - |t.rest|, e - |t.rest|, r.heard + 1, LineEndOf(o, m.sent[r.heard]), t.state);
    AfterEvent(m, greet, x, o, state, r, r', e, t.state);
  }

  lemma AfterEvent(m: Moment, greet: nat, x: Extra, o: Link.Options, state: Link.Receiver, r: Reading, r': Reading,
                   e: nat, after: Link.Receiver)
    requires Written(m) && Past(m, greet, o, state, r) && r.from <= r'.from == r'.taken <= e <= |m.tape|
    requires r.heard < |m.texts| == |m.sent| && r'.heard == r.heard + 1 && r'.base == after && !r'.greeting
    requires (exists f: Byte :: after == Link.Receiver(0, false, f, [])) && r'.end == LineEndOf(o, m.sent[r.heard])
    requires Text(m.tape[..r.from]) + Line(m.tape[r.from..e])[..r'.from - r.from] + r'.end
             == Concat(m.texts[..r.heard + 1])
    ensures forall o': Link.Options :: Past(m, greet, o', after, r')
  {
    hide Text, Concat, HailsWithin, Link.ReceiveAll, Link.Format, Kind;
    Ahead(m, greet, o, state, r, r'.from);
    assert Line(m.tape[r.from..e])[..r'.from - r.from] == Line(m.tape[r.from..r'.from]);
    assert NoHails(m.tape[r'.from..]) by {
      assert forall j :: 0 <= j < |m.tape| - r'.from ==> m.tape[r'.from..][j] == m.tape[r.from..][j + r'.from - r.from];
    }
    assert Line(m.tape[r'.from..r'.taken]) == [];
    forall o': Link.Options, b: seq<Byte> ensures Link.ReceiveAll(o', after, [], b)
        == Link.Taken(after, Link.Pending, []) {
      Transparent.EmptyInput(o', after, b);
    }
  }

  // ---------------------------------------------------------------------------
  // Reading in the greeting, and out of it
  // ---------------------------------------------------------------------------

  // The first sign from a on that belongs to a packet behind the greeting, or e
  lemma {:induction false} Boundary(t: seq<Sign>, a: nat, e: nat, limit: nat) returns (b: nat)
    requires a <= e <= |t| && Pos(t, a) <= limit
    ensures a <= b <= e && (b < e ==> !t[b].hail && Pos(t, b) == limit)
    ensures forall j :: a <= j <= b ==> Pos(t, j) <= limit
    ensures forall j :: a <= j < b ==> t[j].hail || Pos(t, j) < limit
    decreases e - a
  {
    hide Pos;
    b := a;
    if a < e && (t[a].hail || Pos(t, a) < limit) {
      PosNext(t, a);
      b := Boundary(t, a + 1, e, limit);
    }
  }

  lemma {:induction false} PosGrows(t: seq<Sign>, i: nat, j: nat)
    requires i <= j <= |t|
    ensures Pos(t, i) <= Pos(t, j)
    decreases j
  {
    hide Pos;
    if i < j {
      PosGrows(t, i, j - 1);
      PosNext(t, j - 1);
    }
  }

  // Where the greeting ends
  lemma GreetingEnds(m: Moment, greet: nat, x: Extra, o: Link.Options, state: Link.Receiver, b: nat)
    requires Sound(m, greet, x) && b < |m.tape| && !m.tape[b].hail && Pos(m.tape, b) == 13 * greet && state.idle == 0
    ensures Past(m, greet, o, state, Reading(false, b, b, greet, [], state))
  {
    hide Text, Concat, HailsWithin, Link.ReceiveAll, Carries, OfGreeting, GoodExtra;
    GreetingTexts(m, greet, x);
    ConcatGrows(m.texts, greet);
    TextPrefix(m.tape, b);
    assert Text(m.tape[..b]) + [] == Concat(m.texts[..greet]);
    TextAt(m.tape, b);
    assert m.texts[..|m.texts|] == m.texts;
    forall j | b <= j < |m.tape| ensures !m.tape[j].hail {
      if m.tape[j].hail {
        HailsEnd(m, greet, x, j);
        PosNext(m.tape, b);
        PosGrows(m.tape, b + 1, j);
      }
    }
    assert Line(m.tape[b..b]) == [];
    forall c: seq<Byte> ensures Link.ReceiveAll(o, state, [], c) == Link.Taken(state, Link.Pending, []) {
      Transparent.EmptyInput(o, state, c);
    }
  }

  lemma KindsAreAll(acks: seq<bool>)
    ensures AllKinds(acks, KindsOf(acks))
  {
  }

  // A reading goes on to the end of what has come in, or to the first event.
  ghost predicate ReadsOn(m: Moment, greet: nat, x: Extra, o: Link.Options, r: Reading, e: nat, t: Link.Taken,
                          r': Reading)
    requires greet <= |m.sent|
  {
    && |t.rest| <= e <= |m.tape| && r'.taken == e - |t.rest| && t.rest == Line(m.tape[r'.taken..e])
    && NextEvent(m, greet, x, r, t.event, r') && Reads(m, greet, o, t.state, r')
    && (t.event != Link.Pending && !r'.greeting ==> forall o': Link.Options :: Past(m, greet, o', t.state, r'))
  }

  // Out of the greeting at sign b
  lemma ReadAcross(m: Moment, greet: nat, x: Extra, o: Link.Options, state: Link.Receiver, r: Reading, b: nat, e: nat,
                   beyond: seq<Byte>) returns (r': Reading)
    requires Sound(m, greet, x) && Understood(m, greet, o) && r.greeting && r.taken <= b < e <= |m.tape|
    requires greet <= |m.sent| && !m.tape[b].hail && Pos(m.tape, b) == 13 * greet
    requires Link.ReceiveAll(o, state, Line(m.tape[r.taken..b]), beyond).event == Link.Pending
    requires Link.ReceiveAll(o, state, Line(m.tape[r.taken..b]), beyond).state.idle == 0
    ensures ReadsOn(m, greet, x, o, r, e, Link.ReceiveAll(o, state, Line(m.tape[r.taken..e]), beyond), r')
  {
    hide Link.ReceiveAll, Past, Amid, Sound, Understood, NextEvent, Pos;
    var first, last := Line(m.tape[r.taken..b]), Line(m.tape[b..e]);
    assert first + last == Line(m.tape[r.taken..e]);
    var u := Link.ReceiveAll(o, state, first, beyond);
    Transparent.ReceiveConcat(o, state, first, last, beyond);
    GreetingEnds(m, greet, x, o, u.state, b);
    var r1 := Reading(false, b, b, greet, [], u.state);
    r' := ReadPast(m, greet, x, o, u.state, r1, e, beyond);
    SameDue(m, greet, x, r, r1, Link.ReceiveAll(o, u.state, last, beyond).event, r');
  }

  lemma SameDue(m: Moment, greet: nat, x: Extra, r: Reading, r1: Reading, e: Link.Event, r': Reading)
    requires greet <= |m.sent| && NextEvent(m, greet, x, r1, e, r') && Due(greet, r) == Due(greet, r1) && !r'.greeting
    ensures NextEvent(m, greet, x, r, e, r')
  {
  }

  lemma ReadAmid(m: Moment, greet: nat, x: Extra, o: Link.Options, state: Link.Receiver, r: Reading, e: nat,
                 beyond: seq<Byte>) returns (r': Reading)
    requires Sound(m, greet, x) && greet <= |m.sent|
    requires o.ctlchrs && Amid(m, greet, state, r) && r.taken <= e <= |m.tape|
    requires Understood(m, greet, o) && r.greeting
    ensures ReadsOn(m, greet, x, o, r, e, Link.ReceiveAll(o, state, Line(m.tape[r.taken..e]), beyond), r')
  {
    hide Link.ReceiveAll, Text, Pos, Concat, Cut, KindsOf, AllKinds, Greets, GreetingSign, Past, Hailing, Sound,
         Understood, Payload, Kind;
    var acks := Acks(m.sent, greet);
    KindsAreAll(acks);
    var b := Boundary(m.tape, r.taken, e, 13 * greet);
    forall j | r.taken <= j < b ensures GreetingSign(m.tape, j, acks) {
      GreetingTape(m, greet, x, j);
    }
    GreetingHeard(o, state, m.tape, r.taken, b, acks, KindsOf(acks), beyond);
    var first, last := Line(m.tape[r.taken..b]), Line(m.tape[b..e]);
    var u := Link.ReceiveAll(o, state, first, beyond);
    if u.event == Link.Pending && b < e {
      IdleAtStart(u.state, Pos(m.tape, b), Hailing(m.tape, b), KindsOf(acks));
      r' := ReadAcross(m, greet, x, o, state, r, b, e, beyond);
    } else {
      r' := ReadWithin(m, greet, x, o, state, r, b, e, beyond);
    }
  }

  // Not out of it
  lemma ReadWithin(m: Moment, greet: nat, x: Extra, o: Link.Options, state: Link.Receiver, r: Reading, b: nat, e: nat,
                   beyond: seq<Byte>) returns (r': Reading)
    requires r.greeting && r.taken <= b <= e <= |m.tape| && greet <= |m.sent| && o.ctlchrs
    requires forall j :: r.taken <= j <= b ==> Pos(m.tape, j) <= 13 * greet
    requires var t := Link.ReceiveAll(o, state, Line(m.tape[r.taken..b]), beyond);
             var c := b - |t.rest|;
             && r.taken <= c && t.rest == Line(m.tape[c..b])
             && Cut(t.state, Pos(m.tape, c) % 13, Hailing(m.tape, c), KindsOf(Acks(m.sent, greet)))
             && (if t.event == Link.Pending then c == b == e else Greets(t.event, KindsOf(Acks(m.sent, greet))))
    ensures ReadsOn(m, greet, x, o, r, e, Link.ReceiveAll(o, state, Line(m.tape[r.taken..e]), beyond), r')
  {
    hide Link.ReceiveAll, Pos, Cut, KindsOf, Greets, Hailing, Past;
    var first, last := Line(m.tape[r.taken..b]), Line(m.tape[b..e]);
    assert first + last == Line(m.tape[r.taken..e]);
    var u := Link.ReceiveAll(o, state, first, beyond);
    r' := r.(taken := b - |u.rest|);
    if u.event != Link.Pending {
      Transparent.ReceiveStops(o, state, first, last, beyond);
      assert u.rest + last == Line(m.tape[r'.taken..e]);
    } else {
      assert last == [] && first + last == first;
    }
  }

  lemma IdleAtStart(s: Link.Receiver, p: nat, hail: bool, kinds: set<Byte>)
    requires Cut(s, p % 13, hail, kinds) && p % 13 == 0
    ensures s.idle == 0
  {
  }

  // The main result of one turn: what has come in is read up to the next event.
  lemma ReadOn(m: Moment, greet: nat, x: Extra, p: Port, r: Reading, chunk: seq<Byte>, beyond: seq<Byte>)
    returns (r': Reading)
    requires Flows(m, greet, x, p, r) && Understood(m, greet, p.rx)
    requires r.taken + |p.line| + |chunk| <= |m.tape|
    requires chunk == Line(m.tape[r.taken + |p.line|..r.taken + |p.line| + |chunk|])
    ensures var t := Taking(p, chunk, beyond);
            && r'.taken + |t.rest| == r.taken + |p.line| + |chunk|
            && NextEvent(m, greet, x, r, t.event, r')
            && Flows(m, greet, x, p.(state := t.state, line := t.rest), r')
            && (t.event != Link.Pending && !r'.greeting ==>
                  forall o: Link.Options, q: Link.Options ::
                    Flows(m, greet, x, HydraTurn.Port(o, q, t.state, t.rest), r'))
  {
    hide Link.ReceiveAll, Sound, Understood, Past, Amid, NextEvent;
    var e := r.taken + |p.line| + |chunk|;
    assert p.line + chunk == Line(m.tape[r.taken..e]);
    if r.greeting {
      r' := ReadAmid(m, greet, x, p.rx, p.state, r, e, beyond);
    } else {
      r' := ReadPast(m, greet, x, p.rx, p.state, r, e, beyond);
    }
  }

  // ---------------------------------------------------------------------------
  // The sending station goes on
  // ---------------------------------------------------------------------------

  // More has been sent and written; there are hails only in the greeting.
  ghost predicate Grows(m: Moment, greet: nat, n: Moment, greet': nat) {
    && m.tape <= n.tape && m.texts <= n.texts && m.sent <= n.sent && greet <= greet' <= |n.sent|
    && (!Early(m.st.tx.state) ==> !Early(n.st.tx.state) && greet' == greet && NoHails(n.tape[|m.tape|..]))
  }

  lemma AmidGrows(m: Moment, greet: nat, n: Moment, greet': nat, state: Link.Receiver, r: Reading)
    requires greet <= |m.sent| && Grows(m, greet, n, greet') && Amid(m, greet, state, r)
    ensures Amid(n, greet', state, r)
  {
    hide Text, Cut, NoHails, Early;
    assert n.tape[..r.taken] == m.tape[..r.taken];
    var kinds, more := KindsOf(Acks(m.sent, greet)), KindsOf(Acks(n.sent, greet'));
    forall k | 0 <= k < greet ensures Acks(n.sent, greet')[k] == Acks(m.sent, greet)[k] {
      assert n.sent[k] == m.sent[k];
    }
    assert kinds <= more;
    CutGrows(state, Pos(m.tape, r.taken) % 13, Hailing(m.tape, r.taken), kinds, more);
  }

  lemma PastGrows(m: Moment, greet: nat, n: Moment, greet': nat, o: Link.Options, state: Link.Receiver, r: Reading)
    requires Grows(m, greet, n, greet') && Past(m, greet, o, state, r)
    ensures Past(n, greet', o, state, r)
  {
    hide Text, Concat, Early, EndOk, Link.ReceiveAll;
    assert n.tape[..r.from] == m.tape[..r.from] && n.texts[..r.heard] == m.texts[..r.heard];
    assert n.tape[r.from..r.taken] == m.tape[r.from..r.taken];
    forall j | 0 <= j < |n.tape| - r.from ensures !n.tape[r.from..][j].hail {
      if j < |m.tape| - r.from {
        assert n.tape[r.from..][j] == m.tape[r.from..][j];
      } else {
        assert n.tape[r.from..][j] == n.tape[|m.tape|..][j - (|m.tape| - r.from)];
      }
    }
  }

  lemma FlowsGrow(m: Moment, greet: nat, x: Extra, p: Port, r: Reading, n: Moment, greet': nat)
    requires Flows(m, greet, x, p, r) && Grows(m, greet, n, greet') && Sound(n, greet', x)
    ensures Flows(n, greet', x, p, r)
  {
    hide Sound, Grows, Amid, Past;
    assert m.tape <= n.tape && greet' <= |n.sent| by { TapeGrows(m, greet, n, greet'); }
    assert n.tape[r.taken..r.taken + |p.line|] == m.tape[r.taken..r.taken + |p.line|];
    if r.greeting {
      AmidGrows(m, greet, n, greet', p.state, r);
    } else {
      PastGrows(m, greet, n, greet', p.rx, p.state, r);
    }
  }

  lemma TapeGrows(m: Moment, greet: nat, n: Moment, greet': nat)
    requires Grows(m, greet, n, greet')
    ensures m.tape <= n.tape && greet' <= |n.sent|
  {
  }

  // ---------------------------------------------------------------------------
  // When everything has been written and read
  // ---------------------------------------------------------------------------

  lemma TextNotEmpty(text: seq<Byte>, o: Link.Options, p: Packet, x: Extra)
    requires Carries(text, o, p, x)
    ensures text != []
  {
    hide Payload, Link.BodyText, Link.LineEnd;
  }

  // Every packet behind the greeting has been heard.
  lemma AllHeard(m: Moment, greet: nat, x: Extra, p: Port, r: Reading)
    requires Flows(m, greet, x, p, r) && Understood(m, greet, p.rx)
    requires r.taken == |m.tape| && Text(m.tape) == Concat(m.texts)
    ensures Due(greet, r) == |m.sent|
  {
    hide Text, Concat, HailsWithin, Link.ReceiveAll, Carries, OfGreeting, GoodExtra, Cut, Portable, Negotiation.InHex;
    assert m.tape[..r.taken] == m.tape;
    var k := Due(greet, r);
    if k < |m.sent| {
      DueText(m.texts, k);
      TextNotEmpty(m.texts[k], m.under[k], m.sent[k], x);
      if r.greeting {
        GreetingTexts(m, greet, x);
      } else {
        DueIsHeard(m, greet, x, p.rx, p.state, r);
      }
    }
  }

  lemma DueIsHeard(m: Moment, greet: nat, x: Extra, o: Link.Options, state: Link.Receiver, r: Reading)
    requires Sound(m, greet, x) && Past(m, greet, o, state, r) && Understood(m, greet, o)
    requires r.taken == |m.tape| && Text(m.tape) == Concat(m.texts) && r.heard < |m.sent|
    ensures false
  {
    hide Text, Concat, HailsWithin, Link.ReceiveAll, Carries, OfGreeting, GoodExtra, EndOk, Portable, Kind, Payload,
         Link.LineEnd, Link.Format, Negotiation.InHex;
    var q, k := Line(m.tape[r.from..r.taken]), r.heard;
    Ahead(m, greet, o, state, r, r.taken);
    assert m.tape[..r.taken] == m.tape;
    DueText(m.texts, k);
    var gone, w := Text(m.tape[..r.from]), r.end + m.texts[k];
    assert gone + r.end + m.texts[k] == gone + w;
    Beginnings(Concat(m.texts), gone, q, w);
    assert |gone + w| <= |Concat(m.texts)| == |gone + q|;
    assert q == w + q[|w|..];
    NextTextHeard(r.end, m.texts[k], m.under[k], m.sent[k], x, o, r.base, q[|w|..], []);
  }
}
