// Two stations on a line that delivers the bytes written, in order and in pieces of any size:
// nothing is heard that has not been sent, and behind the greeting every packet is heard, once
// and in order.
module HydraLine {
  import opened Wrappers
  import opened Crc
  import opened Files
  import opened HydraSession
  import opened HydraInit
  import opened HydraSafety
  import opened HydraOutcome
  import opened HydraNegotiation
  import opened HydraOpening
  import opened HydraPackets
  import opened HydraQueue
  import opened HydraTurn
  import opened HydraGreeting
  import opened HydraFlow
  import opened HydraSettling
  import opened HydraStation
  import opened HydraPair
  import HydraLink
  import Link = HydraCodec

  // ---------------------------------------------------------------------------
  // What is heard has been sent
  // ---------------------------------------------------------------------------

  lemma GreetingHonest(m: Moment, greet: nat, e: Link.Event)
    requires greet <= |m.sent| && Greeted(m, greet) && Greets(e, KindsOf(Acks(m.sent, greet)))
    ensures Proper(e) && !ArrivalOf(e).Silence?
    ensures ArrivalOf(e).Got? ==> ArrivalOf(e).packet in m.sent && OfGreeting(ArrivalOf(e).packet)
  {
    if e.Packet? {
      var k :| 0 <= k < greet && KindOf(Acks(m.sent, greet)[k]) == e.kind;
      assert OfGreeting(m.sent[k]);
      assert ArrivalOf(e) == Got(m.sent[k]);
    }
  }

  lemma DueHonest(p: Packet, x: Extra)
    requires Portable(p) && GoodExtra(x)
    ensures var e := Link.Packet(Kind(p), Payload(p, x)); Proper(e) && ArrivalOf(e) == Got(p)
  {
    hide Payload, ParseInit, InitText, Parse;
    PayloadRoundTrip(p, x);
    if p.PInit? {
      InitRoundTrip(x.app, Offer(CAN, DEF, p.txwindow, p.rxwindow));
      InitPayload(p, x);
    } else {
      NoOffer(p, x);
    }
  }

  lemma InitPayload(p: Packet, x: Extra)
    requires p.PInit?
    ensures Payload(p, x) == InitText(x.app, Offer(CAN, DEF, p.txwindow, p.rxwindow))
  {
  }

  lemma NoOffer(p: Packet, x: Extra)
    requires !p.PInit?
    ensures OfferOf(Link.Packet(Kind(p), Payload(p, x))) == None
  {
    hide Payload, ParseInit;
  }

  // In the greeting, or the packet that is due
  lemma EventHonest(m: Moment, greet: nat, x: Extra, o: Link.Options, r: Reading, e: Link.Event, r': Reading)
    requires Sound(m, greet, x) && Understood(m, greet, o) && NextEvent(m, greet, x, r, e, r')
    requires greet <= Due(greet, r)
    ensures Proper(e)
    ensures ArrivalOf(e).Got? ==> ArrivalOf(e).packet in m.sent
    ensures e != Link.Pending && !r'.greeting ==> ArrivalOf(e) == Got(m.sent[Due(greet, r)])
  {
    hide Written, Recorded, Payload, Portable, Greets, Proper, GoodExtra, InHex, OfferOf;
    if e == Link.Pending {
      assert Proper(e) && ArrivalOf(e) == Silence by { PendingProper(); }
    } else if r'.greeting {
      GreetingHonest(m, greet, e);
    } else {
      DueHonest(m.sent[Due(greet, r)], x);
    }
  }

  lemma PendingProper()
    ensures Proper(Link.Pending) && ArrivalOf(Link.Pending) == Silence
  {
  }

  // ---------------------------------------------------------------------------
  // A turn of the station that reads
  // ---------------------------------------------------------------------------

  // The chunk is what comes next on the line.
  ghost predicate Delivers(m: Moment, p: Port, r: Reading, chunk: seq<Byte>) {
    var k := r.taken + |p.line|;
    k + |chunk| <= |m.tape| && chunk == Line(m.tape[k..k + |chunk|])
  }

  // Behind the greeting, what arrives is the packet that is due.
  predicate ArrivesInTurn(sent: seq<Packet>, greet: nat, r: Reading, e: Link.Event, r': Reading, arrival: Arrival) {
    if e == Link.Pending then arrival == Silence && if r'.greeting then r.greeting else r'.heard == Due(greet, r)
    else if r'.greeting then r.greeting
    else Due(greet, r) < |sent| && arrival == Got(sent[Due(greet, r)]) && r'.heard == Due(greet, r) + 1
  }

  // How many bytes of it the station has been given
  ghost function Given(p: Port, r: Reading): nat {
    r.taken + |p.line|
  }

  lemma DueBound(m: Moment, greet: nat, x: Extra, p: Port, r: Reading)
    requires Flows(m, greet, x, p, r)
    ensures greet <= Due(greet, r) <= |m.sent|
  {
  }

  lemma ReaderTurn(m: Moment, w: World, d: Account, n: Moment, peer: Moment, greet: nat, x: Extra, r: Reading)
    returns (r': Reading)
    requires Turned(m, w, d, n) && !Finished(m.st) && OptionsOk(m)
    requires Flows(peer, greet, x, m.port, r) && Understood(peer, greet, m.port.rx)
    requires Delivers(peer, m.port, r, w.chunk)
    ensures Proper(d.event) && (d.input.arrival.Got? ==> d.input.arrival.packet in peer.sent)
    ensures ArrivesInTurn(peer.sent, greet, r, d.event, r', d.input.arrival)
    ensures Flows(peer, greet, x, n.port, r') && NextEvent(peer, greet, x, r, d.event, r')
    ensures Given(n.port, r')
            == Given(m.port, r) + if Exchanges(m.st, d.input, w.abort) then |w.chunk| else 0
  {
    hide Wrote, Encoded, Iteration, Finished, Flows, Understood, OptionsOk, Proper, Link.ReceiveAll, Middle,
         NextEvent, InitOk, ArrivalOf, OfferOf, OptionsAfter, ArrivesInTurn;
    DueBound(peer, greet, x, m.port, r);
    if Exchanges(m.st, d.input, w.abort) {
      r' := ReadOn(peer, greet, x, m.port, r, w.chunk, d.beyond);
      Honest(peer, greet, x, m.port, r, d.event, r');
      KeepsOptions(d.event, m.port, Middle(m.st, d.input).rx.state, d.failed);
    } else {
      r' := r;
      assert NextEvent(peer, greet, x, r, d.event, r') by { NothingNext(peer, greet, x, r); }
      Honest(peer, greet, x, m.port, r, d.event, r');
    }
  }

  lemma Honest(m: Moment, greet: nat, x: Extra, p: Port, r: Reading, e: Link.Event, r': Reading)
    requires Flows(m, greet, x, p, r) && Understood(m, greet, p.rx) && NextEvent(m, greet, x, r, e, r')
    ensures Proper(e)
    ensures ArrivalOf(e).Got? ==> ArrivalOf(e).packet in m.sent
    ensures ArrivesInTurn(m.sent, greet, r, e, r', ArrivalOf(e))
    ensures e != Link.Pending && r'.greeting ==> !OfferOf(e).Some?
  {
    hide Sound, Understood, Reads, Proper;
    DueBound(m, greet, x, p, r);
    EventHonest(m, greet, x, p.rx, r, e, r');
    if e != Link.Pending && r'.greeting {
      assert Greeted(m, greet) by { SoundGreeted(m, greet, x); }
      NoOfferYet(m, greet, e);
    }
  }

  lemma SoundGreeted(m: Moment, greet: nat, x: Extra)
    requires Sound(m, greet, x)
    ensures Greeted(m, greet)
  {
  }

  lemma NoOfferYet(m: Moment, greet: nat, e: Link.Event)
    requires greet <= |m.sent| && Greets(e, KindsOf(Acks(m.sent, greet)))
    ensures OfferOf(e) == None
  {
  }

  lemma NothingNext(m: Moment, greet: nat, x: Extra, r: Reading)
    requires greet <= |m.sent|
    ensures NextEvent(m, greet, x, r, Link.Pending, r)
  {
  }

  // Only an INIT changes the options.
  lemma KeepsOptions(e: Link.Event, p: Port, state: RxState, failed: bool)
    ensures !OfferOf(e).Some? ==> OptionsAfter(p.rx, state, e, failed) == p.rx
    ensures !OfferOf(e).Some? ==> OptionsAfter(p.tx, state, e, failed) == p.tx
    ensures !OfferOf(Link.Pending).Some?
  {
  }

  // ---------------------------------------------------------------------------
  // A turn of the station that writes
  // ---------------------------------------------------------------------------

  function GreetAfter(m: Moment, greet: nat, n: Moment): nat {
    if Early(m.st.tx.state) then |n.sent| else greet
  }

  lemma NoHailsOf(bs: seq<Byte>)
    ensures NoHails(Signs(bs, false))
  {
  }

  lemma HailsEarly(st: Station, i: Input)
    requires Hails(st, i)
    ensures Early(st.tx.state)
  {
    TimersOpening(st, i);
  }

  lemma WriterGrows(m: Moment, w: World, d: Account, n: Moment, greet: nat)
    requires Turned(m, w, d, n) && Greeted(m, greet)
    requires Early(n.st.tx.state) ==> Early(m.st.tx.state)
    requires Early(m.st.tx.state) ==> AllOfGreeting(Iteration(m.st, d.input).out)
    ensures Grows(m, greet, n, GreetAfter(m, greet, n)) && Greeted(n, GreetAfter(m, greet, n))
  {
    hide Heard, Iteration, InitOk, ArrivalOf, OfGreeting, Text, Concat, Early, Hails, Middle, EarlyOut;
    var i := d.input;
    if Hails(m.st, i) {
      HailsEarly(m.st, i);
    } else {
      NoHailsOf(d.written);
      assert m.tape + [] == m.tape;
      assert n.tape[|m.tape|..] == Signs(d.written, false);
    }
    var greet' := GreetAfter(m, greet, n);
    forall k | 0 <= k < greet' ensures OfGreeting(n.sent[k]) {
      if k >= |m.sent| {
        assert n.sent[k] == Iteration(m.st, i).out[k - |m.sent|];
      } else {
        assert n.sent[k] == m.sent[k];
      }
    }
  }

  lemma WriterTurn(m: Moment, w: World, d: Account, n: Moment, greet: nat, x: Extra, p: Port, r: Reading)
    requires Turned(m, w, d, n) && Flows(m, greet, x, p, r)
    requires Early(n.st.tx.state) ==> Early(m.st.tx.state)
    requires Early(m.st.tx.state) ==> AllOfGreeting(Iteration(m.st, d.input).out)
    requires Written(n) && Recorded(n.texts, n.under, n.sent, x)
    ensures Flows(n, GreetAfter(m, greet, n), x, p, r)
  {
    hide Turned, Written, Recorded, Greeted, Early, AllOfGreeting, Iteration, Reads, GoodExtra, Grows;
    WriterGrows(m, w, d, n, greet);
    FlowsGrow(m, greet, x, p, r, n, GreetAfter(m, greet, n));
  }

  // ---------------------------------------------------------------------------
  // Both ends of the line
  // ---------------------------------------------------------------------------

  // Each station reads what the other has written, and their options agree.
  ghost predicate Linked(m: Moment, greet: nat, x: Extra, read: Reading, p: Moment, greetP: nat, y: Extra,
                         readP: Reading) {
    && Flows(m, greet, x, p.port, readP) && Flows(p, greetP, y, m.port, read)
    && OptionsOk(m) && OptionsOk(p)
  }

  // What a run says about the packets on their way to a station
  ghost predicate Expects(st: Station, peer: Station, sent: seq<Packet>) {
    && Known(st, Ready(peer)) && (Early(st.tx.state) ==> !Ready(peer))
    && forall k :: 0 <= k < |sent| ==> Portable(sent[k]) && Tells(sent[k], Ready(peer), Ready(st))
  }

  lemma UnderstoodBy(m: Moment, p: Moment, greetP: nat)
    requires OptionsOk(m) && OptionsOk(p) && Expects(m.st, p.st, p.sent)
    ensures Understood(p, greetP, m.port.rx)
  {
    hide Portable, Known, Ready, InHex;
    OptionsAre();
  }

  lemma GreetsOnly(st: Station, i: Input, peer: Station, sent: seq<Packet>)
    requires Expects(st, peer, sent) && (i.arrival.Got? ==> i.arrival.packet in sent)
    ensures Early(Iteration(st, i).st.tx.state) ==> Early(st.tx.state)
    ensures Early(st.tx.state) ==> AllOfGreeting(Iteration(st, i).out)
    ensures i.arrival.Got? ==> Tells(i.arrival.packet, Ready(peer), Ready(st))
  {
    hide Iteration, Portable, Known, Ready, InHex, Early, AllOfGreeting;
    IterationOpening(st, i);
  }

  // A turn of one of them: what it hears has been sent, and both go on as before.
  lemma LinkedTurn(m: Moment, w: World, d: Account, n: Moment, greet: nat, x: Extra, read: Reading, p: Moment,
                   greetP: nat, y: Extra, readP: Reading) returns (greet': nat, read': Reading)
    requires Linked(m, greet, x, read, p, greetP, y, readP) && Turned(m, w, d, n) && !Finished(m.st)
    requires Delivers(p, m.port, read, w.chunk) && Expects(m.st, p.st, p.sent)
    requires Written(n) && Recorded(n.texts, n.under, n.sent, x)
    ensures d.input.arrival.Got? ==> d.input.arrival.packet in p.sent
    ensures Linked(n, greet', x, read', p, greetP, y, readP) && greetP <= |p.sent|
    ensures m.sent <= n.sent && (!readP.greeting ==> greet' == greet)
    ensures ArrivesInTurn(p.sent, greetP, read, d.event, read', d.input.arrival)
    ensures Given(n.port, read')
            == Given(m.port, read) + if Exchanges(m.st, d.input, w.abort) then |w.chunk| else 0
  {
    hide Turned, Flows, OptionsOk, Finished, Written, Recorded, Delivers, ArrivesInTurn, Understood, Exchanges, Proper,
         Expects, Early, Iteration;
    UnderstoodBy(m, p, greetP);
    read' := ReaderTurn(m, w, d, n, p, greetP, y, read);
    assert Known(m.st, Ready(p.st)) by { ExpectsKnown(m.st, p.st, p.sent); }
    GreetsOnly(m.st, d.input, p.st, p.sent);
    OptionsTurn(m, w, d, n, Ready(p.st));
    TurnedStation(m, w, d, n);
    WriterTurn(m, w, d, n, greet, x, p.port, readP);
    greet' := GreetAfter(m, greet, n);
    DueBound(p, greetP, y, m.port, read);
    PastIsLate(m, greet, x, p.port, readP);
  }

  lemma PastIsLate(m: Moment, greet: nat, x: Extra, p: Port, r: Reading)
    requires Flows(m, greet, x, p, r)
    ensures !r.greeting ==> !Early(m.st.tx.state)
  {
  }

  lemma LinkedSwaps(m: Moment, greet: nat, x: Extra, read: Reading, p: Moment, greetP: nat, y: Extra, readP: Reading)
    requires Linked(m, greet, x, read, p, greetP, y, readP)
    ensures Linked(p, greetP, y, readP, m, greet, x, read)
  {
    hide Flows, OptionsOk;
  }

  lemma InOrderStays(sent: seq<Packet>, greet: nat, more: seq<Packet>, greet': nat, r: Reading, heard: seq<Packet>)
    requires InOrder(sent, greet, r, heard) && sent <= more && (!r.greeting ==> greet' == greet)
    ensures InOrder(more, greet', r, heard)
  {
  }

  lemma ExpectsKnown(st: Station, peer: Station, sent: seq<Packet>)
    requires Expects(st, peer, sent)
    ensures Known(st, Ready(peer))
  {
  }

  // The same with what is heard in it
  lemma OneTurn(m: Moment, w: World, d: Account, n: Moment, greet: nat, x: Extra, read: Reading, p: Moment,
                greetP: nat, y: Extra, readP: Reading, heard: seq<Packet>, heardP: seq<Packet>)
    returns (greet': nat, read': Reading, heard': seq<Packet>)
    requires Linked(m, greet, x, read, p, greetP, y, readP) && Turned(m, w, d, n) && !Finished(m.st)
    requires Delivers(p, m.port, read, w.chunk) && Expects(m.st, p.st, p.sent)
    requires Written(n) && Recorded(n.texts, n.under, n.sent, x)
    requires InOrder(p.sent, greetP, read, heard) && InOrder(m.sent, greet, readP, heardP)
    ensures d.input.arrival.Got? ==> d.input.arrival.packet in p.sent
    ensures Linked(n, greet', x, read', p, greetP, y, readP) && Linked(p, greetP, y, readP, n, greet', x, read')
    ensures InOrder(p.sent, greetP, read', heard') && InOrder(n.sent, greet', readP, heardP)
    ensures ArrivesInTurn(p.sent, greetP, read, d.event, read', d.input.arrival)
    ensures Given(n.port, read')
            == Given(m.port, read) + if Exchanges(m.st, d.input, w.abort) then |w.chunk| else 0
  {
    hide Linked, Turned, Finished, Delivers, ArrivesInTurn, Exchanges, InOrder, Given, Expects, Written, Recorded;
    greet', read' := LinkedTurn(m, w, d, n, greet, x, read, p, greetP, y, readP);
    heard' := HeardNow(p.sent, greetP, read, heard, d.event, read', d.input.arrival);
    InOrderStays(m.sent, greet, n.sent, greet', readP, heardP);
    LinkedSwaps(n, greet', x, read', p, greetP, y, readP);
  }

  // More of what has been sent is written.
  lemma LinkedDrains(m: Moment, n: Moment, greet: nat, x: Extra, read: Reading, p: Moment, greetP: nat, y: Extra,
                     readP: Reading)
    requires Linked(m, greet, x, read, p, greetP, y, readP) && Drained(m, n) && Written(n)
    ensures Linked(n, greet, x, read, p, greetP, y, readP) && n.sent == m.sent
  {
    hide Reads, Recorded, Written, GoodExtra, OfGreeting, Early, AGREED, UNKNOWN;
    var written: seq<Byte> :| n == m.(idle := n.idle, tape := m.tape + Signs(written, false));
    NoHailsOf(written);
    assert n.tape[|m.tape|..] == Signs(written, false);
    FlowsGrow(m, greet, x, p.port, readP, n, greet);
  }

  // A run justifies these expectations.
  lemma RunExpects(trace: seq<System>, s: System, sentA: seq<Packet>, sentB: seq<Packet>)
    requires Run(trace) && s == trace[|trace| - 1] && |trace| < LIMIT - 100
    requires |trace[0].a.file| < LIMIT && |trace[0].b.file| < LIMIT
    requires s.ab == Spoken(sentA) && s.ba == Spoken(sentB)
    ensures Expects(s.a, s.b, sentB) && Expects(s.b, s.a, sentA)
  {
    hide Known, Ready, Portable, InHex, HydraSafety.Next, Initial, Early, Tells;
    RunOpens(trace, |trace| - 1);
    forall k | 0 <= k < |sentA| ensures Portable(sentA[k]) && Tells(sentA[k], Ready(s.a), Ready(s.b)) {
      assert sentA[k] in s.ab;
      RunIsPortable(trace, sentA[k]);
    }
    forall k | 0 <= k < |sentB| ensures Portable(sentB[k]) && Tells(sentB[k], Ready(s.b), Ready(s.a)) {
      assert sentB[k] in s.ba;
      RunIsPortable(trace, sentB[k]);
    }
  }

  lemma LinkedAtFirst(st: Station, x: Extra, peer: Station, y: Extra)
    requires GoodExtra(x) && GoodExtra(y) && st.rx.state == peer.rx.state == RxInit
    ensures Linked(NewMoment(st), 0, x, UNREAD, NewMoment(peer), 0, y, UNREAD)
  {
    hide GoodExtra;
    NewFlows(st, x, NewMoment(peer).port);
    NewFlows(peer, y, NewMoment(st).port);
  }

  lemma NewFlows(st: Station, x: Extra, p: Port)
    requires GoodExtra(x) && p.line == [] && p.state == Link.Receiver(0, false, 0, []) && p.rx == UNKNOWN
    ensures Flows(NewMoment(st), 0, x, p, UNREAD)
  {
    hide GoodExtra, ScanFrom;
    OptionsAre();
  }

  class HydraLine {
    const pair: HydraPair
    ghost var greetA: nat            // packets of the greeting
    ghost var greetB: nat
    ghost var readA: Reading         // how far station a has read what b has written
    ghost var readB: Reading
    ghost var heardA: seq<Packet>    // the packets a has heard behind the greeting
    ghost var heardB: seq<Packet>

    ghost predicate Valid()
      reads this, pair, pair.a, pair.a.link, pair.a.link.iencbuf, pair.a.output, pair.a.output.oencbuf
      reads pair.b, pair.b.link, pair.b.link.iencbuf, pair.b.output, pair.b.output.oencbuf
    {
      && pair.Valid() && pair.honest
      && |pair.trace[0].a.file| < LIMIT && |pair.trace[0].b.file| < LIMIT
      && Linked(pair.a.Moment(), greetA, pair.a.extra, readA, pair.b.Moment(), greetB, pair.b.extra, readB)
      && InOrder(pair.b.sent, greetB, readA, heardA) && InOrder(pair.a.sent, greetA, readB, heardB)
    }

    constructor (hasA: bool, fileA: File, leftA: seq<Byte>, hasB: bool, fileB: File, leftB: seq<Byte>, x: Extra,
                 y: Extra)
      requires GoodExtra(x) && GoodExtra(y) && leftA <= fileB && leftB <= fileA
      requires |fileA| < LIMIT && |fileB| < LIMIT
      ensures Valid()
    {
      hide HydraPair.Valid, HydraStation.Moment, Linked, NewMoment;
      pair := new HydraPair(hasA, fileA, leftA, hasB, fileB, leftB, x, y);
      greetA, greetB, readA, readB, heardA, heardB := 0, 0, UNREAD, UNREAD, [], [];
      new;
      LinkedAtFirst(pair.trace[0].a, x, pair.trace[0].b, y);
    }

    // A turn of station a; the line brings it any number of the bytes that come next.
    method TurnOfA(w: World) returns (ghost d: Account)
      requires Valid() && !Finished(pair.a.Now()) && |pair.trace| < LIMIT - 100
      requires Delivers(pair.b.Moment(), pair.a.Port(), readA, w.chunk)
      modifies this`greetA, this`readA, this`heardA, pair`trace, pair`honest
      modifies pair.a, pair.a.link, pair.a.link.iencbuf, pair.a.link.ibuf
      modifies pair.a.output, pair.a.output.obuf, pair.a.output.oencbuf
      ensures Valid()
      ensures Turned(old(pair.a.Moment()), w, d, pair.a.Moment()) && pair.b.Moment() == old(pair.b.Moment())
      ensures pair.trace == old(pair.trace) + [pair.Here()]
      ensures ArrivesInTurn(pair.b.sent, greetB, old(readA), d.event, readA, d.input.arrival)
      ensures Given(pair.a.Port(), readA)
              == Given(old(pair.a.Port()), old(readA))
                 + if Exchanges(old(pair.a.Now()), d.input, w.abort) then |w.chunk| else 0
    {
      hide HydraPair.Valid, HydraStation.Moment, HydraStation.Port, Linked, Turned, Finished, Delivers, ArrivesInTurn,
           Exchanges, InOrder, Early, Given, Expects, Written, Recorded, Run, Iteration, HydraPair.Here, Due,
           HydraStation.Now, HydraLink.HydraInfo.ValidInput;
      PairFacts(pair);
      ghost var m, p := pair.a.Moment(), pair.b.Moment();
      Expecting();
      d := pair.TurnOfA(w);
      PairFacts(pair);
      greetA, readA, heardA := OneTurn(m, w, d, pair.a.Moment(), greetA, pair.a.extra, readA, p, greetB,
          pair.b.extra, readB, heardA, heardB);
    }

    // A turn of station b; the line brings it any number of the bytes that come next.
    method TurnOfB(w: World) returns (ghost d: Account)
      requires Valid() && !Finished(pair.b.Now()) && |pair.trace| < LIMIT - 100
      requires Delivers(pair.a.Moment(), pair.b.Port(), readB, w.chunk)
      modifies this`greetB, this`readB, this`heardB, pair`trace, pair`honest
      modifies pair.b, pair.b.link, pair.b.link.iencbuf, pair.b.link.ibuf
      modifies pair.b.output, pair.b.output.obuf, pair.b.output.oencbuf
      ensures Valid()
      ensures Turned(old(pair.b.Moment()), w, d, pair.b.Moment()) && pair.a.Moment() == old(pair.a.Moment())
      ensures pair.trace == old(pair.trace) + [pair.Here()]
      ensures ArrivesInTurn(pair.a.sent, greetA, old(readB), d.event, readB, d.input.arrival)
      ensures Given(pair.b.Port(), readB)
              == Given(old(pair.b.Port()), old(readB))
                 + if Exchanges(old(pair.b.Now()), d.input, w.abort) then |w.chunk| else 0
    {
      hide HydraPair.Valid, HydraStation.Moment, HydraStation.Port, Linked, Turned, Finished, Delivers, ArrivesInTurn,
           Exchanges, InOrder, Early, Given, Expects, Written, Recorded, Run, Iteration, HydraPair.Here, Due,
           HydraStation.Now, HydraLink.HydraInfo.ValidInput;
      PairFacts(pair);
      ghost var m, p := pair.b.Moment(), pair.a.Moment();
      Expecting();
      LinkedSwaps(p, greetA, pair.a.extra, readA, m, greetB, pair.b.extra, readB);
      d := pair.TurnOfB(w);
      PairFacts(pair);
      greetB, readB, heardB := OneTurn(m, w, d, pair.b.Moment(), greetB, pair.b.extra, readB, p, greetA,
          pair.a.extra, readA, heardB, heardA);
    }

    // The closing loop of station a
    method DrainOfA(rooms: seq<Option<int>>) returns (ok: bool)
      requires Valid()
      modifies pair.a.output`oencptr, pair.a.output`oencpos, pair.a.output`pktqueue, pair.a.output`tape
      modifies pair.a.output.oencbuf
      ensures Valid() && Drained(old(pair.a.Moment()), pair.a.Moment())
      ensures pair.b.Moment() == old(pair.b.Moment())
      ensures ok ==> Text(pair.a.output.tape) == Concat(pair.a.output.texts)
    {
      hide HydraPair.Valid, HydraStation.Moment, HydraStation.Port, Linked, InOrder, Written, Recorded, Text, Concat,
           Run,
           Drained, HydraPair.Here, HydraStation.Now, HydraLink.HydraInfo.ValidInput;
      PairFacts(pair);
      ghost var m, p := pair.a.Moment(), pair.b.Moment();
      ok := pair.DrainOfA(rooms);
      PairFacts(pair);
      ghost var n := pair.a.Moment();
      LinkedDrains(m, n, greetA, pair.a.extra, readA, p, greetB, pair.b.extra, readB);
    }

    // The closing loop of station b
    method DrainOfB(rooms: seq<Option<int>>) returns (ok: bool)
      requires Valid()
      modifies pair.b.output`oencptr, pair.b.output`oencpos, pair.b.output`pktqueue, pair.b.output`tape
      modifies pair.b.output.oencbuf
      ensures Valid() && Drained(old(pair.b.Moment()), pair.b.Moment())
      ensures pair.a.Moment() == old(pair.a.Moment())
      ensures ok ==> Text(pair.b.output.tape) == Concat(pair.b.output.texts)
    {
      hide HydraPair.Valid, HydraStation.Moment, HydraStation.Port, Linked, InOrder, Written, Recorded, Text, Concat,
           Run,
           Drained, HydraPair.Here, HydraStation.Now, HydraLink.HydraInfo.ValidInput;
      PairFacts(pair);
      ghost var m, p := pair.b.Moment(), pair.a.Moment();
      LinkedSwaps(p, greetA, pair.a.extra, readA, m, greetB, pair.b.extra, readB);
      ok := pair.DrainOfB(rooms);
      PairFacts(pair);
      ghost var n := pair.b.Moment();
      LinkedDrains(m, n, greetB, pair.b.extra, readB, p, greetA, pair.a.extra, readA);
      LinkedSwaps(n, greetB, pair.b.extra, readB, p, greetA, pair.a.extra, readA);
    }

    lemma Expecting()
      requires Valid() && |pair.trace| < LIMIT - 100
      ensures Expects(pair.a.Now(), pair.b.Now(), pair.b.sent) && Expects(pair.b.Now(), pair.a.Now(), pair.a.sent)
    {
      hide HydraStation.Valid, HydraStation.Moment, HydraLink.HydraInfo.ValidInput, Run, Linked, InOrder, Expects;
      RunExpects(pair.trace, pair.Here(), pair.a.sent, pair.b.sent);
    }
  }

  lemma PairFacts(p: HydraPair)
    requires p.Valid()
    ensures StationFacts(p.a) && StationFacts(p.b) && p.trace != []
  {
    hide HydraStation.Valid, HydraStation.Moment, HydraLink.HydraInfo.ValidInput;
    p.a.MomentFacts();
    p.b.MomentFacts();
  }

  ghost predicate StationFacts(st: HydraStation)
    reads st, st.link, st.link.iencbuf, st.output
  {
    && st.link.ValidInput()
    && var m := st.Moment();
      && m.st == st.Now() && m.port == st.Port() && m.sent == st.sent
      && Written(m) && Recorded(m.texts, m.under, m.sent, st.extra)
  }

  // Behind the greeting
  predicate InOrder(sent: seq<Packet>, greet: nat, r: Reading, heard: seq<Packet>) {
    if r.greeting then heard == []
    else greet <= r.heard <= |sent| && heard == sent[greet..r.heard]
  }

  // What has been heard in a turn goes behind what has been heard before.
  ghost function HeardNow(sent: seq<Packet>, greet: nat, r: Reading, heard: seq<Packet>, e: Link.Event, r': Reading,
                          arrival: Arrival): (h: seq<Packet>)
    requires InOrder(sent, greet, r, heard) && ArrivesInTurn(sent, greet, r, e, r', arrival) && greet <= |sent|
    ensures InOrder(sent, greet, r', h)
  {
    var k := Due(greet, r);
    if e != Link.Pending && !r'.greeting then
      assert heard == sent[greet..k] && sent[greet..k] + [sent[k]] == sent[greet..k + 1];
      heard + [arrival.packet]
    else heard
  }

  // ---------------------------------------------------------------------------
  // What this means
  // ---------------------------------------------------------------------------

  // The main results, at the level of bytes and without any assumption on what is heard: what
  // one station has written of a file is a prefix of the other's, only that file ever reaches
  // the inbound, and a SUCCESS that has not overruled a refusal is true.
  lemma LineIsSafe(t: HydraLine)
    requires t.Valid()
    ensures var a, b := t.pair.a, t.pair.b;
            && HoldsPrefix(a.file, b.rx) && HoldsPrefix(b.file, a.rx)
            && (a.tx.outcome == Some(Success) && !a.tx.overruled ==> b.rx.inbound != [] && b.rx.inbound[0] == a.file)
  {
    hide HydraPair.Valid, HydraStation.Moment, Linked, InOrder;
    PairIsSafe(t.pair);
  }

  // Only START and INITACK packets can be lost; those behind them are heard once and in order.
  lemma HeardInOrder(t: HydraLine)
    requires t.Valid()
    ensures var a, b := t.pair.a, t.pair.b;
            && t.greetA <= |a.sent| && AllOfGreeting(a.sent[..t.greetA]) && t.heardB <= a.sent[t.greetA..]
            && t.greetB <= |b.sent| && AllOfGreeting(b.sent[..t.greetB]) && t.heardA <= b.sent[t.greetB..]
  {
    hide HydraPair.Valid, HydraStation.Moment, Linked, InOrder, AllOfGreeting;
    PairFacts(t.pair);
    hide StationFacts;
    var m, p := t.pair.a.Moment(), t.pair.b.Moment();
    LinkedSwaps(m, t.greetA, t.pair.a.extra, t.readA, p, t.greetB, t.pair.b.extra, t.readB);
    OneHeardInOrder(m, t.greetA, t.pair.a.extra, t.readA, p, t.greetB, t.pair.b.extra, t.readB, t.heardB);
    OneHeardInOrder(p, t.greetB, t.pair.b.extra, t.readB, m, t.greetA, t.pair.a.extra, t.readA, t.heardA);
  }

  lemma OneHeardInOrder(m: Moment, greet: nat, x: Extra, read: Reading, p: Moment, greetP: nat, y: Extra,
                        readP: Reading, heard: seq<Packet>)
    requires Linked(m, greet, x, read, p, greetP, y, readP) && InOrder(m.sent, greet, readP, heard)
    ensures greet <= |m.sent| && AllOfGreeting(m.sent[..greet]) && heard <= m.sent[greet..]
  {
    hide Written, Recorded, Reads, OptionsOk, GoodExtra;
  }

  // Once all that has been sent has been written and read, none of them is missing.
  lemma NothingLost(t: HydraLine)
    requires t.Valid() && |t.pair.trace| < LIMIT - 100
    requires t.readB.taken == |t.pair.a.output.tape| && Text(t.pair.a.output.tape) == Concat(t.pair.a.output.texts)
    ensures t.greetA <= |t.pair.a.sent| && t.heardB == t.pair.a.sent[t.greetA..]
  {
    hide HydraPair.Valid, HydraStation.Valid, HydraLink.HydraInfo.ValidInput, Linked, InOrder, Text, Concat, Expects;
    PairFacts(t.pair);
    t.Expecting();
    var m, p := t.pair.a.Moment(), t.pair.b.Moment();
    NoneMissing(m, t.greetA, t.pair.a.extra, t.readA, p, t.greetB, t.pair.b.extra, t.readB, t.heardB);
  }

  lemma NoneMissing(m: Moment, greet: nat, x: Extra, read: Reading, p: Moment, greetP: nat, y: Extra, readP: Reading,
                    heard: seq<Packet>)
    requires Linked(m, greet, x, read, p, greetP, y, readP) && InOrder(m.sent, greet, readP, heard)
    requires Expects(p.st, m.st, m.sent) && readP.taken == |m.tape| && Text(m.tape) == Concat(m.texts)
    ensures greet <= |m.sent| && heard == m.sent[greet..]
  {
    hide Flows, OptionsOk, Expects, Understood, Text, Concat;
    UnderstoodBy(p, m, greet);
    AllHeard(m, greet, x, p.port, readP);
    DueBound(m, greet, x, p.port, readP);
  }
}
