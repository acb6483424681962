// The options of a Hydra session: unknown until a station has taken the other's INIT, and those
// agreed on from then on; what depends on them is encoded with the latter.
module HydraSettling {
  import opened Wrappers
  import opened Crc
  import opened Files
  import opened HydraSession
  import opened HydraInit
  import opened HydraPackets
  import opened HydraNegotiation
  import opened HydraOpening
  import opened HydraTurn
  import Link = HydraCodec

  const UNKNOWN := OptionsOf(UNKNOWN_LINK)

  const AGREED := OptionsOf({C32})

  lemma OptionsAre()
    ensures UNKNOWN.ctlchrs && !UNKNOWN.canuue && !AGREED.canuue
  {
  }

  ghost predicate OptionsOk(m: Moment) {
    && |m.under| == |m.sent|
    && m.port.rx == m.port.tx == (if Ready(m.st) then AGREED else UNKNOWN)
    && forall k :: 0 <= k < |m.sent| && !InHex(m.sent[k]) ==> m.under[k] == AGREED
  }

  // An INIT that is heard is one of this program's.
  predicate Proper(e: Link.Event) {
    OfferOf(e).Some? ==>
      && OfferOf(e).value.can == CAN && OfferOf(e).value.desired == DEF
      && ArrivalOf(e).Got? && ArrivalOf(e).packet.PInit?
  }

  // ---------------------------------------------------------------------------
  // When a station becomes ready
  // ---------------------------------------------------------------------------

  lemma MiddleReady(st: Station, i: Input)
    ensures Ready(Middle(st, i)) == Ready(st)
  {
    hide TimersTurn, TxTurn, RxTurn, Ready;
    TimersOpening(st, i);
    TxOpening(TimersTurn(st, i), i);
    RxOpening(TxTurn(TimersTurn(st, i), i).st);
  }

  lemma ReadyAfter(st: Station, i: Input)
    requires !Finished(st)
    ensures Ready(Iteration(st, i).st) <==> Ready(st) || (!i.dead && Welcomed(Middle(st, i), i))
  {
    hide TimersTurn, TxTurn, RxTurn, ArrivalTurn, Ready, Halt, Finished, Welcomed;
    MiddleReady(st, i);
    ArrivalOpening(Middle(st, i), i);
    HaltOpening(st);
    SameState(st, Halt(st));
  }

  lemma SettledIs(o: Link.Options, state: RxState, e: Link.Event, failed: bool)
    requires Proper(e)
    ensures OptionsAfter(o, state, e, failed)
            == if !failed && state == RxInit && OfferOf(e).Some? then AGREED else o
    ensures OfferOf(e).Some? ==> InitOk(e)
  {
    hide OfferOf, ArrivalOf, Number;
    if OfferOf(e).Some? {
      SameOptions(OfferOf(e).value);
    }
  }

  lemma PortSettles(m: Moment, w: World, d: Account, n: Moment)
    requires Turned(m, w, d, n) && !Finished(m.st) && OptionsOk(m) && Proper(d.event)
    ensures n.port.rx == n.port.tx == if Ready(n.st) then AGREED else UNKNOWN
  {
    hide Wrote, Encoded, Finished, Iteration, InitOk, OfferOf, ArrivalOf, OptionsAfter, Proper, Link.ReceiveAll,
         Middle, InHex;
    var i := d.input;
    ReadyAfter(m.st, i);
    MiddleReady(m.st, i);
    if Exchanges(m.st, i, w.abort) {
      SettledIs(m.port.rx, Middle(m.st, i).rx.state, d.event, d.failed);
      InitArrives(d.event);
    } else {
      assert ArrivalOf(Link.Pending) == Silence && !InitOk(Link.Pending) by { NothingHeard(); }
    }
  }

  lemma NothingHeard()
    ensures ArrivalOf(Link.Pending) == Silence && !InitOk(Link.Pending)
  {
  }

  lemma InitArrives(e: Link.Event)
    requires Proper(e)
    ensures OfferOf(e).Some? ==> ArrivalOf(e).Got? && ArrivalOf(e).packet.PInit?
    ensures InitOk(e) ==> OfferOf(e).Some?
  {
  }

  // ---------------------------------------------------------------------------
  // The options packets are encoded with
  // ---------------------------------------------------------------------------

  // Only a station that is ready sends what depends on the options.
  lemma EarlyTells(st: Station, i: Input, you: bool)
    requires Known(st, you)
    ensures forall k :: 0 <= k < |EarlyOut(st, i)| && !InHex(EarlyOut(st, i)[k]) ==> Ready(st)
  {
    hide TimersTurn, TxTurn, RxTurn, Known, Ready, InHex;
    var s0 := TimersTurn(st, i);
    var t := TxTurn(s0, i);
    TimersGo(st, i, you);
    KnownAfter(st, s0, [], you);
    TxTurnGoes(s0, i, you);
    KnownAfter(s0, t.st, t.out, you);
    RxTurnGoes(t.st, you);
    TimersOpening(st, i);
    TxOpening(s0, i);
    RxOpening(t.st);
  }

  lemma EncodedAgreed(m: Moment, w: World, d: Account, n: Moment, you: bool)
    requires Turned(m, w, d, n) && !Finished(m.st) && OptionsOk(m)
    requires Known(m.st, you) && (d.input.arrival.Got? ==> Tells(d.input.arrival.packet, you, Ready(m.st)))
    requires n.port.tx == if Ready(n.st) then AGREED else UNKNOWN
    ensures |n.under| == |n.sent|
    ensures forall k :: 0 <= k < |n.sent| && !InHex(n.sent[k]) ==> n.under[k] == AGREED
  {
    hide Wrote, Heard, Finished, Iteration, InitOk, ArrivalOf, Known, Ready, InHex, EarlyOut;
    var i := d.input;
    var early := EarlyOut(m.st, i);
    EarlyTells(m.st, i, you);
    IterationGoes(m.st, i, you);
    EarlyFirst(m.st, i);
    forall k | 0 <= k < |n.sent| && !InHex(n.sent[k]) ensures n.under[k] == AGREED {
      if k >= |m.sent| {
        var j := k - |m.sent|;
        assert n.sent[k] == Iteration(m.st, i).out[j];
        if j < |early| {
          assert n.sent[k] == early[j];
        }
      }
    }
  }

  lemma EarlyFirst(st: Station, i: Input)
    requires !Finished(st)
    ensures EarlyOut(st, i) <= Iteration(st, i).out
  {
    hide TimersTurn, TxTurn, RxTurn, ArrivalTurn, Finished;
  }

  lemma OptionsTurn(m: Moment, w: World, d: Account, n: Moment, you: bool)
    requires Turned(m, w, d, n) && !Finished(m.st) && OptionsOk(m) && Proper(d.event)
    requires Known(m.st, you) && (d.input.arrival.Got? ==> Tells(d.input.arrival.packet, you, Ready(m.st)))
    ensures OptionsOk(n)
  {
    hide Turned, Finished, Proper, Known, Tells, Ready, InHex;
    PortSettles(m, w, d, n);
    EncodedAgreed(m, w, d, n, you);
  }
}
