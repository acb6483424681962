// The opening of a Hydra session: while a station is in HTX_START or HTX_SWAIT, all it sends
// are START and INITACK packets, and the other station has not taken an INIT.
module HydraOpening {
  import opened Wrappers
  import opened Crc
  import opened Files
  import opened HydraSession
  import opened HydraSafety
  import opened HydraNegotiation

  predicate Early(s: TxState) {
    s == Start || s == SWait
  }

  predicate OfGreeting(p: Packet) {
    p.PStart? || p.PInitAck?
  }

  predicate AllOfGreeting(out: seq<Packet>) {
    forall k :: 0 <= k < |out| ==> OfGreeting(out[k])
  }

  // ---------------------------------------------------------------------------
  // The parts of a turn
  // ---------------------------------------------------------------------------

  lemma TickEarly(tx: Sender, f: File, other: RxState, i: Input)
    requires Early(tx.state)
    ensures var t := TxTick(tx, f, other, i); AllOfGreeting(t.out) && (Early(t.tx.state) || t.halt)
  {
    hide TxData, TxFInfo, TxOpen, TxClose, EofOffset;
  }

  lemma TickLate(tx: Sender, f: File, other: RxState, i: Input)
    requires !Early(tx.state)
    ensures !Early(TxTick(tx, f, other, i).tx.state)
  {
    hide TxTick;
    if tx.state == Init || tx.state == Eof || tx.state == End || tx.state == FInfo || tx.state == NextFile {
      SpeakLate(tx, f, other, i);
    } else {
      QuietLate(tx, f, other, i);
    }
  }

  lemma SpeakLate(tx: Sender, f: File, other: RxState, i: Input)
    requires tx.state == Init || tx.state == Eof || tx.state == End || tx.state == FInfo || tx.state == NextFile
    ensures !Early(TxTick(tx, f, other, i).tx.state)
  {
    hide TxFInfo, TxTry, TxOpen, TxClose, EofOffset, Early;
    LateStates();
    match tx.state {
      case Init => TryLate(tx, InitAck, PInit(0, 0));
      case NextFile => FInfoLate(TxOpen(TxClose(tx)).(tries := 0, state := FInfo), f);
      case FInfo => FInfoLate(tx, f);
      case Eof => TryLate(tx, EofAck, PEof(EofOffset(tx)));
      case End => TryLate(tx, EndAck, PEnd);
    }
  }

  lemma QuietLate(tx: Sender, f: File, other: RxState, i: Input)
    requires !Early(tx.state)
    requires tx.state != Init && tx.state != Eof && tx.state != End && tx.state != FInfo && tx.state != NextFile
    ensures !Early(TxTick(tx, f, other, i).tx.state)
  {
    hide TxData, Early;
    LateStates();
    if tx.state == Data {
      DataLate(tx, f, i.read);
    }
  }

  lemma LateStates()
    ensures Early(Start) && Early(SWait) && !Early(NextFile) && !Early(InitAck) && !Early(EofAck) && !Early(EndAck)
    ensures !Early(Init) && !Early(Eof) && !Early(FInfoAck) && !Early(Data) && !Early(DataAck) && !Early(FInfo)
    ensures !Early(End) && !Early(TxAbort)
  {
  }

  lemma TryLate(tx: Sender, next: TxState, p: Packet)
    requires !Early(tx.state) && !Early(next)
    ensures !Early(TxTry(tx, next, p).tx.state)
  {
    hide Early;
  }

  lemma DataLate(tx: Sender, f: File, read: ReadOutcome)
    requires !Early(tx.state)
    ensures !Early(TxData(tx, f, read).tx.state)
  {
    hide Grow, Early;
    LateStates();
    GrowStays();
  }

  lemma GrowStays()
    ensures forall s: Sender :: Grow(s).state == s.state
  {
  }

  lemma FInfoLate(tx: Sender, f: File)
    requires !Early(tx.state)
    ensures !Early(TxFInfo(tx, f).tx.state)
  {
    hide Early;
    LateStates();
  }

  lemma HandleEarly(tx: Sender, p: Packet, i: Input)
    ensures var t := TxHandle(tx, p, i);
            && (Early(t.tx.state) ==> Early(tx.state))
            && (Early(tx.state) ==> t.out == [])
  {
    hide TxFInfoAck, TxDataAck, TxRpos, TxEofAck;
    match p {
      case PFInfoAck(offs) => AfterFInfoAck(tx, offs, i.seekOk);
      case PDataAck(pos) => AfterDataAck(tx, pos);
      case PRpos(offset, block, id) => AfterRpos(tx, offset, block, id, i.seekOk);
      case PEofAck => AfterEofAck(tx);
      case _ =>
    }
  }

  // A station that is not receiving a file answers INIT, and no more than that.
  lemma AnswersEarly(r: Receiver, p: Packet, i: Input)
    requires InHex(p)
    ensures AllOfGreeting(RxHandle(r, p, i).out)
    ensures RxHandle(r, p, i).rx.state != RxInit && r.state == RxInit ==> p.PInit? && i.initOk
  {
  }

  lemma OnlyInitReadies(r: Receiver, p: Packet, i: Input)
    ensures RxHandle(r, p, i).rx.state != RxInit <==> r.state != RxInit || (p.PInit? && i.initOk)
  {
    hide Halve;
  }

  lemma HaltOpening(st: Station)
    ensures Halt(st).rx.state == st.rx.state && !Early(Halt(st).tx.state) && Halt(st).halted
  {
  }

  // ---------------------------------------------------------------------------
  // A turn
  // ---------------------------------------------------------------------------

  lemma TimersOpening(st: Station, i: Input)
    ensures Early(TimersTurn(st, i).tx.state) == Early(st.tx.state) && Ready(TimersTurn(st, i)) == Ready(st)
  {
  }

  lemma TxOpening(st: Station, i: Input)
    ensures var t := TxTurn(st, i);
            && (Early(t.st.tx.state) ==> Early(st.tx.state)) && Ready(t.st) == Ready(st)
            && (Early(st.tx.state) ==> AllOfGreeting(t.out) && (Early(t.st.tx.state) || t.st.halted))
  {
    hide TxTick, Halt, AllOfGreeting, Early;
    if Early(st.tx.state) {
      TickEarly(st.tx, st.file, st.rx.state, i);
    } else {
      TickLate(st.tx, st.file, st.rx.state, i);
    }
    HaltOpening(st.(tx := TxTick(st.tx, st.file, st.rx.state, i).tx));
  }

  lemma RxOpening(st: Station)
    ensures var r := RxTurn(st);
            && (Early(r.st.tx.state) ==> Early(st.tx.state)) && Ready(r.st) == Ready(st)
            && (Early(st.tx.state) || st.halted ==> Early(r.st.tx.state) || r.st.halted)
            && (Known(st, false) ==> r.out == [])
  {
    hide Halt, Early;
    HaltOpening(st.(rx := RxTick(st.rx).rx));
  }

  lemma ArrivalOpening(st: Station, i: Input)
    ensures Early(ArrivalTurn(st, i).st.tx.state) ==> Early(st.tx.state)
    ensures Ready(ArrivalTurn(st, i).st) <==> Ready(st) || Welcomed(st, i)
  {
    hide TxHandle, RxHandle, Halt, RxNoise;
    HaltOpening(st);
    NoiseStays(st.rx);
    if i.arrival.Got? {
      var p := i.arrival.packet;
      var t := TxHandle(TxWindow(st, p, i), p, i);
      HandleEarly(TxWindow(st, p, i), p, i);
      OnlyInitReadies(st.rx, p, i);
      HaltOpening(st.(tx := t.tx, rx := RxHandle(st.rx, p, i).rx));
    }
  }

  // A good INIT arrives, and is taken.
  predicate Welcomed(st: Station, i: Input) {
    !st.halted && !i.abort && i.arrival.Got? && i.arrival.packet.PInit? && i.initOk
  }

  lemma NoiseStays(r: Receiver)
    ensures (RxNoise(r).state == RxInit) == (r.state == RxInit)
  {
    hide Halve;
  }

  lemma ArrivalGreets(st: Station, i: Input)
    requires Early(st.tx.state) && (i.arrival.Got? ==> InHex(i.arrival.packet))
    ensures AllOfGreeting(ArrivalTurn(st, i).out)
  {
    hide TxHandle, RxHandle, Halt, RxNoise, InHex, OfGreeting;
    if i.arrival.Got? {
      var p := i.arrival.packet;
      HandleEarly(TxWindow(st, p, i), p, i);
      AnswersEarly(st.rx, p, i);
      assert [] + RxHandle(st.rx, p, i).out == RxHandle(st.rx, p, i).out;
    }
  }

  lemma IterationOpening(st: Station, i: Input)
    ensures var t := Iteration(st, i);
            && (Early(t.st.tx.state) ==> Early(st.tx.state))
            && (Ready(st) ==> Ready(t.st))
            && (Ready(t.st) && !Ready(st) ==> i.arrival.Got? && i.arrival.packet.PInit?)
    ensures Early(st.tx.state) && Known(st, false) && (i.arrival.Got? ==> InHex(i.arrival.packet)) ==>
              AllOfGreeting(Iteration(st, i).out)
  {
    hide TimersTurn, TxTurn, RxTurn, Finished, Halt, InHex, OfGreeting, Known, Ready, PacketTurn, RxNoise;
    HaltOpening(st);
    assert Ready(Halt(st)) == Ready(st) by { SameState(st, Halt(st)); }
    var s0 := TimersTurn(st, i);
    var t := TxTurn(s0, i);
    var r := RxTurn(t.st);
    TimersOpening(st, i);
    TxOpening(s0, i);
    RxOpening(t.st);
    ArrivalOpening(r.st, i);
    if Early(st.tx.state) && Known(st, false) && (i.arrival.Got? ==> InHex(i.arrival.packet)) {
      TimersGo(st, i, false);
      KnownAfter(st, s0, [], false);
      TxTurnGoes(s0, i, false);
      KnownAfter(s0, t.st, t.out, false);
      if Early(r.st.tx.state) {
        ArrivalGreets(r.st, i);
      }
    }
  }

  lemma SameState(st: Station, t: Station)
    requires t.rx.state == st.rx.state
    ensures Ready(t) == Ready(st)
  {
  }

  // ---------------------------------------------------------------------------
  // Two stations
  // ---------------------------------------------------------------------------

  // As long as a station is early, only greetings have come from it.
  ghost predicate Unheard(st: Station, out: Net, peer: Station) {
    Early(st.tx.state) ==> !Ready(peer) && forall p :: p in out ==> OfGreeting(p)
  }

  // Packets that can arrive then do not depend on the options.
  lemma StillHex(st: Station, back: Net, peer: Station, i: Input)
    requires NetTells(back, Ready(peer), Ready(st)) && !Ready(peer) && Deliverable(back, i)
    ensures i.arrival.Got? ==> InHex(i.arrival.packet)
  {
  }

  lemma TurnOpens(st: Station, out: Net, peer: Station, back: Net, i: Input)
    requires Unheard(st, out, peer) && Unheard(peer, back, st) && Deliverable(back, i)
    requires Known(st, Ready(peer)) && NetTells(back, Ready(peer), Ready(st))
    ensures var t := Iteration(st, i);
            && Unheard(t.st, Sent(out, t.out), peer) && Unheard(peer, back, t.st)
            && (Early(st.tx.state) ==> AllOfGreeting(t.out))
  {
    hide Iteration, InHex, Known, Ready;
    IterationOpening(st, i);
    if Early(st.tx.state) {
      StillHex(st, back, peer, i);
    }
  }

  ghost predicate Opens(s: System) {
    Unheard(s.a, s.ab, s.b) && Unheard(s.b, s.ba, s.a)
  }

  lemma InitialOpens(s: System)
    requires Initial(s)
    ensures Opens(s)
  {
  }

  lemma {:induction false} RunOpens(trace: seq<System>, k: nat)
    requires Run(trace) && k < |trace|
    ensures Opens(trace[k]) && InStep(trace[k])
    decreases k
  {
    hide Iteration, Known, NetTells, Unheard;
    RunInStep(trace, k);
    if k == 0 {
      InitialOpens(trace[0]);
    } else {
      RunOpens(trace, k - 1);
      var s, t := trace[k - 1], trace[k - 1 + 1];
      assert HydraSafety.Next(s, t);
      if i: Input :| Deliverable(s.ba, i) && t == TurnOfA(s, i) {
        TurnOpens(s.a, s.ab, s.b, s.ba, i);
      } else {
        var i: Input :| Deliverable(s.ab, i) && t == TurnOfB(s, i);
        TurnOpens(s.b, s.ba, s.a, s.ab, i);
      }
    }
  }
}
