// When two stations may use the options they have agreed on: a packet that is not always sent
// as HEX is on the link only after both ends have taken the other's INIT.
module HydraNegotiation {
  import opened Crc
  import opened HydraSession
  import opened HydraSafety
  import opened HydraOutcome

  // These are put into a HEX packet whatever the options.
  predicate InHex(p: Packet) {
    p.PStart? || p.PInit? || p.PInitAck? || p.PEnd? || p.PIdle?
  }

  // The station has taken the other's INIT and set its options.
  predicate Ready(st: Station) {
    st.rx.state != RxInit
  }

  predicate PastInit(s: TxState) {
    s != Start && s != SWait && s != Init && s != InitAck && s != RInit && s != TxAbort
  }

  predicate InFile(s: RxState) {
    s == RxData || s == RxRpos || s == RxRposAck || s == RxSkip || s == RxSkipAck
  }

  // What a station's states say about the readiness of both ends
  predicate Known(st: Station, you: bool) {
    && (st.tx.state == RInit || PastInit(st.tx.state) ==> you)
    && (PastInit(st.tx.state) ==> Ready(st))
    && (InFile(st.rx.state) ==> you)
  }

  // What a packet says about the readiness of its sender and of the other end
  predicate Tells(p: Packet, me: bool, you: bool) {
    (!InHex(p) ==> me && you) && (p.PInitAck? ==> me)
  }

  predicate AllTell(out: seq<Packet>, me: bool, you: bool) {
    forall k :: 0 <= k < |out| ==> Tells(out[k], me, you)
  }

  // Station t comes from st, having sent out.
  predicate Goes(st: Station, t: Station, out: seq<Packet>, you: bool) {
    Known(t, you) && (Ready(st) ==> Ready(t)) && AllTell(out, Ready(t), you)
  }

  lemma TimersGo(st: Station, i: Input, you: bool)
    requires Known(st, you)
    ensures Goes(st, TimersTurn(st, i), [], you)
  {
  }

  lemma TickGoes(st: Station, i: Input, you: bool)
    requires Known(st, you)
    ensures var t := TxTick(st.tx, st.file, st.rx.state, i); Goes(st, st.(tx := t.tx), t.out, you)
  {
    hide Grow, EofOffset;
  }

  lemma RxTickGoes(st: Station, you: bool)
    requires Known(st, you)
    ensures var r := RxTick(st.rx); Goes(st, st.(rx := r.rx), r.out, you)
  {
    hide Word;
  }

  lemma HaltGoes(st: Station, you: bool)
    requires Known(st, you)
    ensures Goes(st, Halt(st), [], you)
  {
  }

  lemma AfterFInfoAck(tx: Sender, offs: int, ok: bool)
    ensures PastInit(TxFInfoAck(tx, offs, ok).state)
  {
    hide TxClose;
  }

  lemma AfterDataAck(tx: Sender, pos: int)
    ensures TxDataAck(tx, pos).state == tx.state || TxDataAck(tx, pos).state == Data
  {
  }

  lemma AfterRpos(tx: Sender, offs: int, block: nat, id: int, ok: bool)
    ensures TxRpos(tx, offs, block, id, ok).state == tx.state || PastInit(TxRpos(tx, offs, block, id, ok).state)
  {
    hide Align;
  }

  lemma AfterEofAck(tx: Sender)
    ensures PastInit(TxEofAck(tx).state)
  {
    hide TxClose;
  }

  // The transmit states a packet leads to
  lemma HandledState(tx: Sender, p: Packet, i: Input)
    ensures var t := TxHandle(tx, p, i);
            || t.tx.state == tx.state || (PastInit(tx.state) && PastInit(t.tx.state))
            || (p.PStart? && t.tx.state == Init) || (p.PInitAck? && t.tx.state == RInit)
    ensures var t := TxHandle(tx, p, i); t.out == [] || t.out == [PEnd, PEnd, PEnd]
  {
    hide TxFInfoAck, TxDataAck, TxRpos, TxEofAck;
    match p {
      case PFInfoAck(offs) => AfterFInfoAck(tx, offs, i.seekOk);
      case PDataAck(pos) => AfterDataAck(tx, pos);
      case PRpos(offset, block, id) => AfterRpos(tx, offset, block, id, i.seekOk);
      case PEofAck => AfterEofAck(tx);
      case _ =>
    }
  }

  lemma TxHears(st: Station, tx: Sender, p: Packet, i: Input, you: bool)
    requires Known(st, you) && tx == st.tx.(window := tx.window) && Tells(p, you, Ready(st))
    ensures var t := TxHandle(tx, p, i); Goes(st, st.(tx := t.tx), t.out, you)
  {
    hide TxHandle;
    HandledState(tx, p, i);
  }

  lemma RxHears(st: Station, p: Packet, i: Input, you: bool)
    requires Known(st, you) && Tells(p, you, Ready(st))
    ensures var r := RxHandle(st.rx, p, i); Goes(st, st.(rx := r.rx), r.out, you)
  {
    hide Halve;
  }

  lemma Then(st: Station, t: Station, u: Station, out: seq<Packet>, more: seq<Packet>, you: bool)
    requires Goes(st, t, out, you) && Goes(t, u, more, you)
    ensures Goes(st, u, out + more, you)
  {
    hide Known, Ready;
  }

  lemma TxTurnGoes(st: Station, i: Input, you: bool)
    requires Known(st, you)
    ensures Goes(st, TxTurn(st, i).st, TxTurn(st, i).out, you)
  {
    hide TxTick, Goes, Known, Halt;
    TickGoes(st, i, you);
    var t := TxTick(st.tx, st.file, st.rx.state, i);
    var u := st.(tx := t.tx);
    KnownAfter(st, u, t.out, you);
    HaltGoes(u, you);
    Then(st, u, Halt(u), t.out, [], you);
    assert t.out + [] == t.out;
  }

  lemma KnownAfter(st: Station, t: Station, out: seq<Packet>, you: bool)
    requires Goes(st, t, out, you)
    ensures Known(t, you)
  {
  }

  lemma Stays(st: Station, you: bool)
    requires Known(st, you)
    ensures Goes(st, st, [], you)
  {
  }

  lemma RxTurnGoes(st: Station, you: bool)
    requires Known(st, you)
    ensures Goes(st, RxTurn(st).st, RxTurn(st).out, you)
  {
    hide RxTick, Goes, Known, Halt;
    Stays(st, you);
    RxTickGoes(st, you);
    var r := RxTick(st.rx);
    var u := st.(rx := r.rx);
    KnownAfter(st, u, r.out, you);
    HaltGoes(u, you);
    Then(st, u, Halt(u), r.out, [], you);
    assert r.out + [] == r.out;
  }

  lemma PacketGoes(st: Station, p: Packet, i: Input, you: bool)
    requires Known(st, you) && Tells(p, you, Ready(st))
    ensures Goes(st, PacketTurn(st, p, i).st, PacketTurn(st, p, i).out, you)
  {
    hide TxHandle, RxHandle, Goes, Known, Halt, InHex, Ready;
    var tx := TxWindow(st, p, i);
    var t := TxHandle(tx, p, i);
    TxHears(st, tx, p, i, you);
    var st1 := st.(tx := t.tx);
    KnownAfter(st, st1, t.out, you);
    assert Ready(st1) == Ready(st) by { SameReadiness(st, st1); }
    var r := RxHandle(st.rx, p, i);
    RxHears(st1, p, i, you);
    var u := st1.(rx := r.rx);
    Then(st, st1, u, t.out, r.out, you);
    KnownAfter(st, u, t.out + r.out, you);
    HaltGoes(u, you);
    Then(st, u, Halt(u), t.out + r.out, [], you);
    assert t.out + r.out + [] == t.out + r.out;
  }

  lemma SameReadiness(st: Station, t: Station)
    requires t.rx == st.rx
    ensures Ready(st) == Ready(t)
  {
  }

  lemma ArrivalGoes(st: Station, i: Input, you: bool)
    requires Known(st, you) && (i.arrival.Got? ==> Tells(i.arrival.packet, you, Ready(st)))
    ensures Goes(st, ArrivalTurn(st, i).st, ArrivalTurn(st, i).out, you)
  {
    hide PacketTurn, Halt, InHex;
    Stays(st, you);
    HaltGoes(st, you);
    if i.arrival.Got? {
      PacketGoes(st, i.arrival.packet, i, you);
    }
  }

  lemma IterationGoes(st: Station, i: Input, you: bool)
    requires Known(st, you) && (i.arrival.Got? ==> Tells(i.arrival.packet, you, Ready(st)))
    ensures Goes(st, Iteration(st, i).st, Iteration(st, i).out, you)
  {
    hide TimersTurn, TxTurn, RxTurn, ArrivalTurn, Goes, Known, InHex, Ready, Halt;
    Stays(st, you);
    HaltGoes(st, you);
    if !Finished(st) && !i.dead {
      var s0 := TimersTurn(st, i);
      TimersGo(st, i, you);
      KnownAfter(st, s0, [], you);
      var t := TxTurn(s0, i);
      TxTurnGoes(s0, i, you);
      Then(st, s0, t.st, [], t.out, you);
      assert [] + t.out == t.out;
      KnownAfter(st, t.st, t.out, you);
      var r := RxTurn(t.st);
      RxTurnGoes(t.st, you);
      Then(st, t.st, r.st, t.out, r.out, you);
      KnownAfter(st, r.st, t.out + r.out, you);
      StillReady(st, r.st, t.out + r.out, you);
      var a := ArrivalTurn(r.st, i);
      if i.arrival.Got? {
        StillTells(i.arrival.packet, you, Ready(st), Ready(r.st));
      }
      ArrivalGoes(r.st, i, you);
      Then(st, r.st, a.st, t.out + r.out, a.out, you);
    }
  }

  lemma StillReady(st: Station, t: Station, out: seq<Packet>, you: bool)
    requires Goes(st, t, out, you)
    ensures Ready(st) ==> Ready(t)
  {
  }

  lemma StillTells(p: Packet, me: bool, you: bool, you': bool)
    requires Tells(p, me, you) && (you ==> you')
    ensures Tells(p, me, you')
  {
  }

  // ---------------------------------------------------------------------------
  // Two stations
  // ---------------------------------------------------------------------------

  ghost predicate NetTells(net: Net, me: bool, you: bool) {
    forall p :: p in net ==> Tells(p, me, you)
  }

  ghost predicate InStep(s: System) {
    && Known(s.a, Ready(s.b)) && Known(s.b, Ready(s.a))
    && NetTells(s.ab, Ready(s.a), Ready(s.b)) && NetTells(s.ba, Ready(s.b), Ready(s.a))
  }

  lemma TurnKeeps(st: Station, peer: Station, out: Net, back: Net, i: Input)
    requires Known(st, Ready(peer)) && Known(peer, Ready(st)) && Deliverable(back, i)
    requires NetTells(out, Ready(st), Ready(peer)) && NetTells(back, Ready(peer), Ready(st))
    ensures var t := Iteration(st, i);
            && Known(t.st, Ready(peer)) && Known(peer, Ready(t.st))
            && NetTells(Sent(out, t.out), Ready(t.st), Ready(peer)) && NetTells(back, Ready(peer), Ready(t.st))
  {
    hide Iteration, InHex;
    IterationGoes(st, i, Ready(peer));
  }

  lemma {:induction false} RunInStep(trace: seq<System>, k: nat)
    requires Run(trace) && k < |trace|
    ensures InStep(trace[k])
    decreases k
  {
    hide Iteration, Known, NetTells;
    if k == 0 {
      InitialInStep(trace[0]);
    } else {
      RunInStep(trace, k - 1);
      var s, t := trace[k - 1], trace[k - 1 + 1];
      assert Next(s, t);
      if i: Input :| Deliverable(s.ba, i) && t == TurnOfA(s, i) {
        TurnKeeps(s.a, s.b, s.ab, s.ba, i);
      } else {
        var i: Input :| Deliverable(s.ab, i) && t == TurnOfB(s, i);
        TurnKeeps(s.b, s.a, s.ba, s.ab, i);
      }
    }
  }

  lemma InitialInStep(s: System)
    requires Initial(s)
    ensures InStep(s)
  {
  }

  // The main result: whoever hears such a packet, and whoever has sent it, is ready.
  lemma OptionsInStep(s: System, p: Packet)
    requires Reachable(s) && (p in s.ab || p in s.ba) && !InHex(p)
    ensures Ready(s.a) && Ready(s.b)
  {
    hide Next, Initial, Known;
    var trace :| Run(trace) && trace[|trace| - 1] == s;
    RunInStep(trace, |trace| - 1);
  }
}
