// A Hydra transfer under way can be brought to its end from every state that can be reached;
// and what a damaged packet does to it.
module HydraRecovery {
  import opened Wrappers
  import opened Crc
  import opened Files
  import opened HydraSession
  import opened HydraSafety
  import opened HydraOutcome
  import opened HydraPackets
  import opened HydraProgress

  // ---------------------------------------------------------------------------
  // What can come of a state
  // ---------------------------------------------------------------------------

  ghost predicate Path(ss: seq<System>) {
    ss != [] && forall k :: 0 <= k < |ss| - 1 ==> HydraSafety.Next(ss[k], ss[k + 1])
  }

  ghost predicate Leads(s: System, t: System) {
    exists ss: seq<System> :: Path(ss) && ss[0] == s && ss[|ss| - 1] == t
  }

  lemma LeadsHere(s: System)
    ensures Leads(s, s)
  {
    assert Path([s]);
  }

  lemma LeadsOn(s: System, t: System, u: System)
    requires Leads(s, t) && HydraSafety.Next(t, u)
    ensures Leads(s, u)
  {
    hide HydraSafety.Next;
    var ss: seq<System> :| Path(ss) && ss[0] == s && ss[|ss| - 1] == t;
    var more := ss + [u];
    forall k | 0 <= k < |more| - 1 ensures HydraSafety.Next(more[k], more[k + 1]) {
      if k < |ss| - 1 {
        assert HydraSafety.Next(ss[k], ss[k + 1]);
      }
    }
    assert Path(more);
  }

  lemma LeadsFar(s: System, t: System, u: System)
    requires Leads(s, t) && Leads(t, u)
    ensures Leads(s, u)
  {
    hide HydraSafety.Next;
    var ss: seq<System> :| Path(ss) && ss[0] == s && ss[|ss| - 1] == t;
    var us: seq<System> :| Path(us) && us[0] == t && us[|us| - 1] == u;
    var all := ss + us[1..];
    forall k | 0 <= k < |all| - 1 ensures HydraSafety.Next(all[k], all[k + 1]) {
      if k < |ss| - 1 {
        assert HydraSafety.Next(ss[k], ss[k + 1]);
      } else {
        var j := k - (|ss| - 1);
        assert HydraSafety.Next(us[j], us[j + 1]);
      }
    }
    assert Path(all);
  }

  // One more turn of either station
  lemma TurnA(s: System, t: System, i: Input) returns (u: System)
    requires Leads(s, t) && Deliverable(t.ba, i)
    ensures u == TurnOfA(t, i) && Leads(s, u)
  {
    hide TurnOfA, Leads;
    u := TurnOfA(t, i);
    LeadsOn(s, t, u);
  }

  lemma TurnB(s: System, t: System, i: Input) returns (u: System)
    requires Leads(s, t) && Deliverable(t.ab, i)
    ensures u == TurnOfB(t, i) && Leads(s, u)
  {
    hide TurnOfB, Leads;
    u := TurnOfB(t, i);
    LeadsOn(s, t, u);
  }

  // Nothing goes wrong in a turn.
  function Fair(idle: bool, arrival: Arrival): Input {
    Input(false, false, false, false, false, idle, ReadOk, true, OpenFresh, WriteOk, true, true, arrival)
  }

  // ---------------------------------------------------------------------------
  // A transfer in step
  // ---------------------------------------------------------------------------

  // Both halves of the other transfer wait.
  predicate Alone(s: System) {
    !Finished(s.a) && Quiet(s.a.rx) && !Finished(s.b) && Waits(s.b.tx)
  }

  predicate Open(tx: Sender) {
    tx.open && tx.status == InProcess && tx.window == 0
  }

  predicate Sending(tx: Sender, f: File, pos: nat) {
    && Open(tx) && tx.state == Data && !tx.eofseen && tx.fpos == tx.bytesSent == pos <= |f|
    && PowerOfTwoBlock(tx.blockSize)
  }

  predicate Ending(tx: Sender, f: File) {
    && Open(tx) && (tx.state == Eof || tx.state == EofAck) && tx.tries < 9 && tx.eofseen && tx.bytesSent == |f|
  }

  predicate Taking(rx: Receiver, f: File, pos: nat) {
    && (rx.state == RxData || (rx.state == RxRposAck && pos < |f|))
    && pos <= |f| && rx.disk == f[..pos] && rx.received == pos && rx.total == |f|
  }

  // What does not concern this file stays, and nothing that was sent is forgotten.
  ghost predicate Onward(s: System, t: System) {
    && t.a.file == s.a.file && t.a.rx == s.a.rx && t.b.tx == s.b.tx && t.b.file == s.b.file
    && t.a.halted == s.a.halted && t.b.halted == s.b.halted && t.a.tx.queued == s.a.tx.queued
    && s.ab <= t.ab && s.ba <= t.ba
  }

  // The file has been received, the sender has been told so, and both are ready for the next.
  ghost predicate Delivered(s: System, t: System) {
    && Onward(s, t) && t.b.rx.inbound == s.b.rx.inbound + [s.a.file]
    && t.a.tx.outcome == Some(Success) && !t.a.tx.open && t.a.tx.state == NextFile
    && t.b.rx.state == RxFInfo && t.b.rx.status == Success && !t.a.halted && !t.b.halted
  }

  // A block is sent and taken.
  lemma BlockAccepted(rx: Receiver, f: File, pos: nat, bytes: seq<Byte>, i: Input)
    requires Taking(rx, f, pos) && 0 < |bytes| && pos + |bytes| <= |f| && bytes == f[pos..pos + |bytes|]
            && i.write == WriteOk
    ensures RxTick(rx) == RxStep(rx, [], false)
    ensures var t := RxHandle(rx, PData(pos, bytes), i);
            !t.halt && Taking(t.rx, f, pos + |bytes|) && t.rx.state == RxData && t.rx.inbound == rx.inbound
  {
    assert f[..pos] + f[pos..pos + |bytes|] == f[..pos + |bytes|];
  }

  lemma SendBlock(s: System, t: System, pos: nat) returns (u: System, next: nat)
    requires Leads(s, t) && Alone(t) && Sending(t.a.tx, t.a.file, pos) && Taking(t.b.rx, t.a.file, pos)
            && pos < |t.a.file|
    ensures Leads(s, u) && Alone(u) && Onward(t, u) && pos < next <= |t.a.file|
    ensures Sending(u.a.tx, u.a.file, next) || (next == |t.a.file| && Ending(u.a.tx, u.a.file))
    ensures Taking(u.b.rx, u.a.file, next) && u.b.rx.state == RxData && u.b.rx.inbound == t.b.rx.inbound
  {
    hide Iteration, TxTick, RxTick, RxHandle, Finished, Waits, Quiet, Leads, Taking, RxNoise, Halt;
    var f := t.a.file;
    var i := Fair(true, Silence);
    NextRead(t.a.tx, f, t.a.rx.state, i);
    SenderOnly(t.a, i);
    var v := TurnA(s, t, i);
    var n := Min(t.a.tx.blockSize, |f| - pos);
    var bytes := f[pos..pos + n];
    next := pos + n;
    assert PData(pos, bytes) in v.ab;
    var j := Fair(false, Got(PData(pos, bytes)));
    assert Taking(v.b.rx, f, pos);
    BlockAccepted(v.b.rx, f, pos, bytes, j);
    ReceiverOnly(v.b, j);
    u := TurnB(s, v, j);
    assert Alone(u) by { StillAlone(t, u); }
    assert t.ab <= u.ab && t.ba <= u.ba;
  }

  lemma StillAlone(t: System, u: System)
    requires Alone(t) && u.a.rx == t.a.rx && u.b.tx == t.b.tx && u.a.halted == t.a.halted && u.b.halted == t.b.halted
    requires u.a.tx.state == Data || u.a.tx.state == Eof || u.a.tx.state == EofAck
    requires u.b.rx.state == RxData || u.b.rx.state == RxRpos || u.b.rx.state == RxRposAck
    ensures Alone(u)
  {
  }

  // ---------------------------------------------------------------------------
  // The end of a file
  // ---------------------------------------------------------------------------

  // The end is announced, once more if it has been before.
  lemma EofGoesOut(st: Station, i: Input)
    requires !Finished(st) && Quiet(st.rx) && Ending(st.tx, st.file)
    requires i == Fair(false, Silence).(sendExpired := st.tx.state == EofAck)
    ensures var t := Iteration(st, i);
            t.st == st.(tx := st.tx.(state := EofAck, tries := st.tx.tries + 1)) && t.out == [PEof(|st.file|)]
  {
    hide Finished;
    assert !st.halted by { NotHalted(st); }
  }

  lemma EofTaken(rx: Receiver, f: File, i: Input)
    requires Taking(rx, f, |f|) && i.closeOk
    ensures RxTick(rx) == RxStep(rx, [], false)
    ensures var t := RxHandle(rx, PEof(|f|), i);
            && !t.halt && t.out == [PEofAck] && t.rx.inbound == rx.inbound + [f] && t.rx.state == RxFInfo
            && t.rx.status == Success
  {
    assert f[..|f|] == f;
  }

  lemma AckTaken(tx: Sender, f: File, rx: RxState, i: Input)
    requires Open(tx) && tx.state == EofAck && tx.eofseen
    ensures TxTick(tx, f, rx, i) == TxStep(tx, [], false)
    ensures var t := TxHandle(tx, PEofAck, i).tx;
            t.outcome == Some(Success) && !t.open && t.state == NextFile && t.queued == tx.queued
    ensures TxHandle(tx, PEofAck, i).out == []
  {
  }

  // The end is announced, and the file is moved to the inbound.
  lemma EndHeard(s: System, t: System) returns (w: System)
    requires Leads(s, t) && Alone(t) && Ending(t.a.tx, t.a.file) && Taking(t.b.rx, t.a.file, |t.a.file|)
    ensures Leads(s, w) && Onward(t, w) && PEofAck in w.ba && w.a.tx.state == EofAck && w.a.tx.eofseen && Open(w.a.tx)
    ensures w.b.rx.inbound == t.b.rx.inbound + [t.a.file] && w.b.rx.state == RxFInfo && w.b.rx.status == Success
    ensures !w.a.halted && !w.b.halted && !Finished(w.a) && Quiet(w.a.rx)
  {
    hide Iteration, TxTick, RxTick, RxHandle, Finished, Waits, Quiet, Leads, Taking, RxNoise, Halt;
    var f := t.a.file;
    var i := Fair(false, Silence).(sendExpired := t.a.tx.state == EofAck);
    EofGoesOut(t.a, i);
    var v := TurnA(s, t, i);
    assert PEof(|f|) in v.ab;
    var j := Fair(false, Got(PEof(|f|)));
    EofTaken(t.b.rx, f, j);
    ReceiverOnly(v.b, j);
    w := TurnB(s, v, j);
    assert PEofAck in w.ba;
    NotHalted(t.a);
    NotHalted(t.b);
    EofUnfinished(t.a, w.a);
    assert t.ab <= w.ab && t.ba <= w.ba;
  }

  lemma EndSent(s: System, t: System) returns (u: System)
    requires Leads(s, t) && Alone(t) && Ending(t.a.tx, t.a.file) && Taking(t.b.rx, t.a.file, |t.a.file|)
    ensures Leads(s, u) && Delivered(t, u)
  {
    hide Iteration, TxTick, TxHandle, Finished, Waits, Quiet, Leads, Taking, Alone, Ending;
    var w := EndHeard(s, t);
    var k := Fair(false, Got(PEofAck));
    AckTaken(w.a.tx, w.a.file, w.a.rx.state, k);
    SenderOnly(w.a, k);
    u := TurnA(s, w, k);
  }

  lemma EofUnfinished(st: Station, t: Station)
    requires !Finished(st) && t.halted == st.halted && t.tx.state == EofAck
    ensures !Finished(t)
  {
  }

  // The last read finds nothing.
  lemma EndFound(s: System, t: System) returns (u: System)
    requires Leads(s, t) && Alone(t) && Sending(t.a.tx, t.a.file, |t.a.file|) && Taking(t.b.rx, t.a.file, |t.a.file|)
    ensures Leads(s, u) && Alone(u) && Onward(t, u) && u.b == t.b && Ending(u.a.tx, u.a.file)
  {
    hide Iteration, TxTick, RxTick, RxHandle, Finished, Waits, Quiet, Leads, RxNoise, Halt;
    var i := Fair(true, Silence);
    NextRead(t.a.tx, t.a.file, t.a.rx.state, i);
    SenderOnly(t.a, i);
    u := TurnA(s, t, i);
    assert Alone(u) by { StillAlone(t, u); }
  }

  // A transfer in step is brought to its end.
  lemma {:induction false} BroughtToEnd(s: System, t: System, pos: nat) returns (u: System)
    requires Leads(s, t) && Alone(t) && Sending(t.a.tx, t.a.file, pos) && Taking(t.b.rx, t.a.file, pos)
    ensures Leads(s, u) && Delivered(t, u)
    decreases |t.a.file| - pos
  {
    hide Leads, Sending, Ending, Taking, Alone;
    if pos < SizeOf(t) {
      var v, next := SendBlock(s, t, pos);
      if Sending(v.a.tx, v.a.file, next) {
        u := BroughtToEnd(s, v, next);
      } else {
        u := EndSent(s, v);
      }
    } else {
      assert pos == |t.a.file| by { AtMost(t, pos); }
      var v := EndFound(s, t);
      u := EndSent(s, v);
    }
  }

  function SizeOf(t: System): nat {
    |t.a.file|
  }

  lemma AtMost(t: System, pos: nat)
    requires Sending(t.a.tx, t.a.file, pos)
    ensures pos <= |t.a.file|
  {
  }

  // ---------------------------------------------------------------------------
  // Recovery
  // ---------------------------------------------------------------------------

  // A file is being sent and received, the other transfer waits, and no last try is at hand.
  predicate Underway(s: System) {
    && Alone(s) && s.b.rx.state == RxData && s.a.tx.open && s.a.tx.status == InProcess
    && (s.a.tx.state == Data || ((s.a.tx.state == Eof || s.a.tx.state == EofAck) && s.a.tx.tries < 9))
  }

  // What the invariant says about it
  ghost predicate Sorted(s: System) {
    && Open(s.a.tx) && PositionOk(s.a.file, s.a.tx.fpos, s.a.tx.bytesSent, s.a.tx.eofseen, s.a.tx.blockSize, false)
    && (s.a.tx.state == Eof || s.a.tx.state == EofAck ==> s.a.tx.eofseen)
    && s.a.tx.rposId <= s.b.rx.rposId && s.b.rx.rposId >= 100
    && Taking(s.b.rx, s.a.file, |s.b.rx.disk|)
  }

  lemma UnderwaySorted(s: System)
    requires Reachable(s) && Underway(s)
    ensures Sorted(s)
  {
    hide Both, HydraSafety.Next, Initial, GoodForward, GoodBackward, Alone, Tame;
    ReachableInvariant(s);
    BothSwaps(s.a, s.b, s.ab, s.ba);
    BothOk(s.a, s.b, s.ab, s.ba);
    BothOk(s.b, s.a, s.ba, s.ab);
    var trace: seq<System> :| Run(trace) && trace[|trace| - 1] == s;
    RunTames(trace, |trace| - 1);
    assert Tame(s.a.tx, s.b.rx, s.ba);
    TameFacts(s.a.tx, s.b.rx, s.ba);
  }

  lemma TameFacts(tx: Sender, rx: Receiver, back: Net)
    requires Tame(tx, rx, back)
    ensures tx.window == 0 && tx.rposId <= rx.rposId && rx.rposId >= 100
  {
  }

  // The rest of the file is read, whatever becomes of it.
  lemma {:induction false} ReadsToEnd(s: System, t: System) returns (u: System)
    requires Leads(s, t) && Alone(t) && Open(t.a.tx) && t.a.tx.state == Data
    requires PositionOk(t.a.file, t.a.tx.fpos, t.a.tx.bytesSent, t.a.tx.eofseen, t.a.tx.blockSize, false)
    ensures Leads(s, u) && Alone(u) && Onward(t, u) && u.b == t.b && Ending(u.a.tx, u.a.file)
    decreases |t.a.file| - t.a.tx.fpos
  {
    hide Iteration, TxTick, Finished, Waits, Quiet, Leads, Halt;
    var i := Fair(true, Silence);
    var f := t.a.file;
    if t.a.tx.eofseen {
      EndKnown(t.a.tx, f, t.a.rx.state, i);
    } else {
      NextRead(t.a.tx, f, t.a.rx.state, i);
    }
    SenderOnly(t.a, i);
    var v := TurnA(s, t, i);
    assert Alone(v) by { AloneOn(t, v); }
    if v.a.tx.state == Data {
      u := ReadsToEnd(s, v);
    } else {
      u := v;
    }
  }

  lemma EndKnown(tx: Sender, f: File, rx: RxState, i: Input)
    requires tx.state == Data && tx.eofseen
    ensures TxTick(tx, f, rx, i) == TxStep(tx.(tries := 0, state := Eof), [], false)
  {
  }

  lemma AloneOn(t: System, u: System)
    requires Alone(t) && u.a.rx == t.a.rx && u.b == t.b && u.a.halted == t.a.halted
    requires u.a.tx.state == Data || u.a.tx.state == Eof || u.a.tx.state == EofAck
    ensures Alone(u)
  {
  }

  // A damaged packet: the receiver asks for what comes next, under a new id.
  lemma AsksAgain(rx: Receiver, f: File)
    requires rx.state == RxData && Taking(rx, f, |rx.disk|)
    ensures RxTick(rx) == RxStep(rx, [], false)
    ensures var r := RxNoise(rx);
            var t := RxTick(r);
            && r == rx.(state := RxRpos, rposId := rx.rposId + 1, tries := 0, blockSize := r.blockSize)
            && !t.halt && t.rx == r.(tries := 1, state := RxRposAck)
            && Asks(t.out, rx.received, rx.rposId + 1)
  {
  }

  // The request to go on from an offset
  predicate Asks(out: seq<Packet>, pos: int, id: int) {
    |out| == 1 && out[0].PRpos? && out[0].rpos == pos && out[0].id == id && out[0].block > 0
  }

  // The transmitter, unless it gives up just then, hears the request in one of these states.
  lemma StillSends(tx: Sender, f: File, rx: RxState, i: Input)
    requires Open(tx) && !i.outIdle && (tx.state == Data || ((tx.state == Eof || tx.state == EofAck) && tx.tries < 9))
    ensures var t := TxTick(tx, f, rx, i);
            && !t.halt && Sends(t.tx.state) && Open(t.tx) && t.tx.rposId == tx.rposId
            && t.tx.blockSize == tx.blockSize && t.tx.queued == tx.queued
  {
    hide EofOffset;
  }

  lemma NoiseHeard(s: System, t: System) returns (u: System)
    requires Leads(s, t) && Underway(t) && Sorted(t)
    ensures u == TurnOfB(t, Fair(false, Noise)) && Leads(s, u) && u == t.(b := t.b.(rx := RxNoise(t.b.rx)))
    ensures Alone(u) && Onward(t, u)
  {
    hide Iteration, RxTick, Finished, Waits, Quiet, Leads, RxNoise, RxHandle, Halt, TxTick;
    AsksAgain(t.b.rx, t.a.file);
    ReceiverOnly(t.b, Fair(false, Noise));
    u := TurnB(s, t, Fair(false, Noise));
    assert Sent(t.ba, []) == t.ba by { NothingSent(t.ba); }
    assert Alone(u) by { StillAlone(t, u); }
  }

  lemma NothingSent(net: Net)
    ensures Sent(net, []) == net
  {
  }

  // From there on, the request is sent and heard, and both are in step.
  lemma Resynced(s: System, t: System, u: System) returns (v: System)
    requires Leads(s, u) && Underway(t) && Sorted(t) && Alone(u) && u == t.(b := t.b.(rx := RxNoise(t.b.rx)))
    requires |t.b.rx.disk| < |t.a.file|
    ensures Leads(s, v) && Alone(v) && Onward(u, v) && v.b.rx.inbound == t.b.rx.inbound
    ensures Sending(v.a.tx, t.a.file, |t.b.rx.disk|) && Taking(v.b.rx, t.a.file, |t.b.rx.disk|)
  {
    hide Iteration, RxTick, Finished, Waits, Quiet, Leads, RxNoise, RxHandle, Halt, TxTick;
    AsksAgain(t.b.rx, t.a.file);
    var j := Fair(false, Silence);
    ReceiverOnly(u.b, j);
    var w := TurnB(s, u, j);
    var pos, id := |t.b.rx.disk|, t.b.rx.rposId + 1;
    var block := RxTick(u.b.rx).out[0].block;
    assert RxTick(u.b.rx).out[0] == PRpos(pos, block, id) && RxTick(u.b.rx).out[0] in w.ba;
    var k := Fair(false, Got(PRpos(pos, block, id)));
    StillSends(w.a.tx, w.a.file, w.a.rx.state, k);
    RequestHeard(w.a, k, pos, block, id);
    v := TurnA(s, w, k);
    assert Alone(v) by { StillAlone(u, v); }
  }

  // The main result: from every state that can be reached with a transfer under way, some
  // series of turns ends with the file in the inbound and SUCCESS on record.
  lemma Recovers(s: System) returns (u: System)
    requires Reachable(s) && Underway(s)
    ensures Leads(s, u) && Delivered(s, u)
  {
    hide Leads, Alone, Taking, Sending, Ending, RxNoise, TurnOfB, PositionOk;
    LeadsHere(s);
    UnderwaySorted(s);
    assert Alone(s) && |s.b.rx.disk| <= |s.a.file| && Taking(s.b.rx, s.a.file, |s.b.rx.disk|) by { WithinFile(s); }
    if |s.b.rx.disk| < |s.a.file| {
      var t := NoiseHeard(s, s);
      var v := Resynced(s, s, t);
      u := BroughtToEnd(s, v, |s.b.rx.disk|);
    } else if s.a.tx.state == Data {
      var t := ReadsToEnd(s, s);
      u := EndSent(s, t);
    } else {
      assert Ending(s.a.tx, s.a.file) by { AtEnd(s); }
      u := EndSent(s, s);
    }
  }

  lemma WithinFile(s: System)
    requires Underway(s) && Sorted(s)
    ensures Alone(s) && |s.b.rx.disk| <= |s.a.file| && Taking(s.b.rx, s.a.file, |s.b.rx.disk|)
  {
  }

  lemma AtEnd(s: System)
    requires Underway(s) && Sorted(s) && s.a.tx.state != Data
    ensures Ending(s.a.tx, s.a.file)
  {
  }

  // ---------------------------------------------------------------------------
  // A request at the end of the file is never answered.
  // ---------------------------------------------------------------------------

  predicate Doomed(rx: Receiver, f: File) {
    (rx.state == RxRpos || rx.state == RxRposAck) && rx.received == |f|
  }

  // Whatever arrives, the receiver goes on asking.
  lemma DoomedHears(rx: Receiver, f: File, p: Packet, i: Input)
    requires Doomed(rx, f) && GoodForward(f, p)
    ensures var t := RxHandle(rx, p, i); Doomed(t.rx, f) && t.rx.inbound == rx.inbound
    ensures Doomed(RxNoise(rx), f) && RxNoise(rx).inbound == rx.inbound
  {
    hide RxWrite;
  }

  lemma DoomedSwitches(st: Station, f: File, i: Input)
    requires Doomed(st.rx, f)
    ensures Doomed(TimersTurn(st, i).rx, f) && TimersTurn(st, i).rx.inbound == st.rx.inbound
    ensures Doomed(TxTurn(st, i).st.rx, f) && TxTurn(st, i).st.rx.inbound == st.rx.inbound
    ensures Doomed(RxTurn(st).st.rx, f) && RxTurn(st).st.rx.inbound == st.rx.inbound
    ensures Doomed(Halt(st).rx, f) && Halt(st).rx.inbound == st.rx.inbound
  {
    hide TxTick, Halve, TxTimer;
  }

  lemma DoomedArrival(st: Station, f: File, i: Input)
    requires Doomed(st.rx, f) && (i.arrival.Got? ==> GoodForward(f, i.arrival.packet))
    ensures Doomed(ArrivalTurn(st, i).st.rx, f) && ArrivalTurn(st, i).st.rx.inbound == st.rx.inbound
  {
    hide TxHandle, RxHandle, RxNoise, Halt, Doomed, GoodForward;
    DoomedSwitches(st, f, i);
    if i.arrival.Got? {
      var p := i.arrival.packet;
      DoomedHears(st.rx, f, p, i);
      DoomedSwitches(st.(tx := TxHandle(TxWindow(st, p, i), p, i).tx, rx := RxHandle(st.rx, p, i).rx), f, i);
    } else {
      DoomedNoise(st.rx, f);
    }
  }

  lemma DoomedNoise(rx: Receiver, f: File)
    requires Doomed(rx, f)
    ensures Doomed(RxNoise(rx), f) && RxNoise(rx).inbound == rx.inbound
  {
  }

  lemma DoomedTurn(st: Station, f: File, i: Input)
    requires Doomed(st.rx, f) && (i.arrival.Got? ==> GoodForward(f, i.arrival.packet))
    ensures Doomed(Iteration(st, i).st.rx, f) && Iteration(st, i).st.rx.inbound == st.rx.inbound
  {
    hide TimersTurn, TxTurn, RxTurn, ArrivalTurn, Halt, Doomed, GoodForward, Finished;
    var s0 := TimersTurn(st, i);
    var t := TxTurn(s0, i);
    DoomedSwitches(st, f, i);
    DoomedSwitches(s0, f, i);
    DoomedSwitches(t.st, f, i);
    DoomedArrival(RxTurn(t.st).st, f, i);
  }

  lemma {:induction false} DoomedStays(ss: seq<System>, k: nat)
    requires Path(ss) && k < |ss| && Invariant(ss[0]) && Doomed(ss[0].b.rx, ss[0].a.file)
    ensures Invariant(ss[k]) && ss[k].a.file == ss[0].a.file
    ensures Doomed(ss[k].b.rx, ss[k].a.file) && ss[k].b.rx.inbound == ss[0].b.rx.inbound
    decreases k
  {
    hide Iteration, Both, Doomed, GoodForward, GoodBackward, TxOk, RxOk;
    if k > 0 {
      DoomedStays(ss, k - 1);
      var s, t := ss[k - 1], ss[k - 1 + 1];
      assert HydraSafety.Next(s, t);
      NextKeeps(s, t);
      if i: Input :| Deliverable(s.ba, i) && t == TurnOfA(s, i) {
      } else {
        var i: Input :| Deliverable(s.ab, i) && t == TurnOfB(s, i);
        BothSwaps(s.a, s.b, s.ab, s.ba);
        BothOk(s.b, s.a, s.ba, s.ab);
        DoomedTurn(s.b, s.a.file, i);
      }
    }
  }

  // A damaged packet in a transfer under way: it can still be completed if and only if not
  // all of the file has arrived by then.
  lemma DamagedPacket(s: System)
    requires Reachable(s) && Underway(s)
    ensures var t := TurnOfB(s, Fair(false, Noise));
            (exists u :: Leads(t, u) && Delivered(s, u)) <==> |s.b.rx.disk| < |s.a.file|
  {
    hide Leads, Underway, Sorted, TurnOfB, RxNoise, Sending, Taking, Alone, Path;
    UnderwaySorted(s);
    LeadsHere(s);
    var t := NoiseHeard(s, s);
    LeadsHere(t);
    if |s.b.rx.disk| < |s.a.file| {
      var v := Resynced(t, s, t);
      var u := BroughtToEnd(t, v, |s.b.rx.disk|);
      assert Delivered(s, u);
    } else {
      AllArrived(s);
      assert Invariant(t) by { InvariantOn(s, t); }
      forall u | Leads(t, u) ensures u.b.rx.inbound == s.b.rx.inbound {
        NothingMore(t, u);
      }
    }
  }

  lemma InvariantOn(s: System, t: System)
    requires Reachable(s) && t == TurnOfB(s, Fair(false, Noise))
    ensures Invariant(t)
  {
    hide Invariant, TurnOfB;
    ReachableInvariant(s);
    assert Deliverable(s.ab, Fair(false, Noise));
    NextKeeps(s, t);
  }

  lemma AllArrived(s: System)
    requires Underway(s) && Sorted(s) && |s.b.rx.disk| >= |s.a.file|
    ensures Doomed(RxNoise(s.b.rx), s.a.file) && RxNoise(s.b.rx).inbound == s.b.rx.inbound
  {
  }

  lemma NothingMore(t: System, u: System)
    requires Invariant(t) && Doomed(t.b.rx, t.a.file) && Leads(t, u)
    ensures u.b.rx.inbound == t.b.rx.inbound
  {
    hide Invariant, Doomed, HydraSafety.Next;
    var ss: seq<System> :| Path(ss) && ss[0] == t && ss[|ss| - 1] == u;
    DoomedStays(ss, |ss| - 1);
  }
}
