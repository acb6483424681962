// Whole sessions of two Hydra stations, for every file: it crosses from whatever an earlier
// session has left of it, and the batch ends; or it is refused, or skipped.
module HydraSessions {
  import opened Wrappers
  import opened Crc
  import opened Files
  import opened HydraSession
  import opened HydraSafety
  import opened HydraOutcome
  import opened HydraProgress
  import opened HydraHandshake
  import opened HydraRecovery

  // The file is on offer.
  predicate Offering(s: System, f: File, left: seq<Byte>) {
    && !s.a.halted && !s.b.halted && s.a.file == f && s.b.file == []
    && s.a.tx == NewSender(true).(queued := false, open := true, state := FInfoAck, tries := 1)
    && s.b.tx == NewSender(false).(state := InitAck, tries := 1)
    && s.a.rx == NewReceiver([]).(state := RxFInfo) && s.b.rx == NewReceiver(left).(state := RxFInfo)
    && PInitAck in s.ab && PFileInfo(|f|) in s.ab
  }

  lemma Offered(f: File, left: seq<Byte>) returns (s: System)
    requires left <= f
    ensures Reachable(s) && Offering(s, f, left)
  {
    hide Reachable, RxDataPacket, RxEof, RxFileInfo, TxData, TxEofAck, TxFInfoAck, TxDataAck, TxRpos, Halt;
    var s7 := Handshake(f, left);
    var s8 := TurnOfA(s7, Calm(Silence));
    StepOfA(s7, Calm(Silence));
    s := TurnOfA(s8, Calm(Silence));
    StepOfA(s8, Calm(Silence));
  }

  lemma ReachableOn(s: System, t: System)
    requires Reachable(s) && Leads(s, t)
    ensures Reachable(t)
  {
    hide HydraSafety.Next, Initial;
    var trace: seq<System> :| Run(trace) && trace[|trace| - 1] == s;
    var ss: seq<System> :| Path(ss) && ss[0] == s && ss[|ss| - 1] == t;
    var all := trace + ss[1..];
    forall k | 0 <= k < |all| - 1 ensures HydraSafety.Next(all[k], all[k + 1]) {
      if k < |trace| - 1 {
        assert HydraSafety.Next(trace[k], trace[k + 1]);
      } else {
        var j := k - (|trace| - 1);
        assert HydraSafety.Next(ss[j], ss[j + 1]);
      }
    }
    assert Run(all);
  }

  // ---------------------------------------------------------------------------
  // The answer to an offer
  // ---------------------------------------------------------------------------

  // What is answered, and what becomes of the file
  lemma OfferAnswered(rx: Receiver, f: File, i: Input)
    requires rx.state == RxFInfo && rx.status == InProcess && rx.disk <= f
    requires i.open.OpenKept? ==> |rx.disk| < |f|
    ensures RxTick(rx) == RxStep(rx, [], false)
    ensures var t := RxHandle(rx, PFileInfo(|f|), i);
            && !t.halt && t.rx.inbound == rx.inbound
            && match i.open
               case OpenFresh => Taking(t.rx, f, 0) && t.out == [PFInfoAck(0)] && t.rx.state == RxData
               case OpenKept(_) => Taking(t.rx, f, |rx.disk|) && t.out == [PFInfoAck(|rx.disk|)] && t.rx.state == RxData
               case OpenRefuse => t.rx == rx.(status := Refused) && t.out == [PFInfoAck(-2)]
               case OpenSkip => t.rx == rx.(status := Skipped) && t.out == [PFInfoAck(-1)]
  {
  }

  lemma AnswerHeard(tx: Sender, f: File, rx: RxState, ack: int, i: Input)
    requires tx == NewSender(true).(queued := false, open := true, state := FInfoAck, tries := 1) && i.seekOk
    requires -2 <= ack <= |f|
    ensures TxTick(tx, f, rx, i) == TxStep(tx, [], false)
    ensures var t := TxHandle(tx, PFInfoAck(ack), i);
            && t.out == [] && !t.halt && t.tx.queued == tx.queued
            && if ack >= 0 then Sending(t.tx, f, ack)
               else !t.tx.open && t.tx.state == NextFile && t.tx.outcome == Some(if ack == -1 then Skipped else Refused)
  {
  }

  // The offer is answered, and the answer heard.
  lemma Agreed(s: System, f: File, left: seq<Byte>, open: OpenOutcome) returns (t: System, ack: int)
    requires Reachable(s) && Offering(s, f, left) && left <= f && (open.OpenKept? ==> |left| < |f|)
    ensures Reachable(t) && Onward(s, t) && t.b.rx.inbound == []
    ensures ack == match open
                   case OpenFresh => 0
                   case OpenKept(_) => |left|
                   case OpenRefuse => -2
                   case OpenSkip => -1
    ensures if ack >= 0 then Alone(t) && Sending(t.a.tx, f, ack) && Taking(t.b.rx, f, ack) && t.b.rx.state == RxData
            else !t.a.tx.open && t.a.tx.state == NextFile
                 && t.a.tx.outcome == Some(if ack == -1 then Skipped else Refused) && t.b.rx.state == RxFInfo
                 && t.b.rx.disk == left
  {
    hide Iteration, TxTick, RxTick, TxHandle, RxHandle, RxNoise, Halt, Reachable, Taking, Sending;
    var i := Fair(false, Got(PFileInfo(|f|))).(open := open);
    OfferAnswered(s.b.rx, f, i);
    ReceiverOnly(s.b, i);
    var v := TurnOfB(s, i);
    StepOfB(s, i);
    ack := RxHandle(s.b.rx, PFileInfo(|f|), i).out[0].ack;
    assert PFInfoAck(ack) in v.ba;
    var j := Fair(false, Got(PFInfoAck(ack)));
    AnswerHeard(v.a.tx, f, v.a.rx.state, ack, j);
    SenderOnly(v.a, j);
    t := TurnOfA(v, j);
    StepOfA(v, j);
    if ack >= 0 {
      assert Alone(t) by { SendingAlone(s, t, ack); }
    }
    assert s.ab <= t.ab && s.ba <= t.ba;
  }

  lemma SendingAlone(s: System, t: System, pos: nat)
    requires !s.a.halted && !s.b.halted && t.a.halted == s.a.halted && t.b.halted == s.b.halted
    requires Sending(t.a.tx, t.a.file, pos) && t.b.tx == s.b.tx && s.b.tx.state == InitAck
    requires t.a.rx.state == RxFInfo
    ensures Alone(t)
  {
  }

  // ---------------------------------------------------------------------------
  // A file crosses
  // ---------------------------------------------------------------------------

  // From the beginning, or from where an earlier session has stopped
  lemma Crossing(f: File, left: seq<Byte>, open: OpenOutcome) returns (s: System)
    requires left <= f && (open.OpenFresh? || (open.OpenKept? && |left| < |f|))
    ensures Reachable(s) && s.a.file == f && s.b.rx.inbound == [f] && s.b.rx.state == RxFInfo
            && s.b.rx.status == Success
    ensures s.a.tx.outcome == Some(Success) && !s.a.tx.open && !s.a.tx.queued && s.a.tx.state == NextFile
    ensures s.a.rx == NewReceiver([]).(state := RxFInfo) && s.b.tx == NewSender(false).(state := InitAck, tries := 1)
    ensures !s.a.halted && !s.b.halted && s.b.file == [] && PInitAck in s.ab
  {
    hide Reachable, Leads, Sending, Taking, Alone;
    var s1 := Offered(f, left);
    var s2, ack := Agreed(s1, f, left, open);
    LeadsHere(s2);
    s := BroughtToEnd(s2, s2, ack);
    ReachableOn(s2, s);
    assert [] + [f] == [f];
  }

  // A file that is refused or skipped is recorded as that, and nothing of it is received.
  lemma NotWanted(f: File, left: seq<Byte>, open: OpenOutcome)
    requires left <= f && (open.OpenRefuse? || open.OpenSkip?)
    ensures exists s :: Reachable(s) && s.a.file == f && s.b.rx.inbound == [] && s.b.rx.disk == left && !s.a.tx.open
              && s.a.tx.outcome == Some(if open.OpenSkip? then Skipped else Refused)
  {
    hide Reachable, Sending, Taking, Alone;
    var s1 := Offered(f, left);
    var s, ack := Agreed(s1, f, left, open);
  }

  // What an earlier session has received whole is moved to the inbound, and not sent again.
  lemma CompleteLeftover(rx: Receiver, total: nat, i: Input)
    requires rx.state == RxFInfo && rx.status == InProcess && |rx.disk| == total && i.open.OpenKept?
    ensures var t := RxHandle(rx, PFileInfo(total), i);
            && !t.halt && t.rx.state == RxFInfo
            && if i.open.moved then t.rx.inbound == rx.inbound + [rx.disk] && t.rx.status == Skipped
                && t.out == [PFInfoAck(-1)]
               else t.rx.inbound == rx.inbound && t.rx.status == Refused && t.rx.failed && t.out == [PFInfoAck(-2)]
  {
  }

  // An offer that is repeated is answered as before; in the middle of a file it is ignored, and
  // behind the end of the batch refused.
  lemma OfferRepeated(rx: Receiver, total: nat, i: Input)
    ensures var t := RxHandle(rx, PFileInfo(total), i);
            && (rx.state == RxFInfo && rx.status == Skipped ==> t.rx == rx && t.out == [PFInfoAck(-1)])
            && (rx.state == RxFInfo && rx.status == Refused ==> t.rx == rx && t.out == [PFInfoAck(-2)])
            && (rx.state == RxDone ==> t.rx == rx && t.out == [PFInfoAck(-2)])
            && (rx.state != RxFInfo && rx.state != RxDone ==> t.rx == rx && t.out == [])
    ensures rx.state == RxDone ==> RxHandle(rx, PEndOfBatch, i) == RxStep(rx, [PFInfoAck(-2)], false)
    ensures rx.state != RxFInfo && rx.state != RxDone ==> RxHandle(rx, PEndOfBatch, i) == RxStep(rx, [], false)
  {
  }

  // ---------------------------------------------------------------------------
  // The end of a batch
  // ---------------------------------------------------------------------------

  // Turns of a station whose other half is quiet, with what comes of them
  lemma TxTurnA(s: System, arrival: Arrival) returns (t: System)
    requires Reachable(s) && (arrival.Got? ==> arrival.packet in s.ba)
    requires !Finished(s.a) && Quiet(s.a.rx) && ForSender(arrival) && !arrival.Noise?
    requires !TxTick(s.a.tx, s.a.file, s.a.rx.state, Fair(false, arrival)).halt
    ensures Reachable(t)
    ensures var i := Fair(false, arrival);
            var u := TxTick(s.a.tx, s.a.file, s.a.rx.state, i);
            var v := if arrival.Got? then TxHandle(u.tx, arrival.packet, i) else TxStep(u.tx, [], false);
            t == s.(a := s.a.(tx := v.tx), ab := Sent(s.ab, u.out + v.out))
  {
    hide Reachable, TxTick, TxHandle, Iteration, Finished, Quiet;
    var i := Fair(false, arrival);
    SenderOnly(s.a, i);
    t := TurnOfA(s, i);
    StepOfA(s, i);
    var u := TxTick(s.a.tx, s.a.file, s.a.rx.state, i);
    assert u.out + [] == u.out;
  }

  lemma TxTurnB(s: System, arrival: Arrival) returns (t: System)
    requires Reachable(s) && (arrival.Got? ==> arrival.packet in s.ab)
    requires !Finished(s.b) && Quiet(s.b.rx) && ForSender(arrival) && !arrival.Noise?
    requires !TxTick(s.b.tx, s.b.file, s.b.rx.state, Fair(false, arrival)).halt
    ensures Reachable(t)
    ensures var i := Fair(false, arrival);
            var u := TxTick(s.b.tx, s.b.file, s.b.rx.state, i);
            var v := if arrival.Got? then TxHandle(u.tx, arrival.packet, i) else TxStep(u.tx, [], false);
            t == s.(b := s.b.(tx := v.tx), ba := Sent(s.ba, u.out + v.out))
  {
    hide Reachable, TxTick, TxHandle, Iteration, Finished, Quiet;
    var i := Fair(false, arrival);
    SenderOnly(s.b, i);
    t := TurnOfB(s, i);
    StepOfB(s, i);
    var u := TxTick(s.b.tx, s.b.file, s.b.rx.state, i);
    assert u.out + [] == u.out;
  }

  // The end of the other's batch is heard.
  lemma EndHeardByA(s: System) returns (t: System)
    requires Reachable(s) && PEndOfBatch in s.ba && !Finished(s.a) && s.a.rx.state == RxFInfo && s.a.tx.state == Rend
    ensures Reachable(t) && t == s.(a := s.a.(rx := s.a.rx.(state := RxDone)), ab := Sent(s.ab, [PFInfoAck(0)]))
  {
    hide Reachable, Iteration, Finished;
    var i := Fair(false, Got(PEndOfBatch));
    ReceiverTurns(s.a, i);
    t := TurnOfA(s, i);
    StepOfA(s, i);
  }

  lemma EndHeardByB(s: System) returns (t: System)
    requires Reachable(s) && PEndOfBatch in s.ab && !Finished(s.b) && s.b.rx.state == RxFInfo && s.b.tx.state == InitAck
    ensures Reachable(t) && t == s.(b := s.b.(rx := s.b.rx.(state := RxDone)), ba := Sent(s.ba, [PFInfoAck(0)]))
  {
    hide Reachable, Iteration, Finished;
    var i := Fair(false, Got(PEndOfBatch));
    ReceiverTurns(s.b, i);
    t := TurnOfB(s, i);
    StepOfB(s, i);
  }

  // What a transmitter does of itself behind its last file
  lemma LastTicks(tx: Sender, f: File, rx: RxState, i: Input)
    ensures var t := TxTick(tx, f, rx, i);
            && (Waits(tx) && !i.outIdle ==> t == TxStep(tx, [], false))
            && (tx.state == RInit && rx != RxInit ==> t == TxStep(tx.(state := NextFile), [], false))
            && (tx.state == NextFile && !tx.open && !tx.queued ==>
                  t == TxStep(tx.(eob := true, tries := 1, state := FInfoAck), [PEndOfBatch], false))
            && (tx.state == Rend && rx != RxDone && !i.idleDue ==> t == TxStep(tx, [], false))
            && (tx.state == Rend && rx == RxDone ==> t == TxStep(tx.(tries := 0, state := End), [], false))
            && (tx.state == End && tx.tries < 9 ==>
                  t == TxStep(tx.(tries := tx.tries + 1, state := EndAck), [PEnd], false))
  {
  }

  // And what it makes of the answers
  lemma LastAnswers(tx: Sender, i: Input)
    ensures tx.state == InitAck ==> TxHandle(tx, PInitAck, i) == TxStep(tx.(tries := 0, state := RInit), [], false)
    ensures tx.state == FInfoAck && tx.eob ==>
              TxHandle(tx, PFInfoAck(0), i) == TxStep(tx.(tries := 0, state := Rend), [], false)
    ensures tx.state == EndAck ==>
              TxHandle(tx, PEnd, i) == TxStep(tx.(tries := 0, state := TxDone), [PEnd, PEnd, PEnd], false)
  {
  }

  // The second station has nothing to send, and the first has sent its file.
  lemma BatchEnds(s: System) returns (t: System)
    requires Reachable(s) && !s.a.halted && !s.b.halted && PInitAck in s.ab
    requires s.a.tx.state == NextFile && !s.a.tx.open && !s.a.tx.queued && s.a.rx.state == RxFInfo
    requires s.b.tx == NewSender(false).(state := InitAck, tries := 1) && s.b.rx.state == RxFInfo
    ensures Reachable(t) && !t.a.halted && !t.b.halted && Finished(t.a) && Finished(t.b)
    ensures t.a.tx.outcome == s.a.tx.outcome && t.b.rx.inbound == s.b.rx.inbound && t.a.file == s.a.file
  {
    hide Reachable, TxTick, TxHandle;
    LastTicks(s.a.tx, s.a.file, s.a.rx.state, Fair(false, Silence));
    var s1 := TxTurnA(s, Silence);
    assert PEndOfBatch in s1.ab && PInitAck in s1.ab;
    var s2 := EndHeardByB(s1);
    assert PFInfoAck(0) in s2.ba;
    LastTicks(s2.a.tx, s2.a.file, s2.a.rx.state, Fair(false, Got(PFInfoAck(0))));
    LastAnswers(s2.a.tx, Fair(false, Got(PFInfoAck(0))));
    var s3 := TxTurnA(s2, Got(PFInfoAck(0)));
    var s4 := SecondEnds(s3);
    t := BothEnd(s4);
  }

  lemma SecondEnds(s: System) returns (t: System)
    requires Reachable(s) && !s.a.halted && !s.b.halted && PInitAck in s.ab
    requires s.a.tx.state == Rend && s.a.tx.tries == 0 && s.a.rx.state == RxFInfo
    requires s.b.tx == NewSender(false).(state := InitAck, tries := 1) && s.b.rx.state == RxDone
    ensures Reachable(t) && !t.a.halted && !t.b.halted && t.a.tx == s.a.tx && t.b.rx == s.b.rx && t.a.file == s.a.file
    ensures t.b.tx.state == Rend && t.b.tx.tries == 0 && t.a.rx.state == RxDone
  {
    hide Reachable, TxTick, TxHandle;
    LastTicks(s.b.tx, s.b.file, s.b.rx.state, Fair(false, Got(PInitAck)));
    LastAnswers(s.b.tx, Fair(false, Got(PInitAck)));
    var s1 := TxTurnB(s, Got(PInitAck));
    LastTicks(s1.b.tx, s1.b.file, s1.b.rx.state, Fair(false, Silence));
    var s2 := TxTurnB(s1, Silence);
    LastTicks(s2.b.tx, s2.b.file, s2.b.rx.state, Fair(false, Silence));
    var s3 := TxTurnB(s2, Silence);
    assert PEndOfBatch in s3.ba;
    var s4 := EndHeardByA(s3);
    assert PFInfoAck(0) in s4.ab;
    LastTicks(s4.b.tx, s4.b.file, s4.b.rx.state, Fair(false, Got(PFInfoAck(0))));
    LastAnswers(s4.b.tx, Fair(false, Got(PFInfoAck(0))));
    t := TxTurnB(s4, Got(PFInfoAck(0)));
  }

  lemma BothEnd(s: System) returns (t: System)
    requires Reachable(s) && !s.a.halted && !s.b.halted
    requires s.a.tx.state == Rend && s.b.tx.state == Rend && s.a.tx.tries == s.b.tx.tries == 0
    requires s.a.rx.state == RxDone && s.b.rx.state == RxDone
    ensures Reachable(t) && !t.a.halted && !t.b.halted && Finished(t.a) && Finished(t.b)
    ensures t.a.tx.outcome == s.a.tx.outcome && t.b.rx.inbound == s.b.rx.inbound && t.a.file == s.a.file
  {
    hide Reachable, TxTick, TxHandle;
    LastTicks(s.a.tx, s.a.file, s.a.rx.state, Fair(false, Silence));
    var s1 := TxTurnA(s, Silence);
    LastTicks(s1.a.tx, s1.a.file, s1.a.rx.state, Fair(false, Silence));
    var s2 := TxTurnA(s1, Silence);
    assert PEnd in s2.ab;
    LastTicks(s2.b.tx, s2.b.file, s2.b.rx.state, Fair(false, Silence));
    var s3 := TxTurnB(s2, Silence);
    LastTicks(s3.b.tx, s3.b.file, s3.b.rx.state, Fair(false, Silence));
    var s4 := TxTurnB(s3, Silence);
    assert PEnd in s4.ba && PEnd in s4.ab;
    LastTicks(s4.a.tx, s4.a.file, s4.a.rx.state, Fair(false, Got(PEnd)));
    LastAnswers(s4.a.tx, Fair(false, Got(PEnd)));
    var s5 := TxTurnA(s4, Got(PEnd));
    LastTicks(s5.b.tx, s5.b.file, s5.b.rx.state, Fair(false, Got(PEnd)));
    LastAnswers(s5.b.tx, Fair(false, Got(PEnd)));
    t := TxTurnB(s5, Got(PEnd));
  }

  // The main result: every file can cross, from the beginning or from where an earlier session
  // has stopped, and both stations come to the end of the batch.
  lemma SessionCompletes(f: File, left: seq<Byte>, open: OpenOutcome)
    requires left <= f && (open.OpenFresh? || (open.OpenKept? && |left| < |f|))
    ensures exists s :: Reachable(s) && s.a.file == f && s.b.rx.inbound == [f] && s.a.tx.outcome == Some(Success)
              && !s.a.halted && !s.b.halted && Finished(s.a) && Finished(s.b)
  {
    hide Reachable, Finished;
    var s := Crossing(f, left, open);
    var t := BatchEnds(s);
  }
}
