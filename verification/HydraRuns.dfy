// Runs of two stations with a one-byte file: SUCCESS recorded for a file that is lost, after a
// refusal or a read error, and a SUCCESS that overrules a refusal and is true all the same.
module HydraRuns {
  import opened Wrappers
  import opened Crc
  import opened Files
  import opened HydraSession
  import opened HydraSafety
  import opened HydraOutcome
  import opened HydraProgress
  import opened HydraHandshake

  // ---------------------------------------------------------------------------
  // Turns of a station that has only one thing to do
  // ---------------------------------------------------------------------------

  // The receiver waits for files: silence, or an answer for the transmitter
  lemma SendingTurn(st: Station, i: Input)
    requires !st.halted && st.rx.state == RxFInfo && Undisturbed(i) && !i.arrival.Noise?
    requires i.arrival.Got? ==> i.arrival.packet.PFInfoAck? || i.arrival.packet.PRpos? || i.arrival.packet.PEofAck?
    ensures var t := TxTick(st.tx, st.file, st.rx.state, i);
            !t.halt ==>
              Iteration(st, i)
              == if i.arrival.Silence? then Turn(st.(tx := t.tx), t.out)
                 else
                   var u := TxHandle(t.tx, i.arrival.packet, i);
                   Turn(st.(tx := u.tx), t.out + u.out)
  {
    hide TxTick, TxHandle, Halt;
    var t := TxTick(st.tx, st.file, st.rx.state, i);
    assert t.out + [] + [] == t.out;
    if i.arrival.Got? {
      var u := TxHandle(t.tx, i.arrival.packet, i);
      assert t.out + [] + (u.out + []) == t.out + u.out;
    }
  }

  // The transmitter waits for an answer to its INIT: silence, or something for the receiver
  lemma ReceivingTurn(st: Station, i: Input)
    requires !st.halted && st.tx.state == InitAck && Undisturbed(i) && !i.arrival.Noise?
    requires i.arrival.Got? ==> i.arrival.packet.PFileInfo? || i.arrival.packet.PData? || i.arrival.packet.PEof?
    ensures var r := RxTick(st.rx);
            !r.halt ==>
              Iteration(st, i)
              == if i.arrival.Silence? then Turn(st.(rx := r.rx), r.out)
                 else
                   var u := RxHandle(r.rx, i.arrival.packet, i);
                   Turn(if u.halt then Halt(st.(rx := u.rx)) else st.(rx := u.rx), r.out + u.out)
  {
    hide RxTick, RxHandle, Halt;
    var r := RxTick(st.rx);
    assert [] + r.out + [] == r.out;
    if i.arrival.Got? {
      var u := RxHandle(r.rx, i.arrival.packet, i);
      assert [] + r.out + ([] + u.out) == r.out + u.out;
    }
  }

  function Opened(): Sender {
    NewSender(true).(queued := false, open := true, state := Data)
  }

  function Receiving(): Receiver {
    NewReceiver([]).(state := RxData, total := 1)
  }

  predicate Sending(s: System, x: Byte) {
    && !s.a.halted && !s.b.halted && s.a.file == [x]
    && s.a.tx == Opened() && s.b.rx == Receiving()
    && s.b.tx == NewSender(false).(state := InitAck, tries := 1)
    && s.a.rx == NewReceiver([]).(state := RxFInfo)
  }

  lemma Offered(x: Byte) returns (s: System)
    ensures Reachable(s) && PFileInfo(1) in s.ab && !s.a.halted && !s.b.halted && s.a.file == [x]
    ensures s.a.tx == Opened().(state := FInfoAck, tries := 1)
    ensures s.b.tx == NewSender(false).(state := InitAck, tries := 1)
    ensures s.a.rx == NewReceiver([]).(state := RxFInfo) && s.b.rx == NewReceiver([]).(state := RxFInfo)
  {
    hide Reachable, RxDataPacket, RxEof, RxFileInfo, TxData, TxEofAck, TxFInfoAck, TxDataAck, TxRpos, Halt;
    var s7 := Handshake([x], []);
    var s8 := TurnOfA(s7, Calm(Silence));
    StepOfA(s7, Calm(Silence));
    s := TurnOfA(s8, Calm(Silence));
    StepOfA(s8, Calm(Silence));
  }

  // The receiver opens the file and answers with offset 0.
  lemma Accepted(x: Byte) returns (s: System)
    ensures Reachable(s) && PFileInfo(1) in s.ab && PFInfoAck(0) in s.ba
    ensures !s.a.halted && !s.b.halted && s.a.file == [x]
    ensures s.a.tx == Opened().(state := FInfoAck, tries := 1)
    ensures s.b.tx == NewSender(false).(state := InitAck, tries := 1)
    ensures s.a.rx == NewReceiver([]).(state := RxFInfo) && s.b.rx == Receiving()
  {
    hide Iteration, Reachable, RxDataPacket, RxEof, TxData, TxEofAck, TxFInfoAck, TxDataAck, TxRpos, Halt;
    var s9 := Offered(x);
    s := TurnOfB(s9, Calm(Got(PFileInfo(1))));
    ReceivingTurn(s9.b, Calm(Got(PFileInfo(1))));
    StepOfB(s9, Calm(Got(PFileInfo(1))));
  }

  lemma Opening(x: Byte) returns (s: System)
    ensures Reachable(s) && Sending(s, x) && PFileInfo(1) in s.ab
  {
    hide Reachable, RxDataPacket, RxEof, RxFileInfo, TxData, TxEofAck, TxDataAck, TxRpos, Halt;
    var s10 := Accepted(x);
    s := TurnOfA(s10, Calm(Got(PFInfoAck(0))));
    StepOfA(s10, Calm(Got(PFInfoAck(0))));
  }

  lemma BlockSent(x: Byte) returns (s: System)
    ensures Reachable(s) && PFileInfo(1) in s.ab && PData(0, [x]) in s.ab
    ensures !s.a.halted && !s.b.halted && s.a.file == [x]
    ensures s.a.tx == Opened().(state := Eof, fpos := 1, bytesSent := 1, eofseen := true, goodBlocks := 1)
    ensures s.a.rx == NewReceiver([]).(state := RxFInfo) && s.b.tx.state == InitAck && s.b.rx == Receiving()
  {
    hide Iteration, Reachable;
    var s11 := Opening(x);
    s := TurnOfA(s11, Calm(Silence));
    SendingTurn(s11.a, Calm(Silence));
    StepOfA(s11, Calm(Silence));
    assert s11.a.file[0..1] == [x];
  }

  lemma WriteFails(x: Byte) returns (s: System)
    ensures Reachable(s) && !s.a.halted && !s.b.halted && s.a.file == [x]
    ensures s.a.tx == Opened().(state := Eof, fpos := 1, bytesSent := 1, eofseen := true, goodBlocks := 1)
    ensures s.a.rx == NewReceiver([]).(state := RxFInfo) && s.b.tx.state == InitAck
    ensures s.b.rx
            == Receiving().(state := RxSkip, status := Refused, blockSize := 1, rposId := 101, lastPos := 0,
                failed := true)
  {
    hide Iteration, Reachable, RxFileInfo, RxEof, TxData, TxRpos, TxFInfoAck, TxDataAck, TxOpen, TxFInfo, Halt;
    var s12 := BlockSent(x);
    var i := Calm(Got(PData(0, [x]))).(write := WriteError(0));
    s := TurnOfB(s12, i);
    ReceivingTurn(s12.b, i);
    StepOfB(s12, i);
  }

  lemma RefusalSent(x: Byte) returns (s: System)
    ensures Reachable(s) && PRpos(-2, 1, 101) in s.ba
    ensures !s.a.halted && !s.b.halted && s.a.file == [x]
    ensures s.a.tx == Opened().(state := Eof, fpos := 1, bytesSent := 1, eofseen := true, goodBlocks := 1)
    ensures s.a.rx == NewReceiver([]).(state := RxFInfo) && s.b.tx.state == InitAck
    ensures s.b.rx.state == RxSkipAck && s.b.rx.status == Refused && s.b.rx.inbound == []
  {
    hide Iteration, Reachable, RxFileInfo, RxDataPacket, RxEof, TxData, TxRpos, TxFInfoAck, TxDataAck, TxOpen,
         TxFInfo, Halt;
    var s13 := WriteFails(x);
    s := TurnOfB(s13, Calm(Silence));
    ReceivingTurn(s13.b, Calm(Silence));
    StepOfB(s13, Calm(Silence));
  }

  lemma RefusalTaken(tx: Sender)
    requires tx.rposId == -1
    ensures TxRpos(tx, -2, 1, 101, true) == tx.(rposId := 101, status := Refused, tries := 0, state := Eof)
  {
  }

  lemma RefusalHeard(x: Byte) returns (s: System)
    ensures Reachable(s)
    ensures !s.a.halted && !s.b.halted && s.a.file == [x]
    ensures s.a.tx.state == Eof && s.a.tx.tries == 0 && s.a.tx.status == Refused
    ensures s.a.tx.open && s.a.tx.eofseen && !s.a.tx.failed
    ensures s.a.rx == NewReceiver([]).(state := RxFInfo) && s.b.tx.state == InitAck
    ensures s.b.rx.state == RxSkipAck && s.b.rx.status == Refused && s.b.rx.inbound == []
  {
    hide Iteration, Reachable, RxDataPacket, RxEof, RxFileInfo, TxData, TxOpen, TxFInfo, TxEofAck, TxFInfoAck,
         TxDataAck, TxRpos, Halt;
    var s14 := RefusalSent(x);
    RefusalTaken(s14.a.tx.(state := EofAck, tries := 1));
    s := TurnOfA(s14, Calm(Got(PRpos(-2, 1, 101))));
    SendingTurn(s14.a, Calm(Got(PRpos(-2, 1, 101))));
    StepOfA(s14, Calm(Got(PRpos(-2, 1, 101))));
  }

  lemma RefusalConfirmed(x: Byte) returns (s: System)
    ensures Reachable(s) && PEofAck in s.ba
    ensures !s.a.halted && s.a.file == [x]
    ensures s.a.tx.state == EofAck && s.a.tx.open && s.a.tx.eofseen && !s.a.tx.failed
    ensures s.a.rx == NewReceiver([]).(state := RxFInfo) && s.b.rx.inbound == []
  {
    hide Iteration, Reachable, RxDataPacket, RxFileInfo, TxData, TxRpos, TxFInfoAck, TxDataAck, TxOpen, TxFInfo, Halt;
    var s15 := RefusalHeard(x);
    var s16 := TurnOfA(s15, Calm(Silence));
    SendingTurn(s15.a, Calm(Silence));
    StepOfA(s15, Calm(Silence));
    assert PEof(-2) in s16.ab;
    s := TurnOfB(s16, Calm(Got(PEof(-2))));
    ReceivingTurn(s16.b, Calm(Got(PEof(-2))));
    StepOfB(s16, Calm(Got(PEof(-2))));
  }

  // The receiver cannot write the block and refuses the file when the sender has already
  // seen its end: the refusal is acknowledged, and the acknowledgement counts as success.
  lemma LateRefusal(x: Byte)
    ensures exists s :: Reachable(s) && s.a.file == [x]
              && s.a.tx.outcome == Some(Success) && !s.a.tx.failed && s.b.rx.inbound == []
  {
    hide Iteration, Reachable;
    var s17 := RefusalConfirmed(x);
    var s := TurnOfA(s17, Calm(Got(PEofAck)));
    SendingTurn(s17.a, Calm(Got(PEofAck)));
    StepOfA(s17, Calm(Got(PEofAck)));
  }

  lemma ReadFails(x: Byte) returns (s: System)
    ensures Reachable(s) && PEof(-2) in s.ab
    ensures !s.a.halted && !s.b.halted && s.a.file == [x]
    ensures s.a.tx == Opened().(state := EofAck, tries := 1, status := Refused, failed := true)
    ensures s.a.rx == NewReceiver([]).(state := RxFInfo) && s.b.tx.state == InitAck && s.b.rx == Receiving()
  {
    hide Iteration, Reachable, Halt;
    var s11 := Opening(x);
    var i := Calm(Silence).(read := ReadError(0));
    var s12 := TurnOfA(s11, i);
    SendingTurn(s11.a, i);
    StepOfA(s11, i);
    s := TurnOfA(s12, Calm(Silence));
    SendingTurn(s12.a, Calm(Silence));
    StepOfA(s12, Calm(Silence));
  }

  lemma AskedAgain(x: Byte) returns (s: System)
    ensures Reachable(s) && PEof(-2) in s.ab
    ensures !s.a.halted && !s.b.halted && s.a.file == [x]
    ensures s.a.tx == Opened().(state := EofAck, tries := 1, status := Refused, failed := true)
    ensures s.a.rx == NewReceiver([]).(state := RxFInfo) && s.b.tx.state == InitAck
    ensures s.b.rx == Receiving().(state := RxRpos, rposId := 101, blockSize := 512, lastPos := -2)
  {
    hide Iteration, Reachable, Halt;
    var s13 := ReadFails(x);
    s := TurnOfB(s13, Calm(Got(PEof(-2))));
    ReceivingTurn(s13.b, Calm(Got(PEof(-2))));
    StepOfB(s13, Calm(Got(PEof(-2))));
  }

  lemma AcknowledgedMeanwhile(x: Byte) returns (s: System)
    ensures Reachable(s) && PRpos(0, 512, 101) in s.ba && PEofAck in s.ba
    ensures !s.a.halted && s.a.file == [x]
    ensures s.a.tx == Opened().(state := EofAck, tries := 1, status := Refused, failed := true)
    ensures s.a.rx == NewReceiver([]).(state := RxFInfo)
    ensures !s.b.rx.failed && s.b.rx.inbound == []
  {
    hide Iteration, Reachable, Halt;
    var s14 := AskedAgain(x);
    s := TurnOfB(s14, Calm(Got(PEof(-2))));
    ReceivingTurn(s14.b, Calm(Got(PEof(-2))));
    StepOfB(s14, Calm(Got(PEof(-2))));
  }

  lemma SentAgain(x: Byte) returns (s: System)
    ensures Reachable(s) && PEofAck in s.ba
    ensures !s.a.halted && s.a.file == [x]
    ensures s.a.tx.open && s.a.tx.state == Data && !s.a.tx.eofseen && s.a.tx.fpos == s.a.tx.bytesSent == 0
    ensures s.a.tx.window == 0 && s.a.tx.blockSize == 512 && s.a.tx.status == Refused
    ensures s.a.rx == NewReceiver([]).(state := RxFInfo)
    ensures !s.b.rx.failed && s.b.rx.inbound == []
  {
    hide Iteration, Reachable, Halt;
    var s15 := AcknowledgedMeanwhile(x);
    s := TurnOfA(s15, Calm(Got(PRpos(0, 512, 101))));
    SendingTurn(s15.a, Calm(Got(PRpos(0, 512, 101))));
    StepOfA(s15, Calm(Got(PRpos(0, 512, 101))));
  }

  lemma OneBlockIsAll(tx: Sender, x: Byte)
    requires tx.state == Data && tx.open && tx.fpos == tx.bytesSent == 0 && tx.window == 0 && tx.blockSize == 512
    ensures var t := TxData(tx, [x], ReadOk);
            !t.halt && t.tx.state == Eof && t.tx.open && t.tx.eofseen && t.tx.status == tx.status
  {
  }

  // A read error at the sender is enough too: its EOF(-2) is acknowledged by a receiver
  // that has meanwhile asked for the data again.
  lemma ForgottenReadError(x: Byte)
    ensures exists s :: Reachable(s) && s.a.file == [x]
              && s.a.tx.outcome == Some(Success) && !s.b.rx.failed && s.b.rx.inbound == []
  {
    hide Iteration, Reachable, RxDataPacket, RxEof, RxFileInfo, TxData, TxRpos, TxFInfoAck, TxDataAck, TxOpen, TxFInfo;
    var s16 := SentAgain(x);
    OneBlockIsAll(s16.a.tx, x);
    var s := TurnOfA(s16, Calm(Got(PEofAck)));
    SendingTurn(s16.a, Calm(Got(PEofAck)));
    StepOfA(s16, Calm(Got(PEofAck)));
  }

  // ---------------------------------------------------------------------------
  // A SUCCESS may overrule a refusal and be true
  // ---------------------------------------------------------------------------

  lemma Written(x: Byte) returns (s: System)
    ensures Reachable(s) && {PFileInfo(1), PData(0, [x])} <= s.ab && !s.a.halted && !s.b.halted && s.a.file == [x]
    ensures s.a.tx == Opened().(state := Eof, fpos := 1, bytesSent := 1, eofseen := true, goodBlocks := 1)
    ensures s.a.rx == NewReceiver([]).(state := RxFInfo) && s.b.tx.state == InitAck
    ensures s.b.rx == Receiving().(disk := [x], received := 1, blockSize := 1, lastPos := 0)
  {
    hide Iteration, Reachable, RxFileInfo, RxEof, TxData, TxRpos, TxFInfoAck, TxDataAck, TxOpen, TxFInfo, Halt;
    var s12 := BlockSent(x);
    s := TurnOfB(s12, Calm(Got(PData(0, [x]))));
    ReceivingTurn(s12.b, Calm(Got(PData(0, [x]))));
    StepOfB(s12, Calm(Got(PData(0, [x]))));
    assert [] + [x] == [x];
  }

  lemma Announced(x: Byte) returns (s: System)
    ensures Reachable(s) && {PFileInfo(1), PData(0, [x]), PEof(1)} <= s.ab && !s.a.halted && !s.b.halted
            && s.a.file == [x]
    ensures s.a.tx
            == Opened().(state := EofAck, tries := 1, fpos := 1, bytesSent := 1, eofseen := true, goodBlocks := 1)
    ensures s.a.rx == NewReceiver([]).(state := RxFInfo) && s.b.tx.state == InitAck
    ensures s.b.rx == Receiving().(disk := [x], received := 1, blockSize := 1, lastPos := 0)
  {
    hide Iteration, Reachable, RxFileInfo, RxEof, RxDataPacket, TxData, TxRpos, TxFInfoAck, TxDataAck, TxOpen,
         TxFInfo, Halt;
    var s13 := Written(x);
    s := TurnOfA(s13, Calm(Silence));
    SendingTurn(s13.a, Calm(Silence));
    StepOfA(s13, Calm(Silence));
  }

  lemma Committed(x: Byte) returns (s: System)
    ensures Reachable(s) && {PFileInfo(1), PData(0, [x])} <= s.ab && PEofAck in s.ba
    ensures !s.a.halted && !s.b.halted && s.a.file == [x]
    ensures s.a.tx
            == Opened().(state := EofAck, tries := 1, fpos := 1, bytesSent := 1, eofseen := true, goodBlocks := 1)
    ensures s.a.rx == NewReceiver([]).(state := RxFInfo) && s.b.tx.state == InitAck
    ensures s.b.rx.state == RxFInfo && s.b.rx.status == Success && s.b.rx.inbound == [[x]] && s.b.rx.rposId == 100
  {
    hide Iteration, Reachable, RxFileInfo, RxDataPacket, TxData, TxRpos, TxFInfoAck, TxDataAck, TxOpen, TxFInfo, Halt;
    var s14 := Announced(x);
    s := TurnOfB(s14, Calm(Got(PEof(1))));
    ReceivingTurn(s14.b, Calm(Got(PEof(1))));
    StepOfB(s14, Calm(Got(PEof(1))));
  }

  lemma OfferedAgain(x: Byte) returns (s: System)
    ensures Reachable(s) && PData(0, [x]) in s.ab && PEofAck in s.ba && !s.a.halted && !s.b.halted && s.a.file == [x]
    ensures s.a.tx
            == Opened().(state := EofAck, tries := 1, fpos := 1, bytesSent := 1, eofseen := true, goodBlocks := 1)
    ensures s.a.rx == NewReceiver([]).(state := RxFInfo) && s.b.tx.state == InitAck
    ensures s.b.rx.state == RxData && s.b.rx.received == 0 && s.b.rx.disk == []
    ensures s.b.rx.inbound == [[x]] && s.b.rx.rposId == 100
  {
    hide Iteration, Reachable, RxEof, RxDataPacket, TxData, TxRpos, TxFInfoAck, TxDataAck, TxOpen, TxFInfo, Halt;
    var s15 := Committed(x);
    s := TurnOfB(s15, Calm(Got(PFileInfo(1))));
    ReceivingTurn(s15.b, Calm(Got(PFileInfo(1))));
    StepOfB(s15, Calm(Got(PFileInfo(1))));
  }

  lemma RefusedAgain(x: Byte) returns (s: System)
    ensures Reachable(s) && PEofAck in s.ba && !s.a.halted && !s.b.halted && s.a.file == [x]
    ensures s.a.tx
            == Opened().(state := EofAck, tries := 1, fpos := 1, bytesSent := 1, eofseen := true, goodBlocks := 1)
    ensures s.a.rx == NewReceiver([]).(state := RxFInfo) && s.b.tx.state == InitAck
    ensures s.b.rx.state == RxSkip && s.b.rx.status == Refused && s.b.rx.tries == 0
    ensures s.b.rx.inbound == [[x]] && s.b.rx.rposId == 101 && s.b.rx.blockSize == 1
  {
    hide Iteration, Reachable, RxEof, RxFileInfo, TxData, TxRpos, TxFInfoAck, TxDataAck, TxOpen, TxFInfo, Halt;
    var s16 := OfferedAgain(x);
    var i := Calm(Got(PData(0, [x]))).(write := WriteError(0));
    s := TurnOfB(s16, i);
    ReceivingTurn(s16.b, i);
    StepOfB(s16, i);
  }

  lemma RefusalSentAgain(x: Byte) returns (s: System)
    ensures Reachable(s) && {PEofAck, PRpos(-2, 1, 101)} <= s.ba && !s.a.halted && s.a.file == [x]
    ensures s.a.tx
            == Opened().(state := EofAck, tries := 1, fpos := 1, bytesSent := 1, eofseen := true, goodBlocks := 1)
    ensures s.a.rx == NewReceiver([]).(state := RxFInfo) && s.b.rx.inbound == [[x]]
  {
    hide Iteration, Reachable, RxEof, RxFileInfo, RxDataPacket, TxData, TxRpos, TxFInfoAck, TxDataAck, TxOpen,
         TxFInfo, Halt;
    var s17 := RefusedAgain(x);
    s := TurnOfB(s17, Calm(Silence));
    ReceivingTurn(s17.b, Calm(Silence));
    StepOfB(s17, Calm(Silence));
  }

  lemma RefusalHeardAgain(x: Byte) returns (s: System)
    ensures Reachable(s) && PEofAck in s.ba && !s.a.halted && s.a.file == [x]
    ensures s.a.tx.state == Eof && s.a.tx.status == Refused && s.a.tx.tries == 0 && s.a.tx.open && s.a.tx.eofseen
    ensures s.a.rx == NewReceiver([]).(state := RxFInfo) && s.b.rx.inbound == [[x]]
  {
    hide Iteration, Reachable, RxDataPacket, RxEof, RxFileInfo, TxData, TxOpen, TxFInfo, TxEofAck, TxFInfoAck,
         TxDataAck, TxRpos, Halt;
    var s18 := RefusalSentAgain(x);
    RefusalTaken(s18.a.tx);
    s := TurnOfA(s18, Calm(Got(PRpos(-2, 1, 101))));
    SendingTurn(s18.a, Calm(Got(PRpos(-2, 1, 101))));
    StepOfA(s18, Calm(Got(PRpos(-2, 1, 101))));
  }

  // The file has long been moved to the inbound when a second offer of it is refused.
  lemma OverruledButTrue(x: Byte)
    ensures exists s :: Reachable(s) && s.a.file == [x] && s.a.tx.outcome == Some(Success) && s.a.tx.overruled
              && s.b.rx.inbound == [s.a.file]
  {
    hide Iteration, Reachable, RxDataPacket, RxEof, RxFileInfo, TxData, TxRpos, TxFInfoAck, TxDataAck, TxOpen, TxFInfo;
    var s19 := RefusalHeardAgain(x);
    var s := TurnOfA(s19, Calm(Got(PEofAck)));
    SendingTurn(s19.a, Calm(Got(PEofAck)));
    StepOfA(s19, Calm(Got(PEofAck)));
  }
}
