// Two stations running hydra_batch over a link that may lose, repeat, delay and reorder
// packets: what holds in every reachable state.
module HydraSafety {
  import opened Wrappers
  import opened Crc
  import opened Files
  import opened HydraSession

  // The packets ever put on one direction of the link.  Receiving takes any of them, any
  // number of times, at any moment.
  type Net = set<Packet>

  datatype System = System(a: Station, b: Station, ab: Net, ba: Net)

  function Sent(net: Net, out: seq<Packet>): Net {
    net + set p | p in out
  }

  ghost predicate Deliverable(net: Net, i: Input) {
    i.arrival.Got? ==> i.arrival.packet in net
  }

  // One station makes a turn.
  ghost predicate Next(s: System, t: System) {
    || (exists i: Input :: Deliverable(s.ba, i) && t == TurnOfA(s, i))
    || (exists i: Input :: Deliverable(s.ab, i) && t == TurnOfB(s, i))
  }

  function TurnOfA(s: System, i: Input): System {
    var t := Iteration(s.a, i);
    s.(a := t.st, ab := Sent(s.ab, t.out))
  }

  function TurnOfB(s: System, i: Input): System {
    var t := Iteration(s.b, i);
    s.(b := t.st, ba := Sent(s.ba, t.out))
  }

  // Before the first turn.  A partial file left over at the receiver from an earlier
  // session is the beginning of the file the other station is about to send.
  ghost predicate Initial(s: System) {
    && s.ab == {} && s.ba == {}
    && !s.a.halted && !s.b.halted
    && (exists h: bool :: s.a.tx == NewSender(h)) && (exists h: bool :: s.b.tx == NewSender(h))
    && s.a.rx.disk <= s.b.file && s.a.rx == NewReceiver(s.a.rx.disk)
    && s.b.rx.disk <= s.a.file && s.b.rx == NewReceiver(s.b.rx.disk)
  }

  ghost predicate Run(trace: seq<System>) {
    && trace != []
    && Initial(trace[0])
    && forall k :: 0 <= k < |trace| - 1 ==> Next(trace[k], trace[k + 1])
  }

  // ---------------------------------------------------------------------------
  // The invariant of one direction: file f from sender tx to receiver rx, packets
  // xy from the sending station and yx back.
  // ---------------------------------------------------------------------------

  predicate GoodForward(f: File, p: Packet) {
    && (p.PData? ==> Slice(f, p.pos, p.bytes) && 0 < |p.bytes| <= 2048)
    && (p.PEof? ==> p.eofPos == -1 || p.eofPos == -2 || p.eofPos == |f|)
    && (p.PFileInfo? ==> p.total == |f|)
    && (p.PInit? ==> p.txwindow == 0 && p.rxwindow == 0)
  }

  predicate GoodBackward(f: File, p: Packet) {
    && (p.PRpos? ==> -2 <= p.rpos <= |f| && p.block < 65536)
    && (p.PFInfoAck? ==> -2 <= p.ack <= |f|)
    && (p.PDataAck? ==> 0 <= p.ackPos <= |f|)
  }

  predicate Refusal(p: Packet) { p.PRpos? && p.rpos < 0 }
  predicate GivingUp(p: Packet) { p.PEof? && p.eofPos < 0 }

  ghost predicate HasRefusal(yx: Net) { exists p :: p in yx && Refusal(p) }
  ghost predicate HasGivenUp(xy: Net) { exists p :: p in xy && GivingUp(p) }

  predicate PowerOfTwoBlock(n: int) {
    n == 64 || n == 128 || n == 256 || n == 512 || n == 1024 || n == 2048
  }

  predicate Transferring(s: TxState) {
    s == Data || s == DataAck || s == XWait || s == Eof || s == EofAck
  }

  predicate Bad(s: Status) { s == Skipped || s == Refused }

  // The file position, the offset reported, and the block size.
  predicate PositionOk(f: File, fpos: nat, bytesSent: int, eofseen: bool, blockSize: int, exempt: bool) {
    && fpos <= |f| && 0 <= bytesSent <= |f|
    && (eofseen ==> bytesSent == |f|)
    && (bytesSent == fpos || exempt)
    && PowerOfTwoBlock(blockSize)
  }

  // What each transmit state knows about the open file.
  predicate PhaseOk(state: TxState, eob: bool, open: bool, eofseen: bool, status: Status, failed: bool, refused: bool) {
    && ((state == FInfo || state == FInfoAck) && !eob ==> open && !eofseen && status == InProcess)
    && (Transferring(state) ==> open)
    && (open ==> status != Success)
    && (Transferring(state) && Bad(status) ==> failed || refused)
    && ((state == Eof || state == EofAck) ==> eofseen || Bad(status))
  }

  predicate TxOk(f: File, tx: Sender, refused: bool) {
    && PositionOk(f, tx.fpos, tx.bytesSent, tx.eofseen, tx.blockSize, !tx.open || Bad(tx.status))
    && PhaseOk(tx.state, tx.eob, tx.open, tx.eofseen, tx.status, tx.failed, refused)
    && (tx.open ==> !tx.queued)
  }

  // The file is closed for good, or its refusal is on record.
  predicate Settled(tx: Sender) {
    !tx.queued && (tx.open ==> Bad(tx.status))
  }

  predicate TrueSuccess(tx: Sender) {
    tx.outcome == Some(Success) && !tx.overruled
  }

  predicate RxOk(f: File, rx: Receiver) {
    && rx.disk <= f
    && (rx.state == RxData || rx.state == RxRpos || rx.state == RxRposAck ==>
          rx.received == |rx.disk| && rx.total == |f|)
    && (forall k :: 0 <= k < |rx.inbound| ==> rx.inbound[k] == f)
    && (rx.state == RxSkip || rx.state == RxSkipAck ==> rx.failed)
  }

  ghost predicate Direction(f: File, tx: Sender, rx: Receiver, xy: Net, yx: Net) {
    && (forall p :: p in xy ==> GoodForward(f, p))
    && (forall p :: p in yx ==> GoodBackward(f, p))
    && TxOk(f, tx, HasRefusal(yx)) && RxOk(f, rx)
    && (HasRefusal(yx) ==> rx.failed)
    && (HasGivenUp(xy) ==> Settled(tx))
    && (PEofAck in yx ==> rx.inbound != [] || HasGivenUp(xy))
    && (TrueSuccess(tx) ==> rx.inbound != [])
    && (tx.overruled ==> tx.failed || HasRefusal(yx))
  }

  // ---------------------------------------------------------------------------
  // Transmit steps
  // ---------------------------------------------------------------------------

  predicate Forward(p: Packet) { !Backward(p) }

  predicate Backward(p: Packet) {
    p.PInitAck? || p.PFInfoAck? || p.PDataAck? || p.PRpos? || p.PEofAck?
  }

  // What one transmit step has to keep; only an EOFACK makes a new success.
  predicate TxSound(f: File, tx: Sender, t: TxStep, refused: bool, acked: bool) {
    && TxOk(f, t.tx, refused)
    && (tx.failed ==> t.tx.failed)
    && (Settled(tx) ==> Settled(t.tx))
    && (TrueSuccess(t.tx) ==> TrueSuccess(tx) || (acked && !Settled(tx)))
    && (t.tx.overruled ==> tx.overruled || t.tx.failed || refused)
    && (forall k :: 0 <= k < |t.out| ==>
          GoodForward(f, t.out[k]) && Forward(t.out[k]) && (GivingUp(t.out[k]) ==> Settled(t.tx)))
  }

  lemma TxLift(f: File, tx: Sender, rx: Receiver, xy: Net, yx: Net, t: TxStep)
    requires Direction(f, tx, rx, xy, yx)
    requires TxSound(f, tx, t, HasRefusal(yx), PEofAck in yx)
    ensures Direction(f, t.tx, rx, Sent(xy, t.out), yx)
  {
    hide TxOk, RxOk, GoodForward, GoodBackward, GivingUp, Refusal, Settled, TrueSuccess;
    var net := Sent(xy, t.out);
    assert forall p :: p in net ==> p in xy || p in t.out;
    if HasGivenUp(xy) {
      var p :| p in xy && GivingUp(p);
      assert p in net;
    }
    if HasGivenUp(net) && !HasGivenUp(xy) {
      var p :| p in net && GivingUp(p);
      assert p in t.out;
    }
  }

  // Steps that leave the file's own record alone.
  predicate SameRecord(tx: Sender, u: Sender) {
    && u.failed == tx.failed && u.overruled == tx.overruled && u.queued == tx.queued
    && u.open == tx.open && u.status == tx.status && u.outcome == tx.outcome
  }

  lemma TxSameRecord(f: File, tx: Sender, u: Sender, out: seq<Packet>, refused: bool)
    requires TxOk(f, u, refused) && SameRecord(tx, u)
    requires forall k :: 0 <= k < |out| ==> GoodForward(f, out[k]) && Forward(out[k]) && !GivingUp(out[k])
    ensures TxSound(f, tx, TxStep(u, out, false), refused, false)
  {
    hide TxOk, GoodForward, GivingUp, Backward;
  }

  lemma ResendPhase(state: TxState, eob: bool, open: bool, eofseen: bool, status: Status, failed: bool, refused: bool)
    requires PhaseOk(state, eob, open, eofseen, status, failed, refused)
    ensures PhaseOk(Resend(state), eob, open, eofseen, status, failed, refused)
  {
  }

  lemma TxTimerSound(f: File, tx: Sender, refused: bool)
    requires TxOk(f, tx, refused)
    ensures TxSound(f, tx, TxStep(TxTimer(tx), [], false), refused, false)
  {
    hide PositionOk, PhaseOk, TxSound, Resend;
    ResendPhase(tx.state, tx.eob, tx.open, tx.eofseen, tx.status, tx.failed, refused);
    TxSameRecord(f, tx, TxTimer(tx), [], refused);
  }

  lemma TxTrySound(f: File, tx: Sender, next: TxState, p: Packet, refused: bool)
    requires TxOk(f, tx, refused) && TxOk(f, tx.(state := next), refused)
    requires GoodForward(f, p) && Forward(p) && (GivingUp(p) ==> Settled(tx))
    ensures TxSound(f, tx, TxTry(tx, next, p), refused, false)
  {
    hide PositionOk, PhaseOk, GoodForward, GivingUp, Backward;
  }

  lemma GrowSound(f: File, tx: Sender, refused: bool)
    requires TxOk(f, tx, refused)
    ensures TxOk(f, Grow(tx), refused)
    ensures Grow(tx) == tx.(goodBlocks := Grow(tx).goodBlocks, blockSize := Grow(tx).blockSize)
  {
  }

  lemma TxDataSound(f: File, tx: Sender, read: ReadOutcome, refused: bool)
    requires TxOk(f, tx, refused) && tx.state == Data
    ensures TxSound(f, tx, TxData(tx, f, read), refused, false)
  {
    hide Grow, PositionOk, PhaseOk;
    TxStopSound(f, tx, read, refused);
    if tx.bytesSent == tx.fpos && read.ReadOk? {
      TxReadSound(f, tx, refused);
    }
  }

  lemma TxReadSound(f: File, tx: Sender, refused: bool)
    requires TxOk(f, tx, refused) && tx.state == Data && tx.bytesSent == tx.fpos
    ensures TxSound(f, tx, TxData(tx, f, ReadOk), refused, false)
  {
    hide Grow, TxOk, TxSound, GoodForward;
    var n := Min(tx.blockSize, |f| - tx.fpos);
    if n > 0 {
      var v := tx.(eofseen := n < tx.blockSize, fpos := tx.fpos + n, bytesSent := tx.bytesSent + n);
      TxBlockSound(f, tx, n, refused);
      GrowSound(f, v, refused);
      TxNextState(f, Grow(v), refused);
      TxSameRecord(f, tx, TxData(tx, f, ReadOk).tx, [PData(tx.bytesSent, f[tx.fpos..tx.fpos + n])], refused);
    } else {
      TxStopSound(f, tx, ReadOk, refused);
      TxSameRecord(f, tx, TxData(tx, f, ReadOk).tx, [], refused);
    }
  }

  lemma TxStopSound(f: File, tx: Sender, read: ReadOutcome, refused: bool)
    requires TxOk(f, tx, refused) && tx.state == Data
    ensures var stop := tx.(eofseen := false, tries := 0, state := Eof);
            && (tx.bytesSent != tx.fpos ==> TxOk(f, stop, refused))
            && TxOk(f, stop.(status := Skipped, failed := true), refused)
            && (forall at: nat :: TxOk(f, stop.(status := Refused, fpos := Min(at, |f|), failed := true), refused))
            && (Min(tx.blockSize, |f| - tx.fpos) <= 0 && tx.bytesSent == tx.fpos ==>
                  TxOk(f, tx.(eofseen := Min(tx.blockSize, |f| - tx.fpos) < tx.blockSize, tries := 0, state := Eof),
                      refused))
  {
  }

  lemma TxBlockSound(f: File, tx: Sender, n: int, refused: bool)
    requires TxOk(f, tx, refused) && tx.state == Data && tx.bytesSent == tx.fpos
    requires n == Min(tx.blockSize, |f| - tx.fpos) && n > 0
    ensures TxOk(f, tx.(eofseen := n < tx.blockSize, fpos := tx.fpos + n, bytesSent := tx.bytesSent + n), refused)
    ensures GoodForward(f, PData(tx.bytesSent, f[tx.fpos..tx.fpos + n]))
  {
  }

  lemma TxNextState(f: File, tx: Sender, refused: bool)
    requires TxOk(f, tx, refused) && tx.state == Data
    ensures TxOk(f, tx.(state := DataAck), refused)
    ensures tx.eofseen ==> TxOk(f, tx.(tries := 0, state := Eof), refused)
  {
    hide PositionOk;
  }

  lemma TxOpenSound(f: File, tx: Sender, refused: bool)
    requires TxOk(f, tx, refused) && tx.state == NextFile
    ensures var u := TxOpen(TxClose(tx)).(tries := 0, state := FInfo);
            TxOk(f, u, refused) && u.failed == tx.failed && u.overruled == tx.overruled
            && (TrueSuccess(u) ==> TrueSuccess(tx)) && (Settled(tx) ==> Settled(u))
  {
  }

  lemma TxDataTickSound(f: File, tx: Sender, i: Input, refused: bool)
    requires TxOk(f, tx, refused) && tx.state == Data
    ensures TxSound(f, tx, if tx.eofseen then TxStep(tx.(tries := 0, state := Eof), [], false)
                           else if i.outIdle then TxData(tx, f, i.read) else TxStep(tx, [], false), refused, false)
  {
    hide TxData, PositionOk;
    if !tx.eofseen && i.outIdle {
      TxDataSound(f, tx, i.read, refused);
    }
  }

  lemma TxRendTickSound(f: File, tx: Sender, other: RxState, i: Input, refused: bool)
    requires TxOk(f, tx, refused) && tx.state == Rend
    ensures TxSound(f, tx, if other == RxDone then TxStep(tx.(tries := 0, state := End), [], false)
                           else TxStep(tx, if i.idleDue then [PIdle] else [], false), refused, false)
  {
    hide PositionOk;
  }

  lemma TxSpeakSound(f: File, tx: Sender, other: RxState, i: Input, refused: bool)
    requires TxOk(f, tx, refused)
    requires tx.state == Start || tx.state == Init || tx.state == End || tx.state == Eof || tx.state == FInfo
    ensures TxSound(f, tx, TxTick(tx, f, other, i), refused, false)
  {
    hide TxTry, TxFInfo, TxOk, TxSound, EofOffset;
    if tx.state == Start {
      TxHelloSound(f, tx, SWait, PStart, refused);
    } else if tx.state == Init {
      TxHelloSound(f, tx, InitAck, PInit(0, 0), refused);
    } else if tx.state == End {
      TxHelloSound(f, tx, EndAck, PEnd, refused);
    } else if tx.state == Eof {
      TxEofTickSound(f, tx, refused);
    } else {
      TxFInfoSound(f, tx, refused);
    }
  }

  lemma TxQuietSound(f: File, tx: Sender, other: RxState, i: Input, refused: bool)
    requires TxOk(f, tx, refused)
    requires tx.state != Start && tx.state != Init && tx.state != End && tx.state != Eof && tx.state != FInfo
    ensures TxSound(f, tx, TxTick(tx, f, other, i), refused, false)
  {
    hide TxData, TxOpen, TxClose, TxFInfo, TxOk, TxSound;
    if tx.state == NextFile {
      TxNextFileSound(f, tx, refused);
    } else if tx.state == Data {
      TxDataTickSound(f, tx, i, refused);
    } else if tx.state == Rend {
      TxRendTickSound(f, tx, other, i, refused);
    } else {
      TxNoneSound(f, tx, if tx.state == RInit && other != RxInit then NextFile else tx.state, refused);
    }
  }

  lemma TxTickSound(f: File, tx: Sender, other: RxState, i: Input, refused: bool)
    requires TxOk(f, tx, refused)
    ensures TxSound(f, tx, TxTick(tx, f, other, i), refused, false)
  {
    hide TxTick, TxOk, TxSound;
    if tx.state == Start || tx.state == Init || tx.state == End || tx.state == Eof || tx.state == FInfo {
      TxSpeakSound(f, tx, other, i, refused);
    } else {
      TxQuietSound(f, tx, other, i, refused);
    }
  }

  lemma TxHelloSound(f: File, tx: Sender, next: TxState, p: Packet, refused: bool)
    requires TxOk(f, tx, refused)
    requires (next == SWait && p == PStart) || (next == InitAck && p == PInit(0, 0)) || (next == EndAck && p == PEnd)
    ensures TxSound(f, tx, TxTry(tx, next, p), refused, false)
  {
    hide PositionOk, TxTry, TxSound;
    TxTrySound(f, tx, next, p, refused);
  }

  lemma TxFInfoSound(f: File, tx: Sender, refused: bool)
    requires TxOk(f, tx, refused) && tx.state == FInfo
    ensures TxSound(f, tx, TxFInfo(tx, f), refused, false)
  {
    hide PositionOk, TxTry, TxSound;
    TxTrySound(f, tx, FInfoAck, if tx.eob then PEndOfBatch else PFileInfo(|f|), refused);
  }

  lemma TxEofTickSound(f: File, tx: Sender, refused: bool)
    requires TxOk(f, tx, refused) && tx.state == Eof
    ensures TxSound(f, tx, TxTry(tx, EofAck, PEof(EofOffset(tx))), refused, false)
  {
    hide TxTry, TxSound;
    EofOffsetSound(f, tx, refused);
    TxTrySound(f, tx, EofAck, PEof(EofOffset(tx)), refused);
  }

  lemma TxNextFileSound(f: File, tx: Sender, refused: bool)
    requires TxOk(f, tx, refused) && tx.state == NextFile
    ensures TxSound(f, tx, TxFInfo(TxOpen(TxClose(tx)).(tries := 0, state := FInfo), f), refused, false)
  {
    hide TxOpen, TxFInfo, TxClose, TxOk;
    TxOpenSound(f, tx, refused);
    TxFInfoSound(f, TxOpen(TxClose(tx)).(tries := 0, state := FInfo), refused);
  }

  lemma TxNoneSound(f: File, tx: Sender, next: TxState, refused: bool)
    requires TxOk(f, tx, refused)
    requires next == tx.state || (tx.state == RInit && next == NextFile)
    ensures TxSound(f, tx, TxStep(tx.(state := next), [], false), refused, false)
  {
    hide PositionOk;
  }

  lemma EofOffsetSound(f: File, tx: Sender, refused: bool)
    requires TxOk(f, tx, refused) && tx.state == Eof
    ensures GoodForward(f, PEof(EofOffset(tx)))
    ensures EofOffset(tx) < 0 ==> Settled(tx)
    ensures TxOk(f, tx.(state := EofAck), refused)
  {
  }

  lemma TxFInfoAckSound(f: File, tx: Sender, offs: int, seekOk: bool, refused: bool)
    requires TxOk(f, tx, refused) && (tx.state == FInfo || tx.state == FInfoAck) && offs <= |f|
    ensures TxSound(f, tx, TxStep(TxFInfoAck(tx, offs, seekOk), [], false), refused, false)
  {
    hide GoodForward, GivingUp, Backward;
  }

  lemma TxDataAckSound(f: File, tx: Sender, pos: int, refused: bool)
    requires TxOk(f, tx, refused) && (tx.state == Data || tx.state == DataAck)
    ensures TxSound(f, tx, TxStep(TxDataAck(tx, pos), [], false), refused, false)
  {
    hide PositionOk, TxSound;
    TxSameRecord(f, tx, TxDataAck(tx, pos), [], refused);
  }

  lemma RewindOk(f: File, tx: Sender, offset: nat, size: nat, id: int, refused: bool)
    requires TxOk(f, tx, refused) && Transferring(tx.state)
    requires offset <= |f| && (size == 0 || Align(size) == size)
    ensures TxOk(f, Rewind(tx, offset, size, id), refused)
    ensures SameRecord(tx, Rewind(tx, offset, size, id))
  {
  }

  lemma RewindSound(f: File, tx: Sender, offset: nat, size: nat, id: int, refused: bool)
    requires TxOk(f, tx, refused) && Transferring(tx.state)
    requires offset <= |f| && (size == 0 || Align(size) == size)
    ensures TxSound(f, tx, TxStep(Rewind(tx, offset, size, id), [], false), refused, false)
  {
    hide TxOk, Rewind, TxSound, Align, SameRecord;
    RewindOk(f, tx, offset, size, id, refused);
    TxSameRecord(f, tx, Rewind(tx, offset, size, id), [], refused);
  }

  lemma GiveUpOk(f: File, tx: Sender, status: Status, id: int, refused: bool)
    requires TxOk(f, tx, refused) && Transferring(tx.state) && Bad(status) && (tx.failed || refused)
    ensures TxOk(f, GiveUp(tx, status, id), refused)
  {
  }

  lemma GiveUpSound(f: File, tx: Sender, status: Status, id: int, refused: bool)
    requires TxOk(f, tx, refused) && Transferring(tx.state) && Bad(status) && (tx.failed || refused)
    ensures TxSound(f, tx, TxStep(GiveUp(tx, status, id), [], false), refused, false)
  {
    hide TxOk, GoodForward, GivingUp, Backward;
    GiveUpOk(f, tx, status, id, refused);
  }

  // A failed seek is on record before the file is given up.
  lemma FailedSeek(f: File, tx: Sender, refused: bool)
    requires TxOk(f, tx, refused) && Transferring(tx.state)
    ensures TxOk(f, tx.(eofseen := false, failed := true, state := Data), refused)
  {
  }

  lemma SeekFailsSound(f: File, tx: Sender, id: int, refused: bool)
    requires TxOk(f, tx, refused) && Transferring(tx.state)
    ensures TxSound(f, tx, TxStep(GiveUp(tx.(eofseen := false, failed := true), Refused, id), [], false), refused,
            false)
  {
    hide TxOk, GoodForward, GivingUp, Backward;
    FailedSeek(f, tx, refused);
    GiveUpOk(f, tx.(eofseen := false, failed := true, state := Data), Refused, id, refused);
  }

  lemma AlignTwice(n: int)
    ensures Align(Align(n)) == Align(n)
  {
  }

  lemma TxRposSound(f: File, tx: Sender, offset: int, block: nat, id: int, seekOk: bool, refused: bool)
    requires TxOk(f, tx, refused) && Transferring(tx.state)
    requires offset <= |f| && (offset < 0 ==> refused)
    ensures TxSound(f, tx, TxStep(TxRpos(tx, offset, block, id, seekOk), [], false), refused, false)
  {
    hide TxOk, Align, TxSound, Rewind, GiveUp;
    AlignTwice(block);
    TxNoneSound(f, tx, tx.state, refused);
    SeekFailsSound(f, tx, id, refused);
    if offset < 0 {
      GiveUpSound(f, tx, if offset == -1 then Skipped else Refused, id, refused);
    } else {
      RewindSound(f, tx, offset, if block > 0 then Align(block) else 0, id, refused);
    }
  }

  lemma TxEofAckSound(f: File, tx: Sender, refused: bool)
    requires TxOk(f, tx, refused) && (tx.state == Eof || tx.state == EofAck)
    ensures TxSound(f, tx, TxStep(TxEofAck(tx), [], false), refused, true)
  {
    hide GoodForward, GivingUp, Backward;
  }

  // The packets that only move the handshake along.
  lemma TxShakeSound(f: File, tx: Sender, next: TxState, out: seq<Packet>, refused: bool)
    requires TxOk(f, tx, refused)
    requires
      || ((tx.state == Start || tx.state == SWait) && next == Init && out == [])
      || ((tx.state == Init || tx.state == InitAck) && next == RInit && out == [])
      || ((tx.state == End || tx.state == EndAck) && next == TxDone && out == [PEnd, PEnd, PEnd])
    ensures TxSound(f, tx, TxStep(tx.(tries := 0, state := next), out, false), refused, false)
  {
    hide PositionOk;
  }

  lemma TxAnswerSound(f: File, tx: Sender, p: Packet, i: Input, refused: bool)
    requires TxOk(f, tx, refused) && GoodBackward(f, p) && (Refusal(p) ==> refused)
    requires p.PFInfoAck? || p.PDataAck? || p.PRpos?
    ensures TxSound(f, tx, TxHandle(tx, p, i), refused, false)
  {
    hide TxFInfoAck, TxDataAck, TxRpos, TxOk, TxSound;
    TxNoneSound(f, tx, tx.state, refused);
    match p {
      case PFInfoAck(offs) =>
        if tx.state == FInfo || tx.state == FInfoAck { TxFInfoAckSound(f, tx, offs, i.seekOk, refused); }
      case PDataAck(pos) =>
        if tx.state == Data || tx.state == DataAck { TxDataAckSound(f, tx, pos, refused); }
      case PRpos(offset, block, id) =>
        if Transferring(tx.state) { TxRposSound(f, tx, offset, block, id, i.seekOk, refused); }
    }
  }

  lemma TxHandleSound(f: File, tx: Sender, p: Packet, i: Input, refused: bool)
    requires TxOk(f, tx, refused) && GoodBackward(f, p) && (Refusal(p) ==> refused)
    ensures TxSound(f, tx, TxHandle(tx, p, i), refused, p == PEofAck)
  {
    hide TxEofAck, TxFInfoAck, TxDataAck, TxRpos, TxOk, TxSound;
    TxNoneSound(f, tx, tx.state, refused);
    AckedToo(f, tx, TxStep(tx, [], false), refused, p == PEofAck);
    match p {
      case PStart =>
        if tx.state == Start || tx.state == SWait { TxShakeSound(f, tx, Init, [], refused); }
      case PInitAck =>
        if tx.state == Init || tx.state == InitAck { TxShakeSound(f, tx, RInit, [], refused); }
      case PEnd =>
        if tx.state == End || tx.state == EndAck { TxShakeSound(f, tx, TxDone, [PEnd, PEnd, PEnd], refused); }
      case PEofAck =>
        if tx.state == Eof || tx.state == EofAck { TxEofAckSound(f, tx, refused); }
      case PFInfoAck(_) => TxAnswerSound(f, tx, p, i, refused);
      case PDataAck(_) => TxAnswerSound(f, tx, p, i, refused);
      case PRpos(_, _, _) => TxAnswerSound(f, tx, p, i, refused);
      case _ =>
    }
  }

  // ---------------------------------------------------------------------------
  // Receive steps
  // ---------------------------------------------------------------------------

  // What one receive step has to keep.
  predicate RxSound(f: File, rx: Receiver, r: RxStep, givenUp: bool) {
    && RxOk(f, r.rx)
    && (rx.failed ==> r.rx.failed)
    && (rx.inbound != [] ==> r.rx.inbound != [])
    && (forall k :: 0 <= k < |r.out| ==>
          && GoodBackward(f, r.out[k]) && Backward(r.out[k])
          && (Refusal(r.out[k]) ==> r.rx.failed)
          && (r.out[k] == PEofAck ==> r.rx.inbound != [] || givenUp))
  }

  lemma RxLift(f: File, tx: Sender, rx: Receiver, xy: Net, yx: Net, r: RxStep)
    requires Direction(f, tx, rx, xy, yx)
    requires RxSound(f, rx, r, HasGivenUp(xy))
    ensures Direction(f, tx, r.rx, xy, Sent(yx, r.out))
  {
    hide RxOk, PositionOk, GoodForward, GoodBackward, GivingUp, Refusal, Settled, TrueSuccess;
    var net := Sent(yx, r.out);
    assert forall p :: p in net ==> p in yx || p in r.out;
    assert PEofAck in net ==> PEofAck in yx || PEofAck in r.out;
    if HasRefusal(yx) {
      var p :| p in yx && Refusal(p);
      assert p in net;
    }
    if HasRefusal(net) && !HasRefusal(yx) {
      var p :| p in net && Refusal(p);
      assert p in r.out;
    }
  }

  lemma RxTimerSound(f: File, rx: Receiver, givenUp: bool)
    requires RxOk(f, rx)
    ensures RxSound(f, rx, RxStep(RxTimer(rx), [], false), givenUp)
  {
  }

  lemma RxTickSound(f: File, rx: Receiver, givenUp: bool)
    requires RxOk(f, rx)
    ensures RxSound(f, rx, RxTick(rx), givenUp)
  {
  }

  lemma RxNoiseSound(f: File, rx: Receiver, givenUp: bool)
    requires RxOk(f, rx)
    ensures RxSound(f, rx, RxStep(RxNoise(rx), [], false), givenUp)
  {
  }

  lemma RxDataSound(f: File, rx: Receiver, pos: int, bytes: seq<Byte>, write: WriteOutcome, givenUp: bool)
    requires RxOk(f, rx) && Slice(f, pos, bytes)
    ensures RxSound(f, rx, RxDataPacket(rx, pos, bytes, write), givenUp)
  {
    if (rx.state == RxData || rx.state == RxRposAck) && pos == rx.received {
      PrefixGrows(f, rx.disk, bytes, |bytes|);
      if write.WriteError? {
        PrefixGrows(f, rx.disk, bytes, Min(write.part, |bytes|));
      }
      assert bytes[..|bytes|] == bytes;
    }
  }

  lemma RxEofSound(f: File, rx: Receiver, pos: int, closeOk: bool, givenUp: bool)
    requires RxOk(f, rx) && (pos == -1 || pos == -2 || pos == |f|) && (pos < 0 ==> givenUp)
    ensures RxSound(f, rx, RxEof(rx, pos, closeOk), givenUp)
  {
  }

  lemma RxFileInfoSound(f: File, rx: Receiver, total: nat, open: OpenOutcome, givenUp: bool)
    requires RxOk(f, rx) && total == |f|
    ensures RxSound(f, rx, RxFileInfo(rx, total, open), givenUp)
  {
  }

  lemma RxHandleSound(f: File, rx: Receiver, p: Packet, i: Input, givenUp: bool)
    requires RxOk(f, rx) && GoodForward(f, p) && (GivingUp(p) ==> givenUp)
    ensures RxSound(f, rx, RxHandle(rx, p, i), givenUp)
  {
    hide RxDataPacket, RxEof, RxFileInfo;
    match p {
      case PFileInfo(total) => RxFileInfoSound(f, rx, total, i.open, givenUp);
      case PData(pos, bytes) => RxDataSound(f, rx, pos, bytes, i.write, givenUp);
      case PEof(pos) => RxEofSound(f, rx, pos, i.closeOk, givenUp);
      case _ =>
    }
  }

  // ---------------------------------------------------------------------------
  // One station's turn keeps both directions.  The station sends file f with tx and
  // receives g with rx; peer is the other end; out and back are its two nets.
  // ---------------------------------------------------------------------------

  ghost predicate Both(st: Station, peer: Station, out: Net, back: Net) {
    && Direction(st.file, st.tx, peer.rx, out, back)
    && Direction(peer.file, peer.tx, st.rx, back, out)
  }

  ghost predicate Keeps(st: Station, peer: Station, out: Net, back: Net, t: Turn) {
    t.st.file == st.file && Both(t.st, peer, Sent(out, t.out), back)
  }

  // Packets of the other direction do not matter to a direction.
  lemma ForwardOnly(f: File, tx: Sender, rx: Receiver, xy: Net, yx: Net, out: seq<Packet>)
    requires Direction(f, tx, rx, xy, yx)
    requires forall k :: 0 <= k < |out| ==> Forward(out[k])
    ensures Direction(f, tx, rx, xy, Sent(yx, out))
  {
    hide TxOk, RxOk, GoodForward;
    var net := Sent(yx, out);
    assert forall p :: p in net ==> p in yx || (p in out && Forward(p));
    assert HasRefusal(yx) ==> HasRefusal(net);
    assert HasRefusal(net) ==> HasRefusal(yx);
  }

  lemma BackwardOnly(f: File, tx: Sender, rx: Receiver, xy: Net, yx: Net, out: seq<Packet>)
    requires Direction(f, tx, rx, xy, yx)
    requires forall k :: 0 <= k < |out| ==> Backward(out[k])
    ensures Direction(f, tx, rx, Sent(xy, out), yx)
  {
    hide TxOk, RxOk, GoodBackward;
    var net := Sent(xy, out);
    assert forall p :: p in net ==> p in xy || (p in out && Backward(p));
    assert HasGivenUp(xy) ==> HasGivenUp(net);
    assert HasGivenUp(net) ==> HasGivenUp(xy);
  }

  lemma TxMoves(st: Station, peer: Station, out: Net, back: Net, t: TxStep)
    requires Both(st, peer, out, back)
    requires TxSound(st.file, st.tx, t, HasRefusal(back), PEofAck in back)
    ensures Keeps(st, peer, out, back, Turn(st.(tx := t.tx), t.out))
  {
    hide Direction, TxOk, GoodForward, GivingUp;
    TxLift(st.file, st.tx, peer.rx, out, back, t);
    ForwardOnly(peer.file, peer.tx, st.rx, back, out, t.out);
  }

  lemma RxMoves(st: Station, peer: Station, out: Net, back: Net, r: RxStep)
    requires Both(st, peer, out, back)
    requires RxSound(peer.file, st.rx, r, HasGivenUp(back))
    ensures Keeps(st, peer, out, back, Turn(st.(rx := r.rx), r.out))
  {
    hide Direction, RxOk, GoodBackward, Refusal;
    RxLift(peer.file, peer.tx, st.rx, back, out, r);
    BackwardOnly(st.file, st.tx, peer.rx, out, back, r.out);
  }

  lemma BothOk(st: Station, peer: Station, out: Net, back: Net)
    requires Both(st, peer, out, back)
    ensures TxOk(st.file, st.tx, HasRefusal(back)) && RxOk(peer.file, st.rx)
    ensures forall p :: p in back ==> GoodBackward(st.file, p) && GoodForward(peer.file, p)
  {
    hide TxOk, RxOk, GoodForward, GoodBackward;
  }

  lemma NothingSent(net: Net)
    ensures Sent(net, []) == net
  {
  }

  lemma SentTwice(net: Net, a: seq<Packet>, b: seq<Packet>)
    ensures Sent(Sent(net, a), b) == Sent(net, a + b)
  {
  }

  lemma TimersKeep(st: Station, peer: Station, out: Net, back: Net, i: Input)
    requires Both(st, peer, out, back)
    ensures Both(TimersTurn(st, i), peer, out, back)
  {
    hide Both, TxTimer, RxTimer, TxOk, RxOk;
    NothingSent(out);
    var st1 := if i.sendExpired then st.(tx := TxTimer(st.tx)) else st;
    if i.sendExpired {
      BothOk(st, peer, out, back);
      TxTimerSound(st.file, st.tx, HasRefusal(back));
      AckedToo(st.file, st.tx, TxStep(TxTimer(st.tx), [], false), HasRefusal(back), PEofAck in back);
      TxMoves(st, peer, out, back, TxStep(TxTimer(st.tx), [], false));
    }
    if i.recvExpired {
      BothOk(st1, peer, out, back);
      RxTimerSound(peer.file, st1.rx, HasGivenUp(back));
      RxMoves(st1, peer, out, back, RxStep(RxTimer(st1.rx), [], false));
    }
  }

  lemma AckedToo(f: File, tx: Sender, t: TxStep, refused: bool, acked: bool)
    requires TxSound(f, tx, t, refused, false)
    ensures TxSound(f, tx, t, refused, acked)
  {
  }

  lemma HaltedTxSound(f: File, tx: Sender, refused: bool, acked: bool)
    requires TxOk(f, tx, refused)
    ensures TxSound(f, tx, TxStep(HaltedTx(tx), [], false), refused, acked)
  {
    hide GoodForward, GivingUp, Backward;
  }

  lemma HaltedRxSound(f: File, rx: Receiver, givenUp: bool)
    requires RxOk(f, rx)
    ensures RxSound(f, rx, RxStep(HaltedRx(rx), [], false), givenUp)
  {
  }

  lemma HaltKeeps(st: Station, peer: Station, out: Net, back: Net)
    requires Both(st, peer, out, back)
    ensures Both(Halt(st), peer, out, back) && Halt(st).file == st.file
  {
    hide Direction, TxOk, RxOk, TxSound, RxSound, HaltedTx, HaltedRx;
    NothingSent(out);
    BothOk(st, peer, out, back);
    var t := TxStep(HaltedTx(st.tx), [], false);
    HaltedTxSound(st.file, st.tx, HasRefusal(back), PEofAck in back);
    TxMoves(st, peer, out, back, t);
    HaltedRxSound(peer.file, st.rx, HasGivenUp(back));
    RxMoves(st.(tx := t.tx), peer, out, back, RxStep(HaltedRx(st.rx), [], false));
  }

  lemma TxTurnKeeps(st: Station, peer: Station, out: Net, back: Net, i: Input)
    requires Both(st, peer, out, back)
    ensures Keeps(st, peer, out, back, TxTurn(st, i))
  {
    hide Direction, TxOk, RxOk, TxSound, TxTick, Halt;
    BothOk(st, peer, out, back);
    var t := TxTick(st.tx, st.file, st.rx.state, i);
    TxTickSound(st.file, st.tx, st.rx.state, i, HasRefusal(back));
    AckedToo(st.file, st.tx, t, HasRefusal(back), PEofAck in back);
    TxMoves(st, peer, out, back, t);
    if t.halt {
      HaltKeeps(st.(tx := t.tx), peer, Sent(out, t.out), back);
    }
  }

  lemma RxTurnKeeps(st: Station, peer: Station, out: Net, back: Net)
    requires Both(st, peer, out, back)
    ensures Keeps(st, peer, out, back, RxTurn(st))
  {
    hide Direction, TxOk, RxOk, RxSound, RxTick, Halt;
    NothingSent(out);
    BothOk(st, peer, out, back);
    var r := RxTick(st.rx);
    RxTickSound(peer.file, st.rx, HasGivenUp(back));
    RxMoves(st, peer, out, back, r);
    if r.halt {
      HaltKeeps(st.(rx := r.rx), peer, Sent(out, r.out), back);
    }
  }

  lemma WindowKeeps(f: File, tx: Sender, w: nat, refused: bool, acked: bool)
    requires TxOk(f, tx, refused)
    ensures TxSound(f, tx, TxStep(tx.(window := w), [], false), refused, acked)
  {
    hide PositionOk, PhaseOk;
  }

  lemma TxPacketKeeps(st: Station, peer: Station, out: Net, back: Net, p: Packet, i: Input)
    requires Both(st, peer, out, back) && p in back
    ensures var t := TxHandle(TxWindow(st, p, i), p, i);
            Keeps(st, peer, out, back, Turn(st.(tx := t.tx), t.out))
  {
    hide Direction, TxOk, RxOk, GoodForward, GoodBackward, TxSound, TxHandle;
    NothingSent(out);
    BothOk(st, peer, out, back);
    var tx := TxWindow(st, p, i);
    WindowKeeps(st.file, st.tx, tx.window, HasRefusal(back), PEofAck in back);
    TxMoves(st, peer, out, back, TxStep(tx, [], false));
    var st1 := st.(tx := tx);
    BothOk(st1, peer, out, back);
    var t := TxHandle(tx, p, i);
    TxHandleSound(st.file, tx, p, i, HasRefusal(back));
    if p != PEofAck {
      AckedToo(st.file, tx, t, HasRefusal(back), PEofAck in back);
    }
    TxMoves(st1, peer, out, back, t);
  }

  lemma PacketTurnKeeps(st: Station, peer: Station, out: Net, back: Net, p: Packet, i: Input)
    requires Both(st, peer, out, back) && p in back
    ensures Keeps(st, peer, out, back, PacketTurn(st, p, i))
  {
    hide Direction, TxOk, RxOk, GoodForward, GoodBackward, GivingUp, RxSound, TxHandle, RxHandle, TxWindow, Halt;
    var t := TxHandle(TxWindow(st, p, i), p, i);
    var r := RxHandle(st.rx, p, i);
    TxPacketKeeps(st, peer, out, back, p, i);
    var st1, out1 := st.(tx := t.tx), Sent(out, t.out);
    BothOk(st1, peer, out1, back);
    RxHandleSound(peer.file, st.rx, p, i, HasGivenUp(back));
    RxMoves(st1, peer, out1, back, r);
    SentTwice(out, t.out, r.out);
    if r.halt {
      HaltKeeps(st1.(rx := r.rx), peer, Sent(out1, r.out), back);
    }
  }

  lemma ArrivalTurnKeeps(st: Station, peer: Station, out: Net, back: Net, i: Input)
    requires Both(st, peer, out, back) && Deliverable(back, i)
    ensures Keeps(st, peer, out, back, ArrivalTurn(st, i))
  {
    hide Both, PacketTurn, Halt, RxNoise, RxOk, TxOk;
    NothingSent(out);
    if !st.halted {
      if i.abort {
        HaltKeeps(st, peer, out, back);
      } else if i.arrival.Noise? {
        BothOk(st, peer, out, back);
        RxNoiseSound(peer.file, st.rx, HasGivenUp(back));
        RxMoves(st, peer, out, back, RxStep(RxNoise(st.rx), [], false));
      } else if i.arrival.Got? {
        PacketTurnKeeps(st, peer, out, back, i.arrival.packet, i);
      }
    }
  }

  lemma IterationKeeps(st: Station, peer: Station, out: Net, back: Net, i: Input)
    requires Both(st, peer, out, back) && Deliverable(back, i)
    ensures Keeps(st, peer, out, back, Iteration(st, i))
  {
    hide Both, TimersTurn, TxTurn, RxTurn, ArrivalTurn, Halt;
    NothingSent(out);
    HaltKeeps(st, peer, out, back);
    if !Finished(st) && !i.dead {
      var s0 := TimersTurn(st, i);
      TimersKeep(st, peer, out, back, i);
      TimersFile(st, i);
      var t := TxTurn(s0, i);
      TxTurnKeeps(s0, peer, out, back, i);
      var out1 := Sent(out, t.out);
      var r := RxTurn(t.st);
      RxTurnKeeps(t.st, peer, out1, back);
      var out2 := Sent(out1, r.out);
      var a := ArrivalTurn(r.st, i);
      ArrivalTurnKeeps(r.st, peer, out2, back, i);
      SentTwice(out, t.out, r.out);
      SentTwice(out, t.out + r.out, a.out);
    }
  }

  lemma TimersFile(st: Station, i: Input)
    ensures TimersTurn(st, i).file == st.file
  {
  }

  // ---------------------------------------------------------------------------
  // Whole runs
  // ---------------------------------------------------------------------------

  ghost predicate Invariant(s: System) {
    Both(s.a, s.b, s.ab, s.ba)
  }

  lemma NewStationsSound(f: File, h: bool, leftover: seq<Byte>, g: File)
    requires leftover <= g
    ensures TxOk(f, NewSender(h), false) && RxOk(g, NewReceiver(leftover))
  {
  }

  lemma InitialInvariant(s: System)
    requires Initial(s)
    ensures Invariant(s)
  {
    var h :| s.a.tx == NewSender(h);
    var k :| s.b.tx == NewSender(k);
    NewStationsSound(s.a.file, h, s.a.rx.disk, s.b.file);
    NewStationsSound(s.b.file, k, s.b.rx.disk, s.a.file);
    hide TxOk, RxOk;
  }

  lemma BothSwaps(st: Station, peer: Station, out: Net, back: Net)
    requires Both(st, peer, out, back)
    ensures Both(peer, st, back, out)
  {
    hide Direction;
  }

  lemma NextKeeps(s: System, t: System)
    requires Invariant(s) && Next(s, t)
    ensures Invariant(t) && t.a.file == s.a.file && t.b.file == s.b.file
  {
    hide Both, Iteration;
    if i: Input :| Deliverable(s.ba, i) && t == TurnOfA(s, i) {
      IterationKeeps(s.a, s.b, s.ab, s.ba, i);
    } else {
      var i: Input :| Deliverable(s.ab, i) && t == TurnOfB(s, i);
      BothSwaps(s.a, s.b, s.ab, s.ba);
      IterationKeeps(s.b, s.a, s.ba, s.ab, i);
      BothSwaps(t.b, t.a, t.ba, t.ab);
    }
  }

  lemma {:induction false} RunInvariant(trace: seq<System>, k: nat)
    requires Run(trace) && k < |trace|
    ensures Invariant(trace[k])
    ensures trace[k].a.file == trace[0].a.file && trace[k].b.file == trace[0].b.file
    decreases k
  {
    hide Invariant, Initial, Next;
    if k == 0 {
      InitialInvariant(trace[0]);
    } else {
      RunInvariant(trace, k - 1);
      assert Next(trace[k - 1], trace[k - 1 + 1]);
      NextKeeps(trace[k - 1], trace[k]);
    }
  }
}
