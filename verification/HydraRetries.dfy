// Timers, windows, and files that are given up in a Hydra session.
module HydraRetries {
  import opened Wrappers
  import opened Crc
  import opened Files
  import opened HydraSession
  import opened HydraSafety
  import opened HydraProgress

  // ---------------------------------------------------------------------------
  // A packet that is not answered is sent again, nine times in all.
  // ---------------------------------------------------------------------------

  // What a transmitter that waits has sent last
  function Unanswered(s: Sender, f: File): Packet
    requires s.state == SWait || s.state == InitAck || s.state == FInfoAck || s.state == EofAck || s.state == EndAck
  {
    if s.state == SWait then PStart
    else if s.state == InitAck then PInit(0, 0)
    else if s.state == FInfoAck then (if s.eob then PEndOfBatch else PFileInfo(|f|))
    else if s.state == EofAck then
      PEof(if !s.open || s.status == Refused then -2
           else if s.status == Skipped then -1
           else if s.eofseen then s.bytesSent else -2)
    else PEnd
  }

  lemma SentAgain(s: Sender, f: File, rx: RxState, i: Input)
    requires s.state == SWait || s.state == InitAck || s.state == FInfoAck || s.state == EofAck || s.state == EndAck
    ensures var t := TxTick(TxTimer(s), f, rx, i);
            if s.tries < 9 then t == TxStep(s.(tries := s.tries + 1), [Unanswered(s, f)], false)
                else t.halt && t.out == []
  {
  }

  // A timeout of the transmitter
  lemma SenderRepeats(st: Station, i: Input)
    requires !Finished(st) && Quiet(st.rx) && Undisturbed(i.(sendExpired := false)) && i.sendExpired
            && i.arrival == Silence
    requires var s := st.tx.state; s == SWait || s == InitAck || s == FInfoAck || s == EofAck || s == EndAck
    ensures var t := Iteration(st, i);
            if st.tx.tries < 9 then
              t.st == st.(tx := st.tx.(tries := st.tx.tries + 1)) && t.out == [Unanswered(st.tx, st.file)]
            else t.st.halted && t.out == []
  {
    hide TxTick, TxTimer, Halt, Finished;
    NotHalted(st);
    SentAgain(st.tx, st.file, st.rx.state, i);
    HaltHalts(st.(tx := TxTick(TxTimer(st.tx), st.file, st.rx.state, i).tx));
    assert [Unanswered(st.tx, st.file)] + [] + [] == [Unanswered(st.tx, st.file)];
  }

  lemma HaltHalts(st: Station)
    ensures Halt(st).halted
  {
  }

  predicate Waiting(s: TxState) {
    s == SWait || s == InitAck || s == FInfoAck || s == DataAck || s == EofAck || s == EndAck
  }

  // A transmitter that waits for its window goes on when the answer is overdue; in any other
  // state a timeout changes nothing.
  lemma OtherTimeouts(s: Sender)
    ensures s.state == DataAck ==> TxTimer(s) == s.(state := Data)
    ensures !Waiting(s.state) ==> TxTimer(s) == s
  {
  }

  // What a receiver asks for: the rest of the file, or that the file be given up
  function Asked(r: Receiver): int {
    if r.state == RxSkip || r.state == RxSkipAck then (if r.status == Skipped then -1 else -2) else r.received
  }

  // A request goes out once more, asking for smaller blocks; so does one when no data comes.
  lemma RequestRepeated(r: Receiver)
    requires r.state == RxRposAck || r.state == RxSkipAck || r.state == RxData
    ensures var t := RxTick(RxTimer(r));
            if r.tries < 9 then
              && !t.halt && t.rx == r.(tries := r.tries + 1, state := t.rx.state, blockSize := t.rx.blockSize)
              && t.rx.state == (if r.state == RxSkipAck then RxSkipAck else RxRposAck)
              && (if r.state == RxRposAck then AskedSize(t.rx.blockSize, if r.blockSize < 0 then 0 else r.blockSize / 2)
                  else t.rx.blockSize == r.blockSize)
              && t.out == [PRpos(Asked(r), t.rx.blockSize % 65536, r.rposId)]
            else t.halt && t.out == []
  {
    hide Align;
    AlignIsAsked(if r.blockSize < 0 then 0 else r.blockSize / 2);
    NegativeAlign(r.blockSize / 2);
  }

  lemma NegativeAlign(n: int)
    ensures n < 0 ==> Align(n) == Align(0)
  {
  }

  lemma ReceiverRepeats(st: Station, i: Input)
    requires !Finished(st) && Waits(st.tx) && !i.outIdle && Undisturbed(i.(recvExpired := false)) && i.recvExpired
    requires i.arrival == Silence
    requires st.rx.state == RxRposAck || st.rx.state == RxSkipAck || st.rx.state == RxData
    ensures var r := RxTick(RxTimer(st.rx));
            var t := Iteration(st, i);
            if st.rx.tries < 9 then t.st == st.(rx := r.rx) && t.out == r.out else t.st.halted && t.out == []
  {
    hide RxTick, RxTimer, Halt, Finished;
    NotHalted(st);
    RequestRepeated(st.rx);
    var r := RxTick(RxTimer(st.rx));
    HaltHalts(st.(rx := r.rx));
    assert TxTick(st.tx, st.file, RxTimer(st.rx).state, i) == TxStep(st.tx, [], false);
    assert [] + r.out + [] == r.out;
  }

  lemma OtherWaits(r: Receiver)
    requires r.state != RxRposAck && r.state != RxSkipAck && r.state != RxData
    ensures RxTimer(r) == r
  {
  }

  // ---------------------------------------------------------------------------
  // Block sizes
  // ---------------------------------------------------------------------------

  // After 4096 bytes in good blocks of a size, it doubles, up to 2048.
  lemma BlocksGrow(s: Sender)
    requires PowerOfTwoBlock(s.blockSize)
    ensures var t := Grow(s);
            if (s.goodBlocks + 1) * s.blockSize >= 4096 && s.blockSize < 2048 then
              t == s.(goodBlocks := 0, blockSize := 2 * s.blockSize)
            else t == s.(goodBlocks := s.goodBlocks + 1)
  {
  }

  // ---------------------------------------------------------------------------
  // Windows
  // ---------------------------------------------------------------------------

  // With a window, a block is the last one before an acknowledgement exactly if it fills it.
  lemma WindowFills(s: Sender, bytes: seq<Byte>)
    requires s.window > 0 && s.state == Data
    ensures var t := TxBlock(s, bytes).tx;
            && t.lastAck == s.lastAck
            && (t.state == DataAck <==> t.bytesSent - t.lastAck >= t.window)
            && (t.state != DataAck ==> if s.eofseen then t.state == Eof && t.tries == 0 else t.state == Data)
  {
    hide Grow;
    GrowStays(s.(bytesSent := s.bytesSent + |bytes|));
  }

  // An acknowledgement of what is on its way moves the window; if that makes room, data goes
  // on.  Any other one is forgotten.
  lemma WindowMoves(s: Sender, pos: int)
    ensures var t := TxDataAck(s, pos);
            if s.lastAck <= pos < s.bytesSent then
              && t.lastAck == pos
              && (if s.state == DataAck && s.bytesSent - pos < s.window then t.state == Data && t.tries == 0
                  else t.state == s.state && t.tries == s.tries)
              && t == s.(lastAck := pos, state := t.state, tries := t.tries)
            else t == s
  {
  }

  // ---------------------------------------------------------------------------
  // Files given up
  // ---------------------------------------------------------------------------

  // A receiver that has given a file up says so until the sender does too: an end of file that
  // is still in earnest makes it say so again, and one that is not closes the file.
  lemma SkipGoesOn(r: Receiver, pos: int, i: Input)
    requires r.state == RxSkip || r.state == RxSkipAck
    ensures var t := RxHandle(r, PEof(pos), i);
            && !t.halt && t.rx.inbound == r.inbound
            && if pos >= 0 then t.rx == r.(state := RxSkip) && t.out == []
               else t.out == [PEofAck] && t.rx.state == RxFInfo && t.rx.tries == 0
                    && t.rx.disk == if r.status == Skipped then [] else r.disk
  {
  }

  // And data in the meantime is ignored.
  lemma SkipIgnoresData(r: Receiver, pos: int, bytes: seq<Byte>, i: Input)
    requires r.state != RxData && r.state != RxRposAck
    ensures RxHandle(r, PData(pos, bytes), i) == RxStep(r, [], false)
  {
  }

  // The sender gives up too, at once and for good.
  lemma SenderGivesUp(s: Sender, offset: int, block: nat, id: int, ok: bool)
    requires offset < 0 && (id <= 0 || id != s.rposId)
    ensures var t := TxRpos(s, offset, block, id, ok);
            && t == s.(rposId := id, status := t.status, tries := 0, state := Eof)
            && t.status == (if offset == -1 then Skipped else Refused)
            && EofOffset(t) == if !s.open then -2 else if offset == -1 then -1 else -2
  {
  }

  // A request heard twice is answered once.
  lemma RequestOnce(s: Sender, offset: int, block: nat, id: int, ok: bool)
    requires id > 0 && id == s.rposId
    ensures TxRpos(s, offset, block, id, ok) == s
  {
  }

  // A file position that cannot be reached ends the file as refused.
  lemma SeekFails(s: Sender, offset: nat, block: nat, id: int)
    requires id <= 0 || id != s.rposId
    ensures var t := TxRpos(s, offset, block, id, false);
            t == s.(eofseen := false, failed := true, rposId := id, status := Refused, tries := 0, state := Eof)
  {
  }

  // A write that fails: what has been written stays, unless the file has been taken away, and
  // the file is given up under a new id.
  lemma WriteFails(r: Receiver, bytes: seq<Byte>, i: Input)
    requires (r.state == RxData || r.state == RxRposAck) && r.received == |r.disk| && i.write != WriteOk
    ensures var t := RxHandle(r, PData(r.received, bytes), i);
            && !t.halt && t.out == [] && t.rx.state == RxSkip && t.rx.tries == 0 && t.rx.failed
            && t.rx.rposId == r.rposId + 1 && t.rx.inbound == r.inbound
            && match i.write
               case WriteGone => t.rx.status == Skipped && t.rx.disk == []
               case WriteError(part) => t.rx.status == Refused && t.rx.disk == r.disk + bytes[..Min(part, |bytes|)]
               case WriteOk => false
  {
  }

  // An end of file that does not fit: the receiver asks for the rest.
  lemma WrongEnd(r: Receiver, pos: int, i: Input)
    requires r.state == RxData && pos != r.received
    ensures var t := RxHandle(r, PEof(pos), i);
            && !t.halt && t.out == [] && t.rx.state == RxRpos && t.rx.tries == 0 && t.rx.rposId == r.rposId + 1
            && t.rx.lastPos == pos && t.rx.received == r.received && t.rx.disk == r.disk && t.rx.inbound == r.inbound
            && AskedSize(t.rx.blockSize, if r.blockSize < 0 then 0 else r.blockSize / 2)
  {
    hide Align;
    AlignIsAsked(if r.blockSize < 0 then 0 else r.blockSize / 2);
    NegativeAlign(r.blockSize / 2);
  }

  // A block out of place: the receiver asks for what comes next, or, if it has asked already,
  // asks again when the sender goes back beyond what came last.
  lemma WrongBlock(r: Receiver, pos: int, bytes: seq<Byte>, i: Input)
    requires (r.state == RxData || r.state == RxRposAck) && pos != r.received
    ensures var t := RxHandle(r, PData(pos, bytes), i);
            && !t.halt && t.out == [] && t.rx.lastPos == pos
            && t.rx.received == r.received && t.rx.disk == r.disk && t.rx.inbound == r.inbound
            && if r.state == RxData then
                 && t.rx.state == RxRpos && t.rx.tries == 0 && t.rx.rposId == r.rposId + 1
                 && AskedSize(t.rx.blockSize, if r.blockSize < 0 then 0 else r.blockSize / 2)
               else
                 && t.rx.state == (if pos < r.lastPos then RxRpos else RxRposAck)
                 && t.rx.rposId == r.rposId && t.rx.tries == r.tries && t.rx.blockSize == r.blockSize
  {
    hide Align;
    AlignIsAsked(if r.blockSize < 0 then 0 else r.blockSize / 2);
    NegativeAlign(r.blockSize / 2);
  }

  // An error ends both files with the status they have; only one being skipped loses what has
  // been received of it.
  lemma HaltCloses(st: Station)
    ensures var t := Halt(st);
            && t.halted && t.tx.state == TxAbort && !t.tx.open && t.file == st.file
            && t.tx.outcome == (if st.tx.open then Some(st.tx.status) else st.tx.outcome)
            && t.rx == st.rx.(disk := t.rx.disk)
            && t.rx.disk == if (st.rx.state == RxSkip || st.rx.state == RxSkipAck) && st.rx.status == Skipped then []
                            else st.rx.disk
  {
  }

  // A read that fails ends the file: it is refused, or skipped if it has gone; a position that
  // is not the one announced ends it as it is.
  lemma ReadFails(s: Sender, f: File, rx: RxState, i: Input)
    requires s.state == Data && !s.eofseen && i.outIdle && (s.bytesSent != s.fpos || i.read != ReadOk)
    ensures var t := TxTick(s, f, rx, i);
            && !t.halt && t.out == [] && t.tx.state == Eof && t.tx.tries == 0 && !t.tx.eofseen
            && t.tx.bytesSent == s.bytesSent && t.tx.open == s.open
            && if s.bytesSent != s.fpos then t.tx.status == s.status && t.tx.failed == s.failed
               else t.tx.failed && t.tx.status == if i.read.FileGone? then Skipped else Refused
  {
  }

  // Until the output is idle nothing is read.
  lemma ReadWaits(s: Sender, f: File, rx: RxState, i: Input)
    requires s.state == Data && !s.eofseen && !i.outIdle
    ensures TxTick(s, f, rx, i) == TxStep(s, [], false)
  {
  }

  // ---------------------------------------------------------------------------
  // Other packets
  // ---------------------------------------------------------------------------

  // INIT is taken once, and acknowledged every time; a bad one ends the batch.
  lemma InitAnswered(r: Receiver, txw: nat, rxw: nat, i: Input)
    ensures RxHandle(r, PInit(txw, rxw), i)
         == if r.state != RxInit then RxStep(r, [PInitAck], false)
            else if i.initOk then RxStep(r.(window := rxw, tries := 0, state := RxFInfo), [PInitAck], false)
            else RxStep(r, [], true)
  {
  }

  // The first one settles the windows, as the other end has named them.
  lemma WindowsTaken(st: Station, txw: nat, rxw: nat, i: Input)
    requires st.rx.state == RxInit && i.initOk
    ensures PacketTurn(st, PInit(txw, rxw), i)
         == Turn(st.(tx := st.tx.(window := txw),
                     rx := st.rx.(window := rxw, tries := 0, state := RxFInfo)), [PInitAck])
  {
    InitAnswered(st.rx, txw, rxw, i);
    NotForSender(st.tx.(window := txw), PInit(txw, rxw), i);
  }

  // The end of a batch is taken once, and refused behind it.
  lemma EndAnswered(r: Receiver, i: Input)
    ensures RxHandle(r, PEndOfBatch, i)
         == if r.state == RxFInfo then RxStep(r.(state := RxDone), [PFInfoAck(0)], false)
            else RxStep(r, if r.state == RxDone then [PFInfoAck(-2)] else [], false)
  {
  }

  // An end of file that was given up is acknowledged wherever it is not expected, any other
  // one only where it is.
  lemma UnexpectedEnd(r: Receiver, pos: int, i: Input)
    requires r.state != RxData && r.state != RxSkip && r.state != RxSkipAck
    ensures RxHandle(r, PEof(pos), i) == RxStep(r, if pos == -2 then [PEofAck] else [], false)
  {
  }

  // The receiver does not look at what is for the transmitter, nor the transmitter at what is
  // for the receiver, or not expected.
  lemma NotForReceiver(r: Receiver, p: Packet, i: Input)
    requires p.PStart? || p.PInitAck? || p.PFInfoAck? || p.PDataAck? || p.PRpos? || p.PEofAck? || p.PEnd? || p.PIdle?
    ensures RxHandle(r, p, i) == RxStep(r, [], false)
  {
  }

  predicate Expected(s: TxState, p: Packet) {
    match p
    case PStart => s == Start || s == SWait
    case PInitAck => s == Init || s == InitAck
    case PFInfoAck(_) => s == FInfo || s == FInfoAck
    case PDataAck(_) => s == Data || s == DataAck
    case PRpos(_, _, _) => s == Data || s == DataAck || s == XWait || s == Eof || s == EofAck
    case PEofAck => s == Eof || s == EofAck
    case PEnd => s == End || s == EndAck
    case _ => false
  }

  lemma NotForSender(s: Sender, p: Packet, i: Input)
    requires !Expected(s.state, p)
    ensures TxHandle(s, p, i) == TxStep(s, [], false)
  {
  }

  // The acknowledgement of an end of file: the file is closed, and the next one follows; or
  // there is none.
  lemma EndAcknowledged(s: Sender, i: Input)
    requires s.state == Eof || s.state == EofAck
    ensures var t := TxHandle(s, PEofAck, i);
            && t.out == [] && !t.halt
            && if s.open then
                 && !t.tx.open && t.tx.state == NextFile
                 && t.tx.outcome == Some(if s.eofseen then Success else s.status)
                 && t.tx.overruled == (s.overruled || (s.eofseen && s.status != InProcess))
               else t.tx == s.(tries := 0, state := End)
  {
  }

  // Answers to an offer
  lemma OfferAnswered(s: Sender, offs: int, i: Input)
    requires s.state == FInfo || s.state == FInfoAck
    ensures var t := TxHandle(s, PFInfoAck(offs), i);
            && t.out == [] && !t.halt
            && if s.eob then t.tx == s.(tries := 0, state := Rend)
               else if offs < 0 || (offs > 0 && !i.seekOk) then
                 && !t.tx.open && t.tx.state == NextFile
                 && (s.open ==>
                       t.tx.outcome == Some(if offs == -1 then Skipped else if offs < 0 then Refused else s.status))
                 && t.tx.failed == (s.failed || offs > 0)
               else
                 && t.tx.state == Data && t.tx.tries == 0 && t.tx.lastAck == offs && t.tx.open == s.open
                 && (offs > 0 ==> t.tx.fpos == t.tx.bytesSent == offs)
                 && (offs == 0 ==> t.tx.fpos == s.fpos && t.tx.bytesSent == s.bytesSent)
  {
  }
}
