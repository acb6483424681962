// Where a Hydra transfer goes on: a resend starts at the offset asked for, and a transfer under
// way can always be brought to its end, unless a damaged packet comes when all has arrived.
module HydraProgress {
  import opened Wrappers
  import opened Crc
  import opened Files
  import opened HydraSession
  import opened HydraSafety
  import opened HydraOutcome
  import opened HydraPackets

  // ---------------------------------------------------------------------------
  // Turns in which only one half of a station has anything to do
  // ---------------------------------------------------------------------------

  predicate Undisturbed(i: Input) {
    !i.dead && !i.abort && !i.sendExpired && !i.recvExpired
  }

  // The receiver has nothing to ask for.
  predicate Quiet(r: Receiver) {
    r.state != RxRpos && r.state != RxSkip
  }

  // The transmitter waits for an answer, or for its output to drain.
  predicate Waits(s: Sender) {
    || s.state == SWait || s.state == InitAck || s.state == FInfoAck || s.state == DataAck || s.state == EofAck
    || s.state == EndAck || s.state == TxDone || (s.state == Data && !s.eofseen)
  }

  predicate ForSender(a: Arrival) {
    a.Got? ==> a.packet.PFInfoAck? || a.packet.PRpos? || a.packet.PEofAck? || a.packet.PInitAck? || a.packet.PEnd?
  }

  predicate ForReceiver(a: Arrival) {
    a.Got? ==> a.packet.PFileInfo? || a.packet.PEndOfBatch? || a.packet.PData? || a.packet.PEof?
  }

  lemma SenderOnly(st: Station, i: Input)
    requires !Finished(st) && Quiet(st.rx) && Undisturbed(i) && !i.arrival.Noise? && ForSender(i.arrival)
    ensures var t := TxTick(st.tx, st.file, st.rx.state, i);
            !t.halt ==>
              Iteration(st, i)
              == if i.arrival.Silence? then Turn(st.(tx := t.tx), t.out)
                 else
                   var u := TxHandle(t.tx, i.arrival.packet, i);
                   Turn(st.(tx := u.tx), t.out + u.out)
  {
    hide TxTick, TxHandle, Halt, Finished;
    var t := TxTick(st.tx, st.file, st.rx.state, i);
    assert !st.halted by { NotHalted(st); }
    assert t.out + [] + [] == t.out;
    if i.arrival.Got? {
      var u := TxHandle(t.tx, i.arrival.packet, i);
      assert t.out + [] + (u.out + []) == t.out + u.out;
    }
  }

  lemma NotHalted(st: Station)
    requires !Finished(st)
    ensures !st.halted
  {
  }

  lemma ReceiverOnly(st: Station, i: Input)
    requires !Finished(st) && Waits(st.tx) && !i.outIdle && Undisturbed(i) && ForReceiver(i.arrival)
    ensures var r := RxTick(st.rx);
            !r.halt ==>
              Iteration(st, i)
              == match i.arrival
                 case Silence => Turn(st.(rx := r.rx), r.out)
                 case Noise => Turn(st.(rx := RxNoise(r.rx)), r.out)
                 case Got(p) =>
                   var u := RxHandle(r.rx, p, i);
                   Turn(if u.halt then Halt(st.(rx := u.rx)) else st.(rx := u.rx), r.out + u.out)
  {
    hide RxTick, RxHandle, Halt, Finished, RxNoise, Iteration;
    ReceiverTurns(st, i);
  }

  // The transmitter has nothing to send.
  lemma ReceiverTurns(st: Station, i: Input)
    requires !Finished(st) && Undisturbed(i) && ForReceiver(i.arrival)
    requires TxTick(st.tx, st.file, st.rx.state, i) == TxStep(st.tx, [], false)
    ensures var r := RxTick(st.rx);
            !r.halt ==>
              Iteration(st, i)
              == match i.arrival
                 case Silence => Turn(st.(rx := r.rx), r.out)
                 case Noise => Turn(st.(rx := RxNoise(r.rx)), r.out)
                 case Got(p) =>
                   var u := RxHandle(r.rx, p, i);
                   Turn(if u.halt then Halt(st.(rx := u.rx)) else st.(rx := u.rx), r.out + u.out)
  {
    hide TxTick, RxTick, RxHandle, Halt, Finished, RxNoise;
    NotHalted(st);
    var r := RxTick(st.rx);
    assert [] + r.out + [] == r.out;
    if i.arrival.Got? {
      var u := RxHandle(r.rx, i.arrival.packet, i);
      assert [] + r.out + ([] + u.out) == r.out + u.out;
    }
  }

  // ---------------------------------------------------------------------------
  // A resend
  // ---------------------------------------------------------------------------

  // The block size asked for: the least that is allowed and holds b, or the largest
  predicate AskedSize(n: int, b: nat) {
    && PowerOfTwoBlock(n) && (b <= n || n == 2048)
    && forall m :: PowerOfTwoBlock(m) && b <= m ==> n <= m
  }

  lemma AlignIsAsked(b: nat)
    ensures AskedSize(Align(b), b)
  {
  }

  predicate Sends(s: TxState) {
    s == Data || s == DataAck || s == Eof || s == EofAck
  }

  lemma GrowStays(s: Sender)
    ensures var t := Grow(s);
            t == s.(goodBlocks := t.goodBlocks, blockSize := t.blockSize)
            && (t.blockSize == s.blockSize || PowerOfTwoBlock(t.blockSize))
  {
  }

  lemma BlockGoesOut(s: Sender, bytes: seq<Byte>)
    ensures var t := TxBlock(s, bytes);
            && t.out == [PData(s.bytesSent, bytes)] && !t.halt
            && t.tx == s.(bytesSent := s.bytesSent + |bytes|, goodBlocks := t.tx.goodBlocks,
                          blockSize := t.tx.blockSize, state := t.tx.state, tries := t.tx.tries)
            && (t.tx.blockSize == s.blockSize || PowerOfTwoBlock(t.tx.blockSize))
            && (s.window == 0 ==> if s.eofseen then t.tx.state == Eof && t.tx.tries == 0 else t.tx.state == s.state)
            && (t.tx.state == s.state || t.tx.state == Eof || t.tx.state == DataAck)
  {
    hide Grow;
    GrowStays(s.(bytesSent := s.bytesSent + |bytes|));
  }

  // The next read of a transmitter in HTX_DATA
  lemma NextRead(s: Sender, f: File, rx: RxState, i: Input)
    requires s.state == Data && !s.eofseen && s.bytesSent == s.fpos <= |f| && s.blockSize > 0
    requires i.outIdle && i.read == ReadOk
    ensures var t := TxTick(s, f, rx, i);
            var n := Min(s.blockSize, |f| - s.fpos);
            && !t.halt && t.tx.fpos == t.tx.bytesSent == s.fpos + n
            && t.tx == s.(fpos := t.tx.fpos, bytesSent := t.tx.bytesSent, eofseen := n < s.blockSize,
                          state := t.tx.state, tries := t.tx.tries, goodBlocks := t.tx.goodBlocks,
                          blockSize := t.tx.blockSize)
            && (t.tx.blockSize == s.blockSize || PowerOfTwoBlock(t.tx.blockSize))
            && (if n > 0 then
                  && t.out == [PData(s.fpos, f[s.fpos..s.fpos + n])]
                  && (s.window == 0 ==> if n < s.blockSize then t.tx.state == Eof && t.tx.tries == 0
                      else t.tx.state == Data)
                else t.out == [] && t.tx.state == Eof && t.tx.tries == 0)
  {
    hide TxBlock;
    var n := Min(s.blockSize, |f| - s.fpos);
    if n > 0 {
      BlockGoesOut(s.(eofseen := n < s.blockSize, fpos := s.fpos + n), f[s.fpos..s.fpos + n]);
    }
  }

  // A new request is heard.
  lemma RequestHeard(st: Station, i: Input, offset: nat, block: nat, id: int)
    requires !Finished(st) && Quiet(st.rx) && Undisturbed(i)
    requires i.arrival == Got(PRpos(offset, block, id)) && i.seekOk
    requires var t := TxTick(st.tx, st.file, st.rx.state, i);
             !t.halt && Sends(t.tx.state) && (id <= 0 || id != t.tx.rposId)
    ensures var s := TxTick(st.tx, st.file, st.rx.state, i).tx;
            var t := Iteration(st, i);
            && t.st == st.(tx := t.st.tx) && t.out == TxTick(st.tx, st.file, st.rx.state, i).out && !Finished(t.st)
            && t.st.tx == s.(state := Data, eofseen := false, rposId := id, fpos := offset, bytesSent := offset,
                             lastAck := offset, blockSize := t.st.tx.blockSize, goodBlocks := t.st.tx.goodBlocks)
            && (if block > 0 then AskedSize(t.st.tx.blockSize, block) else t.st.tx.blockSize == s.blockSize)
  {
    hide TxTick, Iteration, Align, Quiet, Rewind;
    var s := TxTick(st.tx, st.file, st.rx.state, i).tx;
    SenderOnly(st, i);
    AlignIsAsked(block);
    AskedSizePositive(Align(block), block);
    Rewound(s, offset, if block > 0 then Align(block) else 0, id);
    assert TxTick(st.tx, st.file, st.rx.state, i).out + [] == TxTick(st.tx, st.file, st.rx.state, i).out;
  }

  lemma Rewound(s: Sender, offset: nat, size: nat, id: int)
    requires Sends(s.state)
    ensures var t := Rewind(s, offset, size, id);
            t == s.(state := Data, eofseen := false, rposId := id, fpos := offset, bytesSent := offset,
                    lastAck := offset, blockSize := t.blockSize, goodBlocks := t.goodBlocks)
    ensures Rewind(s, offset, size, id).blockSize == if size != 0 then size else s.blockSize
  {
  }

  lemma AskedSizePositive(n: int, b: nat)
    requires AskedSize(n, b)
    ensures n > 0
  {
  }

  // A request that has not been heard before is answered with the bytes at its offset, in
  // blocks of the size asked for, whatever has been sent before.
  lemma ResendFromOffset(st: Station, i: Input, j: Input, offset: nat, block: nat, id: int)
    requires !Finished(st) && Quiet(st.rx) && Undisturbed(i) && offset <= |st.file|
    requires i.arrival == Got(PRpos(offset, block, id)) && i.seekOk
    requires var t := TxTick(st.tx, st.file, st.rx.state, i);
             !t.halt && Sends(t.tx.state) && t.tx.blockSize > 0 && (id <= 0 || id != t.tx.rposId)
    requires Undisturbed(j) && j.outIdle && j.read == ReadOk && j.arrival == Silence
    ensures var size := TxTick(st.tx, st.file, st.rx.state, i).tx.blockSize;
            var t := Iteration(st, i).st;
            var u := Iteration(t, j);
            && t.tx.state == Data && t.tx.rposId == id && t.tx.lastAck == offset
            && (if block > 0 then AskedSize(t.tx.blockSize, block) else t.tx.blockSize == size)
            && (if offset < |st.file| then
                  var n := Min(t.tx.blockSize, |st.file| - offset);
                  u.out == [PData(offset, st.file[offset..offset + n])] && u.st.tx.bytesSent == offset + n
                else u.out == [] && u.st.tx.state == Eof)
  {
    hide TxTick, Iteration, Finished, Quiet;
    RequestHeard(st, i, offset, block, id);
    var t := Iteration(st, i).st;
    NextRead(t.tx, t.file, t.rx.state, j);
    assert Quiet(t.rx) by { SameQuiet(st.rx, t.rx); }
    SenderOnly(t, j);
  }

  lemma SameQuiet(r: Receiver, t: Receiver)
    requires r == t && Quiet(r)
    ensures Quiet(t)
  {
  }

  // ---------------------------------------------------------------------------
  // Windows are none, and requests have the receiver's id or an older one.
  // ---------------------------------------------------------------------------

  // What a turn does to the window and to the id of the last request heard
  predicate Kept(s: Sender, t: Sender, a: Arrival) {
    && (t.window == s.window || (a.Got? && a.packet.PInit? && t.window == a.packet.txwindow))
    && (t.rposId == s.rposId || (a.Got? && a.packet.PRpos? && t.rposId == a.packet.id))
    && Advances(s, t)
  }

  // No state leads into HTX_XWAIT.
  predicate Advances(s: Sender, t: Sender) {
    s.state != XWait ==> t.state != XWait
  }

  predicate Alike(s: Sender, t: Sender) {
    t.window == s.window && t.rposId == s.rposId && Advances(s, t)
  }

  lemma CloseKeeps(s: Sender)
    ensures Alike(s, TxClose(s)) && Alike(s, TxOpen(s)) && Alike(s, TxOpen(TxClose(s)))
  {
  }

  lemma TryKeeps(s: Sender, next: TxState, p: Packet)
    requires next != XWait
    ensures Alike(s, TxTry(s, next, p).tx)
  {
    var t := TxTry(s, next, p).tx;
    assert t.state == (if s.tries < 9 then next else s.state);
  }

  lemma FInfoKeeps(s: Sender, f: File)
    ensures Alike(s, TxFInfo(s, f).tx)
  {
    hide TxTry;
    TryKeeps(s, FInfoAck, if s.eob then PEndOfBatch else PFileInfo(|f|));
  }

  lemma DataKeeps(s: Sender, f: File, read: ReadOutcome)
    ensures Alike(s, TxData(s, f, read).tx)
  {
    hide TxBlock;
    var n := Min(s.blockSize, |f| - s.fpos);
    if n > 0 {
      BlockGoesOut(s.(eofseen := n < s.blockSize, fpos := s.fpos + n), f[s.fpos..s.fpos + n]);
    }
  }

  lemma TickKeeps(s: Sender, f: File, rx: RxState, i: Input)
    ensures Alike(s, TxTick(s, f, rx, i).tx)
  {
    hide TxTick;
    if s.state == NextFile || s.state == FInfo {
      OffersKeep(s, f, rx, i);
    } else if s.state == Data {
      DataTickKeeps(s, f, rx, i);
    } else if Tries(s.state) {
      TriesKeep(s, f, rx, i);
    } else {
      OthersKeep(s, f, rx, i);
    }
  }

  lemma OffersKeep(s: Sender, f: File, rx: RxState, i: Input)
    requires s.state == NextFile || s.state == FInfo
    ensures Alike(s, TxTick(s, f, rx, i).tx)
  {
    hide TxFInfo, TxOpen, TxClose;
    CloseKeeps(s);
    FInfoKeeps(s, f);
    FInfoKeeps(TxOpen(TxClose(s)).(tries := 0, state := FInfo), f);
  }

  lemma DataTickKeeps(s: Sender, f: File, rx: RxState, i: Input)
    requires s.state == Data
    ensures Alike(s, TxTick(s, f, rx, i).tx)
  {
    hide TxData;
    DataKeeps(s, f, i.read);
  }

  predicate Tries(s: TxState) {
    s == Start || s == Init || s == Eof || s == End
  }

  lemma TriesKeep(s: Sender, f: File, rx: RxState, i: Input)
    requires Tries(s.state)
    ensures Alike(s, TxTick(s, f, rx, i).tx)
  {
    hide TxTry, EofOffset;
    TryKeeps(s, SWait, PStart);
    TryKeeps(s, InitAck, PInit(0, 0));
    TryKeeps(s, EofAck, PEof(EofOffset(s)));
    TryKeeps(s, EndAck, PEnd);
  }

  lemma OthersKeep(s: Sender, f: File, rx: RxState, i: Input)
    requires s.state != NextFile && s.state != FInfo && s.state != Data && !Tries(s.state)
    ensures Alike(s, TxTick(s, f, rx, i).tx)
  {
  }

  lemma RewindKeeps(s: Sender, offset: nat, size: nat, status: Status, id: int)
    ensures var t := Rewind(s, offset, size, id); t.window == s.window && t.rposId == id && Advances(s, t)
    ensures var t := GiveUp(s, status, id); t.window == s.window && t.rposId == id && Advances(s, t)
  {
  }

  lemma RposKeeps(s: Sender, offset: int, block: nat, id: int, ok: bool)
    ensures var t := TxRpos(s, offset, block, id, ok);
            t.window == s.window && (t.rposId == s.rposId || t.rposId == id) && Advances(s, t)
  {
    hide Align, Rewind, GiveUp;
    if offset >= 0 {
      RewindKeeps(s, offset, if block > 0 then Align(block) else 0, Refused, id);
      RewindKeeps(s.(eofseen := false, failed := true), 0, 0, Refused, id);
    } else {
      RewindKeeps(s, 0, 0, if offset == -1 then Skipped else Refused, id);
    }
  }

  lemma AnswersKeep(s: Sender, offset: int, ok: bool)
    ensures Alike(s, TxFInfoAck(s, offset, ok)) && Alike(s, TxDataAck(s, offset)) && Alike(s, TxEofAck(s))
  {
  }

  lemma HandleKeeps(s: Sender, p: Packet, i: Input)
    ensures var t := TxHandle(s, p, i).tx;
            t.window == s.window && (t.rposId == s.rposId || (p.PRpos? && t.rposId == p.id)) && Advances(s, t)
  {
    hide TxRpos, TxFInfoAck, TxDataAck, TxEofAck;
    match p {
      case PRpos(offset, block, id) => RposKeeps(s, offset, block, id, i.seekOk);
      case PFInfoAck(offset) => AnswersKeep(s, offset, i.seekOk);
      case PDataAck(offset) => AnswersKeep(s, offset, i.seekOk);
      case _ => AnswersKeep(s, 0, i.seekOk);
    }
  }

  lemma HaltKeepsTx(st: Station)
    ensures Alike(st.tx, Halt(st).tx)
  {
  }

  lemma ArrivalKeepsTx(st: Station, i: Input)
    ensures Kept(st.tx, ArrivalTurn(st, i).st.tx, i.arrival)
  {
    hide TxHandle, RxHandle, Halt, RxNoise;
    HaltKeepsTx(st);
    if i.arrival.Got? {
      var p := i.arrival.packet;
      var t := TxHandle(TxWindow(st, p, i), p, i);
      HandleKeeps(TxWindow(st, p, i), p, i);
      HaltKeepsTx(st.(tx := t.tx, rx := RxHandle(st.rx, p, i).rx));
    }
  }

  lemma SwitchesKeepTx(st: Station, i: Input)
    ensures Alike(st.tx, TimersTurn(st, i).tx)
    ensures Alike(st.tx, TxTurn(st, i).st.tx)
    ensures Alike(st.tx, RxTurn(st).st.tx)
  {
    hide TxTick, RxTick, Halt;
    TickKeeps(st.tx, st.file, st.rx.state, i);
    HaltKeepsTx(st.(tx := TxTick(st.tx, st.file, st.rx.state, i).tx));
    HaltKeepsTx(st.(rx := RxTick(st.rx).rx));
  }

  lemma IterationKeepsTx(st: Station, i: Input)
    ensures Kept(st.tx, Iteration(st, i).st.tx, i.arrival)
  {
    hide TimersTurn, TxTurn, RxTurn, ArrivalTurn, Halt, Finished;
    HaltKeepsTx(st);
    var s0 := TimersTurn(st, i);
    var t := TxTurn(s0, i);
    SwitchesKeepTx(st, i);
    SwitchesKeepTx(s0, i);
    SwitchesKeepTx(t.st, i);
    ArrivalKeepsTx(RxTurn(t.st).st, i);
  }

  ghost predicate Tame(tx: Sender, rx: Receiver, back: Net) {
    && tx.window == 0 && tx.rposId <= rx.rposId && rx.rposId >= 100 && tx.state != XWait
    && forall p :: p in back && p.PRpos? ==> p.id <= rx.rposId
  }

  ghost predicate Windowless(net: Net) {
    forall p :: p in net && p.PInit? ==> p.txwindow == 0
  }

  lemma TurnTames(st: Station, peer: Station, out: Net, back: Net, i: Input)
    requires Tame(st.tx, peer.rx, back) && Tame(peer.tx, st.rx, out) && Windowless(back) && Deliverable(back, i)
    ensures var t := Iteration(st, i);
            Tame(t.st.tx, peer.rx, back) && Tame(peer.tx, t.st.rx, Sent(out, t.out))
  {
    hide Iteration;
    IterationKeepsTx(st, i);
    IterationIds(st, i);
  }

  ghost predicate BothTame(s: System) {
    Tame(s.a.tx, s.b.rx, s.ba) && Tame(s.b.tx, s.a.rx, s.ab)
  }

  lemma InvariantWindowless(s: System)
    requires Invariant(s)
    ensures Windowless(s.ab) && Windowless(s.ba)
  {
    hide Both;
    BothSwaps(s.a, s.b, s.ab, s.ba);
    BothOk(s.a, s.b, s.ab, s.ba);
    BothOk(s.b, s.a, s.ba, s.ab);
  }

  lemma {:induction false} RunTames(trace: seq<System>, k: nat)
    requires Run(trace) && k < |trace|
    ensures BothTame(trace[k])
    decreases k
  {
    hide Iteration, Invariant, Tame, Windowless, Initial;
    RunInvariant(trace, k);
    if k == 0 {
      InitialTame(trace[0]);
    } else {
      RunTames(trace, k - 1);
      RunInvariant(trace, k - 1);
      var s, t := trace[k - 1], trace[k - 1 + 1];
      InvariantWindowless(s);
      assert Next(s, t);
      if i: Input :| Deliverable(s.ba, i) && t == TurnOfA(s, i) {
        TurnTames(s.a, s.b, s.ab, s.ba, i);
      } else {
        var i: Input :| Deliverable(s.ab, i) && t == TurnOfB(s, i);
        TurnTames(s.b, s.a, s.ba, s.ab, i);
      }
    }
  }

  lemma InitialTame(s: System)
    requires Initial(s)
    ensures BothTame(s)
  {
  }
}
