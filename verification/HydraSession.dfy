// hydra_batch of source/bforce/prot_hydra.c as a state machine: the transmit side, the
// receive side, and one turn of the main loop.  A station sends at most one file.
module HydraSession {
  import opened Wrappers
  import opened Crc
  import opened Files

  datatype TxState =
    | TxDone | Start | SWait | Init | InitAck | RInit | NextFile | ToFName | FInfo | FInfoAck
    | Data | SkipFile | DataAck | XWait | Eof | EofAck | Rend | End | EndAck | TxAbort

  datatype RxState = RxDone | RxInit | RxFInfo | RxData | RxRpos | RxRposAck | RxSkip | RxSkipAck

  datatype Status = InProcess | Success | Skipped | Refused

  // Packets with their offsets already read as signed 32-bit numbers.
  datatype Packet =
    | PStart | PInit(txwindow: nat, rxwindow: nat) | PInitAck
    | PFileInfo(total: nat) | PEndOfBatch | PFInfoAck(ack: int)
    | PData(pos: int, bytes: seq<Byte>) | PDataAck(ackPos: int)
    | PRpos(rpos: int, block: nat, id: int)
    | PEof(eofPos: int) | PEofAck | PEnd | PIdle

  // ---------------------------------------------------------------------------
  // What the environment decides in one turn
  // ---------------------------------------------------------------------------

  // p_tx_readfile: a good read, an error after the file position moved, or a lost file.
  datatype ReadOutcome = ReadOk | ReadError(at: nat) | FileGone

  // p_rx_fopen: start afresh, go on with a file of this name and time that is left over (or,
  // if it is complete, move it to the inbound directory), refuse, or skip.
  datatype OpenOutcome = OpenFresh | OpenKept(moved: bool) | OpenRefuse | OpenSkip

  datatype Arrival = Silence | Noise | Got(packet: Packet)

  datatype Input = Input(
    dead: bool,           // the dead timer, looked at first
    abort: bool,          // link failure, time or speed limit
    sendExpired: bool, recvExpired: bool, idleDue: bool,
    outIdle: bool,        // oencpos == 0 && n_pkts == 0
    read: ReadOutcome, seekOk: bool,
    open: OpenOutcome, write: WriteOutcome, closeOk: bool, initOk: bool,
    arrival: Arrival)

  // ---------------------------------------------------------------------------
  // State
  // ---------------------------------------------------------------------------

  datatype Sender = Sender(
    state: TxState,
    tries: nat,
    queued: bool,         // p_tx_fopen still has a file to offer
    eob: bool,            // send_EOB
    open: bool,           // pi->send != NULL
    fpos: nat,            // ftell(pi->send->fp)
    bytesSent: int,
    eofseen: bool,
    status: Status,
    blockSize: int,
    goodBlocks: nat,
    lastAck: int,
    window: nat,
    rposId: int,
    outcome: Option<Status>,  // status of the file once closed
    overruled: bool,          // history: an EOFACK turned a refused or skipped file into a success
    failed: bool)             // history: a local file error has happened

  datatype Receiver = Receiver(
    state: RxState,
    tries: nat,
    status: Status,
    disk: seq<Byte>,      // the temporary inbound file; ftell is its length
    received: int,        // bytes_received
    total: nat,           // bytes_total
    blockSize: int,
    rposId: int,
    lastPos: int,
    window: nat,
    inbound: seq<File>,   // history: files moved to the inbound directory
    failed: bool)         // history: a local file error has happened

  datatype Station = Station(tx: Sender, rx: Receiver, file: File, halted: bool)

  function NewSender(hasFile: bool): Sender {
    Sender(Start, 0, hasFile, false, false, 0, 0, false, InProcess, 1024, 0, 0, 0, -1, None, false, false)
  }

  function NewReceiver(leftover: seq<Byte>): Receiver {
    Receiver(RxInit, 0, InProcess, leftover, 0, 0, 1024, 100, -1, 0, [], false)
  }

  // hydra_align_block_size: the smallest of the sizes that holds n, or the largest.
  function Align(n: int): (r: int)
    ensures r == 64 || r == 128 || r == 256 || r == 512 || r == 1024 || r == 2048
    ensures (n <= r || r == 2048) && (r / 2 < n || r == 64)
  {
    if n <= 64 then 64 else if n <= 128 then 128 else if n <= 256 then 256
    else if n <= 512 then 512 else if n <= 1024 then 1024 else 2048
  }

  // ---------------------------------------------------------------------------
  // Transmit side.  A step yields the new state, the packets queued, and whether
  // the batch ends in an error.
  // ---------------------------------------------------------------------------

  datatype TxStep = TxStep(tx: Sender, out: seq<Packet>, halt: bool)

  // A wait for an answer that has lasted too long.
  function Resend(state: TxState): TxState {
    match state
    case SWait => Start
    case InitAck => Init
    case FInfoAck => FInfo
    case DataAck => Data
    case EofAck => Eof
    case EndAck => End
    case _ => state
  }

  function TxTimer(s: Sender): Sender {
    s.(state := Resend(s.state))
  }

  // One more try of sending p, or the end of the batch after nine.
  function TxTry(s: Sender, next: TxState, p: Packet): TxStep {
    var t := s.(tries := s.tries + 1);
    if t.tries < 10 then TxStep(t.(state := next), [p], false) else TxStep(t, [], true)
  }

  // p_tx_fclose
  function TxClose(s: Sender): Sender {
    if s.open then s.(open := false, outcome := Some(s.status)) else s
  }

  // p_tx_fopen with one file at most in the queue
  function TxOpen(s: Sender): Sender {
    if s.queued then
      s.(queued := false, open := true, eob := false, fpos := 0, bytesSent := 0, eofseen := false, status := InProcess)
    else s.(eob := true)
  }

  function TxFInfo(s: Sender, file: File): TxStep {
    TxTry(s, FInfoAck, if s.eob then PEndOfBatch else PFileInfo(|file|))
  }

  // Block size growth after a block of n bytes.
  function Grow(s: Sender): Sender {
    var t := s.(goodBlocks := s.goodBlocks + 1);
    if t.blockSize < 2048 && t.goodBlocks * t.blockSize >= 4096 then
      t.(goodBlocks := 0, blockSize := Align(t.blockSize * 2))
    else t
  }

  // The DATA state once the output is idle.
  function TxData(s: Sender, file: File, read: ReadOutcome): TxStep {
    var t := s.(eofseen := false);
    var stop := t.(tries := 0, state := Eof);
    if s.bytesSent != s.fpos then TxStep(stop, [], false)
    else
      match read
      case FileGone => TxStep(stop.(status := Skipped, failed := true), [], false)
      case ReadError(at) => TxStep(stop.(status := Refused, fpos := Min(at, |file|), failed := true), [], false)
      case ReadOk =>
        var n := Min(t.blockSize, |file| - t.fpos);
        var u := t.(eofseen := n < t.blockSize);
        if n <= 0 then TxStep(u.(tries := 0, state := Eof), [], false)
        else TxBlock(u.(fpos := u.fpos + n), file[u.fpos..u.fpos + n])
  }

  // A block just read goes out.
  function TxBlock(s: Sender, bytes: seq<Byte>): TxStep {
    var v := Grow(s.(bytesSent := s.bytesSent + |bytes|));
    var out := [PData(s.bytesSent, bytes)];
    if v.window > 0 && v.bytesSent >= v.lastAck + v.window then TxStep(v.(state := DataAck), out, false)
    else if v.eofseen then TxStep(v.(tries := 0, state := Eof), out, false)
    else TxStep(v, out, false)
  }

  function EofOffset(s: Sender): int {
    if !s.open then -2
    else if s.status == Skipped then -1
    else if s.status == Refused then -2
    else if s.eofseen then s.bytesSent
    else -2
  }

  // The switch over txstate
  function TxTick(s: Sender, file: File, rx: RxState, i: Input): TxStep {
    match s.state
    case Start => TxTry(s, SWait, PStart)
    case Init => TxTry(s, InitAck, PInit(0, 0))
    case RInit => TxStep(if rx != RxInit then s.(state := NextFile) else s, [], false)
    case NextFile => TxFInfo(TxOpen(TxClose(s)).(tries := 0, state := FInfo), file)
    case FInfo => TxFInfo(s, file)
    case Data =>
      if s.eofseen then TxStep(s.(tries := 0, state := Eof), [], false)
      else if i.outIdle then TxData(s, file, i.read)
      else TxStep(s, [], false)
    case Eof => TxTry(s, EofAck, PEof(EofOffset(s)))
    case Rend =>
      if rx == RxDone then TxStep(s.(tries := 0, state := End), [], false)
      else TxStep(s, if i.idleDue then [PIdle] else [], false)
    case End => TxTry(s, EndAck, PEnd)
    case _ => TxStep(s, [], false)
  }

  function TxFInfoAck(s: Sender, offs: int, seekOk: bool): Sender {
    if s.eob then s.(tries := 0, state := Rend)
    else if offs == 0 then s.(lastAck := 0, tries := 0, state := Data)
    else if offs > 0 then
      if seekOk then s.(fpos := offs, bytesSent := offs, lastAck := offs, tries := 0, state := Data)
      else TxClose(s.(failed := true)).(state := NextFile)
    else TxClose(s.(status := if offs == -1 then Skipped else Refused)).(state := NextFile)
  }

  function TxDataAck(s: Sender, pos: int): Sender {
    if pos >= s.bytesSent || pos < s.lastAck then s
    else
      var t := s.(lastAck := pos);
      if t.state == DataAck && t.bytesSent < pos + t.window then t.(tries := 0, state := Data) else t
  }

  // Sending goes on from the offset asked for, in blocks of the size asked for.
  function Rewind(s: Sender, offset: nat, size: nat, id: int): Sender {
    var u := s.(eofseen := false, rposId := id, fpos := offset, bytesSent := offset, lastAck := offset);
    var v := if size != 0 && size != u.blockSize then u.(blockSize := size, goodBlocks := 0) else u;
    if v.state != XWait then v.(state := Data) else v
  }

  function GiveUp(s: Sender, status: Status, id: int): Sender {
    s.(rposId := id, status := status, tries := 0, state := Eof)
  }

  function TxRpos(s: Sender, offset: int, block: nat, id: int, seekOk: bool): Sender {
    if id > 0 && id == s.rposId then s
    else if offset < 0 then GiveUp(s, if offset == -1 then Skipped else Refused, id)
    else if seekOk then Rewind(s, offset, if block > 0 then Align(block) else 0, id)
    else GiveUp(s.(eofseen := false, failed := true), Refused, id)
  }

  function TxEofAck(s: Sender): Sender {
    if s.open then
      TxClose(if s.eofseen then s.(overruled := s.overruled || s.status != InProcess, status := Success)
          else s).(state := NextFile)
    else s.(tries := 0, state := End)
  }

  // The packets that concern the transmit side
  function TxHandle(s: Sender, p: Packet, i: Input): TxStep {
    match p
    case PStart =>
      TxStep(if s.state == Start || s.state == SWait then s.(tries := 0, state := Init) else s, [], false)
    case PInitAck =>
      TxStep(if s.state == Init || s.state == InitAck then s.(tries := 0, state := RInit) else s, [], false)
    case PFInfoAck(offs) =>
      TxStep(if s.state == FInfo || s.state == FInfoAck then TxFInfoAck(s, offs, i.seekOk) else s, [], false)
    case PDataAck(pos) =>
      TxStep(if s.state == Data || s.state == DataAck then TxDataAck(s, pos) else s, [], false)
    case PRpos(offset, block, id) =>
      TxStep(if s.state == Data || s.state == DataAck || s.state == XWait || s.state == Eof || s.state == EofAck
             then TxRpos(s, offset, block, id, i.seekOk) else s, [], false)
    case PEofAck =>
      TxStep(if s.state == Eof || s.state == EofAck then TxEofAck(s) else s, [], false)
    case PEnd =>
      if s.state == End || s.state == EndAck then TxStep(s.(tries := 0, state := TxDone), [PEnd, PEnd, PEnd], false)
      else TxStep(s, [], false)
    case _ => TxStep(s, [], false)
  }

  // ---------------------------------------------------------------------------
  // Receive side
  // ---------------------------------------------------------------------------

  datatype RxStep = RxStep(rx: Receiver, out: seq<Packet>, halt: bool)

  function Halve(n: int): int {
    Align(n / 2)
  }

  function RxTimer(r: Receiver): Receiver {
    match r.state
    case RxRposAck => r.(blockSize := Halve(r.blockSize), state := RxRpos)
    case RxSkipAck => r.(state := RxSkip)
    case RxData => r.(state := RxRpos)
    case _ => r
  }

  // The switch over rxstate: both states repeat an RPOS packet.
  function RxTick(r: Receiver): RxStep {
    if r.state == RxRpos || r.state == RxSkip then
      var t := r.(tries := r.tries + 1);
      if t.tries < 10 then
        var pos := if t.state == RxSkip then (if t.status == Skipped then -1 else -2) else t.received;
        RxStep(t.(state := if t.state == RxSkip then RxSkipAck else RxRposAck),
            [PRpos(pos, Word(t.blockSize), t.rposId)], false)
      else RxStep(t, [], true)
    else RxStep(r, [], false)
  }

  // hydra_putword keeps sixteen bits.
  function Word(n: int): nat {
    n % 65536
  }

  // A fresh request to resend from the current position.
  function AskAgain(r: Receiver): Receiver {
    r.(rposId := r.rposId + 1, blockSize := Halve(r.blockSize), tries := 0, state := RxRpos)
  }

  function RxNoise(r: Receiver): Receiver {
    if r.state == RxData then AskAgain(r) else r
  }

  // A file of which `have` bytes are there already
  function RxOpened(r: Receiver, total: nat, have: seq<Byte>): RxStep {
    RxStep(r.(status := InProcess, disk := have, received := |have|, total := total, lastPos := -1, state := RxData),
           [PFInfoAck(|have|)], false)
  }

  // A file that has been refused or skipped is so again.
  function RxFileInfo(r: Receiver, total: nat, open: OpenOutcome): RxStep {
    if r.state == RxFInfo then
      if r.status == Skipped then RxStep(r, [PFInfoAck(-1)], false)
      else if r.status == Refused then RxStep(r, [PFInfoAck(-2)], false)
      else
        match open
        case OpenFresh => RxOpened(r, total, [])
        case OpenKept(moved) =>
          if |r.disk| < total then RxOpened(r, total, r.disk)
          else if |r.disk| > total then RxOpened(r, total, [])
          else if moved then RxStep(r.(status := Skipped, inbound := r.inbound + [r.disk], disk := []),
              [PFInfoAck(-1)], false)
          else RxStep(r.(status := Refused, failed := true), [PFInfoAck(-2)], false)
        case OpenRefuse => RxStep(r.(status := Refused), [PFInfoAck(-2)], false)
        case OpenSkip => RxStep(r.(status := Skipped), [PFInfoAck(-1)], false)
    else if r.state == RxDone then RxStep(r, [PFInfoAck(-2)], false)
    else RxStep(r, [], false)
  }

  function RxEndOfBatch(r: Receiver): RxStep {
    if r.state == RxFInfo then RxStep(r.(state := RxDone), [PFInfoAck(0)], false)
    else if r.state == RxDone then RxStep(r, [PFInfoAck(-2)], false)
    else RxStep(r, [], false)
  }

  // p_rx_writefile at the current end of the file
  function RxSkipFile(r: Receiver, status: Status): Receiver {
    r.(status := status, rposId := r.rposId + 1, tries := 0, state := RxSkip, failed := true)
  }

  function RxWrite(r: Receiver, bytes: seq<Byte>, write: WriteOutcome): RxStep {
    if r.received != |r.disk| then RxStep(RxSkipFile(r.(received := |r.disk|), Refused), [], false)
    else
      match write
      case WriteGone => RxStep(RxSkipFile(r.(disk := []), Skipped), [], false)
      case WriteError(part) =>
        RxStep(RxSkipFile(r.(disk := r.disk + bytes[..Min(part, |bytes|)]), Refused), [], false)
      case WriteOk =>
        RxStep(r.(disk := r.disk + bytes, received := r.received + |bytes|),
               if r.window > 0 then [PDataAck(r.received)] else [], false)
  }

  function RxDataPacket(r: Receiver, pos: int, bytes: seq<Byte>, write: WriteOutcome): RxStep {
    if r.state != RxData && r.state != RxRposAck then RxStep(r, [], false)
    else if pos != r.received then
      var t := if r.state == RxRposAck then (if pos < r.lastPos then r.(state := RxRpos) else r) else AskAgain(r);
      RxStep(t.(lastPos := pos), [], false)
    else RxWrite(r.(blockSize := |bytes|, lastPos := pos, state := RxData), bytes, write)
  }

  // p_rx_fclose of a file that is not to be kept
  function RxDrop(r: Receiver): Receiver {
    if r.status == Skipped then r.(disk := []) else r
  }

  function RxEof(r: Receiver, pos: int, closeOk: bool): RxStep {
    if r.state == RxData then
      if pos != r.received then RxStep(AskAgain(r).(lastPos := pos), [], false)
      else if closeOk && |r.disk| == r.total then
        RxStep(r.(status := Success, inbound := r.inbound + [r.disk], disk := [], tries := 0, state := RxFInfo),
            [PEofAck], false)
      else RxStep(r.(status := Refused, tries := 0, state := RxSkip, failed := true), [], false)
    else if r.state == RxSkip || r.state == RxSkipAck then
      if pos >= 0 then RxStep(r.(state := RxSkip), [], false)
      else RxStep(RxDrop(r).(tries := 0, state := RxFInfo), [PEofAck], false)
    else if pos == -2 then RxStep(r, [PEofAck], false)
    else RxStep(r, [], false)
  }

  function RxHandle(r: Receiver, p: Packet, i: Input): RxStep {
    match p
    case PInit(txw, rxw) =>
      if r.state == RxInit then
        if i.initOk then RxStep(r.(window := rxw, tries := 0, state := RxFInfo), [PInitAck], false)
            else RxStep(r, [], true)
      else RxStep(r, [PInitAck], false)
    case PFileInfo(total) => RxFileInfo(r, total, i.open)
    case PEndOfBatch => RxEndOfBatch(r)
    case PData(pos, bytes) => RxDataPacket(r, pos, bytes, i.write)
    case PEof(pos) => RxEof(r, pos, i.closeOk)
    case _ => RxStep(r, [], false)
  }

  // ---------------------------------------------------------------------------
  // One turn of the loop
  // ---------------------------------------------------------------------------

  datatype Turn = Turn(st: Station, out: seq<Packet>)

  // gotoexit: whatever is open is closed with the status it has.  Only a file being
  // skipped loses what has been received of it.
  function HaltedTx(s: Sender): Sender {
    TxClose(s).(state := TxAbort)
  }

  function HaltedRx(r: Receiver): Receiver {
    if r.state == RxSkip || r.state == RxSkipAck then RxDrop(r) else r
  }

  function Halt(st: Station): Station {
    st.(halted := true, tx := HaltedTx(st.tx), rx := HaltedRx(st.rx))
  }

  function Finished(st: Station): bool {
    st.halted || (st.tx.state == TxDone && st.rx.state == RxDone)
  }

  function TimersTurn(st: Station, i: Input): Station {
    st.(tx := if i.sendExpired then TxTimer(st.tx) else st.tx, rx := if i.recvExpired then RxTimer(st.rx) else st.rx)
  }

  function TxTurn(st: Station, i: Input): Turn {
    var t := TxTick(st.tx, st.file, st.rx.state, i);
    var u := st.(tx := t.tx);
    Turn(if t.halt then Halt(u) else u, t.out)
  }

  function RxTurn(st: Station): Turn {
    if st.halted then Turn(st, [])
    else
      var r := RxTick(st.rx);
      var u := st.(rx := r.rx);
      Turn(if r.halt then Halt(u) else u, r.out)
  }

  // A good INIT also sets the transmit window.
  function TxWindow(st: Station, p: Packet, i: Input): Sender {
    if p.PInit? && st.rx.state == RxInit && i.initOk then st.tx.(window := p.txwindow) else st.tx
  }

  function PacketTurn(st: Station, p: Packet, i: Input): Turn {
    var t := TxHandle(TxWindow(st, p, i), p, i);
    var r := RxHandle(st.rx, p, i);
    var u := st.(tx := t.tx, rx := r.rx);
    Turn(if r.halt then Halt(u) else u, t.out + r.out)
  }

  function ArrivalTurn(st: Station, i: Input): Turn {
    if st.halted then Turn(st, [])
    else if i.abort then Turn(Halt(st), [])
    else
      match i.arrival
      case Silence => Turn(st, [])
      case Noise => Turn(st.(rx := RxNoise(st.rx)), [])
      case Got(p) => PacketTurn(st, p, i)
  }

  function Iteration(st: Station, i: Input): Turn {
    if Finished(st) then Turn(st, [])
    else if i.dead then Turn(Halt(st), [])
    else
      var t := TxTurn(TimersTurn(st, i), i);
      var r := RxTurn(t.st);
      var a := ArrivalTurn(r.st, i);
      Turn(a.st, t.out + r.out + a.out)
  }

  // A station after a series of turns, and what it has queued.
  function Turns(st: Station, inputs: seq<Input>): Turn {
    if inputs == [] then Turn(st, [])
    else
      var before := Turns(st, inputs[..|inputs| - 1]);
      var last := Iteration(before.st, inputs[|inputs| - 1]);
      Turn(last.st, before.out + last.out)
  }

  lemma {:induction false} FinishedStays(st: Station, inputs: seq<Input>)
    requires Finished(st)
    ensures Turns(st, inputs) == Turn(st, [])
  {
    hide Finished;
    if inputs != [] {
      FinishedStays(st, inputs[..|inputs| - 1]);
    }
  }

  lemma {:induction false} TurnsAfterEnd(st: Station, inputs: seq<Input>, k: nat)
    requires k <= |inputs| && Finished(Turns(st, inputs[..k]).st)
    ensures Turns(st, inputs) == Turns(st, inputs[..k])
    decreases |inputs| - k
  {
    hide Finished;
    if k < |inputs| {
      assert inputs[..k + 1][..k] == inputs[..k];
      TurnsAfterEnd(st, inputs, k + 1);
    } else {
      assert inputs[..k] == inputs;
    }
  }
}
