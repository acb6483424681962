// The transfer mode of source/bforce/prot_binkp.c for one file: binkp_getforsend at the
// sending end and binkp_doreceiveblock at both, joined by two reliable FIFO links.  The
// transfer in the other direction shows only in that it may occupy `extracmd`.
module BinkpResume {
  import opened Wrappers
  import opened Crc
  import opened Files

  // M_FILE with its offset (-1 in NR mode), data blocks, M_EOB; and the answers.
  datatype Forward = FileAt(off: int) | Data(bytes: seq<Byte>) | Eob
  datatype Answer = Get(off: nat) | Got | Skip

  // extracmd: free, taken by the other transfer, or holding a message of this one.
  datatype Slot<T> = Free | Busy | Holds(msg: T)

  function Held<T>(s: Slot<T>): seq<T> {
    if s.Holds? then [s.msg] else []
  }

  // ---------------------------------------------------------------------------
  // Sender
  // ---------------------------------------------------------------------------

  // Phases 1, 3 and 4 are passed through within one call.
  datatype Phase = NextFile | SendData | AllSent

  datatype Status = InProcess | WaitAck | Success | Skipped | Refused

  datatype Sender = Sender(
    phase: Phase,
    queued: bool,        // p_tx_fopen still has the file to offer
    current: bool,       // pi->send != NULL
    fpOpen: bool,        // the file's fp != NULL
    fpos: nat, bytesSent: nat,
    status: Status,
    nr: bool,            // NR mode
    noMore: bool,        // no_more_to_send
    continueSend: bool,
    slot: Slot<Forward>,
    sendDone: nat,       // batchsendcomplete
    recvDone: nat,       // batchreceivecomplete
    ended: bool,         // the session was given up
    crashed: bool,       // pi->send was dereferenced after it had been closed
    released: bool)      // history: the file was closed as sent or skipped, and may be deleted

  function NewSender(nr: bool): Sender {
    Sender(NextFile, true, false, false, 0, 0, InProcess, nr, false, false, Free, 0, 0, false, false, false)
  }

  predicate Releases(s: Status) {
    s == Success || s == Skipped
  }

  // p_tx_fclose
  function CloseSent(a: Sender): Sender {
    if a.current then a.(current := false, fpOpen := false, released := a.released || Releases(a.status)) else a
  }

  datatype Sent = Sent(a: Sender, out: seq<Forward>)

  // Phase 0: the next file, or the end of the batch.
  function Announce(a: Sender): Sent {
    if !a.queued then Sent(a.(phase := AllSent, sendDone := a.sendDone + 1), [Eob])
    else
      var o := a.(queued := false, current := true, fpOpen := true, fpos := 0, bytesSent := 0, status := InProcess);
      if a.nr then Sent(o.(phase := NextFile, noMore := true), [FileAt(-1)])
      else Sent(o.(phase := SendData), [FileAt(0)])
  }

  const READ_SIZE := 4096

  // Phase 2
  function NextBlock(a: Sender, file: File, readOk: bool): Sent {
    if !readOk || !a.fpOpen || a.bytesSent != a.fpos then Sent(a.(ended := true), [])
    else
      var n := Min(READ_SIZE, |file| - a.fpos);
      if n > 0 then
        Sent(a.(fpos := a.fpos + n, bytesSent := a.bytesSent + n), [Data(file[a.fpos..a.fpos + n])])
      else Announce(a.(status := WaitAck, phase := NextFile))
  }

  // One call of binkp_getforsend from the loop
  function GetForSend(a: Sender, file: File, readOk: bool): Sent {
    var c := if a.continueSend then a.(noMore := false, continueSend := false) else a;
    match c.slot
    case Holds(m) => Sent(c.(slot := Free), [m])
    case Busy => Sent(c.(slot := Free), [])
    case Free =>
      if c.noMore then Sent(c, [])
      else
        match c.phase
        case NextFile => Announce(c)
        case SendData => NextBlock(c, file, readOk)
        case AllSent => Sent(c.(noMore := true), [])
  }

  // M_GET; the caller has found extracmd free.
  function HearGet(a: Sender, off: nat, seekOk: bool): Sender {
    var answer := a.(slot := Holds(FileAt(off)), phase := SendData, continueSend := true);
    if a.current && off == a.bytesSent then answer
    else if a.current then
      if seekOk && a.fpOpen then answer.(fpos := off, bytesSent := off)
      else CloseSent(a).(ended := true)
    else a.(ended := true)  // p_tx_fopen finds the file closed
  }

  // M_GOT and M_SKIP
  function HearEnd(a: Sender, skip: bool): Sender {
    if !a.current then a.(crashed := true, ended := true)
    else
      var c := if a.status != WaitAck then CloseSent(a).(phase := NextFile) else a;
      var s := if skip then Refused else if c.status == WaitAck then Success else Skipped;
      c.(status := s, fpOpen := false, released := c.released || Releases(s))
  }

  // ---------------------------------------------------------------------------
  // Receiver
  // ---------------------------------------------------------------------------

  datatype FileStatus = Nothing | Receiving | DidGet | Skipping

  datatype ProtocolError = Overlapping | UnexpectedData | ExtraData | Malformed

  // p_rx_fopen: accept with what an earlier session left, refuse, or have it already.
  datatype OpenOutcome = OpenResume(keep: nat) | OpenRefuse | OpenHave

  datatype Receiver = Receiver(
    frs: FileStatus,
    open: bool,          // pi->recv->fp != NULL
    disk: seq<Byte>,     // the partial file
    received: nat,       // bytes_received
    skipped: nat,        // bytes_skipped
    slot: Slot<Answer>,
    recvDone: nat,       // batchreceivecomplete
    sendDone: nat,       // batchsendcomplete
    error: Option<ProtocolError>,
    inbound: seq<File>,  // history: files moved to the inbound directory
    declined: bool,      // history: p_rx_fopen answered that the file is there already
    failed: bool,        // history: a local file error has happened
    ended: bool,         // history: an M_EOB has come in since the last M_FILE
    premature: bool)     // history: a batch was restarted without one while a file was in hand

  function NewReceiver(leftover: seq<Byte>): Receiver {
    Receiver(Nothing, false, leftover, 0, 0, Free, 0, 0, None, [], false, false, true, false)
  }

  function Fail(b: Receiver, e: ProtocolError): Receiver {
    b.(error := Some(e))
  }

  // A file is opened, or found open: go on with it or ask for the rest.
  function Opened(b: Receiver, off: int): Receiver {
    if b.skipped == off then b.(frs := Receiving) else b.(slot := Holds(Get(b.skipped)), frs := DidGet)
  }

  // M_FILE outside a transfer; the caller has found extracmd free.
  function HearOffer(b: Receiver, off: int, open: OpenOutcome): Receiver {
    if b.open then Opened(b, off)
    else
      match open
      case OpenResume(keep) =>
        var n := Min(keep, |b.disk|);
        Opened(b.(open := true, disk := b.disk[..n], received := n, skipped := n), off)
      case OpenRefuse => b.(slot := Holds(Skip), frs := Skipping)
      case OpenHave => b.(slot := Holds(Got), frs := Skipping, declined := true)
  }

  // The first block that cannot be written, or does not belong, ends the file.
  function Drop(b: Receiver, answer: Answer): Receiver {
    b.(frs := Skipping, open := false, slot := Holds(answer), failed := true)
  }

  function Written(b: Receiver, total: nat, closeOk: bool): Receiver {
    if b.received > total then Fail(b.(frs := Skipping, open := false), ExtraData)
    else if b.received == total then
      var c := b.(frs := Nothing, open := false);
      if closeOk then c.(inbound := b.inbound + [b.disk], slot := Holds(Got))
      else c.(slot := Holds(Skip), failed := true)
    else b
  }

  function HearData(b: Receiver, bytes: seq<Byte>, total: nat, write: WriteOutcome, closeOk: bool): Receiver {
    if b.received != |b.disk| then Drop(b.(received := |b.disk|), Skip)
    else
      match write
      case WriteGone => Drop(b, Got)
      case WriteError(part) => Drop(b.(disk := b.disk + bytes[..Min(part, |bytes|)]), Skip)
      case WriteOk => Written(b.(disk := b.disk + bytes, received := b.received + |bytes|), total, closeOk)
  }

  datatype Heard = Heard(b: Receiver, taken: bool)

  // One block: not taken means that it waits until extracmd has been sent.
  function DoReceiveBlock(b: Receiver, m: Forward, total: nat, open: OpenOutcome, write: WriteOutcome,
                          closeOk: bool): Heard {
    match m
    case Eob => Heard(b.(recvDone := b.recvDone + 1, ended := true), true)
    case FileAt(off) =>
      if b.frs == Receiving then Heard(Fail(b, Overlapping), true)
      else if b.frs == DidGet && b.open && b.skipped == off then Heard(b.(frs := Receiving, ended := false), true)
      else if b.slot != Free then Heard(b, false)
      else if b.frs == DidGet then Heard(b.(slot := Holds(Skip), ended := false), true)
      else Heard(HearOffer(b, off, open).(ended := false), true)
    case Data(bytes) =>
      if bytes == [] then Heard(b, true)
      else if b.frs == Nothing then Heard(Fail(b, UnexpectedData), true)
      else if b.frs == DidGet || b.frs == Skipping then Heard(b, true)
      else if b.slot != Free then Heard(b, false)
      else Heard(HearData(b, bytes, total, write, closeOk), true)
  }

  // Both batches are complete and another one begins.
  function Restart(b: Receiver): Receiver
    requires b.recvDone > 0 && b.sendDone > 0
  {
    b.(frs := Nothing, recvDone := b.recvDone - 1, sendDone := b.sendDone - 1,
       premature := b.premature || (b.frs != Nothing && !b.ended))
  }

  // ---------------------------------------------------------------------------
  // The two ends
  // ---------------------------------------------------------------------------

  datatype System = System(a: Sender, b: Receiver, file: File, ab: seq<Forward>, ba: seq<Answer>)

  datatype Step =
    | SenderSends(readOk: bool)
    | SenderHears(seekOk: bool)
    | SenderBusy                    // the other transfer puts a command into extracmd
    | SenderBatch                   // the other end's batch is complete
    | SenderRestarts
    | ReceiverSends
    | ReceiverHears(open: OpenOutcome, write: WriteOutcome, closeOk: bool)
    | ReceiverBusy
    | ReceiverBatch                 // its own sending is complete
    | ReceiverRestarts

  function HearAnswer(a: Sender, m: Answer, seekOk: bool): Sender {
    match m
    case Get(off) => HearGet(a, off, seekOk)
    case Got => HearEnd(a, false)
    case Skip => HearEnd(a, true)
  }

  predicate CanHear(s: System) {
    s.ba != [] && (s.ba[0].Get? ==> s.a.slot == Free)
  }

  function SenderTurn(s: System, readOk: bool): System {
    if s.a.ended then s
    else
      var t := GetForSend(s.a, s.file, readOk);
      s.(a := t.a, ab := s.ab + t.out)
  }

  function SenderListens(s: System, seekOk: bool): System {
    if s.a.ended || !CanHear(s) then s
    else s.(a := HearAnswer(s.a, s.ba[0], seekOk), ba := s.ba[1..])
  }

  // The sender's end starts another batch.
  function SenderRestart(s: System): System {
    if s.a.ended || s.a.sendDone == 0 || s.a.recvDone == 0 then s
    else s.(a := s.a.(phase := NextFile, noMore := false, sendDone := s.a.sendDone - 1, recvDone := s.a.recvDone - 1))
  }

  function ReceiverTurn(s: System): System {
    s.(b := s.b.(slot := Free), ba := s.ba + Held(s.b.slot))
  }

  function ReceiverListens(s: System, open: OpenOutcome, write: WriteOutcome, closeOk: bool): System {
    if s.ab == [] || s.b.error.Some? then s
    else
      var h := DoReceiveBlock(s.b, s.ab[0], |s.file|, open, write, closeOk);
      if h.taken then s.(b := h.b, ab := s.ab[1..]) else s
  }

  function ReceiverRestart(s: System): System {
    if s.b.recvDone == 0 || s.b.sendDone == 0 || s.b.error.Some? then s else s.(b := Restart(s.b))
  }

  function Take(s: System, step: Step): System {
    match step
    case SenderSends(readOk) => SenderTurn(s, readOk)
    case SenderHears(seekOk) => SenderListens(s, seekOk)
    case SenderBusy => if s.a.slot == Free then s.(a := s.a.(slot := Busy)) else s
    case SenderBatch => s.(a := s.a.(recvDone := s.a.recvDone + 1))
    case SenderRestarts => SenderRestart(s)
    case ReceiverSends => ReceiverTurn(s)
    case ReceiverHears(open, write, closeOk) => ReceiverListens(s, open, write, closeOk)
    case ReceiverBusy => if s.b.slot == Free then s.(b := s.b.(slot := Busy)) else s
    case ReceiverBatch => s.(b := s.b.(sendDone := s.b.sendDone + 1))
    case ReceiverRestarts => ReceiverRestart(s)
  }

  function Run(s: System, steps: seq<Step>): System {
    if steps == [] then s else Take(Run(s, steps[..|steps| - 1]), steps[|steps| - 1])
  }

  // What an earlier session has left of this very file is its beginning.
  predicate Initial(s: System) {
    && (s.a == NewSender(true) || s.a == NewSender(false))
    && s.b == NewReceiver(s.b.disk) && s.b.disk <= s.file
    && s.ab == [] && s.ba == []
  }
}
