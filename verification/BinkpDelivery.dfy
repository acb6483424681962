// How a BinkP transfer ends (source/bforce/prot_binkp.c): what M_GOT and M_SKIP do to the file
// being sent, and runs in which files are delivered, refused, or found to be there already.
module BinkpDelivery {
  import opened Wrappers
  import opened Crc
  import opened Files
  import opened BinkpResume
  import opened BinkpInStep

  // ---------------------------------------------------------------------------
  // The end of a file
  // ---------------------------------------------------------------------------

  // What an answer that ends a file does to the sender
  predicate Answered(a: Sender, t: Sender, status: Status, released: bool) {
    t.status == status && t.released == released && !t.fpOpen && t.ended == a.ended && t.crashed == a.crashed
    && t.slot == a.slot && t.sendDone == a.sendDone && t.recvDone == a.recvDone
  }

  // A file sent to its end is released by M_GOT, and only by that.
  lemma AckEndsFile(s: System, seekOk: bool)
    requires !s.a.ended && s.a.current && s.a.status == WaitAck && s.ba != [] && !s.ba[0].Get?
    ensures var t := Take(s, SenderHears(seekOk));
            && t == s.(a := t.a, ba := s.ba[1..]) && t.a.current && t.a.phase == s.a.phase
            && if s.ba[0] == Got then Answered(s.a, t.a, Success, true) else Answered(s.a, t.a, Refused, s.a.released)
  {
    hide HearEnd;
    EndOfWaiting(s.a, s.ba[0] == Skip);
  }

  lemma EndOfWaiting(a: Sender, skip: bool)
    requires a.current && a.status == WaitAck
    ensures var t := HearEnd(a, skip);
            && t.current && t.phase == a.phase
            && if skip then Answered(a, t, Refused, a.released) else Answered(a, t, Success, true)
  {
  }

  // While it is being sent, either ends it, and the next file follows: M_GOT because the
  // receiver has it, so that it is released, M_SKIP so that it will be sent another time.
  lemma AnswerStopsFile(s: System, seekOk: bool)
    requires !s.a.ended && s.a.current && s.a.status == InProcess && s.ba != [] && !s.ba[0].Get?
    ensures var t := Take(s, SenderHears(seekOk));
            && t == s.(a := t.a, ba := s.ba[1..]) && !t.a.current && t.a.phase == NextFile
            && if s.ba[0] == Got then Answered(s.a, t.a, Skipped, true) else Answered(s.a, t.a, Refused, s.a.released)
  {
    hide HearEnd;
    EndOfSending(s.a, s.ba[0] == Skip);
  }

  lemma EndOfSending(a: Sender, skip: bool)
    requires a.current && a.status == InProcess
    ensures var t := HearEnd(a, skip);
            && !t.current && t.phase == NextFile
            && if skip then Answered(a, t, Refused, a.released) else Answered(a, t, Skipped, true)
  {
  }

  // ---------------------------------------------------------------------------
  // Local errors
  // ---------------------------------------------------------------------------

  // What has been given up is closed, and its data skipped until M_FILE or a new batch.
  // M_GET: the message M_FILE with the offset asked for goes out, and then the bytes from there
  // on, wherever the sender was.
  lemma GetResumes(s: System, seekOk: bool)
    requires !s.a.ended && s.a.current && s.a.fpOpen && s.a.slot == Free && s.a.fpos == s.a.bytesSent
    requires s.ba != [] && s.ba[0].Get? && s.ba[0].off < |s.file| && (s.ba[0].off == s.a.bytesSent || seekOk)
    ensures var off := s.ba[0].off;
            var t := Take(s, SenderHears(seekOk));
            var u := Take(Take(t, SenderSends(true)), SenderSends(true));
            && t.ab == s.ab && t.ba == s.ba[1..] && !u.a.ended && u.b == s.b
            && u.ab == s.ab + [FileAt(off), Data(s.file[off..off + Min(READ_SIZE, |s.file| - off)])]
  {
  }

  // It ends the session if the file has been given up, or cannot be read from there.
  lemma GetFails(s: System, seekOk: bool)
    requires !s.a.ended && s.a.slot == Free && s.ba != [] && s.ba[0].Get?
    requires !s.a.current || (s.ba[0].off != s.a.bytesSent && (!seekOk || !s.a.fpOpen))
    ensures var t := Take(s, SenderHears(seekOk));
            && t.a.ended && !t.a.current && t.a.crashed == s.a.crashed
            && t.a.released == (s.a.released || (s.a.current && Releases(s.a.status)))
  {
  }

  // It stays where it is while extracmd is occupied, which the next call empties.
  lemma GetWaits(s: System, seekOk: bool)
    requires !s.a.ended && s.a.slot != Free && s.ba != [] && s.ba[0].Get?
    ensures Take(s, SenderHears(seekOk)) == s
    ensures Take(s, SenderSends(true)).a.slot == Free && Take(s, SenderSends(true)).ab == s.ab + Held(s.a.slot)
  {
  }

  // An answer without a file to answer is not survived.
  lemma AnswerWithoutFile(s: System, seekOk: bool)
    requires !s.a.ended && !s.a.current && s.ba != [] && !s.ba[0].Get?
    ensures Take(s, SenderHears(seekOk)) == s.(a := s.a.(crashed := true, ended := true), ba := s.ba[1..])
  {
  }

  // Behind the end of the batch nothing is sent before an M_GET.
  lemma NothingMore(s: System, readOk: bool)
    requires !s.a.ended && s.a.slot == Free && !s.a.continueSend && (s.a.noMore || s.a.phase == AllSent)
    ensures Take(s, SenderSends(readOk)) == s.(a := s.a.(noMore := true))
  {
  }

  predicate GivenUp(b: Receiver, t: Receiver, answer: Answer) {
    t.frs == Skipping && !t.open && t.slot == Holds(answer) && t.failed && t.inbound == b.inbound && t.error == b.error
  }

  // A block that cannot be written, or only in part: M_SKIP asks for the file another time, and
  // what has been written stays; a file that has been taken away is not wanted any more.
  lemma WriteFails(b: Receiver, bytes: seq<Byte>, total: nat, open: OpenOutcome, write: WriteOutcome, closeOk: bool)
    requires b.frs == Receiving && b.slot == Free && b.received == |b.disk| && bytes != [] && write != WriteOk
    ensures var h := DoReceiveBlock(b, Data(bytes), total, open, write, closeOk);
            h.taken && match write
                       case WriteGone => GivenUp(b, h.b, Got) && h.b.disk == b.disk
                       case WriteError(part) =>
                         GivenUp(b, h.b, Skip) && h.b.disk == b.disk + bytes[..Min(part, |bytes|)]
                       case WriteOk => false
  {
  }

  // The last block, when the file cannot be moved to the inbound
  lemma CloseFails(b: Receiver, bytes: seq<Byte>, total: nat, open: OpenOutcome)
    requires b.frs == Receiving && b.slot == Free && b.received == |b.disk| && bytes != []
    requires b.received + |bytes| == total
    ensures var h := DoReceiveBlock(b, Data(bytes), total, open, WriteOk, false);
            && h.taken && h.b.slot == Holds(Skip) && h.b.failed && h.b.inbound == b.inbound && h.b.frs == Nothing
            && !h.b.open && h.b.error == b.error && h.b.disk == b.disk + bytes
  {
  }

  // More than was announced, and what comes before any M_FILE, are protocol errors.
  lemma TooMuch(b: Receiver, bytes: seq<Byte>, total: nat, open: OpenOutcome, closeOk: bool)
    requires b.frs == Receiving && b.slot == Free && b.received == |b.disk|
    requires bytes != [] && b.received + |bytes| > total
    ensures var h := DoReceiveBlock(b, Data(bytes), total, open, WriteOk, closeOk);
            h.taken && h.b.error == Some(ExtraData) && h.b.inbound == b.inbound && !h.b.open && h.b.frs == Skipping
  {
  }

  lemma Unasked(b: Receiver, bytes: seq<Byte>, total: nat, open: OpenOutcome, write: WriteOutcome, closeOk: bool)
    requires b.frs == Nothing && bytes != []
    ensures DoReceiveBlock(b, Data(bytes), total, open, write, closeOk)
         == Heard(b.(error := Some(UnexpectedData)), true)
  {
  }

  // What is skipped, or comes before the offset asked for, leaves no trace; an empty block is
  // taken and forgotten in every state.
  lemma Ignored(b: Receiver, bytes: seq<Byte>, total: nat, open: OpenOutcome, write: WriteOutcome, closeOk: bool)
    requires b.frs == Skipping || b.frs == DidGet || bytes == []
    ensures DoReceiveBlock(b, Data(bytes), total, open, write, closeOk) == Heard(b, true)
  {
  }

  // So is a file whose end is not where it is thought to be.
  lemma Misplaced(b: Receiver, bytes: seq<Byte>, total: nat, open: OpenOutcome, write: WriteOutcome, closeOk: bool)
    requires b.frs == Receiving && b.slot == Free && b.received != |b.disk| && bytes != []
    ensures var h := DoReceiveBlock(b, Data(bytes), total, open, write, closeOk);
            h.taken && GivenUp(b, h.b, Skip) && h.b.disk == b.disk && h.b.received == |b.disk|
  {
  }

  // A batch is restarted by an end when its own sending and the other end's are complete, and
  // uses up one completion of each; at the beginning neither is.
  lemma SenderBatches(s: System)
    requires !s.a.ended
    ensures Take(s, SenderBatch).a == s.a.(recvDone := s.a.recvDone + 1)
    ensures var t := Take(s, SenderRestarts);
            if s.a.sendDone > 0 && s.a.recvDone > 0 then
              && t.a.sendDone == s.a.sendDone - 1 && t.a.recvDone == s.a.recvDone - 1
              && t == s.(a := s.a.(phase := NextFile, noMore := false, sendDone := t.a.sendDone,
                                   recvDone := t.a.recvDone))
            else t == s
  {
    hide SenderTurn, SenderListens, ReceiverTurn, ReceiverListens;
  }

  lemma NoneComplete(s: System)
    requires Initial(s)
    ensures s.a.sendDone == s.a.recvDone == s.b.sendDone == s.b.recvDone == 0
  {
  }

  lemma ReceiverBatches(s: System)
    requires s.b.error == None
    ensures var t := Take(s, ReceiverRestarts);
            if s.b.sendDone > 0 && s.b.recvDone > 0 then
              && t.b.sendDone == s.b.sendDone - 1 && t.b.recvDone == s.b.recvDone - 1
              && t.b.premature == (s.b.premature || (s.b.frs != Nothing && !s.b.ended))
              && t == s.(b := s.b.(frs := Nothing, sendDone := t.b.sendDone, recvDone := t.b.recvDone,
                                   premature := t.b.premature))
            else t == s
    ensures Take(s, ReceiverBatch).b == s.b.(sendDone := s.b.sendDone + 1)
  {
    hide SenderTurn, SenderListens, ReceiverTurn, ReceiverListens;
  }

  // While extracmd is occupied nothing is taken that would need it.
  lemma HeldBack(b: Receiver, m: Forward, total: nat, open: OpenOutcome, write: WriteOutcome, closeOk: bool)
    requires b.slot != Free
    requires match m
             case Data(bytes) => b.frs == Receiving && bytes != []
             case FileAt(off) => b.frs == Nothing || b.frs == Skipping || (b.frs == DidGet && b.skipped != off)
             case Eob => false
    ensures DoReceiveBlock(b, m, total, open, write, closeOk) == Heard(b, false)
  {
  }

  // A command of the other transfer in extracmd has the same effect, at either end.
  lemma OtherGoesFirst(s: System, open: OpenOutcome, write: WriteOutcome, closeOk: bool, seekOk: bool)
    requires s.b.frs == Receiving && s.ab != [] && s.ab[0].Data? && s.ab[0].bytes != []
    requires !s.a.ended && s.ba != [] && s.ba[0].Get?
    ensures Take(Take(s, ReceiverBusy), ReceiverHears(open, write, closeOk)).ab == s.ab
    ensures Take(Take(s, SenderBusy), SenderHears(seekOk)).ba == s.ba
  {
  }

  // Behind an M_GET only what was asked for is taken; any other offer draws M_SKIP.
  lemma OnlyTheRest(b: Receiver, off: int, total: nat, open: OpenOutcome)
    requires b.frs == DidGet && b.open
    ensures var h := DoReceiveBlock(b, FileAt(off), total, open, WriteOk, true);
            if off == b.skipped then h == Heard(b.(frs := Receiving, ended := false), true)
            else if b.slot == Free then h == Heard(b.(slot := Holds(Skip), ended := false), true)
            else h == Heard(b, false)
  {
  }

  // Whether the sender's batch has ended: M_EOB has been heard, and no M_FILE since.
  lemma EndIsMarked(b: Receiver, off: int, total: nat, open: OpenOutcome)
    requires b.error == None
    ensures DoReceiveBlock(b, Eob, total, open, WriteOk, true).b == b.(ended := true, recvDone := b.recvDone + 1)
    ensures var h := DoReceiveBlock(b, FileAt(off), total, open, WriteOk, true);
            h.taken && h.b.error == None ==> !h.b.ended
  {
  }

  // ---------------------------------------------------------------------------
  // A file on its way
  // ---------------------------------------------------------------------------

  function Starting(f: File, leftover: seq<Byte>, nr: bool): System {
    System(NewSender(nr), NewReceiver(leftover), f, [], [])
  }

  predicate Calm(s: System) {
    && !s.a.ended && !s.a.crashed && !s.a.continueSend && s.a.slot == Free && !s.a.queued && !s.a.released
    && s.b.slot == Free && s.b.error == None && s.b.inbound == [] && !s.b.failed && !s.b.declined
    && s.ab == [] && s.ba == []
  }

  predicate Flowing(s: System, pos: nat) {
    && Calm(s) && pos < |s.file|
    && s.a.phase == SendData && !s.a.noMore && s.a.current && s.a.fpOpen && s.a.status == InProcess
    && s.a.fpos == s.a.bytesSent == pos
    && s.b.frs == Receiving && s.b.open && s.b.disk == s.file[..pos] && s.b.received == pos
  }

  // Everything has been received, and M_GOT waits to be sent.
  predicate Arrived(s: System) {
    && s.a.phase == SendData && !s.a.noMore && s.a.current && s.a.fpOpen && s.a.status == InProcess
    && !s.a.ended && !s.a.crashed && !s.a.continueSend && s.a.slot == Free && !s.a.queued && !s.a.released
    && s.a.fpos == s.a.bytesSent == |s.file|
    && s.b.frs == Nothing && !s.b.open && s.b.slot == Holds(Got) && s.b.inbound == [s.file]
    && s.b.error == None && !s.b.failed && !s.b.declined
    && s.ab == [] && s.ba == []
  }

  lemma Go(s0: System, s: System, step: Step) returns (t: System)
    requires Reaches(s0, s)
    ensures t == Take(s, step) && Reaches(s0, t)
  {
    hide Reaches, Take;
    t := Take(s, step);
    ReachesNext(s0, s, step);
  }

  lemma Sends(s0: System, s: System) returns (t: System)
    requires Reaches(s0, s)
    ensures t == SenderTurn(s, true) && Reaches(s0, t)
  {
    t := Go(s0, s, SenderSends(true));
  }

  lemma Listens(s0: System, s: System) returns (t: System)
    requires Reaches(s0, s)
    ensures t == SenderListens(s, true) && Reaches(s0, t)
  {
    t := Go(s0, s, SenderHears(true));
  }

  lemma Answers(s0: System, s: System) returns (t: System)
    requires Reaches(s0, s)
    ensures t == ReceiverTurn(s) && Reaches(s0, t)
  {
    t := Go(s0, s, ReceiverSends);
  }

  lemma Takes(s0: System, s: System, open: OpenOutcome) returns (t: System)
    requires Reaches(s0, s)
    ensures t == ReceiverListens(s, open, WriteOk, true) && Reaches(s0, t)
  {
    t := Go(s0, s, ReceiverHears(open, WriteOk, true));
  }

  lemma NextBlockFlows(s0: System, s: System, pos: nat) returns (t: System, next: nat)
    requires Reaches(s0, s) && Flowing(s, pos)
    ensures Reaches(s0, t) && t.file == s.file && pos < next <= |s.file|
    ensures if next < |s.file| then Flowing(t, next) else Arrived(t)
  {
    hide Reaches, Take;
    var n := Min(READ_SIZE, |s.file| - pos);
    next := pos + n;
    var u := Sends(s0, s);
    t := Takes(s0, u, OpenRefuse);
    assert s.file[..pos] + s.file[pos..next] == s.file[..next];
    assert s.file[..|s.file|] == s.file;
  }

  lemma {:induction false} FlowsToEnd(s0: System, s: System, pos: nat) returns (t: System)
    requires Reaches(s0, s) && Flowing(s, pos)
    ensures Reaches(s0, t) && t.file == s.file && Arrived(t)
    decreases |s.file| - pos
  {
    hide Reaches, Flowing, Arrived;
    var u, next := NextBlockFlows(s0, s, pos);
    if next < |s.file| {
      t := FlowsToEnd(s0, u, next);
    } else {
      t := u;
    }
  }

  // ---------------------------------------------------------------------------
  // Its beginning and its end
  // ---------------------------------------------------------------------------

  lemma Offered(f: File, leftover: seq<Byte>, nr: bool) returns (s: System)
    ensures Reaches(Starting(f, leftover, nr), s) && s.file == f
    ensures s.b == NewReceiver(leftover) && s.ab == [FileAt(if nr then -1 else 0)] && s.ba == []
    ensures s.a == NewSender(nr).(queued := false, current := true, fpOpen := true, noMore := nr,
                                  phase := if nr then NextFile else SendData)
  {
    hide Reaches, Take;
    var s0 := Starting(f, leftover, nr);
    StartReached(s0);
    s := Sends(s0, s0);
  }

  // The receiver has the first k bytes, asks for the rest with M_GET if need be, and is told
  // the offset again.
  lemma Resumed(f: File, leftover: seq<Byte>, nr: bool, k: nat) returns (s: System)
    requires leftover <= f && k <= |leftover| && k < |f|
    ensures Reaches(Starting(f, leftover, nr), s) && s.file == f && Flowing(s, k)
  {
    hide Reaches, Take;
    var s0 := Starting(f, leftover, nr);
    var s1 := Offered(f, leftover, nr);
    assert leftover[..k] == f[..k];
    var s2 := Takes(s0, s1, OpenResume(k));
    if !nr && k == 0 {
      s := s2;
    } else {
      var s3 := Answers(s0, s2);
      var s4 := Listens(s0, s3);
      var s5 := Sends(s0, s4);
      s := Takes(s0, s5, OpenRefuse);
    }
  }

  // The sender finds the end of the file, and hears M_GOT.
  lemma Acknowledged(s0: System, s: System) returns (t: System)
    requires Reaches(s0, s) && Arrived(s)
    ensures Reaches(s0, t) && t.file == s.file && t.b.inbound == [s.file] && t.b.error == None
    ensures t.a.released && t.a.status == Success && !t.a.ended && !t.a.crashed && t.ab == [Eob] && t.ba == []
  {
    hide Reaches, Take;
    var u := Answers(s0, s);
    var v := Sends(s0, u);
    t := Listens(s0, v);
  }

  // The main result: every file that is not empty, whatever of it an earlier session has left
  // and whatever part of that is kept, in either mode, can be delivered and is then released.
  lemma Delivered(f: File, leftover: seq<Byte>, nr: bool, k: nat)
    requires leftover <= f && k <= |leftover| && k < |f|
    ensures Initial(Starting(f, leftover, nr))
    ensures exists s :: Reaches(Starting(f, leftover, nr), s) && s.b.inbound == [f] && s.b.error == None
              && s.a.released && s.a.status == Success && !s.a.crashed
  {
    hide Reaches, Flowing, Arrived;
    var s0 := Starting(f, leftover, nr);
    var s1 := Resumed(f, leftover, nr, k);
    var s2 := FlowsToEnd(s0, s1, k);
    var s := Acknowledged(s0, s2);
  }

  // An empty file never is: no block of data comes that could complete it.
  lemma {:induction false} EmptyNeverArrives(start: System, steps: seq<Step>)
    requires Initial(start) && start.file == []
    ensures Run(start, steps).b.inbound == [] && Run(start, steps).file == []
    decreases |steps|
  {
    hide Take;
    if steps != [] {
      EmptyNeverArrives(start, steps[..|steps| - 1]);
      EmptyStays(Run(start, steps[..|steps| - 1]), steps[|steps| - 1]);
    }
  }

  lemma EmptyStays(s: System, step: Step)
    requires s.file == [] && s.b.inbound == []
    ensures Take(s, step).b.inbound == [] && Take(s, step).file == []
  {
    hide GetForSend, HearAnswer, DoReceiveBlock;
    match step
    case ReceiverHears(open, write, closeOk) =>
      if s.ab != [] {
        NothingCompletes(s.b, s.ab[0], open, write, closeOk);
      }
    case _ => {}
  }

  lemma NothingCompletes(b: Receiver, m: Forward, open: OpenOutcome, write: WriteOutcome, closeOk: bool)
    ensures DoReceiveBlock(b, m, 0, open, write, closeOk).b.inbound == b.inbound
  {
    hide HearOffer, HearData;
    match m
    case FileAt(off) => OfferBringsNothing(b, off, open);
    case Data(bytes) => if bytes != [] { BlockBringsNothing(b, bytes, write, closeOk); }
    case _ => {}
  }

  lemma BlockBringsNothing(b: Receiver, bytes: seq<Byte>, write: WriteOutcome, closeOk: bool)
    requires bytes != []
    ensures HearData(b, bytes, 0, write, closeOk).inbound == b.inbound
  {
  }

  lemma OfferBringsNothing(b: Receiver, off: int, open: OpenOutcome)
    ensures HearOffer(b, off, open).inbound == b.inbound
  {
  }

  // So the files that can be delivered are exactly those that are not empty.
  lemma DeliveredExactly(f: File, nr: bool)
    ensures (exists s :: Reaches(Starting(f, [], nr), s) && s.b.inbound == [f]) <==> f != []
  {
    hide Run, Take;
    if f != [] {
      Delivered(f, [], nr, 0);
    } else {
      forall s | Reaches(Starting(f, [], nr), s) ensures s.b.inbound == [] {
        var steps :| Run(Starting(f, [], nr), steps) == s;
        EmptyNeverArrives(Starting(f, [], nr), steps);
      }
    }
  }

  // A file that is refused is not released, and nothing of it is kept.
  lemma Refusal(f: File, leftover: seq<Byte>)
    ensures exists s :: Reaches(Starting(f, leftover, false), s) && s.a.status == Refused && !s.a.released && !s.a.ended
              && s.b.inbound == [] && s.b.disk == leftover && s.b.error == None && s.ab == [Eob] && s.a.phase == AllSent
  {
    hide Reaches, Take;
    var s0 := Starting(f, leftover, false);
    var s1 := Offered(f, leftover, false);
    var s2 := Takes(s0, s1, OpenRefuse);
    var s3 := Answers(s0, s2);
    var s4 := Listens(s0, s3);
    var s := Sends(s0, s4);
  }

  // One that is there already is released unsent.
  lemma AlreadyThere(f: File, leftover: seq<Byte>)
    ensures exists s :: Reaches(Starting(f, leftover, false), s) && s.a.status == Skipped && s.a.released && !s.a.ended
              && s.b.inbound == [] && s.b.error == None && s.ab == [Eob] && s.a.phase == AllSent
  {
    hide Reaches, Take;
    var s0 := Starting(f, leftover, false);
    var s1 := Offered(f, leftover, false);
    var s2 := Takes(s0, s1, OpenHave);
    var s3 := Answers(s0, s2);
    var s4 := Listens(s0, s3);
    var s := Sends(s0, s4);
  }
}
