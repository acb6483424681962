// Both ends of a transfer, joined by two reliable byte streams: whatever the sizes of reads and
// writes, and encrypted or not, they go through the states of BinkpResume, and stay in step.
module BinkpLine {
  import opened Wrappers
  import opened Crc
  import opened Files
  import BinkpCrypt
  import opened BinkpFrames
  import opened BinkpResume
  import opened BinkpMessages
  import opened BinkpEnds
  import Steps = BinkpInStep

  // What has been heard is what has been said, up to a point.
  lemma HeardForward(s: SendingEnd, r: ReceivingEnd)
    requires s.Valid() && r.Valid() && s.x == r.x
    requires s.writer.start == r.reader.start && s.writer.crypt == r.reader.crypt && r.reader.taken <= s.writer.wire
    ensures r.heard <= s.sent
  {
    hide BinkpReader.Valid, BinkpWriter.Valid, ForwardBlock, ForwardOf, AnswerBlock, AnswerOf, Sayable, GoodInfo;
    BlocksArrive(s.writer, r.reader);
    forall k | 0 <= k < |r.heard| ensures r.heard[k] == s.sent[k] {
      ForwardRoundTrip(s.sent[k], s.x);
    }
  }

  lemma HeardBack(s: SendingEnd, r: ReceivingEnd)
    requires s.Valid() && r.Valid() && s.x == r.x
    requires r.writer.start == s.reader.start && r.writer.crypt == s.reader.crypt && s.reader.taken <= r.writer.wire
    ensures s.heard <= r.said
  {
    hide BinkpReader.Valid, BinkpWriter.Valid, ForwardBlock, ForwardOf, AnswerBlock, AnswerOf, Sayable, GoodInfo;
    BlocksArrive(r.writer, s.reader);
    forall k | 0 <= k < |s.heard| ensures s.heard[k] == r.said[k] {
      AnswerRoundTrip(r.said[k], s.x);
    }
  }

  // The message a receiver has complete is the next one in flight.
  lemma NextForward(s: SendingEnd, r: ReceivingEnd) returns (c: Block)
    requires s.Valid() && r.Valid() && s.x == r.x
    requires s.writer.start == r.reader.start && s.writer.crypt == r.reader.crypt && r.reader.taken <= s.writer.wire
    requires r.reader.wantRead == 0 && r.reader.readPos > 0
    ensures Fits(c) && Frame(c) == r.reader.readbuf[..r.reader.readPos]
    ensures |r.heard| < |s.sent| && ForwardOf(c, r.x) == Some(s.sent[|r.heard|])
  {
    hide BinkpReader.Valid, BinkpWriter.Valid, ForwardBlock, ForwardOf, AnswerBlock, AnswerOf, Sayable, GoodInfo,
         Frame, Fits;
    c := CompleteBlock(r.reader);
    CompleteIsNext(s.writer, r.reader, c);
    ForwardRoundTrip(s.sent[|r.heard|], s.x);
  }

  lemma NextBack(s: SendingEnd, r: ReceivingEnd) returns (c: Block)
    requires s.Valid() && r.Valid() && s.x == r.x
    requires r.writer.start == s.reader.start && r.writer.crypt == s.reader.crypt && s.reader.taken <= r.writer.wire
    requires s.reader.wantRead == 0 && s.reader.readPos > 0
    ensures Fits(c) && Frame(c) == s.reader.readbuf[..s.reader.readPos]
    ensures |s.heard| < |r.said| && AnswerOf(c, s.x) == Some(r.said[|s.heard|])
  {
    hide BinkpReader.Valid, BinkpWriter.Valid, ForwardBlock, ForwardOf, AnswerBlock, AnswerOf, Sayable, GoodInfo,
         Frame, Fits;
    c := CompleteBlock(s.reader);
    CompleteIsNext(r.writer, s.reader, c);
    AnswerRoundTrip(r.said[|s.heard|], s.x);
  }

  lemma CompleteBlock(r: BinkpReader) returns (c: Block)
    requires r.Valid() && r.wantRead == 0 && r.readPos > 0
    ensures Fits(c) && Frame(c) == r.readbuf[..r.readPos]
  {
    hide Wire, Plain, BinkpCrypt.After, Frame, BodyLength, IsCommand;
    BodyLengthBound(r.readbuf[0], r.readbuf[1]);
    FrameOf(r.readbuf[..r.readPos]);
    c := Block(IsCommand(r.readbuf[0]), r.readbuf[HEADER..r.readPos]);
  }

  class BinkpLine {
    const s: SendingEnd
    const r: ReceivingEnd
    ghost const start: System
    ghost var steps: seq<Step>     // the steps of BinkpResume made so far

    // The system of BinkpResume this is
    ghost function Now(): System
      reads this, s, r
      requires |r.heard| <= |s.sent| && |s.heard| <= |r.said|
    {
      System(s.a, r.b, s.file, s.sent[|r.heard|..], r.said[|s.heard|..])
    }

    ghost predicate Apart()
      reads this
    {
      && s.writer != r.writer && s.reader != r.reader
      && s.writer.writebuf != r.writer.writebuf && s.writer.writebuf != r.reader.readbuf
      && s.reader.readbuf != r.writer.writebuf && s.reader.readbuf != r.reader.readbuf
      && s.writer.cipher != r.writer.cipher && s.writer.cipher != r.reader.cipher
      && s.reader.cipher != r.writer.cipher && s.reader.cipher != r.reader.cipher
    }

    ghost predicate Valid()
      reads this, s, s.writer, s.writer.writebuf, s.writer.cipher, s.reader, s.reader.readbuf, s.reader.cipher
      reads r, r.writer, r.writer.writebuf, r.writer.cipher, r.reader, r.reader.readbuf, r.reader.cipher
    {
      && s.Valid() && r.Valid() && Apart()
      && s.x == r.x && r.total == |s.file|
      && s.writer.start == r.reader.start && s.writer.crypt == r.reader.crypt && r.reader.taken <= s.writer.wire
      && r.writer.start == s.reader.start && r.writer.crypt == s.reader.crypt && s.reader.taken <= r.writer.wire
      && r.heard <= s.sent && s.heard <= r.said
      && Initial(start) && start.file == s.file && Run(start, steps) == Now()
    }

    // Both ends as the session has left them; a partial file that is left over is a beginning
    // of the file.
    constructor (file: File, leftover: seq<Byte>, x: FileInfo, nr: bool, crypt: bool, forward: BinkpCrypt.Keys,
                 back: BinkpCrypt.Keys)
      requires GoodInfo(x) && leftover <= file
      ensures Valid() && s.file == file && steps == []
    {
      hide SendingEnd.Valid, ReceivingEnd.Valid, Run, Initial, GoodInfo;
      var a := new SendingEnd(file, x, nr, crypt, forward, back);
      var b := new ReceivingEnd(|file|, leftover, x, crypt, back, forward);
      s, r := a, b;
      start, steps := Beginning(file, leftover, nr), [];
      BeginningIsInitial(file, leftover, nr);
    }

    // -------------------------------------------------------------------------
    // From the sender to the receiver
    // -------------------------------------------------------------------------

    method SenderFills(readOk: bool)
      requires Valid() && s.writer.haveToWrite == 0 && !s.a.ended
      modifies this`steps, s`a, s`sent, s.writer, s.writer.writebuf, s.writer.cipher
      ensures Valid() && steps == old(steps) + [SenderSends(readOk)]
    {
      hide SendingEnd.Valid, ReceivingEnd.Valid, GetForSend, Run, Initial, GoodInfo;
      ghost var now := Now();
      s.Fill(readOk);
      steps := steps + [SenderSends(readOk)];
      RunGrows(start, old(steps), SenderSends(readOk));
      Behind(old(s.sent), GetForSend(now.a, now.file, readOk).out, |r.heard|);
    }

    method SenderWrites(n: nat)
      requires Valid() && 0 < n <= s.writer.haveToWrite
      modifies s.writer`writePos, s.writer`haveToWrite, s.writer`wire
      ensures Valid() && old(s.writer.wire) <= s.writer.wire && |s.writer.wire| == old(|s.writer.wire|) + n
    {
      hide SendingEnd.Valid, ReceivingEnd.Valid, Run, Initial;
      s.Write(n);
    }

    // The next bytes of the stream come in.
    method ReceiverReads(chunk: seq<Byte>)
      requires Valid() && 0 < |chunk| <= r.reader.wantRead && r.reader.taken + chunk <= s.writer.wire
      modifies r.reader`readPos, r.reader`wantRead, r.reader`taken, r.reader.readbuf, r.reader.cipher
      ensures Valid() && r.reader.taken == old(r.reader.taken) + chunk
    {
      hide SendingEnd.Valid, ReceivingEnd.Valid, Run, Initial;
      r.Read(chunk);
    }

    method ReceiverListens(open: OpenOutcome, write: WriteOutcome, closeOk: bool)
      requires Valid() && r.reader.wantRead == 0 && r.reader.readPos > 0 && r.b.error == None && Is32(|r.b.disk|)
      modifies this`steps, r`b, r`heard, r.reader`readPos, r.reader`wantRead, r.reader`accepted, r.reader`enough
      ensures Valid() && steps == old(steps) + [ReceiverHears(open, write, closeOk)]
    {
      hide SendingEnd.Valid, ReceivingEnd.Valid, DoReceiveBlock, Run, Initial, ForwardOf, Frame, Fits;
      ghost var c := NextForward(s, r);
      ghost var k := |r.heard|;
      ghost var m := r.Listen(open, write, closeOk);
      steps := steps + [ReceiverHears(open, write, closeOk)];
      RunGrows(start, old(steps), ReceiverHears(open, write, closeOk));
      assert s.sent[k..][1..] == s.sent[k + 1..];
    }

    // -------------------------------------------------------------------------
    // And back
    // -------------------------------------------------------------------------

    method ReceiverFills()
      requires Valid() && r.writer.haveToWrite == 0
      modifies this`steps, r`b, r`said, r.writer, r.writer.writebuf, r.writer.cipher
      ensures Valid() && steps == old(steps) + [ReceiverSends]
    {
      hide SendingEnd.Valid, ReceivingEnd.Valid, Run, Initial, GoodInfo;
      ghost var now := Now();
      r.Fill();
      steps := steps + [ReceiverSends];
      RunGrows(start, old(steps), ReceiverSends);
      Behind(old(r.said), Held(now.b.slot), |s.heard|);
    }

    method ReceiverWrites(n: nat)
      requires Valid() && 0 < n <= r.writer.haveToWrite
      modifies r.writer`writePos, r.writer`haveToWrite, r.writer`wire
      ensures Valid() && old(r.writer.wire) <= r.writer.wire && |r.writer.wire| == old(|r.writer.wire|) + n
    {
      hide SendingEnd.Valid, ReceivingEnd.Valid, Run, Initial;
      r.Write(n);
    }

    method SenderReads(chunk: seq<Byte>)
      requires Valid() && 0 < |chunk| <= s.reader.wantRead && s.reader.taken + chunk <= r.writer.wire
      modifies s.reader`readPos, s.reader`wantRead, s.reader`taken, s.reader.readbuf, s.reader.cipher
      ensures Valid() && s.reader.taken == old(s.reader.taken) + chunk
    {
      hide SendingEnd.Valid, ReceivingEnd.Valid, Run, Initial;
      s.Read(chunk);
    }

    method SenderListens(seekOk: bool)
      requires Valid() && s.reader.wantRead == 0 && s.reader.readPos > 0 && !s.a.ended
      modifies this`steps, s`a, s`heard, s.reader`readPos, s.reader`wantRead, s.reader`accepted, s.reader`enough
      ensures Valid() && steps == old(steps) + [SenderHears(seekOk)]
    {
      hide SendingEnd.Valid, ReceivingEnd.Valid, HearAnswer, Run, Initial, AnswerOf, Frame, Fits;
      ghost var c := NextBack(s, r);
      ghost var k := |s.heard|;
      ghost var m := s.Listen(seekOk);
      steps := steps + [SenderHears(seekOk)];
      RunGrows(start, old(steps), SenderHears(seekOk));
      assert r.said[k..][1..] == r.said[k + 1..];
    }

    // -------------------------------------------------------------------------
    // What the other transfer and the batches do
    // -------------------------------------------------------------------------

    method Elsewhere(step: Step)
      requires Valid() && FromElsewhere(step)
      modifies this`steps, s`a, r`b
      ensures Valid() && steps == old(steps) + [step]
    {
      hide BinkpReader.Valid, BinkpWriter.Valid, ForwardBlock, ForwardOf, AnswerBlock, AnswerOf, Sayable, GoodInfo,
           Take, Run, Initial;
      hide SlotSayable, SlotAnswerable;
      ElsewhereStays(Now(), step);
      ghost var now := Now();
      var t := Take(System(s.a, r.b, s.file, [], []), step);
      ElsewhereOnly(now, step);
      s.a := t.a;
      r.b := t.b;
      steps := steps + [step];
      RunGrows(start, old(steps), step);
    }

    // A restart of the batch makes an end lose its place in the stream, unless it wants exactly
    // as many bytes as a header has.
    method SenderBegins()
      requires Valid() && !s.a.ended && s.a.sendDone > 0 && s.a.recvDone > 0
      modifies this`steps, s`a, s.reader`wantRead
      ensures steps == old(steps) + [SenderRestarts] && s.a == SenderRestart(old(Now())).a
      ensures Valid() <==> old(s.reader.wantRead) == HEADER
    {
      hide BinkpReader.Valid, BinkpWriter.Valid, ForwardBlock, ForwardOf, AnswerBlock, AnswerOf, Sayable, GoodInfo,
           Run, Initial;
      ghost var now := Now();
      s.reader.Restart();
      s.a := s.a.(phase := NextFile, noMore := false, sendDone := s.a.sendDone - 1, recvDone := s.a.recvDone - 1);
      steps := steps + [SenderRestarts];
      RunGrows(start, old(steps), SenderRestarts);
    }

    method ReceiverBegins()
      requires Valid() && r.b.error == None && r.b.sendDone > 0 && r.b.recvDone > 0
      modifies this`steps, r`b, r.reader`wantRead
      ensures steps == old(steps) + [ReceiverRestarts] && r.b == ReceiverRestart(old(Now())).b
      ensures Valid() <==> old(r.reader.wantRead) == HEADER
    {
      hide BinkpReader.Valid, BinkpWriter.Valid, ForwardBlock, ForwardOf, AnswerBlock, AnswerOf, Sayable, GoodInfo,
           Run, Initial;
      ghost var now := Now();
      r.reader.Restart();
      r.b := Restart(r.b);
      steps := steps + [ReceiverRestarts];
      RunGrows(start, old(steps), ReceiverRestarts);
    }
  }

  predicate FromElsewhere(step: Step) {
    step.SenderBusy? || step.SenderBatch? || step.ReceiverBusy? || step.ReceiverBatch?
  }

  // Such steps do not depend on what is in flight, and leave it alone.
  lemma ElsewhereOnly(s: System, step: Step)
    requires FromElsewhere(step)
    ensures Take(s, step) == s.(a := Take(s, step).a, b := Take(s, step).b)
    ensures Take(s.(ab := [], ba := []), step).a == Take(s, step).a
            && Take(s.(ab := [], ba := []), step).b == Take(s, step).b
  {
  }

  lemma ElsewhereStays(s: System, step: Step)
    requires FromElsewhere(step)
    ensures SlotSayable(s.a) ==> SlotSayable(Take(s, step).a)
    ensures SlotAnswerable(s.b) ==> SlotAnswerable(Take(s, step).b)
  {
    hide Sayable;
  }

  function Beginning(file: File, leftover: seq<Byte>, nr: bool): System {
    System(NewSender(nr), NewReceiver(leftover), file, [], [])
  }

  lemma BeginningIsInitial(file: File, leftover: seq<Byte>, nr: bool)
    requires leftover <= file
    ensures Initial(Beginning(file, leftover, nr)) && Run(Beginning(file, leftover, nr), [])
            == Beginning(file, leftover, nr)
  {
  }

  lemma RunGrows(start: System, steps: seq<Step>, step: Step)
    ensures Run(start, steps + [step]) == Take(Run(start, steps), step)
  {
    hide Take;
    assert (steps + [step])[..|steps|] == steps;
  }

  lemma Behind<T>(sent: seq<T>, more: seq<T>, k: nat)
    requires k <= |sent|
    ensures (sent + more)[k..] == sent[k..] + more
  {
  }

  // The main result, at the level of bytes: up to a restart in the middle of a file there are
  // no protocol errors; while a file is taken the partial file is its first bytes_received
  // bytes; and M_GOT is on its way only for a complete identical copy, unless the receiver had
  // the file already or lost its own.
  lemma BytesInStep(t: BinkpLine)
    requires t.Valid() && !t.r.b.premature
    ensures t.r.b.error == None && !t.s.a.crashed
    ensures t.r.b.frs == Receiving ==> t.r.b.received <= |t.s.file| && t.r.b.disk == t.s.file[..t.r.b.received]
    ensures Got in t.r.said[|t.s.heard|..] && !t.r.b.declined && !t.r.b.failed ==>
              t.r.b.inbound != [] && t.r.b.inbound[0] == t.s.file
  {
    hide SendingEnd.Valid, ReceivingEnd.Valid, Run, Initial, Steps.Reach, Slice, Steps.InFlight, Steps.NextData,
         Steps.NoFile;
    Steps.InStep(t.start, t.steps);
    Steps.NoProtocolErrors(t.start, t.steps);
    Steps.GotMeansDelivered(t.start, t.steps);
  }
}
