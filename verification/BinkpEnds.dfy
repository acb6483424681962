// The two ends of a transfer over their buffers (source/bforce/prot_binkp.c): what binkp_loop
// writes and reads in pieces of any size, possibly encrypted, are the steps of BinkpResume.
module BinkpEnds {
  import opened Wrappers
  import opened Crc
  import opened Files
  import opened BinkpCrypt
  import opened BinkpFrames
  import opened BinkpResume
  import opened BinkpMessages

  // ---------------------------------------------------------------------------
  // What the sender says
  // ---------------------------------------------------------------------------

  predicate SlotSayable(a: Sender) {
    a.slot.Holds? ==> Sayable(a.slot.msg)
  }

  predicate AllSayable(out: seq<Forward>) {
    |out| <= 1 && forall k :: 0 <= k < |out| ==> Sayable(out[k])
  }

  lemma AnnounceSayable(a: Sender)
    ensures Announce(a).a.slot == a.slot && AllSayable(Announce(a).out)
  {
  }

  lemma BlockSayable(a: Sender, file: File, readOk: bool)
    ensures NextBlock(a, file, readOk).a.slot == a.slot && AllSayable(NextBlock(a, file, readOk).out)
  {
    hide Announce;
    AnnounceSayable(a.(status := WaitAck, phase := NextFile));
  }

  lemma SaysSayable(a: Sender, file: File, readOk: bool)
    requires SlotSayable(a)
    ensures var t := GetForSend(a, file, readOk); SlotSayable(t.a) && AllSayable(t.out)
  {
    hide Announce, NextBlock;
    var c := if a.continueSend then a.(noMore := false, continueSend := false) else a;
    AnnounceSayable(c);
    BlockSayable(c, file, readOk);
  }

  class SendingEnd {
    const file: File
    const x: FileInfo
    const writer: BinkpWriter
    const reader: BinkpReader
    var a: Sender
    ghost var sent: seq<Forward>      // messages handed to the writer, in order
    ghost var heard: seq<BinkpResume.Answer>   // messages accepted, in order

    ghost predicate Valid()
      reads this, writer, writer.writebuf, writer.cipher, reader, reader.readbuf, reader.cipher
    {
      && writer.Valid() && reader.Valid() && !reader.enough
      && writer.writebuf != reader.readbuf && writer.cipher != reader.cipher
      && GoodInfo(x) && SlotSayable(a)
      && Said() && Understood()
    }

    ghost predicate Said()
      reads this, writer
    {
      && |writer.blocks| == |sent|
      && forall k :: 0 <= k < |sent| ==> writer.blocks[k] == ForwardBlock(sent[k], x) && Sayable(sent[k])
    }

    ghost predicate Understood()
      reads this, reader
    {
      |reader.accepted| == |heard| && forall k :: 0 <= k < |heard| ==> AnswerOf(reader.accepted[k], x) == Some(heard[k])
    }

    constructor (file: File, x: FileInfo, nr: bool, crypt: bool, keysOut: Keys, keysIn: Keys)
      requires GoodInfo(x)
      ensures Valid() && fresh(writer) && fresh(writer.writebuf) && fresh(writer.cipher)
      ensures fresh(reader) && fresh(reader.readbuf) && fresh(reader.cipher)
      ensures this.file == file && this.x == x && a == NewSender(nr) && sent == [] && heard == []
      ensures writer.start == keysOut && writer.crypt == reader.crypt == crypt && reader.start == keysIn
      ensures writer.wire == [] && reader.taken == []
    {
      var c := new Cipher(keysOut);
      var d := new Cipher(keysIn);
      var w := new BinkpWriter(c, crypt);
      var r := new BinkpReader(d, crypt);
      this.file, this.x, writer, reader := file, x, w, r;
      a, sent, heard := NewSender(nr), [], [];
    }

    // A free writer is given the next message, if there is one.
    method Fill(readOk: bool)
      requires Valid() && writer.haveToWrite == 0 && !a.ended
      modifies this`a, this`sent, writer, writer.writebuf, writer.cipher
      ensures Valid()
      ensures var t := GetForSend(old(a), file, readOk); a == t.a && sent == old(sent) + t.out
      ensures writer.wire == old(writer.wire)
    {
      hide GetForSend, ForwardBlock, Sayable, SlotSayable, AnswerOf, GoodInfo, BinkpReader.Valid, BinkpWriter.Valid;
      var t := GetForSend(a, file, readOk);
      SaysSayable(a, file, readOk);
      if t.out != [] {
        ForwardRoundTrip(t.out[0], x);
        writer.Fill(ForwardBlock(t.out[0], x));
        assert t.out == [t.out[0]];
      }
      a, sent := t.a, sent + t.out;
    }

    // tty_write has accepted n bytes.
    method Write(n: nat)
      requires Valid() && 0 < n <= writer.haveToWrite
      modifies writer`writePos, writer`haveToWrite, writer`wire
      ensures Valid() && old(writer.wire) <= writer.wire && |writer.wire| == old(|writer.wire|) + n
    {
      hide BinkpReader.Valid, BinkpWriter.Valid, AnswerOf, ForwardBlock, Sayable, GoodInfo;
      writer.Write(n);
    }

    // tty_read has delivered a chunk.
    method Read(chunk: seq<Byte>)
      requires Valid() && 0 < |chunk| <= reader.wantRead
      modifies reader`readPos, reader`wantRead, reader`taken, reader.readbuf, reader.cipher
      ensures Valid() && reader.taken == old(reader.taken) + chunk
    {
      hide BinkpReader.Valid, BinkpWriter.Valid, AnswerOf, ForwardBlock, Sayable, GoodInfo;
      reader.Read(chunk);
    }

    // A complete block is a message, which may have to wait for extracmd, or an error.
    method Listen(seekOk: bool) returns (ghost m: Option<BinkpResume.Answer>)
      requires Valid() && reader.wantRead == 0 && reader.readPos > 0 && !a.ended
      modifies this`a, this`heard, reader`readPos, reader`wantRead, reader`accepted, reader`enough
      ensures Valid() && reader.taken == old(reader.taken)
      ensures forall b :: Fits(b) && Frame(b) == old(reader.readbuf[..reader.readPos]) ==> m == AnswerOf(b, x)
      ensures m == None ==> a == old(a).(ended := true) && heard == old(heard)
      ensures m.Some? ==>
                if m.value.Get? && old(a).slot != Free then a == old(a) && heard == old(heard)
                else a == HearAnswer(old(a), m.value, seekOk) && heard == old(heard) + [m.value]
    {
      hide BinkpReader.Valid, BinkpWriter.Valid, AnswerOf, ForwardBlock, Sayable, GoodInfo, Frame, HearAnswer, Fits;
      var b := reader.Peek();
      OnlyBlock(b, x);
      var said := AnswerOf(b, x);
      m := said;
      if said == None {
        a := a.(ended := true);
      } else if !said.value.Get? || a.slot == Free {
        HeardSayable(a, b, x, seekOk);
        a := HearAnswer(a, said.value, seekOk);
        ghost var c := reader.Offer(Accepted);
        FrameUnique(b, c, Frame(b));
        heard := heard + [said.value];
      }
    }
  }

  // The bytes determine the block.
  lemma OnlyBlock(b: Block, x: FileInfo)
    requires Fits(b)
    ensures forall c :: Fits(c) && Frame(c) == Frame(b) ==> c == b
  {
    hide Frame, Fits;
    forall c | Fits(c) && Frame(c) == Frame(b) ensures c == b {
      FrameUnique(c, b, Frame(b));
    }
  }

  lemma GetIsSmall(b: Block, x: FileInfo)
    ensures AnswerOf(b, x).Some? && AnswerOf(b, x).value.Get? ==> Is32(AnswerOf(b, x).value.off)
  {
    hide About;
  }

  lemma GetSayable(a: Sender, off: nat, seekOk: bool)
    requires SlotSayable(a) && Is32(off)
    ensures SlotSayable(HearGet(a, off, seekOk))
  {
  }

  lemma EndSayable(a: Sender, skip: bool)
    ensures HearEnd(a, skip).slot == a.slot
  {
  }

  lemma HeardSayable(a: Sender, b: Block, x: FileInfo, seekOk: bool)
    requires SlotSayable(a) && AnswerOf(b, x).Some?
    ensures SlotSayable(HearAnswer(a, AnswerOf(b, x).value, seekOk))
  {
    hide AnswerOf, HearGet, HearEnd;
    GetIsSmall(b, x);
    match AnswerOf(b, x).value {
      case Get(off) => GetSayable(a, off, seekOk);
      case Got => EndSayable(a, false);
      case Skip => EndSayable(a, true);
    }
  }

  // ---------------------------------------------------------------------------
  // What the receiver says
  // ---------------------------------------------------------------------------

  predicate SlotAnswerable(b: Receiver) {
    (b.slot.Holds? && b.slot.msg.Get? ==> Is32(b.slot.msg.off)) && Is32(b.skipped)
  }

  lemma OfferAnswerable(b: Receiver, off: int, open: OpenOutcome)
    requires SlotAnswerable(b) && Is32(|b.disk|)
    ensures SlotAnswerable(HearOffer(b, off, open))
  {
  }

  lemma DataAnswerable(b: Receiver, bytes: seq<Byte>, total: nat, write: WriteOutcome, closeOk: bool)
    requires SlotAnswerable(b)
    ensures SlotAnswerable(HearData(b, bytes, total, write, closeOk))
  {
  }

  lemma BlockAnswerable(b: Receiver, m: Forward, total: nat, open: OpenOutcome, write: WriteOutcome, closeOk: bool)
    requires SlotAnswerable(b) && Is32(|b.disk|)
    ensures SlotAnswerable(DoReceiveBlock(b, m, total, open, write, closeOk).b)
  {
    hide HearOffer, HearData;
    match m {
      case Eob =>
      case FileAt(off) => OfferAnswerable(b, off, open);
      case Data(bytes) => DataAnswerable(b, bytes, total, write, closeOk);
    }
  }

  class ReceivingEnd {
    const total: nat
    const x: FileInfo
    const writer: BinkpWriter
    const reader: BinkpReader
    var b: Receiver
    ghost var said: seq<BinkpResume.Answer>    // messages handed to the writer, in order
    ghost var heard: seq<Forward>              // messages accepted, in order

    ghost predicate Valid()
      reads this, writer, writer.writebuf, writer.cipher, reader, reader.readbuf, reader.cipher
    {
      && writer.Valid() && reader.Valid() && !reader.enough
      && writer.writebuf != reader.readbuf && writer.cipher != reader.cipher
      && GoodInfo(x) && SlotAnswerable(b)
      && Said() && Understood()
    }

    ghost predicate Said()
      reads this, writer
    {
      && |writer.blocks| == |said|
      && (forall k :: 0 <= k < |said| ==> writer.blocks[k] == AnswerBlock(said[k], x))
      && (forall k :: 0 <= k < |said| && said[k].Get? ==> Is32(said[k].off))
    }

    ghost predicate Understood()
      reads this, reader
    {
      && |reader.accepted| == |heard|
      && forall k :: 0 <= k < |heard| ==> ForwardOf(reader.accepted[k], x) == Some(heard[k])
    }

    constructor (total: nat, leftover: seq<Byte>, x: FileInfo, crypt: bool, keysOut: Keys, keysIn: Keys)
      requires GoodInfo(x)
      ensures Valid() && fresh(writer) && fresh(writer.writebuf) && fresh(writer.cipher)
      ensures fresh(reader) && fresh(reader.readbuf) && fresh(reader.cipher)
      ensures this.total == total && this.x == x && b == NewReceiver(leftover) && said == [] && heard == []
      ensures writer.start == keysOut && writer.crypt == reader.crypt == crypt && reader.start == keysIn
      ensures writer.wire == [] && reader.taken == []
    {
      var c := new Cipher(keysOut);
      var d := new Cipher(keysIn);
      var w := new BinkpWriter(c, crypt);
      var r := new BinkpReader(d, crypt);
      this.total, this.x, writer, reader := total, x, w, r;
      b, said, heard := NewReceiver(leftover), [], [];
    }

    // A free writer is given what extracmd holds.
    method Fill()
      requires Valid() && writer.haveToWrite == 0
      modifies this`b, this`said, writer, writer.writebuf, writer.cipher
      ensures Valid()
      ensures b == old(b).(slot := Free) && said == old(said) + Held(old(b).slot)
      ensures writer.wire == old(writer.wire)
    {
      hide BinkpReader.Valid, BinkpWriter.Valid, AnswerBlock, ForwardOf, GoodInfo;
      if b.slot.Holds? {
        AnswerRoundTrip(b.slot.msg, x);
        writer.Fill(AnswerBlock(b.slot.msg, x));
        said := said + [b.slot.msg];
      }
      b := b.(slot := Free);
    }

    method Write(n: nat)
      requires Valid() && 0 < n <= writer.haveToWrite
      modifies writer`writePos, writer`haveToWrite, writer`wire
      ensures Valid() && old(writer.wire) <= writer.wire && |writer.wire| == old(|writer.wire|) + n
    {
      hide BinkpReader.Valid, BinkpWriter.Valid, AnswerBlock, ForwardOf, GoodInfo;
      writer.Write(n);
    }

    method Read(chunk: seq<Byte>)
      requires Valid() && 0 < |chunk| <= reader.wantRead
      modifies reader`readPos, reader`wantRead, reader`taken, reader.readbuf, reader.cipher
      ensures Valid() && reader.taken == old(reader.taken) + chunk
    {
      hide BinkpReader.Valid, BinkpWriter.Valid, AnswerBlock, ForwardOf, GoodInfo;
      reader.Read(chunk);
    }

    // A complete block is a message, or part of the file, or an error; it may have to wait.
    method Listen(open: OpenOutcome, write: WriteOutcome, closeOk: bool) returns (ghost m: Option<Forward>)
      requires Valid() && reader.wantRead == 0 && reader.readPos > 0 && b.error == None && Is32(|b.disk|)
      modifies this`b, this`heard, reader`readPos, reader`wantRead, reader`accepted, reader`enough
      ensures Valid() && reader.taken == old(reader.taken)
      ensures forall c :: Fits(c) && Frame(c) == old(reader.readbuf[..reader.readPos]) ==> m == ForwardOf(c, x)
      ensures m == None ==> b == Fail(old(b), Malformed) && heard == old(heard)
      ensures m.Some? ==>
                var h := DoReceiveBlock(old(b), m.value, total, open, write, closeOk);
                if h.taken then b == h.b && heard == old(heard) + [m.value] else b == old(b) && heard == old(heard)
    {
      hide BinkpReader.Valid, BinkpWriter.Valid, AnswerBlock, ForwardOf, GoodInfo, Frame, Fits, DoReceiveBlock;
      var c := reader.Peek();
      OnlyMessage(c, x);
      var said := ForwardOf(c, x);
      m := said;
      if said == None {
        b := Fail(b, Malformed);
      } else {
        BlockAnswerable(b, said.value, total, open, write, closeOk);
        var h := DoReceiveBlock(b, said.value, total, open, write, closeOk);
        if h.taken {
          b := h.b;
          ghost var d := reader.Offer(Accepted);
          FrameUnique(c, d, Frame(c));
          heard := heard + [said.value];
        }
      }
    }
  }

  lemma OnlyMessage(b: Block, x: FileInfo)
    requires Fits(b)
    ensures forall c :: Fits(c) && Frame(c) == Frame(b) ==> ForwardOf(c, x) == ForwardOf(b, x)
  {
    hide Frame, Fits, ForwardOf;
    OnlyBlock(b, x);
  }
}
