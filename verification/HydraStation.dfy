// hydra_batch of source/bforce/prot_hydra.c over its buffers: bytes come in from the line and go
// out to it, in pieces of any size.  What it does is what a station of HydraSession does.
module HydraStation {
  import opened Wrappers
  import opened Crc
  import opened Files
  import opened HydraSession
  import opened HydraInit
  import opened HydraPackets
  import opened HydraLink
  import opened HydraQueue
  import opened HydraTurn
  import Link = HydraCodec
  import Transparent = HydraTransparency
  import Negotiation = HydraNegotiation

  // ---------------------------------------------------------------------------
  // What the switches do not look at, and what they say
  // ---------------------------------------------------------------------------

  lemma SwitchesIgnore(st: Station, i: Input, j: Input)
    requires j == i.(abort := j.abort, initOk := j.initOk, arrival := j.arrival)
    ensures TimersTurn(st, i) == TimersTurn(st, j)
    ensures TxTurn(st, i) == TxTurn(st, j)
  {
    hide TxTimer, RxTimer, TxData, TxFInfo, TxTry, TxOpen, TxClose, Halt, EofOffset;
  }

  predicate GoodBlock(tx: Sender) {
    64 <= tx.blockSize <= 2048
  }

  // No packet is too large for the buffers; data goes out alone, into idle ones.
  predicate Sized(out: seq<Packet>, outIdle: bool) {
    NoData(out) || (outIdle && |out| == 1 && out[0].PData? && |out[0].bytes| <= 2048)
  }

  predicate NoData(out: seq<Packet>) {
    forall k :: 0 <= k < |out| ==> !out[k].PData?
  }

  lemma GrowSized(tx: Sender)
    requires GoodBlock(tx)
    ensures GoodBlock(Grow(tx))
  {
  }

  lemma BlockSized(tx: Sender, bytes: seq<Byte>)
    requires GoodBlock(tx) && |bytes| <= 2048
    ensures var t := TxBlock(tx, bytes); GoodBlock(t.tx) && Sized(t.out, true)
  {
    hide Grow;
    GrowSized(tx.(bytesSent := tx.bytesSent + |bytes|));
  }

  lemma DataSized(tx: Sender, f: File, read: ReadOutcome)
    requires GoodBlock(tx)
    ensures var t := TxData(tx, f, read); GoodBlock(t.tx) && Sized(t.out, true)
  {
    hide TxBlock;
    var n := Min(tx.blockSize, |f| - tx.fpos);
    if n > 0 {
      BlockSized(tx.(eofseen := n < tx.blockSize, fpos := tx.fpos + n), f[tx.fpos..tx.fpos + n]);
    }
  }

  lemma TrySized(tx: Sender, next: TxState, p: Packet)
    requires !p.PData?
    ensures TxTry(tx, next, p).tx.blockSize == tx.blockSize && NoData(TxTry(tx, next, p).out)
  {
  }

  lemma FInfoSized(tx: Sender, f: File)
    ensures TxFInfo(tx, f).tx.blockSize == tx.blockSize && NoData(TxFInfo(tx, f).out)
    ensures TxOpen(TxClose(tx)).blockSize == tx.blockSize
  {
    hide TxTry;
    TrySized(tx, FInfoAck, PEndOfBatch);
    TrySized(tx, FInfoAck, PFileInfo(|f|));
  }

  // The states that speak, and the others
  lemma SpeakSized(tx: Sender, f: File, other: RxState, i: Input)
    requires GoodBlock(tx)
    requires tx.state == Start || tx.state == Init || tx.state == End || tx.state == Eof || tx.state == FInfo
    ensures var t := TxTick(tx, f, other, i); GoodBlock(t.tx) && NoData(t.out)
  {
    hide TxTry, TxFInfo, EofOffset, NoData;
    TrySized(tx, SWait, PStart);
    TrySized(tx, InitAck, PInit(0, 0));
    TrySized(tx, EndAck, PEnd);
    TrySized(tx, EofAck, PEof(EofOffset(tx)));
    FInfoSized(tx, f);
  }

  lemma QuietSized(tx: Sender, f: File, other: RxState, i: Input)
    requires GoodBlock(tx)
    requires tx.state != Start && tx.state != Init && tx.state != End && tx.state != Eof && tx.state != FInfo
    ensures var t := TxTick(tx, f, other, i); GoodBlock(t.tx) && Sized(t.out, i.outIdle)
  {
    hide TxData, TxFInfo, TxOpen, TxClose;
    DataSized(tx, f, i.read);
    FInfoSized(tx, f);
    FInfoSized(TxOpen(TxClose(tx)).(tries := 0, state := FInfo), f);
  }

  lemma TickSized(tx: Sender, f: File, other: RxState, i: Input)
    requires GoodBlock(tx)
    ensures var t := TxTick(tx, f, other, i); GoodBlock(t.tx) && Sized(t.out, i.outIdle)
  {
    hide TxTick;
    if tx.state == Start || tx.state == Init || tx.state == End || tx.state == Eof || tx.state == FInfo {
      SpeakSized(tx, f, other, i);
    } else {
      QuietSized(tx, f, other, i);
    }
  }

  lemma RewindSized(tx: Sender, offset: int, block: nat, id: int, ok: bool)
    requires GoodBlock(tx)
    ensures GoodBlock(TxRpos(tx, offset, block, id, ok))
  {
  }

  lemma HandleSized(tx: Sender, p: Packet, i: Input)
    requires GoodBlock(tx)
    ensures var t := TxHandle(tx, p, i); GoodBlock(t.tx) && NoData(t.out)
  {
    hide TxRpos, TxFInfoAck, TxDataAck, TxEofAck;
    match p {
      case PRpos(offset, block, id) => RewindSized(tx, offset, block, id, i.seekOk);
      case _ => OthersSized(tx, p, i);
    }
  }

  lemma OthersSized(tx: Sender, p: Packet, i: Input)
    requires GoodBlock(tx)
    ensures p.PFInfoAck? ==> GoodBlock(TxFInfoAck(tx, p.ack, i.seekOk))
    ensures p.PDataAck? ==> GoodBlock(TxDataAck(tx, p.ackPos))
    ensures GoodBlock(TxEofAck(tx))
  {
  }

  lemma HaltSized(st: Station)
    requires GoodBlock(st.tx)
    ensures GoodBlock(Halt(st).tx)
  {
  }

  lemma TxTurnSized(st: Station, i: Input)
    requires GoodBlock(st.tx)
    ensures GoodBlock(TimersTurn(st, i).tx)
    ensures GoodBlock(TxTurn(st, i).st.tx) && Sized(TxTurn(st, i).out, i.outIdle)
  {
    hide TxTick, Halt, Sized, Resend;
    TickSized(st.tx, st.file, st.rx.state, i);
    HaltSized(st.(tx := TxTick(st.tx, st.file, st.rx.state, i).tx));
  }

  lemma RxTurnSized(st: Station)
    requires GoodBlock(st.tx)
    ensures GoodBlock(RxTurn(st).st.tx) && NoData(RxTurn(st).out)
  {
    hide Halt, Word;
    HaltSized(st.(rx := RxTick(st.rx).rx));
  }

  lemma RxHandleSized(r: Receiver, p: Packet, i: Input)
    ensures NoData(RxHandle(r, p, i).out)
  {
    hide Halve;
  }

  lemma ArrivalSized(st: Station, i: Input)
    requires GoodBlock(st.tx)
    ensures GoodBlock(ArrivalTurn(st, i).st.tx) && NoData(ArrivalTurn(st, i).out)
  {
    hide TxHandle, RxHandle, RxNoise, Halt;
    HaltSized(st);
    if i.arrival.Got? {
      var p := i.arrival.packet;
      var t := TxHandle(TxWindow(st, p, i), p, i);
      HandleSized(TxWindow(st, p, i), p, i);
      RxHandleSized(st.rx, p, i);
      HaltSized(st.(tx := t.tx, rx := RxHandle(st.rx, p, i).rx));
    }
  }

  predicate Fitting(p: Packet, x: Extra) {
    |Payload(p, x)| <= Link.MAXBLKLEN + if p.PData? then 4 else 0
  }

  lemma PayloadFits(p: Packet, x: Extra)
    requires GoodExtra(x) && (p.PData? ==> |p.bytes| <= 2048)
    ensures Fitting(p, x)
  {
    hide PutLong, PutWord, Hex, PutFlags;
    FlagsSize(CAN);
    FlagsSize(DEF);
  }

  lemma OffsetFits(p: Packet, x: Extra)
    requires p.PData?
    ensures |Payload(p, x)| == 4 + |p.bytes|
  {
    hide PutLong;
  }

  class HydraStation {
    const link: HydraInfo
    const output: HydraOutput
    const file: File         // the file to be sent, if any
    const extra: Extra

    var tx: Sender           // the transmitter's variables, and pi->send
    var rx: Receiver         // the receiver's, and pi->recv
    var halted: bool
    var line: seq<Byte>      // received by the tty, not yet read

    ghost var sent: seq<Packet>           // every packet queued or filled in
    ghost var under: seq<Link.Options>    // the options each was encoded with

    function Now(): Station
      reads this
    {
      Station(tx, rx, file, halted)
    }

    // The objects a station is made of
    ghost function Parts(): set<object> {
      {this, link, link.iencbuf, link.ibuf, output, output.obuf, output.oencbuf}
    }

    ghost predicate Valid()
      reads this, link, link.iencbuf, output, output.oencbuf
    {
      && output.link == link && link.ValidInput() && output.Valid()
      && GoodExtra(extra) && GoodBlock(tx)
      && Recorded(output.texts, under, sent, extra)
    }

    ghost function Port(): Port
      reads this, link, link.iencbuf
      requires link.ValidInput()
    {
      HydraTurn.Port(link.rxoptions, link.txoptions, link.Collected(), line)
    }

    ghost function Moment(): Moment
      reads this, link, link.iencbuf, output
      requires link.ValidInput()
    {
      HydraTurn.Moment(Now(), Port(), Idle(), output.tape, output.hailed, sent, under, output.texts)
    }

    lemma MomentFacts()
      requires Valid() && link.ValidInput()
      ensures var m := Moment();
              && m.st == Now() && m.port == Port() && m.sent == sent
              && Written(m) && Recorded(m.texts, m.under, m.sent, extra)
    {
      hide Text, Concat, HailsWithin, Recorded;
    }

    constructor (hasFile: bool, contents: File, leftover: seq<Byte>, x: Extra)
      requires GoodExtra(x)
      ensures Valid() && fresh(link) && fresh(output) && fresh(output.obuf) && fresh(output.oencbuf)
      ensures fresh(link.iencbuf) && fresh(link.ibuf) && link.ValidInput() && extra == x
      ensures Moment() == NewMoment(Now()) && sent == []
      ensures Now() == Station(NewSender(hasFile), NewReceiver(leftover), contents, false)
    {
      var hi := new HydraInfo(OptionsOf(UNKNOWN_LINK));
      link := hi;
      output := new HydraOutput(hi);
      tx, rx, file, halted, extra := NewSender(hasFile), NewReceiver(leftover), contents, false, x;
      line, sent, under := [], [], [];
    }

    // A packet's payload is put together in obuf.
    method PutPayload(p: Packet) returns (n: nat)
      requires Valid() && Fitting(p, extra)
      modifies output.obuf
      ensures n == |Payload(p, extra)| && output.obuf[..n] == Payload(p, extra)
      ensures output.Valid()
    {
      hide Payload, Link.PacketText;
      var text := Payload(p, extra);
      n := |text|;
      for k := 0 to n
        invariant forall j :: 0 <= j < k ==> output.obuf[j] == text[j]
      {
        output.obuf[k] := text[k];
      }
    }

    // hydra_queuepkt, or for a data packet hydra_putpkt straight into the idle buffer
    method Say(p: Packet)
      requires Valid() && Fitting(p, extra) && (p.PData? ==> Idle())
      modifies this`sent, this`under, output`pktqueue, output`oencpos, output`texts
      modifies output.obuf, output.oencbuf, link`lastchar
      ensures Valid() && link.ValidInput()
      ensures Said(old(Moment()), [p], Moment())
      ensures !p.PData? ==> output.oencpos == old(output.oencpos)
    {
      hide HydraOutput.Valid, HydraInfo.ValidInput, Payload, GoodExtra, Carries;
      ghost var text := Encode(p);
      sent, under := sent + [p], under + [link.txoptions];
    }

    method Encode(p: Packet) returns (ghost text: seq<Byte>)
      requires Valid() && Fitting(p, extra) && (p.PData? ==> Idle())
      modifies output`pktqueue, output`oencpos, output`texts
      modifies output.obuf, output.oencbuf, link`lastchar
      ensures output.Valid() && link.ValidInput() && Port() == old(Port())
      ensures output.texts == old(output.texts) + [text] && Carries(text, link.txoptions, p, extra)
      ensures !p.PData? ==> output.oencpos == old(output.oencpos)
    {
      hide Payload, Link.OutgoingText, GoodExtra, Concat, Unsent, Carries, Text, HailsWithin, Recorded;
      var n := PutPayload(p);
      if p.PData? {
        OffsetFits(p, extra);
      }
      ghost var o, last, pad := link.txoptions, link.lastchar, 0;
      if p.PData? {
        pad := output.FillData(n - 4);
      } else {
        pad := output.QueuePkt(n, Kind(p));
      }
      CarriesIt(o, last, pad, p, extra);
      text := Link.OutgoingText(o, Link.Outgoing(Kind(p), Payload(p, extra), last, pad));
    }

    predicate Idle()
      reads output
    {
      output.oencpos == 0 && output.pktqueue == []
    }

    method SayAll(out: seq<Packet>)
      requires Valid() && link.ValidInput() && Sized(out, Idle())
      modifies this`sent, this`under, output`pktqueue, output`oencpos, output`texts
      modifies output.obuf, output.oencbuf, link`lastchar
      ensures Valid() && link.ValidInput()
      ensures Said(old(Moment()), out, Moment())
    {
      hide Fitting, Valid, HydraInfo.ValidInput;
      assert Said(Moment(), [], Moment());
      for k := 0 to |out|
        invariant Valid() && link.ValidInput() && Said(old(Moment()), out[..k], Moment())
        invariant k == 0 ==> Idle() == old(Idle())
      {
        assert GoodExtra(extra) by { Facts(); }
        PayloadFits(out[k], extra);
        ghost var m := Moment();
        Say(out[k]);
        SaidMore(old(Moment()), out[..k], m, [out[k]], Moment());
        assert out[..k + 1] == out[..k] + [out[k]];
      }
      assert out[..|out|] == out;
    }

    lemma Facts()
      requires Valid()
      ensures GoodExtra(extra) && GoodBlock(tx) && link.ValidInput()
    {
    }

    // One tty_xselect: what has come in is read up to the end of a packet, and as much goes out
    // as the line takes.
    method Exchange(w: World) returns (event: Link.Event, failed: bool, ghost beyond: seq<Byte>,
                    ghost written: seq<Byte>)
      requires Valid() && link.ValidInput()
      modifies this`line, link`iencrcv, link`iencptr, link`iencfmt, link`idlecnt, link`isize, link.iencbuf, link.ibuf
      modifies output`oencptr, output`oencpos, output`pktqueue, output`tape, output.oencbuf
      ensures Valid() && link.ValidInput()
      ensures var t := Taking(old(Port()), w.chunk, beyond);
              && event == t.event
              && Moment() == old(Moment()).(idle := Idle(), port := old(Port()).(state := t.state, line := t.rest),
                                            tape := old(output.tape) + Signs(written, false))
      ensures event == Link.Exit ==> failed
      ensures failed ==> event == Link.Exit || (w.room.Some? && w.room.value <= 0)
      ensures |written| <= Room(w)
      ensures Room(w) > 0 && event != Link.Exit && old(Waits(Moment())) ==> written != []
    {
      hide Payload, Carries, Concat, Unsent, GoodExtra, Link.ReceiveAll, Link.ValidFormat, Text, HailsWithin;
      line := line + w.chunk;
      var used;
      event, used, beyond := link.Recv(line);
      line := line[used..];
      failed, written := event == Link.Exit, [];
      assert output.tape + Signs([], false) == output.tape;
      if !failed && w.room.Some? && !Idle() {
        var ok;
        ok, written := output.Send(w.room.value);
        failed := !ok;
      } else if Idle() {
        NothingWaits();
      }
    }

    // A step of a station of packets is taken: its state is assigned, its packets are sent.
    method Advance(t: HydraSession.Turn)
      requires Valid() && link.ValidInput() && t.st.file == file && GoodBlock(t.st.tx) && Sized(t.out, Idle())
      modifies this`tx, this`rx, this`halted, this`sent, this`under
      modifies output`pktqueue, output`oencpos, output`texts, output.obuf, output.oencbuf, link`lastchar
      ensures Valid() && link.ValidInput()
      ensures Said(old(Moment()).(st := t.st), t.out, Moment())
    {
      hide GoodBlock, Sized, Carries, Concat, Unsent, GoodExtra, Text, HailsWithin;
      tx, rx, halted := t.st.tx, t.st.rx, t.st.halted;
      SayAll(t.out);
    }

    // hydra_parse_init has settled the options.
    method Settle(theirs: Offer)
      requires Valid() && link.ValidInput()
      modifies link`txoptions, link`rxoptions
      ensures Valid() && link.ValidInput()
      ensures var o := OptionsOf(Negotiated(MINE, theirs));
              Moment() == old(Moment()).(port := old(Port()).(rx := o, tx := o))
    {
      hide Carries, Concat, Unsent, GoodExtra, Text, HailsWithin;
      link.rxoptions := OptionsOf(Negotiated(MINE, theirs));
      link.txoptions := link.rxoptions;
    }

    // HTX_START hails past the buffer before its packet is queued.
    method Hail(i: Input, n: nat)
      requires Valid() && link.ValidInput() && !i.dead
      modifies output`tape, output`hailed
      ensures Valid() && link.ValidInput()
      ensures Moment() == old(Moment()).(tape := old(output.tape) + HailSigns(old(Now()), i, n),
                                         hailed := if Hails(old(Now()), i) then |sent| else old(output.hailed))
    {
      hide Carries, Concat, Unsent, GoodExtra, Text, HailsWithin, TxTurn, TimersTurn;
      if TimersTurn(Now(), i).tx.state == Start && TxTurn(TimersTurn(Now(), i), i).out != [] {
        output.Hail(n);
      } else {
        assert output.tape + [] == output.tape;
      }
    }

    // Both switches
    method Switches(i: Input, n: nat)
      requires Valid() && link.ValidInput() && i.outIdle == Idle() && !i.dead
      modifies this`tx, this`rx, this`halted, this`sent, this`under, output`tape, output`hailed
      modifies output`pktqueue, output`oencpos, output`texts, output.obuf, output.oencbuf, link`lastchar
      ensures Valid() && link.ValidInput()
      ensures Said(AfterHail(old(Moment()), i, n).(st := Middle(old(Now()), i)), EarlyOut(old(Now()), i), Moment())
    {
      hide Valid, HydraInfo.ValidInput, TxTurn, RxTurn, TimersTurn, Sized, NoData, GoodBlock;
      Facts();
      TxTurnSized(Now(), i);
      TxTurnSized(TimersTurn(Now(), i), i);
      FileStays(Now(), i);
      FileStays(TimersTurn(Now(), i), i);
      ghost var t := TxTurn(TimersTurn(Now(), i), i);
      Hail(i, n);
      ghost var m := Moment();
      Advance(TxTurn(TimersTurn(Now(), i), i));
      ghost var m2 := Moment();
      RxTurnSized(Now());
      FileStays(Now(), i);
      QuietFits(RxTurn(Now()).out, Idle());
      Advance(RxTurn(Now()));
      SaidMore(m.(st := Middle(old(Now()), i)), t.out, m2.(st := Middle(old(Now()), i)), RxTurn(t.st).out, Moment());
    }

    // The exchange with the line, unless the batch is to end, and the options of an INIT
    method Await(w: World) returns (event: Link.Event, failed: bool, ghost beyond: seq<Byte>, ghost written: seq<Byte>)
      requires Valid() && link.ValidInput()
      modifies this`line, link, link.iencbuf, link.ibuf
      modifies output`oencptr, output`oencpos, output`pktqueue, output`tape, output.oencbuf
      ensures Valid() && link.ValidInput()
      ensures Awaited(old(Moment()), w, event, failed, beyond, written, Moment())
    {
      hide Valid, HydraInfo.ValidInput, OfferOf, Text, Concat;
      event, failed, beyond, written := Link.Pending, false, [], [];
      if !halted && !w.abort {
        event, failed, beyond, written := Exchange(w);
        if !failed && rx.state == RxInit && OfferOf(event).Some? {
          Settle(OfferOf(event).value);
        }
      }
    }

    // The switch over recv_rc
    method Listen(w: World, ghost outIdle: bool) returns (ghost d: Account, ghost m: HydraTurn.Moment)
      requires Valid() && link.ValidInput()
      modifies this, link, link.iencbuf, link.ibuf, output, output.obuf, output.oencbuf
      ensures Valid() && link.ValidInput()
      ensures d.input == InputOf(w, outIdle, w.abort || d.failed, InitOk(d.event), ArrivalOf(d.event))
      ensures Awaited(old(Moment()), w, d.event, d.failed, d.beyond, d.written, m)
      ensures var a := ArrivalTurn(old(Now()), d.input); Said(m.(st := a.st), a.out, Moment())
    {
      hide Valid, HydraInfo.ValidInput, ArrivalTurn, Sized, NoData, InitOk, ArrivalOf, GoodBlock, Awaited, Said, Idle;
      hide Text, Concat, HailsWithin, HydraInfo.Collected, TimersTurn, TxTurn, RxTurn, Halt;
      var e, failed;
      ghost var beyond, written;
      e, failed, beyond, written := Await(w);
      m := Moment();
      assert m.st == old(Now()) by { AwaitedStays(old(Moment()), w, e, failed, beyond, written, m); }
      var j := InputOf(w, true, w.abort || failed, InitOk(e), ArrivalOf(e));
      d := Account(j.(outIdle := outIdle), e, failed, beyond, written);
      ArrivalIgnores(Now(), j, outIdle);
      Answer(j);
    }

    method Answer(i: Input)
      requires Valid() && link.ValidInput()
      modifies this`tx, this`rx, this`halted, this`sent, this`under
      modifies output`pktqueue, output`oencpos, output`texts, output.obuf, output.oencbuf, link`lastchar
      ensures Valid() && link.ValidInput()
      ensures var a := ArrivalTurn(old(Now()), i); Said(old(Moment()).(st := a.st), a.out, Moment())
    {
      hide Valid, HydraInfo.ValidInput, ArrivalTurn, Sized, NoData, GoodBlock, Said, Idle;
      Facts();
      ArrivalSized(Now(), i);
      FileStays(Now(), i);
      QuietFits(ArrivalTurn(Now(), i).out, Idle());
      Advance(ArrivalTurn(Now(), i));
    }

    // One turn of the main loop is one turn of a station of packets; what it has heard is what
    // the receiver automaton makes of the bytes on the line.
    method Turn(w: World) returns (ghost d: Account)
      requires Valid() && link.ValidInput() && !Finished(Now())
      modifies this, link, link.iencbuf, link.ibuf, output, output.obuf, output.oencbuf
      ensures Valid() && link.ValidInput()
      ensures Turned(old(Moment()), w, d, Moment())
      ensures var t := Iteration(old(Now()), d.input); Now() == t.st && sent == old(sent) + t.out
    {
      hide Valid, HydraInfo.ValidInput, TxTurn, RxTurn, ArrivalTurn, TimersTurn, InitOk, ArrivalOf, Finished, Iteration;
      hide Said, Awaited, Turned;
      ghost var before := Moment();
      var i0 := InputOf(w, Idle(), w.abort, false, Silence);
      if w.dead {
        Exit();
        d := Account(i0, Link.Pending, false, [], []);
        DeadTurn(before, w, d, Moment());
        TurnedStation(before, w, d, Moment());
        return;
      }
      Switches(i0, w.hail);
      ghost var mid, heard := Moment(), Moment();
      d, heard := Listen(w, i0.outIdle);
      LiveTurn(before, w, d, mid, heard, Moment());
      TurnedStation(before, w, d, Moment());
    }

    // The closing loop: what is still queued and buffered goes out, in at most twenty steps.
    method Drain(rooms: seq<Option<int>>) returns (ok: bool)
      requires Valid() && link.ValidInput()
      modifies output`oencptr, output`oencpos, output`pktqueue, output`tape, output.oencbuf
      ensures Valid() && link.ValidInput()
      ensures Drained(old(Moment()), Moment())
      ensures ok ==> Text(output.tape) == Concat(output.texts)
    {
      hide Concat, Unsent, Carries, GoodExtra, Text, HailsWithin;
      var tries := 0;
      ghost var all: seq<Byte> := [];
      assert output.tape + Signs([], false) == output.tape;
      while !Idle()
        invariant Valid() && tries <= 20 && tries <= |rooms|
        invariant Moment() == old(Moment()).(idle := Idle(), tape := old(output.tape) + Signs(all, false))
        decreases |rooms| - tries
      {
        tries := tries + 1;
        if tries > 20 || tries > |rooms| || rooms[tries - 1] == None {
          return false;
        }
        ghost var written;
        ok, written := output.Send(rooms[tries - 1].value);
        assert Signs(all, false) + Signs(written, false) == Signs(all + written, false);
        all := all + written;
        if !ok {
          return;
        }
      }
      NothingWaits();
      assert Text(output.tape) + [] == Text(output.tape);
      ok := true;
    }

    lemma NothingWaits()
      requires Valid() && Idle()
      ensures output.Waiting() == []
    {
    }

    // hydra_batch: the main loop, the closing loop, and the exit.
    method Batch(worlds: seq<World>, rooms: seq<Option<int>>)
      returns (ok: bool, ghost ms: seq<HydraTurn.Moment>, ghost ds: seq<Account>)
      requires Valid() && link.ValidInput()
      modifies this, link, link.iencbuf, link.ibuf, output, output.obuf, output.oencbuf
      ensures Valid() && link.ValidInput()
      ensures Series(ms, worlds, ds) && ms[0] == old(Moment())
      ensures |ds| < |worlds| ==> Finished(ms[|ds|].st)
      ensures Drained(ms[|ds|], Moment()) || (!ok && Drained(ms[|ds|].(st := Halt(ms[|ds|].st)), Moment()))
      ensures ok ==> tx.state == TxDone && rx.state == RxDone && Text(output.tape) == Concat(output.texts)
    {
      hide Valid, HydraInfo.ValidInput, Finished, Iteration, Concat, Text, Turned;
      ms, ds := [Moment()], [];
      var n := 0;
      while n < |worlds| && !Finished(Now())
        invariant n == |ds| <= |worlds| && Valid() && link.ValidInput()
        invariant Series(ms, worlds, ds) && ms[0] == old(Moment()) && ms[n] == Moment()
      {
        ghost var d := Turn(worlds[n]);
        SeriesGrows(ms, worlds, ds, d, Moment());
        ms, ds, n := ms + [Moment()], ds + [d], n + 1;
      }
      ok := false;
      DrainedNothing(Moment());
      if tx.state == TxDone && rx.state == RxDone && !halted {
        ok := Drain(rooms);
        if !ok {
          Exit();
        }
      }
    }

    method Exit()
      requires Valid() && link.ValidInput()
      modifies this`tx, this`rx, this`halted
      ensures Valid() && link.ValidInput() && Moment() == old(Moment()).(st := Halt(old(Now()))) && Finished(Now())
    {
      hide Carries, Concat, Unsent, GoodExtra, RxDrop, TxClose, Text, HailsWithin;
      Facts();
      HaltSized(Now());
      var st := Halt(Now());
      tx, rx, halted := st.tx, st.rx, st.halted;
    }
  }

  lemma ArrivalIgnores(st: Station, i: Input, outIdle: bool)
    ensures ArrivalTurn(st, i.(outIdle := outIdle)) == ArrivalTurn(st, i)
  {
    hide Halt, RxNoise, TxRpos, TxFInfoAck, TxDataAck, TxEofAck, RxFileInfo, RxDataPacket, RxEof;
  }

  lemma QuietFits(out: seq<Packet>, idle: bool)
    requires NoData(out)
    ensures Sized(out, idle)
  {
  }

  lemma FileStays(st: Station, i: Input)
    ensures TimersTurn(st, i).file == TxTurn(st, i).st.file == RxTurn(st).st.file == ArrivalTurn(st, i).st.file
            == st.file
  {
    hide TxTick, RxTick, TxHandle, RxHandle, TxTimer, RxTimer, HaltedTx, HaltedRx, RxNoise;
  }

  // ---------------------------------------------------------------------------
  // The turn put together
  // ---------------------------------------------------------------------------

  function NewMoment(st: Station): HydraTurn.Moment {
    var o := OptionsOf(UNKNOWN_LINK);
    HydraTurn.Moment(st, HydraTurn.Port(o, o, Link.Receiver(0, false, 0, []), []), true, [], 0, [], [], [])
  }

  // Packets have been sent, nothing else has changed.
  ghost predicate Said(m: HydraTurn.Moment, out: seq<Packet>, n: HydraTurn.Moment) {
    && n == m.(idle := n.idle, sent := m.sent + out, under := m.under + Same(m.port.tx, |out|), texts := n.texts)
    && m.texts <= n.texts
  }

  lemma SaidMore(m: HydraTurn.Moment, out: seq<Packet>, n: HydraTurn.Moment, more: seq<Packet>, l: HydraTurn.Moment)
    requires Said(m, out, n) && Said(n, more, l)
    ensures Said(m, out + more, l)
  {
    assert Same(m.port.tx, |out|) + Same(m.port.tx, |more|) == Same(m.port.tx, |out + more|);
    assert m.sent + out + more == m.sent + (out + more);
    assert m.under + Same(m.port.tx, |out|) + Same(m.port.tx, |more|) == m.under + Same(m.port.tx, |out + more|);
  }

  ghost function AfterHail(m: HydraTurn.Moment, i: Input, n: nat): HydraTurn.Moment {
    m.(tape := m.tape + HailSigns(m.st, i, n), hailed := if Hails(m.st, i) then |m.sent| else m.hailed)
  }

  // An exchange with the line, if there is one
  ghost predicate Awaited(m: HydraTurn.Moment, w: World, event: Link.Event, failed: bool, beyond: seq<Byte>,
                          written: seq<Byte>, n: HydraTurn.Moment) {
    if m.st.halted || w.abort then event == Link.Pending && !failed && written == [] && n == m
    else
      var t := Taking(m.port, w.chunk, beyond);
      && event == t.event
      && n == m.(idle := n.idle, port := PortAfter(m.port, m.st.rx.state, t, failed),
                 tape := m.tape + Signs(written, false))
      && (event == Link.Exit ==> failed)
      && (failed ==> event == Link.Exit || (w.room.Some? && w.room.value <= 0))
      && |written| <= Room(w)
      && (Room(w) > 0 && event != Link.Exit && Waits(m) ==> written != [])
  }

  lemma AwaitedStays(m: HydraTurn.Moment, w: World, event: Link.Event, failed: bool, beyond: seq<Byte>,
                     written: seq<Byte>, n: HydraTurn.Moment)
    requires Awaited(m, w, event, failed, beyond, written, n)
    ensures n.st == m.st
  {
  }

  ghost predicate Drained(m: HydraTurn.Moment, n: HydraTurn.Moment) {
    exists written: seq<Byte> :: n == m.(idle := n.idle, tape := m.tape + Signs(written, false))
  }

  lemma DrainedNothing(m: HydraTurn.Moment)
    ensures Drained(m, m)
  {
    assert m.tape + Signs([], false) == m.tape;
    assert m == m.(idle := m.idle, tape := m.tape + Signs([], false));
  }

  // The switches do not see what has been heard.
  lemma SameSwitches(st: Station, i: Input, j: Input)
    requires j == i.(abort := j.abort, initOk := j.initOk, arrival := j.arrival)
    ensures Middle(st, i) == Middle(st, j) && EarlyOut(st, i) == EarlyOut(st, j) && Hails(st, i) == Hails(st, j)
  {
    hide TimersTurn, TxTurn, RxTurn;
    SwitchesIgnore(st, i, j);
    SwitchesIgnore(TimersTurn(st, i), i, j);
  }

  // The three parts of a turn follow one another.
  ghost predicate Parts(m: HydraTurn.Moment, w: World, d: Account, mid: HydraTurn.Moment, heard: HydraTurn.Moment,
                        n: HydraTurn.Moment) {
    var i := d.input;
    && i == InputOf(w, m.idle, w.abort || d.failed, InitOk(d.event), ArrivalOf(d.event))
    && Said(AfterHail(m, i, w.hail).(st := Middle(m.st, i)), EarlyOut(m.st, i), mid)
    && Awaited(mid, w, d.event, d.failed, d.beyond, d.written, heard)
    && Said(heard.(st := ArrivalTurn(mid.st, i).st), ArrivalTurn(mid.st, i).out, n)
  }

  lemma PartsIteration(m: HydraTurn.Moment, w: World, d: Account, mid: HydraTurn.Moment, heard: HydraTurn.Moment,
                       n: HydraTurn.Moment)
    requires Parts(m, w, d, mid, heard, n) && !w.dead && !Finished(m.st)
    ensures n.st == Iteration(m.st, d.input).st && n.sent == m.sent + Iteration(m.st, d.input).out
    ensures |m.sent| + |EarlyOut(m.st, d.input)| <= |n.sent|
  {
    hide TimersTurn, TxTurn, RxTurn, ArrivalTurn, Taking, InitOk, ArrivalOf, Finished;
    var i := d.input;
    var early, late := EarlyOut(m.st, i), ArrivalTurn(mid.st, i).out;
    assert m.sent + early + late == m.sent + (early + late);
  }

  lemma PartsHeard(m: HydraTurn.Moment, w: World, d: Account, mid: HydraTurn.Moment, heard: HydraTurn.Moment,
                   n: HydraTurn.Moment)
    requires Parts(m, w, d, mid, heard, n) && !w.dead
    ensures Heard(m, w, d, n)
  {
    hide TimersTurn, TxTurn, RxTurn, ArrivalTurn, InitOk, ArrivalOf, Taking, PortAfter;
  }

  lemma PartsWrote(m: HydraTurn.Moment, w: World, d: Account, mid: HydraTurn.Moment, heard: HydraTurn.Moment,
                   n: HydraTurn.Moment)
    requires Parts(m, w, d, mid, heard, n) && !w.dead
    ensures Wrote(m, w, d, n)
  {
    hide TimersTurn, TxTurn, RxTurn, ArrivalTurn, InitOk, ArrivalOf, Taking, PortAfter, Text, Concat, HailsWithin,
         Hails,
         Middle;
    StillWaits(m, mid, d.input, w.hail);
    assert mid.tape + [] == mid.tape && Signs([], false) == [];
  }

  lemma StillWaits(m: HydraTurn.Moment, mid: HydraTurn.Moment, i: Input, n: nat)
    requires mid.tape == m.tape + HailSigns(m.st, i, n) && m.texts <= mid.texts
    ensures Waits(m) ==> Waits(mid)
  {
    hide Text, Concat, Hails;
    TextConcat(m.tape, HailSigns(m.st, i, n));
    TextOfSigns(HAIL[..Min(n, |HAIL|)], true);
    assert Text([]) == [] by { EmptyText(); }
    ConcatGrows(mid.texts, |m.texts|);
    assert mid.texts[..|m.texts|] == m.texts;
  }

  lemma EmptyText()
    ensures Text([]) == []
  {
  }

  lemma PartsEncoded(m: HydraTurn.Moment, w: World, d: Account, mid: HydraTurn.Moment, heard: HydraTurn.Moment,
                     n: HydraTurn.Moment)
    requires Parts(m, w, d, mid, heard, n) && !w.dead
    ensures Encoded(m, d, n)
  {
    hide TimersTurn, TxTurn, RxTurn, ArrivalTurn, InitOk, ArrivalOf, Taking, PortAfter, Hails, Middle, EarlyOut;
    assert |n.sent| - |m.sent| - |EarlyOut(m.st, d.input)| == |ArrivalTurn(mid.st, d.input).out|;
  }

  lemma LiveTurn(m: HydraTurn.Moment, w: World, d: Account, mid: HydraTurn.Moment, heard: HydraTurn.Moment,
                 n: HydraTurn.Moment)
    requires !w.dead && !Finished(m.st)
    requires var i := InputOf(w, m.idle, w.abort, false, Silence);
             Said(AfterHail(m, i, w.hail).(st := Middle(m.st, i)), EarlyOut(m.st, i), mid)
    requires Awaited(mid, w, d.event, d.failed, d.beyond, d.written, heard)
    requires d.input == InputOf(w, m.idle, w.abort || d.failed, InitOk(d.event), ArrivalOf(d.event))
    requires var a := ArrivalTurn(mid.st, d.input); Said(heard.(st := a.st), a.out, n)
    ensures Turned(m, w, d, n)
  {
    hide TimersTurn, TxTurn, RxTurn, ArrivalTurn, InitOk, ArrivalOf, Finished, Iteration, Said, Awaited, Heard, Wrote,
         Encoded, Middle, EarlyOut, Hails, Text, Concat, HailsWithin;
    SameSwitches(m.st, InputOf(w, m.idle, w.abort, false, Silence), d.input);
    assert Parts(m, w, d, mid, heard, n);
    PartsIteration(m, w, d, mid, heard, n);
    PartsHeard(m, w, d, mid, heard, n);
    PartsWrote(m, w, d, mid, heard, n);
    PartsEncoded(m, w, d, mid, heard, n);
  }

  lemma DeadTurn(m: HydraTurn.Moment, w: World, d: Account, n: HydraTurn.Moment)
    requires w.dead && !Finished(m.st) && n == m.(st := Halt(m.st))
    requires d == Account(InputOf(w, m.idle, w.abort, false, Silence), Link.Pending, false, [], [])
    ensures Turned(m, w, d, n)
  {
    hide Halt, Finished, Middle, Text, Concat, HailsWithin, TxTurn, TimersTurn, RxTurn, ArrivalTurn;
    assert m.tape + [] + [] == m.tape && m.sent + [] == m.sent && m.under + [] + [] == m.under;
    assert Signs([], false) == [] && Same(m.port.tx, 0) == [];
  }

  // Whatever a station has sent is so heard.
  lemma SentIsHeard(st: HydraStation, k: nat, mine: Link.Options, s: Link.Receiver, rest: seq<Byte>, beyond: seq<Byte>)
    requires st.Valid() && k < |st.sent| && Portable(st.sent[k]) && s.idle < 4
    requires mine == st.under[k] || Negotiation.InHex(st.sent[k])
    ensures var p := st.sent[k];
            var e := Link.ReceiveAll(mine, s, st.output.texts[k] + rest, beyond).event;
            if Transparent.TooLong(Link.Format(mine, Kind(p)), Link.Body(mine, Kind(p), Payload(p, st.extra))) then e
                == Link.Undecodable
            else ArrivalOf(e) == Got(p)
  {
    hide Payload, Portable, Link.ReceiveAll, Link.Format, Link.Body, Transparent.TooLong, Carries, ArrivalOf;
    TextArrives(st.output.texts[k], st.under[k], st.sent[k], st.extra, mine, s, rest, beyond);
  }
}
