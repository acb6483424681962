// One turn of hydra_batch (source/bforce/prot_hydra.c) at the level of bytes: what comes in on
// the line, what the options are afterwards, and what goes out.
module HydraTurn {
  import opened Wrappers
  import opened Crc
  import opened Files
  import opened HydraSession
  import opened HydraInit
  import opened HydraPackets
  import opened HydraQueue
  import Link = HydraCodec
  import Transparent = HydraTransparency
  import Negotiation = HydraNegotiation

  // ---------------------------------------------------------------------------
  // Options
  // ---------------------------------------------------------------------------

  function OptionsOf(f: Flags): Link.Options {
    Link.Options(HydraInit.XON in f, TLN in f, CTL in f, HIC in f, HI8 in f, ASC in f, UUE in f, C32 in f)
  }

  // HYDRA_TXIOPT and HYDRA_RXIOPT
  const UNKNOWN_LINK: Flags := {HydraInit.XON, TLN, CTL, HIC, HI8}

  const MINE: Flags := DEF * CAN

  // ---------------------------------------------------------------------------
  // What one turn brings
  // ---------------------------------------------------------------------------

  datatype World = World(
    dead: bool, abort: bool, sendExpired: bool, recvExpired: bool, idleDue: bool,
    read: ReadOutcome, seekOk: bool, open: OpenOutcome, write: WriteOutcome, closeOk: bool,
    hail: nat,             // how much of a hail the tty takes
    chunk: seq<Byte>,      // what has come in on the line
    room: Option<int>)     // what the line takes, if it is ready for output

  // The turn as a station of packets sees it
  function InputOf(w: World, outIdle: bool, abort: bool, initOk: bool, arrival: Arrival): Input {
    Input(w.dead, abort, w.sendExpired, w.recvExpired, w.idleDue, outIdle, w.read, w.seekOk, w.open, w.write,
        w.closeOk, initOk, arrival)
  }

  // What hydra_recv has returned, as the switch over recv_rc takes it
  function ArrivalOf(e: Link.Event): Arrival {
    match e
    case Packet(kind, payload) =>
      (match Parse(kind, payload)
       case Some(p) => Got(p)
       case None => Silence)
    case Junk => Noise
    case _ => Silence
  }

  function OfferOf(e: Link.Event): Option<Offer> {
    if e.Packet? && e.kind == Kind(PInit(0, 0)) then ParseInit(e.payload) else None
  }

  predicate InitOk(e: Link.Event) {
    OfferOf(e).Some? && Compatible(MINE, OfferOf(e).value)
  }

  // ---------------------------------------------------------------------------
  // The ear of a station
  // ---------------------------------------------------------------------------

  // Both options, hydra_recv's variables, and what the tty has received and not yet read
  datatype Port = Port(rx: Link.Options, tx: Link.Options, state: Link.Receiver, line: seq<Byte>)

  // An INIT settles the options where one is expected.
  function OptionsAfter(o: Link.Options, state: RxState, event: Link.Event, failed: bool): Link.Options {
    if !failed && state == RxInit && OfferOf(event).Some? then OptionsOf(Negotiated(MINE, OfferOf(event).value)) else o
  }

  // Input is read up to the first event.
  function Taking(p: Port, chunk: seq<Byte>, beyond: seq<Byte>): Link.Taken {
    Link.ReceiveAll(p.rx, p.state, p.line + chunk, beyond)
  }

  function PortAfter(p: Port, state: RxState, t: Link.Taken, failed: bool): Port {
    Port(OptionsAfter(p.rx, state, t.event, failed), OptionsAfter(p.tx, state, t.event, failed), t.state, t.rest)
  }

  // ---------------------------------------------------------------------------
  // One turn
  // ---------------------------------------------------------------------------

  datatype Moment = Moment(
    st: Station, port: Port, idle: bool,
    tape: seq<Sign>, hailed: nat,           // as in HydraOutput
    sent: seq<Packet>,                      // every packet queued or filled in,
    under: seq<Link.Options>,               // the options each was encoded with,
    texts: seq<seq<Byte>>)                  // and its text

  // What has come of a turn: the event of the receiver, whether the exchange with the line has
  // failed, what lay behind the packet in the buffer, and what has been written.
  datatype Account = Account(input: Input, event: Link.Event, failed: bool, beyond: seq<Byte>, written: seq<Byte>)

  // The station behind both switches
  function Middle(st: Station, i: Input): Station {
    RxTurn(TxTurn(TimersTurn(st, i), i).st).st
  }

  function EarlyOut(st: Station, i: Input): seq<Packet> {
    if i.dead then []
    else
      var t := TxTurn(TimersTurn(st, i), i);
      t.out + RxTurn(t.st).out
  }

  // Unless the batch has ended by then, there is an exchange with the line.
  predicate Exchanges(st: Station, i: Input, abort: bool) {
    !i.dead && !abort && !Middle(st, i).halted
  }

  // HTX_START, unless it gives up
  predicate Hails(st: Station, i: Input) {
    && !i.dead && TimersTurn(st, i).tx.state == Start
    && TxTurn(TimersTurn(st, i), i).out != []
  }

  function HailSigns(st: Station, i: Input, n: nat): seq<Sign> {
    if Hails(st, i) then Signs(HAIL[..Min(n, |HAIL|)], true) else []
  }

  ghost predicate Heard(m: Moment, w: World, d: Account, n: Moment) {
    if Exchanges(m.st, d.input, w.abort) then
      var t := Taking(m.port, w.chunk, d.beyond);
      && d.event == t.event
      && n.port == PortAfter(m.port, Middle(m.st, d.input).rx.state, t, d.failed)
      && (d.event == Link.Exit ==> d.failed)
      && (d.failed ==> d.event == Link.Exit || (w.room.Some? && w.room.value <= 0))
    else d.event == Link.Pending && n.port == m.port && !d.failed
  }

  function Room(w: World): nat {
    if w.room.Some? && w.room.value > 0 then w.room.value else 0
  }

  // Something waits to be written.
  predicate Waits(m: Moment) {
    |Text(m.tape)| < |Concat(m.texts)|
  }

  ghost predicate Wrote(m: Moment, w: World, d: Account, n: Moment) {
    && n.tape == m.tape + HailSigns(m.st, d.input, w.hail) + Signs(d.written, false)
    && n.hailed == (if Hails(m.st, d.input) then |m.sent| else m.hailed)
    && (if Exchanges(m.st, d.input, w.abort) then |d.written| <= Room(w) else d.written == [])
    && (Exchanges(m.st, d.input, w.abort) && Room(w) > 0 && d.event != Link.Exit && Waits(m) ==> d.written != [])
  }

  function Same(o: Link.Options, n: nat): seq<Link.Options> {
    seq(n, k => o)
  }

  // Packets are encoded with the options of the moment: those of the switches with the old
  // ones, answers with the new.
  ghost predicate Encoded(m: Moment, d: Account, n: Moment) {
    && |m.sent| + |EarlyOut(m.st, d.input)| <= |n.sent|
    && n.under == m.under + Same(m.port.tx, |EarlyOut(m.st, d.input)|)
                  + Same(n.port.tx, |n.sent| - |m.sent| - |EarlyOut(m.st, d.input)|)
    && m.texts <= n.texts
  }

  ghost predicate Turned(m: Moment, w: World, d: Account, n: Moment) {
    && d.input == InputOf(w, m.idle, w.abort || d.failed, InitOk(d.event), ArrivalOf(d.event))
    && n.st == Iteration(m.st, d.input).st && n.sent == m.sent + Iteration(m.st, d.input).out
    && Heard(m, w, d, n) && Wrote(m, w, d, n) && Encoded(m, d, n)
  }

  lemma TurnedStation(m: Moment, w: World, d: Account, n: Moment)
    requires Turned(m, w, d, n)
    ensures n.st == Iteration(m.st, d.input).st && n.sent == m.sent + Iteration(m.st, d.input).out
  {
  }

  // A series of turns
  ghost predicate Series(ms: seq<Moment>, ws: seq<World>, ds: seq<Account>) {
    && |ms| == |ds| + 1 && |ds| <= |ws|
    && forall k :: 0 <= k < |ds| ==> !Finished(ms[k].st) && Turned(ms[k], ws[k], ds[k], ms[k + 1])
  }

  lemma SeriesGrows(ms: seq<Moment>, ws: seq<World>, ds: seq<Account>, d: Account, n: Moment)
    requires Series(ms, ws, ds) && |ds| < |ws|
    requires !Finished(ms[|ds|].st) && Turned(ms[|ds|], ws[|ds|], d, n)
    ensures Series(ms + [n], ws, ds + [d])
  {
    hide Turned, Finished;
    var ms', ds' := ms + [n], ds + [d];
    forall k | 0 <= k < |ds'| ensures !Finished(ms'[k].st) && Turned(ms'[k], ws[k], ds'[k], ms'[k + 1]) {
      if k < |ds| {
        assert Turned(ms[k], ws[k], ds[k], ms[k + 1]);
      }
    }
  }

  function InputsOf(ds: seq<Account>): (r: seq<Input>)
    ensures |r| == |ds|
  {
    seq(|ds|, k requires 0 <= k < |ds| => ds[k].input)
  }

  // The stations of a series are those that packets alone would have led to.
  lemma {:induction false} SeriesTurns(ms: seq<Moment>, ws: seq<World>, ds: seq<Account>)
    requires Series(ms, ws, ds)
    ensures var t := Turns(ms[0].st, InputsOf(ds)); ms[|ds|].st == t.st && ms[|ds|].sent == ms[0].sent + t.out
    decreases |ds|
  {
    hide Iteration, Heard, Wrote, Encoded, Finished;
    if ds != [] {
      var n := |ds| - 1;
      SeriesTurns(ms[..n + 1], ws, ds[..n]);
      assert InputsOf(ds)[..n] == InputsOf(ds[..n]);
      assert Turned(ms[n], ws[n], ds[n], ms[n + 1]);
    }
  }

  // ---------------------------------------------------------------------------
  // Packets as texts
  // ---------------------------------------------------------------------------

  // The text is packet p, encoded with options o.
  ghost predicate Carries(text: seq<Byte>, o: Link.Options, p: Packet, x: Extra) {
    exists last: Link.LastChar, pad: Byte :: text
        == Link.OutgoingText(o, Link.Outgoing(Kind(p), Payload(p, x), last, pad))
  }

  lemma CarriesIt(o: Link.Options, last: Link.LastChar, pad: Byte, p: Packet, x: Extra)
    ensures Carries(Link.OutgoingText(o, Link.Outgoing(Kind(p), Payload(p, x), last, pad)), o, p, x)
  {
  }

  // The texts produced are those of the packets sent.
  ghost predicate Recorded(texts: seq<seq<Byte>>, under: seq<Link.Options>, sent: seq<Packet>, x: Extra) {
    && |sent| == |under| == |texts|
    && forall k :: 0 <= k < |sent| ==> Carries(texts[k], under[k], sent[k], x)
  }

  // What has gone over the line is the beginning of the texts, and hails.
  ghost predicate Written(m: Moment) {
    && Text(m.tape) <= Concat(m.texts)
    && m.hailed <= |m.texts| && HailsWithin(m.tape, |Concat(m.texts[..m.hailed])|)
  }

  // ---------------------------------------------------------------------------
  // What is put on the line is heard
  // ---------------------------------------------------------------------------

  // What is always sent as HEX does not depend on the options.
  lemma HexTextIsFixed(o: Link.Options, p: Packet, x: Extra, m: Link.Outgoing)
    requires Negotiation.InHex(p) && m.kind == Kind(p)
    ensures Link.AlwaysHex(m.kind)
    ensures forall o': Link.Options :: Link.OutgoingText(o', m) == Link.OutgoingText(o, m)
  {
    hide Crc16, Check16, Link.HexText;
  }

  // From every state of a receiver with fewer than four pending DLEs, the text of packet p is
  // heard as p by whoever has the options it was encoded with, and, if it is always sent as
  // HEX, by everybody; only a UUE link loses what is beyond its limit.
  lemma TextArrives(text: seq<Byte>, o: Link.Options, p: Packet, x: Extra, mine: Link.Options, s: Link.Receiver,
                    rest: seq<Byte>, beyond: seq<Byte>)
    requires Carries(text, o, p, x) && Portable(p) && GoodExtra(x) && s.idle < 4
    requires mine == o || Negotiation.InHex(p)
    ensures var e := Link.ReceiveAll(mine, s, text + rest, beyond).event;
            if Transparent.TooLong(Link.Format(mine, Kind(p)), Link.Body(mine, Kind(p), Payload(p, x))) then e
                == Link.Undecodable
            else ArrivalOf(e) == Got(p)
  {
    hide Payload, Parse, Portable, Link.ReceiveAll, Link.Format, Link.Body, Transparent.TooLong, Link.PacketText,
         GoodExtra;
    var last, pad :| text == Link.OutgoingText(o, Link.Outgoing(Kind(p), Payload(p, x), last, pad));
    var m := Link.Outgoing(Kind(p), Payload(p, x), last, pad);
    if mine != o {
      HexTextIsFixed(o, p, x, m);
    }
    assert text == Link.OutgoingText(mine, m);
    PacketCrosses(mine, s, last, p, x, pad, rest, beyond);
  }
}
