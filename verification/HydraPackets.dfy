// The payloads of the Hydra packets that hydra_batch builds and takes apart
// (source/bforce/prot_hydra.c), and the packets of HydraSession carried over the link.
module HydraPackets {
  import opened Wrappers
  import opened Crc
  import opened Files
  import opened HydraSession
  import opened HydraSafety
  import opened HydraOutcome
  import opened HydraInit
  import Link = HydraCodec
  import Transparent = HydraTransparency

  function Low(u: nat): Byte {
    ByteOf(u % 256)
  }

  // hydra_putlong: the low 32 bits of a long, least significant byte first
  function PutLong(v: int): (b: seq<Byte>)
    ensures |b| == 4
  {
    var u := v % 0x1_0000_0000;
    [Low(u), Low(u / 0x100), Low(u / 0x1_0000), Low(u / 0x100_0000)]
  }

  function PutWord(v: nat): (b: seq<Byte>)
    ensures |b| == 2
  {
    [Low(v), Low(v / 0x100)]
  }

  function GetWord(b: seq<Byte>): nat
    requires |b| >= 2
  {
    ValueOf(b[0]) + 0x100 * ValueOf(b[1])
  }

  // hydra_getlong with a 32-bit long: the -1 and -2 of EOF, RPOS and FINFOACK rely on the sign.
  function GetLong(b: seq<Byte>): int
    requires |b| >= 4
  {
    var u := ValueOf(b[0]) + 0x100 * ValueOf(b[1]) + 0x1_0000 * ValueOf(b[2]) + 0x100_0000 * ValueOf(b[3]);
    if u < LIMIT then u else u - 0x1_0000_0000
  }

  lemma LowIs(u: nat)
    ensures ValueOf(Low(u)) == u % 256
  {
    hide ByteOf, ValueOf;
    ValueOfByte(u % 256);
  }

  lemma DigitsOf(u: nat)
    requires u < 0x1_0000_0000
    ensures u % 256 + 0x100 * (u / 0x100 % 256) + 0x1_0000 * (u / 0x1_0000 % 256)
            + 0x100_0000 * (u / 0x100_0000 % 256) == u
  {
    assert u / 0x1_0000 == u / 0x100 / 0x100;
    assert u / 0x100_0000 == u / 0x100 / 0x100 / 0x100;
  }

  lemma LongRoundTrip(v: int, rest: seq<Byte>)
    requires -LIMIT <= v < LIMIT
    ensures GetLong(PutLong(v) + rest) == v
  {
    hide Low, ValueOf;
    var u := v % 0x1_0000_0000;
    LowIs(u);
    LowIs(u / 0x100);
    LowIs(u / 0x1_0000);
    LowIs(u / 0x100_0000);
    DigitsOf(u);
  }

  lemma WordRoundTrip(v: nat, rest: seq<Byte>)
    requires v < 65536
    ensures GetWord(PutWord(v) + rest) == v
  {
    hide Low, ValueOf;
    var b := PutWord(v) + rest;
    assert b[0] == Low(v) && b[1] == Low(v / 0x100);
    WordDigits(v, b[0], b[1]);
  }

  lemma WordDigits(v: nat, low: Byte, high: Byte)
    requires v < 65536 && low == Low(v) && high == Low(v / 0x100)
    ensures ValueOf(low) + 0x100 * ValueOf(high) == v
  {
    hide Low, ValueOf;
    LowIs(v);
    LowIs(v / 0x100);
  }

  // ---------------------------------------------------------------------------
  // Packets
  // ---------------------------------------------------------------------------

  function Kind(p: Packet): Byte {
    match p
    case PStart => 0x41
    case PInit(_, _) => 0x42
    case PInitAck => 0x43
    case PFileInfo(_) => 0x44
    case PEndOfBatch => 0x44
    case PFInfoAck(_) => 0x45
    case PData(_, _) => 0x46
    case PDataAck(_) => 0x47
    case PRpos(_, _, _) => 0x48
    case PEof(_) => 0x49
    case PEofAck => 0x4a
    case PEnd => 0x4b
    case PIdle => 0x4c
  }

  // What else goes into INIT and FINFO packets: the application, and the file's time and names
  // (the long one only if it differs).
  datatype Extra = Extra(app: seq<Byte>, time: nat, name: seq<Byte>, long: seq<Byte>)

  predicate GoodExtra(x: Extra) {
    && 0 !in x.app && |x.app| <= 256 && x.time < 0x1_0000_0000
    && x.name != [] && 0 !in x.name && |x.name| <= 12 && 0 !in x.long && |x.long| <= 128
  }

  function FInfoText(total: nat, x: Extra): seq<Byte> {
    Hex(x.time, 8)
        + (Hex(total, 8) + (Hex(0, 8) + Hex(0, 8) + Hex(0, 8) + x.name + [0]
            + (if x.long != [] then x.long + [0] else [])))
  }

  function Payload(p: Packet, x: Extra): seq<Byte> {
    match p
    case PInit(txw, rxw) => InitText(x.app, Offer(CAN, DEF, txw, rxw))
    case PFileInfo(total) => FInfoText(total, x)
    case PEndOfBatch => [0]
    case PFInfoAck(offs) => PutLong(offs)
    case PData(pos, bytes) => PutLong(pos) + bytes
    case PDataAck(pos) => PutLong(pos)
    case PRpos(pos, block, id) => PutLong(pos) + PutWord(block) + PutLong(id)
    case PEof(pos) => PutLong(pos)
    case _ => []
  }

  // A FINFO packet gives the file's time and length, and from its byte 40 on its names.
  lemma FInfoRead(total: nat, x: Extra)
    requires GoodExtra(x) && total < 0x1_0000_0000
    ensures var t := FInfoText(total, x);
            && HexNumber(t, 8, 0) == x.time && HexNumber(PastHex(t, 8), 8, 0) == total
            && |t| >= 40 && Str(t[40..]) == x.name && Str(PastStr(t[40..])) == x.long
  {
    hide Hex, HexNumber, PastHex, Str, PastStr;
    assert Power(8) == 0x1_0000_0000 by { EightDigits(); }
    var names := x.name + [0] + (if x.long != [] then x.long + [0] else []);
    var sizes := Hex(0, 8) + Hex(0, 8) + Hex(0, 8);
    var t := FInfoText(total, x);
    var rest := Hex(total, 8) + (sizes + names);
    assert t == Hex(x.time, 8) + rest;
    HexReads(x.time, 8, 0, rest);
    HexReads(total, 8, 0, sizes + names);
    assert t[40..] == names;
    StrFirst(x.name, if x.long != [] then x.long + [0] else []);
    assert names == x.name + ([0] + (if x.long != [] then x.long + [0] else []));
    if x.long != [] {
      StrFirst(x.long, []);
      assert x.long + ([0] + []) == x.long + [0];
    } else {
      NothingRead();
    }
  }

  lemma NothingRead()
    ensures Str([]) == []
  {
  }

  // The file size in a FINFO packet
  function ParseTotal(b: seq<Byte>): nat {
    HexNumber(PastHex(b, 8), 8, 0)
  }

  function ParseWindows(b: seq<Byte>): Packet {
    match ParseInit(b)
    case None => PInit(0, 0)
    case Some(i) => PInit(i.txwindow, i.rxwindow)
  }

  // What the switch over recv_rc makes of a received packet
  function Parse(kind: Byte, b: seq<Byte>): Option<Packet> {
    if kind == 0x41 then Some(PStart)
    else if kind == 0x42 then Some(ParseWindows(b))
    else if kind == 0x43 then Some(PInitAck)
    else if kind == 0x44 then
      if |b| > 0 && b[0] == 0 then Some(PEndOfBatch)
      else if |b| > 41 && b[|b| - 1] == 0 then Some(PFileInfo(ParseTotal(b)))
      else None
    else if kind == 0x45 then if |b| < 4 then None else Some(PFInfoAck(GetLong(b)))
    else if kind == 0x46 then if |b| < 4 then None else Some(PData(GetLong(b), b[4..]))
    else if kind == 0x47 then if |b| < 4 then None else Some(PDataAck(GetLong(b)))
    else if kind == 0x48 then if |b| < 10 then None else Some(PRpos(GetLong(b), GetWord(b[4..]), GetLong(b[6..])))
    else if kind == 0x49 then if |b| < 4 then None else Some(PEof(GetLong(b)))
    else if kind == 0x4a then Some(PEofAck)
    else if kind == 0x4b then Some(PEnd)
    else if kind == 0x4c then Some(PIdle)
    else None
  }

  predicate Fits(v: int) {
    -LIMIT <= v < LIMIT
  }

  // The numbers fit the fields and the block fits the packet.
  predicate Portable(p: Packet) {
    match p
    case PInit(txw, rxw) => txw < LIMIT && rxw < LIMIT
    case PFileInfo(total) => total < 2 * LIMIT
    case PFInfoAck(offs) => Fits(offs)
    case PData(pos, bytes) => Fits(pos) && |bytes| <= 2048
    case PDataAck(pos) => Fits(pos)
    case PRpos(pos, block, id) => Fits(pos) && block < 65536 && Fits(id)
    case PEof(pos) => Fits(pos)
    case _ => true
  }

  // Every packet is parsed as the packet its payload was built for, and fits.
  lemma PayloadRoundTrip(p: Packet, x: Extra)
    requires Portable(p) && GoodExtra(x)
    ensures Parse(Kind(p), Payload(p, x)) == Some(p)
    ensures |Payload(p, x)| <= Link.MAXBLKLEN + if p.PData? then 4 else 0
  {
    hide PutLong, GetLong, PutWord, GetWord, InitText, ParseInit, FInfoText, ParseTotal;
    match p {
      case PInit(txw, rxw) => InitRoundTrip(x.app, Offer(CAN, DEF, txw, rxw));
      case PFileInfo(total) => FInfoRoundTrip(total, x);
      case PFInfoAck(offs) => LongAlone(offs);
      case PData(pos, bytes) =>
        LongRoundTrip(pos, bytes);
        assert (PutLong(pos) + bytes)[4..] == bytes;
      case PDataAck(pos) => LongAlone(pos);
      case PRpos(pos, block, id) => RposRoundTrip(pos, block, id);
      case PEof(pos) => LongAlone(pos);
      case _ =>
    }
  }

  lemma FInfoRoundTrip(total: nat, x: Extra)
    requires total < 2 * LIMIT && GoodExtra(x)
    ensures var b := FInfoText(total, x);
            41 < |b| <= 182 && b[0] != 0 && b[|b| - 1] == 0 && ParseTotal(b) == total
  {
    hide Hex, HexNumber, PastHex;
    var tail := Hex(0, 8) + Hex(0, 8) + Hex(0, 8) + x.name + [0] + (if x.long != [] then x.long + [0] else []);
    assert Power(8) == 0x1_0000_0000 by { EightDigits(); }
    HexReads(x.time, 8, 0, Hex(total, 8) + tail);
    HexReads(total, 8, 0, tail);
    HexHasNoNul(x.time, 8);
    assert FInfoText(total, x)[0] == Hex(x.time, 8)[0];
  }

  lemma LongAlone(v: int)
    requires Fits(v)
    ensures GetLong(PutLong(v)) == v
  {
    hide PutLong, GetLong;
    assert PutLong(v) + [] == PutLong(v);
    LongRoundTrip(v, []);
  }

  lemma RposRoundTrip(pos: int, block: nat, id: int)
    requires Fits(pos) && block < 65536 && Fits(id)
    ensures Parse(0x48, PutLong(pos) + PutWord(block) + PutLong(id)) == Some(PRpos(pos, block, id))
  {
    hide PutLong, GetLong, PutWord, GetWord;
    var b := PutLong(pos) + PutWord(block) + PutLong(id);
    assert b == PutLong(pos) + (PutWord(block) + PutLong(id));
    assert b[4..] == PutWord(block) + PutLong(id);
    assert b[6..] == PutLong(id);
    LongRoundTrip(pos, PutWord(block) + PutLong(id));
    WordRoundTrip(block, PutLong(id));
    LongAlone(id);
  }

  // ---------------------------------------------------------------------------
  // Over the link
  // ---------------------------------------------------------------------------

  // The packet taken off the link is the one put on it, whatever the options, the encoding
  // and the receiver's state; a UUE link loses exactly the packets beyond its limit.
  lemma PacketCrosses(o: Link.Options, s: Link.Receiver, last: Link.LastChar, p: Packet, x: Extra, pad: Byte,
                      rest: seq<Byte>, beyond: seq<Byte>)
    requires s.idle < 4 && Portable(p) && GoodExtra(x)
    ensures var m := Link.Outgoing(Kind(p), Payload(p, x), last, pad);
            var t := Link.ReceiveAll(o, s, Link.OutgoingText(o, m) + rest, beyond);
            if Transparent.TooLong(Link.Format(o, m.kind), Link.Body(o, m.kind, m.payload)) then t.event
                == Link.Undecodable
            else t.event.Packet? && Parse(t.event.kind, t.event.payload) == Some(p)
  {
    hide Payload, Parse, Portable, Link.PacketText, Link.ReceiveAll, Link.Format, Link.Body, Transparent.TooLong;
    PayloadRoundTrip(p, x);
    Transparent.LinkTransparent(o, s, last, Kind(p), Payload(p, x), pad, rest, beyond);
  }

  // Every packet two stations exchange can be carried, for files of less than 2^31 bytes and
  // as long as the number of turns, which bounds the ids, stays below 2^31 - 100.
  lemma RunIsPortable(trace: seq<System>, p: Packet)
    requires Run(trace) && |trace| < LIMIT - 100
    requires p in trace[|trace| - 1].ab || p in trace[|trace| - 1].ba
    requires |trace[0].a.file| < LIMIT && |trace[0].b.file| < LIMIT
    ensures Portable(p)
  {
    hide Both, Next, Initial, IdsUpTo, Portable;
    var s := trace[|trace| - 1];
    RunInvariant(trace, |trace| - 1);
    RunIds(trace, |trace| - 1);
    IdInside(s, |trace| - 1, p);
    BothSwaps(s.a, s.b, s.ab, s.ba);
    if p in s.ab {
      SentIsPortable(s.b, s.a, s.ba, s.ab, p);
    } else {
      SentIsPortable(s.a, s.b, s.ab, s.ba, p);
    }
  }

  lemma SentIsPortable(st: Station, peer: Station, out: Net, back: Net, p: Packet)
    requires Both(st, peer, out, back) && p in back && (p.PRpos? ==> Fits(p.id))
    requires |st.file| < LIMIT && |peer.file| < LIMIT
    ensures Portable(p)
  {
    hide Both, TxOk, RxOk;
    BothOk(st, peer, out, back);
    assert GoodBackward(st.file, p) && GoodForward(peer.file, p);
  }

  // ---------------------------------------------------------------------------
  // Ids of resend requests: each turn makes at most one new one
  // ---------------------------------------------------------------------------

  predicate IdInTime(id: int, n: nat) {
    100 <= id <= 100 + n
  }

  ghost predicate IdsUpTo(s: System, n: nat) {
    && IdInTime(s.a.rx.rposId, n) && IdInTime(s.b.rx.rposId, n)
    && (forall p :: p in s.ab && p.PRpos? ==> IdInTime(p.id, n))
    && (forall p :: p in s.ba && p.PRpos? ==> IdInTime(p.id, n))
  }

  lemma IdInside(s: System, n: nat, p: Packet)
    requires IdsUpTo(s, n) && (p in s.ab || p in s.ba)
    ensures p.PRpos? ==> 100 <= p.id <= 100 + n
  {
  }

  // The id afterwards, and the ids sent
  predicate NextId(r: Receiver, t: Receiver, out: seq<Packet>) {
    && r.rposId <= t.rposId <= r.rposId + 1
    && forall k :: 0 <= k < |out| && out[k].PRpos? ==> r.rposId <= out[k].id <= t.rposId
  }

  predicate SameId(r: Receiver, t: Receiver, out: seq<Packet>) {
    t.rposId == r.rposId && forall k :: 0 <= k < |out| && out[k].PRpos? ==> out[k].id == r.rposId
  }

  predicate NoRpos(out: seq<Packet>) {
    forall k :: 0 <= k < |out| ==> !out[k].PRpos?
  }

  lemma TickAsksNothing(tx: Sender, f: File, other: RxState, i: Input)
    ensures NoRpos(TxTick(tx, f, other, i).out)
  {
    hide TxOpen, TxClose, EofOffset, TxData;
    DataAsksNothing(tx, f, i.read);
  }

  lemma DataAsksNothing(tx: Sender, f: File, read: ReadOutcome)
    ensures NoRpos(TxData(tx, f, read).out)
  {
    hide Grow;
  }

  lemma HandleAsksNothing(tx: Sender, p: Packet, i: Input)
    ensures NoRpos(TxHandle(tx, p, i).out)
  {
    hide TxFInfoAck, TxDataAck, TxRpos, TxEofAck;
  }

  lemma HaltKeepsId(st: Station)
    ensures Halt(st).rx.rposId == st.rx.rposId
  {
  }

  lemma SwitchIds(st: Station, i: Input)
    ensures SameId(st.rx, TimersTurn(st, i).rx, [])
    ensures SameId(st.rx, TxTurn(st, i).st.rx, TxTurn(st, i).out)
    ensures SameId(st.rx, RxTurn(st).st.rx, RxTurn(st).out)
  {
    hide TxTick, Halt, Halve, TxTimer;
    TickAsksNothing(st.tx, st.file, st.rx.state, i);
    HaltKeepsId(st.(tx := TxTick(st.tx, st.file, st.rx.state, i).tx));
    HaltKeepsId(st.(rx := RxTick(st.rx).rx));
  }

  lemma HandleIds(r: Receiver, p: Packet, i: Input)
    ensures NextId(r, RxHandle(r, p, i).rx, RxHandle(r, p, i).out)
    ensures NextId(r, RxNoise(r), [])
  {
    hide Halve;
  }

  lemma ArrivalIds(st: Station, i: Input)
    ensures NextId(st.rx, ArrivalTurn(st, i).st.rx, ArrivalTurn(st, i).out)
  {
    hide TxHandle, RxHandle, RxNoise, Halt;
    HaltKeepsId(st);
    if i.arrival.Got? {
      var p := i.arrival.packet;
      var t := TxHandle(TxWindow(st, p, i), p, i);
      HandleAsksNothing(TxWindow(st, p, i), p, i);
      HandleIds(st.rx, p, i);
      HaltKeepsId(st.(tx := t.tx, rx := RxHandle(st.rx, p, i).rx));
    } else {
      HandleIds(st.rx, PStart, i);
    }
  }

  lemma IterationIds(st: Station, i: Input)
    ensures NextId(st.rx, Iteration(st, i).st.rx, Iteration(st, i).out)
  {
    hide TimersTurn, TxTurn, RxTurn, ArrivalTurn, Halt;
    HaltKeepsId(st);
    var s0 := TimersTurn(st, i);
    var t := TxTurn(s0, i);
    var r := RxTurn(t.st);
    SwitchIds(st, i);
    SwitchIds(s0, i);
    SwitchIds(t.st, i);
    ArrivalIds(r.st, i);
  }

  lemma {:induction false} RunIds(trace: seq<System>, k: nat)
    requires Run(trace) && k < |trace|
    ensures IdsUpTo(trace[k], k)
    decreases k
  {
    hide Iteration;
    if k > 0 {
      RunIds(trace, k - 1);
      var s, t := trace[k - 1], trace[k - 1 + 1];
      assert Next(s, t);
      if i: Input :| Deliverable(s.ba, i) && t == TurnOfA(s, i) {
        IterationIds(s.a, i);
      } else {
        var i: Input :| Deliverable(s.ab, i) && t == TurnOfB(s, i);
        IterationIds(s.b, i);
      }
    }
  }
}
