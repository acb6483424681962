// The four link encodings of source/bforce/prot_hydra.c as functions on byte sequences, and the
// receiver automaton of hydra_recv.
module HydraCodec {
  import opened Wrappers
  import opened Crc

  const DLE: Byte := 0x18
  const XON: Byte := 0x11
  const XOFF: Byte := 0x13
  const CR: Byte := 0x0d
  const LF: Byte := 0x0a
  const AT: Byte := 0x40
  const BACKSLASH: Byte := 0x5c

  const PKTEND: Byte := 0x61
  const BINPKT: Byte := 0x62
  const HEXPKT: Byte := 0x63
  const ASCPKT: Byte := 0x64
  const UUEPKT: Byte := 0x65

  const PKT_START: Byte := 0x41
  const PKT_INIT: Byte := 0x42
  const PKT_INITACK: Byte := 0x43
  const PKT_DATA: Byte := 0x46
  const PKT_END: Byte := 0x4b
  const PKT_IDLE: Byte := 0x4c
  const PKT_DEVDACK: Byte := 0x4e

  const MAXBLKLEN := 2048
  const OVERHEAD := 8
  const MAXDATALEN := MAXBLKLEN + OVERHEAD + 5
  const BUFLEN := MAXDATALEN * 3 + 16

  // The link options that change the encoding (HOPT_*).
  datatype Options = Options(xonxoff: bool, telenet: bool, ctlchrs: bool, highctl: bool, highbit: bool,
                             canasc: bool, canuue: bool, crc32: bool)

  // hi->lastchar: -1 before anything has been sent.
  datatype LastChar = NoChar | Char(c: Byte)

  // ---------------------------------------------------------------------------
  // BIN: one byte, escaped when the link could swallow it
  // ---------------------------------------------------------------------------

  function Seen(o: Options, c: Byte): Byte {
    if o.highctl then c & 0x7f else c
  }

  predicate IsFlow(n: Byte) { n == XON || n == XOFF }

  predicate IsControl(n: Byte) { n < 32 || n == 127 }

  function Flip(c: Byte): Byte { c ^ 0x40 }

  predicate MustEscape(o: Options, last: LastChar, c: Byte) {
    var n := Seen(o, c);
    || n == DLE
    || (o.xonxoff && IsFlow(n))
    || (o.telenet && n == CR && last == Char(AT))
    || (o.ctlchrs && IsControl(n))
  }

  function BinByte(o: Options, last: LastChar, c: Byte): seq<Byte> {
    if MustEscape(o, last, c) then [DLE, Flip(c)] else [c]
  }

  function LastAfter(o: Options, last: LastChar, bs: seq<Byte>): LastChar {
    if bs == [] then last else Char(Seen(o, bs[|bs| - 1]))
  }

  function BinText(o: Options, last: LastChar, bs: seq<Byte>): (t: seq<Byte>)
    ensures |t| <= 2 * |bs|
  {
    if bs == [] then []
    else
      var init := bs[..|bs| - 1];
      BinText(o, last, init) + BinByte(o, LastAfter(o, last, init), bs[|bs| - 1])
  }

  // ---------------------------------------------------------------------------
  // HEX
  // ---------------------------------------------------------------------------

  function HexDigit(n: Byte): Byte
    requires n < 16
  {
    if n < 10 then n + 0x30 else n - 10 + 0x61
  }

  function HexByte(c: Byte): (t: seq<Byte>)
    ensures 1 <= |t| <= 3
  {
    if c & 0x80 != 0 then [BACKSLASH, HexDigit((c >> 4) & 0x0f), HexDigit(c & 0x0f)]
    else if IsControl(c) then [DLE, Flip(c)]
    else if c == BACKSLASH then [BACKSLASH, BACKSLASH]
    else [c]
  }

  function HexText(bs: seq<Byte>): (t: seq<Byte>)
    ensures |t| <= 3 * |bs|
  {
    if bs == [] then [] else HexText(bs[..|bs| - 1]) + HexByte(bs[|bs| - 1])
  }

  // ---------------------------------------------------------------------------
  // ASC: eight-bit bytes repacked into septets
  // ---------------------------------------------------------------------------

  // x << k for the shifts that occur.
  function Shl(x: bv16, k: nat): bv16
    requires k < 8
  {
    if k == 0 then x else if k == 1 then x << 1 else if k == 2 then x << 2 else if k == 3 then x << 3
    else if k == 4 then x << 4 else if k == 5 then x << 5 else if k == 6 then x << 6 else x << 7
  }

  // Septets written so far, and the bits still held back in ch.
  datatype AscWriter = AscWriter(out: seq<Byte>, ch: bv16, shift: nat)

  function Merge(x: bv16, y: bv16): bv16 { x | y }

  function Septet(ch: bv16): Byte { (ch & 0x7f) as Byte }

  function PastSeptet(ch: bv16): bv16 { ch >> 7 }

  function AscPut(w: AscWriter, b: Byte): (r: AscWriter)
    requires w.shift < 7
    ensures r.shift < 7
  {
    var ch := Merge(w.ch, Shl(b as bv16, w.shift));
    var out := w.out + [Septet(ch)];
    var rest := PastSeptet(ch);
    if w.shift + 1 >= 7 then AscWriter(out + [Septet(rest)], 0, 0)
    else AscWriter(out, rest, w.shift + 1)
  }

  function AscWrite(bs: seq<Byte>): (w: AscWriter)
    ensures w.shift < 7
  {
    if bs == [] then AscWriter([], 0, 0) else AscPut(AscWrite(bs[..|bs| - 1]), bs[|bs| - 1])
  }

  // All the septets of a block, the last one padded with zero bits.
  function Septets(bs: seq<Byte>): seq<Byte> {
    var w := AscWrite(bs);
    if w.shift > 0 then w.out + [Septet(w.ch)] else w.out
  }

  // ---------------------------------------------------------------------------
  // UUE
  // ---------------------------------------------------------------------------

  function UueEnc(c: Byte): Byte { (c & 0x3f) + 0x21 }

  function Uue0(a: Byte): Byte { UueEnc(a >> 2) }
  function Uue1(a: Byte, b: Byte): Byte { UueEnc(((a << 4) & 0x30) | ((b >> 4) & 0x0f)) }
  function Uue2(b: Byte, c: Byte): Byte { UueEnc(((b << 2) & 0x3c) | ((c >> 6) & 0x03)) }
  function Uue3(c: Byte): Byte { UueEnc(c & 0x3f) }
  // The last character of a group of two bytes.
  function UueTail(b: Byte): Byte { UueEnc((b << 2) & 0x3c) }

  function UueLen(n: nat): nat {
    n / 3 * 4 + (if n % 3 == 0 then 0 else n % 3 + 1)
  }

  // The source reads src[1] even when the block ends at src[0]; `beyond` is that byte.
  function UueText(bs: seq<Byte>, beyond: Byte): (t: seq<Byte>)
    ensures |t| == UueLen(|bs|)
  {
    if |bs| >= 3 then [Uue0(bs[0]), Uue1(bs[0], bs[1]), Uue2(bs[1], bs[2]), Uue3(bs[2])] + UueText(bs[3..], beyond)
    else if |bs| == 2 then [Uue0(bs[0]), Uue1(bs[0], bs[1]), UueTail(bs[1])]
    else if |bs| == 1 then [Uue0(bs[0]), Uue1(bs[0], beyond)]
    else []
  }

  // ---------------------------------------------------------------------------
  // A whole packet
  // ---------------------------------------------------------------------------

  predicate AlwaysHex(kind: Byte) {
    kind == PKT_START || kind == PKT_INIT || kind == PKT_INITACK || kind == PKT_END || kind == PKT_IDLE
  }

  function Format(o: Options, kind: Byte): (f: Byte)
    ensures f == BINPKT || f == HEXPKT || f == ASCPKT || f == UUEPKT
  {
    if AlwaysHex(kind) then HEXPKT
    else if o.highbit then
      if o.ctlchrs && o.canuue then UUEPKT else if o.canasc then ASCPKT else HEXPKT
    else BINPKT
  }

  predicate LongCheck(o: Options, format: Byte) {
    format != HEXPKT && o.crc32
  }

  function CheckBytes(o: Options, format: Byte, bs: seq<Byte>): (t: seq<Byte>)
    ensures |t| == if LongCheck(o, format) then 4 else 2
  {
    if LongCheck(o, format) then Trailer32(Crc32(0xffffffff, bs)) else Trailer16(Crc16(0xffff, bs))
  }

  // What is encoded: payload, packet type, check bytes.
  function Body(o: Options, kind: Byte, payload: seq<Byte>): (b: seq<Byte>)
    ensures |payload| + 3 <= |b| <= |payload| + 5
  {
    payload + [kind] + CheckBytes(o, Format(o, kind), payload + [kind])
  }

  function BodyText(o: Options, last: LastChar, format: Byte, b: seq<Byte>, beyond: Byte): seq<Byte> {
    if format == BINPKT then BinText(o, last, b)
    else if format == HEXPKT then HexText(b)
    else if format == ASCPKT then BinText(o, last, Septets(b))
    else UueText(b, beyond)
  }

  function LineEnd(format: Byte, kind: Byte): seq<Byte> {
    if kind != PKT_DATA && format != BINPKT then [CR, LF] else []
  }

  // hydra_putpkt
  function PacketText(o: Options, last: LastChar, kind: Byte, payload: seq<Byte>, beyond: Byte): seq<Byte> {
    var f := Format(o, kind);
    [DLE, f] + BodyText(o, last, f, Body(o, kind, payload), beyond) + [DLE, PKTEND] + LineEnd(f, kind)
  }

  // The lastchar left behind: only BIN and ASC blocks pass through hydra_putbinbyte.
  function LastAfterPacket(o: Options, last: LastChar, kind: Byte, payload: seq<Byte>): LastChar {
    var f := Format(o, kind);
    var b := Body(o, kind, payload);
    if f == BINPKT then LastAfter(o, last, b)
    else if f == ASCPKT then LastAfter(o, last, Septets(b))
    else last
  }

  // ---------------------------------------------------------------------------
  // Decoders: None is the NULL a decoder returns
  // ---------------------------------------------------------------------------

  function BinDecode(room: nat, t: seq<Byte>): Option<seq<Byte>> {
    if |t| > room then None else Some(t)
  }

  // The digit arithmetic of hydra_gethexblock, for any character at all.
  function HexValue(c: Byte): Byte {
    var h := (c as int) - 0x30;
    var v := if h > 9 then h - 39 else h;
    (v % 256) as Byte
  }

  // The source may look up to two characters past an ill-formed block; there it finds `beyond`,
  // what an earlier packet has left in the buffer.
  function At(t: seq<Byte>, i: nat, beyond: seq<Byte>): Byte {
    if i < |t| then t[i] else if i - |t| < |beyond| then beyond[i - |t|] else 0
  }

  function Drop(t: seq<Byte>, n: nat): (r: seq<Byte>)
    ensures n > 0 && |t| > 0 ==> |r| < |t|
  {
    if n <= |t| then t[n..] else []
  }

  // The byte decoded at the start of t, and the number of characters it takes.
  function HexOut(t: seq<Byte>, beyond: seq<Byte>): Byte
    requires t != []
  {
    if t[0] != BACKSLASH then t[0]
    else if At(t, 1, beyond) != BACKSLASH then (HexValue(At(t, 1, beyond)) << 4) | HexValue(At(t, 2, beyond))
    else BACKSLASH
  }

  function HexUsed(t: seq<Byte>, beyond: seq<Byte>): (n: nat)
    requires t != []
    ensures 1 <= n <= 3
  {
    if t[0] != BACKSLASH then 1 else if At(t, 1, beyond) != BACKSLASH then 3 else 2
  }

  function HexDecode(room: nat, t: seq<Byte>, beyond: seq<Byte>): (r: seq<Byte>)
    ensures |r| <= room
    decreases |t|
  {
    if t == [] || room == 0 then []
    else [HexOut(t, beyond)] + HexDecode(room - 1, Drop(t, HexUsed(t, beyond)), beyond)
  }

  datatype AscReader = AscReader(out: seq<Byte>, c: bv16, n: nat)

  function Seven(x: Byte): bv16 { (x & 0x7f) as bv16 }

  function Octet(c: bv16): Byte { (c & 0xff) as Byte }

  function PastOctet(c: bv16): bv16 { c >> 8 }

  function AscGet(room: nat, r: AscReader, x: Byte): (q: AscReader)
    requires r.n < 8
    ensures q.n < 8
    ensures |r.out| <= room ==> |q.out| <= room
  {
    if |r.out| >= room then r
    else
      var c := Merge(r.c, Shl(Seven(x), r.n));
      if r.n + 7 >= 8 then AscReader(r.out + [Octet(c)], PastOctet(c), r.n - 1)
      else AscReader(r.out, c, r.n + 7)
  }

  function AscRead(room: nat, t: seq<Byte>): (r: AscReader)
    ensures r.n < 8
    ensures |r.out| <= room
  {
    if t == [] then AscReader([], 0, 0) else AscGet(room, AscRead(room, t[..|t| - 1]), t[|t| - 1])
  }

  predicate IsUue(c: Byte) { 0x20 < c < 0x61 }

  function UueDec(c: Byte): Byte { (c - 0x21) & 0x3f }

  function UueOut0(a: Byte, b: Byte): Byte { (UueDec(a) << 2) | (UueDec(b) >> 4) }
  function UueOut1(b: Byte, c: Byte): Byte { (UueDec(b) << 4) | (UueDec(c) >> 2) }
  function UueOut2(c: Byte, d: Byte): Byte { (UueDec(c) << 6) | UueDec(d) }

  function UueDecodeFrom(t: seq<Byte>): (r: Option<seq<Byte>>)
    ensures r.Some? ==> |r.value| <= |t|
  {
    if |t| >= 4 then
      if IsUue(t[0]) && IsUue(t[1]) && IsUue(t[2]) && IsUue(t[3]) then
        match UueDecodeFrom(t[4..])
        case None => None
        case Some(rest) => Some([UueOut0(t[0], t[1]), UueOut1(t[1], t[2]), UueOut2(t[2], t[3])] + rest)
      else None
    else if |t| >= 2 then
      if !IsUue(t[0]) || !IsUue(t[1]) then None
      else if |t| == 3 then
        if IsUue(t[2]) then Some([UueOut0(t[0], t[1]), UueOut1(t[1], t[2])]) else None
      else Some([UueOut0(t[0], t[1])])
    else Some([])
  }

  // The size check compares the encoded size with the room for decoded bytes.
  function UueDecode(room: nat, t: seq<Byte>): (r: Option<seq<Byte>>)
    ensures r.Some? ==> |r.value| <= room
  {
    if |t| % 4 == 1 || |t| > room then None else UueDecodeFrom(t)
  }

  function Decode(room: nat, format: Byte, t: seq<Byte>, beyond: seq<Byte>): (r: Option<seq<Byte>>)
    ensures r.Some? ==> |r.value| <= room
  {
    if format == BINPKT then BinDecode(room, t)
    else if format == HEXPKT then Some(HexDecode(room, t, beyond))
    else if format == ASCPKT then Some(AscRead(room, t).out)
    else UueDecode(room, t)
  }

  // ---------------------------------------------------------------------------
  // The receiver of hydra_recv, one character at a time
  // ---------------------------------------------------------------------------

  datatype Receiver = Receiver(idle: nat, receiving: bool, format: Byte, enc: seq<Byte>)

  datatype Event = Pending | Exit | Undecodable | Junk | Packet(kind: Byte, payload: seq<Byte>)

  predicate ValidFormat(f: Byte) {
    f == BINPKT || f == HEXPKT || f == ASCPKT || f == UUEPKT
  }

  function Strip(o: Options, c: Byte): Byte {
    if o.highbit then c & 0x7f else c
  }

  predicate Discarded(o: Options, c: Byte) {
    var n := Seen(o, c);
    n != DLE && ((o.xonxoff && IsFlow(n)) || (o.ctlchrs && IsControl(n)))
  }

  predicate GoodCheck(o: Options, format: Byte, b: seq<Byte>) {
    if LongCheck(o, format) then Crc32(0xffffffff, b) == 0xdebb20e3 else Crc16(0xffff, b) == 0xf0b8
  }

  predicate KnownKind(kind: Byte) {
    PKT_START <= kind <= PKT_DEVDACK
  }

  // The decoded bytes are split into payload, type and check bytes and judged.
  function Judge(o: Options, format: Byte, b: seq<Byte>): Event {
    var size := |b| - (if LongCheck(o, format) then 4 else 2) - 1;
    if size >= 0 && GoodCheck(o, format, b) && KnownKind(b[size]) then Packet(b[size], b[..size]) else Junk
  }

  function Store(s: Receiver, c: Byte): Receiver {
    if !s.receiving then s
    else if |s.enc| < BUFLEN then s.(enc := s.enc + [c])
    else s.(receiving := false, enc := [])
  }

  function Receive(o: Options, s: Receiver, raw: Byte, beyond: seq<Byte>): (Receiver, Event) {
    var c := Strip(o, raw);
    if Discarded(o, c) then (s, Pending)
    else if c == DLE then
      (s.(idle := s.idle + 1), if s.idle + 1 >= 5 then Exit else Pending)
    else if s.idle > 0 then
      var t := s.(idle := 0);
      if c == PKTEND then
        if t.receiving then
          var u := t.(receiving := false, enc := []);
          match Decode(MAXDATALEN, t.format, t.enc, beyond)
          case None => (u, Undecodable)
          case Some(b) => (u, Judge(o, t.format, b))
        else (t, Junk)
      else if ValidFormat(c) then (t.(receiving := true, format := c, enc := []), Pending)
      else (Store(t, Flip(c)), Pending)
    else (Store(s, c), Pending)
  }

  // One call of hydra_recv: characters are taken until one of them produces an event.
  datatype Taken = Taken(state: Receiver, event: Event, rest: seq<Byte>)

  function ReceiveAll(o: Options, s: Receiver, input: seq<Byte>, beyond: seq<Byte>): (t: Taken)
    ensures t.event != Pending ==> |t.rest| < |input|
    decreases |input|
  {
    if input == [] then Taken(s, Pending, [])
    else
      var (t, e) := Receive(o, s, input[0], beyond);
      if e == Pending then ReceiveAll(o, t, input[1..], beyond) else Taken(t, e, input[1..])
  }

  // hydra_recv called until the input is used up: every event, in order.
  function Events(o: Options, s: Receiver, input: seq<Byte>, beyond: seq<Byte>): seq<Event>
    decreases |input|
  {
    var t := ReceiveAll(o, s, input, beyond);
    if t.event == Pending then [] else [t.event] + Events(o, t.state, t.rest, beyond)
  }

  // A packet on its way out: type, payload, and the two bytes of context its text depends on.
  datatype Outgoing = Outgoing(kind: Byte, payload: seq<Byte>, last: LastChar, pad: Byte)

  function OutgoingText(o: Options, m: Outgoing): seq<Byte> {
    PacketText(o, m.last, m.kind, m.payload, m.pad)
  }

  // The link text of a run of packets.
  function Stream(o: Options, ms: seq<Outgoing>): seq<Byte> {
    if ms == [] then [] else OutgoingText(o, ms[0]) + Stream(o, ms[1..])
  }
}
