// What Hydra puts on the line and looks for there, in plain numbers: which bytes are escaped
// and dropped, how packets are encoded and framed, and what ends a session.
module HydraWire {
  import opened Wrappers
  import opened Crc
  import opened HydraCodec

  // The seven low bits of a byte
  function Low(c: Byte): Byte {
    if c >= 128 then c - 128 else c
  }

  // The byte with its bit of weight 64 changed
  function Other(c: Byte): Byte {
    if Low(c) < 64 then c + 64 else c - 64
  }

  lemma LowIs(c: Byte)
    ensures c & 0x7f == Low(c)
  {
  }

  lemma FlipIsOther(c: Byte)
    ensures Flip(c) == Other(c)
  {
    FlipOf(c);
    LowIs(c);
  }

  lemma FlipOf(c: Byte)
    ensures c ^ 0x40 == if c & 0x7f < 64 then c + 64 else c - 64
  {
  }

  // In a BIN or ASC block, exactly DLE and what the link is said to swallow is escaped: XON
  // and XOFF, a CR behind an @, or control characters, on some links with either parity.
  lemma EscapedExactly(o: Options, last: LastChar, c: Byte)
    ensures var n := if o.highctl then Low(c) else c;
            BinByte(o, last, c)
            == if n == 24 || (o.xonxoff && (n == 17 || n == 19)) || (o.telenet && n == 13 && last == Char(64))
                  || (o.ctlchrs && (n < 32 || n == 127))
               then [24, Other(c)] else [c]
  {
    hide Flip;
    LowIs(c);
    FlipIsOther(c);
  }

  // In a HEX block, bytes from 128 are written as two digits and control characters escaped.
  lemma HexExactly(c: Byte)
    ensures HexByte(c)
            == if c >= 128 then [92, HexDigit(c / 16), HexDigit(c % 16)]
               else if c < 32 || c == 127 then [24, Other(c)]
               else if c == 92 then [92, 92]
               else [c]
  {
    hide Flip;
    FlipIsOther(c);
    Nibbles(c);
  }

  lemma Nibbles(c: Byte)
    ensures (c >> 4) & 0x0f == c / 16 && c & 0x0f == c % 16 && (c & 0x80 != 0 <==> c >= 128)
  {
  }

  // What the receiver drops as noise of the link
  lemma DroppedExactly(o: Options, c: Byte)
    ensures var n := if o.highctl then Low(c) else c;
            Discarded(o, c) <==>
              n != 24 && ((o.xonxoff && (n == 17 || n == 19)) || (o.ctlchrs && (n < 32 || n == 127)))
  {
    LowIs(c);
  }

  // START, INIT, INITACK, END and IDLE are sent as HEX; the others as BIN over a link of
  // eight bits, and otherwise as UUE, ASC or HEX, the first of them that is possible.
  lemma FormatExactly(o: Options, kind: Byte)
    ensures Format(o, kind)
            == if kind == 65 || kind == 66 || kind == 67 || kind == 75 || kind == 76 then 99
               else if !o.highbit then 98
               else if o.ctlchrs && o.canuue then 101
               else if o.canasc then 100
               else 99
  {
  }

  // A packet is framed by DLE and the letter of its format, and DLE and a; those of text, but
  // for DATA, are followed by CR and LF.
  lemma FramedExactly(o: Options, last: LastChar, kind: Byte, payload: seq<Byte>, beyond: Byte)
    ensures var t := PacketText(o, last, kind, payload, beyond);
            var f := Format(o, kind);
            var n := |t| - (if f != 98 && kind != 70 then 4 else 2);
            && n >= 2 && t[..2] == [24, f]
            && t[n..] == [24, 97] + (if f != 98 && kind != 70 then [13, 10] else [])
            && t[2..n] == BodyText(o, last, f, Body(o, kind, payload), beyond)
  {
    hide BodyText, Body, Format;
  }

  // Behind payload and type there are the complement of the 32-bit check, low byte first, or
  // that of the 16-bit check in HEX or without the option.
  lemma CheckedExactly(o: Options, kind: Byte, payload: seq<Byte>)
    ensures var b := payload + [kind];
            Body(o, kind, payload)
            == b + if Format(o, kind) != 99 && o.crc32 then Trailer32(Crc32(0xffffffff, b))
                   else Trailer16(Crc16(0xffff, b))
  {
  }

  // ---------------------------------------------------------------------------
  // The receiver
  // ---------------------------------------------------------------------------

  function Heard(o: Options, raw: Byte): Byte {
    if o.highbit then Low(raw) else raw
  }

  lemma HeardIs(o: Options, raw: Byte)
    ensures Strip(o, raw) == Heard(o, raw)
  {
    LowIs(raw);
  }

  // The session is given up exactly at the fifth DLE in a row.
  lemma ExitExactly(o: Options, s: Receiver, raw: Byte, beyond: seq<Byte>)
    ensures Receive(o, s, raw, beyond).1 == Exit <==> Heard(o, raw) == 24 && s.idle >= 4
  {
    hide Decode, Judge, Discarded, Seen;
    HeardIs(o, raw);
    DroppedExactly(o, Heard(o, raw));
    JudgeSaysNothingElse(o, s.format);
  }

  lemma JudgeSaysNothingElse(o: Options, format: Byte)
    ensures forall b :: Judge(o, format, b) == Junk || Judge(o, format, b).Packet?
  {
  }

  // What has been decoded is a packet exactly if it is payload, a letter from A to N and check
  // bytes that leave the residue.
  lemma JudgedExactly(o: Options, format: Byte, b: seq<Byte>)
    ensures var n := |b| - if format != 99 && o.crc32 then 5 else 3;
            var good := if format != 99 && o.crc32 then Crc32(0xffffffff, b) == 0xdebb20e3
                        else Crc16(0xffff, b) == 0xf0b8;
            Judge(o, format, b) == if n >= 0 && good && 65 <= b[n] <= 78 then Packet(b[n], b[..n]) else Junk
  {
  }

  // An end without a beginning is junk, and a new beginning ends what has been collected.
  lemma MarksHeard(o: Options, s: Receiver, raw: Byte, beyond: seq<Byte>)
    requires s.idle > 0 && !Discarded(o, Strip(o, raw)) && Strip(o, raw) != 24
    ensures var c := Heard(o, raw);
            var t, e := Receive(o, s, raw, beyond).0, Receive(o, s, raw, beyond).1;
            && t.idle == 0
            && (c == 97 && !s.receiving ==> e == Junk && t == s.(idle := 0))
            && (c == 97 && s.receiving ==>
                  && !t.receiving && t.enc == [] && t.format == s.format
                  && e == match Decode(MAXDATALEN, s.format, s.enc, beyond)
                          case None => Undecodable
                          case Some(b) => Judge(o, s.format, b))
            && (98 <= c <= 101 ==> e == Pending && t == Receiver(0, true, c, []))
            && (c < 97 || c > 101 ==> e == Pending && t == Store(s.(idle := 0), Other(c)))
  {
    hide Decode, Judge, Discarded, Flip;
    HeardIs(o, raw);
    FlipIsOther(Heard(o, raw));
  }
}
