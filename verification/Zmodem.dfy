// The data subpackets of source/bforce/prot_zmmisc.c: the escaping of zsendline, zdlread,
// the check bytes, and the proof that zrdata reads what zsdata has sent.
module Zmodem {
  import opened Crc

  const ZDLE: Byte := 0x18
  const XON: Byte := 0x11
  const XOFF: Byte := 0x13
  const CR: Byte := 0x0d
  const AT: Byte := 0x40
  const ZCRCE: Byte := 0x68
  const ZCRCW: Byte := 0x6b
  const ZRUB0: Byte := 0x6c
  const ZRUB1: Byte := 0x6d

  // ---------------------------------------------------------------------------
  // Sending a byte
  // ---------------------------------------------------------------------------

  predicate Printable(c: Byte) { c & 0x60 != 0 }

  predicate Flow(c: Byte) { c & 0x7f == XON || c & 0x7f == XOFF }

  // zsendline_init: 0 as it is, 1 escaped, 2 escaped behind an @
  function Class(ctlesc: bool, c: Byte): int {
    if Printable(c) then 0
    else if c == ZDLE || Flow(c) || c & 0x7f == 0x10 then 1
    else if c & 0x7f == CR then (if ctlesc then 1 else 2)
    else if ctlesc then 1
    else 0
  }

  function Flip(c: Byte): Byte { c ^ 0x40 }

  predicate BehindAt(last: Byte) { last & 0x7f == AT }

  predicate Escaped(ctlesc: bool, last: Byte, c: Byte) {
    Class(ctlesc, c) == 1 || (Class(ctlesc, c) == 2 && BehindAt(last))
  }

  // Which bytes these are: DLE, XON, XOFF and ZDLE, the first three with the high bit too;
  // a carriage return behind an @; and every control character if they are to be escaped.
  lemma EscapedAre(ctlesc: bool, last: Byte, c: Byte)
    ensures Escaped(ctlesc, last, c) <==>
              || c in [0x10, 0x11, 0x13, 0x18, 0x90, 0x91, 0x93]
              || (c in [0x0d, 0x8d] && last in [0x40, 0xc0])
              || (ctlesc && (c < 0x20 || 0x80 <= c < 0xa0))
  {
  }

  // They are sent with the bit of weight 64 changed.
  lemma FlipIs(c: Byte)
    ensures Flip(c) == if c & 0x7f < 64 then c + 64 else c - 64
  {
  }

  // zsendline: what goes out, and Z_Lastsent afterwards.
  function Line(ctlesc: bool, last: Byte, c: Byte): seq<Byte> {
    if Escaped(ctlesc, last, c) then [ZDLE, Flip(c)] else [c]
  }

  function LastSent(ctlesc: bool, last: Byte, c: Byte): Byte {
    if Escaped(ctlesc, last, c) then Flip(c) else c
  }

  function Lines(ctlesc: bool, last: Byte, bs: seq<Byte>): seq<Byte>
    decreases bs
  {
    if bs == [] then [] else Line(ctlesc, last, bs[0]) + Lines(ctlesc, LastSent(ctlesc, last, bs[0]), bs[1..])
  }

  function LastOf(ctlesc: bool, last: Byte, bs: seq<Byte>): Byte
    decreases bs
  {
    if bs == [] then last else LastOf(ctlesc, LastSent(ctlesc, last, bs[0]), bs[1..])
  }

  // ---------------------------------------------------------------------------
  // Check bytes
  // ---------------------------------------------------------------------------

  // updcrc16 of source/include/util.h: the byte enters at the low end.
  function Feed(crc: bv16): bv16 {
    Xor16(TableCrc16Xmodem(HighByte(crc)), crc << 8)
  }

  function HighByte(crc: bv16): Byte { (crc >> 8) as Byte }

  function LowByte(crc: bv16): Byte { (crc & 0xff) as Byte }

  function Wide(b: Byte): bv16 { b as bv16 }

  function Update16(crc: bv16, b: Byte): bv16 {
    Xor16(Feed(crc), Wide(b))
  }

  function Crc16Zm(msg: seq<Byte>): bv16 {
    if msg == [] then 0 else Update16(Crc16Zm(msg[..|msg| - 1]), msg[|msg| - 1])
  }

  // Sixteen more zero bits flush the register.
  function Flushed(crc: bv16): bv16 {
    Update16(Update16(crc, 0), 0)
  }

  // The bytes behind the frame end.
  function CheckBytes(long: bool, msg: seq<Byte>): (t: seq<Byte>)
    ensures |t| == CheckLength(long)
  {
    if long then Trailer32(Crc32(0xffffffff, msg))
    else [HighByte(Flushed(Crc16Zm(msg))), LowByte(Flushed(Crc16Zm(msg)))]
  }

  function CheckLength(long: bool): nat {
    if long then 4 else 2
  }

  // What zrdat32 and zrdat16 test after the last check byte.
  predicate Checked(long: bool, all: seq<Byte>) {
    if long then Crc32(0xffffffff, all) == 0xdebb20e3 else Crc16Zm(all) == 0
  }

  lemma FeedAlgebra(u: bv16, b: Byte)
    ensures Feed(Xor16(u, Wide(b))) == Xor16(Feed(u), Wide(b) << 8)
  {
    HighAlone(u, b);
    ShiftXor(u, Wide(b));
    hide TableCrc16Xmodem, HighByte, Wide;
    XorGroup(TableCrc16Xmodem(HighByte(u)), u << 8, Wide(b) << 8);
  }

  lemma HighAlone(u: bv16, b: Byte)
    ensures HighByte(Xor16(u, Wide(b))) == HighByte(u)
  {
  }

  lemma ShiftXor(u: bv16, w: bv16)
    ensures Xor16(u, w) << 8 == Xor16(u << 8, w << 8)
  {
  }

  lemma XorGroup(a: bv16, b: bv16, c: bv16)
    ensures Xor16(a, Xor16(b, c)) == Xor16(Xor16(a, b), c)
  {
  }

  lemma ZeroByte(crc: bv16)
    ensures Update16(crc, 0) == Feed(crc)
  {
    hide Feed;
  }

  lemma Halves(r: bv16)
    ensures Xor16(Xor16(r, Wide(HighByte(r)) << 8), Wide(LowByte(r))) == 0
  {
  }

  // The check bytes bring the register back to zero.
  lemma Washes16(x: bv16)
    ensures var r := Flushed(x); Update16(Update16(x, HighByte(r)), LowByte(r)) == 0
  {
    hide Feed, Xor16, HighByte, LowByte, Wide;
    var r := Flushed(x);
    ZeroByte(x);
    ZeroByte(Feed(x));
    FeedAlgebra(Feed(x), HighByte(r));
    Halves(r);
  }

  lemma Crc16ZmAppend(msg: seq<Byte>, b: Byte)
    ensures Crc16Zm(msg + [b]) == Update16(Crc16Zm(msg), b)
  {
    hide Update16;
    assert (msg + [b])[..|msg|] == msg;
  }

  lemma CheckBytesCheck(long: bool, msg: seq<Byte>)
    ensures Checked(long, msg + CheckBytes(long, msg))
  {
    hide Update16, Flushed, HighByte, LowByte, Crc32, Trailer32;
    if long {
      Residue32(msg);
    } else {
      var r := Flushed(Crc16Zm(msg));
      Washes16(Crc16Zm(msg));
      Crc16ZmAppend(msg, HighByte(r));
      Crc16ZmAppend(msg + [HighByte(r)], LowByte(r));
      assert msg + [HighByte(r)] + [LowByte(r)] == msg + CheckBytes(false, msg);
    }
  }

  // Bit-serial division of u_crc.c's table, started by the flushed register.
  lemma FlushedStep(x: bv16, b: Byte)
    ensures Flushed(Update16(x, b)) == StepX(Flushed(x), b)
  {
    hide TableCrc16Xmodem;
    hide Feed, Xor16, Wide, StepX;
    ZeroByte(x);
    ZeroByte(Feed(x));
    ZeroByte(Update16(x, b));
    ZeroByte(Feed(Update16(x, b)));
    FeedAlgebra(Feed(x), b);
    FeedHigh(Feed(Feed(x)), b);
  }

  lemma FeedHigh(d: bv16, b: Byte)
    ensures Feed(Xor16(d, Wide(b) << 8)) == StepX(d, b)
  {
    hide TableCrc16Xmodem;
    HighMixed(d, b);
  }

  lemma HighMixed(d: bv16, b: Byte)
    ensures HighByte(Xor16(d, Wide(b) << 8)) == IndexX(d, b)
    ensures Xor16(d, Wide(b) << 8) << 8 == RestX(d)
  {
  }

  // The 16-bit check is CRC-16/XMODEM: division by x^16 + x^12 + x^5 + 1.
  lemma {:induction false} CheckIsDivision(msg: seq<Byte>)
    ensures Flushed(Crc16Zm(msg)) == CrcX(0, msg)
  {
    hide Update16, Flushed, BitsX, InX, Xor16, StepX;
    if msg == [] {
      FlushedZero();
    } else {
      var init := msg[..|msg| - 1];
      var b := msg[|msg| - 1];
      CheckIsDivision(init);
      FlushedStep(Crc16Zm(init), b);
      StepXIsDivision(CrcX(0, init), b);
    }
  }

  lemma FlushedZero()
    ensures Flushed(0) == 0
  {
  }

  // ---------------------------------------------------------------------------
  // Reading a byte
  // ---------------------------------------------------------------------------

  // What zdlread returns: a byte, GOTCRCx, GOTCAN, ZERROR, or nothing in time.
  datatype Item = Char(c: Byte) | FrameEnd(e: Byte) | Cancel | BadEscape | Timeout

  datatype Got = Got(item: Item, rest: seq<Byte>)

  predicate Dropped(ctlesc: bool, c: Byte) {
    Flow(c) || (ctlesc && !Printable(c))
  }

  // Its first loop
  function DlRead(ctlesc: bool, input: seq<Byte>): (g: Got)
    ensures |g.rest| <= |input| && (g.item != Timeout ==> |g.rest| < |input|)
    decreases |input|
  {
    if input == [] then Got(Timeout, [])
    else
      var c := input[0];
      if Printable(c) then Got(Char(c), input[1..])
      else if c == ZDLE then Escape(ctlesc, 0, input[1..])
      else if Dropped(ctlesc, c) then DlRead(ctlesc, input[1..])
      else Got(Char(c), input[1..])
  }

  // Its second loop; a CAN is the same character as ZDLE.
  function Escape(ctlesc: bool, cans: nat, input: seq<Byte>): (g: Got)
    ensures |g.rest| <= |input|
    decreases |input|
  {
    if input == [] then Got(Timeout, [])
    else
      var c := input[0];
      if c == ZDLE then (if cans + 1 >= 5 then Got(Cancel, input[1..]) else Escape(ctlesc, cans + 1, input[1..]))
      else if ZCRCE <= c <= ZCRCW then Got(FrameEnd(c), input[1..])
      else if c == ZRUB0 then Got(Char(0x7f), input[1..])
      else if c == ZRUB1 then Got(Char(0xff), input[1..])
      else if Dropped(ctlesc, c) then Escape(ctlesc, 0, input[1..])
      else if c & 0x60 == 0x40 then Got(Char(Flip(c)), input[1..])
      else Got(BadEscape, input[1..])
  }

  lemma EscapedForm(ctlesc: bool, c: Byte)
    requires !Printable(c)
    ensures Flip(c) != ZDLE && !(ZCRCE <= Flip(c) <= ZCRCW) && Flip(c) != ZRUB0 && Flip(c) != ZRUB1
    ensures !Dropped(ctlesc, Flip(c)) && Flip(c) & 0x60 == 0x40 && Flip(Flip(c)) == c
  {
  }

  lemma PlainForm(ctlesc: bool, strict: bool, last: Byte, c: Byte)
    requires !Escaped(ctlesc, last, c)
    ensures Printable(c) || (c != ZDLE && (Dropped(strict, c) <==> strict && !ctlesc))
  {
  }

  // Nothing is lost on its way unless the receiver drops control characters that the sender
  // does not escape.
  predicate Survives(ctlesc: bool, strict: bool, last: Byte, c: Byte) {
    !strict || ctlesc || Escaped(ctlesc, last, c) || Printable(c)
  }

  // A byte comes back, whatever was sent before it, or it goes unnoticed.
  lemma ByteHeard(ctlesc: bool, strict: bool, last: Byte, c: Byte, rest: seq<Byte>)
    ensures DlRead(strict, Line(ctlesc, last, c) + rest)
         == if Survives(ctlesc, strict, last, c) then Got(Char(c), rest) else DlRead(strict, rest)
  {
    hide Printable, Flow, Dropped;
    var t := Line(ctlesc, last, c) + rest;
    if Escaped(ctlesc, last, c) {
      NotPrintable(ctlesc, last, c);
      EscapedForm(strict, c);
      assert !Printable(ZDLE) by { ZdleControl(); }
      assert t[1..] == [Flip(c)] + rest;
      assert t[1..][1..] == rest;
    } else {
      PlainForm(ctlesc, strict, last, c);
      assert t[1..] == rest;
    }
  }

  // With either setting at either end: a byte arrives exactly if it survives.
  lemma ByteArrives(ctlesc: bool, strict: bool, last: Byte, c: Byte, rest: seq<Byte>)
    ensures DlRead(strict, Line(ctlesc, last, c) + rest) == Got(Char(c), rest) <==> Survives(ctlesc, strict, last, c)
  {
    hide DlRead, Line, Survives;
    ByteHeard(ctlesc, strict, last, c, rest);
  }

  lemma NotPrintable(ctlesc: bool, last: Byte, c: Byte)
    requires Escaped(ctlesc, last, c)
    ensures !Printable(c)
  {
  }

  lemma ZdleControl()
    ensures !Printable(ZDLE)
  {
  }

  // What is left of a run of bytes.
  function Heard(ctlesc: bool, strict: bool, last: Byte, bs: seq<Byte>): (h: seq<Byte>)
    ensures |h| <= |bs| && (|h| == |bs| ==> h == bs)
    ensures (strict ==> ctlesc) ==> h == bs
    decreases bs
  {
    if bs == [] then []
    else
      (if Survives(ctlesc, strict, last, bs[0]) then [bs[0]] else [])
      + Heard(ctlesc, strict, LastSent(ctlesc, last, bs[0]), bs[1..])
  }

  // ---------------------------------------------------------------------------
  // Subpackets
  // ---------------------------------------------------------------------------

  // zsdata
  function Subpacket(long: bool, ctlesc: bool, last: Byte, bs: seq<Byte>, e: Byte): seq<Byte> {
    Lines(ctlesc, last, bs) + [ZDLE, e]
    + Lines(ctlesc, LastOf(ctlesc, last, bs), CheckBytes(long, bs + [e])) + After(e)
  }

  function After(e: Byte): seq<Byte> {
    if e == ZCRCW then [XON] else []
  }

  // What zrdata returns
  datatype Result =
    | Received(bytes: seq<Byte>, e: Byte, rest: seq<Byte>)
    | CrcError(bytes: seq<Byte>, rest: seq<Byte>)
    | Cancelled | TooLong | Bad | TimedOut

  // The loop that collects data; at most length + 1 bytes are stored.
  function Collect(long: bool, ctlesc: bool, length: nat, bs: seq<Byte>, input: seq<Byte>): Result
    decreases |input|, 5
  {
    if |bs| > length then TooLong
    else
      var g := DlRead(ctlesc, input);
      if g.item.Char? then Collect(long, ctlesc, length, bs + [g.item.c], g.rest)
      else Special(long, ctlesc, bs, bs, g.item, g.rest)
  }

  // switch_again; `all` is what the check has been computed over.
  function Special(long: bool, ctlesc: bool, bs: seq<Byte>, all: seq<Byte>, item: Item, input: seq<Byte>): Result
    decreases |input|, if item.FrameEnd? then 6 else 0
  {
    match item
    case FrameEnd(e) => Trailing(long, ctlesc, bs, all + [e], e, CheckLength(long), input)
    case Cancel => Cancelled
    case Timeout => TimedOut
    case _ => Bad
  }

  function Trailing(long: bool, ctlesc: bool, bs: seq<Byte>, all: seq<Byte>, e: Byte, n: nat, input: seq<Byte>): Result
    decreases |input|, n
  {
    if n == 0 then (if Checked(long, all) then Received(bs, e, input) else CrcError(bs, input))
    else
      var g := DlRead(ctlesc, input);
      if g.item.Char? then Trailing(long, ctlesc, bs, all + [g.item.c], e, n - 1, g.rest)
      else if g.item == Timeout then TimedOut
      else Special(long, ctlesc, bs, all, g.item, g.rest)
  }

  function Receive(long: bool, ctlesc: bool, length: nat, input: seq<Byte>): Result {
    Collect(long, ctlesc, length, [], input)
  }

  // A loop turn that reads a byte, and one that reads what it would read elsewhere
  lemma CollectTurn(long: bool, strict: bool, length: nat, got: seq<Byte>, input: seq<Byte>, c: Byte, rest: seq<Byte>)
    requires |got| <= length
    ensures DlRead(strict, input) == Got(Char(c), rest) ==>
              Collect(long, strict, length, got, input) == Collect(long, strict, length, got + [c], rest)
    ensures DlRead(strict, input) == DlRead(strict, rest) ==>
              Collect(long, strict, length, got, input) == Collect(long, strict, length, got, rest)
  {
    hide DlRead, Special;
  }

  lemma TrailingTurn(long: bool, strict: bool, bs: seq<Byte>, all: seq<Byte>, e: Byte, n: nat, input: seq<Byte>,
                     c: Byte, rest: seq<Byte>)
    requires n > 0
    ensures DlRead(strict, input) == Got(Char(c), rest) ==>
              Trailing(long, strict, bs, all, e, n, input) == Trailing(long, strict, bs, all + [c], e, n - 1, rest)
    ensures DlRead(strict, input) == DlRead(strict, rest) ==>
              Trailing(long, strict, bs, all, e, n, input) == Trailing(long, strict, bs, all, e, n, rest)
  {
    hide DlRead, Special, Checked;
  }

  lemma LinesFirst(ctlesc: bool, strict: bool, last: Byte, bs: seq<Byte>, rest: seq<Byte>)
    requires bs != []
    ensures var next := LastSent(ctlesc, last, bs[0]);
            && Lines(ctlesc, last, bs) + rest == Line(ctlesc, last, bs[0]) + (Lines(ctlesc, next, bs[1..]) + rest)
            && Heard(ctlesc, strict, last, bs)
               == (if Survives(ctlesc, strict, last, bs[0]) then [bs[0]] else []) + Heard(ctlesc, strict, next, bs[1..])
  {
    hide Line, LastSent, Survives;
  }

  lemma {:induction false} DataArrives(long: bool, ctlesc: bool, strict: bool, length: nat, last: Byte,
                                       got: seq<Byte>, bs: seq<Byte>, rest: seq<Byte>)
    requires |got| + |bs| <= length
    ensures Collect(long, strict, length, got, Lines(ctlesc, last, bs) + rest)
         == Collect(long, strict, length, got + Heard(ctlesc, strict, last, bs), rest)
    decreases bs
  {
    hide Collect, DlRead, Line, LastSent, Survives, Lines, Heard;
    if bs == [] {
      NothingLeft(ctlesc, strict, last, rest);
      assert got + [] == got;
    } else {
      LinesFirst(ctlesc, strict, last, bs, rest);
      var next := LastSent(ctlesc, last, bs[0]);
      var more := Lines(ctlesc, next, bs[1..]) + rest;
      var input := Lines(ctlesc, last, bs) + rest;
      var h := Heard(ctlesc, strict, next, bs[1..]);
      ByteHeard(ctlesc, strict, last, bs[0], more);
      CollectTurn(long, strict, length, got, input, bs[0], more);
      if Survives(ctlesc, strict, last, bs[0]) {
        assert Collect(long, strict, length, got, input) == Collect(long, strict, length, got + [bs[0]], more);
        DataArrives(long, ctlesc, strict, length, next, got + [bs[0]], bs[1..], rest);
        assert got + [bs[0]] + h == got + ([bs[0]] + h);
      } else {
        assert Collect(long, strict, length, got, input) == Collect(long, strict, length, got, more);
        DataArrives(long, ctlesc, strict, length, next, got, bs[1..], rest);
        assert [] + h == h;
      }
    }
  }

  lemma NothingLeft(ctlesc: bool, strict: bool, last: Byte, rest: seq<Byte>)
    ensures Lines(ctlesc, last, []) + rest == rest && Heard(ctlesc, strict, last, []) == []
  {
  }

  lemma {:induction false} CheckArrives(long: bool, ctlesc: bool, strict: bool, last: Byte, bs: seq<Byte>,
                                        all: seq<Byte>, e: Byte, n: nat, check: seq<Byte>, rest: seq<Byte>)
    requires |check| <= n
    ensures var h := Heard(ctlesc, strict, last, check);
            Trailing(long, strict, bs, all, e, n, Lines(ctlesc, last, check) + rest)
            == Trailing(long, strict, bs, all + h, e, n - |h|, rest)
    decreases check
  {
    hide Trailing, DlRead, Line, LastSent, Survives;
    if check == [] {
      assert Lines(ctlesc, last, check) + rest == rest;
      assert all + Heard(ctlesc, strict, last, check) == all;
    } else {
      hide Lines, Heard;
      LinesFirst(ctlesc, strict, last, check, rest);
      var next := LastSent(ctlesc, last, check[0]);
      var lost := !Survives(ctlesc, strict, last, check[0]);
      CheckByteArrives(long, ctlesc, strict, last, bs, all, e, n, check, rest);
      CheckArrives(long, ctlesc, strict, next, bs, if lost then all else all + [check[0]], e, if lost then n else n - 1,
                   check[1..], rest);
      var h := Heard(ctlesc, strict, next, check[1..]);
      assert all + [check[0]] + h == all + ([check[0]] + h);
      assert [] + h == h;
    }
  }

  // The first check byte is heard or lost.
  lemma CheckByteArrives(long: bool, ctlesc: bool, strict: bool, last: Byte, bs: seq<Byte>, all: seq<Byte>, e: Byte,
                         n: nat, check: seq<Byte>, rest: seq<Byte>)
    requires 0 < |check| <= n
    ensures var more := Lines(ctlesc, LastSent(ctlesc, last, check[0]), check[1..]) + rest;
            Trailing(long, strict, bs, all, e, n, Lines(ctlesc, last, check) + rest)
            == if Survives(ctlesc, strict, last, check[0]) then
                 Trailing(long, strict, bs, all + [check[0]], e, n - 1, more)
               else Trailing(long, strict, bs, all, e, n, more)
  {
    hide Trailing, DlRead, Line, LastSent, Survives, Lines, Heard;
    LinesFirst(ctlesc, strict, last, check, rest);
    var more := Lines(ctlesc, LastSent(ctlesc, last, check[0]), check[1..]) + rest;
    ByteHeard(ctlesc, strict, last, check[0], more);
    TrailingTurn(long, strict, bs, all, e, n, Lines(ctlesc, last, check) + rest, check[0], more);
  }

  lemma EndArrives(strict: bool, e: Byte, rest: seq<Byte>)
    requires ZCRCE <= e <= ZCRCW
    ensures DlRead(strict, [ZDLE, e] + rest) == Got(FrameEnd(e), rest)
  {
    ZdleControl();
    var t := [ZDLE, e] + rest;
    assert t[1..] == [e] + rest;
    assert t[1..][1..] == rest;
  }

  // The main result, with either check, either setting at either end, and whatever was sent
  // before: the bytes, their number and the frame end come back exactly if every byte of
  // the data and of the check survives.  The XON behind ZCRCW is left for the next read.
  lemma SubpacketArrives(long: bool, ctlesc: bool, strict: bool, length: nat, last: Byte, bs: seq<Byte>, e: Byte,
                         rest: seq<Byte>)
    requires |bs| <= length && ZCRCE <= e <= ZCRCW
    ensures Receive(long, strict, length, Subpacket(long, ctlesc, last, bs, e) + rest)
            == Received(bs, e, After(e) + rest)
         <==> Intact(long, ctlesc, strict, last, bs, e)
  {
    hide DlRead, Lines, LastOf, Checked, CheckBytes, Collect, Trailing, After, Heard;
    var check := CheckBytes(long, bs + [e]);
    var tail := After(e) + rest;
    var end := LastOf(ctlesc, last, bs);
    var closing := Lines(ctlesc, end, check) + tail;
    var h, k := Heard(ctlesc, strict, last, bs), Heard(ctlesc, strict, end, check);
    assert Subpacket(long, ctlesc, last, bs, e) + rest == Lines(ctlesc, last, bs) + ([ZDLE, e] + closing);
    DataArrives(long, ctlesc, strict, length, last, [], bs, [ZDLE, e] + closing);
    assert [] + h == h;
    EndArrives(strict, e, closing);
    CollectEnds(long, strict, length, h, [ZDLE, e] + closing, e, closing);
    CheckArrives(long, ctlesc, strict, end, h, h + [e], e, |check|, check, tail);
    TrailingTakes(long, strict, h, h + [e] + k, e, |check| - |k|, tail);
    if h == bs && k == check {
      CheckBytesCheck(long, bs + [e]);
      TrailingEnds(long, strict, bs, bs + [e] + check, e, tail);
    }
  }

  predicate Intact(long: bool, ctlesc: bool, strict: bool, last: Byte, bs: seq<Byte>, e: Byte) {
    && Heard(ctlesc, strict, last, bs) == bs
    && Heard(ctlesc, strict, LastOf(ctlesc, last, bs), CheckBytes(long, bs + [e])) == CheckBytes(long, bs + [e])
  }

  // What is reported are the bytes collected, and missing check bytes are taken from the input.
  lemma {:induction false} TrailingTakes(long: bool, ctlesc: bool, bs: seq<Byte>, all: seq<Byte>, e: Byte, n: nat,
                                         input: seq<Byte>)
    ensures var r := Trailing(long, ctlesc, bs, all, e, n, input);
            r.Received? ==> r.bytes == bs && |r.rest| <= |input| && (n > 0 ==> |r.rest| < |input|)
    decreases |input|, n
  {
    hide DlRead, Checked;
    if n > 0 {
      var g := DlRead(ctlesc, input);
      match g.item {
        case Char(c) => TrailingTakes(long, ctlesc, bs, all + [c], e, n - 1, g.rest);
        case FrameEnd(f) => TrailingTakes(long, ctlesc, bs, all + [f], f, CheckLength(long), g.rest);
        case _ =>
      }
    }
  }

  lemma CollectEnds(long: bool, strict: bool, length: nat, bs: seq<Byte>, input: seq<Byte>, e: Byte, rest: seq<Byte>)
    requires |bs| <= length && DlRead(strict, input) == Got(FrameEnd(e), rest)
    ensures Collect(long, strict, length, bs, input) == Trailing(long, strict, bs, bs + [e], e, CheckLength(long), rest)
  {
    hide DlRead, Trailing;
  }

  lemma TrailingEnds(long: bool, strict: bool, bs: seq<Byte>, all: seq<Byte>, e: Byte, input: seq<Byte>)
    requires Checked(long, all)
    ensures Trailing(long, strict, bs, all, e, 0, input) == Received(bs, e, input)
  {
    hide Checked;
  }

  // The XON a ZCRCW leaves behind is not seen by the next read.
  lemma XonDropped(strict: bool, e: Byte, rest: seq<Byte>)
    ensures DlRead(strict, After(e) + rest) == DlRead(strict, rest)
  {
    XonFlow(strict);
    if e == ZCRCW {
      hide Dropped, Printable, Escape;
      assert (After(e) + rest)[1..] == rest;
    } else {
      assert After(e) + rest == rest;
    }
  }

  lemma XonFlow(strict: bool)
    ensures Dropped(strict, XON) && !Printable(XON) && XON != ZDLE
  {
  }

  // A run of subpackets, one after the other; lasts[i] is Z_Lastsent when number i starts.
  datatype Piece = Piece(bytes: seq<Byte>, e: Byte)

  predicate Sendable(length: nat, ps: seq<Piece>) {
    forall i :: 0 <= i < |ps| ==> |ps[i].bytes| <= length && ZCRCE <= ps[i].e <= ZCRCW
  }

  function Stream(long: bool, ctlesc: bool, lasts: seq<Byte>, ps: seq<Piece>): seq<Byte>
    requires |lasts| == |ps|
  {
    if ps == [] then []
    else Subpacket(long, ctlesc, lasts[0], ps[0].bytes, ps[0].e) + Stream(long, ctlesc, lasts[1..], ps[1..])
  }

  // n calls of zrdata
  function ReceiveRun(long: bool, ctlesc: bool, length: nat, n: nat, input: seq<Byte>): seq<Piece>
    decreases n
  {
    if n == 0 then []
    else
      match Receive(long, ctlesc, length, input)
      case Received(bytes, e, rest) => [Piece(bytes, e)] + ReceiveRun(long, ctlesc, length, n - 1, rest)
      case _ => []
  }

  lemma {:induction false} StreamArrives(long: bool, ctlesc: bool, strict: bool, length: nat,
                                         lasts: seq<Byte>, ps: seq<Piece>, before: Byte, rest: seq<Byte>)
    requires (strict ==> ctlesc) && |lasts| == |ps| && Sendable(length, ps)
    ensures ReceiveRun(long, strict, length, |ps|, After(before) + (Stream(long, ctlesc, lasts, ps) + rest)) == ps
    decreases |ps|
  {
    hide Receive, Subpacket;
    if ps != [] {
      var p := ps[0];
      var text := Stream(long, ctlesc, lasts, ps) + rest;
      var more := Stream(long, ctlesc, lasts[1..], ps[1..]) + rest;
      assert text == Subpacket(long, ctlesc, lasts[0], p.bytes, p.e) + more;
      ReceiveDrops(long, strict, length, before, text);
      SubpacketArrives(long, ctlesc, strict, length, lasts[0], p.bytes, p.e, more);
      StreamArrives(long, ctlesc, strict, length, lasts[1..], ps[1..], p.e, rest);
    }
  }

  lemma ReceiveDrops(long: bool, strict: bool, length: nat, e: Byte, rest: seq<Byte>)
    ensures Receive(long, strict, length, After(e) + rest) == Receive(long, strict, length, rest)
  {
    hide DlRead, Special, After;
    XonDropped(strict, e, rest);
  }

  // ---------------------------------------------------------------------------
  // The procedures
  // ---------------------------------------------------------------------------

  class ZmodemSender {
    const tab: array<int>        // tab of zsendline
    var lastEsc: int             // last_esc: -2 before the table has been filled
    var ctlesc: bool             // Z_Ctlesc
    var lastSent: Byte           // Z_Lastsent
    var line: seq<Byte>          // what BUFCHAR and PUTCHAR have taken

    ghost predicate Valid()
      reads this, tab
    {
      tab.Length == 256 && (lastEsc == Flag(ctlesc) ==> Filled(ctlesc, tab[..]))
    }

    constructor (ctlesc: bool)
      ensures Valid() && this.ctlesc == ctlesc && line == [] && lastSent == 0 && fresh(tab)
    {
      tab := new int[256](_ => 0);
      this.ctlesc, lastEsc, lastSent, line := ctlesc, -2, 0, [];
    }

    // zsendline_init
    method InitTable()
      requires tab.Length == 256
      modifies tab
      ensures Filled(ctlesc, tab[..])
    {
      hide Class, ByteOf, ValueOf;
      for i := 0 to 256
        invariant forall c: Byte :: ValueOf(c) < i ==> tab[ValueOf(c)] == Class(ctlesc, c)
      {
        tab[i] := Class(ctlesc, ByteOf(i));
        forall c: Byte | ValueOf(c) <= i
          ensures tab[ValueOf(c)] == Class(ctlesc, c)
        {
          if ValueOf(c) == i {
            ByteOfValue(c);
          }
        }
      }
    }

    method SendLine(c: Byte)
      requires Valid()
      modifies this`lastEsc, this`lastSent, this`line, tab
      ensures Valid()
      ensures line == old(line) + Line(ctlesc, old(lastSent), c) && lastSent == LastSent(ctlesc, old(lastSent), c)
    {
      hide Class, Flip, BehindAt, ValueOf;
      if lastEsc != Flag(ctlesc) {
        InitTable();
        lastEsc := Flag(ctlesc);
      }
      var kind := tab[ValueOf(c)];
      assert kind == Class(ctlesc, c);
      ClassRange(ctlesc, c);
      if kind == 0 || (kind == 2 && !BehindAt(lastSent)) {
        lastSent := c;
        line := line + [c];
      } else {
        line := line + [ZDLE];
        lastSent := Flip(c);
        line := line + [Flip(c)];
      }
    }

    method SendBytes(bs: seq<Byte>)
      requires Valid()
      modifies this`lastEsc, this`lastSent, this`line, tab
      ensures Valid()
      ensures line == old(line) + Lines(ctlesc, old(lastSent), bs) && lastSent == LastOf(ctlesc, old(lastSent), bs)
    {
      hide Line, LastSent, Filled;
      assert bs[0..] == bs;
      for i := 0 to |bs|
        invariant Valid()
        invariant line + Lines(ctlesc, lastSent, bs[i..]) == old(line) + Lines(ctlesc, old(lastSent), bs)
        invariant LastOf(ctlesc, lastSent, bs[i..]) == LastOf(ctlesc, old(lastSent), bs)
      {
        assert bs[i..][1..] == bs[i + 1..];
        SendLine(bs[i]);
      }
    }

    // zsdata
    method SendData(buf: array<Byte>, length: nat, frameend: Byte, long: bool)
      requires Valid() && length <= buf.Length
      modifies this`lastEsc, this`lastSent, this`line, tab
      ensures Valid()
      ensures line == old(line) + Subpacket(long, ctlesc, old(lastSent), old(buf[..length]), frameend)
    {
      hide Filled, Lines, LastOf, CheckBytes;
      var bs := buf[..length];
      SendBytes(bs);
      line := line + [ZDLE];
      line := line + [frameend];
      ghost var data := Lines(ctlesc, old(lastSent), bs);
      assert line == old(line) + (data + [ZDLE, frameend]);
      var check := ComputeCheck(bs + [frameend], long);
      ghost var end := lastSent;
      SendBytes(check);
      assert line == old(line) + (data + [ZDLE, frameend] + Lines(ctlesc, end, check));
      if frameend == ZCRCW {
        line := line + [XON];
      } else {
        assert line == line + After(frameend);
      }
    }
  }

  function Flag(b: bool): int {
    if b then 1 else 0
  }

  ghost predicate Filled(ctlesc: bool, tab: seq<int>) {
    |tab| == 256 && forall c: Byte :: tab[ValueOf(c)] == Class(ctlesc, c)
  }

  lemma ClassRange(ctlesc: bool, c: Byte)
    ensures 0 <= Class(ctlesc, c) <= 2
  {
  }

  // The running check of zsdata and its closing bytes.
  method ComputeCheck(msg: seq<Byte>, long: bool) returns (check: seq<Byte>)
    ensures check == CheckBytes(long, msg)
  {
    hide Step32, Update16, Crc32, Crc16Zm, Trailer32, HighByte, LowByte;
    var crc32: bv32 := 0xffffffff;
    var crc: bv16 := 0;
    CheckStart();
    for i := 0 to |msg|
      invariant long ==> crc32 == Crc32(0xffffffff, msg[..i])
      invariant !long ==> crc == Crc16Zm(msg[..i])
    {
      assert msg[..i + 1] == msg[..i] + [msg[i]];
      if long {
        Crc32Append(0xffffffff, msg[..i], msg[i]);
        crc32 := Step32(crc32, msg[i]);
      } else {
        Crc16ZmAppend(msg[..i], msg[i]);
        crc := Update16(crc, msg[i]);
      }
    }
    assert msg[..|msg|] == msg;
    if long {
      check := Trailer32(crc32);
    } else {
      crc := Update16(Update16(crc, 0), 0);
      check := [HighByte(crc), LowByte(crc)];
    }
  }

  lemma CheckStart()
    ensures Crc32(0xffffffff, []) == 0xffffffff && Crc16Zm([]) == 0
  {
  }

  class ZmodemReader {
    const ctlesc: bool           // Z_Ctlesc
    var input: seq<Byte>         // what GETCHAR is still to return before it times out
    var rxCount: nat             // Z_Rxcount

    constructor (ctlesc: bool, input: seq<Byte>)
      ensures this.ctlesc == ctlesc && this.input == input && rxCount == 0
    {
      this.ctlesc, this.input, rxCount := ctlesc, input, 0;
    }

    // zdlread
    method ReadByte() returns (item: Item)
      modifies this`input
      ensures Got(item, input) == DlRead(ctlesc, old(input))
    {
      hide Dropped, Printable, Escape;
      while input != []
        invariant DlRead(ctlesc, input) == DlRead(ctlesc, old(input))
        decreases |input|
      {
        var c := input[0];
        input := input[1..];
        if Printable(c) {
          return Char(c);
        }
        if c == ZDLE {
          item := ReadEscaped();
          return;
        }
        if !Dropped(ctlesc, c) {
          return Char(c);
        }
      }
      item := Timeout;
    }

    method ReadEscaped() returns (item: Item)
      modifies this`input
      ensures Got(item, input) == Escape(ctlesc, 0, old(input))
    {
      hide Dropped, Flip;
      var cans := 0;
      while input != []
        invariant Escape(ctlesc, cans, input) == Escape(ctlesc, 0, old(input))
        decreases |input|
      {
        var c := input[0];
        input := input[1..];
        if c == ZDLE {
          cans := cans + 1;
          if cans >= 5 {
            return Cancel;
          }
        } else {
          cans := 0;
          if ZCRCE <= c <= ZCRCW {
            return FrameEnd(c);
          } else if c == ZRUB0 {
            return Char(0x7f);
          } else if c == ZRUB1 {
            return Char(0xff);
          } else if !Dropped(ctlesc, c) {
            if c & 0x60 == 0x40 {
              return Char(Flip(c));
            }
            return BadEscape;
          }
        }
      }
      item := Timeout;
    }

    // switch_again of zrdat16 and zrdat32: the frame end and its check bytes, which another
    // frame end may interrupt.
    method ReadEnd(long: bool, bs: seq<Byte>, first: Item) returns (r: Result)
      modifies this`input
      ensures r == Special(long, ctlesc, bs, bs, first, old(input))
      ensures r.Received? || r.CrcError? ==> r.bytes == bs && input == r.rest
    {
      hide DlRead, Checked;
      var item, all := first, bs;
      while item.FrameEnd?
        invariant Special(long, ctlesc, bs, all, item, input) == Special(long, ctlesc, bs, bs, first, old(input))
        decreases |input| + if item.FrameEnd? then 1 else 0
      {
        var e := item.e;
        all := all + [e];
        var n: nat := CheckLength(long);
        ghost var start := |input|;
        item := Char(0);
        while n > 0
          invariant n <= CheckLength(long) && |input| <= start && item.Char?
          invariant n < CheckLength(long) ==> |input| < start
          invariant Trailing(long, ctlesc, bs, all, e, n, input) == Special(long, ctlesc, bs, bs, first, old(input))
        {
          item := ReadByte();
          if !item.Char? {
            break;
          }
          all := all + [item.c];
          n := n - 1;
        }
        if item.Char? {
          if Checked(long, all) {
            return Received(bs, e, input);
          }
          return CrcError(bs, input);
        }
      }
      match item {
        case Cancel => r := Cancelled;
        case Timeout => r := TimedOut;
        case _ => r := Bad;
      }
    }

    // zrdat16 and zrdat32: buf has room for one byte more than length.
    method ReadData(buf: array<Byte>, length: nat, long: bool) returns (r: Result)
      requires buf.Length > length
      modifies this`input, this`rxCount, buf
      ensures r == Receive(long, ctlesc, length, old(input))
      ensures r.Received? || r.CrcError? ==>
                rxCount == |r.bytes| <= buf.Length && buf[..rxCount] == r.bytes && input == r.rest
    {
      hide DlRead, Special;
      rxCount := 0;
      var n := 0;
      assert buf[..0] == [];
      while n <= length
        invariant n <= length + 1
        invariant Collect(long, ctlesc, length, buf[..n], input) == Receive(long, ctlesc, length, old(input))
      {
        var item := ReadByte();
        if !item.Char? {
          r := ReadEnd(long, buf[..n], item);
          if r.Received? || r.CrcError? {
            rxCount := n;
          }
          return;
        }
        buf[n] := item.c;
        assert buf[..n + 1] == buf[..n] + [item.c];
        n := n + 1;
      }
      r := TooLong;
    }
  }
}
