// The buffers of s_hydrainfo (source/bforce/prot_hydra.c) and the routines that fill and
// drain them in place, each proved against the functions of HydraCodec.
module HydraLink {
  import opened Wrappers
  import opened Crc
  import opened HydraCodec
  import opened HydraTransparency

  class HydraInfo {
    var txoptions: Options
    var rxoptions: Options
    var lastchar: LastChar

    // Incoming side: escaped text of the packet being collected, then the decoded packet.
    const iencbuf: array<Byte>
    var iencptr: nat
    var iencrcv: bool
    var iencfmt: Byte
    var idlecnt: nat
    const ibuf: array<Byte>
    var isize: int

    ghost predicate ValidInput()
      reads this
    {
      && iencbuf.Length == BUFLEN && ibuf.Length == MAXDATALEN && iencbuf != ibuf
      && iencptr <= BUFLEN
      && (iencrcv ==> ValidFormat(iencfmt))
    }

    // The receiver automaton this object is in.
    ghost function Collected(): Receiver
      reads this, iencbuf
      requires ValidInput()
    {
      Receiver(idlecnt, iencrcv, iencfmt, iencbuf[..iencptr])
    }

    // What earlier packets have left in the buffer behind it
    ghost function Behind(): seq<Byte>
      reads this, iencbuf
      requires ValidInput()
    {
      iencbuf[iencptr..]
    }

    constructor (o: Options)
      ensures ValidInput() && Collected() == Receiver(0, false, 0, []) && lastchar == NoChar
      ensures txoptions == rxoptions == o
      ensures fresh(iencbuf) && fresh(ibuf)
    {
      txoptions, rxoptions, lastchar := o, o, NoChar;
      iencbuf := new Byte[BUFLEN];
      ibuf := new Byte[MAXDATALEN];
      iencptr, iencrcv, iencfmt, idlecnt, isize := 0, false, 0, 0, 0;
    }

    // -------------------------------------------------------------------------
    // Encoding.  Every routine writes at dst[pos..] and returns the new position.
    // -------------------------------------------------------------------------

    method PutBinByte(dst: array<Byte>, pos: nat, ch: Byte) returns (end: nat)
      requires pos + 2 <= dst.Length
      modifies dst, this`lastchar
      ensures lastchar == Char(Seen(txoptions, ch))
      ensures pos < end <= pos + 2
      ensures dst[..end] == old(dst[..pos]) + BinByte(txoptions, old(lastchar), ch)
    {
      hide Seen, IsFlow, IsControl, Flip;
      var c := ch;
      var n := Seen(txoptions, c);
      end := pos;
      if n == DLE
         || (txoptions.xonxoff && IsFlow(n))
         || (txoptions.telenet && n == CR && lastchar == Char(AT))
         || (txoptions.ctlchrs && IsControl(n))
      {
        dst[end] := DLE;
        end := end + 1;
        c := Flip(c);
      }
      dst[end] := c;
      end := end + 1;
      lastchar := Char(n);
    }

    static method PutHexByte(dst: array<Byte>, pos: nat, c: Byte) returns (end: nat)
      requires pos + 3 <= dst.Length
      modifies dst
      ensures pos < end <= pos + 3
      ensures dst[..end] == old(dst[..pos]) + HexByte(c)
    {
      hide IsControl, Flip, HexDigit;
      if c & 0x80 != 0 {
        dst[pos] := BACKSLASH;
        dst[pos + 1] := HexDigit((c >> 4) & 0x0f);
        dst[pos + 2] := HexDigit(c & 0x0f);
        end := pos + 3;
      } else if IsControl(c) {
        dst[pos] := DLE;
        dst[pos + 1] := Flip(c);
        end := pos + 2;
      } else if c == BACKSLASH {
        dst[pos] := BACKSLASH;
        dst[pos + 1] := BACKSLASH;
        end := pos + 2;
      } else {
        dst[pos] := c;
        end := pos + 1;
      }
    }

    method PutBinBlock(dst: array<Byte>, pos: nat, src: array<Byte>, n: nat) returns (end: nat)
      requires dst != src && n <= src.Length && pos + 2 * n <= dst.Length
      modifies dst, this`lastchar
      ensures lastchar == LastAfter(txoptions, old(lastchar), src[..n])
      ensures end <= dst.Length
      ensures dst[..end] == old(dst[..pos]) + BinText(txoptions, old(lastchar), src[..n])
    {
      hide BinByte, Seen;
      end := pos;
      for i := 0 to n
        invariant pos <= end <= pos + 2 * i
        invariant lastchar == LastAfter(txoptions, old(lastchar), src[..i])
        invariant dst[..end] == old(dst[..pos]) + BinText(txoptions, old(lastchar), src[..i])
      {
        assert src[..i + 1][..i] == src[..i];
        end := PutBinByte(dst, end, src[i]);
      }
    }

    static method PutHexBlock(dst: array<Byte>, pos: nat, src: array<Byte>, n: nat) returns (end: nat)
      requires dst != src && n <= src.Length && pos + 3 * n <= dst.Length
      modifies dst
      ensures end <= dst.Length
      ensures dst[..end] == old(dst[..pos]) + HexText(src[..n])
    {
      hide HexByte;
      end := pos;
      for i := 0 to n
        invariant pos <= end <= pos + 3 * i
        invariant dst[..end] == old(dst[..pos]) + HexText(src[..i])
      {
        assert src[..i + 1][..i] == src[..i];
        end := PutHexByte(dst, end, src[i]);
      }
    }

    // One septet of an ASC block whose first septets are `sofar`.
    method PutSeptet(dst: array<Byte>, pos: nat, c: Byte, ghost head: seq<Byte>, ghost first: LastChar,
                     ghost sofar: seq<Byte>)
      returns (end: nat)
      requires pos + 2 <= dst.Length
      requires lastchar == LastAfter(txoptions, first, sofar)
      requires dst[..pos] == head + BinText(txoptions, first, sofar)
      modifies dst, this`lastchar
      ensures pos < end <= pos + 2
      ensures lastchar == LastAfter(txoptions, first, sofar + [c])
      ensures dst[..end] == head + BinText(txoptions, first, sofar + [c])
    {
      hide BinByte, BinText, LastAfter, Seen;
      BinTextAppend(txoptions, first, sofar, c);
      end := PutBinByte(dst, pos, c);
    }

    // One byte of an ASC block: its septet, and a second one when seven bits have gathered.
    method PutAscByte(dst: array<Byte>, pos: nat, ch: bv16, bitshift: nat, b: Byte,
                      ghost head: seq<Byte>, ghost first: LastChar, ghost sofar: seq<Byte>)
      returns (end: nat, ch1: bv16, bitshift1: nat)
      requires bitshift < 7 && pos + 4 <= dst.Length
      requires lastchar == LastAfter(txoptions, first, sofar)
      requires dst[..pos] == head + BinText(txoptions, first, sofar)
      modifies dst, this`lastchar
      ensures var w := AscPut(AscWriter(sofar, ch, bitshift), b);
              && ch1 == w.ch && bitshift1 == w.shift < 7 && 7 * |w.out| == 7 * |sofar| + 8 + bitshift - bitshift1
              && pos <= end <= pos + 2 * (|w.out| - |sofar|)
              && lastchar == LastAfter(txoptions, first, w.out)
              && dst[..end] == head + BinText(txoptions, first, w.out)
    {
      hide BinText, LastAfter, Merge, Shl, Septet, PastSeptet;
      ch1 := Merge(ch, Shl(b as bv16, bitshift));
      end := PutSeptet(dst, pos, Septet(ch1), head, first, sofar);
      ghost var out := sofar + [Septet(ch1)];
      ch1 := PastSeptet(ch1);
      bitshift1 := bitshift + 1;
      if bitshift1 >= 7 {
        end := PutSeptet(dst, end, Septet(ch1), head, first, out);
        ch1, bitshift1 := 0, 0;
      }
    }

    method PutAscBlock(dst: array<Byte>, pos: nat, src: array<Byte>, n: nat) returns (end: nat)
      requires dst != src && n <= src.Length && pos + 2 * ((8 * n + 6) / 7) <= dst.Length
      modifies dst, this`lastchar
      ensures lastchar == LastAfter(txoptions, old(lastchar), Septets(src[..n]))
      ensures end <= dst.Length
      ensures dst[..end] == old(dst[..pos]) + BinText(txoptions, old(lastchar), Septets(src[..n]))
    {
      hide BinText, LastAfter, AscPut, Septet, AscWrite;
      var ch: bv16, bitshift := 0, 0;
      end := pos;
      ghost var head, first, w := dst[..pos], lastchar, AscWriter([], 0, 0);
      NothingWritten(txoptions, lastchar);
      for i := 0 to n
        invariant w == AscWrite(src[..i]) && w.ch == ch && w.shift == bitshift < 7
        invariant 7 * |w.out| == 8 * i - bitshift
        invariant pos <= end <= pos + 2 * |w.out|
        invariant lastchar == LastAfter(txoptions, first, w.out)
        invariant dst[..end] == head + BinText(txoptions, first, w.out)
      {
        AscRoom(n, i, |w.out|, bitshift);
        AscWriteAppend(src[..i], src[i]);
        assert src[..i + 1] == src[..i] + [src[i]];
        end, ch, bitshift := PutAscByte(dst, end, ch, bitshift, src[i], head, first, w.out);
        w := AscPut(w, src[i]);
      }
      if bitshift > 0 {
        end := PutSeptet(dst, end, Septet(ch), head, first, w.out);
      }
    }

    static method PutUueGroup(dst: array<Byte>, pos: nat, src: array<Byte>, i: nat)
      requires dst != src && i + 3 <= src.Length && pos + 4 <= dst.Length
      modifies dst
      ensures dst[..pos + 4]
              == old(dst[..pos]) + [Uue0(src[i]), Uue1(src[i], src[i + 1]), Uue2(src[i + 1], src[i + 2]),
                  Uue3(src[i + 2])]
    {
      hide Uue0, Uue1, Uue2, Uue3;
      dst[pos] := Uue0(src[i]);
      dst[pos + 1] := Uue1(src[i], src[i + 1]);
      dst[pos + 2] := Uue2(src[i + 1], src[i + 2]);
      dst[pos + 3] := Uue3(src[i + 2]);
    }

    static method PutUueBlock(dst: array<Byte>, pos: nat, src: array<Byte>, n: nat) returns (end: nat)
      requires dst != src && n < src.Length && pos + UueLen(n) <= dst.Length
      modifies dst
      ensures end <= pos + UueLen(n)
      ensures dst[..end] == old(dst[..pos]) + UueText(src[..n], src[n])
    {
      hide Uue0, Uue1, Uue2, Uue3, UueTail, UueText, UueLen;
      var i := 0;
      end := pos;
      ghost var bs, beyond := src[..n], src[n];
      ghost var whole := dst[..pos] + UueText(bs, beyond);
      assert bs[0..] == bs;
      while n - i >= 3
        invariant 0 <= i <= n && pos <= end && end + UueLen(n - i) == pos + UueLen(n)
        invariant dst[..end] + UueText(bs[i..], beyond) == whole
      {
        ghost var done := dst[..end];
        UueGroup(bs, i, beyond);
        PutUueGroup(dst, end, src, i);
        end := end + 4;
        i := i + 3;
        assert dst[..end] == done + dst[end - 4..end];
      }
      UueLast(bs, i, beyond);
      end := PutUueLast(dst, end, src, i, n);
    }

    static method PutUueLast(dst: array<Byte>, pos: nat, src: array<Byte>, i: nat, n: nat) returns (end: nat)
      requires dst != src && i <= n < src.Length && n < i + 3 && pos + UueLen(n - i) <= dst.Length
      modifies dst
      ensures end == pos + UueLen(n - i)
      ensures dst[..end] == old(dst[..pos])
              + if n - i == 2 then [Uue0(src[i]), Uue1(src[i], src[i + 1]), UueTail(src[i + 1])]
                else if n - i == 1 then [Uue0(src[i]), Uue1(src[i], src[i + 1])] else []
    {
      hide Uue0, Uue1, UueTail;
      end := pos;
      if n - i > 0 {
        dst[end] := Uue0(src[i]);
        dst[end + 1] := Uue1(src[i], src[i + 1]);
        end := end + 2;
        if n - i == 2 {
          dst[end] := UueTail(src[i + 1]);
          end := end + 1;
        }
      }
    }

    // hydra_putpkt: type and check bytes are appended to src in place, then the block
    // is encoded into dst.
    method PutPkt(dst: array<Byte>, src: array<Byte>, szsrc: nat, kind: Byte) returns (end: nat, ghost pad: Byte)
      requires dst != src
      requires szsrc + 6 <= src.Length && 3 * (szsrc + 5) + 6 <= dst.Length
      modifies dst, src, this`lastchar
      ensures 4 <= end <= 3 * (szsrc + 5) + 6
      ensures dst[..end] == PacketText(txoptions, old(lastchar), kind, old(src[..szsrc]), pad)
      ensures lastchar == LastAfterPacket(txoptions, old(lastchar), kind, old(src[..szsrc]))
    {
      hide BodyText, CheckBytes, Format;
      var format := Format(txoptions, kind);
      ghost var payload, b, first := src[..szsrc], Body(txoptions, kind, src[..szsrc]), lastchar;
      var n := szsrc;
      src[n] := kind;
      n := n + 1;
      FormatOfBin(txoptions, kind);
      assert src[..n] == payload + [kind];
      n := PutCheck(src, n, format);
      assert src[..n] == b;
      end := EncodeBlock(dst, src, n, format);
      end := PutTail(dst, end, format, kind);
      pad := src[n];
      assert dst[..end] == PacketText(txoptions, first, kind, payload, pad);
    }

    static method PutTail(dst: array<Byte>, pos: nat, format: Byte, kind: Byte) returns (end: nat)
      requires pos + 4 <= dst.Length
      modifies dst
      ensures pos + 2 <= end <= pos + 4
      ensures dst[..end] == old(dst[..pos]) + [DLE, PKTEND] + LineEnd(format, kind)
    {
      dst[pos] := DLE;
      dst[pos + 1] := PKTEND;
      end := pos + 2;
      if kind != PKT_DATA && format != BINPKT {
        dst[end] := CR;
        dst[end + 1] := LF;
        end := end + 2;
      }
    }

    method PutCheck(src: array<Byte>, n: nat, format: Byte) returns (end: nat)
      requires n + 4 <= src.Length
      modifies src
      ensures end == n + |CheckBytes(txoptions, format, old(src[..n]))|
      ensures src[..end] == old(src[..n]) + CheckBytes(txoptions, format, old(src[..n]))
      ensures forall i :: end <= i < src.Length ==> src[i] == old(src[i])
    {
      hide Crc32, Crc16, Check32, Check16;
      if format != HEXPKT && txoptions.crc32 {
        var crc := GetCrc32Ccitt(src, n);
        src[n], src[n + 1], src[n + 2], src[n + 3] := Check32(crc, 0), Check32(crc, 1), Check32(crc, 2),
            Check32(crc, 3);
        end := n + 4;
      } else {
        var crc := GetCrc16Ccitt(src, n);
        src[n], src[n + 1] := Check16(crc, 0), Check16(crc, 1);
        end := n + 2;
      }
    }

    // The packet head and the block itself.
    method EncodeBlock(dst: array<Byte>, src: array<Byte>, n: nat, format: Byte) returns (end: nat)
      requires dst != src && 3 <= n < src.Length && 3 * n + 6 <= dst.Length
      requires ValidFormat(format)
      modifies dst, this`lastchar
      ensures 2 <= end <= 3 * n + 2
      ensures dst[..end] == [DLE, format] + BodyText(txoptions, old(lastchar), format, src[..n], src[n])
      ensures lastchar == (if format == BINPKT then LastAfter(txoptions, old(lastchar), src[..n])
                           else if format == ASCPKT then LastAfter(txoptions, old(lastchar), Septets(src[..n]))
                           else old(lastchar))
    {
      hide BinText, HexText, UueText, Septets, LastAfter;
      dst[0], dst[1] := DLE, format;
      assert dst[..2] == [DLE, format];
      if format == BINPKT {
        end := PutBinBlock(dst, 2, src, n);
      } else if format == HEXPKT {
        end := PutHexBlock(dst, 2, src, n);
      } else if format == ASCPKT {
        end := PutAscBlock(dst, 2, src, n);
        AscRoundTrip(n, src[..n]);
      } else {
        end := PutUueBlock(dst, 2, src, n);
      }
    }

    // -------------------------------------------------------------------------
    // Decoding.  `ok` is false where the source returns NULL.
    // -------------------------------------------------------------------------

    static method GetBinBlock(dst: array<Byte>, szdst: nat, src: array<Byte>, n: nat) returns (ok: bool, len: nat)
      requires dst != src && n <= src.Length && szdst <= dst.Length
      modifies dst
      ensures len <= szdst && (if ok then Some(dst[..len]) else None) == BinDecode(szdst, src[..n])
    {
      if n > szdst {
        return false, 0;
      }
      for i := 0 to n
        invariant forall k :: 0 <= k < i ==> dst[k] == src[k]
      {
        dst[i] := src[i];
      }
      ok, len := true, n;
      assert dst[..len] == src[..n];
    }

    // A character looked for past the end of an ill-formed block is what the buffer holds there.
    static method GetHexBlock(dst: array<Byte>, szdst: nat, src: array<Byte>, n: nat) returns (len: nat)
      requires dst != src && n <= src.Length && szdst <= dst.Length
      modifies dst
      ensures len <= szdst && dst[..len] == HexDecode(szdst, src[..n], src[n..])
    {
      hide HexOut, HexUsed, HexValue, HexDecode;
      var i := 0;
      len := 0;
      ghost var t, beyond := src[..n], src[n..];
      assert Suffix(t, 0) == t;
      while i < n && len < szdst
        invariant len <= szdst
        invariant dst[..len] + HexDecode(szdst - len, Suffix(t, i), beyond) == HexDecode(szdst, t, beyond)
        decreases n - i
      {
        ghost var done, u := dst[..len], Suffix(t, i);
        HexUnfold(t, i, szdst - len, beyond);
        var out, used := HexChar(src, i, n);
        dst[len] := out;
        len := len + 1;
        i := i + used;
        assert dst[..len] == done + [out];
      }
      HexEnds(Suffix(t, i), szdst - len, beyond);
    }

    static method HexChar(src: array<Byte>, i: nat, n: nat) returns (out: Byte, used: nat)
      requires i < n <= src.Length
      ensures out == HexOut(src[i..n], src[n..]) && used == HexUsed(src[i..n], src[n..])
    {
      hide HexValue;
      if src[i] == BACKSLASH {
        var c := if i + 1 < src.Length then src[i + 1] else 0;
        if c != BACKSLASH {
          var d := if i + 2 < src.Length then src[i + 2] else 0;
          out, used := (HexValue(c) << 4) | HexValue(d), 3;
        } else {
          out, used := c, 2;
        }
      } else {
        out, used := src[i], 1;
      }
    }

    static method GetAscBlock(dst: array<Byte>, szdst: nat, src: array<Byte>, n: nat) returns (len: nat)
      requires dst != src && n <= src.Length && szdst <= dst.Length
      modifies dst
      ensures len <= szdst && dst[..len] == AscRead(szdst, src[..n]).out
    {
      hide Merge, Shl, Seven, Octet, PastOctet, AscRead;
      var i, bits := 0, 0;
      var c: bv16 := 0;
      len := 0;
      NothingRead(szdst);
      while i < n && len < szdst
        invariant 0 <= i <= n && len <= szdst && bits < 8
        invariant AscRead(szdst, src[..i]) == AscReader(dst[..len], c, bits)
      {
        ghost var done := dst[..len];
        AscReadAppend(szdst, src[..i], src[i]);
        assert src[..i + 1] == src[..i] + [src[i]];
        c := Merge(c, Shl(Seven(src[i]), bits));
        bits := bits + 7;
        if bits >= 8 {
          dst[len] := Octet(c);
          len := len + 1;
          c := PastOctet(c);
          bits := bits - 8;
          assert dst[..len] == done + [dst[len - 1]];
        }
        i := i + 1;
      }
      assert src[..n][..i] == src[..i];
      AscFull(szdst, src[..n], i);
    }

    static method GetUueBlock(dst: array<Byte>, szdst: nat, src: array<Byte>, n: nat) returns (ok: bool, len: nat)
      requires dst != src && n <= src.Length && szdst <= dst.Length
      modifies dst
      ensures len <= szdst && (if ok then Some(dst[..len]) else None) == UueDecode(szdst, src[..n])
    {
      hide IsUue, UueOut0, UueOut1, UueOut2, UueDecodeFrom;
      ok, len := false, 0;
      if n % 4 == 1 || n / 4 * 4 + n % 4 > szdst {
        return;
      }
      var i := 0;
      ghost var t := src[..n];
      assert t[0..] == t;
      PrependNothing(UueDecodeFrom(t));
      while n - i >= 4
        invariant 0 <= i <= n && len <= i && (n - i) % 4 != 1
        invariant Prepend(dst[..len], UueDecodeFrom(t[i..])) == UueDecodeFrom(t)
      {
        ghost var done := dst[..len];
        UueUnfold(t, i);
        if !IsUue(src[i]) || !IsUue(src[i + 1]) || !IsUue(src[i + 2]) || !IsUue(src[i + 3]) {
          return;
        }
        dst[len] := UueOut0(src[i], src[i + 1]);
        dst[len + 1] := UueOut1(src[i + 1], src[i + 2]);
        dst[len + 2] := UueOut2(src[i + 2], src[i + 3]);
        len := len + 3;
        i := i + 4;
        assert dst[..len] == done + [dst[len - 3], dst[len - 2], dst[len - 1]];
        PrependTwice(done, [dst[len - 3], dst[len - 2], dst[len - 1]], UueDecodeFrom(t[i..]));
      }
      ok, len := GetUueLast(dst, len, src, i, n);
    }

    static method GetUueLast(dst: array<Byte>, pos: nat, src: array<Byte>, i: nat, n: nat) returns (ok: bool, len: nat)
      requires dst != src && i <= n <= src.Length && n - i < 4 && n - i != 1 && pos + (n - i) <= dst.Length
      modifies dst
      ensures len <= pos + (n - i)
      ensures (if ok then Some(dst[..len]) else None) == Prepend(old(dst[..pos]), UueDecodeFrom(src[..n][i..]))
    {
      hide IsUue, UueOut0, UueOut1, UueOut2;
      ok, len := false, pos;
      ghost var head, u := dst[..pos], src[..n][i..];
      assert u == src[i..n];
      if n - i >= 2 {
        if !IsUue(src[i]) || !IsUue(src[i + 1]) {
          return;
        }
        dst[len] := UueOut0(src[i], src[i + 1]);
        len := len + 1;
        if n - i == 3 {
          if !IsUue(src[i + 2]) {
            return;
          }
          dst[len] := UueOut1(src[i + 1], src[i + 2]);
          len := len + 1;
          assert dst[..len] == head + [dst[pos], dst[pos + 1]];
        } else {
          assert dst[..len] == head + [dst[pos]];
        }
      } else {
        assert head + [] == head;
      }
      ok := true;
    }

    // -------------------------------------------------------------------------
    // hydra_recv
    // -------------------------------------------------------------------------

    method DecodeBlock(n: nat) returns (ok: bool, len: nat)
      requires ValidInput() && ValidFormat(iencfmt) && n <= BUFLEN
      modifies ibuf
      ensures len <= MAXDATALEN
      ensures (if ok then Some(ibuf[..len]) else None) == Decode(MAXDATALEN, iencfmt, iencbuf[..n], iencbuf[n..])
    {
      hide BinDecode, HexDecode, AscRead, UueDecode;
      if iencfmt == BINPKT {
        ok, len := GetBinBlock(ibuf, MAXDATALEN, iencbuf, n);
      } else if iencfmt == HEXPKT {
        len := GetHexBlock(ibuf, MAXDATALEN, iencbuf, n);
        ok := true;
      } else if iencfmt == ASCPKT {
        len := GetAscBlock(ibuf, MAXDATALEN, iencbuf, n);
        ok := true;
      } else {
        ok, len := GetUueBlock(ibuf, MAXDATALEN, iencbuf, n);
      }
    }

    // The end of a packet: decode, check, and cut off type and check bytes.
    method EndPacket() returns (event: Event)
      requires ValidInput() && iencrcv
      modifies this`iencrcv, this`iencptr, this`isize, ibuf
      ensures ValidInput() && !iencrcv && iencptr == 0
      ensures event == Closing(rxoptions, iencfmt, old(iencbuf[..iencptr]), iencbuf[old(iencptr)..])
      ensures event.Packet? ==> isize == |event.payload| <= MAXDATALEN && ibuf[..isize] == event.payload
    {
      hide Decode, Crc32, Crc16, KnownKind, ValidFormat;
      var ok, len := DecodeBlock(iencptr);
      iencrcv := false;
      iencptr := 0;
      if !ok {
        return Undecodable;
      }
      ghost var b := ibuf[..len];
      var goodcrc: bool;
      isize := len;
      if iencfmt != HEXPKT && rxoptions.crc32 {
        var crc := GetCrc32Ccitt(ibuf, len);
        goodcrc := crc == 0xdebb20e3;
        isize := isize - 4;
      } else {
        var crc := GetCrc16Ccitt(ibuf, len);
        goodcrc := crc == 0xf0b8;
        isize := isize - 2;
      }
      isize := isize - 1;
      event := Junk;
      if isize >= 0 {
        var pkttype := ibuf[isize];
        assert pkttype == b[isize] && ibuf[..isize] == b[..isize];
        if goodcrc && KnownKind(pkttype) {
          event := Packet(pkttype, ibuf[..isize]);
        }
      }
    }

    method StoreChar(c: Byte)
      requires ValidInput() && iencrcv
      modifies this`iencrcv, this`iencptr, iencbuf
      ensures ValidInput()
      ensures Collected() == Store(old(Collected()), c)
    {
      if iencptr < BUFLEN {
        iencbuf[iencptr] := c;
        iencptr := iencptr + 1;
      } else {
        iencrcv := false;
        iencptr := 0;
      }
    }

    // One turn of the receive loop.
    method TakeChar(raw: Byte) returns (event: Event)
      requires ValidInput()
      modifies this`iencrcv, this`iencptr, this`iencfmt, this`idlecnt, this`isize, iencbuf, ibuf
      ensures ValidInput()
      ensures (Collected(), event) == Receive(rxoptions, old(Collected()), raw, old(Behind()))
      ensures event.Packet? ==> isize == |event.payload| <= MAXDATALEN && ibuf[..isize] == event.payload
    {
      hide Strip, Discarded, Flip, Decode, Judge;
      event := Pending;
      var c := Strip(rxoptions, raw);
      if Discarded(rxoptions, c) {
        return;
      }
      if c == DLE {
        idlecnt := idlecnt + 1;
        if idlecnt >= 5 {
          event := Exit;
        }
      } else if idlecnt > 0 {
        idlecnt := 0;
        if c == PKTEND {
          if iencrcv {
            event := EndPacket();
          } else {
            event := Junk;
          }
        } else if ValidFormat(c) {
          iencrcv, iencptr, iencfmt := true, 0, c;
        } else if iencrcv {
          StoreChar(Flip(c));
        }
      } else if iencrcv {
        StoreChar(c);
      }
    }

    // What lies in the buffer behind the packet is looked at only if that is ill-formed.
    method Recv(input: seq<Byte>) returns (event: Event, used: nat, ghost beyond: seq<Byte>)
      requires ValidInput()
      modifies this`iencrcv, this`iencptr, this`iencfmt, this`idlecnt, this`isize, iencbuf, ibuf
      ensures ValidInput() && used <= |input|
      ensures ReceiveAll(rxoptions, old(Collected()), input, beyond) == Taken(Collected(), event, input[used..])
      ensures event.Packet? ==> isize == |event.payload| <= MAXDATALEN && ibuf[..isize] == event.payload
    {
      hide Receive;
      event, used, beyond := Pending, 0, [];
      assert input[0..] == input;
      while used < |input|
        invariant used <= |input| && ValidInput() && event == Pending
        invariant forall b :: ReceiveAll(rxoptions, old(Collected()), input, b)
                              == ReceiveAll(rxoptions, Collected(), input[used..], b)
      {
        assert input[used..][0] == input[used] && input[used..][1..] == input[used + 1..];
        beyond := Behind();
        ghost var s := Collected();
        event := TakeChar(input[used]);
        used := used + 1;
        if event == Pending {
          PendingAnyway(rxoptions, s, input[used - 1], beyond);
        }
        if event != Pending {
          return;
        }
      }
    }
  }

  // A character that ends no packet does not look behind it.
  lemma PendingAnyway(o: Options, s: Receiver, raw: Byte, beyond: seq<Byte>)
    requires Receive(o, s, raw, beyond).1 == Pending
    ensures forall b: seq<Byte> :: Receive(o, s, raw, b) == Receive(o, s, raw, beyond)
  {
    hide Decode, GoodCheck, KnownKind, LongCheck, Store;
  }

  lemma HexUnfold(t: seq<Byte>, i: nat, room: nat, beyond: seq<Byte>)
    requires i < |t| && room > 0
    ensures t[i..|t|] == Suffix(t, i)
    ensures HexDecode(room, Suffix(t, i), beyond)
            == [HexOut(t[i..], beyond)] + HexDecode(room - 1, Suffix(t, i + HexUsed(t[i..], beyond)), beyond)
  {
    hide HexOut, HexUsed;
    assert Drop(t[i..], HexUsed(t[i..], beyond)) == Suffix(t, i + HexUsed(t[i..], beyond));
  }

  lemma HexEnds(t: seq<Byte>, room: nat, beyond: seq<Byte>)
    ensures t == [] || room == 0 ==> HexDecode(room, t, beyond) == []
  {
  }

  lemma UueUnfold(t: seq<Byte>, i: nat)
    requires i + 4 <= |t|
    ensures UueDecodeFrom(t[i..])
            == if IsUue(t[i]) && IsUue(t[i + 1]) && IsUue(t[i + 2]) && IsUue(t[i + 3])
               then Prepend([UueOut0(t[i], t[i + 1]), UueOut1(t[i + 1], t[i + 2]), UueOut2(t[i + 2], t[i + 3])],
                   UueDecodeFrom(t[i + 4..]))
               else None
  {
    hide IsUue, UueOut0, UueOut1, UueOut2;
    assert t[i..][4..] == t[i + 4..];
  }

  lemma PrependNothing(r: Option<seq<Byte>>)
    ensures Prepend([], r) == r
  {
    if r.Some? {
      assert [] + r.value == r.value;
    }
  }

  lemma PrependTwice(a: seq<Byte>, b: seq<Byte>, r: Option<seq<Byte>>)
    ensures Prepend(a, Prepend(b, r)) == Prepend(a + b, r)
  {
    if r.Some? {
      assert a + (b + r.value) == a + b + r.value;
    }
  }

  function Suffix(t: seq<Byte>, i: nat): seq<Byte> {
    if i <= |t| then t[i..] else []
  }

  lemma NothingRead(room: nat)
    ensures AscRead(room, []) == AscReader([], 0, 0)
  {
  }

  // A full destination stops the reader.
  lemma {:induction false} AscFull(room: nat, t: seq<Byte>, i: nat)
    requires i <= |t| && (i == |t| || |AscRead(room, t[..i]).out| == room)
    ensures AscRead(room, t) == AscRead(room, t[..i])
    decreases |t| - i
  {
    hide Merge, Shl, Seven, Octet, PastOctet;
    if i == |t| {
      assert t[..i] == t;
    } else {
      assert t[..i + 1][..i] == t[..i];
      AscFull(room, t, i + 1);
    }
  }

  function Prepend(a: seq<Byte>, r: Option<seq<Byte>>): Option<seq<Byte>> {
    match r
    case None => None
    case Some(b) => Some(a + b)
  }

  lemma UueGroup(bs: seq<Byte>, i: nat, beyond: Byte)
    requires i + 3 <= |bs|
    ensures UueText(bs[i..], beyond)
            == [Uue0(bs[i]), Uue1(bs[i], bs[i + 1]), Uue2(bs[i + 1], bs[i + 2]), Uue3(bs[i + 2])]
                + UueText(bs[i + 3..], beyond)
    ensures UueLen(|bs| - i) == 4 + UueLen(|bs| - i - 3)
  {
    hide Uue0, Uue1, Uue2, Uue3;
    assert bs[i..][3..] == bs[i + 3..];
  }

  lemma UueLast(bs: seq<Byte>, i: nat, beyond: Byte)
    requires i <= |bs| < i + 3
    ensures UueText(bs[i..], beyond)
            == if |bs| - i == 2 then [Uue0(bs[i]), Uue1(bs[i], bs[i + 1]), UueTail(bs[i + 1])]
               else if |bs| - i == 1 then [Uue0(bs[i]), Uue1(bs[i], beyond)] else []
    ensures UueLen(|bs| - i) == |UueText(bs[i..], beyond)|
  {
    hide Uue0, Uue1, Uue2, Uue3, UueTail;
  }

  // There is room for two more septets, each of at most two bytes.
  lemma AscRoom(n: nat, i: nat, septets: nat, shift: nat)
    requires i < n && shift < 7 && 7 * septets == 8 * i - shift
    ensures 2 * septets + 4 <= 2 * ((8 * n + 6) / 7)
  {
  }

  lemma NothingWritten(o: Options, last: LastChar)
    ensures AscWrite([]) == AscWriter([], 0, 0) && BinText(o, last, []) == [] && LastAfter(o, last, []) == last
  {
  }

  lemma AscWriteAppend(bs: seq<Byte>, b: Byte)
    ensures AscWrite(bs + [b]) == AscPut(AscWrite(bs), b)
  {
    assert (bs + [b])[..|bs|] == bs;
  }

  lemma BinTextAppend(o: Options, last: LastChar, bs: seq<Byte>, c: Byte)
    ensures BinText(o, last, bs + [c]) == BinText(o, last, bs) + BinByte(o, LastAfter(o, last, bs), c)
    ensures LastAfter(o, last, bs + [c]) == Char(Seen(o, c))
  {
    hide BinByte, Seen;
    assert (bs + [c])[..|bs|] == bs;
  }
}
