// Link transparency of Hydra: what hydra_putpkt writes, hydra_recv reads back.
module HydraTransparency {
  import opened Wrappers
  import opened Crc
  import opened HydraCodec

  // ---------------------------------------------------------------------------
  // The receiver on concatenated input
  // ---------------------------------------------------------------------------

  lemma {:induction false} ReceiveConcat(o: Options, s: Receiver, a: seq<Byte>, b: seq<Byte>, beyond: seq<Byte>)
    requires ReceiveAll(o, s, a, beyond).event == Pending
    ensures ReceiveAll(o, s, a + b, beyond) == ReceiveAll(o, ReceiveAll(o, s, a, beyond).state, b, beyond)
    decreases |a|
  {
    hide Receive;
    if a == [] {
      assert a + b == b;
    } else {
      var (t, e) := Receive(o, s, a[0], beyond);
      assert (a + b)[0] == a[0] && (a + b)[1..] == a[1..] + b;
      ReceiveConcat(o, t, a[1..], b, beyond);
    }
  }

  // The receiver, idle inside a packet, takes text t and has stored exactly `data` more.
  predicate Absorbs(o: Options, s: Receiver, t: seq<Byte>, data: seq<Byte>, beyond: seq<Byte>) {
    ReceiveAll(o, s, t, beyond) == Taken(s.(enc := s.enc + data), Pending, [])
  }

  predicate Collecting(s: Receiver) {
    s.receiving && s.idle == 0
  }

  lemma AbsorbsConcat(o: Options, s: Receiver, t: seq<Byte>, data: seq<Byte>, t': seq<Byte>, data': seq<Byte>,
                      beyond: seq<Byte>)
    requires Absorbs(o, s, t, data, beyond)
    requires Absorbs(o, s.(enc := s.enc + data), t', data', beyond)
    ensures Absorbs(o, s, t + t', data + data', beyond)
  {
    ReceiveConcat(o, s, t, t', beyond);
    assert s.enc + data + data' == s.enc + (data + data');
  }

  lemma ReceiveOne(o: Options, s: Receiver, c: Byte, beyond: seq<Byte>)
    requires Receive(o, s, c, beyond).1 == Pending
    ensures ReceiveAll(o, s, [c], beyond) == Taken(Receive(o, s, c, beyond).0, Pending, [])
  {
    hide Receive;
    assert [c][1..] == [];
  }

  lemma ReceiveTwo(o: Options, s: Receiver, c: Byte, d: Byte, beyond: seq<Byte>)
    requires Receive(o, s, c, beyond).1 == Pending
    ensures var t := Receive(o, s, c, beyond).0;
            var (u, e) := Receive(o, t, d, beyond);
            ReceiveAll(o, s, [c, d], beyond) == Taken(u, e, [])
  {
    hide Receive;
    var t := Receive(o, s, c, beyond).0;
    assert [c, d][1..] == [d];
    assert [d][1..] == [];
    assert ReceiveAll(o, s, [c, d], beyond) == ReceiveAll(o, t, [d], beyond);
  }

  // ---------------------------------------------------------------------------
  // One character
  // ---------------------------------------------------------------------------

  // A character that passes the line unchanged.
  predicate Plain(o: Options, c: Byte) {
    Strip(o, c) == c && !Discarded(o, c) && c != DLE
  }

  // A character that may follow a DLE without being taken for a control sequence.
  predicate Escapable(o: Options, c: Byte) {
    Plain(o, c) && c != PKTEND && !ValidFormat(c)
  }

  lemma PlainAbsorbed(o: Options, s: Receiver, c: Byte, beyond: seq<Byte>)
    requires Collecting(s) && |s.enc| < BUFLEN && Plain(o, c)
    ensures Absorbs(o, s, [c], [c], beyond)
  {
    hide Strip, Discarded, Judge, Decode;
    assert Receive(o, s, c, beyond) == (s.(enc := s.enc + [c]), Pending);
    ReceiveOne(o, s, c, beyond);
  }

  lemma DlePasses(o: Options)
    ensures Strip(o, DLE) == DLE && !Discarded(o, DLE)
  {
  }

  lemma FlipTwice(c: Byte)
    ensures Flip(Flip(c)) == c
  {
  }

  lemma EscapeAbsorbed(o: Options, s: Receiver, c: Byte, beyond: seq<Byte>)
    requires Collecting(s) && |s.enc| < BUFLEN && Escapable(o, Flip(c))
    ensures Absorbs(o, s, [DLE, Flip(c)], [c], beyond)
  {
    DlePasses(o);
    FlipTwice(c);
    hide Strip, Discarded, Judge, Decode, Flip;
    var t := s.(idle := 1);
    assert Receive(o, s, DLE, beyond) == (t, Pending);
    assert Receive(o, t, Flip(c), beyond) == (s.(enc := s.enc + [c]), Pending);
    ReceiveTwo(o, s, DLE, Flip(c), beyond);
  }

  // ---------------------------------------------------------------------------
  // BIN and ASC text
  // ---------------------------------------------------------------------------

  lemma EscapedIsSafe(o: Options, last: LastChar, c: Byte)
    requires o.highbit ==> c < 0x80
    ensures MustEscape(o, last, c) ==> Escapable(o, Flip(c))
    ensures !MustEscape(o, last, c) ==> Plain(o, c)
  {
  }

  lemma BinByteAbsorbed(o: Options, s: Receiver, last: LastChar, c: Byte, beyond: seq<Byte>)
    requires Collecting(s) && |s.enc| < BUFLEN
    requires o.highbit ==> c < 0x80
    ensures Absorbs(o, s, BinByte(o, last, c), [c], beyond)
  {
    EscapedIsSafe(o, last, c);
    hide Strip, Discarded, MustEscape, Flip, Plain, Escapable, Absorbs;
    if MustEscape(o, last, c) {
      EscapeAbsorbed(o, s, c, beyond);
    } else {
      PlainAbsorbed(o, s, c, beyond);
    }
  }

  lemma {:induction false} BinTextAbsorbed(o: Options, s: Receiver, last: LastChar, bs: seq<Byte>, beyond: seq<Byte>)
    requires Collecting(s) && |s.enc| + |bs| <= BUFLEN
    requires o.highbit ==> forall i :: 0 <= i < |bs| ==> bs[i] < 0x80
    ensures Absorbs(o, s, BinText(o, last, bs), bs, beyond)
  {
    hide BinByte, LastAfter, Absorbs;
    if bs == [] {
      NothingAbsorbed(o, s, beyond);
    } else {
      var init, c := bs[..|bs| - 1], bs[|bs| - 1];
      assert init + [c] == bs;
      BinTextAbsorbed(o, s, last, init, beyond);
      BinByteAbsorbed(o, s.(enc := s.enc + init), LastAfter(o, last, init), c, beyond);
      AbsorbsConcat(o, s, BinText(o, last, init), init, BinByte(o, LastAfter(o, last, init), c), [c], beyond);
    }
  }

  lemma NothingAbsorbed(o: Options, s: Receiver, beyond: seq<Byte>)
    ensures Absorbs(o, s, [], [], beyond)
  {
    assert s.enc + [] == s.enc;
  }

  // ---------------------------------------------------------------------------
  // HEX text
  // ---------------------------------------------------------------------------

  // What the receiver has stored for one byte once the DLE escapes are undone.
  function HexStored1(c: Byte): (t: seq<Byte>)
    ensures 1 <= |t| <= 3
  {
    if c & 0x80 == 0 && IsControl(c) then [c] else HexByte(c)
  }

  function HexStored(bs: seq<Byte>): (t: seq<Byte>)
    ensures |t| <= 3 * |bs|
  {
    if bs == [] then [] else HexStored(bs[..|bs| - 1]) + HexStored1(bs[|bs| - 1])
  }

  lemma HexCharsArePlain(o: Options, c: Byte)
    ensures c & 0x80 != 0 ==> Plain(o, BACKSLASH) && Plain(o, HexDigit((c >> 4) & 0x0f)) && Plain(o, HexDigit(c & 0x0f))
    ensures c & 0x80 == 0 && IsControl(c) ==> Escapable(o, Flip(c))
    ensures c & 0x80 == 0 && !IsControl(c) ==> Plain(o, c) && Plain(o, BACKSLASH)
  {
  }

  lemma PairAbsorbed(o: Options, s: Receiver, c: Byte, d: Byte, beyond: seq<Byte>)
    requires Collecting(s) && |s.enc| + 2 <= BUFLEN && Plain(o, c) && Plain(o, d)
    ensures Absorbs(o, s, [c, d], [c, d], beyond)
  {
    hide Plain, Absorbs;
    PlainAbsorbed(o, s, c, beyond);
    PlainAbsorbed(o, s.(enc := s.enc + [c]), d, beyond);
    AbsorbsConcat(o, s, [c], [c], [d], [d], beyond);
    assert [c] + [d] == [c, d];
  }

  lemma HexByteAbsorbed(o: Options, s: Receiver, c: Byte, beyond: seq<Byte>)
    requires Collecting(s) && |s.enc| + 3 <= BUFLEN
    ensures Absorbs(o, s, HexByte(c), HexStored1(c), beyond)
  {
    HexCharsArePlain(o, c);
    hide Plain, Escapable, Flip, IsControl, HexDigit, Absorbs;
    if c & 0x80 != 0 {
      var h, l := HexDigit((c >> 4) & 0x0f), HexDigit(c & 0x0f);
      PairAbsorbed(o, s, BACKSLASH, h, beyond);
      PlainAbsorbed(o, s.(enc := s.enc + [BACKSLASH, h]), l, beyond);
      AbsorbsConcat(o, s, [BACKSLASH, h], [BACKSLASH, h], [l], [l], beyond);
      assert [BACKSLASH, h] + [l] == [BACKSLASH, h, l];
    } else if IsControl(c) {
      EscapeAbsorbed(o, s, c, beyond);
    } else if c == BACKSLASH {
      PairAbsorbed(o, s, BACKSLASH, BACKSLASH, beyond);
    } else {
      PlainAbsorbed(o, s, c, beyond);
    }
  }

  lemma {:induction false} HexTextAbsorbed(o: Options, s: Receiver, bs: seq<Byte>, beyond: seq<Byte>)
    requires Collecting(s) && |s.enc| + 3 * |bs| <= BUFLEN
    ensures Absorbs(o, s, HexText(bs), HexStored(bs), beyond)
  {
    hide HexByte, HexStored1, Absorbs;
    if bs == [] {
      NothingAbsorbed(o, s, beyond);
    } else {
      var init, c := bs[..|bs| - 1], bs[|bs| - 1];
      HexTextAbsorbed(o, s, init, beyond);
      HexByteAbsorbed(o, s.(enc := s.enc + HexStored(init)), c, beyond);
      AbsorbsConcat(o, s, HexText(init), HexStored(init), HexByte(c), HexStored1(c), beyond);
    }
  }

  lemma {:induction false} HexStoredConcat(a: seq<Byte>, b: seq<Byte>)
    ensures HexStored(a + b) == HexStored(a) + HexStored(b)
  {
    hide HexStored1;
    if b == [] {
      assert a + b == a;
    } else {
      var n := |b| - 1;
      assert (a + b)[..|a + b| - 1] == a + b[..n];
      HexStoredConcat(a, b[..n]);
    }
  }

  lemma HexDigitValue(n: Byte)
    requires n < 16
    ensures HexValue(HexDigit(n)) == n && HexDigit(n) != BACKSLASH
  {
  }

  lemma NibblesJoin(c: Byte)
    ensures (((c >> 4) & 0x0f) << 4) | (c & 0x0f) == c
    ensures c & 0x80 != 0 ==> c != BACKSLASH
  {
  }

  lemma HexStep(room: nat, c: Byte, rest: seq<Byte>, beyond: seq<Byte>)
    requires room > 0
    ensures HexDecode(room, HexStored1(c) + rest, beyond) == [c] + HexDecode(room - 1, rest, beyond)
  {
    var one := HexStored1(c);
    var t := one + rest;
    NibblesJoin(c);
    BackslashPrints(c);
    assert t[|one|..] == rest;
    if c & 0x80 != 0 {
      var h, l := HexDigit((c >> 4) & 0x0f), HexDigit(c & 0x0f);
      HexDigitValue((c >> 4) & 0x0f);
      HexDigitValue(c & 0x0f);
      hide HexValue, IsControl, HexDigit;
      assert one == [BACKSLASH, h, l];
      assert At(t, 1, beyond) == h && At(t, 2, beyond) == l;
    } else if !IsControl(c) && c == BACKSLASH {
      assert At(t, 1, beyond) == BACKSLASH;
    }
    assert HexOut(t, beyond) == c && Drop(t, HexUsed(t, beyond)) == rest;
  }

  lemma BackslashPrints(c: Byte)
    ensures IsControl(c) ==> c != BACKSLASH
  {
  }

  lemma HexStoredCons(c: Byte, rest: seq<Byte>)
    ensures HexStored([c] + rest) == HexStored1(c) + HexStored(rest)
  {
    hide HexStored1;
    HexStoredConcat([c], rest);
    assert [c][..0] == [];
  }

  lemma {:induction false} HexRoundTrip(room: nat, bs: seq<Byte>, beyond: seq<Byte>)
    requires |bs| <= room
    ensures HexDecode(room, HexStored(bs), beyond) == bs
  {
    hide HexStored1, HexOut, HexUsed;
    if bs != [] {
      hide HexStored, HexDecode;
      var c, rest := bs[0], bs[1..];
      assert bs == [c] + rest;
      HexStoredCons(c, rest);
      HexStep(room, c, HexStored(rest), beyond);
      HexRoundTrip(room - 1, rest, beyond);
    }
  }

  // ---------------------------------------------------------------------------
  // ASC text
  // ---------------------------------------------------------------------------

  // The low 8-j and the high j bits of a byte, for 0 < j < 7.
  function LowBits(b: Byte, j: nat): bv16
    requires 0 < j < 8
  {
    var x := b as bv16;
    if j == 1 then x & 0x7f else if j == 2 then x & 0x3f else if j == 3 then x & 0x1f
    else if j == 4 then x & 0x0f else if j == 5 then x & 0x07 else if j == 6 then x & 0x03 else x & 0x01
  }

  function HighBits(b: Byte, j: nat): bv16
    requires 0 < j < 8
  {
    var x := b as bv16;
    if j == 1 then x >> 7 else if j == 2 then x >> 6 else if j == 3 then x >> 5
    else if j == 4 then x >> 4 else if j == 5 then x >> 3 else if j == 6 then x >> 2 else x >> 1
  }

  // A septet that starts with the j held bits of `prev` completes that byte.
  lemma SeptetCompletes(prev: Byte, b: Byte, j: nat)
    requires 0 < j < 7
    ensures var ch := Merge(HighBits(prev, j), Shl(b as bv16, j));
            var c := Merge(LowBits(prev, j), Shl(Seven(Septet(ch)), 8 - j));
            Octet(c) == prev && PastOctet(c) == LowBits(b, j + 1) && PastSeptet(ch) == HighBits(b, j + 1)
  {
    if j == 1 {} else if j == 2 {} else if j == 3 {} else if j == 4 {} else if j == 5 {} else {}
  }

  lemma SeptetOpens(b: Byte)
    ensures var ch := Merge(0, Shl(b as bv16, 0));
            Merge(0, Shl(Seven(Septet(ch)), 0)) == LowBits(b, 1) && PastSeptet(ch) == HighBits(b, 1)
  {
  }

  // The held bits alone, as the last septet of a block, complete their byte too.
  lemma SeptetCloses(prev: Byte, j: nat)
    requires 0 < j < 8
    ensures var c := Merge(LowBits(prev, j), Shl(Seven(Septet(HighBits(prev, j))), 8 - j));
            Octet(c) == prev && PastOctet(c) == 0
  {
    if j == 1 {} else if j == 2 {} else if j == 3 {} else if j == 4 {} else if j == 5 {} else if j == 6 {} else {}
  }

  // Where the reader stands after exactly the septets written for bs.
  predicate InStep(bs: seq<Byte>, w: AscWriter, r: AscReader) {
    if w.shift == 0 then
      w.ch == 0 && r == AscReader(bs, 0, 0)
    else
      && bs != []
      && w.shift < 7
      && w.ch == HighBits(bs[|bs| - 1], w.shift)
      && r == AscReader(bs[..|bs| - 1], LowBits(bs[|bs| - 1], w.shift), 8 - w.shift)
  }

  lemma AscReadAppend(room: nat, t: seq<Byte>, x: Byte)
    ensures AscRead(room, t + [x]) == AscGet(room, AscRead(room, t), x)
  {
    assert (t + [x])[..|t|] == t;
  }

  lemma NothingInStep(room: nat)
    ensures InStep([], AscWrite([]), AscRead(room, []))
  {
  }

  lemma {:induction false} AscInStep(room: nat, bs: seq<Byte>)
    requires |bs| <= room
    ensures InStep(bs, AscWrite(bs), AscRead(room, AscWrite(bs).out))
    ensures 7 * |AscWrite(bs).out| == 8 * |bs| - AscWrite(bs).shift
  {
    hide AscRead, InStep, AscPut;
    if bs == [] {
      NothingInStep(room);
    } else {
      var init, b := bs[..|bs| - 1], bs[|bs| - 1];
      var w := AscWrite(init);
      AscInStep(room, init);
      AscStep(room, init, w, b);
      assert init + [b] == bs;
    }
  }

  lemma AscStep(room: nat, init: seq<Byte>, w: AscWriter, b: Byte)
    requires |init| < room && w.shift < 7
    requires InStep(init, w, AscRead(room, w.out))
    ensures InStep(init + [b], AscPut(w, b), AscRead(room, AscPut(w, b).out))
    ensures 7 * |AscPut(w, b).out| == 7 * |w.out| + 8 - AscPut(w, b).shift + w.shift
  {
    hide AscRead, AscPut, InStep;
    if w.shift == 0 {
      AscFirst(room, init, w, b);
    } else {
      AscLater(room, init, w, b);
    }
  }

  // The first byte of a group of seven
  lemma AscFirst(room: nat, init: seq<Byte>, w: AscWriter, b: Byte)
    requires |init| < room && w.shift == 0
    requires InStep(init, w, AscRead(room, w.out))
    ensures InStep(init + [b], AscPut(w, b), AscRead(room, AscPut(w, b).out))
    ensures 7 * |AscPut(w, b).out| == 7 * |w.out| + 8 - AscPut(w, b).shift + w.shift
  {
    hide AscRead, Merge, Shl, Septet, PastSeptet, HighBits, LowBits, Seven, Octet, PastOctet;
    var s := Septet(Merge(w.ch, Shl(b as bv16, 0)));
    AscReadAppend(room, w.out, s);
    SeptetOpens(b);
    assert AscGet(room, AscRead(room, w.out), s) == AscReader(init, LowBits(b, 1), 7);
  }

  // One of the other six
  lemma AscLater(room: nat, init: seq<Byte>, w: AscWriter, b: Byte)
    requires |init| < room && 0 < w.shift < 7
    requires InStep(init, w, AscRead(room, w.out))
    ensures InStep(init + [b], AscPut(w, b), AscRead(room, AscPut(w, b).out))
    ensures 7 * |AscPut(w, b).out| == 7 * |w.out| + 8 - AscPut(w, b).shift + w.shift
  {
    hide AscRead, Merge, Shl, Septet, PastSeptet, HighBits, LowBits, Seven, Octet, PastOctet;
    var j := w.shift;
    var ch := Merge(w.ch, Shl(b as bv16, j));
    var s := Septet(ch);
    var r1 := AscGet(room, AscRead(room, w.out), s);
    AscReadAppend(room, w.out, s);
    var prev := init[|init| - 1];
    SeptetCompletes(prev, b, j);
    assert init[..|init| - 1] + [prev] == init;
    assert r1 == AscReader(init, LowBits(b, j + 1), 7 - j);
    if j == 6 {
      var s2 := Septet(PastSeptet(ch));
      AscReadAppend(room, w.out + [s], s2);
      SeptetCloses(b, 7);
      assert AscGet(room, r1, s2) == AscReader(init + [b], 0, 0);
    }
  }

  // ASC repacking: ceil(8n/7) septets, and they decode to exactly the n bytes.
  lemma AscRoundTrip(room: nat, bs: seq<Byte>)
    requires |bs| <= room
    ensures AscRead(room, Septets(bs)).out == bs
    ensures |Septets(bs)| == (8 * |bs| + 6) / 7
  {
    hide AscRead, AscWrite, Merge, Shl, Septet, HighBits, LowBits, Seven, Octet, PastOctet;
    AscInStep(room, bs);
    var w := AscWrite(bs);
    if w.shift > 0 {
      var prev := bs[|bs| - 1];
      SeptetCloses(prev, w.shift);
      AscReadAppend(room, w.out, Septet(w.ch));
      assert bs[..|bs| - 1] + [prev] == bs;
    }
  }

  lemma SeptetIsSmall(ch: bv16)
    ensures Septet(ch) < 0x80
  {
  }

  lemma {:induction false} WrittenAreSeptets(bs: seq<Byte>)
    ensures forall i :: 0 <= i < |AscWrite(bs).out| ==> AscWrite(bs).out[i] < 0x80
  {
    if bs != [] {
      var w, b := AscWrite(bs[..|bs| - 1]), bs[|bs| - 1];
      WrittenAreSeptets(bs[..|bs| - 1]);
      var ch := Merge(w.ch, Shl(b as bv16, w.shift));
      SeptetIsSmall(ch);
      SeptetIsSmall(PastSeptet(ch));
      hide Merge, Septet, PastSeptet, Shl;
    }
  }

  lemma SeptetsAreSmall(bs: seq<Byte>)
    ensures forall i :: 0 <= i < |Septets(bs)| ==> Septets(bs)[i] < 0x80
  {
    WrittenAreSeptets(bs);
    SeptetIsSmall(AscWrite(bs).ch);
    hide Septet;
  }

  // ---------------------------------------------------------------------------
  // UUE text
  // ---------------------------------------------------------------------------

  lemma UueCharsArePlain(o: Options, c: Byte)
    ensures Plain(o, UueEnc(c)) && IsUue(UueEnc(c))
  {
  }

  lemma {:induction false} UueTextIsPlain(o: Options, bs: seq<Byte>, pad: Byte)
    ensures forall i :: 0 <= i < |UueText(bs, pad)| ==> Plain(o, UueText(bs, pad)[i]) && IsUue(UueText(bs, pad)[i])
  {
    forall c { UueCharsArePlain(o, c); }
    hide UueEnc, Plain, IsUue;
    if |bs| >= 3 {
      UueTextIsPlain(o, bs[3..], pad);
    }
  }

  lemma {:induction false} PlainTextAbsorbed(o: Options, s: Receiver, t: seq<Byte>, beyond: seq<Byte>)
    requires Collecting(s) && |s.enc| + |t| <= BUFLEN
    requires forall i :: 0 <= i < |t| ==> Plain(o, t[i])
    ensures Absorbs(o, s, t, t, beyond)
  {
    hide Plain, Absorbs;
    if t == [] {
      NothingAbsorbed(o, s, beyond);
    } else {
      var init, c := t[..|t| - 1], t[|t| - 1];
      assert init + [c] == t;
      PlainTextAbsorbed(o, s, init, beyond);
      PlainAbsorbed(o, s.(enc := s.enc + init), c, beyond);
      AbsorbsConcat(o, s, init, init, [c], [c], beyond);
    }
  }

  lemma UueTriple(a: Byte, b: Byte, c: Byte)
    ensures UueOut0(Uue0(a), Uue1(a, b)) == a
    ensures UueOut1(Uue1(a, b), Uue2(b, c)) == b
    ensures UueOut2(Uue2(b, c), Uue3(c)) == c
  {
  }

  lemma UuePair(a: Byte, b: Byte)
    ensures UueOut0(Uue0(a), Uue1(a, b)) == a
    ensures UueOut1(Uue1(a, b), UueTail(b)) == b
  {
  }

  lemma {:induction false} UueRoundTrip(o: Options, bs: seq<Byte>, pad: Byte)
    ensures UueDecodeFrom(UueText(bs, pad)) == Some(bs)
  {
    var t := UueText(bs, pad);
    UueTextIsPlain(o, bs, pad);
    hide IsUue, Plain, Uue0, Uue1, Uue2, Uue3, UueTail, UueOut0, UueOut1, UueOut2;
    if |bs| >= 3 {
      UueTriple(bs[0], bs[1], bs[2]);
      UueRoundTrip(o, bs[3..], pad);
      assert t[4..] == UueText(bs[3..], pad);
      assert [bs[0], bs[1], bs[2]] + bs[3..] == bs;
    } else if |bs| == 2 {
      UuePair(bs[0], bs[1]);
      assert [bs[0], bs[1]] == bs;
    } else if |bs| == 1 {
      UuePair(bs[0], pad);
      assert [bs[0]] == bs;
    }
  }

  // The decoder's size check admits exactly the blocks of up to 1545 bytes.
  lemma UueLimit(n: nat)
    ensures UueLen(n) % 4 != 1
    ensures UueLen(n) <= MAXDATALEN <==> n <= 1545
  {
  }

  // ---------------------------------------------------------------------------
  // Packets
  // ---------------------------------------------------------------------------

  lemma FormatPasses(o: Options, f: Byte)
    requires ValidFormat(f) || f == PKTEND
    ensures Strip(o, f) == f && !Discarded(o, f) && f != DLE
    ensures ValidFormat(f) ==> f != PKTEND
  {
  }

  lemma PacketOpens(o: Options, s: Receiver, f: Byte, beyond: seq<Byte>)
    requires s.idle < 4 && ValidFormat(f)
    ensures ReceiveAll(o, s, [DLE, f], beyond) == Taken(Receiver(0, true, f, []), Pending, [])
  {
    FormatPasses(o, f);
    DlePasses(o);
    hide Strip, Discarded, Judge, Decode, ReceiveAll;
    var t := s.(idle := s.idle + 1);
    assert Receive(o, s, DLE, beyond) == (t, Pending);
    assert Receive(o, t, f, beyond) == (Receiver(0, true, f, []), Pending);
    ReceiveTwo(o, s, DLE, f, beyond);
  }

  // The event a complete packet text gives rise to.
  function Closing(o: Options, f: Byte, enc: seq<Byte>, beyond: seq<Byte>): (e: Event)
    ensures e != Pending
  {
    match Decode(MAXDATALEN, f, enc, beyond)
    case None => Undecodable
    case Some(b) => Judge(o, f, b)
  }

  lemma PacketCloses(o: Options, s: Receiver, beyond: seq<Byte>)
    requires Collecting(s)
    ensures ReceiveAll(o, s, [DLE, PKTEND], beyond)
            == Taken(Receiver(0, false, s.format, []), Closing(o, s.format, s.enc, beyond), [])
  {
    FormatPasses(o, PKTEND);
    DlePasses(o);
    hide Strip, Discarded, Judge, Decode, ReceiveAll;
    var t := s.(idle := 1);
    assert Receive(o, s, DLE, beyond) == (t, Pending);
    assert Receive(o, t, PKTEND, beyond) == (Receiver(0, false, s.format, []), Closing(o, s.format, s.enc, beyond));
    ReceiveTwo(o, s, DLE, PKTEND, beyond);
  }

  // The text of a block as the receiver stores it.
  function Stored(f: Byte, b: seq<Byte>, pad: Byte): seq<Byte> {
    if f == BINPKT then b else if f == HEXPKT then HexStored(b) else if f == ASCPKT then Septets(b) else UueText(b, pad)
  }

  lemma BodyArrives(o: Options, last: LastChar, f: Byte, b: seq<Byte>, pad: Byte, beyond: seq<Byte>)
    requires ValidFormat(f) && |b| <= MAXBLKLEN + 9
    requires f == BINPKT ==> !o.highbit
    ensures Absorbs(o, Receiver(0, true, f, []), BodyText(o, last, f, b, pad), Stored(f, b, pad), beyond)
  {
    hide Absorbs, BinText, HexText, HexStored, Septets, UueText, Plain, Collecting;
    var s := Receiver(0, true, f, []);
    assert Collecting(s) by { ReadyCollects(s); }
    if f == BINPKT {
      BinTextAbsorbed(o, s, last, b, beyond);
    } else if f == HEXPKT {
      HexTextAbsorbed(o, s, b, beyond);
    } else if f == ASCPKT {
      AscRoundTrip(|b|, b);
      SeptetsAreSmall(b);
      BinTextAbsorbed(o, s, last, Septets(b), beyond);
    } else {
      UueTextIsPlain(o, b, pad);
      PlainTextAbsorbed(o, s, UueText(b, pad), beyond);
    }
  }

  lemma ReadyCollects(s: Receiver)
    requires s.receiving && s.idle == 0
    ensures Collecting(s)
  {
  }

  // A block is lost on the link exactly when it is UUE and longer than 1545 bytes.
  predicate TooLong(f: Byte, b: seq<Byte>) {
    f == UUEPKT && |b| > 1545
  }

  lemma StoredDecodes(o: Options, f: Byte, b: seq<Byte>, pad: Byte, beyond: seq<Byte>)
    requires ValidFormat(f) && |b| <= MAXDATALEN
    ensures Decode(MAXDATALEN, f, Stored(f, b, pad), beyond) == if TooLong(f, b) then None else Some(b)
  {
    hide HexDecode, HexStored, AscRead, Septets, UueText, UueDecodeFrom;
    if f == HEXPKT {
      HexRoundTrip(MAXDATALEN, b, beyond);
    } else if f == ASCPKT {
      AscRoundTrip(MAXDATALEN, b);
    } else if f == UUEPKT {
      UueRoundTrip(o, b, pad);
      UueLimit(|b|);
    }
  }

  lemma BodyIsGood(o: Options, kind: Byte, payload: seq<Byte>)
    requires KnownKind(kind)
    ensures Judge(o, Format(o, kind), Body(o, kind, payload)) == Packet(kind, payload)
  {
    hide Crc32, Crc16, Trailer32, Trailer16, KnownKind, Format;
    var m := payload + [kind];
    var f := Format(o, kind);
    var b := Body(o, kind, payload);
    if LongCheck(o, f) {
      Residue32(m);
    } else {
      Residue16(m);
    }
    assert b[|payload|] == kind && b[..|payload|] == payload;
  }

  lemma FrameArrives(o: Options, s: Receiver, f: Byte, text: seq<Byte>, enc: seq<Byte>, tail: seq<Byte>,
                     beyond: seq<Byte>)
    requires s.idle < 4 && ValidFormat(f)
    requires Absorbs(o, Receiver(0, true, f, []), text, enc, beyond)
    ensures ReceiveAll(o, s, [DLE, f] + text + [DLE, PKTEND] + tail, beyond)
            == Taken(Receiver(0, false, f, []), Closing(o, f, enc, beyond), tail)
  {
    hide ReceiveAll, Closing;
    var s0 := Receiver(0, true, f, []);
    var s1 := s0.(enc := enc);
    var close := [DLE, PKTEND] + tail;
    PacketOpens(o, s, f, beyond);
    ReceiveConcat(o, s, [DLE, f], text + close, beyond);
    assert [] + enc == enc;
    ReceiveConcat(o, s0, text, close, beyond);
    PacketCloses(o, s1, beyond);
    ReceiveStops(o, s1, [DLE, PKTEND], tail, beyond);
    assert [DLE, f] + text + [DLE, PKTEND] + tail == [DLE, f] + (text + close);
    assert [] + tail == tail;
  }

  // The main result.  From every receiver state with fewer than four pending DLEs, also
  // in the middle of junk or of a packet cut short, the text of a packet produces one
  // event: that packet, unless its block exceeds the UUE decoder's limit.
  lemma LinkTransparent(o: Options, s: Receiver, last: LastChar, kind: Byte, payload: seq<Byte>, pad: Byte,
                        rest: seq<Byte>, beyond: seq<Byte>)
    requires s.idle < 4 && KnownKind(kind) && |payload| <= MAXBLKLEN + 4
    ensures var f := Format(o, kind);
            ReceiveAll(o, s, PacketText(o, last, kind, payload, pad) + rest, beyond)
            == Taken(Receiver(0, false, f, []),
                     if TooLong(f, Body(o, kind, payload)) then Undecodable else Packet(kind, payload),
                     LineEnd(f, kind) + rest)
  {
    hide Crc32, Crc16, CheckBytes, Body, KnownKind, BodyText, Stored, Judge, Decode, ReceiveAll, Format, TooLong,
         LineEnd;
    var f := Format(o, kind);
    var b := Body(o, kind, payload);
    var text := BodyText(o, last, f, b, pad);
    var tail := LineEnd(f, kind) + rest;
    FormatOfBin(o, kind);
    BodyArrives(o, last, f, b, pad, beyond);
    FrameArrives(o, s, f, text, Stored(f, b, pad), tail, beyond);
    StoredDecodes(o, f, b, pad, beyond);
    BodyIsGood(o, kind, payload);
    assert PacketText(o, last, kind, payload, pad) + rest == [DLE, f] + text + [DLE, PKTEND] + tail;
  }

  lemma FormatOfBin(o: Options, kind: Byte)
    ensures ValidFormat(Format(o, kind))
    ensures Format(o, kind) == BINPKT ==> !o.highbit
  {
  }

  // An event ends the call: later input is left alone.
  lemma {:induction false} ReceiveStops(o: Options, s: Receiver, a: seq<Byte>, b: seq<Byte>, beyond: seq<Byte>)
    requires ReceiveAll(o, s, a, beyond).event != Pending
    ensures ReceiveAll(o, s, a + b, beyond)
            == ReceiveAll(o, s, a, beyond).(rest := ReceiveAll(o, s, a, beyond).rest + b)
    decreases |a|
  {
    hide Receive;
    var (t, e) := Receive(o, s, a[0], beyond);
    assert (a + b)[0] == a[0] && (a + b)[1..] == a[1..] + b;
    if e == Pending {
      ReceiveStops(o, t, a[1..], b, beyond);
    }
  }

  lemma LineEndIgnored(o: Options, s: Receiver, f: Byte, kind: Byte, beyond: seq<Byte>)
    requires s.idle == 0 && !s.receiving
    ensures ReceiveAll(o, s, LineEnd(f, kind), beyond) == Taken(s, Pending, [])
  {
    LineEndsAreNotDle(o);
    hide Strip, Discarded, Judge, Decode, ReceiveAll;
    assert Receive(o, s, CR, beyond) == (s, Pending) && Receive(o, s, LF, beyond) == (s, Pending);
    if LineEnd(f, kind) == [] {
      EmptyInput(o, s, beyond);
    } else {
      ReceiveTwo(o, s, CR, LF, beyond);
    }
  }

  lemma EmptyInput(o: Options, s: Receiver, beyond: seq<Byte>)
    ensures ReceiveAll(o, s, [], beyond) == Taken(s, Pending, [])
  {
  }

  lemma LineEndsAreNotDle(o: Options)
    ensures Strip(o, CR) != DLE && Strip(o, LF) != DLE
  {
  }

  // What the receiver of a stream is to report.
  function Expected(o: Options, ms: seq<Outgoing>): seq<Event> {
    if ms == [] then []
    else
      [if TooLong(Format(o, ms[0].kind), Body(o, ms[0].kind, ms[0].payload)) then Undecodable
       else Packet(ms[0].kind, ms[0].payload)]
      + Expected(o, ms[1..])
  }

  predicate Sendable(m: Outgoing) {
    KnownKind(m.kind) && |m.payload| <= MAXBLKLEN + 4
  }

  lemma SkipLineEnd(o: Options, s: Receiver, f: Byte, kind: Byte, rest: seq<Byte>, beyond: seq<Byte>)
    requires s.idle == 0 && !s.receiving
    ensures Events(o, s, LineEnd(f, kind) + rest, beyond) == Events(o, s, rest, beyond)
  {
    hide LineEnd, ReceiveAll;
    LineEndIgnored(o, s, f, kind, beyond);
    ReceiveConcat(o, s, LineEnd(f, kind), rest, beyond);
  }

  // A whole run of packets: one event per packet, in order, nothing else.
  lemma {:induction false} StreamTransparent(o: Options, s: Receiver, ms: seq<Outgoing>, beyond: seq<Byte>)
    requires s.idle < 4
    requires forall i :: 0 <= i < |ms| ==> Sendable(ms[i])
    ensures Events(o, s, Stream(o, ms), beyond) == Expected(o, ms)
    decreases |ms|
  {
    hide PacketText, Body, Format, TooLong, LineEnd, ReceiveAll;
    if ms == [] {
      EmptyInput(o, s, beyond);
    } else {
      var m := ms[0];
      assert Sendable(m);
      var f := Format(o, m.kind);
      var more := Stream(o, ms[1..]);
      var s1 := Receiver(0, false, f, []);
      LinkTransparent(o, s, m.last, m.kind, m.payload, m.pad, more, beyond);
      SkipLineEnd(o, s1, f, m.kind, more, beyond);
      StreamTransparent(o, s1, ms[1..], beyond);
    }
  }
}
