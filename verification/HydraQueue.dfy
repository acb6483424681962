// The output side of s_hydrainfo (source/bforce/prot_hydra.c): the queue of encoded
// packets and the buffer the tty drains, possibly a few bytes at a time.
module HydraQueue {
  import opened Crc
  import opened Files
  import opened HydraCodec
  import opened HydraTransparency
  import opened HydraLink

  datatype QueuedPacket = QueuedPacket(sent: bool, kind: Byte, data: seq<Byte>)

  // The packets still to be copied into the buffer.
  function Unsent(q: seq<QueuedPacket>): seq<Byte> {
    if q == [] then [] else (if q[0].sent then [] else q[0].data) + Unsent(q[1..])
  }

  // ---------------------------------------------------------------------------
  // What goes over the line: packets, and the "hydra" that HTX_START puts on the tty past the
  // buffer, wherever that has got to
  // ---------------------------------------------------------------------------

  datatype Sign = Sign(c: Byte, hail: bool)

  const HAIL: seq<Byte> := [0x68, 0x79, 0x64, 0x72, 0x61, CR]

  function Signs(bs: seq<Byte>, hail: bool): (t: seq<Sign>)
    ensures |t| == |bs|
  {
    seq(|bs|, k requires 0 <= k < |bs| => Sign(bs[k], hail))
  }

  // The bytes on the line
  function Line(t: seq<Sign>): (bs: seq<Byte>)
    ensures |bs| == |t|
  {
    seq(|t|, k requires 0 <= k < |t| => t[k].c)
  }

  // Those of packets
  function Text(t: seq<Sign>): (bs: seq<Byte>)
    ensures |bs| <= |t|
  {
    if t == [] then []
    else
      var n := |t| - 1;
      Text(t[..n]) + if t[n].hail then [] else [t[n].c]
  }

  // Every hail starts with its first letter, and before more than `bound` bytes of packets.
  predicate HailsWithin(t: seq<Sign>, bound: nat) {
    forall k :: 0 <= k < |t| ==> HailAt(t, k, bound)
  }

  predicate HailAt(t: seq<Sign>, k: nat, bound: nat)
    requires k < |t|
  {
    t[k].hail ==>
      t[k].c in HAIL && (k == 0 || !t[k - 1].hail ==> t[k].c == HAIL[0]) && |Text(t[..k])| <= bound
  }

  lemma {:induction false} TextConcat(a: seq<Sign>, b: seq<Sign>)
    ensures Text(a + b) == Text(a) + Text(b)
  {
    if b == [] {
      assert a + b == a;
    } else {
      var n := |b| - 1;
      assert (a + b)[..|a| + n] == a + b[..n];
      TextConcat(a, b[..n]);
    }
  }

  lemma {:induction false} TextOfSigns(bs: seq<Byte>, hail: bool)
    ensures Text(Signs(bs, hail)) == if hail then [] else bs
  {
    if bs != [] {
      var n := |bs| - 1;
      assert Signs(bs, hail)[..n] == Signs(bs[..n], hail);
      TextOfSigns(bs[..n], hail);
      assert bs[..n] + [bs[n]] == bs;
    }
  }

  predicate NoHails(t: seq<Sign>) {
    forall j :: 0 <= j < |t| ==> !t[j].hail
  }

  lemma {:induction false} NoHailsText(t: seq<Sign>)
    requires NoHails(t)
    ensures Text(t) == Line(t)
  {
    if t != [] {
      var n := |t| - 1;
      NoHailsText(t[..n]);
      assert Line(t) == Line(t[..n]) + [t[n].c];
    }
  }

  lemma HailsGrow(t: seq<Sign>, bs: seq<Byte>, bound: nat)
    requires HailsWithin(t, bound)
    ensures HailsWithin(t + Signs(bs, false), bound)
  {
    hide Text;
    var u := t + Signs(bs, false);
    forall k | 0 <= k < |u| ensures HailAt(u, k, bound) {
      if k < |t| {
        assert HailAt(t, k, bound);
        assert u[..k] == t[..k];
      }
    }
  }

  lemma HailsBegin(t: seq<Sign>, n: nat, bound: nat, later: nat)
    requires HailsWithin(t, bound) && bound <= later && |Text(t)| <= later && n <= |HAIL|
    ensures HailsWithin(t + Signs(HAIL[..n], true), later)
  {
    hide Text;
    var u := t + Signs(HAIL[..n], true);
    forall k | 0 <= k < |u| ensures HailAt(u, k, later) {
      if k < |t| {
        assert HailAt(t, k, bound);
        assert u[..k] == t[..k];
      } else {
        var j := k - |t|;
        assert u[..k] == t + Signs(HAIL[..j], true);
        TextConcat(t, Signs(HAIL[..j], true));
        TextOfSigns(HAIL[..j], true);
        assert Text(t) + [] == Text(t);
      }
    }
  }

  class HydraOutput {
    const link: HydraInfo
    const obuf: array<Byte>
    const oencbuf: array<Byte>
    var oencptr: nat               // index of the unsent encoded data
    var oencpos: nat               // number of encoded bytes still to be sent
    var pktqueue: seq<QueuedPacket>

    ghost var tape: seq<Sign>      // everything the tty has accepted
    ghost var texts: seq<seq<Byte>>  // the text of every packet queued or filled in, in order
    ghost var hailed: nat          // how many of them there were at the last hail

    ghost predicate Valid()
      reads this, link, oencbuf
    {
      && obuf.Length == MAXDATALEN && oencbuf.Length == BUFLEN && obuf != oencbuf
      && obuf != link.ibuf && obuf != link.iencbuf && oencbuf != link.ibuf && oencbuf != link.iencbuf
      && oencptr + oencpos <= BUFLEN
      && (oencpos == 0 ==> oencptr == 0)
      && (forall i :: 0 <= i < |pktqueue| ==> |pktqueue[i].data| <= BUFLEN)
      && Text(tape) + Waiting() == Concat(texts)
      && hailed <= |texts| && HailsWithin(tape, |Concat(texts[..hailed])|)
    }

    // Bytes accepted from the protocol but not yet by the tty.
    ghost function Waiting(): seq<Byte>
      reads this, oencbuf
      requires oencptr + oencpos <= oencbuf.Length
    {
      oencbuf[oencptr..oencptr + oencpos] + Unsent(pktqueue)
    }

    constructor (hi: HydraInfo)
      ensures Valid() && link == hi && tape == [] && texts == [] && hailed == 0 && pktqueue == [] && oencpos == 0
      ensures fresh(obuf) && fresh(oencbuf)
    {
      link := hi;
      obuf := new Byte[MAXDATALEN];
      oencbuf := new Byte[BUFLEN];
      oencptr, oencpos, pktqueue := 0, 0, [];
      tape, texts, hailed := [], [], 0;
    }

    // PUTSTR in HTX_START: the tty takes n bytes of it before its timeout.
    method Hail(n: nat)
      requires Valid()
      modifies this`tape, this`hailed
      ensures Valid() && hailed == |texts|
      ensures tape == old(tape) + Signs(HAIL[..Min(n, |HAIL|)], true)
    {
      hide Concat, Unsent, Text, HailsWithin;
      var k := Min(n, |HAIL|);
      ConcatGrows(texts, hailed);
      assert texts[..|texts|] == texts;
      HailsBegin(tape, k, |Concat(texts[..hailed])|, |Concat(texts)|);
      TextConcat(tape, Signs(HAIL[..k], true));
      TextOfSigns(HAIL[..k], true);
      assert Text(tape) + [] == Text(tape);
      tape, hailed := tape + Signs(HAIL[..k], true), |texts|;
    }

    // hydra_queuepkt: the payload is obuf[..szdata].  A packet without data gets a
    // buffer of only 24 bytes; PutPkt's precondition shows that every text fits.
    method QueuePkt(szdata: nat, kind: Byte) returns (ghost pad: Byte)
      requires Valid() && szdata <= MAXBLKLEN
      modifies this`pktqueue, this`texts, obuf, link`lastchar
      ensures Valid()
      ensures texts
              == old(texts)
                  + [OutgoingText(link.txoptions, Outgoing(kind, old(obuf[..szdata]), old(link.lastchar), pad))]
      ensures |pktqueue| == old(|pktqueue|) + 1
    {
      hide PacketText, LastAfterPacket, Unsent, Concat, Text, HailsWithin;
      var buffer := new Byte[if szdata > 0 then BUFLEN else OVERHEAD * 3];
      var end;
      end, pad := link.PutPkt(buffer, obuf, szdata, kind);
      var p := QueuedPacket(false, kind, buffer[..end]);
      QueuedBehind(Text(tape), oencbuf[oencptr..oencptr + oencpos], pktqueue, p, texts);
      pktqueue := pktqueue + [p];
      assert (texts + [p.data])[..hailed] == texts[..hailed];
      texts := texts + [p.data];
    }

    // The DATA branch of hydra_batch encodes straight into the buffer, which is empty.
    method FillData(n: nat) returns (ghost pad: Byte)
      requires Valid() && n <= MAXBLKLEN && oencpos == 0 && pktqueue == []
      modifies this`oencpos, this`texts, obuf, oencbuf, link`lastchar
      ensures Valid() && 0 < oencpos
      ensures texts
              == old(texts)
                  + [OutgoingText(link.txoptions, Outgoing(PKT_DATA, old(obuf[..n + 4]), old(link.lastchar), pad))]
    {
      hide PacketText, Concat, Text, HailsWithin;
      var end;
      end, pad := link.PutPkt(oencbuf, obuf, n + 4, PKT_DATA);
      ConcatAppend(texts, oencbuf[..end]);
      assert (texts + [oencbuf[..end]])[..hailed] == texts[..hailed];
      oencpos := end;
      texts := texts + [oencbuf[..end]];
    }

    // hydra_buffer_packet
    method BufferPacket(data: seq<Byte>) returns (full: bool)
      requires oencptr + oencpos <= oencbuf.Length == BUFLEN && oencptr == 0
      modifies this`oencpos, oencbuf
      ensures full <==> old(oencpos) + |data| > BUFLEN
      ensures full ==> oencpos == old(oencpos) && oencbuf[..oencpos] == old(oencbuf[..oencpos])
      ensures !full ==> oencpos == old(oencpos) + |data| && oencbuf[..oencpos] == old(oencbuf[..oencpos]) + data
    {
      if oencpos + |data| > BUFLEN {
        return true;
      }
      ghost var done := oencbuf[..oencpos];
      for k := 0 to |data|
        invariant oencpos == old(oencpos)
        invariant oencbuf[..oencpos + k] == done + data[..k]
      {
        oencbuf[oencpos + k] := data[k];
        assert data[..k + 1] == data[..k] + [data[k]];
        assert oencbuf[..oencpos + k + 1] == oencbuf[..oencpos + k] + [data[k]];
      }
      assert data[..|data|] == data;
      oencpos := oencpos + |data|;
      full := false;
    }

    // The queue half of hydra_send: an empty buffer takes packets while they fit, and
    // the queue is freed once every packet has been taken.
    method BufferPackets()
      requires Valid() && oencpos == 0
      modifies this`oencpos, this`pktqueue, oencbuf
      ensures Valid() && oencptr == 0 && Waiting() == old(Waiting())
      ensures oencpos == 0 ==> Waiting() == []
    {
      hide Concat, Unsent, Text, HailsWithin;
      var i := 0;
      ghost var waiting := Waiting();
      assert waiting == oencbuf[..0] + Unsent(pktqueue);
      while i < |pktqueue|
        invariant i <= |pktqueue| && oencptr == 0 && oencpos <= BUFLEN
        invariant forall k :: 0 <= k < |pktqueue| ==> |pktqueue[k].data| <= BUFLEN
        invariant forall k :: 0 <= k < i ==> pktqueue[k].sent
        invariant oencbuf[..oencpos] + Unsent(pktqueue) == waiting
      {
        var p := pktqueue[i];
        if !p.sent {
          var full := BufferPacket(p.data);
          if full {
            break;
          }
          UnsentTake(pktqueue, i);
          pktqueue := pktqueue[i := p.(sent := true)];
        }
        i := i + 1;
      }
      if i >= |pktqueue| {
        UnsentNone(pktqueue);
        pktqueue := [];
        UnsentNone(pktqueue);
      }
      assert oencbuf[0..oencpos] == oencbuf[..oencpos];
    }

    // hydra_send: `room` is what tty_write accepts, at most what it is offered; a
    // non-positive value is its failure.
    method Send(room: int) returns (ok: bool, ghost written: seq<Byte>)
      requires Valid()
      modifies this`oencptr, this`oencpos, this`pktqueue, this`tape, oencbuf
      ensures Valid() && old(Waiting()) == written + Waiting() && tape == old(tape) + Signs(written, false)
      ensures |written| <= if room > 0 then room else 0
      ensures ok && old(Waiting()) != [] ==> written != []
      ensures !ok ==> room <= 0
    {
      hide Concat, Unsent, Text, HailsWithin;
      if oencpos == 0 {
        UnsentNone([]);
        if pktqueue != [] {
          BufferPackets();
        }
      }
      ok, written := true, [];
      assert tape + Signs([], false) == tape && [] + Waiting() == Waiting();
      if oencpos > 0 {
        ok, written := WriteBuffer(room);
      }
    }

    // The tty_write half of hydra_send.
    method WriteBuffer(room: int) returns (ok: bool, ghost written: seq<Byte>)
      requires Valid() && oencpos > 0
      modifies this`oencptr, this`oencpos, this`tape
      ensures Valid() && old(Waiting()) == written + Waiting() && tape == old(tape) + Signs(written, false)
      ensures ok <==> room > 0
      ensures written == if ok then old(oencbuf[oencptr..oencptr + if room < oencpos then room else oencpos]) else []
    {
      hide Concat, Unsent, Text, HailsWithin;
      ok, written := room > 0, [];
      assert tape + Signs([], false) == tape && [] + Waiting() == Waiting();
      if ok {
        written := Took(if room < oencpos then room else oencpos);
      }
    }

    // The tty has accepted n bytes.
    method Took(n: nat) returns (ghost written: seq<Byte>)
      requires Valid() && 0 < n <= oencpos
      modifies this`oencptr, this`oencpos, this`tape
      ensures Valid() && old(Waiting()) == written + Waiting() && tape == old(tape) + Signs(written, false)
      ensures written == old(oencbuf[oencptr..oencptr + n])
    {
      hide Concat, Unsent, Text, HailsWithin, Signs;
      written := oencbuf[oencptr..oencptr + n];
      Written(written);
      ghost var rest := oencbuf[oencptr + n..oencptr + oencpos];
      if n == oencpos {
        oencptr, oencpos := 0, 0;
      } else {
        oencptr, oencpos := oencptr + n, oencpos - n;
      }
      assert oencbuf[oencptr..oencptr + oencpos] == rest;
      tape := tape + Signs(written, false);
    }

    // What moves from the buffer onto the line
    lemma Written(bs: seq<Byte>)
      requires Valid() && bs <= oencbuf[oencptr..oencptr + oencpos]
      ensures Waiting() == bs + (oencbuf[oencptr + |bs|..oencptr + oencpos] + Unsent(pktqueue))
      ensures Text(tape + Signs(bs, false)) + (oencbuf[oencptr + |bs|..oencptr + oencpos] + Unsent(pktqueue))
              == Concat(texts)
      ensures HailsWithin(tape + Signs(bs, false), |Concat(texts[..hailed])|)
    {
      hide Concat, Unsent, Text, HailsWithin;
      TextConcat(tape, Signs(bs, false));
      TextOfSigns(bs, false);
      HailsGrow(tape, bs, |Concat(texts[..hailed])|);
      var rest := oencbuf[oencptr + |bs|..oencptr + oencpos] + Unsent(pktqueue);
      assert oencbuf[oencptr..oencptr + oencpos] == bs + oencbuf[oencptr + |bs|..oencptr + oencpos];
      assert Text(tape) + (bs + rest) == Text(tape) + bs + rest;
    }
  }

  lemma QueuedBehind(done: seq<Byte>, buffered: seq<Byte>, q: seq<QueuedPacket>, p: QueuedPacket, texts: seq<seq<Byte>>)
    requires done + (buffered + Unsent(q)) == Concat(texts) && !p.sent
    ensures done + (buffered + Unsent(q + [p])) == Concat(texts + [p.data])
  {
    hide Unsent, Concat;
    UnsentAppend(q, p);
    ConcatAppend(texts, p.data);
    assert done + (buffered + (Unsent(q) + p.data)) == done + (buffered + Unsent(q)) + p.data;
  }

  lemma {:induction false} UnsentTake(q: seq<QueuedPacket>, i: nat)
    requires i < |q| && !q[i].sent && forall k :: 0 <= k < i ==> q[k].sent
    ensures Unsent(q) == q[i].data + Unsent(q[i := q[i].(sent := true)])
  {
    var r := q[i := q[i].(sent := true)];
    if i == 0 {
      assert r[1..] == q[1..];
    } else {
      assert r[1..] == q[1..][i - 1 := q[1..][i - 1].(sent := true)];
      UnsentTake(q[1..], i - 1);
    }
  }

  lemma {:induction false} UnsentNone(q: seq<QueuedPacket>)
    requires forall k :: 0 <= k < |q| ==> q[k].sent
    ensures Unsent(q) == []
  {
    if q != [] {
      UnsentNone(q[1..]);
    }
  }

  function Concat(texts: seq<seq<Byte>>): seq<Byte> {
    if texts == [] then [] else Concat(texts[..|texts| - 1]) + texts[|texts| - 1]
  }

  lemma {:induction false} ConcatGrows(texts: seq<seq<Byte>>, k: nat)
    requires k <= |texts|
    ensures Concat(texts[..k]) <= Concat(texts)
    decreases |texts|
  {
    if k < |texts| {
      var n := |texts| - 1;
      assert texts[..n][..k] == texts[..k];
      ConcatGrows(texts[..n], k);
    } else {
      assert texts[..k] == texts;
    }
  }

  lemma ConcatAppend(texts: seq<seq<Byte>>, t: seq<Byte>)
    ensures Concat(texts + [t]) == Concat(texts) + t
  {
    assert (texts + [t])[..|texts|] == texts;
  }

  lemma {:induction false} UnsentAppend(q: seq<QueuedPacket>, p: QueuedPacket)
    ensures Unsent(q + [p]) == Unsent(q) + if p.sent then [] else p.data
  {
    if q == [] {
      assert q + [p] == [p];
    } else {
      assert (q + [p])[1..] == q[1..] + [p];
      UnsentAppend(q[1..], p);
    }
  }

  // Text i is the text of message i.
  predicate Renders(o: Options, texts: seq<seq<Byte>>, ms: seq<Outgoing>) {
    |texts| == |ms| && forall i :: 0 <= i < |ms| ==> texts[i] == OutgoingText(o, ms[i])
  }

  lemma {:induction false} ConcatIsStream(o: Options, texts: seq<seq<Byte>>, ms: seq<Outgoing>)
    requires Renders(o, texts, ms)
    ensures Concat(texts) == Stream(o, ms)
  {
    hide OutgoingText;
    if ms != [] {
      var n := |ms| - 1;
      ConcatIsStream(o, texts[..n], ms[..n]);
      StreamAppend(o, ms[..n], ms[n]);
      assert ms[..n] + [ms[n]] == ms;
    }
  }

  lemma {:induction false} StreamAppend(o: Options, ms: seq<Outgoing>, m: Outgoing)
    ensures Stream(o, ms + [m]) == Stream(o, ms) + OutgoingText(o, m)
  {
    hide OutgoingText;
    if ms == [] {
      assert ms + [m] == [m];
    } else {
      assert (ms + [m])[1..] == ms[1..] + [m];
      StreamAppend(o, ms[1..], m);
    }
  }

  // End to end: whatever the partial writes, a drained output side past which nothing has been
  // put has written a text that the receiver takes apart into exactly the packets handed over,
  // in order.
  lemma DrainedIsDelivered(out: HydraOutput, ms: seq<Outgoing>, s: Receiver, beyond: seq<Byte>)
    requires out.Valid() && out.oencpos == 0 && out.pktqueue == [] && NoHails(out.tape)
    requires Renders(out.link.txoptions, out.texts, ms)
    requires s.idle < 4 && forall i :: 0 <= i < |ms| ==> Sendable(ms[i])
    ensures Events(out.link.txoptions, s, Line(out.tape), beyond) == Expected(out.link.txoptions, ms)
  {
    hide Events, Expected, Concat, Renders, Text, HailsWithin;
    NoHailsText(out.tape);
    assert out.Waiting() == [];
    assert Text(out.tape) + [] == Text(out.tape);
    ConcatIsStream(out.link.txoptions, out.texts, ms);
    StreamTransparent(out.link.txoptions, s, ms, beyond);
  }
}
