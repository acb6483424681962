// What a Hydra station hears over a line that delivers the bytes the other one has written:
// first the greeting, and then every packet, once and in order.
module HydraDelivery {
  import opened Wrappers
  import opened Crc
  import opened Files
  import opened HydraSession
  import opened HydraPackets
  import opened HydraQueue
  import opened HydraTurn
  import opened HydraGreeting
  import Link = HydraCodec
  import Transparent = HydraTransparency
  import Negotiation = HydraNegotiation
  import HydraLink

  // ---------------------------------------------------------------------------
  // The receiver automaton and prefixes of its input
  // ---------------------------------------------------------------------------

  lemma {:induction false} RestIsSuffix(o: Link.Options, s: Link.Receiver, input: seq<Byte>, beyond: seq<Byte>)
    ensures var t := Link.ReceiveAll(o, s, input, beyond);
            |t.rest| <= |input| && t.rest == input[|input| - |t.rest|..] && (t.event == Link.Pending ==> t.rest == [])
    decreases |input|
  {
    hide Link.Receive;
    if input != [] {
      var (t, e) := Link.Receive(o, s, input[0], beyond);
      if e == Link.Pending {
        RestIsSuffix(o, t, input[1..], beyond);
      }
    }
  }

  // Without an event nobody has looked behind the packet.
  lemma {:induction false} PendingForAll(o: Link.Options, s: Link.Receiver, input: seq<Byte>, b: seq<Byte>,
                                         c: seq<Byte>)
    requires Link.ReceiveAll(o, s, input, b).event == Link.Pending
    ensures Link.ReceiveAll(o, s, input, c) == Link.ReceiveAll(o, s, input, b)
    decreases |input|
  {
    hide Link.Receive;
    if input != [] {
      var (t, e) := Link.Receive(o, s, input[0], b);
      HydraLink.PendingAnyway(o, s, input[0], b);
      PendingForAll(o, t, input[1..], b, c);
    }
  }

  // ---------------------------------------------------------------------------
  // One packet
  // ---------------------------------------------------------------------------

  function LineEndOf(o: Link.Options, p: Packet): seq<Byte> {
    Link.LineEnd(Link.Format(o, Kind(p)), Kind(p))
  }

  // The text of packet p is heard as p, and leaves its line end.
  lemma TextHeard(text: seq<Byte>, o: Link.Options, p: Packet, x: Extra, mine: Link.Options, s: Link.Receiver,
                  rest: seq<Byte>, beyond: seq<Byte>)
    requires Carries(text, o, p, x) && Portable(p) && GoodExtra(x) && s.idle < 4 && !mine.canuue
    requires mine == o || Negotiation.InHex(p)
    ensures Link.ReceiveAll(mine, s, text + rest, beyond)
            == Link.Taken(Link.Receiver(0, false, Link.Format(mine, Kind(p)), []),
                          Link.Packet(Kind(p), Payload(p, x)), LineEndOf(mine, p) + rest)
  {
    hide Payload, Parse, Portable, Link.ReceiveAll, Link.Format, Link.Body, Transparent.TooLong, Link.PacketText,
         GoodExtra, Link.LineEnd;
    var last, pad :| text == Link.OutgoingText(o, Link.Outgoing(Kind(p), Payload(p, x), last, pad));
    var m := Link.Outgoing(Kind(p), Payload(p, x), last, pad);
    if mine != o {
      HexTextIsFixed(o, p, x, m);
    }
    assert text == Link.OutgoingText(mine, m);
    PayloadRoundTrip(p, x);
    KindKnown(p);
    Transparent.LinkTransparent(mine, s, last, Kind(p), Payload(p, x), pad, rest, beyond);
    NeverTooLong(mine, Kind(p), Link.Body(mine, Kind(p), Payload(p, x)));
  }

  lemma KindKnown(p: Packet)
    ensures Link.KnownKind(Kind(p))
  {
  }

  lemma NeverTooLong(o: Link.Options, kind: Byte, b: seq<Byte>)
    requires !o.canuue
    ensures !Transparent.TooLong(Link.Format(o, kind), b)
  {
  }

  // Behind the line end of the packet before it
  lemma NextTextHeard(end: seq<Byte>, text: seq<Byte>, o: Link.Options, p: Packet, x: Extra, mine: Link.Options,
                      s: Link.Receiver, rest: seq<Byte>, beyond: seq<Byte>)
    requires Carries(text, o, p, x) && Portable(p) && GoodExtra(x) && s.idle == 0 && !mine.canuue
    requires mine == o || Negotiation.InHex(p)
    requires EndOk(end, s)
    ensures Link.ReceiveAll(mine, s, end + text + rest, beyond)
            == Link.Taken(Link.Receiver(0, false, Link.Format(mine, Kind(p)), []),
                          Link.Packet(Kind(p), Payload(p, x)), LineEndOf(mine, p) + rest)
  {
    hide Carries, Payload, Portable, Link.ReceiveAll, Link.Format, GoodExtra, Link.LineEnd;
    TextHeard(text, o, p, x, mine, s, rest, beyond);
    EndIgnored(end, mine, s, beyond);
    Transparent.ReceiveConcat(mine, s, end, text + rest, beyond);
    assert end + text + rest == end + (text + rest);
  }

  predicate EndOk(end: seq<Byte>, s: Link.Receiver) {
    end == [] || (end == [Link.CR, Link.LF] && !s.receiving)
  }

  lemma EndIgnored(end: seq<Byte>, o: Link.Options, s: Link.Receiver, beyond: seq<Byte>)
    requires EndOk(end, s) && s.idle == 0
    ensures Link.ReceiveAll(o, s, end, beyond) == Link.Taken(s, Link.Pending, [])
  {
    hide Link.ReceiveAll;
    Transparent.EmptyInput(o, s, beyond);
    if end != [] {
      Transparent.LineEndIgnored(o, s, Link.HEXPKT, 0x41, beyond);
    }
  }

  // ---------------------------------------------------------------------------
  // Part of the texts
  // ---------------------------------------------------------------------------

  // q is the beginning of what follows: it holds no event, or its first is the packet.
  lemma FirstEvent(end: seq<Byte>, text: seq<Byte>, o: Link.Options, p: Packet, x: Extra, mine: Link.Options,
                   s: Link.Receiver, q: seq<Byte>, beyond: seq<Byte>)
    requires Carries(text, o, p, x) && Portable(p) && GoodExtra(x) && s.idle == 0 && !mine.canuue
    requires mine == o || Negotiation.InHex(p)
    requires EndOk(end, s) && (q <= end + text || end + text <= q)
    ensures var t := Link.ReceiveAll(mine, s, q, beyond);
            t.event != Link.Pending ==>
              && t.event == Link.Packet(Kind(p), Payload(p, x))
              && t.state == Link.Receiver(0, false, Link.Format(mine, Kind(p)), [])
              && t.rest == q[|q| - |t.rest|..]
              && q[..|q| - |t.rest|] + LineEndOf(mine, p) == end + text
  {
    hide Carries, Payload, Portable, Link.ReceiveAll, Link.Format, GoodExtra, Link.LineEnd, EndOk, Negotiation.InHex;
    var whole := end + text;
    var t := Link.ReceiveAll(mine, s, q, beyond);
    RestIsSuffix(mine, s, q, beyond);
    NextTextHeard(end, text, o, p, x, mine, s, [], beyond);
    assert whole + [] == whole;
    assert LineEndOf(mine, p) + [] == LineEndOf(mine, p);
    RestIsSuffix(mine, s, whole, beyond);
    if t.event != Link.Pending {
      if q <= whole {
        var z := whole[|q|..];
        assert q + z == whole;
        Transparent.ReceiveStops(mine, s, q, z, beyond);
        assert t.rest + z == LineEndOf(mine, p);
        assert whole == q[..|q| - |t.rest|] + (t.rest + z);
      } else {
        var z := q[|whole|..];
        assert whole + z == q;
        Transparent.ReceiveStops(mine, s, whole, z, beyond);
        assert t.rest == LineEndOf(mine, p) + z;
        assert q[..|q| - |t.rest|] == whole[..|whole| - |LineEndOf(mine, p)|];
      }
    }
  }

  lemma NoEvent(end: seq<Byte>, mine: Link.Options, s: Link.Receiver, q: seq<Byte>, beyond: seq<Byte>)
    requires EndOk(end, s) && s.idle == 0 && q <= end
    ensures Link.ReceiveAll(mine, s, q, beyond).event == Link.Pending
  {
    hide Link.ReceiveAll, EndOk;
    EndIgnored(end, mine, s, beyond);
    assert q + end[|q|..] == end;
    if Link.ReceiveAll(mine, s, q, beyond).event != Link.Pending {
      Transparent.ReceiveStops(mine, s, q, end[|q|..], beyond);
    }
  }
}
