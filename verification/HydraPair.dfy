// Two stations over their buffers.  As long as no damaged packet passes for one that was not
// sent, they go through the states of HydraSafety, whatever happens to the bytes between them.
module HydraPair {
  import opened Wrappers
  import opened Crc
  import opened Files
  import opened HydraSession
  import opened HydraSafety
  import opened HydraOutcome
  import opened HydraPackets
  import opened HydraQueue
  import opened HydraTurn
  import opened HydraStation
  import HydraLink

  function Spoken(sent: seq<Packet>): Net {
    set p | p in sent
  }

  class HydraPair {
    const a: HydraStation
    const b: HydraStation
    ghost var trace: seq<System>   // the states gone through
    ghost var honest: bool         // every packet heard had been sent by the other station

    ghost predicate Valid()
      reads this, a, a.link, a.link.iencbuf, a.output, a.output.oencbuf
      reads b, b.link, b.link.iencbuf, b.output, b.output.oencbuf
    {
      && a.Valid() && a.link.ValidInput() && b.Valid() && b.link.ValidInput()
      && a.Parts() !! b.Parts()
      && trace != []
      && (honest ==> Run(trace) && trace[|trace| - 1] == Here())
    }

    ghost function Here(): System
      reads a, b
    {
      System(a.Now(), b.Now(), Spoken(a.sent), Spoken(b.sent))
    }

    // A partial file that is left over is a beginning of the file the other end has.
    constructor (hasA: bool, fileA: File, leftA: seq<Byte>, hasB: bool, fileB: File, leftB: seq<Byte>, x: Extra,
                 y: Extra)
      requires GoodExtra(x) && GoodExtra(y) && leftA <= fileB && leftB <= fileA
      ensures Valid() && honest && a.extra == x && b.extra == y
      ensures trace == [Beginning(hasA, fileA, leftA, hasB, fileB, leftB)]
      ensures a.Moment() == NewMoment(trace[0].a) && b.Moment() == NewMoment(trace[0].b)
    {
      hide HydraStation.Valid, HydraStation.Moment, HydraLink.HydraInfo.ValidInput, Initial, NewMoment, NewSender,
           NewReceiver;
      a := new HydraStation(hasA, fileA, leftA, x);
      b := new HydraStation(hasB, fileB, leftB, y);
      trace, honest := [Beginning(hasA, fileA, leftA, hasB, fileB, leftB)], true;
      BeginningIsInitial(hasA, fileA, leftA, hasB, fileB, leftB);
    }

    // A turn of one station; the line brings it any bytes at all.
    method TurnOfA(w: World) returns (ghost d: Account)
      requires Valid() && !Finished(a.Now())
      modifies this`trace, this`honest
      modifies a, a.link, a.link.iencbuf, a.link.ibuf, a.output, a.output.obuf, a.output.oencbuf
      ensures Valid() && Turned(old(a.Moment()), w, d, a.Moment()) && b.Moment() == old(b.Moment())
      ensures trace == old(trace) + [Here()]
      ensures honest == (old(honest) && (d.input.arrival.Got? ==> d.input.arrival.packet in b.sent))
    {
      hide HydraStation.Valid, HydraStation.Moment, HydraLink.HydraInfo.ValidInput, Finished, Iteration, Initial, Next,
           Turned;
      d := a.Turn(w);
      honest := honest && (d.input.arrival.Got? ==> d.input.arrival.packet in b.sent);
      trace := trace + [Here()];
      if honest {
        OneMoreA(old(trace), old(Here()), Here(), d.input, old(a.sent));
      }
    }

    method TurnOfB(w: World) returns (ghost d: Account)
      requires Valid() && !Finished(b.Now())
      modifies this`trace, this`honest
      modifies b, b.link, b.link.iencbuf, b.link.ibuf, b.output, b.output.obuf, b.output.oencbuf
      ensures Valid() && Turned(old(b.Moment()), w, d, b.Moment()) && a.Moment() == old(a.Moment())
      ensures trace == old(trace) + [Here()]
      ensures honest == (old(honest) && (d.input.arrival.Got? ==> d.input.arrival.packet in a.sent))
    {
      hide HydraStation.Valid, HydraStation.Moment, HydraLink.HydraInfo.ValidInput, Finished, Iteration, Initial, Next,
           Turned;
      d := b.Turn(w);
      honest := honest && (d.input.arrival.Got? ==> d.input.arrival.packet in a.sent);
      trace := trace + [Here()];
      if honest {
        OneMoreB(old(trace), old(Here()), Here(), d.input, old(b.sent));
      }
    }

    // Its closing loop: what it has sent goes out.
    method DrainOfA(rooms: seq<Option<int>>) returns (ok: bool)
      requires Valid()
      modifies a.output`oencptr, a.output`oencpos, a.output`pktqueue, a.output`tape, a.output.oencbuf
      ensures Valid() && Drained(old(a.Moment()), a.Moment()) && b.Moment() == old(b.Moment())
      ensures ok ==> Text(a.output.tape) == Concat(a.output.texts)
      ensures Here() == old(Here())
    {
      hide HydraStation.Valid, HydraLink.HydraInfo.ValidInput, Run, Text, Concat;
      ok := a.Drain(rooms);
    }

    // Its closing loop: what it has sent goes out.
    method DrainOfB(rooms: seq<Option<int>>) returns (ok: bool)
      requires Valid()
      modifies b.output`oencptr, b.output`oencpos, b.output`pktqueue, b.output`tape, b.output.oencbuf
      ensures Valid() && Drained(old(b.Moment()), b.Moment()) && a.Moment() == old(a.Moment())
      ensures ok ==> Text(b.output.tape) == Concat(b.output.texts)
      ensures Here() == old(Here())
    {
      hide HydraStation.Valid, HydraLink.HydraInfo.ValidInput, Run, Text, Concat;
      ok := b.Drain(rooms);
    }
  }

  function Beginning(hasA: bool, fileA: File, leftA: seq<Byte>, hasB: bool, fileB: File, leftB: seq<Byte>): System {
    System(Station(NewSender(hasA), NewReceiver(leftA), fileA, false),
        Station(NewSender(hasB), NewReceiver(leftB), fileB, false), {}, {})
  }

  lemma BeginningIsInitial(hasA: bool, fileA: File, leftA: seq<Byte>, hasB: bool, fileB: File, leftB: seq<Byte>)
    requires leftA <= fileB && leftB <= fileA
    ensures Run([Beginning(hasA, fileA, leftA, hasB, fileB, leftB)])
    ensures Spoken([]) == {}
  {
    var s := Beginning(hasA, fileA, leftA, hasB, fileB, leftB);
    assert s.a.tx == NewSender(hasA) && s.b.tx == NewSender(hasB);
    assert Initial(s);
  }

  lemma SpokenMore(sent: seq<Packet>, out: seq<Packet>)
    ensures Spoken(sent + out) == Sent(Spoken(sent), out)
  {
  }

  lemma OneMoreA(trace: seq<System>, s: System, t: System, i: Input, sent: seq<Packet>)
    requires Run(trace) && trace[|trace| - 1] == s && s.ab == Spoken(sent) && Deliverable(s.ba, i)
    requires t == s.(a := Iteration(s.a, i).st, ab := Spoken(sent + Iteration(s.a, i).out))
    ensures Run(trace + [t])
  {
    hide Iteration;
    SpokenMore(sent, Iteration(s.a, i).out);
    assert t == HydraSafety.TurnOfA(s, i);
    Extend(trace, t);
  }

  lemma OneMoreB(trace: seq<System>, s: System, t: System, i: Input, sent: seq<Packet>)
    requires Run(trace) && trace[|trace| - 1] == s && s.ba == Spoken(sent) && Deliverable(s.ab, i)
    requires t == s.(b := Iteration(s.b, i).st, ba := Spoken(sent + Iteration(s.b, i).out))
    ensures Run(trace + [t])
  {
    hide Iteration;
    SpokenMore(sent, Iteration(s.b, i).out);
    assert t == HydraSafety.TurnOfB(s, i);
    Extend(trace, t);
  }

  // The main result, at the level of bytes: what one station has written of a file is a prefix
  // of the other's, only that file ever reaches the inbound, and a SUCCESS that has not
  // overruled a refusal is true.
  lemma PairIsSafe(p: HydraPair)
    requires p.Valid() && p.honest
    ensures HoldsPrefix(p.a.file, p.b.rx) && HoldsPrefix(p.b.file, p.a.rx)
    ensures p.a.tx.outcome == Some(Success) && !p.a.tx.overruled
            ==> p.b.rx.inbound != [] && p.b.rx.inbound[0] == p.a.file
  {
    hide HydraStation.Valid, Initial, Next;
    var s := p.Here();
    assert Reachable(s) by { Arrived(p.trace, s); }
    PrefixSafety(s);
    if p.a.tx.outcome == Some(Success) && !p.a.tx.overruled {
      SuccessIsTrue(s);
    }
  }

  lemma Arrived(trace: seq<System>, s: System)
    requires Run(trace) && trace[|trace| - 1] == s
    ensures Reachable(s)
  {
  }
}
