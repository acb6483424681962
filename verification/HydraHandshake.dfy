// The beginning of a session of two Hydra stations, from the first START to the offer of a
// file and its answer.
module HydraHandshake {
  import opened Wrappers
  import opened Crc
  import opened Files
  import opened HydraSession
  import opened HydraSafety
  import opened HydraOutcome
  import opened HydraProgress

  // Nothing goes wrong, and the output is idle.
  function Calm(arrival: Arrival): Input {
    Input(false, false, false, false, false, true, ReadOk, true, OpenFresh, WriteOk, true, true, arrival)
  }

  lemma StepOfA(s: System, i: Input)
    requires Reachable(s) && Deliverable(s.ba, i)
    ensures Reachable(TurnOfA(s, i))
  {
    hide TurnOfA;
    var trace :| Run(trace) && trace[|trace| - 1] == s;
    Extend(trace, TurnOfA(s, i));
  }

  lemma StepOfB(s: System, i: Input)
    requires Reachable(s) && Deliverable(s.ab, i)
    ensures Reachable(TurnOfB(s, i))
  {
    hide TurnOfB;
    var trace :| Run(trace) && trace[|trace| - 1] == s;
    Extend(trace, TurnOfB(s, i));
  }

  // The first station has a file, of which the second may have a beginning.
  function Fresh(f: File, left: seq<Byte>): System {
    System(Station(NewSender(true), NewReceiver([]), f, false),
           Station(NewSender(false), NewReceiver(left), [], false), {}, {})
  }

  lemma FreshReachable(f: File, left: seq<Byte>)
    requires left <= f
    ensures Reachable(Fresh(f, left))
  {
    var s := Fresh(f, left);
    assert s.a.tx == NewSender(true) && s.b.tx == NewSender(false);
    assert Run([s]);
  }

  // Each has taken the other's INIT; the second has not yet heard that its own has been taken.
  predicate Shaken(s: System, f: File, left: seq<Byte>) {
    && !s.a.halted && !s.b.halted && s.a.file == f && s.b.file == [] && PInitAck in s.ab
    && s.a.tx == NewSender(true).(state := RInit)
    && s.b.tx == NewSender(false).(state := InitAck, tries := 1)
    && s.a.rx == NewReceiver([]).(state := RxFInfo) && s.b.rx == NewReceiver(left).(state := RxFInfo)
  }

  lemma Handshake(f: File, left: seq<Byte>) returns (s: System)
    requires left <= f
    ensures Reachable(s) && Shaken(s, f, left)
  {
    hide Reachable, Halt;
    FreshReachable(f, left);
    var i1 := Calm(Silence);
    var s0 := Fresh(f, left);
    var s1 := TurnOfA(s0, i1);
    StepOfA(s0, i1);
    assert PStart in s1.ab;
    var i2 := Calm(Got(PStart));
    var s2 := TurnOfB(s1, i2);
    StepOfB(s1, i2);
    assert PStart in s2.ba;
    var s3 := TurnOfA(s2, i2);
    StepOfA(s2, i2);
    var s4 := TurnOfB(s3, i1);
    StepOfB(s3, i1);
    assert PInit(0, 0) in s4.ba;
    s := Greeted(s4, f, left);
  }

  lemma Greeted(s4: System, f: File, left: seq<Byte>) returns (s: System)
    requires Reachable(s4) && PInit(0, 0) in s4.ba
    requires !s4.a.halted && !s4.b.halted && s4.a.file == f && s4.b.file == []
    requires s4.a.tx == NewSender(true).(state := Init) && s4.b.tx == NewSender(false).(state := InitAck, tries := 1)
    requires s4.a.rx == NewReceiver([]) && s4.b.rx == NewReceiver(left)
    ensures Reachable(s) && Shaken(s, f, left)
  {
    hide Reachable, Halt;
    var i := Calm(Got(PInit(0, 0)));
    var s5 := TurnOfA(s4, i);
    StepOfA(s4, i);
    assert PInitAck in s5.ab && PInit(0, 0) in s5.ab;
    var s6 := TurnOfB(s5, i);
    StepOfB(s5, i);
    assert PInitAck in s6.ba;
    s := TurnOfA(s6, Calm(Got(PInitAck)));
    StepOfA(s6, Calm(Got(PInitAck)));
  }
}
