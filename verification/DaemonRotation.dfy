// Which system daemon_getnext chooses: urgent ones first, and in rotation.
module DaemonRotation {
  import opened Daemon
  import opened DaemonRun

  // ---------------------------------------------------------------------------
  // The choice
  // ---------------------------------------------------------------------------

  predicate Wanted(e: Entry, urgent: bool) {
    if urgent then Urgent(e) else e.usual && !Urgent(e)
  }

  // The first index in the order of search whose flag is set; -1 if there is none.
  function First(can: seq<bool>, order: seq<nat>): (i: int)
    requires forall k :: 0 <= k < |order| ==> order[k] < |can|
    ensures -1 <= i < |can| && (i >= 0 ==> can[i])
    decreases |order|
  {
    if order == [] then -1 else if can[order[0]] then order[0] else First(can, order[1..])
  }

  // Which systems of a kind may be called.
  function Candidates(tab: seq<Entry>, bs: seq<Branch>, verdict: Address -> Verdict, urgent: bool): (can: seq<bool>)
    ensures |can| == |tab|
    ensures forall i :: 0 <= i < |tab| ==> can[i] == (Wanted(tab[i], urgent) && Callable(tab[i], bs, verdict))
  {
    seq(|tab|, i requires 0 <= i < |tab| => Wanted(tab[i], urgent) && Callable(tab[i], bs, verdict))
  }

  lemma TriedIsSame(tab: seq<Entry>, bs: seq<Branch>, verdict: Address -> Verdict, i: nat, urgent: bool)
    requires i < |tab|
    ensures Candidates(tab[i := Tried(tab[i], verdict(tab[i].addr))], bs, verdict, urgent)
            == Candidates(tab, bs, verdict, urgent)
  {
    hide Exists;
  }

  lemma {:induction false} ScanFinds(tab: seq<Entry>, bs: seq<Branch>, verdict: Address -> Verdict, order: seq<nat>,
                                     normal: int)
    requires forall k :: 0 <= k < |order| ==> order[k] < |tab|
    requires normal >= -1
    ensures var u := First(Candidates(tab, bs, verdict, true), order);
            var o := First(Candidates(tab, bs, verdict, false), order);
            Scan(tab, bs, verdict, order, normal).next == if u >= 0 then u else if normal >= 0 then normal else o
    decreases |order|
  {
    hide Callable, Tried, Urgent, Candidates;
    if order != [] {
      var i := order[0];
      TriedIsSame(tab, bs, verdict, i, true);
      TriedIsSame(tab, bs, verdict, i, false);
      ScanFinds(tab, bs, verdict, order[1..], normal);
      ScanFinds(tab[i := Tried(tab[i], verdict(tab[i].addr))], bs, verdict, order[1..], i);
    }
  }

  // ---------------------------------------------------------------------------
  // The rotation
  // ---------------------------------------------------------------------------

  function Pick(can: seq<bool>, c: int): (i: int)
    requires c < |can|
    ensures -1 <= i < |can| && (i >= 0 ==> can[i])
  {
    OrderInside(|can|, c);
    First(can, Order(|can|, c))
  }

  // How many systems are looked at before i; a cursor of -1 searches like 0.
  function Distance(n: nat, c: int, i: nat): (d: nat)
    requires c < n && i < n
    ensures d < n
  {
    var from := if c < 0 then 0 else c;
    if i > from then i - from - 1 else i + n - from - 1
  }

  lemma OrderAt(n: nat, c: int, i: nat)
    requires c < n && i < n
    ensures |Order(n, c)| == n && Order(n, c)[Distance(n, c, i)] == i
  {
  }

  lemma {:induction false} FirstIsNearest(can: seq<bool>, order: seq<nat>, d: nat)
    requires forall k :: 0 <= k < |order| ==> order[k] < |can|
    requires d < |order| && can[order[d]]
    ensures exists e: nat :: e <= d && First(can, order) == order[e] && can[order[e]]
    decreases d
  {
    if can[order[0]] {
      assert First(can, order) == order[0];
    } else {
      FirstIsNearest(can, order[1..], d - 1);
      var e: nat :| e <= d - 1 && First(can, order[1..]) == order[1..][e] && can[order[1..][e]];
      assert order[e + 1] == order[1..][e];
    }
  }

  // The pick is the nearest one that may be called.
  lemma PickIsNearest(can: seq<bool>, c: int, i: nat)
    requires c < |can| && i < |can| && can[i]
    ensures Pick(can, c) >= 0 && Distance(|can|, c, Pick(can, c)) <= Distance(|can|, c, i)
  {
    var n := |can|;
    var order := Order(n, c);
    OrderInside(n, c);
    OrderAt(n, c, i);
    FirstIsNearest(can, order, Distance(n, c, i));
    var e: nat :| e <= Distance(n, c, i) && First(can, order) == order[e] && can[order[e]];
    OrderBack(n, c, e);
  }

  lemma OrderBack(n: nat, c: int, e: nat)
    requires c < n && e < n
    ensures |Order(n, c)| == n && Order(n, c)[e] < n && Distance(n, c, Order(n, c)[e]) == e
  {
  }

  function Picks(can: seq<bool>, c: int, t: nat): (i: int)
    requires c < |can|
    ensures -1 <= i < |can|  || i == c
    decreases t
  {
    if t == 0 then c else Picks(can, Pick(can, c), t - 1)
  }

  // Picks come ever farther from the start, as far as some system h.
  ghost predicate Outward(can: seq<bool>, c: int, h: nat, t: nat)
    requires c < |can| && h < |can|
  {
    && (forall s :: 1 <= s <= t ==> 0 <= Picks(can, c, s) && can[Picks(can, c, s)])
    && (forall r, s :: 1 <= r < s <= t ==> Distance(|can|, c, Picks(can, c, r)) < Distance(|can|, c, Picks(can, c, s)))
    && (forall s :: 1 <= s <= t ==> Distance(|can|, c, Picks(can, c, s)) <= Distance(|can|, c, h))
  }

  // Every system that may be called is reached, nearer ones before it and none twice.
  lemma {:induction false} Reached(can: seq<bool>, c: int, h: nat) returns (t: nat)
    requires c < |can| && h < |can| && can[h]
    ensures t >= 1 && Picks(can, c, t) == h && Outward(can, c, h, t)
    decreases Distance(|can|, c, h)
  {
    hide Pick, Distance;
    var n := |can|;
    var p := Pick(can, c);
    PickIsNearest(can, c, h);
    assert Picks(can, c, 1) == p by { PickOnce(can, c); }
    if p == h {
      t := 1;
    } else {
      Farther(n, c, p, h);
      var u := Reached(can, p, h);
      t := u + 1;
      forall s | 1 <= s <= t
        ensures Picks(can, c, s) >= 0 && can[Picks(can, c, s)]
        ensures s > 1 ==> Picks(can, c, s) == Picks(can, p, s - 1)
        ensures s > 1 ==>
                  Distance(n, c, Picks(can, c, s)) == Distance(n, p, Picks(can, p, s - 1)) + Distance(n, c, p) + 1
        ensures s > 1 ==> Distance(n, c, Picks(can, c, s)) <= Distance(n, c, h)
      {
        assert Picks(can, c, s) == Picks(can, p, s - 1);
        if s > 1 {
          Between(n, c, p, Picks(can, p, s - 1), h);
        }
      }
    }
  }

  lemma PickOnce(can: seq<bool>, c: int)
    requires c < |can|
    ensures Picks(can, c, 1) == Pick(can, c)
  {
    assert Picks(can, Pick(can, c), 0) == Pick(can, c);
  }

  lemma Farther(n: nat, c: int, p: int, h: nat)
    requires c < n && 0 <= p < n && h < n && p != h && Distance(n, c, p) <= Distance(n, c, h)
    ensures Distance(n, p, h) < Distance(n, c, h)
  {
  }

  lemma Between(n: nat, c: int, p: int, x: int, h: nat)
    requires c < n && 0 <= p < n && 0 <= x < n && h < n && p != h && Distance(n, c, p) <= Distance(n, c, h)
    requires Distance(n, p, x) <= Distance(n, p, h)
    ensures Distance(n, c, x) == Distance(n, p, x) + Distance(n, c, p) + 1 <= Distance(n, c, h)
  {
  }

  ghost predicate Visited(can: seq<bool>, c: int, t: nat, h: nat)
    requires c < |can|
  {
    exists s: nat :: 1 <= s <= t && Picks(can, c, s) == h
  }

  // One round: from a system back to itself no other is picked twice, and every one that
  // may be called is picked.
  lemma OneRound(can: seq<bool>, c: nat) returns (t: nat)
    requires c < |can| && can[c]
    ensures t >= 1 && Picks(can, c, t) == c
    ensures forall r, s :: 1 <= r < s <= t ==> Picks(can, c, r) != Picks(can, c, s)
    ensures forall h: nat :: h < |can| && can[h] ==> Visited(can, c, t, h)
  {
    hide Picks, Pick;
    t := Reached(can, c, c);
    forall h: nat | h < |can| && can[h]
      ensures Visited(can, c, t, h)
    {
      var s := Reached(can, c, h);
      NotBeyond(can, c, h, s, t);
      assert 1 <= s <= t && Picks(can, c, s) == h;
    }
  }

  lemma Nearer(can: seq<bool>, c: nat, h: nat, s: nat, t: nat)
    requires c < |can| && h < |can| && t >= 1 && Outward(can, c, h, s)
    ensures t < s ==> Distance(|can|, c, Picks(can, c, t)) < Distance(|can|, c, Picks(can, c, s))
  {
    hide Picks, Distance;
  }

  // Nothing is farther from a system than itself.
  lemma NotBeyond(can: seq<bool>, c: nat, h: nat, s: nat, t: nat)
    requires c < |can| && h < |can| && t >= 1 && Picks(can, c, t) == c && Outward(can, c, h, s)
    ensures s <= t
  {
    hide Picks;
    assert Distance(|can|, c, c) == |can| - 1;
    Nearer(can, c, h, s, t);
  }

  // ---------------------------------------------------------------------------
  // The queues
  // ---------------------------------------------------------------------------

  // Who may be called by a queue: its own cursor lets go first.
  function Free(s: State, ip: bool): (t: seq<Entry>)
    requires ValidCursors(s)
    ensures |t| == |s.tab|
  {
    SetBusy(s.tab, Cursor(s, ip), false)
  }

  function Open(s: State, ip: bool, verdict: Address -> Verdict, urgent: bool): (can: seq<bool>)
    requires ValidCursors(s)
    ensures |can| == |s.tab|
  {
    Candidates(Free(s, ip), s.branches, verdict, urgent)
  }

  // An ordinary system is chosen only when no urgent one can be called; either way it is
  // the next in rotation; a queue idles only when nobody can be called.
  lemma SelectPicks(s: State, ip: bool, verdict: Address -> Verdict)
    requires Invariant(s)
    ensures var u := Pick(Open(s, ip, verdict, true), Cursor(s, ip));
            var o := Pick(Open(s, ip, verdict, false), Cursor(s, ip));
            Cursor(Select(s, ip, verdict), ip) == if u >= 0 then u else o
  {
    hide Scan, Candidates, Invariant, SetBusy;
    assert ValidCursors(s) by { CursorsValid(s); }
    var t := Free(s, ip);
    OrderInside(|t|, Cursor(s, ip));
    ScanFinds(t, s.branches, verdict, Order(|t|, Cursor(s, ip)), -1);
  }

  lemma CursorsValid(s: State)
    requires Invariant(s)
    ensures ValidCursors(s)
  {
  }

  // Choosing does not change who may be called.
  lemma SelectKeepsOpen(s: State, ip: bool, verdict: Address -> Verdict, urgent: bool)
    requires Invariant(s)
    ensures ValidCursors(Select(s, ip, verdict))
    ensures Open(Select(s, ip, verdict), ip, verdict, urgent) == Open(s, ip, verdict, urgent)
  {
    hide Exists, Scan, Order;
    SelectKeeps(s, ip, verdict);
    var c := Cursor(s, ip);
    var t := SetBusy(s.tab, c, false);
    OrderInside(|t|, c);
    ScanKeeps(t, s.branches, verdict, Order(|t|, c), -1);
    var n := Select(s, ip, verdict);
    FreeAgain(s, ip, verdict);
    SameCandidates(Free(s, ip), Free(n, ip), s.branches, verdict, urgent);
  }

  lemma FreeAgain(s: State, ip: bool, verdict: Address -> Verdict)
    requires Invariant(s)
    ensures ValidCursors(Select(s, ip, verdict)) && OnlyLines(Free(s, ip), Free(Select(s, ip, verdict), ip))
    ensures Select(s, ip, verdict).branches == s.branches
  {
    hide Scan, Order;
    SelectKeeps(s, ip, verdict);
    var c := Cursor(s, ip);
    var t := SetBusy(s.tab, c, false);
    OrderInside(|t|, c);
    ScanKeeps(t, s.branches, verdict, Order(|t|, c), -1);
  }

  lemma SameCandidates(t: seq<Entry>, u: seq<Entry>, bs: seq<Branch>, verdict: Address -> Verdict, urgent: bool)
    requires OnlyLines(t, u)
    ensures Candidates(u, bs, verdict, urgent) == Candidates(t, bs, verdict, urgent)
  {
    hide Exists;
  }

  // Successive choices of one queue, nothing else changing.
  function Selects(s: State, ip: bool, verdict: Address -> Verdict, t: nat): State
    requires Invariant(s)
    decreases t
  {
    if t == 0 then s
    else
      SelectKeeps(s, ip, verdict);
      Selects(Select(s, ip, verdict), ip, verdict, t - 1)
  }

  // While some urgent system can be called, the queue goes round the urgent ones; while
  // none can, round the ordinary ones.
  lemma {:induction false} SelectsRotate(s: State, ip: bool, verdict: Address -> Verdict, urgent: bool, t: nat)
    requires Invariant(s)
    requires urgent == (exists i :: 0 <= i < |s.tab| && Open(s, ip, verdict, true)[i])
    ensures Cursor(Selects(s, ip, verdict, t), ip) == Picks(Open(s, ip, verdict, urgent), Cursor(s, ip), t)
    decreases t
  {
    hide Open, Select, Pick, Invariant;
    CursorsValid(s);
    if t > 0 {
      SelectKeeps(s, ip, verdict);
      var n := Select(s, ip, verdict);
      SelectKeepsOpen(s, ip, verdict, true);
      SelectKeepsOpen(s, ip, verdict, urgent);
      SelectPicks(s, ip, verdict);
      if urgent {
        var i :| 0 <= i < |s.tab| && Open(s, ip, verdict, true)[i];
        PickIsNearest(Open(s, ip, verdict, true), Cursor(s, ip), i);
      }
      SelectsRotate(n, ip, verdict, urgent, t - 1);
    }
  }

  ghost predicate ComesUp(s: State, ip: bool, verdict: Address -> Verdict, t: nat, h: nat)
    requires Invariant(s)
  {
    exists p: nat :: 1 <= p <= t && Cursor(Selects(s, ip, verdict, p), ip) == h
  }

  // Repeated choices call on every system that may be called before any comes up again.
  lemma RoundRobin(s: State, ip: bool, verdict: Address -> Verdict, urgent: bool) returns (t: nat)
    requires Invariant(s) && Cursor(s, ip) >= 0 && Open(s, ip, verdict, urgent)[Cursor(s, ip)]
    requires urgent == (exists i :: 0 <= i < |s.tab| && Open(s, ip, verdict, true)[i])
    ensures t >= 1 && Cursor(Selects(s, ip, verdict, t), ip) == Cursor(s, ip)
    ensures forall p, q :: 1 <= p < q <= t ==>
              Cursor(Selects(s, ip, verdict, p), ip) != Cursor(Selects(s, ip, verdict, q), ip)
    ensures forall h: nat :: h < |s.tab| && Open(s, ip, verdict, urgent)[h] ==> ComesUp(s, ip, verdict, t, h)
  {
    hide Open, Selects, Picks, Invariant;
    CursorsValid(s);
    var can := Open(s, ip, verdict, urgent);
    t := OneRound(can, Cursor(s, ip));
    forall p: nat ensures Cursor(Selects(s, ip, verdict, p), ip) == Picks(can, Cursor(s, ip), p) {
      SelectsRotate(s, ip, verdict, urgent, p);
    }
    forall h: nat | h < |s.tab| && can[h]
      ensures ComesUp(s, ip, verdict, t, h)
    {
      assert Visited(can, Cursor(s, ip), t, h);
      var p: nat :| 1 <= p <= t && Picks(can, Cursor(s, ip), p) == h;
      assert Cursor(Selects(s, ip, verdict, p), ip) == h;
    }
  }

  // ---------------------------------------------------------------------------
  // Calls and choices together
  // ---------------------------------------------------------------------------

  // Whoever a queue has chosen is not being called already, by either queue.
  lemma ChosenIsIdle(s: State, ip: bool, verdict: Address -> Verdict)
    requires Invariant(s)
    ensures var t := Select(s, ip, verdict);
            ValidCursors(t) && t.branches == s.branches
            && (Cursor(t, ip) >= 0 ==> !Exists(s.branches, t.tab[Cursor(t, ip)].addr))
  {
    hide Select, Pick, Exists, Invariant;
    CursorsValid(s);
    SelectPicks(s, ip, verdict);
    FreeAgain(s, ip, verdict);
    var t := Select(s, ip, verdict);
    forall k | 0 <= k < |s.tab| ensures t.tab[k].addr == s.tab[k].addr {
      assert Free(s, ip)[k].addr == s.tab[k].addr && Free(t, ip)[k].addr == t.tab[k].addr;
    }
  }

  // As many clients of a kind as there may be; no limit is 0.
  predicate Full(s: State, ip: bool) {
    if ip then s.maxIp != 0 && s.ipClients >= s.maxIp else s.maxModem != 0 && s.modemClients >= s.maxModem
  }

  // A call that cannot be made now: too many clients, or, unless another process has the
  // system, no port or no child
  predicate HeldUp(s: State, e: Entry, luck: Luck) {
    Full(s, e.ip) || (!luck.locked && (luck.pid.None? || (!e.ip && !luck.port)))
  }

  // The state when the call has been started
  function Calling(s: State, e: Entry, pid: int): State {
    if e.ip then s.(branches := s.branches + [Branch(e.addr, pid, true, false, 0)], ipClients := s.ipClients + 1)
    else s.(branches := s.branches + [Branch(e.addr, pid, false, false, 0)], modemClients := s.modemClients + 1)
  }

  // What a turn of a queue does, in every case: the system at the cursor stays if it is not
  // due or its call is held up.  Otherwise the queue moves on: because nobody is chosen, the
  // system is being called or locked, or a call has been started for it.
  lemma TurnOutcome(s: State, ip: bool, luck: Luck)
    requires Invariant(s)
    ensures ValidCursors(s)
    ensures var c := Cursor(s, ip);
            var t := QueueTurn(s, ip, luck);
            if c < 0 then t == Select(s, ip, luck.verdict)
            else
              var e := s.tab[c];
              if !luck.due then t == s
              else if Exists(s.branches, e.addr) then t == Select(s, ip, luck.verdict)
              else if HeldUp(s, e, luck) then t == s
              else if luck.locked then t == Select(s, ip, luck.verdict) && t.branches == s.branches
              else
                && ValidCursors(Calling(s, e, luck.pid.value))
                && t == Select(Calling(s, e, luck.pid.value), ip, luck.verdict)
                && t.branches == s.branches + [Branch(e.addr, luck.pid.value, e.ip, false, 0)]
                && t.ipClients == s.ipClients + (if e.ip then 1 else 0)
                && t.modemClients == s.modemClients + (if e.ip then 0 else 1)
                && ValidCursors(t) && (Cursor(t, ip) >= 0 ==> t.tab[Cursor(t, ip)].addr != e.addr)
    ensures Serve(s, ip, luck) == if (if ip then s.maxIp else s.maxModem) <= 0 then s else QueueTurn(s, ip, luck)
  {
    hide Select, Invariant;
    CursorsValid(s);
    SelectLeaves(s, ip, luck.verdict);
    var c := Cursor(s, ip);
    if c >= 0 && !Exists(s.branches, s.tab[c].addr) && !HeldUp(s, s.tab[c], luck) && !luck.locked {
      var e := s.tab[c];
      var r := Calling(s, e, luck.pid.value);
      CallKeeps(s, c, luck.locked, luck.port, luck.pid);
      assert Call(s, c, luck.locked, luck.port, luck.pid) == Called(r, false);
      ChosenIsIdle(r, ip, luck.verdict);
      SelectLeaves(r, ip, luck.verdict);
      assert r.branches[|s.branches|].addr == e.addr;
    }
  }

  // A choice changes the queue and the cursor only.
  lemma SelectLeaves(s: State, ip: bool, verdict: Address -> Verdict)
    requires ValidCursors(s)
    ensures var t := Select(s, ip, verdict);
            && t.branches == s.branches && t.ipClients == s.ipClients && t.modemClients == s.modemClients
            && t.maxIp == s.maxIp && t.maxModem == s.maxModem && Cursor(t, !ip) == Cursor(s, !ip)
  {
    hide GetNext, SetBusy;
  }
}
