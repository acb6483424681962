// What holds of the scheduler after any run of its steps.
module DaemonRun {
  import opened Wrappers
  import opened Daemon

  predicate UniqueEntries(tab: seq<Entry>) {
    forall i, j :: 0 <= i < j < |tab| ==> tab[i].addr != tab[j].addr
  }

  predicate UniqueBranches(bs: seq<Branch>) {
    forall i, j :: 0 <= i < j < |bs| ==> bs[i].addr != bs[j].addr
  }

  // An entry is busy exactly when one of the cursors points at it.
  predicate BusyIsCurrent(tab: seq<Entry>, modem: int, online: int) {
    forall i :: 0 <= i < |tab| ==> (tab[i].busy <==> i == modem || i == online)
  }

  predicate Apart(modem: int, online: int) {
    modem == online ==> modem == -1
  }

  predicate Counted(s: State) {
    s.ipClients == Count(s.branches, true) && s.modemClients == Count(s.branches, false)
  }

  predicate QueueOk(s: State) {
    UniqueEntries(s.tab) && ValidCursors(s) && BusyIsCurrent(s.tab, s.modem, s.online) && Apart(s.modem, s.online)
  }

  predicate Invariant(s: State) {
    QueueOk(s) && UniqueBranches(s.branches) && Counted(s)
  }

  predicate WithinLimits(s: State) {
    (s.maxIp > 0 ==> s.ipClients <= s.maxIp) && (s.maxModem > 0 ==> s.modemClients <= s.maxModem)
  }

  // A step that leaves the limits as they are.
  predicate Carries(s: State, t: State) {
    Invariant(t) && t.maxIp == s.maxIp && t.maxModem == s.maxModem && (WithinLimits(s) ==> WithinLimits(t))
  }

  // ---------------------------------------------------------------------------
  // Branches
  // ---------------------------------------------------------------------------

  lemma CountAppend(bs: seq<Branch>, b: Branch, ip: bool)
    ensures Count(bs + [b], ip) == Count(bs, ip) + if b.ip == ip then 1 else 0
  {
    assert (bs + [b])[..|bs|] == bs;
  }

  lemma {:induction false} CountUpdate(bs: seq<Branch>, i: nat, b: Branch, ip: bool)
    requires i < |bs| && b.ip == bs[i].ip
    ensures Count(bs[i := b], ip) == Count(bs, ip)
  {
    var n := |bs| - 1;
    if i == n {
      assert bs[i := b][..n] == bs[..n];
    } else {
      assert bs[i := b][..n] == bs[..n][i := b];
      CountUpdate(bs[..n], i, b, ip);
    }
  }

  lemma {:induction false} CountWithout(bs: seq<Branch>, i: nat, ip: bool)
    requires i < |bs|
    ensures Count(Without(bs, i), ip) == Count(bs, ip) - if bs[i].ip == ip then 1 else 0
  {
    var n := |bs| - 1;
    if i == n {
      assert Without(bs, i) == bs[..n];
    } else {
      assert Without(bs, i) == Without(bs[..n], i) + [bs[n]];
      CountWithout(bs[..n], i, ip);
      CountAppend(Without(bs[..n], i), bs[n], ip);
    }
  }

  lemma ChildExitKeeps(s: State, pid: int, rc: int)
    requires Invariant(s)
    ensures Carries(s, ChildExit(s, pid, rc))
  {
    var i := FindPid(s.branches, pid);
    if i >= 0 {
      CountUpdate(s.branches, i, s.branches[i].(rc := rc, wait := true), true);
      CountUpdate(s.branches, i, s.branches[i].(rc := rc, wait := true), false);
    }
  }

  // ---------------------------------------------------------------------------
  // The queue
  // ---------------------------------------------------------------------------

  // A cursor that survives a removal names the same system as before.
  lemma CursorsFollow(s: State, pos: nat, ip: bool)
    requires QueueOk(s) && pos < |s.tab|
    ensures QueueOk(Removed(s, pos))
    ensures var c, d := Cursor(s, ip), Cursor(Removed(s, pos), ip);
            if c < 0 || c == pos then d == -1 else d >= 0 && Removed(s, pos).tab[d] == s.tab[c]
  {
  }

  lemma {:induction false} SweptKeeps(s: State, i: nat)
    requires QueueOk(s)
    ensures QueueOk(Swept(s, i))
    ensures Swept(s, i) == s.(tab := Swept(s, i).tab, modem := Swept(s, i).modem, online := Swept(s, i).online)
    decreases |s.tab| - i
  {
    hide QueueOk;
    if i < |s.tab| {
      if Empty(s.tab[i]) {
        CursorsFollow(s, i, true);
        SweptKeeps(Removed(s, i), i + 1);
      } else {
        SweptKeeps(s, i + 1);
      }
    }
  }

  lemma {:induction false} PurgedQueue(s: State, addr: Address, j: nat)
    requires QueueOk(s)
    ensures QueueOk(Purged(s, addr, j))
    ensures Purged(s, addr, j)
            == s.(tab := Purged(s, addr, j).tab, modem := Purged(s, addr, j).modem, online := Purged(s, addr, j).online)
    decreases |s.tab| - j
  {
    hide QueueOk;
    if j < |s.tab| {
      if s.tab[j].addr == addr {
        CursorsFollow(s, j, true);
        PurgedQueue(Removed(s, j), addr, j + 1);
      } else {
        PurgedQueue(s, addr, j + 1);
      }
    }
  }

  // No entry of the address is left, and no other has gone or changed its place.
  predicate Left(tab: seq<Entry>, addr: Address, rest: seq<Entry>) {
    && (forall k :: 0 <= k < |rest| ==> rest[k].addr != addr)
    && (rest == tab || exists k :: 0 <= k < |tab| && tab[k].addr == addr && rest == Without(tab, k))
  }

  // The system that has been served is gone, and only it.
  lemma {:induction false} PurgedIsGone(s: State, addr: Address, j: nat)
    requires UniqueEntries(s.tab) && forall k :: 0 <= k < |s.tab| && k < j ==> s.tab[k].addr != addr
    ensures Left(s.tab, addr, Purged(s, addr, j).tab)
    decreases |s.tab| - j
  {
    if j < |s.tab| {
      if s.tab[j].addr == addr {
        GoneFrom(Removed(s, j), addr, j + 1);
      } else {
        PurgedIsGone(s, addr, j + 1);
      }
    }
  }

  lemma {:induction false} GoneFrom(s: State, addr: Address, j: nat)
    requires forall k :: 0 <= k < |s.tab| ==> s.tab[k].addr != addr
    ensures Purged(s, addr, j) == s
    decreases |s.tab| - j
  {
    if j < |s.tab| {
      GoneFrom(s, addr, j + 1);
    }
  }

  // Entries that differ only in what the outbound says.
  predicate SameSystems(t: seq<Entry>, u: seq<Entry>) {
    |t| <= |u|
    && (forall k :: 0 <= k < |t| ==> u[k].addr == t[k].addr && u[k].busy == t[k].busy)
    && (forall k :: |t| <= k < |u| ==> !u[k].busy)
  }

  lemma {:induction false} ScannedKeeps(tab: seq<Entry>, found: seq<Mail>)
    requires UniqueEntries(tab)
    ensures UniqueEntries(Scanned(tab, found)) && SameSystems(tab, Scanned(tab, found))
    decreases found
  {
    if found != [] {
      var m := found[0];
      var t := WithEntry(tab, m.addr);
      var i := Find(t, m.addr);
      ScannedKeeps(t[i := Add(t[i], m)], found[1..]);
    }
  }

  lemma RescanKeeps(s: State, found: seq<Mail>, ok: bool)
    requires Invariant(s)
    ensures Carries(s, Rescan(s, found, ok))
  {
    hide UniqueBranches, Scanned, Swept;
    ScannedKeeps(Reset(s.tab), found);
    var t := s.(tab := Scanned(Reset(s.tab), found));
    assert QueueOk(t);
    SweptKeeps(t, 0);
  }

  // ---------------------------------------------------------------------------
  // What is left after a rescan
  // ---------------------------------------------------------------------------

  // The entries a sweep leaves: behind a removed entry one goes by unseen.
  function Kept(t: seq<Entry>): seq<Entry> {
    if t == [] then []
    else if Empty(t[0]) then (if |t| > 1 then [t[1]] + Kept(t[2..]) else [])
    else [t[0]] + Kept(t[1..])
  }

  lemma {:induction false} SweptIsKept(s: State, i: nat)
    requires i <= |s.tab|
    ensures Swept(s, i).tab == s.tab[..i] + Kept(s.tab[i..])
    decreases |s.tab| - i
  {
    hide Empty;
    var rest := s.tab[i..];
    if i < |s.tab| {
      if Empty(s.tab[i]) {
        var r := Removed(s, i);
        if i + 1 < |s.tab| {
          SweptIsKept(r, i + 1);
          assert r.tab[..i + 1] == s.tab[..i] + [s.tab[i + 1]];
          assert r.tab[i + 1..] == rest[2..];
        } else {
          assert r.tab == s.tab[..i];
        }
      } else {
        SweptIsKept(s, i + 1);
        assert s.tab[..i + 1] == s.tab[..i] + [s.tab[i]];
        assert s.tab[i + 1..] == rest[1..];
      }
    }
  }

  predicate HasNeighbours(t: seq<Entry>) {
    exists k :: 0 <= k < |t| - 1 && Empty(t[k]) && Empty(t[k + 1])
  }

  predicate NoneEmpty(t: seq<Entry>) {
    forall e :: e in t ==> !Empty(e)
  }

  lemma NeighboursStep(t: seq<Entry>)
    requires t != []
    ensures HasNeighbours(t) <==> (|t| > 1 && Empty(t[0]) && Empty(t[1])) || HasNeighbours(t[1..])
  {
    hide Empty;
    var r := t[1..];
    if HasNeighbours(r) {
      var k :| 0 <= k < |r| - 1 && Empty(r[k]) && Empty(r[k + 1]);
      assert Empty(t[k + 1]) && Empty(t[k + 1 + 1]);
    }
    if HasNeighbours(t) {
      var k :| 0 <= k < |t| - 1 && Empty(t[k]) && Empty(t[k + 1]);
      assert k > 0 ==> Empty(r[k - 1]) && Empty(r[k - 1 + 1]);
    }
    if |t| > 1 && Empty(t[0]) && Empty(t[1]) {
      assert Empty(t[0]) && Empty(t[0 + 1]);
    }
  }

  // A sweep leaves no empty entry exactly when no two empty ones were neighbours.
  lemma {:induction false} KeptIsClean(t: seq<Entry>)
    ensures NoneEmpty(Kept(t)) <==> !HasNeighbours(t)
    decreases |t|
  {
    hide Empty, HasNeighbours;
    if t == [] {
      NoNeighbours(t);
    } else {
      NeighboursStep(t);
      if Empty(t[0]) && |t| > 1 {
        NeighboursStep(t[1..]);
        assert t[1..][1..] == t[2..];
        KeptIsClean(t[2..]);
        assert t[1] in Kept(t);
      } else if Empty(t[0]) {
        NoNeighbours(t[1..]);
      } else {
        KeptIsClean(t[1..]);
      }
    }
  }

  lemma NoNeighbours(t: seq<Entry>)
    requires |t| <= 1
    ensures !HasNeighbours(t)
  {
  }

  // daemon_rescan_sysqueue, for all outbounds.
  lemma RescanLeavesNoEmpty(s: State, found: seq<Mail>)
    ensures NoneEmpty(Rescan(s, found, true).tab) <==> !HasNeighbours(Scanned(Reset(s.tab), found))
  {
    hide Scanned, Swept, Kept, HasNeighbours;
    var t := s.(tab := Scanned(Reset(s.tab), found));
    SweptIsKept(t, 0);
    KeptIsClean(t.tab);
    assert t.tab[..0] == [] && t.tab[0..] == t.tab;
  }

  // ---------------------------------------------------------------------------
  // Calls
  // ---------------------------------------------------------------------------

  lemma CallKeeps(s: State, pos: nat, locked: bool, port: bool, pid: Option<int>)
    requires Invariant(s) && pos < |s.tab| && !Exists(s.branches, s.tab[pos].addr)
    ensures var r := Call(s, pos, locked, port, pid);
            Carries(s, r.s)
            && r.s.tab == s.tab && r.s.modem == s.modem && r.s.online == s.online
  {
    hide UniqueEntries, BusyIsCurrent;
    if pid.Some? {
      var e := s.tab[pos];
      var b := Branch(e.addr, pid.value, e.ip, false, 0);
      CountAppend(s.branches, b, true);
      CountAppend(s.branches, b, false);
    }
  }

  // What a search for the next system does to the table.
  predicate OnlyLines(t: seq<Entry>, u: seq<Entry>) {
    |t| == |u| && forall k :: 0 <= k < |t| ==> u[k] == t[k].(ip := u[k].ip)
  }

  lemma {:induction false} ScanKeeps(tab: seq<Entry>, bs: seq<Branch>, verdict: Address -> Verdict, order: seq<nat>,
                                     normal: int)
    requires forall k :: 0 <= k < |order| ==> order[k] < |tab|
    requires -1 <= normal < |tab| && (normal >= 0 ==> !tab[normal].busy)
    ensures var g := Scan(tab, bs, verdict, order, normal);
            OnlyLines(tab, g.tab) && -1 <= g.next < |tab| && (g.next >= 0 ==> !tab[g.next].busy)
    decreases |order|
  {
    hide Exists, Urgent;
    if order != [] {
      var i := order[0];
      var e := tab[i];
      ScanKeeps(tab, bs, verdict, order[1..], normal);
      if !e.busy {
        ScanKeeps(tab[i := Tried(e, verdict(e.addr))], bs, verdict, order[1..], i);
      }
    }
  }

  // The busy flag moves with the cursor; o is the other queue's.
  lemma FlagMoves(tab: seq<Entry>, c: int, o: int, u: seq<Entry>, next: int)
    requires UniqueEntries(tab) && -1 <= c < |tab| && -1 <= o < |tab| && Apart(c, o) && BusyIsCurrent(tab, c, o)
    requires OnlyLines(SetBusy(tab, c, false), u) && -1 <= next < |tab|
    requires next >= 0 ==> !SetBusy(tab, c, false)[next].busy
    ensures var v := SetBusy(u, next, true);
            UniqueEntries(v) && BusyIsCurrent(v, next, o) && Apart(next, o) && |v| == |tab|
  {
  }

  lemma SelectKeeps(s: State, ip: bool, verdict: Address -> Verdict)
    requires Invariant(s)
    ensures Carries(s, Select(s, ip, verdict))
  {
    hide Scan, UniqueBranches, Exists, UniqueEntries, OnlyLines, BusyIsCurrent, SetBusy;
    var c, o := Cursor(s, ip), Cursor(s, !ip);
    var t := SetBusy(s.tab, c, false);
    ScanKeeps(t, s.branches, verdict, Order(|t|, c), -1);
    var g := GetNext(t, s.branches, verdict, c);
    BusySwaps(s.tab, s.modem, s.online);
    FlagMoves(s.tab, c, o, g.tab, g.next);
    BusySwaps(SetBusy(g.tab, g.next, true), g.next, o);
  }

  lemma BusySwaps(tab: seq<Entry>, c: int, o: int)
    ensures BusyIsCurrent(tab, c, o) == BusyIsCurrent(tab, o, c)
  {
  }

  lemma QueueTurnKeeps(s: State, ip: bool, luck: Luck)
    requires Invariant(s)
    ensures Carries(s, QueueTurn(s, ip, luck))
  {
    hide Select, Call, UniqueEntries, UniqueBranches, BusyIsCurrent, WithinLimits, Counted, Exists;
    var c := Cursor(s, ip);
    SelectKeeps(s, ip, luck.verdict);
    if c >= 0 && !Exists(s.branches, s.tab[c].addr) {
      CallKeeps(s, c, luck.locked, luck.port, luck.pid);
      SelectKeeps(Call(s, c, luck.locked, luck.port, luck.pid).s, ip, luck.verdict);
    }
  }

  // ---------------------------------------------------------------------------
  // Finished branches
  // ---------------------------------------------------------------------------

  lemma DischargedKeeps(s: State, i: nat)
    requires Invariant(s) && i < |s.branches|
    ensures Carries(s, Discharged(s, i))
  {
    hide UniqueEntries, BusyIsCurrent, ValidCursors, Apart;
    CountWithout(s.branches, i, true);
    CountWithout(s.branches, i, false);
    SameQueue(s, Discharged(s, i));
  }

  lemma SameQueue(s: State, t: State)
    requires QueueOk(s) && t.tab == s.tab && t.modem == s.modem && t.online == s.online
    ensures QueueOk(t)
  {
  }

  lemma PurgedCarries(s: State, addr: Address)
    requires Invariant(s)
    ensures Carries(s, Purged(s, addr, 0))
  {
    hide UniqueBranches, Purged, QueueOk;
    PurgedQueue(s, addr, 0);
  }

  lemma ReapedKeeps(s: State, i: nat)
    requires Invariant(s) && i < |s.branches|
    ensures Carries(s, Reaped(s, i))
  {
    hide Invariant, WithinLimits, Discharged, Purged;
    DischargedKeeps(s, i);
    PurgedCarries(Discharged(s, i), s.branches[i].addr);
  }

  lemma {:induction false} ReapKeeps(s: State)
    requires Invariant(s)
    ensures Carries(s, Reap(s))
    ensures FindWaiting(Reap(s).branches) < 0
    decreases |s.branches|
  {
    hide Invariant, WithinLimits, Reaped;
    var i := FindWaiting(s.branches);
    if i >= 0 {
      ReapedKeeps(s, i);
      ReapedShorter(s, i);
      ReapKeeps(Reaped(s, i));
    }
  }

  // ---------------------------------------------------------------------------
  // Runs
  // ---------------------------------------------------------------------------

  datatype Event =
    | Exit(pid: int, rc: int)                    // SIGCHLD
    | Clean                                      // finished branches are processed
    | Outbound(found: seq<Mail>, ok: bool)       // the outbound is scanned again
    | Turn(ip: bool, luck: Luck)                 // a queue gets its turn
    | Restart(maxIp: int, maxModem: int)         // SIGHUP

  function Take(s: State, e: Event): State
    requires Invariant(s)
  {
    match e
    case Exit(pid, rc) => ChildExit(s, pid, rc)
    case Clean => Reap(s)
    case Outbound(found, ok) => Rescan(s, found, ok)
    case Turn(ip, luck) => Serve(s, ip, luck)
    case Restart(maxIp, maxModem) => Restarted(s, maxIp, maxModem)
  }

  lemma TakeKeeps(s: State, e: Event)
    requires Invariant(s)
    ensures Invariant(Take(s, e))
    ensures !e.Restart? ==> Carries(s, Take(s, e))
  {
    hide ChildExit, Reap, Rescan, QueueTurn, WithinLimits;
    match e {
      case Exit(pid, rc) =>
        ChildExitKeeps(s, pid, rc);
      case Clean =>
        ReapKeeps(s);
      case Outbound(found, ok) =>
        RescanKeeps(s, found, ok);
      case Turn(ip, luck) =>
        QueueTurnKeeps(s, ip, luck);
      case Restart(_, _) =>
    }
  }

  // The state after any series of steps.
  function Run(maxIp: int, maxModem: int, events: seq<Event>): (s: State)
    ensures Invariant(s)
  {
    if events == [] then NewState(maxIp, maxModem)
    else
      var n := |events| - 1;
      TakeKeeps(Run(maxIp, maxModem, events[..n]), events[n]);
      Take(Run(maxIp, maxModem, events[..n]), events[n])
  }

  // Unique systems and branches, busy flags and cursors in agreement, and the counters
  // equal to the number of branches of each kind, after every run.
  lemma RunInvariant(maxIp: int, maxModem: int, events: seq<Event>)
    ensures var s := Run(maxIp, maxModem, events);
            && UniqueEntries(s.tab) && UniqueBranches(s.branches)
            && (forall i :: 0 <= i < |s.tab| ==> (s.tab[i].busy <==> i == s.modem || i == s.online))
            && (s.modem == s.online ==> s.modem == -1)
            && s.ipClients == Count(s.branches, true) && s.modemClients == Count(s.branches, false)
  {
    hide Run;
    assert Invariant(Run(maxIp, maxModem, events));
  }

  // As long as the limits have not been read again, no kind of client exceeds a positive limit.
  lemma {:induction false} RunWithinLimits(maxIp: int, maxModem: int, events: seq<Event>)
    requires forall j :: 0 <= j < |events| ==> !events[j].Restart?
    ensures var s := Run(maxIp, maxModem, events);
            (maxIp > 0 ==> s.ipClients <= maxIp) && (maxModem > 0 ==> s.modemClients <= maxModem)
            && s.maxIp == maxIp && s.maxModem == maxModem
  {
    hide Take, Invariant;
    if events != [] {
      var n := |events| - 1;
      RunWithinLimits(maxIp, maxModem, events[..n]);
      TakeKeeps(Run(maxIp, maxModem, events[..n]), events[n]);
    }
  }
}
