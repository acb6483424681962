// What the steps of the scheduler lead to: whom a queue chooses, what a scan of the outbound
// adds, and what becomes of the systems and branches whose sessions have ended.
module DaemonOutcome {
  import opened Wrappers
  import opened Daemon
  import opened DaemonRun
  import opened DaemonRotation

  // ---------------------------------------------------------------------------
  // The system chosen
  // ---------------------------------------------------------------------------

  predicate Pressing(e: Entry) {
    e.immed || e.crash
  }

  // A system that may be called, as it is left by its choice
  predicate Suits(e: Entry, f: Entry, bs: seq<Branch>, verdict: Address -> Verdict) {
    && (e.immed || e.crash || e.usual) && !e.busy && !Exists(bs, e.addr) && verdict(e.addr).ok
    && f == e.(ip := if verdict(e.addr).line.Some? then verdict(e.addr).line.value else e.ip)
  }

  lemma {:induction false} ScanSuits(tab: seq<Entry>, bs: seq<Branch>, verdict: Address -> Verdict, order: seq<nat>,
                                     normal: int)
    requires forall k :: 0 <= k < |order| ==> order[k] < |tab|
    requires -1 <= normal < |tab| && (normal >= 0 ==> !Pressing(tab[normal]))
    ensures var g := Scan(tab, bs, verdict, order, normal);
            && |g.tab| == |tab| && -1 <= g.next < |tab|
            && (g.next >= 0 ==>
                  if normal >= 0 && !Pressing(tab[g.next]) then g.next == normal && g.tab[normal] == tab[normal]
                  else Suits(tab[g.next], g.tab[g.next], bs, verdict))
    decreases |order|
  {
    hide Exists;
    if order != [] {
      var i := order[0];
      var e := tab[i];
      ScanSuits(tab, bs, verdict, order[1..], normal);
      if !Pressing(e) {
        ScanSuits(tab[i := Tried(e, verdict(e.addr))], bs, verdict, order[1..], i);
      }
    }
  }

  // What the queue could choose beside the system at the cursor of the other queue
  predicate May(s: State, ip: bool, verdict: Address -> Verdict, k: nat)
    requires k < |s.tab|
  {
    k != Cursor(s, !ip) && !Exists(s.branches, s.tab[k].addr) && verdict(s.tab[k].addr).ok
  }

  // Whom a queue goes on to: a system with something to send, which may be called, and is
  // called by the line found.
  lemma Chosen(s: State, ip: bool, verdict: Address -> Verdict)
    requires Invariant(s)
    ensures var t := Select(s, ip, verdict);
            var n := Cursor(t, ip);
            && -1 <= n < |t.tab| == |s.tab|
            && (n >= 0 ==>
                  && May(s, ip, verdict, n) && (s.tab[n].immed || s.tab[n].crash || s.tab[n].usual)
                  && var line := verdict(s.tab[n].addr).line;
                     t.tab[n] == s.tab[n].(busy := true, ip := if line.Some? then line.value else s.tab[n].ip))
  {
    hide Scan, Exists, Order, Select, Suits, UniqueBranches, UniqueEntries, Counted;
    var c := Cursor(s, ip);
    var t := Free(s, ip);
    OrderInside(|t|, c);
    ScanSuits(t, s.branches, verdict, Order(|t|, c), -1);
    Selected(s, ip, verdict);
    var n := Cursor(Select(s, ip, verdict), ip);
    if n >= 0 {
      SuitsMay(s, ip, verdict, n, GetNext(t, s.branches, verdict, c).tab[n]);
    }
  }

  lemma Selected(s: State, ip: bool, verdict: Address -> Verdict)
    requires ValidCursors(s)
    ensures var g := GetNext(Free(s, ip), s.branches, verdict, Cursor(s, ip));
            -1 <= g.next < |g.tab| ==>
              var t := Select(s, ip, verdict);
              Cursor(t, ip) == g.next && t.tab == SetBusy(g.tab, g.next, true)
  {
    hide Scan, Order;
  }

  lemma SuitsMay(s: State, ip: bool, verdict: Address -> Verdict, n: nat, f: Entry)
    requires QueueOk(s) && n < |s.tab| && Suits(Free(s, ip)[n], f, s.branches, verdict)
    ensures May(s, ip, verdict, n) && (s.tab[n].immed || s.tab[n].crash || s.tab[n].usual)
    ensures var line := verdict(s.tab[n].addr).line;
            f.(busy := true) == s.tab[n].(busy := true, ip := if line.Some? then line.value else s.tab[n].ip)
  {
    hide Exists, UniqueEntries;
  }

  // Only if nobody with something that presses may be called, it is another one, and only if
  // nobody at all may be called, it is none.
  lemma NobodyBefore(s: State, ip: bool, verdict: Address -> Verdict, k: nat)
    requires Invariant(s) && k < |s.tab| && May(s, ip, verdict, k)
    ensures var t := Select(s, ip, verdict);
            var n := Cursor(t, ip);
            && -1 <= n < |s.tab|
            && (s.tab[k].immed || s.tab[k].crash ==> n >= 0 && (s.tab[n].immed || s.tab[n].crash))
            && (s.tab[k].usual ==> n >= 0)
  {
    hide Select, Exists, Pick, UniqueBranches, UniqueEntries, Counted;
    var c := Cursor(s, ip);
    SelectPicks(s, ip, verdict);
    var urgent := s.tab[k].immed || s.tab[k].crash;
    if urgent || s.tab[k].usual {
      assert Free(s, ip)[k] == s.tab[k].(busy := false);
      assert Open(s, ip, verdict, urgent)[k];
      PickIsNearest(Open(s, ip, verdict, urgent), c, k);
    }
  }

  // ---------------------------------------------------------------------------
  // The outbound
  // ---------------------------------------------------------------------------

  predicate FoundImmed(found: seq<Mail>, addr: Address) { exists m :: m in found && m.addr == addr && m.immed }

  predicate FoundCrash(found: seq<Mail>, addr: Address) { exists m :: m in found && m.addr == addr && m.crash }

  predicate FoundUsual(found: seq<Mail>, addr: Address) { exists m :: m in found && m.addr == addr && m.usual }

  predicate Found(found: seq<Mail>, addr: Address) { exists m :: m in found && m.addr == addr }

  // What a scan makes of an entry
  predicate Gains(e: Entry, f: Entry, found: seq<Mail>) {
    && f.addr == e.addr && f.busy == e.busy && f.ip == e.ip
    && (f.immed <==> e.immed || FoundImmed(found, e.addr))
    && (f.crash <==> e.crash || FoundCrash(found, e.addr))
    && (f.usual <==> e.usual || FoundUsual(found, e.addr))
    && (f.mail <==> e.mail || Found(found, e.addr))
  }

  // The entry of a system that has none yet
  function Blank(addr: Address): Entry {
    Entry(addr, false, false, false, false, false, false)
  }

  lemma GainsMore(e: Entry, f: Entry, g: Entry, found: seq<Mail>)
    requires found != [] && Gains(f, g, found[1..])
    requires f == if e.addr == found[0].addr then Add(e, found[0]) else e
    ensures Gains(e, g, found)
  {
  }

  function AddIf(e: Entry, m: Mail): Entry {
    if e.addr == m.addr then Add(e, m) else e
  }

  // One file found
  lemma FileAdds(tab: seq<Entry>, m: Mail) returns (u: seq<Entry>)
    requires UniqueEntries(tab)
    ensures UniqueEntries(u) && |tab| <= |u| <= |tab| + 1
    ensures forall k :: 0 <= k < |tab| ==> u[k] == AddIf(tab[k], m)
    ensures |u| > |tab| ==> u[|tab|] == Add(Blank(m.addr), m)
    ensures exists i :: 0 <= i < |u| && u[i].addr == m.addr
    ensures forall found: seq<Mail> :: found != [] && found[0] == m ==> Scanned(tab, found) == Scanned(u, found[1..])
  {
    var t := WithEntry(tab, m.addr);
    var i := Find(t, m.addr);
    u := t[i := Add(t[i], m)];
    assert u[i].addr == m.addr;
  }

  // The entries of the queue stay where they are and gain what is found for their systems;
  // systems that have none are added behind them.
  lemma {:induction false} ScanGains(tab: seq<Entry>, found: seq<Mail>)
    requires UniqueEntries(tab)
    ensures var t := Scanned(tab, found);
            && |t| >= |tab| && UniqueEntries(t)
            && (forall k :: 0 <= k < |tab| ==> Gains(tab[k], t[k], found))
            && (forall k :: |tab| <= k < |t| ==> Found(found, t[k].addr) && Gains(Blank(t[k].addr), t[k], found))
            && (forall m :: m in found ==> Find(t, m.addr) >= 0)
    decreases found
  {
    hide Gains, Add, Scanned, UniqueEntries;
    if found == [] {
      assert Scanned(tab, found) == tab by { NothingFound(tab); }
      forall k | 0 <= k < |tab| ensures Gains(tab[k], tab[k], found) { NothingGained(tab[k]); }
    } else {
      var m := found[0];
      var u := FileAdds(tab, m);
      ScanGains(u, found[1..]);
      var v := Scanned(u, found[1..]);
      var i :| 0 <= i < |u| && u[i].addr == m.addr;
      GainsKeepAddress(u[i], v[i], found[1..]);
      forall k | 0 <= k < |tab| ensures Gains(tab[k], v[k], found) {
        GainsMore(tab[k], u[k], v[k], found);
      }
      forall k | |tab| <= k < |v| ensures Found(found, v[k].addr) && Gains(Blank(v[k].addr), v[k], found) {
        AddKeepsAddress(Blank(m.addr), m);
        if k < |u| {
          GainsKeepAddress(u[k], v[k], found[1..]);
          GainsMore(Blank(m.addr), u[k], v[k], found);
        } else {
          Distinct(v, i, k);
          GainsMore(Blank(v[k].addr), Blank(v[k].addr), v[k], found);
        }
      }
      assert forall x :: x in found ==> x == m || x in found[1..];
      Entered(v, i);
    }
  }

  lemma NothingFound(tab: seq<Entry>)
    ensures Scanned(tab, []) == tab
  {
  }

  lemma Distinct(t: seq<Entry>, i: nat, k: nat)
    requires UniqueEntries(t) && i < k < |t|
    ensures t[i].addr != t[k].addr
  {
  }

  lemma AddKeepsAddress(e: Entry, m: Mail)
    ensures Add(e, m).addr == e.addr
  {
  }

  lemma GainsKeepAddress(e: Entry, f: Entry, found: seq<Mail>)
    requires Gains(e, f, found)
    ensures f.addr == e.addr
  {
  }

  lemma NothingGained(e: Entry)
    ensures Gains(e, e, [])
  {
  }

  lemma Entered(t: seq<Entry>, i: nat)
    requires i < |t|
    ensures Find(t, t[i].addr) >= 0
  {
  }

  // After a rescan an entry has exactly the flags that the outbound gives its system; a scan
  // that fails removes nobody.
  lemma RescanFinds(s: State, found: seq<Mail>, k: nat)
    requires Invariant(s) && k < |Rescan(s, found, false).tab|
    ensures var t := Rescan(s, found, false).tab;
            && |t| >= |s.tab|
            && (t[k].immed <==> FoundImmed(found, t[k].addr)) && (t[k].crash <==> FoundCrash(found, t[k].addr))
            && (t[k].usual <==> FoundUsual(found, t[k].addr)) && (t[k].mail <==> Found(found, t[k].addr))
            && (if k < |s.tab| then t[k].addr == s.tab[k].addr && t[k].busy == s.tab[k].busy && t[k].ip == s.tab[k].ip
                else !t[k].busy && !t[k].ip)
            && (forall m :: m in found ==> Find(t, m.addr) >= 0)
    ensures Rescan(s, found, true) == Swept(Rescan(s, found, false), 0)
    ensures Rescan(s, found, false) == s.(tab := Rescan(s, found, false).tab)
  {
    ScanGains(Reset(s.tab), found);
  }

  // The entries that the loop behind a scan takes for empty are those for which nothing has
  // been found.
  lemma EmptyIsUnfound(s: State, found: seq<Mail>, k: nat)
    requires Invariant(s) && k < |Rescan(s, found, false).tab|
    ensures var e := Rescan(s, found, false).tab[k];
            Empty(e) <==> !Found(found, e.addr)
  {
    hide Rescan;
    RescanFinds(s, found, k);
  }

  // ---------------------------------------------------------------------------
  // Sessions that have ended
  // ---------------------------------------------------------------------------

  // The branch of the child waits with its code, and no other changes.
  lemma ChildEnds(s: State, i: nat, rc: int)
    requires i < |s.branches| && forall k :: 0 <= k < i ==> s.branches[k].pid != s.branches[i].pid
    ensures var t := ChildExit(s, s.branches[i].pid, rc);
            && t == s.(branches := t.branches) && |t.branches| == |s.branches|
            && t.branches[i] == s.branches[i].(wait := true, rc := rc)
            && forall k :: 0 <= k < |s.branches| && k != i ==> t.branches[k] == s.branches[k]
  {
    FirstPid(s.branches, i);
  }

  lemma {:induction false} FirstPid(bs: seq<Branch>, i: nat)
    requires i < |bs| && forall k :: 0 <= k < i ==> bs[k].pid != bs[i].pid
    ensures FindPid(bs, bs[i].pid) == i
  {
    if i > 0 {
      FirstPid(bs[1..], i - 1);
    }
  }

  // The branches that are still running
  function Running(bs: seq<Branch>): seq<Branch> {
    if bs == [] then [] else (if bs[0].wait then [] else [bs[0]]) + Running(bs[1..])
  }

  // The systems whose session has ended without error
  function Served(bs: seq<Branch>): set<Address> {
    set b | b in bs && b.wait && b.rc == 0 :: b.addr
  }

  // The queue without these systems
  function Remaining(tab: seq<Entry>, gone: set<Address>): seq<Entry> {
    if tab == [] then [] else (if tab[0].addr in gone then [] else [tab[0]]) + Remaining(tab[1..], gone)
  }

  lemma {:induction false} RunningWithout(bs: seq<Branch>, i: nat)
    requires i < |bs| && bs[i].wait
    ensures Running(Without(bs, i)) == Running(bs)
  {
    if i == 0 {
      assert Without(bs, 0) == bs[1..];
    } else {
      assert Without(bs, i)[0] == bs[0] && Without(bs, i)[1..] == Without(bs[1..], i - 1);
      RunningWithout(bs[1..], i - 1);
    }
  }

  lemma {:induction false} AllRunning(bs: seq<Branch>)
    requires FindWaiting(bs) < 0
    ensures Running(bs) == bs && Served(bs) == {}
  {
    if bs != [] {
      AllRunning(bs[1..]);
      assert bs == [bs[0]] + bs[1..];
    }
  }

  lemma {:induction false} NobodyGone(tab: seq<Entry>, gone: set<Address>)
    requires forall e :: e in tab ==> e.addr !in gone
    ensures Remaining(tab, gone) == tab
  {
    if tab != [] {
      NobodyGone(tab[1..], gone);
      assert tab == [tab[0]] + tab[1..];
    }
  }

  lemma {:induction false} OneGone(tab: seq<Entry>, k: nat)
    requires UniqueEntries(tab) && k < |tab|
    ensures Without(tab, k) == Remaining(tab, {tab[k].addr})
  {
    if k == 0 {
      NobodyGone(tab[1..], {tab[0].addr});
      assert Without(tab, 0) == tab[1..];
    } else {
      OneGone(tab[1..], k - 1);
      assert Without(tab, k) == [tab[0]] + Without(tab[1..], k - 1);
    }
  }

  lemma {:induction false} GoneInTurn(tab: seq<Entry>, a: set<Address>, b: set<Address>)
    ensures Remaining(Remaining(tab, a), b) == Remaining(tab, a + b)
  {
    if tab != [] {
      GoneInTurn(tab[1..], a, b);
      if tab[0].addr in a {
        assert Remaining(tab, a) == Remaining(tab[1..], a);
      } else {
        assert Remaining(tab, a)[1..] == Remaining(tab[1..], a);
      }
    }
  }

  lemma PurgedIsRemaining(s: State, addr: Address)
    requires UniqueEntries(s.tab)
    ensures Purged(s, addr, 0).tab == Remaining(s.tab, {addr})
  {
    PurgedIsGone(s, addr, 0);
    var rest := Purged(s, addr, 0).tab;
    if k :| 0 <= k < |s.tab| && s.tab[k].addr == addr && rest == Without(s.tab, k) {
      OneGone(s.tab, k);
    } else {
      NobodyGone(s.tab, {addr});
    }
  }

  // What is left when the ended sessions have been cleared away: the branches that are still
  // running, and the systems that have not been served without error, in their order.
  lemma {:induction false} ReapLeaves(s: State)
    requires Invariant(s)
    ensures Reap(s).branches == Running(s.branches)
    ensures Reap(s).tab == Remaining(s.tab, Served(s.branches))
    decreases |s.branches|
  {
    hide Invariant, Reaped, Running, Remaining;
    var i := FindWaiting(s.branches);
    if i < 0 {
      AllRunning(s.branches);
      NobodyGone(s.tab, {});
    } else {
      var t := Reaped(s, i);
      ReapedKeeps(s, i);
      ReapedShorter(s, i);
      ReapLeaves(t);
      RunningWithout(s.branches, i);
      OneReaped(s, i);
      ServedWithout(s.branches, i);
      GoneInTurn(s.tab, if s.branches[i].rc == 0 then {s.branches[i].addr} else {}, Served(t.branches));
    }
  }

  lemma OneReaped(s: State, i: nat)
    requires Invariant(s) && i < |s.branches|
    ensures var t := Reaped(s, i);
            && t.branches == Without(s.branches, i)
            && t.tab == Remaining(s.tab, if s.branches[i].rc == 0 then {s.branches[i].addr} else {})
  {
    hide Purged, Without;
    PurgedIsRemaining(Discharged(s, i), s.branches[i].addr);
    PurgedKeeps(Discharged(s, i), s.branches[i].addr, 0);
    NobodyGone(s.tab, {});
  }

  lemma ServedWithout(bs: seq<Branch>, i: nat)
    requires i < |bs| && bs[i].wait
    ensures Served(bs) == (if bs[i].rc == 0 then {bs[i].addr} else {}) + Served(Without(bs, i))
  {
    forall b | b in bs ensures b == bs[i] || b in Without(bs, i) {
      var k :| 0 <= k < |bs| && bs[k] == b;
      assert k < i ==> Without(bs, i)[k] == b;
      assert k > i ==> Without(bs, i)[k - 1] == b;
    }
    forall b | b in Without(bs, i) ensures b in bs {
      var k :| 0 <= k < |Without(bs, i)| && Without(bs, i)[k] == b;
    }
  }

  // A restart empties the queue and leaves the branches.
  lemma RestartEmpties(s: State, maxIp: int, maxModem: int)
    ensures var t := Restarted(s, maxIp, maxModem);
            && t.tab == [] && t.modem == t.online == -1 && t.maxIp == maxIp && t.maxModem == maxModem
            && t.branches == s.branches && t.ipClients == s.ipClients && t.modemClients == s.modemClients
  {
  }
}
