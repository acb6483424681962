// The scheduler's procedures over its shared tables, proved against Daemon: the system
// queue, the cursors of the two call queues, the branch table and the client counters.
module DaemonTables {
  import opened Wrappers
  import opened Daemon
  import opened DaemonRun

  class Scheduler {
    var systab: seq<Entry>       // daemon_sys_queue.systab
    var modem: int               // daemon_queues[MODEM_QUEUE].current
    var online: int              // daemon_queues[TCPIP_QUEUE].current
    var branchTab: seq<Branch>   // daemon_branch_tab
    var tcpipClients: int
    var modemClients: int
    var maxTcpip: int
    var maxModem: int

    function Now(): State
      reads this
    {
      State(systab, modem, online, branchTab, tcpipClients, modemClients, maxTcpip, maxModem)
    }

    constructor (maxTcpip: int, maxModem: int)
      ensures Now() == NewState(maxTcpip, maxModem)
    {
      systab, modem, online, branchTab := [], -1, -1, [];
      tcpipClients, modemClients := 0, 0;
      this.maxTcpip, this.maxModem := maxTcpip, maxModem;
    }

    // -------------------------------------------------------------------------
    // daemon_branch.c
    // -------------------------------------------------------------------------

    method BranchExists(addr: Address) returns (found: bool)
      ensures found <==> Exists(branchTab, addr)
    {
      for i := 0 to |branchTab|
        invariant forall k :: 0 <= k < i ==> branchTab[k].addr != addr
      {
        if branchTab[i].addr == addr {
          return true;
        }
      }
      found := false;
    }

    method BranchExit(pid: int, rc: int) returns (known: bool)
      modifies this`branchTab
      ensures Now() == ChildExit(old(Now()), pid, rc)
      ensures known <==> exists k :: 0 <= k < |branchTab| && branchTab[k].pid == pid
    {
      assert branchTab[0..] == branchTab;
      for i := 0 to |branchTab|
        invariant branchTab == old(branchTab)
        invariant forall k :: 0 <= k < i ==> branchTab[k].pid != pid
        invariant FindPid(branchTab, pid) == if FindPid(branchTab[i..], pid) < 0 then -1
                  else FindPid(branchTab[i..], pid) + i
      {
        assert branchTab[i..][1..] == branchTab[i + 1..];
        if branchTab[i].pid == pid {
          branchTab := branchTab[i := branchTab[i].(rc := rc, wait := true)];
          assert branchTab[i].pid == pid;
          return true;
        }
      }
      known := false;
    }

    method FirstWaiting() returns (pos: int)
      ensures pos == FindWaiting(branchTab)
    {
      assert branchTab[0..] == branchTab;
      for i := 0 to |branchTab|
        invariant FindWaiting(branchTab) == if FindWaiting(branchTab[i..]) < 0 then -1
                  else FindWaiting(branchTab[i..]) + i
      {
        assert branchTab[i..][1..] == branchTab[i + 1..];
        if branchTab[i].wait {
          return i;
        }
      }
      pos := -1;
    }

    // -------------------------------------------------------------------------
    // outb_sysqueue.c
    // -------------------------------------------------------------------------

    // out_getsysentry
    method GetSysEntry(addr: Address) returns (pos: nat)
      modifies this`systab
      ensures systab == WithEntry(old(systab), addr) && pos == Find(systab, addr) && pos < |systab|
    {
      assert systab[0..] == systab;
      for i := 0 to |systab|
        invariant forall k :: 0 <= k < i ==> systab[k].addr != addr
        invariant Find(systab, addr) == if Find(systab[i..], addr) < 0 then -1 else Find(systab[i..], addr) + i
      {
        assert systab[i..][1..] == systab[i + 1..];
        if systab[i].addr == addr {
          return i;
        }
      }
      systab := systab + [Entry(addr, false, false, false, false, false, false)];
      FindUnique(systab, addr, |systab| - 1);
      pos := |systab| - 1;
    }

    // out_reset_sysqueue
    method ResetQueue()
      modifies this`systab
      ensures systab == Reset(old(systab))
    {
      for i := 0 to |systab|
        invariant |systab| == |old(systab)|
        invariant forall k :: 0 <= k < |systab| ==>
                    systab[k] == if k < i then Reset(old(systab))[k] else old(systab)[k]
      {
        systab := systab[i := systab[i].(immed := false, crash := false, usual := false, mail := false)];
      }
    }

    // daemon_rescan_sysqueue; found is what out_scan reports.
    method RescanQueue(found: seq<Mail>, ok: bool)
      modifies this`systab, this`modem, this`online
      ensures Now() == Rescan(old(Now()), found, ok)
    {
      hide Scanned;
      ResetQueue();
      Collect(found);
      if !ok {
        return;
      }
      ghost var start := Now();
      var i := 0;
      while i < |systab|
        invariant Swept(Now(), i) == Swept(start, 0)
        decreases |systab| - i
      {
        if Empty(systab[i]) {
          systab, modem, online := Without(systab, i), Moved(modem, i), Moved(online, i);
        }
        i := i + 1;
      }
    }

    // The callbacks of out_scan
    method Collect(found: seq<Mail>)
      modifies this`systab
      ensures systab == Scanned(old(systab), found)
    {
      hide Find, WithEntry;
      assert found[0..] == found;
      for k := 0 to |found|
        invariant Scanned(systab, found[k..]) == Scanned(old(systab), found)
      {
        assert found[k..][1..] == found[k + 1..];
        var pos := GetSysEntry(found[k].addr);
        systab := systab[pos := Add(systab[pos], found[k])];
      }
    }

    // -------------------------------------------------------------------------
    // Selection
    // -------------------------------------------------------------------------

    // daemon_node_cancall; a list of lines also settles how the system is called.
    method CanCall(pos: nat, verdict: Address -> Verdict) returns (ok: bool)
      requires pos < |systab|
      modifies this`systab
      ensures ok == Callable(old(systab)[pos], branchTab, verdict)
      ensures systab == if ok then old(systab)[pos := Tried(old(systab)[pos], verdict(old(systab)[pos].addr))]
              else old(systab)
    {
      var e := systab[pos];
      if e.busy {
        return false;
      }
      var running := BranchExists(e.addr);
      if running {
        return false;
      }
      var v := verdict(e.addr);
      ok := v.ok;
      if ok && v.line.Some? {
        systab := systab[pos := e.(ip := v.line.value)];
      }
    }

    // One of the two loops of daemon_getnext; `more` is what is searched afterwards.
    method Search(lo: nat, hi: nat, normal: int, verdict: Address -> Verdict, ghost more: seq<nat>)
      returns (found: bool, next: int)
      requires hi <= |systab| && -1 <= normal < |systab|
      requires forall k :: 0 <= k < |more| ==> more[k] < |systab|
      modifies this`systab
      ensures |systab| == |old(systab)| && -1 <= next < |systab| && (found ==> next >= 0)
      ensures Scan(old(systab), branchTab, verdict, Range(lo, hi) + more, normal)
           == if found then Choice(systab, next) else Scan(systab, branchTab, verdict, more, next)
    {
      hide Callable, Tried, Urgent, Scan, Range;
      next := normal;
      var i := lo;
      while i < hi
        invariant lo <= i && |systab| == |old(systab)| && -1 <= next < |systab|
        invariant Scan(old(systab), branchTab, verdict, Range(lo, hi) + more, normal)
               == Scan(systab, branchTab, verdict, Range(i, hi) + more, next)
      {
        ScanStep(systab, branchTab, verdict, i, hi, more, next);
        if Urgent(systab[i]) {
          var can := CanCall(i, verdict);
          if can {
            return true, i;
          }
        } else if systab[i].usual && next == -1 {
          var can := CanCall(i, verdict);
          if can {
            next := i;
          }
        }
        i := i + 1;
      }
      RangeEmpty(i, hi);
      assert Range(i, hi) + more == more;
      found := false;
    }

    // daemon_getnext
    method Next(current: int, verdict: Address -> Verdict) returns (next: int)
      requires current < |systab|
      modifies this`systab
      ensures Choice(systab, next) == GetNext(old(systab), branchTab, verdict, current)
      ensures |systab| == |old(systab)| && -1 <= next < |systab|
    {
      hide Scan, Range;
      var c := if current < 0 then 0 else current;
      var hi := if c + 1 < |systab| then c + 1 else |systab|;
      OrderInside(|systab|, current);
      var found, normal := Search(c + 1, |systab|, -1, verdict, Range(0, hi));
      if found {
        return normal;
      }
      assert Range(0, hi) + [] == Range(0, hi);
      found, next := Search(0, hi, normal, verdict, []);
      if !found {
        ScanNothing(systab, branchTab, verdict, next);
      }
    }

    // -------------------------------------------------------------------------
    // Calls
    // -------------------------------------------------------------------------

    // daemon_queue_do, for a queue that is served
    method QueueDo(ip: bool, luck: Luck)
      requires ValidCursors(Now())
      modifies this`systab, this`modem, this`online, this`branchTab, this`tcpipClients, this`modemClients
      ensures Now() == Serve(old(Now()), ip, luck)
    {
      hide Select, Call;
      if (if ip then maxTcpip else maxModem) <= 0 {
        return;
      }
      var current := if ip then online else modem;
      var select := current < 0;
      if current >= 0 && luck.due {
        select := BranchExists(systab[current].addr);
        if !select {
          CallKeepsQueue(Now(), current, luck);
          var call := Call(Now(), current, luck.locked, luck.port, luck.pid);
          branchTab, tcpipClients, modemClients := call.s.branches, call.s.ipClients, call.s.modemClients;
          select := !call.refused;
        }
      }
      if select {
        SelectNext(ip, luck.verdict);
      }
    }

    // daemon_getnext2: the busy flag goes from the old cursor to the new one, the other
    // cursor and all other flags stay.
    method SelectNext(ip: bool, verdict: Address -> Verdict)
      requires ValidCursors(Now())
      modifies this`systab, this`modem, this`online
      ensures Now() == Select(old(Now()), ip, verdict)
    {
      hide GetNext;
      var current := if ip then online else modem;
      systab := SetBusy(systab, current, false);
      var next := Next(current, verdict);
      systab := SetBusy(systab, next, true);
      if ip {
        online := next;
      } else {
        modem := next;
      }
    }

    // -------------------------------------------------------------------------
    // Finished branches
    // -------------------------------------------------------------------------

    method PurgeSystem(addr: Address)
      modifies this`systab, this`modem, this`online
      ensures Now() == Purged(old(Now()), addr, 0)
      ensures UniqueEntries(old(systab)) ==> Left(old(systab), addr, systab)
    {
      hide Left;
      assert UniqueEntries(systab) ==> Left(systab, addr, Purged(Now(), addr, 0).tab) by {
        if UniqueEntries(systab) {
          PurgedIsGone(Now(), addr, 0);
        }
      }
      var j := 0;
      while j < |systab|
        invariant Purged(Now(), addr, j) == Purged(old(Now()), addr, 0)
        decreases |systab| - j
      {
        if systab[j].addr == addr {
          systab, modem, online := Without(systab, j), Moved(modem, j), Moved(online, j);
        }
        j := j + 1;
      }
    }

    // daemon_remove_waiting_branches, with daemon_branch_remove
    method RemoveWaitingBranches()
      modifies this`systab, this`modem, this`online, this`branchTab, this`tcpipClients, this`modemClients
      ensures Now() == Reap(old(Now()))
      ensures forall k :: 0 <= k < |branchTab| ==> !branchTab[k].wait
    {
      hide Purged;
      var i := FirstWaiting();
      while i >= 0
        invariant i == FindWaiting(branchTab)
        invariant Reap(Now()) == Reap(old(Now()))
        decreases |branchTab|
      {
        ghost var before := Now();
        ReapedShorter(before, i);
        var b := branchTab[i];
        if b.ip {
          tcpipClients := tcpipClients - 1;
        } else {
          modemClients := modemClients - 1;
        }
        branchTab := branchTab[..i] + branchTab[i + 1..];
        if b.rc == 0 {
          PurgeSystem(b.addr);
        }
        assert Now() == Reaped(before, i);
        i := FirstWaiting();
      }
      NoneWaiting(branchTab);
    }
  }

  lemma CallKeepsQueue(s: State, pos: nat, luck: Luck)
    requires pos < |s.tab| && ValidCursors(s)
    ensures var t := Call(s, pos, luck.locked, luck.port, luck.pid).s;
            ValidCursors(t) && t == s.(branches := t.branches, ipClients := t.ipClients, modemClients := t.modemClients)
  {
  }

  lemma {:induction false} NoneWaiting(bs: seq<Branch>)
    requires FindWaiting(bs) < 0
    ensures forall k :: 0 <= k < |bs| ==> !bs[k].wait
  {
    if bs != [] {
      NoneWaiting(bs[1..]);
      assert forall k :: 1 <= k < |bs| ==> bs[k] == bs[1..][k - 1];
    }
  }

  lemma RangeEmpty(lo: nat, hi: nat)
    requires lo >= hi
    ensures Range(lo, hi) == []
  {
  }

  lemma ScanNothing(tab: seq<Entry>, bs: seq<Branch>, verdict: Address -> Verdict, normal: int)
    ensures Scan(tab, bs, verdict, [], normal) == Choice(tab, normal)
  {
  }

  // What a search does with the index it has come to.
  lemma ScanStep(tab: seq<Entry>, bs: seq<Branch>, verdict: Address -> Verdict, i: nat, hi: nat, more: seq<nat>,
                 normal: int)
    requires i < hi <= |tab| && forall k :: 0 <= k < |more| ==> more[k] < |tab|
    ensures var e := tab[i];
            var rest := Range(i + 1, hi) + more;
            Scan(tab, bs, verdict, Range(i, hi) + more, normal)
            == if Urgent(e) then
                 if Callable(e, bs, verdict) then Choice(tab[i := Tried(e, verdict(e.addr))], i)
                 else Scan(tab, bs, verdict, rest, normal)
               else if e.usual && normal == -1 && Callable(e, bs, verdict) then
                 Scan(tab[i := Tried(e, verdict(e.addr))], bs, verdict, rest, i)
               else Scan(tab, bs, verdict, rest, normal)
  {
    hide Callable, Tried, Urgent;
    var rest := Range(i + 1, hi) + more;
    assert Range(i, hi) + more == [i] + rest;
    assert ([i] + rest)[1..] == rest;
  }

  lemma {:induction false} FindUnique(tab: seq<Entry>, addr: Address, pos: nat)
    requires pos < |tab| && tab[pos].addr == addr && forall k :: 0 <= k < pos ==> tab[k].addr != addr
    ensures Find(tab, addr) == pos
  {
    if pos > 0 {
      FindUnique(tab[1..], addr, pos - 1);
    }
  }
}
