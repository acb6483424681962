// The scheduler of source/bforce/daemon.c with its branch table (daemon_branch.c), the
// limits of daemon_call.c and the system queue of outb_sysqueue.c, as state and steps.
// What time, the outbound, the nodelist and fork() bring is an input of each step.
module Daemon {
  import opened Wrappers

  type Address = nat

  datatype Entry = Entry(
    addr: Address,
    busy: bool,
    ip: bool,            // tcpip: the current line is called via TCP/IP
    immed: bool, crash: bool, usual: bool,  // flavors; usual is direct or normal
    mail: bool)          // types, or any flavor that is not called

  datatype Branch = Branch(addr: Address, pid: int, ip: bool, wait: bool, rc: int)

  datatype State = State(
    tab: seq<Entry>,
    modem: int, online: int,        // current of the modem queue and of the IP queue
    branches: seq<Branch>,
    ipClients: int, modemClients: int,
    maxIp: int, maxModem: int)

  function NewState(maxIp: int, maxModem: int): State {
    State([], -1, -1, [], 0, 0, maxIp, maxModem)
  }

  function Cursor(s: State, ip: bool): int {
    if ip then s.online else s.modem
  }

  function SetCursor(s: State, ip: bool, c: int): State {
    if ip then s.(online := c) else s.(modem := c)
  }

  // ---------------------------------------------------------------------------
  // Branch table
  // ---------------------------------------------------------------------------

  // daemon_branch_exist
  predicate Exists(bs: seq<Branch>, addr: Address) {
    exists i :: 0 <= i < |bs| && bs[i].addr == addr
  }

  // The first branch with this pid, or the first waiting one; -1 if there is none.
  function FindPid(bs: seq<Branch>, pid: int): (i: int)
    ensures -1 <= i < |bs| && (i >= 0 ==> bs[i].pid == pid)
  {
    if bs == [] then -1
    else if bs[0].pid == pid then 0
    else
      var i := FindPid(bs[1..], pid);
      if i < 0 then -1 else i + 1
  }

  function FindWaiting(bs: seq<Branch>): (i: int)
    ensures -1 <= i < |bs| && (i >= 0 ==> bs[i].wait)
  {
    if bs == [] then -1
    else if bs[0].wait then 0
    else
      var i := FindWaiting(bs[1..]);
      if i < 0 then -1 else i + 1
  }

  function Without<T>(s: seq<T>, pos: nat): (r: seq<T>)
    requires pos < |s|
    ensures |r| == |s| - 1
    ensures forall k :: 0 <= k < |r| ==> r[k] == if k < pos then s[k] else s[k + 1]
  {
    s[..pos] + s[pos + 1..]
  }

  function Count(bs: seq<Branch>, ip: bool): (n: nat)
    ensures n <= |bs|
  {
    if bs == [] then 0 else Count(bs[..|bs| - 1], ip) + if bs[|bs| - 1].ip == ip then 1 else 0
  }

  // daemon_branch_exit, called when a child has ended
  function ChildExit(s: State, pid: int, rc: int): State {
    var i := FindPid(s.branches, pid);
    if i < 0 then s else s.(branches := s.branches[i := s.branches[i].(rc := rc, wait := true)])
  }

  // ---------------------------------------------------------------------------
  // System queue
  // ---------------------------------------------------------------------------

  function Find(tab: seq<Entry>, addr: Address): (i: int)
    ensures -1 <= i < |tab| && (i >= 0 ==> tab[i].addr == addr)
    ensures i < 0 ==> forall k :: 0 <= k < |tab| ==> tab[k].addr != addr
  {
    if tab == [] then -1
    else if tab[0].addr == addr then 0
    else
      var i := Find(tab[1..], addr);
      if i < 0 then -1 else i + 1
  }

  // out_getsysentry: the entry of the address, added if need be
  function WithEntry(tab: seq<Entry>, addr: Address): (t: seq<Entry>)
    ensures Find(t, addr) >= 0
  {
    if Find(tab, addr) >= 0 then tab
    else
      var t := tab + [Entry(addr, false, false, false, false, false, false)];
      assert t[|tab|].addr == addr;
      t
  }

  // daemon_queues_update_current
  function Moved(c: int, pos: nat): int {
    if c < 0 then c else if c == pos then -1 else if c > pos then c - 1 else c
  }

  // out_remove_from_sysqueue and the cursors
  function Removed(s: State, pos: nat): State
    requires pos < |s.tab|
  {
    s.(tab := Without(s.tab, pos), modem := Moved(s.modem, pos), online := Moved(s.online, pos))
  }

  // out_reset_sysqueue
  function Reset(tab: seq<Entry>): (r: seq<Entry>)
    ensures |r| == |tab|
    ensures forall k :: 0 <= k < |tab| ==>
              r[k] == tab[k].(immed := false, crash := false, usual := false, mail := false)
  {
    if tab == [] then []
    else [tab[0].(immed := false, crash := false, usual := false, mail := false)] + Reset(tab[1..])
  }

  // A file found in the outbound: whom it is for, and what it adds.
  datatype Mail = Mail(addr: Address, immed: bool, crash: bool, usual: bool)

  function Add(e: Entry, m: Mail): Entry {
    e.(immed := e.immed || m.immed, crash := e.crash || m.crash, usual := e.usual || m.usual, mail := true)
  }

  function Scanned(tab: seq<Entry>, found: seq<Mail>): seq<Entry>
    decreases found
  {
    if found == [] then tab
    else
      var m := found[0];
      var t := WithEntry(tab, m.addr);
      var i := Find(t, m.addr);
      Scanned(t[i := Add(t[i], m)], found[1..])
  }

  predicate Empty(e: Entry) {
    !e.immed && !e.crash && !e.usual && !e.mail
  }

  // The loop that removes empty entries; it goes on behind the one that has moved up.
  function Swept(s: State, i: nat): State
    decreases |s.tab| - i
  {
    if i >= |s.tab| then s
    else if Empty(s.tab[i]) then Swept(Removed(s, i), i + 1)
    else Swept(s, i + 1)
  }

  // daemon_rescan_sysqueue; a failed scan leaves the entries it has found so far.
  function Rescan(s: State, found: seq<Mail>, ok: bool): State {
    var t := s.(tab := Scanned(Reset(s.tab), found));
    if ok then Swept(t, 0) else t
  }

  // ---------------------------------------------------------------------------
  // Calls
  // ---------------------------------------------------------------------------

  datatype Called = Called(s: State, refused: bool)

  // daemon_call: `locked` is a busy flag in the outbound, `port` a free modem port, `pid`
  // the child, unless fork() fails.
  function Call(s: State, pos: nat, locked: bool, port: bool, pid: Option<int>): Called
    requires pos < |s.tab|
  {
    var e := s.tab[pos];
    if e.ip && s.maxIp != 0 && s.maxIp <= s.ipClients then Called(s, true)
    else if !e.ip && s.maxModem != 0 && s.maxModem <= s.modemClients then Called(s, true)
    else if locked then Called(s, false)
    else if !e.ip && !port then Called(s, true)
    else
      match pid
      case None => Called(s, true)
      case Some(p) =>
        var b := Branch(e.addr, p, e.ip, false, 0);
        Called(s.(branches := s.branches + [b],
                  ipClients := if e.ip then s.ipClients + 1 else s.ipClients,
                  modemClients := if e.ip then s.modemClients else s.modemClients + 1), false)
  }

  // What daemon_node_cancall finds out beside busy flags and branches: whether the system
  // may be called now, and by which kind of line if it has a list of lines.
  datatype Verdict = Verdict(ok: bool, line: Option<bool>)

  predicate Callable(e: Entry, bs: seq<Branch>, verdict: Address -> Verdict) {
    !e.busy && !Exists(bs, e.addr) && verdict(e.addr).ok
  }

  function Tried(e: Entry, v: Verdict): Entry {
    if v.line.Some? then e.(ip := v.line.value) else e
  }

  predicate Urgent(e: Entry) { e.immed || e.crash }

  datatype Choice = Choice(tab: seq<Entry>, next: int)

  // The indices daemon_getnext visits: behind the current one, then from the start up to it.
  function Order(n: nat, current: int): (o: seq<nat>)
    requires current < n
  {
    var c := if current < 0 then 0 else current;
    Range(c + 1, n) + Range(0, if c + 1 < n then c + 1 else n)
  }

  function Range(lo: nat, hi: nat): (r: seq<nat>)
    ensures |r| == if lo < hi then hi - lo else 0
    ensures forall k :: 0 <= k < |r| ==> r[k] == lo + k
    decreases hi - lo
  {
    if lo >= hi then [] else [lo] + Range(lo + 1, hi)
  }

  // Its two loops over such a list, `normal` being the first ordinary system so far.
  function Scan(tab: seq<Entry>, bs: seq<Branch>, verdict: Address -> Verdict, order: seq<nat>, normal: int): Choice
    requires forall k :: 0 <= k < |order| ==> order[k] < |tab|
    decreases |order|
  {
    if order == [] then Choice(tab, normal)
    else
      var i := order[0];
      var e := tab[i];
      if Urgent(e) then
        if Callable(e, bs, verdict) then Choice(tab[i := Tried(e, verdict(e.addr))], i)
        else Scan(tab, bs, verdict, order[1..], normal)
      else if e.usual && normal == -1 && Callable(e, bs, verdict) then
        Scan(tab[i := Tried(e, verdict(e.addr))], bs, verdict, order[1..], i)
      else Scan(tab, bs, verdict, order[1..], normal)
  }

  function GetNext(tab: seq<Entry>, bs: seq<Branch>, verdict: Address -> Verdict, current: int): Choice
    requires current < |tab|
  {
    OrderInside(|tab|, current);
    Scan(tab, bs, verdict, Order(|tab|, current), -1)
  }

  lemma OrderInside(n: nat, current: int)
    requires current < n
    ensures forall k :: 0 <= k < |Order(n, current)| ==> Order(n, current)[k] < n
  {
  }

  // ---------------------------------------------------------------------------
  // Steps
  // ---------------------------------------------------------------------------

  // What one turn of a queue depends on.
  datatype Luck = Luck(due: bool, locked: bool, port: bool, pid: Option<int>, verdict: Address -> Verdict)

  predicate ValidCursors(s: State) {
    -1 <= s.modem < |s.tab| && -1 <= s.online < |s.tab|
  }

  function SetBusy(tab: seq<Entry>, i: int, b: bool): (r: seq<Entry>)
    requires i < |tab|
    ensures |r| == |tab|
  {
    if i < 0 then tab else tab[i := tab[i].(busy := b)]
  }

  // daemon_getnext2 and the end of daemon_queue_do
  function Select(s: State, ip: bool, verdict: Address -> Verdict): State
    requires ValidCursors(s)
  {
    var c := Cursor(s, ip);
    var t := SetBusy(s.tab, c, false);
    var g := GetNext(t, s.branches, verdict, c);
    ScanLength(t, s.branches, verdict, Order(|t|, c), -1);
    SetCursor(s.(tab := SetBusy(g.tab, g.next, true)), ip, if g.next >= 0 then g.next else -1)
  }

  lemma {:induction false} ScanLength(tab: seq<Entry>, bs: seq<Branch>, verdict: Address -> Verdict, order: seq<nat>,
                                      normal: int)
    requires forall k :: 0 <= k < |order| ==> order[k] < |tab|
    requires -1 <= normal < |tab|
    ensures var g := Scan(tab, bs, verdict, order, normal); |g.tab| == |tab| && -1 <= g.next < |tab|
    decreases |order|
  {
    hide Callable, Tried, Urgent;
    if order != [] {
      var i := order[0];
      var e := tab[i];
      ScanLength(tab, bs, verdict, order[1..], normal);
      ScanLength(tab[i := Tried(e, verdict(e.addr))], bs, verdict, order[1..], i);
    }
  }

  // daemon_queue_do: a call that is started, or held off by a busy flag, makes room for the
  // next system; a refused one is tried again.
  function QueueTurn(s: State, ip: bool, luck: Luck): State
    requires ValidCursors(s)
  {
    var c := Cursor(s, ip);
    if c < 0 then Select(s, ip, luck.verdict)
    else if !luck.due then s
    else if Exists(s.branches, s.tab[c].addr) then Select(s, ip, luck.verdict)
    else
      var r := Call(s, c, luck.locked, luck.port, luck.pid);
      if r.refused then r.s else Select(r.s, ip, luck.verdict)
  }

  // A queue whose limit is not positive is not served.
  function Serve(s: State, ip: bool, luck: Luck): State
    requires ValidCursors(s)
  {
    if (if ip then s.maxIp else s.maxModem) > 0 then QueueTurn(s, ip, luck) else s
  }

  // The branch leaves the table and is counted off.
  function Discharged(s: State, i: nat): State
    requires i < |s.branches|
  {
    var b := s.branches[i];
    s.(ipClients := if b.ip then s.ipClients - 1 else s.ipClients,
       modemClients := if b.ip then s.modemClients else s.modemClients - 1,
       branches := Without(s.branches, i))
  }

  // One turn of the loop in daemon_remove_waiting_branches; rc 0 is a session without error.
  function Reaped(s: State, i: nat): State
    requires i < |s.branches|
  {
    var b := s.branches[i];
    if b.rc == 0 then Purged(Discharged(s, i), b.addr, 0) else Discharged(s, i)
  }

  // The removal of the system that has been served; the loop goes on behind it.
  function Purged(s: State, addr: Address, j: nat): State
    decreases |s.tab| - j
  {
    if j >= |s.tab| then s
    else if s.tab[j].addr == addr then Purged(Removed(s, j), addr, j + 1)
    else Purged(s, addr, j + 1)
  }

  // daemon_remove_waiting_branches
  function Reap(s: State): State
    decreases |s.branches|
  {
    var i := FindWaiting(s.branches);
    if i < 0 then s
    else
      ReapedShorter(s, i);
      Reap(Reaped(s, i))
  }

  lemma PurgedKeeps(s: State, addr: Address, j: nat)
    ensures Purged(s, addr, j).branches == s.branches
    decreases |s.tab| - j
  {
  }

  lemma ReapedShorter(s: State, i: nat)
    requires i < |s.branches|
    ensures |Reaped(s, i).branches| == |s.branches| - 1
  {
    PurgedKeeps(Discharged(s, i), s.branches[i].addr, 0);
  }

  // DM_Restart and DM_Start: the queue is emptied and the limits are read again.
  function Restarted(s: State, maxIp: int, maxModem: int): State {
    s.(tab := [], modem := -1, online := -1, maxIp := maxIp, maxModem := maxModem)
  }
}
