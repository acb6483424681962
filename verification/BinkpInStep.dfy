// The transfer of BinkpResume stays in step: while the receiver is taking data, the next
// block in flight starts exactly where its file ends, whatever M_GET crossed on the way.
module BinkpInStep {
  import opened Wrappers
  import opened Crc
  import opened Files
  import opened BinkpResume

  // ---------------------------------------------------------------------------
  // What is in flight
  // ---------------------------------------------------------------------------

  predicate NoFile(q: seq<Forward>) {
    forall i :: 0 <= i < |q| ==> !q[i].FileAt?
  }

  predicate NoData(q: seq<Forward>) {
    forall i :: 0 <= i < |q| ==> !q[i].Data?
  }

  // Where the blocks in q lead when they continue the file from `from`; -1 if they do not.
  function Reach(f: File, q: seq<Forward>, from: int): int {
    if q == [] then from
    else
      match q[0]
      case Eob => Reach(f, q[1..], from)
      case Data(bytes) => if bytes != [] && Slice(f, from, bytes) then Reach(f, q[1..], from + |bytes|) else -1
      case FileAt(_) => -1
  }

  // From the first M_FILE on.
  function Offer(q: seq<Forward>): (r: seq<Forward>)
    ensures r != [] ==> r[0].FileAt?
  {
    if q == [] || q[0].FileAt? then q else Offer(q[1..])
  }

  // No empty block, and no data after an M_EOB until the next M_FILE; `ended` says whether an M_EOB came before q.
  predicate NoLateData(q: seq<Forward>, ended: bool) {
    q == [] || match q[0]
      case Eob => NoLateData(q[1..], true)
      case FileAt(_) => NoLateData(q[1..], false)
      case Data(bytes) => bytes != [] && !ended && NoLateData(q[1..], false)
  }

  // Whether the last of them that counts is an M_EOB.
  function EndedAfter(q: seq<Forward>, ended: bool): bool {
    if q == [] then ended
    else
      match q[|q| - 1]
      case Eob => true
      case FileAt(_) => false
      case Data(_) => EndedAfter(q[..|q| - 1], ended)
  }

  lemma {:induction false} ReachAppend(f: File, q: seq<Forward>, m: Forward, from: int)
    requires Reach(f, q, from) >= 0
    ensures Reach(f, q + [m], from) == Reach(f, [m], Reach(f, q, from))
  {
    if q == [] {
      assert q + [m] == [m];
    } else {
      assert (q + [m])[1..] == q[1..] + [m];
      match q[0] {
        case Eob => ReachAppend(f, q[1..], m, from);
        case Data(bytes) => ReachAppend(f, q[1..], m, from + |bytes|);
      }
    }
  }

  lemma {:induction false} ReachNoFile(f: File, q: seq<Forward>, from: int)
    requires Reach(f, q, from) >= 0
    ensures NoFile(q)
    ensures NoData(q) ==> Reach(f, q, from) == from
    ensures from >= |f| ==> NoData(q)
  {
    if q != [] {
      match q[0] {
        case Eob => ReachNoFile(f, q[1..], from);
        case Data(bytes) => ReachNoFile(f, q[1..], from + |bytes|);
      }
    }
  }

  lemma {:induction false} OfferAppend(q: seq<Forward>, m: Forward)
    ensures Offer(q) != [] ==> Offer(q + [m]) == Offer(q) + [m]
    ensures NoFile(q) ==> Offer(q) == [] && Offer(q + [m]) == if m.FileAt? then [m] else []
  {
    if q == [] {
      assert q + [m] == [m];
    } else {
      assert (q + [m])[1..] == q[1..] + [m];
      OfferAppend(q[1..], m);
    }
  }

  lemma {:induction false} NoLateAppend(q: seq<Forward>, m: Forward, ended: bool)
    requires NoLateData(q, ended) && (m.Data? ==> m.bytes != [] && !EndedAfter(q, ended))
    ensures NoLateData(q + [m], ended)
  {
    if q == [] {
      assert q + [m] == [m];
    } else {
      assert (q + [m])[1..] == q[1..] + [m];
      var e := match q[0] case Eob => true case FileAt(_) => false case Data(_) => false;
      EndedHead(q, ended);
      NoLateAppend(q[1..], m, e);
    }
  }

  lemma {:induction false} EndedHead(q: seq<Forward>, ended: bool)
    requires q != []
    ensures EndedAfter(q, ended) == EndedAfter(q[1..], if q[0].Eob? then true else if q[0].FileAt? then false
            else ended)
  {
    var n := |q| - 1;
    if n > 0 {
      assert q[1..][..n - 1] == q[..n][1..];
      EndedHead(q[..n], ended);
    }
  }

  // No data before the first M_FILE.
  predicate QuietLead(q: seq<Forward>) {
    q == [] || q[0].FileAt? || (q[0].Eob? && QuietLead(q[1..]))
  }

  // After an M_EOB only an M_FILE brings data.
  lemma {:induction false} EndedMeansQuiet(q: seq<Forward>)
    requires NoLateData(q, true)
    ensures QuietLead(q)
    ensures NoFile(q) ==> NoData(q) && EndedAfter(q, true)
  {
    if q != [] && !q[0].FileAt? {
      EndedMeansQuiet(q[1..]);
      EndedHead(q, true);
    }
  }

  // ---------------------------------------------------------------------------
  // The stages of a transfer
  // ---------------------------------------------------------------------------

  predicate Sends(a: Sender) {
    a.phase == SendData && !a.ended
  }

  // The file has been offered and its fate is open.
  predicate Fresh(a: Sender) {
    !a.queued && a.current && (a.status == InProcess || a.status == WaitAck)
  }

  predicate Kept(b: Receiver, k: nat) {
    b.open && k == b.skipped == b.received == |b.disk|
  }

  predicate Unsent(a: Sender, b: Receiver, q: seq<Forward>, p: seq<Answer>) {
    a.queued && a.phase == NextFile && !a.current && q == [] && p == [] && b.frs == Nothing && !b.open
  }

  predicate Offered(f: File, a: Sender, b: Receiver, q: seq<Forward>, p: seq<Answer>) {
    && Fresh(a) && p == [] && b.frs == Nothing && !b.open
    && q != [] && q[0].FileAt?
    && (q[0].off == 0 || !Sends(a))
    && Reach(f, q[1..], 0) == a.bytesSent
    && (q[0].off == 0 || (q[0].off == -1 && a.bytesSent == 0))
  }

  predicate Asked(a: Sender, b: Receiver, q: seq<Forward>, p: seq<Answer>) {
    && Fresh(a) && p == [Get(b.skipped)] && Kept(b, b.skipped)
    && NoFile(q)
    && (b.frs == DidGet || (b.frs == Nothing && NoData(q) && !Sends(a)))
  }

  predicate Answered(f: File, a: Sender, b: Receiver, q: seq<Forward>, p: seq<Answer>) {
    var o := Offer(q);
    && Fresh(a) && p == [] && Kept(b, b.skipped)
    && o != [] && o[0] == FileAt(b.skipped)
    && Reach(f, o[1..], b.skipped) == a.bytesSent
    && (b.frs == DidGet || (b.frs == Nothing && QuietLead(q)))
  }

  predicate Transfer(f: File, a: Sender, b: Receiver, q: seq<Forward>, p: seq<Answer>) {
    && Fresh(a) && p == [] && b.frs == Receiving
    && b.open && b.received == |b.disk|
    && Reach(f, q, b.received) == a.bytesSent
  }

  // Nothing more is to come of it.
  predicate Lost(a: Sender, b: Receiver, q: seq<Forward>, p: seq<Answer>) {
    && !a.queued && p == [] && NoFile(q) && !Sends(a)
    && (b.frs == DidGet || (b.frs == Nothing && NoData(q)))
  }

  predicate Over(f: File, a: Sender, b: Receiver, q: seq<Forward>, p: seq<Answer>) {
    && !a.queued && !b.open && NoFile(q)
    && |p| <= 1 && (p != [] ==> !p[0].Get? && Fresh(a))
    && (b.frs == Skipping || (b.frs == Nothing && NoData(q) && (Sends(a) ==> a.bytesSent == |f|)))
  }

  predicate Stage(f: File, a: Sender, b: Receiver, q: seq<Forward>, p: seq<Answer>) {
    || Unsent(a, b, q, p) || Offered(f, a, b, q, p) || Asked(a, b, q, p) || Answered(f, a, b, q, p)
    || Transfer(f, a, b, q, p) || Lost(a, b, q, p) || Over(f, a, b, q, p)
  }

  // The receiver has the file, or has an excuse.
  predicate Settled(b: Receiver) {
    b.inbound != [] || b.declined || b.failed
  }

  predicate Sound(f: File, a: Sender, b: Receiver, q: seq<Forward>, p: seq<Answer>) {
    && a.fpos == a.bytesSent <= |f|
    && b.disk <= f && (forall k :: 0 <= k < |b.inbound| ==> b.inbound[k] == f)
    && b.error == None && !a.crashed
    && NoLateData(q, b.ended) && (Sends(a) ==> !EndedAfter(q, b.ended))
    && (Got in p ==> Settled(b)) && (a.released ==> Settled(b))
  }

  predicate Good(f: File, a: Sender, b: Receiver, q: seq<Forward>, p: seq<Answer>) {
    Sound(f, a, b, q, p) && Stage(f, a, b, q, p)
  }

  predicate Invariant(s: System) {
    !s.b.premature ==> Good(s.file, s.a, s.b, s.ab + Held(s.a.slot), s.ba + Held(s.b.slot))
  }

  // ---------------------------------------------------------------------------
  // The sender's steps
  // ---------------------------------------------------------------------------

  // What follows when the sender adds m to what is in flight.
  lemma SoundAppend(f: File, a: Sender, b: Receiver, q: seq<Forward>, p: seq<Answer>, c: Sender, m: Forward)
    requires Sound(f, a, b, q, p) && (m.Data? ==> m.bytes != [] && Sends(a))
    requires c.fpos == c.bytesSent <= |f| && c.crashed == a.crashed && c.released == a.released
    requires Sends(c) ==> !m.Eob? && (m.Data? ==> Sends(a))
    ensures Sound(f, c, b, q + [m], p)
  {
    NoLateAppend(q, m, b.ended);
    assert (q + [m])[..|q|] == q;
  }

  lemma {:induction false} QuietAppend(q: seq<Forward>, m: Forward)
    requires QuietLead(q) && (Offer(q) != [] || !m.Data?)
    ensures QuietLead(q + [m])
  {
    if q == [] {
      assert q + [m] == [m];
    } else {
      assert (q + [m])[1..] == q[1..] + [m];
      if q[0].Eob? {
        QuietAppend(q[1..], m);
      }
    }
  }

  // The sender's record of the file is the same and it sends no data of its own accord.
  predicate Pauses(a: Sender, c: Sender) {
    !c.queued && !Sends(c) && c.bytesSent == a.bytesSent && c.current == a.current && (Fresh(a) ==> Fresh(c))
  }

  lemma StageEob(f: File, a: Sender, b: Receiver, q: seq<Forward>, p: seq<Answer>, c: Sender)
    requires Stage(f, a, b, q, p) && !a.queued && Pauses(a, c)
    ensures Stage(f, c, b, q + [Eob], p)
  {
    hide Fresh, Sends, Kept;
    var r := q + [Eob];
    if Offered(f, a, b, q, p) {
      ReachAppend(f, q[1..], Eob, 0);
      assert r[1..] == q[1..] + [Eob];
      assert Offered(f, c, b, r, p);
    } else if Answered(f, a, b, q, p) {
      var o := Offer(q);
      OfferAppend(q, Eob);
      ReachAppend(f, o[1..], Eob, b.skipped);
      assert Offer(r)[1..] == o[1..] + [Eob];
      if b.frs == Nothing { QuietAppend(q, Eob); }
      assert Answered(f, c, b, r, p);
    } else if Transfer(f, a, b, q, p) {
      ReachAppend(f, q, Eob, b.received);
      assert Transfer(f, c, b, r, p);
    } else if Asked(a, b, q, p) {
      assert Asked(c, b, r, p);
    } else if Lost(a, b, q, p) {
      assert Lost(c, b, r, p);
    } else {
      assert Over(f, c, b, r, p);
    }
  }

  lemma StageData(f: File, a: Sender, b: Receiver, q: seq<Forward>, p: seq<Answer>, c: Sender, bytes: seq<Byte>)
    requires Stage(f, a, b, q, p) && Sends(a) && bytes != [] && Slice(f, a.bytesSent, bytes)
    requires c == a.(fpos := c.fpos, bytesSent := a.bytesSent + |bytes|)
    ensures Stage(f, c, b, q + [Data(bytes)], p)
  {
    var m := Data(bytes);
    var r := q + [m];
    assert Sends(c) && (Fresh(a) ==> Fresh(c));
    if Offered(f, a, b, q, p) {
      ReachAppend(f, q[1..], m, 0);
      assert r[1..] == q[1..] + [m];
      assert Offered(f, c, b, r, p);
    } else if Answered(f, a, b, q, p) {
      var o := Offer(q);
      OfferAppend(q, m);
      ReachAppend(f, o[1..], m, b.skipped);
      assert Offer(r)[1..] == o[1..] + [m];
      if b.frs == Nothing { QuietAppend(q, m); }
      assert Answered(f, c, b, r, p);
    } else if Transfer(f, a, b, q, p) {
      ReachAppend(f, q, m, b.received);
      assert Transfer(f, c, b, r, p);
    } else if Asked(a, b, q, p) {
      assert Asked(c, b, r, p);
    } else {
      assert Over(f, c, b, r, p);
    }
  }

  lemma AnnounceKeeps(f: File, a: Sender, b: Receiver, q: seq<Forward>, p: seq<Answer>)
    requires Good(f, a, b, q, p) && !Sends(a)
    ensures Good(f, Announce(a).a, b, q + Announce(a).out, p)
  {
    hide Settled, NoLateData, EndedAfter, Stage;
    var t := Announce(a);
    SoundAppend(f, a, b, q, p, t.a, t.out[0]);
    if a.queued {
      FirstOffer(f, a, b, q, p);
    } else {
      StageEob(f, a, b, q, p, t.a);
    }
  }

  lemma FirstOffer(f: File, a: Sender, b: Receiver, q: seq<Forward>, p: seq<Answer>)
    requires Stage(f, a, b, q, p) && a.queued
    ensures Stage(f, Announce(a).a, b, q + Announce(a).out, p)
  {
    var t := Announce(a);
    assert q + t.out == t.out;
    assert Offered(f, t.a, b, t.out, p);
  }

  // What the stages and the rest of the invariant see of a sender that makes no step.
  predicate Alike(a: Sender, c: Sender) {
    && c.queued == a.queued && c.current == a.current && c.status == a.status && c.phase == a.phase
    && c.fpos == a.fpos && c.bytesSent == a.bytesSent && c.crashed == a.crashed && c.released == a.released
  }

  lemma AlikeKeeps(f: File, a: Sender, b: Receiver, q: seq<Forward>, p: seq<Answer>, c: Sender)
    requires Good(f, a, b, q, p) && Alike(a, c) && (a.ended ==> c.ended)
    ensures Good(f, c, b, q, p)
  {
    hide NoLateData, EndedAfter, NoFile, NoData, Reach, Offer, QuietLead, Settled, Kept;
  }

  lemma NextBlockKeeps(f: File, a: Sender, b: Receiver, q: seq<Forward>, p: seq<Answer>, readOk: bool)
    requires Good(f, a, b, q, p) && Sends(a)
    ensures Good(f, NextBlock(a, f, readOk).a, b, q + NextBlock(a, f, readOk).out, p)
  {
    hide Stage, Settled, NoLateData, EndedAfter;
    var t := NextBlock(a, f, readOk);
    var n := Min(READ_SIZE, |f| - a.fpos);
    assert a.fpos == a.bytesSent;
    if !readOk || !a.fpOpen {
      AlikeKeeps(f, a, b, q, p, t.a);
      assert q + [] == q;
    } else if n > 0 {
      var bytes := f[a.fpos..a.fpos + n];
      SoundAppend(f, a, b, q, p, t.a, Data(bytes));
      StageData(f, a, b, q, p, t.a, bytes);
    } else {
      LastKeeps(f, a, b, q, p);
      AnnounceKeeps(f, a.(status := WaitAck, phase := NextFile), b, q, p);
    }
  }

  lemma LastKeeps(f: File, a: Sender, b: Receiver, q: seq<Forward>, p: seq<Answer>)
    requires Good(f, a, b, q, p) && Sends(a)
    ensures Good(f, a.(status := WaitAck, phase := NextFile), b, q, p)
  {
    hide NoLateData, EndedAfter, NoFile, NoData, Reach, Offer, QuietLead, Settled, Kept;
  }

  lemma GetForSendKeeps(f: File, a: Sender, b: Receiver, q: seq<Forward>, p: seq<Answer>, readOk: bool)
    requires Good(f, a, b, q, p) && !a.ended && a.slot == Free
    ensures Good(f, GetForSend(a, f, readOk).a, b, q + GetForSend(a, f, readOk).out, p)
  {
    hide Good, Announce, NextBlock;
    var c := if a.continueSend then a.(noMore := false, continueSend := false) else a;
    AlikeKeeps(f, a, b, q, p, c);
    assert q + [] == q;
    if !c.noMore {
      match c.phase {
        case NextFile => AnnounceKeeps(f, c, b, q, p);
        case SendData => NextBlockKeeps(f, c, b, q, p, readOk);
        case AllSent => AlikeKeeps(f, c, b, q, p, c.(noMore := true));
      }
    }
  }

  // M_GET brings the sender back to the place asked for.
  lemma HearGetKeeps(f: File, a: Sender, b: Receiver, q: seq<Forward>, p: seq<Answer>, seekOk: bool)
    requires Good(f, a, b, q, p) && !a.ended && a.slot == Free && p != [] && p[0].Get?
    ensures var c := HearGet(a, p[0].off, seekOk); Good(f, c, b, q + Held(c.slot), p[1..])
  {
    hide NoLateData, EndedAfter, QuietLead, Settled, NoData;
    assert Asked(a, b, q, p);
    var k := p[0].off;
    var c := HearGet(a, k, seekOk);
    if c.ended {
      assert q + [] == q;
      assert Lost(c, b, q, []);
    } else {
      NoLateAppend(q, FileAt(k), b.ended);
      EndedByFile(q, k, b.ended);
      OfferAppend(q, FileAt(k));
      if b.frs == Nothing {
        QuietOfNoData(q);
        QuietAppend(q, FileAt(k));
      }
      assert Answered(f, c, b, q + [FileAt(k)], []);
    }
  }

  lemma EndedByFile(q: seq<Forward>, k: int, ended: bool)
    ensures !EndedAfter(q + [FileAt(k)], ended)
  {
  }

  lemma {:induction false} QuietOfNoData(q: seq<Forward>)
    requires NoData(q)
    ensures QuietLead(q)
  {
    if q != [] && q[0].Eob? {
      QuietOfNoData(q[1..]);
    }
  }

  lemma HearEndKeeps(f: File, a: Sender, b: Receiver, q: seq<Forward>, p: seq<Answer>)
    requires Good(f, a, b, q, p) && p != [] && !p[0].Get?
    ensures Good(f, HearEnd(a, p[0].Skip?), b, q, p[1..])
  {
    hide NoLateData, EndedAfter, Reach, Offer, QuietLead, Settled, NoFile, NoData;
    assert Over(f, a, b, q, p);
    var c := HearEnd(a, p[0].Skip?);
    assert Over(f, c, b, q, []);
  }

  // ---------------------------------------------------------------------------
  // The receiver's steps
  // ---------------------------------------------------------------------------

  lemma HearEobKeeps(f: File, a: Sender, b: Receiver, q: seq<Forward>, p: seq<Answer>, c: Receiver)
    requires Good(f, a, b, q, p) && q != [] && q[0] == Eob
    requires c == b.(recvDone := b.recvDone + 1, ended := true)
    ensures Good(f, a, c, q[1..], p)
  {
    EndedHead(q, b.ended);
    StagePopEob(f, a, b, q, p, c);
  }

  // A message that does not concern the file goes by.
  lemma StagePopEob(f: File, a: Sender, b: Receiver, q: seq<Forward>, p: seq<Answer>, c: Receiver)
    requires Stage(f, a, b, q, p) && q != [] && q[0] == Eob
    requires c == b.(recvDone := b.recvDone + 1, ended := true)
    ensures Stage(f, a, c, q[1..], p)
  {
    hide Fresh, Sends;
    var r := q[1..];
    assert Kept(b, b.skipped) ==> Kept(c, b.skipped);
    if Answered(f, a, b, q, p) {
      assert Answered(f, a, c, r, p);
    } else if Transfer(f, a, b, q, p) {
      assert Transfer(f, a, c, r, p);
    } else if Asked(a, b, q, p) {
      assert Asked(a, c, r, p);
    } else if Lost(a, b, q, p) {
      assert Lost(a, c, r, p);
    } else {
      assert Over(f, a, c, r, p);
    }
  }

  // Data nobody waits for goes by as well.
  lemma IgnoredKeeps(f: File, a: Sender, b: Receiver, q: seq<Forward>, p: seq<Answer>)
    requires Good(f, a, b, q, p) && q != [] && q[0].Data? && (b.frs == DidGet || b.frs == Skipping)
    ensures Good(f, a, b, q[1..], p)
  {
    EndedHead(q, b.ended);
    var r := q[1..];
    if Answered(f, a, b, q, p) {
      assert Answered(f, a, b, r, p);
    } else if Asked(a, b, q, p) {
      assert Asked(a, b, r, p);
    } else if Lost(a, b, q, p) {
      assert Lost(a, b, r, p);
    } else {
      assert Over(f, a, b, r, p);
    }
  }

  // The M_FILE that answers M_GET.
  lemma AnswerKeeps(f: File, a: Sender, b: Receiver, q: seq<Forward>, p: seq<Answer>)
    requires Good(f, a, b, q, p) && q != [] && q[0].FileAt? && b.open
    ensures b.frs != Receiving && b.skipped == q[0].off
    ensures Good(f, a, b.(frs := Receiving, ended := false), q[1..], p)
  {
    EndedHead(q, b.ended);
    assert Answered(f, a, b, q, p);
    assert Transfer(f, a, b.(frs := Receiving, ended := false), q[1..], p);
  }

  // The first M_FILE.
  lemma OfferKeeps(f: File, a: Sender, b: Receiver, q: seq<Forward>, p: seq<Answer>, open: OpenOutcome)
    requires Good(f, a, b, q, p) && q != [] && q[0].FileAt? && !b.open && b.slot == Free
    ensures b.frs == Nothing && p == []
    ensures var c := HearOffer(b, q[0].off, open).(ended := false);
            Good(f, a, c, q[1..], Held(c.slot)) && c.premature == b.premature
  {
    assert Offered(f, a, b, q, p);
    hide Stage, Offered;
    OfferSound(f, a, b, q, p, open);
    OfferStage(f, a, b, q, p, open);
  }

  lemma OfferSound(f: File, a: Sender, b: Receiver, q: seq<Forward>, p: seq<Answer>, open: OpenOutcome)
    requires Sound(f, a, b, q, p) && q != [] && q[0].FileAt? && !b.open && b.slot == Free && p == []
    ensures var c := HearOffer(b, q[0].off, open).(ended := false);
            Sound(f, a, c, q[1..], Held(c.slot)) && c.premature == b.premature
  {
    hide EndedAfter, Sends, NoLateData, Settled;
    OfferEnds(q, b.ended);
    HeardOffer(b, q[0].off, open);
    OfferedSettled(b, q[0].off, open);
  }

  lemma OfferedSettled(b: Receiver, off: int, open: OpenOutcome)
    ensures Settled(b) ==> Settled(HearOffer(b, off, open).(ended := false))
    ensures !b.open && Got in Held(HearOffer(b, off, open).slot) && b.slot == Free ==>
              Settled(HearOffer(b, off, open).(ended := false))
  {
  }

  lemma OfferEnds(q: seq<Forward>, ended: bool)
    requires q != [] && q[0].FileAt? && NoLateData(q, ended)
    ensures NoLateData(q[1..], false) && EndedAfter(q, ended) == EndedAfter(q[1..], false)
  {
    EndedHead(q, ended);
  }

  lemma OfferStage(f: File, a: Sender, b: Receiver, q: seq<Forward>, p: seq<Answer>, open: OpenOutcome)
    requires Offered(f, a, b, q, p) && b.slot == Free
    ensures b.frs == Nothing && p == []
    ensures var c := HearOffer(b, q[0].off, open).(ended := false); Stage(f, a, c, q[1..], Held(c.slot))
  {
    var c := HearOffer(b, q[0].off, open).(ended := false);
    var r := q[1..];
    ReachNoFile(f, r, 0);
    if open.OpenResume? {
      assert Kept(c, c.skipped);
      if c.frs == Receiving {
        assert Transfer(f, a, c, r, []);
      } else {
        assert Asked(a, c, r, [Get(c.skipped)]);
      }
    } else {
      assert Over(f, a, c, r, Held(c.slot));
    }
  }

  // A block in its place.
  lemma DataKeeps(f: File, a: Sender, b: Receiver, q: seq<Forward>, p: seq<Answer>, write: WriteOutcome, closeOk: bool)
    requires Good(f, a, b, q, p) && q != [] && q[0].Data? && b.frs == Receiving && b.slot == Free
    ensures p == [] && q[0].bytes != [] && Slice(f, b.received, q[0].bytes) && b.received == |b.disk|
    ensures var c := HearData(b, q[0].bytes, |f|, write, closeOk);
            Good(f, a, c, q[1..], Held(c.slot)) && c.premature == b.premature
  {
    EndedHead(q, b.ended);
    assert Transfer(f, a, b, q, p);
    var bytes := q[0].bytes;
    var r := q[1..];
    var c := HearData(b, bytes, |f|, write, closeOk);
    var to := b.received + |bytes|;
    ReachNoFile(f, r, to);
    match write {
      case WriteOk =>
        PrefixGrows(f, b.disk, bytes, |bytes|);
        assert bytes[..|bytes|] == bytes;
        if to == |f| {
          assert c.disk == f;
          assert Over(f, a, c, r, Held(c.slot));
        } else {
          assert Transfer(f, a, c, r, []);
        }
      case WriteError(part) =>
        PrefixGrows(f, b.disk, bytes, Min(part, |bytes|));
        assert Over(f, a, c, r, [Skip]);
      case WriteGone =>
        assert Over(f, a, c, r, [Got]);
    }
  }

  // Every message finds the receiver in a mode that expects it.
  lemma NeverSurprised(f: File, a: Sender, b: Receiver, q: seq<Forward>, p: seq<Answer>)
    requires Good(f, a, b, q, p) && q != []
    ensures q[0].FileAt? ==> b.frs != Receiving && b.frs != Skipping && (b.frs == DidGet ==> b.open)
    ensures q[0].Data? ==> b.frs != Nothing && (b.frs == Receiving ==> q[0].bytes != [])
  {
    hide Sound, Fresh, Sends;
  }

  lemma HearOfferOpen(b: Receiver, off: int, open: OpenOutcome)
    requires b.open && b.skipped == off
    ensures HearOffer(b, off, open) == b.(frs := Receiving)
  {
  }

  lemma HearBlockKeeps(f: File, a: Sender, b: Receiver, q: seq<Forward>, ba: seq<Answer>, open: OpenOutcome,
                       write: WriteOutcome, closeOk: bool)
    requires Good(f, a, b, q, ba + Held(b.slot)) && q != []
    ensures var h := DoReceiveBlock(b, q[0], |f|, open, write, closeOk);
            && h.b.premature == b.premature
            && (h.taken ==> Good(f, a, h.b, q[1..], ba + Held(h.b.slot)))
  {
    hide Good, HearOffer, HearData;
    var p := ba + Held(b.slot);
    var h := DoReceiveBlock(b, q[0], |f|, open, write, closeOk);
    NeverSurprised(f, a, b, q, p);
    match q[0] {
      case Eob => HearEobKeeps(f, a, b, q, p, h.b);
      case FileAt(off) =>
        if b.open {
          AnswerKeeps(f, a, b, q, p);
          HearOfferOpen(b, off, open);
        } else if b.slot == Free {
          OfferKeeps(f, a, b, q, p, open);
          assert ba == [] && ba + Held(h.b.slot) == Held(h.b.slot);
        }
      case Data(bytes) =>
        if b.frs == DidGet || b.frs == Skipping {
          IgnoredKeeps(f, a, b, q, p);
        } else if b.slot == Free {
          DataKeeps(f, a, b, q, p, write, closeOk);
          assert ba == [] && ba + Held(h.b.slot) == Held(h.b.slot);
        }
    }
  }

  // A new batch finds either no file in hand, or one whose data has all been sent.
  lemma RestartKeeps(f: File, a: Sender, b: Receiver, q: seq<Forward>, p: seq<Answer>)
    requires Good(f, a, b, q, p) && b.recvDone > 0 && b.sendDone > 0
    requires b.frs == Nothing || b.ended
    ensures Good(f, a, Restart(b), q, p)
  {
    var c := Restart(b);
    if b.frs != Nothing {
      EndedMeansQuiet(q);
      if Answered(f, a, b, q, p) {
        assert Answered(f, a, c, q, p);
      } else if Transfer(f, a, b, q, p) {
        ReachNoFile(f, q, b.received);
        assert Lost(a, c, q, p);
      } else if Asked(a, b, q, p) {
        assert Asked(a, c, q, p);
      } else if Lost(a, b, q, p) {
        assert Lost(a, c, q, p);
      } else {
        assert Over(f, a, c, q, p);
      }
    } else {
      assert Stage(f, a, c, q, p) by { OnlyCounters(f, a, b, q, p, c); }
    }
  }

  lemma OnlyCounters(f: File, a: Sender, b: Receiver, q: seq<Forward>, p: seq<Answer>, c: Receiver)
    requires Stage(f, a, b, q, p)
    requires c == b.(recvDone := c.recvDone, sendDone := c.sendDone, premature := c.premature, slot := c.slot)
    ensures Stage(f, a, c, q, p)
  {
    hide Fresh, Sends, NoFile, NoData, Reach, Offer, QuietLead;
  }

  lemma SenderRestartKeeps(f: File, a: Sender, b: Receiver, q: seq<Forward>, p: seq<Answer>, c: Sender)
    requires Good(f, a, b, q, p)
    requires c == a.(phase := NextFile, noMore := c.noMore, sendDone := c.sendDone, recvDone := c.recvDone)
    ensures Good(f, c, b, q, p)
  {
    hide NoLateData, EndedAfter, NoFile, NoData, Reach, Offer, QuietLead, Settled, Kept;
  }

  // ---------------------------------------------------------------------------
  // Whole runs
  // ---------------------------------------------------------------------------

  lemma SenderTurnKeeps(s: System, readOk: bool)
    requires Invariant(s)
    ensures Invariant(SenderTurn(s, readOk))
  {
    hide Good, GetForSend;
    var t := GetForSend(s.a, s.file, readOk);
    if !s.a.ended && !s.b.premature {
      var q, p := s.ab + Held(s.a.slot), s.ba + Held(s.b.slot);
      if s.a.slot == Free {
        assert q == s.ab;
        GetForSendKeeps(s.file, s.a, s.b, q, p, readOk);
        GetForSendLeavesFree(s.a, s.file, readOk);
        assert s.ab + t.out + Held(t.a.slot) == s.ab + t.out;
      } else {
        SlotGoesOut(s.a, s.file, readOk);
        AlikeKeeps(s.file, s.a, s.b, q, p, t.a);
        assert s.ab + t.out + Held(t.a.slot) == q;
      }
    }
  }

  lemma SlotGoesOut(a: Sender, file: File, readOk: bool)
    requires a.slot != Free && !a.ended
    ensures var t := GetForSend(a, file, readOk);
            t.out == Held(a.slot) && t.a.slot == Free && Alike(a, t.a) && !t.a.ended
  {
    hide Announce, NextBlock;
  }

  lemma AnnounceSlot(a: Sender)
    ensures Announce(a).a.slot == a.slot
  {
  }

  lemma NextBlockSlot(a: Sender, file: File, readOk: bool)
    ensures NextBlock(a, file, readOk).a.slot == a.slot
  {
    hide Announce;
    AnnounceSlot(a.(status := WaitAck, phase := NextFile));
  }

  lemma GetForSendLeavesFree(a: Sender, file: File, readOk: bool)
    ensures GetForSend(a, file, readOk).a.slot == Free
  {
    hide Announce, NextBlock;
    var c := if a.continueSend then a.(noMore := false, continueSend := false) else a;
    AnnounceSlot(c);
    NextBlockSlot(c, file, readOk);
  }

  lemma SenderListensKeeps(s: System, seekOk: bool)
    requires Invariant(s)
    ensures Invariant(SenderListens(s, seekOk))
  {
    hide Good, HearGet, HearEnd;
    if !s.a.ended && CanHear(s) && !s.b.premature {
      var q, p := s.ab + Held(s.a.slot), s.ba + Held(s.b.slot);
      assert p[0] == s.ba[0] && p[1..] == s.ba[1..] + Held(s.b.slot);
      if p[0].Get? {
        HearGetKeeps(s.file, s.a, s.b, q, p, seekOk);
        assert q == s.ab;
      } else {
        HearEndKeeps(s.file, s.a, s.b, q, p);
        HearEndSlot(s.a, p[0].Skip?);
      }
    }
  }

  lemma HearEndSlot(a: Sender, skip: bool)
    ensures HearEnd(a, skip).slot == a.slot
  {
  }

  lemma ReceiverListensKeeps(s: System, open: OpenOutcome, write: WriteOutcome, closeOk: bool)
    requires Invariant(s)
    ensures Invariant(ReceiverListens(s, open, write, closeOk))
  {
    hide Good, DoReceiveBlock;
    if s.ab != [] && s.b.error == None {
      if s.b.premature {
        BlockKeepsPremature(s.b, s.ab[0], |s.file|, open, write, closeOk);
      } else {
        var q := s.ab + Held(s.a.slot);
        assert q[0] == s.ab[0] && q[1..] == s.ab[1..] + Held(s.a.slot);
        HearBlockKeeps(s.file, s.a, s.b, q, s.ba, open, write, closeOk);
      }
    }
  }

  lemma OfferKeepsPremature(b: Receiver, off: int, open: OpenOutcome)
    ensures HearOffer(b, off, open).premature == b.premature
  {
  }

  lemma DataKeepsPremature(b: Receiver, bytes: seq<Byte>, total: nat, write: WriteOutcome, closeOk: bool)
    ensures HearData(b, bytes, total, write, closeOk).premature == b.premature
  {
  }

  lemma BlockKeepsPremature(b: Receiver, m: Forward, total: nat, open: OpenOutcome, write: WriteOutcome, closeOk: bool)
    requires b.premature
    ensures DoReceiveBlock(b, m, total, open, write, closeOk).b.premature
  {
    hide HearOffer, HearData;
    match m {
      case Eob =>
      case FileAt(off) => OfferKeepsPremature(b, off, open);
      case Data(bytes) => DataKeepsPremature(b, bytes, total, write, closeOk);
    }
  }

  lemma SlotKeeps(s: System, c: Receiver, p: seq<Answer>)
    requires Invariant(s) && !s.b.premature
    requires c == s.b.(slot := c.slot, sendDone := c.sendDone) && p == s.ba + Held(s.b.slot)
    ensures Good(s.file, s.a, c, s.ab + Held(s.a.slot), p)
  {
    hide Stage, NoLateData, EndedAfter;
    OnlyCounters(s.file, s.a, s.b, s.ab + Held(s.a.slot), p, c);
  }

  lemma SenderRestartsKeep(s: System)
    requires Invariant(s)
    ensures Invariant(SenderRestart(s))
  {
    hide Good;
    if !s.b.premature && SenderRestart(s) != s {
      SenderRestartKeeps(s.file, s.a, s.b, s.ab + Held(s.a.slot), s.ba + Held(s.b.slot), SenderRestart(s).a);
    }
  }

  lemma ReceiverRestartsKeep(s: System)
    requires Invariant(s)
    ensures Invariant(ReceiverRestart(s))
  {
    hide Good;
    if !s.b.premature && s.b.recvDone > 0 && s.b.sendDone > 0 && (s.b.frs == Nothing || s.b.ended) {
      RestartKeeps(s.file, s.a, s.b, s.ab + Held(s.a.slot), s.ba + Held(s.b.slot));
    }
  }

  lemma TakeKeeps(s: System, step: Step)
    requires Invariant(s)
    ensures Invariant(Take(s, step))
  {
    hide Good, SenderTurn, SenderListens, SenderRestart, ReceiverListens, ReceiverRestart;
    match step {
      case SenderSends(readOk) => SenderTurnKeeps(s, readOk);
      case SenderHears(seekOk) => SenderListensKeeps(s, seekOk);
      case SenderRestarts => SenderRestartsKeep(s);
      case ReceiverHears(open, write, closeOk) => ReceiverListensKeeps(s, open, write, closeOk);
      case ReceiverRestarts => ReceiverRestartsKeep(s);
      case _ => CountersKeep(s, step);
    }
  }

  lemma CountersKeep(s: System, step: Step)
    requires Invariant(s) && (step.SenderBusy? || step.SenderBatch? || step.ReceiverSends? || step.ReceiverBusy?
            || step.ReceiverBatch?)
    ensures Invariant(Take(s, step))
  {
    hide Invariant;
    if step.SenderBusy? || step.SenderBatch? {
      SenderCountersKeep(s, Take(s, step));
    } else {
      ReceiverCountersKeep(s, Take(s, step));
    }
  }

  lemma SenderCountersKeep(s: System, t: System)
    requires Invariant(s) && t == s.(a := t.a) && Alike(s.a, t.a) && t.a.ended == s.a.ended
            && Held(t.a.slot) == Held(s.a.slot)
    ensures Invariant(t)
  {
    hide Good, Held, Alike;
    if !s.b.premature {
      AlikeKeeps(s.file, s.a, s.b, s.ab + Held(s.a.slot), s.ba + Held(s.b.slot), t.a);
    }
  }

  lemma ReceiverCountersKeep(s: System, t: System)
    requires Invariant(s) && t == s.(b := t.b, ba := t.ba) && t.b == s.b.(slot := t.b.slot, sendDone := t.b.sendDone)
    requires t.ba + Held(t.b.slot) == s.ba + Held(s.b.slot)
    ensures Invariant(t)
  {
    hide Good, Held;
    if !s.b.premature {
      SlotKeeps(s, t.b, s.ba + Held(s.b.slot));
    }
  }

  lemma InitialInvariant(s: System)
    requires Initial(s)
    ensures Invariant(s)
  {
    assert Unsent(s.a, s.b, [], []);
  }

  lemma {:induction false} RunInvariant(s: System, steps: seq<Step>)
    requires Initial(s)
    ensures Invariant(Run(s, steps))
  {
    hide Invariant, Take, Initial;
    if steps == [] {
      InitialInvariant(s);
    } else {
      RunInvariant(s, steps[..|steps| - 1]);
      TakeKeeps(Run(s, steps[..|steps| - 1]), steps[|steps| - 1]);
    }
  }

  // ---------------------------------------------------------------------------
  // Results
  // ---------------------------------------------------------------------------

  function InFlight(s: System): seq<Forward> {
    s.ab + Held(s.a.slot)
  }

  // The first data block of q, if any.
  function NextData(q: seq<Forward>): seq<Byte> {
    if q == [] then [] else if q[0].Data? then q[0].bytes else NextData(q[1..])
  }

  lemma {:induction false} ReachNext(f: File, q: seq<Forward>, from: int)
    requires Reach(f, q, from) >= 0 && from <= |f|
    ensures 0 <= from && Slice(f, from, NextData(q))
    decreases |q|
  {
    if q != [] {
      match q[0] {
        case Eob => ReachNext(f, q[1..], from);
        case Data(bytes) =>
      }
    }
  }

  // While data is being taken, the next block in flight starts exactly at bytes_received,
  // and so do the blocks after it, up to where the sender will go on reading.
  lemma InStep(start: System, steps: seq<Step>)
    requires Initial(start)
    ensures var s := Run(start, steps);
            !s.b.premature && s.b.frs == Receiving ==>
              && s.b.received <= |s.file| && s.b.disk == s.file[..s.b.received]
              && NoFile(InFlight(s)) && Slice(s.file, s.b.received, NextData(InFlight(s)))
              && Reach(s.file, InFlight(s), s.b.received) == s.a.bytesSent == s.a.fpos
  {
    hide Run, Initial;
    RunInvariant(start, steps);
    var s := Run(start, steps);
    if !s.b.premature && s.b.frs == Receiving {
      assert Transfer(s.file, s.a, s.b, InFlight(s), s.ba + Held(s.b.slot));
      ReachNoFile(s.file, InFlight(s), s.b.received);
      ReachNext(s.file, InFlight(s), s.b.received);
    }
  }

  // No M_FILE overlaps, no data is unexpected or too much, and pi->send is never used
  // after it has been closed.
  lemma NoProtocolErrors(start: System, steps: seq<Step>)
    requires Initial(start)
    ensures var s := Run(start, steps); !s.b.premature ==> s.b.error == None && !s.a.crashed
  {
    hide Run, Initial, Stage;
    RunInvariant(start, steps);
  }

  // M_GOT is sent, and the sender's file given up, only for a complete identical copy, unless
  // the receiver said it has the file already or lost its own copy.
  lemma GotMeansDelivered(start: System, steps: seq<Step>)
    requires Initial(start)
    ensures var s := Run(start, steps);
            !s.b.premature && !s.b.declined && !s.b.failed
            && (Got in s.ba || s.b.slot == Holds(Got) || s.a.released) ==>
              s.b.inbound != [] && s.b.inbound[0] == s.file
  {
    hide Run, Initial, Stage;
    RunInvariant(start, steps);
    var s := Run(start, steps);
    assert Got in s.ba || s.b.slot == Holds(Got) ==> Got in s.ba + Held(s.b.slot);
  }

  // ---------------------------------------------------------------------------
  // A batch that restarts too early
  // ---------------------------------------------------------------------------

  // A restart goes wrong exactly when the next block in flight is data, in every state of the
  // receiver.  It is then in the middle of a file, and has seen no M_EOB since the M_FILE.
  lemma RestartFails(s: System, open: OpenOutcome, write: WriteOutcome, closeOk: bool)
    requires Invariant(s) && !s.b.premature && s.ab != []
    requires s.b.recvDone > 0 && s.b.sendDone > 0
    ensures Take(Take(s, ReceiverRestarts), ReceiverHears(open, write, closeOk)).b.error.Some? <==> s.ab[0].Data?
    ensures s.ab[0].Data? ==> s.b.frs != Nothing && !s.b.ended
  {
    hide Invariant, Good, InFlight, HearOffer, HearData;
    var b := Restart(s.b);
    NextInFlight(s);
    assert Take(s, ReceiverRestarts) == s.(b := b);
    if s.ab[0].FileAt? {
      HeardOffer(b, s.ab[0].off, open);
    }
  }

  lemma HeardOffer(b: Receiver, off: int, open: OpenOutcome)
    ensures HearOffer(b, off, open).error == b.error
  {
  }

  lemma NextInFlight(s: System)
    requires Invariant(s) && !s.b.premature
    ensures s.b.error == None
    ensures s.ab != [] && s.ab[0].Data? ==> s.ab[0].bytes != [] && s.b.frs != Nothing && !s.b.ended
  {
    var q := InFlight(s);
    assert s.ab != [] ==> q[0] == s.ab[0];
    if q != [] && q[0].Data? {
      DataInFlight(s.file, s.a, s.b, q, s.ba + Held(s.b.slot));
    }
  }

  lemma DataInFlight(f: File, a: Sender, b: Receiver, q: seq<Forward>, p: seq<Answer>)
    requires Good(f, a, b, q, p) && q != [] && q[0].Data?
    ensures q[0].bytes != [] && b.frs != Nothing && !b.ended
  {
  }

  ghost predicate Reaches(start: System, s: System) {
    exists steps :: Run(start, steps) == s
  }

  lemma ReachesNext(start: System, s: System, step: Step)
    requires Reaches(start, s)
    ensures Reaches(start, Take(s, step))
  {
    hide Take;
    var steps :| Run(start, steps) == s;
    assert (steps + [step])[..|steps|] == steps;
    assert Run(start, steps + [step]) == Take(s, step);
  }

  function TwoBytes(x: Byte, y: Byte): System {
    System(NewSender(false), NewReceiver([x]), [x, y], [], [])
  }

  lemma Crossing(x: Byte, y: Byte) returns (s: System)
    ensures Reaches(TwoBytes(x, y), s) && s.file == [x, y]
    ensures s.ab == [Data([x, y]), Eob] && s.ba == [Get(1)]
    ensures s.a.phase == AllSent && s.a.current && s.a.fpOpen && s.a.fpos == s.a.bytesSent == 2 && s.a.slot == Free
            && !s.a.ended
    ensures s.b == NewReceiver([x]).(frs := DidGet, open := true, received := 1, skipped := 1, ended := false)
  {
    hide Reaches;
    var s0 := TwoBytes(x, y);
    assert Reaches(s0, s0) by { StartReached(s0); }
    var s1 := Take(s0, SenderSends(true));
    ReachesNext(s0, s0, SenderSends(true));
    var s2 := Take(s1, SenderSends(true));
    ReachesNext(s0, s1, SenderSends(true));
    assert s0.file[0..2] == [x, y];
    var s3 := Take(s2, SenderSends(true));
    ReachesNext(s0, s2, SenderSends(true));
    var s4 := Take(s3, ReceiverHears(OpenResume(1), WriteOk, true));
    ReachesNext(s0, s3, ReceiverHears(OpenResume(1), WriteOk, true));
    s := Take(s4, ReceiverSends);
    ReachesNext(s0, s4, ReceiverSends);
  }

  lemma StartReached(s: System)
    ensures Reaches(s, s)
  {
    assert Run(s, []) == s;
  }

  lemma Reannounced(x: Byte, y: Byte) returns (s: System)
    ensures Reaches(TwoBytes(x, y), s)
    ensures s.ab == [Data([x, y]), Eob, FileAt(1), Data([y])]
    ensures s.b == NewReceiver([x]).(frs := DidGet, open := true, received := 1, skipped := 1, ended := false)
  {
    hide Reaches;
    var s0 := TwoBytes(x, y);
    var s5 := Crossing(x, y);
    var s6 := Take(s5, SenderHears(true));
    ReachesNext(s0, s5, SenderHears(true));
    var s7 := Take(s6, SenderSends(true));
    ReachesNext(s0, s6, SenderSends(true));
    LastBlock(s7, x, y);
    s := Take(s7, SenderSends(true));
    ReachesNext(s0, s7, SenderSends(true));
  }

  lemma LastBlock(s: System, x: Byte, y: Byte)
    requires s.file == [x, y] && s.a.phase == SendData && s.a.fpOpen && s.a.fpos == s.a.bytesSent == 1
    requires s.a.slot == Free && !s.a.ended && !s.a.noMore
    ensures Take(s, SenderSends(true)).ab == s.ab + [Data([y])] && Take(s, SenderSends(true)).b == s.b
  {
    assert s.file[1..2] == [y];
  }

  lemma EobCounted(x: Byte, y: Byte) returns (s: System)
    ensures Reaches(TwoBytes(x, y), s)
    ensures s.ab == [Data([y])]
    ensures s.b.frs == Receiving && s.b.recvDone == 1 && s.b.sendDone == 0 && s.b.error == None
  {
    hide Reaches;
    var s0 := TwoBytes(x, y);
    var s8 := Reannounced(x, y);
    var hear := ReceiverHears(OpenResume(1), WriteOk, true);
    var s9 := Take(s8, hear);
    ReachesNext(s0, s8, hear);
    var s10 := Take(s9, hear);
    ReachesNext(s0, s9, hear);
    s := Take(s10, hear);
    ReachesNext(s0, s10, hear);
  }

  // The M_EOB sent before M_GET arrived still counts for the batch in which the file is
  // sent again: the other transfer's end restarts the batch in the middle of the file, and
  // the block in flight is taken for an error.
  lemma PrematureRestartFails(x: Byte, y: Byte)
    ensures Initial(TwoBytes(x, y))
    ensures exists s :: Reaches(TwoBytes(x, y), s) && s.b.error == Some(UnexpectedData)
  {
    hide Reaches;
    var s0 := TwoBytes(x, y);
    var s11 := EobCounted(x, y);
    var s12 := Take(s11, ReceiverBatch);
    ReachesNext(s0, s11, ReceiverBatch);
    var s13 := Take(s12, ReceiverRestarts);
    ReachesNext(s0, s12, ReceiverRestarts);
    var s := Take(s13, ReceiverHears(OpenRefuse, WriteOk, true));
    ReachesNext(s0, s13, ReceiverHears(OpenRefuse, WriteOk, true));
  }
}
