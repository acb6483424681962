// What the invariant of HydraSafety means for whole transfers: prefix safety, commit
// agreement, true offsets and block sizes.
module HydraOutcome {
  import opened Wrappers
  import opened Crc
  import opened Files
  import opened HydraSession
  import opened HydraSafety

  ghost predicate Reachable(s: System) {
    exists trace: seq<System> :: Run(trace) && trace[|trace| - 1] == s
  }

  // A run goes on with any turn.
  lemma Extend(trace: seq<System>, t: System)
    requires Run(trace) && Next(trace[|trace| - 1], t)
    ensures Run(trace + [t])
  {
    hide Next, Initial;
    var longer := trace + [t];
    forall k | 0 <= k < |longer| - 1 ensures Next(longer[k], longer[k + 1]) {
      if k < |trace| - 1 {
        assert Next(trace[k], trace[k + 1]);
      }
    }
  }

  lemma ReachableInvariant(s: System)
    requires Reachable(s)
    ensures Invariant(s)
  {
    hide Invariant;
    var trace :| Run(trace) && trace[|trace| - 1] == s;
    RunInvariant(trace, |trace| - 1);
  }

  // ---------------------------------------------------------------------------
  // Safety
  // ---------------------------------------------------------------------------

  // What has been written is the beginning of f; while the transfer is going on it is
  // exactly the first bytes_received bytes; nothing but f itself is ever moved to the inbound.
  predicate HoldsPrefix(f: File, rx: Receiver) {
    && rx.disk <= f
    && (rx.state == RxData || rx.state == RxRpos || rx.state == RxRposAck ==>
          0 <= rx.received <= |f| && rx.disk == f[..rx.received])
    && forall k :: 0 <= k < |rx.inbound| ==> rx.inbound[k] == f
  }

  lemma PrefixSafety(s: System)
    requires Reachable(s)
    ensures HoldsPrefix(s.a.file, s.b.rx) && HoldsPrefix(s.b.file, s.a.rx)
  {
    hide Both, RxOk, TxOk, HoldsPrefix, GoodForward, GoodBackward;
    ReachableInvariant(s);
    BothSwaps(s.a, s.b, s.ab, s.ba);
    BothOk(s.a, s.b, s.ab, s.ba);
    BothOk(s.b, s.a, s.ba, s.ab);
    OkHoldsPrefix(s.a.file, s.b.rx);
    OkHoldsPrefix(s.b.file, s.a.rx);
  }

  lemma OkHoldsPrefix(f: File, rx: Receiver)
    requires RxOk(f, rx)
    ensures HoldsPrefix(f, rx)
  {
  }

  // Every offset on the wire is a true one: DATA carries the bytes of its place, a
  // non-negative EOF is the length, and no request lies beyond the end.
  lemma OffsetsAreTrue(s: System, p: Packet)
    requires Reachable(s) && p in s.ab
    ensures p.PData? ==> Slice(s.a.file, p.pos, p.bytes)
    ensures p.PEof? && p.eofPos >= 0 ==> p.eofPos == |s.a.file|
    ensures p.PRpos? ==> p.rpos <= |s.b.file|
    ensures p.PFInfoAck? ==> p.ack <= |s.b.file|
  {
    hide Both;
    ReachableInvariant(s);
    BothSwaps(s.a, s.b, s.ab, s.ba);
    BothOk(s.b, s.a, s.ba, s.ab);
  }

  predicate GoodBlocks(tx: Sender) {
    PowerOfTwoBlock(tx.blockSize)
  }

  // The next read never asks for more than 2048 bytes, nor does any block sent exceed that.
  lemma BlockSizes(s: System)
    requires Reachable(s)
    ensures GoodBlocks(s.a.tx) && GoodBlocks(s.b.tx)
    ensures forall p :: p in s.ab && p.PData? ==> 0 < |p.bytes| <= 2048
    ensures forall p :: p in s.ba && p.PData? ==> 0 < |p.bytes| <= 2048
  {
    hide Both;
    ReachableInvariant(s);
    BothSwaps(s.a, s.b, s.ab, s.ba);
    BothOk(s.a, s.b, s.ab, s.ba);
    BothOk(s.b, s.a, s.ba, s.ab);
  }

  // ---------------------------------------------------------------------------
  // Agreement
  // ---------------------------------------------------------------------------

  lemma InvariantSuccess(s: System)
    requires Invariant(s)
    ensures TrueSuccess(s.a.tx) ==> s.b.rx.inbound != []
    ensures s.a.tx.overruled ==> s.a.tx.failed || s.b.rx.failed
  {
    hide TxOk, RxOk, GoodForward, GoodBackward, Settled, TrueSuccess, Refusal, GivingUp;
  }

  // A SUCCESS is true whatever errors, refusals and losses there were, provided the
  // acknowledgement did not find the file already refused or skipped.
  lemma SuccessIsTrue(s: System)
    requires Reachable(s)
    requires s.a.tx.outcome == Some(Success) && !s.a.tx.overruled
    ensures s.b.rx.inbound != [] && s.b.rx.inbound[0] == s.a.file
  {
    hide Invariant;
    ReachableInvariant(s);
    InvariantSuccess(s);
    PrefixSafety(s);
  }

  // Without local file errors no acknowledgement ever finds it so.
  lemma CommitAgreement(s: System)
    requires Reachable(s)
    requires !s.a.tx.failed && !s.b.rx.failed
    ensures !s.a.tx.overruled
    ensures s.a.tx.outcome == Some(Success) ==> s.b.rx.inbound != [] && s.b.rx.inbound[0] == s.a.file
  {
    hide Invariant;
    ReachableInvariant(s);
    InvariantSuccess(s);
    PrefixSafety(s);
  }
}
