/** What the time stamps of a record mean, on every run whose clock does not go backwards. */
module OsdStamps {
  import opened Words
  import opened Folding
  import opened OsdTypes
  import opened OsdSpec
  import opened OsdRuns

  /** The boot clock after a run; it is never zero. */
  function Clock(tr: Trace): U64 {
    if tr == [] then 1
    else if Last(tr).Hit? then Last(tr).now
    else Clock(Front(tr))
  }

  ghost predicate Timed(tr: Trace) {
    tr == [] || (Timed(Front(tr)) && (Last(tr).Hit? ==> Clock(Front(tr)) <= Last(tr).now))
  }

  lemma TimedOneMore(tr: Trace, e: Event)
    ensures Timed(tr + [e]) <==> Timed(tr) && (e.Hit? ==> Clock(tr) <= e.now)
    ensures Clock(tr + [e]) == if e.Hit? then e.now else Clock(tr)
  {
    assert Front(tr + [e]) == tr;
  }

  lemma {:induction false} ClockPositive(tr: Trace)
    requires Timed(tr)
    ensures Clock(tr) > 0
  {
    if tr != [] { ClockPositive(Front(tr)); }
  }

  ghost predicate Identity(k: OpKey, r: OpRecord) {
    OpKey(r.pid, r.owner, r.tid) == k && TracedType(r.opType)
  }

  /** A boot-clock stamp is unset, or lies between the enqueue and `until`. */
  ghost predicate Within(enqueue: U64, stamp: U64, until: U64) {
    stamp == 0 || enqueue <= stamp <= until
  }

  ghost predicate ChainOk(at: Stamps, until: U64) {
    && 0 < at.enqueue <= until
    && Within(at.enqueue, at.dequeue, until) && Within(at.enqueue, at.executeCtx, until)
    && Within(at.enqueue, at.submitTxn, until) && Within(at.enqueue, at.queueTxn, until)
    && Within(at.enqueue, at.aioSubmit, until) && Within(at.enqueue, at.aioDone, until)
    && Within(at.enqueue, at.kvSubmit, until) && Within(at.enqueue, at.kvCommitted, until)
    && (at.queueTxn != 0 && at.aioSubmit != 0 ==> at.queueTxn <= at.aioSubmit)
    && (at.queueTxn != 0 && at.kvCommitted != 0 ==> at.queueTxn <= at.kvCommitted)
  }

  ghost predicate PeersOk(enqueue: U64, pi: Peers, until: U64) {
    && Within(enqueue, pi.sent, until) && Within(enqueue, pi.recv1, until) && Within(enqueue, pi.recv2, until)
    && (pi.peer1 != -1 || pi.peer2 != -1 ==> pi.sent != 0)
  }

  ghost predicate StampsOk(r: OpRecord, until: U64) {
    ChainOk(r.at, until) && PeersOk(r.at.enqueue, r.pi, until) && |r.delays| <= MAX_DELAYS
  }

  ghost predicate Tracked(k: OpKey, r: OpRecord, now: U64) {
    Identity(k, r) && StampsOk(r, now) && r.reply == 0
  }

  /** What userspace may rely on for an event taken from the ring buffer. */
  ghost predicate Emittable(r: OpRecord) {
    TracedType(r.opType) && StampsOk(r, r.reply)
  }

  ghost predicate Renewed(was: U64, next: U64, now: U64) {
    next == was || next == now
  }

  /** Each stamp is as it was or taken now; the queue stamp only before any stamp of a transaction. */
  ghost predicate Renews(at: Stamps, next: Stamps, now: U64) {
    && next.enqueue == at.enqueue
    && Renewed(at.dequeue, next.dequeue, now) && Renewed(at.executeCtx, next.executeCtx, now)
    && Renewed(at.submitTxn, next.submitTxn, now)
    && (next.queueTxn == at.queueTxn || (NeverQueued(at) && next == at.(queueTxn := now)))
    && Renewed(at.aioSubmit, next.aioSubmit, now) && Renewed(at.aioDone, next.aioDone, now)
    && Renewed(at.kvSubmit, next.kvSubmit, now) && Renewed(at.kvCommitted, next.kvCommitted, now)
  }

  lemma StampsAreRenewed(at: Stamps, now: U64, p: Probe)
    ensures Renews(at, StampsAfter(at, now, p), now)
  {
  }

  lemma RenewedChain(at: Stamps, next: Stamps, now: U64)
    requires ChainOk(at, now) && Renews(at, next, now)
    ensures ChainOk(next, now)
  {
  }

  lemma ChainKept(at: Stamps, was: U64, now: U64, p: Probe)
    requires ChainOk(at, was) && was <= now
    ensures ChainOk(StampsAfter(at, now, p), now) && StampsAfter(at, now, p).enqueue == at.enqueue
  {
    assert ChainOk(at, now);
    StampsAreRenewed(at, now, p);
    RenewedChain(at, StampsAfter(at, now, p), now);
  }

  lemma PeersKept(enqueue: U64, pi: Peers, was: U64, now: U64, p: Probe)
    requires 0 < enqueue <= was && PeersOk(enqueue, pi, was) && was <= now
    ensures PeersOk(enqueue, PeersAfter(pi, now, p), now)
  {
  }

  lemma ApplyKeepsStamps(opSize: U32, k: OpKey, r: OpRecord, was: U64, now: U64, p: Probe)
    requires Tracked(k, r, was) && was <= now && !p.EnqueueOp?
    ensures var r' := Apply(opSize, r, now, p);
            && Identity(k, r')
            && StampsOk(r', now)
            && (FateOf(p).Stay? ==> r'.reply == 0)
            && (FateOf(p).Emit? ==> Emittable(r') && r'.reply == now)
  {
    ChainKept(r.at, was, now, p);
    PeersKept(r.at.enqueue, r.pi, was, now, p);
  }

  ghost predicate OpsOk(ops: map<OpKey, OpRecord>, now: U64) {
    forall k <- ops :: Tracked(k, ops[k], now)
  }

  ghost predicate RingOk(ring: seq<OpRecord>) {
    forall i | 0 <= i < |ring| :: Emittable(ring[i])
  }

  lemma TrackedLater(k: OpKey, r: OpRecord, was: U64, now: U64)
    requires Tracked(k, r, was) && was <= now
    ensures Tracked(k, r, now)
  {
  }

  lemma HitKeepsOps(opSize: U32, s: State, th: Thread, was: U64, now: U64, p: Probe)
    requires 0 < was <= now && OpsOk(s.ops, was)
    ensures OpsOk(OpsAfter(opSize, s, th, now, p), now)
  {
    var target, ops' := Target(s, th, p), OpsAfter(opSize, s, th, now, p);
    forall k | k in ops' ensures Tracked(k, ops'[k], now) {
      if k in s.ops {
        TrackedLater(k, s.ops[k], was, now);
        if target == Some(k) && !p.EnqueueOp? { ApplyKeepsStamps(opSize, k, s.ops[k], was, now, p); }
      }
    }
  }

  lemma HitKeepsRing(opSize: U32, s: State, th: Thread, was: U64, now: U64, p: Probe)
    requires was <= now && OpsOk(s.ops, was) && RingOk(s.ring)
    ensures RingOk(RingAfter(opSize, s, th, now, p))
  {
    var target := Target(s, th, p);
    if target.Some? && target.value in s.ops && FateOf(p).Emit? {
      ApplyKeepsStamps(opSize, target.value, s.ops[target.value], was, now, p);
    }
  }

  /** In every reachable state each tracked record carries its own key and stamps between its
      enqueue and now, and so does every event in the ring up to its reply. */
  lemma {:induction false} StampsAlwaysOk(opSize: U32, tr: Trace)
    requires Timed(tr)
    ensures OpsOk(Run(opSize, tr).ops, Clock(tr)) && RingOk(Run(opSize, tr).ring)
  {
    if tr != [] {
      var s, e, was := Run(opSize, Front(tr)), Last(tr), Clock(Front(tr));
      StampsAlwaysOk(opSize, Front(tr));
      ClockPositive(Front(tr));
      if e.Hit? {
        HitKeepsOps(opSize, s, e.th, was, e.now, e.probe);
        HitKeepsRing(opSize, s, e.th, was, e.now, e.probe);
      }
    }
  }

  // ================= write-once stamps =================

  lemma LifeOnlyGrows(s: State, was: Option<seq<Seen>>, at: nat, e: Event, k: OpKey, first: Seen)
    requires first.at < at && (was.Some? ==> was.value != [])
    requires LifeAfter(s, was, at, e, k).Some? && LifeAfter(s, was, at, e, k).value != []
    requires LifeAfter(s, was, at, e, k).value[0] == first
    ensures was.Some? && was.value[0] == first && was.value <= LifeAfter(s, was, at, e, k).value
  {
  }

  lemma LifeStarts(opSize: U32, tr: Trace, k: OpKey)
    ensures var life := Life(opSize, tr, k); life.Some? ==> life.value != [] && life.value[0].at < |tr|
  {
    LifeIsAttributed(opSize, tr, k);
  }

  lemma {:induction false} LifeIsMonotone(opSize: U32, tr: Trace, i: nat, k: OpKey)
    requires i <= |tr|
    requires Life(opSize, tr[..i], k).Some? && Life(opSize, tr, k).Some?
    requires Life(opSize, tr[..i], k).value != [] && Life(opSize, tr, k).value != []
    requires Life(opSize, tr[..i], k).value[0] == Life(opSize, tr, k).value[0]
    ensures Life(opSize, tr[..i], k).value <= Life(opSize, tr, k).value
  {
    if i == |tr| {
      assert tr[..i] == tr;
    } else {
      LifeStarts(opSize, tr[..i], k);
      LifeStarts(opSize, Front(tr), k);
      assert Front(tr)[..i] == tr[..i];
      LifeOnlyGrows(Run(opSize, Front(tr)), Life(opSize, Front(tr), k), |tr| - 1, Last(tr), k, Life(opSize, tr, k).value[0]);
      LifeIsMonotone(opSize, Front(tr), i, k);
    }
  }

  lemma ApplyKeepsWriteOnce(opSize: U32, r: OpRecord, now: U64, p: Probe)
    ensures var r' := Apply(opSize, r, now, p);
            && (r.at.dequeue != 0 ==> r'.at.dequeue == r.at.dequeue)
            && (r.at.queueTxn != 0 ==> r'.at.queueTxn == r.at.queueTxn)
            && r'.at.enqueue == r.at.enqueue
  {
  }

  lemma {:induction false} ReplayKeepsWriteOnce(opSize: U32, k: OpKey, life: seq<Seen>, n: nat)
    requires life != [] && life[0].probe.EnqueueOp?
    requires 0 < n <= |life|
    requires forall i | 0 < i < |life| :: !life[i].probe.EnqueueOp?
    ensures var r, r' := Replay(opSize, k, life[..n]), Replay(opSize, k, life);
            && (r.at.dequeue != 0 ==> r'.at.dequeue == r.at.dequeue)
            && (r.at.queueTxn != 0 ==> r'.at.queueTxn == r.at.queueTxn)
            && r'.at.enqueue == r.at.enqueue
  {
    if n == |life| {
      assert life[..n] == life;
    } else {
      var shorter := life[..|life| - 1];
      assert shorter[..n] == life[..n];
      ReplayKeepsWriteOnce(opSize, k, shorter, n);
      ApplyKeepsWriteOnce(opSize, Replay(opSize, k, shorter), life[|life| - 1].now, life[|life| - 1].probe);
    }
  }

  /** Between two moments of one and the same tracked op, the enqueue stamp does not move, and the
      dequeue and queue-transaction stamps do not change once set; no order of probes, state
      changes or stale transactions can overwrite them. */
  lemma WriteOnce(opSize: U32, tr: Trace, i: nat, k: OpKey)
    requires i <= |tr| && k in Run(opSize, tr[..i]).ops && k in Run(opSize, tr).ops
    requires Life(opSize, tr[..i], k).Some? && Life(opSize, tr[..i], k).value != []
    requires Life(opSize, tr, k).Some? && Life(opSize, tr, k).value != []
    requires Life(opSize, tr[..i], k).value[0] == Life(opSize, tr, k).value[0]
    ensures var r, r' := Run(opSize, tr[..i]).ops[k], Run(opSize, tr).ops[k];
            && r'.at.enqueue == r.at.enqueue
            && (r.at.dequeue != 0 ==> r'.at.dequeue == r.at.dequeue)
            && (r.at.queueTxn != 0 ==> r'.at.queueTxn == r.at.queueTxn)
  {
    RecordIsReplay(opSize, tr[..i], k);
    RecordIsReplay(opSize, tr, k);
    LifeIsMonotone(opSize, tr, i, k);
    var a, b := Life(opSize, tr[..i], k).value, Life(opSize, tr, k).value;
    ReplayKeepsWriteOnce(opSize, k, b, |a|);
    assert b[..|a|] == a;
  }
}
