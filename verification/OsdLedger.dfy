/** Conservation: where every accepted enqueue ends up. */
module OsdLedger {
  import opened Words
  import opened Folding
  import opened OsdTypes
  import opened OsdSpec
  import opened OsdRuns

  /** The ways an op leaves the ops map. */
  datatype Cause =
    | Emitted        // its event went into the ring buffer
    | Dropped        // it completed while the ring buffer was full
    | EcDeleted      // it turned out to be an erasure-coded write
    | LenUnread      // its reply could not be measured
    | StampsUnread   // its messenger stamps could not be read at enqueue
    | Overwritten    // a later enqueue with the same key took it for an orphan
    | Evicted        // the LRU map dropped it

  /** The op that leaves by this cause when e happens in s. */
  function Leaves(s: State, e: Event, cause: Cause): Option<OpKey> {
    match e
    case EvictOp(k) => if cause.Evicted? && k in s.ops then Some(k) else None
    case Hit(th, now, p) =>
      var target := Target(s, th, p);
      if target.None? then None
      else if p.EnqueueOp? then
        if IsRetry(s, target.value, now) then None
        else if cause.Overwritten? then if target.value in s.ops then target else None
        else if cause.StampsUnread? then if MessengerRead(p) then None else target
        else None
      else if target.value in s.ops && Ends(FateOf(p), cause) then target
      else None
    case _ => None
  }

  predicate Ends(fate: Fate, cause: Cause) {
    match fate
    case Emit => cause.Emitted?
    case RingFull => cause.Dropped?
    case EcDelete => cause.EcDeleted?
    case LenUnread => cause.LenUnread?
    case Stay => false
  }

  function Arrives(s: State, e: Event): Option<OpKey> {
    if e.Hit? && Accepts(s, e.th, e.now, e.probe) then OwnKey(e.th, e.probe) else None
  }

  /** 1 when the op is one we are counting: the given one, or any when none is given. */
  function One(op: Option<OpKey>, who: Option<OpKey>): nat {
    if op.Some? && (who.None? || who == op) then 1 else 0
  }

  function Arrived(opSize: U32, tr: Trace, who: Option<OpKey>): nat {
    if tr == [] then 0
    else Arrived(opSize, Front(tr), who) + One(Arrives(Run(opSize, Front(tr)), Last(tr)), who)
  }

  function Left(opSize: U32, tr: Trace, cause: Cause, who: Option<OpKey>): nat {
    if tr == [] then 0
    else Left(opSize, Front(tr), cause, who) + One(Leaves(Run(opSize, Front(tr)), Last(tr), cause), who)
  }

  function KeyOf(r: OpRecord): OpKey {
    OpKey(r.pid, r.owner, r.tid)
  }

  /** Events in the ring whose pid, owner and tid are those of the counted op. */
  function InRing(ring: seq<OpRecord>, who: Option<OpKey>): nat {
    if ring == [] then 0
    else InRing(ring[..|ring| - 1], who) + One(Some(KeyOf(ring[|ring| - 1])), who)
  }

  /** Everything that leaves on one event. */
  function Out(s: State, e: Event, who: Option<OpKey>): nat {
    One(Leaves(s, e, Emitted), who) + One(Leaves(s, e, Dropped), who) + One(Leaves(s, e, EcDeleted), who)
    + One(Leaves(s, e, Cause.LenUnread), who) + One(Leaves(s, e, StampsUnread), who)
    + One(Leaves(s, e, Overwritten), who) + One(Leaves(s, e, Evicted), who)
  }

  function Size(ops: map<OpKey, OpRecord>, who: Option<OpKey>): nat {
    if who.None? then |ops| else if who.value in ops then 1 else 0
  }

  lemma Removal(ops: map<OpKey, OpRecord>, k: OpKey, who: Option<OpKey>)
    ensures Size(ops, who) == Size(ops - {k}, who) + (if k in ops then One(Some(k), who) else 0)
  {
    if k in ops {
      assert ops == (ops - {k})[k := ops[k]];
    } else {
      assert ops - {k} == ops;
    }
  }

  lemma Replacement(ops: map<OpKey, OpRecord>, k: OpKey, r: OpRecord, who: Option<OpKey>)
    ensures Size(ops[k := r], who) == Size(ops - {k}, who) + One(Some(k), who)
  {
    Removal(ops[k := r], k, who);
    assert ops[k := r] - {k} == ops - {k};
  }

  /** What an enqueue does to the number of tracked ops. */
  lemma EnqueueSize(opSize: U32, s: State, th: Thread, now: U64, p: Probe, who: Option<OpKey>)
    requires p.EnqueueOp?
    ensures var k, ops' := OwnKey(th, p), OpsAfter(opSize, s, th, now, p);
            if !Accepts(s, th, now, p) then ops' == s.ops
            else Size(ops', who) + (if k.value in s.ops then One(k, who) else 0)
                 == Size(s.ops, who) + (if MessengerRead(p) then One(k, who) else 0)
  {
    var k := OwnKey(th, p);
    if k.Some? {
      Removal(s.ops, k.value, who);
      Replacement(s.ops, k.value, NewRecord(k.value, now, p), who);
    }
  }

  lemma OutOfEnqueue(s: State, th: Thread, now: U64, p: Probe, who: Option<OpKey>)
    requires p.EnqueueOp?
    ensures var k := OwnKey(th, p);
            Out(s, Hit(th, now, p), who)
            == if !Accepts(s, th, now, p) then 0
               else (if k.value in s.ops then One(k, who) else 0) + (if MessengerRead(p) then 0 else One(k, who))
  {
  }

  ghost predicate Completes(s: State, th: Thread, p: Probe) {
    Target(s, th, p).Some? && Target(s, th, p).value in s.ops && !FateOf(p).Stay?
  }

  lemma CompletionSize(opSize: U32, s: State, th: Thread, now: U64, p: Probe, who: Option<OpKey>)
    requires !p.EnqueueOp?
    ensures Size(s.ops, who) == Size(OpsAfter(opSize, s, th, now, p), who)
                                + (if Completes(s, th, p) then One(Target(s, th, p), who) else 0)
  {
    var target := Target(s, th, p);
    if target.Some? && target.value in s.ops {
      Removal(s.ops, target.value, who);
      Replacement(s.ops, target.value, Apply(opSize, s.ops[target.value], now, p), who);
    }
  }

  lemma OutOfCompletion(s: State, th: Thread, now: U64, p: Probe, who: Option<OpKey>)
    requires !p.EnqueueOp?
    ensures Out(s, Hit(th, now, p), who) == if Completes(s, th, p) then One(Target(s, th, p), who) else 0
  {
  }

  lemma EnqueueBalances(opSize: U32, s: State, th: Thread, now: U64, p: Probe, who: Option<OpKey>)
    requires p.EnqueueOp?
    ensures One(Arrives(s, Hit(th, now, p)), who) + Size(s.ops, who)
            == Out(s, Hit(th, now, p), who) + Size(OpsAfter(opSize, s, th, now, p), who)
  {
    EnqueueSize(opSize, s, th, now, p, who);
    OutOfEnqueue(s, th, now, p, who);
  }

  lemma CompletionBalances(opSize: U32, s: State, th: Thread, now: U64, p: Probe, who: Option<OpKey>)
    requires !p.EnqueueOp?
    ensures One(Arrives(s, Hit(th, now, p)), who) + Size(s.ops, who)
            == Out(s, Hit(th, now, p), who) + Size(OpsAfter(opSize, s, th, now, p), who)
  {
    CompletionSize(opSize, s, th, now, p, who);
    OutOfCompletion(s, th, now, p, who);
  }

  lemma StepBalances(opSize: U32, s: State, e: Event, who: Option<OpKey>)
    ensures One(Arrives(s, e), who) + Size(s.ops, who) == Out(s, e, who) + Size(Step(opSize, s, e).ops, who)
  {
    match e
    case EvictOp(k) => Removal(s.ops, k, who);
    case Hit(th, now, p) =>
      if p.EnqueueOp? { EnqueueBalances(opSize, s, th, now, p, who); }
      else { CompletionBalances(opSize, s, th, now, p, who); }
    case _ =>
  }

  /** In every run, for one op key or for all of them: accepted enqueues are the events emitted, the
      events dropped on a full ring, the EC deletions, the deletions after a failed read (of the
      reply length or of the messenger stamps), the orphans overwritten, the evictions, and the ops
      still in the map. */
  lemma {:induction false} Conservation(opSize: U32, tr: Trace, who: Option<OpKey>)
    ensures Arrived(opSize, tr, who) ==
            Left(opSize, tr, Emitted, who) + Left(opSize, tr, Dropped, who) + Left(opSize, tr, EcDeleted, who)
            + Left(opSize, tr, Cause.LenUnread, who) + Left(opSize, tr, StampsUnread, who)
            + Left(opSize, tr, Overwritten, who) + Left(opSize, tr, Evicted, who)
            + Size(Run(opSize, tr).ops, who)
  {
    if tr != [] {
      Conservation(opSize, Front(tr), who);
      StepBalances(opSize, Run(opSize, Front(tr)), Last(tr), who);
    }
  }

  ghost predicate OwnIdentity(s: State) {
    forall k <- s.ops :: KeyOf(s.ops[k]) == k
  }

  lemma {:induction false} IdentityKept(opSize: U32, tr: Trace)
    ensures OwnIdentity(Run(opSize, tr))
  {
    if tr != [] { IdentityKept(opSize, Front(tr)); }
  }

  lemma EmissionIsRingEntry(opSize: U32, s: State, e: Event, who: Option<OpKey>)
    requires OwnIdentity(s)
    ensures InRing(Step(opSize, s, e).ring, who) == InRing(s.ring, who) + One(Leaves(s, e, Emitted), who)
  {
    if e.Hit? && Leaves(s, e, Emitted).Some? {
      var ring' := RingAfter(opSize, s, e.th, e.now, e.probe);
      assert ring'[..|ring'| - 1] == s.ring;
    }
  }

  lemma DropIsCounted(opSize: U32, s: State, e: Event)
    ensures Step(opSize, s, e).drops == s.drops + One(Leaves(s, e, Dropped), None)
  {
  }

  lemma {:induction false} AllInRing(ring: seq<OpRecord>)
    ensures InRing(ring, None) == |ring|
  {
    if ring != [] { AllInRing(ring[..|ring| - 1]); }
  }

  /** The emitted count is what the ring really holds, op by op, and the dropped count is the
      program's own drop counter. */
  lemma {:induction false} LedgerIsReal(opSize: U32, tr: Trace, who: Option<OpKey>)
    ensures Left(opSize, tr, Emitted, who) == InRing(Run(opSize, tr).ring, who)
    ensures who.None? ==> Left(opSize, tr, Dropped, who) == Run(opSize, tr).drops
    ensures who.None? ==> Left(opSize, tr, Emitted, who) == |Run(opSize, tr).ring|
  {
    AllInRing(Run(opSize, tr).ring);
    if tr != [] {
      LedgerIsReal(opSize, Front(tr), who);
      IdentityKept(opSize, Front(tr));
      EmissionIsRingEntry(opSize, Run(opSize, Front(tr)), Last(tr), who);
      DropIsCounted(opSize, Run(opSize, Front(tr)), Last(tr));
    }
  }

  /** No op is reported twice: at every moment, at most as many events carry a key as enqueues of
      that key were accepted, and one fewer while the op is still tracked. */
  lemma AtMostOneEventPerEnqueue(opSize: U32, tr: Trace, k: OpKey)
    ensures InRing(Run(opSize, tr).ring, Some(k)) + (if k in Run(opSize, tr).ops then 1 else 0)
            <= Arrived(opSize, tr, Some(k))
  {
    Conservation(opSize, tr, Some(k));
    LedgerIsReal(opSize, tr, Some(k));
  }
}
