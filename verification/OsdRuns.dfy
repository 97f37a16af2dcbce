/** osdtrace over whole runs: any interleaving of probe hits on any threads, with entries of all
    three LRU maps evicted at any moment. */
module OsdRuns {
  import opened Words
  import opened OsdTypes
  import opened OsdSpec
  import opened Folding

  type Trace = seq<Event>

  function Run(opSize: U32, tr: Trace): State {
    Fold((s, e) => Step(opSize, s, e), INIT, tr)
  }

  lemma RunOneMore(opSize: U32, tr: Trace, e: Event)
    ensures Run(opSize, tr + [e]) == Step(opSize, Run(opSize, tr), e)
  {
    assert Front(tr + [e]) == tr;
  }

  // ================= attribution =================

  /** The op thread th is working on, read off the history alone: the op its latest dequeue or
      submit named, until a transaction cost computed on the thread uses it up. */
  function Current(tr: Trace, th: Thread): Option<OpKey> {
    if tr == [] then None
    else
      match Last(tr)
      case Hit(th', _, p) =>
        if th' != th then Current(Front(tr), th)
        else if p.DequeueOp? || p.SubmitTransaction? then OwnKey(th, p)
        else if p.TxcCalcCost? then None
        else Current(Front(tr), th)
      case _ => Current(Front(tr), th)
  }

  /** The j-th event computed the cost of transaction c on a thread whose current op was k. */
  ghost predicate BoundAt(tr: Trace, j: nat, c: CtxKey, k: OpKey) {
    && j < |tr|
    && tr[j].Hit?
    && tr[j].probe.TxcCalcCost?
    && CtxOf(tr[j].th, tr[j].probe) == Some(c)
    && Current(tr[..j], tr[j].th) == Some(k)
  }

  /** The event costs transaction c on a thread bound to a tracked op, and so binds it. */
  predicate Costs(s: State, e: Event, c: CtxKey) {
    && e.Hit? && e.probe.TxcCalcCost? && CtxOf(e.th, e.probe) == Some(c)
    && e.th in s.threads && s.threads[e.th] in s.ops && TxnUntouched(s.ops[s.threads[e.th]].at)
  }

  /** The position of the latest event that bound c. */
  function CostIndex(opSize: U32, tr: Trace, c: CtxKey): (r: Option<nat>)
    ensures r.Some? ==> r.value < |tr|
  {
    if tr == [] then None
    else if Costs(Run(opSize, Front(tr)), Last(tr), c) then Some(|tr| - 1)
    else CostIndex(opSize, Front(tr), c)
  }

  /** The latest event that bound c computed its cost while k was current. */
  ghost predicate LatestBound(opSize: U32, tr: Trace, c: CtxKey, k: OpKey) {
    CostIndex(opSize, tr, c).Some? && BoundAt(tr, CostIndex(opSize, tr, c).value, c, k)
  }

  /** The history names k, and k alone, as the op this event is about: the probe's own arguments
      do, or the thread's current op is k, or k was current when the transaction was last costed. */
  ghost predicate NamedBy(opSize: U32, tr: Trace, th: Thread, p: Probe, k: OpKey) {
    if ByThread(p) then Current(tr, th) == Some(k)
    else if p.TxcStateProc? then CtxOf(th, p).Some? && LatestBound(opSize, tr, CtxOf(th, p).value, k)
    else OwnKey(th, p) == Some(k)
  }

  ghost predicate BindingsSound(opSize: U32, tr: Trace, s: State) {
    && (forall th <- s.threads :: Current(tr, th) == Some(s.threads[th]) && s.threads[th].pid == th.pid)
    && (forall c <- s.ctxs :: s.ctxs[c].pid == c.pid && LatestBound(opSize, tr, c, s.ctxs[c]))
  }

  lemma BoundAtExtends(tr: Trace, e: Event, j: nat, c: CtxKey, k: OpKey)
    requires BoundAt(tr, j, c, k)
    ensures BoundAt(tr + [e], j, c, k)
  {
    assert (tr + [e])[..j] == tr[..j];
  }

  /** A transaction binding is made by a costing and otherwise kept as it is. */
  lemma CtxStep(opSize: U32, s: State, e: Event, c: CtxKey)
    requires c in Step(opSize, s, e).ctxs
    ensures var k := Step(opSize, s, e).ctxs[c];
            if Costs(s, e, c) then k == s.threads[e.th] && e.th.pid == c.pid else c in s.ctxs && s.ctxs[c] == k
  {
  }

  /** A thread binding is made by a dequeue or submit and otherwise kept as it is. */
  lemma ThreadStep(opSize: U32, s: State, e: Event, th: Thread)
    requires th in Step(opSize, s, e).threads
    ensures var k := Step(opSize, s, e).threads[th];
            if e.Hit? && e.th == th && (e.probe.DequeueOp? || e.probe.SubmitTransaction?) then OwnKey(th, e.probe) == Some(k)
            else th in s.threads && s.threads[th] == k && !(e.Hit? && e.th == th && e.probe.TxcCalcCost?)
  {
  }

  lemma {:induction false} BindingsAlwaysSound(opSize: U32, tr: Trace)
    ensures BindingsSound(opSize, tr, Run(opSize, tr))
  {
    if tr != [] {
      var before, e := Front(tr), Last(tr);
      var s, s' := Run(opSize, before), Run(opSize, tr);
      BindingsAlwaysSound(opSize, before);
      assert tr == before + [e] && s' == Step(opSize, s, e);
      forall th | th in s'.threads
        ensures Current(tr, th) == Some(s'.threads[th]) && s'.threads[th].pid == th.pid
      {
        ThreadStep(opSize, s, e, th);
      }
      forall c | c in s'.ctxs
        ensures s'.ctxs[c].pid == c.pid && LatestBound(opSize, tr, c, s'.ctxs[c])
      {
        CtxStep(opSize, s, e, c);
        if Costs(s, e, c) {
          assert tr[..|before|] == before;
        } else {
          BoundAtExtends(before, e, CostIndex(opSize, before, c).value, c, s.ctxs[c]);
        }
      }
    }
  }

  /** Attribution soundness: whatever op an event reaches through the maps, the history alone
      names that op, evictions and thread reuse notwithstanding. */
  lemma AttributionSound(opSize: U32, tr: Trace, th: Thread, p: Probe)
    ensures var target := Target(Run(opSize, tr), th, p);
            target.Some? ==> NamedBy(opSize, tr, th, p, target.value) && target.value.pid == th.pid
  {
    BindingsAlwaysSound(opSize, tr);
  }

  // ================= a record is the replay of its own events =================

  /** An event that reached an op, with its position in the run. */
  datatype Seen = Seen(at: nat, th: Thread, now: U64, probe: Probe)

  /** What one event of the run does to the life of k. */
  function LifeAfter(s: State, was: Option<seq<Seen>>, at: nat, e: Event, k: OpKey): Option<seq<Seen>> {
    match e
    case EvictOp(k') => if k' == k then None else was
    case Hit(th, now, p) =>
      if Target(s, th, p) != Some(k) then was
      else if p.EnqueueOp? then
        if IsRetry(s, k, now) then was
        else if MessengerRead(p) then Some([Seen(at, th, now, p)])
        else None
      else if was.Some? && FateOf(p).Stay? then Some(was.value + [Seen(at, th, now, p)])
      else None
    case _ => was
  }

  /** The events that made the current record of k: its last accepted enqueue and everything
      attributed to k since. */
  function Life(opSize: U32, tr: Trace, k: OpKey): Option<seq<Seen>> {
    if tr == [] then None
    else LifeAfter(Run(opSize, Front(tr)), Life(opSize, Front(tr), k), |tr| - 1, Last(tr), k)
  }

  /** Fold the record transitions over one op's own events: no map, no other op. */
  function Replay(opSize: U32, k: OpKey, life: seq<Seen>): OpRecord
    requires life != [] && life[0].probe.EnqueueOp?
  {
    if |life| == 1 then NewRecord(k, life[0].now, life[0].probe)
    else
      var last := life[|life| - 1];
      Apply(opSize, Replay(opSize, k, life[..|life| - 1]), last.now, last.probe)
  }

  ghost predicate LifeOf(opSize: U32, tr: Trace, k: OpKey, life: seq<Seen>) {
    && life != []
    && life[0].probe.EnqueueOp?
    && (forall i | 0 < i < |life| :: !life[i].probe.EnqueueOp?)
    && (forall i, j | 0 <= i < j < |life| :: life[i].at < life[j].at)
    && (forall i | 0 <= i < |life| :: life[i].at < |tr|)
    && (forall i | 0 <= i < |life| :: tr[life[i].at] == Hit(life[i].th, life[i].now, life[i].probe))
    && (forall i | 0 <= i < |life| :: NamedBy(opSize, tr[..life[i].at], life[i].th, life[i].probe, k))
  }

  lemma LifeExtends(opSize: U32, tr: Trace, e: Event, k: OpKey, life: seq<Seen>)
    requires LifeOf(opSize, tr, k, life)
    ensures LifeOf(opSize, tr + [e], k, life)
  {
    forall i | 0 <= i < |life|
      ensures NamedBy(opSize, (tr + [e])[..life[i].at], life[i].th, life[i].probe, k)
    {
      assert (tr + [e])[..life[i].at] == tr[..life[i].at];
    }
  }

  lemma LifeGrows(opSize: U32, tr: Trace, k: OpKey, life: seq<Seen>, th: Thread, now: U64, p: Probe)
    requires LifeOf(opSize, tr, k, life) && !p.EnqueueOp? && NamedBy(opSize, tr, th, p, k)
    ensures LifeOf(opSize, tr + [Hit(th, now, p)], k, life + [Seen(|tr|, th, now, p)])
  {
    var tr' := tr + [Hit(th, now, p)];
    var life' := life + [Seen(|tr|, th, now, p)];
    LifeExtends(opSize, tr, Hit(th, now, p), k, life);
    assert tr'[..|tr|] == tr;
    forall i | 0 <= i < |life'|
      ensures NamedBy(opSize, tr'[..life'[i].at], life'[i].th, life'[i].probe, k)
    {
      if i < |life| { assert life'[i] == life[i]; }
    }
  }

  ghost predicate Replayed(opSize: U32, s: State, k: OpKey, life: Option<seq<Seen>>) {
    && (k in s.ops <==> life.Some?)
    && (life.Some? ==> life.value != [] && life.value[0].probe.EnqueueOp?
                       && s.ops[k] == Replay(opSize, k, life.value))
  }

  lemma StepReplays(opSize: U32, s: State, was: Option<seq<Seen>>, at: nat, e: Event, k: OpKey)
    requires Replayed(opSize, s, k, was)
    ensures Replayed(opSize, Step(opSize, s, e), k, LifeAfter(s, was, at, e, k))
  {
    if e.Hit? && was.Some? {
      assert (was.value + [Seen(at, e.th, e.now, e.probe)])[..|was.value|] == was.value;
    }
  }

  lemma {:induction false} LifeIsAttributed(opSize: U32, tr: Trace, k: OpKey)
    ensures Life(opSize, tr, k).Some? ==> LifeOf(opSize, tr, k, Life(opSize, tr, k).value)
  {
    if tr != [] {
      var before, e := Front(tr), Last(tr);
      LifeIsAttributed(opSize, before, k);
      assert tr == before + [e];
      var was := Life(opSize, before, k);
      if was.Some? { LifeExtends(opSize, before, e, k, was.value); }
      if e.Hit? && Target(Run(opSize, before), e.th, e.probe) == Some(k) {
        AttributionSound(opSize, before, e.th, e.probe);
        assert tr[..|before|] == before;
        if !e.probe.EnqueueOp? && was.Some? { LifeGrows(opSize, before, k, was.value, e.th, e.now, e.probe); }
      }
    }
  }

  /** Over every run with arbitrary evictions, k is tracked exactly while it has a life; the life
      consists of events the history attributes to k, from its last accepted enqueue on; and k's
      record is the fold of just those events. */
  lemma {:induction false} RecordIsReplay(opSize: U32, tr: Trace, k: OpKey)
    ensures Replayed(opSize, Run(opSize, tr), k, Life(opSize, tr, k))
    ensures Life(opSize, tr, k).Some? ==> LifeOf(opSize, tr, k, Life(opSize, tr, k).value)
  {
    LifeIsAttributed(opSize, tr, k);
    if tr != [] {
      RecordIsReplay(opSize, Front(tr), k);
      StepReplays(opSize, Run(opSize, Front(tr)), Life(opSize, Front(tr), k), |tr| - 1, Last(tr), k);
    }
  }

  /** A resend of an op enqueued less than five seconds ago is invisible: taking it out of any
      run leaves every later state as it was. */
  lemma ResendIsInvisible(opSize: U32, before: Trace, th: Thread, now: U64, p: Probe, after: Trace)
    requires p.EnqueueOp? && OwnKey(th, p).Some?
    requires IsRetry(Run(opSize, before), OwnKey(th, p).value, now)
    ensures Run(opSize, before + [Hit(th, now, p)] + after) == Run(opSize, before + after)
  {
    var resend := before + [Hit(th, now, p)];
    assert Front(resend) == before;
    assert Run(opSize, resend) == Run(opSize, before);
    FoldConcat((s, e) => Step(opSize, s, e), INIT, before, after);
    FoldConcat((s, e) => Step(opSize, s, e), INIT, resend, after);
  }
}
