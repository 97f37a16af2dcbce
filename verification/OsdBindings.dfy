/** Which op a binding reaches.  Bindings hold keys, and a key may come back for another op; here an
    op is the record one accepted enqueue made. */
module OsdBindings {
  import opened Words
  import opened Folding
  import opened OsdTypes
  import opened OsdSpec
  import opened OsdRuns
  import opened OsdLedger

  // ================= when the current record of a key was made =================

  /** The position of the enqueue that made the record now under k. */
  function Born(opSize: U32, tr: Trace, k: OpKey): Option<nat> {
    var life := Life(opSize, tr, k);
    if life.Some? && life.value != [] then Some(life.value[0].at) else None
  }

  predicate AcceptedAt(opSize: U32, tr: Trace, i: nat, k: OpKey)
    requires i < |tr|
  {
    Arrives(Run(opSize, tr[..i]), tr[i]) == Some(k)
  }

  /** The latest accepted enqueue of k. */
  function LastAccept(opSize: U32, tr: Trace, k: OpKey): (r: Option<nat>)
    ensures r.Some? ==> r.value < |tr|
  {
    if tr == [] then None
    else if Arrives(Run(opSize, Front(tr)), Last(tr)) == Some(k) then Some(|tr| - 1)
    else LastAccept(opSize, Front(tr), k)
  }

  lemma BirthStep(s: State, was: Option<seq<Seen>>, at: nat, e: Event, k: OpKey)
    requires was.Some? ==> was.value != []
    ensures var next := LifeAfter(s, was, at, e, k);
            next.Some? ==> next.value != []
                           && (Arrives(s, e) == Some(k) ==> next.value[0].at == at)
                           && (Arrives(s, e) != Some(k) ==> was.Some? && next.value[0] == was.value[0])
  {
  }

  lemma {:induction false} BornIsLastAccept(opSize: U32, tr: Trace, k: OpKey)
    ensures Life(opSize, tr, k).Some? ==> Life(opSize, tr, k).value != []
    ensures Born(opSize, tr, k).Some? ==> Born(opSize, tr, k) == LastAccept(opSize, tr, k)
  {
    if tr != [] {
      BornIsLastAccept(opSize, Front(tr), k);
      BirthStep(Run(opSize, Front(tr)), Life(opSize, Front(tr), k), |tr| - 1, Last(tr), k);
    }
  }

  /** No enqueue of k is accepted from position j on. */
  predicate NoneAcceptedFrom(opSize: U32, tr: Trace, j: nat, k: OpKey) {
    forall i | j <= i < |tr| :: !AcceptedAt(opSize, tr, i, k)
  }

  lemma NoneAcceptedFront(opSize: U32, tr: Trace, j: nat, k: OpKey)
    requires j < |tr|
    ensures NoneAcceptedFrom(opSize, tr, j, k)
            <==> NoneAcceptedFrom(opSize, Front(tr), j, k) && Arrives(Run(opSize, Front(tr)), Last(tr)) != Some(k)
  {
    var front := Front(tr);
    forall i | j <= i < |front| ensures AcceptedAt(opSize, front, i, k) == AcceptedAt(opSize, tr, i, k) {
      assert front[..i] == tr[..i];
    }
    assert AcceptedAt(opSize, tr, |tr| - 1, k) <==> Arrives(Run(opSize, front), Last(tr)) == Some(k);
  }

  lemma {:induction false} LastAcceptIff(opSize: U32, tr: Trace, j: nat, k: OpKey)
    requires j <= |tr|
    ensures LastAccept(opSize, tr[..j], k) == LastAccept(opSize, tr, k) <==> NoneAcceptedFrom(opSize, tr, j, k)
    decreases |tr|
  {
    if j == |tr| {
      assert tr[..j] == tr;
    } else {
      assert Front(tr)[..j] == tr[..j];
      LastAcceptIff(opSize, Front(tr), j, k);
      NoneAcceptedFront(opSize, tr, j, k);
    }
  }

  /** A key tracked at two moments stands for one and the same op if and only if no enqueue of it was
      accepted in between. */
  lemma SameOpIff(opSize: U32, tr: Trace, j: nat, k: OpKey)
    requires j <= |tr| && k in Run(opSize, tr[..j]).ops && k in Run(opSize, tr).ops
    ensures Born(opSize, tr[..j], k).Some? && Born(opSize, tr, k).Some?
    ensures Born(opSize, tr[..j], k) == Born(opSize, tr, k) <==> NoneAcceptedFrom(opSize, tr, j, k)
  {
    RecordIsReplay(opSize, tr[..j], k);
    RecordIsReplay(opSize, tr, k);
    BornIsLastAccept(opSize, tr[..j], k);
    BornIsLastAccept(opSize, tr, k);
    LastAcceptIff(opSize, tr, j, k);
  }

  // ================= bindings of threads =================

  /** The position of the latest dequeue or submit on the thread, until a transaction cost uses it up. */
  function BindIndex(tr: Trace, th: Thread): (r: Option<nat>)
    ensures r.Some? ==> r.value < |tr|
  {
    if tr == [] then None
    else if !Last(tr).Hit? || Last(tr).th != th then BindIndex(Front(tr), th)
    else if Last(tr).probe.DequeueOp? || Last(tr).probe.SubmitTransaction? then Some(|tr| - 1)
    else if Last(tr).probe.TxcCalcCost? then None
    else BindIndex(Front(tr), th)
  }

  /** At position j the thread took up k, which was tracked then. */
  ghost predicate TookUp(opSize: U32, tr: Trace, j: nat, th: Thread, k: OpKey) {
    && j < |tr| && tr[j].Hit? && tr[j].th == th
    && (tr[j].probe.DequeueOp? || tr[j].probe.SubmitTransaction?)
    && OwnKey(th, tr[j].probe) == Some(k)
    && k in Run(opSize, tr[..j]).ops
  }

  /** Taking up an op is not enqueuing one. */
  lemma NoneAcceptedSince(opSize: U32, tr: Trace, j: nat, th: Thread, k: OpKey)
    requires TookUp(opSize, tr, j, th, k)
    ensures NoneAcceptedFrom(opSize, tr, j, k) <==> NoneAcceptedFrom(opSize, tr, j + 1, k)
  {
    assert !AcceptedAt(opSize, tr, j, k);
  }

  lemma {:induction false} ThreadTookUp(opSize: U32, tr: Trace, th: Thread)
    requires th in Run(opSize, tr).threads
    ensures BindIndex(tr, th).Some? && TookUp(opSize, tr, BindIndex(tr, th).value, th, Run(opSize, tr).threads[th])
  {
    var front := Front(tr);
    ThreadStep(opSize, Run(opSize, front), Last(tr), th);
    if BindIndex(tr, th) == Some(|tr| - 1) {
      assert tr[..|tr| - 1] == front;
    } else {
      ThreadTookUp(opSize, front, th);
      assert front[..BindIndex(front, th).value] == tr[..BindIndex(front, th).value];
    }
  }

  /** From a thread, a BlueStore event reaches the very op the thread last dequeued or submitted if
      and only if no enqueue of its key has been accepted since. */
  lemma ThreadReachesSameOpIff(opSize: U32, tr: Trace, th: Thread)
    requires th in Run(opSize, tr).threads && Run(opSize, tr).threads[th] in Run(opSize, tr).ops
    ensures var k := Run(opSize, tr).threads[th];
            && BindIndex(tr, th).Some?
            && var j := BindIndex(tr, th).value;
               && TookUp(opSize, tr, j, th, k)
               && (Born(opSize, tr[..j], k) == Born(opSize, tr, k) <==> NoneAcceptedFrom(opSize, tr, j + 1, k))
  {
    var k := Run(opSize, tr).threads[th];
    ThreadTookUp(opSize, tr, th);
    var j := BindIndex(tr, th).value;
    SameOpIff(opSize, tr, j, k);
    NoneAcceptedSince(opSize, tr, j, th, k);
  }

  // ================= bindings of transactions =================

  ghost predicate CostedFor(opSize: U32, tr: Trace, m: nat, c: CtxKey, k: OpKey) {
    && m < |tr| && Costs(Run(opSize, tr[..m]), tr[m], c)
    && Run(opSize, tr[..m]).threads[tr[m].th] == k
  }

  lemma {:induction false} TransactionCosted(opSize: U32, tr: Trace, c: CtxKey)
    requires c in Run(opSize, tr).ctxs
    ensures CostIndex(opSize, tr, c).Some?
    ensures CostedFor(opSize, tr, CostIndex(opSize, tr, c).value, c, Run(opSize, tr).ctxs[c])
  {
    var front := Front(tr);
    CtxStep(opSize, Run(opSize, front), Last(tr), c);
    if Costs(Run(opSize, front), Last(tr), c) {
      assert tr[..|tr| - 1] == front;
    } else {
      TransactionCosted(opSize, front, c);
      var m := CostIndex(opSize, front, c).value;
      assert front[..m] == tr[..m];
    }
  }

  /** Where the thread that costed the transaction had taken up the op. */
  function Origin(opSize: U32, tr: Trace, c: CtxKey): Option<nat> {
    var m := CostIndex(opSize, tr, c);
    if m.Some? && tr[m.value].Hit? then BindIndex(tr[..m.value], tr[m.value].th) else None
  }

  lemma OriginTookUp(opSize: U32, tr: Trace, c: CtxKey)
    requires c in Run(opSize, tr).ctxs
    ensures Origin(opSize, tr, c).Some?
    ensures var m := CostIndex(opSize, tr, c).value;
            TookUp(opSize, tr, Origin(opSize, tr, c).value, tr[m].th, Run(opSize, tr).ctxs[c])
  {
    TransactionCosted(opSize, tr, c);
    var m := CostIndex(opSize, tr, c).value;
    ThreadTookUp(opSize, tr[..m], tr[m].th);
    var j := Origin(opSize, tr, c).value;
    assert tr[..m][..j] == tr[..j] && tr[..m][j] == tr[j];
  }

  /** Through a transaction, a state change reaches the very op its thread had taken up when the
      transaction was costed if and only if no enqueue of its key has been accepted since. */
  lemma TransactionReachesSameOpIff(opSize: U32, tr: Trace, c: CtxKey)
    requires c in Run(opSize, tr).ctxs && Run(opSize, tr).ctxs[c] in Run(opSize, tr).ops
    ensures var k := Run(opSize, tr).ctxs[c];
            && Origin(opSize, tr, c).Some?
            && var j := Origin(opSize, tr, c).value;
               && j < |tr| && k in Run(opSize, tr[..j]).ops
               && (Born(opSize, tr[..j], k) == Born(opSize, tr, k) <==> NoneAcceptedFrom(opSize, tr, j + 1, k))
  {
    var k := Run(opSize, tr).ctxs[c];
    OriginTookUp(opSize, tr, c);
    var j := Origin(opSize, tr, c).value;
    SameOpIff(opSize, tr, j, k);
    NoneAcceptedSince(opSize, tr, j, tr[CostIndex(opSize, tr, c).value].th, k);
  }

  // ================= the failing side is reachable =================

  const WORKER: Thread := Thread(1, 2)
  const OTHER: Thread := Thread(1, 3)
  const REUSED: Ident := Ident(Got(7), Got(9))
  const REUSED_KEY: OpKey := OpKey(1, 7, 9)
  const TXN: CtxKey := CtxKey(1, 5, 6)

  function Enqueued(now: U64): Event {
    Hit(OTHER, now, EnqueueOp(Got(MSG_OSD_REPOP), REUSED, Got(1), Got(1), Got(1), Got(1)))
  }

  const DEQUEUED: Event := Hit(WORKER, 20, DequeueOp(Got(MSG_OSD_REPOP), REUSED, Got(0), Got(0)))
  const COMMITTED: Event := Hit(OTHER, 30, RepopCommit(REUSED, Got(0), Missing, Missing, [], true))
  const COSTED: Event := Hit(WORKER, 25, TxcCalcCost(Got(5), Got(6)))
  const PREPARED: Event := Hit(OTHER, 60, TxcStateProc(Got(5), Got(6), Got(0), Got(1)))

  /** The state once the worker has taken up the op: bound, and the op untouched by BlueStore. */
  predicate Bound(s: State) {
    && s.threads == map[WORKER := REUSED_KEY] && s.ctxs == map[]
    && REUSED_KEY in s.ops && NeverQueued(s.ops[REUSED_KEY].at)
  }

  lemma TakenUp(opSize: U32)
    ensures Bound(Run(opSize, [Enqueued(10)] + [DEQUEUED]))
  {
    var t1 := [Enqueued(10)];
    assert [] + t1 == t1;
    RunOneMore(opSize, [], Enqueued(10));
    RunOneMore(opSize, t1, DEQUEUED);
    assert Run(opSize, []) == INIT;
    assert REUSED_KEY in Run(opSize, t1).ops && NeverQueued(Run(opSize, t1).ops[REUSED_KEY].at);
    assert Run(opSize, t1).threads == map[] && Run(opSize, t1).ctxs == map[];
  }

  /** After the commit and the next enqueue the bindings are as before, and the op is a new one. */
  lemma Reused(opSize: U32, s: State)
    requires REUSED_KEY in s.ops && OTHER !in s.threads
    ensures var again := Step(opSize, Step(opSize, s, COMMITTED), Enqueued(40));
            && again.threads == s.threads && again.ctxs == s.ctxs
            && REUSED_KEY in again.ops && NeverQueued(again.ops[REUSED_KEY].at) && again.ops[REUSED_KEY].at.dequeue == 0
  {
    assert REUSED_KEY !in Step(opSize, s, COMMITTED).ops;
  }

  lemma PreparedStamps(opSize: U32, s: State)
    requires s.ctxs == map[TXN := REUSED_KEY] && REUSED_KEY in s.ops
    ensures var after := Step(opSize, s, PREPARED);
            REUSED_KEY in after.ops && after.ops[REUSED_KEY].at == s.ops[REUSED_KEY].at.(aioSubmit := 60)
  {
  }

  lemma QueuedStamps(opSize: U32, s: State)
    requires s.threads == map[WORKER := REUSED_KEY] && REUSED_KEY in s.ops && NeverQueued(s.ops[REUSED_KEY].at)
    ensures var after := Step(opSize, s, Hit(WORKER, 50, QueueTransactions));
            REUSED_KEY in after.ops && after.ops[REUSED_KEY].at == s.ops[REUSED_KEY].at.(queueTxn := 50)
  {
  }

  /** A completed op's thread stamps the next op with that key: enqueue, dequeue, commit, enqueue
      again, and the transaction queued on the thread is charged to an op never dequeued. */
  lemma StaleThreadHappens(opSize: U32)
    ensures var tr := [Enqueued(10)] + [DEQUEUED] + [COMMITTED] + [Enqueued(40)];
            var s := Run(opSize, tr + [Hit(WORKER, 50, QueueTransactions)]);
            && WORKER in Run(opSize, tr).threads && Run(opSize, tr).threads[WORKER] == REUSED_KEY
            && REUSED_KEY in s.ops && s.ops[REUSED_KEY].at.queueTxn == 50 && s.ops[REUSED_KEY].at.dequeue == 0
  {
    var t2 := [Enqueued(10)] + [DEQUEUED];
    var t3 := t2 + [COMMITTED];
    TakenUp(opSize);
    RunOneMore(opSize, t2, COMMITTED);
    RunOneMore(opSize, t3, Enqueued(40));
    RunOneMore(opSize, t3 + [Enqueued(40)], Hit(WORKER, 50, QueueTransactions));
    Reused(opSize, Run(opSize, t2));
    QueuedStamps(opSize, Run(opSize, t3 + [Enqueued(40)]));
  }

  lemma CostedOnce(opSize: U32)
    ensures var s := Run(opSize, [Enqueued(10)] + [DEQUEUED] + [COSTED]);
            s.ctxs == map[TXN := REUSED_KEY] && REUSED_KEY in s.ops && OTHER !in s.threads
  {
    var t2 := [Enqueued(10)] + [DEQUEUED];
    TakenUp(opSize);
    RunOneMore(opSize, t2, COSTED);
    assert Costs(Run(opSize, t2), COSTED, TXN);
  }

  /** So does a completed op's transaction: its first state change is charged to the next op. */
  lemma StaleTransactionHappens(opSize: U32)
    ensures var tr := [Enqueued(10)] + [DEQUEUED] + [COSTED] + [COMMITTED] + [Enqueued(40)];
            var s := Run(opSize, tr + [PREPARED]);
            && TXN in Run(opSize, tr).ctxs && Run(opSize, tr).ctxs[TXN] == REUSED_KEY
            && REUSED_KEY in s.ops && s.ops[REUSED_KEY].at.aioSubmit == 60 && s.ops[REUSED_KEY].at.dequeue == 0
  {
    var t3 := [Enqueued(10)] + [DEQUEUED] + [COSTED];
    var t4 := t3 + [COMMITTED];
    var t5 := t4 + [Enqueued(40)];
    CostedOnce(opSize);
    RunOneMore(opSize, t3, COMMITTED);
    RunOneMore(opSize, t4, Enqueued(40));
    RunOneMore(opSize, t5, PREPARED);
    Reused(opSize, Run(opSize, t3));
    PreparedStamps(opSize, Run(opSize, t5));
  }
}
