/** osdtrace as a keeper of histories: for each op the list of its events, and which op each thread
    and transaction stands for.  Stated probe by probe, on the lists alone. */
module OsdHistory {
  import opened Words
  import opened Folding
  import opened OsdTypes
  import opened OsdSpec
  import opened OsdRuns
  import opened OsdFields

  datatype History = History(lives: map<OpKey, Events>, threads: map<Thread, OpKey>, ctxs: map<CtxKey, OpKey>)

  /** Client ops and replica ops are followed. */
  predicate Followed(opType: Read<U16>) {
    opType == Got(42) || opType == Got(112)
  }

  function Named(th: Thread, id: Ident): Option<OpKey> {
    if id.tid.Got? then Some(OpKey(th.pid, id.owner.Or(0), id.tid.value)) else None
  }

  /** Less than five seconds between two readings of a 64-bit clock. */
  predicate Young(now: U64, born: U64) {
    (now - born) % 0x1_0000_0000_0000_0000 < 5_000_000_000
  }

  /** No transaction of the op was prepared or committed. */
  predicate Untouched(life: Events) {
    Latest(life, Entering(0)) == 0 && Latest(life, Entering(4)) == 0
  }

  function ThreadOp(h: History, th: Thread): Option<OpKey> {
    if th in h.threads then Some(h.threads[th]) else None
  }

  function CtxOp(h: History, th: Thread, seqid: Read<U32>, start: Read<U64>): Option<OpKey> {
    if seqid.Got? && start.Got? && CtxKey(th.pid, seqid.value, start.value) in h.ctxs
    then Some(h.ctxs[CtxKey(th.pid, seqid.value, start.value)]) else None
  }

  /** The op an event is about. */
  function Reached(h: History, th: Thread, p: Probe): Option<OpKey> {
    match p
    case EnqueueOp(opType, id, _, _, _, _) => if Followed(opType) && id.owner.Got? then Named(th, id) else None
    case DequeueOp(opType, id, _, _) => if Followed(opType) then Named(th, id) else None
    case ExecuteCtx(id, _, _, _, _, _, _, _) => Named(th, id)
    case SubmitTransaction(id) => Named(th, id)
    case EcSubmitTransaction(id) => Named(th, id)
    case QueueTransactions => ThreadOp(h, th)
    case TxcCalcCost(_, _) => ThreadOp(h, th)
    case TxcAddTransaction(_, _, _, _, _, _) => ThreadOp(h, th)
    case TxcStateProc(seqid, start, _, _) => CtxOp(h, th, seqid, start)
    case GenerateSubop(id, _) => Named(th, id)
    case DoRepopReply(id, _) => Named(th, id)
    case MarkFlagPointString(flag, id, _, _, _) => if flag % 8 >= 4 then Named(th, id) else None
    case MarkFlagPoint(flag, id, _) => if flag % 8 >= 4 then Named(th, id) else None
    case LogOpStats(id, _, _, _) => Named(th, id)
    case RepopCommit(id, _, _, _, _, _) => Named(th, id)
  }

  /** An enqueue starts a list unless its op is young; a completion, or the submission of an
      erasure-coded write, ends one; any other event goes to the list of its op. */
  function LivesAfter(h: History, e: Seen): map<OpKey, Events> {
    var lives, reached := h.lives, Reached(h, e.th, e.probe);
    if reached.None? then lives
    else
      var k := reached.value;
      match e.probe
      case EnqueueOp(_, _, recv, throttle, recvComplete, dispatch) =>
        if k in lives && lives[k] != [] && Young(e.now, lives[k][0].now) then lives
        else if recv.Got? && throttle.Got? && recvComplete.Got? && dispatch.Got? then lives[k := [e]]
        else lives - {k}
      case EcSubmitTransaction(_) => lives - {k}
      case LogOpStats(_, _, _, _) => lives - {k}
      case RepopCommit(_, _, _, _, _, _) => lives - {k}
      case _ => if k in lives then lives[k := lives[k] + [e]] else lives
  }

  predicate Live(h: History, k: Option<OpKey>) {
    k.Some? && k.value in h.lives
  }

  /** What the thread of the event stands for afterwards. */
  function ThreadAfter(h: History, e: Seen): Option<OpKey> {
    match e.probe
    case DequeueOp(opType, id, pool, seed) =>
      var k := Named(e.th, id);
      if opType == Got(112) && pool.Got? && seed.Got? && Live(h, k) && FirstQueued(h.lives[k.value]) == 0 then k else None
    case SubmitTransaction(id) => if Live(h, Named(e.th, id)) then Named(e.th, id) else None
    case QueueTransactions =>
      var k := ThreadOp(h, e.th);
      if Live(h, k) && FirstQueued(h.lives[k.value]) == 0 && Untouched(h.lives[k.value]) then k else None
    case TxcCalcCost(_, _) => None
    case _ => ThreadOp(h, e.th)
  }

  /** A transaction is bound when its cost is computed, and released once committed. */
  function TransactionsAfter(h: History, e: Seen): map<CtxKey, OpKey> {
    match e.probe
    case TxcCalcCost(seqid, start) =>
      var k := ThreadOp(h, e.th);
      if Live(h, k) && Untouched(h.lives[k.value]) && seqid.Got? && start.Got?
      then h.ctxs[CtxKey(e.th.pid, seqid.value, start.value) := k.value] else h.ctxs
    case TxcStateProc(seqid, start, state, pending) =>
      if Live(h, CtxOp(h, e.th, seqid, start)) && state == Got(4) && pending.Got?
      then h.ctxs - {CtxKey(e.th.pid, seqid.value, start.value)} else h.ctxs
    case _ => h.ctxs
  }

  function After(h: History, at: nat, e: Event): History {
    match e
    case EvictOp(k) => h.(lives := h.lives - {k})
    case EvictThread(th) => h.(threads := h.threads - {th})
    case EvictCtx(c) => h.(ctxs := h.ctxs - {c})
    case Hit(th, now, p) =>
      var seen := Seen(at, th, now, p);
      var k := ThreadAfter(h, seen);
      History(LivesAfter(h, seen), if k.Some? then h.threads[th := k.value] else h.threads - {th}, TransactionsAfter(h, seen))
  }

  function Kept(tr: Trace): History {
    if tr == [] then History(map[], map[], map[]) else After(Kept(Front(tr)), |tr| - 1, Last(tr))
  }

  // ================= the tracer keeps just that =================

  ghost predicate Mirrors(s: State, h: History) {
    && s.threads == h.threads && s.ctxs == h.ctxs && s.ops.Keys == h.lives.Keys
    && forall k | k in s.ops :: Told(s.ops[k], k, h.lives[k])
  }

  function At(h: History, k: OpKey): Option<Events> {
    if k in h.lives then Some(h.lives[k]) else None
  }

  /** As much of it as decides what an event does. */
  ghost predicate Dated(at: Stamps, life: Events) {
    && life != [] && at.enqueue == life[0].now && at.queueTxn == FirstQueued(life)
    && at.aioSubmit == Latest(life, Entering(0)) && at.kvCommitted == Latest(life, Entering(4))
  }

  ghost predicate Agrees(s: State, h: History) {
    && s.threads == h.threads && s.ctxs == h.ctxs && s.ops.Keys == h.lives.Keys
    && forall k | k in s.ops :: Dated(s.ops[k].at, h.lives[k])
  }

  lemma ElapsedIs(now: U64, born: U64)
    ensures Sub64(now, born) < RETRY_WINDOW_NS <==> Young(now, born)
  {
  }

  lemma SameReached(s: State, h: History, th: Thread, p: Probe)
    requires s.threads == h.threads && s.ctxs == h.ctxs
    ensures Target(s, th, p) == Reached(h, th, p)
  {
  }

  lemma SameYoung(s: State, h: History, k: OpKey, now: U64)
    requires Agrees(s, h)
    ensures IsRetry(s, k, now) <==> k in h.lives && h.lives[k] != [] && Young(now, h.lives[k][0].now)
  {
    if k in s.ops { ElapsedIs(now, s.ops[k].at.enqueue); }
  }

  lemma LivesStep(s: State, h: History, e: Seen, k: OpKey)
    requires Agrees(s, h)
    ensures At(h.(lives := LivesAfter(h, e)), k) == LifeAfter(s, At(h, k), e.at, Hit(e.th, e.now, e.probe), k)
  {
    SameReached(s, h, e.th, e.probe);
    SameYoung(s, h, k, e.now);
  }

  lemma SameUntouched(s: State, h: History, k: OpKey)
    requires Agrees(s, h) && k in s.ops
    ensures k in h.lives && (TxnUntouched(s.ops[k].at) <==> Untouched(h.lives[k]))
    ensures NeverQueued(s.ops[k].at) <==> FirstQueued(h.lives[k]) == 0 && Untouched(h.lives[k])
    ensures s.ops[k].at.queueTxn == FirstQueued(h.lives[k])
  {
  }

  lemma SameThread(s: State, h: History, e: Seen)
    requires Agrees(s, h)
    ensures ThreadAfter(h, e) == BindingAfter(s, e.th, e.probe)
  {
    SameReached(s, h, e.th, e.probe);
    var target := Target(s, e.th, e.probe);
    if target.Some? && target.value in s.ops { SameUntouched(s, h, target.value); }
  }

  lemma SameCtxs(s: State, h: History, e: Seen)
    requires Agrees(s, h)
    ensures TransactionsAfter(h, e) == CtxsAfter(s, e.th, e.probe)
  {
    SameReached(s, h, e.th, e.probe);
    var target := Target(s, e.th, e.probe);
    if target.Some? && target.value in s.ops { SameUntouched(s, h, target.value); }
  }

  lemma BindingsStep(opSize: U32, s: State, h: History, at: nat, e: Event)
    requires Agrees(s, h)
    ensures After(h, at, e).threads == Step(opSize, s, e).threads && After(h, at, e).ctxs == Step(opSize, s, e).ctxs
  {
    if e.Hit? {
      SameThread(s, h, Seen(at, e.th, e.now, e.probe));
      SameCtxs(s, h, Seen(at, e.th, e.now, e.probe));
    }
  }

  lemma LifeStep(s: State, h: History, at: nat, e: Event, k: OpKey)
    requires Agrees(s, h)
    ensures At(After(h, at, e), k) == LifeAfter(s, At(h, k), at, e, k)
  {
    if e.Hit? { LivesStep(s, h, Seen(at, e.th, e.now, e.probe), k); }
  }

  ghost predicate SameLives(opSize: U32, tr: Trace) {
    forall k: OpKey :: Life(opSize, tr, k) == At(Kept(tr), k)
  }

  lemma LivesAreTold(opSize: U32, tr: Trace)
    requires SameLives(opSize, tr)
    ensures Run(opSize, tr).ops.Keys == Kept(tr).lives.Keys
    ensures forall k | k in Run(opSize, tr).ops :: Told(Run(opSize, tr).ops[k], k, Kept(tr).lives[k])
  {
    forall k: OpKey ensures k in Run(opSize, tr).ops <==> k in Kept(tr).lives {
      RecordIsReplay(opSize, tr, k);
      assert Life(opSize, tr, k) == At(Kept(tr), k);
    }
    forall k | k in Run(opSize, tr).ops ensures Told(Run(opSize, tr).ops[k], k, Kept(tr).lives[k]) {
      RecordTold(opSize, tr, k);
      assert Life(opSize, tr, k) == At(Kept(tr), k);
    }
  }

  lemma MirrorsAgrees(s: State, h: History)
    requires Mirrors(s, h)
    ensures Agrees(s, h)
  {
  }

  lemma LivesOneMore(opSize: U32, tr: Trace)
    requires tr != [] && SameLives(opSize, Front(tr)) && Agrees(Run(opSize, Front(tr)), Kept(Front(tr)))
    ensures SameLives(opSize, tr)
  {
    forall k: OpKey ensures Life(opSize, tr, k) == At(Kept(tr), k) {
      LifeStep(Run(opSize, Front(tr)), Kept(Front(tr)), |tr| - 1, Last(tr), k);
      assert Life(opSize, Front(tr), k) == At(Kept(Front(tr)), k);
    }
  }

  /** In every run, threads and transactions stand for the ops the histories say, an op is tracked
      exactly while it has a history, its life is that history, and its record is told by it. */
  lemma {:induction false} TracerKeepsHistories(opSize: U32, tr: Trace)
    ensures Mirrors(Run(opSize, tr), Kept(tr)) && SameLives(opSize, tr)
  {
    if tr != [] {
      TracerKeepsHistories(opSize, Front(tr));
      MirrorsAgrees(Run(opSize, Front(tr)), Kept(Front(tr)));
      BindingsStep(opSize, Run(opSize, Front(tr)), Kept(Front(tr)), |tr| - 1, Last(tr));
      LivesOneMore(opSize, tr);
    }
    LivesAreTold(opSize, tr);
  }
}
