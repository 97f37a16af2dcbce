/** What one event does to osdtrace's state, said orthogonally to the probe bodies: which op the
    event reaches, what it does to that op's record, whether the record leaves the map, and what
    happens to the thread and transaction bindings. */
module OsdSpec {
  import opened Words
  import opened ClassCalls
  import opened OsdTypes

  /** Probes that name their op by request id. */
  predicate HasIdent(p: Probe) {
    !p.QueueTransactions? && !p.TxcCalcCost? && !p.TxcStateProc? && !p.TxcAddTransaction?
  }

  /** The key a probe builds from its own arguments, if it gets far enough to build one. */
  function OwnKey(th: Thread, p: Probe): Option<OpKey> {
    if !HasIdent(p) then None
    else if (p.EnqueueOp? || p.DequeueOp?) && !TracedType(p.opType.Or(0)) then None
    else if p.EnqueueOp? && p.id.owner.Missing? then None
    else if (p.MarkFlagPointString? || p.MarkFlagPoint?) && !Delayed(p.flag) then None
    else IdKey(th, p.id)
  }

  function IdKey(th: Thread, id: Ident): Option<OpKey> {
    if id.tid.Got? then Some(OpKey(th.pid, id.owner.Or(0), id.tid.value)) else None
  }

  /** BlueStore probes carry no op identity: they go through the thread or the transaction. */
  predicate ByThread(p: Probe) {
    p.QueueTransactions? || p.TxcAddTransaction? || p.TxcCalcCost?
  }

  /** The transaction a state change is about. */
  function CtxOf(th: Thread, p: Probe): Option<CtxKey> {
    if (p.TxcStateProc? || p.TxcCalcCost?) && p.seqid.Got? && p.start.Got?
    then Some(CtxKey(th.pid, p.seqid.value, p.start.value)) else None
  }

  function Get<K, V>(m: map<K, V>, k: K): Option<V> {
    if k in m then Some(m[k]) else None
  }

  /** The op an event is attributed to. */
  function Target(s: State, th: Thread, p: Probe): Option<OpKey> {
    if ByThread(p) then Get(s.threads, th)
    else if p.TxcStateProc? then
      if CtxOf(th, p).Some? then Get(s.ctxs, CtxOf(th, p).value) else None
    else OwnKey(th, p)
  }

  // ---- effect on the record ----

  function NewRecord(k: OpKey, now: U64, p: Probe): OpRecord
    requires p.EnqueueOp?
  {
    ZeroRecord().(pid := k.pid, owner := k.owner, tid := k.tid, opType := p.opType.Or(0),
                  at := Stamps(now, 0, 0, 0, 0, 0, 0, 0, 0), pi := Peers(-1, -1, 0, 0, 0),
                  msgr := Messenger(p.recv.Or(0), p.throttle.Or(0), p.recvComplete.Or(0), p.dispatch.Or(0)))
  }

  predicate MessengerRead(p: Probe)
    requires p.EnqueueOp?
  {
    p.recv.Got? && p.throttle.Got? && p.recvComplete.Got? && p.dispatch.Got?
  }

  /** Opcodes copied over the slots from `at` on. */
  function OverlayAt(was: DetailOps, at: nat, codes: seq<U32>, n: nat): DetailOps
    requires at + n <= MAX_DETAIL_OPS
  {
    was[..at] + PeekAll(codes, n, 0) + was[at + n..]
  }

  /** The number of ops in a decoded vector. */
  function OpsBetween(opSize: U32, start: U64, finish: U64): U32
    requires opSize != 0 && start <= finish
  {
    Low32((finish - start) / opSize)
  }

  function CaptureClientOps(opSize: U32, d: Detail, start: U64, finish: U64, codes: seq<U16>, calls: seq<CallRead>): Detail {
    if opSize == 0 || start == 0 || finish < start then d
    else CaptureFirst(d, OpsBetween(opSize, start, finish), codes, calls)
  }

  function CaptureFirst(d: Detail, total: U32, codes: seq<U16>, calls: seq<CallRead>): Detail {
    var n := Min(MAX_DETAIL_OPS, total);
    Detail(OverlayAt(d.codes, 0, codes, n), CallsOver(d.calls, codes, calls, n), Low32(d.captured + n), total, d.unavailable)
  }

  /** The names of the calls among n opcodes; other slots keep theirs. */
  function CallsOver(was: DetailCalls, codes: seq<U16>, calls: seq<CallRead>, n: nat): DetailCalls {
    seq(MAX_DETAIL_OPS, i requires 0 <= i < MAX_DETAIL_OPS =>
      if i < n && Peek(codes, i, 0) == CALL then OsdNames(Peek(calls, i, NO_READ)) else was[i])
  }

  /** The number of transaction opcodes that still fit. */
  function Room(captured: U32, txnOps: U64): nat {
    if captured >= MAX_DETAIL_OPS then 0 else Min(Min(MAX_DETAIL_OPS, txnOps), MAX_DETAIL_OPS - captured)
  }

  function AppendTxnOps(d: Detail, txnOps: U64, codes: seq<U32>): Detail {
    var n := Room(d.captured, txnOps);
    if n == 0 then d
    else d.(captured := d.captured + n, codes := OverlayAt(d.codes, d.captured, codes, n))
  }

  function AddTransaction(d: Detail, p: Probe): Detail
    requires p.TxcAddTransaction?
  {
    if p.txnOps.Or(0) == 0 then d
    else
      var d1 := d.(total := Low32(d.total + p.txnOps.value));
      if p.numBuffers.Missing? then d1
      else if p.numBuffers.value != 1 then d1.(captured := 0, unavailable := true)
      else if d1.unavailable || p.carriage.Or(0) == 0 || p.raw == 0 || p.rawData == 0 then d1
      else AppendTxnOps(d1, p.txnOps.value, p.txnCodes)
  }

  function DetailAfter(opSize: U32, opType: U16, d: Detail, p: Probe): Detail {
    if p.ExecuteCtx? && p.opsStart.Got? && p.opsFinish.Got? then
      CaptureClientOps(opSize, d, p.opsStart.value, p.opsFinish.value, p.codes, p.calls)
    else if p.TxcAddTransaction? && opType == MSG_OSD_REPOP then AddTransaction(d, p)
    else d
  }

  predicate NeverQueued(at: Stamps) {
    at.queueTxn == 0 && at.aioSubmit == 0 && at.kvCommitted == 0
  }

  predicate TxnUntouched(at: Stamps) {
    at.aioSubmit == 0 && at.kvCommitted == 0
  }

  predicate StateChange(p: Probe, state: U32) {
    p.TxcStateProc? && p.state == Got(state) && p.pending.Got?
  }

  /** The boot-clock stamps after an event. */
  function StampsAfter(at: Stamps, now: U64, p: Probe): Stamps {
    if p.DequeueOp? then at.(dequeue := if at.dequeue == 0 then now else at.dequeue)
    else if p.ExecuteCtx? then at.(executeCtx := now)
    else if p.SubmitTransaction? then at.(submitTxn := now)
    else if p.QueueTransactions? then at.(queueTxn := if NeverQueued(at) then now else at.queueTxn)
    else if StateChange(p, 0) then
      at.(aioSubmit := now, aioDone := if p.pending.value == 0 then now else at.aioDone)
    else if StateChange(p, 1) then at.(aioDone := now)
    else if StateChange(p, 2) then at.(kvSubmit := now)
    else if StateChange(p, 4) then at.(kvCommitted := now)
    else at
  }

  function PeersAfter(pi: Peers, now: U64, p: Probe): Peers {
    if p.GenerateSubop? && p.peer.Got? then
      if pi.peer1 == -1 then pi.(peer1 := p.peer.value, sent := now) else pi.(peer2 := p.peer.value, sent := now)
    else if p.DoRepopReply? && p.osd.Got? then
      if p.osd.value == pi.peer1 then pi.(recv1 := now)
      else if p.osd.value == pi.peer2 then pi.(recv2 := now)
      else pi
    else pi
  }

  function DelaysAfter(delays: seq<seq<U8>>, p: Probe): seq<seq<U8>> {
    if |delays| >= MAX_DELAYS then delays
    else if p.MarkFlagPointString? && p.len.Got? && p.strAddr.Got? && p.len.value < DELAY_LEN then
      delays + [PeekAll(p.text, p.len.value, 0)]
    else if p.MarkFlagPoint? then delays + [CString(p.text, DELAY_LEN)]
    else delays
  }

  function NameAfter(was: NameBytes, p: Probe): NameBytes {
    if (p.ExecuteCtx? || (p.RepopCommit? && p.dataLen.Got?)) && p.nameLen.Or(0) != 0 && p.strAddr.Or(0) != 0
    then NameOf(was, p.name, NameCopyLen(p.nameLen.value)) else was
  }

  predicate Replies(p: Probe) {
    p.LogOpStats? || (p.RepopCommit? && p.dataLen.Got?)
  }

  /** The record of a tracked op after an event attributed to it (other than an enqueue). */
  function Apply(opSize: U32, r: OpRecord, now: U64, p: Probe): OpRecord {
    OpRecord(r.pid, r.owner, r.tid, r.opType, r.msgr,
             StampsAfter(r.at, now, p),
             if StateChange(p, 0) then p.pending.value else r.aioSize,
             PeersAfter(r.pi, now, p),
             DelaysAfter(r.delays, p),
             if Replies(p) then now else r.reply,
             if p.LogOpStats? then p.inb else if Replies(p) then p.dataLen.value else r.wb,
             if p.LogOpStats? then p.outb else r.rb,
             if p.DequeueOp? then p.pool.Or(r.pool) else r.pool,
             if p.DequeueOp? && p.pool.Got? then p.seed.Or(r.seed) else r.seed,
             NameAfter(r.objectName, p),
             DetailAfter(opSize, r.opType, r.detail, p))
  }

  // ---- does the record stay? ----

  datatype Fate = Stay | Emit | RingFull | EcDelete | LenUnread

  function FateOf(p: Probe): Fate {
    if p.EcSubmitTransaction? then EcDelete
    else if p.RepopCommit? && p.dataLen.Missing? then LenUnread
    else if p.LogOpStats? || p.RepopCommit? then if p.ringFree then Emit else RingFull
    else Stay
  }

  /** A resend of an op that is still young leaves the tracked record alone. */
  predicate IsRetry(s: State, k: OpKey, now: U64) {
    k in s.ops && Sub64(now, s.ops[k].at.enqueue) < RETRY_WINDOW_NS
  }

  predicate Accepts(s: State, th: Thread, now: U64, p: Probe) {
    p.EnqueueOp? && OwnKey(th, p).Some? && !IsRetry(s, OwnKey(th, p).value, now)
  }

  function OpsAfter(opSize: U32, s: State, th: Thread, now: U64, p: Probe): map<OpKey, OpRecord> {
    var target := Target(s, th, p);
    if target.None? then s.ops
    else
      var k := target.value;
      if p.EnqueueOp? then
        if IsRetry(s, k, now) then s.ops
        else if MessengerRead(p) then s.ops[k := NewRecord(k, now, p)]
        else s.ops - {k}
      else if k !in s.ops then s.ops
      else if FateOf(p).Stay? then s.ops[k := Apply(opSize, s.ops[k], now, p)]
      else s.ops - {k}
  }

  // ---- bindings ----

  function Bind<K, V>(m: map<K, V>, k: K, v: Option<V>): map<K, V> {
    if v.Some? then m[k := v.value] else m - {k}
  }

  /** What the thread is bound to once the probe returns. */
  function BindingAfter(s: State, th: Thread, p: Probe): Option<OpKey> {
    var target := Target(s, th, p);
    var live := target.Some? && target.value in s.ops;
    if p.DequeueOp? then
      if live && p.pool.Got? && p.seed.Got? && p.opType.Or(0) == MSG_OSD_REPOP && s.ops[target.value].at.queueTxn == 0
      then target else None
    else if p.SubmitTransaction? then if live then target else None
    else if p.QueueTransactions? then if live && NeverQueued(s.ops[target.value].at) then target else None
    else if p.TxcCalcCost? then None
    else Get(s.threads, th)
  }

  function CtxsAfter(s: State, th: Thread, p: Probe): map<CtxKey, OpKey> {
    var target := Target(s, th, p);
    if target.None? || target.value !in s.ops || CtxOf(th, p).None? then s.ctxs
    else if p.TxcCalcCost? then
      if TxnUntouched(s.ops[target.value].at) then s.ctxs[CtxOf(th, p).value := target.value] else s.ctxs
    else if StateChange(p, 4) then s.ctxs - {CtxOf(th, p).value}
    else s.ctxs
  }

  function RingAfter(opSize: U32, s: State, th: Thread, now: U64, p: Probe): seq<OpRecord> {
    var target := Target(s, th, p);
    if target.Some? && target.value in s.ops && FateOf(p).Emit?
    then s.ring + [Apply(opSize, s.ops[target.value], now, p)] else s.ring
  }

  function DropsAfter(s: State, th: Thread, p: Probe): nat {
    var target := Target(s, th, p);
    if target.Some? && target.value in s.ops && FateOf(p).RingFull? then s.drops + 1 else s.drops
  }

  function Step(opSize: U32, s: State, e: Event): State {
    match e
    case EvictOp(k) => s.(ops := s.ops - {k})
    case EvictThread(th) => s.(threads := s.threads - {th})
    case EvictCtx(c) => s.(ctxs := s.ctxs - {c})
    case Hit(th, now, p) =>
      State(OpsAfter(opSize, s, th, now, p), Bind(s.threads, th, BindingAfter(s, th, p)), CtxsAfter(s, th, p),
            RingAfter(opSize, s, th, now, p), DropsAfter(s, th, p))
  }
}
