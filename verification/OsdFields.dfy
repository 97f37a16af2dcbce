/** What each field of a record says of the events in its op's life, one field and one kind of event
    at a time. */
module OsdFields {
  import opened Words
  import opened ClassCalls
  import opened Folding
  import opened OsdTypes
  import opened OsdSpec
  import opened OsdRuns

  type Events = seq<Seen>

  // ================= kinds of events =================

  /** A transaction entered this state, and how many of its writes were pending could be read. */
  predicate Entered(e: Seen, state: U32) {
    e.probe.TxcStateProc? && e.probe.state == Got(state) && e.probe.pending.Got?
  }

  /** The transaction's writes are done: state 1, or state 0 with nothing pending. */
  predicate WritesDone(e: Seen) {
    Entered(e, 1) || (Entered(e, 0) && e.probe.pending == Got(0))
  }

  /** A write was sent to a peer that could be read. */
  predicate SentTo(e: Seen) {
    e.probe.GenerateSubop? && e.probe.peer.Got?
  }

  /** Of the op ended by this event the reply, and what was written and read, are known. */
  predicate Completes(e: Seen) {
    e.probe.LogOpStats? || (e.probe.RepopCommit? && e.probe.dataLen.Got?)
  }

  function Entering(state: U32): Seen -> bool {
    (e: Seen) => Entered(e, state)
  }

  predicate IsDequeue(e: Seen) { e.probe.DequeueOp? }
  predicate IsExecute(e: Seen) { e.probe.ExecuteCtx? }
  predicate IsSubmit(e: Seen) { e.probe.SubmitTransaction? }
  predicate IsLogged(e: Seen) { e.probe.LogOpStats? }

  /** A dequeue that could read the pool, and the placement seed. */
  predicate HasPool(e: Seen) { e.probe.DequeueOp? && e.probe.pool.Got? }
  predicate HasSeed(e: Seen) { HasPool(e) && e.probe.seed.Got? }

  // ================= the latest, and the first =================

  /** The time of the latest event of a kind, or 0. */
  function Latest(es: Events, kind: Seen -> bool): U64 {
    if es == [] then 0 else if kind(Last(es)) then Last(es).now else Latest(Front(es), kind)
  }

  /** The time of the first event of a kind, or 0; a time of 0 does not count. */
  function Earliest(es: Events, kind: Seen -> bool): U64 {
    if es == [] then 0
    else if Earliest(Front(es), kind) != 0 then Earliest(Front(es), kind)
    else if kind(Last(es)) then Last(es).now else 0
  }

  /** What the latest event of a kind carries, or 0. */
  function Carried(es: Events, kind: Seen -> bool, what: Seen -> int): int {
    if es == [] then 0 else if kind(Last(es)) then what(Last(es)) else Carried(Front(es), kind, what)
  }

  function PoolOf(e: Seen): int { if HasPool(e) then e.probe.pool.value else 0 }
  function SeedOf(e: Seen): int { if HasSeed(e) then e.probe.seed.value else 0 }
  function PendingOf(e: Seen): int { if Entered(e, 0) then e.probe.pending.value else 0 }
  function ReadBytes(e: Seen): int { if e.probe.LogOpStats? then e.probe.outb else 0 }

  /** Bytes written: as the OSD counts them, or the length of the replica transaction. */
  function WrittenBytes(e: Seen): int {
    if e.probe.LogOpStats? then e.probe.inb else if Completes(e) then e.probe.dataLen.value else 0
  }

  /** The first transaction queued while none of the op's had been submitted or committed. */
  function FirstQueued(es: Events): U64 {
    if es == [] then 0
    else
      var before := FirstQueued(Front(es));
      if Last(es).probe.QueueTransactions? && before == 0 && Latest(Front(es), Entering(0)) == 0 && Latest(Front(es), Entering(4)) == 0
      then Last(es).now else before
  }

  /** The first peer: the first OSD other than -1. */
  function FirstPeer(es: Events): int {
    if es == [] then -1
    else if FirstPeer(Front(es)) != -1 then FirstPeer(Front(es))
    else if SentTo(Last(es)) then Last(es).probe.peer.value else -1
  }

  /** The second: the latest OSD after the first. */
  function LaterPeer(es: Events): int {
    if es == [] then -1
    else if SentTo(Last(es)) && FirstPeer(Front(es)) != -1 then Last(es).probe.peer.value
    else LaterPeer(Front(es))
  }

  /** The latest answer of the first peer. */
  function FirstAnswer(es: Events): U64 {
    if es == [] then 0
    else if Last(es).probe.DoRepopReply? && Last(es).probe.osd == Got(FirstPeer(Front(es))) then Last(es).now
    else FirstAnswer(Front(es))
  }

  /** The latest answer of the second, if it is another OSD. */
  function LaterAnswer(es: Events): U64 {
    if es == [] then 0
    else if Last(es).probe.DoRepopReply? && Last(es).probe.osd == Got(LaterPeer(Front(es)))
            && LaterPeer(Front(es)) != FirstPeer(Front(es)) then Last(es).now
    else LaterAnswer(Front(es))
  }

  /** A delay reason that is kept, and its bytes. */
  function Reason(e: Seen): Option<seq<U8>> {
    match e.probe
    case MarkFlagPointString(_, _, len, strAddr, text) =>
      if len.Got? && strAddr.Got? && len.value < 32 then Some(PeekAll(text, len.value, 0)) else None
    case MarkFlagPoint(_, _, text) => Some(CString(text, 32))
    case _ => None
  }

  /** The first five. */
  function Reasons(es: Events): seq<seq<U8>> {
    if es == [] then []
    else
      var before := Reasons(Front(es));
      if |before| < 5 && Reason(Last(es)).Some? then before + [Reason(Last(es)).value] else before
  }

  /** How many bytes of an object name an event writes: at most 63, and none of what cannot be read. */
  function NameWritten(e: Seen): nat {
    match e.probe
    case ExecuteCtx(_, _, _, _, _, nameLen, strAddr, _) =>
      if nameLen.Or(0) != 0 && strAddr.Or(0) != 0 then Min(nameLen.value % 0x1_0000_0000, 63) else 0
    case RepopCommit(_, dataLen, nameLen, strAddr, _, _) =>
      if dataLen.Got? && nameLen.Or(0) != 0 && strAddr.Or(0) != 0 then Min(nameLen.value % 0x1_0000_0000, 63) else 0
    case _ => 0
  }

  function NameRead(e: Seen, i: nat): U8 {
    if e.probe.ExecuteCtx? || e.probe.RepopCommit? then Peek(e.probe.name, i, 0) else 0
  }

  /** Byte i of the name: of the latest event that wrote so many. */
  function NameByte(es: Events, i: nat): U8 {
    if es == [] then 0 else if i < NameWritten(Last(es)) then NameRead(Last(es), i) else NameByte(Front(es), i)
  }

  /** The time given by Latest is that of an event of the kind with none behind it; 0 without one. */
  lemma {:induction false} LatestIs(es: Events, kind: Seen -> bool, j: nat)
    requires j < |es| && forall i | j < i < |es| :: !kind(es[i])
    ensures kind(es[j]) ==> Latest(es, kind) == es[j].now
    ensures j == 0 && !kind(es[j]) ==> Latest(es, kind) == 0
  {
    if j < |es| - 1 {
      assert forall i | j < i < |Front(es)| :: Front(es)[i] == es[i];
      LatestIs(Front(es), kind, j);
    }
  }

  // ================= a record told by its events =================

  ghost predicate StampsTold(at: Stamps, es: Events) {
    && at.dequeue == Earliest(es, IsDequeue)
    && at.executeCtx == Latest(es, IsExecute)
    && at.submitTxn == Latest(es, IsSubmit)
    && at.queueTxn == FirstQueued(es)
    && at.aioSubmit == Latest(es, Entering(0))
    && at.aioDone == Latest(es, WritesDone)
    && at.kvSubmit == Latest(es, Entering(2))
    && at.kvCommitted == Latest(es, Entering(4))
  }

  ghost predicate PeersTold(pi: Peers, es: Events) {
    && pi.peer1 == FirstPeer(es) && pi.peer2 == LaterPeer(es) && pi.sent == Latest(es, SentTo)
    && pi.recv1 == FirstAnswer(es) && pi.recv2 == LaterAnswer(es)
  }

  /** What the enqueue says of the op, under its key. */
  ghost predicate RequestTold(r: OpRecord, k: OpKey, e: Seen) {
    && e.probe.EnqueueOp? && r.at.enqueue == e.now
    && r.pid == k.pid && r.owner == k.owner && r.tid == k.tid && Got(r.opType) == e.probe.opType
    && Got(r.msgr.recv) == e.probe.recv && Got(r.msgr.throttle) == e.probe.throttle
    && Got(r.msgr.recvComplete) == e.probe.recvComplete && Got(r.msgr.dispatch) == e.probe.dispatch
  }

  /** Pool and seed are those of the latest dequeue that could read them; the rest is known once the
      op has completed. */
  ghost predicate ResultsTold(r: OpRecord, es: Events) {
    && r.pool == Carried(es, HasPool, PoolOf) && r.seed == Carried(es, HasSeed, SeedOf)
    && r.aioSize == Carried(es, Entering(0), PendingOf)
    && r.reply == Latest(es, Completes)
    && r.wb == Carried(es, Completes, WrittenBytes) && r.rb == Carried(es, IsLogged, ReadBytes)
  }

  ghost predicate TextsTold(r: OpRecord, es: Events) {
    r.delays == Reasons(es) && |r.objectName| == 64 && forall i | 0 <= i < 64 :: r.objectName[i] == NameByte(es, i)
  }

  ghost predicate Told(r: OpRecord, k: OpKey, es: Events) {
    && es != [] && RequestTold(r, k, es[0])
    && StampsTold(r.at, es) && PeersTold(r.pi, es) && ResultsTold(r, es) && TextsTold(r, es)
  }

  lemma LatestOneMore(es: Events, e: Seen, kind: Seen -> bool)
    ensures Latest(es + [e], kind) == if kind(e) then e.now else Latest(es, kind)
  {
    assert Front(es + [e]) == es;
  }

  lemma FirstOnesOneMore(es: Events, e: Seen)
    ensures Earliest(es + [e], IsDequeue)
            == if Earliest(es, IsDequeue) == 0 && e.probe.DequeueOp? then e.now else Earliest(es, IsDequeue)
    ensures FirstQueued(es + [e])
            == if e.probe.QueueTransactions? && FirstQueued(es) == 0 && Latest(es, Entering(0)) == 0
                  && Latest(es, Entering(4)) == 0 then e.now else FirstQueued(es)
  {
    assert Front(es + [e]) == es;
  }

  lemma StampsOneMore(at: Stamps, es: Events, e: Seen)
    requires StampsTold(at, es)
    ensures StampsTold(StampsAfter(at, e.now, e.probe), es + [e])
  {
    FirstOnesOneMore(es, e);
    LatestOneMore(es, e, IsExecute);
    LatestOneMore(es, e, IsSubmit);
    LatestOneMore(es, e, Entering(0));
    LatestOneMore(es, e, WritesDone);
    LatestOneMore(es, e, Entering(2));
    LatestOneMore(es, e, Entering(4));
  }

  lemma PeersOneMore(pi: Peers, es: Events, e: Seen)
    requires PeersTold(pi, es)
    ensures PeersTold(PeersAfter(pi, e.now, e.probe), es + [e])
  {
    assert Front(es + [e]) == es && Last(es + [e]) == e;
  }

  lemma CarriedOneMore(es: Events, e: Seen, kind: Seen -> bool, what: Seen -> int)
    ensures Carried(es + [e], kind, what) == if kind(e) then what(e) else Carried(es, kind, what)
  {
    assert Front(es + [e]) == es;
  }

  lemma ResultsOneMore(opSize: U32, r: OpRecord, es: Events, e: Seen)
    requires ResultsTold(r, es)
    ensures ResultsTold(Apply(opSize, r, e.now, e.probe), es + [e])
  {
    CarriedOneMore(es, e, HasPool, PoolOf);
    CarriedOneMore(es, e, HasSeed, SeedOf);
    CarriedOneMore(es, e, Entering(0), PendingOf);
    LatestOneMore(es, e, Completes);
    CarriedOneMore(es, e, Completes, WrittenBytes);
    CarriedOneMore(es, e, IsLogged, ReadBytes);
  }

  lemma ReasonsOneMore(delays: seq<seq<U8>>, es: Events, e: Seen)
    requires delays == Reasons(es)
    ensures DelaysAfter(delays, e.probe) == Reasons(es + [e])
  {
    assert Front(es + [e]) == es;
  }

  lemma NameAfterIs(was: NameBytes, e: Seen, i: nat)
    requires i < 64
    ensures NameAfter(was, e.probe)[i] == if i < NameWritten(e) then NameRead(e, i) else was[i]
  {
  }

  lemma NameOneMore(was: NameBytes, es: Events, e: Seen)
    requires forall i | 0 <= i < 64 :: was[i] == NameByte(es, i)
    ensures forall i | 0 <= i < 64 :: NameAfter(was, e.probe)[i] == NameByte(es + [e], i)
  {
    assert Front(es + [e]) == es;
    forall i | 0 <= i < 64 ensures NameAfter(was, e.probe)[i] == NameByte(es + [e], i) {
      NameAfterIs(was, e, i);
    }
  }

  lemma TextsOneMore(opSize: U32, r: OpRecord, es: Events, e: Seen)
    requires TextsTold(r, es)
    ensures TextsTold(Apply(opSize, r, e.now, e.probe), es + [e])
  {
    ReasonsOneMore(r.delays, es, e);
    NameOneMore(r.objectName, es, e);
  }

  lemma ToldOneMore(opSize: U32, r: OpRecord, k: OpKey, es: Events, e: Seen)
    requires Told(r, k, es) && !e.probe.EnqueueOp?
    ensures Told(Apply(opSize, r, e.now, e.probe), k, es + [e])
  {
    StampsOneMore(r.at, es, e);
    PeersOneMore(r.pi, es, e);
    ResultsOneMore(opSize, r, es, e);
    TextsOneMore(opSize, r, es, e);
  }

  lemma {:induction false} ReplayTold(opSize: U32, k: OpKey, life: Events)
    requires life != [] && life[0].probe.EnqueueOp? && MessengerRead(life[0].probe) && life[0].probe.opType.Got?
    requires forall i | 0 < i < |life| :: !life[i].probe.EnqueueOp?
    ensures Told(Replay(opSize, k, life), k, life)
  {
    if |life| == 1 {
      BirthTold(k, life[0]);
      assert life == [life[0]];
    } else {
      var front, e := Front(life), Last(life);
      ReplayTold(opSize, k, front);
      ToldOneMore(opSize, Replay(opSize, k, front), k, front, e);
      assert life == front + [e];
    }
  }

  lemma BirthTold(k: OpKey, e: Seen)
    requires e.probe.EnqueueOp? && MessengerRead(e.probe) && e.probe.opType.Got?
    ensures Told(NewRecord(k, e.now, e.probe), k, [e])
  {
    assert Front([e]) == [] && [] + [e] == [e];
    LatestOneMore([], e, IsExecute);
    LatestOneMore([], e, IsSubmit);
    LatestOneMore([], e, Entering(0));
    LatestOneMore([], e, WritesDone);
    LatestOneMore([], e, Entering(2));
    LatestOneMore([], e, Entering(4));
    LatestOneMore([], e, SentTo);
    LatestOneMore([], e, Completes);
    FirstOnesOneMore([], e);
  }

  // ================= in a run =================

  /** A life starts with an enqueue whose type is traced and whose messenger stamps were read. */
  lemma {:induction false} LifeStarts(opSize: U32, tr: Trace, k: OpKey)
    ensures var life := Life(opSize, tr, k);
            life.Some? ==> life.value != [] && life.value[0].probe.EnqueueOp? && MessengerRead(life.value[0].probe)
                           && life.value[0].probe.opType in {Got(42), Got(112)}
  {
    if tr != [] { LifeStarts(opSize, Front(tr), k); }
  }

  /** In every run with evictions at any moment, each field of the record of a tracked op is told by
      the events of its life. */
  lemma RecordTold(opSize: U32, tr: Trace, k: OpKey)
    requires k in Run(opSize, tr).ops
    ensures Life(opSize, tr, k).Some? && LifeOf(opSize, tr, k, Life(opSize, tr, k).value)
    ensures Told(Run(opSize, tr).ops[k], k, Life(opSize, tr, k).value)
  {
    RecordIsReplay(opSize, tr, k);
    LifeStarts(opSize, tr, k);
    ReplayTold(opSize, k, Life(opSize, tr, k).value);
  }

  function SeenAt(tr: Trace, j: nat): Seen
    requires j < |tr| && tr[j].Hit?
  {
    Seen(j, tr[j].th, tr[j].now, tr[j].probe)
  }

  /** The op an event completes, if it is tracked in s, with or without room in the ring. */
  function EndedBy(s: State, e: Event, room: bool): Option<OpKey> {
    if e.Hit? && (e.probe.LogOpStats? || (e.probe.RepopCommit? && e.probe.dataLen.Got?)) && e.probe.ringFree == room
       && e.probe.id.tid.Got? && OpKey(e.th.pid, e.probe.id.owner.Or(0), e.probe.id.tid.value) in s.ops
    then Some(OpKey(e.th.pid, e.probe.id.owner.Or(0), e.probe.id.tid.value)) else None
  }

  /** The positions at which tracked ops complete, and which. */
  function Endings(opSize: U32, tr: Trace, room: bool): seq<(nat, OpKey)> {
    if tr == [] then []
    else
      Endings(opSize, Front(tr), room)
      + match EndedBy(Run(opSize, Front(tr)), Last(tr), room) case Some(k) => [(|tr| - 1, k)] case None => []
  }

  /** Record r left at that position, told by the life of its op up to and including that event, with
      the op list it had. */
  ghost predicate EmittedAt(opSize: U32, tr: Trace, at: (nat, OpKey), r: OpRecord) {
    && at.0 < |tr| && EndedBy(Run(opSize, tr[..at.0]), tr[at.0], true) == Some(at.1)
    && Life(opSize, tr[..at.0], at.1).Some?
    && Told(r, at.1, Life(opSize, tr[..at.0], at.1).value + [SeenAt(tr, at.0)])
    && r.detail == Run(opSize, tr[..at.0]).ops[at.1].detail
  }

  lemma EmittedExtends(opSize: U32, tr: Trace, e: Event, at: (nat, OpKey), r: OpRecord)
    requires EmittedAt(opSize, tr, at, r)
    ensures EmittedAt(opSize, tr + [e], at, r)
  {
    assert (tr + [e])[..at.0] == tr[..at.0];
    assert (tr + [e])[at.0] == tr[at.0];
  }

  lemma EndingsOneMore(opSize: U32, tr: Trace, e: Event, room: bool)
    ensures Endings(opSize, tr + [e], room)
            == Endings(opSize, tr, room)
               + match EndedBy(Run(opSize, tr), e, room) case Some(k) => [(|tr|, k)] case None => []
  {
    assert Front(tr + [e]) == tr;
  }

  lemma RingOneMore(opSize: U32, s: State, e: Event)
    ensures var s' := Step(opSize, s, e);
            && s'.ring == s.ring + (match EndedBy(s, e, true)
                                    case Some(k) => [Apply(opSize, s.ops[k], e.now, e.probe)] case None => [])
            && s'.drops == s.drops + (if EndedBy(s, e, false).Some? then 1 else 0)
  {
  }

  lemma EmittedNow(opSize: U32, tr: Trace, e: Event)
    requires EndedBy(Run(opSize, tr), e, true).Some?
    ensures var k := EndedBy(Run(opSize, tr), e, true).value;
            EmittedAt(opSize, tr + [e], (|tr|, k), Apply(opSize, Run(opSize, tr).ops[k], e.now, e.probe))
  {
    var k := EndedBy(Run(opSize, tr), e, true).value;
    assert (tr + [e])[..|tr|] == tr;
    RecordTold(opSize, tr, k);
    ToldOneMore(opSize, Run(opSize, tr).ops[k], k, Life(opSize, tr, k).value, SeenAt(tr + [e], |tr|));
  }

  ghost predicate AllEmitted(opSize: U32, tr: Trace, ends: seq<(nat, OpKey)>, ring: seq<OpRecord>) {
    |ends| == |ring| && forall i | 0 <= i < |ring| :: EmittedAt(opSize, tr, ends[i], ring[i])
  }

  lemma AllEmittedExtends(opSize: U32, tr: Trace, e: Event, ends: seq<(nat, OpKey)>, ring: seq<OpRecord>)
    requires AllEmitted(opSize, tr, ends, ring)
    ensures AllEmitted(opSize, tr + [e], ends, ring)
  {
    forall i | 0 <= i < |ring| ensures EmittedAt(opSize, tr + [e], ends[i], ring[i]) {
      EmittedExtends(opSize, tr, e, ends[i], ring[i]);
    }
  }

  lemma OneMoreEmitted(opSize: U32, tr: Trace, e: Event)
    requires AllEmitted(opSize, tr + [e], Endings(opSize, tr, true), Run(opSize, tr).ring)
    requires EndedBy(Run(opSize, tr), e, true).Some?
    ensures var k := EndedBy(Run(opSize, tr), e, true).value;
            AllEmitted(opSize, tr + [e], Endings(opSize, tr, true) + [(|tr|, k)],
                       Run(opSize, tr).ring + [Apply(opSize, Run(opSize, tr).ops[k], e.now, e.probe)])
  {
    EmittedNow(opSize, tr, e);
  }

  lemma MoreRingTold(opSize: U32, tr: Trace, e: Event)
    requires AllEmitted(opSize, tr, Endings(opSize, tr, true), Run(opSize, tr).ring)
    ensures AllEmitted(opSize, tr + [e], Endings(opSize, tr + [e], true), Run(opSize, tr + [e]).ring)
  {
    AllEmittedExtends(opSize, tr, e, Endings(opSize, tr, true), Run(opSize, tr).ring);
    EndingsOneMore(opSize, tr, e, true);
    RunOneMore(opSize, tr, e);
    RingOneMore(opSize, Run(opSize, tr), e);
    if EndedBy(Run(opSize, tr), e, true).Some? { OneMoreEmitted(opSize, tr, e); }
  }

  lemma {:induction false} DropsTold(opSize: U32, tr: Trace)
    ensures Run(opSize, tr).drops == |Endings(opSize, tr, false)|
  {
    if tr != [] {
      var front, e := Front(tr), Last(tr);
      DropsTold(opSize, front);
      assert tr == front + [e];
      EndingsOneMore(opSize, front, e, false);
      RingOneMore(opSize, Run(opSize, front), e);
    }
  }

  lemma {:induction false} AllRingTold(opSize: U32, tr: Trace)
    ensures AllEmitted(opSize, tr, Endings(opSize, tr, true), Run(opSize, tr).ring)
  {
    if tr != [] {
      AllRingTold(opSize, Front(tr));
      assert tr == Front(tr) + [Last(tr)];
      MoreRingTold(opSize, Front(tr), Last(tr));
    }
  }

  /** The ring holds one record for each completion with room, in order, and each of its fields is
      told by the life of its op and the event that completed it; the drop counter counts the
      completions without room. */
  lemma RingTold(opSize: U32, tr: Trace)
    ensures AllEmitted(opSize, tr, Endings(opSize, tr, true), Run(opSize, tr).ring)
    ensures Run(opSize, tr).drops == |Endings(opSize, tr, false)|
  {
    AllRingTold(opSize, tr);
    DropsTold(opSize, tr);
  }
}
