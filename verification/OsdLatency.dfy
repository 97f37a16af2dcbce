/** The userspace half: turning an event from the ring buffer into latencies, in unsigned 64-bit
    arithmetic, and why no part ever exceeds the whole. */
module OsdLatency {
  import opened Words
  import opened Folding
  import opened ClassCalls
  import opened OsdTypes
  import opened OsdSpec
  import opened OsdRuns
  import opened OsdStamps

  datatype PeerLat = PeerLat(peer: int, latency: U64)

  /** The latencies of osd_op_t, in microseconds. */
  datatype Latencies = Latencies(
    throttle: U64, recv: U64, dispatch: U64, queue: U64, osd: U64, peers: seq<PeerLat>,
    prepare: U64, aioWait: U64, pgSeq: U64, kvCommit: U64, bluestore: U64, op: U64)

  datatype OsdOp = OsdOp(
    opType: U16, wb: U32, rb: U32, isWrite: bool, clientId: U64, reqId: U64, pool: U64, seed: U32,
    lat: Latencies, delays: seq<seq<U8>>, aioSize: int, objectName: seq<U8>,
    detailOps: seq<U32>, clsOps: DetailCalls, detailTotal: U32, detailUnavailable: bool)

  function SafeLatUs(end: U64, start: U64): U64 {
    if start != 0 && end > start then (end - start) / 1000 else 0
  }

  function DiffUs(end: U64, start: U64): U64 {
    Sub64(end, start) / 1000
  }

  predicate IsWrite(v: OpRecord) {
    v.opType == MSG_OSD_REPOP || v.at.submitTxn != 0 || v.wb > 0
  }

  /** The receive stamp the latencies are measured from. */
  function RecvStamp(m: Messenger): U64 {
    if m.throttle < m.recv then m.throttle else m.recv
  }

  function PeerEntry(peer: int, recv: U64, sent: U64): seq<PeerLat> {
    if peer != -1 && recv != 0 then [PeerLat(peer, if recv > sent then (recv - sent) / 1000 else 0)] else []
  }

  function LatenciesOf(v: OpRecord, bootstamp: U64): Latencies {
    var recv := RecvStamp(v.msgr);
    Latencies(
      DiffUs(v.msgr.throttle, recv),
      DiffUs(v.msgr.recvComplete, recv),
      DiffUs(v.at.enqueue, Sub64(v.msgr.recvComplete, bootstamp)),
      DiffUs(v.at.dequeue, v.at.enqueue),
      if IsWrite(v) then SafeLatUs(v.at.queueTxn, v.at.dequeue)
      else if Low32(v.rb) > 0 then SafeLatUs(v.at.executeCtx, v.at.dequeue) else 0,
      if v.opType == MSG_OSD_OP
      then PeerEntry(v.pi.peer1, v.pi.recv1, v.pi.sent) + PeerEntry(v.pi.peer2, v.pi.recv2, v.pi.sent) else [],
      SafeLatUs(v.at.aioSubmit, v.at.queueTxn),
      SafeLatUs(v.at.aioDone, v.at.aioSubmit),
      SafeLatUs(v.at.kvSubmit, v.at.aioDone),
      SafeLatUs(v.at.kvCommitted, v.at.kvSubmit),
      if IsWrite(v) then SafeLatUs(v.at.kvCommitted, v.at.queueTxn)
      else if Low32(v.rb) > 0 then SafeLatUs(v.reply, v.at.executeCtx) else 0,
      DiffUs(v.reply, Sub64(recv, bootstamp)))
  }

  /** The calls userspace takes along: those of the captured opcodes, in zeroed slots. */
  function TakenCalls(d: Detail): DetailCalls {
    var calls: seq<ClsOp> := seq(MAX_DETAIL_OPS, i requires 0 <= i < MAX_DETAIL_OPS => TakenCall(d, i));
    calls
  }

  function TakenCall(d: Detail, i: nat): ClsOp
    requires i < MAX_DETAIL_OPS
  {
    if i < d.captured then d.calls[i] else NO_CALL
  }

  method CopyDetailOps(d: Detail) returns (ops: seq<U32>, calls: DetailCalls)
    ensures ops == d.codes[..Min(d.captured, MAX_DETAIL_OPS)] && calls == TakenCalls(d)
  {
    ops, calls := [], seq(MAX_DETAIL_OPS, _ => NO_CALL);
    var i := 0;
    while i < d.captured && i < MAX_DETAIL_OPS
      invariant 0 <= i <= Min(d.captured, MAX_DETAIL_OPS) && ops == d.codes[..i]
      invariant forall j | 0 <= j < MAX_DETAIL_OPS :: calls[j] == if j < i then d.calls[j] else NO_CALL
    {
      ops := ops + [d.codes[i]];
      calls := calls[i := d.calls[i]];
      i := i + 1;
    }
  }

  /** The delay reasons as strings: each ends at its first NUL byte. */
  method CopyDelays(from: seq<seq<U8>>) returns (delays: seq<seq<U8>>)
    ensures |delays| == |from| && forall i | 0 <= i < |from| :: delays[i] == UpToNul(from[i])
  {
    delays := [];
    var i := 0;
    while i < |from|
      invariant 0 <= i <= |from| && |delays| == i && forall j | 0 <= j < i :: delays[j] == UpToNul(from[j])
    {
      delays := delays + [UpToNul(from[i])];
      i := i + 1;
    }
  }

  /** An entry for a peer that exists and has answered: the whole microseconds from sending to its
      answer, and nothing for an answer stamped before the latest sending. */
  predicate AnsweredIn(e: PeerLat, peer: int, recv: U64, sent: U64) {
    && e.peer == peer && peer != -1 && recv != 0
    && (recv <= sent ==> e.latency == 0)
    && (recv > sent ==> e.latency * 1000 <= recv - sent < (e.latency + 1) * 1000)
  }

  /** One entry for each peer that exists and has answered, the first peer's first. */
  predicate PeersExplained(peers: seq<PeerLat>, pi: Peers) {
    var first, second := pi.peer1 != -1 && pi.recv1 != 0, pi.peer2 != -1 && pi.recv2 != 0;
    && |peers| == (if first then 1 else 0) + (if second then 1 else 0)
    && (first ==> AnsweredIn(peers[0], pi.peer1, pi.recv1, pi.sent))
    && (second ==> AnsweredIn(peers[|peers| - 1], pi.peer2, pi.recv2, pi.sent))
  }

  method PeerLatencies(pi: Peers) returns (peers: seq<PeerLat>)
    ensures peers == PeerEntry(pi.peer1, pi.recv1, pi.sent) + PeerEntry(pi.peer2, pi.recv2, pi.sent)
    ensures PeersExplained(peers, pi)
  {
    peers := [];
    if pi.peer1 != -1 && pi.recv1 != 0 {
      peers := peers + [PeerLat(pi.peer1, if pi.recv1 > pi.sent then (pi.recv1 - pi.sent) / 1000 else 0)];
    }
    if pi.peer2 != -1 && pi.recv2 != 0 {
      peers := peers + [PeerLat(pi.peer2, if pi.recv2 > pi.sent then (pi.recv2 - pi.sent) / 1000 else 0)];
    }
  }

  /** The whole microseconds from one stamp to another when both are set and in order; 0 otherwise. */
  predicate Micros(l: nat, start: U64, end: U64) {
    if start != 0 && end != 0 && start <= end then l * 1000 <= end - start < (l + 1) * 1000 else l == 0
  }

  /** The whole microseconds of a difference in unsigned 64-bit arithmetic. */
  predicate Wrapped(l: nat, nanos: int) {
    l * 1000 <= nanos % 0x1_0000_0000_0000_0000 < (l + 1) * 1000
  }

  /** What the latencies up to the dequeue, and the whole, measure.  Messenger stamps are wall-clock
      times; bootstamp, the wall-clock time of boot, relates them to the others. */
  ghost predicate ExplainsMessenger(l: Latencies, v: OpRecord, bootstamp: U64) {
    var at, m, received := v.at, v.msgr, Min(v.msgr.recv, v.msgr.throttle);
    && Wrapped(l.throttle, m.throttle - received)
    && Wrapped(l.recv, m.recvComplete - received)
    && Wrapped(l.dispatch, at.enqueue - (m.recvComplete - bootstamp))
    && Wrapped(l.queue, at.dequeue - at.enqueue)
    && Wrapped(l.op, v.reply - (received - bootstamp))
  }

  /** What each latency measures. */
  ghost predicate Explains(l: Latencies, v: OpRecord, bootstamp: U64) {
    var at := v.at;
    var write, read := v.opType == 112 || at.submitTxn != 0 || v.wb > 0, v.rb % 0x1_0000_0000 > 0;
    && ExplainsMessenger(l, v, bootstamp)
    && (write ==> Micros(l.osd, at.dequeue, at.queueTxn) && Micros(l.bluestore, at.queueTxn, at.kvCommitted))
    && (!write && read ==> Micros(l.osd, at.dequeue, at.executeCtx) && Micros(l.bluestore, at.executeCtx, v.reply))
    && (!write && !read ==> l.osd == 0 && l.bluestore == 0)
    && Micros(l.prepare, at.queueTxn, at.aioSubmit)
    && Micros(l.aioWait, at.aioSubmit, at.aioDone)
    && Micros(l.pgSeq, at.aioDone, at.kvSubmit)
    && Micros(l.kvCommit, at.kvSubmit, at.kvCommitted)
    && (if v.opType == 42 then PeersExplained(l.peers, v.pi) else l.peers == [])
  }

  lemma WrappedDiff(end: U64, start: U64)
    ensures Wrapped(DiffUs(end, start), end - start)
  {
  }

  lemma WrappedTwice(end: U64, stamp: U64, bootstamp: U64)
    ensures Wrapped(DiffUs(end, Sub64(stamp, bootstamp)), end - (stamp - bootstamp))
  {
  }

  lemma PeersAreExplained(pi: Peers)
    ensures PeersExplained(PeerEntry(pi.peer1, pi.recv1, pi.sent) + PeerEntry(pi.peer2, pi.recv2, pi.sent), pi)
  {
  }

  lemma MessengerExplained(v: OpRecord, bootstamp: U64)
    ensures ExplainsMessenger(LatenciesOf(v, bootstamp), v, bootstamp)
  {
    var received := RecvStamp(v.msgr);
    WrappedDiff(v.msgr.throttle, received);
    WrappedDiff(v.msgr.recvComplete, received);
    WrappedTwice(v.at.enqueue, v.msgr.recvComplete, bootstamp);
    WrappedDiff(v.at.dequeue, v.at.enqueue);
    WrappedTwice(v.reply, received, bootstamp);
  }

  lemma MicrosOfSafe(end: U64, start: U64)
    ensures Micros(SafeLatUs(end, start), start, end)
  {
  }

  lemma LatenciesExplained(v: OpRecord, bootstamp: U64)
    ensures Explains(LatenciesOf(v, bootstamp), v, bootstamp)
  {
    MessengerExplained(v, bootstamp);
    MicrosOfSafe(v.at.queueTxn, v.at.dequeue);
    MicrosOfSafe(v.at.kvCommitted, v.at.queueTxn);
    MicrosOfSafe(v.at.executeCtx, v.at.dequeue);
    MicrosOfSafe(v.reply, v.at.executeCtx);
    MicrosOfSafe(v.at.aioSubmit, v.at.queueTxn);
    MicrosOfSafe(v.at.aioDone, v.at.aioSubmit);
    MicrosOfSafe(v.at.kvSubmit, v.at.aioDone);
    MicrosOfSafe(v.at.kvCommitted, v.at.kvSubmit);
    PeersAreExplained(v.pi);
  }

  /** generate_op */
  method GenerateOp(v: OpRecord, bootstamp: U64) returns (op: OsdOp)
    ensures op.lat == LatenciesOf(v, bootstamp) && Explains(op.lat, v, bootstamp)
    ensures op.isWrite == (v.opType == 112 || v.at.submitTxn != 0 || v.wb > 0)
    ensures op.detailOps == v.detail.codes[..Min(v.detail.captured, 8)]
    ensures forall i | 0 <= i < 8 :: op.clsOps[i] == if i < v.detail.captured then v.detail.calls[i] else NO_CALL
    ensures op.detailTotal == v.detail.total && op.detailUnavailable == v.detail.unavailable
    ensures op.objectName == UpToNul(v.objectName)
    ensures |op.delays| == |v.delays| && forall i | 0 <= i < |v.delays| :: op.delays[i] == UpToNul(v.delays[i])
    ensures op.opType == v.opType && op.clientId == v.owner && op.reqId == v.tid
    ensures op.wb == v.wb % 0x1_0000_0000 && op.rb == v.rb % 0x1_0000_0000 && op.pool == v.pool && op.seed == v.seed
    ensures op.aioSize == v.aioSize
  {
    LatenciesExplained(v, bootstamp);
    var isWrite := v.opType == MSG_OSD_REPOP || v.at.submitTxn != 0 || v.wb > 0;
    var rb := Low32(v.rb);

    var detailOps, clsOps := CopyDetailOps(v.detail);

    var recvStamp := v.msgr.recv;
    if v.msgr.throttle < v.msgr.recv { recvStamp := v.msgr.throttle; }
    var throttle := Sub64(v.msgr.throttle, recvStamp) / 1000;
    var recv := Sub64(v.msgr.recvComplete, recvStamp) / 1000;
    var dispatch := Sub64(v.at.enqueue, Sub64(v.msgr.recvComplete, bootstamp)) / 1000;
    var queue := Sub64(v.at.dequeue, v.at.enqueue) / 1000;
    var osd := 0;
    if isWrite {
      osd := SafeLatUs(v.at.queueTxn, v.at.dequeue);
    } else if rb > 0 {
      osd := SafeLatUs(v.at.executeCtx, v.at.dequeue);
    }

    var delays := CopyDelays(v.delays);

    var peers := [];
    if v.opType == MSG_OSD_OP { peers := PeerLatencies(v.pi); }

    var bluestore := 0;
    if isWrite {
      bluestore := SafeLatUs(v.at.kvCommitted, v.at.queueTxn);
    } else if rb > 0 {
      bluestore := SafeLatUs(v.reply, v.at.executeCtx);
    }
    var lat := Latencies(throttle, recv, dispatch, queue, osd, peers,
                         SafeLatUs(v.at.aioSubmit, v.at.queueTxn), SafeLatUs(v.at.aioDone, v.at.aioSubmit),
                         SafeLatUs(v.at.kvSubmit, v.at.aioDone), SafeLatUs(v.at.kvCommitted, v.at.kvSubmit),
                         bluestore, Sub64(v.reply, Sub64(recvStamp, bootstamp)) / 1000);
    op := OsdOp(v.opType, Low32(v.wb), rb, isWrite, v.owner, v.tid, v.pool, v.seed, lat, delays, v.aioSize,
                UpToNul(v.objectName), detailOps, clsOps, v.detail.total, v.detail.unavailable);
  }

  // ================= no part exceeds the whole =================

  const LIMIT: U64 := 0x7fff_ffff_ffff_fc17

  /** Clock readings below 292 years, and a receive stamp, the one op_lat is measured from, taken
      after boot and before the reply. */
  ghost predicate Plausible(v: OpRecord, bootstamp: U64) {
    && v.reply < LIMIT && v.msgr.recv < LIMIT && v.msgr.throttle < LIMIT && v.msgr.recvComplete < LIMIT
    && bootstamp <= RecvStamp(v.msgr)
    && RecvStamp(v.msgr) - bootstamp <= v.reply
  }

  /** The message was complete no earlier than it started and no later than it was enqueued. */
  ghost predicate MessengerOrdered(v: OpRecord, bootstamp: U64) {
    RecvStamp(v.msgr) <= v.msgr.recvComplete && v.msgr.recvComplete - bootstamp <= v.at.enqueue
  }

  /** The throttle was passed no more than op_lat, in whole microseconds, after the receive stamp. */
  ghost predicate ThrottledInTime(v: OpRecord, bootstamp: U64) {
    v.msgr.throttle - RecvStamp(v.msgr) < 1000 * (Total(v, bootstamp) / 1000 + 1)
  }

  ghost predicate PartsWithin(l: Latencies) {
    && l.throttle <= l.op && l.recv <= l.op && l.dispatch <= l.op && l.queue <= l.op && l.osd <= l.op
    && l.bluestore <= l.op && l.prepare <= l.op && l.aioWait <= l.op && l.pgSeq <= l.op && l.kvCommit <= l.op
    && forall i | 0 <= i < |l.peers| :: l.peers[i].latency <= l.op
  }

  /** Nanoseconds from the receive stamp to the reply: what op_lat measures. */
  ghost function Total(v: OpRecord, bootstamp: U64): int {
    v.reply - (RecvStamp(v.msgr) - bootstamp)
  }

  lemma MessengerParts(v: OpRecord, bootstamp: U64)
    requires Emittable(v) && Plausible(v, bootstamp)
    ensures var l := LatenciesOf(v, bootstamp);
            && l.op == Total(v, bootstamp) / 1000
            && (l.throttle <= l.op <==> ThrottledInTime(v, bootstamp))
            && (l.recv <= l.op && l.dispatch <= l.op && l.queue <= l.op
                <==> MessengerOrdered(v, bootstamp) && v.at.dequeue != 0)
  {
    var l := LatenciesOf(v, bootstamp);
    var m, at := v.msgr, v.at;
    assert l.op == Total(v, bootstamp) / 1000;
    if MessengerOrdered(v, bootstamp) {
      assert l.recv == (m.recvComplete - RecvStamp(m)) / 1000;
      assert l.dispatch == (at.enqueue - (m.recvComplete - bootstamp)) / 1000;
    } else if m.recvComplete < RecvStamp(m) {
      assert l.recv == (m.recvComplete - RecvStamp(m) + TWO64) / 1000;
    } else {
      assert l.dispatch == (at.enqueue - (m.recvComplete - bootstamp) + TWO64) / 1000;
    }
  }

  lemma ServerParts(v: OpRecord, bootstamp: U64)
    requires Emittable(v) && Plausible(v, bootstamp) && MessengerOrdered(v, bootstamp)
    ensures var l := LatenciesOf(v, bootstamp);
            && l.osd <= l.op && l.bluestore <= l.op
            && l.prepare <= l.op && l.aioWait <= l.op && l.pgSeq <= l.op && l.kvCommit <= l.op
            && forall i | 0 <= i < |l.peers| :: l.peers[i].latency <= l.op
  {
    var l := LatenciesOf(v, bootstamp);
    assert v.at.enqueue + Total(v, bootstamp) >= v.reply;
    assert l.op == Total(v, bootstamp) / 1000;
    SafeWithin(v, v.at.queueTxn, v.at.dequeue, l.op, bootstamp);
    SafeWithin(v, v.at.executeCtx, v.at.dequeue, l.op, bootstamp);
    SafeWithin(v, v.at.kvCommitted, v.at.queueTxn, l.op, bootstamp);
    SafeWithin(v, v.reply, v.at.executeCtx, l.op, bootstamp);
    SafeWithin(v, v.at.aioSubmit, v.at.queueTxn, l.op, bootstamp);
    SafeWithin(v, v.at.aioDone, v.at.aioSubmit, l.op, bootstamp);
    SafeWithin(v, v.at.kvSubmit, v.at.aioDone, l.op, bootstamp);
    SafeWithin(v, v.at.kvCommitted, v.at.kvSubmit, l.op, bootstamp);
    PeerWithin(v, v.pi.peer1, v.pi.recv1, l.op, bootstamp);
    PeerWithin(v, v.pi.peer2, v.pi.recv2, l.op, bootstamp);
  }

  lemma SafeWithin(v: OpRecord, end: U64, start: U64, op: U64, bootstamp: U64)
    requires 0 < v.at.enqueue && (end == 0 || end <= v.reply) && (start == 0 || v.at.enqueue <= start)
    requires v.at.enqueue + Total(v, bootstamp) >= v.reply && op == Total(v, bootstamp) / 1000
    requires Total(v, bootstamp) >= 0
    ensures SafeLatUs(end, start) <= op
  {
  }

  lemma PeerWithin(v: OpRecord, peer: int, recv: U64, op: U64, bootstamp: U64)
    requires StampsOk(v, v.reply) && Within(v.at.enqueue, recv, v.reply)
    requires peer == v.pi.peer1 || peer == v.pi.peer2
    requires v.at.enqueue + Total(v, bootstamp) >= v.reply && op == Total(v, bootstamp) / 1000
    requires Total(v, bootstamp) >= 0
    ensures forall i | 0 <= i < |PeerEntry(peer, recv, v.pi.sent)| :: PeerEntry(peer, recv, v.pi.sent)[i].latency <= op
  {
  }

  /** For an event whose boot-clock stamps lie between enqueue and reply, every reported latency is
      at most op_lat exactly when the op was dequeued, its message was received in order, and its
      throttle stamp is no later than the reply, to the microsecond. */
  lemma PartsWithinIff(v: OpRecord, bootstamp: U64)
    requires Emittable(v) && Plausible(v, bootstamp)
    ensures PartsWithin(LatenciesOf(v, bootstamp))
            <==> v.at.dequeue != 0 && MessengerOrdered(v, bootstamp) && ThrottledInTime(v, bootstamp)
  {
    MessengerParts(v, bootstamp);
    if MessengerOrdered(v, bootstamp) { ServerParts(v, bootstamp); }
  }

  /** End to end: every event any run of the probes has put in the ring satisfies the bound exactly
      when its op was dequeued, its message was received in order, and it was throttled in time. */
  lemma EndToEnd(opSize: U32, tr: Trace, i: nat, bootstamp: U64)
    requires Timed(tr) && i < |Run(opSize, tr).ring|
    requires Plausible(Run(opSize, tr).ring[i], bootstamp)
    ensures var v := Run(opSize, tr).ring[i];
            PartsWithin(LatenciesOf(v, bootstamp))
            <==> v.at.dequeue != 0 && MessengerOrdered(v, bootstamp) && ThrottledInTime(v, bootstamp)
  {
    StampsAlwaysOk(opSize, tr);
    PartsWithinIff(Run(opSize, tr).ring[i], bootstamp);
  }

  // ================= the failing sides are reachable =================

  const CLIENT: Thread := Thread(1, 2)
  const CLIENT_OP: Ident := Ident(Got(7), Got(9))

  /** A client op from its enqueue to its reply, dequeued in between or not. */
  function ClientRun(m: Messenger, dequeued: bool): Trace {
    [Hit(CLIENT, 10_000, EnqueueOp(Got(MSG_OSD_OP), CLIENT_OP, Got(m.recv), Got(m.throttle), Got(m.recvComplete), Got(m.dispatch)))]
    + (if dequeued then [Hit(CLIENT, 20_000, DequeueOp(Got(MSG_OSD_OP), CLIENT_OP, Missing, Missing))] else [])
    + [Hit(CLIENT, 30_000, LogOpStats(CLIENT_OP, 0, 0, true))]
  }

  /** Such a run emits one event, with whatever messenger stamps the op carried. */
  lemma ClientRunEmits(opSize: U32, m: Messenger, dequeued: bool)
    ensures Timed(ClientRun(m, dequeued)) && |Run(opSize, ClientRun(m, dequeued)).ring| == 1
    ensures var v := Run(opSize, ClientRun(m, dequeued)).ring[0];
            v.msgr == m && v.at.enqueue == 10_000 && v.at.dequeue == (if dequeued then 20_000 else 0) && v.reply == 30_000
  {
    var enqueue, end := ClientRun(m, dequeued)[0], Last(ClientRun(m, dequeued));
    var k := OpKey(1, 7, 9);
    assert Run(opSize, []) == INIT && [] + [enqueue] == [enqueue];
    RunOneMore(opSize, [], enqueue);
    TimedOneMore([], enqueue);
    assert Run(opSize, [enqueue]).ops[k].msgr == m;
    var before := if dequeued then [enqueue] + [ClientRun(m, dequeued)[1]] else [enqueue];
    if dequeued {
      RunOneMore(opSize, [enqueue], ClientRun(m, dequeued)[1]);
      TimedOneMore([enqueue], ClientRun(m, dequeued)[1]);
    }
    assert k in Run(opSize, before).ops && Run(opSize, before).ring == [];
    assert ClientRun(m, dequeued) == before + [end];
    RunOneMore(opSize, before, end);
    TimedOneMore(before, end);
  }

  /** Each of the three conditions can fail alone, and a latency then exceeds op_lat. */
  lemma BoundFails(opSize: U32)
    ensures var v := Run(opSize, ClientRun(Messenger(1_000, 1_000, 5_000, 6_000), false)).ring;
            |v| == 1 && Plausible(v[0], 0) && MessengerOrdered(v[0], 0) && !PartsWithin(LatenciesOf(v[0], 0))
    ensures var v := Run(opSize, ClientRun(Messenger(1_000, 1_000, 50_000, 6_000), true)).ring;
            |v| == 1 && Plausible(v[0], 0) && v[0].at.dequeue != 0 && !PartsWithin(LatenciesOf(v[0], 0))
    ensures var v := Run(opSize, ClientRun(Messenger(1_000, 900_000, 5_000, 6_000), true)).ring;
            |v| == 1 && Plausible(v[0], 0) && v[0].at.dequeue != 0 && MessengerOrdered(v[0], 0)
            && !PartsWithin(LatenciesOf(v[0], 0))
  {
    LateFails(opSize, Messenger(1_000, 1_000, 5_000, 6_000), false);
    LateFails(opSize, Messenger(1_000, 1_000, 50_000, 6_000), true);
    LateFails(opSize, Messenger(1_000, 900_000, 5_000, 6_000), true);
  }

  lemma LateFails(opSize: U32, m: Messenger, dequeued: bool)
    requires m.recv == 1_000 && m.recv <= m.throttle < LIMIT && m.recvComplete < LIMIT
    ensures |Run(opSize, ClientRun(m, dequeued)).ring| == 1
    ensures var v := Run(opSize, ClientRun(m, dequeued)).ring[0];
            && Plausible(v, 0) && v.msgr == m && v.at.enqueue == 10_000 && (v.at.dequeue != 0 <==> dequeued)
            && (PartsWithin(LatenciesOf(v, 0)) <==>
                  dequeued && m.recv <= m.recvComplete <= 10_000 && m.throttle - m.recv < 30_000)
  {
    ClientRunEmits(opSize, m, dequeued);
    EndToEnd(opSize, ClientRun(m, dequeued), 0, 0);
  }

  // ================= the parts add up to the whole =================

  /** A write whose stages happened in order. */
  ghost predicate StagesInOrder(v: OpRecord) {
    IsWrite(v) && 0 < v.at.dequeue <= v.at.queueTxn <= v.at.kvCommitted
  }

  /** The five stages of a write account for op_lat up to the time from commit to reply and the
      rounding of six quotients. */
  lemma StagesTelescope(v: OpRecord, bootstamp: U64)
    requires Emittable(v) && Plausible(v, bootstamp) && MessengerOrdered(v, bootstamp) && StagesInOrder(v)
    ensures var l := LatenciesOf(v, bootstamp);
            var sum := l.recv + l.dispatch + l.queue + l.osd + l.bluestore;
            sum <= l.op <= sum + (v.reply - v.at.kvCommitted) / 1000 + 5
  {
    var l, at, m := LatenciesOf(v, bootstamp), v.at, v.msgr;
    assert l.recv == (m.recvComplete - RecvStamp(m)) / 1000;
    assert l.dispatch == (at.enqueue - (m.recvComplete - bootstamp)) / 1000;
    assert l.queue == (at.dequeue - at.enqueue) / 1000;
    assert l.osd == (at.queueTxn - at.dequeue) / 1000;
    assert l.bluestore == (at.kvCommitted - at.queueTxn) / 1000;
    assert l.op == Total(v, bootstamp) / 1000;
  }

  /** The four BlueStore parts account for bluestore_lat up to rounding. */
  lemma BlueStoreTelescopes(v: OpRecord, bootstamp: U64)
    requires IsWrite(v)
    requires 0 < v.at.queueTxn <= v.at.aioSubmit <= v.at.aioDone <= v.at.kvSubmit <= v.at.kvCommitted
    ensures var l := LatenciesOf(v, bootstamp);
            var sum := l.prepare + l.aioWait + l.pgSeq + l.kvCommit;
            sum <= l.bluestore <= sum + 3
  {
  }
}
