/** From an event in the ring buffer to the row printed for it and what the analyser reads there. */
module PrintedEvents {
  import opened Words
  import opened OsdTypes
  import opened OsdSpec
  import opened OsdRuns
  import opened OsdFields
  import opened OsdLatency
  import OpRows
  import DetailText
  import ObjectNames
  import Utf8

  type Row = OpRows.OpRow

  /** A 64-bit number as %lld shows it. */
  function Int64(x: U64): int {
    if x < 0x8000_0000_0000_0000 then x else x - 0x1_0000_0000_0000_0000
  }

  predicate PeersKnown(peers: seq<PeerLat>) {
    forall i | 0 <= i < |peers| :: peers[i].peer >= 0
  }

  function PeerNumbers(peers: seq<PeerLat>): OpRows.Peers
    requires PeersKnown(peers)
  {
    seq(|peers|, i requires 0 <= i < |peers| => (peers[i].peer, peers[i].latency))
  }

  datatype Printed = Nothing | Unsupported | Line(row: Row)

  /** A row of this kind shows the event, with these latencies: reads show the bytes read, the others
      the bytes written. */
  ghost predicate Shows(row: Row, v: OpRecord, l: Latencies, kind: OpRows.Kind, osd: int, names: DetailText.Names) {
    && row.kind == kind && row.osd == osd && row.pool == Int64(v.pool) && row.seed == v.seed
    && row.size == Int32((if kind.ReadOp? then v.rb else v.wb) % 0x1_0000_0000)
    && row.client == Int64(v.owner) && row.tid == Int64(v.tid)
    && row.name == Utf8.AsText(ObjectNames.Encode(UpToNul(v.objectName)))
    && row.ops == DetailText.Joined(DetailText.Listing(v.detail.codes[..Min(v.detail.captured, 8)], TakenCalls(v.detail),
                                                       kind.SubopWrite?, v.detail.total, v.detail.unavailable), names)
    && row.throttle == l.throttle && row.recv == l.recv && row.dispatch == l.dispatch && row.queue == l.queue
    && row.osdLat == l.osd && row.bluestore == l.bluestore && row.lat == l.op
    && PeersKnown(l.peers) && row.peers == PeerNumbers(l.peers)
  }

  /** What print_op_r, print_op_w and print_subop_w put in a row. */
  method PrintOp(kind: OpRows.Kind, op: OsdOp, osd: int, names: DetailText.Names) returns (row: Row)
    requires PeersKnown(op.lat.peers) && |op.detailOps| <= 8
    ensures row.kind == kind && row.osd == osd && row.pool == Int64(op.pool) && row.seed == op.seed
    ensures row.size == Int32(if kind.ReadOp? then op.rb else op.wb)
    ensures row.client == Int64(op.clientId) && row.tid == Int64(op.reqId)
    ensures row.name == Utf8.AsText(ObjectNames.Encode(op.objectName))
    ensures row.ops == DetailText.Joined(DetailText.Listing(op.detailOps, op.clsOps, kind.SubopWrite?, op.detailTotal,
                                                            op.detailUnavailable), names)
    ensures row.throttle == op.lat.throttle && row.recv == op.lat.recv && row.dispatch == op.lat.dispatch
    ensures row.queue == op.lat.queue && row.osdLat == op.lat.osd && row.bluestore == op.lat.bluestore && row.lat == op.lat.op
    ensures row.peers == PeerNumbers(op.lat.peers)
  {
    var name := ObjectNames.FormatObjectName(op.objectName);
    var list := DetailText.FormatDetailOps(op.detailOps, op.clsOps, kind.SubopWrite?, op.detailTotal, op.detailUnavailable, names);
    var size := if kind.ReadOp? then op.rb else op.wb;
    row := OpRows.OpRow(kind, osd, Int64(op.pool), op.seed, Int32(size), Int64(op.clientId), Int64(op.reqId), Utf8.AsText(name),
                        list[1..|list| - 1], op.lat.throttle, op.lat.recv, op.lat.dispatch, op.lat.queue, op.lat.osd,
                        PeerNumbers(op.lat.peers), op.lat.bluestore, op.lat.op);
  }

  /** handle_full: nothing for an op faster than the threshold, in milliseconds; else a row by the
      type of the message and whether it is a write. */
  method HandleFull(v: OpRecord, bootstamp: U64, osd: int, threshold: U64, names: DetailText.Names, txnNames: DetailText.Names)
    returns (p: Printed)
    requires v.pi.peer1 >= -1 && v.pi.peer2 >= -1
    ensures p.Nothing? <==> LatenciesOf(v, bootstamp).op < 1000 * threshold
    ensures p.Unsupported? ==> v.opType != 42 && v.opType != 112
    ensures p.Line? && v.opType == 112 ==> Shows(p.row, v, LatenciesOf(v, bootstamp), OpRows.SubopWrite, osd, txnNames)
    ensures p.Line? && v.opType != 112 ==>
              && v.opType == 42
              && Shows(p.row, v, LatenciesOf(v, bootstamp),
                       if v.at.submitTxn != 0 || v.wb > 0 then OpRows.WriteOp else OpRows.ReadOp, osd, names)
  {
    var op := GenerateOp(v, bootstamp);
    if op.lat.op / 1000 < threshold { return Nothing; }
    assert op.clsOps == TakenCalls(v.detail);
    if op.opType == 112 {
      var row := PrintOp(OpRows.SubopWrite, op, osd, txnNames);
      p := Line(row);
    } else if op.opType == 42 {
      if op.isWrite {
        var row := PrintOp(OpRows.WriteOp, op, osd, names);
        p := Line(row);
      } else {
        var row := PrintOp(OpRows.ReadOp, op, osd, names);
        p := Line(row);
      }
    } else {
      p := Unsupported;
    }
  }

  /** No number in the row is negative exactly if the OSD's id is known, the ids of client and op are
      below 2^63, and fewer than 2^31 bytes are shown. */
  lemma NonNegativeIff(row: Row, v: OpRecord, l: Latencies, kind: OpRows.Kind, osd: int, names: DetailText.Names)
    requires Shows(row, v, l, kind, osd, names)
    ensures OpRows.NonNegative(row)
            <==> osd >= 0 && v.owner < 0x8000_0000_0000_0000 && v.tid < 0x8000_0000_0000_0000
                 && (if kind.ReadOp? then v.rb else v.wb) % 0x1_0000_0000 < 0x8000_0000
  {
  }

  // ================= from the events of a run to the analyser =================

  /** The events of the op behind entry i of the ring, its completion the last. */
  function EventsOf(opSize: U32, tr: Trace, i: nat): Events {
    if i >= |Endings(opSize, tr, true)| then []
    else
      var at := Endings(opSize, tr, true)[i];
      if at.0 < |tr| && tr[at.0].Hit? then Life(opSize, tr[..at.0], at.1).GetOr([]) + [SeenAt(tr, at.0)] else []
  }

  /** What the analyser reads is how many whole microseconds lay between the events of the op: a write's
      OSD and BlueStore latency by dequeue, queued transaction and commit, a read's by dequeue,
      execution and reply; the wait in the queue by enqueue and dequeue... */
  ghost predicate Measures(e: OpRows.Entry, es: Events, write: bool) {
    && es != [] && Wrapped(e.queue, Earliest(es, IsDequeue) - es[0].now)
    && (write ==>
          && Micros(e.osdLat, Earliest(es, IsDequeue), FirstQueued(es))
          && Micros(e.bluestore, FirstQueued(es), Latest(es, Entering(4))))
    && (!write && e.size > 0 ==>
          && Micros(e.osdLat, Earliest(es, IsDequeue), Latest(es, IsExecute))
          && Micros(e.bluestore, Latest(es, IsExecute), es[|es| - 1].now))
  }

  /** ...and, with the messenger stamps read at the enqueue, the way there and the whole. */
  ghost predicate MeasuresMessage(e: OpRows.Entry, es: Events, bootstamp: U64) {
    && es != [] && es[0].probe.EnqueueOp? && MessengerRead(es[0].probe)
    && var p := es[0].probe;
       var received := Min(p.recv.value, p.throttle.value);
       && Wrapped(e.throttle, p.throttle.value - received) && Wrapped(e.recv, p.recvComplete.value - received)
       && Wrapped(e.dispatch, es[0].now - (p.recvComplete.value - bootstamp))
       && Wrapped(e.lat, es[|es| - 1].now - (received - bootstamp))
  }

  lemma ShownIsExplained(row: Row, v: OpRecord, bootstamp: U64, kind: OpRows.Kind, osd: int, names: DetailText.Names, e: OpRows.Entry,
                         k: OpKey, es: Events)
    requires Shows(row, v, LatenciesOf(v, bootstamp), kind, osd, names) && OpRows.Describes(e, row)
    requires kind == if v.opType == 112 then OpRows.SubopWrite
                     else if v.at.submitTxn != 0 || v.wb > 0 then OpRows.WriteOp else OpRows.ReadOp
    requires Told(v, k, es) && Completes(es[|es| - 1])
    ensures Measures(e, es, !kind.ReadOp?) && MeasuresMessage(e, es, bootstamp)
  {
    LatenciesExplained(v, bootstamp);
    LatestIs(es, Completes, |es| - 1);
  }

  /** End to end: for every event any run puts in the ring, the row printed for it, if no number in it is
      negative and its name and op list can be parsed, gives the analyser the times between the
      events of that op. */
  lemma FromEventsToAnalyser(opSize: U32, tr: Trace, i: nat, bootstamp: U64, row: Row, kind: OpRows.Kind, osd: int,
                             names: DetailText.Names)
    requires i < |Run(opSize, tr).ring|
    requires var v := Run(opSize, tr).ring[i];
             && Shows(row, v, LatenciesOf(v, bootstamp), kind, osd, names)
             && kind == if v.opType == 112 then OpRows.SubopWrite
                        else if v.at.submitTxn != 0 || v.wb > 0 then OpRows.WriteOp else OpRows.ReadOp
    requires OpRows.Printable(row) && OpRows.NonNegative(row)
    ensures OpRows.ParseLine(OpRows.RowText(row)).Some?
    ensures Measures(OpRows.ParseLine(OpRows.RowText(row)).value, EventsOf(opSize, tr, i), !kind.ReadOp?)
    ensures MeasuresMessage(OpRows.ParseLine(OpRows.RowText(row)).value, EventsOf(opSize, tr, i), bootstamp)
  {
    var v := Run(opSize, tr).ring[i];
    RingTold(opSize, tr);
    var at := Endings(opSize, tr, true)[i];
    assert EmittedAt(opSize, tr, at, v);
    OpRows.ParsePrinted(row);
    ShownIsExplained(row, v, bootstamp, kind, osd, names, OpRows.ParseLine(OpRows.RowText(row)).value, at.1, EventsOf(opSize, tr, i));
  }
}
