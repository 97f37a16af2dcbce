/** radostrace: one hash map of client ops in flight, the ring buffer of finished ones, and the rows
    printed by the time it has stopped. */
module RadosTracer {
  import opened Words
  import opened ClassCalls

  const MAX_OPS: nat := 8192
  const MAX_ACTING: nat := 16
  const MAX_CLIENT_OPS: nat := 3

  /** struct client_op_k */
  datatype Key = Key(cid: U64, tid: U64)

  /** One element of the ops vector of a request. */
  datatype SubOp = SubOp(code: U16, offset: U64, length: U64, call: CallRead)

  /** What _send_op's Op holds. */
  datatype Request = Request(target: U32, flags: U16, pool: U64, seed: U32, nameLen: int, name: seq<U8>,
                             acting: seq<int>, opsStart: U64, opsSize: U32, ops: seq<SubOp>)

  /** The op list of struct client_op_v. */
  datatype OpList = OpList(codes: seq<U16>, calls: seq<ClsOp>, size: U32, offset: U64, length: U64)

  /** struct client_op_v */
  datatype ClientOp = ClientOp(key: Key, pid: U32, sent: U64, finish: U64, target: U32, rw: U16, pool: U64, seed: U32,
                               name: seq<U8>, acting: seq<int>, list: OpList)

  const NO_LIST: OpList := OpList(seq(MAX_CLIENT_OPS, _ => 0), seq(MAX_CLIENT_OPS, _ => NO_CALL), 0, 0, 0)

  function ZeroOp(): ClientOp {
    ClientOp(Key(0, 0), 0, 0, 0, 0, 0, 0, 0, [], seq(MAX_ACTING, _ => 0), NO_LIST)
  }

  /** Op codes that carry an extent (ceph_osd_op_extent); which codes those are is left to the
      protocol. */
  type ExtentCodes = set<U16>

  // ================= what a send records =================

  /** The acting set in its sixteen slots: the vector, then one -1 when there is room. */
  function ActingSlots(acting: seq<int>): (slots: seq<int>)
    ensures |slots| == MAX_ACTING
  {
    seq(MAX_ACTING, i requires 0 <= i => if i < |acting| then acting[i] else if i == |acting| then -1 else 0)
  }

  /** The loop over the acting vector. */
  method CaptureActing(acting: seq<int>) returns (slots: seq<int>)
    ensures slots == ActingSlots(acting)
  {
    slots := ZeroOp().acting;
    var i := 0;
    while i < MAX_ACTING
      invariant 0 <= i <= MAX_ACTING && i <= |acting| && |slots| == MAX_ACTING
      invariant forall j | 0 <= j < MAX_ACTING :: slots[j] == if j < i then acting[j] else 0
    {
      slots := slots[i := -1];
      if i >= |acting| { break; }
      slots := slots[i := acting[i]];
      i := i + 1;
    }
  }

  /** The acting set a row shows. */
  method PrintedActing(slots: seq<int>) returns (shown: seq<int>)
    requires |slots| == MAX_ACTING
    ensures shown <= slots && (forall o <- shown :: o >= 0) && (|shown| < MAX_ACTING ==> slots[|shown|] < 0)
  {
    shown := [];
    var i := 0;
    while i < MAX_ACTING
      invariant 0 <= i <= MAX_ACTING && shown == slots[..i] && forall o <- shown :: o >= 0
    {
      if slots[i] < 0 { break; }
      shown := shown + [slots[i]];
      i := i + 1;
    }
  }

  /** A row shows the acting set, cut to sixteen. */
  lemma ActingIsShown(acting: seq<int>, shown: seq<int>)
    requires forall i | 0 <= i < |acting| :: acting[i] >= 0
    requires shown <= ActingSlots(acting) && (forall o <- shown :: o >= 0)
    requires |shown| < MAX_ACTING ==> ActingSlots(acting)[|shown|] < 0
    ensures shown == acting[..Min(MAX_ACTING, |acting|)]
  {
    var slots := ActingSlots(acting);
    var n := Min(MAX_ACTING, |acting|);
    assert forall i | 0 <= i < |shown| :: shown[i] == slots[i] && shown[i] in shown;
    assert n < MAX_ACTING ==> slots[n] == -1;
  }

  /** The last extent among ops. */
  function LastExtent(ops: seq<SubOp>, extents: ExtentCodes): (U64, U64) {
    if ops == [] then (0, 0)
    else
      var last := ops[|ops| - 1];
      if last.code in extents then (last.offset, last.length) else LastExtent(ops[..|ops| - 1], extents)
  }

  const NO_SUBOP: SubOp := SubOp(0, 0, 0, NO_READ)

  /** The names of a call; an op with an extent has none. */
  function CallOf(op: SubOp, extents: ExtentCodes): ClsOp {
    if op.code !in extents && op.code == CALL then RadosNames(op.call) else NO_CALL
  }

  /** The first three op codes with the names of calls among them, the true number of ops, and the
      last extent among those captured. */
  function OpListOf(q: Request, extents: ExtentCodes): OpList {
    var size := if q.opsStart == 0 then 0 else q.opsSize;
    var seen := PeekAll(q.ops, Min(MAX_CLIENT_OPS, size), NO_SUBOP);
    OpList(seq(MAX_CLIENT_OPS, i requires 0 <= i => if i < |seen| then seen[i].code else 0),
           seq(MAX_CLIENT_OPS, i requires 0 <= i => if i < |seen| then CallOf(seen[i], extents) else NO_CALL), size,
           LastExtent(seen, extents).0, LastExtent(seen, extents).1)
  }

  /** The loop over the ops vector. */
  method CaptureOps(q: Request, extents: ExtentCodes) returns (list: OpList)
    ensures list == OpListOf(q, extents)
  {
    var size := q.opsSize;
    if q.opsStart == 0 { size := 0; }
    var codes, calls, offset, length := NO_LIST.codes, NO_LIST.calls, 0, 0;
    ghost var seen := PeekAll(q.ops, Min(MAX_CLIENT_OPS, size), NO_SUBOP);
    var i := 0;
    while i < MAX_CLIENT_OPS
      invariant 0 <= i <= MAX_CLIENT_OPS && i <= size && |codes| == |calls| == MAX_CLIENT_OPS
      invariant forall j | 0 <= j < MAX_CLIENT_OPS :: codes[j] == if j < i then seen[j].code else 0
      invariant forall j | 0 <= j < MAX_CLIENT_OPS :: calls[j] == if j < i then CallOf(seen[j], extents) else NO_CALL
      invariant (offset, length) == LastExtent(seen[..i], extents)
    {
      if i >= size { break; }
      var sub := Peek(q.ops, i, NO_SUBOP);
      assert sub == seen[i] && seen[..i + 1][..i] == seen[..i];
      codes := codes[i := sub.code];
      if sub.code in extents {
        offset, length := sub.offset, sub.length;
      } else if sub.code == CALL {
        calls := calls[i := RadosNames(sub.call)];
      }
      i := i + 1;
    }
    assert seen[..i] == seen;
    list := OpList(codes, calls, size, offset, length);
  }

  function Recorded(k: Key, q: Request, now: U64, pid: U32, extents: ExtentCodes): ClientOp {
    ClientOp(k, pid, now, 0, q.target, q.flags, q.pool, q.seed, PeekAll(q.name, q.nameLen % 128, 0),
             ActingSlots(q.acting), OpListOf(q, extents))
  }

  /** Slot i of an array that holds the captured ones of a vector, and what is behind them. */
  function Slot<T>(memory: seq<T>, i: nat, n: nat, zero: T): T {
    if i < n && i < |memory| then memory[i] else zero
  }

  /** What the record of a send says of it... */
  ghost predicate Describes(op: ClientOp, k: Key, q: Request, now: U64, pid: U32, extents: ExtentCodes) {
    && op.key == k && op.pid == pid && op.sent == now && op.finish == 0
    && op.target == q.target && op.rw == q.flags && op.pool == q.pool && op.seed == q.seed
    && |op.name| == q.nameLen % 128 && (forall i | 0 <= i < |op.name| :: op.name[i] == Slot(q.name, i, 127, 0))
    && |op.acting| == 16
    && (forall i | 0 <= i < 16 :: op.acting[i] == if i == |q.acting| then -1 else Slot(q.acting, i, 16, 0))
    && Lists(op.list, q, extents)
  }

  /** ...and of its ops: how many, and of the first three the codes and the names of calls... */
  ghost predicate Lists(list: OpList, q: Request, extents: ExtentCodes) {
    && list.size == (if q.opsStart == 0 then 0 else q.opsSize)
    && |list.codes| == 3 && |list.calls| == 3
    && (forall i | 0 <= i < 3 :: list.codes[i] == Slot(q.ops, i, Min(list.size, 3), NO_SUBOP).code)
    && (forall i | 0 <= i < 3 :: list.calls[i] == NamesOf(Slot(q.ops, i, Min(list.size, 3), NO_SUBOP), extents))
    && HasExtent(list, PeekAll(q.ops, Min(list.size, 3), NO_SUBOP), extents)
  }

  function NamesOf(sub: SubOp, extents: ExtentCodes): ClsOp {
    if sub.code !in extents && sub.code == 0x1401 then RadosNames(sub.call) else NO_CALL
  }

  /** ...and the extent, that of the last one that has any. */
  ghost predicate HasExtent(list: OpList, seen: seq<SubOp>, extents: ExtentCodes) {
    && (forall i | 0 <= i < |seen| && seen[i].code in extents && (forall j | i < j < |seen| :: seen[j].code !in extents) ::
          list.offset == seen[i].offset && list.length == seen[i].length)
    && ((forall i | 0 <= i < |seen| :: seen[i].code !in extents) ==> list.offset == 0 && list.length == 0)
  }

  lemma {:induction false} LastExtentIs(ops: seq<SubOp>, extents: ExtentCodes, i: nat)
    requires i < |ops| && forall j | i < j < |ops| :: ops[j].code !in extents
    ensures ops[i].code in extents ==> LastExtent(ops, extents) == (ops[i].offset, ops[i].length)
    ensures i == 0 && ops[i].code !in extents ==> LastExtent(ops, extents) == (0, 0)
  {
    if i < |ops| - 1 { LastExtentIs(ops[..|ops| - 1], extents, i); }
  }

  lemma ExtentIs(list: OpList, seen: seq<SubOp>, extents: ExtentCodes)
    requires list.offset == LastExtent(seen, extents).0 && list.length == LastExtent(seen, extents).1
    ensures HasExtent(list, seen, extents)
  {
    forall i | 0 <= i < |seen| && seen[i].code in extents && forall j | i < j < |seen| :: seen[j].code !in extents
      ensures list.offset == seen[i].offset && list.length == seen[i].length
    {
      LastExtentIs(seen, extents, i);
    }
    if seen != [] && forall i | 0 <= i < |seen| :: seen[i].code !in extents { LastExtentIs(seen, extents, 0); }
  }

  lemma SameNames(sub: SubOp, extents: ExtentCodes)
    ensures CallOf(sub, extents) == NamesOf(sub, extents) && NamesOf(NO_SUBOP, extents) == NO_CALL
  {
  }

  lemma ListIs(q: Request, extents: ExtentCodes)
    ensures Lists(OpListOf(q, extents), q, extents)
  {
    var list := OpListOf(q, extents);
    var seen := PeekAll(q.ops, Min(MAX_CLIENT_OPS, list.size), NO_SUBOP);
    ExtentIs(list, seen, extents);
    forall i | 0 <= i < 3
      ensures list.codes[i] == Slot(q.ops, i, Min(list.size, 3), NO_SUBOP).code
      ensures list.calls[i] == NamesOf(Slot(q.ops, i, Min(list.size, 3), NO_SUBOP), extents)
    {
      var sub := Slot(q.ops, i, Min(list.size, 3), NO_SUBOP);
      SameNames(sub, extents);
      assert i < |seen| ==> seen[i] == sub;
      assert i >= |seen| ==> sub == NO_SUBOP;
    }
  }

  lemma RecordedIs(k: Key, q: Request, now: U64, pid: U32, extents: ExtentCodes)
    ensures Describes(Recorded(k, q, now, pid, extents), k, q, now, pid, extents)
  {
    ListIs(q, extents);
  }

  // ================= the probes =================

  datatype Event =
    | Send(op: U64, key: Key, req: Request, now: U64, pid: U32)
    | SendCut(op: U64, key: Key)           // a send caught by the stop between its insertion and its stamp
    | Finish(op: U64, key: Key, now: U64, ringFree: bool)

  datatype State = State(ops: map<Key, ClientOp>, ring: seq<ClientOp>)

  /** A plain hash map: a full one refuses new keys. */
  predicate Admits(s: State, k: Key) {
    k in s.ops || |s.ops| < MAX_OPS
  }

  function Step(extents: ExtentCodes, s: State, e: Event): State {
    if e.op == 0 then s
    else
      match e
      case Send(_, k, q, now, pid) =>
        if Admits(s, k) then s.(ops := s.ops[k := Recorded(k, q, now, pid, extents)]) else s
      case SendCut(_, k) => if Admits(s, k) then s.(ops := s.ops[k := ZeroOp()]) else s
      case Finish(_, k, now, ringFree) =>
        if k !in s.ops then s
        else State(s.ops - {k}, if ringFree then s.ring + [s.ops[k].(finish := now)] else s.ring)
  }

  class Tracer {
    const extents: ExtentCodes
    var ops: map<Key, ClientOp>       // ops
    var ring: seq<ClientOp>           // every event ever submitted to rb

    constructor (extents: ExtentCodes)
      ensures this.extents == extents && Snapshot() == State(map[], [])
    {
      this.extents, ops, ring := extents, map[], [];
    }

    ghost function Snapshot(): State
      reads this
    {
      State(ops, ring)
    }

    /** initialize_value */
    method InitializeValue(key: Key)
      modifies this
      ensures ops == if Admits(old(Snapshot()), key) then old(ops)[key := ZeroOp()] else old(ops)
      ensures ring == old(ring)
    {
      if key in ops || |ops| < MAX_OPS {
        ops := ops[key := ZeroOp()];
      }
    }

    method SendOp(op: U64, key: Key, q: Request, now: U64, pid: U32)
      modifies this
      ensures Snapshot() == Step(extents, old(Snapshot()), Event.Send(op, key, q, now, pid))
    {
      if op == 0 { return; }
      InitializeValue(key);
      if key !in ops { return; }
      var val := ops[key];
      val := val.(key := key, target := q.target, rw := q.flags, pool := q.pool, seed := q.seed);
      val := val.(name := PeekAll(q.name, q.nameLen % 128, 0));
      var acting := CaptureActing(q.acting);
      var list := CaptureOps(q, extents);
      val := val.(acting := acting, list := list);
      val := val.(sent := now, pid := pid);
      ops := ops[key := val];
    }

    method FinishOp(op: U64, key: Key, now: U64, ringFree: bool)
      modifies this
      ensures Snapshot() == Step(extents, old(Snapshot()), Event.Finish(op, key, now, ringFree))
    {
      if op == 0 { return; }
      if key !in ops { return; }
      ops := ops[key := ops[key].(finish := now)];
      if !ringFree {
        ops := ops - {key};
        return;
      }
      ring := ring + [ops[key]];
      ops := ops - {key};
    }
  }
}
