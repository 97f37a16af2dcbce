/** The captured op lists: the opcodes a client op decodes to, and the ObjectStore opcodes of a
    replica's transactions. */
module OsdDetail {
  import opened Words
  import opened ClassCalls
  import opened OsdTypes
  import opened OsdSpec
  import opened OsdRuns

  const EMPTY: Detail := NO_DETAIL

  /** The opcodes userspace takes from a record. */
  function Shown(d: Detail): seq<U32> {
    d.codes[..Min(d.captured, MAX_DETAIL_OPS)]
  }

  // ================= client ops =================

  /** What execute_ctx captures is the decoded op vector's own prefix exactly when nothing was
      captured before or the vector fills all slots: the captured count is added to, never reset. */
  lemma ClientListIffFirst(opSize: U32, d: Detail, start: U64, finish: U64, codes: seq<U16>,
                           calls: seq<CallRead>)
    requires opSize != 0 && start != 0 && start <= finish && d.captured < TWO32 - MAX_DETAIL_OPS
    ensures var total := OpsBetween(opSize, start, finish);
            var n := Min(MAX_DETAIL_OPS, total);
            var d' := CaptureClientOps(opSize, d, start, finish, codes, calls);
            && d'.total == total
            && (Shown(d') == PeekAll<U32>(codes, n, 0) <==> d.captured == 0 || n == MAX_DETAIL_OPS)
  {
    CaptureFirstIff(d, OpsBetween(opSize, start, finish), codes, calls);
  }

  lemma CaptureFirstIff(d: Detail, total: U32, codes: seq<U16>, calls: seq<CallRead>)
    requires d.captured + Min(MAX_DETAIL_OPS, total) < TWO32
    ensures var n := Min(MAX_DETAIL_OPS, total);
            Shown(CaptureFirst(d, total, codes, calls)) == PeekAll<U32>(codes, n, 0) <==> d.captured == 0 || n == MAX_DETAIL_OPS
  {
    var n := Min(MAX_DETAIL_OPS, total);
    var w := PeekAll<U32>(codes, n, 0);
    var slots := OverlayAt(d.codes, 0, codes, n);
    assert slots[..n] == w;
    PrefixIff(slots, w, d.captured);
  }

  /** Showing c more slots than were written shows what was written only when that is no more. */
  lemma PrefixIff(slots: DetailOps, w: seq<U32>, c: nat)
    requires |w| <= MAX_DETAIL_OPS && slots[..|w|] == w
    ensures slots[..Min(c + |w|, MAX_DETAIL_OPS)] == w <==> c == 0 || |w| == MAX_DETAIL_OPS
  {
    var shown := slots[..Min(c + |w|, MAX_DETAIL_OPS)];
    assert |shown| == Min(c + |w|, MAX_DETAIL_OPS);
  }

  /** A decoded op vector, as an execute_ctx that captures it finds it. */
  datatype Vector = Vector(total: U32, codes: seq<U16>, calls: seq<CallRead>)

  /** The vectors captured in a life, in order. */
  function Vectors(opSize: U32, life: seq<Seen>): seq<Vector> {
    if life == [] then []
    else
      var before, p := Vectors(opSize, life[..|life| - 1]), life[|life| - 1].probe;
      if p.ExecuteCtx? && p.opsStart.Or(0) != 0 && p.opsFinish.Got? && p.opsStart.value <= p.opsFinish.value && opSize != 0
      then before + [Vector((p.opsFinish.value - p.opsStart.value) / opSize % 0x1_0000_0000, p.codes, p.calls)] else before
  }

  function CaptureAll(d: Detail, vs: seq<Vector>): Detail {
    if vs == [] then d
    else
      var last := vs[|vs| - 1];
      CaptureFirst(CaptureAll(d, vs[..|vs| - 1]), last.total, last.codes, last.calls)
  }

  /** How many opcodes the vectors write. */
  function Written(vs: seq<Vector>): nat {
    if vs == [] then 0 else Written(vs[..|vs| - 1]) + Min(MAX_DETAIL_OPS, vs[|vs| - 1].total)
  }

  lemma {:induction false} CapturedIsWritten(vs: seq<Vector>)
    requires Written(vs) < TWO32
    ensures CaptureAll(EMPTY, vs).captured == Written(vs) && !CaptureAll(EMPTY, vs).unavailable
  {
    if vs != [] { CapturedIsWritten(vs[..|vs| - 1]); }
  }

  lemma {:induction false} ClientDetail(opSize: U32, k: OpKey, life: seq<Seen>)
    requires life != [] && life[0].probe.EnqueueOp? && life[0].probe.opType.Or(0) == MSG_OSD_OP
    requires forall i | 0 < i < |life| :: !life[i].probe.EnqueueOp?
    ensures Replay(opSize, k, life).opType == MSG_OSD_OP
    ensures Replay(opSize, k, life).detail == CaptureAll(EMPTY, Vectors(opSize, life))
  {
    if |life| == 1 {
      assert life[..0] == [];
      assert Vectors(opSize, life) == Vectors(opSize, []);
    } else {
      var before := life[..|life| - 1];
      ClientDetail(opSize, k, before);
      VectorsGrow(opSize, life);
    }
  }

  lemma VectorsGrow(opSize: U32, life: seq<Seen>)
    requires life != []
    ensures var before, p := life[..|life| - 1], life[|life| - 1].probe;
            forall d: Detail | d == CaptureAll(EMPTY, Vectors(opSize, before)) ::
              DetailAfter(opSize, MSG_OSD_OP, d, p) == CaptureAll(EMPTY, Vectors(opSize, life))
  {
    var vs := Vectors(opSize, life[..|life| - 1]);
    if |Vectors(opSize, life)| > |vs| { assert Vectors(opSize, life)[..|vs|] == vs; }
  }

  lemma LatestShows(vs: seq<Vector>)
    requires vs != [] && Written(vs) < TWO32
    ensures var d, last := CaptureAll(EMPTY, vs), vs[|vs| - 1];
            var n := Min(MAX_DETAIL_OPS, last.total);
            && d.total == last.total
            && (Shown(d) == PeekAll<U32>(last.codes, n, 0) <==> Written(vs[..|vs| - 1]) == 0 || n == MAX_DETAIL_OPS)
  {
    CapturedIsWritten(vs[..|vs| - 1]);
    CaptureFirstIff(CaptureAll(EMPTY, vs[..|vs| - 1]), vs[|vs| - 1].total, vs[|vs| - 1].codes, vs[|vs| - 1].calls);
  }

  /** A tracked client op for which a vector has been captured. */
  ghost predicate ClientOp(opSize: U32, tr: Trace, k: OpKey) {
    && k in Run(opSize, tr).ops && Life(opSize, tr, k).Some?
    && var life := Life(opSize, tr, k).value;
       && life != [] && life[0].probe.EnqueueOp? && life[0].probe.opType.Or(0) == MSG_OSD_OP
       && Vectors(opSize, life) != []
  }

  /** In every run, the list of a tracked client op is that of the latest op vector captured for it
      if and only if no vector before wrote an opcode or the latest fills all slots. */
  lemma ClientListInRun(opSize: U32, tr: Trace, k: OpKey)
    requires ClientOp(opSize, tr, k) && Written(Vectors(opSize, Life(opSize, tr, k).value)) < TWO32
    ensures var vs, d := Vectors(opSize, Life(opSize, tr, k).value), Run(opSize, tr).ops[k].detail;
            var n := Min(MAX_DETAIL_OPS, vs[|vs| - 1].total);
            && d.total == vs[|vs| - 1].total && !d.unavailable && d.captured == Written(vs)
            && (Shown(d) == PeekAll<U32>(vs[|vs| - 1].codes, n, 0)
                <==> Written(vs[..|vs| - 1]) == 0 || n == MAX_DETAIL_OPS)
  {
    RecordIsReplay(opSize, tr, k);
    ClientDetail(opSize, k, Life(opSize, tr, k).value);
    LatestShows(Vectors(opSize, Life(opSize, tr, k).value));
    CapturedIsWritten(Vectors(opSize, Life(opSize, tr, k).value));
  }

  /** Each slot the latest vector wrote holds its opcode, and for a call the names of that same op. */
  lemma ClientCallsInRun(opSize: U32, tr: Trace, k: OpKey, i: nat)
    requires ClientOp(opSize, tr, k)
    requires var vs := Vectors(opSize, Life(opSize, tr, k).value);
             i < Min(MAX_DETAIL_OPS, vs[|vs| - 1].total)
    ensures var vs, d := Vectors(opSize, Life(opSize, tr, k).value), Run(opSize, tr).ops[k].detail;
            var last := vs[|vs| - 1];
            && d.codes[i] == Peek(last.codes, i, 0)
            && (d.codes[i] == CALL ==> d.calls[i] == OsdNames(Peek(last.calls, i, NO_READ)))
  {
    RecordIsReplay(opSize, tr, k);
    ClientDetail(opSize, k, Life(opSize, tr, k).value);
    var vs := Vectors(opSize, Life(opSize, tr, k).value);
    SlotOf(CaptureAll(EMPTY, vs[..|vs| - 1]), vs[|vs| - 1], i);
  }

  lemma SlotOf(d: Detail, v: Vector, i: nat)
    requires i < Min(MAX_DETAIL_OPS, v.total)
    ensures var d' := CaptureFirst(d, v.total, v.codes, v.calls);
            && d'.codes[i] == Peek(v.codes, i, 0)
            && (d'.codes[i] == CALL ==> d'.calls[i] == OsdNames(Peek(v.calls, i, NO_READ)))
  {
  }

  // ---- slot by slot ----

  /** The opcode in slot i: that of the latest vector so long. */
  function CodeAt(vs: seq<Vector>, i: nat): U32 {
    if vs == [] then 0
    else
      var last := vs[|vs| - 1];
      if i < last.total then Peek(last.codes, i, 0) else CodeAt(vs[..|vs| - 1], i)
  }

  /** The names there: of the latest call. */
  function CallAt(vs: seq<Vector>, i: nat): ClsOp {
    if vs == [] then NO_CALL
    else
      var last := vs[|vs| - 1];
      if i < last.total && Peek(last.codes, i, 0) == 0x1401 then OsdNames(Peek(last.calls, i, NO_READ))
      else CallAt(vs[..|vs| - 1], i)
  }

  ghost predicate ListTold(d: Detail, vs: seq<Vector>) {
    && (forall i | 0 <= i < 8 :: d.codes[i] == CodeAt(vs, i) && d.calls[i] == CallAt(vs, i))
    && d.captured == Written(vs) % 0x1_0000_0000
    && d.total == (if vs == [] then 0 else vs[|vs| - 1].total) && !d.unavailable
  }

  lemma ToldOneMore(d: Detail, vs: seq<Vector>)
    requires vs != [] && ListTold(d, vs[..|vs| - 1])
    ensures var last := vs[|vs| - 1];
            ListTold(CaptureFirst(d, last.total, last.codes, last.calls), vs)
  {
    Low32OfSum(Written(vs[..|vs| - 1]), Min(8, vs[|vs| - 1].total));
  }

  lemma {:induction false} CaptureAllTold(vs: seq<Vector>)
    ensures ListTold(CaptureAll(EMPTY, vs), vs)
  {
    if vs != [] {
      CaptureAllTold(vs[..|vs| - 1]);
      ToldOneMore(CaptureAll(EMPTY, vs[..|vs| - 1]), vs);
    }
  }

  /** In every run, each slot of a client op's list is told by the vectors captured for it. */
  lemma ClientSlotsInRun(opSize: U32, tr: Trace, k: OpKey)
    requires k in Run(opSize, tr).ops && Run(opSize, tr).ops[k].opType == 42
    ensures Life(opSize, tr, k).Some?
    ensures ListTold(Run(opSize, tr).ops[k].detail, Vectors(opSize, Life(opSize, tr, k).value))
  {
    RecordIsReplay(opSize, tr, k);
    TypeIsFirst(opSize, k, Life(opSize, tr, k).value);
    ClientDetail(opSize, k, Life(opSize, tr, k).value);
    CaptureAllTold(Vectors(opSize, Life(opSize, tr, k).value));
  }

  lemma {:induction false} TypeIsFirst(opSize: U32, k: OpKey, life: seq<Seen>)
    requires life != [] && life[0].probe.EnqueueOp?
    ensures Replay(opSize, k, life).opType == life[0].probe.opType.Or(0)
  {
    if |life| > 1 { TypeIsFirst(opSize, k, life[..|life| - 1]); }
  }

  const CLIENT: Thread := Thread(1, 2)
  const CLIENT_OP: Ident := Ident(Got(7), Got(9))
  const CLIENT_KEY: OpKey := OpKey(1, 7, 9)

  function Executed(opSize: U32, now: U64, code: U16): Event {
    Hit(CLIENT, now, ExecuteCtx(CLIENT_OP, Got(1), Got(1 + opSize), [code], [], Missing, Missing, []))
  }

  const ENQUEUED: Event := Hit(CLIENT, 10, EnqueueOp(Got(MSG_OSD_OP), CLIENT_OP, Got(1), Got(1), Got(1), Got(1)))

  lemma EnqueuedEmpty(opSize: U32)
    ensures var s := Run(opSize, [ENQUEUED]);
            CLIENT_KEY in s.ops && s.ops[CLIENT_KEY].detail == EMPTY
  {
    assert Run(opSize, []) == INIT && [] + [ENQUEUED] == [ENQUEUED];
    RunOneMore(opSize, [], ENQUEUED);
  }

  lemma ExecutedOnce(opSize: U32)
    requires opSize != 0
    ensures var s := Run(opSize, [ENQUEUED] + [Executed(opSize, 20, 1)]);
            CLIENT_KEY in s.ops && s.ops[CLIENT_KEY].detail == CaptureFirst(EMPTY, 1, [1], [])
  {
    EnqueuedEmpty(opSize);
    RunOneMore(opSize, [ENQUEUED], Executed(opSize, 20, 1));
    ExecuteCaptures(opSize, Run(opSize, [ENQUEUED]), 20, 1);
  }

  /** An op executed twice shows a stale slot: after one-op vectors with codes 1 and 2 the list is
      not the second vector. */
  lemma SecondExecuteHappens(opSize: U32)
    requires opSize != 0
    ensures var s := Run(opSize, [ENQUEUED] + [Executed(opSize, 20, 1)] + [Executed(opSize, 30, 2)]);
            && CLIENT_KEY in s.ops && s.ops[CLIENT_KEY].detail.total == 1
            && Shown(s.ops[CLIENT_KEY].detail) == [2, 0]
  {
    var once := [ENQUEUED] + [Executed(opSize, 20, 1)];
    ExecutedOnce(opSize);
    RunOneMore(opSize, once, Executed(opSize, 30, 2));
    ExecuteCaptures(opSize, Run(opSize, once), 30, 2);
    TwiceOne();
  }

  lemma ExecuteCaptures(opSize: U32, s: State, now: U64, code: U16)
    requires opSize != 0 && CLIENT_KEY in s.ops
    ensures var s' := Step(opSize, s, Executed(opSize, now, code));
            CLIENT_KEY in s'.ops && s'.ops[CLIENT_KEY].detail == CaptureFirst(s.ops[CLIENT_KEY].detail, 1, [code], [])
  {
    OneOp(opSize);
    assert CaptureClientOps(opSize, s.ops[CLIENT_KEY].detail, 1, 1 + opSize, [code], [])
        == CaptureFirst(s.ops[CLIENT_KEY].detail, 1, [code], []);
  }

  lemma OneOp(opSize: U32)
    requires opSize != 0
    ensures OpsBetween(opSize, 1, 1 + opSize) == 1
  {
    assert (1 + opSize) - 1 == opSize;
    assert opSize / opSize == 1;
  }

  lemma TwiceOne()
    ensures Shown(CaptureFirst(CaptureFirst(EMPTY, 1, [1], []), 1, [2], [])) == [2, 0]
  {
    var d1 := CaptureFirst(EMPTY, 1, [1], []);
    assert d1.codes[1] == 0 && d1.captured == 1;
  }

  // ================= replica transactions =================

  type Txn = p: Probe | p.TxcAddTransaction? witness TxcAddTransaction(Missing, Missing, Missing, 0, 0, [])

  /** A transaction in one buffer whose pointers could all be followed. */
  predicate Followed(p: Txn) {
    p.numBuffers == Got(1) && p.carriage.Or(0) != 0 && p.raw != 0 && p.rawData != 0
  }

  predicate MultiBuffer(p: Txn) {
    p.txnOps.Or(0) != 0 && p.numBuffers.Got? && p.numBuffers.value != 1
  }

  function AddAll(d: Detail, ps: seq<Txn>): Detail {
    if ps == [] then d else AddTransaction(AddAll(d, ps[..|ps| - 1]), ps[|ps| - 1])
  }

  /** The opcodes of a transaction. */
  function OpsOf(p: Txn): (ops: seq<U32>)
    ensures |ops| == p.txnOps.Or(0)
  {
    PeekAll(p.txnCodes, p.txnOps.Or(0), 0)
  }

  function Opcodes(ps: seq<Txn>): seq<U32> {
    if ps == [] then [] else Opcodes(ps[..|ps| - 1]) + OpsOf(ps[|ps| - 1])
  }

  /** The opcodes of the transactions that could be followed. */
  function FollowedOps(ps: seq<Txn>): seq<U32> {
    if ps == [] then []
    else FollowedOps(ps[..|ps| - 1]) + if Followed(ps[|ps| - 1]) then OpsOf(ps[|ps| - 1]) else []
  }

  function First8(ops: seq<U32>): seq<U32> {
    ops[..Min(8, |ops|)]
  }

  lemma Low32OfSum(a: nat, b: nat)
    ensures Low32(Low32(a) + b) == Low32(a + b)
  {
  }

  lemma AppendIsPrefix(d: Detail, all: seq<U32>, p: Txn)
    requires d.captured == Min(MAX_DETAIL_OPS, |all|) && d.codes[..d.captured] == First8(all)
    ensures var d' := AppendTxnOps(d, p.txnOps.Or(0), p.txnCodes);
            && d'.captured == Min(MAX_DETAIL_OPS, |all + OpsOf(p)|)
            && d'.codes[..d'.captured] == First8(all + OpsOf(p))
  {
    var n, more := Room(d.captured, p.txnOps.Or(0)), OpsOf(p);
    if n > 0 {
      var d' := AppendTxnOps(d, p.txnOps.Or(0), p.txnCodes);
      assert d.captured == |all| && First8(all) == all;
      assert d'.codes[..d'.captured] == d.codes[..d.captured] + PeekAll(p.txnCodes, n, 0);
      assert PeekAll(p.txnCodes, n, 0) == more[..n];
    } else if |all| < MAX_DETAIL_OPS {
      assert more == [];
    }
  }

  /** As long as no transaction came in several buffers, the captured opcodes are exactly the first
      eight of those that could be followed, in order, and the total counts all opcodes. */
  lemma {:induction false} ReplicaListIsPrefix(ps: seq<Txn>)
    requires forall i | 0 <= i < |ps| :: !MultiBuffer(ps[i])
    ensures var d := AddAll(EMPTY, ps);
            && Shown(d) == First8(FollowedOps(ps)) && d.captured == Min(MAX_DETAIL_OPS, |FollowedOps(ps)|)
            && d.total == Low32(|Opcodes(ps)|) && !d.unavailable
  {
    if ps != [] {
      var before, p := ps[..|ps| - 1], ps[|ps| - 1];
      ReplicaListIsPrefix(before);
      var d := AddAll(EMPTY, before);
      Low32OfSum(|Opcodes(before)|, |OpsOf(p)|);
      if p.txnOps.Or(0) == 0 {
        assert OpsOf(p) == [];
      } else if Followed(p) {
        AppendIsPrefix(d.(total := Low32(d.total + p.txnOps.value)), FollowedOps(before), p);
      }
    }
  }

  /** Once a transaction came in several buffers, the list stays unavailable and empty whatever
      transactions follow. */
  lemma {:induction false} MultiBufferIsForever(d: Detail, ps: seq<Txn>, i: nat)
    requires i < |ps| && MultiBuffer(ps[i])
    ensures AddAll(d, ps).unavailable && AddAll(d, ps).captured == 0
  {
    if i < |ps| - 1 { MultiBufferIsForever(d, ps[..|ps| - 1], i); }
  }

  /** The total counts every opcode, followed or not. */
  lemma {:induction false} TotalIsAll(ps: seq<Txn>)
    ensures AddAll(EMPTY, ps).total == |Opcodes(ps)| % 0x1_0000_0000
  {
    if ps != [] {
      TotalIsAll(ps[..|ps| - 1]);
      Low32OfSum(|Opcodes(ps[..|ps| - 1])|, |OpsOf(ps[|ps| - 1])|);
    }
  }

  // ---- when is the list a prefix of all opcodes? ----

  /** Every transaction that could not be followed came after eight opcodes, or was empty. */
  predicate SkippedLate(ps: seq<Txn>) {
    forall i | 0 <= i < |ps| && !Followed(ps[i]) && ps[i].txnOps.Or(0) != 0 :: |FollowedOps(ps[..i])| >= MAX_DETAIL_OPS
  }

  lemma SkippedLateFront(ps: seq<Txn>)
    requires ps != []
    ensures var front, p := ps[..|ps| - 1], ps[|ps| - 1];
            SkippedLate(ps) <==> SkippedLate(front)
                                 && (Followed(p) || p.txnOps.Or(0) == 0 || |FollowedOps(front)| >= MAX_DETAIL_OPS)
  {
    var front := ps[..|ps| - 1];
    assert forall i | 0 <= i < |front| :: front[i] == ps[i] && front[..i] == ps[..i];
    assert ps[..|front|] == front;
    if SkippedLate(ps) {
      forall i | 0 <= i < |front| && !Followed(front[i]) && front[i].txnOps.Or(0) != 0
        ensures |FollowedOps(front[..i])| >= MAX_DETAIL_OPS
      {
        assert ps[i] == front[i];
      }
    }
  }

  lemma {:induction false} SkippedLateShows(ps: seq<Txn>)
    requires SkippedLate(ps)
    ensures First8(FollowedOps(ps)) == First8(Opcodes(ps)) && |FollowedOps(ps)| <= |Opcodes(ps)|
    ensures |FollowedOps(ps)| < MAX_DETAIL_OPS ==> FollowedOps(ps) == Opcodes(ps)
  {
    if ps != [] {
      var front, p := ps[..|ps| - 1], ps[|ps| - 1];
      SkippedLateFront(ps);
      SkippedLateShows(front);
      Extends8(FollowedOps(front), Opcodes(front), if Followed(p) then OpsOf(p) else [], OpsOf(p));
    }
  }

  lemma Extends8(a: seq<U32>, b: seq<U32>, more: seq<U32>, all: seq<U32>)
    requires First8(a) == First8(b) && |a| <= |b| && (|a| < MAX_DETAIL_OPS ==> a == b)
    requires more == all || (more == [] && |a| >= MAX_DETAIL_OPS)
    ensures First8(a + more) == First8(b + all) && |a + more| <= |b + all|
    ensures |a + more| < MAX_DETAIL_OPS ==> a + more == b + all
  {
    if |a| >= MAX_DETAIL_OPS {
      assert First8(a + more) == First8(a) && First8(b + all) == First8(b);
    }
  }

  /** The same transactions with whatever opcodes. */
  ghost predicate SameShape(ps: seq<Txn>, qs: seq<Txn>) {
    |ps| == |qs| && forall i | 0 <= i < |ps| :: qs[i] == ps[i].(txnCodes := qs[i].txnCodes)
  }

  lemma {:induction false} SameCounts(ps: seq<Txn>, qs: seq<Txn>)
    requires SameShape(ps, qs)
    ensures |FollowedOps(ps)| == |FollowedOps(qs)| && (SkippedLate(ps) ==> SkippedLate(qs))
  {
    if ps != [] {
      SameCounts(ps[..|ps| - 1], qs[..|qs| - 1]);
      SkippedLateFront(ps);
      SkippedLateFront(qs);
    }
  }

  /** Opcode 0 throughout what could be followed, and opcode 1 first in what could not. */
  function Marked(ps: seq<Txn>): (qs: seq<Txn>)
    ensures SameShape(ps, qs)
    ensures forall i | 0 <= i < |ps| :: qs[i].txnCodes == if Followed(ps[i]) then [] else [1]
  {
    seq(|ps|, i requires 0 <= i < |ps| => ps[i].(txnCodes := if Followed(ps[i]) then [] else [1]))
  }

  lemma {:induction false} MarkedFollowed(ps: seq<Txn>)
    ensures forall c <- FollowedOps(Marked(ps)) :: c == 0
  {
    if ps != [] {
      assert Marked(ps)[..|ps| - 1] == Marked(ps[..|ps| - 1]);
      MarkedFollowed(ps[..|ps| - 1]);
    }
  }

  lemma Has8(ops: seq<U32>, more: seq<U32>, c: U32)
    requires |ops| < MAX_DETAIL_OPS && more != [] && more[0] == c
    ensures c in First8(ops + more)
  {
    assert First8(ops + more)[|ops|] == c;
  }

  lemma Keeps8(ops: seq<U32>, more: seq<U32>, c: U32)
    requires c in First8(ops)
    ensures c in First8(ops + more)
  {
    var i :| 0 <= i < |First8(ops)| && First8(ops)[i] == c;
    assert First8(ops + more)[i] == c;
  }

  lemma MarkedShort(ps: seq<Txn>)
    requires SkippedLate(ps) && |FollowedOps(ps)| < MAX_DETAIL_OPS
    ensures |Opcodes(Marked(ps))| < MAX_DETAIL_OPS
  {
    SameCounts(ps, Marked(ps));
    SkippedLateShows(Marked(ps));
  }

  lemma {:induction false} MarkedGrows(ps: seq<Txn>)
    requires ps != []
    ensures var p := ps[|ps| - 1];
            Opcodes(Marked(ps)) == Opcodes(Marked(ps[..|ps| - 1])) + OpsOf(p.(txnCodes := if Followed(p) then [] else [1]))
  {
    assert Marked(ps)[..|ps| - 1] == Marked(ps[..|ps| - 1]);
  }

  /** An opcode 1 among the first eight, if a transaction was skipped before. */
  lemma {:induction false} MarkedSkipped(ps: seq<Txn>)
    requires !SkippedLate(ps)
    ensures 1 in First8(Opcodes(Marked(ps)))
  {
    var front, p := ps[..|ps| - 1], ps[|ps| - 1];
    MarkedGrows(ps);
    SkippedLateFront(ps);
    if SkippedLate(front) {
      MarkedShort(front);
      Has8(Opcodes(Marked(front)), OpsOf(p.(txnCodes := [1])), 1);
    } else {
      MarkedSkipped(front);
      Keeps8(Opcodes(Marked(front)), OpsOf(p.(txnCodes := if Followed(p) then [] else [1])), 1);
    }
  }

  lemma MarkedShows(ps: seq<Txn>)
    requires forall i | 0 <= i < |ps| :: !MultiBuffer(ps[i])
    ensures 1 !in Shown(AddAll(EMPTY, Marked(ps)))
  {
    var ops := FollowedOps(Marked(ps));
    MarkedFollowed(ps);
    ReplicaListIsPrefix(Marked(ps));
    assert forall i | 0 <= i < |First8(ops)| :: First8(ops)[i] == ops[i] && ops[i] in ops;
  }

  /** Without a transaction in several buffers, the list is the first eight of all opcodes, whatever
      these are, if and only if what could not be followed came after eight opcodes. */
  lemma ReplicaListIff(ps: seq<Txn>)
    requires forall i | 0 <= i < |ps| :: !MultiBuffer(ps[i])
    ensures SkippedLate(ps) <==> forall qs | SameShape(ps, qs) :: Shown(AddAll(EMPTY, qs)) == First8(Opcodes(qs))
  {
    if SkippedLate(ps) {
      forall qs | SameShape(ps, qs) ensures Shown(AddAll(EMPTY, qs)) == First8(Opcodes(qs)) {
        ReplicaListIsPrefix(qs);
        SameCounts(ps, qs);
        SkippedLateShows(qs);
      }
    } else {
      MarkedShows(ps);
      MarkedSkipped(ps);
      assert SameShape(ps, Marked(ps));
    }
  }

  /** Whatever the op, an execution captures its vector, and nothing else but a transaction of a replica
      op touches the list. */
  lemma ListChanges(opSize: U32, opType: U16, d: Detail, p: Probe)
    ensures p.ExecuteCtx? ==> DetailAfter(opSize, opType, d, p) == DetailAfter(opSize, 42, d, p)
    ensures p.TxcAddTransaction? && opType == 112 ==> DetailAfter(opSize, opType, d, p) == AddTransaction(d, p)
    ensures !p.ExecuteCtx? && (!p.TxcAddTransaction? || opType != 112) ==> DetailAfter(opSize, opType, d, p) == d
  {
  }

  // ================= in a run =================

  function Transactions(life: seq<Seen>): seq<Txn> {
    if life == [] then []
    else
      var before, p := Transactions(life[..|life| - 1]), life[|life| - 1].probe;
      if p.TxcAddTransaction? then before + [p] else before
  }

  lemma {:induction false} ReplayedDetail(opSize: U32, k: OpKey, life: seq<Seen>)
    requires life != [] && life[0].probe.EnqueueOp? && life[0].probe.opType.Or(0) == MSG_OSD_REPOP
    requires forall i | 0 < i < |life| :: !life[i].probe.EnqueueOp? && !life[i].probe.ExecuteCtx?
    ensures Replay(opSize, k, life).opType == MSG_OSD_REPOP
    ensures Replay(opSize, k, life).detail == AddAll(EMPTY, Transactions(life))
  {
    if |life| == 1 {
      assert life[..0] == [];
      assert Transactions(life) == Transactions([]);
    } else {
      var before, p := life[..|life| - 1], life[|life| - 1].probe;
      ReplayedDetail(opSize, k, before);
      if p.TxcAddTransaction? {
        assert Transactions(life)[..|Transactions(before)|] == Transactions(before);
      }
    }
  }

  /** A tracked replica op, never executed as a client op. */
  ghost predicate ReplicaOp(opSize: U32, tr: Trace, k: OpKey) {
    && k in Run(opSize, tr).ops && Life(opSize, tr, k).Some?
    && var life := Life(opSize, tr, k).value;
       && life != [] && life[0].probe.EnqueueOp? && life[0].probe.opType.Or(0) == MSG_OSD_REPOP
       && forall i | 0 < i < |life| :: !life[i].probe.ExecuteCtx?
  }

  /** In every run, a tracked replica op shows the first eight opcodes of those of its transactions
      that could be followed, and after one that came in several buffers, nothing. */
  lemma ReplicaListInRun(opSize: U32, tr: Trace, k: OpKey)
    requires ReplicaOp(opSize, tr, k)
    ensures var ps, d := Transactions(Life(opSize, tr, k).value), Run(opSize, tr).ops[k].detail;
            && d.total == |Opcodes(ps)| % 0x1_0000_0000
            && if exists i :: 0 <= i < |ps| && MultiBuffer(ps[i]) then d.unavailable && Shown(d) == []
               else !d.unavailable && Shown(d) == First8(FollowedOps(ps))
                    && (SkippedLate(ps) ==> Shown(d) == First8(Opcodes(ps)))
  {
    RecordIsReplay(opSize, tr, k);
    var life := Life(opSize, tr, k).value;
    ReplayedDetail(opSize, k, life);
    var ps := Transactions(life);
    TotalIsAll(ps);
    if i :| 0 <= i < |ps| && MultiBuffer(ps[i]) {
      MultiBufferIsForever(EMPTY, ps, i);
    } else {
      ReplicaListIsPrefix(ps);
      if SkippedLate(ps) { SkippedLateShows(ps); }
    }
  }
}
