/** radostrace from start to stop: where every client op ends up. */
module RadosRuns {
  import opened Words
  import opened Folding
  import opened RadosTracer

  type Trace = seq<Event>

  function Run(extents: ExtentCodes, tr: Trace): State {
    Fold((s, e) => Step(extents, s, e), State(map[], []), tr)
  }

  /** The map never holds more than its 8192 entries, and it refuses a send only when it is full and
      the op is not in it already. */
  lemma {:induction false} RefusesWhenFull(extents: ExtentCodes, tr: Trace, k: Key)
    ensures var s := Run(extents, tr);
            |s.ops| <= 8192 && (!Admits(s, k) <==> |s.ops| == 8192 && k !in s.ops)
  {
    if tr != [] {
      var s, e := Run(extents, Front(tr)), Last(tr);
      RefusesWhenFull(extents, Front(tr), e.key);
      KeysChange(s.ops, e.key, if e.Send? then Recorded(e.key, e.req, e.now, e.pid, extents) else ZeroOp());
    }
  }

  // ================= one key at a time =================

  /** The story of one key: the send being waited on, the rows of its completed sends, and how many
      sends were tracked, replaced by a resend, and lost to a full ring. */
  datatype Story = Story(pending: Option<ClientOp>, rows: seq<ClientOp>, tracked: nat, replaced: nat, lost: nat)

  predicate Stamped(op: Option<ClientOp>) {
    op.Some? && op.value.sent != 0
  }

  function One(b: bool): nat {
    if b then 1 else 0
  }

  function Tell(extents: ExtentCodes, st: Story, e: Event, admitted: bool): Story {
    match e
    case Send(_, k, q, now, pid) =>
      if !admitted then st
      else st.(pending := Some(Recorded(k, q, now, pid, extents)), tracked := st.tracked + One(now != 0),
               replaced := st.replaced + One(Stamped(st.pending)))
    case SendCut(_, _) =>
      if !admitted then st else st.(pending := Some(ZeroOp()), replaced := st.replaced + One(Stamped(st.pending)))
    case Finish(_, _, now, ringFree) =>
      if !Stamped(st.pending) then st.(pending := None)
      else if ringFree then st.(pending := None, rows := st.rows + [st.pending.value.(finish := now)])
      else st.(pending := None, lost := st.lost + 1)
  }

  /** The story uses the events of this key alone, and whether the map had room when one arrived. */
  function StoryOf(extents: ExtentCodes, tr: Trace, k: Key): Story {
    if tr == [] then Story(None, [], 0, 0, 0)
    else
      var st, e := StoryOf(extents, Front(tr), k), Last(tr);
      if e.op == 0 || e.key != k then st else Tell(extents, st, e, Admits(Run(extents, Front(tr)), k))
  }

  function RowsOf(ring: seq<ClientOp>, k: Key): seq<ClientOp> {
    if ring == [] then []
    else
      var rest, last := RowsOf(ring[..|ring| - 1], k), ring[|ring| - 1];
      if last.key == k && last.sent != 0 then rest + [last] else rest
  }

  predicate Tells(s: State, st: Story, k: Key) {
    && st.pending == (if k in s.ops then Some(s.ops[k]) else None)
    && st.rows == RowsOf(s.ring, k)
    && (Stamped(st.pending) ==> st.pending.value.key == k)
  }

  predicate OwnKeys(s: State) {
    forall k <- s.ops :: s.ops[k].sent != 0 ==> s.ops[k].key == k
  }

  lemma {:induction false} KeysAreOwn(extents: ExtentCodes, tr: Trace)
    ensures OwnKeys(Run(extents, tr))
  {
    if tr != [] { KeysAreOwn(extents, Front(tr)); }
  }

  lemma RowsOfAppend(ring: seq<ClientOp>, r: ClientOp, k: Key)
    ensures RowsOf(ring + [r], k) == RowsOf(ring, k) + if r.key == k && r.sent != 0 then [r] else []
  {
    assert (ring + [r])[..|ring|] == ring;
  }

  lemma StepTells(extents: ExtentCodes, s: State, st: Story, e: Event, k: Key)
    requires Tells(s, st, k) && OwnKeys(s)
    ensures Tells(Step(extents, s, e), if e.op == 0 || e.key != k then st else Tell(extents, st, e, Admits(s, k)), k)
  {
    if e.Finish? && e.op != 0 && e.key in s.ops && e.ringFree {
      RowsOfAppend(s.ring, s.ops[e.key].(finish := e.now), k);
    }
  }

  /** The map entry and the ring rows of a key are those of its own story, whatever the other ops
      did. */
  lemma {:induction false} RunTellsStory(extents: ExtentCodes, tr: Trace, k: Key)
    ensures Tells(Run(extents, tr), StoryOf(extents, tr, k), k)
  {
    if tr != [] {
      RunTellsStory(extents, Front(tr), k);
      KeysAreOwn(extents, Front(tr));
      StepTells(extents, Run(extents, Front(tr)), StoryOf(extents, Front(tr), k), Last(tr), k);
    }
  }

  /** Every tracked send completed, was replaced, was lost to a full ring, or is still pending. */
  lemma {:induction false} StoryBalances(extents: ExtentCodes, tr: Trace, k: Key)
    ensures var st := StoryOf(extents, tr, k);
            st.tracked == |st.rows| + st.replaced + st.lost + One(Stamped(st.pending))
  {
    if tr != [] { StoryBalances(extents, Front(tr), k); }
  }

  // ================= stopping =================

  /** The order in which a static map hands out its keys. */
  predicate Enumerates(order: seq<Key>, ops: map<Key, ClientOp>) {
    && (forall i, j | 0 <= i < j < |order| :: order[i] != order[j])
    && (forall k <- order :: k in ops)
    && (forall k <- ops :: k in order)
  }

  function IndexOf(order: seq<Key>, k: Key): (i: nat)
    requires k in order
    ensures i < |order| && order[i] == k
  {
    if order[|order| - 1] == k then |order| - 1 else IndexOf(order[..|order| - 1], k)
  }

  /** bpf_map__get_next_key: the first key after none or after a key no longer there. */
  function NextKey(order: seq<Key>, prev: Option<Key>): Option<Key> {
    var i := if prev.Some? && prev.value in order then IndexOf(order, prev.value) + 1 else 0;
    if i < |order| then Some(order[i]) else None
  }

  /** A printed row: the op and the Complete column. */
  datatype Row = Row(op: ClientOp, complete: bool)

  /** Rows for the stamped entries, in the map's order, measured up to now. */
  function HungRows(order: seq<Key>, ops: map<Key, ClientOp>, now: U64): seq<Row>
    requires forall k <- order :: k in ops
  {
    if order == [] then []
    else
      var k := order[|order| - 1];
      HungRows(order[..|order| - 1], ops, now) + if ops[k].sent != 0 then [Row(ops[k].(finish := now), false)] else []
  }

  /** report_hung_ops: it ends, having visited each key once. */
  method ReportHungOps(order: seq<Key>, ops: map<Key, ClientOp>, now: U64) returns (rows: seq<Row>, found: nat)
    requires Enumerates(order, ops)
    ensures rows == HungRows(order, ops, now) && found == |rows|
  {
    rows, found := [], 0;
    var prev: Option<Key> := None;
    var next := NextKey(order, prev);
    ghost var i := 0;
    while next.Some?
      invariant 0 <= i <= |order|
      invariant next == if i < |order| then Some(order[i]) else None
      invariant rows == HungRows(order[..i], ops, now) && found == |rows|
      decreases |order| - i
    {
      var k := next.value;
      assert k in order && k in ops;
      assert order[..i + 1][..i] == order[..i];
      if k in ops && ops[k].sent != 0 {
        rows := rows + [Row(ops[k].(finish := now), false)];
        found := found + 1;
      }
      prev := Some(k);
      next := NextKey(order, prev);
      assert IndexOf(order, k) == i;
      i := i + 1;
    }
    assert order[..i] == order;
  }

  function Completed(ops: seq<ClientOp>): (rows: seq<Row>)
    ensures |rows| == |ops|
  {
    seq(|ops|, i requires 0 <= i < |ops| => Row(ops[i], true))
  }

  /** Everything printed: the ring, drained after the probes were detached, then the hung ops. */
  function Printed(s: State, order: seq<Key>, now: U64): seq<Row>
    requires Enumerates(order, s.ops)
  {
    Completed(s.ring) + HungRows(order, s.ops, now)
  }

  function Own(rows: seq<Row>, k: Key): seq<Row> {
    if rows == [] then []
    else
      var rest, last := Own(rows[..|rows| - 1], k), rows[|rows| - 1];
      if last.op.key == k && last.op.sent != 0 then rest + [last] else rest
  }

  lemma {:induction false} OwnConcat(a: seq<Row>, b: seq<Row>, k: Key)
    ensures Own(a + b, k) == Own(a, k) + Own(b, k)
  {
    if b == [] {
      assert a + b == a;
    } else {
      assert (a + b)[..|a + b| - 1] == a + b[..|b| - 1];
      OwnConcat(a, b[..|b| - 1], k);
    }
  }

  lemma {:induction false} RingIsPrinted(ring: seq<ClientOp>, k: Key)
    ensures Own(Completed(ring), k) == Completed(RowsOf(ring, k))
  {
    if ring != [] {
      assert Completed(ring)[..|ring| - 1] == Completed(ring[..|ring| - 1]);
      RingIsPrinted(ring[..|ring| - 1], k);
    }
  }

  lemma OwnOne(row: Row, k: Key)
    ensures Own([row], k) == if row.op.key == k && row.op.sent != 0 then [row] else []
  {
    assert [row][..0] == [];
  }

  lemma {:induction false} HungIsPrinted(order: seq<Key>, ops: map<Key, ClientOp>, now: U64, k: Key)
    requires forall k <- order :: k in ops
    requires forall i, j | 0 <= i < j < |order| :: order[i] != order[j]
    requires OwnKeys(State(ops, []))
    ensures Own(HungRows(order, ops, now), k)
            == if k in order && ops[k].sent != 0 then [Row(ops[k].(finish := now), false)] else []
  {
    if order != [] {
      var front, last := order[..|order| - 1], order[|order| - 1];
      HungIsPrinted(front, ops, now, k);
      assert order == front + [last];
      assert last !in front by { assert forall i | 0 <= i < |front| :: front[i] == order[i]; }
      if ops[last].sent != 0 {
        var row := Row(ops[last].(finish := now), false);
        OwnConcat(HungRows(front, ops, now), [row], k);
        assert last in State(ops, []).ops && row.op.key == last;
        OwnOne(row, k);
        assert HungRows(order, ops, now) == HungRows(front, ops, now) + [row];
        if k == last {
          assert Own(HungRows(order, ops, now), k) == [] + [row];
        } else {
          assert Own(HungRows(order, ops, now), k) == Own(HungRows(front, ops, now), k) + [];
        }
      } else {
        assert HungRows(order, ops, now) == HungRows(front, ops, now) + [] == HungRows(front, ops, now);
      }
    }
  }

  /** What is printed about a key: a Complete=1 row for each of its sends that completed with room
      in the ring, in order, and a Complete=0 row if a send is still waiting. */
  lemma PrintedPerKey(extents: ExtentCodes, tr: Trace, order: seq<Key>, now: U64, k: Key)
    requires Enumerates(order, Run(extents, tr).ops)
    ensures var st := StoryOf(extents, tr, k);
            Own(Printed(Run(extents, tr), order, now), k)
            == Completed(st.rows) + if Stamped(st.pending) then [Row(st.pending.value.(finish := now), false)] else []
  {
    var s := Run(extents, tr);
    RunTellsStory(extents, tr, k);
    KeysAreOwn(extents, tr);
    OwnConcat(Completed(s.ring), HungRows(order, s.ops, now), k);
    RingIsPrinted(s.ring, k);
    HungIsPrinted(order, s.ops, now, k);
  }

  /** Every tracked send of a key is printed exactly once, unless a resend replaced it or the ring
      was full when it finished. */
  lemma EveryOpAccountedFor(extents: ExtentCodes, tr: Trace, order: seq<Key>, now: U64, k: Key)
    requires Enumerates(order, Run(extents, tr).ops)
    ensures var st := StoryOf(extents, tr, k);
            st.tracked == |Own(Printed(Run(extents, tr), order, now), k)| + st.replaced + st.lost
  {
    PrintedPerKey(extents, tr, order, now, k);
    StoryBalances(extents, tr, k);
  }

  // ================= latencies =================

  function TimeOf(e: Event): Option<U64> {
    if e.SendCut? then None else Some(e.now)
  }

  /** The boot clock does not run backwards and has not passed `now`. */
  predicate ClockUpTo(tr: Trace, now: U64) {
    && (forall i | 0 <= i < |tr| && TimeOf(tr[i]).Some? :: TimeOf(tr[i]).value <= now)
    && (forall i, j | 0 <= i < j < |tr| && TimeOf(tr[i]).Some? && TimeOf(tr[j]).Some? ::
          TimeOf(tr[i]).value <= TimeOf(tr[j]).value)
  }

  predicate SentBy(s: State, now: U64) {
    && (forall k <- s.ops :: s.ops[k].sent <= now)
    && (forall i | 0 <= i < |s.ring| :: s.ring[i].sent <= s.ring[i].finish)
  }

  lemma ClockFront(tr: Trace, now: U64)
    requires tr != [] && ClockUpTo(tr, now)
    ensures ClockUpTo(Front(tr), if TimeOf(Last(tr)).Some? then Last(tr).now else now)
  {
    forall i | 0 <= i < |Front(tr)| && TimeOf(Front(tr)[i]).Some?
      ensures TimeOf(Front(tr)[i]).value <= if TimeOf(Last(tr)).Some? then Last(tr).now else now
    {
      assert Front(tr)[i] == tr[i];
    }
  }

  lemma {:induction false} SentBeforeFinished(extents: ExtentCodes, tr: Trace, now: U64)
    requires ClockUpTo(tr, now)
    ensures SentBy(Run(extents, tr), now)
  {
    if tr != [] {
      ClockFront(tr, now);
      SentBeforeFinished(extents, Front(tr), if TimeOf(Last(tr)).Some? then Last(tr).now else now);
      assert TimeOf(tr[|tr| - 1]).Some? ==> TimeOf(tr[|tr| - 1]).value <= now;
    }
  }

  /** latency_us, computed with unsigned wrap-around */
  function LatencyUs(op: ClientOp): nat {
    Sub64(op.finish, op.sent) / 1000
  }

  lemma {:induction false} HungRowsAre(order: seq<Key>, ops: map<Key, ClientOp>, now: U64, i: nat)
    requires (forall k <- order :: k in ops) && i < |HungRows(order, ops, now)|
    ensures exists k <- order :: HungRows(order, ops, now)[i].op == ops[k].(finish := now)
  {
    var front, last := order[..|order| - 1], order[|order| - 1];
    if i < |HungRows(front, ops, now)| {
      HungRowsAre(front, ops, now, i);
      var k :| k in front && HungRows(front, ops, now)[i].op == ops[k].(finish := now);
      assert k in order;
    } else {
      assert last in order;
    }
  }

  /** No printed latency wraps around: each is the time from send to finish or to the stop. */
  lemma LatenciesAreReal(extents: ExtentCodes, tr: Trace, order: seq<Key>, now: U64, i: nat)
    requires ClockUpTo(tr, now) && Enumerates(order, Run(extents, tr).ops)
    requires i < |Printed(Run(extents, tr), order, now)|
    ensures var op := Printed(Run(extents, tr), order, now)[i].op;
            op.sent <= op.finish && LatencyUs(op) == (op.finish - op.sent) / 1000
  {
    var s := Run(extents, tr);
    SentBeforeFinished(extents, tr, now);
    if i < |s.ring| {
      assert Printed(s, order, now)[i] == Row(s.ring[i], true);
    } else {
      assert Printed(s, order, now)[i] == HungRows(order, s.ops, now)[i - |s.ring|];
      HungRowsAre(order, s.ops, now, i - |s.ring|);
      var k :| k in order && HungRows(order, s.ops, now)[i - |s.ring|].op == s.ops[k].(finish := now);
      assert s.ops[k].sent <= now;
    }
  }
}
