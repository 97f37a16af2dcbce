/** Two-phase replies over whole runs: what a pending request and an emitted event tell. */
module MdsRuns {
  import opened Words
  import opened Folding
  import opened MdsTracer

  type Trace = seq<Event>

  function Run(tr: Trace): State {
    Fold(Step, INIT, tr)
  }

  lemma StepChangesOne(s: State, e: Event, k: Key)
    requires KeyOf(e) == Some(k)
    ensures var after := Step(s, e).pending;
            after == s.pending || after == s.pending - {k} || (k in after && after == s.pending[k := after[k]] && Admits(s, k))
  {
  }

  lemma StaysWithin(s: State, e: Event)
    requires |s.pending| <= 1024
    ensures |Step(s, e).pending| <= 1024
  {
    if KeyOf(e).Some? {
      var k, after := KeyOf(e).value, Step(s, e).pending;
      StepChangesOne(s, e, k);
      KeysChange(s.pending, k, if k in after then after[k] else ZeroRequest());
    }
  }

  /** The map never holds more than its 1024 requests, and a new one is refused only when it is full. */
  lemma {:induction false} RefusesWhenFull(tr: Trace, k: Key)
    ensures |Run(tr).pending| <= 1024 && (!Admits(Run(tr), k) <==> |Run(tr).pending| == 1024 && k !in Run(tr).pending)
  {
    if tr != [] {
      RefusesWhenFull(Front(tr), k);
      StaysWithin(Run(Front(tr)), Last(tr));
    }
  }

  // ================= the story of one key =================

  /** The events that reached a request since it was inserted. */
  type Episode = seq<Event>

  /** An episode and the safe reply that ended it. */
  datatype Ended = Ended(episode: Episode, reply: Event)

  /** The open episode, those whose event was emitted, the number of insertions, and the number of
      episodes whose event found the ring full. */
  datatype Story = Story(now: Option<Episode>, emitted: seq<Ended>, inserted: nat, lost: nat)

  /** The request is sent. */
  predicate SendOf(e: Event, k: Key) {
    e.Prepare? && e.present && e.tid == Got(k.tid) && e.op.Got? && e.client == k.client
  }

  /** A client reply to it arrives, and says whether it is safe and what the result is. */
  predicate ReplyTo(e: Event, k: Key) {
    && e.Dispatch? && e.msgType == Got(26) && e.session && e.tid == Got(k.tid) && e.client == k.client
    && e.head && e.isSafe.Got? && e.result.Got?
  }

  predicate UnsafeReply(e: Event, k: Key) {
    ReplyTo(e, k) && e.isSafe.value == 0
  }

  predicate SafeReply(e: Event, k: Key) {
    ReplyTo(e, k) && e.isSafe.value != 0
  }

  lemma SameKinds(e: Event, k: Key)
    ensures KeyOf(e) == Some(k) && e.Prepare? <==> SendOf(e, k)
    ensures KeyOf(e) == Some(k) && IsUnsafe(e) <==> UnsafeReply(e, k)
    ensures KeyOf(e) == Some(k) && IsSafe(e) <==> SafeReply(e, k)
  {
  }

  /** A send opens an episode if there is room, a safe reply ends it, and everything between is part
      of it. */
  function Tell(st: Story, e: Event, k: Key, room: bool): Story {
    if st.now.None? then
      if SendOf(e, k) && room then st.(now := Some([e]), inserted := st.inserted + 1) else st
    else if SendOf(e, k) || UnsafeReply(e, k) then st.(now := Some(st.now.value + [e]))
    else if !SafeReply(e, k) then st
    else if e.ringFree then st.(now := None, emitted := st.emitted + [Ended(st.now.value, e)])
    else st.(now := None, lost := st.lost + 1)
  }

  function StoryOf(tr: Trace, k: Key): Story {
    if tr == [] then Story(None, [], 0, 0)
    else Tell(StoryOf(Front(tr), k), Last(tr), k, |Run(Front(tr)).pending| < 1024)
  }

  /** Each insertion emits at most once: it emits, or its event is lost, or it is still pending. */
  lemma {:induction false} OneEventPerInsertion(tr: Trace, k: Key)
    ensures var st := StoryOf(tr, k);
            st.inserted == |st.emitted| + st.lost + if st.now.Some? then 1 else 0
  {
    if tr != [] { OneEventPerInsertion(Front(tr), k); }
  }

  // ================= what a record says of its episode =================

  function Sends(es: Episode): nat {
    if es == [] then 0 else Sends(es[..|es| - 1]) + if es[|es| - 1].Prepare? then 1 else 0
  }

  /** The latest unsafe reply. */
  function LastUnsafe(es: Episode): (r: Option<Event>)
    ensures r.Some? ==> r.value in es && r.value.Dispatch? && r.value.isSafe == Got(0) && r.value.result.Got?
  {
    if es == [] then None
    else
      var e := es[|es| - 1];
      if e.Dispatch? && e.isSafe == Got(0) && e.result.Got? then Some(e) else LastUnsafe(es[..|es| - 1])
  }

  /** An episode starts with the send that inserted the request. */
  predicate Opens(k: Key, es: Episode) {
    es != [] && SendOf(es[0], k)
  }

  /** Microseconds in unsigned 64-bit arithmetic. */
  function Micros(later: U64, earlier: U64): int {
    (later - earlier) % 0x1_0000_0000_0000_0000 / 1000
  }

  /** The name of the directory entry up to a NUL, at most 63 bytes of it, or a question mark. */
  predicate ShowsPath(path: seq<U8>, nameLen: Read<U32>, name: seq<U8>) {
    var whole := UpToNul(name);
    path == if nameLen.Or(0) == 0 || whole == [] then [0x3f] else whole[..Min(|whole|, Min(nameLen.value, 63))]
  }

  /** What the first send says of a request; it is a write if bit 12 of the operation says so. */
  predicate Sent(r: Request, k: Key, e: Event)
    requires SendOf(e, k)
  {
    && r.key == k && r.submit == e.now && r.op == e.op.value && r.pid == e.pid && r.rank == e.rank
    && r.isWrite == (r.op % 0x2000 >= 0x1000) && r.comm == e.comm && r.opName == OpName(r.op)
    && ShowsPath(r.path, e.nameLen, e.name)
  }

  /** What the others do, before a safe reply: its attempts are its sends, its unsafe reply the latest. */
  predicate Waiting(r: Request, es: Episode) {
    && r.attempts == Sends(es) % 0x1_0000_0000
    && !r.gotSafe && r.safeTime == 0 && r.safeLatency == 0
    && (match LastUnsafe(es)
        case None => !r.gotUnsafe && r.unsafeTime == 0 && r.unsafeLatency == 0 && r.result == 0
        case Some(u) =>
          && r.gotUnsafe && r.unsafeTime == u.now && r.unsafeLatency == Micros(u.now, r.submit)
          && r.result == u.result.value)
  }

  predicate Describes(r: Request, k: Key, es: Episode)
    requires Opens(k, es)
  {
    Sent(r, k, es[0]) && Waiting(r, es)
  }

  /** An emitted event: the request as described, with the time, latency and result of the safe reply. */
  ghost predicate Completes(r: Request, k: Key, done: Ended) {
    && Opens(k, done.episode) && SafeReply(done.reply, k) && done.reply.ringFree
    && r.gotSafe && r.safeTime == done.reply.now && r.safeLatency == Micros(r.safeTime, r.submit)
    && r.result == done.reply.result.value
    && exists was: Request ::
         && Describes(was, k, done.episode)
         && r == was.(gotSafe := true, safeTime := r.safeTime, safeLatency := r.safeLatency, result := r.result)
  }

  function RowsOf(ring: seq<Request>, k: Key): seq<Request> {
    if ring == [] then []
    else
      var rest, last := RowsOf(ring[..|ring| - 1], k), ring[|ring| - 1];
      if last.key == k then rest + [last] else rest
  }

  ghost predicate Tells(s: State, st: Story, k: Key) {
    && (k in s.pending <==> st.now.Some?)
    && (st.now.Some? ==> Opens(k, st.now.value) && Describes(s.pending[k], k, st.now.value))
    && |RowsOf(s.ring, k)| == |st.emitted|
    && forall i | 0 <= i < |st.emitted| :: Completes(RowsOf(s.ring, k)[i], k, st.emitted[i])
  }

  predicate OwnKeys(s: State) {
    forall k <- s.pending :: s.pending[k].key == k
  }

  lemma {:induction false} KeysAreOwn(tr: Trace)
    ensures OwnKeys(Run(tr))
  {
    if tr != [] { KeysAreOwn(Front(tr)); }
  }

  lemma WaitsOn(r: Request, es: Episode, e: Event)
    requires Waiting(r, es)
    ensures e.Prepare? ==> Waiting(r.(attempts := Low32(r.attempts + 1)), es + [e])
    ensures IsUnsafe(e) ==> Waiting(Replied(r, e), es + [e])
  {
    assert (es + [e])[..|es|] == es;
  }

  lemma Extends(r: Request, k: Key, es: Episode, e: Event)
    requires Opens(k, es) && Describes(r, k, es)
    ensures Opens(k, es + [e])
    ensures SendOf(e, k) ==> Describes(r.(attempts := Low32(r.attempts + 1)), k, es + [e])
    ensures UnsafeReply(e, k) ==> Describes(Replied(r, e), k, es + [e])
  {
    WaitsOn(r, es, e);
  }

  lemma RowsOfAppend(ring: seq<Request>, r: Request, k: Key)
    ensures RowsOf(ring + [r], k) == RowsOf(ring, k) + if r.key == k then [r] else []
  {
    assert (ring + [r])[..|ring|] == ring;
  }

  lemma PathIsShown(nameLen: Read<U32>, name: seq<U8>)
    ensures ShowsPath(PathOf(nameLen, name), nameLen, name)
  {
  }

  lemma OpensAlone(k: Key, e: Event)
    requires SendOf(e, k)
    ensures Opens(k, [e]) && Describes(NewRequest(k, e), k, [e])
  {
    assert [e][..0] == [];
    PathIsShown(e.nameLen, e.name);
  }

  /** As far as this key goes: what the step tells it. */
  ghost predicate Kept(s: State, st: Story, e: Event, k: Key) {
    Tells(Step(s, e), Tell(st, e, k, |s.pending| < 1024), k)
  }

  lemma ReplyCompletes(r: Request, k: Key, es: Episode, e: Event)
    requires Opens(k, es) && Describes(r, k, es) && SafeReply(e, k) && e.ringFree
    ensures IsSafe(e) && Completes(Replied(r, e), k, Ended(es, e))
  {
  }

  lemma SafeTells(s: State, st: Story, e: Event, k: Key)
    requires Tells(s, st, k) && OwnKeys(s) && SafeReply(e, k) && st.now.Some?
    ensures Kept(s, st, e, k)
  {
    SameKinds(e, k);
    if e.ringFree {
      RowsOfAppend(s.ring, Replied(s.pending[k], e), k);
      ReplyCompletes(s.pending[k], k, st.now.value, e);
    }
  }

  lemma FirstTells(s: State, st: Story, e: Event, k: Key)
    requires Tells(s, st, k) && KeyOf(e) == Some(k) && st.now.None?
    ensures Kept(s, st, e, k)
  {
    SameKinds(e, k);
    if SendOf(e, k) { OpensAlone(k, e); }
  }

  lemma NextTells(s: State, st: Story, e: Event, k: Key)
    requires Tells(s, st, k) && KeyOf(e) == Some(k) && st.now.Some? && !SafeReply(e, k)
    ensures Kept(s, st, e, k)
  {
    SameKinds(e, k);
    Extends(s.pending[k], k, st.now.value, e);
    assert RowsOf(Step(s, e).ring, k) == RowsOf(s.ring, k);
  }

  lemma StepTellsOthers(s: State, st: Story, e: Event, k: Key)
    requires Tells(s, st, k) && OwnKeys(s) && KeyOf(e) != Some(k)
    ensures Kept(s, st, e, k)
  {
    SameKinds(e, k);
    if KeyOf(e).Some? && KeyOf(e).value in s.pending && IsSafe(e) && e.ringFree {
      RowsOfAppend(s.ring, Replied(s.pending[KeyOf(e).value], e), k);
    }
  }

  lemma StepTells(s: State, st: Story, e: Event, k: Key)
    requires Tells(s, st, k) && OwnKeys(s)
    ensures Kept(s, st, e, k)
  {
    SameKinds(e, k);
    if KeyOf(e) != Some(k) { StepTellsOthers(s, st, e, k); }
    else if st.now.None? { FirstTells(s, st, e, k); }
    else if SafeReply(e, k) { SafeTells(s, st, e, k); }
    else { NextTells(s, st, e, k); }
  }

  /** In every reachable state a pending request is described by its open episode, and the events
      emitted for it are, in order, its ended episodes completed by their safe replies. */
  lemma {:induction false} RunTellsStory(tr: Trace, k: Key)
    ensures Tells(Run(tr), StoryOf(tr, k), k)
  {
    if tr != [] {
      RunTellsStory(Front(tr), k);
      KeysAreOwn(Front(tr));
      StepTells(Run(Front(tr)), StoryOf(Front(tr), k), Last(tr), k);
    }
  }

  // ================= latencies =================

  /** The clock does not run backwards. */
  predicate Ordered(es: seq<Event>) {
    forall i, j | 0 <= i < j < |es| :: es[i].now <= es[j].now
  }

  predicate StoryOrdered(st: Story) {
    && (st.now.Some? ==> Ordered(st.now.value))
    && forall i | 0 <= i < |st.emitted| :: Ordered(st.emitted[i].episode + [st.emitted[i].reply])
  }

  /** Nothing in an open episode is later than `now`. */
  predicate NotAfter(st: Story, now: U64) {
    st.now.Some? ==> forall i | 0 <= i < |st.now.value| :: st.now.value[i].now <= now
  }

  lemma TellOrdered(st: Story, e: Event, k: Key, room: bool)
    requires StoryOrdered(st) && NotAfter(st, e.now)
    ensures StoryOrdered(Tell(st, e, k, room)) && NotAfter(Tell(st, e, k, room), e.now)
  {
  }

  lemma {:induction false} StoriesAreOrdered(tr: Trace, k: Key)
    requires Ordered(tr)
    ensures StoryOrdered(StoryOf(tr, k)) && (tr != [] ==> NotAfter(StoryOf(tr, k), Last(tr).now))
  {
    if tr != [] {
      assert Ordered(Front(tr)) by { assert forall i | 0 <= i < |Front(tr)| :: Front(tr)[i] == tr[i]; }
      StoriesAreOrdered(Front(tr), k);
      if Front(tr) != [] { assert Last(Front(tr)) == tr[|tr| - 2] && Last(Front(tr)).now <= Last(tr).now; }
      TellOrdered(StoryOf(Front(tr), k), Last(tr), k, |Run(Front(tr)).pending| < 1024);
    }
  }

  /** The latencies of an event are those of its request, and do not wrap around. */
  predicate LatenciesReal(r: Request) {
    && r.submit <= r.safeTime && r.safeLatency == (r.safeTime - r.submit) / 1000
    && (r.gotUnsafe ==> r.submit <= r.unsafeTime <= r.safeTime
                        && r.unsafeLatency == (r.unsafeTime - r.submit) / 1000)
    && (!r.gotUnsafe ==> r.unsafeTime == 0 && r.unsafeLatency == 0)
    && r.unsafeLatency <= r.safeLatency
  }

  lemma NoWrap(later: U64, earlier: U64)
    requires earlier <= later
    ensures Micros(later, earlier) == (later - earlier) / 1000
  {
  }

  lemma UnsafeBetween(done: Ended, u: Event)
    requires done.episode != [] && done.episode[0].Prepare? && u.Dispatch? && u in done.episode
    requires Ordered(done.episode + [done.reply])
    ensures done.episode[0].now <= u.now <= done.reply.now
  {
    var es := done.episode + [done.reply];
    var j :| 0 <= j < |done.episode| && done.episode[j] == u;
    assert es[0] == done.episode[0] && es[j] == u && es[|es| - 1] == done.reply;
  }

  lemma CompletedReal(r: Request, k: Key, done: Ended)
    requires Completes(r, k, done) && Ordered(done.episode + [done.reply])
    ensures LatenciesReal(r)
  {
    var es, u := done.episode + [done.reply], LastUnsafe(done.episode);
    assert es[0] == done.episode[0] && es[|es| - 1] == done.reply;
    NoWrap(done.reply.now, done.episode[0].now);
    if u.Some? {
      UnsafeBetween(done, u.value);
      NoWrap(u.value.now, done.episode[0].now);
    }
  }

  /** With a clock that does not run backwards, no emitted latency wraps around, and an unsafe reply
      is never reported later than the safe one. */
  lemma LatenciesOrdered(tr: Trace, k: Key, i: nat)
    requires Ordered(tr) && i < |RowsOf(Run(tr).ring, k)|
    ensures LatenciesReal(RowsOf(Run(tr).ring, k)[i])
  {
    RunTellsStory(tr, k);
    StoriesAreOrdered(tr, k);
    CompletedReal(RowsOf(Run(tr).ring, k)[i], k, StoryOf(tr, k).emitted[i]);
  }
}
