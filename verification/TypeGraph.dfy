/** DWARF type information as a graph, and breadth-first member search in it. */
module TypeGraph {
  import opened Words

  type TypeId = nat

  /** How a member or base class says where it is: a byte offset, nothing (the start of the
      enclosing type), or a bit offset, which names no byte. */
  datatype Place = At(off: nat) | Start | Bits

  datatype Child =
    | Inheritance(base: Option<TypeId>, loc: Place)
    | Member(name: Option<string>, loc: Place, ty: TypeId)
    | OtherChild

  datatype Die =
    | Alias(of: Option<TypeId>)             // typedef, const, volatile, restrict; None: of void
    | Pointer(to: Option<TypeId>)           // None: void*
    | Reference(target: TypeId)              // lvalue and rvalue references
    | Record(declaration: bool, children: seq<Child>)  // struct, class, union
    | Array
    | Scalar                                // base and enumeration types
    | OtherDie

  /** All types; the definitions known for incomplete ones; types by name; and, to witness that
      wrappers, inheritance and anonymous members never run in a circle, a depth for each type. */
  datatype Types = Types(dies: seq<Die>, definitions: map<TypeId, TypeId>, names: map<string, TypeId>, depth: seq<nat>)

  predicate Below(g: Types, u: TypeId, t: TypeId) {
    u < |g.dies| && t < |g.dies| && |g.depth| == |g.dies| && g.depth[u] < g.depth[t]
  }

  predicate ChildOk(g: Types, t: TypeId, c: Child) {
    match c
    case Inheritance(base, _) => base.Some? ==> Below(g, base.value, t)
    case Member(name, _, ty) => ty < |g.dies| && (name.None? ==> Below(g, ty, t))
    case OtherChild => true
  }

  predicate DieOk(g: Types, t: TypeId)
    requires t < |g.dies|
  {
    match g.dies[t]
    case Alias(u) => u.Some? ==> Below(g, u.value, t)
    case Pointer(to) => to.Some? ==> Below(g, to.value, t)
    case Reference(u) => Below(g, u, t)
    case Record(_, children) => forall c <- children :: ChildOk(g, t, c)
    case _ => true
  }

  ghost predicate Valid(g: Types) {
    && |g.depth| == |g.dies|
    && (forall t | 0 <= t < |g.dies| :: DieOk(g, t))
    && (forall t <- g.definitions :: g.definitions[t] < |g.dies|)
    && (forall n <- g.names :: g.names[n] < |g.dies|)
  }

  type Graph = g: Types | Valid(g) ghost witness Types([], map[], map[], [])

  function Children(g: Graph, t: TypeId): seq<Child>
    requires t < |g.dies|
  {
    if g.dies[t].Record? then g.dies[t].children else []
  }

  /** Peel typedefs and cv-qualifiers, as far as there is a type below. */
  function Strip(g: Graph, t: TypeId): (u: TypeId)
    requires t < |g.dies|
    ensures u < |g.dies| && (g.dies[u].Alias? ==> g.dies[u].of.None?) && g.depth[u] <= g.depth[t]
    decreases g.depth[t]
  {
    assert DieOk(g, t);
    if g.dies[t].Alias? && g.dies[t].of.Some? then Strip(g, g.dies[t].of.value) else t
  }

  /** Byte offset of a child, if it has one. */
  function ByteOffset(loc: Place): Option<nat> {
    match loc
    case At(off) => Some(off)
    case Start => Some(0)
    case Bits => None
  }

  // ================= transparent edges =================

  /** The two searches.  Inherited looks through base classes only, as they are.  Layout looks
      through base classes and unnamed aggregate members, peeled, at a known byte offset. */
  datatype Mode = Inherited | Layout

  /** The child looked through, the type there, and its offset. */
  datatype Edge = Edge(via: nat, to: TypeId, off: nat)

  function EdgeOf(g: Graph, mode: Mode, t: TypeId, i: nat): (e: Option<Edge>)
    requires t < |g.dies| && i < |Children(g, t)|
    ensures e.Some? ==> e.value.via == i && Below(g, e.value.to, t)
  {
    assert DieOk(g, t);
    assert Children(g, t)[i] in Children(g, t);
    match Children(g, t)[i]
    case Inheritance(base, loc) =>
      if base.None? then None
      else if mode.Inherited? then Some(Edge(i, base.value, ByteOffset(loc).GetOr(0)))
      else if ByteOffset(loc).None? then None
      else Some(Edge(i, Strip(g, base.value), ByteOffset(loc).value))
    case Member(name, loc, ty) =>
      if mode.Inherited? || name.Some? || ByteOffset(loc).None? || !g.dies[Strip(g, ty)].Record? then None
      else Some(Edge(i, Strip(g, ty), ByteOffset(loc).value))
    case OtherChild => None
  }

  /** The edges over the first n children. */
  function EdgesUpTo(g: Graph, mode: Mode, t: TypeId, n: nat): (es: seq<Edge>)
    requires t < |g.dies| && n <= |Children(g, t)|
    ensures forall k | 0 <= k < |es| :: Below(g, es[k].to, t)
  {
    if n == 0 then []
    else
      EdgesUpTo(g, mode, t, n - 1) + match EdgeOf(g, mode, t, n - 1) case Some(e) => [e] case None => []
  }

  function Edges(g: Graph, mode: Mode, t: TypeId): (es: seq<Edge>)
    requires t < |g.dies|
    ensures forall k | 0 <= k < |es| :: Below(g, es[k].to, t)
  {
    EdgesUpTo(g, mode, t, |Children(g, t)|)
  }

  /** Edges in the order of the children, each as its child has it. */
  ghost predicate InOrder(g: Graph, mode: Mode, t: TypeId, n: nat, es: seq<Edge>)
    requires t < |g.dies| && n <= |Children(g, t)|
  {
    && (forall k | 0 <= k < |es| :: es[k].via < n && EdgeOf(g, mode, t, es[k].via) == Some(es[k]))
    && (forall k, l | 0 <= k < l < |es| :: es[k].via < es[l].via)
  }

  lemma {:induction false} EdgesInOrder(g: Graph, mode: Mode, t: TypeId, n: nat)
    requires t < |g.dies| && n <= |Children(g, t)|
    ensures InOrder(g, mode, t, n, EdgesUpTo(g, mode, t, n))
  {
    if n > 0 {
      EdgesInOrder(g, mode, t, n - 1);
      var es, before := EdgesUpTo(g, mode, t, n), EdgesUpTo(g, mode, t, n - 1);
      var e := EdgeOf(g, mode, t, n - 1);
      assert es == if e.Some? then before + [e.value] else before;
    }
  }

  lemma {:induction false} EdgeIsThere(g: Graph, mode: Mode, t: TypeId, n: nat, i: nat) returns (k: nat)
    requires t < |g.dies| && i < n <= |Children(g, t)| && EdgeOf(g, mode, t, i).Some?
    ensures k < |EdgesUpTo(g, mode, t, n)| && EdgesUpTo(g, mode, t, n)[k] == EdgeOf(g, mode, t, i).value
  {
    var before := EdgesUpTo(g, mode, t, n - 1);
    assert before <= EdgesUpTo(g, mode, t, n);
    if i < n - 1 {
      k := EdgeIsThere(g, mode, t, n - 1, i);
    } else {
      k := |before|;
      assert EdgesUpTo(g, mode, t, n) == before + [EdgeOf(g, mode, t, i).value];
    }
  }

  /** Where one gets: a type, and its offset in the type one started from. */
  datatype Spot = Spot(ty: TypeId, off: nat)

  /** One child further. */
  function Along(g: Graph, mode: Mode, at: Option<Spot>, i: nat): (r: Option<Spot>)
    requires at.Some? ==> at.value.ty < |g.dies|
    ensures r.Some? ==> r.value.ty < |g.dies|
  {
    if at.None? || i >= |Children(g, at.value.ty)| then None
    else
      match EdgeOf(g, mode, at.value.ty, i) case Some(e) => Some(Spot(e.to, at.value.off + e.off)) case None => None
  }

  /** Look through the given children, one in the other, from t. */
  function Follow(g: Graph, mode: Mode, t: TypeId, path: seq<nat>): (r: Option<Spot>)
    requires t < |g.dies|
    ensures r.Some? ==> r.value.ty < |g.dies|
  {
    if path == [] then Some(Spot(t, 0)) else Along(g, mode, Follow(g, mode, t, path[..|path| - 1]), path[|path| - 1])
  }

  /** The first child of t that is a member of that name. */
  function MemberIndex(cs: seq<Child>, name: string): (r: Option<nat>)
    ensures r.Some? ==> r.value < |cs| && cs[r.value].Member? && cs[r.value].name == Some(name)
    ensures r.None? <==> forall c <- cs :: !(c.Member? && c.name == Some(name))
    ensures r.Some? ==> forall i | 0 <= i < r.value :: !(cs[i].Member? && cs[i].name == Some(name))
  {
    if cs == [] then None
    else if cs[0].Member? && cs[0].name == Some(name) then Some(0)
    else
      assert forall i | 0 < i < |cs| :: cs[i] == cs[1..][i - 1];
      assert cs == [cs[0]] + cs[1..];
      match MemberIndex(cs[1..], name) case Some(i) => Some(i + 1) case None => None
  }

  predicate Declares(g: Graph, t: TypeId, name: string)
    requires t < |g.dies|
  {
    MemberIndex(Children(g, t), name).Some?
  }

  /** The type ends the search: it has such a member, or, among base classes, no children at all. */
  predicate Stops(g: Graph, mode: Mode, t: TypeId, name: string)
    requires t < |g.dies|
  {
    Declares(g, t, name) || (mode.Inherited? && Children(g, t) == [])
  }

  // ================= breadth-first search =================

  /** A queue entry: a type, its offset in the type searched, and the children that lead to it. */
  datatype Node = Node(ty: TypeId, off: nat, path: seq<nat>)

  datatype Found = Hit(node: Node) | Barren(node: Node) | Absent

  function Weight(g: Graph, mode: Mode, t: TypeId): nat
    requires t < |g.dies|
    decreases g.depth[t], 1, 0
  {
    1 + EdgesWeight(g, mode, t, Edges(g, mode, t))
  }

  function EdgesWeight(g: Graph, mode: Mode, t: TypeId, es: seq<Edge>): nat
    requires t < |g.dies| && forall k | 0 <= k < |es| :: Below(g, es[k].to, t)
    decreases g.depth[t], 0, |es|
  {
    if es == [] then 0 else assert Below(g, es[0].to, t); Weight(g, mode, es[0].to) + EdgesWeight(g, mode, t, es[1..])
  }

  ghost predicate QueueOk(g: Graph, queue: seq<Node>) {
    forall k | 0 <= k < |queue| :: queue[k].ty < |g.dies|
  }

  function QueueWeight(g: Graph, mode: Mode, queue: seq<Node>): nat
    requires QueueOk(g, queue)
  {
    if queue == [] then 0 else Weight(g, mode, queue[0].ty) + QueueWeight(g, mode, queue[1..])
  }

  function Push(n: Node, es: seq<Edge>): seq<Node> {
    seq(|es|, i requires 0 <= i < |es| => Node(es[i].to, n.off + es[i].off, n.path + [es[i].via]))
  }

  lemma PushOneMore(n: Node, a: seq<Edge>, e: Edge)
    ensures Push(n, a + [e]) == Push(n, a) + [Node(e.to, n.off + e.off, n.path + [e.via])]
  {
  }

  function Successors(g: Graph, mode: Mode, n: Node): (ns: seq<Node>)
    requires n.ty < |g.dies|
    ensures QueueOk(g, ns)
  {
    Push(n, Edges(g, mode, n.ty))
  }

  lemma {:induction false} QueueWeightConcat(g: Graph, mode: Mode, a: seq<Node>, b: seq<Node>)
    requires QueueOk(g, a) && QueueOk(g, b)
    ensures QueueOk(g, a + b) && QueueWeight(g, mode, a + b) == QueueWeight(g, mode, a) + QueueWeight(g, mode, b)
  {
    if a == [] {
      assert a + b == b;
    } else {
      assert (a + b)[1..] == a[1..] + b;
      QueueWeightConcat(g, mode, a[1..], b);
    }
  }

  lemma {:induction false} NodesWeight(g: Graph, mode: Mode, t: TypeId, es: seq<Edge>, ns: seq<Node>)
    requires t < |g.dies| && (forall k | 0 <= k < |es| :: Below(g, es[k].to, t)) && QueueOk(g, ns)
    requires |ns| == |es| && forall i | 0 <= i < |es| :: ns[i].ty == es[i].to
    ensures QueueWeight(g, mode, ns) == EdgesWeight(g, mode, t, es)
  {
    if es != [] { NodesWeight(g, mode, t, es[1..], ns[1..]); }
  }

  lemma SuccessorsWeighLess(g: Graph, mode: Mode, queue: seq<Node>)
    requires queue != [] && QueueOk(g, queue)
    ensures var next := queue[1..] + Successors(g, mode, queue[0]);
            QueueOk(g, next) && QueueWeight(g, mode, next) == QueueWeight(g, mode, queue) - 1
  {
    var n := queue[0];
    NodesWeight(g, mode, n.ty, Edges(g, mode, n.ty), Successors(g, mode, n));
    QueueWeightConcat(g, mode, queue[1..], Successors(g, mode, n));
  }

  /** What the search loop finds from a given queue on. */
  function Search(g: Graph, mode: Mode, name: string, queue: seq<Node>): Found
    requires QueueOk(g, queue)
    decreases QueueWeight(g, mode, queue)
  {
    if queue == [] then Absent
    else
      var n := queue[0];
      if mode.Inherited? && Children(g, n.ty) == [] then Barren(n)
      else if Declares(g, n.ty, name) then Hit(n)
      else
        SuccessorsWeighLess(g, mode, queue);
        Search(g, mode, name, queue[1..] + Successors(g, mode, n))
  }

  // ================= the order of the search =================

  /** Of two paths of one length: by their parents, then by the last child. */
  predicate Earlier(p: seq<nat>, q: seq<nat>)
    decreases |p|
  {
    && |p| == |q| != 0
    && (Earlier(p[..|p| - 1], q[..|q| - 1]) || (p[..|p| - 1] == q[..|q| - 1] && p[|p| - 1] < q[|q| - 1]))
  }

  /** Shorter paths come first. */
  predicate Precedes(p: seq<nat>, q: seq<nat>) {
    |p| < |q| || Earlier(p, q)
  }

  lemma {:induction false} EarlierTransitive(p: seq<nat>, q: seq<nat>, r: seq<nat>)
    requires Earlier(p, q) && Earlier(q, r)
    ensures Earlier(p, r)
    decreases |p|
  {
    if Earlier(p[..|p| - 1], q[..|q| - 1]) && Earlier(q[..|q| - 1], r[..|r| - 1]) {
      EarlierTransitive(p[..|p| - 1], q[..|q| - 1], r[..|r| - 1]);
    }
  }

  lemma EarlierOneMore(p: seq<nat>, q: seq<nat>, i: nat, j: nat)
    requires Earlier(p, q) || (p == q && i < j)
    ensures Earlier(p + [i], q + [j])
  {
    assert (p + [i])[..|p|] == p && (q + [j])[..|q|] == q;
  }

  /** Entries come in that order, and those a level deeper than the first one lie behind entries
      that came before it. */
  ghost predicate Ordered(queue: seq<Node>) {
    && (forall i, j | 0 <= i < j < |queue| :: Precedes(queue[i].path, queue[j].path))
    && (forall j | 0 <= j < |queue| :: Within(queue[j].path, queue[0].path))
  }

  ghost predicate Within(p: seq<nat>, head: seq<nat>) {
    |p| <= |head| || (|p| == |head| + 1 && Earlier(p[..|p| - 1], head))
  }

  lemma BehindHead(head: seq<nat>, p: seq<nat>, via: nat)
    requires Precedes(head, p) && Within(p, head)
    ensures Precedes(p, head + [via])
  {
    if |p| == |head| + 1 {
      assert p == p[..|head|] + [p[|head|]];
      EarlierOneMore(p[..|head|], head, p[|head|], via);
    }
  }

  /** An entry of the next queue, as seen from the head. */
  ghost predicate Follows(head: seq<nat>, p: seq<nat>) {
    && Precedes(head, p)
    && (Within(p, head) || (|p| == |head| + 1 && p[..|head|] == head))
  }

  /** What is behind the head lies within the next one, successors of the head included. */
  lemma WithinNext(head: seq<nat>, next: seq<nat>, p: seq<nat>)
    requires Follows(head, next) && Follows(head, p)
    ensures Within(p, next)
  {
    if |p| > |next| && p[..|head|] != head { EarlierTransitive(p[..|head|], head, next); }
  }

  /** The successors of n, over children in order. */
  ghost predicate Fanned(n: Node, succ: seq<Node>) {
    && (forall i | 0 <= i < |succ| :: |succ[i].path| == |n.path| + 1 && succ[i].path[..|n.path|] == n.path)
    && (forall i, j | 0 <= i < j < |succ| :: Precedes(succ[i].path, succ[j].path))
  }

  lemma SuccessorsFanned(g: Graph, mode: Mode, n: Node)
    requires n.ty < |g.dies|
    ensures Fanned(n, Successors(g, mode, n))
  {
    var es, succ := Edges(g, mode, n.ty), Successors(g, mode, n);
    EdgesInOrder(g, mode, n.ty, |Children(g, n.ty)|);
    forall i, j | 0 <= i < j < |succ| ensures Precedes(succ[i].path, succ[j].path) {
      EarlierOneMore(n.path, n.path, es[i].via, es[j].via);
    }
  }

  lemma SuccessorBehind(queue: seq<Node>, m: Node, i: nat)
    requires Ordered(queue) && 0 < i < |queue| && |m.path| == |queue[0].path| + 1 && m.path[..|queue[0].path|] == queue[0].path
    ensures Precedes(queue[i].path, m.path)
  {
    var head := queue[0].path;
    assert m.path == head + [m.path[|head|]];
    BehindHead(head, queue[i].path, m.path[|head|]);
  }

  lemma NextFollows(queue: seq<Node>, succ: seq<Node>, j: nat)
    requires queue != [] && Ordered(queue) && Fanned(queue[0], succ) && j < |queue[1..] + succ|
    ensures Follows(queue[0].path, (queue[1..] + succ)[j].path)
  {
    var n := |queue| - 1;
    if j < n { assert (queue[1..] + succ)[j] == queue[j + 1]; } else { assert (queue[1..] + succ)[j] == succ[j - n]; }
  }

  lemma OrderedStep(queue: seq<Node>, succ: seq<Node>)
    requires queue != [] && Ordered(queue) && Fanned(queue[0], succ)
    ensures Ordered(queue[1..] + succ)
  {
    var next, head, n := queue[1..] + succ, queue[0].path, |queue| - 1;
    forall i, j | 0 <= i < j < |next| ensures Precedes(next[i].path, next[j].path) {
      if j < n {
        assert next[i] == queue[i + 1] && next[j] == queue[j + 1];
      } else {
        assert next[j] == succ[j - n];
        if i < n { SuccessorBehind(queue, succ[j - n], i + 1); } else { assert next[i] == succ[i - n]; }
      }
    }
    forall j | 0 <= j < |next| ensures Within(next[j].path, next[0].path) {
      NextFollows(queue, succ, 0);
      NextFollows(queue, succ, j);
      WithinNext(head, next[0].path, next[j].path);
    }
  }

  // ================= what it finds =================

  ghost predicate LeadsToMember(g: Graph, mode: Mode, root: TypeId, name: string, path: seq<nat>)
    requires root < |g.dies|
  {
    Follow(g, mode, root, path).Some? && Declares(g, Follow(g, mode, root, path).value.ty, name)
  }

  ghost predicate LeadsToStop(g: Graph, mode: Mode, root: TypeId, name: string, path: seq<nat>)
    requires root < |g.dies|
  {
    Follow(g, mode, root, path).Some? && Stops(g, mode, Follow(g, mode, root, path).value.ty, name)
  }

  lemma {:induction false} FollowPrefix(g: Graph, mode: Mode, root: TypeId, path: seq<nat>, n: nat)
    requires root < |g.dies| && n <= |path| && Follow(g, mode, root, path).Some?
    ensures Follow(g, mode, root, path[..n]).Some?
  {
    if n < |path| {
      FollowPrefix(g, mode, root, path[..|path| - 1], n);
      assert path[..|path| - 1][..n] == path[..n];
    } else {
      assert path[..n] == path;
    }
  }

  /** A queue entry is where its path leads. */
  ghost predicate InPlace(g: Graph, mode: Mode, root: TypeId, n: Node)
    requires root < |g.dies|
  {
    n.ty < |g.dies| && Follow(g, mode, root, n.path) == Some(Spot(n.ty, n.off))
  }

  ghost predicate Runs(queue: seq<Node>, p: seq<nat>) {
    exists i :: 0 <= i < |queue| && queue[i].path <= p
  }

  /** Every path to where the search may end still runs through the queue. */
  ghost predicate QueueInv(g: Graph, mode: Mode, root: TypeId, name: string, queue: seq<Node>)
    requires root < |g.dies|
  {
    && (forall i | 0 <= i < |queue| :: InPlace(g, mode, root, queue[i]))
    && Ordered(queue)
    && (forall p | LeadsToStop(g, mode, root, name, p) :: Runs(queue, p))
  }

  lemma QueueInvStart(g: Graph, mode: Mode, root: TypeId, name: string)
    requires root < |g.dies|
    ensures QueueInv(g, mode, root, name, [Node(root, 0, [])])
  {
    var queue := [Node(root, 0, [])];
    forall p | LeadsToStop(g, mode, root, name, p)
      ensures Runs(queue, p)
    {
      assert queue[0].path <= p;
    }
  }

  lemma FollowOneMore(g: Graph, mode: Mode, root: TypeId, path: seq<nat>, k: nat)
    requires root < |g.dies|
    ensures Follow(g, mode, root, path + [k]) == Along(g, mode, Follow(g, mode, root, path), k)
  {
    var more := path + [k];
    assert more[..|more| - 1] == path;
    assert more[|more| - 1] == k;
  }

  lemma SuccessorFollows(g: Graph, mode: Mode, root: TypeId, n: Node, k: nat)
    requires root < |g.dies| && InPlace(g, mode, root, n) && k < |Edges(g, mode, n.ty)|
    ensures InPlace(g, mode, root, Successors(g, mode, n)[k])
  {
    var e := Edges(g, mode, n.ty)[k];
    EdgesInOrder(g, mode, n.ty, |Children(g, n.ty)|);
    assert Below(g, e.to, n.ty);
    FollowOneMore(g, mode, root, n.path, e.via);
  }

  /** A path through n that goes on runs through one of n's successors. */
  lemma PathThroughSuccessor(g: Graph, mode: Mode, root: TypeId, n: Node, p: seq<nat>) returns (k: nat)
    requires root < |g.dies| && InPlace(g, mode, root, n) && n.path <= p && |n.path| < |p|
    requires Follow(g, mode, root, p).Some?
    ensures k < |Successors(g, mode, n)| && Successors(g, mode, n)[k].path <= p
  {
    var i := p[|n.path|];
    PrefixAndNext(n.path, p);
    assert Follow(g, mode, root, n.path + [i]).Some? by { FollowPrefix(g, mode, root, p, |n.path| + 1); }
    FollowOneMore(g, mode, root, n.path, i);
    k := EdgeIsThere(g, mode, n.ty, |Children(g, n.ty)|, i);
    EdgesInOrder(g, mode, n.ty, |Children(g, n.ty)|);
    assert Successors(g, mode, n)[k].path == n.path + [i];
  }

  lemma PrefixAndNext(a: seq<nat>, p: seq<nat>)
    requires a <= p && |a| < |p|
    ensures p[..|a| + 1] == a + [p[|a|]] && a + [p[|a|]] <= p
  {
  }

  lemma InSecondPart<T>(a: seq<T>, b: seq<T>, k: nat)
    requires k < |b|
    ensures (a + b)[|a| + k] == b[k]
  {
  }

  lemma RunsAt(queue: seq<Node>, i: nat, p: seq<nat>)
    requires i < |queue| && queue[i].path <= p
    ensures Runs(queue, p)
  {
  }

  lemma CoverRest(queue: seq<Node>, succ: seq<Node>, i: nat, p: seq<nat>)
    requires 0 < i < |queue| && queue[i].path <= p
    ensures Runs(queue[1..] + succ, p)
  {
    assert (queue[1..] + succ)[i - 1] == queue[i];
    RunsAt(queue[1..] + succ, i - 1, p);
  }

  lemma CoverHead(g: Graph, mode: Mode, root: TypeId, name: string, n: Node, rest: seq<Node>, p: seq<nat>)
    requires root < |g.dies| && InPlace(g, mode, root, n) && !Stops(g, mode, n.ty, name)
    requires LeadsToStop(g, mode, root, name, p) && n.path <= p
    ensures Runs(rest + Successors(g, mode, n), p)
  {
    assert p != n.path;
    ProperPrefix(n.path, p);
    var k := PathThroughSuccessor(g, mode, root, n, p);
    RunsBehind(rest, Successors(g, mode, n), k, p);
  }

  lemma ProperPrefix(a: seq<nat>, p: seq<nat>)
    requires a <= p && a != p
    ensures |a| < |p|
  {
    assert p[..|p|] == p;
  }

  lemma RunsBehind(rest: seq<Node>, succ: seq<Node>, k: nat, p: seq<nat>)
    requires k < |succ| && succ[k].path <= p
    ensures Runs(rest + succ, p)
  {
    InSecondPart(rest, succ, k);
    RunsAt(rest + succ, |rest| + k, p);
  }

  lemma CoverStep(g: Graph, mode: Mode, root: TypeId, name: string, queue: seq<Node>, p: seq<nat>)
    requires root < |g.dies| && queue != [] && InPlace(g, mode, root, queue[0]) && !Stops(g, mode, queue[0].ty, name)
    requires LeadsToStop(g, mode, root, name, p) && Runs(queue, p)
    ensures Runs(queue[1..] + Successors(g, mode, queue[0]), p)
  {
    var i :| 0 <= i < |queue| && queue[i].path <= p;
    if i > 0 { CoverRest(queue, Successors(g, mode, queue[0]), i, p); } else { CoverHead(g, mode, root, name, queue[0], queue[1..], p); }
  }

  lemma QueueInvStep(g: Graph, mode: Mode, root: TypeId, name: string, queue: seq<Node>)
    requires root < |g.dies| && QueueInv(g, mode, root, name, queue)
    requires queue != [] && queue[0].ty < |g.dies| && !Stops(g, mode, queue[0].ty, name)
    ensures QueueInv(g, mode, root, name, queue[1..] + Successors(g, mode, queue[0]))
  {
    var n, succ := queue[0], Successors(g, mode, queue[0]);
    assert InPlace(g, mode, root, n);
    forall i | 0 <= i < |succ| ensures InPlace(g, mode, root, succ[i]) {
      SuccessorFollows(g, mode, root, n, i);
    }
    SuccessorsFanned(g, mode, n);
    OrderedStep(queue, succ);
    forall p | LeadsToStop(g, mode, root, name, p) ensures Runs(queue[1..] + succ, p) {
      CoverStep(g, mode, root, name, queue, p);
    }
  }

  /** The first of all paths to where the search may end. */
  ghost predicate First(g: Graph, mode: Mode, root: TypeId, name: string, path: seq<nat>)
    requires root < |g.dies|
  {
    && LeadsToStop(g, mode, root, name, path)
    && forall p | LeadsToStop(g, mode, root, name, p) :: p == path || Precedes(path, p)
  }

  /** What a search result says about the type searched. */
  ghost predicate Decided(g: Graph, mode: Mode, root: TypeId, name: string, found: Found)
    requires root < |g.dies|
  {
    match found
    case Hit(n) => InPlace(g, mode, root, n) && Declares(g, n.ty, name) && First(g, mode, root, name, n.path)
    case Barren(n) => InPlace(g, mode, root, n) && Children(g, n.ty) == [] && mode.Inherited? && First(g, mode, root, name, n.path)
    case Absent => forall p :: !LeadsToStop(g, mode, root, name, p)
  }

  lemma HeadIsFirst(g: Graph, mode: Mode, root: TypeId, name: string, queue: seq<Node>)
    requires root < |g.dies| && QueueInv(g, mode, root, name, queue)
    requires queue != [] && queue[0].ty < |g.dies| && Stops(g, mode, queue[0].ty, name)
    ensures First(g, mode, root, name, queue[0].path)
  {
    var head := queue[0].path;
    assert InPlace(g, mode, root, queue[0]);
    forall p | LeadsToStop(g, mode, root, name, p) ensures p == head || Precedes(head, p) {
      assert Runs(queue, p);
      var i :| 0 <= i < |queue| && queue[i].path <= p;
      if queue[i].path != p { ProperPrefix(queue[i].path, p); }
    }
  }

  lemma {:induction false} SearchFrom(g: Graph, mode: Mode, root: TypeId, name: string, queue: seq<Node>)
    requires root < |g.dies| && QueueOk(g, queue) && QueueInv(g, mode, root, name, queue)
    ensures Decided(g, mode, root, name, Search(g, mode, name, queue))
    decreases QueueWeight(g, mode, queue)
  {
    if queue == [] {
      assert forall p :: !Runs(queue, p);
    } else {
      assert InPlace(g, mode, root, queue[0]);
      if Stops(g, mode, queue[0].ty, name) {
        HeadIsFirst(g, mode, root, name, queue);
      } else {
        SuccessorsWeighLess(g, mode, queue);
        QueueInvStep(g, mode, root, name, queue);
        SearchFrom(g, mode, root, name, queue[1..] + Successors(g, mode, queue[0]));
      }
    }
  }

  function SearchType(g: Graph, mode: Mode, name: string, root: TypeId): Found
    requires root < |g.dies|
  {
    Search(g, mode, name, [Node(root, 0, [])])
  }

  /** The search ends at the first type, in the order of depth and then of the children, that has
      such a member or may not be passed, at the sum of the offsets on the way; if it finds none,
      there is none. */
  lemma SearchFindsFirst(g: Graph, mode: Mode, root: TypeId, name: string)
    requires root < |g.dies|
    ensures Decided(g, mode, root, name, SearchType(g, mode, name, root))
  {
    QueueInvStart(g, mode, root, name);
    SearchFrom(g, mode, root, name, [Node(root, 0, [])]);
  }
}
