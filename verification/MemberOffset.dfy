/** Byte offsets of members, through base classes and anonymous aggregates. */
module MemberOffset {
  import opened Words
  import opened TypeGraph
  import opened MemberRelation

  datatype Located = Located(off: nat, ty: TypeId)

  /** The first child of t named `name`. */
  function MemberOf(g: Graph, t: TypeId, name: string): Child
    requires t < |g.dies| && Declares(g, t, name)
  {
    Children(g, t)[MemberIndex(Children(g, t), name).value]
  }

  lemma MemberTypeInGraph(g: Graph, t: TypeId, name: string)
    requires t < |g.dies| && Declares(g, t, name)
    ensures MemberOf(g, t, name).Member? && MemberOf(g, t, name).ty < |g.dies|
  {
    assert DieOk(g, t);
    assert MemberOf(g, t, name) in Children(g, t);
    assert ChildOk(g, t, MemberOf(g, t, name));
  }

  /** The member found from a queue, placed relative to the type searched. */
  function Locate(g: Graph, name: string, found: Found): (r: Option<Located>)
    requires found.Hit? ==> found.node.ty < |g.dies| && Declares(g, found.node.ty, name)
    ensures r.Some? ==> r.value.ty < |g.dies|
  {
    if !found.Hit? then None
    else
      MemberTypeInGraph(g, found.node.ty, name);
      var m := MemberOf(g, found.node.ty, name);
      if ByteOffset(m.loc).None? then None
      else Some(Located(found.node.off + ByteOffset(m.loc).value, Strip(g, m.ty)))
  }

  lemma LocateHit(g: Graph, name: string, n: Node)
    requires n.ty < |g.dies| && Declares(g, n.ty, name) && ByteOffset(MemberOf(g, n.ty, name).loc).Some?
    ensures var m := MemberOf(g, n.ty, name);
            && m.Member? && m.ty < |g.dies|
            && Locate(g, name, Hit(n)) == Some(Located(n.off + ByteOffset(m.loc).value, Strip(g, m.ty)))
  {
    MemberTypeInGraph(g, n.ty, name);
  }

  function LayoutMember(g: Graph, t: TypeId, name: string): (r: Option<Located>)
    requires t < |g.dies|
    ensures r.Some? ==> r.value.ty < |g.dies|
  {
    SearchFindsFirst(g, Layout, t, name);
    Locate(g, name, SearchType(g, Layout, name, t))
  }

  lemma HitIsFirstMember(g: Graph, t: TypeId, name: string, n: Node)
    requires t < |g.dies| && Decided(g, Layout, t, name, Hit(n))
    ensures n.ty < |g.dies| && Declares(g, n.ty, name) && FirstMember(g, Layout, t, name, n.path, n.off, MemberOf(g, n.ty, name))
  {
    ContainsIff(g, Layout, t, name, n.path, n.off, MemberOf(g, n.ty, name));
    forall p, o, c | Contains(g, Layout, t, name, p, o, c) ensures p == n.path || Precedes(n.path, p) {
      ContainsIff(g, Layout, t, name, p, o, c);
      assert LeadsToStop(g, Layout, t, name, p);
    }
  }

  /** The place of a member m of a type at offset off: its own byte offset added, and its peeled type. */
  ghost predicate Placed(g: Graph, off: nat, m: Child, at: Located) {
    m.Member? && m.ty < |g.dies| && at.off >= off && Sits(m.loc, at.off - off) && Peels(g, m.ty, at.ty)
  }

  lemma LocatedIsPlaced(g: Graph, name: string, n: Node)
    requires n.ty < |g.dies| && Declares(g, n.ty, name)
    ensures var m, r := MemberOf(g, n.ty, name), Locate(g, name, Hit(n));
            && m.Member? && m.ty < |g.dies|
            && (r.Some? ==> Placed(g, n.off, m, r.value)) && (r.None? ==> m.loc.Bits?)
  {
    MemberTypeInGraph(g, n.ty, name);
    PeelsIff(g, MemberOf(g, n.ty, name).ty, Strip(g, MemberOf(g, n.ty, name).ty));
  }

  /** A located member is the first of its name, at the sum of the offsets on the way and its own; no
      location means there is none, or the first is a bit-field. */
  lemma LayoutMemberMeaning(g: Graph, t: TypeId, name: string)
    requires t < |g.dies|
    ensures var r := LayoutMember(g, t, name);
            && (r.Some? ==> exists path, off, m :: FirstMember(g, Layout, t, name, path, off, m) && Placed(g, off, m, r.value))
            && (r.None? ==> (forall path, off, m :: !Contains(g, Layout, t, name, path, off, m))
                            || exists path, off, m :: FirstMember(g, Layout, t, name, path, off, m) && m.loc.Bits?)
  {
    SearchFindsFirst(g, Layout, t, name);
    match SearchType(g, Layout, name, t)
    case Hit(n) =>
      HitIsFirstMember(g, t, name, n);
      LocatedIsPlaced(g, name, n);
    case Absent =>
      forall path, off, m ensures !Contains(g, Layout, t, name, path, off, m) {
        ContainsIff(g, Layout, t, name, path, off, m);
        assert !LeadsToStop(g, Layout, t, name, path);
      }
    case Barren(_) =>
      assert false;
  }

  lemma {:induction false} NotEarlierBack(p: seq<nat>, q: seq<nat>)
    requires Earlier(p, q)
    ensures p != q && !Earlier(q, p)
  {
    if Earlier(p[..|p| - 1], q[..|q| - 1]) { NotEarlierBack(p[..|p| - 1], q[..|q| - 1]); }
  }

  /** There is one first member. */
  lemma SameFirst(g: Graph, mode: Mode, t: TypeId, name: string, path: seq<nat>, off: nat, m: Child,
                  path': seq<nat>, off': nat, m': Child)
    requires t < |g.dies|
    requires FirstMember(g, mode, t, name, path, off, m) && FirstMember(g, mode, t, name, path', off', m')
    ensures path == path' && off == off' && m == m'
  {
    if Precedes(path, path') && Precedes(path', path) { NotEarlierBack(path, path'); }
    ContainsIff(g, mode, t, name, path, off, m);
    ContainsIff(g, mode, t, name, path', off', m');
  }

  lemma SamePlace(g: Graph, off: nat, m: Child, a: Located, b: Located)
    requires Placed(g, off, m, a) && Placed(g, off, m, b)
    ensures a == b
  {
    PeelsIff(g, m.ty, a.ty);
    PeelsIff(g, m.ty, b.ty);
  }

  /** The first member of a name, if it has a byte offset, is found there, whatever else has the name. */
  lemma FirstMemberIsFound(g: Graph, t: TypeId, name: string, path: seq<nat>, off: nat, m: Child, at: Located)
    requires t < |g.dies| && FirstMember(g, Layout, t, name, path, off, m) && Placed(g, off, m, at)
    ensures LayoutMember(g, t, name) == Some(at)
  {
    LayoutMemberMeaning(g, t, name);
    var r := LayoutMember(g, t, name);
    if r.Some? {
      var path', off', m' :| FirstMember(g, Layout, t, name, path', off', m') && Placed(g, off', m', r.value);
      SameFirst(g, Layout, t, name, path, off, m, path', off', m');
      SamePlace(g, off, m, at, r.value);
    } else {
      var path', off', m' :| FirstMember(g, Layout, t, name, path', off', m') && m'.loc.Bits?;
      SameFirst(g, Layout, t, name, path, off, m, path', off', m');
    }
  }

  // ================= the loop =================

  /** The two kinds of children whose members are taken for the type's own. */
  method SeenThrough(g: Graph, t: TypeId, i: nat) returns (e: Option<Edge>)
    requires t < |g.dies| && i < |Children(g, t)|
    ensures e == EdgeOf(g, Layout, t, i)
  {
    var child := Children(g, t)[i];
    assert DieOk(g, t);
    assert child in Children(g, t);
    e := None;
    if child.Inheritance? {
      if ByteOffset(child.loc).Some? && child.base.Some? {
        e := Some(Edge(i, Strip(g, child.base.value), ByteOffset(child.loc).value));
      }
    } else if child.Member? && child.name.None? {
      if ByteOffset(child.loc).Some? && g.dies[Strip(g, child.ty)].Record? {
        e := Some(Edge(i, Strip(g, child.ty), ByteOffset(child.loc).value));
      }
    }
  }

  /** The inner loop of find_member_offset_in: one type's children, in order.  Queue entries for
      the types seen through it, up to the member if it is there. */
  method ScanChildren(g: Graph, cur: Node, member: string) returns (hit: Option<nat>, pushed: seq<Node>)
    requires cur.ty < |g.dies|
    ensures hit == MemberIndex(Children(g, cur.ty), member)
    ensures hit.None? ==> pushed == Successors(g, Layout, cur)
  {
    var cs := Children(g, cur.ty);
    pushed := [];
    var i := 0;
    ghost var es: seq<Edge> := [];
    while i < |cs|
      invariant 0 <= i <= |cs|
      invariant es == EdgesUpTo(g, Layout, cur.ty, i) && pushed == Push(cur, es)
      invariant forall j | 0 <= j < i :: !(cs[j].Member? && cs[j].name == Some(member))
    {
      var child := cs[i];
      if child.Member? && child.name == Some(member) {
        assert cs[i] in cs;
        return Some(i), pushed;
      }
      var e := SeenThrough(g, cur.ty, i);
      if e.Some? {
        PushOneMore(cur, es, e.value);
        pushed := pushed + [Node(e.value.to, cur.off + e.value.off, cur.path + [i])];
        es := es + [e.value];
      }
      i := i + 1;
    }
    hit := None;
  }

  lemma HeadFound(g: Graph, parent: TypeId, member: string, q: seq<Node>)
    requires parent < |g.dies| && q != [] && QueueOk(g, q) && Declares(g, q[0].ty, member)
    requires Search(g, Layout, member, q) == SearchType(g, Layout, member, parent)
    ensures SearchType(g, Layout, member, parent) == Hit(q[0])
  {
  }

  lemma LocatedAt(g: Graph, parent: TypeId, member: string, n: Node)
    requires parent < |g.dies| && n.ty < |g.dies| && Declares(g, n.ty, member)
    requires SearchType(g, Layout, member, parent) == Hit(n)
    ensures var m := MemberOf(g, n.ty, member);
            && m.Member? && m.ty < |g.dies|
            && LayoutMember(g, parent, member)
               == if ByteOffset(m.loc).None? then None else Some(Located(n.off + ByteOffset(m.loc).value, Strip(g, m.ty)))
  {
    MemberTypeInGraph(g, n.ty, member);
  }

  lemma HeadDeclares(g: Graph, parent: TypeId, member: string, q: seq<Node>)
    requires parent < |g.dies| && q != [] && QueueOk(g, q) && Declares(g, q[0].ty, member)
    requires Search(g, Layout, member, q) == SearchType(g, Layout, member, parent)
    ensures var m := MemberOf(g, q[0].ty, member);
            && m.Member? && m.ty < |g.dies|
            && LayoutMember(g, parent, member)
               == if ByteOffset(m.loc).None? then None
                  else Some(Located(q[0].off + ByteOffset(m.loc).value, Strip(g, m.ty)))
  {
    HeadFound(g, parent, member, q);
    LocatedAt(g, parent, member, q[0]);
  }

  lemma HeadSkipped(g: Graph, member: string, q: seq<Node>)
    requires q != [] && QueueOk(g, q) && !Declares(g, q[0].ty, member)
    ensures var next := q[1..] + Successors(g, Layout, q[0]);
            && QueueOk(g, next)
            && QueueWeight(g, Layout, next) < QueueWeight(g, Layout, q)
            && Search(g, Layout, member, next) == Search(g, Layout, member, q)
  {
    SuccessorsWeighLess(g, Layout, q);
  }

  lemma Exhausted(g: Graph, parent: TypeId, member: string)
    requires parent < |g.dies| && SearchType(g, Layout, member, parent) == Absent
    ensures LayoutMember(g, parent, member).None?
  {
  }

  /** find_member_offset_in: a breadth-first loop with no visited set. */
  method FindMemberOffsetIn(g: Graph, parent: TypeId, member: string) returns (r: Option<Located>)
    requires parent < |g.dies|
    ensures r == LayoutMember(g, parent, member)
    ensures r.Some? ==> r.value.ty < |g.dies|
  {
    var q := [Node(parent, 0, [])];
    while q != []
      invariant QueueOk(g, q)
      invariant Search(g, Layout, member, q) == SearchType(g, Layout, member, parent)
      decreases QueueWeight(g, Layout, q)
    {
      var cur := q[0];
      var hit, pushed := ScanChildren(g, cur, member);
      if hit.Some? {
        HeadDeclares(g, parent, member, q);
        var child := Children(g, cur.ty)[hit.value];
        if ByteOffset(child.loc).None? { return None; }
        return Some(Located(cur.off + ByteOffset(child.loc).value, Strip(g, child.ty)));
      }
      HeadSkipped(g, member, q);
      q := q[1..] + pushed;
    }
    Exhausted(g, parent, member);
    r := None;
  }

  // ================= paths of members =================

  function PathOffset(g: Graph, t: TypeId, path: seq<string>): Option<nat>
    requires t < |g.dies|
    decreases |path|
  {
    if path == [] then Some(0)
    else
      var m := LayoutMember(g, t, path[0]);
      if m.None? then None
      else
        var rest := PathOffset(g, m.value.ty, path[1..]);
        if rest.None? then None else Some(m.value.off + rest.value)
  }

  /** The members a path names, each in the type of the one before. */
  ghost predicate Leads(g: Graph, t: TypeId, path: seq<string>, ats: seq<Located>)
    requires t < |g.dies|
    decreases |path|
  {
    && |ats| == |path|
    && (path != [] ==>
          ats[0].ty < |g.dies| && LayoutMember(g, t, path[0]) == Some(ats[0]) && Leads(g, ats[0].ty, path[1..], ats[1..]))
  }

  function Total(ats: seq<Located>): nat {
    if ats == [] then 0 else ats[0].off + Total(ats[1..])
  }

  lemma LeadsFirst(g: Graph, t: TypeId, path: seq<string>, ats: seq<Located>)
    requires t < |g.dies| && path != [] && Leads(g, t, path, ats)
    ensures ats != [] && ats[0].ty < |g.dies| && Leads(g, ats[0].ty, path[1..], ats[1..])
    ensures LayoutMember(g, t, path[0]) == Some(ats[0]) && Total(ats) == ats[0].off + Total(ats[1..])
  {
  }

  lemma {:induction false} LeadsToOffset(g: Graph, t: TypeId, path: seq<string>, ats: seq<Located>)
    requires t < |g.dies| && Leads(g, t, path, ats)
    ensures PathOffset(g, t, path) == Some(Total(ats))
    decreases |path|
  {
    if path != [] {
      LeadsFirst(g, t, path, ats);
      assert PathOffset(g, ats[0].ty, path[1..]) == Some(Total(ats[1..])) by { LeadsToOffset(g, ats[0].ty, path[1..], ats[1..]); }
      assert PathOffset(g, t, path) == Beyond(ats[0].off, PathOffset(g, ats[0].ty, path[1..])) by {
        assert path == [path[0]] + path[1..];
        PathOffsetCons(g, t, path[0], path[1..]);
      }
    }
  }

  lemma {:induction false} OffsetLeads(g: Graph, t: TypeId, path: seq<string>) returns (ats: seq<Located>)
    requires t < |g.dies| && PathOffset(g, t, path).Some?
    ensures Leads(g, t, path, ats) && PathOffset(g, t, path) == Some(Total(ats))
    decreases |path|
  {
    if path == [] {
      ats := [];
    } else {
      var at := LayoutMember(g, t, path[0]).value;
      var rest := OffsetLeads(g, at.ty, path[1..]);
      ats := [at] + rest;
      assert ats[1..] == rest;
    }
  }

  /** A path has an offset exactly when each of its names is found where the ones before lead, and
      then it is the sum of theirs. */
  lemma PathOffsetIff(g: Graph, t: TypeId, path: seq<string>, off: nat)
    requires t < |g.dies|
    ensures PathOffset(g, t, path) == Some(off) <==> exists ats :: Leads(g, t, path, ats) && Total(ats) == off
  {
    if ats :| Leads(g, t, path, ats) && Total(ats) == off { LeadsToOffset(g, t, path, ats); }
    if PathOffset(g, t, path) == Some(off) { var ats := OffsetLeads(g, t, path); }
  }

  /** A path's offset when its first steps, worth `total`, are already taken. */
  function Beyond(total: nat, rest: Option<nat>): Option<nat> {
    if rest.None? then None else Some(total + rest.value)
  }

  lemma PathOffsetCons(g: Graph, t: TypeId, name: string, rest: seq<string>)
    requires t < |g.dies|
    ensures var m := LayoutMember(g, t, name);
            PathOffset(g, t, [name] + rest)
            == if m.None? then None else Beyond(m.value.off, PathOffset(g, m.value.ty, rest))
  {
    var path := [name] + rest;
    assert path != [] && path[0] == name && path[1..] == rest;
  }

  lemma BeyondTwice(a: nat, b: nat, rest: Option<nat>)
    ensures Beyond(a, Beyond(b, rest)) == Beyond(a + b, rest)
  {
  }

  lemma PathOffsetStep(g: Graph, t: TypeId, path: seq<string>, i: nat, total: nat)
    requires t < |g.dies| && i < |path|
    ensures var m := LayoutMember(g, t, path[i]);
            Beyond(total, PathOffset(g, t, path[i..]))
            == if m.None? then None else Beyond(total + m.value.off, PathOffset(g, m.value.ty, path[i + 1..]))
  {
    var m := LayoutMember(g, t, path[i]);
    assert path[i..] == [path[i]] + path[i + 1..];
    PathOffsetCons(g, t, path[i], path[i + 1..]);
    if m.Some? { BeyondTwice(total, m.value.off, PathOffset(g, m.value.ty, path[i + 1..])); }
  }

  /** The loop of resolve_member_offset. */
  method SumOffsets(g: Graph, t: TypeId, path: seq<string>) returns (r: Option<nat>)
    requires t < |g.dies|
    ensures r == PathOffset(g, t, path)
  {
    var current: TypeId := t;
    var total: nat := 0;
    var i := 0;
    ghost var meant := PathOffset(g, t, path);
    assert path[0..] == path;
    while i < |path|
      invariant 0 <= i <= |path| && current < |g.dies|
      invariant meant == Beyond(total, PathOffset(g, current, path[i..]))
    {
      var m := FindMemberOffsetIn(g, current, path[i]);
      PathOffsetStep(g, current, path, i, total);
      if m.None? { return None; }
      assert meant == Beyond(total + m.value.off, PathOffset(g, m.value.ty, path[i + 1..]));
      total := total + m.value.off;
      current := m.value.ty;
      i := i + 1;
    }
    assert path[i..] == [];
    r := Some(total);
  }

  /** resolve_member_offset, for a type already looked up and peeled.  Its int result is the offset
      exactly when the path resolves to less than 2^31; an offset from 2^31 up comes out negative, which
      callers take for "not found". */
  method ResolveMemberOffset(g: Graph, t: TypeId, path: seq<string>) returns (r: int)
    requires t < |g.dies|
    ensures r >= 0 <==> path != [] && PathOffset(g, t, path).Some? && PathOffset(g, t, path).value < 0x8000_0000
    ensures r >= 0 ==> PathOffset(g, t, path) == Some(r)
  {
    if path == [] { return -1; }
    var sum := SumOffsets(g, t, path);
    if sum.None? { return -1; }
    var total := sum.value;
    if total > 0xffff_ffff { return -1; }
    r := Int32(total);
  }
}
