/** Where members are, said of the children themselves: what a child lets one see, what is reached
    that way, and which member comes first. */
module MemberRelation {
  import opened Words
  import opened TypeGraph

  /** A location that names a byte. */
  predicate Sits(loc: Place, off: nat) {
    loc == At(off) || (loc.Start? && off == 0)
  }

  /** Below its typedefs and qualifiers t is u. */
  predicate Peels(g: Graph, t: TypeId, u: TypeId)
    requires t < |g.dies|
    decreases g.depth[t]
  {
    assert DieOk(g, t);
    if g.dies[t].Alias? && g.dies[t].of.Some? then Peels(g, g.dies[t].of.value, u) else u == t
  }

  /** The members of u, at offset off, count as those of the type with child c: u is a base class,
      or, when the layout is asked for, the record an unnamed member is.  The search for inherited
      members takes base classes as they are and one without a byte offset to be at zero. */
  predicate SeenAt(g: Graph, mode: Mode, c: Child, u: TypeId, off: nat) {
    match c
    case Inheritance(base, loc) =>
      if mode.Inherited? then base == Some(u) && (Sits(loc, off) || (loc.Bits? && off == 0))
      else base.Some? && base.value < |g.dies| && Peels(g, base.value, u) && Sits(loc, off)
    case Member(name, loc, ty) =>
      && mode.Layout? && name.None? && Sits(loc, off)
      && ty < |g.dies| && Peels(g, ty, u) && u < |g.dies| && g.dies[u].Record?
    case OtherChild => false
  }

  predicate SeenAtChild(g: Graph, mode: Mode, t: TypeId, i: nat, u: TypeId, off: nat)
    requires t < |g.dies|
  {
    g.dies[t].Record? && i < |g.dies[t].children| && SeenAt(g, mode, g.dies[t].children[i], u, off)
  }

  /** Through the given children, one in the other, u is seen at offset off of t. */
  ghost predicate Reached(g: Graph, mode: Mode, t: TypeId, path: seq<nat>, u: TypeId, off: nat)
    requires t < |g.dies|
    decreases |path|
  {
    if path == [] then u == t && off == 0
    else
      exists v: TypeId, o: nat | v < |g.dies| && o <= off ::
        SeenAtChild(g, mode, t, path[0], v, o) && Reached(g, mode, v, path[1..], u, off - o)
  }

  /** m is the first child of u with that name. */
  ghost predicate FirstNamed(g: Graph, u: TypeId, name: string, m: Child)
    requires u < |g.dies|
  {
    && g.dies[u].Record?
    && exists i ::
         && 0 <= i < |g.dies[u].children| && g.dies[u].children[i] == m && m.Member? && m.name == Some(name)
         && forall j | 0 <= j < i :: !(g.dies[u].children[j].Member? && g.dies[u].children[j].name == Some(name))
  }

  /** The member m of that name is in t, in what is at offset off, reached through these children. */
  ghost predicate Contains(g: Graph, mode: Mode, t: TypeId, name: string, path: seq<nat>, off: nat, m: Child)
    requires t < |g.dies|
  {
    exists u: TypeId | u < |g.dies| :: Reached(g, mode, t, path, u, off) && FirstNamed(g, u, name, m)
  }

  // ================= the same, as the search has it =================

  lemma {:induction false} PeelsIff(g: Graph, t: TypeId, u: TypeId)
    requires t < |g.dies|
    ensures Peels(g, t, u) <==> u == Strip(g, t)
    decreases g.depth[t]
  {
    assert DieOk(g, t);
    if g.dies[t].Alias? && g.dies[t].of.Some? { PeelsIff(g, g.dies[t].of.value, u); }
  }

  lemma SeenIff(g: Graph, mode: Mode, t: TypeId, i: nat, u: TypeId, off: nat)
    requires t < |g.dies|
    ensures SeenAtChild(g, mode, t, i, u, off) <==> i < |Children(g, t)| && EdgeOf(g, mode, t, i) == Some(Edge(i, u, off))
  {
    if i < |Children(g, t)| {
      assert DieOk(g, t);
      assert Children(g, t)[i] in Children(g, t);
      match Children(g, t)[i]
      case Inheritance(base, _) => if base.Some? { PeelsIff(g, base.value, u); }
      case Member(_, _, ty) => PeelsIff(g, ty, u);
      case OtherChild =>
    }
  }

  function Shifted(s: Option<Spot>, off: nat): Option<Spot> {
    if s.None? then None else Some(Spot(s.value.ty, off + s.value.off))
  }

  lemma AlongShifted(g: Graph, mode: Mode, at: Option<Spot>, off: nat, i: nat)
    requires at.Some? ==> at.value.ty < |g.dies|
    ensures Along(g, mode, Shifted(at, off), i) == Shifted(Along(g, mode, at, i), off)
  {
  }

  lemma {:induction false} FollowFromFront(g: Graph, mode: Mode, t: TypeId, i: nat, rest: seq<nat>)
    requires t < |g.dies|
    ensures i >= |Children(g, t)| || EdgeOf(g, mode, t, i).None? ==> Follow(g, mode, t, [i] + rest).None?
    ensures i < |Children(g, t)| && EdgeOf(g, mode, t, i).Some? ==>
              var e := EdgeOf(g, mode, t, i).value;
              Follow(g, mode, t, [i] + rest) == Shifted(Follow(g, mode, e.to, rest), e.off)
    decreases |rest|
  {
    if rest == [] {
      assert [i] + rest == [] + [i];
      FollowOneMore(g, mode, t, [], i);
    } else {
      var front, last := rest[..|rest| - 1], rest[|rest| - 1];
      assert rest == front + [last] && [i] + rest == ([i] + front) + [last];
      FollowFromFront(g, mode, t, i, front);
      FollowOneMore(g, mode, t, [i] + front, last);
      if i < |Children(g, t)| && EdgeOf(g, mode, t, i).Some? {
        var e := EdgeOf(g, mode, t, i).value;
        FollowOneMore(g, mode, e.to, front, last);
        AlongShifted(g, mode, Follow(g, mode, e.to, front), e.off, last);
      }
    }
  }

  lemma FollowFirst(g: Graph, mode: Mode, t: TypeId, path: seq<nat>, v: TypeId, o: nat, s: Spot)
    requires t < |g.dies| && path != [] && path[0] < |Children(g, t)|
    requires EdgeOf(g, mode, t, path[0]) == Some(Edge(path[0], v, o))
    requires v < |g.dies| && Follow(g, mode, v, path[1..]) == Some(s)
    ensures Follow(g, mode, t, path) == Some(Spot(s.ty, o + s.off))
  {
    FollowFromFront(g, mode, t, path[0], path[1..]);
    assert path == [path[0]] + path[1..];
  }

  lemma FirstOfPath(g: Graph, mode: Mode, t: TypeId, path: seq<nat>, u: TypeId, off: nat) returns (v: TypeId, o: nat)
    requires t < |g.dies| && path != [] && Reached(g, mode, t, path, u, off)
    ensures v < |g.dies| && o <= off && Reached(g, mode, v, path[1..], u, off - o)
    ensures path[0] < |Children(g, t)| && EdgeOf(g, mode, t, path[0]) == Some(Edge(path[0], v, o))
  {
    v, o :| v < |g.dies| && o <= off && SeenAtChild(g, mode, t, path[0], v, o) && Reached(g, mode, v, path[1..], u, off - o);
    SeenIff(g, mode, t, path[0], v, o);
  }

  lemma {:induction false} ReachedFollows(g: Graph, mode: Mode, t: TypeId, path: seq<nat>, u: TypeId, off: nat)
    requires t < |g.dies| && Reached(g, mode, t, path, u, off)
    ensures Follow(g, mode, t, path) == Some(Spot(u, off))
    decreases |path|
  {
    if path != [] {
      var v, o := FirstOfPath(g, mode, t, path, u, off);
      ReachedFollows(g, mode, v, path[1..], u, off - o);
      FollowFirst(g, mode, t, path, v, o, Spot(u, off - o));
    }
  }

  lemma {:induction false} FollowReaches(g: Graph, mode: Mode, t: TypeId, path: seq<nat>, u: TypeId, off: nat)
    requires t < |g.dies| && Follow(g, mode, t, path) == Some(Spot(u, off))
    ensures Reached(g, mode, t, path, u, off)
    decreases |path|
  {
    if path != [] {
      FollowFromFront(g, mode, t, path[0], path[1..]);
      assert path == [path[0]] + path[1..];
      var e := EdgeOf(g, mode, t, path[0]).value;
      SeenIff(g, mode, t, path[0], e.to, e.off);
      FollowReaches(g, mode, e.to, path[1..], u, off - e.off);
    }
  }

  lemma ReachedIff(g: Graph, mode: Mode, t: TypeId, path: seq<nat>, u: TypeId, off: nat)
    requires t < |g.dies|
    ensures Reached(g, mode, t, path, u, off) <==> Follow(g, mode, t, path) == Some(Spot(u, off))
  {
    if Reached(g, mode, t, path, u, off) { ReachedFollows(g, mode, t, path, u, off); }
    if Follow(g, mode, t, path) == Some(Spot(u, off)) { FollowReaches(g, mode, t, path, u, off); }
  }

  lemma FirstNamedIff(g: Graph, u: TypeId, name: string, m: Child)
    requires u < |g.dies|
    ensures FirstNamed(g, u, name, m) <==> Declares(g, u, name) && Children(g, u)[MemberIndex(Children(g, u), name).value] == m
  {
    var cs := Children(g, u);
    if FirstNamed(g, u, name, m) {
      var i :| 0 <= i < |cs| && cs[i] == m && m.Member? && m.name == Some(name)
               && forall j | 0 <= j < i :: !(cs[j].Member? && cs[j].name == Some(name));
      assert cs[i] in cs;
    }
  }

  lemma ContainsIff(g: Graph, mode: Mode, t: TypeId, name: string, path: seq<nat>, off: nat, m: Child)
    requires t < |g.dies|
    ensures Contains(g, mode, t, name, path, off, m)
            <==> LeadsToMember(g, mode, t, name, path)
                 && var s := Follow(g, mode, t, path).value;
                    s.off == off && Children(g, s.ty)[MemberIndex(Children(g, s.ty), name).value] == m
  {
    forall u: TypeId | u < |g.dies|
      ensures Reached(g, mode, t, path, u, off) && FirstNamed(g, u, name, m)
              <==> Follow(g, mode, t, path) == Some(Spot(u, off)) && Declares(g, u, name)
                   && Children(g, u)[MemberIndex(Children(g, u), name).value] == m
    {
      ReachedIff(g, mode, t, path, u, off);
      FirstNamedIff(g, u, name, m);
    }
  }

  /** Of all members of that name the first: by depth, then by the children on the way. */
  ghost predicate FirstMember(g: Graph, mode: Mode, t: TypeId, name: string, path: seq<nat>, off: nat, m: Child)
    requires t < |g.dies|
  {
    && Contains(g, mode, t, name, path, off, m)
    && forall p, o, c | Contains(g, mode, t, name, p, o, c) :: p == path || Precedes(path, p)
  }
}
