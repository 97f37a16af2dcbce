/** Member paths: compiled by translate_fields into (offset, pointer) pairs, interpreted by
    fetch_var_member_addr over user memory, and what a path means in the source language. */
module VarPath {
  import opened Words
  import opened TypeGraph
  import opened MemberRelation
  import opened MemberOffset

  /** One element of a probe's variable path after the variable itself. */
  datatype Token = Name(member: string) | Cast(typeName: string)

  datatype Field = Field(offset: int, pointer: bool)

  datatype VarLocation = VarLocation(reg: int, offset: int, stack: bool)

  /** fields[0] stands for the variable itself. */
  datatype VarField = VarField(loc: VarLocation, fields: seq<Field>)

  type Memory = U64 -> U64

  predicate IsPointer(g: Graph, t: TypeId)
    requires t < |g.dies|
  {
    g.dies[Strip(g, t)].Pointer? || g.dies[Strip(g, t)].Reference?
  }

  // ================= member lookup =================

  /** A member found through base classes: its offset in the class declaring it, the offset of that
      class in the type searched, and its type. */
  datatype ClassHit = ClassHit(base: nat, off: nat, ty: TypeId)

  function ClassMember(g: Graph, t: TypeId, name: string): (r: Option<ClassHit>)
    requires t < |g.dies|
    ensures r.Some? ==> r.value.ty < |g.dies|
  {
    SearchFindsFirst(g, Inherited, t, name);
    match SearchType(g, Inherited, name, t)
    case Hit(n) =>
      MemberTypeInGraph(g, n.ty, name);
      var m := MemberOf(g, n.ty, name);
      if m.loc.At? then Some(ClassHit(n.off, m.loc.off, m.ty)) else None
    case _ => None
  }

  /** Where the search for an inherited member ends: at a class that has the member or no children. */
  ghost predicate EndsAt(g: Graph, t: TypeId, name: string, path: seq<nat>, u: TypeId, base: nat)
    requires t < |g.dies|
  {
    && u < |g.dies| && Reached(g, Inherited, t, path, u, base)
    && (g.dies[u].Record? && g.dies[u].children != [] ==> exists m :: FirstNamed(g, u, name, m))
  }

  ghost predicate EndsFirst(g: Graph, t: TypeId, name: string, path: seq<nat>, u: TypeId, base: nat)
    requires t < |g.dies|
  {
    EndsAt(g, t, name, path, u, base) && forall p, v: TypeId, o: nat | EndsAt(g, t, name, p, v, o) :: p == path || Precedes(path, p)
  }

  /** h is the member in the first class, in the order of depth and then of the base classes, that
      has it or has no children at all, and it has a byte location of its own. */
  ghost predicate IsInherited(g: Graph, t: TypeId, name: string, h: ClassHit)
    requires t < |g.dies|
  {
    exists path, u: TypeId | u < |g.dies| ::
      EndsFirst(g, t, name, path, u, h.base) && FirstNamed(g, u, name, Member(Some(name), At(h.off), h.ty))
  }

  lemma EndsIff(g: Graph, t: TypeId, name: string, path: seq<nat>, u: TypeId, base: nat)
    requires t < |g.dies|
    ensures EndsAt(g, t, name, path, u, base)
            <==> Follow(g, Inherited, t, path) == Some(Spot(u, base)) && Stops(g, Inherited, u, name)
  {
    ReachedIff(g, Inherited, t, path, u, base);
    if u < |g.dies| {
      forall m ensures FirstNamed(g, u, name, m) <==> Declares(g, u, name) && MemberOf(g, u, name) == m {
        FirstNamedIff(g, u, name, m);
      }
      if Declares(g, u, name) { assert FirstNamed(g, u, name, MemberOf(g, u, name)); }
    }
  }

  lemma FirstEndsFirst(g: Graph, t: TypeId, name: string, n: Node)
    requires t < |g.dies| && InPlace(g, Inherited, t, n) && First(g, Inherited, t, name, n.path)
    ensures EndsFirst(g, t, name, n.path, n.ty, n.off)
  {
    EndsIff(g, t, name, n.path, n.ty, n.off);
    forall p, v: TypeId, o: nat | EndsAt(g, t, name, p, v, o) ensures p == n.path || Precedes(n.path, p) {
      EndsIff(g, t, name, p, v, o);
      assert LeadsToStop(g, Inherited, t, name, p);
    }
  }

  lemma OneEnd(g: Graph, t: TypeId, name: string, p: seq<nat>, u: TypeId, base: nat, q: seq<nat>, v: TypeId, o: nat)
    requires t < |g.dies| && EndsFirst(g, t, name, p, u, base) && EndsFirst(g, t, name, q, v, o)
    ensures u == v && base == o
  {
    if Precedes(p, q) && Precedes(q, p) { NotEarlierBack(p, q); }
    EndsIff(g, t, name, p, u, base);
    EndsIff(g, t, name, q, v, o);
  }

  /** Where the search stops first decides. */
  lemma StoppedAt(g: Graph, t: TypeId, name: string, n: Node, h: ClassHit)
    requires t < |g.dies| && EndsFirst(g, t, name, n.path, n.ty, n.off)
    ensures n.ty < |g.dies|
    ensures IsInherited(g, t, name, h)
            <==> Declares(g, n.ty, name) && n.off == h.base && MemberOf(g, n.ty, name) == Member(Some(name), At(h.off), h.ty)
  {
    FirstNamedIff(g, n.ty, name, Member(Some(name), At(h.off), h.ty));
    if IsInherited(g, t, name, h) {
      var path, u: TypeId :| u < |g.dies| && EndsFirst(g, t, name, path, u, h.base)
                     && FirstNamed(g, u, name, Member(Some(name), At(h.off), h.ty));
      OneEnd(g, t, name, n.path, n.ty, n.off, path, u, h.base);
    }
  }

  /** A member is found exactly when there is such a one, and where it is. */
  lemma ClassMemberIff(g: Graph, t: TypeId, name: string, h: ClassHit)
    requires t < |g.dies|
    ensures ClassMember(g, t, name) == Some(h) <==> IsInherited(g, t, name, h)
  {
    SearchFindsFirst(g, Inherited, t, name);
    match SearchType(g, Inherited, name, t)
    case Hit(n) =>
      MemberTypeInGraph(g, n.ty, name);
      FirstEndsFirst(g, t, name, n);
      StoppedAt(g, t, name, n, h);
    case Barren(n) =>
      FirstEndsFirst(g, t, name, n);
      StoppedAt(g, t, name, n, h);
    case Absent =>
      forall p, u: TypeId, o: nat ensures !EndsAt(g, t, name, p, u, o) {
        EndsIff(g, t, name, p, u, o);
        assert !LeadsToStop(g, Inherited, t, name, p);
      }
  }

  /** The inner loop of find_class_member. */
  method ScanBases(g: Graph, cur: Node, member: string) returns (hit: Option<nat>, pushed: seq<Node>)
    requires cur.ty < |g.dies|
    ensures hit == MemberIndex(Children(g, cur.ty), member)
    ensures hit.None? ==> pushed == Successors(g, Inherited, cur)
  {
    var cs := Children(g, cur.ty);
    pushed := [];
    var i := 0;
    ghost var es: seq<Edge> := [];
    while i < |cs|
      invariant 0 <= i <= |cs|
      invariant es == EdgesUpTo(g, Inherited, cur.ty, i) && pushed == Push(cur, es)
      invariant forall j | 0 <= j < i :: !(cs[j].Member? && cs[j].name == Some(member))
    {
      var child := cs[i];
      ghost var e := EdgeOf(g, Inherited, cur.ty, i);
      if child.Inheritance? && child.base.Some? {
        PushOneMore(cur, es, e.value);
        pushed := pushed + [Node(child.base.value, cur.off + ByteOffset(child.loc).GetOr(0), cur.path + [i])];
        es := es + [e.value];
      } else if child.Member? && child.name == Some(member) {
        assert cs[i] in cs;
        return Some(i), pushed;
      }
      i := i + 1;
    }
    hit := None;
  }

  /** find_class_member, with the location it reports.  A class without children among the bases
      ends the search, and so does a member without a byte location. */
  method FindClassMember(g: Graph, t: TypeId, member: string) returns (r: Option<ClassHit>)
    requires t < |g.dies|
    ensures r == ClassMember(g, t, member)
  {
    SearchFindsFirst(g, Inherited, t, member);
    var q := [Node(t, 0, [])];
    while q != []
      invariant QueueOk(g, q)
      invariant Search(g, Inherited, member, q) == SearchType(g, Inherited, member, t)
      decreases QueueWeight(g, Inherited, q)
    {
      var cur := q[0];
      if Children(g, cur.ty) == [] { return None; }
      var hit, pushed := ScanBases(g, cur, member);
      if hit.Some? {
        var child := Children(g, cur.ty)[hit.value];
        MemberTypeInGraph(g, cur.ty, member);
        if !child.loc.At? { return None; }
        return Some(ClassHit(cur.off, child.loc.off, child.ty));
      }
      SuccessorsWeighLess(g, Inherited, q);
      q := q[1..] + pushed;
    }
    r := None;
  }

  // ================= compiling =================

  /** One step of a path: pointers followed, then the member's offset in its own class, found `base`
      bytes into the type it is looked up in. */
  datatype Hop = Hop(derefs: nat, base: nat, off: nat)

  /** The type whose members are looked up: the definition, for a declaration. */
  function Definition(g: Graph, t: TypeId): (r: Option<TypeId>)
    requires t < |g.dies| && g.dies[t].Record?
    ensures r.Some? ==> r.value < |g.dies|
  {
    if !g.dies[t].declaration then Some(t) else if t in g.definitions then Some(g.definitions[t]) else None
  }

  function Prepend(hops: seq<Hop>, rest: Option<seq<Hop>>): Option<seq<Hop>> {
    if rest.None? then None else Some(hops + rest.value)
  }

  lemma PrependTwice(a: seq<Hop>, b: seq<Hop>, rest: Option<seq<Hop>>)
    ensures Prepend(a, Prepend(b, rest)) == Prepend(a + b, rest)
    ensures Prepend([], rest) == rest
    ensures Prepend(a, Some([])) == Some(a)
  {
    assert a + [] == a;
    if rest.Some? {
      assert a + (b + rest.value) == (a + b) + rest.value;
      assert [] + rest.value == rest.value;
    }
  }

  /** The hops of a path from a type reached by `derefs` pointers since the last member. */
  function Compile(g: Graph, t: TypeId, derefs: nat, path: seq<Token>): (r: Option<seq<Hop>>)
    requires t < |g.dies|
    decreases |path|, g.depth[t]
  {
    if path == [] then Some([])
    else
      match path[0]
      case Cast(name) =>
        if IsPointer(g, t) && name in g.names then Compile(g, g.names[name], 1, path[1..]) else None
      case Name(member) =>
        assert DieOk(g, t);
        match g.dies[t]
        case Alias(u) => if u.None? then None else Compile(g, u.value, derefs, path)
        case Reference(u) => Compile(g, u, derefs + 1, path)
        case Pointer(to) => if to.None? then None else Compile(g, to.value, derefs + 1, path)
        case Record(_, _) =>
          var r := Definition(g, t);
          if r.None? then None
          else
            var h := ClassMember(g, r.value, member);
            if h.None? then None
            else Prepend([Hop(derefs, h.value.base, h.value.off)], Compile(g, h.value.ty, 0, path[1..]))
        case _ => None
  }

  function Emit(hops: seq<Hop>): (fs: seq<Field>)
    ensures |fs| == |hops|
    ensures forall i | 0 <= i < |hops| :: fs[i] == Field(Int32(hops[i].off), hops[i].derefs > 0)
  {
    seq(|hops|, i requires 0 <= i < |hops| => Field(Int32(hops[i].off), hops[i].derefs > 0))
  }

  lemma EmitOne(hops: seq<Hop>, hop: Hop)
    ensures Emit(hops + [hop]) == Emit(hops) + [Field(Int32(hop.off), hop.derefs > 0)]
  {
  }

  lemma CompileMember(g: Graph, t: TypeId, derefs: nat, path: seq<Token>, hops: seq<Hop>)
    requires t < |g.dies| && path != [] && path[0].Name? && g.dies[t].Record? && Definition(g, t).Some?
    requires ClassMember(g, Definition(g, t).value, path[0].member).Some?
    ensures var h := ClassMember(g, Definition(g, t).value, path[0].member).value;
            Prepend(hops, Compile(g, t, derefs, path))
            == Prepend(hops + [Hop(derefs, h.base, h.off)], Compile(g, h.ty, 0, path[1..]))
  {
    assert DieOk(g, t);
    var h := ClassMember(g, Definition(g, t).value, path[0].member).value;
    PrependTwice(hops, [Hop(derefs, h.base, h.off)], Compile(g, h.ty, 0, path[1..]));
  }

  /** With part of the path still to go, a qualifier of void is reached. */
  predicate Hangs(g: Graph, t: TypeId, path: seq<Token>)
    requires t < |g.dies|
    decreases |path|, g.depth[t]
  {
    path != []
    && match path[0]
       case Cast(name) =>
         g.dies[Strip(g, t)].Alias? || (IsPointer(g, t) && name in g.names && Hangs(g, g.names[name], path[1..]))
       case Name(member) =>
         assert DieOk(g, t);
         match g.dies[t]
         case Alias(u) => u.None? || Hangs(g, u.value, path)
         case Reference(u) => Hangs(g, u, path)
         case Pointer(to) => to.Some? && Hangs(g, to.value, path)
         case Record(_, _) =>
           && Definition(g, t).Some?
           && ClassMember(g, Definition(g, t).value, member).Some?
           && Hangs(g, ClassMember(g, Definition(g, t).value, member).value.ty, path[1..])
         case _ => false
  }

  // ---- one step of either ----

  lemma ThroughAlias(g: Graph, t: TypeId, derefs: nat, path: seq<Token>)
    requires t < |g.dies| && path != [] && path[0].Name? && g.dies[t].Alias? && g.dies[t].of.Some?
    ensures var u := g.dies[t].of.value;
            u < |g.dies| && Compile(g, t, derefs, path) == Compile(g, u, derefs, path) && Hangs(g, t, path) == Hangs(g, u, path)
  {
    assert DieOk(g, t);
  }

  lemma ThroughReference(g: Graph, t: TypeId, derefs: nat, path: seq<Token>)
    requires t < |g.dies| && path != [] && path[0].Name? && g.dies[t].Reference?
    ensures var u := g.dies[t].target;
            u < |g.dies| && Compile(g, t, derefs, path) == Compile(g, u, derefs + 1, path) && Hangs(g, t, path) == Hangs(g, u, path)
  {
    assert DieOk(g, t);
  }

  lemma ThroughPointer(g: Graph, t: TypeId, derefs: nat, path: seq<Token>)
    requires t < |g.dies| && path != [] && path[0].Name? && g.dies[t].Pointer? && g.dies[t].to.Some?
    ensures var u := g.dies[t].to.value;
            u < |g.dies| && Compile(g, t, derefs, path) == Compile(g, u, derefs + 1, path) && Hangs(g, t, path) == Hangs(g, u, path)
  {
    assert DieOk(g, t);
  }

  lemma ThroughCast(g: Graph, t: TypeId, derefs: nat, path: seq<Token>)
    requires t < |g.dies| && path != [] && path[0].Cast? && IsPointer(g, t) && path[0].typeName in g.names
    ensures var u := g.names[path[0].typeName];
            u < |g.dies| && Compile(g, t, derefs, path) == Compile(g, u, 1, path[1..]) && Hangs(g, t, path) == Hangs(g, u, path[1..])
  {
  }

  lemma ThroughMember(g: Graph, t: TypeId, derefs: nat, path: seq<Token>, hops: seq<Hop>)
    requires t < |g.dies| && path != [] && path[0].Name? && g.dies[t].Record? && Definition(g, t).Some?
    requires ClassMember(g, Definition(g, t).value, path[0].member).Some?
    ensures var h := ClassMember(g, Definition(g, t).value, path[0].member).value;
            && Prepend(hops, Compile(g, t, derefs, path))
               == Prepend(hops + [Hop(derefs, h.base, h.off)], Compile(g, h.ty, 0, path[1..]))
            && Hangs(g, t, path) == Hangs(g, h.ty, path[1..])
  {
    CompileMember(g, t, derefs, path, hops);
    assert DieOk(g, t);
  }

  /** What becomes of a call of translate_fields.  Looking for the type below a qualifier of void
      leaves it where it is, for ever. */
  datatype Translation = Accepted(fields: seq<Field>) | Rejected | Endless

  /** The loop in front of a cast, up to where it ends or gets stuck. */
  method Peel(g: Graph, t: TypeId) returns (u: TypeId)
    requires t < |g.dies|
    ensures u == Strip(g, t)
  {
    u := t;
    while g.dies[u].Alias? && g.dies[u].of.Some?
      invariant u < |g.dies| && Strip(g, u) == Strip(g, t)
      decreases g.depth[u]
    {
      assert DieOk(g, u);
      u := g.dies[u].of.value;
    }
  }

  /** The member, looked for in the definition of a declared type. */
  method FindInDefinition(g: Graph, t: TypeId, member: string) returns (h: Option<ClassHit>)
    requires t < |g.dies| && g.dies[t].Record?
    ensures h == if Definition(g, t).None? then None else ClassMember(g, Definition(g, t).value, member)
  {
    var def := t;
    if g.dies[t].declaration {
      if t !in g.definitions { return None; }
      def := g.definitions[t];
    }
    h := FindClassMember(g, def, member);
  }

  /** Where translate_fields is: the token, the type and field at hand, and the fields so far. */
  datatype Progress = Progress(i: nat, typedie: TypeId, field: Field, res: seq<Field>)

  /** One pass of its loop: the type is looked through or dereferenced, or the token is used up, or
      the call is over. */
  method Step(g: Graph, path: seq<Token>, p: Progress, ghost derefs: nat, ghost hops: seq<Hop>)
    returns (over: Option<Translation>, q: Progress, ghost derefs': nat, ghost hops': seq<Hop>)
    requires p.i < |path| && p.typedie < |g.dies|
    requires p.field == Field(0, derefs > 0) && p.res == [Field(0, false)] + Emit(hops)
    ensures over.Some? ==>
              && !over.value.Accepted? && Compile(g, p.typedie, derefs, path[p.i..]).None?
              && (over.value.Endless? <==> Hangs(g, p.typedie, path[p.i..]))
    ensures over.None? ==>
              && p.i <= q.i <= |path| && q.typedie < |g.dies|
              && (q.i == p.i ==> g.depth[q.typedie] < g.depth[p.typedie])
              && q.field == Field(0, derefs' > 0) && q.res == [Field(0, false)] + Emit(hops')
              && Prepend(hops, Compile(g, p.typedie, derefs, path[p.i..]))
                 == Prepend(hops', Compile(g, q.typedie, derefs', path[q.i..]))
              && Hangs(g, p.typedie, path[p.i..]) == Hangs(g, q.typedie, path[q.i..])
  {
    ghost var rest := path[p.i..];
    var typedie := p.typedie;
    over, q, derefs', hops' := None, p, derefs, hops;
    assert rest[0] == path[p.i] && rest[1..] == path[p.i + 1..];
    assert DieOk(g, typedie);
    if path[p.i].Cast? {
      var peeled := Peel(g, typedie);
      if g.dies[peeled].Alias? { over := Some(Endless); return; }
      if !g.dies[peeled].Pointer? && !g.dies[peeled].Reference? { over := Some(Rejected); return; }
      if path[p.i].typeName !in g.names { over := Some(Rejected); return; }
      ThroughCast(g, typedie, derefs, rest);
      q := Progress(p.i + 1, g.names[path[p.i].typeName], p.field.(pointer := true), p.res);
      derefs' := 1;
      return;
    }
    match g.dies[typedie]
    case Alias(u) =>
      if u.None? { over := Some(Endless); return; }
      ThroughAlias(g, typedie, derefs, rest);
      q := p.(typedie := u.value);
    case Reference(u) =>
      ThroughReference(g, typedie, derefs, rest);
      q := p.(typedie := u, field := p.field.(pointer := true));
      derefs' := derefs + 1;
    case Pointer(to) =>
      if to.None? { over := Some(Rejected); return; }
      ThroughPointer(g, typedie, derefs, rest);
      q := p.(typedie := to.value, field := p.field.(pointer := true));
      derefs' := derefs + 1;
    case Record(_, _) =>
      var h := FindInDefinition(g, typedie, path[p.i].member);
      if h.None? { over := Some(Rejected); return; }
      ThroughMember(g, typedie, derefs, rest, hops);
      EmitOne(hops, Hop(derefs, h.value.base, h.value.off));
      q := Progress(p.i + 1, h.value.ty, Field(0, false), p.res + [p.field.(offset := Int32(h.value.off))]);
      derefs', hops' := 0, hops + [Hop(derefs, h.value.base, h.value.off)];
    case _ =>
      over := Some(Rejected);
  }

  /** translate_fields, for the tokens after the variable.  It accepts exactly the paths that
      compile, and emits one field per hop; several pointers in a hop become one flag, the offsets
      of base classes are not there, and a member's offset is stored into an int. */
  method TranslateFields(g: Graph, root: TypeId, path: seq<Token>) returns (r: Translation)
    requires root < |g.dies|
    ensures r.Endless? <==> Hangs(g, root, path)
    ensures r.Accepted? <==> Compile(g, root, 0, path).Some?
    ensures r.Accepted? ==> r.fields == [Field(0, false)] + Emit(Compile(g, root, 0, path).value)
  {
    var p := Progress(0, root, Field(0, false), [Field(0, false)]);
    ghost var hops: seq<Hop> := [];
    ghost var derefs: nat := 0;
    assert path[0..] == path;
    PrependTwice([], [], Compile(g, root, 0, path));
    while p.i < |path|
      invariant p.i <= |path| && p.typedie < |g.dies|
      invariant p.field == Field(0, derefs > 0) && p.res == [Field(0, false)] + Emit(hops)
      invariant Compile(g, root, 0, path) == Prepend(hops, Compile(g, p.typedie, derefs, path[p.i..]))
      invariant Hangs(g, root, path) == Hangs(g, p.typedie, path[p.i..])
      decreases |path| - p.i, g.depth[p.typedie]
    {
      var over;
      over, p, derefs, hops := Step(g, path, p, derefs, hops);
      if over.Some? { return over.value; }
    }
    assert path[p.i..] == [];
    PrependTwice(hops, [], None);
    r := Accepted(p.res);
  }

  /** A member of a `const void`, if a probe ever asked for one. */
  lemma VoidHappens(member: string)
    ensures var g := Types([Alias(None)], map[], map[], [0]);
            Valid(g) && Hangs(g, 0, [Name(member)])
  {
  }
}
