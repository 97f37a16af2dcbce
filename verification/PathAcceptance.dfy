/** Which member paths are accepted. */
module PathAcceptance {
  import opened Words
  import opened TypeGraph
  import opened MemberRelation
  import opened MemberOffset
  import opened VarPath
  import opened PathMeaning

  // ================= on the graph alone =================

  /** Each token can be followed from where the ones before it lead: a cast from a pointer, to a type
      that has a name; a member through whatever names, pointers and references, in a record or in
      the definition of one that is only declared. */
  ghost predicate Accepts(g: Graph, t: TypeId, path: seq<Token>)
    requires t < |g.dies|
    decreases |path|, g.depth[t], 1
  {
    path != [] ==>
      match path[0]
      case Cast(name) => Points(g, t) && name in g.names && Accepts(g, g.names[name], path[1..])
      case Name(_) =>
        assert DieOk(g, t);
        match g.dies[t]
        case Alias(u) => u.Some? && Accepts(g, u.value, path)
        case Reference(u) => Accepts(g, u, path)
        case Pointer(to) => to.Some? && Accepts(g, to.value, path)
        case Record(false, _) => AcceptsIn(g, t, path)
        case Record(true, _) => t in g.definitions && AcceptsIn(g, g.definitions[t], path)
        case _ => false
  }

  ghost predicate AcceptsIn(g: Graph, def: TypeId, path: seq<Token>)
    requires def < |g.dies| && path != [] && path[0].Name?
    decreases |path|, 0, 0
  {
    exists h: ClassHit | h.ty < |g.dies| :: IsInherited(g, def, path[0].member, h) && Accepts(g, h.ty, path[1..])
  }

  /** The types t is another name for end in a void with a qualifier. */
  predicate NamesVoid(g: Graph, t: TypeId)
    requires t < |g.dies|
    decreases g.depth[t]
  {
    assert DieOk(g, t);
    g.dies[t].Alias? && (g.dies[t].of.Some? ==> NamesVoid(g, g.dies[t].of.value))
  }

  /** A token is looked for in such a type. */
  ghost predicate Stuck(g: Graph, t: TypeId, path: seq<Token>)
    requires t < |g.dies|
    decreases |path|, g.depth[t], 1
  {
    path != []
    && match path[0]
       case Cast(name) => NamesVoid(g, t) || (Points(g, t) && name in g.names && Stuck(g, g.names[name], path[1..]))
       case Name(_) =>
         assert DieOk(g, t);
         match g.dies[t]
         case Alias(u) => u.Some? ==> Stuck(g, u.value, path)
         case Reference(u) => Stuck(g, u, path)
         case Pointer(to) => to.Some? && Stuck(g, to.value, path)
         case Record(false, _) => StuckIn(g, t, path)
         case Record(true, _) => t in g.definitions && StuckIn(g, g.definitions[t], path)
         case _ => false
  }

  ghost predicate StuckIn(g: Graph, def: TypeId, path: seq<Token>)
    requires def < |g.dies| && path != [] && path[0].Name?
    decreases |path|, 0, 0
  {
    exists h: ClassHit | h.ty < |g.dies| :: IsInherited(g, def, path[0].member, h) && Stuck(g, h.ty, path[1..])
  }

  lemma {:induction false} NamesVoidIff(g: Graph, t: TypeId)
    requires t < |g.dies|
    ensures NamesVoid(g, t) <==> g.dies[Strip(g, t)].Alias?
    decreases g.depth[t]
  {
    assert DieOk(g, t);
    if g.dies[t].Alias? && g.dies[t].of.Some? { NamesVoidIff(g, g.dies[t].of.value); }
  }

  lemma AcceptsInIff(g: Graph, def: TypeId, path: seq<Token>)
    requires def < |g.dies| && path != [] && path[0].Name?
    ensures var h := ClassMember(g, def, path[0].member);
            && (AcceptsIn(g, def, path) <==> h.Some? && Accepts(g, h.value.ty, path[1..]))
            && (StuckIn(g, def, path) <==> h.Some? && Stuck(g, h.value.ty, path[1..]))
  {
    forall h: ClassHit ensures IsInherited(g, def, path[0].member, h) <==> ClassMember(g, def, path[0].member) == Some(h) {
      ClassMemberIff(g, def, path[0].member, h);
    }
  }

  /** A path compiles, from however many pointers, exactly when it is accepted, and the translation
      never ends exactly when it gets stuck. */
  lemma {:induction false} CompilesIff(g: Graph, t: TypeId, derefs: nat, path: seq<Token>)
    requires t < |g.dies|
    ensures Compile(g, t, derefs, path).Some? <==> Accepts(g, t, path)
    ensures Hangs(g, t, path) <==> Stuck(g, t, path)
    decreases |path|, 1, g.depth[t]
  {
    if path != [] {
      match path[0]
      case Cast(name) =>
        PointsIff(g, t);
        NamesVoidIff(g, t);
        if name in g.names { CompilesIff(g, g.names[name], 1, path[1..]); }
      case Name(member) =>
        assert DieOk(g, t);
        match g.dies[t]
        case Alias(u) => if u.Some? { CompilesIff(g, u.value, derefs, path); }
        case Reference(u) => CompilesIff(g, u, derefs + 1, path);
        case Pointer(to) => if to.Some? { CompilesIff(g, to.value, derefs + 1, path); }
        case Record(_, _) => RecordCompilesIff(g, t, derefs, path);
        case _ =>
    }
  }

  lemma {:induction false} RecordCompilesIff(g: Graph, t: TypeId, derefs: nat, path: seq<Token>)
    requires t < |g.dies| && g.dies[t].Record? && path != [] && path[0].Name?
    ensures Compile(g, t, derefs, path).Some? <==> Accepts(g, t, path)
    ensures Hangs(g, t, path) <==> Stuck(g, t, path)
    decreases |path|, 0, 0
  {
    assert DieOk(g, t);
    var def := Definition(g, t);
    if def.Some? {
      AcceptsInIff(g, def.value, path);
      var h := ClassMember(g, def.value, path[0].member);
      if h.Some? { CompilesIff(g, h.value.ty, 0, path[1..]); }
    }
  }

  // ================= against the source language =================

  /** The type named by the cast before a cast is itself a pointer. */
  predicate CastsPoint(g: Graph, path: seq<Token>) {
    forall i | 0 <= i < |path| - 1 && path[i].Cast? && path[i + 1].Cast? ::
      path[i].typeName in g.names ==> Points(g, g.names[path[i].typeName])
  }

  lemma CastsPointRest(g: Graph, path: seq<Token>)
    requires path != []
    ensures CastsPoint(g, path)
            <==> CastsPoint(g, path[1..])
                 && (|path| > 1 && path[0].Cast? && path[1].Cast? && path[0].typeName in g.names
                     ==> Points(g, g.names[path[0].typeName]))
  {
    forall i | 0 <= i < |path| - 1 ensures path[i + 1] == path[1..][i] {
    }
    if CastsPoint(g, path) {
      forall i | 0 <= i < |path[1..]| - 1 && path[1..][i].Cast? && path[1..][i + 1].Cast?
        ensures path[1..][i].typeName in g.names ==> Points(g, g.names[path[1..][i].typeName])
      {
        assert path[i + 1].Cast? && path[i + 2].Cast?;
      }
    } else {
      var i :| 0 <= i < |path| - 1 && path[i].Cast? && path[i + 1].Cast?
               && path[i].typeName in g.names && !Points(g, g.names[path[i].typeName]);
      if i > 0 { assert path[1..][i - 1].Cast? && path[1..][i - 1 + 1].Cast?; }
    }
  }

  /** A cast may not follow where the last one led, unless to a pointer. */
  predicate MayStart(g: Graph, ty: Ty, path: seq<Token>)
    requires ty.t < |g.dies|
  {
    ty.PointerTo? && path != [] && path[0].Cast? ==> Points(g, ty.t)
  }

  /** Translated are exactly the paths that have a meaning and cast twice in a row only from a type
      that is a pointer itself. */
  lemma {:induction false} TranslatedIff(g: Graph, mem: Memory, w: Where, ty: Ty, derefs: nat, path: seq<Token>)
    requires ty.t < |g.dies|
    ensures Compile(g, ty.t, derefs, path).Some?
            <==> Meaning(g, mem, w, ty, path).Some? && CastsPoint(g, path) && MayStart(g, ty, path)
    decreases |path|, if ty.PointerTo? then 1 else 0, g.depth[ty.t]
  {
    if path != [] {
      CastsPointRest(g, path);
      match path[0]
      case Cast(name) =>
        PointsIff(g, ty.t);
        if name in g.names { TranslatedIff(g, mem, w, PointerTo(g.names[name]), 1, path[1..]); }
      case Name(member) =>
        if ty.PointerTo? {
          TranslatedIff(g, mem, InMemory(Load(mem, w)), Plain(ty.t), derefs, path);
        } else {
          NamedIff(g, mem, w, ty.t, derefs, path);
        }
    }
  }

  lemma {:induction false} NamedIff(g: Graph, mem: Memory, w: Where, t: TypeId, derefs: nat, path: seq<Token>)
    requires t < |g.dies| && path != [] && path[0].Name?
    ensures Compile(g, t, derefs, path).Some? <==> Meaning(g, mem, w, Plain(t), path).Some? && CastsPoint(g, path)
    decreases |path|, 0, g.depth[t], 1
  {
    assert DieOk(g, t);
    match g.dies[t]
    case Alias(u) => if u.Some? { NamedIff(g, mem, w, u.value, derefs, path); }
    case Reference(u) => NamedIff(g, mem, InMemory(Load(mem, w)), u, derefs + 1, path);
    case Pointer(to) => if to.Some? { NamedIff(g, mem, InMemory(Load(mem, w)), to.value, derefs + 1, path); }
    case Record(_, _) => MemberIff(g, mem, w, t, derefs, path);
    case _ =>
  }

  lemma {:induction false} MemberIff(g: Graph, mem: Memory, w: Where, t: TypeId, derefs: nat, path: seq<Token>)
    requires t < |g.dies| && g.dies[t].Record? && path != [] && path[0].Name?
    ensures Compile(g, t, derefs, path).Some? <==> Meaning(g, mem, w, Plain(t), path).Some? && CastsPoint(g, path)
    decreases |path|, 0, 0, 0
  {
    assert DieOk(g, t);
    CastsPointRest(g, path);
    var def := Definition(g, t);
    if def.Some? && ClassMember(g, def.value, path[0].member).Some? {
      var h := ClassMember(g, def.value, path[0].member).value;
      TranslatedIff(g, mem, InMemory(Add64(Address(w), h.base + h.off)), Plain(h.ty), 0, path[1..]);
    }
  }

  // ================= witnesses =================

  /** A pointer to a class that is only declared, with its definition { int m at 8; }. */
  const DECLARED: Types := Types([Pointer(Some(1)), Record(true, []), Record(false, [Member(Some("m"), At(8), 3)]), Scalar],
                                 map[1 := 2], map["A" := 2], [1, 0, 1, 0])

  lemma DeclaredMember()
    ensures Valid(DECLARED) && ClassMember(DECLARED, 2, "m") == Some(ClassHit(0, 8, 3))
  {
    assert DieOk(DECLARED, 0) && DieOk(DECLARED, 1) && DieOk(DECLARED, 2) && DieOk(DECLARED, 3);
    var g: Graph := DECLARED;
    assert MemberIndex(Children(g, 2), "m") == Some(0) && MemberOf(g, 2, "m") == Children(g, 2)[0];
    assert SearchType(g, Inherited, "m", 2) == Hit(Node(2, 0, []));
  }

  /** A member of a class that is only declared is found in its definition. */
  lemma DeclarationHappens()
    ensures Valid(DECLARED)
    ensures Compile(DECLARED, 0, 0, [Name("m")]).Some? && Emit(Compile(DECLARED, 0, 0, [Name("m")]).value) == [Field(8, true)]
  {
    DeclaredMember();
    var path := [Name("m")];
    assert path[1..] == [] && [Hop(1, 0, 8)] + [] == [Hop(1, 0, 8)];
    assert Compile(DECLARED, 1, 1, path) == Some([Hop(1, 0, 8)]);
    assert Compile(DECLARED, 0, 0, path) == Compile(DECLARED, 1, 1, path);
  }

  /** A pointer cast twice has a member, and is not translated. */
  lemma CastTwiceHappens(mem: Memory, w: Where)
    ensures var path := [Cast("A"), Cast("A"), Name("m")];
            && Valid(DECLARED) && Compile(DECLARED, 0, 0, path).None?
            && Meaning(DECLARED, mem, w, Plain(0), path) == Some(Add64(Load(mem, w), 8))
  {
    DeclaredMember();
    var path, g := [Cast("A"), Cast("A"), Name("m")], DECLARED;
    var last := path[1..][1..];
    assert last == [Name("m")] && last[1..] == [];
    assert Meaning(g, mem, InMemory(Load(mem, w)), Plain(2), last)
        == Meaning(g, mem, InMemory(Add64(Load(mem, w), 0 + 8)), Plain(3), last[1..]);
    assert Meaning(g, mem, w, PointerTo(2), last) == Some(Add64(Load(mem, w), 8));
    assert Meaning(g, mem, w, PointerTo(2), path[1..]) == Meaning(g, mem, w, PointerTo(2), last);
    assert path[0].Cast? && path[0 + 1].Cast?;
    TranslatedIff(g, mem, w, Plain(0), 0, path);
  }
}
