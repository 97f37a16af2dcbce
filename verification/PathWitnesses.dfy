/** Types for which member paths go wrong. */
module PathWitnesses {
  import opened Words
  import opened TypeGraph
  import opened MemberOffset
  import opened VarPath
  import opened PathMeaning

  /** A type with a single member. */
  predicate Single(g: Graph, t: TypeId, name: string, off: nat, ty: TypeId) {
    t < |g.dies| && ty < |g.dies| && g.dies[t] == Record(false, [Member(Some(name), At(off), ty)])
  }

  lemma SingleMember(g: Graph, t: TypeId, name: string, off: nat, ty: TypeId)
    requires Single(g, t, name, off, ty)
    ensures ClassMember(g, t, name) == Some(ClassHit(0, off, ty))
    ensures LayoutMember(g, t, name) == Some(Located(off, Strip(g, ty)))
  {
    var cs := Children(g, t);
    assert MemberIndex(cs, name) == Some(0) && MemberOf(g, t, name) == cs[0];
    assert SearchType(g, Inherited, name, t) == Hit(Node(t, 0, []));
    assert SearchType(g, Layout, name, t) == Hit(Node(t, 0, []));
  }

  /** The hop for one member, entered by so many pointers. */
  lemma OneHop(g: Graph, t: TypeId, derefs: nat, name: string, h: ClassHit)
    requires t < |g.dies| && g.dies[t].Record? && !g.dies[t].declaration && ClassMember(g, t, name) == Some(h)
    ensures Compile(g, t, derefs, [Name(name)]) == Some([Hop(derefs, h.base, h.off)])
  {
    var path := [Name(name)];
    assert path[1..] == [] && DieOk(g, t);
    assert [Hop(derefs, h.base, h.off)] + [] == [Hop(derefs, h.base, h.off)];
  }

  // ================= two pointers in one hop =================

  /** int, struct { int x at 16; }, a pointer to it, and a pointer to that. */
  const DOUBLE: Types := Types([Scalar, Record(false, [Member(Some("x"), At(16), 0)]), Pointer(Some(1)), Pointer(Some(2))],
                               map[], map[], [0, 1, 2, 3])

  const IN_REGISTER: VarLocation := VarLocation(5, 0, false)

  /** From a pointer to a pointer, one dereference is missing. */
  lemma DoublePointerHappens(slots: FieldSlots)
    ensures Valid(DOUBLE) && Compile(DOUBLE, 3, 0, [Name("x")]) == Some([Hop(2, 0, 16)])
    ensures exists mem: Memory, v: U64 :: v != 0 && !RightOn(DOUBLE, mem, 3, [Name("x")], IN_REGISTER, v, [Hop(2, 0, 16)], slots)
  {
    var path, hops := [Name("x")], [Hop(2, 0, 16)];
    assert DieOk(DOUBLE, 0) && DieOk(DOUBLE, 1) && DieOk(DOUBLE, 2) && DieOk(DOUBLE, 3);
    SingleMember(DOUBLE, 1, "x", 16, 0);
    OneHop(DOUBLE, 1, 2, "x", ClassHit(0, 16, 0));
    assert Compile(DOUBLE, 2, 1, path) == Compile(DOUBLE, 1, 2, path);
    NotRight(DOUBLE, 3, path, hops, slots);
  }

  lemma NotRight(g: Graph, root: TypeId, path: seq<Token>, hops: seq<Hop>, slots: FieldSlots)
    requires root < |g.dies| && Compile(g, root, 0, path) == Some(hops) && |hops| == 1 && !Simple(hops[0])
    requires hops[0].derefs + hops[0].base + hops[0].off < TWO32
    ensures exists mem: Memory, v: U64 :: v != 0 && !RightOn(g, mem, root, path, IN_REGISTER, v, hops, slots)
  {
    assert hops[1..] == [];
    CompiledPathIff(g, root, path, IN_REGISTER, hops, slots);
  }

  // ================= a base class at an offset =================

  /** int, struct { int x at 0; }, and a class with that as a base at 8. */
  const DERIVED: Types := Types([Scalar, Record(false, [Member(Some("x"), At(0), 0)]), Record(false, [Inheritance(Some(1), At(8))])],
                                map[], map[], [0, 1, 2])

  /** An inherited member is looked for at its offset in the base class. */
  lemma BaseOffsetHappens(slots: FieldSlots)
    ensures Valid(DERIVED) && Compile(DERIVED, 2, 0, [Name("x")]) == Some([Hop(0, 8, 0)])
    ensures exists mem: Memory, v: U64 :: v != 0 && !RightOn(DERIVED, mem, 2, [Name("x")], IN_REGISTER, v, [Hop(0, 8, 0)], slots)
  {
    var path, hops := [Name("x")], [Hop(0, 8, 0)];
    assert DieOk(DERIVED, 0) && DieOk(DERIVED, 1) && DieOk(DERIVED, 2);
    InheritedX();
    OneHop(DERIVED, 2, 0, "x", ClassHit(8, 0, 0));
    NotRight(DERIVED, 2, path, hops, slots);
  }

  lemma InheritedX()
    ensures Valid(DERIVED) && ClassMember(DERIVED, 2, "x") == Some(ClassHit(8, 0, 0))
  {
    OnlyBase();
    var g: Graph := DERIVED;
    var root, base := Node(2, 0, []), Node(1, 8, [0]);
    assert Children(g, 2)[0] == Inheritance(Some(1), At(8)) && MemberIndex(Children(g, 2), "x").None?;
    assert MemberIndex(Children(g, 1), "x") == Some(0);
    assert [root][1..] + [base] == [base];
    assert Search(g, Inherited, "x", [base]) == Hit(base);
    SuccessorsWeighLess(g, Inherited, [root]);
    assert Search(g, Inherited, "x", [root]) == Hit(base);
  }

  lemma OnlyBase()
    ensures Valid(DERIVED) && Successors(DERIVED, Inherited, Node(2, 0, [])) == [Node(1, 8, [0])]
  {
    assert DieOk(DERIVED, 0) && DieOk(DERIVED, 1) && DieOk(DERIVED, 2);
    var g: Graph := DERIVED;
    assert EdgesUpTo(g, Inherited, 2, 0) == [] && EdgeOf(g, Inherited, 2, 0) == Some(Edge(0, 1, 8));
    assert Edges(g, Inherited, 2) == EdgesUpTo(g, Inherited, 2, 1) == [Edge(0, 1, 8)] && [] + [0] == [0];
  }

  // ================= more members than slots =================

  /** struct node { node* next at 8; }, and a pointer to it. */
  const LIST: Types := Types([Record(false, [Member(Some("next"), At(8), 1)]), Pointer(Some(0))], map[], map[], [0, 1])

  function Nexts(n: nat): (path: seq<Token>)
    ensures |path| == n && forall i | 0 <= i < n :: path[i] == Name("next")
  {
    seq(n, _ => Name("next"))
  }

  /** A path of any number of members compiles, to as many hops. */
  lemma {:induction false} AnyLength(n: nat)
    ensures Valid(LIST) && Compile(LIST, 1, 0, Nexts(n)) == Some(seq(n, _ => Hop(1, 0, 8)))
  {
    assert DieOk(LIST, 0) && DieOk(LIST, 1);
    if n > 0 {
      AnyLength(n - 1);
      SingleMember(LIST, 0, "next", 8, 1);
      assert Nexts(n)[1..] == Nexts(n - 1);
      assert [Hop(1, 0, 8)] + seq(n - 1, _ => Hop(1, 0, 8)) == seq(n, _ => Hop(1, 0, 8));
      assert Compile(LIST, 0, 1, Nexts(n)) == Some(seq(n, _ => Hop(1, 0, 8)));
      assert Compile(LIST, 1, 0, Nexts(n)) == Compile(LIST, 0, 1, Nexts(n));
    } else {
      assert Nexts(0) == [] && seq(0, _ => Hop(1, 0, 8)) == [];
    }
  }

  /** With ten members there are eleven fields for the ten slots. */
  lemma TenMembersHappen(loc: VarLocation)
    ensures Valid(LIST) && Compile(LIST, 1, 0, Nexts(10)).Some?
    ensures |Compiled(loc, Compile(LIST, 1, 0, Nexts(10)).value).fields| == SLOTS + 1
  {
    AnyLength(10);
  }

  // ================= an offset that becomes negative =================

  /** A struct with a member two gigabytes in. */
  const LARGE: Types := Types([Scalar, Record(false, [Member(Some("x"), At(0x8000_0000), 0)])], map[], map[], [0, 1])

  /** A path to it is walked two gigabytes down instead of up... */
  lemma LargeMemberHappens(slots: FieldSlots)
    ensures Valid(LARGE) && Compile(LARGE, 1, 0, [Name("x")]) == Some([Hop(0, 0, 0x8000_0000)])
    ensures exists mem: Memory, v: U64 ::
              v != 0 && !RightOn(LARGE, mem, 1, [Name("x")], IN_REGISTER, v, [Hop(0, 0, 0x8000_0000)], slots)
  {
    assert DieOk(LARGE, 0) && DieOk(LARGE, 1);
    SingleMember(LARGE, 1, "x", 0x8000_0000, 0);
    OneHop(LARGE, 1, 0, "x", ClassHit(0, 0x8000_0000, 0));
    NotRight(LARGE, 1, [Name("x")], [Hop(0, 0, 0x8000_0000)], slots);
  }

  /** ...and resolve_member_offset cannot return its offset. */
  lemma LargeOffsetHappens()
    ensures Valid(LARGE) && PathOffset(LARGE, 1, ["x"]) == Some(0x8000_0000) && Int32(0x8000_0000) < 0
  {
    assert DieOk(LARGE, 0) && DieOk(LARGE, 1);
    SingleMember(LARGE, 1, "x", 0x8000_0000, 0);
    assert ["x"][1..] == [];
  }
}
