/** What a member path means, what the walker computes, and exactly when the two agree. */
module PathMeaning {
  import opened Words
  import opened TypeGraph
  import opened VarPath

  // ================= the source language =================

  /** Where the object at hand is: at an address, or its address (or the pointer to it) in a
      register, the way arguments arrive. */
  datatype Where = InMemory(addr: U64) | InRegister(value: U64)

  datatype Ty = Plain(t: TypeId) | PointerTo(t: TypeId)

  /** A pointer or reference, by whatever name. */
  predicate Points(g: Graph, t: TypeId)
    requires t < |g.dies|
    decreases g.depth[t]
  {
    assert DieOk(g, t);
    match g.dies[t]
    case Alias(u) => u.Some? && Points(g, u.value)
    case Pointer(_) => true
    case Reference(_) => true
    case _ => false
  }

  lemma {:induction false} PointsIff(g: Graph, t: TypeId)
    requires t < |g.dies|
    ensures Points(g, t) <==> IsPointer(g, t)
    decreases g.depth[t]
  {
    assert DieOk(g, t);
    if g.dies[t].Alias? && g.dies[t].of.Some? { PointsIff(g, g.dies[t].of.value); }
  }

  function Load(mem: Memory, w: Where): U64 {
    match w
    case InMemory(a) => mem(a)
    case InRegister(v) => v
  }

  function Address(w: Where): U64 {
    match w
    case InMemory(a) => a
    case InRegister(v) => v
  }

  /** Evaluate a path the way the language does: look through typedefs; follow every pointer and
      reference; a cast changes the type a pointer points to; a member is at its own offset in the
      class declaring it plus the offset of that class within the object; a type that is only
      declared has the members of its definition. */
  function Meaning(g: Graph, mem: Memory, w: Where, ty: Ty, path: seq<Token>): Option<U64>
    requires ty.t < |g.dies|
    decreases |path|, if ty.PointerTo? then 1 else 0, g.depth[ty.t]
  {
    if path == [] then Some(Address(w))
    else
      match path[0]
      case Cast(name) =>
        if (ty.PointerTo? || Points(g, ty.t)) && name in g.names
        then Meaning(g, mem, w, PointerTo(g.names[name]), path[1..]) else None
      case Name(member) =>
        if ty.PointerTo? then Meaning(g, mem, InMemory(Load(mem, w)), Plain(ty.t), path)
        else
          assert DieOk(g, ty.t);
          match g.dies[ty.t]
          case Alias(u) => if u.None? then None else Meaning(g, mem, w, Plain(u.value), path)
          case Reference(u) => Meaning(g, mem, InMemory(Load(mem, w)), Plain(u), path)
          case Pointer(to) =>
            if to.None? then None else Meaning(g, mem, InMemory(Load(mem, w)), Plain(to.value), path)
          case Record(declared, _) =>
            if declared && ty.t !in g.definitions then None
            else
              var found := ClassMember(g, if declared then g.definitions[ty.t] else ty.t, member);
              if found.None? then None
              else
                var h := found.value;
                Meaning(g, mem, InMemory(Add64(Address(w), h.base + h.off)), Plain(h.ty), path[1..])
          case _ => None
  }

  // ================= hops =================

  function Deref(mem: Memory, w: Where, n: nat): Where {
    if n == 0 then w else InMemory(Load(mem, Deref(mem, w, n - 1)))
  }

  function Access(mem: Memory, w: Where, hops: seq<Hop>): U64
    decreases |hops|
  {
    if hops == [] then Address(w)
    else
      Access(mem, InMemory(Add64(Address(Deref(mem, w, hops[0].derefs)), hops[0].base + hops[0].off)), hops[1..])
  }

  lemma AccessStep(mem: Memory, w: Where, h: Hop, rest: seq<Hop>)
    ensures Access(mem, w, [h] + rest)
            == Access(mem, InMemory(Add64(Address(Deref(mem, w, h.derefs)), h.base + h.off)), rest)
  {
    assert ([h] + rest)[1..] == rest;
  }

  /** A compiled path, entered in the middle of a hop, means its hops. */
  lemma {:induction false} MeaningOfMember(g: Graph, mem: Memory, w: Where, t: TypeId, derefs: nat, path: seq<Token>)
    requires t < |g.dies| && path != [] && path[0].Name? && Compile(g, t, derefs, path).Some?
    ensures Meaning(g, mem, Deref(mem, w, derefs), Plain(t), path) == Some(Access(mem, w, Compile(g, t, derefs, path).value))
    decreases |path|, 0, g.depth[t], 1
  {
    assert DieOk(g, t);
    match g.dies[t]
    case Alias(u) => MeaningOfMember(g, mem, w, u.value, derefs, path);
    case Reference(u) => MeaningOfMember(g, mem, w, u, derefs + 1, path);
    case Pointer(to) => MeaningOfMember(g, mem, w, to.value, derefs + 1, path);
    case Record(_, _) => MeaningOfRecord(g, mem, w, t, derefs, path);
  }

  lemma {:induction false} MeaningOfRecord(g: Graph, mem: Memory, w: Where, t: TypeId, derefs: nat, path: seq<Token>)
    requires t < |g.dies| && g.dies[t].Record? && path != [] && path[0].Name? && Compile(g, t, derefs, path).Some?
    ensures Meaning(g, mem, Deref(mem, w, derefs), Plain(t), path) == Some(Access(mem, w, Compile(g, t, derefs, path).value))
    decreases |path|, 0, g.depth[t], 0
  {
    assert DieOk(g, t);
    var h := ClassMember(g, Definition(g, t).value, path[0].member).value;
    var next := InMemory(Add64(Address(Deref(mem, w, derefs)), h.base + h.off));
    var rest := Compile(g, h.ty, 0, path[1..]);
    assert Compile(g, t, derefs, path) == Prepend([Hop(derefs, h.base, h.off)], rest);
    MeaningIsAccess(g, mem, next, Plain(h.ty), path[1..]);
    AccessStep(mem, w, Hop(derefs, h.base, h.off), rest.value);
  }

  function PendingDerefs(ty: Ty): nat {
    if ty.PointerTo? then 1 else 0
  }

  /** Whenever a path compiles, its meaning is what its hops access. */
  lemma {:induction false} MeaningIsAccess(g: Graph, mem: Memory, w: Where, ty: Ty, path: seq<Token>)
    requires ty.t < |g.dies| && Compile(g, ty.t, PendingDerefs(ty), path).Some?
    ensures Meaning(g, mem, w, ty, path) == Some(Access(mem, w, Compile(g, ty.t, PendingDerefs(ty), path).value))
    decreases |path|, 1
  {
    if path != [] {
      match path[0]
      case Cast(name) =>
        PointsIff(g, ty.t);
        MeaningIsAccess(g, mem, w, PointerTo(g.names[name]), path[1..]);
      case Name(_) =>
        MeaningOfMember(g, mem, w, ty.t, PendingDerefs(ty), path);
        assert Deref(mem, w, 1) == InMemory(Load(mem, Deref(mem, w, 0)));
    }
  }

  // ================= the walker =================

  function WalkFrom(mem: Memory, a: U64, fs: seq<Field>): U64
    decreases |fs|
  {
    if fs == [] then a
    else WalkFrom(mem, Add64(if fs[0].pointer then mem(a) else a, fs[0].offset), fs[1..])
  }

  function Walk(mem: Memory, v: U64, vf: VarField): U64
    requires |vf.fields| >= 2
  {
    if v == 0 then 0
    else
      var a := if !vf.loc.stack then v
               else if vf.fields[1].pointer then mem(Add64(v, vf.loc.offset))
               else Add64(v, vf.loc.offset);
      WalkFrom(mem, Add64(a, vf.fields[1].offset), vf.fields[2..])
  }

  const SLOTS: nat := 10

  type FieldSlots = fs: seq<Field> | |fs| == SLOTS witness seq(SLOTS, _ => Field(0, false))

  /** struct VarField of the kernel side: ten slots and how many of them are used. */
  datatype KernelVar = KernelVar(loc: VarLocation, fields: FieldSlots, size: nat)

  /** The slots the walker looks at: always the second, and never past the tenth. */
  function Used(size: nat): nat {
    if size < 2 then 2 else Min(size, SLOTS)
  }

  function KernelWalk(mem: Memory, v: U64, kv: KernelVar): U64 {
    Walk(mem, v, VarField(kv.loc, kv.fields[..Used(kv.size)]))
  }

  /** The copying loop of fill_map_hprobes, over slots that held something else before. */
  method StoreVarField(vf: VarField, slots: FieldSlots) returns (kv: KernelVar)
    requires |vf.fields| <= SLOTS
    ensures kv == Stored(vf, slots)
  {
    var fields := slots;
    var i := 0;
    while i < |vf.fields|
      invariant 0 <= i <= |vf.fields| && fields == vf.fields[..i] + slots[i..]
    {
      fields := fields[i := vf.fields[i]];
      i := i + 1;
    }
    kv := KernelVar(vf.loc, fields, |vf.fields|);
  }

  function Stored(vf: VarField, slots: FieldSlots): KernelVar
    requires |vf.fields| <= SLOTS
  {
    KernelVar(vf.loc, vf.fields + slots[|vf.fields|..], |vf.fields|)
  }

  /** What the slots held before does not matter to a chain of at least one member. */
  lemma StoredWalk(mem: Memory, v: U64, vf: VarField, slots: FieldSlots)
    requires 2 <= |vf.fields| <= SLOTS
    ensures KernelWalk(mem, v, Stored(vf, slots)) == Walk(mem, v, vf)
  {
    assert (vf.fields + slots[|vf.fields|..])[..|vf.fields|] == vf.fields;
  }

  /** fetch_var_member_addr: the steps for slots two to nine, which the kernel has unrolled. */
  method FetchVarMemberAddr(mem: Memory, start: U64, vf: KernelVar) returns (addr: U64)
    ensures addr == KernelWalk(mem, start, vf) && (start == 0 ==> addr == 0)
  {
    addr := start;
    if addr == 0 { return 0; }
    if vf.loc.stack {
      addr := Add64(addr, vf.loc.offset);
      if vf.fields[1].pointer { addr := mem(addr); }
    }
    addr := Add64(addr, vf.fields[1].offset);
    ghost var used := vf.fields[..Used(vf.size)];
    var i := 2;
    while i < SLOTS && i < vf.size
      invariant 2 <= i <= |used|
      invariant KernelWalk(mem, start, vf) == WalkFrom(mem, addr, used[i..])
    {
      assert used[i..][0] == vf.fields[i] && used[i..][1..] == used[i + 1..];
      if vf.fields[i].pointer {
        addr := Add64(mem(addr), vf.fields[i].offset);
      } else {
        addr := Add64(addr, vf.fields[i].offset);
      }
      i := i + 1;
    }
    assert used[i..] == [];
  }

  // ================= agreement =================

  /** The variable of a register value v: in memory at a frame offset, or v itself. */
  function Variable(loc: VarLocation, v: U64): Where {
    if loc.stack then InMemory(Add64(v, loc.offset)) else InRegister(v)
  }

  predicate Simple(h: Hop) {
    h.derefs <= 1 && h.base == 0 && h.off < 0x8000_0000
  }

  predicate AllSimple(hops: seq<Hop>) {
    forall i | 0 <= i < |hops| :: Simple(hops[i])
  }

  function Sum(hops: seq<Hop>): nat {
    if hops == [] then 0 else hops[0].derefs + hops[0].base + hops[0].off + Sum(hops[1..])
  }

  lemma Add64Assoc(a: U64, x: int, y: int)
    ensures Add64(Add64(a, x), y) == Add64(a, x + y)
  {
  }

  lemma {:induction false} SimpleHopsWalk(mem: Memory, a: U64, hops: seq<Hop>)
    requires AllSimple(hops)
    ensures WalkFrom(mem, a, Emit(hops)) == Access(mem, InMemory(a), hops)
    decreases |hops|
  {
    if hops != [] {
      assert Emit(hops)[1..] == Emit(hops[1..]);
      assert Deref(mem, InMemory(a), 1) == InMemory(Load(mem, Deref(mem, InMemory(a), 0)));
      SimpleHopsWalk(mem, Add64(if hops[0].derefs > 0 then mem(a) else a, hops[0].off), hops[1..]);
    }
  }

  /** n in a memory that counts the pointers followed, nothing in one that does not. */
  function Shown(counts: bool, n: nat): nat {
    if counts then n else 0
  }

  /** The memory in which every word holds its own address, or, to count, one more. */
  function Shift(counts: bool): Memory {
    (a: U64) => Add64(a, Shown(counts, 1))
  }

  function Offsets(hops: seq<Hop>): nat {
    if hops == [] then 0 else hops[0].off + Offsets(hops[1..])
  }

  /** The offsets as the walker adds them. */
  function Kept(hops: seq<Hop>): int {
    if hops == [] then 0 else Int32(hops[0].off) + Kept(hops[1..])
  }

  function Bases(hops: seq<Hop>): nat {
    if hops == [] then 0 else hops[0].base + Bases(hops[1..])
  }

  function Derefs(hops: seq<Hop>): nat {
    if hops == [] then 0 else hops[0].derefs + Derefs(hops[1..])
  }

  function Flags(hops: seq<Hop>): nat {
    if hops == [] then 0 else (if hops[0].derefs > 0 then 1 else 0) + Flags(hops[1..])
  }

  lemma {:induction false} DerefShift(k: bool, a: U64, n: nat)
    ensures Deref(Shift(k), InMemory(a), n) == InMemory(Add64(a, Shown(k, n)))
  {
    if n > 0 {
      DerefShift(k, a, n - 1);
      Add64Assoc(a, Shown(k, n - 1), Shown(k, 1));
    }
  }

  lemma {:induction false} AccessShift(k: bool, a: U64, hops: seq<Hop>)
    ensures Access(Shift(k), InMemory(a), hops) == Add64(a, Offsets(hops) + Bases(hops) + Shown(k, Derefs(hops)))
    decreases |hops|
  {
    if hops != [] {
      var h := hops[0];
      var first := Shown(k, h.derefs) + (h.base + h.off);
      DerefShift(k, a, h.derefs);
      Add64Assoc(a, Shown(k, h.derefs), h.base + h.off);
      AccessShift(k, Add64(a, first), hops[1..]);
      Add64Assoc(a, first, Offsets(hops[1..]) + Bases(hops[1..]) + Shown(k, Derefs(hops[1..])));
    }
  }

  lemma {:induction false} WalkShift(k: bool, a: U64, hops: seq<Hop>)
    ensures WalkFrom(Shift(k), a, Emit(hops)) == Add64(a, Kept(hops) + Shown(k, Flags(hops)))
    decreases |hops|
  {
    if hops != [] {
      var h := hops[0];
      var flag := if h.derefs > 0 then 1 else 0;
      var first := Shown(k, flag) + Int32(h.off);
      assert Emit(hops)[1..] == Emit(hops[1..]);
      Add64Assoc(a, Shown(k, flag), Int32(h.off));
      assert WalkFrom(Shift(k), a, Emit(hops)) == WalkFrom(Shift(k), Add64(a, first), Emit(hops[1..]));
      WalkShift(k, Add64(a, first), hops[1..]);
      Add64Assoc(a, first, Kept(hops[1..]) + Shown(k, Flags(hops[1..])));
    }
  }

  lemma {:induction false} FlagsAreDerefs(hops: seq<Hop>)
    ensures Flags(hops) <= Derefs(hops) && Derefs(hops) + Bases(hops) + Offsets(hops) == Sum(hops)
    ensures -0x8000_0000 * |hops| <= Kept(hops) <= Offsets(hops)
    ensures Flags(hops) == Derefs(hops) && Bases(hops) == 0 && Kept(hops) == Offsets(hops) ==> AllSimple(hops)
  {
    if hops != [] {
      FlagsAreDerefs(hops[1..]);
      assert forall i | 0 < i < |hops| :: hops[i] == hops[1..][i - 1];
    }
  }

  /** A register already holds what the first pointer leads to. */
  function Entered(loc: VarLocation, hops: seq<Hop>): seq<Hop>
    requires hops != []
  {
    if loc.stack then hops
    else [hops[0].(derefs := if hops[0].derefs > 0 then hops[0].derefs - 1 else 0)] + hops[1..]
  }

  /** The hops the walker takes: from a register it follows no pointer in the first. */
  function Taken(loc: VarLocation, hops: seq<Hop>): seq<Hop>
    requires hops != []
  {
    if loc.stack then hops else [hops[0].(derefs := 0)] + hops[1..]
  }

  function Root(loc: VarLocation, v: U64): U64 {
    if loc.stack then Add64(v, loc.offset) else v
  }

  function Compiled(loc: VarLocation, hops: seq<Hop>): VarField {
    VarField(loc, [Field(0, false)] + Emit(hops))
  }

  lemma {:induction false} DerefRegister(mem: Memory, v: U64, n: nat)
    requires n > 0
    ensures Deref(mem, InRegister(v), n) == Deref(mem, InMemory(v), n - 1)
  {
    if n > 1 { DerefRegister(mem, v, n - 1); }
  }

  lemma {:induction false} RootAccess(mem: Memory, loc: VarLocation, v: U64, hops: seq<Hop>)
    requires hops != []
    ensures Access(mem, Variable(loc, v), hops) == Access(mem, InMemory(Root(loc, v)), Entered(loc, hops))
  {
    if !loc.stack {
      if hops[0].derefs > 0 { DerefRegister(mem, v, hops[0].derefs); }
      assert Entered(loc, hops)[1..] == hops[1..];
    }
  }

  lemma {:induction false} RootWalk(mem: Memory, loc: VarLocation, v: U64, hops: seq<Hop>)
    requires hops != [] && v != 0
    ensures Walk(mem, v, Compiled(loc, hops)) == WalkFrom(mem, Root(loc, v), Emit(Taken(loc, hops)))
  {
    assert Compiled(loc, hops).fields[2..] == Emit(hops[1..]);
    assert Emit(Taken(loc, hops))[1..] == Emit(hops[1..]);
  }

  ghost predicate AgreesOn(mem: Memory, loc: VarLocation, v: U64, hops: seq<Hop>)
    requires hops != []
  {
    Walk(mem, v, Compiled(loc, hops)) == Access(mem, Variable(loc, v), hops)
  }

  lemma {:induction false} SimpleAgrees(mem: Memory, loc: VarLocation, v: U64, hops: seq<Hop>)
    requires hops != [] && v != 0 && AllSimple(hops)
    ensures AgreesOn(mem, loc, v, hops)
  {
    RootAccess(mem, loc, v, hops);
    RootWalk(mem, loc, v, hops);
    assert Taken(loc, hops) == Entered(loc, hops);
    SimpleHopsWalk(mem, Root(loc, v), Entered(loc, hops));
  }

  lemma AddCancel(a: U64, x: int, y: int)
    requires x <= y < x + TWO64 && Add64(a, x) == Add64(a, y)
    ensures x == y
  {
  }

  lemma {:induction false} RootCounts(loc: VarLocation, hops: seq<Hop>)
    requires hops != []
    ensures var meant, taken := Entered(loc, hops), Taken(loc, hops);
            && Offsets(meant) == Offsets(hops) && Kept(taken) == Kept(hops) && Bases(meant) == Bases(hops)
            && Flags(taken) <= Derefs(meant) <= Derefs(hops)
            && (Flags(taken) == Derefs(meant) && Bases(hops) == 0 && Kept(hops) == Offsets(hops) ==> AllSimple(hops))
  {
    FlagsAreDerefs(hops);
    if !loc.stack {
      FlagsAreDerefs(hops[1..]);
      assert Entered(loc, hops)[1..] == hops[1..] && Taken(loc, hops)[1..] == hops[1..];
      assert forall i | 0 < i < |hops| :: hops[i] == hops[1..][i - 1];
    }
  }

  lemma {:induction false} SameShift(k: bool, loc: VarLocation, hops: seq<Hop>)
    requires hops != [] && AgreesOn(Shift(k), loc, 1, hops)
    ensures var meant, taken, a := Entered(loc, hops), Taken(loc, hops), Root(loc, 1);
            Add64(a, Kept(taken) + Shown(k, Flags(taken))) == Add64(a, Offsets(meant) + Bases(meant) + Shown(k, Derefs(meant)))
  {
    RootAccess(Shift(k), loc, 1, hops);
    RootWalk(Shift(k), loc, 1, hops);
    AccessShift(k, Root(loc, 1), Entered(loc, hops));
    WalkShift(k, Root(loc, 1), Taken(loc, hops));
  }

  /** Two memories are enough to tell: in one, a pointer changes nothing but a base offset or a
      narrowed offset shows; in the other, each pointer followed adds one. */
  lemma {:induction false} OnlySimpleAgrees(loc: VarLocation, hops: seq<Hop>)
    requires 1 <= |hops| < SLOTS && Sum(hops) + 0x8000_0000 * |hops| < TWO64
    requires AgreesOn(Shift(false), loc, 1, hops) && AgreesOn(Shift(true), loc, 1, hops)
    ensures AllSimple(hops)
  {
    var meant, taken, a := Entered(loc, hops), Taken(loc, hops), Root(loc, 1);
    RootCounts(loc, hops);
    FlagsAreDerefs(hops);
    SameShift(false, loc, hops);
    AddCancel(a, Kept(hops), Offsets(hops) + Bases(hops));
    SameShift(true, loc, hops);
    AddCancel(a, Offsets(hops) + Flags(taken), Offsets(hops) + Derefs(meant));
  }

  /** The walker, given the compiled path in its ten slots, computes the address the path means. */
  ghost predicate RightOn(g: Graph, mem: Memory, root: TypeId, path: seq<Token>, loc: VarLocation, v: U64, hops: seq<Hop>,
                          slots: FieldSlots)
    requires root < |g.dies| && 1 <= |hops| < SLOTS
  {
    Meaning(g, mem, Variable(loc, v), Plain(root), path) == Some(KernelWalk(mem, v, Stored(Compiled(loc, hops), slots)))
  }

  lemma {:induction false} RightIsAgreement(g: Graph, mem: Memory, root: TypeId, path: seq<Token>, loc: VarLocation, v: U64, hops: seq<Hop>,
                         slots: FieldSlots)
    requires root < |g.dies| && 1 <= |hops| < SLOTS && Compile(g, root, 0, path) == Some(hops)
    ensures RightOn(g, mem, root, path, loc, v, hops, slots) <==> AgreesOn(mem, loc, v, hops)
  {
    MeaningIsAccess(g, mem, Variable(loc, v), Plain(root), path);
    StoredWalk(mem, v, Compiled(loc, hops), slots);
  }

  /** A compiled path of at most nine members, which is what the ten slots hold, is walked to the
      address it means for every memory and every non-null register value if and only if each hop
      follows at most one pointer, goes through no base class at a non-zero offset, and has its
      member below 2^31. */
  lemma {:induction false} CompiledPathIff(g: Graph, root: TypeId, path: seq<Token>, loc: VarLocation, hops: seq<Hop>, slots: FieldSlots)
    requires root < |g.dies| && Compile(g, root, 0, path) == Some(hops)
    requires 1 <= |hops| < SLOTS && Sum(hops) + 0x8000_0000 * |hops| < TWO64
    ensures AllSimple(hops)
            <==> forall mem: Memory, v: U64 | v != 0 :: RightOn(g, mem, root, path, loc, v, hops, slots)
  {
    if AllSimple(hops) {
      forall mem: Memory, v: U64 | v != 0 ensures RightOn(g, mem, root, path, loc, v, hops, slots) {
        SimpleAgrees(mem, loc, v, hops);
        RightIsAgreement(g, mem, root, path, loc, v, hops, slots);
      }
    }
    if forall mem: Memory, v: U64 | v != 0 :: RightOn(g, mem, root, path, loc, v, hops, slots) {
      RightIsAgreement(g, Shift(false), root, path, loc, 1, hops, slots);
      RightIsAgreement(g, Shift(true), root, path, loc, 1, hops, slots);
      assert RightOn(g, Shift(false), root, path, loc, 1, hops, slots) && RightOn(g, Shift(true), root, path, loc, 1, hops, slots);
      OnlySimpleAgrees(loc, hops);
    }
  }
}
