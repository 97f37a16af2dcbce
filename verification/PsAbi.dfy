/** The calling convention itself (section 3.2.3 of the System V AMD64 psABI), for the parameters
    abi_param_location handles, and when the slot it works out is the right one. */
module PsAbi {
  import opened Words
  import opened VarPath
  import opened AbiSlots

  // ================= the convention =================

  /** The general-purpose registers for arguments, rdi, rsi, rdx, rcx, r8 and r9, by DWARF number. */
  const ORDER: seq<int> := [5, 4, 1, 2, 8, 9]

  /** The type behind names and qualifiers. */
  function Behind(t: Type): (r: Option<Type>)
    ensures r == Peeled(t)
  {
    match t
    case Qualified(None) => None
    case Qualified(Some(u)) => Behind(u)
    case _ => Some(t)
  }

  function TypeOf(e: Entry): Option<Type> {
    if e.Formal? && e.ty.Some? then Behind(e.ty.value) else None
  }

  /** Pointers, references and enumerations, and numbers of at most eight bytes except floating-point
      ones, go in a general-purpose register. */
  predicate InRegister(e: Entry) {
    match TypeOf(e)
    case Some(Address) => true
    case Some(Enumeration) => true
    case Some(Base(false, Some(size))) => size <= 8
    case _ => false
  }

  /** Class types and arrays of more than sixteen bytes go in memory. */
  predicate InMemory(e: Entry) {
    match TypeOf(e)
    case Some(Aggregate(Some(size), _, _)) => size > 16
    case _ => false
  }

  predicate Handled(e: Entry) {
    InRegister(e) || InMemory(e)
  }

  function Size(e: Entry): nat
    requires InMemory(e)
  {
    TypeOf(e).value.size.value
  }

  /** The program's classes are these, and what it declines is what is in neither. */
  lemma ClassIff(e: Entry)
    requires e.Formal?
    ensures ClassOf(e).Integer? <==> InRegister(e)
    ensures ClassOf(e).Memory? <==> InMemory(e)
    ensures InMemory(e) ==> ClassOf(e).size == Size(e)
    ensures ClassOf(e).Unhandled? <==> !Handled(e)
  {
  }

  /** One argument as it is passed: in a general-purpose register or an eightbyte of the stack, or
      as a whole on the stack. */
  datatype Argument = General | Whole(size: nat, aligned: bool)

  /** A class type that is not trivial for calls is replaced by a pointer to it. */
  predicate ByReference(e: Entry) {
    InMemory(e) && !TypeOf(e).value.trivial
  }

  predicate Aligned16(e: Entry) {
    InMemory(e) && TypeOf(e).value.aligned
  }

  function Passed(e: Entry): Argument
    requires Handled(e)
  {
    if InRegister(e) || ByReference(e) then General else Whole(Size(e), Aligned16(e))
  }

  predicate AllHandled(fs: seq<Entry>) {
    forall i | 0 <= i < |fs| :: Handled(fs[i])
  }

  /** The formal parameters up to the one in question, in a function that may return in memory and
      then has a hidden first argument, a pointer. */
  datatype Call = Call(returnsInMemory: bool, formals: seq<Entry>)

  type HandledCall = c: Call | AllHandled(c.formals) witness Call(false, [])

  function Before(c: HandledCall): HandledCall
    requires c.formals != []
  {
    c.(formals := c.formals[..|c.formals| - 1])
  }

  function Target(c: HandledCall): Entry
    requires c.formals != []
  {
    c.formals[|c.formals| - 1]
  }

  function Hidden(c: Call): nat {
    if c.returnsInMemory then 1 else 0
  }

  /** How many arguments ask for a register. */
  function Generals(c: HandledCall): nat
    decreases |c.formals|
  {
    if c.formals == [] then Hidden(c) else Generals(Before(c)) + if Passed(Target(c)).General? then 1 else 0
  }

  function Eights(n: nat): nat {
    (n + 7) / 8 * 8
  }

  function RoundUp16(n: nat): nat {
    (n + 15) / 16 * 16
  }

  /** Where the next argument on the stack starts. */
  function Start(used: nat, arg: Argument): nat {
    if arg.Whole? && arg.aligned then RoundUp16(used) else used
  }

  /** The stack used by the arguments. */
  function Used(c: HandledCall): nat
    decreases |c.formals|
  {
    if c.formals == [] then 0
    else
      match Passed(Target(c))
      case General => if Generals(Before(c)) < 6 then Used(Before(c)) else Used(Before(c)) + 8
      case Whole(size, _) => Start(Used(Before(c)), Passed(Target(c))) + Eights(size)
  }

  /** A slot for an eightbyte, given the registers asked for and the stack used before. */
  function Eightbyte(asked: nat, used: nat): Slot {
    if asked < 6 then Register(ORDER[asked]) else Stack(used, 8)
  }

  /** The slot of the last formal parameter. */
  function RightSlot(c: HandledCall): Slot
    requires c.formals != []
  {
    match Passed(Target(c))
    case General => Eightbyte(Generals(Before(c)), Used(Before(c)))
    case Whole(size, _) => Stack(Start(Used(Before(c)), Passed(Target(c))), Eights(size))
  }

  /** The slot the program works out for it. */
  function WorkedOut(c: HandledCall): Slot
    requires c.formals != []
  {
    SlotOf(Classes(c.formals), |c.formals| - 1)
  }

  lemma SameSlot(fs: seq<Entry>, k: nat)
    requires k < |fs| && AllHandled(fs[..k + 1]) && forall i | 0 <= i < |fs| :: fs[i].Formal?
    ensures SlotOf(Classes(fs), k) == SlotOf(Classes(fs[..k + 1]), k)
  {
    assert Classes(fs)[..k] == Classes(fs[..k + 1])[..k];
  }

  /** The formals are those among the children, in order. */
  lemma FormalsIff(es: seq<Entry>, e: Entry)
    ensures Formals([]) == [] && Formals(es + [e]) == if e.Formal? then Formals(es) + [e] else Formals(es)
  {
    assert (es + [e])[..|es|] == es;
  }

  /** The k-th formal is the first with the id, and all up to it are handled. */
  predicate Reachable(es: seq<Entry>, target: nat, k: nat) {
    var fs := Formals(es);
    && k < |fs| && fs[k].id == target && (forall j | 0 <= j < k :: fs[j].id != target)
    && forall j | 0 <= j <= k :: Handled(fs[j])
  }

  /** For the k-th formal, if all up to it are handled, the program locates the slot it works out: a
      register as such, a stack slot relative to the frame base, which the function must have. */
  lemma LocatesWorkedOut(es: seq<Entry>, target: nat, frame: Option<VarLocation>, k: nat, returnsInMemory: bool)
    requires Reachable(es, target, k)
    ensures AllHandled(Formals(es)[..k + 1])
    ensures match WorkedOut(Call(returnsInMemory, Formals(es)[..k + 1]))
            case Register(n) => Slots(es, target, frame) == Some(VarLocation(n, 0, false))
            case Stack(at, _) =>
              Slots(es, target, frame)
              == if frame.None? then None else Some(VarLocation(frame.value.reg, frame.value.offset + at, true))
  {
    LocatesSlot(es, target, frame, k);
    SameSlot(Formals(es), k);
  }

  lemma LocatesSlot(es: seq<Entry>, target: nat, frame: Option<VarLocation>, k: nat)
    requires Reachable(es, target, k)
    ensures AllHandled(Formals(es)[..k + 1])
    ensures Slots(es, target, frame) == Located(SlotOf(Classes(Formals(es)), k), frame)
  {
    var fs := Formals(es);
    forall j | 0 <= j <= k ensures !Classes(fs)[j].Unhandled? && Handled(fs[..k + 1][j]) {
      ClassIff(fs[j]);
    }
    assert Position(fs, target) == Some(k);
  }

  /** It locates nothing else. */
  lemma LocatesIff(es: seq<Entry>, target: nat, frame: VarLocation)
    ensures Slots(es, target, Some(frame)).Some? <==> exists k :: Reachable(es, target, k)
  {
    if k :| Reachable(es, target, k) { LocatesWorkedOut(es, target, Some(frame), k, false); }
    if Slots(es, target, Some(frame)).Some? {
      var fs := Formals(es);
      var k := Position(fs, target).value;
      forall j | 0 <= j <= k ensures Handled(fs[j]) {
        ClassIff(fs[j]);
        assert !Classes(fs)[j].Unhandled?;
      }
      assert Reachable(es, target, k);
    }
  }

  // ================= both in closed form =================

  function Over(n: nat): nat {
    if n < 6 then 0 else n - 6
  }

  /** The registers the program asks for... */
  function Ints(fs: seq<Entry>): nat {
    if fs == [] then 0 else Ints(fs[..|fs| - 1]) + if InRegister(fs[|fs| - 1]) then 1 else 0
  }

  /** ...and the stack it counts, everything passed whole and unaligned. */
  function Packed(fs: seq<Entry>): nat {
    if fs == [] then 0
    else
      var front, e := fs[..|fs| - 1], fs[|fs| - 1];
      Packed(front) + if InMemory(e) then Eights(Size(e)) else if Ints(front) >= 6 then 8 else 0
  }

  lemma {:induction false} SameCounts(fs: seq<Entry>)
    requires AllHandled(fs)
    ensures Integers(Classes(fs)) == Ints(fs) && Depth(Classes(fs)) == Packed(fs)
  {
    if fs != [] {
      SameCounts(fs[..|fs| - 1]);
      ClassIff(fs[|fs| - 1]);
      assert Classes(fs)[..|fs| - 1] == Classes(fs[..|fs| - 1]);
    }
  }

  function References(fs: seq<Entry>): nat
    requires AllHandled(fs)
  {
    if fs == [] then 0 else References(fs[..|fs| - 1]) + if ByReference(fs[|fs| - 1]) then 1 else 0
  }

  /** The stack taken by what is passed by reference, if it were passed whole. */
  function Replaced(fs: seq<Entry>): nat
    requires AllHandled(fs)
  {
    if fs == [] then 0
    else Replaced(fs[..|fs| - 1]) + if ByReference(fs[|fs| - 1]) then Eights(Size(fs[|fs| - 1])) else 0
  }

  /** The stack taken by what is passed whole. */
  function Wholes(fs: seq<Entry>): nat
    requires AllHandled(fs)
  {
    if fs == [] then 0
    else
      var e := fs[|fs| - 1];
      Wholes(fs[..|fs| - 1]) + if InMemory(e) && !ByReference(e) then Eights(Size(e)) else 0
  }

  predicate NoneAligned(fs: seq<Entry>)
    requires AllHandled(fs)
  {
    fs == [] || (NoneAligned(fs[..|fs| - 1]) && !Aligned16(fs[|fs| - 1]))
  }

  lemma {:induction false} ReplacedIsMore(fs: seq<Entry>)
    requires AllHandled(fs)
    ensures Replaced(fs) >= 24 * References(fs) && (References(fs) == 0 ==> Replaced(fs) == 0)
  {
    if fs != [] { ReplacedIsMore(fs[..|fs| - 1]); }
  }

  /** The stack used by the program's classes... */
  lemma {:induction false} TotalDepth(fs: seq<Entry>)
    requires AllHandled(fs)
    ensures Packed(fs) == Wholes(fs) + Replaced(fs) + 8 * Over(Ints(fs))
  {
    if fs != [] {
      TotalDepth(fs[..|fs| - 1]);
    }
  }

  /** ...the registers asked for by the convention... */
  lemma {:induction false} TotalGenerals(c: HandledCall)
    ensures Generals(c) == Ints(c.formals) + References(c.formals) + Hidden(c)
    decreases |c.formals|
  {
    if c.formals != [] {
      TotalGenerals(Before(c));
    }
  }

  /** ...and the stack it uses. */
  lemma {:induction false} TotalUsed(c: HandledCall)
    requires NoneAligned(c.formals)
    ensures Used(c) == Wholes(c.formals) + 8 * Over(Generals(c))
    decreases |c.formals|
  {
    if c.formals != [] { TotalUsed(Before(c)); }
  }

  // ================= when the slot is right =================

  lemma RegistersDiffer(i: nat, j: nat)
    requires i < 6 && j < 6
    ensures ORDER[i] == ORDER[j] <==> i == j
  {
  }

  /** The slot worked out for a value in an eightbyte, against the right one. */
  lemma EightbyteIff(ints: nat, refs: nat, hidden: nat, wholes: nat, replaced: nat)
    requires hidden <= 1 && replaced >= 24 * refs && (refs == 0 ==> replaced == 0)
    ensures Eightbyte(ints, wholes + replaced + 8 * Over(ints))
            == Eightbyte(ints + refs + hidden, wholes + 8 * Over(ints + refs + hidden))
            <==> refs == 0 && hidden == 0
  {
    if ints + refs + hidden < 6 { RegistersDiffer(ints, ints + refs + hidden); }
  }

  /** The same for one passed whole. */
  lemma WholeIff(ints: nat, refs: nat, hidden: nat, wholes: nat, replaced: nat)
    requires hidden <= 1 && replaced >= 24 * refs && (refs == 0 ==> replaced == 0)
    ensures wholes + replaced + 8 * Over(ints) == wholes + 8 * Over(ints + refs + hidden)
            <==> refs == 0 && (hidden == 0 || ints < 6)
  {
  }

  lemma WorkedOutIs(c: HandledCall)
    requires c.formals != []
    ensures var ints, used, e := Ints(Before(c).formals), Packed(Before(c).formals), Target(c);
            WorkedOut(c) == if InRegister(e) then Eightbyte(ints, used) else Stack(used, Eights(Size(e)))
  {
    SameCounts(Before(c).formals);
    ClassIff(Target(c));
    assert Classes(c.formals)[..|c.formals| - 1] == Classes(Before(c).formals);
    assert INTEGER_REGISTERS == ORDER;
  }

  /** The slot the program works out for a parameter behind so many registers and so much stack... */
  function WorkedIn(e: Entry, ints: nat, depth: nat): Slot
    requires Handled(e)
  {
    if InRegister(e) then Eightbyte(ints, depth) else Stack(depth, Eights(Size(e)))
  }

  /** ...and the right one, if it is not aligned. */
  function RightIn(e: Entry, asked: nat, used: nat): Slot
    requires Handled(e)
  {
    if InRegister(e) || ByReference(e) then Eightbyte(asked, used) else Stack(used, Eights(Size(e)))
  }

  lemma WorkedSlotIs(c: HandledCall)
    requires c.formals != []
    ensures var before := Before(c).formals;
            WorkedOut(c) == WorkedIn(Target(c), Ints(before), Wholes(before) + Replaced(before) + 8 * Over(Ints(before)))
  {
    TotalDepth(Before(c).formals);
    WorkedOutIs(c);
  }

  lemma RightSlotIs(c: HandledCall)
    requires c.formals != [] && NoneAligned(c.formals)
    ensures var before := Before(c).formals;
            var asked := Ints(before) + References(before) + Hidden(c);
            RightSlot(c) == RightIn(Target(c), asked, Wholes(before) + 8 * Over(asked))
  {
    TotalGenerals(Before(c));
    TotalUsed(Before(c));
  }

  lemma SlotsIff(e: Entry, ints: nat, refs: nat, hidden: nat, wholes: nat, replaced: nat)
    requires Handled(e) && hidden <= 1 && replaced >= 24 * refs && (refs == 0 ==> replaced == 0)
    ensures WorkedIn(e, ints, wholes + replaced + 8 * Over(ints)) == RightIn(e, ints + refs + hidden, wholes + 8 * Over(ints + refs + hidden))
            <==> refs == 0 && !ByReference(e) && (hidden == 0 || (InMemory(e) && ints < 6))
  {
    if InRegister(e) {
      EightbyteIff(ints, refs, hidden, wholes, replaced);
    } else {
      WholeIff(ints, refs, hidden, wholes, replaced);
    }
  }

  /** Without arguments aligned to sixteen bytes, the slot worked out for a parameter is the right one
      if and only if no parameter up to it is passed by reference and the function does not return
      in memory, or the parameter is itself passed whole and a register is left for the hidden
      argument. */
  lemma RightIff(c: HandledCall)
    requires c.formals != [] && NoneAligned(c.formals)
    ensures WorkedOut(c) == RightSlot(c)
            <==> References(c.formals) == 0
                 && (!c.returnsInMemory
                     || (InMemory(Target(c)) && Ints(Before(c).formals) < 6))
  {
    var before := Before(c).formals;
    WorkedSlotIs(c);
    RightSlotIs(c);
    ReplacedIsMore(before);
    SlotsIff(Target(c), Ints(before), References(before), Hidden(c), Wholes(before), Replaced(before));
  }

  // ================= arguments aligned to sixteen bytes =================

  /** Each of them happens to start at a multiple of sixteen. */
  predicate FallIntoPlace(fs: seq<Entry>)
    requires AllHandled(fs)
  {
    fs == []
    || (FallIntoPlace(fs[..|fs| - 1]) && (Aligned16(fs[|fs| - 1]) ==> Packed(fs[..|fs| - 1]) % 16 == 0))
  }

  /** Without references and hidden argument, aligned arguments can only need more of the stack, and
      do exactly if one of them does not fall into place. */
  lemma {:induction false} AlignedUsed(c: HandledCall)
    requires References(c.formals) == 0 && !c.returnsInMemory
    ensures Used(c) >= Packed(c.formals) && (Used(c) == Packed(c.formals) <==> FallIntoPlace(c.formals))
    decreases |c.formals|
  {
    if c.formals != [] {
      var front, e := Before(c).formals, Target(c);
      var ints, depth := Ints(front), Packed(front);
      AlignedUsed(Before(c));
      assert Generals(Before(c)) == ints by { TotalGenerals(Before(c)); }
      assert Packed(c.formals) == depth + Taken(e, ints);
      assert depth % 8 == 0 by { PackedAligned(front); }
      assert Used(c) == (if Aligned16(e) then RoundUp16(Used(Before(c))) else Used(Before(c))) + Taken(e, ints) by {
        UsedStep(c);
      }
      AlignedStep(depth, Used(Before(c)), Aligned16(e), Taken(e, ints), FallIntoPlace(front));
    }
  }

  lemma {:induction false} UsedStep(c: HandledCall)
    requires c.formals != [] && !ByReference(Target(c))
    ensures Used(c) == (if Aligned16(Target(c)) then RoundUp16(Used(Before(c))) else Used(Before(c)))
                       + Taken(Target(c), Generals(Before(c)))
  {
  }

  lemma AlignedStep(depth: nat, used: nat, aligned: bool, taken: nat, inPlace: bool)
    requires depth <= used && (used == depth <==> inPlace) && depth % 8 == 0
    ensures var used' := (if aligned then RoundUp16(used) else used) + taken;
            used' >= depth + taken && (used' == depth + taken <==> inPlace && (aligned ==> depth % 16 == 0))
  {
    RoundsUp(depth, used);
  }

  /** The stack an argument takes, by its class and the registers asked for before. */
  function Taken(e: Entry, ints: nat): nat {
    if InMemory(e) then Eights(Size(e)) else if ints >= 6 then 8 else 0
  }

  lemma {:induction false} PackedAligned(fs: seq<Entry>)
    ensures Packed(fs) % 8 == 0
  {
    if fs != [] { PackedAligned(fs[..|fs| - 1]); }
  }

  lemma RoundsUp(depth: nat, used: nat)
    requires depth <= used && depth % 8 == 0
    ensures RoundUp16(used) >= depth && (RoundUp16(used) == depth <==> used == depth && depth % 16 == 0)
  {
  }

  /** Where nothing is passed by reference and the function does not return in memory, the slot
      worked out is the right one if and only if it is a register, or each aligned argument up to it
      falls into place by itself. */
  lemma AlignedRightIff(c: HandledCall)
    requires c.formals != [] && References(c.formals) == 0 && !c.returnsInMemory
    ensures WorkedOut(c) == RightSlot(c) <==> WorkedOut(c).Register? || FallIntoPlace(c.formals)
  {
    var front, e := Before(c).formals, Target(c);
    var ints, depth, used := Ints(front), Packed(front), Used(Before(c));
    var size := if InMemory(e) then Size(e) else 0;
    assert WorkedOut(c) == if InRegister(e) then Eightbyte(ints, depth) else Stack(depth, Eights(size)) by { WorkedOutIs(c); }
    assert RightSlot(c) == if InRegister(e) then Eightbyte(ints, used)
                           else Stack(if Aligned16(e) then RoundUp16(used) else used, Eights(size)) by {
      TotalGenerals(Before(c));
    }
    assert depth <= used && (used == depth <==> FallIntoPlace(front)) by { AlignedUsed(Before(c)); }
    assert depth % 8 == 0 by { PackedAligned(front); }
    AlignedSlotsIff(InRegister(e), size, Aligned16(e), ints, depth, used, FallIntoPlace(front));
  }

  lemma AlignedSlotsIff(integer: bool, size: nat, aligned: bool, ints: nat, depth: nat, used: nat, inPlace: bool)
    requires aligned ==> !integer
    requires depth <= used && (used == depth <==> inPlace) && depth % 8 == 0
    ensures var worked := if integer then Eightbyte(ints, depth) else Stack(depth, Eights(size));
            var right := if integer then Eightbyte(ints, used) else Stack(if aligned then RoundUp16(used) else used, Eights(size));
            worked == right <==> worked.Register? || (inPlace && (aligned ==> depth % 16 == 0))
  {
    RoundsUp(depth, used);
  }

  // ================= parameters for which it is wrong =================

  const NUMBER: Entry := Formal(1, Some(Base(false, Some(4))))
  const STRING: Entry := Formal(2, Some(Aggregate(Some(32), false, false)))
  const STRUCT: Entry := Formal(3, Some(Aggregate(Some(24), true, false)))
  const VECTORS: Entry := Formal(4, Some(Aggregate(Some(32), true, true)))

  /** In a function that returns a large object the first parameter is in rsi, not rdi. */
  lemma HiddenPointerHappens()
    ensures AllHandled([NUMBER]) && WorkedOut(Call(true, [NUMBER])) == Register(5) && RightSlot(Call(true, [NUMBER])) == Register(4)
  {
    var c: HandledCall := Call(true, [NUMBER]);
    assert Before(c).formals == [];
    WorkedOutIs(c);
  }

  /** A std::string by value is in memory its caller keeps, and its address in rdi. */
  lemma ByReferenceHappens()
    ensures AllHandled([STRING]) && WorkedOut(Call(false, [STRING])) == Stack(0, 32) && RightSlot(Call(false, [STRING])) == Register(5)
  {
    var c: HandledCall := Call(false, [STRING]);
    assert Before(c).formals == [];
    WorkedOutIs(c);
  }

  /** An argument aligned to sixteen bytes behind one of twenty-four starts at thirty-two. */
  lemma AlignmentHappens()
    ensures AllHandled([STRUCT, VECTORS])
    ensures var c := Call(false, [STRUCT, VECTORS]);
            WorkedOut(c) == Stack(24, 32) && RightSlot(c) == Stack(32, 32)
  {
    var c: HandledCall := Call(false, [STRUCT, VECTORS]);
    assert Before(c).formals == [STRUCT] && Before(Before(c)).formals == [];
    assert [STRUCT][..0] == [];
    assert Packed([STRUCT]) == 24 && Used(Before(c)) == 24;
    WorkedOutIs(c);
  }
}
