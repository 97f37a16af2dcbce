/** The incoming-argument slots that abi_param_location works out for parameters without a debug
    location.  How they relate to the calling convention is in PsAbi. */
module AbiSlots {
  import opened Words
  import opened VarPath

  /** A parameter type; sizes are absent when DWARF gives none.  A class type may be non-trivial for
      the purpose of calls, and a type may be aligned to sixteen bytes; the program looks at neither. */
  datatype Type =
    | Qualified(of: Option<Type>)
    | Address
    | Enumeration
    | Base(float: bool, size: Option<nat>)
    | Aggregate(size: Option<nat>, trivial: bool, aligned: bool)
    | OtherTag

  /** A child of the function's entry. */
  datatype Entry = Formal(id: nat, ty: Option<Type>) | NotFormal

  datatype Class = Integer | Memory(size: nat) | Unhandled

  function Peeled(t: Type): Option<Type> {
    if t.Qualified? then if t.of.None? then None else Peeled(t.of.value) else Some(t)
  }

  function ClassOf(e: Entry): Class
    requires e.Formal?
  {
    if e.ty.None? || Peeled(e.ty.value).None? then Unhandled
    else
      match Peeled(e.ty.value).value
      case Address => Integer
      case Enumeration => Integer
      case Base(float, size) => if !float && size.Some? && size.value <= 8 then Integer else Unhandled
      case Aggregate(size, _, _) => if size.Some? && size.value > 16 then Memory(size.value) else Unhandled
      case _ => Unhandled
  }

  /** classify_param, with the peeling loop of peel_type. */
  method ClassifyParam(e: Entry) returns (c: Class)
    requires e.Formal?
    ensures c == ClassOf(e)
  {
    if e.ty.None? { return Unhandled; }
    var t := e.ty.value;
    while t.Qualified?
      invariant Peeled(t) == Peeled(e.ty.value)
      decreases t
    {
      if t.of.None? { return Unhandled; }
      t := t.of.value;
    }
    match t
    case Address => c := Integer;
    case Enumeration => c := Integer;
    case Base(float, size) => c := if float || size.None? || size.value > 8 then Unhandled else Integer;
    case Aggregate(size, _, _) => c := if size.None? || size.value <= 16 then Unhandled else Memory(size.value);
    case _ => c := Unhandled;
  }

  // ================= the assignment by these classes =================

  /** rdi, rsi, rdx, rcx, r8, r9 */
  const INTEGER_REGISTERS: seq<int> := [5, 4, 1, 2, 8, 9]

  datatype Slot = Register(number: int) | Stack(at: nat, bytes: nat)

  function Formals(es: seq<Entry>): (fs: seq<Entry>)
    ensures forall i | 0 <= i < |fs| :: fs[i].Formal?
  {
    if es == [] then []
    else
      var last := es[|es| - 1];
      Formals(es[..|es| - 1]) + (if last.Formal? then [last] else [])
  }

  function Classes(fs: seq<Entry>): (cs: seq<Class>)
    requires forall i | 0 <= i < |fs| :: fs[i].Formal?
    ensures |cs| == |fs| && forall i | 0 <= i < |cs| :: cs[i] == ClassOf(fs[i])
  {
    seq(|fs|, i requires 0 <= i < |fs| => ClassOf(fs[i]))
  }

  function Integers(cs: seq<Class>): nat {
    if cs == [] then 0 else Integers(cs[..|cs| - 1]) + if cs[|cs| - 1].Integer? then 1 else 0
  }

  function RoundUp8(size: nat): nat {
    (size + 7) / 8 * 8
  }

  function Eightbytes(c: Class): nat {
    if c.Memory? then RoundUp8(c.size) else 8
  }

  /** An argument goes to the stack for its class, or for want of a register. */
  predicate OnStack(cs: seq<Class>, i: nat)
    requires i < |cs|
  {
    cs[i].Memory? || Integers(cs[..i]) >= |INTEGER_REGISTERS|
  }

  /** The bytes of stack taken by the arguments. */
  function Depth(cs: seq<Class>): nat {
    if cs == [] then 0
    else Depth(cs[..|cs| - 1]) + if OnStack(cs, |cs| - 1) then Eightbytes(cs[|cs| - 1]) else 0
  }

  function SlotOf(cs: seq<Class>, i: nat): Slot
    requires i < |cs|
  {
    if OnStack(cs, i) then Stack(Depth(cs[..i]), Eightbytes(cs[i])) else Register(INTEGER_REGISTERS[Integers(cs[..i])])
  }

  // ================= no two arguments share a slot =================

  predicate Disjoint(a: Slot, b: Slot) {
    match (a, b)
    case (Register(x), Register(y)) => x != y
    case (Stack(x, n), Stack(y, m)) => x + n <= y || y + m <= x
    case _ => true
  }

  lemma {:induction false} CountsGrow(cs: seq<Class>, i: nat)
    requires i <= |cs|
    ensures Integers(cs[..i]) <= Integers(cs) && Depth(cs[..i]) <= Depth(cs)
    decreases |cs|
  {
    if i < |cs| {
      assert cs[..|cs| - 1][..i] == cs[..i];
      CountsGrow(cs[..|cs| - 1], i);
    } else {
      assert cs[..i] == cs;
    }
  }

  lemma {:induction false} DepthAligned(cs: seq<Class>)
    ensures Depth(cs) % 8 == 0
  {
    if cs != [] { DepthAligned(cs[..|cs| - 1]); }
  }

  /** Distinct parameters get distinct registers or disjoint ranges of the stack, each aligned to
      eight bytes and large enough. */
  lemma SlotsDisjoint(cs: seq<Class>, i: nat, j: nat)
    requires i < |cs| && j < |cs| && i != j && forall k | 0 <= k < |cs| :: !cs[k].Unhandled?
    ensures Disjoint(SlotOf(cs, i), SlotOf(cs, j))
    ensures SlotOf(cs, i).Stack? ==>
              SlotOf(cs, i).at % 8 == 0 && (cs[i].Memory? ==> cs[i].size <= SlotOf(cs, i).bytes)
  {
    DepthAligned(cs[..i]);
    var a, b := if i < j then i else j, if i < j then j else i;
    var upto := cs[..a + 1];
    assert upto[..a] == cs[..a];
    assert cs[..b][..a + 1] == upto;
    CountsGrow(cs[..b], a + 1);
    assert Integers(upto) == Integers(cs[..a]) + if cs[a].Integer? then 1 else 0;
    assert OnStack(cs, a) ==> Depth(upto) == Depth(cs[..a]) + Eightbytes(cs[a]);
    assert !cs[a].Unhandled?;
  }

  // ================= abi_param_location =================

  function Position(fs: seq<Entry>, id: nat): (r: Option<nat>)
    requires forall i | 0 <= i < |fs| :: fs[i].Formal?
    ensures r.None? ==> forall i | 0 <= i < |fs| :: fs[i].id != id
    ensures r.Some? ==> r.value < |fs| && fs[r.value].id == id && forall i | 0 <= i < r.value :: fs[i].id != id
  {
    if fs == [] then None
    else
      var front := fs[..|fs| - 1];
      if Position(front, id).Some? then Position(front, id)
      else if fs[|fs| - 1].id == id then Some(|fs| - 1) else None
  }

  /** The slot as a location at the function's entry: a stack slot is relative to the frame base. */
  function Located(s: Slot, frame: Option<VarLocation>): Option<VarLocation> {
    match s
    case Register(n) => Some(VarLocation(n, 0, false))
    case Stack(at, _) =>
      if frame.None? then None else Some(VarLocation(frame.value.reg, frame.value.offset + at, true))
  }

  function Slots(es: seq<Entry>, target: nat, frame: Option<VarLocation>): Option<VarLocation> {
    var fs := Formals(es);
    var k := Position(fs, target);
    if k.None? || exists j :: 0 <= j <= k.value && Classes(fs)[j].Unhandled? then None
    else Located(SlotOf(Classes(fs), k.value), frame)
  }

  lemma {:induction false} FormalsExtend(es: seq<Entry>, i: nat)
    requires i <= |es|
    ensures Formals(es[..i]) <= Formals(es)
    decreases |es|
  {
    if i < |es| {
      assert es[..|es| - 1][..i] == es[..i];
      FormalsExtend(es[..|es| - 1], i);
    } else {
      assert es[..i] == es;
    }
  }

  /** abi_stack_location, given the frame base. */
  method AbiStackLocation(frame: Option<VarLocation>, cfaOff: nat) returns (r: Option<VarLocation>)
    ensures r == Located(Stack(cfaOff, 0), frame)
  {
    if frame.None? { return None; }
    r := Some(frame.value.(offset := frame.value.offset + cfaOff, stack := true));
  }

  lemma PrefixPlusOne(fs: seq<Entry>, k: nat, e: Entry)
    requires k <= |fs| && fs[..k] + [e] <= fs
    ensures k < |fs| && fs[k] == e && fs[..k + 1] == fs[..k] + [e]
  {
    assert (fs[..k] + [e])[k] == e;
  }

  lemma FormalsOne(es: seq<Entry>, i: nat)
    requires i < |es|
    ensures Formals(es[..i + 1]) == Formals(es[..i]) + if es[i].Formal? then [es[i]] else []
  {
    assert es[..i + 1][..i] == es[..i];
  }

  lemma NextEntry(es: seq<Entry>, i: nat, k: nat)
    requires i < |es| && k <= |Formals(es)| && Formals(es[..i]) == Formals(es)[..k]
    ensures var fs := Formals(es);
            if es[i].Formal? then k < |fs| && fs[k] == es[i] && Formals(es[..i + 1]) == fs[..k + 1]
            else Formals(es[..i + 1]) == fs[..k]
  {
    FormalsOne(es, i);
    FormalsExtend(es, i + 1);
    if es[i].Formal? { PrefixPlusOne(Formals(es), k, es[i]); }
  }

  lemma NextClass(cs: seq<Class>, k: nat)
    requires k < |cs|
    ensures Integers(cs[..k + 1]) == Integers(cs[..k]) + if cs[k].Integer? then 1 else 0
    ensures Depth(cs[..k + 1]) == Depth(cs[..k]) + if OnStack(cs, k) then Eightbytes(cs[k]) else 0
  {
    assert cs[..k + 1][..k] == cs[..k];
  }

  lemma Reached(es: seq<Entry>, target: nat, frame: Option<VarLocation>, k: nat)
    requires k < |Formals(es)| && forall j | 0 <= j < k :: Formals(es)[j].id != target
    requires forall j | 0 <= j <= k :: !ClassOf(Formals(es)[j]).Unhandled?
    requires Formals(es)[k].id == target
    ensures Slots(es, target, frame) == Located(SlotOf(Classes(Formals(es)), k), frame)
  {
    assert Position(Formals(es), target) == Some(k);
  }

  lemma Declined(es: seq<Entry>, target: nat, frame: Option<VarLocation>, k: nat)
    requires k < |Formals(es)| && forall j | 0 <= j < k :: Formals(es)[j].id != target
    requires ClassOf(Formals(es)[k]).Unhandled?
    ensures Slots(es, target, frame).None?
  {
    var p := Position(Formals(es), target);
    assert p.Some? ==> k <= p.value && Classes(Formals(es))[k].Unhandled?;
  }

  /** After i children, k of them formals before the target: registers and stack used so far. */
  ghost predicate Scanned(es: seq<Entry>, target: nat, i: nat, k: nat, regs: nat, off: nat) {
    var fs := Formals(es);
    && i <= |es| && k <= |fs| && Formals(es[..i]) == fs[..k]
    && (forall j | 0 <= j < k :: fs[j].id != target && !ClassOf(fs[j]).Unhandled?)
    && regs == Min(Integers(Classes(fs)[..k]), 6) && off == Depth(Classes(fs)[..k])
  }

  lemma ScanStops(es: seq<Entry>, target: nat, i: nat, k: nat, regs: nat, off: nat, frame: Option<VarLocation>)
    requires Scanned(es, target, i, k, regs, off) && i < |es| && es[i].Formal?
    ensures var c := ClassOf(es[i]);
            && (c.Unhandled? ==> Slots(es, target, frame).None?)
            && (!c.Unhandled? && es[i].id == target ==>
                  Slots(es, target, frame)
                  == Located(if c.Integer? && regs < 6 then Register(INTEGER_REGISTERS[regs]) else Stack(off, 0), frame))
  {
    NextEntry(es, i, k);
    if ClassOf(es[i]).Unhandled? {
      Declined(es, target, frame, k);
    } else if es[i].id == target {
      Reached(es, target, frame, k);
    }
  }

  lemma ScanGoesOn(es: seq<Entry>, target: nat, i: nat, k: nat, regs: nat, off: nat)
    requires Scanned(es, target, i, k, regs, off) && i < |es| && es[i].Formal?
    requires !ClassOf(es[i]).Unhandled? && es[i].id != target
    ensures var c := ClassOf(es[i]);
            if c.Integer? && regs < 6 then Scanned(es, target, i + 1, k + 1, regs + 1, off)
            else Scanned(es, target, i + 1, k + 1, regs, off + Eightbytes(c))
  {
    NextEntry(es, i, k);
    NextClass(Classes(Formals(es)), k);
  }

  /** abi_param_location: the slot of the assignment by these classes, unless some parameter up to
      the target has no class the function handles. */
  method AbiParamLocation(es: seq<Entry>, target: nat, frame: Option<VarLocation>) returns (r: Option<VarLocation>)
    ensures r == Slots(es, target, frame)
  {
    var intRegsUsed := 0;
    var stackOff := 0;
    ghost var k := 0;
    var i := 0;
    while i < |es|
      invariant 0 <= i <= |es| && 0 <= intRegsUsed && 0 <= stackOff && 0 <= k
      invariant Scanned(es, target, i, k, intRegsUsed, stackOff)
    {
      var child := es[i];
      if !child.Formal? {
        NextEntry(es, i, k);
        i := i + 1;
        continue;
      }
      ScanStops(es, target, i, k, intRegsUsed, stackOff, frame);
      var cls := ClassifyParam(child);
      if cls.Unhandled? { return None; }
      var isTarget := child.id == target;
      if !isTarget { ScanGoesOn(es, target, i, k, intRegsUsed, stackOff); }
      i := i + 1;
      k := k + 1;
      if cls.Integer? {
        if intRegsUsed < 6 {
          if isTarget { return Some(VarLocation(INTEGER_REGISTERS[intRegsUsed], 0, false)); }
          intRegsUsed := intRegsUsed + 1;
        } else {
          if isTarget { r := AbiStackLocation(frame, stackOff); return; }
          stackOff := stackOff + 8;
        }
      } else {
        if isTarget { r := AbiStackLocation(frame, stackOff); return; }
        stackOff := stackOff + RoundUp8(cls.size);
      }
    }
    assert es[..i] == es;
    r := None;
  }
}
