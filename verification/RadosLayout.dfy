/** radostrace replaces the chain walker by one precomputed offset per variable. */
module RadosLayout {
  import opened Words
  import opened VarPath
  import opened PathMeaning

  const SEND_VARS: nat := 12
  const TID: nat := 0
  const GLOBAL_ID: nat := 1

  /** The sum of the member offsets of a chain. */
  function OffsetSum(fs: seq<Field>): int {
    if fs == [] then 0 else OffsetSum(fs[..|fs| - 1]) + fs[|fs| - 1].offset
  }

  /** The members of a chain; fields[0] is the variable itself. */
  function Members(vf: VarField): seq<Field> {
    if vf.fields == [] then [] else vf.fields[1..]
  }

  predicate Flat(vf: VarField) {
    !vf.loc.stack && forall i | 2 <= i < |vf.fields| :: !vf.fields[i].pointer
  }

  /** flat_off */
  method FlatOff(vf: VarField) returns (ok: bool, off: int)
    ensures ok <==> Flat(vf)
    ensures ok ==> off == OffsetSum(Members(vf))
  {
    off := 0;
    if vf.loc.stack { return false, off; }
    var i := 1;
    while i < |vf.fields|
      invariant 1 <= i
      invariant vf.fields != [] ==> i <= |vf.fields| && off == OffsetSum(vf.fields[1..i])
      invariant vf.fields == [] ==> off == 0
      invariant forall j | 2 <= j < i && j < |vf.fields| :: !vf.fields[j].pointer
    {
      if vf.fields[i].pointer && i >= 2 { return false, off; }
      assert vf.fields[1..i + 1][..i - 1] == vf.fields[1..i];
      off := off + vf.fields[i].offset;
      i := i + 1;
    }
    assert vf.fields != [] ==> vf.fields[1..i] == vf.fields[1..];
    ok := true;
  }

  // ================= a flat chain is one addition, and only a flat chain is =================

  lemma {:induction false} SumSplit(f: Field, fs: seq<Field>)
    ensures OffsetSum([f] + fs) == f.offset + OffsetSum(fs)
  {
    var all := [f] + fs;
    if fs == [] {
      assert all[..0] == [];
    } else {
      assert all[..|all| - 1] == [f] + fs[..|fs| - 1];
      SumSplit(f, fs[..|fs| - 1]);
    }
  }

  lemma {:induction false} FlatWalk(mem: Memory, a: U64, fs: seq<Field>)
    requires forall i | 0 <= i < |fs| :: !fs[i].pointer
    ensures WalkFrom(mem, a, fs) == Add64(a, OffsetSum(fs))
    decreases |fs|
  {
    if fs != [] {
      SumSplit(fs[0], fs[1..]);
      assert fs == [fs[0]] + fs[1..];
      FlatWalk(mem, Add64(a, fs[0].offset), fs[1..]);
      Add64Assoc(a, fs[0].offset, OffsetSum(fs[1..]));
    }
  }

  /** The memory in which every word holds c. */
  function Constant(c: U64): Memory {
    (a: U64) => c
  }

  /** Once a pointer is followed, only the memory matters: two constant memories tell. */
  lemma {:induction false} PointerFromBoth(a: U64, b: U64, fs: seq<Field>)
    requires exists i :: 0 <= i < |fs| && fs[i].pointer
    ensures exists x :: WalkFrom(Constant(0), a, fs) == Add64(0, x) && WalkFrom(Constant(1), b, fs) == Add64(1, x)
    decreases |fs|
  {
    if forall i | 1 <= i < |fs| :: !fs[i].pointer {
      var x := fs[0].offset + OffsetSum(fs[1..]);
      FlatWalk(Constant(0), Add64(0, fs[0].offset), fs[1..]);
      FlatWalk(Constant(1), Add64(1, fs[0].offset), fs[1..]);
      Add64Assoc(0, fs[0].offset, OffsetSum(fs[1..]));
      Add64Assoc(1, fs[0].offset, OffsetSum(fs[1..]));
      assert WalkFrom(Constant(0), a, fs) == Add64(0, x) && WalkFrom(Constant(1), b, fs) == Add64(1, x);
    } else {
      var i :| 1 <= i < |fs| && fs[i].pointer;
      assert fs[1..][i - 1].pointer;
      PointerFromBoth(Add64(if fs[0].pointer then 0 else a, fs[0].offset),
                      Add64(if fs[0].pointer then 1 else b, fs[0].offset), fs[1..]);
    }
  }

  /** Walking the chain adds `off` to every non-null start, whatever memory holds. */
  ghost predicate AddsFixed(vf: VarField, off: int)
    requires |vf.fields| >= 2
  {
    forall mem: Memory, v: U64 | v != 0 :: Walk(mem, v, vf) == Add64(v, off)
  }

  lemma FlatAddsFixed(vf: VarField)
    requires |vf.fields| >= 2 && Flat(vf)
    ensures AddsFixed(vf, OffsetSum(Members(vf)))
  {
    var first, rest := vf.fields[1], vf.fields[2..];
    assert Members(vf) == [first] + rest;
    SumSplit(first, rest);
    forall mem: Memory, v: U64 | v != 0 ensures Walk(mem, v, vf) == Add64(v, OffsetSum(Members(vf))) {
      FlatWalk(mem, Add64(v, first.offset), rest);
      Add64Assoc(v, first.offset, OffsetSum(rest));
    }
  }

  /** For a register variable, the walker is one fixed addition in every memory exactly when
      flat_off accepts the chain. */
  lemma CollapsibleIff(vf: VarField)
    requires |vf.fields| >= 2 && !vf.loc.stack
    ensures Flat(vf) <==> exists off :: AddsFixed(vf, off)
  {
    if Flat(vf) {
      FlatAddsFixed(vf);
    } else {
      var rest := vf.fields[2..];
      var start := Add64(1, vf.fields[1].offset);
      var i :| 2 <= i < |vf.fields| && vf.fields[i].pointer;
      assert rest[i - 2].pointer;
      PointerFromBoth(start, start, rest);
      var x :| WalkFrom(Constant(0), start, rest) == Add64(0, x) && WalkFrom(Constant(1), start, rest) == Add64(1, x);
      assert Walk(Constant(0), 1, vf) == Add64(0, x) && Walk(Constant(1), 1, vf) == Add64(1, x);
      assert Add64(0, x) != Add64(1, x);
    }
  }

  // ================= what radostrace checks before it starts =================

  /** The variables of the two probes: op->tid, this->monc->global_id, then ten members of op for
      _send_op; the first two again for _finish_op. */
  datatype Probes = Probes(send: seq<VarField>, fin: seq<VarField>)

  /** What the kernel side is given. */
  datatype Rodata = Rodata(sendOp: int, sendThis: int, finOp: int, finThis: int, off: seq<int>, monc: int, globalId: int)

  /** A root register, a member holding a pointer, and a member of what it points to. */
  predicate TwoLevel(vf: VarField) {
    !vf.loc.stack && |vf.fields| == 3 && vf.fields[2].pointer
  }

  predicate Accepted(p: Probes)
    requires |p.send| == SEND_VARS && |p.fin| >= 2
  {
    && (forall i | 0 <= i < SEND_VARS && i != GLOBAL_ID :: Flat(p.send[i]) && p.send[i].loc.reg == p.send[TID].loc.reg)
    && Flat(p.fin[TID])
    && OffsetSum(Members(p.fin[TID])) == OffsetSum(Members(p.send[TID]))
    && TwoLevel(p.send[GLOBAL_ID])
    && TwoLevel(p.fin[GLOBAL_ID])
    && p.fin[GLOBAL_ID].fields[1].offset == p.send[GLOBAL_ID].fields[1].offset
  }

  /** The offsets of all variables of _send_op but the client id, which takes two steps. */
  method FlatAll(send: seq<VarField>) returns (ok: bool, off: seq<int>)
    requires |send| == SEND_VARS
    ensures |off| == SEND_VARS && (ok <==> forall j | 0 <= j < SEND_VARS && j != GLOBAL_ID :: Flat(send[j]))
    ensures ok ==> forall j | 0 <= j < SEND_VARS && j != GLOBAL_ID :: off[j] == OffsetSum(Members(send[j]))
  {
    off := seq(SEND_VARS, i => 0);
    ok := true;
    var i := 0;
    while i < SEND_VARS
      invariant 0 <= i <= SEND_VARS && |off| == SEND_VARS
      invariant ok <==> forall j | 0 <= j < i && j != GLOBAL_ID :: Flat(send[j])
      invariant ok ==> forall j | 0 <= j < i && j != GLOBAL_ID :: off[j] == OffsetSum(Members(send[j]))
    {
      if i != GLOBAL_ID && ok {
        var flat, o := FlatOff(send[i]);
        ok := flat;
        off := off[i := o];
      }
      i := i + 1;
    }
  }

  /** All variables behind the first two are reached from the register of the op. */
  method SameRegister(send: seq<VarField>) returns (ok: bool)
    requires |send| == SEND_VARS
    ensures ok <==> forall j | 2 <= j < SEND_VARS :: send[j].loc.reg == send[TID].loc.reg
  {
    ok := true;
    var i := 2;
    while i < SEND_VARS && ok
      invariant 2 <= i <= SEND_VARS
      invariant ok <==> forall j | 2 <= j < i :: send[j].loc.reg == send[TID].loc.reg
    {
      ok := send[i].loc.reg == send[TID].loc.reg;
      i := i + 1;
    }
  }

  /** The layout checks of main, which end in the constants of the probes.  A library whose lists
      have other lengths is passed over. */
  method CheckLayout(p: Probes) returns (r: Option<Rodata>)
    ensures r.Some? <==> |p.send| == 12 && |p.fin| >= 2 && Accepted(p)
    ensures r.Some? ==>
              var d := r.value;
              && d.sendOp == p.send[0].loc.reg && d.sendThis == p.send[1].loc.reg
              && d.finOp == p.fin[0].loc.reg && d.finThis == p.fin[1].loc.reg
              && d.monc == p.send[1].fields[1].offset && d.globalId == p.send[1].fields[2].offset
              && |d.off| == 12 && forall i | 0 <= i < 12 && i != 1 :: d.off[i] == OffsetSum(Members(p.send[i]))
  {
    if |p.send| != SEND_VARS || |p.fin| < 2 { return None; }
    var flat, off := FlatAll(p.send);
    var gid := p.send[GLOBAL_ID];
    var same := SameRegister(p.send);
    var ok := flat && !gid.loc.stack && |gid.fields| == 3 && gid.fields[2].pointer && same;
    if !ok { return None; }
    var finTid, finTidOff := FlatOff(p.fin[TID]);
    var fgid := p.fin[GLOBAL_ID];
    ok := finTid && finTidOff == off[TID] && !fgid.loc.stack && |fgid.fields| == 3 && fgid.fields[2].pointer
          && fgid.fields[1].offset == gid.fields[1].offset;
    if !ok { return None; }
    r := Some(Rodata(p.send[TID].loc.reg, gid.loc.reg, p.fin[TID].loc.reg, fgid.loc.reg, off,
                     gid.fields[1].offset, gid.fields[2].offset));
  }

  // ================= accepted layouts are read the way the walker reads them =================

  type Registers = int -> U64

  /** READ_OP: one addition to the root pointer. */
  function ReadOp(mem: Memory, op: U64, off: int): U64 {
    mem(Add64(op, off))
  }

  /** The word a chain leads to, by the general walker. */
  function WalkRead(mem: Memory, regs: Registers, vf: VarField): U64
    requires |vf.fields| >= 2
  {
    mem(Walk(mem, regs(vf.loc.reg), vf))
  }

  /** The client id behind this->monc->global_id, zero when a pointer on the way is null. */
  function Cid(mem: Memory, self: U64, d: Rodata): U64 {
    if self == 0 || mem(Add64(self, d.monc)) == 0 then 0
    else mem(Add64(mem(Add64(self, d.monc)), d.globalId))
  }

  /** read_cid */
  method ReadCid(mem: Memory, self: U64, d: Rodata) returns (cid: U64)
    ensures cid == Cid(mem, self, d)
    ensures self == 0 || mem(Add64(self, d.monc)) == 0 ==> cid == 0
  {
    var monc: U64 := 0;
    cid := 0;
    if self != 0 { monc := mem(Add64(self, d.monc)); }
    if monc != 0 { cid := mem(Add64(monc, d.globalId)); }
  }

  /** Every variable _send_op reads is what the walker would read, for every register file and
      every memory with a non-null op. */
  lemma SendReadsWhatWalkerReads(p: Probes, d: Rodata, regs: Registers, mem: Memory, i: nat)
    requires |p.send| == SEND_VARS && |p.fin| >= 2 && Accepted(p)
    requires i < SEND_VARS && i != GLOBAL_ID && |p.send[i].fields| >= 2
    requires d.sendOp == p.send[TID].loc.reg && |d.off| == SEND_VARS && d.off[i] == OffsetSum(Members(p.send[i]))
    requires regs(d.sendOp) != 0
    ensures ReadOp(mem, regs(d.sendOp), d.off[i]) == WalkRead(mem, regs, p.send[i])
  {
    FlatAddsFixed(p.send[i]);
    assert AddsFixed(p.send[i], d.off[i]);
  }

  /** The tid half of the key _finish_op looks up is what the walker would read there too. */
  lemma FinishReadsSameTid(p: Probes, d: Rodata, regs: Registers, mem: Memory)
    requires |p.send| == SEND_VARS && |p.fin| >= 2 && Accepted(p) && |p.fin[TID].fields| >= 2
    requires d.finOp == p.fin[TID].loc.reg && |d.off| == SEND_VARS && d.off[TID] == OffsetSum(Members(p.send[TID]))
    requires regs(d.finOp) != 0
    ensures ReadOp(mem, regs(d.finOp), d.off[TID]) == WalkRead(mem, regs, p.fin[TID])
  {
    FlatAddsFixed(p.fin[TID]);
    assert AddsFixed(p.fin[TID], d.off[TID]);
  }

  lemma TwoLevelRead(vf: VarField, mem: Memory, regs: Registers)
    requires TwoLevel(vf) && regs(vf.loc.reg) != 0
    ensures WalkRead(mem, regs, vf) == mem(Add64(mem(Add64(regs(vf.loc.reg), vf.fields[1].offset)), vf.fields[2].offset))
  {
    var a := Add64(regs(vf.loc.reg), vf.fields[1].offset);
    var fs := vf.fields[2..];
    assert fs[0] == vf.fields[2] && fs[1..] == [];
    assert WalkFrom(mem, a, fs) == Add64(mem(a), vf.fields[2].offset);
  }

  /** Walking the chain reads one pointer, `x` behind the start, and adds `y` to it. */
  ghost predicate ReadsOnce(vf: VarField, x: int, y: int)
    requires |vf.fields| >= 2
  {
    forall mem: Memory, v: U64 | v != 0 :: Walk(mem, v, vf) == Add64(mem(Add64(v, x)), y)
  }

  lemma WalkOfThree(vf: VarField, mem: Memory, v: U64)
    requires !vf.loc.stack && |vf.fields| == 3 && v != 0
    ensures var a := Add64(v, vf.fields[1].offset);
            Walk(mem, v, vf) == Add64(if vf.fields[2].pointer then mem(a) else a, vf.fields[2].offset)
  {
    var a, fs := Add64(v, vf.fields[1].offset), vf.fields[2..];
    assert fs[0] == vf.fields[2] && fs[1..] == [];
    assert WalkFrom(mem, a, fs) == Add64(if fs[0].pointer then mem(a) else a, fs[0].offset);
  }

  lemma FlatReadsNone(vf: VarField, x: int, y: int)
    requires !vf.loc.stack && |vf.fields| == 3 && !vf.fields[2].pointer
    ensures !ReadsOnce(vf, x, y)
  {
    WalkOfThree(vf, Constant(0), 1);
    WalkOfThree(vf, Constant(1), 1);
    assert Constant(0)(Add64(1, x)) == 0 && Constant(1)(Add64(1, x)) == 1;
    assert Add64(0, y) != Add64(1, y);
  }

  /** A chain of two members from a register is taken for the client id exactly when its walk reads
      one pointer on the way; whether the register itself holds a pointer does not matter. */
  lemma TwoLevelIff(vf: VarField)
    requires !vf.loc.stack && |vf.fields| == 3
    ensures TwoLevel(vf) <==> exists x, y :: ReadsOnce(vf, x, y)
  {
    if vf.fields[2].pointer {
      forall mem: Memory, v: U64 | v != 0
        ensures Walk(mem, v, vf) == Add64(mem(Add64(v, vf.fields[1].offset)), vf.fields[2].offset)
      {
        WalkOfThree(vf, mem, v);
      }
      assert ReadsOnce(vf, vf.fields[1].offset, vf.fields[2].offset);
    } else {
      forall x, y ensures !ReadsOnce(vf, x, y) {
        FlatReadsNone(vf, x, y);
      }
    }
  }

  lemma SameSum(a: U64, x: int, y: int)
    ensures Add64(a, x) == Add64(a, y) <==> (x - y) % TWO64 == 0
  {
    var p, q := (a + x) / TWO64, (a + y) / TWO64;
    assert x - y == TWO64 * (p - q) + (Add64(a, x) - Add64(a, y));
  }

  /** read_cid and the walk of this-> monc -> global_id give the same client id. */
  ghost predicate SameCid(vf: VarField, d: Rodata, mem: Memory, regs: Registers)
    requires TwoLevel(vf)
  {
    var self := regs(vf.loc.reg);
    self != 0 && mem(Add64(self, d.monc)) != 0 ==> Cid(mem, self, d) == WalkRead(mem, regs, vf)
  }

  lemma CongruentCid(vf: VarField, d: Rodata, mem: Memory, regs: Registers)
    requires TwoLevel(vf) && vf.fields[1].offset == d.monc
    requires (vf.fields[2].offset - d.globalId) % TWO64 == 0
    ensures SameCid(vf, d, mem, regs)
  {
    var self := regs(vf.loc.reg);
    if self != 0 {
      TwoLevelRead(vf, mem, regs);
      SameSum(mem(Add64(self, d.monc)), vf.fields[2].offset, d.globalId);
    }
  }

  /** Where every word holds its own address, another offset reads another word. */
  lemma OtherCid(vf: VarField, d: Rodata) returns (mem: Memory, regs: Registers)
    requires TwoLevel(vf) && vf.fields[1].offset == d.monc
    requires (vf.fields[2].offset - d.globalId) % TWO64 != 0
    ensures !SameCid(vf, d, mem, regs)
  {
    var self: U64 := if Add64(1, d.monc) != 0 then 1 else 2;
    mem, regs := Shift(false), (r: int) => self;
    var monc := Add64(self, d.monc);
    ShiftIs(monc);
    ShiftIs(Add64(monc, d.globalId));
    ShiftIs(Add64(monc, vf.fields[2].offset));
    assert monc != 0 && Cid(mem, self, d) == Add64(monc, d.globalId);
    assert WalkRead(mem, regs, vf) == Add64(monc, vf.fields[2].offset) by { TwoLevelRead(vf, mem, regs); }
    SameSum(monc, vf.fields[2].offset, d.globalId);
  }

  lemma ShiftIs(a: U64)
    ensures Shift(false)(a) == a
  {
  }

  /** For non-null pointers read_cid is the two-level walk, in every memory, if and only if the
      probe's second offset is the one taken from _send_op.  _send_op has it by construction;
      main does not compare it for _finish_op. */
  lemma CidIsTwoLevelWalk(vf: VarField, d: Rodata)
    requires TwoLevel(vf) && vf.fields[1].offset == d.monc
    ensures (forall mem: Memory, regs: Registers :: SameCid(vf, d, mem, regs))
            <==> (vf.fields[2].offset - d.globalId) % TWO64 == 0
  {
    if (vf.fields[2].offset - d.globalId) % TWO64 == 0 {
      forall mem: Memory, regs: Registers ensures SameCid(vf, d, mem, regs) {
        CongruentCid(vf, d, mem, regs);
      }
    } else {
      var mem, regs := OtherCid(vf, d);
    }
  }

  /** An int from the sum of a chain's int offsets. */
  predicate Narrow(vf: VarField) {
    -0x4000_0000_0000_0000 <= OffsetSum(Members(vf)) < 0x4000_0000_0000_0000
  }

  ghost predicate OneAddition(vf: VarField)
    requires |vf.fields| >= 2
  {
    exists off :: AddsFixed(vf, off)
  }

  lemma SameAddition(a: VarField, b: VarField)
    requires |a.fields| >= 2 && |b.fields| >= 2 && Flat(a) && Flat(b) && Narrow(a) && Narrow(b)
    ensures OffsetSum(Members(a)) == OffsetSum(Members(b)) <==> exists off :: AddsFixed(a, off) && AddsFixed(b, off)
  {
    FlatAddsFixed(a);
    FlatAddsFixed(b);
    if off :| AddsFixed(a, off) && AddsFixed(b, off) {
      var x, y := OffsetSum(Members(a)), OffsetSum(Members(b));
      assert Walk(Constant(0), 1, a) == Add64(1, x) == Add64(1, off) && Walk(Constant(0), 1, b) == Add64(1, y) == Add64(1, off);
      SameSum(1, x, y);
    }
  }

  /** Each variable of _send_op but the client id is one addition to the op's register. */
  ghost predicate SendsByAddition(send: seq<VarField>)
    requires |send| == 12 && forall i | 0 <= i < 12 :: |send[i].fields| >= 2
  {
    forall i | 0 <= i < 12 && i != 1 :: !send[i].loc.stack && OneAddition(send[i]) && send[i].loc.reg == send[0].loc.reg
  }

  ghost predicate ReadsPointer(vf: VarField) {
    !vf.loc.stack && |vf.fields| == 3 && exists x, y :: ReadsOnce(vf, x, y)
  }

  /** What main accepts, in terms of the walker: every variable of _send_op but the client id is one
      addition to the register of the op; the tid is the same addition in _finish_op; and the client
      id takes one pointer on the way, at the same place in both. */
  lemma AcceptedIff(p: Probes)
    requires |p.send| == 12 && |p.fin| >= 2 && Narrow(p.send[0]) && Narrow(p.fin[0])
    requires (forall i | 0 <= i < 12 :: |p.send[i].fields| >= 2) && |p.fin[0].fields| >= 2 && |p.fin[1].fields| >= 2
    ensures Accepted(p)
            <==> SendsByAddition(p.send) && !p.fin[0].loc.stack
                 && (exists off :: AddsFixed(p.fin[0], off) && AddsFixed(p.send[0], off))
                 && ReadsPointer(p.send[1]) && ReadsPointer(p.fin[1])
                 && p.fin[1].fields[1].offset == p.send[1].fields[1].offset
  {
    forall i | 0 <= i < 12 && i != 1 ensures Flat(p.send[i]) <==> !p.send[i].loc.stack && OneAddition(p.send[i]) {
      if !p.send[i].loc.stack { CollapsibleIff(p.send[i]); }
    }
    if !p.fin[0].loc.stack { CollapsibleIff(p.fin[0]); }
    if Flat(p.fin[0]) && Flat(p.send[0]) { SameAddition(p.fin[0], p.send[0]); }
    PointerIff(p.send[1]);
    PointerIff(p.fin[1]);
  }

  lemma PointerIff(vf: VarField)
    ensures TwoLevel(vf) <==> ReadsPointer(vf)
  {
    if !vf.loc.stack && |vf.fields| == 3 { TwoLevelIff(vf); }
  }

  /** With the constants main takes from accepted probes, _send_op always reads the client id the
      walker does, and _finish_op if and only if its second offset is that of _send_op. */
  lemma AcceptedCids(p: Probes, d: Rodata)
    requires |p.send| == 12 && |p.fin| >= 2 && Accepted(p)
    requires d.monc == p.send[1].fields[1].offset && d.globalId == p.send[1].fields[2].offset
    ensures forall mem: Memory, regs: Registers :: SameCid(p.send[1], d, mem, regs)
    ensures (forall mem: Memory, regs: Registers :: SameCid(p.fin[1], d, mem, regs))
            <==> (p.fin[1].fields[2].offset - p.send[1].fields[2].offset) % TWO64 == 0
  {
    CidIsTwoLevelWalk(p.send[1], d);
    CidIsTwoLevelWalk(p.fin[1], d);
  }

  function Chain(reg: int, fields: seq<Field>): VarField {
    VarField(VarLocation(reg, 0, false), [Field(0, false)] + fields)
  }

  /** Probes that agree in all main compares, with these second offsets of global_id.  Their first
      members are behind a pointer, as those of op and this are. */
  function WithGlobalIds(send: int, fin: int): Probes {
    var op := Chain(3, [Field(8, true)]);
    Probes([op, Chain(4, [Field(16, true), Field(send, true)])] + seq(10, _ => op),
           [Chain(7, [Field(8, true)]), Chain(5, [Field(16, true), Field(fin, true)])])
  }

  /** main accepts probes that differ in that offset, and _finish_op then reads another client id
      than the walker in some memory. */
  lemma UncomparedOffsetHappens(send: int, fin: int, d: Rodata)
    requires (fin - send) % TWO64 != 0 && d.monc == 16 && d.globalId == send
    ensures var p := WithGlobalIds(send, fin);
            && |p.send| == 12 && |p.fin| == 2 && Accepted(p) && TwoLevel(p.fin[1])
            && exists mem: Memory, regs: Registers :: !SameCid(p.fin[1], d, mem, regs)
  {
    var p := WithGlobalIds(send, fin);
    assert Members(Chain(3, [Field(8, true)])) == Members(Chain(7, [Field(8, true)])) == [Field(8, true)];
    assert p.fin[GLOBAL_ID] == Chain(5, [Field(16, true), Field(fin, true)]);
    assert forall i | 0 <= i < SEND_VARS && i != GLOBAL_ID :: p.send[i] == Chain(3, [Field(8, true)]);
    var mem, regs := OtherCid(p.fin[GLOBAL_ID], d);
  }
}
