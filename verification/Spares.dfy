/** Code generation inside a block: three spare registers for the symbols that live in memory and
    for the constants.

    After register allocation a symbol is named by its location: below REGISTER_COUNT it is a
    register of its own, from there on a memory slot.  A constant is a symbol named by its value. */
module Spares {
  import opened Options
  import opened ThreeAddress
  import opened Tm
  import opened TmRun

  const REGISTER_COUNT := 3
  const REGISTER_SPARE := 3

  /** regs[i] is the symbol in register 3 + i.  loaded holds the slots that have been in a spare
      register or in memory before; the others are still VS_EMPTY. */
  datatype Desc = Desc(regs: Registers, loaded: set<nat>)

  type Registers = s: seq<Option<Arg>> | |s| == REGISTER_SPARE witness [None, None, None]

  predicate Shaped(d: Desc) {
    && (forall i, j :: 0 <= i < j < REGISTER_SPARE && d.regs[i].Some? ==> d.regs[i] != d.regs[j])
    && (forall i :: 0 <= i < REGISTER_SPARE && d.regs[i].Some? && d.regs[i].value.Sym? ==>
         d.regs[i].value.id >= REGISTER_COUNT && d.regs[i].value.id in d.loaded)
  }

  /** The position of a spare register with this content, if there is one. */
  function Find(d: Desc, x: Option<Arg>): (i: Option<nat>)
    ensures i.Some? ==> i.value < REGISTER_SPARE && d.regs[i.value] == x
    ensures i.None? ==> forall j :: 0 <= j < REGISTER_SPARE ==> d.regs[j] != x
  {
    if d.regs[0] == x then Some(0) else if d.regs[1] == x then Some(1) else if d.regs[2] == x then Some(2) else None
  }

  /** The first spare register that holds neither of the two symbols. */
  function Victim(d: Desc, ex1: Option<Arg>, ex2: Option<Arg>): (i: Option<nat>)
    ensures i.Some? ==> i.value < REGISTER_SPARE && d.regs[i.value] != ex1 && d.regs[i.value] != ex2
  {
    if d.regs[0] != ex1 && d.regs[0] != ex2 then Some(0)
    else if d.regs[1] != ex1 && d.regs[1] != ex2 then Some(1)
    else if d.regs[2] != ex1 && d.regs[2] != ex2 then Some(2)
    else None
  }

  predicate Assigned(a: Arg) {
    a.Sym? && a.id < REGISTER_COUNT
  }

  /** The register of a symbol, if it is in one. */
  function RegOf(d: Desc, a: Arg): (r: Option<nat>)
    ensures r.Some? ==> r.value < GP
  {
    if Assigned(a) then Some(a.id)
    else
      match Find(d, Some(a))
      case None => None
      case Some(i) => Some(REGISTER_COUNT + i)
  }

  function Slot(a: Arg): int {
    if a.Sym? then a.id - REGISTER_COUNT else 0
  }

  /** gen_load: the value of a symbol goes into a register, unless it never had one. */
  function Load(d: Desc, a: Arg, r: nat): seq<Instr> {
    match a
    case Const(v) => [Instr(LDC, r, v, 0)]
    case Sym(x) => if x in d.loaded then [Instr(LD, r, Slot(a), GP)] else []
  }

  function Mark(d: Desc, i: nat, a: Arg): Desc
    requires i < REGISTER_SPARE
  {
    Desc(d.regs[i := Some(a)], if a.Sym? then d.loaded + {a.id} else d.loaded)
  }

  /** Where a symbol was put and the code that put it there. */
  datatype Found = Found(d: Desc, code: seq<Instr>, r: nat)

  /** The register that find_reg picks: an empty one if there is one. */
  function Chosen(d: Desc, ex1: Option<Arg>, ex2: Option<Arg>): (i: Option<nat>)
    ensures i.Some? ==> i.value < REGISTER_SPARE
    ensures i.Some? && d.regs[i.value].Some? ==> d.regs[i.value] != ex1 && d.regs[i.value] != ex2
  {
    match Find(d, None)
    case Some(i) => Some(i)
    case None => Victim(d, ex1, ex2)
  }

  /** A variable that has to leave its register is stored first. */
  function Evict(x: Option<Arg>, r: nat): seq<Instr> {
    if x.Some? && x.value.Sym? then [Instr(ST, r, Slot(x.value), GP)] else []
  }

  /** find_reg; None where it returns -1. */
  function FindReg(d: Desc, a: Arg, ex1: Option<Arg>, ex2: Option<Arg>): Option<Found> {
    match Chosen(d, ex1, ex2)
    case None => None
    case Some(i) =>
      var r := REGISTER_COUNT + i;
      Some(Found(Mark(d, i, a), Evict(d.regs[i], r) + Load(d, a, r), r))
  }

  /** find_reg is an eviction and a load. */
  lemma FoundAs(d: Desc, a: Arg, ex1: Option<Arg>, ex2: Option<Arg>)
    ensures FindReg(d, a, ex1, ex2) == match Chosen(d, ex1, ex2)
      case None => None
      case Some(i) =>
        Some(Found(Mark(Freed(d, i), i, a), Evict(d.regs[i], REGISTER_COUNT + i) + Load(Freed(d, i), a, REGISTER_COUNT + i), REGISTER_COUNT + i))
  {
    var c := Chosen(d, ex1, ex2);
    if c.Some? {
      assert Mark(Freed(d, c.value), c.value, a) == Mark(d, c.value, a);
    }
  }

  /** The register of an operand, found if it has none. */
  function Operand(d: Desc, a: Arg, ex1: Option<Arg>, ex2: Option<Arg>): Option<Found> {
    match RegOf(d, a)
    case Some(r) => Some(Found(d, [], r))
    case None => FindReg(d, a, ex1, ex2)
  }

  // ----- the invariant of the descriptors -----

  lemma MarkShaped(d: Desc, i: nat, a: Arg)
    requires Shaped(d) && i < REGISTER_SPARE && RegOf(d, a).None?
    ensures Shaped(Mark(d, i, a)) && RegOf(Mark(d, i, a), a) == Some(REGISTER_COUNT + i)
    ensures forall b :: b != a && d.regs[i] != Some(b) ==> RegOf(Mark(d, i, a), b) == RegOf(d, b)
    ensures forall b :: b != a && d.regs[i] == Some(b) ==> RegOf(Mark(d, i, a), b) == None
  {
  }

  /** Three registers and two exclusions: there is always one to evict. */
  lemma FindRegTotal(d: Desc, a: Arg, ex1: Option<Arg>, ex2: Option<Arg>)
    requires Shaped(d) && RegOf(d, a).None?
    ensures FindReg(d, a, ex1, ex2).Some?
  {
  }

  /** The symbol gets a register; the excluded ones keep theirs. */
  lemma FindRegKeeps(d: Desc, a: Arg, ex1: Option<Arg>, ex2: Option<Arg>)
    requires Shaped(d) && RegOf(d, a).None?
    ensures FindReg(d, a, ex1, ex2).Some?
    ensures var f := FindReg(d, a, ex1, ex2).value;
      && Shaped(f.d) && RegOf(f.d, a) == Some(f.r) && d.loaded <= f.d.loaded <= d.loaded + ArgSyms(a)
      && (forall b :: (ex1 == Some(b) || ex2 == Some(b)) && RegOf(d, b).Some? ==> RegOf(f.d, b) == RegOf(d, b))
  {
    FindRegTotal(d, a, ex1, ex2);
    var i := Chosen(d, ex1, ex2).value;
    MarkShaped(d, i, a);
    forall b | (ex1 == Some(b) || ex2 == Some(b)) && RegOf(d, b).Some? ensures b != a && d.regs[i] != Some(b) {
    }
    hide RegOf, Shaped, Chosen, Find;
  }

  lemma OperandKeeps(d: Desc, a: Arg, ex1: Option<Arg>, ex2: Option<Arg>)
    requires Shaped(d)
    ensures Operand(d, a, ex1, ex2).Some?
    ensures var f := Operand(d, a, ex1, ex2).value;
      && Shaped(f.d) && RegOf(f.d, a) == Some(f.r) && d.loaded <= f.d.loaded <= d.loaded + ArgSyms(a)
      && (forall b :: (ex1 == Some(b) || ex2 == Some(b)) && RegOf(d, b).Some? ==> RegOf(f.d, b) == RegOf(d, b))
  {
    if RegOf(d, a).None? {
      FindRegKeeps(d, a, ex1, ex2);
    }
    hide RegOf, Shaped, FindReg;
  }

  // ----- what the machine holds -----

  /** The machine holds the value of a where the descriptors say. */
  ghost predicate Located(d: Desc, env: Env, m: Machine, a: Arg) {
    match RegOf(d, a)
    case Some(r) => m.reg[r] == Val(env, a)
    case None => a.Sym? && a.id in d.loaded ==> Slot(a) < DADDR_SIZE && m.dmem[Slot(a)] == Val(env, a)
  }

  ghost predicate Sane(d: Desc) {
    Shaped(d) && forall x :: x in d.loaded ==> x < REGISTER_COUNT + DADDR_SIZE
  }

  /** Every symbol is where it should be, but for the one that is about to be written. */
  ghost predicate Rel(d: Desc, env: Env, m: Machine, hole: Option<Arg>) {
    && Sane(d) && m.reg[GP] == 0
    && (forall a :: hole != Some(a) ==> Located(d, env, m, a))
  }

  /** The symbol has a value that can be loaded: it is assigned to a register, a constant, or has
      been seen before. */
  predicate Known(d: Desc, a: Arg) {
    a.Sym? && a.id >= REGISTER_COUNT ==> a.id in d.loaded
  }

  predicate InMemory(a: Arg) {
    a.Sym? ==> a.id < REGISTER_COUNT + DADDR_SIZE
  }

  function Freed(d: Desc, i: nat): Desc
    requires i < REGISTER_SPARE
  {
    Desc(d.regs[i := None], d.loaded)
  }

  ghost predicate SameIO(m: Machine, n: Machine) {
    n.input == m.input && n.output == m.output
  }

  lemma FreedRegs(d: Desc, i: nat)
    requires Shaped(d) && i < REGISTER_SPARE
    ensures Shaped(Freed(d, i))
    ensures forall a :: RegOf(Freed(d, i), a) == if d.regs[i] == Some(a) then None else RegOf(d, a)
  {
  }

  /** The evicted symbol is in memory afterwards, everything else where it was. */
  lemma EvictOk(d: Desc, env: Env, m: Machine, hole: Option<Arg>, i: nat)
    requires Rel(d, env, m, hole) && i < REGISTER_SPARE
    ensures AllPlain(Evict(d.regs[i], REGISTER_COUNT + i)) && Exec(Evict(d.regs[i], REGISTER_COUNT + i), m).Some?
    ensures var n := Exec(Evict(d.regs[i], REGISTER_COUNT + i), m).value;
      Rel(Freed(d, i), env, n, hole) && SameIO(m, n)
  {
    FreedRegs(d, i);
    var x := d.regs[i];
    if x.Some? && x.value.Sym? {
      var r := REGISTER_COUNT + i;
      var st := Instr(ST, r, Slot(x.value), GP);
      ExecOne(st, m);
      assert RegOf(d, x.value) == Some(r);
      assert Located(d, env, m, x.value) || hole == x;
      var n := Exec([st], m).value;
      assert n == m.(dmem := m.dmem[Slot(x.value) := m.reg[r]]);
      hide Exec, RegOf, Shaped, AllPlain;
      forall a | hole != Some(a) ensures Located(Freed(d, i), env, n, a) {
        assert Located(d, env, m, a);
      }
    } else {
      hide RegOf, Shaped;
      forall a | hole != Some(a) ensures Located(Freed(d, i), env, m, a) {
        assert Located(d, env, m, a);
      }
    }
  }

  /** The symbol is in its new register afterwards, everything else where it was. */
  lemma LoadOk(d: Desc, env: Env, m: Machine, hole: Option<Arg>, i: nat, a: Arg)
    requires Rel(d, env, m, hole) && i < REGISTER_SPARE && d.regs[i] == None && RegOf(d, a).None?
    requires InMemory(a) && (Known(d, a) || hole == Some(a))
    ensures AllPlain(Load(d, a, REGISTER_COUNT + i)) && Exec(Load(d, a, REGISTER_COUNT + i), m).Some?
    ensures var n := Exec(Load(d, a, REGISTER_COUNT + i), m).value;
      Rel(Mark(d, i, a), env, n, hole) && SameIO(m, n)
  {
    MarkShaped(d, i, a);
    var r := REGISTER_COUNT + i;
    assert Located(d, env, m, a) || hole == Some(a);
    LoadRuns(d, env, m, r, a);
    var e, n := Mark(d, i, a), Exec(Load(d, a, r), m).value;
    hide Load, Exec, AllPlain, Shaped;
    forall b | hole != Some(b) ensures Located(e, env, n, b) {
      assert Located(d, env, m, b);
      if b != a {
        RegOfOther(d, i, b);
      }
    }
  }

  /** The load changes one register, and brings the value there if the symbol has one. */
  lemma LoadRuns(d: Desc, env: Env, m: Machine, r: nat, a: Arg)
    requires Sane(d) && m.reg[GP] == 0 && r < GP && RegOf(d, a).None?
    ensures AllPlain(Load(d, a, r)) && Exec(Load(d, a, r), m).Some?
    ensures var n := Exec(Load(d, a, r), m).value;
      && n.dmem == m.dmem && SameIO(m, n) && (forall k :: 0 <= k < NO_REGS && k != r ==> n.reg[k] == m.reg[k])
      && (Known(d, a) && Located(d, env, m, a) ==> n.reg[r] == Val(env, a))
  {
    if Load(d, a, r) != [] {
      ExecOne(Load(d, a, r)[0], m);
      assert Load(d, a, r) == [Load(d, a, r)[0]];
    }
  }

  lemma RegOfOther(d: Desc, i: nat, b: Arg)
    requires Shaped(d) && i < REGISTER_SPARE && d.regs[i] == None
    ensures RegOf(d, b) != Some(REGISTER_COUNT + i)
  {
  }
}
