/** The end of a block: the live symbols go back to memory, and a test becomes a comparison with zero. */
module SpareEnds {
  import opened Options
  import opened ThreeAddress
  import opened Tm
  import opened TmRun
  import opened Spares
  import opened SpareCode
  import opened SpareBlocks
  import opened LivenessSound

  // ----- gen_bb_loads -----

  /** The store for spare register i, if its symbol is live at the end of the block. */
  function BoundaryStore(d: Desc, i: nat, out: set<nat>): seq<Instr>
    requires i < REGISTER_SPARE
  {
    if d.regs[i].Some? && d.regs[i].value.Sym? && d.regs[i].value.id in out then Evict(d.regs[i], REGISTER_COUNT + i) else []
  }

  function BoundaryCode(d: Desc, out: set<nat>): seq<Instr> {
    BoundaryStore(d, 0, out) + BoundaryStore(d, 1, out) + BoundaryStore(d, 2, out)
  }

  /** At the start of a block every spare register is free. */
  function Emptied(d: Desc): Desc {
    Desc([None, None, None], d.loaded)
  }

  /** The environment after register i is given up: a symbol that was not stored falls back to
      what memory holds. */
  function Fallback(d: Desc, i: nat, out: set<nat>, env: Env, m: Machine): Env
    requires i < REGISTER_SPARE
  {
    match d.regs[i]
    case Some(Sym(x)) => if x in out || !(0 <= Slot(Sym(x)) < DADDR_SIZE) then env else env[x := m.dmem[Slot(Sym(x))]]
    case _ => env
  }

  lemma GiveUp(d: Desc, i: nat, out: set<nat>, env: Env, m: Machine)
    requires Rel(d, env, m, None) && i < REGISTER_SPARE
    ensures var code := BoundaryStore(d, i, out);
      && AllPlain(code) && Exec(code, m).Some?
      && var n := Exec(code, m).value; var e := Fallback(d, i, out, env, m);
         Rel(Freed(d, i), e, n, None) && SameIO(m, n) && n.reg == m.reg && AgreeOn(out, env, e)
         && AgreeOn({0, 1, 2}, env, e)
  {
    FreedRegs(d, i);
    if BoundaryStore(d, i, out) != [] {
      EvictOk(d, env, m, None, i);
      EvictRegs(d, i, env, m);
    } else {
      var e := Fallback(d, i, out, env, m);
      hide Exec;
      assert Exec([], m) == Some(m) by { ExecNil(m); }
      forall a ensures Located(Freed(d, i), e, m, a) {
        assert Located(d, env, m, a);
      }
    }
  }

  lemma ExecNil(m: Machine)
    ensures Exec([], m) == Some(m)
  {
  }

  lemma EvictRegs(d: Desc, i: nat, env: Env, m: Machine)
    requires Rel(d, env, m, None) && i < REGISTER_SPARE
    requires AllPlain(Evict(d.regs[i], REGISTER_COUNT + i)) && Exec(Evict(d.regs[i], REGISTER_COUNT + i), m).Some?
    ensures Exec(Evict(d.regs[i], REGISTER_COUNT + i), m).value.reg == m.reg
  {
    var x := d.regs[i];
    if x.Some? && x.value.Sym? {
      ExecOne(Instr(ST, REGISTER_COUNT + i, Slot(x.value), GP), m);
    }
    hide Exec, Rel, AllPlain;
  }

  lemma AgreeTrans(live: set<nat>, a: Env, b: Env, c: Env)
    requires AgreeOn(live, a, b) && AgreeOn(live, b, c)
    ensures AgreeOn(live, a, c)
  {
  }

  /** After the boundary stores every symbol that is live has its value in memory or in its own
      register: the machine matches an environment that agrees on the live symbols. */
  lemma BoundaryOk(d: Desc, out: set<nat>, env: Env, m: Machine) returns (e: Env, n: Machine)
    requires Rel(d, env, m, None)
    ensures AllPlain(BoundaryCode(d, out)) && Exec(BoundaryCode(d, out), m) == Some(n)
    ensures Rel(Emptied(d), e, n, None) && SameIO(m, n) && n.reg == m.reg
    ensures AgreeOn(out, env, e) && AgreeOn({0, 1, 2}, env, e)
  {
    var d1 := Freed(d, 0);
    var d2 := Freed(d1, 1);
    var a, b, c := BoundaryStore(d, 0, out), BoundaryStore(d1, 1, out), BoundaryStore(d2, 2, out);
    assert BoundaryStore(d, 1, out) == b && BoundaryStore(d, 2, out) == c;
    assert Freed(d2, 2) == Emptied(d);
    hide Rel, AllPlain, Exec, AgreeOn, BoundaryStore, Fallback, Freed;
    GiveUp(d, 0, out, env, m);
    var m1, e1 := Exec(a, m).value, Fallback(d, 0, out, env, m);
    GiveUp(d1, 1, out, e1, m1);
    var m2, e2 := Exec(b, m1).value, Fallback(d1, 1, out, e1, m1);
    GiveUp(d2, 2, out, e2, m2);
    n, e := Exec(c, m2).value, Fallback(d2, 2, out, e2, m2);
    ExecAppend(a, b, m);
    ExecAppend(a + b, c, m);
    AgreeTrans(out, env, e1, e2);
    AgreeTrans(out, env, e2, e);
    AgreeTrans({0, 1, 2}, env, e1, e2);
    AgreeTrans({0, 1, 2}, env, e2, e);
  }

  // ----- gen_cond_jmp -----

  /** The jump that skips the guarded code: the opposite of the comparison, but for TEQ and TNEQ. */
  function TestOp(op: BinOp): Op {
    match op
    case Eq => JEQ
    case Neq => JNE
    case Lt => JGE
    case Gt => JLE
    case Le => JGT
    case _ => JLT
  }

  predicate Comparison(op: BinOp) {
    !Arithmetic(op)
  }

  /** Whether the jump is taken on a difference. */
  predicate Taken(op: Op, diff: int) {
    match op
    case JEQ => diff == 0
    case JNE => diff != 0
    case JGE => diff >= 0
    case JLE => diff <= 0
    case JGT => diff > 0
    case JLT => diff < 0
    case _ => false
  }

  predicate IsTest(op: Op) {
    op.JLT? || op.JLE? || op.JGT? || op.JGE? || op.JEQ? || op.JNE?
  }

  lemma JumpTaken(op: Op, n: Machine, r: nat, disp: int)
    requires IsTest(op) && r < PC
    ensures var j := Instr(op, r, disp, PC);
      GoodInstr(j) && Execute(n, j) == Okay(if Taken(op, n.reg[r]) then SetReg(n, PC, disp + n.reg[PC]) else n)
  {
  }

  /** The jump skips the code when the condition is false, exactly for the four orderings. */
  lemma TestExact(op: BinOp)
    requires Comparison(op)
    ensures (forall x, y :: Taken(TestOp(op), x - y) <==> Apply(op, x, y) == Some(0)) <==> !op.Eq? && !op.Neq?
  {
    assert Apply(op, 0, 0).Some?;
    if op.Eq? || op.Neq? {
      assert Taken(TestOp(op), 0 - 0) <==> Apply(op, 0, 0) != Some(0);
    } else {
      forall x, y ensures Taken(TestOp(op), x - y) <==> Apply(op, x, y) == Some(0) {
      }
    }
  }

  /** For TEQ and TNEQ it is always the wrong way round. */
  lemma EqualityInverted(op: BinOp, x: int, y: int)
    requires op.Eq? || op.Neq?
    ensures Taken(TestOp(op), x - y) <==> Apply(op, x, y) != Some(0)
  {
  }

  /** The code of a comparison leaves the difference in the register of its result. */
  lemma CompareOk(d: Desc, i: Ins, st: State, m: Machine) returns (r1: nat, n: Machine)
    requires Rel(d, st.env, m, None) && IOAgrees(st, m) && Ready(d, i) && i.Bin? && Comparison(i.op)
    ensures GenIns(d, i).Some? && AllPlain(GenIns(d, i).value.1) && Exec(GenIns(d, i).value.1, m) == Some(n)
    ensures var x := Val(st.env, i.a1) - Val(st.env, i.a2); var e := GenIns(d, i).value.0;
      && Rel(e, st.env[i.r := x], n, None) && IOAgrees(st, n)
      && RegOf(e, Sym(i.r)) == Some(r1) && n.reg[r1] == x
      && RegOf(e, i.a1).Some? && RegOf(e, i.a2).Some?
  {
    var sub := Bin(Sub, i.r, i.a1, i.a2);
    ReadyArg(d, i, i.a1);
    ReadyArg(d, i, i.a2);
    assert i.r in Defs(i);
    var hole := HoleFor(i.r, i.a1, i.a2);
    GetReg3Ok(d, st.env, m, hole, i.r, i.a1, i.a2);
    var o := GetReg3(d, i.r, i.a1, i.a2).value;
    var k := Exec(o.code, m).value;
    var alu := Instr(SUB, o.r1, o.r2, o.r3);
    assert Located(o.d, st.env, k, i.a1) && Located(o.d, st.env, k, i.a2);
    AluOk(sub, st, k, o.r1, o.r2, o.r3);
    OnlyHole(o.d, st.env, k, hole, i.r);
    var x := Val(st.env, i.a1) - Val(st.env, i.a2);
    assert Apply(Sub, Val(st.env, i.a1), Val(st.env, i.a2)) == Some(x);
    assert GenIns(d, i) == Some((o.d, o.code + [alu]));
    r1 := o.r1;
    hide GetReg3, Exec, AllPlain, Ready, RegOf, Shaped, Rel, Execute, Plain, Apply, AluOp, Increments, GenIns, Comparison;
    ExecThen(o.code, alu, m);
    n := SetReg(k, o.r1, x);
    WriteOk(o.d, st.env, k, n, i.r, o.r1, x);
  }

  /** As a value, the result of a comparison is right exactly where the difference is the truth value. */
  lemma ComparisonExact(d: Desc, i: Ins, st: State, m: Machine)
    requires Rel(d, st.env, m, None) && IOAgrees(st, m) && Ready(d, i) && i.Bin? && Comparison(i.op)
    ensures var x, y := Val(st.env, i.a1), Val(st.env, i.a2);
      Simulates(GenIns(d, i), i, st, m) <==> Apply(i.op, x, y) == Some(x - y)
  {
    var r1, n := CompareOk(d, i, st, m);
    var x, y := Val(st.env, i.a1), Val(st.env, i.a2);
    var v := Apply(i.op, x, y).value;
    var e := GenIns(d, i).value.0;
    assert Effect(i, st) == Some(st.(env := st.env[i.r := v]));
    hide Exec, AllPlain, GenIns, Shaped, Effect, Ready, Apply;
    if v != x - y {
      assert !Located(e, st.env[i.r := v], n, Sym(i.r));
    }
  }

  /** A comparison and the test of its result: get_reg finds every operand in a register, so that
      no code is emitted before the boundary stores. */
  function GenTest(d: Desc, i: Ins, out: set<nat>): Option<(Desc, seq<Instr>, nat)>
    requires i.Bin?
  {
    match GetReg3(d, i.r, i.a1, i.a2)
    case None => None
    case Some(o) => Some((Emptied(o.d), o.code + BoundaryCode(o.d, out), o.r1))
  }

  lemma GetReg3Resident(d: Desc, i: Ins)
    requires i.Bin? && RegOf(d, Sym(i.r)).Some? && RegOf(d, i.a1).Some? && RegOf(d, i.a2).Some?
    ensures GetReg3(d, i.r, i.a1, i.a2)
         == Some(Ops(d, [], RegOf(d, Sym(i.r)).value, RegOf(d, i.a1).value, RegOf(d, i.a2).value))
  {
    var none: seq<Instr> := [];
    assert none + none == none;
    hide RegOf;
  }

  lemma TestCode(d: Desc, i: Ins, out: set<nat>)
    requires i.Bin? && RegOf(d, Sym(i.r)).Some? && RegOf(d, i.a1).Some? && RegOf(d, i.a2).Some?
    ensures GenTest(d, i, out) == Some((Emptied(d), BoundaryCode(d, out), RegOf(d, Sym(i.r)).value))
  {
    GetReg3Resident(d, i);
    assert [] + BoundaryCode(d, out) == BoundaryCode(d, out);
    hide GetReg3, RegOf, BoundaryCode;
  }

  lemma AgreeBut(out: set<nat>, r: nat, x: int, a: Env, b: Env)
    requires AgreeOn(out, a[r := x], b)
    ensures AgreeOn(out - {r}, a, b)
  {
  }

  /** A block that ends in a comparison and a test of it: when the machine comes to the jump, the
      spare registers are free, every live symbol is in place, and the register that the jump tests
      holds the difference of the operands. */
  lemma TestOk(d: Desc, i: Ins, st: State, m: Machine, out: set<nat>) returns (e: Env, n: Machine)
    requires Rel(d, st.env, m, None) && IOAgrees(st, m) && Ready(d, i) && i.Bin? && Comparison(i.op)
    ensures GenIns(d, i).Some? && GenTest(GenIns(d, i).value.0, i, out).Some?
    ensures var (d1, cmp) := GenIns(d, i).value;
      var (d2, ends, r) := GenTest(d1, i, out).value;
      && AllPlain(cmp + ends) && Exec(cmp + ends, m) == Some(n)
      && d2 == Emptied(d1) && Rel(d2, e, n, None) && IOAgrees(st, n)
      && AgreeOn(out - {i.r}, st.env, e)
      && r < GP && n.reg[r] == Val(st.env, i.a1) - Val(st.env, i.a2)
  {
    hide *;
    var r1, k := CompareOk(d, i, st, m);
    var (d1, cmp) := GenIns(d, i).value;
    TestCode(d1, i, out);
    var x := Val(st.env, i.a1) - Val(st.env, i.a2);
    e, n := BoundaryOk(d1, out, st.env[i.r := x], k);
    AgreeBut(out, i.r, x, st.env, e);
    ExecAppend(cmp, BoundaryCode(d1, out), m);
    IOThrough(st, k, n);
  }

  lemma IOThrough(st: State, m: Machine, n: Machine)
    requires IOAgrees(st, m) && SameIO(m, n)
    ensures IOAgrees(st, n)
  {
  }

  /** The jump behind code that ends at line, with the displacement to loc. */
  function TestJump(op: BinOp, r: nat, line: int, loc: int): Instr {
    Instr(TestOp(op), r, loc - (line + 1), PC)
  }

  /** Where the machine goes from that jump. */
  function JumpTo(op: BinOp, diff: int, line: int, loc: int): int {
    if Taken(TestOp(op), diff) then loc else line + 1
  }

  lemma TestSteps(imem: Program, line: nat, m: Machine, op: BinOp, r: nat, diff: int, loc: int)
    requires Comparison(op) && r < GP && line < |imem| && imem[line] == TestJump(op, r, line, loc)
    requires m.reg[PC] == line && m.reg[r] == diff
    ensures StepTM(imem, m) == Okay(At(m, JumpTo(op, diff, line, loc)))
  {
    var a := SetReg(m, PC, line + 1);
    JumpTaken(TestOp(op), a, r, loc - (line + 1));
    assert SetReg(a, PC, loc).reg == SetReg(m, PC, loc).reg;
    hide Execute;
  }

  lemma LoadedParts(imem: Program, at: nat, a: seq<Instr>, i: Instr)
    requires Loaded(imem, at, a + [i])
    ensures Loaded(imem, at, a) && at + |a| < |imem| && imem[at + |a|] == i
  {
    var c := a + [i];
    assert imem[at..at + |a|] == imem[at..at + |c|][..|a|] == a;
    assert imem[at..at + |c|][|a|] == i;
  }

  /** A machine that only its program counter distinguishes from one that matches the state. */
  ghost predicate MatchesAt(d: Desc, e: Env, st: State, m: Machine, pc: int) {
    Rel(d, e, m, None) && IOAgrees(st, m) && m.reg[PC] == pc
  }

  lemma MovedMatches(d: Desc, e: Env, st: State, m: Machine, pc: int)
    requires Rel(d, e, m, None) && IOAgrees(st, m)
    ensures MatchesAt(d, e, st, At(m, pc), pc)
  {
    RelMoved(d, e, m, pc);
  }

  lemma AtAgain(m: Machine, line: int, pc: int, r: nat)
    requires r < GP
    ensures At(m, line).reg[r] == m.reg[r] && At(m, line).reg[PC] == line
    ensures At(At(m, line), pc) == At(m, pc)
  {
    AtAt(m, line, pc);
  }

  /** Straight-line code and the jump behind it. */
  lemma JumpRuns(imem: Program, at: nat, code: seq<Instr>, m: Machine, k: Machine, op: BinOp, r: nat, diff: int, loc: int)
    requires Comparison(op) && r < GP && m.reg[PC] == at && AllPlain(code) && Exec(code, m) == Some(k) && k.reg[r] == diff
    requires Loaded(imem, at, code + [TestJump(op, r, at + |code|, loc)])
    ensures RunTM(imem, m, |code| + 1) == Some(At(k, JumpTo(op, diff, at + |code|, loc)))
  {
    hide *;
    var line := at + |code|;
    var pc := JumpTo(op, diff, line, loc);
    AtAgain(k, line, pc, r);
    LoadedParts(imem, at, code, TestJump(op, r, line, loc));
    RunsThrough(imem, at, code, m);
    TestSteps(imem, line, At(k, line), op, r, diff, loc);
    OneStep(imem, At(k, line), At(k, pc));
    RunTMAdd(imem, m, |code|, 1);
  }

  /** Under stepTM the comparison, the boundary stores and the jump bring the machine to loc if the
      jump is taken on the difference, and behind the jump otherwise. */
  lemma TestRuns(d: Desc, i: Ins, st: State, m: Machine, out: set<nat>, imem: Program, at: nat, loc: int) returns (e: Env, n: Machine)
    requires Rel(d, st.env, m, None) && IOAgrees(st, m) && Ready(d, i) && i.Bin? && Comparison(i.op) && m.reg[PC] == at
    requires GenIns(d, i).Some? && GenTest(GenIns(d, i).value.0, i, out).Some? ==> (
      var (d1, cmp) := GenIns(d, i).value;
      var (d2, ends, r) := GenTest(d1, i, out).value;
      Loaded(imem, at, cmp + ends + [TestJump(i.op, r, at + |cmp + ends|, loc)]))
    ensures GenIns(d, i).Some? && GenTest(GenIns(d, i).value.0, i, out).Some?
    ensures var (d1, cmp) := GenIns(d, i).value;
      var (d2, ends, r) := GenTest(d1, i, out).value;
      var diff := Val(st.env, i.a1) - Val(st.env, i.a2);
      && RunTM(imem, m, |cmp + ends| + 1) == Some(n) && AgreeOn(out - {i.r}, st.env, e)
      && MatchesAt(d2, e, st, n, JumpTo(i.op, diff, at + |cmp + ends|, loc))
  {
    hide *;
    var k;
    e, k := TestOk(d, i, st, m, out);
    var (d1, cmp) := GenIns(d, i).value;
    var (d2, ends, r) := GenTest(d1, i, out).value;
    var diff := Val(st.env, i.a1) - Val(st.env, i.a2);
    var pc := JumpTo(i.op, diff, at + |cmp + ends|, loc);
    JumpRuns(imem, at, cmp + ends, m, k, i.op, r, diff, loc);
    n := At(k, pc);
    MovedMatches(d2, e, st, k, pc);
  }

  lemma OneStep(imem: Program, m: Machine, n: Machine)
    requires StepTM(imem, m) == Okay(n)
    ensures RunTM(imem, m, 1) == Some(n)
  {
    RunFirst(imem, m, 0);
    hide StepTM;
  }

  lemma OrderingJumps(op: BinOp, x: int, y: int, line: int, loc: int)
    requires Comparison(op) && !op.Eq? && !op.Neq?
    ensures JumpTo(op, x - y, line, loc) == if Apply(op, x, y) == Some(0) then loc else line + 1
  {
    TestExact(op);
  }

  /** For the four orderings: the machine is at the label exactly when the condition is false. */
  lemma OrderingRuns(d: Desc, i: Ins, st: State, m: Machine, out: set<nat>, imem: Program, at: nat, loc: int) returns (e: Env, n: Machine)
    requires Rel(d, st.env, m, None) && IOAgrees(st, m) && Ready(d, i) && m.reg[PC] == at
    requires i.Bin? && Comparison(i.op) && !i.op.Eq? && !i.op.Neq?
    requires GenIns(d, i).Some? && GenTest(GenIns(d, i).value.0, i, out).Some? ==> (
      var (d1, cmp) := GenIns(d, i).value;
      var (d2, ends, r) := GenTest(d1, i, out).value;
      Loaded(imem, at, cmp + ends + [TestJump(i.op, r, at + |cmp + ends|, loc)]))
    ensures GenIns(d, i).Some? && GenTest(GenIns(d, i).value.0, i, out).Some?
    ensures var (d1, cmp) := GenIns(d, i).value;
      var (d2, ends, r) := GenTest(d1, i, out).value;
      var fails := Apply(i.op, Val(st.env, i.a1), Val(st.env, i.a2)) == Some(0);
      && RunTM(imem, m, |cmp + ends| + 1) == Some(n) && AgreeOn(out - {i.r}, st.env, e)
      && MatchesAt(d2, e, st, n, if fails then loc else at + |cmp + ends| + 1)
  {
    hide *;
    e, n := TestRuns(d, i, st, m, out, imem, at, loc);
    OrderingJumps(i.op, Val(st.env, i.a1), Val(st.env, i.a2), at + |GenIns(d, i).value.1 + GenTest(GenIns(d, i).value.0, i, out).value.1|, loc);
  }
}
