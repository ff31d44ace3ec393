/** The code of one instruction, and that it does on the machine what the instruction means. */
module SpareCode {
  import opened Options
  import opened ThreeAddress
  import opened Tm
  import opened TmRun
  import opened Spares

  // ----- operands -----

  lemma FindRegOk(d: Desc, env: Env, m: Machine, hole: Option<Arg>, a: Arg, ex1: Option<Arg>, ex2: Option<Arg>)
    requires Rel(d, env, m, hole) && RegOf(d, a).None? && InMemory(a) && (Known(d, a) || hole == Some(a))
    ensures FindReg(d, a, ex1, ex2).Some?
    ensures var f := FindReg(d, a, ex1, ex2).value;
      AllPlain(f.code) && Exec(f.code, m).Some? && Rel(f.d, env, Exec(f.code, m).value, hole) && SameIO(m, Exec(f.code, m).value)
  {
    FindRegTotal(d, a, ex1, ex2);
    var i := Chosen(d, ex1, ex2).value;
    var r := REGISTER_COUNT + i;
    var e := Freed(d, i);
    assert Mark(e, i, a) == Mark(d, i, a) && Load(e, a, r) == Load(d, a, r);
    FreedRegs(d, i);
    EvictOk(d, env, m, hole, i);
    var n := Exec(Evict(d.regs[i], r), m).value;
    hide Rel, Evict, Load, Mark, Exec, AllPlain, Chosen, RegOf;
    LoadOk(e, env, n, hole, i, a);
    ExecAppend(Evict(d.regs[i], r), Load(d, a, r), m);
  }

  ghost predicate FoundOk(f: Found, env: Env, m: Machine, hole: Option<Arg>) {
    && AllPlain(f.code) && Exec(f.code, m).Some?
    && Rel(f.d, env, Exec(f.code, m).value, hole) && SameIO(m, Exec(f.code, m).value)
  }

  lemma OperandOk(d: Desc, env: Env, m: Machine, hole: Option<Arg>, a: Arg, ex1: Option<Arg>, ex2: Option<Arg>)
    requires Rel(d, env, m, hole) && InMemory(a) && (Known(d, a) || hole == Some(a))
    ensures Operand(d, a, ex1, ex2).Some? && FoundOk(Operand(d, a, ex1, ex2).value, env, m, hole)
  {
    if RegOf(d, a).None? {
      FindRegOk(d, env, m, hole, a, ex1, ex2);
    }
    hide FindReg, Rel;
  }

  /** The registers of the operands, and the code that brings them there. */
  datatype Ops = Ops(d: Desc, code: seq<Instr>, r1: nat, r2: nat, r3: nat)

  /** get_reg for the result and one operand. */
  function GetReg2(d: Desc, r: nat, a1: Arg, ex: Option<Arg>): Option<Ops> {
    match Operand(d, Sym(r), Some(a1), ex)
    case None => None
    case Some(f) =>
      match Operand(f.d, a1, if ex.Some? then ex else Some(Sym(r)), if ex.Some? then Some(Sym(r)) else None)
      case None => None
      case Some(g) => Some(Ops(g.d, f.code + g.code, f.r, g.r, 0))
  }

  /** get_reg for the result and two operands. */
  function GetReg3(d: Desc, r: nat, a1: Arg, a2: Arg): Option<Ops> {
    match GetReg2(d, r, a1, Some(a2))
    case None => None
    case Some(o) =>
      match Operand(o.d, a2, Some(a1), Some(Sym(r)))
      case None => None
      case Some(g) => Some(Ops(g.d, o.code + g.code, o.r1, o.r2, g.r))
  }

  /** The result register may hold anything if the instruction does not read it. */
  function HoleFor(r: nat, a1: Arg, a2: Arg): Option<Arg> {
    if a1 == Sym(r) || a2 == Sym(r) then None else Some(Sym(r))
  }

  ghost predicate OpsOk(o: Ops, env: Env, m: Machine, hole: Option<Arg>) {
    && AllPlain(o.code) && Exec(o.code, m).Some?
    && Rel(o.d, env, Exec(o.code, m).value, hole) && SameIO(m, Exec(o.code, m).value)
  }

  lemma Weaken(d: Desc, env: Env, m: Machine, hole: Option<Arg>)
    requires Rel(d, env, m, None)
    ensures Rel(d, env, m, hole)
  {
    hide Located, Shaped;
  }

  lemma OnlyHole(d: Desc, env: Env, m: Machine, hole: Option<Arg>, r: nat)
    requires Rel(d, env, m, hole) && (hole == None || hole == Some(Sym(r)))
    ensures Rel(d, env, m, Some(Sym(r)))
  {
    hide Located, Shaped;
  }

  lemma GetReg2Ok(d: Desc, env: Env, m: Machine, hole: Option<Arg>, r: nat, a1: Arg, ex: Option<Arg>)
    requires Rel(d, env, m, hole) && InMemory(Sym(r)) && InMemory(a1) && Known(d, a1)
    requires hole == Some(Sym(r)) || Known(d, Sym(r))
    ensures GetReg2(d, r, a1, ex).Some? && OpsOk(GetReg2(d, r, a1, ex).value, env, m, hole)
    ensures var o := GetReg2(d, r, a1, ex).value;
      && d.loaded <= o.d.loaded <= d.loaded + {r} + ArgSyms(a1)
      && RegOf(o.d, Sym(r)) == Some(o.r1) && RegOf(o.d, a1) == Some(o.r2)
  {
    OperandKeeps(d, Sym(r), Some(a1), ex);
    OperandOk(d, env, m, hole, Sym(r), Some(a1), ex);
    var f := Operand(d, Sym(r), Some(a1), ex).value;
    var n := Exec(f.code, m).value;
    var x, y := if ex.Some? then ex else Some(Sym(r)), if ex.Some? then Some(Sym(r)) else None;
    OperandKeeps(f.d, a1, x, y);
    hide Rel, Operand, Exec, AllPlain, RegOf, Shaped, InMemory;
    OperandOk(f.d, env, n, hole, a1, x, y);
    var g := Operand(f.d, a1, x, y).value;
    ExecAppend(f.code, g.code, m);
    assert GetReg2(d, r, a1, ex) == Some(Ops(g.d, f.code + g.code, f.r, g.r, 0));
  }

  /** The operands keep the registers they were given: none is evicted for another. */
  lemma GetReg3Ok(d: Desc, env: Env, m: Machine, hole: Option<Arg>, r: nat, a1: Arg, a2: Arg)
    requires Rel(d, env, m, None) && InMemory(Sym(r)) && InMemory(a1) && InMemory(a2) && Known(d, a1) && Known(d, a2)
    requires hole == Some(Sym(r)) || Known(d, Sym(r))
    ensures GetReg3(d, r, a1, a2).Some? && OpsOk(GetReg3(d, r, a1, a2).value, env, m, hole)
    ensures var o := GetReg3(d, r, a1, a2).value;
      && d.loaded <= o.d.loaded <= d.loaded + {r} + ArgSyms(a1) + ArgSyms(a2)
      && RegOf(o.d, Sym(r)) == Some(o.r1) && RegOf(o.d, a1) == Some(o.r2) && RegOf(o.d, a2) == Some(o.r3)
  {
    Weaken(d, env, m, hole);
    GetReg2Ok(d, env, m, hole, r, a1, Some(a2));
    var o := GetReg2(d, r, a1, Some(a2)).value;
    var n := Exec(o.code, m).value;
    assert Shaped(o.d);
    hide Rel, Operand, Exec, AllPlain, RegOf, Shaped, InMemory, GetReg2;
    OperandKeeps(o.d, a2, Some(a1), Some(Sym(r)));
    OperandOk(o.d, env, n, hole, a2, Some(a1), Some(Sym(r)));
    var g := Operand(o.d, a2, Some(a1), Some(Sym(r))).value;
    ExecAppend(o.code, g.code, m);
    assert GetReg3(d, r, a1, a2) == Some(Ops(g.d, o.code + g.code, o.r1, o.r2, g.r));
  }

  // ----- one instruction -----

  function AluOp(op: BinOp): Op {
    match op
    case Add => ADD
    case Mul => MUL
    case Div => DIV
    case _ => SUB
  }

  predicate Arithmetic(op: BinOp) {
    op.Add? || op.Sub? || op.Mul? || op.Div?
  }

  /** Adding or subtracting a constant one, in place. */
  predicate Increments(i: Ins) {
    i.Bin? && (i.op.Add? || i.op.Sub?) && (i.a1 == Sym(i.r) || i.a2 == Sym(i.r)) && (i.a1 == Const(1) || i.a2 == Const(1))
  }

  /** One minus a symbol, into that symbol. */
  predicate Reversed(i: Ins) {
    i.Bin? && i.op.Sub? && i.a1 == Const(1) && i.a2 == Sym(i.r)
  }

  /** gen_ins inside a block; None for labels, tests and jumps. */
  function GenIns(d: Desc, i: Ins): Option<(Desc, seq<Instr>)> {
    match i
    case Bin(op, r, a1, a2) =>
      if Increments(i) then GenInc(d, op, r)
      else
        (match GetReg3(d, r, a1, a2)
         case None => None
         case Some(o) => Some((o.d, o.code + [Instr(AluOp(op), o.r1, o.r2, o.r3)])))
    case In(r) =>
      (match Operand(d, Sym(r), None, None)
       case None => None
       case Some(f) => Some((f.d, f.code + [Instr(IN, f.r, 0, 0)])))
    case Out(a) =>
      (match Operand(d, a, None, None)
       case None => None
       case Some(f) => Some((f.d, f.code + [Instr(OUT, f.r, 0, 0)])))
    case Assign(r, a1) => if a1 == Sym(r) then Some((d, [])) else GenAssign(d, r, a1)
    case _ => None
  }

  function GenInc(d: Desc, op: BinOp, r: nat): Option<(Desc, seq<Instr>)> {
    match Operand(d, Sym(r), None, None)
    case None => None
    case Some(f) => Some((f.d, f.code + [Instr(if op.Add? then INC else DEC, f.r, 0, 0)]))
  }

  function GenAssign(d: Desc, r: nat, a1: Arg): Option<(Desc, seq<Instr>)> {
    match a1
    case Const(v) =>
      (match Operand(d, Sym(r), Some(a1), None)
       case None => None
       case Some(f) => Some((f.d, f.code + [Instr(LDC, f.r, v, 0)])))
    case Sym(_) =>
      (match GetReg2(d, r, a1, None)
       case None => None
       case Some(o) => Some((o.d, o.code + [Instr(LDC, o.r1, 0, 0), Instr(ADD, o.r1, o.r2, o.r1)])))
  }

  // ----- it does what the instruction means -----

  lemma Injective(d: Desc, a: Arg, b: Arg)
    requires Shaped(d) && RegOf(d, a).Some? && RegOf(d, a) == RegOf(d, b)
    ensures a == b
  {
  }

  /** Writing the result register closes the hole. */
  lemma WriteOk(d: Desc, env: Env, m: Machine, n: Machine, r: nat, k: nat, v: int)
    requires Rel(d, env, m, Some(Sym(r))) && RegOf(d, Sym(r)) == Some(k)
    requires n.reg == m.reg[k := v] && n.dmem == m.dmem
    ensures Rel(d, env[r := v], n, None)
  {
    var e := env[r := v];
    forall a ensures Located(d, e, n, a) {
      if a == Sym(r) {
        assert Val(e, a) == v;
      } else {
        assert Located(d, env, m, a);
        if RegOf(d, a) == Some(k) {
          Injective(d, a, Sym(r));
        }
      }
    }
  }

  /** Input and output of the machine are those of the program. */
  ghost predicate IOAgrees(st: State, m: Machine) {
    m.input == st.input && m.output == st.output
  }

  /** The generated code, run on the machine, is the instruction run on the state. */
  ghost predicate Simulates(g: Option<(Desc, seq<Instr>)>, i: Ins, st: State, m: Machine) {
    && g.Some? && AllPlain(g.value.1)
    && match Effect(i, st)
       case None => Exec(g.value.1, m).None?
       case Some(s) =>
         && Exec(g.value.1, m).Some?
         && Rel(g.value.0, s.env, Exec(g.value.1, m).value, None)
         && IOAgrees(s, Exec(g.value.1, m).value)
  }

  /** What the instruction asks for: its symbols have slots, and those that it reads have values. */
  ghost predicate Ready(d: Desc, i: Ins) {
    && (forall x :: x in Uses(i) ==> Known(d, Sym(x)) && InMemory(Sym(x)))
    && (forall x :: x in Defs(i) ==> InMemory(Sym(x)))
  }

  lemma ReadyArg(d: Desc, i: Ins, a: Arg)
    requires Ready(d, i) && ArgSyms(a) <= Uses(i)
    ensures Known(d, a) && InMemory(a)
  {
    if a.Sym? {
      assert a.id in Uses(i);
    }
  }

  lemma ExecThen(code: seq<Instr>, i: Instr, m: Machine)
    requires AllPlain(code) && Exec(code, m).Some? && Plain(i)
    ensures AllPlain(code + [i])
    ensures Exec(code + [i], m) == match Execute(Exec(code, m).value, i) { case Okay(n) => Some(n) case _ => None }
  {
    ExecOne(i, Exec(code, m).value);
    ExecAppend(code, [i], m);
    hide Execute, Exec, AllPlain;
  }

  /** The last instruction of the code writes v to the register of r, which is what i does. */
  lemma Written(d: Desc, code: seq<Instr>, last: Instr, i: Ins, st: State, m: Machine, r: nat, k: nat, v: int)
    requires AllPlain(code) && Exec(code, m).Some? && Plain(last)
    requires Rel(d, st.env, Exec(code, m).value, Some(Sym(r))) && RegOf(d, Sym(r)) == Some(k)
    requires Effect(i, st).Some? && Effect(i, st).value.env == st.env[r := v]
    requires var n := Exec(code, m).value;
      && Execute(n, last).Okay?
      && Execute(n, last).m.reg == n.reg[k := v] && Execute(n, last).m.dmem == n.dmem
      && IOAgrees(Effect(i, st).value, Execute(n, last).m)
    ensures Simulates(Some((d, code + [last])), i, st, m)
  {
    var n := Exec(code, m).value;
    hide Rel, Exec, Execute, AllPlain, RegOf, Effect, Plain;
    ExecThen(code, last, m);
    WriteOk(d, st.env, n, Execute(n, last).m, r, k, v);
  }

  lemma AluOk(i: Ins, st: State, n: Machine, r1: nat, r2: nat, r3: nat)
    requires i.Bin? && Arithmetic(i.op) && r1 < GP && r2 < GP && r3 < GP
    requires n.reg[r2] == Val(st.env, i.a1) && n.reg[r3] == Val(st.env, i.a2)
    ensures var alu, w := Instr(AluOp(i.op), r1, r2, r3), Apply(i.op, Val(st.env, i.a1), Val(st.env, i.a2));
      && Plain(alu)
      && (w.None? ==> !Execute(n, alu).Okay?)
      && (w.Some? ==> Execute(n, alu) == Okay(SetReg(n, r1, w.value)))
  {
  }

  lemma BinOk(d: Desc, i: Ins, st: State, m: Machine)
    requires Rel(d, st.env, m, None) && IOAgrees(st, m) && Ready(d, i)
    requires i.Bin? && Arithmetic(i.op) && !Increments(i)
    ensures Simulates(GenIns(d, i), i, st, m)
  {
    ReadyArg(d, i, i.a1);
    ReadyArg(d, i, i.a2);
    assert i.r in Defs(i);
    var hole := HoleFor(i.r, i.a1, i.a2);
    GetReg3Ok(d, st.env, m, hole, i.r, i.a1, i.a2);
    var o := GetReg3(d, i.r, i.a1, i.a2).value;
    var n := Exec(o.code, m).value;
    var alu := Instr(AluOp(i.op), o.r1, o.r2, o.r3);
    assert Located(o.d, st.env, n, i.a1) && Located(o.d, st.env, n, i.a2);
    AluOk(i, st, n, o.r1, o.r2, o.r3);
    OnlyHole(o.d, st.env, n, hole, i.r);
    var w := Apply(i.op, Val(st.env, i.a1), Val(st.env, i.a2));
    hide Located, GetReg3, Exec, AllPlain, Ready, RegOf, Shaped, Rel, Execute, Plain, Apply, AluOp, Increments;
    if w.Some? {
      Written(o.d, o.code, alu, i, st, m, i.r, o.r1, w.value);
    } else {
      ExecThen(o.code, alu, m);
    }
  }

  lemma IncStep(i: Ins, st: State, n: Machine, r: nat) returns (v: int)
    requires Increments(i) && !Reversed(i) && r < GP && n.reg[r] == Get(st.env, i.r)
    ensures var inc := Instr(if i.op.Add? then INC else DEC, r, 0, 0);
      && Plain(inc) && Execute(n, inc) == Okay(SetReg(n, r, v))
    ensures Effect(i, st) == Some(st.(env := st.env[i.r := v]))
  {
    v := if i.op.Add? then Get(st.env, i.r) + 1 else Get(st.env, i.r) - 1;
  }

  lemma IncOk(d: Desc, i: Ins, st: State, m: Machine)
    requires Rel(d, st.env, m, None) && IOAgrees(st, m) && Ready(d, i)
    requires Increments(i) && !Reversed(i)
    ensures Simulates(GenIns(d, i), i, st, m)
  {
    assert ArgSyms(Sym(i.r)) <= Uses(i);
    ReadyArg(d, i, Sym(i.r));
    OperandOk(d, st.env, m, None, Sym(i.r), None, None);
    OperandKeeps(d, Sym(i.r), None, None);
    var f := Operand(d, Sym(i.r), None, None).value;
    var n := Exec(f.code, m).value;
    var inc := Instr(if i.op.Add? then INC else DEC, f.r, 0, 0);
    assert Located(f.d, st.env, n, Sym(i.r));
    Weaken(f.d, st.env, n, Some(Sym(i.r)));
    var v := IncStep(i, st, n, f.r);
    hide Located, Operand, Exec, AllPlain, Ready, RegOf, Shaped, Rel, Execute, Plain, Effect, Reversed;
    Written(f.d, f.code, inc, i, st, m, i.r, f.r, v);
  }

  lemma InOk(d: Desc, i: Ins, st: State, m: Machine)
    requires Rel(d, st.env, m, None) && IOAgrees(st, m) && Ready(d, i) && i.In?
    ensures Simulates(GenIns(d, i), i, st, m)
  {
    assert i.r in Defs(i);
    var hole := Some(Sym(i.r));
    Weaken(d, st.env, m, hole);
    OperandOk(d, st.env, m, hole, Sym(i.r), None, None);
    OperandKeeps(d, Sym(i.r), None, None);
    var f := Operand(d, Sym(i.r), None, None).value;
    var n := Exec(f.code, m).value;
    var rd := Instr(IN, f.r, 0, 0);
    assert Plain(rd);
    hide Located, Operand, Exec, AllPlain, Ready, RegOf, Shaped, Rel, Plain;
    if st.input == [] {
      ExecThen(f.code, rd, m);
    } else {
      Written(f.d, f.code, rd, i, st, m, i.r, f.r, st.input[0]);
    }
  }

  lemma OutOk(d: Desc, i: Ins, st: State, m: Machine)
    requires Rel(d, st.env, m, None) && IOAgrees(st, m) && Ready(d, i) && i.Out?
    ensures Simulates(GenIns(d, i), i, st, m)
  {
    ReadyArg(d, i, i.a);
    OperandOk(d, st.env, m, None, i.a, None, None);
    OperandKeeps(d, i.a, None, None);
    var f := Operand(d, i.a, None, None).value;
    var n := Exec(f.code, m).value;
    var wr := Instr(OUT, f.r, 0, 0);
    assert Plain(wr) && Located(f.d, st.env, n, i.a);
    var k := n.(output := n.output + [n.reg[f.r]]);
    assert Execute(n, wr) == Okay(k);
    hide Operand, Exec, AllPlain, Ready, RegOf, Shaped, Plain, Execute;
    ExecThen(f.code, wr, m);
    forall a ensures Located(f.d, st.env, k, a) {
      assert Located(f.d, st.env, n, a);
    }
  }

  lemma AssignConstOk(d: Desc, i: Ins, st: State, m: Machine)
    requires Rel(d, st.env, m, None) && IOAgrees(st, m) && Ready(d, i) && i.Assign? && i.a1.Const?
    ensures Simulates(GenIns(d, i), i, st, m)
  {
    assert i.r in Defs(i);
    var hole := Some(Sym(i.r));
    Weaken(d, st.env, m, hole);
    OperandOk(d, st.env, m, hole, Sym(i.r), Some(i.a1), None);
    OperandKeeps(d, Sym(i.r), Some(i.a1), None);
    var f := Operand(d, Sym(i.r), Some(i.a1), None).value;
    var n := Exec(f.code, m).value;
    var ldc := Instr(LDC, f.r, i.a1.val, 0);
    assert Plain(ldc) && Execute(n, ldc) == Okay(SetReg(n, f.r, i.a1.val));
    hide Located, Operand, Exec, AllPlain, Ready, RegOf, Shaped, Rel, Plain, Execute;
    Written(f.d, f.code, ldc, i, st, m, i.r, f.r, i.a1.val);
  }

  /** A copy is a zero and an addition, so the two registers must differ. */
  lemma CopyStep(n: Machine, r1: nat, r2: nat)
    requires r1 < GP && r2 < GP && r1 != r2
    ensures var ldc, add := Instr(LDC, r1, 0, 0), Instr(ADD, r1, r2, r1);
      && Plain(ldc) && Plain(add) && Execute(n, ldc) == Okay(SetReg(n, r1, 0))
      && Execute(SetReg(n, r1, 0), add).Okay?
      && Execute(SetReg(n, r1, 0), add).m.reg == SetReg(n, r1, 0).reg[r1 := n.reg[r2]]
      && Execute(SetReg(n, r1, 0), add).m.dmem == n.dmem && SameIO(n, Execute(SetReg(n, r1, 0), add).m)
  {
  }

  /** A register that only the hole uses may hold anything. */
  lemma HoleAnything(d: Desc, env: Env, m: Machine, r: nat, k: nat, v: int)
    requires Rel(d, env, m, Some(Sym(r))) && RegOf(d, Sym(r)) == Some(k)
    ensures Rel(d, env, SetReg(m, k, v), Some(Sym(r)))
  {
    var n := SetReg(m, k, v);
    forall a | Some(Sym(r)) != Some(a) ensures Located(d, env, n, a) {
      assert Located(d, env, m, a);
      if RegOf(d, a) == Some(k) {
        Injective(d, a, Sym(r));
      }
    }
  }

  lemma AssignSymOk(d: Desc, i: Ins, st: State, m: Machine)
    requires Rel(d, st.env, m, None) && IOAgrees(st, m) && Ready(d, i) && i.Assign? && i.a1.Sym? && i.a1 != Sym(i.r)
    ensures Simulates(GenIns(d, i), i, st, m)
  {
    assert i.r in Defs(i);
    ReadyArg(d, i, i.a1);
    var hole := Some(Sym(i.r));
    Weaken(d, st.env, m, hole);
    GetReg2Ok(d, st.env, m, hole, i.r, i.a1, None);
    var o := GetReg2(d, i.r, i.a1, None).value;
    var n := Exec(o.code, m).value;
    assert Located(o.d, st.env, n, i.a1);
    if o.r1 == o.r2 {
      Injective(o.d, Sym(i.r), i.a1);
    }
    CopyStep(n, o.r1, o.r2);
    HoleAnything(o.d, st.env, n, i.r, o.r1, 0);
    var ldc, add := Instr(LDC, o.r1, 0, 0), Instr(ADD, o.r1, o.r2, o.r1);
    assert o.code + [ldc, add] == (o.code + [ldc]) + [add];
    assert n.reg[o.r2] == Val(st.env, i.a1);
    hide Located, GetReg2, Exec, AllPlain, Ready, RegOf, Shaped, Rel, Plain, Execute;
    ExecThen(o.code, ldc, m);
    Written(o.d, o.code + [ldc], add, i, st, m, i.r, o.r1, Val(st.env, i.a1));
  }

  lemma AssignSelfOk(d: Desc, i: Ins, st: State, m: Machine)
    requires Rel(d, st.env, m, None) && IOAgrees(st, m) && Ready(d, i) && i.Assign? && i.a1 == Sym(i.r)
    ensures Simulates(GenIns(d, i), i, st, m)
  {
    var e := st.env[i.r := Get(st.env, i.r)];
    forall a ensures Located(d, e, m, a) {
      assert Located(d, st.env, m, a);
    }
  }

  /** The instructions of a block that the generator gets right. */
  predicate Straight(i: Ins) {
    (i.Bin? && Arithmetic(i.op) && !Reversed(i)) || i.In? || i.Out? || i.Assign?
  }

  /** Whatever is in the spare registers, the code of an instruction does what the instruction means. */
  lemma GenOk(d: Desc, i: Ins, st: State, m: Machine)
    requires Rel(d, st.env, m, None) && IOAgrees(st, m) && Ready(d, i) && Straight(i)
    ensures Simulates(GenIns(d, i), i, st, m)
  {
    hide Rel, Simulates, Ready, GenIns, IOAgrees, Increments, Reversed;
    match i
    case Bin(_, _, _, _) => if Increments(i) { IncOk(d, i, st, m); } else { BinOk(d, i, st, m); }
    case In(_) => InOk(d, i, st, m);
    case Out(_) => OutOk(d, i, st, m);
    case Assign(r, a1) =>
      if a1 == Sym(r) {
        AssignSelfOk(d, i, st, m);
      } else if a1.Const? {
        AssignConstOk(d, i, st, m);
      } else {
        AssignSymOk(d, i, st, m);
      }
    case _ =>
  }

  /** The code for one minus a symbol, into that symbol, steps the symbol down instead. */
  lemma ReversedRuns(d: Desc, i: Ins, st: State, m: Machine) returns (f: Found, n: Machine)
    requires Rel(d, st.env, m, None) && IOAgrees(st, m) && Ready(d, i) && Reversed(i)
    ensures Operand(d, Sym(i.r), None, None) == Some(f) && FoundOk(f, st.env, m, None) && RegOf(f.d, Sym(i.r)) == Some(f.r)
    ensures n == SetReg(Exec(f.code, m).value, f.r, Get(st.env, i.r) - 1)
    ensures var code := f.code + [Instr(DEC, f.r, 0, 0)];
      GenIns(d, i) == Some((f.d, code)) && AllPlain(code) && Exec(code, m) == Some(n)
  {
    assert ArgSyms(Sym(i.r)) <= Uses(i);
    ReadyArg(d, i, Sym(i.r));
    OperandOk(d, st.env, m, None, Sym(i.r), None, None);
    OperandKeeps(d, Sym(i.r), None, None);
    f := Operand(d, Sym(i.r), None, None).value;
    var k := Exec(f.code, m).value;
    var dec := Instr(DEC, f.r, 0, 0);
    assert Located(f.d, st.env, k, Sym(i.r));
    assert Plain(dec) && Execute(k, dec) == Okay(SetReg(k, f.r, Get(st.env, i.r) - 1));
    n := SetReg(k, f.r, Get(st.env, i.r) - 1);
    hide Located, Operand, Exec, AllPlain, Ready, RegOf, Shaped, Rel, Execute, Plain;
    ExecThen(f.code, dec, m);
  }

  /** That is right exactly when the symbol is one. */
  lemma ReversedExact(d: Desc, i: Ins, st: State, m: Machine)
    requires Rel(d, st.env, m, None) && IOAgrees(st, m) && Ready(d, i) && Reversed(i)
    ensures Simulates(GenIns(d, i), i, st, m) <==> Get(st.env, i.r) == 1
  {
    var f, n := ReversedRuns(d, i, st, m);
    var x := Get(st.env, i.r);
    var e := st.env[i.r := 1 - x];
    var k := Exec(f.code, m).value;
    assert Effect(i, st) == Some(st.(env := e));
    hide Exec, AllPlain, GenIns, Shaped, Effect, Ready;
    if x == 1 {
      Weaken(f.d, st.env, k, Some(Sym(i.r)));
      WriteOk(f.d, st.env, k, n, i.r, f.r, 1 - x);
    } else {
      assert !Located(f.d, e, n, Sym(i.r));
    }
  }
}
