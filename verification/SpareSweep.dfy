/** free_regs: after every instruction the symbols that are not in its out lose their registers,
    without a store. */
module SpareSweep {
  import opened Options
  import opened ThreeAddress
  import opened Tm
  import opened TmRun
  import opened Spares
  import opened SpareCode
  import opened SpareEnds
  import opened LivenessSound

  // ----- the registers -----

  /** Spare register i is given up if its symbol is not in out; constants stay. */
  function SweptOne(d: Desc, i: nat, out: set<nat>): Desc
    requires i < REGISTER_SPARE
  {
    if d.regs[i].Some? && d.regs[i].value.Sym? && d.regs[i].value.id !in out then Freed(d, i) else d
  }

  function Swept(d: Desc, out: set<nat>): Desc {
    SweptOne(SweptOne(SweptOne(d, 0, out), 1, out), 2, out)
  }

  // ----- what memory holds -----

  /** Memory holds the value of every symbol that was not written in this block. */
  ghost predicate Clean(d: Desc, env: Env, m: Machine, written: set<nat>) {
    forall x :: x in d.loaded && x >= REGISTER_COUNT && x !in written ==> CleanAt(env, m, x)
  }

  ghost predicate CleanAt(env: Env, m: Machine, x: nat) {
    0 <= Slot(Sym(x)) < DADDR_SIZE && m.dmem[Slot(Sym(x))] == Get(env, x)
  }

  /** Between blocks memory holds everything. */
  lemma CleanStart(d: Desc, env: Env, m: Machine)
    requires Rel(d, env, m, None) && d.regs == [None, None, None]
    ensures Clean(d, env, m, {})
  {
    forall x | x in d.loaded && x >= REGISTER_COUNT ensures CleanAt(env, m, x) {
      assert Located(d, env, m, Sym(x));
    }
  }

  /** Losing a register does no harm if the symbol was not written in the block, or is not live. */
  lemma SweepOne(d: Desc, i: nat, out: set<nat>, live: set<nat>, w: set<nat>, env: Env, m: Machine) returns (e: Env)
    requires Rel(d, env, m, None) && Clean(d, env, m, w) && i < REGISTER_SPARE
    requires forall x :: x in live && x in w && x >= REGISTER_COUNT ==> x in out
    ensures Rel(SweptOne(d, i, out), e, m, None) && Clean(SweptOne(d, i, out), e, m, w) && AgreeOn(live, env, e)
  {
    FreedRegs(d, i);
    var f := SweptOne(d, i, out);
    if f == d {
      e := env;
    } else {
      var x := d.regs[i].value.id;
      assert x >= REGISTER_COUNT && x in d.loaded;
      e := env[x := m.dmem[Slot(Sym(x))]];
      assert f.loaded == d.loaded;
      assert x !in w ==> CleanAt(env, m, x);
      SweptLocated(d, i, env, m, x);
      SweptClean(d, env, m, w, x);
    }
  }

  lemma SweptLocated(d: Desc, i: nat, env: Env, m: Machine, x: nat)
    requires Rel(d, env, m, None) && i < REGISTER_SPARE && d.regs[i] == Some(Sym(x))
    requires REGISTER_COUNT <= x < REGISTER_COUNT + DADDR_SIZE
    ensures Rel(Freed(d, i), env[x := m.dmem[Slot(Sym(x))]], m, None)
  {
    FreedRegs(d, i);
    var e := env[x := m.dmem[Slot(Sym(x))]];
    forall a ensures Located(Freed(d, i), e, m, a) {
      assert Located(d, env, m, a);
    }
  }

  lemma SweptClean(d: Desc, env: Env, m: Machine, w: set<nat>, x: nat)
    requires Clean(d, env, m, w) && REGISTER_COUNT <= x < REGISTER_COUNT + DADDR_SIZE
    ensures Clean(d, env[x := m.dmem[Slot(Sym(x))]], m, w)
  {
    var e := env[x := m.dmem[Slot(Sym(x))]];
    forall y | y in d.loaded && y >= REGISTER_COUNT && y !in w ensures CleanAt(e, m, y) {
      assert CleanAt(env, m, y);
    }
  }

  /** The condition under which free_regs loses nothing. */
  ghost predicate SweepSafe(live: set<nat>, w: set<nat>, out: set<nat>) {
    forall x :: x in live && x in w && x >= REGISTER_COUNT ==> x in out
  }

  lemma SweepOk(d: Desc, out: set<nat>, live: set<nat>, w: set<nat>, env: Env, m: Machine) returns (e: Env)
    requires Rel(d, env, m, None) && Clean(d, env, m, w) && SweepSafe(live, w, out)
    ensures Rel(Swept(d, out), e, m, None) && Clean(Swept(d, out), e, m, w) && AgreeOn(live, env, e)
  {
    var d1 := SweptOne(d, 0, out);
    var d2 := SweptOne(d1, 1, out);
    assert Swept(d, out) == SweptOne(d2, 2, out);
    hide Rel, Clean, AgreeOn, SweptOne, Swept;
    var e1 := SweepOne(d, 0, out, live, w, env, m);
    var e2 := SweepOne(d1, 1, out, live, w, e1, m);
    e := SweepOne(d2, 2, out, live, w, e2, m);
    AgreeTrans(live, env, e1, e2);
    AgreeTrans(live, env, e2, e);
  }

  lemma {:induction false} SweptKeeps(d: Desc, out: set<nat>, x: nat)
    requires x in out && Shaped(d)
    ensures RegOf(Swept(d, out), Sym(x)) == RegOf(d, Sym(x))
  {
    var d1 := SweptOne(d, 0, out);
    var d2 := SweptOne(d1, 1, out);
    FreedRegs(d, 0);
    if Shaped(d1) {
      FreedRegs(d1, 1);
    }
    if Shaped(d2) {
      FreedRegs(d2, 2);
    }
  }

  // ----- the code of an instruction keeps memory clean -----

  /** What is written or held open does not count. */
  ghost predicate Open(hole: Option<Arg>, w: set<nat>) {
    hole.Some? && hole.value.Sym? ==> hole.value.id in w
  }

  lemma EvictClean(d: Desc, env: Env, m: Machine, hole: Option<Arg>, i: nat, w: set<nat>)
    requires Rel(d, env, m, hole) && i < REGISTER_SPARE && Clean(d, env, m, w) && Open(hole, w)
    requires AllPlain(Evict(d.regs[i], REGISTER_COUNT + i)) && Exec(Evict(d.regs[i], REGISTER_COUNT + i), m).Some?
    ensures Clean(d, env, Exec(Evict(d.regs[i], REGISTER_COUNT + i), m).value, w)
  {
    var x := d.regs[i];
    if x.Some? && x.value.Sym? {
      var r := REGISTER_COUNT + i;
      ExecOne(Instr(ST, r, Slot(x.value), GP), m);
      assert RegOf(d, x.value) == Some(r);
      assert Located(d, env, m, x.value) || hole == x;
      var n := Exec(Evict(x, r), m).value;
      assert n == m.(dmem := m.dmem[Slot(x.value) := m.reg[r]]);
      hide Exec, RegOf, Shaped, AllPlain;
      forall y | y in d.loaded && y >= REGISTER_COUNT && y !in w ensures CleanAt(env, n, y) {
        assert CleanAt(env, m, y);
      }
    }
  }

  lemma LoadClean(d: Desc, env: Env, m: Machine, i: nat, a: Arg, w: set<nat>)
    requires Clean(d, env, m, w) && i < REGISTER_SPARE
    requires AllPlain(Load(d, a, REGISTER_COUNT + i)) && Exec(Load(d, a, REGISTER_COUNT + i), m).Some?
    requires a.Sym? && a.id !in d.loaded ==> a.id in w
    ensures Clean(Mark(d, i, a), env, Exec(Load(d, a, REGISTER_COUNT + i), m).value, w)
  {
    var l := Load(d, a, REGISTER_COUNT + i);
    if l != [] {
      ExecOne(l[0], m);
      assert l == [l[0]];
    }
    var n := Exec(l, m).value;
    assert n.dmem == m.dmem;
    hide Exec, Load, AllPlain;
    forall y | y in Mark(d, i, a).loaded && y >= REGISTER_COUNT && y !in w ensures CleanAt(env, n, y) {
      assert CleanAt(env, m, y);
    }
  }

  lemma FindRegClean(d: Desc, env: Env, m: Machine, hole: Option<Arg>, a: Arg, ex1: Option<Arg>, ex2: Option<Arg>, w: set<nat>)
    requires Rel(d, env, m, hole) && RegOf(d, a).None? && InMemory(a) && (Known(d, a) || hole == Some(a))
    requires Clean(d, env, m, w) && Open(hole, w)
    ensures FindReg(d, a, ex1, ex2).Some?
    ensures var f := FindReg(d, a, ex1, ex2).value;
      AllPlain(f.code) && Exec(f.code, m).Some? && Clean(f.d, env, Exec(f.code, m).value, w)
  {
    hide *;
    FindRegOk(d, env, m, hole, a, ex1, ex2);
    FoundAs(d, a, ex1, ex2);
    var i := Chosen(d, ex1, ex2).value;
    var r := REGISTER_COUNT + i;
    EvictOk(d, env, m, hole, i);
    EvictClean(d, env, m, hole, i, w);
    var n := Exec(Evict(d.regs[i], r), m).value;
    FreedReady(d, env, m, n, hole, i, a, w);
    LoadOk(Freed(d, i), env, n, hole, i, a);
    LoadClean(Freed(d, i), env, n, i, a, w);
    ExecAppend(Evict(d.regs[i], r), Load(Freed(d, i), a, r), m);
  }

  lemma FreedReady(d: Desc, env: Env, m: Machine, n: Machine, hole: Option<Arg>, i: nat, a: Arg, w: set<nat>)
    requires Rel(d, env, m, hole) && i < REGISTER_SPARE && RegOf(d, a).None? && (Known(d, a) || hole == Some(a)) && Open(hole, w)
    requires Clean(d, env, n, w)
    ensures var e := Freed(d, i);
      && e.regs[i] == None && RegOf(e, a).None? && Clean(e, env, n, w)
      && (Known(e, a) || hole == Some(a)) && (a.Sym? && a.id !in e.loaded ==> a.id in w)
  {
    FreedRegs(d, i);
    assert Freed(d, i).loaded == d.loaded;
  }

  lemma OperandClean(d: Desc, env: Env, m: Machine, hole: Option<Arg>, a: Arg, ex1: Option<Arg>, ex2: Option<Arg>, w: set<nat>)
    requires Rel(d, env, m, hole) && InMemory(a) && (Known(d, a) || hole == Some(a))
    requires Clean(d, env, m, w) && Open(hole, w)
    ensures Operand(d, a, ex1, ex2).Some? && FoundOk(Operand(d, a, ex1, ex2).value, env, m, hole)
    ensures var f := Operand(d, a, ex1, ex2).value; Clean(f.d, env, Exec(f.code, m).value, w)
  {
    OperandOk(d, env, m, hole, a, ex1, ex2);
    if RegOf(d, a).None? {
      FindRegClean(d, env, m, hole, a, ex1, ex2, w);
    } else {
      ExecNil(m);
    }
    hide FindReg, Rel, Clean;
  }

  lemma CleanMore(d: Desc, env: Env, m: Machine, w: set<nat>, v: set<nat>)
    requires Clean(d, env, m, w) && w <= v
    ensures Clean(d, env, m, v)
  {
  }

  lemma GetReg2Clean(d: Desc, env: Env, m: Machine, hole: Option<Arg>, r: nat, a1: Arg, ex: Option<Arg>, w: set<nat>)
    requires Rel(d, env, m, hole) && InMemory(Sym(r)) && InMemory(a1) && Known(d, a1)
    requires hole == Some(Sym(r)) || Known(d, Sym(r))
    requires Clean(d, env, m, w) && Open(hole, w)
    ensures GetReg2(d, r, a1, ex).Some? && OpsOk(GetReg2(d, r, a1, ex).value, env, m, hole)
    ensures var o := GetReg2(d, r, a1, ex).value; Clean(o.d, env, Exec(o.code, m).value, w)
  {
    OperandKeeps(d, Sym(r), Some(a1), ex);
    OperandClean(d, env, m, hole, Sym(r), Some(a1), ex, w);
    GetReg2Ok(d, env, m, hole, r, a1, ex);
    var f := Operand(d, Sym(r), Some(a1), ex).value;
    var n := Exec(f.code, m).value;
    var x, y := if ex.Some? then ex else Some(Sym(r)), if ex.Some? then Some(Sym(r)) else None;
    hide Rel, Operand, Exec, AllPlain, RegOf, Shaped, InMemory, Clean, Open;
    OperandClean(f.d, env, n, hole, a1, x, y, w);
    var g := Operand(f.d, a1, x, y).value;
    ExecAppend(f.code, g.code, m);
    assert GetReg2(d, r, a1, ex) == Some(Ops(g.d, f.code + g.code, f.r, g.r, 0));
  }

  lemma GetReg3Clean(d: Desc, env: Env, m: Machine, hole: Option<Arg>, r: nat, a1: Arg, a2: Arg, w: set<nat>)
    requires Rel(d, env, m, None) && InMemory(Sym(r)) && InMemory(a1) && InMemory(a2) && Known(d, a1) && Known(d, a2)
    requires hole == Some(Sym(r)) || Known(d, Sym(r))
    requires Clean(d, env, m, w) && Open(hole, w)
    ensures GetReg3(d, r, a1, a2).Some? && OpsOk(GetReg3(d, r, a1, a2).value, env, m, hole)
    ensures var o := GetReg3(d, r, a1, a2).value; Clean(o.d, env, Exec(o.code, m).value, w)
  {
    hide *;
    Weaken(d, env, m, hole);
    GetReg2Clean(d, env, m, hole, r, a1, Some(a2), w);
    GetReg3Ok(d, env, m, hole, r, a1, a2);
    GetReg2Ok(d, env, m, hole, r, a1, Some(a2));
    var o := GetReg2(d, r, a1, Some(a2)).value;
    OpsParts(o, env, m, hole);
    var n := Exec(o.code, m).value;
    KnownStill(d, o.d, a2);
    OperandClean(o.d, env, n, hole, a2, Some(a1), Some(Sym(r)), w);
    var g := Operand(o.d, a2, Some(a1), Some(Sym(r))).value;
    FoundParts(g, env, n, hole);
    ExecAppend(o.code, g.code, m);
    ThirdFound(d, r, a1, a2);
  }

  lemma KnownStill(d: Desc, e: Desc, a: Arg)
    requires Known(d, a) && d.loaded <= e.loaded
    ensures Known(e, a)
  {
  }

  lemma OpsParts(o: Ops, env: Env, m: Machine, hole: Option<Arg>)
    requires OpsOk(o, env, m, hole)
    ensures AllPlain(o.code) && Exec(o.code, m).Some? && Rel(o.d, env, Exec(o.code, m).value, hole)
  {
  }

  lemma FoundParts(f: Found, env: Env, m: Machine, hole: Option<Arg>)
    requires FoundOk(f, env, m, hole)
    ensures AllPlain(f.code) && Exec(f.code, m).Some?
  {
  }

  lemma ThirdFound(d: Desc, r: nat, a1: Arg, a2: Arg)
    requires GetReg2(d, r, a1, Some(a2)).Some?
    ensures var o := GetReg2(d, r, a1, Some(a2)).value;
      var g := Operand(o.d, a2, Some(a1), Some(Sym(r)));
      g.Some? ==> GetReg3(d, r, a1, a2) == Some(Ops(g.value.d, o.code + g.value.code, o.r1, o.r2, g.value.r))
  {
    hide GetReg2, Operand;
  }

  /** The instruction at the end of the code of an operation does not write to memory. */
  lemma LastClean(d: Desc, env: Env, code: seq<Instr>, last: Instr, m: Machine, w: set<nat>)
    requires AllPlain(code) && Exec(code, m).Some? && Clean(d, env, Exec(code, m).value, w) && Plain(last) && last.op != ST
    ensures AllPlain(code + [last])
    ensures Exec(code + [last], m).Some? ==> Clean(d, env, Exec(code + [last], m).value, w)
  {
    ExecThen(code, last, m);
    var n := Exec(code, m).value;
    if Execute(n, last).Okay? {
      assert Execute(n, last).m.dmem == n.dmem;
      assert forall x :: CleanAt(env, n, x) ==> CleanAt(env, Execute(n, last).m, x);
    }
    hide Exec, AllPlain, Execute, Plain;
  }

  /** What the code of an instruction leaves is clean but for what the instruction writes. */
  ghost predicate StaysClean(g: Option<(Desc, seq<Instr>)>, env: Env, m: Machine, w: set<nat>) {
    g.Some? && AllPlain(g.value.1) && (Exec(g.value.1, m).Some? ==> Clean(g.value.0, env, Exec(g.value.1, m).value, w))
  }

  /** What an operation asks for. */
  lemma BinReady(d: Desc, i: Ins)
    requires Ready(d, i) && i.Bin?
    ensures InMemory(Sym(i.r)) && InMemory(i.a1) && InMemory(i.a2) && Known(d, i.a1) && Known(d, i.a2)
    ensures HoleFor(i.r, i.a1, i.a2) == Some(Sym(i.r)) || Known(d, Sym(i.r))
    ensures i.r in Defs(i)
  {
    ReadyArg(d, i, i.a1);
    ReadyArg(d, i, i.a2);
    assert i.r in Defs(i);
  }

  lemma BinCode(d: Desc, i: Ins)
    requires i.Bin? && !Increments(i) && GetReg3(d, i.r, i.a1, i.a2).Some?
    ensures var o := GetReg3(d, i.r, i.a1, i.a2).value;
      GenIns(d, i) == Some((o.d, o.code + [Instr(AluOp(i.op), o.r1, o.r2, o.r3)]))
  {
    hide GetReg3, AluOp, Increments;
  }

  lemma AluPlain(d: Desc, i: Ins, r1: nat, r2: nat, r3: nat)
    requires i.Bin? && RegOf(d, Sym(i.r)) == Some(r1) && RegOf(d, i.a1) == Some(r2) && RegOf(d, i.a2) == Some(r3)
    ensures var alu := Instr(AluOp(i.op), r1, r2, r3); Plain(alu) && alu.op != ST
  {
  }

  lemma HoleOpen(i: Ins, w: set<nat>)
    requires i.Bin? && i.r in w
    ensures Open(HoleFor(i.r, i.a1, i.a2), w)
  {
  }

  lemma BinClean(d: Desc, i: Ins, env: Env, m: Machine, w: set<nat>)
    requires Rel(d, env, m, None) && Ready(d, i) && Clean(d, env, m, w) && i.Bin? && !Increments(i) && i.r in w
    ensures StaysClean(GenIns(d, i), env, m, w)
  {
    hide *;
    BinReady(d, i);
    HoleOpen(i, w);
    var hole := HoleFor(i.r, i.a1, i.a2);
    GetReg3Clean(d, env, m, hole, i.r, i.a1, i.a2, w);
    GetReg3Ok(d, env, m, hole, i.r, i.a1, i.a2);
    var o := GetReg3(d, i.r, i.a1, i.a2).value;
    var alu := Instr(AluOp(i.op), o.r1, o.r2, o.r3);
    AluPlain(o.d, i, o.r1, o.r2, o.r3);
    BinCode(d, i);
    OpsParts(o, env, m, hole);
    LastClean(o.d, env, o.code, alu, m, w);
    StaysSo(o.d, o.code + [alu], env, m, w);
  }

  lemma StaysSo(d: Desc, code: seq<Instr>, env: Env, m: Machine, w: set<nat>)
    requires AllPlain(code) && (Exec(code, m).Some? ==> Clean(d, env, Exec(code, m).value, w))
    ensures StaysClean(Some((d, code)), env, m, w)
  {
  }

  /** One operand and one instruction. */
  lemma OneClean(d: Desc, a: Arg, ex: Option<Arg>, hole: Option<Arg>, last: Op, v: int, env: Env, m: Machine, w: set<nat>)
    requires Rel(d, env, m, None) && Clean(d, env, m, w) && InMemory(a) && (Known(d, a) || hole == Some(a)) && Open(hole, w)
    requires last == LDC || last == IN || last == OUT || last == INC || last == DEC
    requires last == LDC || v == 0
    ensures Operand(d, a, ex, None).Some?
    ensures var f := Operand(d, a, ex, None).value; StaysClean(Some((f.d, f.code + [Instr(last, f.r, v, 0)])), env, m, w)
  {
    Weaken(d, env, m, hole);
    OperandKeeps(d, a, ex, None);
    OperandClean(d, env, m, hole, a, ex, None, w);
    var f := Operand(d, a, ex, None).value;
    var l := Instr(last, f.r, v, 0);
    assert Plain(l) && l.op != ST;
    hide *;
    FoundParts(f, env, m, hole);
    LastClean(f.d, env, f.code, l, m, w);
    StaysSo(f.d, f.code + [l], env, m, w);
  }

  lemma CopyReady(d: Desc, i: Ins, w: set<nat>)
    requires Ready(d, i) && i.Assign? && i.a1.Sym? && i.r in w
    ensures InMemory(Sym(i.r)) && InMemory(i.a1) && Known(d, i.a1) && Open(Some(Sym(i.r)), w)
  {
    ReadyArg(d, i, i.a1);
    assert i.r in Defs(i);
  }

  lemma CopyPlain(d: Desc, i: Ins, r1: nat, r2: nat)
    requires i.Assign? && RegOf(d, Sym(i.r)) == Some(r1) && RegOf(d, i.a1) == Some(r2)
    ensures Plain(Instr(LDC, r1, 0, 0)) && Plain(Instr(ADD, r1, r2, r1))
  {
  }

  lemma CopyCode(d: Desc, i: Ins)
    requires i.Assign? && i.a1.Sym? && i.a1 != Sym(i.r) && GetReg2(d, i.r, i.a1, None).Some?
    ensures var o := GetReg2(d, i.r, i.a1, None).value;
      GenIns(d, i) == Some((o.d, o.code + [Instr(LDC, o.r1, 0, 0), Instr(ADD, o.r1, o.r2, o.r1)]))
  {
    hide GetReg2;
  }

  lemma CopyClean(d: Desc, i: Ins, env: Env, m: Machine, w: set<nat>)
    requires Rel(d, env, m, None) && Ready(d, i) && Clean(d, env, m, w) && i.Assign? && i.a1.Sym? && i.a1 != Sym(i.r) && i.r in w
    ensures StaysClean(GenIns(d, i), env, m, w)
  {
    hide *;
    var hole := Some(Sym(i.r));
    CopyReady(d, i, w);
    Weaken(d, env, m, hole);
    GetReg2Clean(d, env, m, hole, i.r, i.a1, None, w);
    GetReg2Ok(d, env, m, hole, i.r, i.a1, None);
    var o := GetReg2(d, i.r, i.a1, None).value;
    var ldc, add := Instr(LDC, o.r1, 0, 0), Instr(ADD, o.r1, o.r2, o.r1);
    CopyPlain(o.d, i, o.r1, o.r2);
    CopyCode(d, i);
    OpsParts(o, env, m, hole);
    CopyLast(o, env, m, w, ldc, add);
    StaysSo(o.d, o.code + [ldc, add], env, m, w);
  }

  lemma CopyLast(o: Ops, env: Env, m: Machine, w: set<nat>, ldc: Instr, add: Instr)
    requires AllPlain(o.code) && Exec(o.code, m).Some? && Clean(o.d, env, Exec(o.code, m).value, w)
    requires Plain(ldc) && Plain(add) && ldc.op == LDC && add.op == ADD
    ensures AllPlain(o.code + [ldc, add])
    ensures Exec(o.code + [ldc, add], m).Some? ==> Clean(o.d, env, Exec(o.code + [ldc, add], m).value, w)
  {
    assert o.code + [ldc, add] == (o.code + [ldc]) + [add];
    LastClean(o.d, env, o.code, ldc, m, w);
    ExecThen(o.code, ldc, m);
    assert Execute(Exec(o.code, m).value, ldc).Okay?;
    hide Exec, AllPlain, Clean, Execute, Plain;
    LastClean(o.d, env, o.code + [ldc], add, m, w);
  }

  /** Arithmetic, comparisons, input, output and assignments. */
  predicate Generated(i: Ins) {
    i.Bin? || i.In? || i.Out? || i.Assign?
  }

  lemma GenClean(d: Desc, i: Ins, env: Env, m: Machine, w: set<nat>)
    requires Rel(d, env, m, None) && Ready(d, i) && Clean(d, env, m, w) && Generated(i) && Defs(i) <= w
    ensures StaysClean(GenIns(d, i), env, m, w)
  {
    match i
    case Bin(op, r, a1, a2) =>
      assert r in w;
      if Increments(i) {
        assert ArgSyms(Sym(r)) <= Uses(i);
        ReadyArg(d, i, Sym(r));
        hide Operand, Rel, Clean, Ready, StaysClean;
        OneClean(d, Sym(r), None, None, if op.Add? then INC else DEC, 0, env, m, w);
      } else {
        hide Operand, Rel, Clean, Ready, StaysClean, GenIns;
        BinClean(d, i, env, m, w);
      }
    case In(r) =>
      assert r in w && r in Defs(i);
      hide Operand, Rel, Clean, StaysClean;
      OneClean(d, Sym(r), None, Some(Sym(r)), IN, 0, env, m, w);
    case Out(a) =>
      ReadyArg(d, i, a);
      hide Operand, Rel, Clean, StaysClean;
      OneClean(d, a, None, None, OUT, 0, env, m, w);
    case Assign(r, a1) =>
      assert r in w && r in Defs(i);
      if a1 == Sym(r) {
        ExecNil(m);
        hide Rel, Clean;
      } else if a1.Const? {
        hide Operand, Rel, Clean, StaysClean;
        OneClean(d, Sym(r), Some(a1), Some(Sym(r)), LDC, a1.val, env, m, w);
      } else {
        hide Operand, Rel, Clean, StaysClean, Ready, GenIns;
        CopyClean(d, i, env, m, w);
      }
  }
}
