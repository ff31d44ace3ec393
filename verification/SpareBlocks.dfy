/** The code of a whole block: its instructions, the stores at its end, and the test that may
    close it. */
module SpareBlocks {
  import opened Options
  import opened ThreeAddress
  import opened Tm
  import opened TmRun
  import opened Spares
  import opened SpareCode

  // ----- straight-line code -----

  function GenSeq(d: Desc, ins: seq<Ins>): Option<(Desc, seq<Instr>)>
    decreases ins
  {
    if ins == [] then Some((d, []))
    else
      match GenIns(d, ins[0])
      case None => None
      case Some((e, a)) =>
        match GenSeq(e, ins[1..])
        case None => None
        case Some((f, b)) => Some((f, a + b))
  }

  function EffectSeq(ins: seq<Ins>, st: State): Option<State> {
    if ins == [] then Some(st)
    else
      match Effect(ins[0], st)
      case None => None
      case Some(s) => EffectSeq(ins[1..], s)
  }

  /** Every symbol has a slot, and is written before it is read or has a value from before. */
  ghost predicate ReadySeq(known: set<nat>, ins: seq<Ins>)
    decreases ins
  {
    ins != [] ==> (
      && (forall x :: x in Uses(ins[0]) ==> (x < REGISTER_COUNT || x in known) && InMemory(Sym(x)))
      && (forall x :: x in Defs(ins[0]) ==> InMemory(Sym(x)))
      && ReadySeq(known + Defs(ins[0]), ins[1..]))
  }

  ghost predicate AllStraight(ins: seq<Ins>) {
    forall k :: 0 <= k < |ins| ==> Straight(ins[k])
  }

  lemma {:induction false} ReadyMore(known: set<nat>, more: set<nat>, ins: seq<Ins>)
    requires ReadySeq(known, ins) && forall x :: x in known && x >= REGISTER_COUNT ==> x in more
    ensures ReadySeq(more, ins)
    decreases ins
  {
    if ins != [] {
      ReadyMore(known + Defs(ins[0]), more + Defs(ins[0]), ins[1..]);
    }
  }

  lemma Resident(d: Desc, a: Arg)
    requires Shaped(d) && RegOf(d, a).Some?
    ensures Known(d, a)
  {
  }

  /** What the descriptors know after an instruction. */
  ghost predicate Loads(d: Desc, i: Ins, g: Option<(Desc, seq<Instr>)>) {
    && g.Some? && Shaped(g.value.0)
    && d.loaded <= g.value.0.loaded <= d.loaded + Uses(i) + Defs(i)
    && forall x :: x in Defs(i) && x >= REGISTER_COUNT ==> x in g.value.0.loaded
  }

  lemma OneLoads(d: Desc, r: nat, ex: Option<Arg>)
    requires Shaped(d)
    ensures var f := Operand(d, Sym(r), ex, None);
      f.Some? && Shaped(f.value.d) && d.loaded <= f.value.d.loaded <= d.loaded + {r}
      && (r >= REGISTER_COUNT ==> r in f.value.d.loaded)
  {
    OperandKeeps(d, Sym(r), ex, None);
    Resident(Operand(d, Sym(r), ex, None).value.d, Sym(r));
    hide Operand, Shaped, RegOf;
  }

  lemma BinLoads(d: Desc, i: Ins, st: State, m: Machine)
    requires Rel(d, st.env, m, None) && Ready(d, i) && i.Bin? && !Increments(i)
    ensures Loads(d, i, GenIns(d, i))
  {
    ReadyArg(d, i, i.a1);
    ReadyArg(d, i, i.a2);
    assert i.r in Defs(i);
    GetReg3Ok(d, st.env, m, HoleFor(i.r, i.a1, i.a2), i.r, i.a1, i.a2);
    var o := GetReg3(d, i.r, i.a1, i.a2).value;
    assert Shaped(o.d);
    Resident(o.d, Sym(i.r));
    hide Located, Exec, Rel, RegOf, Shaped, Ready, GetReg3, AllPlain, Increments, AluOp;
  }

  lemma CopyLoads(d: Desc, i: Ins, st: State, m: Machine)
    requires Rel(d, st.env, m, None) && Ready(d, i) && i.Assign? && i.a1.Sym? && i.a1 != Sym(i.r)
    ensures Loads(d, i, GenIns(d, i))
  {
    assert i.r in Defs(i);
    ReadyArg(d, i, i.a1);
    Weaken(d, st.env, m, Some(Sym(i.r)));
    GetReg2Ok(d, st.env, m, Some(Sym(i.r)), i.r, i.a1, None);
    var o := GetReg2(d, i.r, i.a1, None).value;
    assert Shaped(o.d);
    Resident(o.d, Sym(i.r));
    hide Located, Exec, Rel, RegOf, Shaped, Ready, GetReg2, AllPlain;
  }

  lemma GenLoads(d: Desc, i: Ins, st: State, m: Machine)
    requires Rel(d, st.env, m, None) && Ready(d, i) && Straight(i)
    ensures Loads(d, i, GenIns(d, i))
  {
    assert Shaped(d);
    match i
    case Bin(op, r, a1, a2) =>
      if Increments(i) {
        OneLoads(d, r, None);
        hide Operand, Shaped, Rel, Ready;
      } else {
        BinLoads(d, i, st, m);
      }
    case In(r) =>
      OneLoads(d, r, None);
      hide Operand, Shaped, Rel, Ready;
    case Out(a) =>
      OperandKeeps(d, a, None, None);
      hide Operand, Shaped, Rel, Ready;
    case Assign(r, a1) =>
      if a1 == Sym(r) {
        ReadyArg(d, i, a1);
      } else if a1.Const? {
        OneLoads(d, r, Some(a1));
        hide Operand, Shaped, Rel, Ready;
      } else {
        CopyLoads(d, i, st, m);
      }
    case _ =>
  }

  // ----- code is generated whatever the state of the program -----

  function ConstOf(x: Option<Arg>): int {
    if x.Some? && x.value.Const? then x.value.val else 0
  }

  /** A machine that matches the descriptors when every variable is zero. */
  function Canonical(d: Desc): Machine {
    Machine([0, 0, 0, ConstOf(d.regs[0]), ConstOf(d.regs[1]), ConstOf(d.regs[2]), 0, 0], seq(DADDR_SIZE, _ => 0), [], [])
  }

  lemma CanonicalRel(d: Desc)
    requires Sane(d)
    ensures Rel(d, map[], Canonical(d), None)
  {
    var m := Canonical(d);
    var e: Env := map[];
    forall a ensures Located(d, e, m, a) {
    }
  }

  lemma GenTotal(d: Desc, i: Ins)
    requires Sane(d) && Ready(d, i) && Straight(i)
    ensures Loads(d, i, GenIns(d, i)) && AllPlain(GenIns(d, i).value.1) && Sane(GenIns(d, i).value.0)
  {
    var st := State(map[], [], []);
    CanonicalRel(d);
    GenOk(d, i, st, Canonical(d));
    GenLoads(d, i, st, Canonical(d));
    ReadySlots(d, i);
    hide Rel, Straight, GenIns, Exec, AllPlain, Shaped, Ready, Effect, Uses, Defs;
  }

  lemma ReadySlots(d: Desc, i: Ins)
    requires Ready(d, i)
    ensures forall x :: x in Uses(i) + Defs(i) ==> x < REGISTER_COUNT + DADDR_SIZE
  {
    forall x | x in Uses(i) + Defs(i) ensures x < REGISTER_COUNT + DADDR_SIZE {
      assert InMemory(Sym(x));
    }
  }

  lemma ReadyNext(d: Desc, ins: seq<Ins>, g: Option<(Desc, seq<Instr>)>)
    requires ins != [] && ReadySeq(d.loaded, ins) && Loads(d, ins[0], g)
    ensures ReadySeq(g.value.0.loaded, ins[1..])
  {
    ReadyMore(d.loaded + Defs(ins[0]), g.value.0.loaded, ins[1..]);
  }

  lemma ReadyFirst(d: Desc, ins: seq<Ins>)
    requires ins != [] && ReadySeq(d.loaded, ins)
    ensures Ready(d, ins[0])
  {
  }

  lemma {:induction false} BlockTotal(d: Desc, ins: seq<Ins>)
    requires Sane(d) && ReadySeq(d.loaded, ins) && AllStraight(ins)
    ensures GenSeq(d, ins).Some? && AllPlain(GenSeq(d, ins).value.1)
    decreases ins
  {
    if ins != [] {
      assert Straight(ins[0]) && AllStraight(ins[1..]);
      hide Sane, ReadySeq, Straight, GenIns, AllStraight, Ready, Loads;
      ReadyFirst(d, ins);
      GenTotal(d, ins[0]);
      ReadyNext(d, ins, GenIns(d, ins[0]));
      GenSome(d, ins[0]);
      BlockTotal(GenIns(d, ins[0]).value.0, ins[1..]);
    }
  }

  lemma GenSome(d: Desc, i: Ins)
    requires Loads(d, i, GenIns(d, i))
    ensures GenIns(d, i).Some?
  {
  }

  /** The code of a block simulates the block. */
  ghost predicate BlockSimulates(g: Option<(Desc, seq<Instr>)>, out: Option<State>, m: Machine) {
    && g.Some? && AllPlain(g.value.1)
    && match out
       case None => Exec(g.value.1, m).None?
       case Some(s) =>
         && Exec(g.value.1, m).Some?
         && Rel(g.value.0, s.env, Exec(g.value.1, m).value, None)
         && IOAgrees(s, Exec(g.value.1, m).value)
  }

  lemma SimulatesAfter(d: Desc, ins: seq<Ins>, st: State, m: Machine)
    requires ins != [] && Simulates(GenIns(d, ins[0]), ins[0], st, m)
    requires var (e, a) := GenIns(d, ins[0]).value;
      && GenSeq(e, ins[1..]).Some? && AllPlain(GenSeq(e, ins[1..]).value.1)
      && (Effect(ins[0], st).Some? ==>
           BlockSimulates(GenSeq(e, ins[1..]), EffectSeq(ins[1..], Effect(ins[0], st).value), Exec(a, m).value))
    ensures BlockSimulates(GenSeq(d, ins), EffectSeq(ins, st), m)
  {
    var (e, a) := GenIns(d, ins[0]).value;
    var (f, b) := GenSeq(e, ins[1..]).value;
    assert GenSeq(d, ins) == Some((f, a + b));
    assert EffectSeq(ins, st) == match Effect(ins[0], st) { case None => None case Some(s) => EffectSeq(ins[1..], s) };
    hide GenIns, GenSeq, EffectSeq, Effect, Exec, Rel, AllPlain, IOAgrees;
    ExecAppend(a, b, m);
  }

  /** From any contents of the spare registers that match the state, the machine ends a block in
      a state that matches, and is stuck exactly where the block is. */
  lemma {:induction false} BlockOk(d: Desc, ins: seq<Ins>, st: State, m: Machine)
    requires Rel(d, st.env, m, None) && IOAgrees(st, m) && ReadySeq(d.loaded, ins) && AllStraight(ins)
    ensures BlockSimulates(GenSeq(d, ins), EffectSeq(ins, st), m)
    decreases ins
  {
    if ins != [] {
      var i := ins[0];
      assert Straight(i) && AllStraight(ins[1..]) && Sane(d);
      ReadyFirst(d, ins);
      GenOk(d, i, st, m);
      GenTotal(d, i);
      var g := GenIns(d, i);
      ReadyNext(d, ins, g);
      BlockTotal(g.value.0, ins[1..]);
      hide GenIns, Effect, Exec, Rel, AllPlain, Ready, Straight, ReadySeq, Shaped, AllStraight, Sane, GenSeq, EffectSeq, BlockSimulates;
      if Effect(i, st).Some? {
        BlockOk(g.value.0, ins[1..], Effect(i, st).value, Exec(g.value.1, m).value);
      }
      SimulatesAfter(d, ins, st, m);
    }
  }

  // ----- under stepTM -----

  lemma RelMoved(d: Desc, env: Env, m: Machine, pc: int)
    requires Rel(d, env, m, None)
    ensures Rel(d, env, At(m, pc), None)
  {
    forall a ensures Located(d, env, At(m, pc), a) {
      assert Located(d, env, m, a);
    }
  }

  /** The code of a block in instruction memory, run by stepTM from its first instruction on. */
  lemma BlockOnMachine(d: Desc, ins: seq<Ins>, st: State, imem: Program, at: nat, m: Machine)
    requires Rel(d, st.env, m, None) && IOAgrees(st, m) && ReadySeq(d.loaded, ins) && AllStraight(ins)
    requires GenSeq(d, ins).Some? ==> Loaded(imem, at, GenSeq(d, ins).value.1)
    requires m.reg[PC] == at
    ensures GenSeq(d, ins).Some?
    ensures var (e, code) := GenSeq(d, ins).value; var r := RunTM(imem, m, |code|);
      match EffectSeq(ins, st)
      case None => r == None
      case Some(s) => r.Some? && r.value.reg[PC] == at + |code| && Rel(e, s.env, r.value, None) && IOAgrees(s, r.value)
  {
    BlockOk(d, ins, st, m);
    var (e, code) := GenSeq(d, ins).value;
    RunsThrough(imem, at, code, m);
    hide GenSeq, EffectSeq, Exec, Rel, RunTM, AllPlain, Loaded, ReadySeq, AllStraight;
    if EffectSeq(ins, st).Some? {
      RelMoved(e, EffectSeq(ins, st).value.env, Exec(code, m).value, at + |code|);
    }
  }
}
