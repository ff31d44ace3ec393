/** Straight-line code on the TINY machine. */
module TmRun {
  import opened Options
  import opened Tm

  /** No jump, and the program counter is neither read nor written. */
  predicate Plain(i: Instr) {
    && GoodInstr(i) && i.a1 != PC && i.a3 != PC && (ClassOf(i.op) == RR ==> i.a2 != PC)
    && (ClassOf(i.op) == RA ==> i.op == LDC) && i.op != HALT
  }

  ghost predicate AllPlain(code: seq<Instr>) {
    forall k :: 0 <= k < |code| ==> Plain(code[k])
  }

  /** The machine after the instructions, program counter apart. */
  function Exec(code: seq<Instr>, m: Machine): (r: Option<Machine>)
    requires AllPlain(code)
  {
    if code == [] then Some(m)
    else
      match Execute(m, code[0])
      case Okay(n) => Exec(code[1..], n)
      case _ => None
  }

  lemma {:induction false} ExecAppend(a: seq<Instr>, b: seq<Instr>, m: Machine)
    requires AllPlain(a) && AllPlain(b)
    ensures AllPlain(a + b)
    ensures Exec(a, m).Some? ==> Exec(a + b, m) == Exec(b, Exec(a, m).value)
    ensures Exec(a, m).None? ==> Exec(a + b, m) == None
  {
    if a == [] {
      assert a + b == b;
    } else {
      assert (a + b)[1..] == a[1..] + b;
      match Execute(m, a[0])
      case Okay(n) => ExecAppend(a[1..], b, n);
      case _ => ExecAppend(a[1..], b, m);
    }
  }

  lemma ExecOne(i: Instr, m: Machine)
    requires Plain(i)
    ensures AllPlain([i]) && Exec([i], m) == match Execute(m, i) { case Okay(n) => Some(n) case _ => None }
  {
    assert [i][1..] == [];
    hide Execute;
  }

  function At(m: Machine, pc: int): Machine {
    SetReg(m, PC, pc)
  }

  /** The machine does not look at its program counter in a plain instruction. */
  lemma PlainStep(m: Machine, i: Instr, pc: int)
    requires Plain(i)
    ensures match Execute(m, i)
      case Okay(n) => Execute(At(m, pc), i) == Okay(At(n, pc)) && n.reg[PC] == m.reg[PC]
      case e => Execute(At(m, pc), i) == e
  {
    var a := At(m, pc);
    assert forall k :: 0 <= k < NO_REGS && k != PC ==> a.reg[k] == m.reg[k];
    match Execute(m, i)
    case Okay(n) => assert Execute(a, i).Okay? && Execute(a, i).m.reg == At(n, pc).reg;
    case _ =>
  }

  /** The machine after n steps, if it gets that far. */
  function RunTM(imem: Program, m: Machine, n: nat): Option<Machine>
    decreases n
  {
    if n == 0 then Some(m)
    else
      match StepTM(imem, m)
      case Okay(k) => RunTM(imem, k, n - 1)
      case _ => None
  }

  lemma {:induction false} RunTMAdd(imem: Program, m: Machine, a: nat, b: nat)
    ensures RunTM(imem, m, a).Some? ==> RunTM(imem, m, a + b) == RunTM(imem, RunTM(imem, m, a).value, b)
    ensures RunTM(imem, m, a).None? ==> RunTM(imem, m, a + b) == None
    decreases a
  {
    hide StepTM;
    if a > 0 && StepTM(imem, m).Okay? {
      RunTMAdd(imem, StepTM(imem, m).m, a - 1, b);
    }
  }

  ghost predicate Loaded(imem: Program, at: nat, code: seq<Instr>) {
    at + |code| <= |imem| && imem[at..at + |code|] == code
  }

  /** The first instruction of loaded code. */
  lemma FirstRuns(imem: Program, at: nat, code: seq<Instr>, m: Machine)
    requires code != [] && AllPlain(code) && Loaded(imem, at, code) && m.reg[PC] == at
    ensures AllPlain(code[1..]) && Loaded(imem, at + 1, code[1..]) && GoodInstr(code[0])
    ensures var e := Execute(m, code[0]);
      if e.Okay? then StepTM(imem, m) == Okay(At(e.m, at + 1)) && Exec(code, m) == Exec(code[1..], e.m)
      else !StepTM(imem, m).Okay? && Exec(code, m) == None
  {
    assert imem[at] == imem[at..at + |code|][0] == code[0];
    assert imem[at + 1..at + 1 + |code[1..]|] == code[1..];
    PlainStep(m, code[0], at + 1);
    hide Execute;
  }

  lemma RunFirst(imem: Program, m: Machine, k: nat)
    ensures RunTM(imem, m, k + 1) == if StepTM(imem, m).Okay? then RunTM(imem, StepTM(imem, m).m, k) else None
  {
    hide StepTM;
  }

  lemma NothingRuns(imem: Program, m: Machine, at: nat)
    requires m.reg[PC] == at
    ensures Exec([], m) == Some(m) && RunTM(imem, m, 0) == Some(At(m, at))
  {
    assert At(m, at).reg == m.reg;
  }

  /** The rest of the code has run from behind the first instruction. */
  lemma RestRuns(code: seq<Instr>, n: Machine, at: nat, r: Option<Machine>)
    requires code != [] && AllPlain(code[1..])
    requires match Exec(code[1..], At(n, at + 1))
      case Some(k) => r == Some(At(k, at + |code|))
      case None => r == None
    ensures match Exec(code[1..], n)
      case Some(k) => r == Some(At(k, at + |code|))
      case None => r == None
  {
    ExecMoved(code[1..], n, at + 1);
    hide Exec, AllPlain;
    if Exec(code[1..], n).Some? {
      AtAt(Exec(code[1..], n).value, at + 1, at + |code|);
    }
  }

  /** Straight-line code runs through: the machine ends behind it, changed as Exec says. */
  lemma {:induction false} RunsThrough(imem: Program, at: nat, code: seq<Instr>, m: Machine)
    requires AllPlain(code) && Loaded(imem, at, code) && m.reg[PC] == at
    ensures match Exec(code, m)
      case Some(n) => RunTM(imem, m, |code|) == Some(At(n, at + |code|))
      case None => RunTM(imem, m, |code|) == None
    decreases |code|
  {
    hide AllPlain, Loaded, Exec, Execute, StepTM, RunTM;
    if code == [] {
      NothingRuns(imem, m, at);
    } else {
      FirstRuns(imem, at, code, m);
      RunFirst(imem, m, |code| - 1);
      var e := Execute(m, code[0]);
      if e.Okay? {
        RunsThrough(imem, at + 1, code[1..], At(e.m, at + 1));
        RestRuns(code, e.m, at, RunTM(imem, At(e.m, at + 1), |code| - 1));
      }
    }
  }

  lemma AtAt(m: Machine, p: int, q: int)
    ensures At(At(m, p), q) == At(m, q)
  {
    assert At(At(m, p), q).reg == At(m, q).reg;
  }

  lemma {:induction false} ExecMoved(code: seq<Instr>, m: Machine, pc: int)
    requires AllPlain(code)
    ensures match Exec(code, m)
      case Some(n) => Exec(code, At(m, pc)) == Some(At(n, pc))
      case None => Exec(code, At(m, pc)) == None
  {
    if code != [] {
      PlainStep(m, code[0], pc);
      match Execute(m, code[0])
      case Okay(n) => ExecMoved(code[1..], n, pc);
      case _ =>
    }
  }
}
