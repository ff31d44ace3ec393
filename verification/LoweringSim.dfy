/** Statements: the code of a program does what the program does. */
module LoweringSim {
  import opened Options
  import opened ThreeAddress
  import opened Ast
  import opened Lowering

  /** The machine state a agrees with the source state st on everything the source can see. */
  ghost predicate Alike(base: nat, st: State, a: State) {
    st.input == a.input && st.output == a.output && UsersAgree(base, st.env, a.env)
  }

  /** After k steps the machine is at d, where the source statement has outcome o: at the end q of
      its code, stuck as well, or still running after at least fuel steps. */
  ghost predicate StmtRuns(code: seq<Ins>, base: nat, o: Outcome, q: nat, fuel: nat, k: nat, d: Config) {
    && Alike(base, o.st, d.st)
    && match o
       case Done(_) => d.pc == q
       case Stuck(_) => d.pc < |code| && Next(code, d).None?
       case Timeout(_) => k >= fuel
  }

  // ----- steps that only move -----

  lemma LabelStep(code: seq<Ins>, c: Config)
    requires c.pc < |code| && code[c.pc].Label?
    ensures Run(code, c, 1) == Some(c.(pc := c.pc + 1))
  {
    assert Next(code, c) == Some(c.(pc := c.pc + 1));
    assert Run(code, c.(pc := c.pc + 1), 0) == Some(c.(pc := c.pc + 1));
  }

  lemma JumpStep(code: seq<Ins>, c: Config, t: nat)
    requires DistinctLabels(code) && c.pc < |code| && t < |code| && code[c.pc].Jmp? && code[t] == Label(code[c.pc].target)
    ensures Run(code, c, 1) == Some(c.(pc := t))
  {
    FindDistinct(code, t);
    assert Next(code, c) == Some(c.(pc := t));
    assert Run(code, c.(pc := t), 0) == Some(c.(pc := t));
  }

  lemma IffTrue(code: seq<Ins>, c: Config)
    requires c.pc < |code| && code[c.pc].Iff? && Val(c.st.env, code[c.pc].c) > 0
    ensures Run(code, c, 1) == Some(c.(pc := c.pc + 1))
  {
    assert Next(code, c) == Some(c.(pc := c.pc + 1));
    assert Run(code, c.(pc := c.pc + 1), 0) == Some(c.(pc := c.pc + 1));
  }

  lemma IffFalse(code: seq<Ins>, c: Config, t: nat)
    requires DistinctLabels(code) && c.pc < |code| && t < |code| && code[c.pc].Iff? && code[t] == Label(code[c.pc].target)
    requires Val(c.st.env, code[c.pc].c) <= 0
    ensures Run(code, c, 1) == Some(c.(pc := t))
  {
    FindDistinct(code, t);
    assert Next(code, c) == Some(c.(pc := t));
    assert Run(code, c.(pc := t), 0) == Some(c.(pc := t));
  }

  /** Past the label at t after a jump to it. */
  lemma JumpPast(code: seq<Ins>, c: Config, t: nat)
    requires DistinctLabels(code) && c.pc < |code| && t < |code| && code[c.pc].Jmp? && code[t] == Label(code[c.pc].target)
    ensures Run(code, c, 2) == Some(c.(pc := t + 1))
  {
    JumpStep(code, c, t);
    LabelStep(code, c.(pc := t));
    RunThen(code, c, 1, c.(pc := t), 1, c.(pc := t + 1));
  }

  lemma IffPast(code: seq<Ins>, c: Config, t: nat)
    requires DistinctLabels(code) && c.pc < |code| && t < |code| && code[c.pc].Iff? && code[t] == Label(code[c.pc].target)
    requires Val(c.st.env, code[c.pc].c) <= 0
    ensures Run(code, c, 2) == Some(c.(pc := t + 1))
  {
    IffFalse(code, c, t);
    LabelStep(code, c.(pc := t));
    RunThen(code, c, 1, c.(pc := t), 1, c.(pc := t + 1));
  }

  /** Some steps that lead to the statement, the statement, and the steps that leave it. */
  lemma Around(code: seq<Ins>, base: nat, o: Outcome, fuel: nat,
               c: Config, k0: nat, c1: Config, k1: nat, d: Config, q1: nat, k2: nat, q: nat)
    returns (k: nat, f: Config)
    requires Run(code, c, k0) == Some(c1) && Run(code, c1, k1) == Some(d)
    requires StmtRuns(code, base, o, q1, fuel, k1, d)
    requires o.Done? ==> Run(code, d, k2) == Some(d.(pc := q))
    ensures Run(code, c, k) == Some(f) && StmtRuns(code, base, o, q, fuel, k, f) && k >= k0
  {
    RunThen(code, c, k0, c1, k1, d);
    if o.Done? {
      k, f := k0 + k1 + k2, d.(pc := q);
      RunThen(code, c, k0 + k1, d, k2, f);
    } else {
      k, f := k0 + k1, d;
    }
    hide Run, Next;
  }

  // ----- expressions inside statements -----

  ghost predicate Evaluates(code: seq<Ins>, base: nat, e: Expr, st: State, c: Config, d: Config) {
    && Alike(base, st, d.st)
    && match Eval(e, st.env)
       case None => d.pc < |code| && Next(code, d).None?
       case Some(v) => d.pc == c.pc + |GenExpr(e)| && Val(d.st.env, Res(e)) == v
  }

  lemma ExprFrom(code: seq<Ins>, temps: Temps, base: nat, e: Expr, st: State, c: Config) returns (k: nat, d: Config)
    requires TempsOk(temps, base) && ExprOk(e, temps, base) && Placed(code, c.pc, GenExpr(e)) && Alike(base, st, c.st)
    ensures Run(code, c, k) == Some(d) && Evaluates(code, base, e, st, c, d)
  {
    EvalAgrees(e, temps, base, st.env, c.st.env);
    k, d := ExprSim(code, temps, base, e, c);
    hide Run, Next, Eval, TempsOk, Placed, Stable;
  }

  /** The state after instruction i has used value v. */
  function Use(i: Ins, st: State, v: int): State {
    if i.Assign? then st.(env := st.env[i.r := v]) else st.(output := st.output + [v])
  }

  lemma UpdateAgrees(base: nat, a: Env, b: Env, r: nat, v: int)
    requires UsersAgree(base, a, b)
    ensures UsersAgree(base, a[r := v], b[r := v])
  {
    var a', b' := a[r := v], b[r := v];
    forall x: nat | x < base ensures Get(a', x) == Get(b', x) {
      assert Get(a, x) == Get(b, x);
    }
  }

  lemma UseStep(code: seq<Ins>, base: nat, i: Ins, st: State, d: Config, v: int) returns (f: Config)
    requires d.pc < |code| && code[d.pc] == i && Alike(base, st, d.st)
    requires (i.Out? && Val(d.st.env, i.a) == v) || (i.Assign? && Val(d.st.env, i.a1) == v)
    ensures Run(code, d, 1) == Some(f) && f.pc == d.pc + 1 && Alike(base, Use(i, st, v), f.st)
  {
    f := Config(d.pc + 1, Use(i, d.st, v));
    assert Next(code, d) == Some(f);
    assert Run(code, f, 0) == Some(f);
    if i.Assign? {
      UpdateAgrees(base, st.env, d.st.env, i.r, v);
    }
  }

  /** An expression and one plain instruction that uses its value. */
  lemma ExprStep(code: seq<Ins>, temps: Temps, base: nat, e: Expr, i: Ins, st: State, c: Config)
    returns (k: nat, d: Config)
    requires TempsOk(temps, base) && ExprOk(e, temps, base) && Placed(code, c.pc, GenExpr(e) + [i]) && Alike(base, st, c.st)
    requires i == Out(Res(e)) || (i.Assign? && i.a1 == Res(e))
    ensures Run(code, c, k) == Some(d)
    ensures match Eval(e, st.env)
      case None => StmtRuns(code, base, Stuck(st), 0, 0, k, d)
      case Some(v) => StmtRuns(code, base, Done(Use(i, st, v)), c.pc + |GenExpr(e) + [i]|, 0, k, d)
  {
    PlacedSplit(code, c.pc, GenExpr(e), [i]);
    PlacedAt(code, c.pc + |GenExpr(e)|, i);
    k, d := ExprFrom(code, temps, base, e, st, c);
    if Eval(e, st.env).Some? {
      var f := UseStep(code, base, i, st, d, Eval(e, st.env).value);
      RunThen(code, c, k, d, 1, f);
      k, d := k + 1, f;
    }
    hide Run, Eval, TempsOk, Placed, GenExpr, ExprOk, Alike, Use;
  }

  // ----- the pieces of a conditional and of a loop -----

  lemma PlacedHead(code: seq<Ins>, p: nat, i: Ins, g: seq<Ins>)
    requires Placed(code, p, [i] + g)
    ensures p < |code| && code[p] == i && Placed(code, p + 1, g)
  {
    PlacedSplit(code, p, [i], g);
    PlacedAt(code, p, i);
  }

  lemma PlacedLast(code: seq<Ins>, p: nat, g: seq<Ins>, i: Ins)
    requires Placed(code, p, g + [i])
    ensures p + |g| < |code| && code[p + |g|] == i && Placed(code, p, g)
  {
    PlacedSplit(code, p, g, [i]);
    PlacedAt(code, p + |g|, i);
  }

  /** The condition of a conditional at p, its test, and its then branch at t. */
  ghost predicate TestAt(code: seq<Ins>, p: nat, c: Expr, r: nat, t: nat, thn: Stmts) {
    && t == p + |GenExpr(c)| + 1 && Placed(code, p, GenExpr(c))
    && t <= |code| && code[t - 1] == Iff(Res(c), r) && Placed(code, t, GenStmts(thn))
  }

  lemma TestParts(code: seq<Ins>, p: nat, c: Expr, r: nat, thn: Stmts)
    requires Placed(code, p, GenExpr(c) + [Iff(Res(c), r)] + GenStmts(thn))
    ensures TestAt(code, p, c, r, p + |GenExpr(c)| + 1, thn)
  {
    hide Placed, GenExpr, GenStmts, Res;
    MiddlePlaced(code, p, GenExpr(c), Iff(Res(c), r), GenStmts(thn));
  }

  lemma MiddlePlaced(code: seq<Ins>, p: nat, g: seq<Ins>, i: Ins, h: seq<Ins>)
    requires Placed(code, p, g + [i] + h)
    ensures Placed(code, p, g) && p + |g| < |code| && code[p + |g|] == i && Placed(code, p + |g| + 1, h)
  {
    hide *;
    PlacedSplit(code, p, g + [i], h);
    PlacedLast(code, p, g, i);
  }

  lemma IfThenParts(code: seq<Ins>, p: nat, s: Stmt) returns (t: nat, u: nat)
    requires s.IfS? && s.els == End && Placed(code, p, GenStmt(s))
    ensures TestAt(code, p, s.c, s.r, t, s.thn) && u == t + |GenStmts(s.thn)|
    ensures u < |code| && code[u] == Label(s.r) && p + |GenStmt(s)| == u + 1
  {
    var g := GenExpr(s.c) + [Iff(Res(s.c), s.r)] + GenStmts(s.thn);
    t := p + |GenExpr(s.c)| + 1;
    u := t + |GenStmts(s.thn)|;
    assert GenStmt(s) == g + [Label(s.r)] && |GenStmt(s)| == |g| + 1 && p + |g| == u;
    hide *;
    PlacedLast(code, p, g, Label(s.r));
    TestParts(code, p, s.c, s.r, s.thn);
  }

  /** The else part behind a then part g: a jump, a label, the statements h, a label. */
  lemma ElsePlaced(code: seq<Ins>, p: nat, g: seq<Ins>, a: nat, r: nat, h: seq<Ins>)
    requires Placed(code, p, g + [Jmp(a)] + ([Label(r)] + h + [Label(a)]))
    ensures var u := p + |g|; var w := u + 2 + |h|;
      && Placed(code, p, g) && w < |code| && code[u] == Jmp(a) && code[u + 1] == Label(r)
      && Placed(code, u + 2, h) && code[w] == Label(a)
  {
    hide *;
    PlacedSplit(code, p, g + [Jmp(a)], [Label(r)] + h + [Label(a)]);
    PlacedLast(code, p, g, Jmp(a));
    PlacedLast(code, p + |g| + 1, [Label(r)] + h, Label(a));
    PlacedHead(code, p + |g| + 1, Label(r), h);
  }

  lemma IfElseParts(code: seq<Ins>, p: nat, s: Stmt) returns (t: nat, u: nat, w: nat)
    requires s.IfS? && s.els != End && Placed(code, p, GenStmt(s))
    ensures TestAt(code, p, s.c, s.r, t, s.thn) && u == t + |GenStmts(s.thn)|
    ensures u + 2 <= |code| && code[u] == Jmp(s.a2) && code[u + 1] == Label(s.r)
    ensures Placed(code, u + 2, GenStmts(s.els)) && w == u + 2 + |GenStmts(s.els)|
    ensures w < |code| && code[w] == Label(s.a2) && p + |GenStmt(s)| == w + 1
  {
    var g, h := GenExpr(s.c) + [Iff(Res(s.c), s.r)] + GenStmts(s.thn), GenStmts(s.els);
    t := p + |GenExpr(s.c)| + 1;
    u := t + |GenStmts(s.thn)|;
    w := u + 2 + |h|;
    IfElseCode(s);
    hide *;
    ElsePlaced(code, p, g, s.a2, s.r, h);
    TestParts(code, p, s.c, s.r, s.thn);
  }

  lemma IfElseCode(s: Stmt)
    requires s.IfS? && s.els != End
    ensures var g := GenExpr(s.c) + [Iff(Res(s.c), s.r)] + GenStmts(s.thn);
      && |g| == |GenExpr(s.c)| + 1 + |GenStmts(s.thn)|
      && GenStmt(s) == g + [Jmp(s.a2)] + ([Label(s.r)] + GenStmts(s.els) + [Label(s.a2)])
      && |GenStmt(s)| == |g| + 3 + |GenStmts(s.els)|
  {
    hide GenStmts, GenExpr;
  }

  lemma WhileParts(code: seq<Ins>, p: nat, s: Stmt) returns (t: nat, u: nat)
    requires s.WhileS? && Placed(code, p, GenStmt(s))
    ensures p < |code| && code[p] == Label(s.a2)
    ensures TestAt(code, p + 1, s.c, s.r, t, s.body) && u == t + |GenStmts(s.body)|
    ensures u + 2 <= |code| && code[u] == Jmp(s.a2) && code[u + 1] == Label(s.r) && p + |GenStmt(s)| == u + 2
  {
    var g := GenExpr(s.c) + [Iff(Res(s.c), s.r)] + GenStmts(s.body);
    t := p + 1 + |GenExpr(s.c)| + 1;
    u := t + |GenStmts(s.body)|;
    assert GenStmt(s) == [Label(s.a2)] + g + [Jmp(s.a2)] + [Label(s.r)];
    assert |GenStmt(s)| == 1 + |g| + 2 && p + 1 + |g| == u;
    hide *;
    PlacedLast(code, p, [Label(s.a2)] + g + [Jmp(s.a2)], Label(s.r));
    PlacedLast(code, p, [Label(s.a2)] + g, Jmp(s.a2));
    PlacedHead(code, p, Label(s.a2), g);
    TestParts(code, p + 1, s.c, s.r, s.body);
  }

  // ----- the simulation -----

  /** The code of ss placed where c is takes c to d as the outcome of ss says. */
  ghost predicate Simulates(code: seq<Ins>, base: nat, o: Outcome, q: nat, fuel: nat, c: Config, k: nat, d: Config) {
    Run(code, c, k) == Some(d) && StmtRuns(code, base, o, q, fuel, k, d)
  }

  /** What the whole code must satisfy. */
  ghost predicate Setting(code: seq<Ins>, temps: Temps, base: nat) {
    DistinctLabels(code) && TempsOk(temps, base)
  }

  /** The machine reaches the test with the condition's value in place. */
  lemma TestSim(code: seq<Ins>, temps: Temps, base: nat, p: nat, e: Expr, r: nat, t: nat, thn: Stmts, st: State, c: Config)
    returns (k: nat, d: Config)
    requires Setting(code, temps, base) && TestAt(code, p, e, r, t, thn) && ExprOk(e, temps, base)
    requires c.pc == p && Alike(base, st, c.st)
    ensures Run(code, c, k) == Some(d) && Alike(base, st, d.st)
    ensures match Eval(e, st.env)
      case None => d.pc < |code| && Next(code, d).None?
      case Some(v) => d.pc == t - 1 && d.pc < |code| && code[d.pc] == Iff(Res(e), r) && Val(d.st.env, Res(e)) == v
  {
    k, d := ExprFrom(code, temps, base, e, st, c);
    hide Run, Next, Eval, DistinctLabels, TempsOk, Placed, Alike;
  }

  lemma StuckTest(code: seq<Ins>, base: nat, st: State, fuel: nat, c: Config, k: nat, d: Config, q: nat)
    requires Run(code, c, k) == Some(d) && Alike(base, st, d.st) && d.pc < |code| && Next(code, d).None?
    ensures Simulates(code, base, Stuck(st), q, fuel, c, k, d)
  {
  }

  /** The branch taken, between the test and the steps that leave the statement. */
  lemma BranchSim(code: seq<Ins>, temps: Temps, base: nat, ss: Stmts, st: State, fuel: nat,
                  c: Config, k0: nat, c1: Config, k2: nat, q: nat)
    returns (k: nat, f: Config)
    requires Setting(code, temps, base) && StmtsOk(ss, temps, base) && Placed(code, c1.pc, GenStmts(ss))
    requires Run(code, c, k0) == Some(c1) && Alike(base, st, c1.st)
    requires forall d: Config :: d.pc == c1.pc + |GenStmts(ss)| ==> Run(code, d, k2) == Some(d.(pc := q))
    ensures Simulates(code, base, ExecStmts(ss, st, fuel), q, fuel, c, k, f) && k >= k0
    decreases fuel, ss, 1
  {
    var o := ExecStmts(ss, st, fuel);
    var q1 := c1.pc + |GenStmts(ss)|;
    var k1, d := StmtsSim(code, temps, base, ss, st, c1, fuel);
    assert o.Done? ==> Run(code, d, k2) == Some(d.(pc := q)) by {
      hide Run, Next, ExecStmts, DistinctLabels, TempsOk, Placed;
    }
    hide Run, Next, StmtRuns, ExecStmts, Setting, StmtsOk, Placed, Alike, GenStmts;
    k, f := Around(code, base, o, fuel, c, k0, c1, k1, d, q1, k2, q);
  }

  lemma IfThenSim(code: seq<Ins>, temps: Temps, base: nat, s: Stmt, st: State, c: Config, fuel: nat)
    returns (k: nat, f: Config)
    requires s.IfS? && s.els == End && Setting(code, temps, base) && StmtOk(s, temps, base)
    requires Placed(code, c.pc, GenStmt(s)) && Alike(base, st, c.st)
    ensures Simulates(code, base, ExecStmt(s, st, fuel), c.pc + |GenStmt(s)|, fuel, c, k, f)
    decreases fuel, s, 0
  {
    var q := c.pc + |GenStmt(s)|;
    var t, u := IfThenParts(code, c.pc, s);
    var v := Eval(s.c, st.env);
    assert ExecStmt(s, st, fuel) == if v.None? then Stuck(st) else if v.value > 0 then ExecStmts(s.thn, st, fuel) else Done(st);
    assert StmtsOk(s.thn, temps, base) && ExprOk(s.c, temps, base) && Placed(code, t, GenStmts(s.thn));
    assert DistinctLabels(code);
    hide StmtOk, StmtsOk, ExprOk, ExecStmt, ExecStmts, GenStmt, Eval, Run, Next, Placed, TempsOk, DistinctLabels, Alike;
    var d;
    k, d := TestSim(code, temps, base, c.pc, s.c, s.r, t, s.thn, st, c);
    if v.None? {
      StuckTest(code, base, st, fuel, c, k, d, q);
      f := d;
    } else if v.value > 0 {
      IffTrue(code, d);
      var c1 := d.(pc := t);
      RunThen(code, c, k, d, 1, c1);
      forall e: Config | e.pc == u ensures Run(code, e, 1) == Some(e.(pc := q)) {
        LabelStep(code, e);
      }
      k, f := BranchSim(code, temps, base, s.thn, st, fuel, c, k + 1, c1, 1, q);
    } else {
      IffPast(code, d, u);
      f := d.(pc := q);
      RunThen(code, c, k, d, 2, f);
      k := k + 2;
    }
  }

  lemma TakeThen(code: seq<Ins>, temps: Temps, base: nat, s: Stmt, st: State, fuel: nat,
                 c: Config, k0: nat, d: Config, t: nat, u: nat, w: nat)
    returns (k: nat, f: Config)
    requires s.IfS? && Setting(code, temps, base) && StmtsOk(s.thn, temps, base) && Placed(code, t, GenStmts(s.thn))
    requires Run(code, c, k0) == Some(d) && Alike(base, st, d.st) && t > 0 && d.pc == t - 1
    requires d.pc < |code| && code[d.pc].Iff? && Val(d.st.env, code[d.pc].c) > 0
    requires u == t + |GenStmts(s.thn)| && u < |code| && code[u] == Jmp(s.a2) && w < |code| && code[w] == Label(s.a2)
    ensures Simulates(code, base, ExecStmts(s.thn, st, fuel), w + 1, fuel, c, k, f)
    decreases fuel, s, 0, 0
  {
    assert DistinctLabels(code);
    hide *;
    IffTrue(code, d);
    var c1 := d.(pc := t);
    RunThen(code, c, k0, d, 1, c1);
    forall e: Config | e.pc == u ensures Run(code, e, 2) == Some(e.(pc := w + 1)) {
      JumpPast(code, e, w);
    }
    k, f := BranchSim(code, temps, base, s.thn, st, fuel, c, k0 + 1, c1, 2, w + 1);
  }

  lemma TakeElse(code: seq<Ins>, temps: Temps, base: nat, s: Stmt, st: State, fuel: nat,
                 c: Config, k0: nat, d: Config, u: nat, w: nat)
    returns (k: nat, f: Config)
    requires s.IfS? && Setting(code, temps, base) && StmtsOk(s.els, temps, base) && Placed(code, u + 2, GenStmts(s.els))
    requires Run(code, c, k0) == Some(d) && Alike(base, st, d.st)
    requires d.pc < |code| && code[d.pc] == Iff(Res(s.c), s.r) && Val(d.st.env, Res(s.c)) <= 0
    requires u + 1 < |code| && code[u + 1] == Label(s.r)
    requires w == u + 2 + |GenStmts(s.els)| && w < |code| && code[w] == Label(s.a2)
    ensures Simulates(code, base, ExecStmts(s.els, st, fuel), w + 1, fuel, c, k, f)
    decreases fuel, s, 0, 0
  {
    assert DistinctLabels(code);
    hide *;
    IffPast(code, d, u + 1);
    var c1 := d.(pc := u + 2);
    RunThen(code, c, k0, d, 2, c1);
    forall e: Config | e.pc == w ensures Run(code, e, 1) == Some(e.(pc := w + 1)) {
      LabelStep(code, e);
    }
    k, f := BranchSim(code, temps, base, s.els, st, fuel, c, k0 + 2, c1, 1, w + 1);
  }

  lemma IfElseSim(code: seq<Ins>, temps: Temps, base: nat, s: Stmt, st: State, c: Config, fuel: nat)
    returns (k: nat, f: Config)
    requires s.IfS? && s.els != End && Setting(code, temps, base) && StmtOk(s, temps, base)
    requires Placed(code, c.pc, GenStmt(s)) && Alike(base, st, c.st)
    ensures Simulates(code, base, ExecStmt(s, st, fuel), c.pc + |GenStmt(s)|, fuel, c, k, f)
    decreases fuel, s, 0, 1
  {
    var q := c.pc + |GenStmt(s)|;
    var t, u, w := IfElseParts(code, c.pc, s);
    var v := Eval(s.c, st.env);
    assert ExecStmt(s, st, fuel)
        == if v.None? then Stuck(st) else if v.value > 0 then ExecStmts(s.thn, st, fuel) else ExecStmts(s.els, st, fuel);
    assert StmtsOk(s.thn, temps, base) && StmtsOk(s.els, temps, base) && ExprOk(s.c, temps, base);
    assert t > 0 && Placed(code, t, GenStmts(s.thn));
    hide *;
    var d;
    k, d := TestSim(code, temps, base, c.pc, s.c, s.r, t, s.thn, st, c);
    if v.None? {
      StuckTest(code, base, st, fuel, c, k, d, q);
      f := d;
    } else if v.value > 0 {
      k, f := TakeThen(code, temps, base, s, st, fuel, c, k, d, t, u, w);
    } else {
      k, f := TakeElse(code, temps, base, s, st, fuel, c, k, d, u, w);
    }
  }

  /** A loop with budget left whose condition holds: the body once, then the loop again. */
  lemma LoopAgain(code: seq<Ins>, temps: Temps, base: nat, s: Stmt, st: State, c: Config, fuel: nat, k0: nat, c1: Config, t: nat, u: nat)
    returns (k: nat, f: Config)
    requires s.WhileS? && fuel > 0 && Setting(code, temps, base) && StmtOk(s, temps, base)
    requires Placed(code, c.pc, GenStmt(s)) && c.pc < |code| && code[c.pc] == Label(s.a2)
    requires Run(code, c, k0) == Some(c1) && k0 > 0 && Alike(base, st, c1.st) && c1.pc == t
    requires Placed(code, t, GenStmts(s.body)) && u == t + |GenStmts(s.body)| && u < |code| && code[u] == Jmp(s.a2)
    ensures var o := ExecStmts(s.body, st, fuel);
      Simulates(code, base, if o.Done? then ExecStmt(s, o.st, fuel - 1) else o, c.pc + |GenStmt(s)|, fuel, c, k, f)
    decreases fuel, s, 0, 0
  {
    var q := c.pc + |GenStmt(s)|;
    var o := ExecStmts(s.body, st, fuel);
    LoopFacts(code, temps, base, s);
    hide StmtOk, StmtsOk, ExprOk, ExecStmt, ExecStmts, GenStmt, GenStmts, Eval, Run, Next, Placed, TempsOk, DistinctLabels, Alike, Setting;
    forall e: Config | e.pc == u ensures Run(code, e, 1) == Some(e.(pc := c.pc)) {
      JumpStep(code, e, c.pc);
    }
    k, f := BranchSim(code, temps, base, s.body, st, fuel, c, k0, c1, 1, c.pc);
    if o.Done? {
      assert Placed(code, f.pc, GenStmt(s));
      var k2, g := WhileSim(code, temps, base, s, o.st, f, fuel - 1);
      k, f := LoopJoin(code, base, s, o.st, fuel, c, k, f, k2, g, q);
    }
  }

  lemma LoopFacts(code: seq<Ins>, temps: Temps, base: nat, s: Stmt)
    requires s.WhileS? && Setting(code, temps, base) && StmtOk(s, temps, base)
    ensures StmtsOk(s.body, temps, base) && DistinctLabels(code)
  {
  }

  lemma LoopJoin(code: seq<Ins>, base: nat, s: Stmt, st: State, fuel: nat, c: Config, k1: nat, c1: Config, k2: nat, g: Config, q: nat)
    returns (k: nat, f: Config)
    requires fuel > 0 && k1 > 0 && Run(code, c, k1) == Some(c1)
    requires Simulates(code, base, ExecStmt(s, st, fuel - 1), q, fuel - 1, c1, k2, g)
    ensures Simulates(code, base, ExecStmt(s, st, fuel - 1), q, fuel, c, k, f)
  {
    RunThen(code, c, k1, c1, k2, g);
    k, f := k1 + k2, g;
    hide Run, Next, ExecStmt;
  }

  lemma OutOfBudget(code: seq<Ins>, base: nat, st: State, c: Config, k: nat, d: Config, q: nat)
    requires Run(code, c, k) == Some(d) && Alike(base, st, d.st)
    ensures Simulates(code, base, Timeout(st), q, 0, c, k, d)
  {
  }

  lemma LoopExit(code: seq<Ins>, base: nat, s: Stmt, st: State, fuel: nat, c: Config, k0: nat, d: Config, u: nat)
    returns (k: nat, f: Config)
    requires s.WhileS? && DistinctLabels(code)
    requires Run(code, c, k0) == Some(d) && Alike(base, st, d.st)
    requires d.pc < |code| && code[d.pc] == Iff(Res(s.c), s.r) && Val(d.st.env, Res(s.c)) <= 0
    requires u + 1 < |code| && code[u + 1] == Label(s.r)
    ensures Simulates(code, base, Done(st), u + 2, fuel, c, k, f)
  {
    IffPast(code, d, u + 1);
    f := d.(pc := u + 2);
    RunThen(code, c, k0, d, 2, f);
    k := k0 + 2;
    hide Run, Next, DistinctLabels;
  }

  lemma WhileSim(code: seq<Ins>, temps: Temps, base: nat, s: Stmt, st: State, c: Config, fuel: nat)
    returns (k: nat, f: Config)
    requires s.WhileS? && Setting(code, temps, base) && StmtOk(s, temps, base)
    requires Placed(code, c.pc, GenStmt(s)) && Alike(base, st, c.st)
    ensures Simulates(code, base, ExecStmt(s, st, fuel), c.pc + |GenStmt(s)|, fuel, c, k, f)
    decreases fuel, s, 1
  {
    var q := c.pc + |GenStmt(s)|;
    var t, u := WhileParts(code, c.pc, s);
    var v := Eval(s.c, st.env);
    var o := ExecStmts(s.body, st, fuel);
    assert ExecStmt(s, st, fuel) == if v.None? then Stuck(st) else if v.value <= 0 then Done(st) else
      if fuel == 0 then Timeout(st) else if o.Done? then ExecStmt(s, o.st, fuel - 1) else o;
    assert ExprOk(s.c, temps, base) && DistinctLabels(code) && Placed(code, t, GenStmts(s.body)) && t > 0;
    var c0 := c.(pc := c.pc + 1);
    assert Alike(base, st, c0.st);
    hide *;
    LabelStep(code, c);
    var k1, d := TestSim(code, temps, base, c0.pc, s.c, s.r, t, s.body, st, c0);
    RunThen(code, c, 1, c0, k1, d);
    k := 1 + k1;
    if v.None? {
      StuckTest(code, base, st, fuel, c, k, d, q);
      f := d;
    } else if v.value <= 0 {
      k, f := LoopExit(code, base, s, st, fuel, c, k, d, u);
    } else if fuel == 0 {
      OutOfBudget(code, base, st, c, k, d, q);
      f := d;
    } else {
      IffTrue(code, d);
      var c1 := d.(pc := t);
      RunThen(code, c, k, d, 1, c1);
      k, f := LoopAgain(code, temps, base, s, st, c, fuel, k + 1, c1, t, u);
    }
  }

  lemma ReadSim(code: seq<Ins>, base: nat, s: Stmt, st: State, c: Config, fuel: nat) returns (k: nat, f: Config)
    requires s.ReadS? && Placed(code, c.pc, GenStmt(s)) && Alike(base, st, c.st)
    ensures Simulates(code, base, ExecStmt(s, st, fuel), c.pc + |GenStmt(s)|, fuel, c, k, f)
  {
    PlacedAt(code, c.pc, In(s.x));
    hide Placed;
    if st.input == [] {
      k, f := 0, c;
      assert Run(code, c, 0) == Some(c);
    } else {
      k, f := 1, Config(c.pc + 1, State(c.st.env[s.x := c.st.input[0]], c.st.input[1..], c.st.output));
      assert Next(code, c) == Some(f);
      assert Run(code, f, 0) == Some(f);
      UpdateAgrees(base, st.env, c.st.env, s.x, c.st.input[0]);
    }
  }

  lemma PlainSim(code: seq<Ins>, temps: Temps, base: nat, s: Stmt, st: State, c: Config, fuel: nat)
    returns (k: nat, f: Config)
    requires (s.WriteS? || s.AssignS?) && Setting(code, temps, base) && StmtOk(s, temps, base)
    requires Placed(code, c.pc, GenStmt(s)) && Alike(base, st, c.st)
    ensures Simulates(code, base, ExecStmt(s, st, fuel), c.pc + |GenStmt(s)|, fuel, c, k, f)
  {
    var i := if s.WriteS? then Out(Res(s.e)) else Assign(s.x, Res(s.e));
    k, f := ExprStep(code, temps, base, s.e, i, st, c);
    hide Run, Next, Eval, Placed, TempsOk, DistinctLabels, GenExpr, Alike;
  }

  /** The code of a statement does what the statement does. */
  lemma StmtSim(code: seq<Ins>, temps: Temps, base: nat, s: Stmt, st: State, c: Config, fuel: nat)
    returns (k: nat, f: Config)
    requires Setting(code, temps, base) && StmtOk(s, temps, base)
    requires Placed(code, c.pc, GenStmt(s)) && Alike(base, st, c.st)
    ensures Simulates(code, base, ExecStmt(s, st, fuel), c.pc + |GenStmt(s)|, fuel, c, k, f)
    decreases fuel, s, 2
  {
    hide *;
    if s.ReadS? {
      k, f := ReadSim(code, base, s, st, c, fuel);
    } else if s.WhileS? {
      k, f := WhileSim(code, temps, base, s, st, c, fuel);
    } else if s.IfS? && s.els == End {
      k, f := IfThenSim(code, temps, base, s, st, c, fuel);
    } else if s.IfS? {
      k, f := IfElseSim(code, temps, base, s, st, c, fuel);
    } else {
      k, f := PlainSim(code, temps, base, s, st, c, fuel);
    }
  }

  /** One statement done, the rest of the list after it. */
  lemma SeqJoin(code: seq<Ins>, base: nat, o: Outcome, o2: Outcome, q1: nat, q: nat, fuel: nat,
                c: Config, k1: nat, c1: Config, k2: nat, g: Config)
    requires Simulates(code, base, o, q1, fuel, c, k1, c1) && Simulates(code, base, o2, q, fuel, c1, k2, g)
    ensures Simulates(code, base, o2, q, fuel, c, k1 + k2, g)
  {
    RunThen(code, c, k1, c1, k2, g);
    hide Run, Next;
  }

  lemma ChainParts(code: seq<Ins>, temps: Temps, base: nat, ss: Stmts, p: nat, st: State, fuel: nat)
    requires ss.Chain? && StmtsOk(ss, temps, base) && Placed(code, p, GenStmts(ss))
    ensures StmtOk(ss.head, temps, base) && StmtsOk(ss.sibling, temps, base)
    ensures Placed(code, p, GenStmt(ss.head)) && Placed(code, p + |GenStmt(ss.head)|, GenStmts(ss.sibling))
    ensures |GenStmts(ss)| == |GenStmt(ss.head)| + |GenStmts(ss.sibling)|
    ensures var o := ExecStmt(ss.head, st, fuel);
      ExecStmts(ss, st, fuel) == if o.Done? then ExecStmts(ss.sibling, o.st, fuel) else o
  {
    PlacedSplit(code, p, GenStmt(ss.head), GenStmts(ss.sibling));
  }

  lemma SimulatesDone(code: seq<Ins>, base: nat, o: Outcome, q: nat, fuel: nat, c: Config, k: nat, d: Config)
    requires Simulates(code, base, o, q, fuel, c, k, d)
    ensures o.Done? ==> d.pc == q && Alike(base, o.st, d.st)
    ensures forall q' :: !o.Done? ==> Simulates(code, base, o, q', fuel, c, k, d)
  {
  }

  /** The code of a list of statements does what the list does. */
  lemma StmtsSim(code: seq<Ins>, temps: Temps, base: nat, ss: Stmts, st: State, c: Config, fuel: nat)
    returns (k: nat, f: Config)
    requires Setting(code, temps, base) && StmtsOk(ss, temps, base)
    requires Placed(code, c.pc, GenStmts(ss)) && Alike(base, st, c.st)
    ensures Simulates(code, base, ExecStmts(ss, st, fuel), c.pc + |GenStmts(ss)|, fuel, c, k, f)
    decreases fuel, ss, 0
  {
    match ss
    case End =>
      k, f := 0, c;
      assert Run(code, c, 0) == Some(c);
    case Chain(s, rest) =>
      k, f := ChainSim(code, temps, base, ss, st, c, fuel);
  }

  lemma ChainSim(code: seq<Ins>, temps: Temps, base: nat, ss: Stmts, st: State, c: Config, fuel: nat)
    returns (k: nat, f: Config)
    requires ss.Chain? && Setting(code, temps, base) && StmtsOk(ss, temps, base)
    requires Placed(code, c.pc, GenStmts(ss)) && Alike(base, st, c.st)
    ensures Simulates(code, base, ExecStmts(ss, st, fuel), c.pc + |GenStmts(ss)|, fuel, c, k, f)
    decreases fuel, ss, 0, 0
  {
    hide *;
    ChainParts(code, temps, base, ss, c.pc, st, fuel);
    var o, q1 := ExecStmt(ss.head, st, fuel), c.pc + |GenStmt(ss.head)|;
    k, f := StmtSim(code, temps, base, ss.head, st, c, fuel);
    SimulatesDone(code, base, o, q1, fuel, c, k, f);
    if o.Done? {
      var k2, g := StmtsSim(code, temps, base, ss.sibling, o.st, f, fuel);
      SeqJoin(code, base, o, ExecStmts(ss, st, fuel), q1, c.pc + |GenStmts(ss)|, fuel, c, k, f, k2, g);
      k, f := k + k2, g;
    }
  }

  // ----- whole programs -----

  ghost predicate Final(code: seq<Ins>, c: Config, d: Config) {
    Next(code, d).None? && exists k: nat :: Run(code, c, k) == Some(d)
  }

  /** A program compiled on its own: its labels distinct, its temporaries above the user symbols. */
  ghost predicate Compiled(prog: Stmts, temps: Temps, base: nat) {
    StmtsOk(prog, temps, base) && Setting(GenStmts(prog), temps, base)
  }

  lemma FinalUnique(code: seq<Ins>, c: Config, k1: nat, d1: Config, k2: nat, d2: Config)
    requires Run(code, c, k1) == Some(d1) && Next(code, d1).None? && Run(code, c, k2) == Some(d2)
    ensures k2 <= k1 && (Next(code, d2).None? ==> d1 == d2)
  {
    if k2 > k1 {
      RunAdd(code, c, k1, k2 - k1);
    } else {
      RunAdd(code, c, k2, k1 - k2);
    }
  }

  lemma ProgramSim(prog: Stmts, temps: Temps, base: nat, st: State, fuel: nat) returns (k: nat, d: Config)
    requires Compiled(prog, temps, base)
    ensures Simulates(GenStmts(prog), base, ExecStmts(prog, st, fuel), |GenStmts(prog)|, fuel, Config(0, st), k, d)
  {
    assert GenStmts(prog)[0..|GenStmts(prog)|] == GenStmts(prog);
    assert Placed(GenStmts(prog), 0, GenStmts(prog)) && Alike(base, st, st);
    assert Setting(GenStmts(prog), temps, base) && StmtsOk(prog, temps, base);
    hide *;
    k, d := StmtsSim(GenStmts(prog), temps, base, prog, st, Config(0, st), fuel);
  }

  /** Whatever the program does within some loop budget, its code does: it ends where the program
      ends, is stuck where the program is stuck, and otherwise has the same output so far after
      at least that many steps. */
  lemma LoweringPreserves(prog: Stmts, temps: Temps, base: nat, st: State, fuel: nat) returns (k: nat, d: Config)
    requires Compiled(prog, temps, base)
    ensures Run(GenStmts(prog), Config(0, st), k) == Some(d)
    ensures Alike(base, ExecStmts(prog, st, fuel).st, d.st)
    ensures match ExecStmts(prog, st, fuel)
      case Done(_) => d.pc == |GenStmts(prog)| && Final(GenStmts(prog), Config(0, st), d)
      case Stuck(_) => d.pc < |GenStmts(prog)| && Final(GenStmts(prog), Config(0, st), d)
      case Timeout(_) => k >= fuel
  {
    k, d := ProgramSim(prog, temps, base, st, fuel);
    hide Compiled, ExecStmts, GenStmts, Alike;
  }

  /** And nothing more: a run of the code that ends, or is stuck, is one of the program. */
  lemma LoweringReflects(prog: Stmts, temps: Temps, base: nat, st: State, d: Config) returns (fuel: nat)
    requires Compiled(prog, temps, base) && Final(GenStmts(prog), Config(0, st), d)
    ensures Alike(base, ExecStmts(prog, st, fuel).st, d.st)
    ensures ExecStmts(prog, st, fuel).Done? <==> d.pc == |GenStmts(prog)|
    ensures ExecStmts(prog, st, fuel).Stuck? <==> d.pc != |GenStmts(prog)|
  {
    var code, c := GenStmts(prog), Config(0, st);
    var k: nat :| Run(code, c, k) == Some(d);
    fuel := k + 1;
    var k', d' := ProgramSim(prog, temps, base, st, fuel);
    FinalUnique(code, c, k, d, k', d');
    hide Compiled, ExecStmts, GenStmts, Alike, Run;
  }
}
