/** Lowering of syntax trees to labelled three-address code, and its correctness. */
module Lowering {
  import opened Options
  import opened ThreeAddress
  import opened Ast

  // ----- the code of a tree -----

  /** Where the value of an expression is found once its code has run. */
  function Res(e: Expr): Arg {
    match e
    case Num(v) => Const(v)
    case Id(x) => Sym(x)
    case Biop(_, _, _, t) => Sym(t)
    case Uop(_, t) => Sym(t)
  }

  function GenExpr(e: Expr): seq<Ins> {
    match e
    case Num(_) => []
    case Id(_) => []
    case Biop(op, l, r, t) => GenExpr(l) + GenExpr(r) + [Bin(op, t, Res(l), Res(r))]
    case Uop(a, t) => GenExpr(a) + [Bin(Mul, t, Res(a), Const(-1))]
  }

  function GenStmt(s: Stmt): seq<Ins> {
    match s
    case WriteS(e) => GenExpr(e) + [Out(Res(e))]
    case AssignS(x, e) => GenExpr(e) + [Assign(x, Res(e))]
    case ReadS(x) => [In(x)]
    case IfS(c, thn, els, a2, r) =>
      if els == End then GenExpr(c) + [Iff(Res(c), r)] + GenStmts(thn) + [Label(r)]
      else GenExpr(c) + [Iff(Res(c), r)] + GenStmts(thn) + [Jmp(a2)] + ([Label(r)] + GenStmts(els) + [Label(a2)])
    case WhileS(c, body, a2, r) =>
      [Label(a2)] + (GenExpr(c) + [Iff(Res(c), r)] + GenStmts(body)) + [Jmp(a2)] + [Label(r)]
  }

  function GenStmts(ss: Stmts): seq<Ins> {
    match ss
    case End => []
    case Chain(s, rest) => GenStmt(s) + GenStmts(rest)
  }

  // ----- what the temporaries of a tree must satisfy -----

  /** Which expression each temporary was made for. */
  type Temps = map<nat, Expr>

  /** User symbols are below base; a temporary belongs to one expression, though the same
      expression may occur at several places. */
  ghost predicate ExprOk(e: Expr, temps: Temps, base: nat) {
    match e
    case Num(_) => true
    case Id(x) => x < base
    case Biop(_, l, r, t) => base <= t && t in temps && temps[t] == e && ExprOk(l, temps, base) && ExprOk(r, temps, base)
    case Uop(a, t) => base <= t && t in temps && temps[t] == e && ExprOk(a, temps, base)
  }

  ghost predicate StmtOk(s: Stmt, temps: Temps, base: nat) {
    match s
    case WriteS(e) => ExprOk(e, temps, base)
    case AssignS(x, e) => x < base && ExprOk(e, temps, base)
    case ReadS(x) => x < base
    case IfS(c, thn, els, _, _) => ExprOk(c, temps, base) && StmtsOk(thn, temps, base) && StmtsOk(els, temps, base)
    case WhileS(c, body, _, _) => ExprOk(c, temps, base) && StmtsOk(body, temps, base)
  }

  ghost predicate StmtsOk(ss: Stmts, temps: Temps, base: nat) {
    match ss
    case End => true
    case Chain(s, rest) => StmtOk(s, temps, base) && StmtsOk(rest, temps, base)
  }

  ghost predicate TempsOk(temps: Temps, base: nat) {
    forall t :: t in temps ==> ExprOk(temps[t], temps, base)
  }

  // ----- relations between states -----

  ghost predicate UsersAgree(base: nat, a: Env, b: Env) {
    forall x: nat :: x < base ==> Get(a, x) == Get(b, x)
  }

  /** A temporary that changed from a to b holds the value of its expression. */
  ghost predicate Stable(temps: Temps, base: nat, a: Env, b: Env) {
    forall t :: t in temps && base <= t ==> Get(b, t) == Get(a, t) || Eval(temps[t], a) == Some(Get(b, t))
  }

  lemma {:induction false} EvalAgrees(e: Expr, temps: Temps, base: nat, a: Env, b: Env)
    requires ExprOk(e, temps, base) && UsersAgree(base, a, b)
    ensures Eval(e, a) == Eval(e, b)
  {
    match e
    case Num(_) =>
    case Id(_) =>
    case Biop(_, l, r, _) =>
      EvalAgrees(l, temps, base, a, b);
      EvalAgrees(r, temps, base, a, b);
    case Uop(x, _) =>
      EvalAgrees(x, temps, base, a, b);
  }

  lemma StableTransitive(temps: Temps, base: nat, a: Env, b: Env, c: Env)
    requires TempsOk(temps, base) && UsersAgree(base, a, b)
    requires Stable(temps, base, a, b) && Stable(temps, base, b, c)
    ensures Stable(temps, base, a, c)
  {
    forall t | t in temps && base <= t ensures Get(c, t) == Get(a, t) || Eval(temps[t], a) == Some(Get(c, t)) {
      EvalAgrees(temps[t], temps, base, a, b);
    }
  }

  /** A value once computed stays where it is: later code may recompute it, not destroy it. */
  lemma ResultSurvives(e: Expr, temps: Temps, base: nat, a: Env, b: Env)
    requires ExprOk(e, temps, base) && UsersAgree(base, a, b) && Stable(temps, base, a, b)
    requires Eval(e, a) == Some(Val(a, Res(e)))
    ensures Val(b, Res(e)) == Val(a, Res(e))
  {
  }

  // ----- code in its place -----

  ghost predicate Placed(code: seq<Ins>, p: nat, g: seq<Ins>) {
    p + |g| <= |code| && code[p..p + |g|] == g
  }

  lemma PlacedSplit(code: seq<Ins>, p: nat, a: seq<Ins>, b: seq<Ins>)
    requires Placed(code, p, a + b)
    ensures Placed(code, p, a) && Placed(code, p + |a|, b)
  {
    var g := a + b;
    assert code[p..p + |a|] == g[..|a|] == a;
    assert code[p + |a|..p + |g|] == g[|a|..] == b;
  }

  lemma PlacedAt(code: seq<Ins>, p: nat, i: Ins)
    requires Placed(code, p, [i])
    ensures p < |code| && code[p] == i
  {
    assert code[p..p + 1][0] == [i][0];
  }

  lemma PlacedSplit3(code: seq<Ins>, p: nat, a: seq<Ins>, b: seq<Ins>, i: Ins)
    requires Placed(code, p, a + b + [i])
    ensures Placed(code, p, a) && Placed(code, p + |a|, b)
    ensures p + |a| + |b| < |code| && code[p + |a| + |b|] == i && |a + b + [i]| == |a| + |b| + 1
  {
    hide *;
    PlacedSplit(code, p, a + b, [i]);
    PlacedSplit(code, p, a, b);
    PlacedAt(code, p + |a| + |b|, i);
  }

  // ----- expressions -----

  /** Input, output and user symbols are untouched, and temporaries changed as they should. */
  ghost predicate Kept(temps: Temps, base: nat, a: State, b: State) {
    && b.input == a.input && b.output == a.output
    && UsersAgree(base, a.env, b.env) && Stable(temps, base, a.env, b.env)
  }

  lemma KeptTransitive(temps: Temps, base: nat, a: State, b: State, c: State)
    requires TempsOk(temps, base) && Kept(temps, base, a, b) && Kept(temps, base, b, c)
    ensures Kept(temps, base, a, c)
  {
    StableTransitive(temps, base, a.env, b.env, c.env);
    hide Stable, TempsOk;
  }

  /** The code of e takes c to d: to its end with the value in place, or to where it is stuck
      when the evaluation of e is. */
  ghost predicate ExprRuns(code: seq<Ins>, temps: Temps, base: nat, e: Expr, c: Config, d: Config) {
    && Kept(temps, base, c.st, d.st)
    && match Eval(e, c.st.env)
       case None => d.pc < |code| && Next(code, d).None?
       case Some(v) => d.pc == c.pc + |GenExpr(e)| && Val(d.st.env, Res(e)) == v
  }

  /** One more binary instruction, on operands whose values are in place. */
  lemma BinRuns(code: seq<Ins>, temps: Temps, base: nat, e: Expr, c: Config, d: Config, i: Ins, x: int, y: int)
    returns (k: nat, f: Config)
    requires TempsOk(temps, base) && i.Bin? && base <= i.r && i.r in temps && temps[i.r] == e && Res(e) == Sym(i.r)
    requires d.pc < |code| && code[d.pc] == i && d.pc + 1 == c.pc + |GenExpr(e)|
    requires Kept(temps, base, c.st, d.st)
    requires Val(d.st.env, i.a1) == x && Val(d.st.env, i.a2) == y && Eval(e, c.st.env) == Apply(i.op, x, y)
    ensures Run(code, d, k) == Some(f) && ExprRuns(code, temps, base, e, c, f)
  {
    var v := Apply(i.op, x, y);
    k, f := 0, d;
    if v.Some? {
      var env := d.st.env[i.r := v.value];
      k, f := 1, Config(d.pc + 1, d.st.(env := env));
      assert Run(code, d, 1) == Some(f);
      assert Get(env, i.r) == v.value;
      hide Apply, Eval, GenExpr, TempsOk;
    }
  }

  lemma BiopParts(code: seq<Ins>, p: nat, e: Expr)
    requires e.Biop? && Placed(code, p, GenExpr(e))
    ensures Placed(code, p, GenExpr(e.l)) && Placed(code, p + |GenExpr(e.l)|, GenExpr(e.r))
    ensures var q := p + |GenExpr(e.l)| + |GenExpr(e.r)|;
      q < |code| && code[q] == Bin(e.op, e.t, Res(e.l), Res(e.r)) && q + 1 == p + |GenExpr(e)|
  {
    hide *;
    BiopCode(e);
    PlacedSplit3(code, p, GenExpr(e.l), GenExpr(e.r), Bin(e.op, e.t, Res(e.l), Res(e.r)));
  }

  lemma BiopCode(e: Expr)
    requires e.Biop?
    ensures GenExpr(e) == GenExpr(e.l) + GenExpr(e.r) + [Bin(e.op, e.t, Res(e.l), Res(e.r))]
    ensures |GenExpr(e)| == |GenExpr(e.l)| + |GenExpr(e.r)| + 1
  {
  }

  lemma UopParts(code: seq<Ins>, p: nat, e: Expr)
    requires e.Uop? && Placed(code, p, GenExpr(e))
    ensures Placed(code, p, GenExpr(e.e))
    ensures var q := p + |GenExpr(e.e)|;
      q < |code| && code[q] == Bin(Mul, e.t, Res(e.e), Const(-1)) && q + 1 == p + |GenExpr(e)|
  {
    var i := Bin(Mul, e.t, Res(e.e), Const(-1));
    PlacedSplit(code, p, GenExpr(e.e), [i]);
    PlacedAt(code, p + |GenExpr(e.e)|, i);
  }

  /** Both operands have run: the operation itself. */
  lemma BiopRuns(code: seq<Ins>, temps: Temps, base: nat, e: Expr, c: Config, d1: Config, d2: Config)
    returns (k: nat, f: Config)
    requires e.Biop? && TempsOk(temps, base) && ExprOk(e, temps, base) && Placed(code, c.pc, GenExpr(e))
    requires ExprRuns(code, temps, base, e.l, c, d1) && Eval(e.l, c.st.env).Some?
    requires ExprRuns(code, temps, base, e.r, d1, d2)
    ensures Run(code, d2, k) == Some(f) && ExprRuns(code, temps, base, e, c, f)
  {
    KeptTransitive(temps, base, c.st, d1.st, d2.st);
    EvalAgrees(e.l, temps, base, c.st.env, d1.st.env);
    EvalAgrees(e.r, temps, base, c.st.env, d1.st.env);
    if Eval(e.r, c.st.env).None? {
      k, f := 0, d2;
    } else {
      ResultSurvives(e.l, temps, base, d1.st.env, d2.st.env);
      BiopParts(code, c.pc, e);
      hide Kept, TempsOk;
      k, f := BinRuns(code, temps, base, e, c, d2, Bin(e.op, e.t, Res(e.l), Res(e.r)),
                      Eval(e.l, c.st.env).value, Eval(e.r, c.st.env).value);
    }
  }

  lemma UopRuns(code: seq<Ins>, temps: Temps, base: nat, e: Expr, c: Config, d: Config) returns (k: nat, f: Config)
    requires e.Uop? && TempsOk(temps, base) && ExprOk(e, temps, base) && Placed(code, c.pc, GenExpr(e))
    requires ExprRuns(code, temps, base, e.e, c, d)
    ensures Run(code, d, k) == Some(f) && ExprRuns(code, temps, base, e, c, f)
  {
    if Eval(e.e, c.st.env).None? {
      k, f := 0, d;
    } else {
      UopParts(code, c.pc, e);
      hide Kept, TempsOk;
      k, f := BinRuns(code, temps, base, e, c, d, Bin(Mul, e.t, Res(e.e), Const(-1)), Eval(e.e, c.st.env).value, -1);
    }
  }

  lemma BiopLeftStuck(code: seq<Ins>, temps: Temps, base: nat, e: Expr, c: Config, d: Config)
    requires e.Biop? && ExprRuns(code, temps, base, e.l, c, d) && Eval(e.l, c.st.env).None?
    ensures ExprRuns(code, temps, base, e, c, d)
  {
  }

  lemma LeafRuns(code: seq<Ins>, temps: Temps, base: nat, e: Expr, c: Config)
    requires e.Num? || e.Id?
    ensures ExprRuns(code, temps, base, e, c, c)
  {
  }

  lemma ExprEnds(code: seq<Ins>, temps: Temps, base: nat, e: Expr, c: Config, d: Config)
    requires ExprRuns(code, temps, base, e, c, d) && Eval(e, c.st.env).Some?
    ensures d.pc == c.pc + |GenExpr(e)|
  {
  }

  lemma RunThen(code: seq<Ins>, c: Config, k1: nat, d: Config, k2: nat, f: Config)
    requires Run(code, c, k1) == Some(d) && Run(code, d, k2) == Some(f)
    ensures Run(code, c, k1 + k2) == Some(f)
  {
    RunAdd(code, c, k1, k2);
  }

  lemma RunThen3(code: seq<Ins>, c: Config, k1: nat, d1: Config, k2: nat, d2: Config, k3: nat, f: Config)
    requires Run(code, c, k1) == Some(d1) && Run(code, d1, k2) == Some(d2) && Run(code, d2, k3) == Some(f)
    ensures Run(code, c, k1 + k2 + k3) == Some(f)
  {
    hide *;
    RunThen(code, c, k1, d1, k2, d2);
    RunThen(code, c, k1 + k2, d2, k3, f);
  }

  /** The code of an expression computes the expression. */
  lemma {:induction false} ExprSim(code: seq<Ins>, temps: Temps, base: nat, e: Expr, c: Config) returns (k: nat, d: Config)
    requires TempsOk(temps, base) && ExprOk(e, temps, base) && Placed(code, c.pc, GenExpr(e))
    ensures Run(code, c, k) == Some(d) && ExprRuns(code, temps, base, e, c, d)
    decreases e
  {
    assert Run(code, c, 0) == Some(c);
    hide *;
    match e {
      case Biop(_, _, _, _) =>
        k, d := BiopSim(code, temps, base, e, c);
      case Uop(_, _) =>
        k, d := UopSim(code, temps, base, e, c);
      case _ =>
        LeafRuns(code, temps, base, e, c);
        k, d := 0, c;
    }
  }

  lemma {:induction false} UopSim(code: seq<Ins>, temps: Temps, base: nat, e: Expr, c: Config) returns (k: nat, d: Config)
    requires e.Uop? && TempsOk(temps, base) && ExprOk(e, temps, base) && Placed(code, c.pc, GenExpr(e))
    ensures Run(code, c, k) == Some(d) && ExprRuns(code, temps, base, e, c, d)
    decreases e, 0
  {
    UopParts(code, c.pc, e);
    assert ExprOk(e.e, temps, base);
    hide *;
    var d1, k2;
    k, d1 := ExprSim(code, temps, base, e.e, c);
    k2, d := UopRuns(code, temps, base, e, c, d1);
    RunThen(code, c, k, d1, k2, d);
    k := k + k2;
  }

  lemma {:induction false} BiopSim(code: seq<Ins>, temps: Temps, base: nat, e: Expr, c: Config) returns (k: nat, d: Config)
    requires e.Biop? && TempsOk(temps, base) && ExprOk(e, temps, base) && Placed(code, c.pc, GenExpr(e))
    ensures Run(code, c, k) == Some(d) && ExprRuns(code, temps, base, e, c, d)
    decreases e, 0
  {
    BiopParts(code, c.pc, e);
    assert ExprOk(e.l, temps, base) && ExprOk(e.r, temps, base);
    hide *;
    var d1, k2, d2, k3;
    k, d1 := ExprSim(code, temps, base, e.l, c);
    if Eval(e.l, c.st.env).None? {
      BiopLeftStuck(code, temps, base, e, c, d1);
      d := d1;
    } else {
      ExprEnds(code, temps, base, e.l, c, d1);
      k2, d2 := ExprSim(code, temps, base, e.r, d1);
      k3, d := BiopRuns(code, temps, base, e, c, d1, d2);
      RunThen3(code, c, k, d1, k2, d2, k3, d);
      k := k + k2 + k3;
    }
  }
}
