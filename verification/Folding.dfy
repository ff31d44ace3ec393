/** What the folding constructors fold, exactly: which expressions become constants, which statements
    leave nothing, and which programs make the compiler fault or warn. */
module Folding {
  import opened Options
  import opened ThreeAddress
  import opened Operators
  import opened Ast
  import opened TreeBuilder
  import opened Frontend

  // ----- one constructor -----

  /** An operation on two constants is the constant that the operator computes, without a temporary;
      only a division by zero faults. */
  lemma FoldExact(s: Supply, op: BinOp, x: int, y: int)
    ensures match NewBinop(s, op, Num(x), Num(y))
      case None => op == Div && y == 0
      case Some((t, e)) => t == s && e.Num? && Computes(op, x, y, e.v)
  {
    ApplyExact(op, x, y);
    hide Computes, Apply;
  }

  /** A negation is folded as a multiplication by minus one is, and asking for it again gives the same
      node without a new temporary. */
  lemma NegationShared(s: Supply, a: Expr)
    requires UopsOk(s)
    ensures var (t, e) := NewUnop(s, a); NewUnop(t, a) == (t, e) && SameValue(Biop(Mul, a, Num(-1), 0), e)
    ensures a.Num? <==> NewUnop(s, a).1.Num?
  {
    var e := NewUnop(s, a).1;
    forall env: Env ensures Eval(Biop(Mul, a, Num(-1), 0), env) == Eval(e, env) {
    }
  }

  /** A new conditional has the next free labels, none left out: one, or two if there is an else. */
  lemma IfLabels(s: Supply, c: Expr, thn: Stmts, els: Stmts)
    requires !c.Num? && thn != End
    ensures match NewIf(s, c, thn, els)
      case None => false
      case Some((t, b)) =>
        && b.Chain? && b.sibling == End && b.head.IfS? && b.head.c == c && b.head.thn == thn && b.head.els == els
        && t == s.(labels := t.labels)
        && b.head.r == t.labels && (if els == End then b.head.r == s.labels + 1 else b.head.a2 == s.labels + 1 && b.head.r == s.labels + 2)
  {
  }

  lemma LoopLabels(s: Supply, c: Expr, body: Stmts)
    requires !c.Num? && body != End
    ensures match NewLoop(s, c, body)
      case None => false
      case Some((t, b)) =>
        && b.Chain? && b.sibling == End && b.head.WhileS? && b.head.c == c && b.head.body == body
        && t == s.(labels := t.labels)
        && b.head.a2 == s.labels + 1 && b.head.r == t.labels == s.labels + 2
  {
  }

  // ----- expressions -----

  /** No variable occurs. */
  predicate Closed(e: Expr) {
    match e
    case Num(_) => true
    case Id(_) => false
    case Biop(_, l, r, _) => Closed(l) && Closed(r)
    case Uop(a, _) => Closed(a)
  }

  /** The value of a closed expression. */
  function Worth(e: Expr): Option<int> {
    Eval(e, map[])
  }

  /** Some part without variables has no value. */
  predicate Faulty(e: Expr) {
    match e
    case Biop(_, l, r, _) => Faulty(l) || Faulty(r) || (Closed(e) && Worth(e).None?)
    case Uop(a, _) => Faulty(a)
    case _ => false
  }

  /** Folding is complete: an expression becomes a constant exactly when no variable occurs in it, and
      then nothing is handed out; the compiler faults exactly when a part without variables has no value. */
  lemma {:induction false} FoldsExactly(s: Supply, e: Expr)
    requires UopsOk(s)
    ensures match BuildExpr(s, e)
      case None => Faulty(e)
      case Some((t, b)) => !Faulty(e) && UopsOk(t) && (b.Num? <==> Closed(e)) && (Closed(e) ==> t == s && Worth(e) == Some(b.v))
    decreases e
  {
    match e
    case Num(_) =>
    case Id(_) =>
    case Biop(op, l, r, _) =>
      FoldsExactly(s, l);
      if BuildExpr(s, l).Some? {
        FoldsExactly(BuildExpr(s, l).value.0, r);
      }
    case Uop(a, _) =>
      FoldsExactly(s, a);
  }

  /** Every temporary between the old counter and the new one belongs to a node: none is left out. */
  lemma {:induction false} TempsDense(s: Supply, e: Expr)
    requires BuildExpr(s, e).Some?
    ensures var t := BuildExpr(s, e).value.0;
      s.temp <= t.temp && forall x :: x in t.temps <==> x in s.temps || s.temp <= x < t.temp
    decreases e
  {
    match e
    case Num(_) =>
    case Id(_) =>
    case Biop(op, l, r, _) =>
      TempsDense(s, l);
      var s1 := BuildExpr(s, l).value.0;
      TempsDense(s1, r);
    case Uop(a, _) =>
      TempsDense(s, a);
  }

  // ----- statements -----

  /** Folding leaves nothing of a statement. */
  predicate StmtVanishes(t: Stmt) {
    match t
    case IfS(c, thn, els, _, _) =>
      Closed(c) && Worth(c).Some? && if Worth(c).value > 0 then Vanishes(thn) else Vanishes(els)
    case WhileS(c, _, _, _) => Closed(c)
    case _ => false
  }

  predicate Vanishes(ts: Stmts) {
    match ts
    case End => true
    case Chain(t, rest) => StmtVanishes(t) && Vanishes(rest)
  }

  /** The compiler faults: a part without variables has no value, or nothing is left of the branch or of
      the body of a statement that stays. */
  predicate StmtCrashes(t: Stmt) {
    match t
    case WriteS(e) => Faulty(e)
    case AssignS(_, e) => Faulty(e)
    case ReadS(_) => false
    case IfS(c, thn, els, _, _) => Faulty(c) || Crashes(thn) || Crashes(els) || (!Closed(c) && Vanishes(thn))
    case WhileS(c, body, _, _) => Faulty(c) || Crashes(body) || (!Closed(c) && Vanishes(body))
  }

  predicate Crashes(ts: Stmts) {
    match ts
    case End => false
    case Chain(t, rest) => StmtCrashes(t) || Crashes(rest)
  }

  /** The loops whose condition is a positive constant. */
  function StmtEndless(t: Stmt): nat {
    match t
    case IfS(_, thn, els, _, _) => Endless(thn) + Endless(els)
    case WhileS(c, body, _, _) => Endless(body) + if Closed(c) && Worth(c).Some? && Worth(c).value > 0 then 1 else 0
    case _ => 0
  }

  function Endless(ts: Stmts): nat {
    match ts
    case End => 0
    case Chain(t, rest) => StmtEndless(t) + Endless(rest)
  }

  /** What building a statement comes to. */
  ghost predicate StmtExact(s: Supply, t: Stmt) {
    match BuildStmt(s, t)
    case None => StmtCrashes(t)
    case Some((s', b)) =>
      !StmtCrashes(t) && UopsOk(s') && (b == End <==> StmtVanishes(t)) && s'.infinite == s.infinite + StmtEndless(t)
  }

  ghost predicate StmtsExact(s: Supply, ts: Stmts) {
    match BuildStmts(s, ts)
    case None => Crashes(ts)
    case Some((s', b)) =>
      !Crashes(ts) && UopsOk(s') && (b == End <==> Vanishes(ts)) && s'.infinite == s.infinite + Endless(ts)
  }

  lemma AppendEnd(a: Stmts, b: Stmts)
    ensures Append(a, b) == End <==> a == End && b == End
  {
  }

  lemma {:induction false} BuildStmtExact(s: Supply, t: Stmt)
    requires UopsOk(s)
    ensures StmtExact(s, t)
    decreases t
  {
    match t
    case ReadS(_) =>
    case WriteS(e) => ExprPart(s, e);
    case AssignS(_, e) => ExprPart(s, e);
    case IfS(c, thn, els, _, _) =>
      ExprPart(s, c);
      if BuildExpr(s, c).Some? {
        var s1 := BuildExpr(s, c).value.0;
        BuildStmtsExact(s1, thn);
        if BuildStmts(s1, thn).Some? {
          BuildStmtsExact(BuildStmts(s1, thn).value.0, els);
        }
      }
      hide BuildExpr, Faulty, Closed, Worth, UopsOk;
    case WhileS(c, body, _, _) =>
      ExprPart(s, c);
      if BuildExpr(s, c).Some? {
        BuildStmtsExact(BuildExpr(s, c).value.0, body);
      }
      hide BuildExpr, Faulty, Closed, Worth, UopsOk;
  }

  lemma ExprPart(s: Supply, e: Expr)
    requires UopsOk(s)
    ensures match BuildExpr(s, e)
      case None => Faulty(e)
      case Some((t, b)) =>
        && !Faulty(e) && UopsOk(t) && t.infinite == s.infinite
        && (b.Num? <==> Closed(e)) && (Closed(e) ==> Worth(e) == Some(b.v))
  {
    FoldsExactly(s, e);
    if BuildExpr(s, e).Some? {
      BuildExprQuiet(s, e);
    }
    hide BuildExpr, Faulty, Closed, Worth, UopsOk;
  }

  /** A list of statements is built unless it crashes, into nothing exactly when it vanishes, with one
      warning for each endless loop. */
  lemma {:induction false} BuildStmtsExact(s: Supply, ts: Stmts)
    requires UopsOk(s)
    ensures StmtsExact(s, ts)
    decreases ts
  {
    match ts
    case End =>
    case Chain(t, rest) =>
      BuildStmtExact(s, t);
      if BuildStmt(s, t).Some? {
        var (s1, a) := BuildStmt(s, t).value;
        BuildStmtsExact(s1, rest);
        if BuildStmts(s1, rest).Some? {
          AppendEnd(a, BuildStmts(s1, rest).value.1);
        }
      }
      hide UopsOk, BuildStmt, StmtCrashes, StmtVanishes, StmtEndless;
  }

  /** Which programs compile: those in which no part without variables faults, nothing that stays has
      lost its branch or its body, and no loop has a positive constant for a condition. */
  lemma CompilesIff(prog: Stmts, base: nat)
    ensures (exists tree :: Compiles(prog, base, tree)) <==> StmtsScoped(prog, base) && !Crashes(prog) && Endless(prog) == 0
  {
    BuildStmtsExact(Empty(base), prog);
    if StmtsScoped(prog, base) && !Crashes(prog) && Endless(prog) == 0 {
      var tree := BuildStmts(Empty(base), prog).value.1;
      assert Compiles(prog, base, tree);
    }
    hide BuildStmts, StmtsScoped, Crashes, Endless;
  }
}
