/** Syntax trees of Mila and what they mean.

    A node carries the temporary or the labels that its constructor gave it; the meaning of a
    tree does not depend on them, so the tree as parsed is one whose annotations are arbitrary. */
module Ast {
  import opened Options
  import opened ThreeAddress

  datatype Expr =
    | Num(v: int)
    | Id(x: nat)
    | Biop(op: BinOp, l: Expr, r: Expr, t: nat)
    | Uop(e: Expr, t: nat)

  /** Statements are linked by sibling; End is the null pointer.  An if without else has els == End. */
  datatype Stmts = End | Chain(head: Stmt, sibling: Stmts)

  datatype Stmt =
    | WriteS(e: Expr)
    | AssignS(x: nat, e: Expr)
    | ReadS(x: nat)
    | IfS(c: Expr, thn: Stmts, els: Stmts, a2: nat, r: nat)
    | WhileS(c: Expr, body: Stmts, a2: nat, r: nat)

  function Append(a: Stmts, b: Stmts): Stmts {
    match a
    case End => b
    case Chain(s, rest) => Chain(s, Append(rest, b))
  }

  /** The value of an expression; none when a division by zero is met. */
  function Eval(e: Expr, env: Env): Option<int> {
    match e
    case Num(v) => Some(v)
    case Id(x) => Some(Get(env, x))
    case Biop(op, l, r, _) =>
      (match (Eval(l, env), Eval(r, env))
       case (Some(x), Some(y)) => Apply(op, x, y)
       case _ => None)
    case Uop(a, _) =>
      (match Eval(a, env)
       case Some(x) => Some(-x)
       case None => None)
  }

  /** How a statement ends: normally, stuck, or with the budget of loop iterations used up. */
  datatype Outcome = Done(st: State) | Stuck(st: State) | Timeout(st: State)

  function ExecStmt(s: Stmt, st: State, fuel: nat): Outcome
    decreases fuel, s
  {
    match s
    case WriteS(e) =>
      (match Eval(e, st.env)
       case None => Stuck(st)
       case Some(v) => Done(st.(output := st.output + [v])))
    case AssignS(x, e) =>
      (match Eval(e, st.env)
       case None => Stuck(st)
       case Some(v) => Done(st.(env := st.env[x := v])))
    case ReadS(x) =>
      if st.input == [] then Stuck(st)
      else Done(st.(env := st.env[x := st.input[0]], input := st.input[1..]))
    case IfS(c, thn, els, _, _) =>
      (match Eval(c, st.env)
       case None => Stuck(st)
       case Some(v) => if v > 0 then ExecStmts(thn, st, fuel) else ExecStmts(els, st, fuel))
    case WhileS(c, body, _, _) =>
      match Eval(c, st.env)
      case None => Stuck(st)
      case Some(v) =>
        if v <= 0 then Done(st)
        else if fuel == 0 then Timeout(st)
        else
          match ExecStmts(body, st, fuel)
          case Done(st') => ExecStmt(s, st', fuel - 1)
          case o => o
  }

  function ExecStmts(ss: Stmts, st: State, fuel: nat): Outcome
    decreases fuel, ss
  {
    match ss
    case End => Done(st)
    case Chain(s, rest) =>
      match ExecStmt(s, st, fuel)
      case Done(st') => ExecStmts(rest, st', fuel)
      case o => o
  }

  lemma {:induction false} ExecAppend(a: Stmts, b: Stmts, st: State, fuel: nat)
    ensures ExecStmts(Append(a, b), st, fuel) ==
      match ExecStmts(a, st, fuel)
      case Done(st') => ExecStmts(b, st', fuel)
      case o => o
  {
    match a
    case End =>
    case Chain(s, rest) =>
      match ExecStmt(s, st, fuel)
      case Done(st') => ExecAppend(rest, b, st', fuel);
      case _ =>
  }
}
