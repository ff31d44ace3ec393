/** The folding constructors of syntax-tree nodes. */
module TreeBuilder {
  import opened Options
  import opened ThreeAddress
  import opened Ast
  import opened Lowering
  import opened Labels

  /** The counters and tables behind the constructors: the next symbol id, the last label, the
      negation nodes made so far, the node of each temporary, and how many times the warning about
      an infinite loop was printed. */
  datatype Supply = Supply(temp: nat, labels: nat, uops: map<Expr, Expr>, temps: Temps, infinite: nat)

  // ----- the constructors; None where the compiler itself would fault -----

  function NewBinop(s: Supply, op: BinOp, l: Expr, r: Expr): Option<(Supply, Expr)> {
    if l.Num? && r.Num? then
      match Apply(op, l.v, r.v)
      case None => None
      case Some(v) => Some((s, Num(v)))
    else
      var e := Biop(op, l, r, s.temp);
      Some((s.(temp := s.temp + 1, temps := s.temps[s.temp := e]), e))
  }

  /** A negation of the same node is made once and shared. */
  function NewUnop(s: Supply, a: Expr): (Supply, Expr) {
    if a.Num? then (s, Num(-a.v))
    else if a in s.uops then (s, s.uops[a])
    else
      var e := Uop(a, s.temp);
      (s.(temp := s.temp + 1, temps := s.temps[s.temp := e], uops := s.uops[a := e]), e)
  }

  /** A constant condition picks a branch; otherwise the then branch must not be null. */
  function NewIf(s: Supply, c: Expr, thn: Stmts, els: Stmts): Option<(Supply, Stmts)> {
    if c.Num? then Some((s, if c.v > 0 then thn else els))
    else if thn == End then None
    else if els == End then
      Some((s.(labels := s.labels + 1), Chain(IfS(c, thn, els, 0, s.labels + 1), End)))
    else
      Some((s.(labels := s.labels + 2), Chain(IfS(c, thn, els, s.labels + 1, s.labels + 2), End)))
  }

  /** A loop with a constant condition is dropped, with a warning if the condition is true. */
  function NewLoop(s: Supply, c: Expr, body: Stmts): Option<(Supply, Stmts)> {
    if c.Num? then Some((if c.v > 0 then s.(infinite := s.infinite + 1) else s, End))
    else if body == End then None
    else Some((s.(labels := s.labels + 2), Chain(WhileS(c, body, s.labels + 1, s.labels + 2), End)))
  }

  // ----- a parse tree built bottom-up, in the order of the grammar's reductions -----

  function BuildExpr(s: Supply, e: Expr): Option<(Supply, Expr)>
    decreases e
  {
    match e
    case Num(_) => Some((s, e))
    case Id(_) => Some((s, e))
    case Biop(op, l, r, _) =>
      (match BuildExpr(s, l)
       case None => None
       case Some((s1, l')) =>
         match BuildExpr(s1, r)
         case None => None
         case Some((s2, r')) => NewBinop(s2, op, l', r'))
    case Uop(a, _) =>
      (match BuildExpr(s, a)
       case None => None
       case Some((s1, a')) => Some(NewUnop(s1, a')))
  }

  function BuildStmt(s: Supply, t: Stmt): Option<(Supply, Stmts)>
    decreases t
  {
    match t
    case WriteS(e) =>
      (match BuildExpr(s, e)
       case None => None
       case Some((s1, e')) => Some((s1, Chain(WriteS(e'), End))))
    case AssignS(x, e) =>
      (match BuildExpr(s, e)
       case None => None
       case Some((s1, e')) => Some((s1, Chain(AssignS(x, e'), End))))
    case ReadS(x) => Some((s, Chain(t, End)))
    case IfS(c, thn, els, _, _) =>
      (match BuildExpr(s, c)
       case None => None
       case Some((s1, c')) =>
         match BuildStmts(s1, thn)
         case None => None
         case Some((s2, thn')) =>
           match BuildStmts(s2, els)
           case None => None
           case Some((s3, els')) => NewIf(s3, c', thn', els'))
    case WhileS(c, body, _, _) =>
      (match BuildExpr(s, c)
       case None => None
       case Some((s1, c')) =>
         match BuildStmts(s1, body)
         case None => None
         case Some((s2, body')) => NewLoop(s2, c', body'))
  }

  function BuildStmts(s: Supply, ts: Stmts): Option<(Supply, Stmts)>
    decreases ts
  {
    match ts
    case End => Some((s, End))
    case Chain(t, rest) =>
      match BuildStmt(s, t)
      case None => None
      case Some((s1, a)) =>
        match BuildStmts(s1, rest)
        case None => None
        case Some((s2, b)) => Some((s2, Append(a, b)))
  }

  // ----- the constructors keep temporaries and labels in order -----

  ghost predicate Extends(a: Temps, b: Temps) {
    forall t :: t in a ==> t in b && b[t] == a[t]
  }

  /** Temporaries lie between base and the next id and belong to the node they were made for. */
  ghost predicate SupplyOk(s: Supply, base: nat) {
    && base <= s.temp && TempsOk(s.temps, base)
    && (forall t :: t in s.temps ==> base <= t < s.temp)
    && (forall a :: a in s.uops ==> s.uops[a].Uop? && s.uops[a].e == a && ExprOk(s.uops[a], s.temps, base))
  }

  lemma {:induction false} ExprOkExtends(e: Expr, a: Temps, b: Temps, base: nat)
    requires ExprOk(e, a, base) && Extends(a, b)
    ensures ExprOk(e, b, base)
  {
    match e
    case Num(_) =>
    case Id(_) =>
    case Biop(_, l, r, _) =>
      ExprOkExtends(l, a, b, base);
      ExprOkExtends(r, a, b, base);
    case Uop(x, _) =>
      ExprOkExtends(x, a, b, base);
  }

  lemma {:induction false} StmtOkExtends(s: Stmt, a: Temps, b: Temps, base: nat)
    requires StmtOk(s, a, base) && Extends(a, b)
    ensures StmtOk(s, b, base)
  {
    match s
    case WriteS(e) => ExprOkExtends(e, a, b, base);
    case AssignS(_, e) => ExprOkExtends(e, a, b, base);
    case ReadS(_) =>
    case IfS(c, thn, els, _, _) =>
      ExprOkExtends(c, a, b, base);
      StmtsOkExtends(thn, a, b, base);
      StmtsOkExtends(els, a, b, base);
    case WhileS(c, body, _, _) =>
      ExprOkExtends(c, a, b, base);
      StmtsOkExtends(body, a, b, base);
  }

  lemma {:induction false} StmtsOkExtends(ss: Stmts, a: Temps, b: Temps, base: nat)
    requires StmtsOk(ss, a, base) && Extends(a, b)
    ensures StmtsOk(ss, b, base)
  {
    match ss
    case End =>
    case Chain(s, rest) =>
      StmtOkExtends(s, a, b, base);
      StmtsOkExtends(rest, a, b, base);
  }

  /** A fresh temporary for node e, whose operands are in order. */
  lemma FreshTemp(s: Supply, e: Expr, base: nat)
    requires SupplyOk(s, base)
    requires (e.Biop? && e.t == s.temp && ExprOk(e.l, s.temps, base) && ExprOk(e.r, s.temps, base))
          || (e.Uop? && e.t == s.temp && ExprOk(e.e, s.temps, base))
    ensures var s' := s.(temp := s.temp + 1, temps := s.temps[s.temp := e]);
      SupplyOk(s', base) && Extends(s.temps, s'.temps) && ExprOk(e, s'.temps, base)
  {
    var temps := s.temps[s.temp := e];
    assert Extends(s.temps, temps);
    if e.Biop? {
      ExprOkExtends(e.l, s.temps, temps, base);
      ExprOkExtends(e.r, s.temps, temps, base);
    } else {
      ExprOkExtends(e.e, s.temps, temps, base);
    }
    forall t | t in temps ensures ExprOk(temps[t], temps, base) {
      if t != s.temp {
        ExprOkExtends(s.temps[t], s.temps, temps, base);
      }
    }
    forall a | a in s.uops ensures ExprOk(s.uops[a], temps, base) {
      ExprOkExtends(s.uops[a], s.temps, temps, base);
    }
  }

  /** The parse tree mentions declared user symbols only. */
  ghost predicate ExprScoped(e: Expr, base: nat) {
    match e
    case Num(_) => true
    case Id(x) => x < base
    case Biop(_, l, r, _) => ExprScoped(l, base) && ExprScoped(r, base)
    case Uop(a, _) => ExprScoped(a, base)
  }

  ghost predicate StmtScoped(s: Stmt, base: nat) {
    match s
    case WriteS(e) => ExprScoped(e, base)
    case AssignS(x, e) => x < base && ExprScoped(e, base)
    case ReadS(x) => x < base
    case IfS(c, thn, els, _, _) => ExprScoped(c, base) && StmtsScoped(thn, base) && StmtsScoped(els, base)
    case WhileS(c, body, _, _) => ExprScoped(c, base) && StmtsScoped(body, base)
  }

  ghost predicate StmtsScoped(ss: Stmts, base: nat) {
    match ss
    case End => true
    case Chain(s, rest) => StmtScoped(s, base) && StmtsScoped(rest, base)
  }

  /** What building keeps and adds between supplies s and s'. */
  ghost predicate Grown(s: Supply, s': Supply, base: nat) {
    SupplyOk(s', base) && Extends(s.temps, s'.temps) && s.labels <= s'.labels && s.infinite <= s'.infinite
  }

  lemma {:induction false} BuildExprOk(s: Supply, e: Expr, base: nat)
    requires SupplyOk(s, base) && ExprScoped(e, base) && BuildExpr(s, e).Some?
    ensures var (s', e') := BuildExpr(s, e).value;
      Grown(s, s', base) && s'.labels == s.labels && s'.infinite == s.infinite && ExprOk(e', s'.temps, base)
    decreases e
  {
    match e
    case Num(_) =>
    case Id(_) =>
    case Biop(op, l, r, _) =>
      BuildExprOk(s, l, base);
      var (s1, l') := BuildExpr(s, l).value;
      BuildExprOk(s1, r, base);
      var (s2, r') := BuildExpr(s1, r).value;
      ExprOkExtends(l', s1.temps, s2.temps, base);
      if !(l'.Num? && r'.Num?) {
        FreshTemp(s2, Biop(op, l', r', s2.temp), base);
      }
      hide SupplyOk, ExprOk;
    case Uop(a, _) =>
      BuildExprOk(s, a, base);
      var (s1, a') := BuildExpr(s, a).value;
      NewUnopOk(s1, a', base);
      hide SupplyOk;
  }

  lemma NewUnopOk(s: Supply, a: Expr, base: nat)
    requires SupplyOk(s, base) && ExprOk(a, s.temps, base)
    ensures var (s', e) := NewUnop(s, a);
      Grown(s, s', base) && s'.labels == s.labels && s'.infinite == s.infinite && ExprOk(e, s'.temps, base)
  {
    if !a.Num? && a !in s.uops {
      FreshTemp(s, Uop(a, s.temp), base);
    }
  }

  /** The labels of a built tree are the ones handed out while it was built. */
  ghost predicate LabelsBetween(ss: Stmts, lo: nat, hi: nat) {
    StmtsApart(ss) && forall l :: l in StmtsLabels(ss) ==> lo < l <= hi
  }

  lemma {:induction false} AppendOk(a: Stmts, b: Stmts, temps: Temps, base: nat)
    requires StmtsOk(a, temps, base) && StmtsOk(b, temps, base)
    ensures StmtsOk(Append(a, b), temps, base)
  {
    match a
    case End =>
    case Chain(_, rest) => AppendOk(rest, b, temps, base);
  }

  lemma {:induction false} AppendLabels(a: Stmts, b: Stmts)
    ensures StmtsLabels(Append(a, b)) == StmtsLabels(a) + StmtsLabels(b)
  {
    match a
    case End =>
    case Chain(_, rest) => AppendLabels(rest, b);
  }

  lemma {:induction false} AppendApart(a: Stmts, b: Stmts)
    requires StmtsApart(a) && StmtsApart(b) && StmtsLabels(a) !! StmtsLabels(b)
    ensures StmtsApart(Append(a, b))
  {
    match a
    case End =>
    case Chain(s, rest) =>
      AppendApart(rest, b);
      AppendLabels(rest, b);
  }

  lemma AppendBetween(a: Stmts, b: Stmts, lo: nat, mid: nat, hi: nat)
    requires lo <= mid <= hi && LabelsBetween(a, lo, mid) && LabelsBetween(b, mid, hi)
    ensures LabelsBetween(Append(a, b), lo, hi)
  {
    AppendLabels(a, b);
    AppendApart(a, b);
  }

  lemma NewIfLabels(s: Supply, c: Expr, thn: Stmts, els: Stmts, lo: nat, mid: nat)
    requires lo <= mid <= s.labels && LabelsBetween(thn, lo, mid) && LabelsBetween(els, mid, s.labels)
    requires NewIf(s, c, thn, els).Some?
    ensures var (s', ss) := NewIf(s, c, thn, els).value; LabelsBetween(ss, lo, s'.labels) && s.labels <= s'.labels
  {
  }

  lemma NewLoopLabels(s: Supply, c: Expr, body: Stmts, lo: nat)
    requires lo <= s.labels && LabelsBetween(body, lo, s.labels) && NewLoop(s, c, body).Some?
    ensures var (s', ss) := NewLoop(s, c, body).value; LabelsBetween(ss, lo, s'.labels) && s.labels <= s'.labels
  {
  }

  lemma BuildExprLabels(s: Supply, e: Expr)
    requires BuildExpr(s, e).Some?
    ensures BuildExpr(s, e).value.0.labels == s.labels
    decreases e
  {
    match e
    case Num(_) =>
    case Id(_) =>
    case Biop(op, l, r, _) =>
      BuildExprLabels(s, l);
      BuildExprLabels(BuildExpr(s, l).value.0, r);
    case Uop(a, _) =>
      BuildExprLabels(s, a);
  }

  lemma PlainLabels(t: Stmt, lo: nat)
    requires !t.IfS? && !t.WhileS?
    ensures LabelsBetween(Chain(t, End), lo, lo)
  {
  }

  /** Every label is handed out once. */
  lemma {:induction false} BuildStmtLabels(s: Supply, t: Stmt)
    requires BuildStmt(s, t).Some?
    ensures var (s', ss) := BuildStmt(s, t).value; LabelsBetween(ss, s.labels, s'.labels) && s.labels <= s'.labels
    decreases t
  {
    match t
    case WriteS(e) =>
      BuildExprLabels(s, e);
      PlainLabels(WriteS(BuildExpr(s, e).value.1), s.labels);
    case AssignS(x, e) =>
      BuildExprLabels(s, e);
      PlainLabels(AssignS(x, BuildExpr(s, e).value.1), s.labels);
    case ReadS(_) =>
      PlainLabels(t, s.labels);
    case IfS(c, thn, els, _, _) =>
      BuildExprLabels(s, c);
      var (s1, c') := BuildExpr(s, c).value;
      BuildStmtsLabels(s1, thn);
      var (s2, thn') := BuildStmts(s1, thn).value;
      BuildStmtsLabels(s2, els);
      var (s3, els') := BuildStmts(s2, els).value;
      assert BuildStmt(s, t) == NewIf(s3, c', thn', els');
      hide LabelsBetween, BuildStmts, BuildStmt, NewIf, BuildExpr;
      NewIfLabels(s3, c', thn', els', s.labels, s2.labels);
    case WhileS(c, body, _, _) =>
      BuildExprLabels(s, c);
      var (s1, c') := BuildExpr(s, c).value;
      BuildStmtsLabels(s1, body);
      var (s2, body') := BuildStmts(s1, body).value;
      assert BuildStmt(s, t) == NewLoop(s2, c', body');
      hide LabelsBetween, BuildStmts, BuildStmt, NewLoop, BuildExpr;
      NewLoopLabels(s2, c', body', s.labels);
  }

  lemma {:induction false} BuildStmtsLabels(s: Supply, ts: Stmts)
    requires BuildStmts(s, ts).Some?
    ensures var (s', ss) := BuildStmts(s, ts).value; LabelsBetween(ss, s.labels, s'.labels) && s.labels <= s'.labels
    decreases ts
  {
    match ts
    case End =>
    case Chain(t, rest) =>
      BuildStmtLabels(s, t);
      var (s1, a) := BuildStmt(s, t).value;
      BuildStmtsLabels(s1, rest);
      var (s2, b) := BuildStmts(s1, rest).value;
      assert BuildStmts(s, ts) == Some((s2, Append(a, b)));
      hide LabelsBetween, BuildStmts, BuildStmt;
      AppendBetween(a, b, s.labels, s1.labels, s2.labels);
  }

  lemma {:induction false} BuildStmtOk(s: Supply, t: Stmt, base: nat)
    requires SupplyOk(s, base) && StmtScoped(t, base) && BuildStmt(s, t).Some?
    ensures var (s', ss) := BuildStmt(s, t).value; Grown(s, s', base) && StmtsOk(ss, s'.temps, base)
    decreases t
  {
    match t
    case WriteS(e) => BuildExprOk(s, e, base);
    case AssignS(_, e) => BuildExprOk(s, e, base);
    case ReadS(_) =>
    case IfS(c, thn, els, _, _) =>
      BuildExprOk(s, c, base);
      var (s1, c') := BuildExpr(s, c).value;
      BuildStmtsOk(s1, thn, base);
      var (s2, thn') := BuildStmts(s1, thn).value;
      BuildStmtsOk(s2, els, base);
      var (s3, els') := BuildStmts(s2, els).value;
      assert BuildStmt(s, t) == NewIf(s3, c', thn', els');
      hide BuildStmts, BuildStmt, BuildExpr, SupplyOk, ExprOk, StmtsOk;
      ExprOkExtends(c', s1.temps, s3.temps, base);
      StmtsOkExtends(thn', s2.temps, s3.temps, base);
      NewIfOk(s3, c', thn', els', base);
    case WhileS(c, body, _, _) =>
      BuildExprOk(s, c, base);
      var (s1, c') := BuildExpr(s, c).value;
      BuildStmtsOk(s1, body, base);
      var (s2, body') := BuildStmts(s1, body).value;
      assert BuildStmt(s, t) == NewLoop(s2, c', body');
      hide BuildStmts, BuildStmt, BuildExpr, SupplyOk, ExprOk, StmtsOk;
      ExprOkExtends(c', s1.temps, s2.temps, base);
      NewLoopOk(s2, c', body', base);
  }

  lemma NewIfOk(s: Supply, c: Expr, thn: Stmts, els: Stmts, base: nat)
    requires SupplyOk(s, base) && ExprOk(c, s.temps, base) && StmtsOk(thn, s.temps, base) && StmtsOk(els, s.temps, base)
    requires NewIf(s, c, thn, els).Some?
    ensures var (s', ss) := NewIf(s, c, thn, els).value; Grown(s, s', base) && StmtsOk(ss, s'.temps, base)
  {
  }

  lemma NewLoopOk(s: Supply, c: Expr, body: Stmts, base: nat)
    requires SupplyOk(s, base) && ExprOk(c, s.temps, base) && StmtsOk(body, s.temps, base)
    requires NewLoop(s, c, body).Some?
    ensures var (s', ss) := NewLoop(s, c, body).value; Grown(s, s', base) && StmtsOk(ss, s'.temps, base)
  {
  }

  lemma {:induction false} BuildStmtsOk(s: Supply, ts: Stmts, base: nat)
    requires SupplyOk(s, base) && StmtsScoped(ts, base) && BuildStmts(s, ts).Some?
    ensures var (s', ss) := BuildStmts(s, ts).value; Grown(s, s', base) && StmtsOk(ss, s'.temps, base)
    decreases ts
  {
    match ts
    case End =>
    case Chain(t, rest) =>
      BuildStmtOk(s, t, base);
      var (s1, a) := BuildStmt(s, t).value;
      BuildStmtsOk(s1, rest, base);
      var (s2, b) := BuildStmts(s1, rest).value;
      assert BuildStmts(s, ts) == Some((s2, Append(a, b)));
      hide BuildStmts, BuildStmt, SupplyOk, StmtsOk, Append;
      StmtsOkExtends(a, s1.temps, s2.temps, base);
      AppendOk(a, b, s2.temps, base);
  }

  // ----- folding preserves meaning -----

  ghost predicate SameValue(a: Expr, b: Expr) {
    forall env: Env :: Eval(a, env) == Eval(b, env)
  }

  /** The statement s and the list b end alike from every state with every budget. */
  ghost predicate SameStmt(s: Stmt, b: Stmts) {
    forall st: State, fuel: nat :: ExecStmt(s, st, fuel) == ExecStmts(b, st, fuel)
  }

  ghost predicate SameStmts(a: Stmts, b: Stmts) {
    forall st: State, fuel: nat :: ExecStmts(a, st, fuel) == ExecStmts(b, st, fuel)
  }

  /** Shared negation nodes negate what they are looked up for. */
  ghost predicate UopsOk(s: Supply) {
    forall a :: a in s.uops ==> s.uops[a].Uop? && s.uops[a].e == a
  }

  /** A folded expression has the value of the expression, also when that is a fault. */
  lemma {:induction false} BuildExprValue(s: Supply, e: Expr)
    requires UopsOk(s) && BuildExpr(s, e).Some?
    ensures var (s', e') := BuildExpr(s, e).value; UopsOk(s') && SameValue(e, e')
    decreases e
  {
    match e
    case Num(_) =>
    case Id(_) =>
    case Biop(op, l, r, _) =>
      BuildExprValue(s, l);
      var (s1, l') := BuildExpr(s, l).value;
      BuildExprValue(s1, r);
      var (s2, r') := BuildExpr(s1, r).value;
      var e' := BuildExpr(s, e).value.1;
      forall env: Env ensures Eval(e, env) == Eval(e', env) {
        assert Eval(l, env) == Eval(l', env) && Eval(r, env) == Eval(r', env);
      }
    case Uop(a, _) =>
      BuildExprValue(s, a);
      var (s1, a') := BuildExpr(s, a).value;
      var e' := BuildExpr(s, e).value.1;
      forall env: Env ensures Eval(e, env) == Eval(e', env) {
        assert Eval(a, env) == Eval(a', env);
      }
  }

  lemma ExecOne(s: Stmt, st: State, fuel: nat)
    ensures ExecStmts(Chain(s, End), st, fuel) == ExecStmt(s, st, fuel)
  {
  }

  /** new_if is a conditional, whichever way it is built. */
  lemma NewIfMeans(s: Supply, c: Expr, thn: Stmts, els: Stmts, c0: Expr, thn0: Stmts, els0: Stmts, a2: nat, r: nat)
    requires SameValue(c0, c) && SameStmts(thn0, thn) && SameStmts(els0, els) && NewIf(s, c, thn, els).Some?
    ensures SameStmt(IfS(c0, thn0, els0, a2, r), NewIf(s, c, thn, els).value.1)
  {
    var b := NewIf(s, c, thn, els).value.1;
    var t := IfS(c0, thn0, els0, a2, r);
    forall st: State, fuel: nat ensures ExecStmt(t, st, fuel) == ExecStmts(b, st, fuel) {
      assert Eval(c0, st.env) == Eval(c, st.env);
      assert ExecStmts(thn0, st, fuel) == ExecStmts(thn, st, fuel) && ExecStmts(els0, st, fuel) == ExecStmts(els, st, fuel);
      if !c.Num? {
        ExecOne(b.head, st, fuel);
      }
    }
  }

  lemma {:induction false} LoopMeans(s: Stmt, t: Stmt, st: State, fuel: nat)
    requires s.WhileS? && t.WhileS? && SameValue(s.c, t.c) && SameStmts(s.body, t.body)
    ensures ExecStmt(s, st, fuel) == ExecStmt(t, st, fuel)
    decreases fuel
  {
    assert Eval(s.c, st.env) == Eval(t.c, st.env);
    assert ExecStmts(s.body, st, fuel) == ExecStmts(t.body, st, fuel);
    var o := ExecStmts(s.body, st, fuel);
    if fuel > 0 && o.Done? {
      LoopMeans(s, t, o.st, fuel - 1);
    }
    hide SameValue, SameStmts;
  }

  /** new_loop is a loop, if it did not warn. */
  lemma NewLoopMeans(s: Supply, c: Expr, body: Stmts, c0: Expr, body0: Stmts, a2: nat, r: nat)
    requires SameValue(c0, c) && SameStmts(body0, body) && NewLoop(s, c, body).Some?
    requires NewLoop(s, c, body).value.0.infinite == s.infinite
    ensures SameStmt(WhileS(c0, body0, a2, r), NewLoop(s, c, body).value.1)
  {
    var b := NewLoop(s, c, body).value.1;
    var t := WhileS(c0, body0, a2, r);
    forall st: State, fuel: nat ensures ExecStmt(t, st, fuel) == ExecStmts(b, st, fuel) {
      assert Eval(c0, st.env) == Eval(c, st.env);
      if !c.Num? {
        LoopMeans(t, b.head, st, fuel);
        ExecOne(b.head, st, fuel);
      }
    }
  }

  /** When it does warn, it is not: the loop never ends, and what is left of it does at once. */
  lemma NewLoopDrops(s: Supply, c: Expr, body: Stmts)
    requires NewLoop(s, c, body).Some?
    ensures SameStmt(WhileS(c, body, 0, 0), NewLoop(s, c, body).value.1) <==> !(c.Num? && c.v > 0)
  {
    if c.Num? && c.v > 0 {
      var st := State(map[], [], []);
      assert ExecStmt(WhileS(c, body, 0, 0), st, 0) == Timeout(st);
      assert ExecStmts(End, st, 0) == Done(st);
    } else {
      NewLoopMeans(s, c, body, c, body, 0, 0);
    }
  }

  lemma AppendMeans(s: Stmt, a: Stmts, rest: Stmts, b: Stmts)
    requires SameStmt(s, a) && SameStmts(rest, b)
    ensures SameStmts(Chain(s, rest), Append(a, b))
  {
    forall st: State, fuel: nat ensures ExecStmts(Chain(s, rest), st, fuel) == ExecStmts(Append(a, b), st, fuel) {
      ExecAppend(a, b, st, fuel);
      assert ExecStmt(s, st, fuel) == ExecStmts(a, st, fuel);
      var o := ExecStmt(s, st, fuel);
      if o.Done? {
        assert ExecStmts(rest, o.st, fuel) == ExecStmts(b, o.st, fuel);
      }
    }
  }

  /** Building a statement preserves its meaning, if no loop drew a warning. */
  ghost predicate StmtKept(s: Supply, t: Stmt) {
    match BuildStmt(s, t)
    case None => true
    case Some((s', b)) =>
      UopsOk(s') && s.infinite <= s'.infinite && (s'.infinite == s.infinite ==> SameStmt(t, b))
  }

  ghost predicate StmtsKept(s: Supply, ts: Stmts) {
    match BuildStmts(s, ts)
    case None => true
    case Some((s', b)) =>
      UopsOk(s') && s.infinite <= s'.infinite && (s'.infinite == s.infinite ==> SameStmts(ts, b))
  }

  lemma BuildExprQuiet(s: Supply, e: Expr)
    requires BuildExpr(s, e).Some?
    ensures BuildExpr(s, e).value.0.infinite == s.infinite
    decreases e
  {
    match e
    case Num(_) =>
    case Id(_) =>
    case Biop(op, l, r, _) =>
      BuildExprQuiet(s, l);
      BuildExprQuiet(BuildExpr(s, l).value.0, r);
    case Uop(a, _) =>
      BuildExprQuiet(s, a);
  }

  lemma PlainMeans(s: Supply, t: Stmt)
    requires UopsOk(s) && (t.WriteS? || t.AssignS? || t.ReadS?)
    ensures StmtKept(s, t)
  {
    if !t.ReadS? && BuildExpr(s, t.e).Some? {
      BuildExprValue(s, t.e);
      BuildExprQuiet(s, t.e);
    }
    if BuildStmt(s, t).Some? {
      var b := BuildStmt(s, t).value.1;
      forall st: State, fuel: nat ensures ExecStmt(t, st, fuel) == ExecStmts(b, st, fuel) {
        ExecOne(b.head, st, fuel);
        assert !t.ReadS? ==> Eval(t.e, st.env) == Eval(b.head.e, st.env);
      }
    }
  }

  lemma {:induction false} BuildStmtMeans(s: Supply, t: Stmt)
    requires UopsOk(s)
    ensures StmtKept(s, t)
    decreases t
  {
    match t
    case IfS(c, thn, els, a2, r) =>
      if BuildStmt(s, t).Some? {
        BuildExprValue(s, c);
        BuildExprQuiet(s, c);
        var (s1, c') := BuildExpr(s, c).value;
        BuildStmtsMeans(s1, thn);
        var (s2, thn') := BuildStmts(s1, thn).value;
        BuildStmtsMeans(s2, els);
        var (s3, els') := BuildStmts(s2, els).value;
        assert BuildStmt(s, t) == NewIf(s3, c', thn', els');
        IfKept(s, s1, s2, s3, t, c', thn', els');
      }
    case WhileS(c, body, a2, r) =>
      if BuildStmt(s, t).Some? {
        BuildExprValue(s, c);
        BuildExprQuiet(s, c);
        var (s1, c') := BuildExpr(s, c).value;
        BuildStmtsMeans(s1, body);
        var (s2, body') := BuildStmts(s1, body).value;
        assert BuildStmt(s, t) == NewLoop(s2, c', body');
        LoopKept(s, s1, s2, t, c', body');
      }
    case _ =>
      PlainMeans(s, t);
  }

  lemma IfKept(s: Supply, s1: Supply, s2: Supply, s3: Supply, t: Stmt, c: Expr, thn: Stmts, els: Stmts)
    requires t.IfS? && BuildStmt(s, t) == NewIf(s3, c, thn, els) && BuildStmt(s, t).Some?
    requires s1.infinite == s.infinite && SameValue(t.c, c)
    requires BuildStmts(s1, t.thn) == Some((s2, thn)) && StmtsKept(s1, t.thn)
    requires BuildStmts(s2, t.els) == Some((s3, els)) && StmtsKept(s2, t.els)
    ensures StmtKept(s, t)
  {
    var (s', b) := NewIf(s3, c, thn, els).value;
    assert s'.infinite == s3.infinite && UopsOk(s');
    hide NewIf, BuildStmts, BuildStmt, SameStmt, SameStmts, SameValue, UopsOk;
    if s3.infinite == s.infinite {
      NewIfMeans(s3, c, thn, els, t.c, t.thn, t.els, t.a2, t.r);
    }
  }

  lemma LoopKept(s: Supply, s1: Supply, s2: Supply, t: Stmt, c: Expr, body: Stmts)
    requires t.WhileS? && BuildStmt(s, t) == NewLoop(s2, c, body) && BuildStmt(s, t).Some?
    requires s1.infinite == s.infinite && SameValue(t.c, c)
    requires BuildStmts(s1, t.body) == Some((s2, body)) && StmtsKept(s1, t.body)
    ensures StmtKept(s, t)
  {
    var (s', b) := NewLoop(s2, c, body).value;
    assert s2.infinite <= s'.infinite && UopsOk(s');
    hide NewLoop, BuildStmts, BuildStmt, SameStmt, SameStmts, SameValue, UopsOk;
    if s'.infinite == s.infinite {
      NewLoopMeans(s2, c, body, t.c, t.body, t.a2, t.r);
    }
  }

  /** Folding constructors preserve meaning: a tree built without a warning runs like the tree as
      parsed, from every state and within every loop budget. */
  lemma {:induction false} BuildStmtsMeans(s: Supply, ts: Stmts)
    requires UopsOk(s)
    ensures StmtsKept(s, ts)
    decreases ts
  {
    match ts
    case End =>
    case Chain(t, rest) =>
      if BuildStmts(s, ts).Some? {
        BuildStmtMeans(s, t);
        var (s1, a) := BuildStmt(s, t).value;
        BuildStmtsMeans(s1, rest);
        var (s2, b) := BuildStmts(s1, rest).value;
        assert BuildStmts(s, ts) == Some((s2, Append(a, b)));
        hide BuildStmts, BuildStmt, SameStmt, SameStmts, UopsOk, Append;
        if s2.infinite == s.infinite {
          AppendMeans(t, a, rest, b);
        }
      }
  }
}
