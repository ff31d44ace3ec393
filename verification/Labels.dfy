/** The label discipline of lowered code: every label is defined once and jumped to once. */
module Labels {
  import opened ThreeAddress
  import opened Ast
  import opened Lowering

  /** How often label l is defined in the code. */
  function DefCount(code: seq<Ins>, l: nat): nat {
    if code == [] then 0 else (if code[0] == Label(l) then 1 else 0) + DefCount(code[1..], l)
  }

  /** How often label l is the target of a jump in the code. */
  function JumpCount(code: seq<Ins>, l: nat): nat {
    if code == [] then 0
    else (if (code[0].Iff? || code[0].Jmp?) && code[0].target == l then 1 else 0) + JumpCount(code[1..], l)
  }

  lemma {:induction false} CountAppend(a: seq<Ins>, b: seq<Ins>, l: nat)
    ensures DefCount(a + b, l) == DefCount(a, l) + DefCount(b, l)
    ensures JumpCount(a + b, l) == JumpCount(a, l) + JumpCount(b, l)
  {
    if a == [] {
      assert a + b == b;
    } else {
      CountAppend(a[1..], b, l);
      assert (a + b)[1..] == a[1..] + b;
    }
  }

  lemma {:induction false} ExprCounts(e: Expr, l: nat)
    ensures DefCount(GenExpr(e), l) == 0 && JumpCount(GenExpr(e), l) == 0
  {
    match e
    case Num(_) =>
    case Id(_) =>
    case Biop(op, a, b, t) =>
      ExprCounts(a, l);
      ExprCounts(b, l);
      CountAppend(GenExpr(a), GenExpr(b), l);
      CountAppend(GenExpr(a) + GenExpr(b), [Bin(op, t, Res(a), Res(b))], l);
    case Uop(a, t) =>
      ExprCounts(a, l);
      CountAppend(GenExpr(a), [Bin(Mul, t, Res(a), Const(-1))], l);
  }

  /** The labels that the statements of a tree own. */
  function StmtLabels(s: Stmt): set<nat> {
    match s
    case IfS(_, thn, els, a2, r) => StmtsLabels(thn) + StmtsLabels(els) + {r} + if els == End then {} else {a2}
    case WhileS(_, body, a2, r) => StmtsLabels(body) + {a2, r}
    case _ => {}
  }

  function StmtsLabels(ss: Stmts): set<nat> {
    match ss
    case End => {}
    case Chain(s, rest) => StmtLabels(s) + StmtsLabels(rest)
  }

  /** No two statements of the tree own the same label. */
  ghost predicate StmtApart(s: Stmt) {
    match s
    case IfS(_, thn, els, a2, r) =>
      && StmtsApart(thn) && StmtsApart(els) && StmtsLabels(thn) !! StmtsLabels(els)
      && r !in StmtsLabels(thn) + StmtsLabels(els)
      && (els != End ==> a2 != r && a2 !in StmtsLabels(thn) + StmtsLabels(els))
    case WhileS(_, body, a2, r) =>
      StmtsApart(body) && a2 != r && a2 !in StmtsLabels(body) && r !in StmtsLabels(body)
    case _ => true
  }

  ghost predicate StmtsApart(ss: Stmts) {
    match ss
    case End => true
    case Chain(s, rest) => StmtApart(s) && StmtsApart(rest) && StmtLabels(s) !! StmtsLabels(rest)
  }

  function Once(labels: set<nat>, l: nat): nat {
    if l in labels then 1 else 0
  }

  lemma CountAppend3(a: seq<Ins>, b: seq<Ins>, c: seq<Ins>, l: nat)
    ensures DefCount(a + b + c, l) == DefCount(a, l) + DefCount(b, l) + DefCount(c, l)
    ensures JumpCount(a + b + c, l) == JumpCount(a, l) + JumpCount(b, l) + JumpCount(c, l)
  {
    CountAppend(a, b, l);
    CountAppend(a + b, c, l);
    hide *;
  }

  lemma CountOne(i: Ins, l: nat)
    ensures DefCount([i], l) == if i == Label(l) then 1 else 0
    ensures JumpCount([i], l) == if (i.Iff? || i.Jmp?) && i.target == l then 1 else 0
  {
    assert [i][1..] == [];
  }

  lemma TestCounts(c: Expr, r: nat, ss: Stmts, l: nat)
    ensures DefCount(GenExpr(c) + [Iff(Res(c), r)] + GenStmts(ss), l) == DefCount(GenStmts(ss), l)
    ensures JumpCount(GenExpr(c) + [Iff(Res(c), r)] + GenStmts(ss), l)
         == JumpCount(GenStmts(ss), l) + if r == l then 1 else 0
  {
    hide *;
    ExprCounts(c, l);
    CountOne(Iff(Res(c), r), l);
    CountAppend3(GenExpr(c), [Iff(Res(c), r)], GenStmts(ss), l);
  }

  /** Every label of a tree is defined once in its code and is the target of one jump there. */
  lemma {:induction false} StmtCounts(s: Stmt, l: nat)
    requires StmtApart(s)
    ensures DefCount(GenStmt(s), l) == JumpCount(GenStmt(s), l) == Once(StmtLabels(s), l)
    decreases s, 1
  {
    match s
    case WriteS(e) =>
      ExprCounts(e, l);
      CountOne(Out(Res(e)), l);
      CountAppend(GenExpr(e), [Out(Res(e))], l);
    case AssignS(x, e) =>
      ExprCounts(e, l);
      CountOne(Assign(x, Res(e)), l);
      CountAppend(GenExpr(e), [Assign(x, Res(e))], l);
    case ReadS(x) =>
      CountOne(In(x), l);
    case IfS(c, thn, els, a2, r) =>
      IfCounts(s, l);
    case WhileS(c, body, a2, r) =>
      StmtsCounts(body, l);
      WhileCounts(s, l);
  }

  lemma WhileCounts(s: Stmt, l: nat)
    requires s.WhileS? && StmtApart(s) && DefCount(GenStmts(s.body), l) == JumpCount(GenStmts(s.body), l) == Once(StmtsLabels(s.body), l)
    ensures DefCount(GenStmt(s), l) == JumpCount(GenStmt(s), l) == Once(StmtLabels(s), l)
  {
    var test := GenExpr(s.c) + [Iff(Res(s.c), s.r)] + GenStmts(s.body);
    assert GenStmt(s) == [Label(s.a2)] + test + [Jmp(s.a2)] + [Label(s.r)];
    assert l in StmtLabels(s) <==> l in StmtsLabels(s.body) || l == s.a2 || l == s.r;
    assert s.a2 != s.r && s.a2 !in StmtsLabels(s.body) && s.r !in StmtsLabels(s.body);
    hide DefCount, JumpCount, GenStmt, GenStmts, GenExpr, StmtLabels, StmtsLabels, StmtApart, StmtsApart;
    TestCounts(s.c, s.r, s.body, l);
    CountOne(Label(s.a2), l);
    CountOne(Label(s.r), l);
    CountOne(Jmp(s.a2), l);
    CountAppend3([Label(s.a2)], test, [Jmp(s.a2)], l);
    CountAppend([Label(s.a2)] + test + [Jmp(s.a2)], [Label(s.r)], l);
  }

  lemma {:induction false} IfCounts(s: Stmt, l: nat)
    requires s.IfS? && StmtApart(s)
    ensures DefCount(GenStmt(s), l) == JumpCount(GenStmt(s), l) == Once(StmtLabels(s), l)
    decreases s, 0
  {
    StmtsCounts(s.thn, l);
    StmtsCounts(s.els, l);
    var test := GenExpr(s.c) + [Iff(Res(s.c), s.r)] + GenStmts(s.thn);
    var tail := [Label(s.r)] + GenStmts(s.els) + [Label(s.a2)];
    assert GenStmt(s) == if s.els == End then test + [Label(s.r)] else test + [Jmp(s.a2)] + tail;
    assert l in StmtLabels(s) <==> l in StmtsLabels(s.thn) || l in StmtsLabels(s.els) || l == s.r || (s.els != End && l == s.a2);
    assert s.r !in StmtsLabels(s.thn) + StmtsLabels(s.els) && StmtsLabels(s.thn) !! StmtsLabels(s.els);
    assert s.els != End ==> s.a2 != s.r && s.a2 !in StmtsLabels(s.thn) + StmtsLabels(s.els);
    assert s.els == End ==> StmtsLabels(s.els) == {};
    hide DefCount, JumpCount, GenStmt, GenStmts, GenExpr, StmtLabels, StmtsLabels, StmtApart, StmtsApart;
    TestCounts(s.c, s.r, s.thn, l);
    CountOne(Label(s.a2), l);
    CountOne(Label(s.r), l);
    CountOne(Jmp(s.a2), l);
    CountAppend(test, [Label(s.r)], l);
    CountAppend3([Label(s.r)], GenStmts(s.els), [Label(s.a2)], l);
    CountAppend3(test, [Jmp(s.a2)], tail, l);
  }

  lemma {:induction false} StmtsCounts(ss: Stmts, l: nat)
    requires StmtsApart(ss)
    ensures DefCount(GenStmts(ss), l) == JumpCount(GenStmts(ss), l) == Once(StmtsLabels(ss), l)
    decreases ss, 0
  {
    match ss
    case End =>
    case Chain(s, rest) =>
      StmtCounts(s, l);
      StmtsCounts(rest, l);
      CountAppend(GenStmt(s), GenStmts(rest), l);
  }

  lemma {:induction false} DefCountAt(code: seq<Ins>, i: nat, l: nat)
    requires i < |code| && code[i] == Label(l)
    ensures DefCount(code, l) >= 1
  {
    if i > 0 {
      DefCountAt(code[1..], i - 1, l);
    }
  }

  /** Labels that are each defined at most once are distinct. */
  lemma {:induction false} CountsDistinct(code: seq<Ins>)
    requires forall l :: DefCount(code, l) <= 1
    ensures DistinctLabels(code)
  {
    forall i, j | 0 <= i < j < |code| && code[i].Label? && code[j].Label? ensures code[i] != code[j] {
      var a, b, l := code[..j], code[j..], code[j].l;
      assert code == a + b && a[i] == code[i] && b[0] == code[j];
      CountAppend(a, b, l);
      DefCountAt(b, 0, l);
      assert DefCount(code, l) <= 1;
      if code[i] == code[j] {
        DefCountAt(a, i, l);
      }
    }
  }

  lemma ApartDistinct(ss: Stmts)
    requires StmtsApart(ss)
    ensures DistinctLabels(GenStmts(ss))
  {
    forall l ensures DefCount(GenStmts(ss), l) <= 1 {
      StmtsCounts(ss, l);
    }
    CountsDistinct(GenStmts(ss));
  }
}
