/** Which programs have lowered code that bb_build turns into its control-flow graph. */
module LoweredBlocks {
  import opened ThreeAddress
  import opened Ast
  import opened Lowering
  import opened Labels
  import opened BasicBlocks
  import opened Predecessors
  import opened BlockGraph
  import opened GraphLimits
  import opened FlowRun

  // ----- lowered code is well formed -----

  ghost predicate JumpsClosed(code: seq<Ins>) {
    forall i :: 0 <= i < |code| && code[i].Jmp? ==> i + 1 < |code| && code[i + 1].Label?
  }

  lemma ClosedAppend(a: seq<Ins>, b: seq<Ins>)
    requires JumpsClosed(a) && JumpsClosed(b)
    ensures JumpsClosed(a + b)
  {
    var c := a + b;
    forall i | 0 <= i < |c| && c[i].Jmp? ensures i + 1 < |c| && c[i + 1].Label? {
      if i < |a| {
        assert c[i + 1] == a[i + 1];
      } else {
        assert c[i] == b[i - |a|];
      }
    }
  }

  lemma {:induction false} ExprPlain(e: Expr)
    ensures forall i :: 0 <= i < |GenExpr(e)| ==> !IsControl(GenExpr(e)[i])
    ensures GenExpr(e) == [] <==> Leaf(e)
  {
    match e
    case Num(_) =>
    case Id(_) =>
    case Biop(op, a, b, t) =>
      ExprPlain(a);
      ExprPlain(b);
    case Uop(a, t) =>
      ExprPlain(a);
  }

  lemma ExprClosed(e: Expr)
    ensures JumpsClosed(GenExpr(e))
  {
    ExprPlain(e);
  }

  lemma {:induction false} StmtClosed(s: Stmt)
    ensures JumpsClosed(GenStmt(s))
    decreases s, 1
  {
    match s
    case WriteS(e) =>
      ExprClosed(e);
      ClosedAppend(GenExpr(e), [Out(Res(e))]);
    case AssignS(x, e) =>
      ExprClosed(e);
      ClosedAppend(GenExpr(e), [Assign(x, Res(e))]);
    case ReadS(_) =>
    case IfS(c, thn, els, a2, r) =>
      StmtsClosed(thn);
      StmtsClosed(els);
      TestClosed(c, r, thn);
      hide *;
      IfClosed(s);
    case WhileS(c, body, a2, r) =>
      StmtsClosed(body);
      TestClosed(c, r, body);
      hide *;
      WhileClosed(s);
  }

  lemma SmallClosed(a: nat, b: nat)
    ensures JumpsClosed([Label(a)]) && JumpsClosed([Jmp(a), Label(b)])
  {
  }

  lemma ElseClosed(test: seq<Ins>, els: seq<Ins>, a: nat, r: nat)
    requires JumpsClosed(test) && JumpsClosed(els)
    ensures JumpsClosed(test + ([Jmp(a), Label(r)] + (els + [Label(a)])))
  {
    hide *;
    SmallClosed(a, r);
    ClosedAppend(els, [Label(a)]);
    ClosedAppend([Jmp(a), Label(r)], els + [Label(a)]);
    ClosedAppend(test, [Jmp(a), Label(r)] + (els + [Label(a)]));
  }

  lemma JumpOver(a: seq<Ins>, j: Ins, r: Ins, b: seq<Ins>, l: Ins)
    ensures a + [j] + ([r] + b + [l]) == a + ([j, r] + (b + [l]))
  {
  }

  lemma IfCode(s: Stmt)
    requires s.IfS?
    ensures var test := GenExpr(s.c) + [Iff(Res(s.c), s.r)] + GenStmts(s.thn);
      GenStmt(s) == if s.els == End then test + [Label(s.r)] else test + [Jmp(s.a2)] + ([Label(s.r)] + GenStmts(s.els) + [Label(s.a2)])
  {
    hide GenStmts, GenExpr;
  }

  lemma IfClosed(s: Stmt)
    requires s.IfS? && JumpsClosed(GenStmts(s.els))
    requires JumpsClosed(GenExpr(s.c) + [Iff(Res(s.c), s.r)] + GenStmts(s.thn))
    ensures JumpsClosed(GenStmt(s))
  {
    hide *;
    var test := GenExpr(s.c) + [Iff(Res(s.c), s.r)] + GenStmts(s.thn);
    IfCode(s);
    if s.els == End {
      SmallClosed(s.r, 0);
      ClosedAppend(test, [Label(s.r)]);
    } else {
      JumpOver(test, Jmp(s.a2), Label(s.r), GenStmts(s.els), Label(s.a2));
      ElseClosed(test, GenStmts(s.els), s.a2, s.r);
    }
  }

  lemma WhileClosed(s: Stmt)
    requires s.WhileS? && JumpsClosed(GenExpr(s.c) + [Iff(Res(s.c), s.r)] + GenStmts(s.body))
    ensures JumpsClosed(GenStmt(s))
  {
    var test := GenExpr(s.c) + [Iff(Res(s.c), s.r)] + GenStmts(s.body);
    assert GenStmt(s) == [Label(s.a2)] + (test + [Jmp(s.a2), Label(s.r)]);
    assert JumpsClosed([Label(s.a2)]) && JumpsClosed([Jmp(s.a2), Label(s.r)]);
    hide GenStmt, GenStmts, GenExpr, JumpsClosed;
    ClosedAppend(test, [Jmp(s.a2), Label(s.r)]);
    ClosedAppend([Label(s.a2)], test + [Jmp(s.a2), Label(s.r)]);
  }

  lemma TestClosed(c: Expr, r: nat, ss: Stmts)
    requires JumpsClosed(GenStmts(ss))
    ensures JumpsClosed(GenExpr(c) + [Iff(Res(c), r)] + GenStmts(ss))
  {
    ExprClosed(c);
    ClosedAppend(GenExpr(c), [Iff(Res(c), r)]);
    ClosedAppend(GenExpr(c) + [Iff(Res(c), r)], GenStmts(ss));
  }

  lemma {:induction false} StmtsClosed(ss: Stmts)
    ensures JumpsClosed(GenStmts(ss))
    decreases ss, 0
  {
    match ss
    case End =>
    case Chain(s, rest) =>
      StmtClosed(s);
      StmtsClosed(rest);
      ClosedAppend(GenStmt(s), GenStmts(rest));
  }

  lemma {:induction false} JumpCountAt(code: seq<Ins>, i: nat, l: nat)
    requires i < |code| && (code[i].Iff? || code[i].Jmp?) && code[i].target == l
    ensures JumpCount(code, l) >= 1
  {
    if i > 0 {
      JumpCountAt(code[1..], i - 1, l);
    }
  }

  lemma {:induction false} DefCountFinds(code: seq<Ins>, l: nat)
    requires DefCount(code, l) >= 1
    ensures FindLabel(code, l).Some?
  {
    if code[0] != Label(l) {
      DefCountFinds(code[1..], l);
    }
  }

  ghost predicate LabelsInRange(ss: Stmts) {
    forall l :: l in StmtsLabels(ss) ==> IsLabel(l)
  }

  lemma LoweredWellFormed(ss: Stmts)
    requires StmtsApart(ss) && LabelsInRange(ss)
    ensures WellFormed(GenStmts(ss)) && forall l :: JumpCount(GenStmts(ss), l) <= 1
  {
    var code := GenStmts(ss);
    ApartDistinct(ss);
    StmtsClosed(ss);
    hide GenStmts, StmtsApart, StmtsLabels, DistinctLabels, FindLabel;
    forall i | 0 <= i < |code| && code[i].Label? ensures IsLabel(code[i].l) {
      DefCountAt(code, i, code[i].l);
      StmtsCounts(ss, code[i].l);
    }
    forall i | 0 <= i < |code| && (code[i].Iff? || code[i].Jmp?) ensures FindLabel(code, code[i].target).Some? {
      JumpCountAt(code, i, code[i].target);
      StmtsCounts(ss, code[i].target);
      DefCountFinds(code, code[i].target);
    }
    forall l ensures JumpCount(code, l) <= 1 {
      StmtsCounts(ss, l);
    }
  }

  // ----- when no label, test or jump opens an empty block -----

  predicate Leaf(e: Expr) {
    e.Num? || e.Id?
  }

  /** The first instruction of the statement is no label and no test. */
  predicate OpensWell(s: Stmt) {
    !s.WhileS? && (s.IfS? ==> !Leaf(s.c))
  }

  predicate StartsWell(ss: Stmts) {
    ss.Chain? && OpensWell(ss.head)
  }

  /** Every branch and every body starts with something to do. */
  predicate PlainStmt(s: Stmt) {
    match s
    case IfS(_, thn, els, _, _) => StartsWell(thn) && PlainStmts(thn) && PlainStmts(els)
    case WhileS(_, body, _, _) => StartsWell(body) && PlainStmts(body)
    case _ => true
  }

  predicate PlainStmts(ss: Stmts) {
    match ss
    case End => true
    case Chain(s, rest) => PlainStmt(s) && PlainStmts(rest)
  }

  predicate PlainProgram(ss: Stmts) {
    PlainStmts(ss) && (ss == End || StartsWell(ss))
  }

  predicate Fresh(code: seq<Ins>, open: bool, i: nat)
    requires i < |code|
  {
    if i == 0 then open else code[i - 1].Iff?
  }

  /** No control instruction comes first, if the code opens a block, or right after a test. */
  ghost predicate PlainIn(code: seq<Ins>, open: bool) {
    forall i :: 0 <= i < |code| && Fresh(code, open, i) ==> !IsControl(code[i])
  }

  lemma PlainInAppend(a: seq<Ins>, b: seq<Ins>, open: bool)
    ensures PlainIn(a + b, open) <==> PlainIn(a, open) && PlainIn(b, if a == [] then open else Last(a).Iff?)
  {
    var c := a + b;
    var mid := if a == [] then open else Last(a).Iff?;
    forall i | 0 <= i < |a| ensures c[i] == a[i] && Fresh(c, open, i) == Fresh(a, open, i) {
    }
    forall i | 0 <= i < |b| ensures c[|a| + i] == b[i] && Fresh(c, open, |a| + i) == Fresh(b, mid, i) {
    }
    hide Fresh;
    if PlainIn(a, open) && PlainIn(b, mid) {
      forall i | 0 <= i < |c| && Fresh(c, open, i) ensures !IsControl(c[i]) {
        if i >= |a| {
          assert c[|a| + (i - |a|)] == b[i - |a|];
          assert Fresh(b, mid, i - |a|);
        }
      }
    }
    if PlainIn(c, open) {
      forall i | 0 <= i < |b| && Fresh(b, mid, i) ensures !IsControl(b[i]) {
        assert Fresh(c, open, |a| + i);
      }
    }
  }

  lemma PlainInOne(i: Ins, open: bool)
    ensures PlainIn([i], open) <==> !(open && IsControl(i))
    ensures PlainIn([], open)
  {
    assert [i][0] == i && Fresh([i], open, 0) == open;
  }

  lemma PlainInExpr(e: Expr, i: Ins, open: bool)
    ensures PlainIn(GenExpr(e) + [i], open) <==> !(open && IsControl(i) && Leaf(e))
    ensures Last(GenExpr(e) + [i]) == i
  {
    ExprPlain(e);
    PlainInOne(i, open);
    PlainInAppend(GenExpr(e), [i], open);
    hide GenExpr;
  }

  lemma {:induction false} EndsPlain(s: Stmt)
    ensures GenStmt(s) != [] && !Last(GenStmt(s)).Iff?
  {
    hide GenExpr, GenStmts;
  }

  lemma {:induction false} StmtsEndPlain(ss: Stmts)
    ensures ss == End <==> GenStmts(ss) == []
    ensures ss != End ==> !Last(GenStmts(ss)).Iff?
  {
    match ss
    case End =>
    case Chain(s, rest) =>
      EndsPlain(s);
      StmtsEndPlain(rest);
      hide GenStmt;
  }

  /** A test, the statements it guards, and the label or jump after them. */
  lemma PlainTest(c: Expr, r: nat, ss: Stmts, x: Ins, open: bool)
    requires IsControl(x)
    requires PlainIn(GenStmts(ss), true) <==> PlainStmts(ss) && (ss != End ==> StartsWell(ss))
    ensures PlainIn(GenExpr(c) + [Iff(Res(c), r)] + GenStmts(ss) + [x], open)
       <==> StartsWell(ss) && PlainStmts(ss) && !(open && Leaf(c))
  {
    var t := GenExpr(c) + [Iff(Res(c), r)];
    StmtsEndPlain(ss);
    PlainInExpr(c, Iff(Res(c), r), open);
    PlainInAppend(t, GenStmts(ss), open);
    PlainInAppend(t + GenStmts(ss), [x], open);
    PlainInOne(x, true);
    PlainInOne(x, false);
    hide GenStmts, GenExpr, PlainStmts;
  }

  lemma {:induction false} StmtPlainIff(s: Stmt, open: bool)
    ensures PlainIn(GenStmt(s), open) <==> PlainStmt(s) && (open ==> OpensWell(s))
    decreases s, 1
  {
    match s
    case WriteS(e) => PlainInExpr(e, Out(Res(e)), open);
    case AssignS(x, e) => PlainInExpr(e, Assign(x, Res(e)), open);
    case ReadS(x) => PlainInOne(In(x), open);
    case IfS(c, thn, els, a2, r) =>
      StmtsPlainIff(thn, true);
      StmtsPlainIff(els, false);
      IfPlain(s, open);
    case WhileS(c, body, a2, r) =>
      StmtsPlainIff(body, true);
      PlainTest(c, r, body, Jmp(a2), false);
      var mid := GenExpr(c) + [Iff(Res(c), r)] + GenStmts(body) + [Jmp(a2)];
      assert GenStmt(s) == [Label(a2)] + mid + [Label(r)];
      hide GenStmt, GenStmts, GenExpr, PlainStmts, StartsWell;
      PlainInOne(Label(a2), open);
      PlainInOne(Label(r), false);
      PlainInAppend([Label(a2)], mid, open);
      PlainInAppend([Label(a2)] + mid, [Label(r)], open);
  }

  lemma IfPlain(s: Stmt, open: bool)
    requires s.IfS?
    requires PlainIn(GenStmts(s.thn), true) <==> PlainStmts(s.thn) && (s.thn != End ==> StartsWell(s.thn))
    requires PlainIn(GenStmts(s.els), false) <==> PlainStmts(s.els)
    ensures PlainIn(GenStmt(s), open) <==> PlainStmt(s) && (open ==> OpensWell(s))
  {
    PlainTest(s.c, s.r, s.thn, Label(s.r), open);
    PlainTest(s.c, s.r, s.thn, Jmp(s.a2), open);
    var test := GenExpr(s.c) + [Iff(Res(s.c), s.r)] + GenStmts(s.thn);
    var head, tail := test + [Jmp(s.a2)], [Label(s.r)] + GenStmts(s.els) + [Label(s.a2)];
    assert s.els == End ==> PlainStmts(s.els);
    assert GenStmt(s) == if s.els == End then test + [Label(s.r)] else head + tail;
    hide GenStmt, GenStmts, GenExpr, PlainStmts, StartsWell, PlainIn;
    StmtsEndPlain(s.els);
    PlainInAppend(head, tail, open);
    PlainInOne(Label(s.r), false);
    PlainInOne(Label(s.a2), false);
    PlainInAppend([Label(s.r)], GenStmts(s.els), false);
    PlainInAppend([Label(s.r)] + GenStmts(s.els), [Label(s.a2)], false);
  }

  lemma {:induction false} StmtsPlainIff(ss: Stmts, open: bool)
    ensures PlainIn(GenStmts(ss), open) <==> PlainStmts(ss) && (open && ss != End ==> StartsWell(ss))
    decreases ss, 0
  {
    match ss
    case End =>
    case Chain(s, rest) =>
      StmtPlainIff(s, open);
      StmtsPlainIff(rest, false);
      EndsPlain(s);
      PlainInAppend(GenStmt(s), GenStmts(rest), open);
      hide PlainIn, GenStmt;
  }

  lemma PlainProgramIff(ss: Stmts)
    ensures PlainStarts(GenStmts(ss)) <==> PlainProgram(ss)
  {
    var code := GenStmts(ss);
    StmtsPlainIff(ss, true);
    assert forall i :: 0 <= i < |code| ==> Opening(code, i) == Fresh(code, true, i);
    hide GenStmts, Opening, Fresh, PlainStmts;
    if PlainStarts(code) {
      assert PlainIn(code, true);
    }
  }

  // ----- the main results -----

  /** bb_build turns the code of a tree into its control-flow graph exactly when the program and
      every branch and body in it start with something else than a loop or a bare test. */
  lemma LoweredGraphIff(ss: Stmts)
    requires StmtsApart(ss) && LabelsInRange(ss)
    ensures PlainProgram(ss) <==> Build(GenStmts(ss)).Some? && GraphOf(GenStmts(ss), Build(GenStmts(ss)).value)
  {
    LoweredWellFormed(ss);
    PlainProgramIff(ss);
    hide *;
    SmallCounts(GenStmts(ss));
    BuildsGraphIff(GenStmts(ss));
  }

  lemma SmallCounts(code: seq<Ins>)
    requires forall l :: JumpCount(code, l) <= 1
    ensures FewJumps(code)
  {
  }

  /** No block of that graph has more than two predecessors. */
  lemma LoweredPredecessors(ss: Stmts, b: nat)
    requires StmtsApart(ss) && LabelsInRange(ss) && PlainProgram(ss)
    requires Build(GenStmts(ss)).Some? && b < |Build(GenStmts(ss)).value|
    ensures |Build(GenStmts(ss)).value[b].pred| <= 2
  {
    LoweredWellFormed(ss);
    PlainProgramIff(ss);
    hide *;
    TwoPredecessors(GenStmts(ss), b);
  }

  /** The graph and the code of such a program run in lock step, from any state. */
  lemma LoweredRunsAgree(ss: Stmts, st: State, n: nat)
    requires StmtsApart(ss) && LabelsInRange(ss) && PlainProgram(ss)
    ensures Build(GenStmts(ss)).Some?
    ensures var r, q := RunCfg(Build(GenStmts(ss)).value, At(0, 0, st), n), Run(GenStmts(ss), Config(0, st), n);
      && (r.None? <==> q.None?)
      && (r.Some? ==> q.Some? && r.value.st == q.value.st)
  {
    LoweredWellFormed(ss);
    LoweredGraphIff(ss);
    var g := Build(GenStmts(ss)).value;
    EntryPoint(GenStmts(ss), g, st);
    assert DistinctLabels(GenStmts(ss));
    hide GenStmts, StmtsApart, PlainProgram, Build, InGraph, GraphOf, Run, RunCfg, WellFormed, DistinctLabels;
    RunsAgree(GenStmts(ss), g, At(0, 0, st), n);
  }

  lemma EntryPoint(code: seq<Ins>, g: Cfg, st: State)
    requires GraphOf(code, g)
    ensures InGraph(g, At(0, 0, st)) && Linear(g, At(0, 0, st)) == Config(0, st)
  {
    assert GoodBlock(g, 0);
  }
}
