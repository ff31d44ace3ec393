/** Lowered code meets the discipline that back-patching asks for, so every jump of a compiled
    program lands. */
module LoweredJumps {
  import opened ThreeAddress
  import opened Ast
  import opened Lowering
  import opened Labels
  import opened LoweredBlocks
  import LoopHeaders
  import T = Tm
  import opened BackPatch
  import SpareEnds

  /** Every test comes before its label. */
  ghost predicate TestsForward(code: seq<Ins>) {
    forall p: nat, i: nat :: p < i < |code| && code[p].Label? ==> !TestTo(code[i], code[p].l)
  }

  predicate TestTo(i: Ins, l: nat) {
    i.Iff? && i.target == l
  }

  ghost predicate NoTestBack(a: seq<Ins>, b: seq<Ins>) {
    forall p: nat, i: nat :: p < |a| && i < |b| && a[p].Label? ==> !TestTo(b[i], a[p].l)
  }

  lemma AppendForward(a: seq<Ins>, b: seq<Ins>)
    requires TestsForward(a) && TestsForward(b) && NoTestBack(a, b)
    ensures TestsForward(a + b)
  {
    var c := a + b;
    forall p: nat, i: nat | p < i < |c| && c[p].Label? ensures !TestTo(c[i], c[p].l) {
      if i >= |a| {
        assert c[i] == b[i - |a|];
        if p >= |a| {
          assert c[p] == b[p - |a|];
        }
      }
    }
  }

  lemma NoTestByCounts(a: seq<Ins>, b: seq<Ins>)
    requires forall l :: DefCount(a, l) == 0 || JumpCount(b, l) == 0
    ensures NoTestBack(a, b)
  {
    forall p: nat, i: nat | p < |a| && i < |b| && a[p].Label? ensures !TestTo(b[i], a[p].l) {
      DefCountAt(a, p, a[p].l);
      if TestTo(b[i], a[p].l) {
        JumpCountAt(b, i, a[p].l);
      }
    }
  }

  /** Code without tests can be added at the end, code without labels at the front. */
  lemma AppendOther(a: seq<Ins>, i: Ins)
    requires TestsForward(a) && !i.Iff?
    ensures TestsForward(a + [i])
  {
    AppendForward(a, [i]);
  }

  lemma ExprThen(e: Expr, i: Ins)
    ensures TestsForward(GenExpr(e) + [i]) && forall k :: 0 <= k < |GenExpr(e)| ==> !GenExpr(e)[k].Label?
  {
    ExprPlain(e);
  }

  lemma TestThen(c: Expr, r: nat, ss: Stmts)
    requires TestsForward(GenStmts(ss))
    ensures TestsForward(GenExpr(c) + [Iff(Res(c), r)] + GenStmts(ss))
  {
    ExprThen(c, Iff(Res(c), r));
    AppendForward(GenExpr(c) + [Iff(Res(c), r)], GenStmts(ss));
  }

  lemma {:induction false} StmtForward(s: Stmt)
    requires StmtApart(s)
    ensures TestsForward(GenStmt(s))
    decreases s, 1
  {
    match s
    case WriteS(e) => ExprThen(e, Out(Res(e)));
    case AssignS(x, e) => ExprThen(e, Assign(x, Res(e)));
    case ReadS(_) =>
    case IfS(c, thn, els, a2, r) =>
      StmtsForward(thn);
      StmtsForward(els);
      TestThen(c, r, thn);
      hide *;
      IfForward(s);
    case WhileS(c, body, a2, r) =>
      StmtsForward(body);
      TestThen(c, r, body);
      hide *;
      WhileForward(s);
  }

  lemma IfForward(s: Stmt)
    requires s.IfS? && StmtApart(s) && TestsForward(GenStmts(s.els))
    requires TestsForward(GenExpr(s.c) + [Iff(Res(s.c), s.r)] + GenStmts(s.thn))
    ensures TestsForward(GenStmt(s))
  {
    var test := GenExpr(s.c) + [Iff(Res(s.c), s.r)] + GenStmts(s.thn);
    if s.els == End {
      assert GenStmt(s) == test + [Label(s.r)];
      hide GenStmt, GenStmts, GenExpr, TestsForward;
      AppendOther(test, Label(s.r));
    } else {
      var head, tail := test + [Jmp(s.a2)], [Label(s.r)] + GenStmts(s.els) + [Label(s.a2)];
      assert GenStmt(s) == head + tail;
      assert StmtsLabels(s.thn) !! StmtsLabels(s.els);
      AppendOther(test, Jmp(s.a2));
      ElseForward(s);
      LoopHeaders.ForwardOne(Jmp(s.a2));
      forall l ensures DefCount(head, l) == 0 || JumpCount(tail, l) == 0 {
        HeadCounts(s, l);
      }
      hide GenStmt, GenStmts, GenExpr, TestsForward, NoTestBack, DefCount, JumpCount, StmtApart, StmtsLabels;
      NoTestByCounts(head, tail);
      AppendForward(head, tail);
    }
  }

  lemma HeadCounts(s: Stmt, l: nat)
    requires s.IfS? && StmtApart(s)
    ensures var test := GenExpr(s.c) + [Iff(Res(s.c), s.r)] + GenStmts(s.thn);
      DefCount(test + [Jmp(s.a2)], l) == 0 || JumpCount([Label(s.r)] + GenStmts(s.els) + [Label(s.a2)], l) == 0
  {
    var test := GenExpr(s.c) + [Iff(Res(s.c), s.r)] + GenStmts(s.thn);
    TestCounts(s.c, s.r, s.thn, l);
    StmtsCounts(s.thn, l);
    StmtsCounts(s.els, l);
    CountOne(Jmp(s.a2), l);
    CountOne(Label(s.r), l);
    CountOne(Label(s.a2), l);
    CountAppend(test, [Jmp(s.a2)], l);
    CountAppend3([Label(s.r)], GenStmts(s.els), [Label(s.a2)], l);
    assert StmtsLabels(s.thn) !! StmtsLabels(s.els);
    hide GenStmts, GenExpr, DefCount, JumpCount, StmtsLabels, StmtApart;
  }

  lemma ElseForward(s: Stmt)
    requires s.IfS? && StmtApart(s) && TestsForward(GenStmts(s.els))
    ensures TestsForward([Label(s.r)] + GenStmts(s.els) + [Label(s.a2)])
  {
    StmtsCounts(s.els, s.r);
    LabelFirst(s.r, GenStmts(s.els));
    AppendOther([Label(s.r)] + GenStmts(s.els), Label(s.a2));
  }

  /** A label to which nothing after it jumps. */
  lemma LabelFirst(l: nat, b: seq<Ins>)
    requires JumpCount(b, l) == 0 && TestsForward(b)
    ensures TestsForward([Label(l)] + b)
  {
    forall k ensures DefCount([Label(l)], k) == 0 || JumpCount(b, k) == 0 {
      CountOne(Label(l), k);
    }
    hide DefCount, JumpCount;
    NoTestByCounts([Label(l)], b);
    AppendForward([Label(l)], b);
  }

  lemma WhileForward(s: Stmt)
    requires s.WhileS? && StmtApart(s)
    requires TestsForward(GenExpr(s.c) + [Iff(Res(s.c), s.r)] + GenStmts(s.body))
    ensures TestsForward(GenStmt(s))
  {
    var test := GenExpr(s.c) + [Iff(Res(s.c), s.r)] + GenStmts(s.body);
    assert GenStmt(s) == [Label(s.a2)] + test + [Jmp(s.a2)] + [Label(s.r)];
    TestCounts(s.c, s.r, s.body, s.a2);
    StmtsCounts(s.body, s.a2);
    hide GenStmt, GenStmts, GenExpr, TestsForward;
    LabelFirst(s.a2, test);
    AppendOther([Label(s.a2)] + test, Jmp(s.a2));
    AppendOther([Label(s.a2)] + test + [Jmp(s.a2)], Label(s.r));
  }

  lemma {:induction false} StmtsForward(ss: Stmts)
    requires StmtsApart(ss)
    ensures TestsForward(GenStmts(ss))
    decreases ss, 0
  {
    match ss
    case End =>
    case Chain(s, rest) =>
      StmtForward(s);
      StmtsForward(rest);
      forall l ensures DefCount(GenStmt(s), l) == Once(StmtLabels(s), l) && JumpCount(GenStmts(rest), l) == Once(StmtsLabels(rest), l) {
        StmtCounts(s, l);
        StmtsCounts(rest, l);
      }
      hide GenStmt, TestsForward, NoTestBack, DefCount, JumpCount, StmtApart, StmtLabels, StmtsLabels;
      NoTestByCounts(GenStmt(s), GenStmts(rest));
      AppendForward(GenStmt(s), GenStmts(rest));
  }

  // ----- the items of a program -----

  /** items are what the generator emits for the code, instruction by instruction. */
  ghost predicate Renders(code: seq<Ins>, items: seq<Item>) {
    |items| == |code| && forall k :: 0 <= k < |code| ==> Rendered(code[k], items[k])
  }

  predicate Rendered(i: Ins, x: Item) {
    match i
    case Label(l) => x == Mark(l)
    case Iff(_, l) => x.Test? && x.l == l && SpareEnds.IsTest(x.op) && 0 <= x.r1 < T.PC
    case Jmp(l) => x.Jump? && x.l == l
    case _ => x.Straight?
  }

  lemma {:induction false} TwoJumps(code: seq<Ins>, i: nat, j: nat, l: nat)
    requires i < j < |code| && LoopHeaders.JumpsTo(code[i], l) && LoopHeaders.JumpsTo(code[j], l)
    ensures JumpCount(code, l) >= 2
  {
    if i == 0 {
      JumpCountAt(code[1..], j - 1, l);
    } else {
      TwoJumps(code[1..], i - 1, j - 1, l);
    }
  }

  lemma LoweredLeaptOnce(ss: Stmts, items: seq<Item>)
    requires StmtsApart(ss) && Renders(GenStmts(ss), items)
    ensures LeaptOnce(items)
  {
    var code := GenStmts(ss);
    hide GenStmts, StmtsApart;
    forall i, j | 0 <= i < j < |items| && Leaps(items[i]) && Leaps(items[j]) ensures items[i].l != items[j].l {
      assert Rendered(code[i], items[i]) && Rendered(code[j], items[j]);
      if items[i].l == items[j].l {
        TwoJumps(code, i, j, items[i].l);
        StmtsCounts(ss, items[i].l);
      }
    }
  }

  lemma LoweredMarkedOnce(ss: Stmts, items: seq<Item>)
    requires StmtsApart(ss) && Renders(GenStmts(ss), items)
    ensures MarkedOnce(items)
  {
    var code := GenStmts(ss);
    ApartDistinct(ss);
    hide GenStmts, StmtsApart;
    forall i, j | 0 <= i < j < |items| && items[i].Mark? && items[j].Mark? ensures items[i].l != items[j].l {
      assert Rendered(code[i], items[i]) && Rendered(code[j], items[j]);
    }
  }

  lemma LoweredTargeted(ss: Stmts, items: seq<Item>, q: nat) returns (p: nat)
    requires StmtsApart(ss) && Renders(GenStmts(ss), items) && q < |items| && Leaps(items[q])
    ensures Targeted(items, q, p)
  {
    var code, l := GenStmts(ss), items[q].l;
    StmtsForward(ss);
    assert Rendered(code[q], items[q]);
    hide GenStmts, StmtsApart;
    JumpCountAt(code, q, l);
    StmtsCounts(ss, l);
    DefCountFinds(code, l);
    p := FindLabel(code, l).value;
    assert Rendered(code[p], items[p]);
    assert items[q].Test? ==> TestTo(code[q], l);
    assert p < q ==> !TestTo(code[q], code[p].l);
  }

  /** Whatever code the generator puts between the jumps of a lowered program, each jump goes to
      where its label was reached. */
  lemma LoweredJumpsLand(ss: Stmts, items: seq<Item>, q: nat, imem: T.Program, m: T.Machine) returns (p: nat)
    requires StmtsApart(ss) && Renders(GenStmts(ss), items) && q < |items| && Leaps(items[q])
    requires CodeAt(items, |items|) <= imem && m.reg[T.PC] == LineOf(items, q)
    ensures p < |items| && items[p] == Mark(items[q].l)
    ensures T.StepTM(imem, m)
         == T.Okay(T.SetReg(m, T.PC, if Goes(items[q], m) then LocOf(items, p) else LineOf(items, q) + 1))
  {
    LoweredLeaptOnce(ss, items);
    LoweredMarkedOnce(ss, items);
    p := LoweredTargeted(ss, items, q);
    TestFits(GenStmts(ss), items, q);
    hide GenStmts, StmtsApart, Renders, LeaptOnce, MarkedOnce, CodeAt, LineOf, LocOf, T.StepTM, Goes, Rendered;
    JumpsLand(items, q, p, imem, m);
  }

  lemma TestFits(code: seq<Ins>, items: seq<Item>, q: nat)
    requires Renders(code, items) && q < |items|
    ensures items[q].Test? ==> SpareEnds.IsTest(items[q].op) && 0 <= items[q].r1 < T.PC
  {
    assert Rendered(code[q], items[q]);
  }
}

