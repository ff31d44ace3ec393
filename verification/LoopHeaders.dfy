/** Lowered code never jumps back to a label that directly follows a TJMP.  Hence in its graph every
    loop header has a guard, and lva finds the least solution. */
module LoopHeaders {
  import opened ThreeAddress
  import opened Ast
  import opened Lowering
  import opened Labels
  import opened BasicBlocks
  import opened BlockGraph
  import opened LoweredBlocks
  import opened Liveness
  import opened LivenessFixpoint
  import opened FlowRun
  import opened LivenessSound

  predicate JumpsTo(i: Ins, l: nat) {
    (i.Iff? || i.Jmp?) && i.target == l
  }

  /** Label l stands at position p, right after an unconditional jump. */
  predicate Cold(code: seq<Ins>, p: nat, l: nat) {
    0 < p < |code| && code[p] == Label(l) && code[p - 1].Jmp?
  }

  ghost predicate ForwardToCold(code: seq<Ins>) {
    forall p: nat, i: nat, l :: p < i < |code| && Cold(code, p, l) ==> !JumpsTo(code[i], l)
  }

  /** b jumps to no label that is cold in a. */
  ghost predicate Clear(a: seq<Ins>, b: seq<Ins>) {
    forall p: nat, i: nat, l :: p < |a| && i < |b| && Cold(a, p, l) ==> !JumpsTo(b[i], l)
  }

  lemma ForwardAppend(a: seq<Ins>, b: seq<Ins>)
    requires ForwardToCold(a) && ForwardToCold(b) && Clear(a, b)
    requires a != [] && BasicBlocks.Last(a).Jmp? && b != [] && b[0].Label? ==> JumpCount(b, b[0].l) == 0
    ensures ForwardToCold(a + b)
  {
    var c := a + b;
    forall p: nat, i: nat, l | p < i < |c| && Cold(c, p, l) ensures !JumpsTo(c[i], l) {
      if i < |a| {
        assert Cold(a, p, l);
      } else if p < |a| {
        assert Cold(a, p, l) && c[i] == b[i - |a|];
      } else {
        assert c[p] == b[p - |a|] && c[i] == b[i - |a|];
        if p > |a| {
          assert Cold(b, p - |a|, l);
        } else if JumpsTo(b[i - |a|], l) {
          JumpCountAt(b, i - |a|, l);
        }
      }
    }
  }

  lemma ClearByCounts(a: seq<Ins>, b: seq<Ins>)
    requires forall l :: DefCount(a, l) == 0 || JumpCount(b, l) == 0
    ensures Clear(a, b)
  {
    forall p: nat, i: nat, l | p < |a| && i < |b| && Cold(a, p, l) ensures !JumpsTo(b[i], l) {
      DefCountAt(a, p, l);
      if JumpsTo(b[i], l) {
        JumpCountAt(b, i, l);
      }
    }
  }

  lemma ClearOfLabel(l: nat, b: seq<Ins>)
    ensures Clear([Label(l)], b) && ForwardToCold([Label(l)])
  {
  }

  lemma ClearBefore(a: seq<Ins>, l: nat)
    ensures Clear(a, [Label(l)]) && JumpCount([Label(l)], l) == 0
  {
    CountOne(Label(l), l);
  }

  lemma ForwardOne(i: Ins)
    ensures ForwardToCold([i])
  {
  }

  /** What a statement ends with. */
  lemma {:induction false} EndsSoft(s: Stmt)
    ensures GenStmt(s) != [] && !BasicBlocks.Last(GenStmt(s)).Jmp?
  {
    hide GenExpr, GenStmts;
  }

  lemma ExprForward(e: Expr, i: Ins)
    ensures ForwardToCold(GenExpr(e) + [i])
  {
    ExprPlain(e);
    hide GenExpr;
  }

  /** A test and the statements it guards. */
  lemma TestForward(c: Expr, r: nat, ss: Stmts)
    requires ForwardToCold(GenStmts(ss))
    ensures ForwardToCold(GenExpr(c) + [Iff(Res(c), r)] + GenStmts(ss))
  {
    var t := GenExpr(c) + [Iff(Res(c), r)];
    ExprForward(c, Iff(Res(c), r));
    forall l ensures DefCount(t, l) == 0 {
      ExprCounts(c, l);
      CountOne(Iff(Res(c), r), l);
      CountAppend(GenExpr(c), [Iff(Res(c), r)], l);
    }
    hide GenExpr, GenStmts, ForwardToCold, Clear, DefCount, JumpCount;
    ClearByCounts(t, GenStmts(ss));
    ForwardAppend(t, GenStmts(ss));
  }

  lemma {:induction false} StmtForward(s: Stmt)
    requires StmtApart(s)
    ensures ForwardToCold(GenStmt(s))
    decreases s, 1
  {
    match s
    case WriteS(e) => ExprForward(e, Out(Res(e)));
    case AssignS(x, e) => ExprForward(e, Assign(x, Res(e)));
    case ReadS(_) => ForwardOne(GenStmt(s)[0]);
    case IfS(c, thn, els, a2, r) =>
      StmtsForward(thn);
      StmtsForward(els);
      hide *;
      TestForward(c, r, thn);
      IfForward(s);
    case WhileS(c, body, a2, r) =>
      StmtsForward(body);
      hide *;
      TestForward(c, r, body);
      WhileForward(s);
  }

  /** The then part, closed by the jump over the else part. */
  lemma ThenForward(s: Stmt, test: seq<Ins>)
    requires s.IfS? && StmtApart(s) && s.els != End && ForwardToCold(test)
    requires test == GenExpr(s.c) + [Iff(Res(s.c), s.r)] + GenStmts(s.thn)
    ensures ForwardToCold(test + [Jmp(s.a2)])
    ensures forall l :: DefCount(test + [Jmp(s.a2)], l) == Once(StmtsLabels(s.thn), l)
  {
    forall l ensures DefCount(test, l) == Once(StmtsLabels(s.thn), l) && JumpCount([Jmp(s.a2)], l) == (if l == s.a2 then 1 else 0)
      && DefCount(test + [Jmp(s.a2)], l) == DefCount(test, l)
    {
      TestCounts(s.c, s.r, s.thn, l);
      StmtsCounts(s.thn, l);
      CountOne(Jmp(s.a2), l);
      CountAppend(test, [Jmp(s.a2)], l);
    }
    assert s.a2 !in StmtsLabels(s.thn);
    hide GenExpr, GenStmts, ForwardToCold, Clear, DefCount, JumpCount, StmtApart, StmtsApart, StmtsLabels;
    ForwardOne(Jmp(s.a2));
    ClearByCounts(test, [Jmp(s.a2)]);
    ForwardAppend(test, [Jmp(s.a2)]);
  }

  /** The else part, between its two labels. */
  lemma ElseForward(s: Stmt, tail: seq<Ins>)
    requires s.IfS? && StmtApart(s) && s.els != End && ForwardToCold(GenStmts(s.els))
    requires tail == [Label(s.r)] + GenStmts(s.els) + [Label(s.a2)]
    ensures ForwardToCold(tail)
    ensures forall l :: JumpCount(tail, l) == Once(StmtsLabels(s.els), l)
  {
    forall l ensures JumpCount(tail, l) == Once(StmtsLabels(s.els), l) {
      StmtsCounts(s.els, l);
      CountOne(Label(s.r), l);
      CountOne(Label(s.a2), l);
      CountAppend3([Label(s.r)], GenStmts(s.els), [Label(s.a2)], l);
    }
    ClearOfLabel(s.r, GenStmts(s.els));
    ClearOfLabel(s.a2, []);
    ClearBefore([Label(s.r)] + GenStmts(s.els), s.a2);
    hide GenStmts, ForwardToCold, Clear, DefCount, JumpCount, StmtApart, StmtsApart, StmtsLabels;
    ForwardAppend([Label(s.r)], GenStmts(s.els));
    ForwardAppend([Label(s.r)] + GenStmts(s.els), [Label(s.a2)]);
  }

  lemma IfForward(s: Stmt)
    requires s.IfS? && StmtApart(s) && ForwardToCold(GenStmts(s.els))
    requires ForwardToCold(GenExpr(s.c) + [Iff(Res(s.c), s.r)] + GenStmts(s.thn))
    ensures ForwardToCold(GenStmt(s))
  {
    var test := GenExpr(s.c) + [Iff(Res(s.c), s.r)] + GenStmts(s.thn);
    if s.els == End {
      assert GenStmt(s) == test + [Label(s.r)];
      ClearOfLabel(s.r, []);
      ClearBefore(test, s.r);
      hide GenStmt, GenStmts, GenExpr, ForwardToCold, Clear, JumpCount, StmtApart;
      ForwardAppend(test, [Label(s.r)]);
    } else {
      var head, tail := test + [Jmp(s.a2)], [Label(s.r)] + GenStmts(s.els) + [Label(s.a2)];
      assert GenStmt(s) == head + tail;
      assert StmtsLabels(s.thn) !! StmtsLabels(s.els) && s.r !in StmtsLabels(s.els);
      ThenForward(s, test);
      ElseForward(s, tail);
      hide GenStmt, GenStmts, GenExpr, ForwardToCold, Clear, DefCount, JumpCount, StmtApart, StmtsLabels;
      ClearByCounts(head, tail);
      assert tail[0] == Label(s.r);
      ForwardAppend(head, tail);
    }
  }

  lemma WhileForward(s: Stmt)
    requires s.WhileS? && StmtApart(s)
    requires ForwardToCold(GenExpr(s.c) + [Iff(Res(s.c), s.r)] + GenStmts(s.body))
    ensures ForwardToCold(GenStmt(s))
  {
    var test := GenExpr(s.c) + [Iff(Res(s.c), s.r)] + GenStmts(s.body);
    var loop := [Label(s.a2)] + test;
    assert GenStmt(s) == loop + [Jmp(s.a2)] + [Label(s.r)];
    TestCounts(s.c, s.r, s.body, s.a2);
    StmtsCounts(s.body, s.a2);
    assert s.a2 !in StmtsLabels(s.body);
    ClearOfLabel(s.a2, test);
    ClearOfLabel(s.r, []);
    ClearBefore(loop + [Jmp(s.a2)], s.r);
    ForwardOne(Jmp(s.a2));
    hide GenStmt, GenStmts, GenExpr, ForwardToCold, DefCount, JumpCount, StmtApart, StmtsLabels;
    forall p: nat, i: nat, l | p < |loop| && i < |[Jmp(s.a2)]| && Cold(loop, p, l) ensures !JumpsTo([Jmp(s.a2)][i], l) {
      if l == s.a2 {
        assert test[p - 1] == Label(l);
        DefCountAt(test, p - 1, l);
      }
    }
    hide Cold, JumpsTo;
    assert Clear(loop, [Jmp(s.a2)]);
    hide Clear;
    ForwardAppend([Label(s.a2)], test);
    ForwardAppend(loop, [Jmp(s.a2)]);
    ForwardAppend(loop + [Jmp(s.a2)], [Label(s.r)]);
  }

  lemma {:induction false} StmtsForward(ss: Stmts)
    requires StmtsApart(ss)
    ensures ForwardToCold(GenStmts(ss))
    decreases ss, 0
  {
    match ss
    case End =>
    case Chain(s, rest) =>
      StmtForward(s);
      StmtsForward(rest);
      EndsSoft(s);
      forall l ensures DefCount(GenStmt(s), l) == Once(StmtLabels(s), l) && JumpCount(GenStmts(rest), l) == Once(StmtsLabels(rest), l) {
        StmtCounts(s, l);
        StmtsCounts(rest, l);
      }
      hide GenStmt, ForwardToCold, Clear, DefCount, JumpCount, StmtApart, StmtLabels, StmtsLabels;
      ClearByCounts(GenStmt(s), GenStmts(rest));
      ForwardAppend(GenStmt(s), GenStmts(rest));
  }

  // ----- guards in the graph -----

  lemma {:induction false} OffsetsGrow(c: seq<seq<Ins>>, a: nat, b: nat)
    requires a <= b <= |c|
    ensures Offset(c, a) <= Offset(c, b)
    decreases b - a
  {
    if a < b {
      OffsetsGrow(c, a, b - 1);
      FlattenEnd(c, b - 1);
      hide Offset;
    }
  }

  /** The label of a loop header comes first in its block, and nothing jumps over it. */
  lemma HeaderAt(code: seq<Ins>, g: Cfg, b: nat) returns (p: nat)
    requires PlainStarts(code) && GraphOf(code, g) && ForwardToCold(code)
    requires b < |g| && g[b].jmp.Some? && g[b].jmp.value < b
    ensures 0 < p < |code| && p == Offset(Insns(g), g[b].jmp.value) && !code[p - 1].Jmp? && !code[p - 1].Iff?
  {
    var c, h, e := Insns(g), g[b].jmp.value, |g[b].ins| - 1;
    assert GoodBlock(g, b);
    FlattenAt(c, b, e);
    FlattenAt(c, h, 0);
    p := Offset(c, h);
    var i := Offset(c, b) + e;
    OffsetsGrow(c, h + 1, b);
    FlattenEnd(c, h);
    var l := BasicBlocks.Last(g[b].ins).target;
    assert code[p] == Label(l) && JumpsTo(code[i], l) && p < i;
    hide GraphOf, GoodBlock, Flatten, Offset, JumpsTo;
    assert !Opening(code, p);
    assert !Cold(code, p, l);
  }

  /** The block before a loop header. */
  lemma HeaderGuard(code: seq<Ins>, g: Cfg, b: nat) returns (f: nat)
    requires PlainStarts(code) && GraphOf(code, g) && ForwardToCold(code)
    requires b < |g| && g[b].jmp.Some? && g[b].jmp.value < b
    ensures Guards(g, f, g[b].jmp.value)
  {
    var p := HeaderAt(code, g, b);
    var c, h := Insns(g), g[b].jmp.value;
    assert Offset(c, 0) == 0;
    f := h - 1;
    assert GoodBlock(g, f);
    FlattenAt(c, f, |c[f]| - 1);
    FlattenEnd(c, f);
    assert code[p - 1] == BasicBlocks.Last(g[f].ins);
    hide GraphOf, Offset, Flatten, PlainStarts, ForwardToCold;
  }

  lemma GraphGuarded(code: seq<Ins>, g: Cfg)
    requires PlainStarts(code) && GraphOf(code, g) && ForwardToCold(code)
    ensures Guarded(g)
  {
    forall b | 0 <= b < |g| ensures EdgeGuarded(g, b, g[b].jmp) && EdgeGuarded(g, b, g[b].next) {
      assert GoodBlock(g, b);
      if g[b].jmp.Some? && g[b].jmp.value < b {
        var f := HeaderGuard(code, g, b);
      }
    }
  }

  /** On the graph of a lowered program lva ends, at the least solution of the equations. */
  lemma LoweredLiveness(ss: Stmts, count: nat)
    requires StmtsApart(ss) && LabelsInRange(ss) && PlainProgram(ss)
    requires Build(GenStmts(ss)).Some? && InRange(Build(GenStmts(ss)).value, count)
    ensures Least(Build(GenStmts(ss)).value, Lva(Build(GenStmts(ss)).value, count))
  {
    hide *;
    LoweredGraphIff(ss);
    PlainProgramIff(ss);
    StmtsForward(ss);
    GraphGuarded(GenStmts(ss), Build(GenStmts(ss)).value);
    LvaLeast(Build(GenStmts(ss)).value, count);
  }

  lemma GraphJumpsLast(code: seq<Ins>, g: Cfg)
    requires GraphOf(code, g)
    ensures JumpsLast(g)
  {
    forall b, i | 0 <= b < |g| && 0 <= i < |g[b].ins| - 1 ensures !g[b].ins[i].Iff? && !g[b].ins[i].Jmp? {
      assert GoodBlock(g, b);
    }
  }

  /** What lva says is not live at the start of a block of a lowered program cannot influence the
      rest of the run. */
  lemma LoweredLiveInSound(ss: Stmts, count: nat, b: nat, st: State, env: Env, n: nat)
    requires StmtsApart(ss) && LabelsInRange(ss) && PlainProgram(ss)
    requires Build(GenStmts(ss)).Some? && InRange(Build(GenStmts(ss)).value, count)
    requires b < |Build(GenStmts(ss)).value|
    requires b < |Lva(Build(GenStmts(ss)).value, count).ins| && AgreeOn(Lva(Build(GenStmts(ss)).value, count).ins[b], st.env, env)
    ensures var g := Build(GenStmts(ss)).value;
      var r, q := RunCfg(g, At(b, 0, st), n), RunCfg(g, At(b, 0, st.(env := env)), n);
      && (r.None? <==> q.None?)
      && (r.Some? ==> r.value.st.output == q.value.st.output && r.value.st.input == q.value.st.input)
  {
    var g := Build(GenStmts(ss)).value;
    var s := Lva(g, count);
    LoweredLiveness(ss, count);
    LoweredGraphIff(ss);
    GraphJumpsLast(GenStmts(ss), g);
    assert Solves(g, s);
    hide Lva, GenStmts, Build, PlainProgram, StmtsApart, Solves, JumpsLast, Least, RunCfg, AgreeOn;
    LiveInSound(g, s, b, st, env, n);
  }
}
