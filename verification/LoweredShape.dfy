/** The code of programs without loops whose conditions are ordering comparisons: it only jumps forward,
    a comparison stands in front of its test, and temporaries are read where they were computed. */
module LoweredShape {
  import opened ThreeAddress
  import opened Ast
  import opened Lowering
  import opened Labels
  import opened LoweredBlocks
  import opened BasicBlocks
  import LoopHeaders
  import LoweredJumps
  import opened SpareCode
  import opened MachineCode
  import opened MachineRun

  // ----- programs -----

  predicate LoopFreeStmt(s: Stmt) {
    match s
    case IfS(_, thn, els, _, _) => LoopFree(thn) && LoopFree(els)
    case WhileS(_, _, _, _) => false
    case _ => true
  }

  predicate LoopFree(ss: Stmts) {
    match ss
    case End => true
    case Chain(s, rest) => LoopFreeStmt(s) && LoopFree(rest)
  }

  predicate Calculates(e: Expr) {
    match e
    case Biop(op, l, r, _) => Arithmetic(op) && Calculates(l) && Calculates(r)
    case Uop(a, _) => Calculates(a)
    case _ => true
  }

  predicate Orders(c: Expr) {
    c.Biop? && (c.op.Lt? || c.op.Gt? || c.op.Le? || c.op.Ge?) && Calculates(c.l) && Calculates(c.r)
  }

  predicate OrderedStmt(s: Stmt) {
    match s
    case WriteS(e) => Calculates(e)
    case AssignS(_, e) => Calculates(e)
    case ReadS(_) => true
    case IfS(c, thn, els, _, _) => Orders(c) && Ordered(thn) && Ordered(els)
    case WhileS(c, body, _, _) => Orders(c) && Ordered(body)
  }

  /** Conditions are ordering comparisons, and there are no others. */
  predicate Ordered(ss: Stmts) {
    match ss
    case End => true
    case Chain(s, rest) => OrderedStmt(s) && Ordered(rest)
  }

  /** A program without loops uses up no budget. */
  lemma {:induction false} LoopFreeEnds(ss: Stmts, st: State, fuel: nat)
    requires LoopFree(ss)
    ensures !ExecStmts(ss, st, fuel).Timeout?
    decreases ss
  {
    match ss
    case End =>
    case Chain(s, rest) =>
      LoopFreeStmtEnds(s, st, fuel);
      var o := ExecStmt(s, st, fuel);
      if o.Done? {
        LoopFreeEnds(rest, o.st, fuel);
      }
  }

  lemma {:induction false} LoopFreeStmtEnds(s: Stmt, st: State, fuel: nat)
    requires LoopFreeStmt(s)
    ensures !ExecStmt(s, st, fuel).Timeout?
    decreases s
  {
    if s.IfS? {
      LoopFreeEnds(s.thn, st, fuel);
      LoopFreeEnds(s.els, st, fuel);
    }
  }

  // ----- jumps go forward -----

  ghost predicate NoneBack(code: seq<Ins>) {
    forall p: nat, i: nat :: p < i < |code| && code[p].Label? ==> !LoopHeaders.JumpsTo(code[i], code[p].l)
  }

  ghost predicate NoJumpBack(a: seq<Ins>, b: seq<Ins>) {
    forall p: nat, i: nat :: p < |a| && i < |b| && a[p].Label? ==> !LoopHeaders.JumpsTo(b[i], a[p].l)
  }

  lemma BackAppend(a: seq<Ins>, b: seq<Ins>)
    requires NoneBack(a) && NoneBack(b) && NoJumpBack(a, b)
    ensures NoneBack(a + b)
  {
    var c := a + b;
    forall p: nat, i: nat | p < i < |c| && c[p].Label? ensures !LoopHeaders.JumpsTo(c[i], c[p].l) {
      if i >= |a| {
        assert c[i] == b[i - |a|];
        if p >= |a| {
          assert c[p] == b[p - |a|];
        }
      }
    }
  }

  lemma NoJumpByCounts(a: seq<Ins>, b: seq<Ins>)
    requires forall l :: DefCount(a, l) == 0 || JumpCount(b, l) == 0
    ensures NoJumpBack(a, b)
  {
    forall p: nat, i: nat | p < |a| && i < |b| && a[p].Label? ensures !LoopHeaders.JumpsTo(b[i], a[p].l) {
      DefCountAt(a, p, a[p].l);
      if LoopHeaders.JumpsTo(b[i], a[p].l) {
        JumpCountAt(b, i, a[p].l);
      }
    }
  }

  lemma ExprNoneBack(e: Expr, i: Ins)
    ensures NoneBack(GenExpr(e) + [i])
  {
    ExprPlain(e);
  }

  lemma OneNoneBack(i: Ins)
    ensures NoneBack([i])
  {
  }

  lemma TestNoneBack(c: Expr, r: nat, ss: Stmts)
    requires NoneBack(GenStmts(ss))
    ensures NoneBack(GenExpr(c) + [Iff(Res(c), r)] + GenStmts(ss))
  {
    ExprNoneBack(c, Iff(Res(c), r));
    ExprPlain(c);
    BackAppend(GenExpr(c) + [Iff(Res(c), r)], GenStmts(ss));
  }

  lemma IfNoneBack(s: Stmt)
    requires s.IfS? && StmtApart(s) && NoneBack(GenStmts(s.els)) && NoneBack(GenStmts(s.thn))
    ensures NoneBack(GenStmt(s))
  {
    var test := GenExpr(s.c) + [Iff(Res(s.c), s.r)] + GenStmts(s.thn);
    TestNoneBack(s.c, s.r, s.thn);
    OneNoneBack(Label(s.r));
    OneNoneBack(Label(s.a2));
    OneNoneBack(Jmp(s.a2));
    if s.els == End {
      assert GenStmt(s) == test + [Label(s.r)];
      assert NoJumpBack(test, [Label(s.r)]);
      hide GenStmt, GenStmts, GenExpr, NoneBack, NoJumpBack;
      BackAppend(test, [Label(s.r)]);
    } else {
      var head, tail := test + [Jmp(s.a2)], [Label(s.r)] + GenStmts(s.els) + [Label(s.a2)];
      assert GenStmt(s) == head + tail;
      IfSeparate(s);
      hide GenStmt, GenStmts, GenExpr, NoneBack, NoJumpBack;
      BackAppend(test, [Jmp(s.a2)]);
      BackAppend([Label(s.r)], GenStmts(s.els));
      BackAppend([Label(s.r)] + GenStmts(s.els), [Label(s.a2)]);
      BackAppend(head, tail);
    }
  }

  lemma IfSeparate(s: Stmt)
    requires s.IfS? && StmtApart(s) && s.els != End
    ensures var test := GenExpr(s.c) + [Iff(Res(s.c), s.r)] + GenStmts(s.thn);
      && NoJumpBack(test, [Jmp(s.a2)]) && NoJumpBack([Label(s.r)], GenStmts(s.els))
      && NoJumpBack([Label(s.r)] + GenStmts(s.els), [Label(s.a2)])
      && NoJumpBack(test + [Jmp(s.a2)], [Label(s.r)] + GenStmts(s.els) + [Label(s.a2)])
  {
    var test := GenExpr(s.c) + [Iff(Res(s.c), s.r)] + GenStmts(s.thn);
    assert StmtsLabels(s.thn) !! StmtsLabels(s.els);
    forall l ensures DefCount(test, l) == 0 || JumpCount([Jmp(s.a2)], l) == 0 {
      TestCounts(s.c, s.r, s.thn, l);
      StmtsCounts(s.thn, l);
      CountOne(Jmp(s.a2), l);
    }
    forall l ensures DefCount([Label(s.r)], l) == 0 || JumpCount(GenStmts(s.els), l) == 0 {
      StmtsCounts(s.els, l);
      CountOne(Label(s.r), l);
    }
    forall l ensures JumpCount([Label(s.a2)], l) == 0 {
      CountOne(Label(s.a2), l);
    }
    forall l ensures DefCount(test + [Jmp(s.a2)], l) == 0 || JumpCount([Label(s.r)] + GenStmts(s.els) + [Label(s.a2)], l) == 0 {
      LoweredJumps.HeadCounts(s, l);
    }
    hide GenStmts, GenExpr, DefCount, JumpCount, StmtsLabels, StmtApart, NoJumpBack;
    NoJumpByCounts(test, [Jmp(s.a2)]);
    NoJumpByCounts([Label(s.r)], GenStmts(s.els));
    NoJumpByCounts([Label(s.r)] + GenStmts(s.els), [Label(s.a2)]);
    NoJumpByCounts(test + [Jmp(s.a2)], [Label(s.r)] + GenStmts(s.els) + [Label(s.a2)]);
  }

  lemma {:induction false} StmtNoneBack(s: Stmt)
    requires StmtApart(s) && LoopFreeStmt(s)
    ensures NoneBack(GenStmt(s))
    decreases s, 1
  {
    match s
    case WriteS(e) => ExprNoneBack(e, Out(Res(e)));
    case AssignS(x, e) => ExprNoneBack(e, Assign(x, Res(e)));
    case ReadS(x) => OneNoneBack(In(x));
    case IfS(c, thn, els, a2, r) =>
      StmtsNoneBack(thn);
      StmtsNoneBack(els);
      hide *;
      IfNoneBack(s);
  }

  lemma {:induction false} StmtsNoneBack(ss: Stmts)
    requires StmtsApart(ss) && LoopFree(ss)
    ensures NoneBack(GenStmts(ss))
    decreases ss, 0
  {
    match ss
    case End =>
    case Chain(s, rest) =>
      StmtNoneBack(s);
      StmtsNoneBack(rest);
      forall l ensures DefCount(GenStmt(s), l) == 0 || JumpCount(GenStmts(rest), l) == 0 {
        StmtCounts(s, l);
        StmtsCounts(rest, l);
      }
      hide GenStmt, NoneBack, NoJumpBack, DefCount, JumpCount, StmtApart, StmtLabels, StmtsLabels;
      NoJumpByCounts(GenStmt(s), GenStmts(rest));
      BackAppend(GenStmt(s), GenStmts(rest));
  }

  /** A lowered program without loops only jumps forward. */
  lemma LoweredForward(ss: Stmts)
    requires StmtsApart(ss) && LabelsInRange(ss) && LoopFree(ss)
    ensures JumpsForward(GenStmts(ss))
  {
    var code := GenStmts(ss);
    LoweredWellFormed(ss);
    StmtsNoneBack(ss);
    hide GenStmts, StmtsApart, DistinctLabels, LoopFree;
    forall p: nat | p < |code| && (code[p].Jmp? || code[p].Iff?)
      ensures FindLabel(code, code[p].target).Some? && FindLabel(code, code[p].target).value > p
    {
      var q := FindLabel(code, code[p].target).value;
      assert LoopHeaders.JumpsTo(code[p], code[q].l);
    }
  }

  // ----- the shape of the instructions -----

  /** Temporary t is computed before instruction p without a jump or a label in between. */
  ghost predicate DefNear(code: seq<Ins>, p: nat, t: nat)
    requires p < |code|
  {
    exists j: nat :: j < p && t in Defs(code[j]) && PlainFrom(code, j, p)
  }

  ghost predicate PlainFrom(code: seq<Ins>, j: nat, p: nat)
    requires p < |code|
  {
    forall i :: j <= i < p ==> !IsControl(code[i])
  }

  /** Instruction p reads temporaries that were computed near, tests the comparison in front of it, and
      computes into none of its operands. */
  ghost predicate WellPlaced(code: seq<Ins>, base: nat, p: nat)
    requires p < |code|
  {
    && (forall t :: t in Uses(code[p]) && t >= base ==> DefNear(code, p, t))
    && (code[p].Iff? ==> p > 0 && Ordering(code[p - 1]) && code[p].c == Sym(code[p - 1].r) && code[p - 1].r >= base)
    && (code[p].Bin? ==> code[p].r !in Uses(code[p]))
    && (Compared(code[p]) ==> p + 1 < |code| && code[p + 1].Iff?)
  }

  ghost predicate AllPlaced(code: seq<Ins>, base: nat) {
    forall p :: 0 <= p < |code| ==> WellPlaced(code, base, p)
  }

  lemma PlacedLater(a: seq<Ins>, b: seq<Ins>, base: nat, p: nat)
    requires p < |b| && WellPlaced(b, base, p)
    ensures WellPlaced(a + b, base, |a| + p)
  {
    var c := a + b;
    assert c[|a| + p] == b[p];
    forall t | t in Uses(b[p]) && t >= base ensures DefNear(c, |a| + p, t) {
      var j: nat :| j < p && t in Defs(b[j]) && PlainFrom(b, j, p);
      assert t in Defs(c[|a| + j]);
      forall i | |a| + j <= i < |a| + p ensures !IsControl(c[i]) {
        assert c[i] == b[i - |a|];
      }
      assert PlainFrom(c, |a| + j, |a| + p);
    }
  }

  lemma PlacedEarlier(a: seq<Ins>, b: seq<Ins>, base: nat, p: nat)
    requires p < |a| && WellPlaced(a, base, p)
    ensures WellPlaced(a + b, base, p)
  {
    var c := a + b;
    forall t | t in Uses(a[p]) && t >= base ensures DefNear(c, p, t) {
      var j: nat :| j < p && t in Defs(a[j]) && PlainFrom(a, j, p);
      assert t in Defs(c[j]);
      assert PlainFrom(c, j, p);
    }
  }

  lemma PlacedAppend(a: seq<Ins>, b: seq<Ins>, base: nat)
    requires AllPlaced(a, base) && AllPlaced(b, base)
    ensures AllPlaced(a + b, base)
  {
    forall p: nat | p < |a + b| ensures WellPlaced(a + b, base, p) {
      if p < |a| {
        assert WellPlaced(a, base, p);
        PlacedEarlier(a, b, base, p);
      } else {
        assert WellPlaced(b, base, p - |a|);
        PlacedLater(a, b, base, p - |a|);
      }
    }
    hide WellPlaced;
  }

  /** The code leaves the value of a in a temporary that its last instruction computes. */
  ghost predicate Leaves(code: seq<Ins>, base: nat, a: Arg) {
    a.Sym? && a.id >= base ==> code != [] && a.id in Defs(Last(code))
  }

  ghost predicate AllPlainIns(code: seq<Ins>) {
    forall k :: 0 <= k < |code| ==> !IsControl(code[k])
  }

  /** One more instruction, which reads results that the code in front of it leaves. */
  lemma PlacedThen(l: seq<Ins>, r: seq<Ins>, i: Ins, base: nat, a: Arg, b: Arg)
    requires AllPlaced(l, base) && AllPlaced(r, base) && AllPlainIns(l) && AllPlainIns(r)
    requires Leaves(l, base, a) && Leaves(r, base, b) && Uses(i) <= ArgSyms(a) + ArgSyms(b)
    requires !i.Iff? && (i.Bin? ==> i.r !in Uses(i)) && !Compared(i)
    ensures AllPlaced(l + r + [i], base)
  {
    PlacedAppend(l, r, base);
    ReadsNear(l, r, i, base, a, b);
    var c := l + r + [i];
    forall p: nat | p < |c| ensures WellPlaced(c, base, p) {
      if p < |l + r| {
        assert WellPlaced(l + r, base, p);
        PlacedEarlier(l + r, [i], base, p);
      }
    }
  }

  lemma ReadsNear(l: seq<Ins>, r: seq<Ins>, i: Ins, base: nat, a: Arg, b: Arg)
    requires AllPlainIns(l) && AllPlainIns(r)
    requires Leaves(l, base, a) && Leaves(r, base, b) && Uses(i) <= ArgSyms(a) + ArgSyms(b)
    ensures forall t :: t in Uses(i) && t >= base ==> DefNear(l + r + [i], |l + r|, t)
  {
    var c := l + r + [i];
    forall t | t in Uses(i) && t >= base ensures DefNear(c, |l + r|, t) {
      var j: nat := if t in ArgSyms(a) then |l| - 1 else |l + r| - 1;
      assert c[j] == if t in ArgSyms(a) then Last(l) else Last(r);
      forall k | j <= k < |l + r| ensures !IsControl(c[k]) {
        assert c[k] == if k < |l| then l[k] else r[k - |l|];
      }
      assert t in Defs(c[j]) && PlainFrom(c, j, |l + r|);
    }
  }

  lemma {:induction false} ExprPlaced(e: Expr, temps: Temps, base: nat)
    requires Calculates(e) && ExprOk(e, temps, base)
    ensures AllPlaced(GenExpr(e), base) && AllPlainIns(GenExpr(e)) && Leaves(GenExpr(e), base, Res(e))
  {
    match e
    case Biop(op, l, r, t) =>
      ExprPlaced(l, temps, base);
      ExprPlaced(r, temps, base);
      OtherTemp(l, temps, base, t, e);
      OtherTemp(r, temps, base, t, e);
      BiopCode(e);
      hide GenExpr, AllPlaced, Res;
      PlacedThen(GenExpr(l), GenExpr(r), Bin(op, t, Res(l), Res(r)), base, Res(l), Res(r));
    case Uop(a, t) =>
      ExprPlaced(a, temps, base);
      OtherTemp(a, temps, base, t, e);
      var i := Bin(Mul, t, Res(a), Const(-1));
      assert GenExpr(e) == GenExpr(a) + [] + [i];
      assert AllPlaced([], base);
      hide GenExpr, AllPlaced, Res;
      PlacedThen(GenExpr(a), [], i, base, Res(a), Const(0));
    case _ =>
  }

  /** An operand is not the temporary of the expression it belongs to. */
  lemma OtherTemp(l: Expr, temps: Temps, base: nat, t: nat, e: Expr)
    requires ExprOk(l, temps, base) && base <= t && t in temps && temps[t] == e && l != e
    ensures Res(l) != Sym(t)
  {
  }

  /** An expression and an instruction that reads its value. */
  lemma ExprThen(e: Expr, i: Ins, temps: Temps, base: nat)
    requires Calculates(e) && ExprOk(e, temps, base) && Uses(i) <= ArgSyms(Res(e)) && !i.Iff? && !i.Bin?
    ensures AllPlaced(GenExpr(e) + [i], base)
  {
    ExprPlaced(e, temps, base);
    assert GenExpr(e) + [i] == GenExpr(e) + [] + [i];
    assert AllPlaced([], base);
    hide GenExpr, AllPlaced, Res;
    PlacedThen(GenExpr(e), [], i, base, Res(e), Const(0));
  }

  lemma OnePlaced(i: Ins, base: nat)
    requires Uses(i) == {} && !i.Iff? && !i.Bin?
    ensures AllPlaced([i], base)
  {
  }

  /** A condition and its test. */
  lemma CondPlaced(c: Expr, r: nat, temps: Temps, base: nat)
    requires Orders(c) && ExprOk(c, temps, base)
    ensures AllPlaced(GenExpr(c) + [Iff(Res(c), r)], base)
  {
    var L, R := GenExpr(c.l), GenExpr(c.r);
    var cmp, test := Bin(c.op, c.t, Res(c.l), Res(c.r)), Iff(Sym(c.t), r);
    ExprPlaced(c.l, temps, base);
    ExprPlaced(c.r, temps, base);
    OtherTemp(c.l, temps, base, c.t, c);
    OtherTemp(c.r, temps, base, c.t, c);
    BiopCode(c);
    assert base <= c.t;
    ReadsNear(L, R, cmp, base, Res(c.l), Res(c.r));
    hide GenExpr;
    PlacedAppend(L, R, base);
    var code := L + R + [cmp] + [test];
    assert GenExpr(c) + [Iff(Res(c), r)] == code;
    CondAt(L + R, cmp, test, base);
  }

  lemma CondAt(front: seq<Ins>, cmp: Ins, test: Ins, base: nat)
    requires AllPlaced(front, base) && Ordering(cmp) && test.Iff? && test.c == Sym(cmp.r) && cmp.r >= base && cmp.r !in Uses(cmp)
    requires forall t :: t in Uses(cmp) && t >= base ==> DefNear(front + [cmp], |front|, t)
    ensures AllPlaced(front + [cmp] + [test], base)
  {
    var c := front + [cmp] + [test];
    var n := |front|;
    forall p: nat | p < |c| ensures WellPlaced(c, base, p) {
      if p < n {
        assert WellPlaced(front, base, p);
        PlacedEarlier(front, [cmp, test], base, p);
        assert front + [cmp, test] == c;
      } else if p == n {
        forall t | t in Uses(cmp) && t >= base ensures DefNear(c, n, t) {
          var j: nat :| j < n && t in Defs((front + [cmp])[j]) && PlainFrom(front + [cmp], j, n);
          assert (front + [cmp])[j] == c[j];
          assert forall i :: j <= i < n ==> (front + [cmp])[i] == c[i];
          assert PlainFrom(c, j, n);
        }
        assert c[n] == cmp && c[n + 1] == test;
      } else {
        assert c[p] == test && c[p - 1] == cmp;
        assert cmp.r in Defs(c[n]) && PlainFrom(c, n, p);
        assert DefNear(c, p, cmp.r);
      }
    }
  }

  lemma {:induction false} StmtPlaced(s: Stmt, temps: Temps, base: nat)
    requires OrderedStmt(s) && StmtOk(s, temps, base)
    ensures AllPlaced(GenStmt(s), base)
    decreases s, 1
  {
    match s
    case WriteS(e) => ExprThen(e, Out(Res(e)), temps, base);
    case AssignS(x, e) => ExprThen(e, Assign(x, Res(e)), temps, base);
    case ReadS(x) => OnePlaced(In(x), base);
    case IfS(c, thn, els, a2, r) =>
      StmtsPlaced(thn, temps, base);
      StmtsPlaced(els, temps, base);
      CondPlaced(c, r, temps, base);
      hide *;
      IfPlaced(s, base);
    case WhileS(c, body, a2, r) =>
      StmtsPlaced(body, temps, base);
      CondPlaced(c, r, temps, base);
      hide *;
      WhilePlaced(s, base);
  }

  lemma ControlPlaced(l: nat, base: nat)
    ensures AllPlaced([Label(l)], base) && AllPlaced([Jmp(l)], base)
  {
    OnePlaced(Label(l), base);
    OnePlaced(Jmp(l), base);
  }

  lemma IfPlaced(s: Stmt, base: nat)
    requires s.IfS? && AllPlaced(GenStmts(s.thn), base) && AllPlaced(GenStmts(s.els), base)
    requires AllPlaced(GenExpr(s.c) + [Iff(Res(s.c), s.r)], base)
    ensures AllPlaced(GenStmt(s), base)
  {
    var cond := GenExpr(s.c) + [Iff(Res(s.c), s.r)];
    var thn, els := GenStmts(s.thn), GenStmts(s.els);
    ControlPlaced(s.r, base);
    ControlPlaced(s.a2, base);
    assert GenStmt(s) == if s.els == End then cond + thn + [Label(s.r)]
      else cond + thn + [Jmp(s.a2)] + ([Label(s.r)] + els + [Label(s.a2)]);
    hide GenStmt, GenStmts, GenExpr, AllPlaced;
    PlacedAppend(cond, thn, base);
    PlacedAppend(cond + thn, [Label(s.r)], base);
    PlacedAppend(cond + thn, [Jmp(s.a2)], base);
    PlacedAppend([Label(s.r)], els, base);
    PlacedAppend([Label(s.r)] + els, [Label(s.a2)], base);
    PlacedAppend(cond + thn + [Jmp(s.a2)], [Label(s.r)] + els + [Label(s.a2)], base);
  }

  lemma WhilePlaced(s: Stmt, base: nat)
    requires s.WhileS? && AllPlaced(GenStmts(s.body), base)
    requires AllPlaced(GenExpr(s.c) + [Iff(Res(s.c), s.r)], base)
    ensures AllPlaced(GenStmt(s), base)
  {
    var cond, body := GenExpr(s.c) + [Iff(Res(s.c), s.r)], GenStmts(s.body);
    ControlPlaced(s.r, base);
    ControlPlaced(s.a2, base);
    assert GenStmt(s) == [Label(s.a2)] + (cond + body) + [Jmp(s.a2)] + [Label(s.r)];
    hide GenStmt, GenStmts, GenExpr, AllPlaced;
    PlacedAppend(cond, body, base);
    PlacedAppend([Label(s.a2)], cond + body, base);
    PlacedAppend([Label(s.a2)] + (cond + body), [Jmp(s.a2)], base);
    PlacedAppend([Label(s.a2)] + (cond + body) + [Jmp(s.a2)], [Label(s.r)], base);
  }

  /** In lowered code every instruction is well placed. */
  lemma {:induction false} StmtsPlaced(ss: Stmts, temps: Temps, base: nat)
    requires Ordered(ss) && StmtsOk(ss, temps, base)
    ensures AllPlaced(GenStmts(ss), base)
    decreases ss, 0
  {
    match ss
    case End =>
    case Chain(s, rest) =>
      StmtPlaced(s, temps, base);
      StmtsPlaced(rest, temps, base);
      hide GenStmt, AllPlaced;
      PlacedAppend(GenStmt(s), GenStmts(rest), base);
  }
}
