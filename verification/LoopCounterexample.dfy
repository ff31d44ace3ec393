/** A program whose loop reads a symbol at its top that was written before the loop:

      x := 1; read n;
      while n > 0 do begin write x; y := 5; write y; n := n - 1 end

    The interval of x ends inside the loop, and its register is given away there. */
module LoopCounterexample {
  import opened Options
  import opened ThreeAddress
  import opened Ast
  import opened Lowering
  import opened TreeBuilder
  import opened Frontend
  import opened Intervals
  import opened Allocation
  import opened RegisterAllocation
  import opened LoopAllocation
  import LinearScan

  // ----- the program -----

  /** The body of the loop; u is the temporary of the subtraction. */
  function Body(u: nat): Stmts {
    Chain(WriteS(Id(0)), Chain(AssignS(2, Num(5)), Chain(WriteS(Id(2)),
      Chain(AssignS(1, Biop(Sub, Id(1), Num(1), u)), End))))
  }

  /** x, n and y are symbols 0, 1 and 2. */
  function Tree(t: nat, u: nat, top: nat, out: nat): Stmts {
    Chain(AssignS(0, Num(1)), Chain(ReadS(1),
      Chain(WhileS(Biop(Gt, Id(1), Num(0), t), Body(u), top, out), End)))
  }

  /** The code, whatever locations x, n, y and the temporaries t and u have. */
  function Code(x: nat, n: nat, t: nat, y: nat, u: nat): seq<Ins> {
    [Assign(x, Const(1)), In(n),
     Label(1), Bin(Gt, t, Sym(n), Const(0)), Iff(Sym(t), 2),
     Out(Sym(x)), Assign(y, Const(5)), Out(Sym(y)), Bin(Sub, u, Sym(n), Const(1)), Assign(n, Sym(u)),
     Jmp(1), Label(2)]
  }

  function Source(): seq<Ins> {
    Code(0, 1, 3, 2, 4)
  }

  lemma BodyCode()
    ensures GenStmts(Body(4))
         == [Out(Sym(0)), Assign(2, Const(5)), Out(Sym(2)), Bin(Sub, 4, Sym(1), Const(1)), Assign(1, Sym(4))]
  {
    var a, b, c, d := WriteS(Id(0)), AssignS(2, Num(5)), WriteS(Id(2)), AssignS(1, Biop(Sub, Id(1), Num(1), 4));
    assert GenStmt(d) == [Bin(Sub, 4, Sym(1), Const(1)), Assign(1, Sym(4))];
    assert GenStmts(Chain(d, End)) == GenStmt(d);
    assert GenStmts(Chain(c, Chain(d, End))) == [Out(Sym(2))] + GenStmt(d);
    assert GenStmts(Chain(b, Chain(c, Chain(d, End)))) == [Assign(2, Const(5))] + ([Out(Sym(2))] + GenStmt(d));
  }

  /** The code is what lowering makes of the tree. */
  lemma TreeCode()
    ensures GenStmts(Tree(3, 4, 1, 2)) == Source()
  {
    BodyCode();
    var c := Biop(Gt, Id(1), Num(0), 3);
    var w := WhileS(c, Body(4), 1, 2);
    assert GenExpr(c) == [Bin(Gt, 3, Sym(1), Const(0))];
    assert GenStmt(w) == [Label(1)] + (GenExpr(c) + [Iff(Sym(3), 2)] + GenStmts(Body(4))) + [Jmp(1)] + [Label(2)];
    assert GenStmts(Chain(w, End)) == GenStmt(w);
    assert GenStmts(Chain(ReadS(1), Chain(w, End))) == [In(1)] + GenStmt(w);
    assert GenStmt(AssignS(0, Num(1))) == [Assign(0, Const(1))];
  }

  /** And the tree is what the parser builds of the program: the annotations of what it is given do not matter. */
  lemma TreeBuilt(t: nat, u: nat, top: nat, out: nat)
    ensures Compiles(Tree(t, u, top, out), 3, Tree(3, 4, 1, 2))
  {
    TreeScoped(t, u, top, out);
    hide StmtsScoped;
    var s0 := Empty(3);
    var c, d := Biop(Gt, Id(1), Num(0), 3), Biop(Sub, Id(1), Num(1), 4);
    var s1 := Supply(4, 0, map[], map[3 := c], 0);
    var s2 := Supply(5, 0, map[], map[3 := c, 4 := d], 0);
    var s3 := s2.(labels := 2);
    assert BuildExpr(s0, Biop(Gt, Id(1), Num(0), t)) == Some((s1, c));
    assert BuildExpr(s1, Biop(Sub, Id(1), Num(1), u)) == Some((s2, d));
    assert BuildStmts(s1, Body(u)) == Some((s2, Body(4))) by {
      BodyBuilt(s1, s2, u);
    }
    var w, w' := WhileS(Biop(Gt, Id(1), Num(0), t), Body(u), top, out), WhileS(c, Body(4), 1, 2);
    assert BuildStmt(s0, w) == Some((s3, Chain(w', End)));
    assert BuildStmts(s0, Chain(w, End)) == Some((s3, Chain(w', End)));
    assert BuildStmts(s0, Chain(ReadS(1), Chain(w, End))) == Some((s3, Chain(ReadS(1), Chain(w', End))));
    assert BuildStmt(s0, AssignS(0, Num(1))) == Some((s0, Chain(AssignS(0, Num(1)), End)));
  }

  lemma TreeScoped(t: nat, u: nat, top: nat, out: nat)
    ensures StmtsScoped(Tree(t, u, top, out), 3)
  {
    var b, d := Body(u), AssignS(1, Biop(Sub, Id(1), Num(1), u));
    assert ExprScoped(d.e, 3) && StmtScoped(d, 3);
    assert StmtsScoped(Chain(d, End), 3);
    assert StmtsScoped(b.sibling.sibling, 3);
    assert StmtsScoped(b.sibling, 3);
    assert StmtsScoped(b, 3);
    assert ExprScoped(Biop(Gt, Id(1), Num(0), t), 3);
    assert StmtScoped(WhileS(Biop(Gt, Id(1), Num(0), t), b, top, out), 3);
    assert StmtsScoped(Tree(t, u, top, out).sibling, 3);
  }

  lemma BodyBuilt(s1: Supply, s2: Supply, u: nat)
    requires BuildExpr(s1, Biop(Sub, Id(1), Num(1), u)) == Some((s2, Biop(Sub, Id(1), Num(1), 4)))
    ensures BuildStmts(s1, Body(u)) == Some((s2, Body(4)))
  {
    hide BuildExpr;
    assert BuildExpr(s1, Id(0)) == Some((s1, Id(0))) && BuildExpr(s1, Num(5)) == Some((s1, Num(5)))
        && BuildExpr(s1, Id(2)) == Some((s1, Id(2))) by { LeavesBuilt(s1); }
    var b, d, d' := Body(u), AssignS(1, Biop(Sub, Id(1), Num(1), u)), AssignS(1, Biop(Sub, Id(1), Num(1), 4));
    assert BuildStmts(s1, Chain(d, End)) == Some((s2, Chain(d', End)));
    assert BuildStmts(s1, Chain(WriteS(Id(2)), Chain(d, End))) == Some((s2, Chain(WriteS(Id(2)), Chain(d', End))));
    assert BuildStmts(s1, b.sibling) == Some((s2, Body(4).sibling));
  }

  lemma LeavesBuilt(s: Supply)
    ensures forall x :: BuildExpr(s, Id(x)) == Some((s, Id(x)))
    ensures forall v :: BuildExpr(s, Num(v)) == Some((s, Num(v)))
  {
  }

  // ----- its intervals -----

  /** The first write of v is instruction d, counted from one. */
  lemma FirstIs(code: seq<Ins>, v: nat, d: nat)
    requires 0 < d <= |code| && v in Defs(code[d - 1]) && forall j :: 0 <= j < d - 1 ==> v !in Defs(code[j])
    ensures FirstOf(code, v) == d
  {
  }

  /** And e the last one in which v occurs. */
  lemma LastIs(code: seq<Ins>, v: nat, e: nat)
    requires 0 < e <= |code| && Occurrences(code[e - 1], v) > 0 && forall j :: e <= j < |code| ==> Occurrences(code[j], v) == 0
    ensures LastOf(code, v) == e
  {
  }

  function Table(): seq<nat> {
    [0, 1, 3, 2, 4]
  }

  lemma ResultOccurs(r: nat, a: Arg)
    ensures Occurrences(Assign(r, a), r) > 0 && forall l :: Occurrences(Jmp(l), r) == 0 && Occurrences(Label(l), r) == 0
  {
  }

  lemma FirstOfX()
    ensures FirstOf(Source(), 0) == 1
  {
    FirstIs(Source(), 0, 1);
    hide FirstOf;
  }

  lemma LastOfX()
    ensures LastOf(Source(), 0) == 6
  {
    LastIs(Source(), 0, 6);
    hide LastOf;
  }

  lemma FirstOfN()
    ensures FirstOf(Source(), 1) == 2
  {
    FirstIs(Source(), 1, 2);
    hide FirstOf;
  }

  lemma SourceEnd()
    ensures |Source()| == 12 && Source()[9] == Assign(1, Sym(4)) && Source()[10] == Jmp(1) && Source()[11] == Label(2)
  {
  }

  lemma LastOfN()
    ensures LastOf(Source(), 1) == 10
  {
    var code := Source();
    SourceEnd();
    hide *;
    ResultOccurs(1, Sym(4));
    forall j | 10 <= j < |code| ensures Occurrences(code[j], 1) == 0 {
      assert j == 10 || j == 11;
    }
    LastIs(code, 1, 10);
  }

  lemma FirstOfTest()
    ensures FirstOf(Source(), 3) == 4
  {
    FirstIs(Source(), 3, 4);
    hide FirstOf;
  }

  lemma LastOfTest()
    ensures LastOf(Source(), 3) == 5
  {
    LastIs(Source(), 3, 5);
    hide LastOf;
  }

  lemma FirstOfY()
    ensures FirstOf(Source(), 2) == 7
  {
    FirstIs(Source(), 2, 7);
    hide FirstOf;
  }

  lemma LastOfY()
    ensures LastOf(Source(), 2) == 8
  {
    LastIs(Source(), 2, 8);
    hide LastOf;
  }

  lemma FirstOfDifference()
    ensures FirstOf(Source(), 4) == 9
  {
    FirstIs(Source(), 4, 9);
    hide FirstOf;
  }

  lemma LastOfDifference()
    ensures LastOf(Source(), 4) == 10
  {
    LastIs(Source(), 4, 10);
    hide LastOf;
  }

  lemma SourceIntervals()
    ensures Spans(Source(), Table()) == Places()
  {
    hide FirstOf, LastOf, Source;
    FirstOfX();
    LastOfX();
    FirstOfN();
    LastOfN();
    FirstOfTest();
    LastOfTest();
    FirstOfY();
    LastOfY();
    FirstOfDifference();
    LastOfDifference();
  }

  lemma SourceOrder(i: nat)
    requires i < 5
    ensures FirstOf(Source(), Table()[i]) == Places()[i].start
  {
    SourceIntervals();
    assert Spans(Source(), Table())[i].start == Places()[i].start;
    hide FirstOf, LastOf, Source, Places;
  }

  lemma SourceListed()
    ensures Listed(Source(), Table())
  {
    forall p, v: nat | 0 <= p < |Source()| && Occurrences(Source()[p], v) > 0 ensures v in Table() {
      SourceSymbols(p, v);
    }
    hide Source, FirstOf, Occurrences;
    forall i, j | 0 <= i < j < |Table()|
      ensures Table()[i] != Table()[j] && FirstOf(Source(), Table()[i]) <= FirstOf(Source(), Table()[j])
    {
      SourceOrder(i);
      SourceOrder(j);
    }
  }

  lemma SourceSymbols(p: nat, v: nat)
    requires p < |Source()| && Occurrences(Source()[p], v) > 0
    ensures v in Table()
  {
    assert Table()[0] == 0 && Table()[1] == 1 && Table()[2] == 3 && Table()[3] == 2 && Table()[4] == 4;
  }

  // ----- its locations -----

  lemma {:induction false} Ended(ivs: seq<LinearScan.Interval>, active: seq<nat>, at: nat, j: nat, e: nat)
    requires LinearScan.Indices(ivs, active) && j <= e <= |active|
    requires forall i :: j <= i < e ==> ivs[active[i]].end < at
    requires e < |active| ==> at <= ivs[active[e]].end
    ensures LinearScan.EndedBefore(ivs, active, at, j) == e
    decreases e - j
  {
    if j < e {
      Ended(ivs, active, at, j + 1, e);
    }
  }

  lemma {:induction false} Inserted(ivs: seq<LinearScan.Interval>, active: seq<nat>, n: nat, j: nat, p: nat)
    requires n < |ivs| && LinearScan.Indices(ivs, active) && j <= p <= |active|
    requires forall i :: j <= i < p ==> ivs[active[i]].end <= ivs[n].end
    requires p < |active| ==> ivs[n].end < ivs[active[p]].end
    ensures LinearScan.InsertAt(ivs, active, n, j) == p
    decreases p - j
  {
    if j < p {
      Inserted(ivs, active, n, j + 1, p);
    }
  }

  /** A step of the scan that finds a register free: e intervals have ended, n goes to place p. */
  lemma StepTo(ivs: seq<LinearScan.Interval>, s: LinearScan.Alloc, n: nat, e: nat, p: nat, r: LinearScan.Alloc)
    requires |s.reg| == |ivs| && LinearScan.Indices(ivs, s.active) && n < |ivs| && |s.free| + |s.active| > 0
    requires e <= |s.active| && LinearScan.EndedBefore(ivs, s.active, ivs[n].start, 0) == e
    requires p <= |s.active[e..]| && LinearScan.InsertAt(ivs, s.active[e..], n, 0) == p
    requires var free := s.free + LinearScan.Held(s.reg, s.active[..e]);
      && free != []
      && r == LinearScan.Alloc(s.reg[n := free[|free| - 1]], s.active[e..][..p] + [n] + s.active[e..][p..], free[..|free| - 1])
    ensures LinearScan.Step(ivs, s, n) == r
  {
    hide LinearScan.EndedBefore, LinearScan.InsertAt, LinearScan.Held;
  }

  function Places(): seq<LinearScan.Interval> {
    [LinearScan.Interval(1, 6), LinearScan.Interval(2, 10), LinearScan.Interval(4, 5), LinearScan.Interval(7, 8), LinearScan.Interval(9, 10)]
  }

  /** The scan after k intervals: x, n and the test take the three registers; by then the test and x
      have ended, and y takes the register of x. */
  function After(k: nat): LinearScan.Alloc {
    if k == 0 then LinearScan.Alloc([0, 0, 0, 0, 0], [], [2, 1, 0])
    else if k == 1 then LinearScan.Alloc([0, 0, 0, 0, 0], [0], [2, 1])
    else if k == 2 then LinearScan.Alloc([0, 1, 0, 0, 0], [0, 1], [2])
    else if k == 3 then LinearScan.Alloc([0, 1, 2, 0, 0], [2, 0, 1], [])
    else if k == 4 then LinearScan.Alloc([0, 1, 2, 0, 0], [3, 1], [2])
    else LinearScan.Alloc([0, 1, 2, 0, 0], [1, 4], [2])
  }

  lemma Step0()
    ensures LinearScan.Indices(Places(), After(0).active) && LinearScan.Step(Places(), After(0), 0) == After(1)
  {
    Ended(Places(), After(0).active, Places()[0].start, 0, 0);
    Inserted(Places(), After(0).active[0..], 0, 0, 0);
    hide LinearScan.Step;
    StepTo(Places(), After(0), 0, 0, 0, After(1));
  }

  lemma Step1()
    ensures LinearScan.Indices(Places(), After(1).active) && LinearScan.Step(Places(), After(1), 1) == After(2)
  {
    Ended(Places(), After(1).active, Places()[1].start, 0, 0);
    Inserted(Places(), After(1).active[0..], 1, 0, 1);
    hide LinearScan.Step;
    StepTo(Places(), After(1), 1, 0, 1, After(2));
  }

  lemma Step2()
    ensures LinearScan.Indices(Places(), After(2).active) && LinearScan.Step(Places(), After(2), 2) == After(3)
  {
    Ended(Places(), After(2).active, Places()[2].start, 0, 0);
    Inserted(Places(), After(2).active[0..], 2, 0, 0);
    hide LinearScan.Step;
    StepTo(Places(), After(2), 2, 0, 0, After(3));
  }

  lemma Step3()
    ensures LinearScan.Indices(Places(), After(3).active) && LinearScan.Step(Places(), After(3), 3) == After(4)
  {
    Ended(Places(), After(3).active, Places()[3].start, 0, 2);
    Inserted(Places(), After(3).active[2..], 3, 0, 0);
    hide LinearScan.Step;
    StepTo(Places(), After(3), 3, 2, 0, After(4));
  }

  lemma Step4()
    ensures LinearScan.Indices(Places(), After(4).active) && LinearScan.Step(Places(), After(4), 4) == After(5)
  {
    Ended(Places(), After(4).active, Places()[4].start, 0, 1);
    Inserted(Places(), After(4).active[1..], 4, 0, 1);
    hide LinearScan.Step;
    StepTo(Places(), After(4), 4, 1, 1, After(5));
  }

  lemma ScanStart()
    ensures LinearScan.Scan(Places(), 3, 0) == After(0)
  {
  }

  lemma Scanned()
    ensures LinearScan.Scan(Places(), 3, 5) == After(5)
  {
    ScanStart();
    Step0();
    Step1();
    Step2();
    Step3();
    Step4();
    LinearScan.ScanStep(Places(), 3, 0);
    LinearScan.ScanStep(Places(), 3, 1);
    LinearScan.ScanStep(Places(), 3, 2);
    LinearScan.ScanStep(Places(), 3, 3);
    LinearScan.ScanStep(Places(), 3, 4);
    hide LinearScan.Scan, LinearScan.Step, After, LinearScan.Indices;
  }

  // ----- its runs -----

  /** One more step. */
  lemma RunStep(code: seq<Ins>, c: Config, d: Config, k: nat)
    requires Next(code, c) == Some(d)
    ensures Run(code, c, k + 1) == Run(code, d, k)
  {
  }

  function Here(pc: nat, e: Env, input: seq<int>, output: seq<int>): Config {
    Config(pc, State(e, input, output))
  }

  lemma TopFound(code: seq<Ins>)
    requires |code| == 12 && code[2] == Label(1) && code[0] != Label(1) && code[1] != Label(1)
    ensures FindLabel(code, 1) == Some(2)
  {
    assert code[2] == Label(1);
    var p := FindLabel(code, 1).value;
    assert p == 2 || p >= 3;
    assert code[1..][1..] == code[2..];
    assert FindLabel(code[2..], 1) == Some(0);
    assert FindLabel(code[1..], 1) == Some(1);
  }

  /** The environment in which the loop is entered, with the input 3. */
  function Entry(x: nat, n: nat, t: nat): Env {
    map[][x := 1][n := 3][t := 1]
  }

  /** From the start into the loop, to the write of x. */
  lemma Enters(x: nat, n: nat, t: nat, y: nat, u: nat, k: nat)
    requires x != n && n != t && x != t
    ensures Run(Code(x, n, t, y, u), Start([3]), k + 5) == Run(Code(x, n, t, y, u), Here(5, Entry(x, n, t), [], []), k)
  {
    var code, e := Code(x, n, t, y, u), Entry(x, n, t);
    var e1: Env := map[][x := 1];
    var e2 := e1[n := 3];
    assert [3][0] == 3 && [3][1..] == [];
    assert Next(code, Start([3])) == Some(Here(1, e1, [3], []));
    assert Next(code, Here(1, e1, [3], [])) == Some(Here(2, e2, [], []));
    assert Next(code, Here(2, e2, [], [])) == Some(Here(3, e2, [], []));
    assert Next(code, Here(3, e2, [], [])) == Some(Here(4, e, [], []));
    assert Next(code, Here(4, e, [], [])) == Some(Here(5, e, [], []));
    hide *;
    RunStep(code, Start([3]), Here(1, e1, [3], []), k + 4);
    RunStep(code, Here(1, e1, [3], []), Here(2, e2, [], []), k + 3);
    RunStep(code, Here(2, e2, [], []), Here(3, e2, [], []), k + 2);
    RunStep(code, Here(3, e2, [], []), Here(4, e, [], []), k + 1);
    RunStep(code, Here(4, e, [], []), Here(5, e, [], []), k);
  }

  /** The body writes y, then the difference, then n. */
  function Subtracted(e: Env, n: nat, y: nat, u: nat): Env {
    var f := e[y := 5];
    f[u := Get(f, n) - 1]
  }

  function Counted(e: Env, n: nat, y: nat, u: nat): Env {
    Subtracted(e, n, y, u)[n := Get(Subtracted(e, n, y, u), u)]
  }

  /** From one write of x to the subtraction. */
  lemma BodyWrites(x: nat, n: nat, t: nat, y: nat, u: nat, e: Env, o: seq<int>, k: nat)
    ensures Run(Code(x, n, t, y, u), Here(5, e, [], o), k + 3)
         == Run(Code(x, n, t, y, u), Here(8, e[y := 5], [], o + [Get(e, x)] + [5]), k)
  {
    var code, f := Code(x, n, t, y, u), e[y := 5];
    var o1, o2 := o + [Get(e, x)], o + [Get(e, x)] + [5];
    assert Next(code, Here(5, e, [], o)) == Some(Here(6, e, [], o1));
    assert Next(code, Here(6, e, [], o1)) == Some(Here(7, f, [], o1));
    assert Next(code, Here(7, f, [], o1)) == Some(Here(8, f, [], o2));
    hide *;
    RunStep(code, Here(5, e, [], o), Here(6, e, [], o1), k + 2);
    RunStep(code, Here(6, e, [], o1), Here(7, f, [], o1), k + 1);
    RunStep(code, Here(7, f, [], o1), Here(8, f, [], o2), k);
  }

  lemma GoesBack(x: nat, n: nat, t: nat, y: nat, u: nat, g: Env, o: seq<int>)
    ensures Next(Code(x, n, t, y, u), Here(10, g, [], o)) == Some(Here(2, g, [], o))
  {
    TopFound(Code(x, n, t, y, u));
    hide FindLabel;
  }

  /** From the subtraction back to the top. */
  lemma BodyCounts(x: nat, n: nat, t: nat, y: nat, u: nat, e: Env, o: seq<int>, k: nat)
    ensures Run(Code(x, n, t, y, u), Here(8, e[y := 5], [], o), k + 3)
         == Run(Code(x, n, t, y, u), Here(2, Counted(e, n, y, u), [], o), k)
  {
    var code, f, d, g := Code(x, n, t, y, u), e[y := 5], Subtracted(e, n, y, u), Counted(e, n, y, u);
    assert Next(code, Here(8, f, [], o)) == Some(Here(9, d, [], o));
    assert Next(code, Here(9, d, [], o)) == Some(Here(10, g, [], o));
    hide *;
    GoesBack(x, n, t, y, u, g, o);
    RunStep(code, Here(8, f, [], o), Here(9, d, [], o), k + 2);
    RunStep(code, Here(9, d, [], o), Here(10, g, [], o), k + 1);
    RunStep(code, Here(10, g, [], o), Here(2, g, [], o), k);
  }

  /** And from the top of the loop behind the next write of x. */
  lemma NextWrite(x: nat, n: nat, t: nat, y: nat, u: nat, g: Env, o: seq<int>)
    requires Get(g, n) > 0
    ensures Run(Code(x, n, t, y, u), Here(2, g, [], o), 4) == Some(Here(6, g[t := 1], [], o + [Get(g[t := 1], x)]))
  {
    var code, h := Code(x, n, t, y, u), g[t := 1];
    assert Next(code, Here(2, g, [], o)) == Some(Here(3, g, [], o));
    assert Next(code, Here(3, g, [], o)) == Some(Here(4, h, [], o));
    assert Next(code, Here(4, h, [], o)) == Some(Here(5, h, [], o));
    assert Next(code, Here(5, h, [], o)) == Some(Here(6, h, [], o + [Get(h, x)]));
    assert Run(code, Here(6, h, [], o + [Get(h, x)]), 0) == Some(Here(6, h, [], o + [Get(h, x)]));
    hide *;
    RunStep(code, Here(2, g, [], o), Here(3, g, [], o), 3);
    RunStep(code, Here(3, g, [], o), Here(4, h, [], o), 2);
    RunStep(code, Here(4, h, [], o), Here(5, h, [], o), 1);
    RunStep(code, Here(5, h, [], o), Here(6, h, [], o + [Get(h, x)]), 0);
  }

  lemma Prints(x: nat, n: nat, t: nat, y: nat, u: nat, v: int)
    requires x != n && n != t && x != t
    requires var g := Counted(Entry(x, n, t), n, y, u); Get(g, n) > 0 && Get(g[t := 1], x) == v
    ensures Run(Code(x, n, t, y, u), Start([3]), 15).Some?
    ensures Run(Code(x, n, t, y, u), Start([3]), 15).value.st.output == [1, 5, v]
  {
    var e := Entry(x, n, t);
    var g := Counted(e, n, y, u);
    assert Get(e, x) == 1;
    assert [] + [1] + [5] + [v] == [1, 5, v];
    hide *;
    Enters(x, n, t, y, u, 10);
    BodyWrites(x, n, t, y, u, e, [], 7);
    BodyCounts(x, n, t, y, u, e, [] + [1] + [5], 4);
    NextWrite(x, n, t, y, u, g, [] + [1] + [5]);
    OutputOf(6, g[t := 1], [] + [1] + [5] + [v]);
  }

  lemma OutputOf(pc: nat, e: Env, o: seq<int>)
    ensures Here(pc, e, [], o).st.output == o
  {
  }

  /** On the input 3 the program on symbols prints 1, 5, 1. */
  lemma SourcePrints()
    ensures Run(Source(), Start([3]), 15).Some? && Run(Source(), Start([3]), 15).value.st.output == [1, 5, 1]
  {
    var g := Counted(Entry(0, 1, 3), 1, 2, 4);
    assert Get(g, 1) == 2 && Get(g[3 := 1], 0) == 1;
    hide *;
    Prints(0, 1, 3, 2, 4, 1);
    SourceIs();
  }

  /** On the locations that the scan chose it prints 1, 5, 2: the difference overwrites x. */
  lemma AllocatedPrints()
    ensures Run(Code(0, 1, 2, 0, 0), Start([3]), 15).Some? && Run(Code(0, 1, 2, 0, 0), Start([3]), 15).value.st.output == [1, 5, 2]
  {
    var g := Counted(Entry(0, 1, 2), 1, 0, 0);
    assert Get(g, 1) == 2 && Get(g[2 := 1], 0) == 2;
    hide *;
    Prints(0, 1, 2, 0, 0, 2);
  }

  lemma SourceIs()
    ensures Source() == Code(0, 1, 3, 2, 4)
  {
  }

  // ----- what goes wrong -----

  lemma LocationsAre(reg: seq<int>)
    requires reg == [0, 1, 2, 0, 0]
    ensures var loc := LocationsOf(Table(), reg, 3);
      && At(loc, 0) == 0 && At(loc, 1) == 1 && At(loc, 3) == 2
      && At(loc, 2) == 0 && At(loc, 4) == 0
  {
    assert IndexOf(Table(), 0) == 0;
    assert IndexOf(Table(), 1) == 1;
    assert IndexOf(Table(), 3) == 2;
    assert IndexOf(Table(), 2) == 3;
    assert IndexOf(Table(), 4) == 4;
  }

  lemma SourceRenamed(loc: Locations)
    requires At(loc, 0) == 0 && At(loc, 1) == 1 && At(loc, 3) == 2
    requires At(loc, 2) == 0 && At(loc, 4) == 0
    ensures RenameAll(Source(), loc) == Code(0, 1, 2, 0, 0)
  {
    hide Allocation.At;
  }

  lemma AllocateIs()
    requires Listed(Source(), Table())
    ensures Allocate(Source(), Table(), 3) == LocationsOf(Table(), [0, 1, 2, 0, 0], 3)
  {
    assert |Table()| == 5 && After(5).reg == [0, 1, 2, 0, 0];
    hide *;
    SourceIntervals();
    Scanned();
    AllocateFrom(Source(), Table(), 3, Places());
  }

  lemma AllocateFrom(code: seq<Ins>, list: seq<nat>, count: nat, ivs: seq<LinearScan.Interval>)
    requires count > 0 && Listed(code, list) && ivs == Spans(code, list)
    ensures var reg := LinearScan.Scan(ivs, count, |list|).reg;
      && |reg| == |list| && (forall i :: 0 <= i < |reg| ==> reg[i] == LinearScan.NO_REGISTER || 0 <= reg[i])
      && Allocate(code, list, count) == LocationsOf(list, reg, count)
  {
    ScanInRange(code, list, count);
    hide Spans, LinearScan.Scan, LocationsOf, Listed;
  }

  /** x, y and the difference share the first of three registers. */
  lemma SourceAllocated()
    requires Listed(Source(), Table())
    ensures RenameAll(Source(), Allocate(Source(), Table(), 3)) == Code(0, 1, 2, 0, 0)
  {
    hide *;
    AllocateIs();
    LocationsAre([0, 1, 2, 0, 0]);
    SourceRenamed(Allocate(Source(), Table(), 3));
  }

  /** Intervals ignore back edges: the parser and the lowering make this code, and on the input 3 the
      allocated program prints something else. */
  lemma LoopNotPreserved()
    ensures Compiles(Tree(0, 0, 0, 0), 3, Tree(3, 4, 1, 2)) && GenStmts(Tree(3, 4, 1, 2)) == Source()
    ensures Listed(Source(), Table())
    ensures !SameBehaviour(Run(Source(), Start([3]), 15), Run(RenameAll(Source(), Allocate(Source(), Table(), 3)), Start([3]), 15))
  {
    hide *;
    TreeBuilt(0, 0, 0, 0);
    TreeCode();
    SourceListed();
    SourceAllocated();
    SourcePrints();
    AllocatedPrints();
    OutputsDiffer(Run(Source(), Start([3]), 15), Run(Code(0, 1, 2, 0, 0), Start([3]), 15));
  }

  lemma OutputsDiffer(c: Option<Config>, d: Option<Config>)
    requires c.Some? && d.Some? && c.value.st.output == [1, 5, 1] && d.value.st.output == [1, 5, 2]
    ensures !SameBehaviour(c, d)
  {
    assert c.value.st.output[2] != d.value.st.output[2];
  }

  /** x is live where y is written, but their intervals do not overlap: the condition fails. */
  lemma ConditionFails(live: LiveSets)
    requires Closed(Source(), live)
    ensures !LiveOverlap(Source(), live)
  {
    LiveAround(live);
    FirstOfY();
    LastOfX();
    var code := Source();
    assert 2 in Defs(code[6]) && code[6] == Assign(2, Const(5));
    assert 0 in LiveOut(code, live, 6) && !Interfere(code, 0, 2);
    hide Closed, FirstOf, LastOf, Source;
  }

  lemma LiveBack(code: seq<Ins>, live: LiveSets, p: nat, v: nat)
    requires Closed(code, live) && p < |code| && !code[p].Jmp?
    requires v in Uses(code[p]) || (v in live[p + 1] && v !in Defs(code[p]))
    ensures v in live[p]
  {
    assert LiveIn(code, live, p) <= live[p];
  }

  lemma LiveJump(code: seq<Ins>, live: LiveSets, p: nat, q: nat, v: nat)
    requires Closed(code, live) && Jumps(code, p, q) && v in live[q]
    ensures v in live[p]
  {
    assert LiveIn(code, live, p) <= live[p];
  }

  lemma JumpsBack()
    ensures Jumps(Source(), 10, 2)
  {
    TopFound(Source());
    hide FindLabel;
  }

  /** From the write of x back over the top of the loop and around it, to the write of y. */
  lemma LiveAround(live: LiveSets)
    requires Closed(Source(), live)
    ensures |live| == 13 && 0 in live[7]
  {
    assert |live| == |Source()| + 1 == 13;
    hide Closed;
    JumpsBack();
    hide Jumps;
    LiveBack(Source(), live, 5, 0);
    LiveBack(Source(), live, 4, 0);
    LiveBack(Source(), live, 3, 0);
    LiveBack(Source(), live, 2, 0);
    LiveJump(Source(), live, 10, 2, 0);
    LiveBack(Source(), live, 9, 0);
    LiveBack(Source(), live, 8, 0);
    LiveBack(Source(), live, 7, 0);
  }
}
