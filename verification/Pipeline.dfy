/** From the program as written to its optimized control-flow graph. */
module Pipeline {
  import opened Options
  import opened ThreeAddress
  import opened Ast
  import opened Lowering
  import opened LoweringSim
  import opened Labels
  import opened Frontend
  import opened BasicBlocks
  import opened BlockGraph
  import opened FlowRun
  import opened LoweredBlocks
  import opened Optimize

  // ----- walks of the graph of some code are runs of the code -----

  lemma SettledStays(code: seq<Ins>, g: Cfg, p: Pos)
    requires GraphOf(code, g) && p.b < |g| && p.i == |g[p.b].ins| && g[p.b].next.Some?
    ensures Settle(g, p) == At(g[p.b].next.value, 0, p.st) && Settle(g, Settle(g, p)) == Settle(g, p)
  {
    assert GoodBlock(g, p.b);
    assert p.b + 1 < |g| ==> GoodBlock(g, p.b + 1);
  }

  /** One step of a walk is one step of a run, or the rest of one. */
  lemma WalkSteps(code: seq<Ins>, g: Cfg, p: Pos)
    requires GraphOf(code, g) && Walk(g, p).Some?
    ensures if p.i < |g[p.b].ins| then Settle(g, p) == p && Step(g, p) == Some(Settle(g, Walk(g, p).value))
            else Settle(g, Walk(g, p).value) == Settle(g, p)
  {
    if p.i == |g[p.b].ins| {
      SettledStays(code, g, p);
    } else {
      HopSettled(code, g, p);
    }
  }

  lemma HopSettled(code: seq<Ins>, g: Cfg, p: Pos)
    requires GraphOf(code, g) && p.b < |g| && p.i < |g[p.b].ins| && Walk(g, p).Some?
    ensures Step(g, p) == Some(Settle(g, Walk(g, p).value))
  {
    assert GoodBlock(g, p.b);
    hide Effect;
  }

  lemma RunOneMore(g: Cfg, p: Pos, n: nat)
    requires RunCfg(g, p, n).Some?
    ensures RunCfg(g, p, n + 1) == Step(g, RunCfg(g, p, n).value)
    decreases n
  {
    if n > 0 {
      RunOneMore(g, Step(g, p).value, n - 1);
    }
    hide Step;
  }

  lemma {:induction false} WalkIsRun(code: seq<Ins>, g: Cfg, p: Pos, n: nat) returns (k: nat)
    requires GraphOf(code, g) && Settle(g, p) == p && WalkRun(g, p, n).Some?
    ensures RunCfg(g, p, k) == Some(Settle(g, WalkRun(g, p, n).value))
    decreases n
  {
    if n == 0 {
      k := 0;
    } else {
      WalkBack(g, p, n - 1);
      var q := WalkRun(g, p, n - 1).value;
      hide GraphOf, Settle, Walk, Step;
      k := WalkIsRun(code, g, p, n - 1);
      WalkSteps(code, g, q);
      RunOneMore(g, p, k);
      if q.b < |g| && q.i < |g[q.b].ins| {
        k := k + 1;
      }
    }
  }

  lemma WalkBack(g: Cfg, p: Pos, n: nat)
    requires WalkRun(g, p, n + 1).Some?
    ensures WalkRun(g, p, n).Some? && WalkRun(g, p, n + 1) == Walk(g, WalkRun(g, p, n).value)
    decreases n
  {
    WalkFirst(g, p, n + 1);
    if n > 0 {
      WalkBack(g, Walk(g, p).value, n - 1);
    }
    hide Walk;
  }

  // ----- the pipeline -----

  /** prog compiles to a tree whose code has the graph g, and g divides no one by a symbol. */
  ghost predicate CompilesTo(prog: Stmts, base: nat, tree: Stmts, g: Cfg) {
    && Compiles(prog, base, tree) && LabelsInRange(tree) && PlainProgram(tree)
    && Build(GenStmts(tree)) == Some(g) && NoInverse(g)
  }

  lemma CompiledGraph(prog: Stmts, base: nat, tree: Stmts, g: Cfg)
    requires CompilesTo(prog, base, tree, g)
    ensures DistinctLabels(GenStmts(tree)) && GraphOf(GenStmts(tree), g) && NoInverse(g) && Compiles(prog, base, tree)
  {
    var temps := CompilesWell(prog, base, tree);
    LoweredGraphIff(tree);
    ApartDistinct(tree);
    hide GenStmts, StmtsApart, DistinctLabels, GraphOf, NoInverse, Compiles, PlainProgram;
  }

  ghost predicate SameIO(st: State, p: Pos) {
    p.st.input == st.input && p.st.output == st.output
  }

  lemma AlikeIO(base: nat, st: State, a: State, p: Pos)
    requires Alike(base, st, a) && a.input == p.st.input && a.output == p.st.output
    ensures SameIO(st, p)
  {
  }

  /** The walk stops behind the last instruction of the graph. */
  ghost predicate Ended(g: Cfg, q: Pos) {
    Walk(g, q).None? && AtEnd(g, q)
  }

  /** The walk stops at an instruction that cannot be executed. */
  ghost predicate Halted(g: Cfg, q: Pos) {
    Walk(g, q).None? && !AtEnd(g, q)
  }

  /** How the program ends is how the walk stops. */
  ghost predicate EndsThere(o: Outcome, g: Cfg, q: Pos) {
    (o.Done? ==> Ended(g, q)) && (o.Stuck? ==> Halted(g, q))
  }

  lemma OutcomeEnds(code: seq<Ins>, o: Outcome, d: Config, g: Cfg, q: Pos)
    requires StopsLike(code, d, g, q) && (!o.Timeout? ==> Next(code, d).None?) && (o.Done? ==> d.pc == |code|) && (o.Stuck? ==> d.pc != |code|)
    ensures EndsThere(o, g, q)
  {
    hide Next, Walk, AtEnd;
  }

  lemma OutcomeOfEnd(code: seq<Ins>, o: Outcome, p: Pos, g: Cfg, h: Cfg, q: Pos)
    requires GraphOf(code, g) && InGraph(g, p) && EndsAlike(g, p, h, q) && Walk(g, p).None? && Walk(h, q).None?
    requires (o.Done? <==> Linear(g, p).pc == |code|) && (o.Stuck? <==> Linear(g, p).pc != |code|)
    ensures (o.Done? <==> Ended(h, q)) && (o.Stuck? <==> Halted(h, q))
  {
    EndOfCode(code, g, p);
    hide GraphOf, InGraph, Walk, AtEnd, Linear;
  }

  /** What FrontendPreserves says of the end of the run of the code. */
  lemma CodeEnds(prog: Stmts, base: nat, tree: Stmts, st: State, fuel: nat) returns (k: nat, d: Config)
    requires Compiles(prog, base, tree)
    ensures Run(GenStmts(tree), Config(0, st), k) == Some(d) && Alike(base, ExecStmts(prog, st, fuel).st, d.st)
    ensures var o, code := ExecStmts(prog, st, fuel), GenStmts(tree);
      (!o.Timeout? ==> Next(code, d).None?) && (o.Done? ==> d.pc == |code|) && (o.Stuck? ==> d.pc != |code|)
  {
    k, d := FrontendPreserves(prog, base, tree, st, fuel);
    hide ExecStmts, GenStmts, Compiles, Alike, Run, Next;
  }

  /** Whatever the program as written does within some loop budget, the optimized graph of its code
      does: it comes to its end where the program ends, and is stuck where the program is stuck. */
  lemma SourcePreserved(prog: Stmts, base: nat, tree: Stmts, g: Cfg, st: State, fuel: nat) returns (m: nat)
    requires CompilesTo(prog, base, tree, g)
    ensures WalkRun(Optimized(g), At(0, 0, st), m).Some?
    ensures SameIO(ExecStmts(prog, st, fuel).st, WalkRun(Optimized(g), At(0, 0, st), m).value)
    ensures EndsThere(ExecStmts(prog, st, fuel), Optimized(g), WalkRun(Optimized(g), At(0, 0, st), m).value)
  {
    hide *;
    CompiledGraph(prog, base, tree, g);
    var k, d := CodeEnds(prog, base, tree, st, fuel);
    m := OptimizedCode(GenStmts(tree), g, st, k);
    var q := WalkRun(Optimized(g), At(0, 0, st), m).value;
    AlikeIO(base, ExecStmts(prog, st, fuel).st, d.st, q);
    OutcomeEnds(GenStmts(tree), ExecStmts(prog, st, fuel), d, Optimized(g), q);
  }

  lemma StartSettled(code: seq<Ins>, g: Cfg, st: State)
    requires GraphOf(code, g)
    ensures Settle(g, At(0, 0, st)) == At(0, 0, st)
  {
    assert GoodBlock(g, 0);
  }

  /** Where a walk ends, the run of the code is final. */
  lemma WalkEnds(code: seq<Ins>, g: Cfg, st: State, n: nat)
    requires DistinctLabels(code) && GraphOf(code, g)
    requires WalkRun(g, At(0, 0, st), n).Some? && Walk(g, WalkRun(g, At(0, 0, st), n).value).None?
    ensures var p := WalkRun(g, At(0, 0, st), n).value;
      InGraph(g, p) && Final(code, Config(0, st), Linear(g, p))
  {
    var p := WalkRun(g, At(0, 0, st), n).value;
    StartSettled(code, g, st);
    EntryPoint(code, g, st);
    WalkInside(code, g, At(0, 0, st), n);
    hide WalkRun, DistinctLabels, GraphOf, InGraph, RunCfg;
    var k := WalkIsRun(code, g, At(0, 0, st), n);
    EndSettled(g, p);
    RunsAgree(code, g, At(0, 0, st), k);
    StepAgrees(code, g, p);
    hide Walk, Settle, Step, Next, Linear, Run;
    assert Run(code, Config(0, st), k) == Some(Linear(g, p));
  }

  /** A walk stays inside the blocks. */
  lemma {:induction false} WalkInside(code: seq<Ins>, g: Cfg, p: Pos, n: nat)
    requires GraphOf(code, g) && p.b < |g| && p.i <= |g[p.b].ins| && WalkRun(g, p, n).Some?
    ensures var q := WalkRun(g, p, n).value; q.b < |g| && q.i <= |g[q.b].ins|
    decreases n
  {
    if n > 0 {
      WalkStepInside(code, g, p);
      hide GraphOf, Walk;
      WalkInside(code, g, Walk(g, p).value, n - 1);
    }
  }

  lemma WalkStepInside(code: seq<Ins>, g: Cfg, p: Pos)
    requires GraphOf(code, g) && p.b < |g| && p.i <= |g[p.b].ins| && Walk(g, p).Some?
    ensures var q := Walk(g, p).value; q.b < |g| && q.i <= |g[q.b].ins|
  {
    assert GoodBlock(g, p.b);
    GraphEdges(code, g);
    hide Effect;
  }

  lemma EndSettled(g: Cfg, p: Pos)
    requires Walk(g, p).None? && p.b < |g| && p.i <= |g[p.b].ins|
    ensures Step(g, p).None? && Settle(g, p) == p
  {
    hide Effect;
  }

  /** Where the optimized graph comes to its end the program ends, and where the graph is stuck the
      program is stuck, with the same trace. */
  lemma SourceReflected(prog: Stmts, base: nat, tree: Stmts, g: Cfg, st: State, m: nat) returns (fuel: nat)
    requires CompilesTo(prog, base, tree, g)
    requires WalkRun(Optimized(g), At(0, 0, st), m).Some? && Walk(Optimized(g), WalkRun(Optimized(g), At(0, 0, st), m).value).None?
    ensures ExecStmts(prog, st, fuel).Done? <==> Ended(Optimized(g), WalkRun(Optimized(g), At(0, 0, st), m).value)
    ensures ExecStmts(prog, st, fuel).Stuck? <==> Halted(Optimized(g), WalkRun(Optimized(g), At(0, 0, st), m).value)
    ensures !ExecStmts(prog, st, fuel).Timeout?
    ensures SameIO(ExecStmts(prog, st, fuel).st, WalkRun(Optimized(g), At(0, 0, st), m).value)
  {
    hide *;
    CompiledGraph(prog, base, tree, g);
    GraphEdges(GenStmts(tree), g);
    var n := OptimizedReflects(g, st, m);
    WalkEnds(GenStmts(tree), g, st, n);
    InBlock(g, WalkRun(g, At(0, 0, st), n).value);
    var p, q := WalkRun(g, At(0, 0, st), n).value, WalkRun(Optimized(g), At(0, 0, st), m).value;
    fuel := FrontendReflects(prog, base, tree, st, Linear(g, p));
    TraceOf(g, p, q);
    AlikeIO(base, ExecStmts(prog, st, fuel).st, Linear(g, p).st, q);
    OutcomeOfEnd(GenStmts(tree), ExecStmts(prog, st, fuel), p, g, Optimized(g), q);
  }

  lemma InBlock(g: Cfg, p: Pos)
    requires InGraph(g, p)
    ensures p.b < |g|
  {
  }

  // ----- termination -----

  /** The optimized graph never ends and is never stuck. */
  ghost predicate GraphDiverges(g: Cfg, st: State) {
    forall m: nat :: WalkRun(g, At(0, 0, st), m).Some?
  }

  lemma {:induction false} LastStep(g: Cfg, p: Pos, m: nat) returns (n: nat)
    requires WalkRun(g, p, m).None?
    ensures WalkRun(g, p, n).Some? && Walk(g, WalkRun(g, p, n).value).None?
    decreases m
  {
    if Walk(g, p).None? {
      n := 0;
    } else {
      n := LastStep(g, Walk(g, p).value, m - 1);
      n := n + 1;
    }
    hide Walk;
  }

  /** A program that ends, or is stuck, walks its graph only so far. */
  lemma SourceStops(prog: Stmts, base: nat, tree: Stmts, g: Cfg, st: State, fuel: nat) returns (n: nat)
    requires CompilesTo(prog, base, tree, g) && !ExecStmts(prog, st, fuel).Timeout?
    ensures WalkRun(g, At(0, 0, st), n).None?
  {
    var code := GenStmts(tree);
    CompiledGraph(prog, base, tree, g);
    var k, d := FrontendPreserves(prog, base, tree, st, fuel);
    assert Final(code, Config(0, st), d);
    assert Next(code, d).None?;
    hide *;
    EntryPoint(code, g, st);
    RunsAgree(code, g, At(0, 0, st), k);
    var j := RunWalks(g, At(0, 0, st), k);
    n := StopsWalk(code, g, At(0, 0, st), j, d);
  }

  lemma StopsWalk(code: seq<Ins>, g: Cfg, p: Pos, j: nat, d: Config) returns (n: nat)
    requires GraphOf(code, g) && DistinctLabels(code) && WalkRun(g, p, j).Some? && InGraph(g, WalkRun(g, p, j).value)
    requires Linear(g, WalkRun(g, p, j).value) == d && Next(code, d).None?
    ensures WalkRun(g, p, n).None?
  {
    var q := WalkRun(g, p, j).value;
    StepAgrees(code, g, q);
    StepEnds(code, g, q);
    n := j + 1;
    WalkAdd(g, p, j, 1);
    WalkFirst(g, q, 1);
    hide WalkRun, Walk, GraphOf, Step, Next, Linear, InGraph;
  }

  /** The program runs forever if and only if its optimized graph does. */
  lemma SourceDiverges(prog: Stmts, base: nat, tree: Stmts, g: Cfg, st: State)
    requires CompilesTo(prog, base, tree, g)
    ensures ProgramDiverges(prog, st) <==> GraphDiverges(Optimized(g), st)
  {
    hide CompilesTo, Optimized, WalkRun, Walk, ExecStmts;
    if ProgramDiverges(prog, st) && !GraphDiverges(Optimized(g), st) {
      var m: nat :| WalkRun(Optimized(g), At(0, 0, st), m).None?;
      var n := LastStep(Optimized(g), At(0, 0, st), m);
      var fuel := SourceReflected(prog, base, tree, g, st, n);
    }
    if GraphDiverges(Optimized(g), st) {
      forall fuel: nat ensures ExecStmts(prog, st, fuel).Timeout? {
        if !ExecStmts(prog, st, fuel).Timeout? {
          var n := SourceStops(prog, base, tree, g, st, fuel);
          assert WalkRun(Optimized(g), At(0, 0, st), n).Some?;
          NotLonger(prog, base, tree, g, st, n);
        }
      }
    }
  }

  /** The graph walks at least as far as the optimized one. */
  lemma NotLonger(prog: Stmts, base: nat, tree: Stmts, g: Cfg, st: State, m: nat)
    requires CompilesTo(prog, base, tree, g) && WalkRun(Optimized(g), At(0, 0, st), m).Some?
    ensures WalkRun(g, At(0, 0, st), m).Some?
  {
    hide *;
    CompiledGraph(prog, base, tree, g);
    GraphEdges(GenStmts(tree), g);
    var n := OptimizedReflects(g, st, m);
    WalkPrefix(g, At(0, 0, st), m, n);
  }

  lemma {:induction false} WalkPrefix(g: Cfg, p: Pos, m: nat, n: nat)
    requires m <= n && WalkRun(g, p, n).Some?
    ensures WalkRun(g, p, m).Some?
    decreases m
  {
    if m > 0 {
      WalkPrefix(g, Walk(g, p).value, m - 1, n - 1);
    }
    hide Walk;
  }
}
