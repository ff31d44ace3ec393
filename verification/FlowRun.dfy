/** Running a control-flow graph, and its agreement with the linear code it was built from. */
module FlowRun {
  import opened Options
  import opened ThreeAddress
  import opened BasicBlocks
  import opened BlockGraph
  import opened Predecessors

  /** About to execute instruction i of block b. */
  datatype Pos = At(b: nat, i: nat, st: State)

  /** Control that runs off the end of a block continues in the next one. */
  function Settle(g: Cfg, p: Pos): Pos {
    if p.b < |g| && p.i >= |g[p.b].ins| && g[p.b].next.Some? then At(g[p.b].next.value, 0, p.st) else p
  }

  function Hop(e: Option<nat>, st: State): Option<Pos> {
    match e
    case None => None
    case Some(b) => Some(At(b, 0, st))
  }

  function Step(g: Cfg, p: Pos): Option<Pos> {
    if p.b >= |g| || p.i >= |g[p.b].ins| then None
    else
      match g[p.b].ins[p.i]
      case Jmp(_) => Hop(g[p.b].jmp, p.st)
      case Iff(a, _) =>
        if Val(p.st.env, a) > 0 then Some(Settle(g, At(p.b, p.i + 1, p.st))) else Hop(g[p.b].jmp, p.st)
      case i =>
        match Effect(i, p.st)
        case None => None
        case Some(s) => Some(Settle(g, At(p.b, p.i + 1, s)))
  }

  /** The position after exactly n instructions, if that many can be executed. */
  function RunCfg(g: Cfg, p: Pos, n: nat): Option<Pos>
    decreases n
  {
    if n == 0 then Some(p)
    else
      match Step(g, p)
      case None => None
      case Some(q) => RunCfg(g, q, n - 1)
  }

  ghost predicate InGraph(g: Cfg, p: Pos) {
    p.b < |g| && (p.i < |g[p.b].ins| || (p.b == |g| - 1 && p.i == |g[p.b].ins|))
  }

  /** The position of the linear code that p stands for. */
  function Linear(g: Cfg, p: Pos): Config
    requires p.b < |g|
  {
    Config(Offset(Insns(g), p.b) + p.i, p.st)
  }

  lemma SettleAgrees(g: Cfg, p: Pos)
    requires p.b < |g| && p.i <= |g[p.b].ins| && forall b :: 0 <= b < |g| ==> GoodBlock(g, b)
    requires g[p.b].ins != [] && p.i > 0 && !g[p.b].ins[p.i - 1].Jmp?
    ensures InGraph(g, Settle(g, p)) && Linear(g, Settle(g, p)) == Linear(g, p)
  {
    assert GoodBlock(g, p.b);
    FlattenEnd(Insns(g), p.b);
    hide Offset, Leads, Piece, Insns;
    if p.b + 1 < |g| {
      assert GoodBlock(g, p.b + 1);
    }
  }

  lemma HopAgrees(code: seq<Ins>, g: Cfg, p: Pos, l: nat)
    requires DistinctLabels(code) && GraphOf(code, g)
    requires p.b < |g| && p.i < |g[p.b].ins|
    requires g[p.b].ins[p.i] == Jmp(l) || (g[p.b].ins[p.i].Iff? && g[p.b].ins[p.i].target == l)
    ensures g[p.b].jmp.Some? && InGraph(g, At(g[p.b].jmp.value, 0, p.st))
    ensures Goto(code, l, p.st) == Some(Linear(g, At(g[p.b].jmp.value, 0, p.st)))
  {
    assert GoodBlock(g, p.b);
    var t := g[p.b].jmp.value;
    FlattenAt(Insns(g), t, 0);
    FindDistinct(code, Offset(Insns(g), t));
    hide Offset, DistinctLabels, Flatten, Falls;
  }

  ghost predicate Matches(code: seq<Ins>, g: Cfg, p: Pos)
    requires p.b < |g|
  {
    && (Step(g, p).None? ==> Next(code, Linear(g, p)).None?)
    && (Step(g, p).Some? ==>
         InGraph(g, Step(g, p).value) && Next(code, Linear(g, p)) == Some(Linear(g, Step(g, p).value)))
  }

  lemma AtInstruction(code: seq<Ins>, g: Cfg, p: Pos)
    requires GraphOf(code, g) && InGraph(g, p)
    ensures p.i < |g[p.b].ins| ==> Linear(g, p).pc < |code| && code[Linear(g, p).pc] == g[p.b].ins[p.i]
    ensures p.i == |g[p.b].ins| ==> Linear(g, p).pc == |code|
  {
    FlattenEnd(Insns(g), p.b);
    assert |Insns(g)| == |g|;
    if p.i < |g[p.b].ins| {
      FlattenAt(Insns(g), p.b, p.i);
    }
    hide Flatten, Offset, Insns, GoodBlock, PredsExact;
  }

  lemma JumpMatches(code: seq<Ins>, g: Cfg, p: Pos)
    requires DistinctLabels(code) && GraphOf(code, g) && InGraph(g, p) && p.i < |g[p.b].ins| && g[p.b].ins[p.i].Jmp?
    ensures Matches(code, g, p)
  {
    AtInstruction(code, g, p);
    HopAgrees(code, g, p, g[p.b].ins[p.i].target);
    hide DistinctLabels, GraphOf, Linear;
  }

  lemma TestMatches(code: seq<Ins>, g: Cfg, p: Pos)
    requires DistinctLabels(code) && GraphOf(code, g) && InGraph(g, p) && p.i < |g[p.b].ins| && g[p.b].ins[p.i].Iff?
    ensures Matches(code, g, p)
  {
    AtInstruction(code, g, p);
    HopAgrees(code, g, p, g[p.b].ins[p.i].target);
    assert Linear(g, At(p.b, p.i + 1, p.st)) == Config(Linear(g, p).pc + 1, p.st);
    SettleAgrees(g, At(p.b, p.i + 1, p.st));
    hide DistinctLabels, GraphOf, Linear, Settle;
  }

  lemma PlainMatches(code: seq<Ins>, g: Cfg, p: Pos)
    requires GraphOf(code, g) && InGraph(g, p) && p.i < |g[p.b].ins|
    requires !g[p.b].ins[p.i].Jmp? && !g[p.b].ins[p.i].Iff?
    ensures Matches(code, g, p)
  {
    AtInstruction(code, g, p);
    var e := Effect(g[p.b].ins[p.i], p.st);
    if e.Some? {
      SettleAgrees(g, At(p.b, p.i + 1, e.value));
      assert Linear(g, At(p.b, p.i + 1, e.value)) == Config(Linear(g, p).pc + 1, e.value);
    }
    hide GraphOf, Linear, Settle, Effect;
  }

  /** One instruction of the graph is one instruction of the code. */
  lemma StepAgrees(code: seq<Ins>, g: Cfg, p: Pos)
    requires DistinctLabels(code) && GraphOf(code, g) && InGraph(g, p)
    ensures Matches(code, g, p)
  {
    if p.i == |g[p.b].ins| {
      AtInstruction(code, g, p);
    } else if g[p.b].ins[p.i].Jmp? {
      JumpMatches(code, g, p);
    } else if g[p.b].ins[p.i].Iff? {
      TestMatches(code, g, p);
    } else {
      PlainMatches(code, g, p);
    }
  }

  /** Runs of the graph and runs of the code take the same number of steps through the same states. */
  lemma {:induction false} RunsAgree(code: seq<Ins>, g: Cfg, p: Pos, n: nat)
    requires DistinctLabels(code) && GraphOf(code, g) && InGraph(g, p)
    ensures RunCfg(g, p, n).None? <==> Run(code, Linear(g, p), n).None?
    ensures RunCfg(g, p, n).Some? ==> (
      && InGraph(g, RunCfg(g, p, n).value)
      && Run(code, Linear(g, p), n) == Some(Linear(g, RunCfg(g, p, n).value)))
    decreases n
  {
    if n > 0 {
      StepAgrees(code, g, p);
      hide Step, Next, Linear, DistinctLabels, GraphOf, InGraph;
      if Step(g, p).Some? {
        RunsAgree(code, g, Step(g, p).value, n - 1);
      }
    }
  }
}
