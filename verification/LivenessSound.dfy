/** Liveness over whole runs: what is not live cannot influence the run. */
module LivenessSound {
  import opened Options
  import opened ThreeAddress
  import opened BasicBlocks
  import opened Liveness
  import opened FlowRun

  /** The symbols live before instruction i of block b. */
  function Live(g: Cfg, s: Sets, p: Pos): set<nat> {
    if p.b < |g| && p.b < |s.outs| && p.i <= |g[p.b].ins| then Backward(g[p.b].ins[p.i..], s.outs[p.b]) else {}
  }

  ghost predicate AgreeOn(live: set<nat>, a: Env, b: Env) {
    forall x :: x in live ==> Get(a, x) == Get(b, x)
  }

  /** Same place, same input left, same output so far, same values of the live symbols. */
  ghost predicate SameFuture(g: Cfg, s: Sets, p: Pos, q: Pos) {
    && p.b == q.b && p.i == q.i && p.st.input == q.st.input && p.st.output == q.st.output
    && AgreeOn(Live(g, s, p), p.st.env, q.st.env)
  }

  lemma SameVal(live: set<nat>, a: Env, b: Env, x: Arg)
    requires AgreeOn(live, a, b) && ArgSyms(x) <= live
    ensures Val(a, x) == Val(b, x)
  {
  }

  /** An instruction does the same from two states that agree on what it reads. */
  lemma SameEffect(i: Ins, out: set<nat>, p: State, q: State)
    requires p.input == q.input && p.output == q.output && AgreeOn(Uses(i) + (out - Defs(i)), p.env, q.env)
    ensures Effect(i, p).None? <==> Effect(i, q).None?
    ensures Effect(i, p).Some? ==> (
      var (p', q') := (Effect(i, p).value, Effect(i, q).value);
      p'.input == q'.input && p'.output == q'.output && AgreeOn(out, p'.env, q'.env))
  {
    var live := Uses(i) + (out - Defs(i));
    assert forall x :: x in out && x !in Defs(i) ==> Get(p.env, x) == Get(q.env, x);
    match i
    case Bin(op, r, a1, a2) =>
      SameVal(live, p.env, q.env, a1);
      SameVal(live, p.env, q.env, a2);
    case Out(a) => SameVal(live, p.env, q.env, a);
    case Assign(_, a) => SameVal(live, p.env, q.env, a);
    case _ =>
  }

  lemma LiveStep(g: Cfg, s: Sets, p: Pos)
    requires Fits(g, s) && p.b < |g| && p.i < |g[p.b].ins|
    ensures var i := g[p.b].ins[p.i];
      Live(g, s, p) == Uses(i) + (Live(g, s, At(p.b, p.i + 1, p.st)) - Defs(i))
  {
    var rest := g[p.b].ins[p.i..];
    assert rest[1..] == g[p.b].ins[p.i + 1..];
  }

  /** What is live where an edge leads is live at the end of the block that it leaves. */
  lemma LiveAlong(g: Cfg, s: Sets, b: nat, e: Option<nat>, st: State)
    requires Solves(g, s) && b < |g| && (e == g[b].next || e == g[b].jmp)
    ensures e.Some? ==> Live(g, s, At(e.value, 0, st)) <= s.outs[b]
  {
    assert BlockSolved(g, s, b);
    if e.Some? && e.value < |g| {
      var c := e.value;
      assert BlockSolved(g, s, c);
      SummaryComposes(g[c].ins, s.outs[c]);
      assert g[c].ins[0..] == g[c].ins;
    }
  }

  lemma LiveEnd(g: Cfg, s: Sets, b: nat, st: State)
    requires Fits(g, s) && b < |g|
    ensures Live(g, s, At(b, |g[b].ins|, st)) == s.outs[b]
  {
    assert g[b].ins[|g[b].ins|..] == [];
  }

  lemma SettleSame(g: Cfg, s: Sets, p: Pos, q: Pos)
    requires Solves(g, s) && p.b < |g| && p.i <= |g[p.b].ins| && SameFuture(g, s, p, q)
    ensures SameFuture(g, s, Settle(g, p), Settle(g, q))
  {
    if p.i == |g[p.b].ins| && g[p.b].next.Some? {
      LiveEnd(g, s, p.b, p.st);
      LiveAlong(g, s, p.b, g[p.b].next, p.st);
      hide Live;
      LiveIgnores(g, s, p, q.st);
      LiveIgnores(g, s, At(g[p.b].next.value, 0, p.st), q.st);
    }
  }

  lemma LiveIgnores(g: Cfg, s: Sets, p: Pos, st: State)
    ensures Live(g, s, p) == Live(g, s, p.(st := st))
  {
  }

  lemma HopSame(g: Cfg, s: Sets, p: Pos, q: Pos)
    requires Solves(g, s) && p.b < |g| && p.i < |g[p.b].ins| && SameFuture(g, s, p, q)
    requires g[p.b].ins[p.i].Jmp? || g[p.b].ins[p.i].Iff?
    requires p.i + 1 == |g[p.b].ins|
    ensures g[p.b].jmp.Some? ==> SameFuture(g, s, At(g[p.b].jmp.value, 0, p.st), At(g[p.b].jmp.value, 0, q.st))
  {
    LiveStep(g, s, p);
    LiveEnd(g, s, p.b, p.st);
    LiveAlong(g, s, p.b, g[p.b].jmp, p.st);
    hide Live, Solves;
  }

  /** Jumps and tests only end blocks. */
  ghost predicate JumpsLast(g: Cfg) {
    forall b, i :: 0 <= b < |g| && 0 <= i < |g[b].ins| - 1 ==> !g[b].ins[i].Iff? && !g[b].ins[i].Jmp?
  }

  lemma StepSame(g: Cfg, s: Sets, p: Pos, q: Pos)
    requires Solves(g, s) && JumpsLast(g) && SameFuture(g, s, p, q)
    ensures Step(g, p).None? <==> Step(g, q).None?
    ensures Step(g, p).Some? ==> SameFuture(g, s, Step(g, p).value, Step(g, q).value)
  {
    if p.b < |g| && p.i < |g[p.b].ins| {
      var i := g[p.b].ins[p.i];
      LiveStep(g, s, p);
      var out := Live(g, s, At(p.b, p.i + 1, p.st));
      SameEffect(i, out, p.st, q.st);
      match i
      case Jmp(_) =>
        HopSame(g, s, p, q);
      case Iff(c, _) =>
        HopSame(g, s, p, q);
        SameVal(Uses(i) + (out - Defs(i)), p.st.env, q.st.env, c);
        LiveIgnores(g, s, At(p.b, p.i + 1, p.st), q.st);
        SettleSame(g, s, At(p.b, p.i + 1, p.st), At(p.b, p.i + 1, q.st));
      case _ =>
        if Effect(i, p.st).Some? {
          var p', q' := At(p.b, p.i + 1, Effect(i, p.st).value), At(p.b, p.i + 1, Effect(i, q.st).value);
          LiveIgnores(g, s, At(p.b, p.i + 1, p.st), p'.st);
          SettleSame(g, s, p', q');
        }
    }
  }

  /** Two runs that start with the same live symbols do the same, through any number of loops:
      the same number of steps, the same input read and the same output. */
  lemma {:induction false} RunsSame(g: Cfg, s: Sets, p: Pos, q: Pos, n: nat)
    requires Solves(g, s) && JumpsLast(g) && SameFuture(g, s, p, q)
    ensures RunCfg(g, p, n).None? <==> RunCfg(g, q, n).None?
    ensures RunCfg(g, p, n).Some? ==> SameFuture(g, s, RunCfg(g, p, n).value, RunCfg(g, q, n).value)
    decreases n
  {
    if n > 0 {
      StepSame(g, s, p, q);
      hide Solves, JumpsLast, SameFuture, Step;
      if Step(g, p).Some? {
        RunsSame(g, s, Step(g, p).value, Step(g, q).value, n - 1);
      }
    }
  }

  /** In particular from the start of a block, with the sets that solve the equations. */
  lemma LiveInSound(g: Cfg, s: Sets, b: nat, st: State, env: Env, n: nat)
    requires Solves(g, s) && JumpsLast(g) && b < |g| && AgreeOn(s.ins[b], st.env, env)
    ensures var r, q := RunCfg(g, At(b, 0, st), n), RunCfg(g, At(b, 0, st.(env := env)), n);
      && (r.None? <==> q.None?)
      && (r.Some? ==> r.value.st.output == q.value.st.output && r.value.st.input == q.value.st.input)
  {
    assert BlockSolved(g, s, b);
    SummaryComposes(g[b].ins, s.outs[b]);
    assert g[b].ins[0..] == g[b].ins;
    assert SameFuture(g, s, At(b, 0, st), At(b, 0, st.(env := env)));
    hide Solves, Live;
    RunsSame(g, s, At(b, 0, st), At(b, 0, st.(env := env)), n);
  }
}
