/** Liveness meets code generation: the stores that gen_bb_loads leaves out at the end of a block
    cannot be noticed. */
module Handover {
  import opened Options
  import opened ThreeAddress
  import opened BasicBlocks
  import opened FlowRun
  import opened Liveness
  import opened LivenessSound
  import T = Tm
  import R = TmRun
  import S = Spares
  import opened SpareEnds

  /** From block c the two environments lead to the same n steps. */
  ghost predicate SameRun(g: Cfg, c: nat, st: State, e: Env, n: nat) {
    var (r, q) := (RunCfg(g, At(c, 0, st), n), RunCfg(g, At(c, 0, st.(env := e)), n));
    && (r.None? <==> q.None?)
    && (r.Some? ==> r.value.st.output == q.value.st.output && r.value.st.input == q.value.st.input)
  }

  lemma LessAgrees(live: set<nat>, more: set<nat>, a: Env, b: Env)
    requires live <= more && AgreeOn(more, a, b)
    ensures AgreeOn(live, a, b)
  {
  }

  lemma InBelowOut(g: Cfg, s: Sets, b: nat, c: nat)
    requires Solves(g, s) && b < |g| && c < |g| && (g[b].next == Some(c) || g[b].jmp == Some(c))
    ensures s.ins[c] <= s.outs[b]
  {
    assert BlockSolved(g, s, b);
    hide InOf;
  }

  /** With the sets of the liveness equations, the machine leaves block b in a state that stands for an
      environment from which every run of the rest of the program is the same. */
  lemma BoundaryHarmless(g: Cfg, s: Sets, b: nat, c: nat, st: State, d: S.Desc, m: T.Machine) returns (e: Env, n: T.Machine)
    requires Solves(g, s) && JumpsLast(g) && b < |g| && c < |g| && (g[b].next == Some(c) || g[b].jmp == Some(c))
    requires S.Rel(d, st.env, m, None)
    ensures R.AllPlain(BoundaryCode(d, s.outs[b])) && R.Exec(BoundaryCode(d, s.outs[b]), m) == Some(n)
    ensures S.Rel(Emptied(d), e, n, None) && S.SameIO(m, n)
    ensures forall k: nat :: SameRun(g, c, st, e, k)
  {
    e, n := BoundaryOk(d, s.outs[b], st.env, m);
    InBelowOut(g, s, b, c);
    LessAgrees(s.ins[c], s.outs[b], st.env, e);
    hide S.Rel, R.Exec, R.AllPlain, BoundaryCode, Solves, JumpsLast, AgreeOn, RunCfg;
    forall k: nat ensures SameRun(g, c, st, e, k) {
      LiveInSound(g, s, c, st, e, k);
    }
  }
}
