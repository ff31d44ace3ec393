/** A graph without guards on which lva stops one pass early.

    bb_build never makes such a graph from the code of a program: its entry block has no predecessor,
    and every loop header is guarded (LoopHeaders.GraphGuarded).  lva itself takes any graph, and it
    also gets those that bb_compact leaves behind after constant propagation: there blocks have been
    dropped, and a block whose test went away has taken over the instructions and edges of its
    successor, so that what bb_build promises of loop headers is not promised any more. */
module LivenessLimits {
  import opened Options
  import opened ThreeAddress
  import opened BasicBlocks
  import opened Liveness
  import opened LivenessFixpoint

  /** Block 1 writes symbol 0 and jumps back to block 0, which nothing else leads to. */
  function Unguarded(): Cfg {
    [Block(1, [Out(Const(7))], Some(1), None, [1]), Block(2, [Out(Sym(0)), Jmp(1)], None, Some(0), [0])]
  }

  lemma UnguardedSummaries()
    ensures Summarize([Out(Const(7))]) == Summary({}, {}) && Summarize([Out(Sym(0)), Jmp(1)]) == Summary({0}, {})
  {
    assert [Out(Const(7))][..0] == [];
    var ins := [Out(Sym(0)), Jmp(1)];
    assert ins[..1] == [Out(Sym(0))] && [Out(Sym(0))][..0] == [];
    assert Summarize(ins[..1]) == Summary({0}, {});
  }

  lemma UnguardedVisits(s: Sets)
    requires Fits(Unguarded(), s)
    ensures Visit(Unguarded(), s, 1) == Sets([s.ins[0], {0} + s.outs[1]], [s.outs[0], s.outs[1] + s.ins[0]])
    ensures Visit(Unguarded(), s, 0) == Sets([s.outs[0], s.ins[1]], [s.outs[0] + s.ins[1], s.outs[1]])
  {
    UnguardedSummaries();
    var g := Unguarded();
    hide Summarize;
    assert InOf(g[1], s.outs[1]) == {0} + s.outs[1] && InOf(g[0], s.outs[0]) == s.outs[0];
    hide InOf;
    var i1, i0 := s.ins[1 := {0} + s.outs[1]], s.ins[0 := s.outs[0]];
    assert i1 == [s.ins[0], {0} + s.outs[1]] && i0 == [s.outs[0], s.ins[1]];
    assert Along(i1, g[1].jmp) == s.ins[0] && Along(i1, g[1].next) == {};
    assert Along(i0, g[0].next) == s.ins[1] && Along(i0, g[0].jmp) == {};
    hide Along;
    assert s.outs[1 := s.outs[1] + s.ins[0]] == [s.outs[0], s.outs[1] + s.ins[0]];
    assert s.outs[0 := s.outs[0] + s.ins[1]] == [s.outs[0] + s.ins[1], s.outs[1]];
    assert s.outs[1] + s.ins[0] + {} == s.outs[1] + s.ins[0];
    assert s.outs[0] + {} + s.ins[1] == s.outs[0] + s.ins[1];
  }

  lemma UnguardedPass(s: Sets)
    requires Fits(Unguarded(), s)
    ensures Pass(Unguarded(), s, 0)
         == Sets([s.outs[0], {0} + s.outs[1]], [s.outs[0] + ({0} + s.outs[1]), s.outs[1] + s.ins[0]])
  {
    var g := Unguarded();
    assert Pass(g, s, 2) == s;
    assert Pass(g, s, 1) == Visit(g, s, 1);
    assert Pass(g, s, 0) == Visit(g, Visit(g, s, 1), 0);
    hide Pass, Visit;
    UnguardedVisits(s);
    UnguardedVisits(Visit(g, s, 1));
  }

  lemma UnguardedRange()
    ensures InRange(Unguarded(), 1) && !Guarded(Unguarded())
  {
    var g := Unguarded();
    UnguardedSummaries();
    assert forall f: nat :: !Guards(g, f, 0);
    assert !EdgeGuarded(g, 1, g[1].jmp);
    hide Summarize;
  }

  lemma UnguardedIterate()
    requires InRange(Unguarded(), 1)
    ensures Lva(Unguarded(), 1) == Sets([{0}, {0}], [{0}, {}])
  {
    var g := Unguarded();
    StartOk(g, 1);
    var s0 := StartSets(g);
    var s1, s2 := Sets([{}, {0}], [{0}, {}]), Sets([{0}, {0}], [{0}, {}]);
    assert s0.ins == [{}, {}] && s0.outs == [{}, {}];
    hide Pass, Supported, Bounded, InRange, Unguarded, StartSets, Nothing, Missing;
    UnguardedPass(s0);
    assert {} + ({0} + {}) == {0} && {0} + {} == {0};
    assert Pass(g, s0, 0) == s1;
    UnguardedPass(s1);
    assert {0} + ({0} + {}) == {0};
    assert Pass(g, s1, 0) == s2;
    PassProgress(g, s0, 1);
    assert Iterate(g, s1, 1) == s2;
  }

  /** Symbol 0 is live where block 0 begins, but lva leaves it out of what block 1 hands over. */
  lemma StopsEarly()
    ensures InRange(Unguarded(), 1) && !Guarded(Unguarded()) && !Solves(Unguarded(), Lva(Unguarded(), 1))
  {
    UnguardedRange();
    UnguardedIterate();
    var g, s := Unguarded(), Sets([{0}, {0}], [{0}, {}]);
    hide Lva, InRange, Guarded, InOf;
    assert 0 in Along(s.ins, g[1].jmp);
    assert !BlockSolved(g, s, 1);
  }

  // ----- a graph without guards on which it does not -----

  /** Block 2 jumps back to block 1, and the only block before that one has another successor.  Nothing
      follows block 1, so what is live there never comes late. */
  function Spared(a: seq<Ins>, b: seq<Ins>, c: seq<Ins>): Cfg {
    [Block(1, a, Some(1), Some(2), []), Block(2, b, None, None, [0, 2]), Block(3, c, None, Some(1), [0])]
  }

  lemma SparedUnguarded(a: seq<Ins>, b: seq<Ins>, c: seq<Ins>)
    ensures !Guarded(Spared(a, b, c))
  {
    var g := Spared(a, b, c);
    assert forall f: nat :: !Guards(g, f, 1);
    assert !EdgeGuarded(g, 2, g[2].jmp);
  }

  function Three(i0: set<nat>, i1: set<nat>, i2: set<nat>, o0: set<nat>, o1: set<nat>, o2: set<nat>): Sets {
    Sets([i0, i1, i2], [o0, o1, o2])
  }

  lemma SparedVisits(a: seq<Ins>, b: seq<Ins>, c: seq<Ins>,
                     i0: set<nat>, i1: set<nat>, i2: set<nat>, o0: set<nat>, o1: set<nat>, o2: set<nat>)
    ensures var g, s := Spared(a, b, c), Three(i0, i1, i2, o0, o1, o2);
      && Visit(g, s, 2) == Three(i0, i1, InOf(g[2], o2), o0, o1, o2 + i1)
      && Visit(g, s, 1) == Three(i0, InOf(g[1], o1), i2, o0, o1, o2)
      && Visit(g, s, 0) == Three(InOf(g[0], o0), i1, i2, o0 + i2 + i1, o1, o2)
  {
    var g, s := Spared(a, b, c), Three(i0, i1, i2, o0, o1, o2);
    hide InOf;
    var none: set<nat> := {};
    assert o2 + i1 + none == o2 + i1 && o1 + none + none == o1;
    assert Visit(g, s, 2).outs == [o0, o1, o2 + i1];
    assert Visit(g, s, 1).outs == [o0, o1, o2];
    assert Visit(g, s, 0).outs == [o0 + i2 + i1, o1, o2];
  }

  lemma PassOne(g: Cfg, s: Sets)
    requires |g| == 3 && Fits(g, s)
    ensures Pass(g, s, 0) == Visit(g, Visit(g, Visit(g, s, 2), 1), 0)
  {
    assert Pass(g, s, 3) == s;
    assert Pass(g, s, 2) == Visit(g, s, 2);
    assert Pass(g, s, 1) == Visit(g, Pass(g, s, 2), 1);
    hide Visit;
  }

  lemma SparedPass(a: seq<Ins>, b: seq<Ins>, c: seq<Ins>,
                   i0: set<nat>, i1: set<nat>, i2: set<nat>, o0: set<nat>, o1: set<nat>, o2: set<nat>)
    ensures var g, s := Spared(a, b, c), Three(i0, i1, i2, o0, o1, o2); var in1, in2 := InOf(g[1], o1), InOf(g[2], o2);
      Pass(g, s, 0) == Three(InOf(g[0], o0), in1, in2, o0 + in2 + in1, o1, o2 + i1)
  {
    var g := Spared(a, b, c);
    var in1, in2 := InOf(g[1], o1), InOf(g[2], o2);
    PassOne(g, Three(i0, i1, i2, o0, o1, o2));
    hide Pass, InOf, Visit, Three, Spared;
    SparedVisits(a, b, c, i0, i1, i2, o0, o1, o2);
    SparedVisits(a, b, c, i0, i1, in2, o0, o1, o2 + i1);
    SparedVisits(a, b, c, i0, in1, in2, o0, o1, o2 + i1);
  }

  /** What block 1 and block 2 read, and what block 2 reads or block 1 does. */
  function Read1(a: seq<Ins>, b: seq<Ins>, c: seq<Ins>): set<nat> {
    InOf(Spared(a, b, c)[1], {})
  }

  function Read2(a: seq<Ins>, b: seq<Ins>, c: seq<Ins>): set<nat> {
    InOf(Spared(a, b, c)[2], {})
  }

  /** The sets after one, two and three passes. */
  function Sets1(a: seq<Ins>, b: seq<Ins>, c: seq<Ins>): Sets {
    Three(InOf(Spared(a, b, c)[0], {}), Read1(a, b, c), Read2(a, b, c), Read2(a, b, c) + Read1(a, b, c), {}, {})
  }

  function Sets2(a: seq<Ins>, b: seq<Ins>, c: seq<Ins>): Sets {
    var o := Read2(a, b, c) + Read1(a, b, c);
    Three(InOf(Spared(a, b, c)[0], o), Read1(a, b, c), Read2(a, b, c), o, {}, Read1(a, b, c))
  }

  function Sets3(a: seq<Ins>, b: seq<Ins>, c: seq<Ins>): Sets {
    var o := Read2(a, b, c) + Read1(a, b, c);
    Three(InOf(Spared(a, b, c)[0], o), Read1(a, b, c), InOf(Spared(a, b, c)[2], Read1(a, b, c)), o, {}, Read1(a, b, c))
  }

  lemma Between(a: seq<Ins>, b: seq<Ins>, c: seq<Ins>)
    ensures var i, u1, u2 := InOf(Spared(a, b, c)[2], Read1(a, b, c)), Read1(a, b, c), Read2(a, b, c);
      u2 <= i <= u2 + u1 && u2 + u1 + u2 + u1 == u2 + u1 && u1 + u1 == u1 && u2 + u1 + i + u1 == u2 + u1 && i + u1 == u2 + u1
  {
    hide Summarize;
  }

  lemma SparedPasses(a: seq<Ins>, b: seq<Ins>, c: seq<Ins>)
    ensures var g := Spared(a, b, c);
      && Pass(g, StartSets(g), 0) == Sets1(a, b, c) && Pass(g, Sets1(a, b, c), 0) == Sets2(a, b, c)
      && Pass(g, Sets2(a, b, c), 0) == Sets3(a, b, c)
  {
    var g, u1, u2 := Spared(a, b, c), Read1(a, b, c), Read2(a, b, c);
    var none: set<nat> := {};
    assert StartSets(g) == Three(none, none, none, none, none, none);
    assert none + u2 + u1 == u2 + u1 && none + u1 == u1 && none + none == none;
    Between(a, b, c);
    SparedPass(a, b, c, none, none, none, none, none, none);
    SparedPass(a, b, c, InOf(g[0], none), u1, u2, u2 + u1, none, none);
    SparedPass(a, b, c, InOf(g[0], u2 + u1), u1, u2, u2 + u1, none, u1);
    hide Pass, InOf, Three;
  }

  lemma ThreeSolved(a: seq<Ins>, b: seq<Ins>, c: seq<Ins>, s: Sets)
    requires var g := Spared(a, b, c);
      && |s.ins| == |s.outs| == 3 && s.ins[0] == InOf(g[0], s.outs[0]) && s.ins[1] == InOf(g[1], s.outs[1]) && s.ins[2] == InOf(g[2], s.outs[2])
      && s.outs[0] == s.ins[2] + s.ins[1] && s.outs[1] == {} && s.outs[2] == s.ins[1]
    ensures Solves(Spared(a, b, c), s)
  {
    var g := Spared(a, b, c);
    hide InOf;
    var none: set<nat> := {};
    assert s.ins[1] + none == s.ins[1] && none + none == none;
    forall k | 0 <= k < 3 ensures BlockSolved(g, s, k) {
    }
  }

  /** Each of them is a solution if the pass that ends there changed no out. */
  lemma SparedEnds(a: seq<Ins>, b: seq<Ins>, c: seq<Ins>)
    ensures var g := Spared(a, b, c);
      && Solves(g, Sets3(a, b, c)) && Sets3(a, b, c).outs == Sets2(a, b, c).outs
      && (Sets2(a, b, c).outs == Sets1(a, b, c).outs ==> Solves(g, Sets2(a, b, c)))
      && (Sets1(a, b, c).outs == [{}, {}, {}] ==> Solves(g, Sets1(a, b, c)))
  {
    var none: set<nat> := {};
    Between(a, b, c);
    ThreeSolved(a, b, c, Sets3(a, b, c));
    if Sets2(a, b, c).outs == Sets1(a, b, c).outs {
      assert Sets2(a, b, c).outs[2] == Sets1(a, b, c).outs[2];
      ThreeSolved(a, b, c, Sets2(a, b, c));
    }
    if Sets1(a, b, c).outs == [{}, {}, {}] {
      assert Sets1(a, b, c).outs[0] == none;
      ThreeSolved(a, b, c, Sets1(a, b, c));
    }
    hide InOf, Solves, Spared;
  }

  lemma NoOuts(g: Cfg)
    requires |g| == 3
    ensures StartSets(g).outs == [{}, {}, {}]
  {
  }

  lemma OncePassed(g: Cfg, s: Sets, count: nat)
    requires Supported(g, s) && InRange(g, count) && Bounded(s, count)
    ensures Fits(g, s) && Supported(g, Pass(g, s, 0)) && Bounded(Pass(g, s, 0), count)
    ensures Iterate(g, s, count) == if Pass(g, s, 0).outs == s.outs then Pass(g, s, 0) else Iterate(g, Pass(g, s, 0), count)
  {
    PassProgress(g, s, count);
    hide Pass, Bounded, InRange, Missing, Supported;
    assert Fits(g, s) by {
      PassFits(g, s);
    }
  }

  /** Guards are enough, but not needed: whatever is in the blocks of this graph, lva ends at a solution. */
  lemma SparedSolved(a: seq<Ins>, b: seq<Ins>, c: seq<Ins>, count: nat)
    requires InRange(Spared(a, b, c), count)
    ensures !Guarded(Spared(a, b, c)) && Solves(Spared(a, b, c), Lva(Spared(a, b, c), count))
  {
    var g := Spared(a, b, c);
    StartOk(g, count);
    assert |g| == 3 && Lva(g, count) == Iterate(g, StartSets(g), count);
    hide *;
    SparedUnguarded(a, b, c);
    SparedPasses(a, b, c);
    SparedEnds(a, b, c);
    NoOuts(g);
    OncePassed(g, StartSets(g), count);
    OncePassed(g, Sets1(a, b, c), count);
    OncePassed(g, Sets2(a, b, c), count);
  }
}
