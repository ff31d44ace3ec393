/** Algebraic simplification and the removal of assignments that nobody reads. */
module Optimize {
  import opened Options
  import opened ThreeAddress
  import opened BasicBlocks
  import opened FlowRun
  import opened LivenessSound
  import opened BlockGraph
  import opened LoweredBlocks

  // ----- opt_algebra -----

  /** One instruction as opt_algebra rewrites it. */
  function Simplify(i: Ins): Ins {
    if !i.Bin? then i
    else
      match i.op
      case Add =>
        if i.a1 == Const(0) then Assign(i.r, i.a2)
        else if i.a2 == Const(0) then Assign(i.r, i.a1)
        else i
      case Sub =>
        if i.a1 == Const(0) then Bin(Mul, i.r, Const(-1), i.a2)
        else if i.a2 == Const(0) then Assign(i.r, i.a1)
        else i
      case Mul =>
        if i.a1 == Const(0) || i.a2 == Const(0) then Assign(i.r, Const(0))
        else if i.a1 == Const(1) then Assign(i.r, i.a2)
        else if i.a1 == Const(2) then Bin(Add, i.r, i.a2, i.a2)
        else if i.a2 == Const(1) then Assign(i.r, i.a1)
        else if i.a2 == Const(2) then Bin(Add, i.r, i.a1, i.a1)
        else i
      case Div =>
        if i.a2 == Const(0) then i
        else if i.a1 == Const(1) then Assign(i.r, i.a2)
        else if i.a2 == Const(1) then Assign(i.r, i.a1)
        else i
      case _ => i
  }

  /** One divided by a symbol, or by a constant that is not its own inverse. */
  predicate InvertsOne(i: Ins) {
    i.Bin? && i.op == Div && i.a1 == Const(1) && i.a2 != Const(0) && i.a2 != Const(1) && i.a2 != Const(-1)
  }

  lemma {:induction false} SimplifyKeeps(i: Ins, s: State)
    requires !InvertsOne(i)
    ensures Effect(Simplify(i), s) == Effect(i, s)
  {
    if i.Bin? && i.op == Div {
      DivByOne(Val(s.env, i.a1));
      assert TruncDiv(1, -1) == -1;
    }
  }

  lemma DivByOne(x: int)
    ensures TruncDiv(x, 1) == x
  {
  }

  /** A state in which one divided by the argument is not the argument. */
  function BadState(i: Ins): State {
    State(if i.Bin? && i.a2.Sym? then map[i.a2.id := 2] else map[], [], [])
  }

  lemma DivOneByLarge(v: int)
    requires v != 0 && v != 1 && v != -1
    ensures TruncDiv(1, v) == 0
  {
  }

  /** The rewriting is right in every state exactly when it does not invert a one. */
  lemma SimplifyExact(i: Ins)
    ensures (forall s :: Effect(Simplify(i), s) == Effect(i, s)) <==> !InvertsOne(i)
  {
    if InvertsOne(i) {
      var s := BadState(i);
      var v := Val(s.env, i.a2);
      DivOneByLarge(v);
      assert Effect(i, s) == Some(s.(env := s.env[i.r := 0]));
      assert Effect(Simplify(i), s) == Some(s.(env := s.env[i.r := v]));
      assert s.env[i.r := 0][i.r] == 0 && s.env[i.r := v][i.r] == v;
      assert Effect(Simplify(i), s) != Effect(i, s);
    } else {
      forall s ensures Effect(Simplify(i), s) == Effect(i, s) {
        SimplifyKeeps(i, s);
      }
    }
  }

  function SimplifyAll(ins: seq<Ins>): (r: seq<Ins>)
    ensures |r| == |ins| && forall k :: 0 <= k < |ins| ==> r[k] == Simplify(ins[k])
  {
    if ins == [] then [] else SimplifyAll(ins[..|ins| - 1]) + [Simplify(ins[|ins| - 1])]
  }

  function Algebra(g: Cfg): (h: Cfg)
    ensures |h| == |g| && forall b :: 0 <= b < |g| ==> h[b] == g[b].(ins := SimplifyAll(g[b].ins))
  {
    if g == [] then []
    else
      var m := |g| - 1;
      Algebra(g[..m]) + [g[m].(ins := SimplifyAll(g[m].ins))]
  }

  // ----- opt_unused_vars -----

  /** The symbols whose use bit an instruction sets; the target of a TIN counts. */
  function Marks(i: Ins): set<nat> {
    match i
    case Bin(_, _, a1, a2) => ArgSyms(a1) + ArgSyms(a2)
    case In(r) => {r}
    case Out(a) => ArgSyms(a)
    case Iff(c, _) => ArgSyms(c)
    case Assign(_, a1) => ArgSyms(a1)
    case _ => {}
  }

  function MarksOf(ins: seq<Ins>): (m: set<nat>)
    ensures forall k :: 0 <= k < |ins| ==> Marks(ins[k]) <= m
  {
    if ins == [] then {} else MarksOf(ins[..|ins| - 1]) + Marks(ins[|ins| - 1])
  }

  function Marked(g: Cfg): (m: set<nat>)
    ensures forall b :: 0 <= b < |g| ==> MarksOf(g[b].ins) <= m
  {
    if g == [] then {} else Marked(g[..|g| - 1]) + MarksOf(g[|g| - 1].ins)
  }

  predicate Dead(use: set<nat>, i: Ins) {
    i.Assign? && i.r !in use
  }

  /** The instructions that stay. */
  function Strip(use: set<nat>, ins: seq<Ins>): (r: seq<Ins>)
    ensures |r| <= |ins|
  {
    if ins == [] then []
    else
      var m := |ins| - 1;
      Strip(use, ins[..m]) + if Dead(use, ins[m]) then [] else [ins[m]]
  }

  function StripAll(use: set<nat>, g: Cfg): (h: Cfg)
    ensures |h| == |g| && forall b :: 0 <= b < |g| ==> h[b] == g[b].(ins := Strip(use, g[b].ins))
  {
    if g == [] then []
    else
      var m := |g| - 1;
      StripAll(use, g[..m]) + [g[m].(ins := Strip(use, g[m].ins))]
  }

  function UnusedVars(g: Cfg): Cfg {
    StripAll(Marked(g), g)
  }

  // ----- walking through a graph whose blocks may have become empty -----

  /** One instruction, or one hop at the end of a block. */
  function Walk(g: Cfg, p: Pos): Option<Pos> {
    if p.b >= |g| || p.i > |g[p.b].ins| then None
    else if p.i == |g[p.b].ins| then Hop(g[p.b].next, p.st)
    else After(g[p.b].jmp, g[p.b].ins[p.i], p)
  }

  /** After instruction i of a block with jump edge e. */
  function After(e: Option<nat>, i: Ins, p: Pos): Option<Pos> {
    match i
    case Jmp(_) => Hop(e, p.st)
    case Iff(a, _) => if Val(p.st.env, a) > 0 then Some(At(p.b, p.i + 1, p.st)) else Hop(e, p.st)
    case _ =>
      match Effect(i, p.st)
      case None => None
      case Some(s) => Some(At(p.b, p.i + 1, s))
  }

  /** Behind the last instruction of the last block. */
  predicate AtEnd(g: Cfg, p: Pos) {
    p.b + 1 == |g| && p.i == |g[p.b].ins|
  }

  /** Where g stops at p, h stops at q, and both at the end or both at an instruction. */
  ghost predicate EndsAlike(g: Cfg, p: Pos, h: Cfg, q: Pos) {
    Walk(g, p).None? ==> Walk(h, q).None? && (AtEnd(g, p) <==> AtEnd(h, q))
  }

  function WalkRun(g: Cfg, p: Pos, n: nat): Option<Pos>
    decreases n
  {
    if n == 0 then Some(p)
    else
      match Walk(g, p)
      case None => None
      case Some(q) => WalkRun(g, q, n - 1)
  }

  lemma WalkNone(g: Cfg, p: Pos)
    ensures WalkRun(g, p, 0) == Some(p)
  {
  }

  lemma WalkFirst(g: Cfg, p: Pos, n: nat)
    requires n > 0
    ensures WalkRun(g, p, n) == if Walk(g, p).Some? then WalkRun(g, Walk(g, p).value, n - 1) else None
  {
  }

  // ----- simplification keeps every run -----

  ghost predicate NoInverse(g: Cfg) {
    forall b, k :: 0 <= b < |g| && 0 <= k < |g[b].ins| ==> !InvertsOne(g[b].ins[k])
  }

  lemma AfterSimplified(e: Option<nat>, i: Ins, p: Pos)
    requires !InvertsOne(i)
    ensures After(e, Simplify(i), p) == After(e, i, p)
  {
    SimplifyKeeps(i, p.st);
    assert i.Bin? ==> Simplify(i).Bin? || Simplify(i).Assign?;
    assert !i.Bin? ==> Simplify(i) == i;
    hide Effect, InvertsOne, Simplify;
  }

  lemma AlgebraStep(g: Cfg, p: Pos)
    requires NoInverse(g)
    ensures Walk(Algebra(g), p) == Walk(g, p)
  {
    hide Effect, InvertsOne, Algebra, Simplify, After;
    if p.b < |g| && p.i < |g[p.b].ins| {
      AfterSimplified(g[p.b].jmp, g[p.b].ins[p.i], p);
    }
  }

  /** Step for step the simplified graph does what the graph does. */
  lemma {:induction false} AlgebraKeepsRuns(g: Cfg, p: Pos, n: nat)
    requires NoInverse(g)
    ensures WalkRun(Algebra(g), p, n) == WalkRun(g, p, n)
    decreases n
  {
    hide *;
    if n == 0 {
      WalkNone(g, p);
      WalkNone(Algebra(g), p);
    } else {
      AlgebraStep(g, p);
      WalkFirst(g, p, n);
      WalkFirst(Algebra(g), p, n);
      if Walk(g, p).Some? {
        AlgebraKeepsRuns(g, Walk(g, p).value, n - 1);
      }
    }
  }

  // ----- removal keeps every run, but for the removed steps -----

  /** The same point of the run before (p) and after (q) the removal. */
  ghost predicate Same(use: set<nat>, g: Cfg, p: Pos, q: Pos) {
    && q.b == p.b && p.st.input == q.st.input && p.st.output == q.st.output && AgreeOn(use, p.st.env, q.st.env)
    && p.b < |g| && p.i <= |g[p.b].ins| && q.i == |Strip(use, g[p.b].ins[..p.i])|
  }

  lemma {:induction false} StripAt(use: set<nat>, ins: seq<Ins>, k: nat)
    requires k <= |ins|
    ensures Strip(use, ins[..k]) <= Strip(use, ins)
    ensures k < |ins| && !Dead(use, ins[k]) ==> Strip(use, ins[..k]) + [ins[k]] <= Strip(use, ins)
  {
    var m := |ins| - 1;
    if k == |ins| {
      assert ins[..k] == ins;
    } else if k < m {
      StripAt(use, ins[..m], k);
      assert ins[..m][..k] == ins[..k];
    }
  }

  lemma StripNext(use: set<nat>, ins: seq<Ins>, k: nat)
    requires k < |ins|
    ensures Strip(use, ins[..k + 1]) == Strip(use, ins[..k]) + if Dead(use, ins[k]) then [] else [ins[k]]
  {
    assert ins[..k + 1][..k] == ins[..k];
  }

  predicate AtDead(use: set<nat>, g: Cfg, p: Pos) {
    p.b < |g| && p.i < |g[p.b].ins| && Dead(use, g[p.b].ins[p.i])
  }

  /** A removed assignment makes no difference. */
  lemma DeadStep(use: set<nat>, g: Cfg, p: Pos, q: Pos)
    requires Same(use, g, p, q) && AtDead(use, g, p)
    ensures Walk(g, p).Some? && Same(use, g, Walk(g, p).value, q) && Walk(g, p).value.b == p.b && Walk(g, p).value.i == p.i + 1
  {
    StripNext(use, g[p.b].ins, p.i);
  }

  lemma HopsSame(use: set<nat>, g: Cfg, e: Option<nat>, p: Pos, q: Pos)
    requires Same(use, g, p, q) && (e.Some? ==> e.value < |g|)
    ensures e.Some? ==> Same(use, g, At(e.value, 0, p.st), At(e.value, 0, q.st))
  {
    if e.Some? {
      assert g[e.value].ins[..0] == [];
    }
  }

  ghost predicate EdgesInside(g: Cfg) {
    forall b :: 0 <= b < |g| ==> (g[b].next.Some? ==> g[b].next.value < |g|) && (g[b].jmp.Some? ==> g[b].jmp.value < |g|)
  }

  /** What the steps of two matching positions have in common. */
  ghost predicate StepsMatch(use: set<nat>, g: Cfg, a: Option<Pos>, b: Option<Pos>) {
    (a.None? <==> b.None?) && (a.Some? ==> Same(use, g, a.value, b.value))
  }

  /** The instruction that q stands before. */
  lemma Survivor(use: set<nat>, g: Cfg, p: Pos, q: Pos)
    requires Same(use, g, p, q) && p.i < |g[p.b].ins| && !Dead(use, g[p.b].ins[p.i])
    ensures q.i < |StripAll(use, g)[q.b].ins| && StripAll(use, g)[q.b].ins[q.i] == g[p.b].ins[p.i]
    ensures Same(use, g, At(p.b, p.i + 1, p.st), At(q.b, q.i + 1, q.st))
  {
    StripAt(use, g[p.b].ins, p.i);
    StripNext(use, g[p.b].ins, p.i);
  }

  lemma SurvivorEffect(use: set<nat>, g: Cfg, p: Pos, q: Pos)
    requires Same(use, g, p, q) && p.i < |g[p.b].ins| && Marked(g) <= use
    ensures var i := g[p.b].ins[p.i];
      && (Effect(i, p.st).None? <==> Effect(i, q.st).None?)
      && (Effect(i, p.st).Some? ==> (
           var (s, t) := (Effect(i, p.st).value, Effect(i, q.st).value);
           s.input == t.input && s.output == t.output && AgreeOn(use, s.env, t.env)))
      && (i.Iff? ==> Val(p.st.env, i.c) == Val(q.st.env, i.c))
  {
    var i := g[p.b].ins[p.i];
    assert Marks(i) <= MarksOf(g[p.b].ins) <= Marked(g);
    assert Uses(i) <= Marks(i);
    hide Marked, MarksOf, Marks, Effect;
    assert AgreeOn(Uses(i) + (use - Defs(i)), p.st.env, q.st.env);
    SameEffect(i, use, p.st, q.st);
    if i.Iff? {
      SameVal(use, p.st.env, q.st.env, i.c);
    }
  }

  /** An instruction that stays does the same before and after. */
  lemma SurvivorStep(use: set<nat>, g: Cfg, p: Pos, q: Pos)
    requires Same(use, g, p, q) && p.i < |g[p.b].ins| && !Dead(use, g[p.b].ins[p.i])
    requires EdgesInside(g) && Marked(g) <= use
    ensures StepsMatch(use, g, Walk(g, p), Walk(StripAll(use, g), q))
  {
    Survivor(use, g, p, q);
    SurvivorEffect(use, g, p, q);
    HopsSame(use, g, g[p.b].jmp, p, q);
    var h, i := StripAll(use, g), g[p.b].ins[p.i];
    assert h[q.b].jmp == g[p.b].jmp;
    hide StripAll, Marked, AgreeOn, Effect, EdgesInside, Dead, Strip;
  }

  lemma EndStep(use: set<nat>, g: Cfg, p: Pos, q: Pos)
    requires Same(use, g, p, q) && p.i == |g[p.b].ins| && EdgesInside(g)
    ensures StepsMatch(use, g, Walk(g, p), Walk(StripAll(use, g), q))
  {
    assert g[p.b].ins[..p.i] == g[p.b].ins;
    HopsSame(use, g, g[p.b].next, p, q);
    hide StripAll, AgreeOn, EdgesInside;
  }

  lemma LiveStepMatches(use: set<nat>, g: Cfg, p: Pos, q: Pos)
    requires Same(use, g, p, q) && !AtDead(use, g, p) && EdgesInside(g) && Marked(g) <= use
    ensures StepsMatch(use, g, Walk(g, p), Walk(StripAll(use, g), q))
  {
    if p.i == |g[p.b].ins| {
      EndStep(use, g, p, q);
    } else {
      SurvivorStep(use, g, p, q);
    }
  }

  /** Where the graph can go no further the stripped one cannot either, for the same reason. */
  lemma EndsSame(use: set<nat>, g: Cfg, p: Pos, q: Pos)
    requires Same(use, g, p, q) && EdgesInside(g) && Marked(g) <= use
    ensures EndsAlike(g, p, StripAll(use, g), q)
  {
    if Walk(g, p).None? {
      if AtDead(use, g, p) {
        DeadStep(use, g, p, q);
      }
      LiveStepMatches(use, g, p, q);
      EndPlace(use, g, p, q);
    }
    hide Same, AtDead, EdgesInside, Marked, Walk, StripAll, AtEnd;
  }

  lemma EndPlace(use: set<nat>, g: Cfg, p: Pos, q: Pos)
    requires Same(use, g, p, q) && !AtDead(use, g, p)
    ensures AtEnd(g, p) <==> AtEnd(StripAll(use, g), q)
  {
    if p.i == |g[p.b].ins| {
      assert g[p.b].ins[..p.i] == g[p.b].ins;
    } else {
      Survivor(use, g, p, q);
    }
    hide AgreeOn, Strip, Dead;
  }

  /** Every run of the graph is a run of the stripped graph, without the removed steps. */
  lemma {:induction false} StripPreserves(use: set<nat>, g: Cfg, p: Pos, q: Pos, n: nat) returns (m: nat)
    requires Same(use, g, p, q) && EdgesInside(g) && Marked(g) <= use && WalkRun(g, p, n).Some?
    ensures m <= n && WalkRun(StripAll(use, g), q, m).Some?
    ensures Same(use, g, WalkRun(g, p, n).value, WalkRun(StripAll(use, g), q, m).value)
    decreases n
  {
    var h := StripAll(use, g);
    hide Same, EdgesInside, Marked, Walk, StripAll, AtDead;
    if n == 0 {
      m := 0;
    } else if AtDead(use, g, p) {
      DeadStep(use, g, p, q);
      m := StripPreserves(use, g, Walk(g, p).value, q, n - 1);
    } else {
      LiveStepMatches(use, g, p, q);
      m := StripPreserves(use, g, Walk(g, p).value, Walk(h, q).value, n - 1);
      m := m + 1;
    }
  }

  /** The removed assignments at p are walked over. */
  lemma {:induction false} SkipDead(use: set<nat>, g: Cfg, p: Pos, q: Pos) returns (k: nat, r: Pos)
    requires Same(use, g, p, q)
    ensures WalkRun(g, p, k) == Some(r) && Same(use, g, r, q) && !AtDead(use, g, r)
    decreases if p.b < |g| then |g[p.b].ins| - p.i else 0
  {
    if AtDead(use, g, p) {
      DeadStep(use, g, p, q);
      k, r := SkipDead(use, g, Walk(g, p).value, q);
      k := k + 1;
    } else {
      k, r := 0, p;
    }
  }

  lemma {:induction false} WalkAdd(g: Cfg, p: Pos, m: nat, n: nat)
    requires WalkRun(g, p, m).Some?
    ensures WalkRun(g, p, m + n) == WalkRun(g, WalkRun(g, p, m).value, n)
    decreases m
  {
    if m > 0 {
      WalkAdd(g, Walk(g, p).value, m - 1, n);
    }
  }

  lemma WalkMore(g: Cfg, p: Pos, k: nat, r: Pos, n: nat)
    requires WalkRun(g, p, k) == Some(r) && Walk(g, r).Some?
    ensures WalkRun(g, p, k + 1 + n) == WalkRun(g, Walk(g, r).value, n)
  {
    WalkAdd(g, p, k, 1 + n);
    hide Walk;
  }

  /** After n steps of the graph and m of the stripped graph the runs match, now and next. */
  ghost predicate Matched(use: set<nat>, g: Cfg, p: Pos, n: nat, q: Pos, m: nat) {
    var (r, t) := (WalkRun(g, p, n), WalkRun(StripAll(use, g), q, m));
    && r.Some? && t.Some? && Same(use, g, r.value, t.value)
    && StepsMatch(use, g, Walk(g, r.value), Walk(StripAll(use, g), t.value))
  }

  lemma MatchedNow(use: set<nat>, g: Cfg, p: Pos, k: nat, r: Pos, q: Pos)
    requires Same(use, g, r, q) && !AtDead(use, g, r) && EdgesInside(g) && Marked(g) <= use && WalkRun(g, p, k) == Some(r)
    ensures Matched(use, g, p, k, q, 0)
  {
    LiveStepMatches(use, g, r, q);
    hide Same, StepsMatch, Walk, AtDead, EdgesInside, Marked, StripAll;
  }

  lemma MatchedLater(use: set<nat>, g: Cfg, p: Pos, k: nat, r: Pos, q: Pos, j: nat, m: nat)
    requires WalkRun(g, p, k) == Some(r) && Walk(g, r).Some? && Walk(StripAll(use, g), q).Some? && m > 0
    requires Matched(use, g, Walk(g, r).value, j, Walk(StripAll(use, g), q).value, m - 1)
    ensures Matched(use, g, p, k + 1 + j, q, m)
  {
    WalkMore(g, p, k, r, j);
    WalkFirst(StripAll(use, g), q, m);
    hide Same, StepsMatch, Walk, WalkRun, StripAll;
  }

  /** Every run of the stripped graph comes from one of the graph; where it can go no further the
      graph cannot either. */
  lemma {:induction false} StripReflects(use: set<nat>, g: Cfg, p: Pos, q: Pos, m: nat) returns (n: nat)
    requires Same(use, g, p, q) && EdgesInside(g) && Marked(g) <= use && WalkRun(StripAll(use, g), q, m).Some?
    ensures m <= n && Matched(use, g, p, n, q, m)
    decreases m
  {
    hide *;
    var k, r := SkipDead(use, g, p, q);
    if m == 0 {
      MatchedNow(use, g, p, k, r, q);
      n := k;
    } else {
      WalkFirst(StripAll(use, g), q, m);
      BothStep(use, g, r, q);
      n := StripReflects(use, g, Walk(g, r).value, Walk(StripAll(use, g), q).value, m - 1);
      MatchedLater(use, g, p, k, r, q, n, m);
      n := k + 1 + n;
    }
  }

  lemma BothStep(use: set<nat>, g: Cfg, p: Pos, q: Pos)
    requires Same(use, g, p, q) && !AtDead(use, g, p) && EdgesInside(g) && Marked(g) <= use
    requires Walk(StripAll(use, g), q).Some?
    ensures Walk(g, p).Some? && Same(use, g, Walk(g, p).value, Walk(StripAll(use, g), q).value)
  {
    LiveStepMatches(use, g, p, q);
    hide Same, AtDead, EdgesInside, Marked, Walk, StripAll;
  }

  // ----- the two passes in sequence -----

  /** The passes as the optimizer runs them. */
  function Optimized(g: Cfg): Cfg {
    UnusedVars(Algebra(g))
  }

  /** Same input left and same output so far. */
  ghost predicate SameTrace(p: Pos, q: Pos) {
    p.st.input == q.st.input && p.st.output == q.st.output
  }

  lemma AlgebraEdges(g: Cfg)
    requires EdgesInside(g)
    ensures EdgesInside(Algebra(g))
  {
  }

  lemma StartSame(use: set<nat>, g: Cfg, st: State)
    requires g != []
    ensures Same(use, g, At(0, 0, st), At(0, 0, st))
  {
    assert g[0].ins[..0] == [];
  }

  lemma AlgebraEnd(g: Cfg, p: Pos)
    ensures AtEnd(Algebra(g), p) <==> AtEnd(g, p)
  {
    if p.b < |g| {
      assert |SimplifyAll(g[p.b].ins)| == |g[p.b].ins|;
    }
  }

  /** Every run of a graph is a run of the optimized graph, with the same trace; where it comes to
      the end, or is stuck, so does the optimized graph. */
  lemma OptimizedPreserves(g: Cfg, st: State, n: nat) returns (m: nat)
    requires g != [] && EdgesInside(g) && NoInverse(g) && WalkRun(g, At(0, 0, st), n).Some?
    ensures m <= n && WalkRun(Optimized(g), At(0, 0, st), m).Some?
    ensures SameTrace(WalkRun(g, At(0, 0, st), n).value, WalkRun(Optimized(g), At(0, 0, st), m).value)
    ensures EndsAlike(g, WalkRun(g, At(0, 0, st), n).value, Optimized(g), WalkRun(Optimized(g), At(0, 0, st), m).value)
  {
    var a := Algebra(g);
    AlgebraEdges(g);
    AlgebraKeepsRuns(g, At(0, 0, st), n);
    StartSame(Marked(a), a, st);
    hide WalkRun, Algebra, StripAll, EdgesInside, Marked, Walk, AtEnd;
    m := StripPreserves(Marked(a), a, At(0, 0, st), At(0, 0, st), n);
    var p := WalkRun(g, At(0, 0, st), n).value;
    AlgebraStep(g, p);
    AlgebraEnd(g, p);
    EndsSame(Marked(a), a, p, WalkRun(Optimized(g), At(0, 0, st), m).value);
  }

  /** Every run of the optimized graph has the trace of a run of the graph, and ends or is stuck
      only where that one is. */
  lemma OptimizedReflects(g: Cfg, st: State, m: nat) returns (n: nat)
    requires g != [] && EdgesInside(g) && NoInverse(g) && WalkRun(Optimized(g), At(0, 0, st), m).Some?
    ensures m <= n && WalkRun(g, At(0, 0, st), n).Some?
    ensures SameTrace(WalkRun(g, At(0, 0, st), n).value, WalkRun(Optimized(g), At(0, 0, st), m).value)
    ensures Walk(Optimized(g), WalkRun(Optimized(g), At(0, 0, st), m).value).None?
       <==> Walk(g, WalkRun(g, At(0, 0, st), n).value).None?
    ensures EndsAlike(g, WalkRun(g, At(0, 0, st), n).value, Optimized(g), WalkRun(Optimized(g), At(0, 0, st), m).value)
  {
    var a := Algebra(g);
    AlgebraEdges(g);
    StartSame(Marked(a), a, st);
    hide WalkRun, Algebra, StripAll, EdgesInside, Marked, Walk, AtEnd;
    n := StripReflects(Marked(a), a, At(0, 0, st), At(0, 0, st), m);
    AlgebraKeepsRuns(g, At(0, 0, st), n);
    var p := WalkRun(g, At(0, 0, st), n).value;
    AlgebraStep(g, p);
    AlgebraEnd(g, p);
    EndsSame(Marked(a), a, p, WalkRun(Optimized(g), At(0, 0, st), m).value);
  }

  // ----- from linear code to the optimized graph -----

  lemma StepWalks(g: Cfg, p: Pos) returns (m: nat)
    requires Step(g, p).Some?
    ensures WalkRun(g, p, m) == Step(g, p)
  {
    var q := Walk(g, p).value;
    WalkFirst(g, p, 1);
    WalkNone(g, q);
    m := 1;
    if Step(g, p) != Walk(g, p) {
      m := 2;
      WalkFirst(g, p, 2);
      WalkFirst(g, q, 1);
      WalkNone(g, Walk(g, q).value);
    }
    hide WalkRun, Effect;
  }

  lemma {:induction false} RunWalks(g: Cfg, p: Pos, n: nat) returns (m: nat)
    requires RunCfg(g, p, n).Some?
    ensures WalkRun(g, p, m) == RunCfg(g, p, n)
    decreases n
  {
    if n == 0 {
      m := 0;
    } else {
      var k := StepWalks(g, p);
      var j := RunWalks(g, Step(g, p).value, n - 1);
      WalkAdd(g, p, k, j);
      m := k + j;
    }
    hide Step, Walk;
  }

  lemma GraphEdges(code: seq<Ins>, g: Cfg)
    requires GraphOf(code, g)
    ensures EdgesInside(g) && g != []
  {
    forall b | 0 <= b < |g|
      ensures (g[b].next.Some? ==> g[b].next.value < |g|) && (g[b].jmp.Some? ==> g[b].jmp.value < |g|)
    {
      assert GoodBlock(g, b);
    }
  }

  lemma TraceOf(g: Cfg, p: Pos, q: Pos)
    requires InGraph(g, p) && SameTrace(p, q)
    ensures Linear(g, p).st.output == q.st.output && Linear(g, p).st.input == q.st.input
  {
  }

  /** What a position says of the code: the walk stops exactly where the code does, at the end or at
      an instruction. */
  ghost predicate StopsLike(code: seq<Ins>, d: Config, g: Cfg, q: Pos) {
    Next(code, d).None? ==> Walk(g, q).None? && (AtEnd(g, q) <==> d.pc == |code|)
  }

  lemma EndOfCode(code: seq<Ins>, g: Cfg, p: Pos)
    requires GraphOf(code, g) && InGraph(g, p)
    ensures AtEnd(g, p) <==> Linear(g, p).pc == |code|
  {
    AtInstruction(code, g, p);
    hide GraphOf, Linear;
  }

  /** Where the code stops, the walk of its graph stops. */
  lemma CodeStops(code: seq<Ins>, g: Cfg, p: Pos)
    requires DistinctLabels(code) && GraphOf(code, g) && InGraph(g, p)
    ensures StopsLike(code, Linear(g, p), g, p)
  {
    StepAgrees(code, g, p);
    EndOfCode(code, g, p);
    if Step(g, p).None? {
      StepEnds(code, g, p);
    }
    hide GraphOf, Linear, DistinctLabels, InGraph, Walk, Step, Next, AtEnd;
  }

  lemma StepEnds(code: seq<Ins>, g: Cfg, q: Pos)
    requires GraphOf(code, g) && InGraph(g, q) && Step(g, q).None?
    ensures Walk(g, q).None?
  {
    assert GoodBlock(g, q.b);
    hide Effect;
  }

  lemma StopsThrough(code: seq<Ins>, d: Config, g: Cfg, p: Pos, h: Cfg, q: Pos)
    requires StopsLike(code, d, g, p) && EndsAlike(g, p, h, q)
    ensures StopsLike(code, d, h, q)
  {
    hide Next, Walk, AtEnd;
  }

  /** Whatever linear code does, the optimized graph of that code does; where the code ends, or is
      stuck, so does the graph. */
  lemma OptimizedCode(code: seq<Ins>, g: Cfg, st: State, n: nat) returns (m: nat)
    requires DistinctLabels(code) && GraphOf(code, g) && NoInverse(g) && Run(code, Config(0, st), n).Some?
    ensures WalkRun(Optimized(g), At(0, 0, st), m).Some?
    ensures var d, q := Run(code, Config(0, st), n).value, WalkRun(Optimized(g), At(0, 0, st), m).value;
      d.st.output == q.st.output && d.st.input == q.st.input && StopsLike(code, d, Optimized(g), q)
  {
    hide *;
    EntryPoint(code, g, st);
    RunsAgree(code, g, At(0, 0, st), n);
    var k := RunWalks(g, At(0, 0, st), n);
    GraphEdges(code, g);
    m := OptimizedPreserves(g, st, k);
    var p, q := RunCfg(g, At(0, 0, st), n).value, WalkRun(Optimized(g), At(0, 0, st), m).value;
    TraceOf(g, p, q);
    CodeStops(code, g, p);
    StopsThrough(code, Run(code, Config(0, st), n).value, g, p, Optimized(g), q);
  }
}
