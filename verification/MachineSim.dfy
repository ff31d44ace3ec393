/** What the code of an item does on the machine, compared with the instruction it was made for. */
module MachineSim {
  import opened Options
  import opened ThreeAddress
  import opened Tm
  import opened TmRun
  import opened Spares
  import opened SpareCode
  import opened SpareBlocks
  import opened SpareEnds
  import opened SpareSweep
  import opened InsLiveness
  import opened LivenessSound
  import opened LoopAllocation
  import opened MachineCode
  import opened BackPatch

  // ----- machine and program -----

  /** The machine holds an environment that agrees with the state on live, and memory is up to date
      but for what was written in the block. */
  ghost predicate Holds(d: Desc, e: Env, live: set<nat>, w: set<nat>, st: State, m: Machine) {
    Rel(d, e, m, None) && IOAgrees(st, m) && Clean(d, e, m, w) && AgreeOn(live, st.env, e)
  }

  /** The register of a comparison holds the difference of its operands: with it the jump of the test
      is taken exactly when the comparison is false. */
  ghost predicate Decides(d: Desc, e: Env, cmp: Ins, st: State)
    requires cmp.Bin?
  {
    RegOf(d, Sym(cmp.r)).Some? && (Taken(TestOp(cmp.op), Get(e, cmp.r)) <==> Get(st.env, cmp.r) <= 0)
  }

  lemma CleanEnv(d: Desc, e: Env, f: Env, m: Machine, w: set<nat>)
    requires Clean(d, e, m, w) && forall x :: x !in w ==> Get(e, x) == Get(f, x)
    ensures Clean(d, f, m, w)
  {
    forall x | x in d.loaded && x >= REGISTER_COUNT && x !in w ensures CleanAt(f, m, x) {
      assert CleanAt(e, m, x);
    }
  }

  lemma EffectElsewhere(i: Ins, t: State)
    requires Effect(i, t).Some?
    ensures forall x :: x !in Defs(i) ==> Get(t.env, x) == Get(Effect(i, t).value.env, x)
  {
  }

  lemma LessLive(live: set<nat>, less: set<nat>, a: Env, b: Env)
    requires AgreeOn(live, a, b) && less <= live
    ensures AgreeOn(less, a, b)
  {
  }

  /** The code of an instruction, from a machine that agrees with the state on what is live. */
  lemma StraightOk(d: Desc, i: Ins, st: State, m: Machine, e: Env, out: set<nat>, w: set<nat>) returns (f: Env)
    requires Holds(d, e, Uses(i) + (out - Defs(i)), w, st, m) && Ready(d, i) && SpareCode.Straight(i)
    ensures GenIns(d, i).Some? && AllPlain(GenIns(d, i).value.1)
    ensures var (d1, code) := GenIns(d, i).value;
      match Effect(i, st)
      case None => Exec(code, m).None?
      case Some(s) => Exec(code, m).Some? && Holds(d1, f, out, DirtyBehind(d, i, w), s, Exec(code, m).value)
  {
    var t := State(e, st.input, st.output);
    SameEffect(i, out, st, t);
    assert Generated(i);
    CleanMore(d, e, m, w, w + Defs(i));
    GenOk(d, i, t, m);
    GenClean(d, i, e, m, w + Defs(i));
    f := e;
    if Effect(i, t).Some? {
      f := Effect(i, t).value.env;
      EffectElsewhere(i, t);
      hide Rel, Clean, Effect, GenIns, Exec, AllPlain, Ready, AgreeOn, SpareCode.Straight;
      CleanBehind(d, i, t, m, w);
    }
  }

  /** Memory is up to date but for what is resident and dirty. */
  lemma CleanResident(d: Desc, e: Env, m: Machine, w: set<nat>)
    requires Rel(d, e, m, None) && Clean(d, e, m, w)
    ensures Clean(d, e, m, w * InSpares(d))
  {
    forall x | x in d.loaded && x >= REGISTER_COUNT && x !in w * InSpares(d) ensures CleanAt(e, m, x) {
      assert Located(d, e, m, Sym(x));
      if x in w {
        assert RegOf(d, Sym(x)).None?;
      }
    }
  }

  lemma SelfClean(d: Desc, i: Ins, t: State, m: Machine, w: set<nat>)
    requires i.Assign? && i.a1 == Sym(i.r) && Clean(d, t.env, m, w)
    ensures GenIns(d, i) == Some((d, [])) && Exec([], m) == Some(m) && Clean(d, Effect(i, t).value.env, m, w)
  {
    ExecNil(m);
    CleanEnv(d, t.env, Effect(i, t).value.env, m, w);
  }

  /** Behind the code of an instruction, if what was written may be out of date it may be so only for
      what a register holds. */
  lemma CleanBehind(d: Desc, i: Ins, t: State, m: Machine, w: set<nat>)
    requires GenIns(d, i).Some? && AllPlain(GenIns(d, i).value.1) && Exec(GenIns(d, i).value.1, m).Some? && Effect(i, t).Some?
    requires Clean(d, t.env, m, w) && StaysClean(GenIns(d, i), t.env, m, w + Defs(i))
    requires Rel(GenIns(d, i).value.0, Effect(i, t).value.env, Exec(GenIns(d, i).value.1, m).value, None)
    ensures Clean(GenIns(d, i).value.0, Effect(i, t).value.env, Exec(GenIns(d, i).value.1, m).value, DirtyBehind(d, i, w))
  {
    var (d1, c) := GenIns(d, i).value;
    var f, n := Effect(i, t).value.env, Exec(c, m).value;
    StaysParts(GenIns(d, i), t.env, m, w + Defs(i));
    EffectElsewhere(i, t);
    WritesAre(i);
    DirtyIs(d, i, w);
    hide *;
    if Writes(i) == Defs(i) {
      CleanEnv(d1, t.env, f, n, w + Defs(i));
      CleanResident(d1, f, n, w + Writes(i));
    } else {
      SelfClean(d, i, t, m, w);
      CleanMore(d1, f, n, w, w + Writes(i));
      CleanResident(d1, f, n, w + Writes(i));
    }
  }

  lemma WritesAre(i: Ins)
    ensures Writes(i) == Defs(i) || (i.Assign? && i.a1 == Sym(i.r))
  {
  }

  lemma DirtyIs(d: Desc, i: Ins, w: set<nat>)
    requires GenIns(d, i).Some?
    ensures DirtyBehind(d, i, w) == (w + Writes(i)) * InSpares(GenIns(d, i).value.0)
  {
    hide GenIns, InSpares, Writes;
  }

  lemma CompareDecides(i: Ins, x: int, y: int)
    requires Ordering(i)
    ensures Taken(TestOp(i.op), x - y) <==> Apply(i.op, x, y).value <= 0
  {
    TestExact(i.op);
    assert Taken(TestOp(i.op), x - y) <==> Apply(i.op, x, y) == Some(0);
  }

  lemma HoldsParts(d: Desc, e: Env, live: set<nat>, w: set<nat>, st: State, m: Machine)
    ensures Holds(d, e, live, w, st, m) <==> Rel(d, e, m, None) && IOAgrees(st, m) && Clean(d, e, m, w) && AgreeOn(live, st.env, e)
    ensures IOAgrees(State(e, st.input, st.output), m) <==> IOAgrees(st, m)
  {
  }

  lemma OrderingKind(i: Ins, st: State)
    requires Ordering(i)
    ensures i.Bin? && Comparison(i.op) && Generated(i) && Defs(i) == {i.r} && Effect(i, st).Some?
    ensures var v := Apply(i.op, Val(st.env, i.a1), Val(st.env, i.a2));
      v.Some? && Effect(i, st).value == State(st.env[i.r := v.value], st.input, st.output)
  {
  }

  lemma WrittenValue(env: Env, r: nat, x: int)
    ensures Get(env[r := x], r) == x && forall y :: y != r ==> Get(env[r := x], y) == Get(env, y)
  {
  }

  lemma DecidesNow(d: Desc, i: Ins, a: Env, b: Env, x: int, y: int, st: State, s: State)
    requires Ordering(i) && RegOf(d, Sym(i.r)).Some?
    requires Get(b, i.r) == x - y && Apply(i.op, x, y).Some? && Get(s.env, i.r) == Apply(i.op, x, y).value
    ensures Decides(d, b, i, s)
  {
    CompareDecides(i, x, y);
    hide Taken, TestOp, RegOf;
  }

  lemma StaysParts(g: Option<(Desc, seq<Instr>)>, env: Env, m: Machine, w: set<nat>)
    requires StaysClean(g, env, m, w)
    ensures g.Some? && AllPlain(g.value.1) && (Exec(g.value.1, m).Some? ==> Clean(g.value.0, env, Exec(g.value.1, m).value, w))
  {
  }

  /** A comparison leaves the difference where the program has the truth value. */
  lemma CompareStep(d: Desc, i: Ins, st: State, m: Machine, e: Env, out: set<nat>, w: set<nat>) returns (f: Env)
    requires Holds(d, e, Uses(i) + (out - Defs(i)), w, st, m) && Ready(d, i) && Ordering(i)
    ensures GenIns(d, i).Some? && AllPlain(GenIns(d, i).value.1) && Effect(i, st).Some?
    ensures var (d1, code) := GenIns(d, i).value;
      && Exec(code, m).Some? && Holds(d1, f, out - {i.r}, DirtyBehind(d, i, w), Effect(i, st).value, Exec(code, m).value)
      && Decides(d1, f, i, Effect(i, st).value)
  {
    hide *;
    OrderingKind(i, st);
    HoldsParts(d, e, Uses(i) + (out - Defs(i)), w, st, m);
    var w' := w + Defs(i);
    CleanMore(d, e, m, w, w');
    GenClean(d, i, e, m, w');
    var r1, n := CompareOk(d, i, State(e, st.input, st.output), m);
    var d1 := GenIns(d, i).value.0;
    StaysParts(GenIns(d, i), e, m, w');
    CompareValues(i, st.env, e, out);
    var x, y := Val(st.env, i.a1), Val(st.env, i.a2);
    f := e[i.r := x - y];
    var s := Effect(i, st).value;
    WrittenValue(e, i.r, x - y);
    WrittenValue(st.env, i.r, Apply(i.op, x, y).value);
    CleanEnv(d1, e, f, n, w');
    OrderingWrites(i);
    CleanResident(d1, f, n, w');
    DirtyIs(d, i, w);
    AgreeWritten(out, i.r, x - y, Apply(i.op, x, y).value, st.env, e);
    DecidesNow(d1, i, e, f, x, y, st, s);
    SameStreams(State(e, st.input, st.output), s, n);
    HoldsParts(d1, f, out - {i.r}, DirtyBehind(d, i, w), s, n);
  }

  lemma OrderingWrites(i: Ins)
    requires Ordering(i)
    ensures Writes(i) == Defs(i)
  {
  }

  lemma SameStreams(a: State, b: State, n: Machine)
    requires a.input == b.input && a.output == b.output
    ensures IOAgrees(a, n) <==> IOAgrees(b, n)
  {
  }

  lemma CompareValues(i: Ins, a: Env, b: Env, out: set<nat>)
    requires AgreeOn(Uses(i) + (out - Defs(i)), a, b) && i.Bin?
    ensures Val(a, i.a1) == Val(b, i.a1) && Val(a, i.a2) == Val(b, i.a2)
    ensures AgreeOn(out - {i.r}, a, b)
  {
    SameVal(Uses(i) + (out - Defs(i)), a, b, i.a1);
    SameVal(Uses(i) + (out - Defs(i)), a, b, i.a2);
  }

  lemma AgreeWritten(out: set<nat>, r: nat, x: int, y: int, a: Env, b: Env)
    requires AgreeOn(out - {r}, a, b)
    ensures AgreeOn(out - {r}, a[r := y], b[r := x])
  {
  }

  // ----- free_regs and the stores at the end of a block -----

  /** Nowhere in front of the end of a block does free_regs take a register from a symbol that is live
      behind the instruction and has its value only there. */
  ghost predicate SweepsSafe(code: seq<Ins>, live: LiveSets)
    requires |live| == |code| + 1
  {
    forall p :: 0 <= p < |code| && !EndsBlock(code, p) ==>
      SafeAt(code, live, p, DescAt(code, live, p), DirtyAt(code, live, p))
  }

  ghost predicate SafeAt(code: seq<Ins>, live: LiveSets, p: nat, d: Desc, w: set<nat>)
    requires |live| == |code| + 1 && p < |code|
  {
    SweepSafe(live[p + 1], DirtyBehind(d, code[p], w), OutAt(code, live, p))
  }

  lemma SweepHolds(d: Desc, e: Env, live: set<nat>, w: set<nat>, st: State, m: Machine, keep: set<nat>, out: set<nat>) returns (f: Env)
    requires Holds(d, e, live, w, st, m) && SweepSafe(keep, w, out)
    ensures Holds(Swept(d, out), f, live * keep, w * InSpares(Swept(d, out)), st, m) && AgreeOn(keep, e, f)
  {
    f := SweepOk(d, out, keep, w, e, m);
    CleanResident(Swept(d, out), f, m, w);
    LessLive(live, live * keep, st.env, e);
    LessLive(keep, live * keep, e, f);
    AgreeTrans(live * keep, st.env, e, f);
    hide Rel, Clean, AgreeOn, Swept, SweepSafe;
  }

  lemma BoundaryHolds(d: Desc, e: Env, live: set<nat>, w: set<nat>, st: State, m: Machine, out: set<nat>) returns (f: Env)
    requires Holds(d, e, live, w, st, m) && out <= live
    ensures AllPlain(BoundaryCode(d, out)) && Exec(BoundaryCode(d, out), m).Some?
    ensures var n := Exec(BoundaryCode(d, out), m).value; Holds(Emptied(d), f, out, {}, st, n) && n.reg == m.reg
  {
    var n;
    f, n := BoundaryOk(d, out, e, m);
    LessLive(live, out, st.env, e);
    AgreeTrans(out, st.env, e, f);
    CleanStart(Emptied(d), f, n);
    IOThrough(st, m, n);
    hide Rel, Clean, AgreeOn, BoundaryCode, Exec, AllPlain, IOAgrees;
  }

  /** The state behind an instruction, as its code has to leave it. */
  ghost predicate Reaches(c: seq<Instr>, m: Machine, d: Desc, e: Env, live: set<nat>, w: set<nat>, s: Option<State>) {
    AllPlain(c) &&
    match s
    case None => Exec(c, m).None?
    case Some(st) => Exec(c, m).Some? && Holds(d, e, live, w, st, Exec(c, m).value)
  }

  /** In the middle of a block. */
  lemma MiddleOk(c: seq<Instr>, m: Machine, d: Desc, e: Env, live: set<nat>, w: set<nat>, s: Option<State>, out: set<nat>) returns (f: Env)
    requires Reaches(c, m, d, e, live, w, s) && SweepSafe(live, w, out)
    ensures Reaches(c, m, Swept(d, out), f, live, w * InSpares(Swept(d, out)), s)
  {
    f := e;
    if s.Some? {
      assert live * live == live;
      hide Holds, Swept, Exec, AllPlain, SweepSafe;
      f := SweepHolds(d, e, live, w, s.value, Exec(c, m).value, live, out);
    }
  }

  lemma EndSafe(live: set<nat>, w: set<nat>, out: set<nat>)
    requires live <= out
    ensures SweepSafe(live, w, out)
  {
  }

  /** At the end of one. */
  lemma EndOk(c: seq<Instr>, m: Machine, d: Desc, e: Env, live: set<nat>, w: set<nat>, s: Option<State>, out: set<nat>) returns (f: Env)
    requires Sane(d) && Reaches(c, m, d, e, live, w, s) && live <= out
    ensures Reaches(c + BoundaryCode(Swept(d, out), live), m, Emptied(Swept(d, out)), f, live, {}, s)
  {
    var d1 := Swept(d, out);
    SweptSane(d, out);
    BoundaryPlain(d1, live);
    EndSafe(live, w, out);
    ExecAppend(c, BoundaryCode(d1, live), m);
    hide Swept, Holds, Exec, AllPlain, SweepSafe, BoundaryCode, Sane;
    f := MiddleOk(c, m, d, e, live, w, s, out);
    if s.Some? {
      f := BoundaryHolds(d1, f, live, w, s.value, Exec(c, m).value, live);
    }
  }

  lemma EndKept(code: seq<Ins>, live: LiveSets, p: nat)
    requires |live| == |code| + 1 && p < |code| && EndsBlock(code, p)
    ensures LiveOut(code, live, p) <= OutAt(code, live, p)
  {
  }

  lemma PlainOut(code: seq<Ins>, live: LiveSets, p: nat)
    requires Closed(code, live) && p < |code| && !IsControl(code[p])
    ensures LiveOut(code, live, p) == live[p + 1] && Uses(code[p]) + (live[p + 1] - Defs(code[p])) <= live[p]
  {
    assert LiveIn(code, live, p) <= live[p];
  }

  lemma HoldsLess(d: Desc, e: Env, live: set<nat>, less: set<nat>, w: set<nat>, st: State, m: Machine)
    requires Holds(d, e, live, w, st, m) && less <= live
    ensures Holds(d, e, less, w, st, m)
  {
    hide Rel, Clean;
  }

  /** What is dirty in front of the next instruction. */
  function DirtyNext(code: seq<Ins>, p: nat, d: Desc, w: set<nat>, next: Desc): set<nat>
    requires p < |code|
  {
    if EndsBlock(code, p) then {} else DirtyBehind(d, code[p], w) * InSpares(next)
  }

  /** What PlainItem makes of the code of an instruction. */
  lemma PlainIs(d: Desc, code: seq<Ins>, live: LiveSets, p: nat)
    requires |live| == |code| + 1 && p < |code| && GenIns(d, code[p]).Some?
    ensures var (d1, c) := GenIns(d, code[p]).value; var f := Swept(d1, OutAt(code, live, p));
      PlainItem(d, code, live, p)
      == if EndsBlock(code, p) then Some((Emptied(f), Item.Straight(c + BoundaryCode(f, LiveOut(code, live, p)))))
         else Some((f, Item.Straight(c)))
  {
    hide GenIns, Swept, OutAt, BoundaryCode, LiveOut, Emptied;
  }

  /** The code of an arithmetic instruction, an assignment, an input or an output. */
  lemma PlainOk(code: seq<Ins>, live: LiveSets, p: nat, d: Desc, w: set<nat>, st: State, m: Machine, e: Env) returns (f: Env)
    requires Closed(code, live) && p < |code| && SpareCode.Straight(code[p]) && (!EndsBlock(code, p) ==> SafeAt(code, live, p, d, w))
    requires Sane(d) && Ready(d, code[p]) && Holds(d, e, live[p], w, st, m)
    ensures PlainItem(d, code, live, p).Some? && PlainItem(d, code, live, p).value.1.Straight?
    ensures var (d1, i) := PlainItem(d, code, live, p).value;
      Reaches(i.code, m, d1, f, live[p + 1], DirtyNext(code, p, d, w, d1), Effect(code[p], st))
  {
    var i := code[p];
    assert !EndsBlock(code, p) ==> SweepSafe(live[p + 1], DirtyBehind(d, i, w), OutAt(code, live, p));
    StraightPlain(i);
    hide *;
    PlainOut(code, live, p);
    HoldsLess(d, e, live[p], Uses(i) + (live[p + 1] - Defs(i)), w, st, m);
    f := StraightOk(d, i, st, m, e, live[p + 1], w);
    GenTotal(d, i);
    PlainIs(d, code, live, p);
    var (d1, c) := GenIns(d, i).value;
    ReachesIs(c, m, d1, f, live[p + 1], DirtyBehind(d, i, w), Effect(i, st));
    DirtyNextIs(code, p, d, w, Swept(d1, OutAt(code, live, p)));
    DirtyNextIs(code, p, d, w, Emptied(Swept(d1, OutAt(code, live, p))));
    if EndsBlock(code, p) {
      EndKept(code, live, p);
      f := EndOk(c, m, d1, f, live[p + 1], DirtyBehind(d, i, w), Effect(i, st), OutAt(code, live, p));
    } else {
      f := MiddleOk(c, m, d1, f, live[p + 1], DirtyBehind(d, i, w), Effect(i, st), OutAt(code, live, p));
    }
  }

  lemma DirtyNextIs(code: seq<Ins>, p: nat, d: Desc, w: set<nat>, next: Desc)
    requires p < |code|
    ensures DirtyNext(code, p, d, w, next) == if EndsBlock(code, p) then {} else DirtyBehind(d, code[p], w) * InSpares(next)
  {
    hide DirtyBehind, InSpares;
  }

  lemma StraightPlain(i: Ins)
    requires SpareCode.Straight(i)
    ensures !IsControl(i)
  {
  }

  lemma ReachesIs(c: seq<Instr>, m: Machine, d: Desc, e: Env, live: set<nat>, w: set<nat>, s: Option<State>)
    requires AllPlain(c)
    requires match s
      case None => Exec(c, m).None?
      case Some(st) => Exec(c, m).Some? && Holds(d, e, live, w, st, Exec(c, m).value)
    ensures Reaches(c, m, d, e, live, w, s)
  {
  }

  // ----- comparisons and tests -----

  lemma CompareKept(code: seq<Ins>, live: LiveSets, p: nat)
    requires Closed(code, live) && p + 1 < |code| && Ordering(code[p]) && code[p + 1].Iff? && code[p + 1].c == Sym(code[p].r)
    ensures !EndsBlock(code, p) && code[p].r in OutAt(code, live, p) && code[p].r in live[p + 1]
  {
    assert LiveIn(code, live, p + 1) <= live[p + 1];
    assert code[p].r in Mentions(code[p]) && code[p].r in Uses(code[p + 1]);
  }

  lemma DecidesStill(d: Desc, e: Env, f: Env, cmp: Ins, st: State, out: set<nat>, live: set<nat>)
    requires cmp.Bin? && Decides(d, e, cmp, st) && AgreeOn(live, e, f) && cmp.r in live && cmp.r in out && Shaped(d)
    ensures Decides(Swept(d, out), f, cmp, st)
  {
    SweptKeeps(d, out, cmp.r);
    hide Swept, RegOf, Shaped, Taken, TestOp;
  }

  lemma SameSet(live: set<nat>, r: nat)
    ensures (live - {r}) * live == live - {r}
  {
  }

  lemma SaneShaped(d: Desc, e: Env, live: set<nat>, w: set<nat>, st: State, m: Machine)
    requires Holds(d, e, live, w, st, m)
    ensures Shaped(d) && Sane(d)
  {
  }

  /** The code of a comparison in front of its test. */
  lemma ComparedOk(code: seq<Ins>, live: LiveSets, p: nat, d: Desc, w: set<nat>, st: State, m: Machine, e: Env) returns (f: Env)
    requires Closed(code, live) && p + 1 < |code| && (!EndsBlock(code, p) ==> SafeAt(code, live, p, d, w))
    requires Ordering(code[p]) && code[p + 1].Iff? && code[p + 1].c == Sym(code[p].r)
    requires Ready(d, code[p]) && Holds(d, e, live[p], w, st, m)
    ensures PlainItem(d, code, live, p).Some? && PlainItem(d, code, live, p).value.1.Straight? && Effect(code[p], st).Some?
    ensures var (d1, i) := PlainItem(d, code, live, p).value;
      && AllPlain(i.code) && Exec(i.code, m).Some?
      && Holds(d1, f, live[p + 1] - {code[p].r}, DirtyNext(code, p, d, w, d1), Effect(code[p], st).value, Exec(i.code, m).value)
      && Decides(d1, f, code[p], Effect(code[p], st).value)
  {
    var i := code[p];
    assert !EndsBlock(code, p) ==> SweepSafe(live[p + 1], DirtyBehind(d, i, w), OutAt(code, live, p));
    assert i.Bin? && !IsControl(i);
    hide *;
    CompareKept(code, live, p);
    OrderingKind(i, st);
    PlainOut(code, live, p);
    HoldsLess(d, e, live[p], Uses(i) + (live[p + 1] - Defs(i)), w, st, m);
    var f0 := CompareStep(d, i, st, m, e, live[p + 1], w);
    PlainIs(d, code, live, p);
    var (d1, c) := GenIns(d, i).value;
    var s, n := Effect(i, st).value, Exec(c, m).value;
    DirtyNextIs(code, p, d, w, Swept(d1, OutAt(code, live, p)));
    SaneShaped(d1, f0, live[p + 1] - {i.r}, DirtyBehind(d, i, w), s, n);
    SameSet(live[p + 1], i.r);
    f := SweepHolds(d1, f0, live[p + 1] - {i.r}, DirtyBehind(d, i, w), s, n, live[p + 1], OutAt(code, live, p));
    DecidesStill(d1, f0, f, i, s, OutAt(code, live, p), live[p + 1]);
  }

  lemma TestOut(code: seq<Ins>, live: LiveSets, p: nat, r: nat)
    requires Closed(code, live) && p < |code| && code[p].Iff? && r !in LiveOut(code, live, p)
    ensures LiveOut(code, live, p) <= live[p] - {r}
  {
    assert LiveIn(code, live, p) <= live[p];
  }

  lemma HeldAt(d: Desc, e: Env, m: Machine, x: nat, r: nat)
    requires Rel(d, e, m, None) && RegOf(d, Sym(x)) == Some(r)
    ensures m.reg[r] == Get(e, x)
  {
    assert Located(d, e, m, Sym(x));
  }

  lemma OpsIO(o: Ops, env: Env, m: Machine, hole: Option<Arg>)
    requires OpsOk(o, env, m, hole)
    ensures AllPlain(o.code) && Exec(o.code, m).Some? && SameIO(m, Exec(o.code, m).value)
  {
  }

  lemma NothingOpen(w: set<nat>)
    ensures Open(None, w)
  {
  }

  lemma KnownHere(d: Desc, r: nat)
    requires Shaped(d) && RegOf(d, Sym(r)).Some?
    ensures Known(d, Sym(r))
  {
  }

  lemma DecidesParts(d: Desc, e: Env, cmp: Ins, st: State)
    requires cmp.Bin? && Decides(d, e, cmp, st)
    ensures RegOf(d, Sym(cmp.r)).Some? && (Taken(TestOp(cmp.op), Get(e, cmp.r)) <==> Get(st.env, cmp.r) <= 0)
  {
  }

  /** The code in front of the jump of a test: the operands, and the stores.  The jump will be taken
      exactly when the program takes it. */
  lemma TestItemOk(d: Desc, cmp: Ins, st: State, m: Machine, e: Env, live: set<nat>, w: set<nat>, out: set<nat>, l: nat) returns (f: Env)
    requires cmp.Bin? && Holds(d, e, live, w, st, m) && Decides(d, e, cmp, st) && out <= live
    requires InMemory(Sym(cmp.r)) && InMemory(cmp.a1) && InMemory(cmp.a2) && Known(d, cmp.a1) && Known(d, cmp.a2)
    ensures TestItem(d, cmp, out, l).Some? && TestItem(d, cmp, out, l).value.1.Test?
    ensures var (d1, i) := TestItem(d, cmp, out, l).value;
      && i.op == TestOp(cmp.op) && i.l == l && 0 <= i.r1 < GP
      && AllPlain(i.stores) && Exec(i.stores, m).Some?
      && Holds(d1, f, out, {}, st, Exec(i.stores, m).value)
      && (Taken(i.op, Exec(i.stores, m).value.reg[i.r1]) <==> Get(st.env, cmp.r) <= 0)
  {
    DecidesParts(d, e, cmp, st);
    SaneShaped(d, e, live, w, st, m);
    HoldsParts(d, e, live, w, st, m);
    NothingOpen(w);
    KnownHere(d, cmp.r);
    GetReg3Clean(d, e, m, None, cmp.r, cmp.a1, cmp.a2, w);
    GetReg3Ok(d, e, m, None, cmp.r, cmp.a1, cmp.a2);
    var o := GetReg3(d, cmp.r, cmp.a1, cmp.a2).value;
    hide *;
    OpsParts(o, e, m, None);
    OpsIO(o, e, m, None);
    var k := Exec(o.code, m).value;
    IOThrough(st, m, k);
    HoldsParts(o.d, e, live, w, st, k);
    f := BoundaryHolds(o.d, e, live, w, st, k, out);
    ExecAppend(o.code, BoundaryCode(o.d, out), m);
    HeldAt(o.d, e, k, cmp.r, o.r1);
    RegIsSpare(o.d, Sym(cmp.r));
    TestItemIs(d, cmp, out, l);
  }

  lemma RegIsSpare(d: Desc, a: Arg)
    ensures RegOf(d, a).Some? ==> RegOf(d, a).value < GP
  {
  }

  // ----- where control joins -----

  /** The environment seen from a place with more slots in use. */
  function Joined(e: Env, d: Desc, f: Desc, m: Machine): Env {
    map x | x in e.Keys + f.loaded :: if InNew(d, f, x) then m.dmem[Slot(Sym(x))] else Get(e, x)
  }

  predicate InNew(d: Desc, f: Desc, x: nat) {
    x in f.loaded && x !in d.loaded && REGISTER_COUNT <= x < REGISTER_COUNT + DADDR_SIZE
  }

  lemma JoinedValue(e: Env, d: Desc, f: Desc, m: Machine, x: nat)
    ensures Get(Joined(e, d, f, m), x) == if InNew(d, f, x) then m.dmem[Slot(Sym(x))] else Get(e, x)
  {
  }

  /** Slots that the text uses between a jump and its label may hold anything: nothing there is live. */
  lemma JoinHolds(d: Desc, f: Desc, e: Env, live: set<nat>, less: set<nat>, st: State, m: Machine) returns (g: Env)
    requires Holds(d, e, live, {}, st, m) && less <= live && d.loaded <= f.loaded && Sane(f)
    requires d.regs == [None, None, None] && f.regs == [None, None, None]
    requires forall x :: x in less && x >= REGISTER_COUNT ==> x in d.loaded
    ensures Holds(f, g, less, {}, st, m)
  {
    g := Joined(e, d, f, m);
    forall a ensures Located(f, g, m, a) {
      assert Located(d, e, m, a);
      if a.Sym? {
        JoinedValue(e, d, f, m, a.id);
      }
    }
    forall x | x in less ensures Get(st.env, x) == Get(g, x) {
      JoinedValue(e, d, f, m, x);
    }
    hide InNew, Joined, Clean;
    CleanStart(f, g, m);
  }
}
