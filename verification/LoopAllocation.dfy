/** When intervals without back edges are enough: a condition on the code and its live symbols. */
module LoopAllocation {
  import opened Options
  import opened ThreeAddress
  import opened Intervals
  import opened Allocation
  import opened RegisterAllocation

  // ----- live symbols of linear code -----

  /** live[p] is the set of symbols live before instruction p. */
  type LiveSets = seq<set<nat>>

  function TargetLive(code: seq<Ins>, live: LiveSets, l: nat): set<nat>
    requires |live| == |code| + 1
  {
    match FindLabel(code, l)
    case None => {}
    case Some(q) => live[q]
  }

  /** What is live after instruction p, along every way that control can take. */
  function LiveOut(code: seq<Ins>, live: LiveSets, p: nat): set<nat>
    requires |live| == |code| + 1 && p < |code|
  {
    match code[p]
    case Jmp(l) => TargetLive(code, live, l)
    case Iff(_, l) => live[p + 1] + TargetLive(code, live, l)
    case _ => live[p + 1]
  }

  function LiveIn(code: seq<Ins>, live: LiveSets, p: nat): set<nat>
    requires |live| == |code| + 1 && p < |code|
  {
    Uses(code[p]) + (LiveOut(code, live, p) - Defs(code[p]))
  }

  /** No live symbol is missing. */
  ghost predicate Closed(code: seq<Ins>, live: LiveSets) {
    |live| == |code| + 1 && forall p :: 0 <= p < |code| ==> LiveIn(code, live, p) <= live[p]
  }

  /** The equations of liveness. */
  ghost predicate SolvesCode(code: seq<Ins>, live: LiveSets) {
    && |live| == |code| + 1 && live[|code|] == {}
    && forall p :: 0 <= p < |code| ==> live[p] == LiveIn(code, live, p)
  }

  /** Instruction p jumps, or may jump, to q. */
  ghost predicate Jumps(code: seq<Ins>, p: nat, q: nat) {
    p < |code| && (code[p].Jmp? || code[p].Iff?) && FindLabel(code, code[p].target) == Some(q)
  }

  /** The interval of every symbol that is live where a jump goes back to reaches from there to the
      jump. */
  ghost predicate BackSpanned(code: seq<Ins>, live: LiveSets)
    requires |live| == |code| + 1
  {
    forall p: nat, q: nat, v :: Jumps(code, p, q) && q <= p && v in live[q] ==> SpansLoop(code, v, p, q)
  }

  // ----- locations that keep live symbols apart -----

  /** A write goes to no location that another live symbol has. */
  ghost predicate Colors(code: seq<Ins>, live: LiveSets, loc: Locations)
    requires |live| == |code| + 1
  {
    forall p: nat, r, v :: p < |code| && r in Defs(code[p]) && v in LiveOut(code, live, p) && v != r ==> At(loc, v) != At(loc, r)
  }

  /** The two machines agree on the live symbols. */
  ghost predicate LiveAgrees(code: seq<Ins>, live: LiveSets, loc: Locations, c: Config, d: Config)
    requires |live| == |code| + 1
  {
    && c.pc <= |code| && c.pc == d.pc && c.st.input == d.st.input && c.st.output == d.st.output
    && EnvAgrees(live[c.pc], loc, c.st.env, d.st.env)
  }

  ghost predicate EnvAgrees(live: set<nat>, loc: Locations, e: Env, f: Env) {
    forall v :: v in live ==> Get(f, At(loc, v)) == Get(e, v)
  }

  lemma ValAgrees(live: set<nat>, loc: Locations, e: Env, f: Env, a: Arg)
    requires EnvAgrees(live, loc, e, f) && ArgSyms(a) <= live
    ensures Val(f, RenameArg(a, loc)) == Val(e, a)
  {
    if a.Sym? {
      assert a.id in ArgSyms(a);
    }
  }

  lemma LessAgrees(live: set<nat>, less: set<nat>, loc: Locations, e: Env, f: Env)
    requires EnvAgrees(live, loc, e, f) && less <= live
    ensures EnvAgrees(less, loc, e, f)
  {
  }

  /** A write that keeps its location to itself. */
  lemma WriteKeeps(live: set<nat>, out: set<nat>, loc: Locations, e: Env, f: Env, r: nat, x: int)
    requires EnvAgrees(live, loc, e, f) && out - {r} <= live && forall v :: v in out && v != r ==> At(loc, v) != At(loc, r)
    ensures EnvAgrees(out, loc, e[r := x], f[At(loc, r) := x])
  {
    forall v | v in out ensures Get(f[At(loc, r) := x], At(loc, v)) == Get(e[r := x], v) {
      if v != r {
        assert v in live;
      }
    }
  }

  /** What an instruction does to the two machines, control flow apart. */
  lemma EffectAgrees(i: Ins, live: set<nat>, out: set<nat>, loc: Locations, s: State, t: State)
    requires EnvAgrees(live, loc, s.env, t.env) && s.input == t.input && s.output == t.output
    requires Uses(i) + (out - Defs(i)) <= live
    requires forall r, v :: r in Defs(i) && v in out && v != r ==> At(loc, v) != At(loc, r)
    ensures Effect(i, s).None? <==> Effect(Rename(i, loc), t).None?
    ensures Effect(i, s).Some? ==> (
      var (s', t') := (Effect(i, s).value, Effect(Rename(i, loc), t).value);
      s'.input == t'.input && s'.output == t'.output && EnvAgrees(out, loc, s'.env, t'.env))
  {
    match i
    case Bin(op, r, a1, a2) =>
      ValAgrees(live, loc, s.env, t.env, a1);
      ValAgrees(live, loc, s.env, t.env, a2);
      var x := Apply(op, Val(s.env, a1), Val(s.env, a2));
      if x.Some? {
        WriteKeeps(live, out, loc, s.env, t.env, r, x.value);
      }
      hide Apply, EnvAgrees;
    case In(r) =>
      if s.input != [] {
        WriteKeeps(live, out, loc, s.env, t.env, r, s.input[0]);
      }
      hide EnvAgrees;
    case Assign(r, a) =>
      ValAgrees(live, loc, s.env, t.env, a);
      WriteKeeps(live, out, loc, s.env, t.env, r, Val(s.env, a));
      hide EnvAgrees;
    case Out(a) =>
      ValAgrees(live, loc, s.env, t.env, a);
      LessAgrees(live, out, loc, s.env, t.env);
    case _ =>
      LessAgrees(live, out, loc, s.env, t.env);
  }

  ghost predicate BothStep(code: seq<Ins>, live: LiveSets, loc: Locations, c: Option<Config>, d: Option<Config>)
    requires |live| == |code| + 1
  {
    (c.None? <==> d.None?) && (c.Some? ==> LiveAgrees(code, live, loc, c.value, d.value))
  }

  lemma ColoredStep(code: seq<Ins>, live: LiveSets, loc: Locations, c: Config, d: Config)
    requires Closed(code, live) && Colors(code, live, loc) && LiveAgrees(code, live, loc, c, d)
    ensures BothStep(code, live, loc, Next(code, c), Next(RenameAll(code, loc), d))
  {
    if c.pc < |code| {
      var i, out := code[c.pc], LiveOut(code, live, c.pc);
      assert LiveIn(code, live, c.pc) <= live[c.pc];
      EffectAgrees(i, live[c.pc], out, loc, c.st, d.st);
      assert RenameAll(code, loc)[c.pc] == Rename(i, loc);
      match i
      case Jmp(l) =>
        FindLabelRename(code, loc, l);
      case Iff(a, l) =>
        FindLabelRename(code, loc, l);
        ValAgrees(live[c.pc], loc, c.st.env, d.st.env, a);
        LessAgrees(out, live[c.pc + 1], loc, c.st.env, d.st.env);
        LessAgrees(out, TargetLive(code, live, l), loc, c.st.env, d.st.env);
      case _ =>
    }
    hide EnvAgrees, Effect, Closed, Colors, Defs, Uses, FindLabel;
  }

  /** Whatever the locations, if they keep live symbols apart the program on locations does what the
      program on symbols does. */
  lemma {:induction false} ColoredRuns(code: seq<Ins>, live: LiveSets, loc: Locations, c: Config, d: Config, n: nat)
    requires Closed(code, live) && Colors(code, live, loc) && LiveAgrees(code, live, loc, c, d)
    ensures SameBehaviour(Run(code, c, n), Run(RenameAll(code, loc), d, n))
    decreases n
  {
    if n > 0 {
      ColoredStep(code, live, loc, c, d);
      hide Closed, Colors, Next, LiveAgrees, SameBehaviour;
      if Next(code, c).Some? {
        ColoredRuns(code, live, loc, Next(code, c).value, Next(RenameAll(code, loc), d).value, n - 1);
      } else {
        BothStuck(Run(code, c, n), Run(RenameAll(code, loc), d, n));
      }
    }
  }

  lemma BothStuck(c: Option<Config>, d: Option<Config>)
    requires c == None && d == None
    ensures SameBehaviour(c, d)
  {
  }

  // ----- the condition -----

  /** Wherever a symbol is written, its interval overlaps that of every other symbol live behind the write. */
  ghost predicate LiveOverlap(code: seq<Ins>, live: LiveSets)
    requires |live| == |code| + 1
  {
    forall p: nat, r, v :: p < |code| && r in Defs(code[p]) && v in LiveOut(code, live, p) && v != r ==> Interfere(code, v, r)
  }

  lemma OverlapColors(code: seq<Ins>, live: LiveSets, loc: Locations)
    requires |live| == |code| + 1 && LiveOverlap(code, live) && Apart(code, loc)
    ensures Colors(code, live, loc)
  {
    forall p: nat, r, v | p < |code| && r in Defs(code[p]) && v in LiveOut(code, live, p) && v != r ensures At(loc, v) != At(loc, r) {
      assert Interfere(code, v, r);
      OccurrenceBounds(code, p, r);
      OccurrencesMeaning(code[p], r);
      assert Occurrences(code[LastOf(code, v) - 1], v) > 0;
      assert v in loc && r in loc;
    }
  }

  function Symbols(code: seq<Ins>): (s: set<nat>)
    ensures forall p :: 0 <= p < |code| ==> Uses(code[p]) + Defs(code[p]) <= s
  {
    if code == [] then {}
    else
      var m := |code| - 1;
      Symbols(code[..m]) + Uses(code[m]) + Defs(code[m])
  }

  /** Two symbols whose intervals do not overlap may share a location. */
  lemma Shared(code: seq<Ins>, v: nat, r: nat) returns (loc: Locations)
    requires !Interfere(code, v, r)
    ensures Apart(code, loc) && At(loc, v) == At(loc, r)
  {
    loc := map u | u in Symbols(code) + {v, r} :: if u == v then r else u;
    forall p, u: nat | 0 <= p < |code| && Occurrences(code[p], u) > 0 ensures u in loc {
      OccurrencesMeaning(code[p], u);
      assert Uses(code[p]) + Defs(code[p]) <= Symbols(code);
    }
    hide Symbols, Occurrences, FirstOf, LastOf;
  }

  /** The condition holds if and only if every way to keep overlapping intervals apart keeps live symbols
      apart. */
  lemma OverlapIff(code: seq<Ins>, live: LiveSets)
    requires |live| == |code| + 1
    ensures LiveOverlap(code, live) <==> forall loc :: Apart(code, loc) ==> Colors(code, live, loc)
  {
    if LiveOverlap(code, live) {
      forall loc | Apart(code, loc) ensures Colors(code, live, loc) {
        OverlapColors(code, live, loc);
      }
    } else {
      var p: nat, r, v :| p < |code| && r in Defs(code[p]) && v in LiveOut(code, live, p) && v != r && !Interfere(code, v, r);
      var loc := Shared(code, v, r);
      assert !Colors(code, live, loc);
    }
    hide Apart, Interfere, LiveOut;
  }

  lemma StartLive(code: seq<Ins>, live: LiveSets, loc: Locations, input: seq<int>)
    requires |live| == |code| + 1 && live[0] == {}
    ensures LiveAgrees(code, live, loc, Start(input), Start(input))
  {
  }

  /** No symbol is live at the start, so none is read before it is written; and each write goes to a symbol
      whose interval overlaps those of the symbols live behind it.  Then the program on the
      locations that linear scan chose does what the program on symbols does, loops included, on
      every input and for any number of steps. */
  lemma AllocationPreserves(code: seq<Ins>, live: LiveSets, list: seq<nat>, count: nat, input: seq<int>, n: nat)
    requires count > 0 && Listed(code, list)
    requires Closed(code, live) && live[0] == {} && LiveOverlap(code, live)
    ensures SameBehaviour(Run(code, Start(input), n),
                          Run(RenameAll(code, Allocate(code, list, count)), Start(input), n))
  {
    var loc := Allocate(code, list, count);
    hide *;
    AllocateApart(code, list, count);
    SizedLive(code, live);
    OverlapColors(code, live, loc);
    StartLive(code, live, loc, input);
    ColoredRuns(code, live, loc, Start(input), Start(input), n);
  }

  lemma SizedLive(code: seq<Ins>, live: LiveSets)
    requires Closed(code, live)
    ensures |live| == |code| + 1
  {
  }

  // ----- a condition on the jumps back alone -----

  /** The interval of v covers instruction p: it begins before it and does not end before it. */
  ghost predicate Covered(code: seq<Ins>, v: nat, p: nat) {
    1 <= FirstOf(code, v) <= p && p + 1 <= LastOf(code, v)
  }

  ghost predicate IntervalsCover(code: seq<Ins>, live: LiveSets)
    requires |live| == |code| + 1
  {
    forall p: nat, v :: p < |code| && v in live[p] ==> Covered(code, v, p)
  }

  predicate BehindJump(code: seq<Ins>, q: nat) {
    0 < q < |code| && code[q - 1].Jmp?
  }

  /** Every instruction behind an unconditional jump is where a jump from before goes. */
  ghost predicate Entered(code: seq<Ins>) {
    forall q: nat :: BehindJump(code, q) ==> exists p: nat :: p < q && Jumps(code, p, q)
  }

  lemma JumpLive(code: seq<Ins>, live: LiveSets, p: nat, q: nat)
    requires SolvesCode(code, live) && Jumps(code, p, q)
    ensures q < |code| && live[q] <= live[p]
  {
    assert live[p] == LiveIn(code, live, p);
  }

  lemma CoverSpans(code: seq<Ins>, live: LiveSets)
    requires SolvesCode(code, live) && IntervalsCover(code, live)
    ensures BackSpanned(code, live)
  {
    forall p: nat, q: nat, v | Jumps(code, p, q) && q <= p && v in live[q] ensures SpansLoop(code, v, p, q) {
      JumpLive(code, live, p, q);
      assert Covered(code, v, q) && Covered(code, v, p);
    }
  }

  /** A live symbol occurs later in the text, or its interval reaches a jump back behind. */
  lemma {:induction false} LiveReaches(code: seq<Ins>, live: LiveSets, p: nat, v: nat)
    requires SolvesCode(code, live) && BackSpanned(code, live) && p < |code| && v in live[p]
    ensures p + 1 <= LastOf(code, v)
    decreases |code| - p
  {
    assert v in LiveIn(code, live, p);
    if v in Uses(code[p]) {
      OccurrenceBounds(code, p, v);
    } else if code[p].Jmp? || code[p].Iff? {
      if code[p].Iff? && v in live[p + 1] {
        LiveReaches(code, live, p + 1, v);
      } else {
        var q := FindLabel(code, code[p].target).value;
        assert Jumps(code, p, q);
        if q > p {
          LiveReaches(code, live, q, v);
        } else {
          assert SpansLoop(code, v, p, q);
        }
      }
    } else {
      LiveReaches(code, live, p + 1, v);
    }
  }

  /** A live symbol has been written earlier in the text. */
  lemma {:induction false} LiveBegins(code: seq<Ins>, live: LiveSets, p: nat, v: nat)
    requires SolvesCode(code, live) && live[0] == {} && Entered(code) && p < |code| && v in live[p]
    ensures 1 <= FirstOf(code, v) <= p
    decreases p
  {
    if BehindJump(code, p) {
      var i: nat :| i < p && Jumps(code, i, p);
      JumpLive(code, live, i, p);
      LiveBegins(code, live, i, v);
    } else if p > 0 {
      FallsLive(code, live, p - 1, v);
      OccurrenceBounds(code, p - 1, v);
      hide SolvesCode, Entered, FirstOf, LastOf, Defs, Uses;
      if v !in Defs(code[p - 1]) {
        LiveBegins(code, live, p - 1, v);
      }
    }
  }

  lemma FallsLive(code: seq<Ins>, live: LiveSets, p: nat, v: nat)
    requires SolvesCode(code, live) && p < |code| && !code[p].Jmp? && v in live[p + 1]
    ensures v in Defs(code[p]) || v in live[p]
  {
    assert live[p] == LiveIn(code, live, p);
  }

  /** The condition on the jumps back holds if and only if the intervals cover every instruction at
      which a symbol is live. */
  lemma SpannedIff(code: seq<Ins>, live: LiveSets)
    requires SolvesCode(code, live) && live[0] == {} && Entered(code)
    ensures BackSpanned(code, live) <==> IntervalsCover(code, live)
  {
    if BackSpanned(code, live) {
      forall p: nat, v | p < |code| && v in live[p] ensures Covered(code, v, p) {
        LiveReaches(code, live, p, v);
        LiveBegins(code, live, p, v);
      }
    }
    if IntervalsCover(code, live) {
      CoverSpans(code, live);
    }
  }

  lemma LiveBehind(code: seq<Ins>, live: LiveSets, p: nat, v: nat)
    requires SolvesCode(code, live) && p < |code| && v in LiveOut(code, live, p) && v !in Defs(code[p])
    ensures v in live[p]
  {
    assert live[p] == LiveIn(code, live, p);
  }

  /** Intervals that reach every jump back are long enough. */
  lemma SpannedOverlap(code: seq<Ins>, live: LiveSets)
    requires SolvesCode(code, live) && live[0] == {} && Entered(code) && BackSpanned(code, live)
    ensures LiveOverlap(code, live)
  {
    SpannedIff(code, live);
    forall p: nat, r, v | p < |code| && r in Defs(code[p]) && v in LiveOut(code, live, p) && v != r ensures Interfere(code, v, r) {
      assert Defs(code[p]) == {r};
      LiveBehind(code, live, p, v);
      assert Covered(code, v, p);
      OccurrenceBounds(code, p, r);
    }
  }

  /** Code that only jumps forward needs no more than that nothing is live at its start. */
  lemma ForwardOverlap(code: seq<Ins>, live: LiveSets)
    requires SolvesCode(code, live) && live[0] == {} && Entered(code) && ForwardOnly(code)
    ensures LiveOverlap(code, live)
  {
    SpannedOverlap(code, live);
  }
}
