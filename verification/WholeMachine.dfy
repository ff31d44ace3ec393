/** From a program as written to the TINY machine: lowering, liveness, register allocation, code
    generation and back-patching together, for programs without loops. */
module WholeMachine {
  import opened Options
  import opened ThreeAddress
  import opened Ast
  import opened Lowering
  import opened LoweringSim
  import opened Labels
  import opened Frontend
  import opened LoweredBlocks
  import opened Intervals
  import opened Allocation
  import opened RegisterAllocation
  import opened BasicBlocks
  import opened Liveness
  import opened LivenessFixpoint
  import opened LoopAllocation
  import opened LoweredAllocation
  import opened LoweredShape
  import S = Spares
  import T = Tm
  import R = TmRun
  import B = BackPatch
  import LoweredJumps
  import M = MachineCode
  import Sim = MachineSim
  import X = MachineRun
  import P = Pipeline
  import L = Loader

  // ----- temporaries do not outlive their statement -----

  /** A temporary that is live before instruction q is read further on, with no jump, no label and no
      write of it in between. */
  lemma {:induction false} TempNear(code: seq<Ins>, live: LiveSets, base: nat, q: nat, t: nat) returns (p: nat)
    requires SolvesCode(code, live) && AllPlaced(code, base) && X.JumpsForward(code) && q <= |code| && t >= base && t in live[q]
    ensures q <= p < |code| && t in Uses(code[p])
    ensures forall i :: q <= i < p ==> !IsControl(code[i]) && t !in Defs(code[i])
    decreases |code| - q, 1
  {
    hide *;
    LiveHere(code, live, q, t);
    if t in Uses(code[q]) {
      p := q;
    } else {
      if IsControl(code[q]) {
        TempDead(code, live, base, q, t);
      }
      p := TempNear(code, live, base, q + 1, t);
    }
  }

  lemma LiveHere(code: seq<Ins>, live: LiveSets, q: nat, t: nat)
    requires SolvesCode(code, live) && q <= |code| && t in live[q]
    ensures q < |code| && (t in Uses(code[q]) || (t in LiveOut(code, live, q) && t !in Defs(code[q])))
    ensures !IsControl(code[q]) ==> LiveOut(code, live, q) == live[q + 1]
  {
    assert q < |code|;
    assert live[q] == LiveIn(code, live, q);
  }

  lemma NoneNear(code: seq<Ins>, base: nat, q: nat, p: nat, t: nat)
    requires AllPlaced(code, base) && q < p < |code| && IsControl(code[q]) && t >= base && t in Uses(code[p])
    ensures exists i :: q < i < p && t in Defs(code[i]) && forall k :: i <= k < p ==> !IsControl(code[k])
  {
    assert WellPlaced(code, base, p);
    assert DefNear(code, p, t);
  }

  /** No temporary is live behind a jump, a test or a label. */
  lemma {:induction false} TempDead(code: seq<Ins>, live: LiveSets, base: nat, q: nat, t: nat)
    requires SolvesCode(code, live) && AllPlaced(code, base) && X.JumpsForward(code) && q < |code| && t >= base && IsControl(code[q])
    ensures t !in LiveOut(code, live, q)
    decreases |code| - q, 0
  {
    hide *;
    SameSize(code, live);
    if t in LiveOut(code, live, q) {
      var to := OutFrom(code, live, q, t);
      var p := TempNear(code, live, base, to, t);
      NoneNear(code, base, q, p, t);
    }
  }

  /** Where it would be live: at the next instruction, or at a label further on. */
  lemma OutFrom(code: seq<Ins>, live: LiveSets, q: nat, t: nat) returns (to: nat)
    requires SolvesCode(code, live) && X.JumpsForward(code) && q < |code| && IsControl(code[q]) && t in LiveOut(code, live, q)
    ensures q < to <= |code| && t in live[to] && (to == q + 1 || (IsControl(code[to]) && Uses(code[to]) == {}))
  {
    if !code[q].Jmp? && t in live[q + 1] {
      to := q + 1;
    } else {
      to := FindLabel(code, code[q].target).value;
    }
    hide SolvesCode, FindLabel;
  }

  // ----- the code on locations, and what is live in it -----

  function Image(s: set<nat>, loc: Locations): (r: set<nat>)
    ensures forall v :: v in s ==> At(loc, v) in r
    ensures forall x :: x in r ==> exists v :: v in s && At(loc, v) == x
  {
    set v | v in s :: At(loc, v)
  }

  /** The locations of the live symbols. */
  function Images(live: LiveSets, loc: Locations): (r: LiveSets)
    ensures |r| == |live| && forall p :: 0 <= p < |live| ==> r[p] == Image(live[p], loc)
  {
    seq(|live|, p requires 0 <= p < |live| => Image(live[p], loc))
  }

  lemma RenamedUses(i: Ins, loc: Locations)
    ensures Uses(Rename(i, loc)) == Image(Uses(i), loc) && Defs(Rename(i, loc)) == Image(Defs(i), loc)
  {
  }

  lemma ImageUnion(a: set<nat>, b: set<nat>, loc: Locations)
    ensures Image(a + b, loc) == Image(a, loc) + Image(b, loc) && (a <= b ==> Image(a, loc) <= Image(b, loc))
    ensures Image(a, loc) - Image(b, loc) <= Image(a - b, loc)
  {
  }

  lemma ImageOut(code: seq<Ins>, live: LiveSets, loc: Locations, p: nat)
    requires |live| == |code| + 1 && p < |code|
    ensures LiveOut(RenameAll(code, loc), Images(live, loc), p) == Image(LiveOut(code, live, p), loc)
  {
    var i := code[p];
    if i.Jmp? || i.Iff? {
      FindLabelRename(code, loc, i.target);
      ImageUnion(live[p + 1], TargetLive(code, live, i.target), loc);
    }
    hide FindLabel, Image;
    assert RenameAll(code, loc)[p] == Rename(i, loc);
    EmptyImage(loc);
  }

  lemma EmptyImage(loc: Locations)
    ensures Image({}, loc) == {}
  {
  }

  lemma ImageClosed(code: seq<Ins>, live: LiveSets, loc: Locations)
    requires Closed(code, live)
    ensures Closed(RenameAll(code, loc), Images(live, loc))
  {
    var c, l := RenameAll(code, loc), Images(live, loc);
    forall p: nat | p < |c| ensures LiveIn(c, l, p) <= l[p] {
      assert LiveIn(code, live, p) <= live[p];
      RenamedUses(code[p], loc);
      ImageOut(code, live, loc, p);
      var u, o, d := Uses(code[p]), LiveOut(code, live, p), Defs(code[p]);
      ImageUnion(o, d, loc);
      ImageUnion(u, o - d, loc);
      ImageUnion(u + (o - d), live[p], loc);
      hide Image, LiveOut, Uses, Defs, Images, RenameAll, Closed;
    }
  }

  lemma {:induction false} DefsWritten(code: seq<Ins>, loc: Locations, p: nat, j: nat, v: nat)
    requires j < p <= |code| && v in Defs(code[j])
    ensures At(loc, v) in M.DefsTo(RenameAll(code, loc), p)
  {
    if j < p - 1 {
      DefsWritten(code, loc, p - 1, j, v);
    } else {
      RenamedUses(code[j], loc);
    }
  }

  lemma ImageWritten(code: seq<Ins>, live: LiveSets, loc: Locations)
    requires SolvesCode(code, live) && live[0] == {} && Entered(code)
    ensures M.LiveWritten(RenameAll(code, loc), Images(live, loc))
  {
    var c, l := RenameAll(code, loc), Images(live, loc);
    SameSize(code, live);
    hide SolvesCode, Entered, M.DefsTo, RenameAll, Images, Image;
    forall p: nat | p < |c| ensures l[p] <= M.DefsTo(c, p) {
      ImageWrittenAt(code, live, loc, p);
    }
  }

  lemma ImageWrittenAt(code: seq<Ins>, live: LiveSets, loc: Locations, p: nat)
    requires SolvesCode(code, live) && live[0] == {} && Entered(code) && p < |code|
    ensures Image(live[p], loc) <= M.DefsTo(RenameAll(code, loc), p)
  {
    SameSize(code, live);
    hide SolvesCode, Entered, M.DefsTo, RenameAll;
    forall v | v in live[p] ensures At(loc, v) in M.DefsTo(RenameAll(code, loc), p) {
      StartedBefore(code, live, p, v);
      DefsWritten(code, loc, p, FirstDef(code, v, p) - 1, v);
    }
  }

  lemma RenamedLabels(code: seq<Ins>, loc: Locations)
    requires DistinctLabels(code) && X.JumpsForward(code)
    ensures DistinctLabels(RenameAll(code, loc)) && X.JumpsForward(RenameAll(code, loc))
  {
    var c := RenameAll(code, loc);
    forall i, j | 0 <= i < j < |c| && c[i].Label? && c[j].Label? ensures c[i] != c[j] {
      assert code[i].Label? && code[j].Label?;
    }
    forall p: nat | p < |c| && (c[p].Jmp? || c[p].Iff?)
      ensures FindLabel(c, c[p].target).Some? && FindLabel(c, c[p].target).value > p
    {
      FindLabelRename(code, loc, code[p].target);
    }
  }

  // ----- the generator is right for it -----

  /** Every location is a register or a cell of memory. */
  ghost predicate SlotsEnough(loc: Locations) {
    forall v :: v in loc ==> loc[v] < S.REGISTER_COUNT + T.DADDR_SIZE
  }

  lemma AtBelow(loc: Locations, s: set<nat>)
    requires SlotsEnough(loc)
    ensures forall x :: x in Image(s, loc) ==> x < S.REGISTER_COUNT + T.DADDR_SIZE
  {
  }

  lemma RenamedSlots(i: Ins, loc: Locations)
    requires SlotsEnough(loc)
    ensures M.SlotsFit(Rename(i, loc))
  {
    RenamedUses(i, loc);
    AtBelow(loc, Uses(i));
    AtBelow(loc, Defs(i));
    hide Image, Uses, Defs, Rename, SlotsEnough;
  }

  /** The result of a test is not live behind it, and no other live symbol has its location. */
  lemma RenamedTest(code: seq<Ins>, live: LiveSets, base: nat, loc: Locations, p: nat)
    requires SolvesCode(code, live) && AllPlaced(code, base) && X.JumpsForward(code) && Colors(code, live, loc) && p < |code|
    ensures M.TestFits(RenameAll(code, loc), Images(live, loc), p)
  {
    if code[p].Iff? {
      TestFacts(code, live, base, p);
      var r := code[p - 1].r;
      hide *;
      TempDead(code, live, base, p, r);
      ImageOut(code, live, loc, p);
      ColorsAt(code, live, loc, p, r);
      NotInImage(LiveOut(code, live, p), loc, r);
      TestRenamed(code, live, loc, p);
    }
  }

  lemma TestFacts(code: seq<Ins>, live: LiveSets, base: nat, p: nat)
    requires SolvesCode(code, live) && AllPlaced(code, base) && p < |code| && code[p].Iff?
    ensures p > 0 && M.Ordering(code[p - 1]) && code[p - 1].Bin? && code[p].c == Sym(code[p - 1].r) && code[p - 1].r >= base
    ensures |live| == |code| + 1 && LiveOut(code, live, p) <= LiveOut(code, live, p - 1) && code[p - 1].r in Defs(code[p - 1])
    ensures IsControl(code[p])
  {
    assert WellPlaced(code, base, p);
    assert live[p] == LiveIn(code, live, p) && LiveOut(code, live, p - 1) == live[p];
    hide LiveOut, AllPlaced;
  }

  lemma ColorsAt(code: seq<Ins>, live: LiveSets, loc: Locations, p: nat, r: nat)
    requires 0 < p < |code| && |live| == |code| + 1 && Colors(code, live, loc) && r in Defs(code[p - 1])
    requires LiveOut(code, live, p) <= LiveOut(code, live, p - 1) && r !in LiveOut(code, live, p)
    ensures forall v :: v in LiveOut(code, live, p) ==> At(loc, v) != At(loc, r)
  {
    hide LiveOut;
  }

  lemma NotInImage(s: set<nat>, loc: Locations, r: nat)
    requires forall v :: v in s ==> At(loc, v) != At(loc, r)
    ensures At(loc, r) !in Image(s, loc)
  {
  }

  lemma TestRenamed(code: seq<Ins>, live: LiveSets, loc: Locations, p: nat)
    requires 0 < p < |code| && |live| == |code| + 1 && M.Ordering(code[p - 1]) && code[p].Iff? && code[p].c == Sym(code[p - 1].r)
    requires At(loc, code[p - 1].r) !in LiveOut(RenameAll(code, loc), Images(live, loc), p)
    ensures M.TestFits(RenameAll(code, loc), Images(live, loc), p)
  {
    hide LiveOut, Images;
  }

  /** The operands of an operation are in other locations than its result. */
  lemma OperandApart(code: seq<Ins>, live: LiveSets, base: nat, loc: Locations, p: nat, v: nat)
    requires SolvesCode(code, live) && live[0] == {} && Entered(code) && AllPlaced(code, base) && Apart(code, loc)
    requires p < |code| && code[p].Bin? && v in Uses(code[p])
    ensures At(loc, v) != At(loc, code[p].r)
  {
    var r := code[p].r;
    assert v != r by {
      assert WellPlaced(code, base, p);
    }
    assert live[p] == LiveIn(code, live, p);
    LiveBegins(code, live, p, v);
    OccurrenceBounds(code, p, v);
    OccurrenceBounds(code, p, r);
    OccurrencesMeaning(code[p], v);
    OccurrencesMeaning(code[p], r);
    assert Interfere(code, v, r);
    hide SolvesCode, Entered, AllPlaced, FirstOf, LastOf, Occurrences, Interfere;
  }

  lemma RenamedOperation(code: seq<Ins>, live: LiveSets, base: nat, loc: Locations, p: nat)
    requires SolvesCode(code, live) && live[0] == {} && Entered(code) && AllPlaced(code, base) && Apart(code, loc) && p < |code|
    ensures M.OperationFits(RenameAll(code, loc), p)
  {
    if code[p].Bin? {
      assert WellPlaced(code, base, p);
      if code[p].a2.Sym? {
        assert code[p].a2.id in Uses(code[p]);
        OperandApart(code, live, base, loc, p, code[p].a2.id);
      }
      hide SolvesCode, Entered, AllPlaced, Apart;
    }
  }

  lemma SameSize(code: seq<Ins>, live: LiveSets)
    requires SolvesCode(code, live)
    ensures |live| == |code| + 1
  {
  }

  lemma RenamedGenerable(code: seq<Ins>, live: LiveSets, base: nat, loc: Locations)
    requires SolvesCode(code, live) && live[0] == {} && Entered(code) && AllPlaced(code, base) && X.JumpsForward(code)
    requires Apart(code, loc) && Colors(code, live, loc) && SlotsEnough(loc)
    ensures M.Generable(RenameAll(code, loc), Images(live, loc))
  {
    var c := RenameAll(code, loc);
    hide SolvesCode, Entered, AllPlaced, X.JumpsForward, Apart, Colors, SlotsEnough, M.TestFits, M.OperationFits, M.SlotsFit;
    assert |Images(live, loc)| == |c| + 1 by {
      SameSize(code, live);
    }
    forall p: nat | p < |c| ensures M.TestFits(c, Images(live, loc), p) && M.OperationFits(c, p) && M.SlotsFit(c[p]) {
      RenamedTest(code, live, base, loc, p);
      RenamedOperation(code, live, base, loc, p);
      RenamedSlots(code[p], loc);
    }
  }

  lemma RenamedSound(code: seq<Ins>, live: LiveSets, base: nat, loc: Locations)
    requires SolvesCode(code, live) && live[0] == {} && Entered(code) && AllPlaced(code, base) && X.JumpsForward(code)
    requires Apart(code, loc) && Colors(code, live, loc) && SlotsEnough(loc) && DistinctLabels(code)
    ensures X.Sound(RenameAll(code, loc), Images(live, loc))
  {
    hide *;
    SameSize(code, live);
    SolvedClosed(code, live);
    ImageClosed(code, live, loc);
    ImageWritten(code, live, loc);
    RenamedGenerable(code, live, base, loc);
    RenamedLabels(code, loc);
    SoundIs(RenameAll(code, loc), Images(live, loc));
  }

  lemma SoundIs(code: seq<Ins>, live: LiveSets)
    requires Closed(code, live) && M.LiveWritten(code, live) && M.Generable(code, live)
    requires DistinctLabels(code) && X.JumpsForward(code)
    ensures X.Sound(code, live)
  {
  }

  lemma FitIs(code: seq<Ins>, live: LiveSets)
    requires X.Sound(code, live) && KeepsLive(code, live)
    ensures X.Fit(code, live)
  {
  }

  // ----- the items of a lowered program -----

  lemma RenamedRendered(i: Ins, loc: Locations, x: B.Item)
    requires LoweredJumps.Rendered(Rename(i, loc), x)
    ensures LoweredJumps.Rendered(i, x)
  {
  }

  lemma LoweredRenders(ss: Stmts, loc: Locations, live: LiveSets, items: seq<B.Item>)
    requires X.Fit(RenameAll(GenStmts(ss), loc), live) && X.Made(RenameAll(GenStmts(ss), loc), live, items)
    ensures LoweredJumps.Renders(GenStmts(ss), items)
  {
    var code, c := GenStmts(ss), RenameAll(GenStmts(ss), loc);
    X.MadeSize(c, live, items);
    hide X.Fit, X.Made, LoweredJumps.Rendered, Rename;
    forall k | 0 <= k < |code| ensures LoweredJumps.Rendered(code[k], items[k]) {
      X.MadeHere(c, live, items, k);
      X.HereRendered(c, live, items, k);
      RenamedRendered(code[k], loc, items[k]);
    }
  }

  /** What the generator emits for the tree on these locations, with HALT behind it. */
  ghost predicate Emits(code: seq<Ins>, live: LiveSets, imem: T.Program) {
    && |live| == |code| + 1 && M.ItemsTo(code, live, |code|).Some?
    && var items := M.ItemsTo(code, live, |code|).value.1; imem == B.CodeAt(items, |items|) + [X.Halt()]
  }

  lemma LoweredCompiled(ss: Stmts, loc: Locations, live: LiveSets, imem: T.Program) returns (items: seq<B.Item>)
    requires StmtsApart(ss) && X.Fit(RenameAll(GenStmts(ss), loc), live) && Emits(RenameAll(GenStmts(ss), loc), live, imem)
    ensures X.Compiled(RenameAll(GenStmts(ss), loc), live, items, imem)
  {
    var c := RenameAll(GenStmts(ss), loc);
    items := M.ItemsTo(c, live, |c|).value.1;
    hide GenStmts, StmtsApart, X.Fit, M.ItemsTo, B.CodeAt, RenameAll, LoweredJumps.Renders;
    LoweredRenders(ss, loc, live, items);
    LoweredJumps.LoweredMarkedOnce(ss, items);
    LoweredJumps.LoweredLeaptOnce(ss, items);
  }

  // ----- the whole way -----

  /** The program on locations does what the program does. */
  lemma AllocatedEnds(code: seq<Ins>, live: LiveSets, list: seq<nat>, input: seq<int>, n: nat, d: Config) returns (c: Config)
    requires Listed(code, list) && Closed(code, live) && live[0] == {} && LiveOverlap(code, live)
    requires Run(code, Start(input), n) == Some(d) && Next(code, d).None?
    ensures var target := RenameAll(code, Allocate(code, list, S.REGISTER_COUNT));
      Run(target, Start(input), n) == Some(c) && Next(target, c).None?
    ensures c.pc == d.pc && c.st.input == d.st.input && c.st.output == d.st.output
  {
    hide *;
    ThreeRegisters();
    var target := RenameAll(code, Allocate(code, list, S.REGISTER_COUNT));
    AllocationPreserves(code, live, list, S.REGISTER_COUNT, input, n);
    AllocationPreserves(code, live, list, S.REGISTER_COUNT, input, n + 1);
    c := SameSome(Run(code, Start(input), n), Run(target, Start(input), n));
    OneMore(code, Start(input), n, d);
    OneMore(target, Start(input), n, c);
    SameNone(Run(code, Start(input), n + 1), Run(target, Start(input), n + 1));
  }

  lemma OneMore(code: seq<Ins>, start: Config, n: nat, d: Config)
    requires Run(code, start, n) == Some(d)
    ensures Run(code, start, n + 1) == Next(code, d)
  {
    RunAdd(code, start, n, 1);
    assert Run(code, d, 1) == Next(code, d);
    hide Next;
  }

  lemma SameSome(a: Option<Config>, b: Option<Config>) returns (c: Config)
    requires SameBehaviour(a, b) && a.Some?
    ensures b == Some(c) && c.pc == a.value.pc && c.st.input == a.value.st.input && c.st.output == a.value.st.output
  {
    c := b.value;
  }

  lemma SameNone(a: Option<Config>, b: Option<Config>)
    requires SameBehaviour(a, b) && a == None
    ensures b == None
  {
  }

  /** How the machine ends when the program ends so. */
  ghost predicate EndsAs(o: Outcome, imem: T.Program, m: T.Machine) {
    match o
    case Done(st) => T.StepTM(imem, m) == T.Halted && m.output == st.output && m.input == st.input
    case Stuck(st) => X.Broken(T.StepTM(imem, m)) && m.output == st.output
    case Timeout(_) => false
  }

  lemma {:induction false} InCode(code: seq<Ins>, input: seq<int>, n: nat, d: Config)
    requires Run(code, Start(input), n) == Some(d)
    ensures d.pc <= |code|
  {
    if n > 0 {
      X.LastStep(code, Start(input), n);
      var c := Run(code, Start(input), n - 1).value;
      assert Next(code, c) == Some(d);
    }
  }

  lemma OutcomeOf(o: Outcome, code: seq<Ins>, d: Config, target: seq<Ins>, c: Config, imem: T.Program, m: T.Machine, base: nat)
    requires !o.Timeout? && (o.Done? ==> d.pc == |code|) && (o.Stuck? ==> d.pc != |code|) && d.pc <= |code| == |target|
    requires Alike(base, o.st, d.st) && c.pc == d.pc && c.st.input == d.st.input && c.st.output == d.st.output
    requires X.EndsLike(target, c, imem, m)
    ensures EndsAs(o, imem, m)
  {
    hide T.StepTM;
  }

  /** The tree, the sets that lva leaves on its graph, and the list of its symbols. */
  ghost predicate Allocated(tree: Stmts, g: Cfg, symbols: nat, s: Sets, list: seq<nat>) {
    && Analyzed(tree, g, symbols, s) && Fits(g, s) && g != [] && s.ins[0] == {}
    && Listed(GenStmts(tree), list) && SlotsEnough(Allocate(GenStmts(tree), list, S.REGISTER_COUNT))
  }

  /** The code on the locations that linear scan chose. */
  function CodeOn(tree: Stmts, list: seq<nat>): (c: seq<Ins>)
    requires Listed(GenStmts(tree), list)
    ensures |c| == |GenStmts(tree)|
  {
    RenameAll(GenStmts(tree), Allocate(GenStmts(tree), list, S.REGISTER_COUNT))
  }

  /** The locations that are live before each instruction. */
  function LiveOn(tree: Stmts, g: Cfg, s: Sets, list: seq<nat>): LiveSets
    requires Listed(GenStmts(tree), list) && Fits(g, s)
  {
    Images(CodeLive(g, s), Allocate(GenStmts(tree), list, S.REGISTER_COUNT))
  }

  lemma AllocatedParts(tree: Stmts, g: Cfg, symbols: nat, s: Sets, list: seq<nat>)
    requires Allocated(tree, g, symbols, s, list)
    ensures Analyzed(tree, g, symbols, s) && Fits(g, s) && g != [] && s.ins[0] == {} && |CodeLive(g, s)| > 0
    ensures Listed(GenStmts(tree), list) && SlotsEnough(Allocate(GenStmts(tree), list, S.REGISTER_COUNT))
    ensures StmtsApart(tree) && LabelsInRange(tree)
  {
    hide SlotsEnough, Allocate, CodeLive, Listed, PlainProgram, Lva, InRange;
    assert |CodeLive(g, s)| > 0 by {
      SomeLive(g, s);
    }
  }

  lemma SomeLive(g: Cfg, s: Sets)
    requires Fits(g, s)
    ensures |CodeLive(g, s)| > 0
  {
  }

  /** What lva and reg_alloc give for a program without loops. */
  lemma ForwardFacts(tree: Stmts, base: nat, temps: Temps, g: Cfg, symbols: nat, s: Sets, list: seq<nat>)
    requires Allocated(tree, g, symbols, s, list) && LoopFree(tree) && Ordered(tree) && StmtsOk(tree, temps, base)
    ensures var code, live, loc := GenStmts(tree), CodeLive(g, s), Allocate(GenStmts(tree), list, S.REGISTER_COUNT);
      && SolvesCode(code, live) && live[0] == {} && Entered(code) && AllPlaced(code, base) && X.JumpsForward(code)
      && LiveOverlap(code, live) && Apart(code, loc) && Colors(code, live, loc) && DistinctLabels(code)
  {
    var code, live, loc := GenStmts(tree), CodeLive(g, s), Allocate(GenStmts(tree), list, S.REGISTER_COUNT);
    hide *;
    AllocatedParts(tree, g, symbols, s, list);
    AnalyzedSolves(tree, g, symbols, s);
    CodeSolved(code, g, s);
    NothingLive(code, g, s);
    LoweredEntered(tree);
    StmtsPlaced(tree, temps, base);
    LoweredForward(tree);
    ForwardOnlyIs(code);
    ForwardOverlap(code, live);
    ThreeRegisters();
    AllocateApart(code, list, S.REGISTER_COUNT);
    OverlapColors(code, live, loc);
  }

  lemma ThreeRegisters()
    ensures S.REGISTER_COUNT > 0
  {
  }

  lemma ForwardOnlyIs(code: seq<Ins>)
    requires X.JumpsForward(code)
    ensures ForwardOnly(code)
  {
  }

  lemma TreeFacts(prog: Stmts, base: nat, tree: Stmts, st: State, fuel: nat) returns (temps: Temps)
    requires Compiles(prog, base, tree) && LoopFree(tree)
    ensures StmtsOk(tree, temps, base) && StmtsApart(tree) && !ExecStmts(prog, st, fuel).Timeout?
  {
    temps := CompilesWell(prog, base, tree);
    LoopFreeEnds(tree, st, fuel);
    assert ExecStmts(prog, st, fuel) == ExecStmts(tree, st, fuel);
    hide ExecStmts, Setting, Compiles, GenStmts;
  }

  /** free_regs takes no register from a live symbol whose value is nowhere else. */
  ghost predicate KeepsLive(code: seq<Ins>, live: LiveSets) {
    |live| == |code| + 1 && Sim.SweepsSafe(code, live)
  }

  /** A program without loops, with ordering comparisons as conditions, in which nothing is read before it
      is written. */
  ghost predicate Compilable(prog: Stmts, base: nat, tree: Stmts, g: Cfg, symbols: nat, s: Sets, list: seq<nat>) {
    Compiles(prog, base, tree) && LoopFree(tree) && Ordered(tree) && Allocated(tree, g, symbols, s, list)
  }

  /** And free_regs loses nothing of it. */
  ghost predicate Translatable(prog: Stmts, base: nat, tree: Stmts, g: Cfg, symbols: nat, s: Sets, list: seq<nat>) {
    Compilable(prog, base, tree, g, symbols, s, list) && KeepsLive(CodeOn(tree, list), LiveOn(tree, g, s, list))
  }

  /** What is on the way of such a program to the machine. */
  lemma CompiledSound(prog: Stmts, base: nat, tree: Stmts, g: Cfg, symbols: nat, s: Sets, list: seq<nat>)
    requires Compilable(prog, base, tree, g, symbols, s, list)
    ensures Listed(GenStmts(tree), list) && Fits(g, s) && Compiles(prog, base, tree) && LoopFree(tree)
    ensures var code, live, loc := GenStmts(tree), CodeLive(g, s), Allocate(GenStmts(tree), list, S.REGISTER_COUNT);
      && CodeOn(tree, list) == RenameAll(code, loc) && LiveOn(tree, g, s, list) == Images(live, loc)
      && X.Sound(RenameAll(code, loc), Images(live, loc)) && StmtsApart(tree)
      && Closed(code, live) && live[0] == {} && LiveOverlap(code, live)
  {
    var code, live, loc := GenStmts(tree), CodeLive(g, s), Allocate(GenStmts(tree), list, S.REGISTER_COUNT);
    hide GenStmts, CodeLive, Allocate, Compiles, LoopFree, Ordered, Allocated, Images, RenameAll, SlotsEnough;
    AllocatedParts(tree, g, symbols, s, list);
    var temps := TreeFacts(prog, base, tree, State(map[], [], []), 0);
    ForwardFacts(tree, base, temps, g, symbols, s, list);
    hide *;
    RenamedSound(code, live, base, loc);
    SolvedClosed(code, live);
  }

  lemma Translated(prog: Stmts, base: nat, tree: Stmts, g: Cfg, symbols: nat, s: Sets, list: seq<nat>)
    requires Translatable(prog, base, tree, g, symbols, s, list)
    ensures Compilable(prog, base, tree, g, symbols, s, list) && Listed(GenStmts(tree), list) && Fits(g, s)
    ensures X.Fit(CodeOn(tree, list), LiveOn(tree, g, s, list))
  {
    assert KeepsLive(CodeOn(tree, list), LiveOn(tree, g, s, list));
    assert Compilable(prog, base, tree, g, symbols, s, list);
    hide *;
    CompiledSound(prog, base, tree, g, symbols, s, list);
    FitIs(CodeOn(tree, list), LiveOn(tree, g, s, list));
  }

  /** The finished program has room in instruction memory. */
  ghost predicate Short(code: seq<Ins>, live: LiveSets) {
    |live| == |code| + 1 && M.ItemsTo(code, live, |code|).Some? ==>
      var items := M.ItemsTo(code, live, |code|).value.1; |B.CodeAt(items, |items|)| < T.IADDR_SIZE
  }

  /** What is generated for such a program is one that the machine can load. */
  lemma SourceLoads(prog: Stmts, base: nat, tree: Stmts, g: Cfg, symbols: nat, s: Sets, list: seq<nat>) returns (imem: T.Program)
    requires Translatable(prog, base, tree, g, symbols, s, list)
    requires Short(CodeOn(tree, list), LiveOn(tree, g, s, list))
    ensures Emits(CodeOn(tree, list), LiveOn(tree, g, s, list), imem)
  {
    hide *;
    Translated(prog, base, tree, g, symbols, s, list);
    imem := FitLoads(CodeOn(tree, list), LiveOn(tree, g, s, list));
  }

  lemma FitLoads(code: seq<Ins>, live: LiveSets) returns (imem: T.Program)
    requires X.Fit(code, live) && Short(code, live)
    ensures Emits(code, live, imem)
  {
    X.Outcomes(code, live);
    M.ItemsTotal(code, live, |code|);
    var items := M.ItemsTo(code, live, |code|).value.1;
    assert X.Made(code, live, items);
    hide X.Fit, M.ItemsTo, B.CodeAt, X.Halt;
    X.MadeGood(code, live, items);
    imem := B.CodeAt(items, |items|) + [X.Halt()];
  }

  /** The machine code of such a program halts with the output of the program, and stops with an error,
      after the same output, exactly where the program is stuck. */
  lemma SourceOnMachine(prog: Stmts, base: nat, tree: Stmts, g: Cfg, symbols: nat, s: Sets, list: seq<nat>,
                        imem: T.Program, input: seq<int>, fuel: nat) returns (k: nat, m: T.Machine)
    requires Translatable(prog, base, tree, g, symbols, s, list)
    requires Emits(CodeOn(tree, list), LiveOn(tree, g, s, list), imem)
    ensures R.RunTM(imem, X.Reset(input), k) == Some(m)
    ensures EndsAs(ExecStmts(prog, State(map[], input, []), fuel), imem, m)
  {
    var st := State(map[], input, []);
    assert Start(input) == Config(0, st);
    hide *;
    Translated(prog, base, tree, g, symbols, s, list);
    CompiledSound(prog, base, tree, g, symbols, s, list);
    var code, live, target, slots := GenStmts(tree), CodeLive(g, s), CodeOn(tree, list), LiveOn(tree, g, s, list);
    var temps := TreeFacts(prog, base, tree, st, fuel);
    var items := LoweredCompiled(tree, Allocate(code, list, S.REGISTER_COUNT), slots, imem);
    var n, d := P.CodeEnds(prog, base, tree, st, fuel);
    var c := AllocatedEnds(code, live, list, input, n, d);
    X.CompiledSize(target, slots, items, imem);
    k, m := X.MachineEnds(target, slots, items, imem, input, n);
    InCode(code, input, n, d);
    OutcomeOf(ExecStmts(prog, st, fuel), code, d, target, c, imem, m, base);
  }

  // ----- through the assembler text and the loader -----

  /** Behind the program instruction memory holds HALT, whether or not it is written out. */
  lemma PaddedStep(imem: T.Program, mem: T.Program, m: T.Machine)
    requires mem == imem + L.Halts(T.IADDR_SIZE - |imem|)
    ensures T.StepTM(mem, m) == T.StepTM(imem, m)
  {
    var pc := m.reg[T.PC];
    if |imem| <= pc < T.IADDR_SIZE {
      assert mem[pc] == T.Instr(T.HALT, 0, 0, 0);
      HaltStops(T.SetReg(m, T.PC, pc + 1));
    } else if 0 <= pc < |imem| {
      assert mem[pc] == imem[pc];
    }
    hide T.Execute, L.Halts;
  }

  lemma HaltStops(m: T.Machine)
    ensures T.GoodInstr(T.Instr(T.HALT, 0, 0, 0)) && T.Execute(m, T.Instr(T.HALT, 0, 0, 0)) == T.Halted
  {
  }

  lemma {:induction false} PaddedRun(imem: T.Program, mem: T.Program, m: T.Machine, k: nat)
    requires mem == imem + L.Halts(T.IADDR_SIZE - |imem|)
    ensures R.RunTM(mem, m, k) == R.RunTM(imem, m, k)
    decreases k
  {
    hide T.StepTM;
    if k > 0 {
      PaddedStep(imem, mem, m);
      if T.StepTM(imem, m).Okay? {
        PaddedRun(imem, mem, T.StepTM(imem, m).m, k - 1);
      }
    }
  }

  lemma PaddedEnds(o: Outcome, imem: T.Program, mem: T.Program, m: T.Machine)
    requires mem == imem + L.Halts(T.IADDR_SIZE - |imem|) && EndsAs(o, imem, m)
    ensures EndsAs(o, mem, m)
  {
    PaddedStep(imem, mem, m);
    hide T.StepTM;
  }

  /** The text of a program leaves a program in instruction memory. */
  lemma TextLoads(imem: T.Program) returns (mem: T.Program)
    ensures L.LoadTo(L.WriteAll(imem), |imem|) == Some(mem) && mem == imem + L.Halts(T.IADDR_SIZE - |imem|)
  {
    L.LoadWritten(imem);
    mem := imem + L.Halts(T.IADDR_SIZE - |imem|);
    hide L.LoadTo, L.WriteAll;
  }

  /** The whole way, text and loader included: what is printed for the program is loaded, line by line, and
      run from there it ends as the program does. */
  lemma SourceExecuted(prog: Stmts, base: nat, tree: Stmts, g: Cfg, symbols: nat, s: Sets, list: seq<nat>, input: seq<int>, fuel: nat)
    returns (imem: T.Program, mem: T.Program, k: nat, m: T.Machine)
    requires Translatable(prog, base, tree, g, symbols, s, list)
    requires Short(CodeOn(tree, list), LiveOn(tree, g, s, list))
    ensures Emits(CodeOn(tree, list), LiveOn(tree, g, s, list), imem)
    ensures L.LoadTo(L.WriteAll(imem), |imem|) == Some(mem)
    ensures R.RunTM(mem, X.Reset(input), k) == Some(m)
    ensures EndsAs(ExecStmts(prog, State(map[], input, []), fuel), mem, m)
  {
    hide *;
    Translated(prog, base, tree, g, symbols, s, list);
    imem := SourceLoads(prog, base, tree, g, symbols, s, list);
    k, m := SourceOnMachine(prog, base, tree, g, symbols, s, list, imem, input, fuel);
    mem := TextLoads(imem);
    PaddedRun(imem, mem, X.Reset(input), k);
    PaddedEnds(ExecStmts(prog, State(map[], input, []), fuel), imem, mem, m);
  }
}
