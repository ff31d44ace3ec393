/** The finished program under stepTM, one instruction of the code after another. */
module MachineRun {
  import opened Options
  import opened ThreeAddress
  import opened Tm
  import opened TmRun
  import opened Spares
  import opened SpareCode
  import opened SpareBlocks
  import opened SpareEnds
  import opened SpareSweep
  import opened LoopAllocation
  import opened BackPatch
  import LoweredJumps
  import opened MachineCode
  import opened MachineSim

  // ----- the finished program -----

  ghost predicate JumpsForward(code: seq<Ins>) {
    forall p: nat :: p < |code| && (code[p].Jmp? || code[p].Iff?) ==>
      FindLabel(code, code[p].target).Some? && FindLabel(code, code[p].target).value > p
  }

  function Halt(): Instr {
    Instr(HALT, 0, 0, 0)
  }

  /** The generator knows what to make of the code. */
  ghost predicate Sound(code: seq<Ins>, live: LiveSets) {
    && Closed(code, live) && LiveWritten(code, live) && Generable(code, live)
    && DistinctLabels(code) && JumpsForward(code)
  }

  /** The code and its live symbols are what the generator is right for. */
  ghost predicate Fit(code: seq<Ins>, live: LiveSets) {
    && Closed(code, live) && LiveWritten(code, live) && Generable(code, live) && SweepsSafe(code, live)
    && DistinctLabels(code) && JumpsForward(code)
  }

  /** The items that gen makes of the code. */
  ghost predicate Made(code: seq<Ins>, live: LiveSets, items: seq<Item>) {
    |live| == |code| + 1 && ItemsTo(code, live, |code|).Some? && items == ItemsTo(code, live, |code|).value.1
  }

  /** imem is the program that gen makes of the code: the items, and HALT behind them. */
  ghost predicate Compiled(code: seq<Ins>, live: LiveSets, items: seq<Item>, imem: Program) {
    && Made(code, live, items)
    && MarkedOnce(items) && LeaptOnce(items) && imem == CodeAt(items, |items|) + [Halt()]
  }

  lemma {:induction false} ItemsPrefix(code: seq<Ins>, live: LiveSets, p: nat, n: nat)
    requires |live| == |code| + 1 && p < n <= |code| && ItemsTo(code, live, n).Some?
    ensures ItemsTo(code, live, p).Some? && ItemsTo(code, live, p + 1).Some?
    ensures ItemAt(DescAt(code, live, p), code, live, p) == Some((DescAt(code, live, p + 1), ItemsTo(code, live, n).value.1[p]))
    decreases n
  {
    if p < n - 1 {
      ItemsPrefix(code, live, p, n - 1);
      assert ItemsTo(code, live, n).value.1[p] == ItemsTo(code, live, n - 1).value.1[p];
    }
    hide ItemAt;
  }

  /** Item p, and the descriptors around it. */
  ghost predicate ItemHere(code: seq<Ins>, live: LiveSets, items: seq<Item>, p: nat)
    requires |live| == |code| + 1 && p < |code|
  {
    && |items| == |code|
    && Knows(code, p, DescAt(code, live, p))
    && ItemAt(DescAt(code, live, p), code, live, p) == Some((DescAt(code, live, p + 1), items[p]))
    && Follow(code, p, DescAt(code, live, p), DescAt(code, live, p + 1))
    && GoodItem(items[p]) && LoweredJumps.Rendered(code[p], items[p])
  }

  lemma ItemsHere(code: seq<Ins>, live: LiveSets, items: seq<Item>, imem: Program, p: nat)
    requires Fit(code, live) && Compiled(code, live, items, imem) && p < |code|
    ensures ItemHere(code, live, items, p)
  {
    hide Fit, Made;
    MadeHere(code, live, items, p);
  }

  lemma MadeSize(code: seq<Ins>, live: LiveSets, items: seq<Item>)
    requires Made(code, live, items)
    ensures |items| == |code| && |live| == |code| + 1
  {
  }

  lemma CompiledSize(code: seq<Ins>, live: LiveSets, items: seq<Item>, imem: Program)
    requires Compiled(code, live, items, imem)
    ensures |live| == |code| + 1
  {
  }

  lemma HereRendered(code: seq<Ins>, live: LiveSets, items: seq<Item>, p: nat)
    requires |live| == |code| + 1 && p < |code| && ItemHere(code, live, items, p)
    ensures |items| == |code| && LoweredJumps.Rendered(code[p], items[p])
  {
  }

  lemma MadeHere(code: seq<Ins>, live: LiveSets, items: seq<Item>, p: nat)
    requires Fit(code, live) && Made(code, live, items) && p < |code|
    ensures ItemHere(code, live, items, p)
  {
    ItemsTotal(code, live, p);
    ItemsPrefix(code, live, p, |code|);
    hide ItemsTo, ItemAt, Knows, Closed, LiveWritten, Generable, Follow, GoodItem, LoweredJumps.Rendered;
    ItemTotal(code, live, p, DescAt(code, live, p));
  }

  // ----- places in the machine -----

  /** In front of a test the machine holds the difference that decides it. */
  ghost predicate Follows(code: seq<Ins>, live: LiveSets, p: nat, d: Desc, e: Env, st: State, m: Machine)
    requires |live| == |code| + 1 && p <= |code|
  {
    if p < |code| && code[p].Iff? then
      && p > 0 && code[p - 1].Bin? && Holds(d, e, live[p] - {code[p - 1].r}, DirtyAt(code, live, p), st, m)
      && Decides(d, e, code[p - 1], st)
    else Holds(d, e, live[p], DirtyAt(code, live, p), st, m)
  }

  /** The machine is at the code of instruction p. */
  ghost predicate On(code: seq<Ins>, live: LiveSets, items: seq<Item>, p: nat, e: Env, st: State, m: Machine)
    requires |live| == |code| + 1
  {
    && p <= |code| && p <= |items| && m.reg[PC] == LocOf(items, p)
    && Follows(code, live, p, DescAt(code, live, p), e, st, m)
  }

  lemma HoldsMoved(d: Desc, e: Env, live: set<nat>, w: set<nat>, st: State, m: Machine, pc: int)
    requires Holds(d, e, live, w, st, m)
    ensures Holds(d, e, live, w, st, At(m, pc)) && At(m, pc).reg[PC] == pc
  {
    RelMoved(d, e, m, pc);
    forall x | CleanAt(e, m, x) ensures CleanAt(e, At(m, pc), x) {
    }
    hide Rel;
  }

  lemma NoTestBehind(code: seq<Ins>, live: LiveSets, p: nat)
    requires |live| == |code| + 1 && Generable(code, live) && p < |code| && !Ordering(code[p])
    ensures p + 1 < |code| ==> !code[p + 1].Iff?
  {
    assert p + 1 < |code| ==> TestFits(code, live, p + 1);
  }

  lemma ForwardQuiet(code: seq<Ins>, live: LiveSets, items: seq<Item>, imem: Program, p: nat) returns (q: nat)
    requires Fit(code, live) && Compiled(code, live, items, imem) && p < |code| && (code[p].Jmp? || code[p].Iff?)
    ensures FindLabel(code, code[p].target) == Some(q) && p < q < |code| == |items|
    ensures Leaps(items[p]) && items[p].l == code[p].target && items[q] == Mark(items[p].l)
    ensures Quiet(items, 0, p, items[p].l)
  {
    q := FindLabel(code, code[p].target).value;
    ItemsHere(code, live, items, imem, p);
    ItemsHere(code, live, items, imem, q);
    RenderedJump(code[p], items[p]);
    RenderedJump(code[q], items[q]);
    hide Closed, LiveWritten, Generable, SweepsSafe, DistinctLabels, ItemsTo, ItemAt, Knows, Follow, GoodItem, Quiet, MarkedOnce, LeaptOnce;
    QuietBetween(items, q, p, 0, p);
  }

  lemma RenderedJump(i: Ins, x: Item)
    requires LoweredJumps.Rendered(i, x)
    ensures i.Jmp? || i.Iff? ==> Leaps(x) && x.l == i.target && (i.Jmp? <==> x.Jump?)
    ensures i.Label? ==> x == Mark(i.l)
    ensures !IsControl(i) ==> x.Straight?
    ensures i.Iff? ==> IsTest(x.op) && 0 <= x.r1 < PC
  {
  }

  lemma SliceLoaded(code: seq<Instr>, imem: Program, at: nat, c: seq<Instr>)
    requires imem == code + [Halt()] && at + |c| <= |code| && code[at..at + |c|] == c
    ensures Loaded(imem, at, c) && code <= imem
  {
    assert imem[at..at + |c|] == code[at..at + |c|];
  }

  /** The code of an item in front of its jump is loaded where the item begins. */
  lemma BodyLoaded(code: seq<Ins>, live: LiveSets, items: seq<Item>, imem: Program, p: nat)
    requires Fit(code, live) && Compiled(code, live, items, imem) && p < |code| && |items| == |code|
    requires items[p].Jump? ==> Quiet(items, 0, p, items[p].l)
    ensures Loaded(imem, LocOf(items, p), Body(items[p])) && CodeAt(items, |items|) <= imem
    ensures LocOf(items, p + 1) == LocOf(items, p) + |Body(items[p])| + if Leaps(items[p]) then 1 else 0
  {
    assert MarkedOnce(items) && imem == CodeAt(items, |items|) + [Halt()];
    hide *;
    BodyStays(items, p);
    Sized(items, |items|);
    SliceLoaded(CodeAt(items, |items|), imem, LocOf(items, p), Body(items[p]));
  }

  // ----- an instruction that is no jump -----

  lemma StraightItem(c: seq<Instr>)
    ensures Body(Item.Straight(c)) == c && !Leaps(Item.Straight(c))
  {
  }

  lemma PlainParts(code: seq<Ins>, live: LiveSets, items: seq<Item>, p: nat)
    requires |live| == |code| + 1 && p < |code| && !IsControl(code[p]) && ItemHere(code, live, items, p)
    ensures PlainItem(DescAt(code, live, p), code, live, p) == Some((DescAt(code, live, p + 1), items[p]))
    ensures |items| == |code| && items[p].Straight? && AllPlain(Body(items[p])) && Sane(DescAt(code, live, p))
    ensures Knows(code, p, DescAt(code, live, p))
  {
    hide PlainItem, DescAt, Follow, AllPlain, Sane;
  }

  lemma Outcomes(code: seq<Ins>, live: LiveSets)
    requires Fit(code, live)
    ensures Closed(code, live) && LiveWritten(code, live) && Generable(code, live) && SweepsSafe(code, live) && |live| == |code| + 1
  {
  }

  lemma FollowsPlain(code: seq<Ins>, live: LiveSets, p: nat, d: Desc, e: Env, st: State, m: Machine)
    requires |live| == |code| + 1 && p <= |code| && (p < |code| ==> !code[p].Iff?)
    ensures Follows(code, live, p, d, e, st, m) <==> Holds(d, e, live[p], DirtyAt(code, live, p), st, m)
  {
  }

  lemma FollowsTest(code: seq<Ins>, live: LiveSets, p: nat, d: Desc, e: Env, st: State, m: Machine)
    requires |live| == |code| + 1 && p < |code| && code[p].Iff?
    ensures Follows(code, live, p, d, e, st, m) <==>
      p > 0 && code[p - 1].Bin? && Holds(d, e, live[p] - {code[p - 1].r}, DirtyAt(code, live, p), st, m) && Decides(d, e, code[p - 1], st)
  {
  }

  lemma OnIs(code: seq<Ins>, live: LiveSets, items: seq<Item>, p: nat, e: Env, st: State, m: Machine)
    requires |live| == |code| + 1 && p <= |code| && p <= |items|
    ensures On(code, live, items, p, e, st, m)
       <==> m.reg[PC] == LocOf(items, p) && Follows(code, live, p, DescAt(code, live, p), e, st, m)
  {
  }

  lemma ReachesParts(c: seq<Instr>, m: Machine, d: Desc, e: Env, live: set<nat>, w: set<nat>, s: Option<State>)
    requires Reaches(c, m, d, e, live, w, s)
    ensures AllPlain(c)
    ensures match s
      case None => Exec(c, m).None?
      case Some(st) => Exec(c, m).Some? && Holds(d, e, live, w, st, Exec(c, m).value)
  {
  }

  lemma SlotsHere(code: seq<Ins>, live: LiveSets, p: nat)
    requires |live| == |code| + 1 && Generable(code, live) && p < |code|
    ensures SlotsFit(code[p])
  {
  }

  lemma StraightNoTest(code: seq<Ins>, live: LiveSets, p: nat)
    requires |live| == |code| + 1 && Generable(code, live) && p < |code| && SpareCode.Straight(code[p])
    ensures !IsControl(code[p]) && !Ordering(code[p])
  {
  }

  lemma SafeHere(code: seq<Ins>, live: LiveSets, p: nat)
    requires |live| == |code| + 1 && SweepsSafe(code, live) && p < |code|
    ensures !EndsBlock(code, p) ==> SafeAt(code, live, p, DescAt(code, live, p), DirtyAt(code, live, p))
  {
  }

  lemma DirtyThen(code: seq<Ins>, live: LiveSets, p: nat)
    requires |live| == |code| + 1 && p < |code|
    ensures DirtyAt(code, live, p + 1)
         == DirtyNext(code, p, DescAt(code, live, p), DirtyAt(code, live, p), DescAt(code, live, p + 1))
  {
    hide DescAt, DirtyBehind, InSpares;
  }

  /** Arithmetic, input, output and assignments. */
  lemma StraightRuns(code: seq<Ins>, live: LiveSets, items: seq<Item>, imem: Program, p: nat, e: Env, st: State, m: Machine) returns (f: Env, n: Machine)
    requires Fit(code, live) && Compiled(code, live, items, imem) && p < |code| && SpareCode.Straight(code[p])
    requires |live| == |code| + 1 && On(code, live, items, p, e, st, m)
    ensures p < |items|
    ensures match Effect(code[p], st)
      case None => AllPlain(Body(items[p])) && Exec(Body(items[p]), m).None? && Loaded(imem, LocOf(items, p), Body(items[p]))
      case Some(s) => RunTM(imem, m, |Body(items[p])|) == Some(n) && On(code, live, items, p + 1, f, s, n)
  {
    hide *;
    Outcomes(code, live);
    StraightNoTest(code, live, p);
    ItemsHere(code, live, items, imem, p);
    PlainParts(code, live, items, p);
    var d, d1, c := DescAt(code, live, p), DescAt(code, live, p + 1), items[p].code;
    OnIs(code, live, items, p, e, st, m);
    ControlKinds(code[p]);
    FollowsPlain(code, live, p, d, e, st, m);
    SlotsHere(code, live, p);
    ReadyAt(code, live, p, d);
    StraightItem(c);
    SafeHere(code, live, p);
    DirtyThen(code, live, p);
    f := PlainOk(code, live, p, d, DirtyAt(code, live, p), st, m, e);
    ReachesParts(c, m, d1, f, live[p + 1], DirtyAt(code, live, p + 1), Effect(code[p], st));
    BodyLoaded(code, live, items, imem, p);
    RunsThrough(imem, LocOf(items, p), c, m);
    n := m;
    if Effect(code[p], st).Some? {
      var s, k := Effect(code[p], st).value, Exec(c, m).value;
      n := At(k, LocOf(items, p + 1));
      HoldsMoved(d1, f, live[p + 1], DirtyAt(code, live, p + 1), s, k, LocOf(items, p + 1));
      NoTestBehind(code, live, p);
      FollowsPlain(code, live, p + 1, d1, f, s, n);
      OnIs(code, live, items, p + 1, f, s, n);
    }
  }

  lemma ControlKinds(i: Ins)
    ensures !IsControl(i) ==> !i.Iff? && !i.Jmp? && !i.Label?
  {
  }

  lemma ComparedFits(code: seq<Ins>, live: LiveSets, p: nat)
    requires |live| == |code| + 1 && Generable(code, live) && p < |code| && Compared(code[p])
    ensures p + 1 < |code| && code[p + 1].Iff? && Ordering(code[p]) && code[p + 1].c == Sym(code[p].r) && !IsControl(code[p])
  {
    assert OperationFits(code, p) && TestFits(code, live, p + 1);
  }

  /** A comparison, in front of its test. */
  lemma ComparedRuns(code: seq<Ins>, live: LiveSets, items: seq<Item>, imem: Program, p: nat, e: Env, st: State, m: Machine) returns (f: Env, n: Machine)
    requires Fit(code, live) && Compiled(code, live, items, imem) && p < |code| && Compared(code[p])
    requires |live| == |code| + 1 && On(code, live, items, p, e, st, m)
    ensures p < |items| && Effect(code[p], st).Some?
    ensures RunTM(imem, m, |Body(items[p])|) == Some(n) && On(code, live, items, p + 1, f, Effect(code[p], st).value, n)
  {
    hide *;
    Outcomes(code, live);
    ComparedFits(code, live, p);
    ItemsHere(code, live, items, imem, p);
    PlainParts(code, live, items, p);
    var d, d1, c := DescAt(code, live, p), DescAt(code, live, p + 1), items[p].code;
    OnIs(code, live, items, p, e, st, m);
    ControlKinds(code[p]);
    FollowsPlain(code, live, p, d, e, st, m);
    SlotsHere(code, live, p);
    ReadyAt(code, live, p, d);
    StraightItem(c);
    SafeHere(code, live, p);
    DirtyThen(code, live, p);
    f := ComparedOk(code, live, p, d, DirtyAt(code, live, p), st, m, e);
    BodyLoaded(code, live, items, imem, p);
    RunsThrough(imem, LocOf(items, p), c, m);
    var s, k := Effect(code[p], st).value, Exec(c, m).value;
    n := At(k, LocOf(items, p + 1));
    HoldsMoved(d1, f, live[p + 1] - {code[p].r}, DirtyAt(code, live, p + 1), s, k, LocOf(items, p + 1));
    OrderingKind(code[p], st);
    FollowsTest(code, live, p + 1, d1, f, s, n);
    OnIs(code, live, items, p + 1, f, s, n);
  }

  // ----- jumps -----

  /** The stores in front of a jump, and the jump. */
  lemma BodyThenJump(items: seq<Item>, q: nat, p: nat, imem: Program, m: Machine, k: Machine) returns (n: Machine)
    requires MarkedOnce(items) && LeaptOnce(items) && Targeted(items, q, p)
    requires CodeAt(items, |items|) <= imem && m.reg[PC] == LocOf(items, q) && Loaded(imem, LocOf(items, q), Body(items[q]))
    requires items[q].Test? ==> IsTest(items[q].op) && 0 <= items[q].r1 < PC
    requires LocOf(items, q + 1) == LocOf(items, q) + |Body(items[q])| + 1
    requires AllPlain(Body(items[q])) && Exec(Body(items[q]), m) == Some(k)
    ensures n == At(k, if Goes(items[q], k) then LocOf(items, p) else LocOf(items, q + 1))
    ensures RunTM(imem, m, |Body(items[q])| + 1) == Some(n)
  {
    hide *;
    TargetedLeaps(items, q, p);
    var c, j := Body(items[q]), LocOf(items, q) + |Body(items[q])|;
    n := At(k, if Goes(items[q], k) then LocOf(items, p) else LocOf(items, q + 1));
    GoesMoved(items[q], k, j);
    AtLine(items, q);
    RunsThrough(imem, LocOf(items, q), c, m);
    AtPC(k, j);
    JumpsLand(items, q, p, imem, At(k, j));
    AtTwice(k, j, LocOf(items, p));
    AtTwice(k, j, LocOf(items, q + 1));
    OneStep(imem, At(k, j), n);
    RunTMAdd(imem, m, |c|, 1);
  }

  lemma GoesMoved(i: Item, k: Machine, j: int)
    requires Leaps(i) && (i.Test? ==> 0 <= i.r1 < PC)
    ensures Goes(i, At(k, j)) == Goes(i, k)
  {
  }

  lemma AtLine(items: seq<Item>, q: nat)
    requires q < |items|
    ensures LineOf(items, q) == LocOf(items, q + 1) - 1
  {
  }

  lemma AtPC(k: Machine, j: int)
    ensures At(k, j).reg[PC] == j
  {
  }

  lemma AtTwice(k: Machine, j: int, l: int)
    ensures SetReg(At(k, j), PC, l) == At(k, l)
  {
    AtAt(k, j, l);
  }

  lemma JumpParts(code: seq<Ins>, live: LiveSets, items: seq<Item>, p: nat)
    requires |live| == |code| + 1 && p < |code| && code[p].Jmp? && ItemHere(code, live, items, p)
    ensures |items| == |code| && items[p] == Jump(BoundaryCode(DescAt(code, live, p), LiveOut(code, live, p)), code[p].target)
    ensures Body(items[p]) == BoundaryCode(DescAt(code, live, p), LiveOut(code, live, p))
    ensures DescAt(code, live, p + 1) == Emptied(DescAt(code, live, p)) && Knows(code, p, DescAt(code, live, p))
  {
    hide BoundaryCode, LiveOut, DescAt, Knows, Follow, GoodItem;
  }

  lemma LandsAt(code: seq<Ins>, live: LiveSets, items: seq<Item>, imem: Program, p: nat, q: nat)
    requires Fit(code, live) && Compiled(code, live, items, imem) && p < q < |items| && Leaps(items[p]) && items[q] == Mark(items[p].l)
    requires items[p].Test? ==> IsTest(items[p].op)
    ensures MarkedOnce(items) && LeaptOnce(items) && Targeted(items, p, q)
  {
  }

  lemma TargetBelow(code: seq<Ins>, live: LiveSets, p: nat, q: nat)
    requires Closed(code, live) && p < |code| && (code[p].Jmp? || code[p].Iff?) && FindLabel(code, code[p].target) == Some(q)
    ensures q < |code| && live[q] <= LiveOut(code, live, p) <= live[p] && code[q].Label?
  {
    assert LiveIn(code, live, p) <= live[p];
  }

  /** The text uses more and more slots. */
  lemma {:induction false} LoadedGrows(code: seq<Ins>, live: LiveSets, items: seq<Item>, imem: Program, p: nat, q: nat)
    requires Fit(code, live) && Compiled(code, live, items, imem) && p <= q < |code|
    ensures |live| == |code| + 1 && DescAt(code, live, p).loaded <= DescAt(code, live, q).loaded
    decreases q - p
  {
    hide *;
    Outcomes(code, live);
    if p < q {
      LoadedGrows(code, live, items, imem, p, q - 1);
      ItemsHere(code, live, items, imem, q - 1);
      HereGrows(code, live, items, q - 1);
    }
  }

  lemma HereGrows(code: seq<Ins>, live: LiveSets, items: seq<Item>, p: nat)
    requires |live| == |code| + 1 && p < |code| && ItemHere(code, live, items, p)
    ensures DescAt(code, live, p).loaded <= DescAt(code, live, p + 1).loaded
  {
    hide DescAt;
  }

  lemma KnowsParts(code: seq<Ins>, p: nat, d: Desc)
    requires p <= |code| && Knows(code, p, d)
    ensures Sane(d) && (p < |code| && code[p].Label? ==> d.regs == [None, None, None])
    ensures forall x :: x in DefsTo(code, p) && x >= REGISTER_COUNT ==> x in d.loaded
  {
  }

  /** Behind a jump the machine is where its label begins. */
  lemma Arrives(code: seq<Ins>, live: LiveSets, items: seq<Item>, imem: Program, p: nat, q: nat, d: Desc, e: Env, st: State, n: Machine) returns (f: Env)
    requires Fit(code, live) && Compiled(code, live, items, imem) && |live| == |code| + 1 && p < q < |code| == |items|
    requires (code[p].Jmp? || code[p].Iff?) && FindLabel(code, code[p].target) == Some(q)
    requires Holds(d, e, LiveOut(code, live, p), {}, st, n) && d.regs == [None, None, None]
    requires DescAt(code, live, p).loaded <= d.loaded <= DescAt(code, live, p + 1).loaded && n.reg[PC] == LocOf(items, q)
    ensures On(code, live, items, q, f, st, n)
  {
    hide *;
    Outcomes(code, live);
    TargetBelow(code, live, p, q);
    ItemsHere(code, live, items, imem, p);
    ItemsHere(code, live, items, imem, q);
    HereKnows(code, live, items, p);
    HereKnows(code, live, items, q);
    KnowsParts(code, p, DescAt(code, live, p));
    KnowsParts(code, q, DescAt(code, live, q));
    LoadedGrows(code, live, items, imem, p + 1, q);
    LiveKnown(code, live, p, q, d);
    f := JoinHolds(d, DescAt(code, live, q), e, LiveOut(code, live, p), live[q], st, n);
    LabelClean(code, live, q);
    ControlKinds(code[q]);
    LabelKind(code[q]);
    FollowsPlain(code, live, q, DescAt(code, live, q), f, st, n);
    OnIs(code, live, items, q, f, st, n);
  }

  lemma LabelKind(i: Ins)
    ensures i.Label? ==> !i.Iff?
  {
  }

  lemma LabelClean(code: seq<Ins>, live: LiveSets, q: nat)
    requires |live| == |code| + 1 && q < |code| && code[q].Label?
    ensures DirtyAt(code, live, q) == {}
  {
  }

  lemma HereKnows(code: seq<Ins>, live: LiveSets, items: seq<Item>, p: nat)
    requires |live| == |code| + 1 && p < |code| && ItemHere(code, live, items, p)
    ensures Knows(code, p, DescAt(code, live, p))
  {
  }

  lemma LiveKnown(code: seq<Ins>, live: LiveSets, p: nat, q: nat, d: Desc)
    requires |live| == |code| + 1 && LiveWritten(code, live) && p < |code| && q < |code| && live[q] <= live[p]
    requires DescAt(code, live, p).loaded <= d.loaded
    requires forall x :: x in DefsTo(code, p) && x >= REGISTER_COUNT ==> x in DescAt(code, live, p).loaded
    ensures forall x :: x in live[q] && x >= REGISTER_COUNT ==> x in d.loaded
  {
    assert live[p] <= DefsTo(code, p);
    hide DescAt;
  }

  lemma JumpGoes(i: Item, m: Machine)
    requires i.Jump?
    ensures Leaps(i) && Goes(i, m)
  {
  }

  lemma EmptiedIs(d: Desc)
    ensures Emptied(d).regs == [None, None, None] && Emptied(d).loaded == d.loaded
  {
  }

  /** An unconditional jump. */
  lemma JumpRuns(code: seq<Ins>, live: LiveSets, items: seq<Item>, imem: Program, p: nat, e: Env, st: State, m: Machine) returns (q: nat, f: Env, n: Machine)
    requires Fit(code, live) && Compiled(code, live, items, imem) && p < |code| && code[p].Jmp?
    requires |live| == |code| + 1 && On(code, live, items, p, e, st, m)
    ensures FindLabel(code, code[p].target) == Some(q) && p < |items|
    ensures RunTM(imem, m, |Body(items[p])| + 1) == Some(n) && On(code, live, items, q, f, st, n)
  {
    hide *;
    Outcomes(code, live);
    ItemsHere(code, live, items, imem, p);
    JumpParts(code, live, items, p);
    var d, out := DescAt(code, live, p), LiveOut(code, live, p);
    q := ForwardQuiet(code, live, items, imem, p);
    TargetBelow(code, live, p, q);
    OnIs(code, live, items, p, e, st, m);
    FollowsPlain(code, live, p, d, e, st, m);
    f := BoundaryHolds(d, e, live[p], DirtyAt(code, live, p), st, m, out);
    var k := Exec(BoundaryCode(d, out), m).value;
    BodyLoaded(code, live, items, imem, p);
    LandsAt(code, live, items, imem, p, q);
    JumpGoes(items[p], k);
    n := BodyThenJump(items, p, q, imem, m, k);
    HoldsMoved(Emptied(d), f, out, {}, st, k, LocOf(items, q));
    EmptiedIs(d);
    f := Arrives(code, live, items, imem, p, q, Emptied(d), f, st, n);
  }

  // ----- tests -----

  lemma TestParts(code: seq<Ins>, live: LiveSets, items: seq<Item>, p: nat)
    requires |live| == |code| + 1 && p < |code| && code[p].Iff? && Generable(code, live) && ItemHere(code, live, items, p)
    ensures |items| == |code| && p > 0 && Ordering(code[p - 1]) && code[p - 1].Bin? && code[p].c == Sym(code[p - 1].r)
    ensures code[p - 1].r !in LiveOut(code, live, p)
    ensures TestItem(DescAt(code, live, p), code[p - 1], LiveOut(code, live, p), code[p].target)
         == Some((DescAt(code, live, p + 1), items[p]))
    ensures Knows(code, p, DescAt(code, live, p)) && items[p].Test? && IsTest(items[p].op) && 0 <= items[p].r1 < PC
    ensures Follow(code, p, DescAt(code, live, p), DescAt(code, live, p + 1)) && EndsBlock(code, p)
  {
    assert TestFits(code, live, p);
    RenderedJump(code[p], items[p]);
    hide TestItem, LiveOut, DescAt, Knows, GoodItem, Generable;
  }

  lemma FollowParts(code: seq<Ins>, p: nat, d: Desc, f: Desc)
    requires p < |code| && Follow(code, p, d, f) && EndsBlock(code, p)
    ensures d.loaded <= f.loaded && f.regs == [None, None, None]
  {
  }

  lemma TestBody(i: Item)
    requires i.Test?
    ensures Body(i) == i.stores && Leaps(i)
  {
  }

  lemma TestGoes(i: Item, k: Machine)
    requires i.Test? && 0 <= i.r1 < PC
    ensures Goes(i, k) == Taken(i.op, k.reg[i.r1])
  {
  }

  lemma TestValue(i: Ins, st: State, r: nat)
    requires i.Iff? && i.c == Sym(r)
    ensures Val(st.env, i.c) == Get(st.env, r)
  {
  }

  lemma BehindTest(code: seq<Ins>, live: LiveSets, p: nat)
    requires |live| == |code| + 1 && Generable(code, live) && p < |code| && code[p].Iff?
    ensures live[p + 1] <= LiveOut(code, live, p) && DirtyAt(code, live, p + 1) == {} && (p + 1 < |code| ==> !code[p + 1].Iff?)
  {
    NoTestBehind(code, live, p);
  }

  /** A test. */
  lemma TestRuns(code: seq<Ins>, live: LiveSets, items: seq<Item>, imem: Program, p: nat, e: Env, st: State, m: Machine) returns (q: nat, f: Env, n: Machine)
    requires Fit(code, live) && Compiled(code, live, items, imem) && p < |code| && code[p].Iff?
    requires |live| == |code| + 1 && On(code, live, items, p, e, st, m)
    ensures p < |items|
    ensures if Val(st.env, code[p].c) > 0 then q == p + 1 else FindLabel(code, code[p].target) == Some(q)
    ensures RunTM(imem, m, |Body(items[p])| + 1) == Some(n) && On(code, live, items, q, f, st, n)
  {
    hide *;
    Outcomes(code, live);
    ItemsHere(code, live, items, imem, p);
    TestParts(code, live, items, p);
    var d, d1, out, cmp, i := DescAt(code, live, p), DescAt(code, live, p + 1), LiveOut(code, live, p), code[p - 1], items[p];
    FollowParts(code, p, d, d1);
    var to := ForwardQuiet(code, live, items, imem, p);
    OnIs(code, live, items, p, e, st, m);
    FollowsTest(code, live, p, d, e, st, m);
    TestOut(code, live, p, cmp.r);
    TestReady(code, live, p, d);
    f := TestItemOk(d, cmp, st, m, e, live[p] - {cmp.r}, DirtyAt(code, live, p), out, code[p].target);
    TestBody(i);
    var k := Exec(i.stores, m).value;
    BodyLoaded(code, live, items, imem, p);
    LandsAt(code, live, items, imem, p, to);
    n := BodyThenJump(items, p, to, imem, m, k);
    TestGoes(i, k);
    TestValue(code[p], st, cmp.r);
    if Val(st.env, code[p].c) > 0 {
      q := p + 1;
      HoldsMoved(d1, f, out, {}, st, k, LocOf(items, q));
      BehindTest(code, live, p);
      HoldsLess(d1, f, out, live[q], {}, st, n);
      FollowsPlain(code, live, q, d1, f, st, n);
      OnIs(code, live, items, q, f, st, n);
    } else {
      q := to;
      HoldsMoved(d1, f, out, {}, st, k, LocOf(items, q));
      f := Arrives(code, live, items, imem, p, q, d1, f, st, n);
    }
  }

  // ----- labels -----

  lemma LabelParts(code: seq<Ins>, live: LiveSets, items: seq<Item>, p: nat)
    requires Closed(code, live) && p < |code| && code[p].Label? && ItemHere(code, live, items, p)
    ensures |items| == |code| && DescAt(code, live, p + 1) == DescAt(code, live, p) && Body(items[p]) == [] && !Leaps(items[p])
    ensures live[p + 1] <= live[p] && DirtyAt(code, live, p) == DirtyAt(code, live, p + 1) == {}
  {
    assert LiveIn(code, live, p) <= live[p];
    hide DescAt, Knows, GoodItem, Follow, FindLabel;
  }

  lemma NotOrdering(i: Ins)
    ensures i.Label? ==> !Ordering(i) && !i.Iff?
  {
  }

  lemma NoJumpItem(i: Item)
    ensures !Leaps(i) ==> !i.Jump?
  {
  }

  /** A label takes no step. */
  lemma LabelRuns(code: seq<Ins>, live: LiveSets, items: seq<Item>, imem: Program, p: nat, e: Env, st: State, m: Machine)
    requires Fit(code, live) && Compiled(code, live, items, imem) && p < |code| && code[p].Label?
    requires |live| == |code| + 1 && On(code, live, items, p, e, st, m)
    ensures On(code, live, items, p + 1, e, st, m)
  {
    hide *;
    Outcomes(code, live);
    ItemsHere(code, live, items, imem, p);
    LabelParts(code, live, items, p);
    var d := DescAt(code, live, p);
    OnIs(code, live, items, p, e, st, m);
    NotOrdering(code[p]);
    FollowsPlain(code, live, p, d, e, st, m);
    HoldsLess(d, e, live[p], live[p + 1], {}, st, m);
    NoTestBehind(code, live, p);
    NoJumpItem(items[p]);
    BodyLoaded(code, live, items, imem, p);
    FollowsPlain(code, live, p + 1, d, e, st, m);
    OnIs(code, live, items, p + 1, e, st, m);
  }

  // ----- whole runs -----

  /** The machine after a reset: the first memory cell holds the highest address. */
  function Reset(input: seq<int>): Machine {
    Machine([0, 0, 0, 0, 0, 0, 0, 0], [DADDR_SIZE - 1] + seq(DADDR_SIZE - 1, _ => 0), input, [])
  }

  lemma StartRel(input: seq<int>)
    ensures Rel(Desc([None, None, None], {}), map[], Reset(input), None)
  {
    var d, e: Env, m := Desc([None, None, None], {}), map[], Reset(input);
    forall a ensures Located(d, e, m, a) {
    }
  }

  lemma StartOn(code: seq<Ins>, live: LiveSets, items: seq<Item>, imem: Program, input: seq<int>)
    requires Fit(code, live) && Compiled(code, live, items, imem) && |live| == |code| + 1
    ensures On(code, live, items, 0, map[], State(map[], input, []), Reset(input))
  {
    StartRel(input);
    var d := Desc([None, None, None], {});
    CleanStart(d, map[], Reset(input));
    assert code != [] ==> TestFits(code, live, 0);
    hide Rel, Clean, Closed, LiveWritten, Generable, SweepsSafe, ItemsTo, MarkedOnce, LeaptOnce;
    assert DescAt(code, live, 0) == d by {
      FirstDesc(code, live);
    }
  }

  lemma FirstDesc(code: seq<Ins>, live: LiveSets)
    requires |live| == |code| + 1
    ensures DescAt(code, live, 0) == Desc([None, None, None], {})
  {
  }

  lemma NextKinds(code: seq<Ins>, live: LiveSets, p: nat, st: State)
    requires Fit(code, live) && p < |code|
    ensures code[p].Jmp? ==> Next(code, Config(p, st)) == Goto(code, code[p].target, st)
    ensures code[p].Iff? ==> Next(code, Config(p, st)) == if Val(st.env, code[p].c) > 0 then Some(Config(p + 1, st)) else Goto(code, code[p].target, st)
    ensures code[p].Label? ==> Next(code, Config(p, st)) == Some(Config(p + 1, st))
    ensures !IsControl(code[p]) ==> SpareCode.Straight(code[p]) || Compared(code[p])
    ensures !IsControl(code[p]) ==>
      Next(code, Config(p, st)) == match Effect(code[p], st) { case None => None case Some(s) => Some(Config(p + 1, s)) }
  {
    Outcomes(code, live);
    if !IsControl(code[p]) {
      KindOf(code, live, p);
    }
    hide Fit, Effect, SpareCode.Straight, Goto;
  }

  lemma GotoIs(code: seq<Ins>, l: nat, q: nat, st: State)
    requires FindLabel(code, l) == Some(q)
    ensures Goto(code, l, st) == Some(Config(q, st))
  {
  }

  lemma ControlCases(i: Ins)
    ensures IsControl(i) <==> i.Jmp? || i.Iff? || i.Label?
  {
  }

  /** One step of the program is some steps of the machine. */
  lemma StepOn(code: seq<Ins>, live: LiveSets, items: seq<Item>, imem: Program, c: Config, d: Config, e: Env, m: Machine) returns (k: nat, f: Env, n: Machine)
    requires Fit(code, live) && Compiled(code, live, items, imem) && |live| == |code| + 1
    requires On(code, live, items, c.pc, e, c.st, m) && c.pc < |code| && Next(code, c) == Some(d)
    ensures RunTM(imem, m, k) == Some(n) && On(code, live, items, d.pc, f, d.st, n)
  {
    var p, st := c.pc, c.st;
    hide *;
    NextKinds(code, live, p, st);
    ControlCases(code[p]);
    if code[p].Jmp? {
      var q;
      q, f, n := JumpRuns(code, live, items, imem, p, e, st, m);
      GotoIs(code, code[p].target, q, st);
      k := |Body(items[p])| + 1;
    } else if code[p].Iff? {
      var q;
      q, f, n := TestRuns(code, live, items, imem, p, e, st, m);
      if Val(st.env, code[p].c) <= 0 {
        GotoIs(code, code[p].target, q, st);
      }
      k := |Body(items[p])| + 1;
    } else if code[p].Label? {
      LabelRuns(code, live, items, imem, p, e, st, m);
      k, f, n := 0, e, m;
      NoSteps(imem, m);
    } else if Compared(code[p]) {
      f, n := ComparedRuns(code, live, items, imem, p, e, st, m);
      k := |Body(items[p])|;
    } else {
      f, n := StraightRuns(code, live, items, imem, p, e, st, m);
      k := |Body(items[p])|;
    }
  }

  lemma NoSteps(imem: Program, m: Machine)
    ensures RunTM(imem, m, 0) == Some(m)
  {
  }

  lemma LastStep(code: seq<Ins>, c: Config, n: nat)
    requires n > 0 && Run(code, c, n).Some?
    ensures Run(code, c, n - 1).Some? && Next(code, Run(code, c, n - 1).value) == Run(code, c, n)
    ensures Run(code, c, n - 1).value.pc < |code|
  {
    RunAdd(code, c, n - 1, 1);
    var d := Run(code, c, n - 1);
    if d.Some? {
      assert Run(code, d.value, 1) == Next(code, d.value);
    }
  }

  lemma NoRun(code: seq<Ins>, c: Config)
    ensures Run(code, c, 0) == Some(c)
  {
  }

  /** Whatever the program does in some steps, the machine does. */
  lemma {:induction false} RunsOn(code: seq<Ins>, live: LiveSets, items: seq<Item>, imem: Program, input: seq<int>, n: nat) returns (k: nat, e: Env, m: Machine)
    requires Fit(code, live) && Compiled(code, live, items, imem) && |live| == |code| + 1
    requires Run(code, Config(0, State(map[], input, [])), n).Some?
    ensures RunTM(imem, Reset(input), k) == Some(m)
    ensures var c := Run(code, Config(0, State(map[], input, [])), n).value; On(code, live, items, c.pc, e, c.st, m)
    decreases n
  {
    hide *;
    var start := Config(0, State(map[], input, []));
    if n == 0 {
      NoRun(code, start);
      StartOn(code, live, items, imem, input);
      k, e, m := 0, map[], Reset(input);
      NoSteps(imem, m);
    } else {
      LastStep(code, start, n);
      k, e, m := RunsOn(code, live, items, imem, input, n - 1);
      var j;
      j, e, m := StepOn(code, live, items, imem, Run(code, start, n - 1).value, Run(code, start, n).value, e, m);
      RunTMAdd(imem, Reset(input), k, j);
      k := k + j;
    }
  }

  // ----- how runs end -----

  lemma HoldsIO(code: seq<Ins>, live: LiveSets, items: seq<Item>, p: nat, e: Env, st: State, m: Machine)
    requires |live| == |code| + 1 && On(code, live, items, p, e, st, m)
    ensures IOAgrees(st, m) && m.reg[PC] == LocOf(items, p)
  {
    hide Rel, Clean, DescAt;
  }

  /** Behind the last instruction the machine halts. */
  lemma EndHalts(code: seq<Ins>, live: LiveSets, items: seq<Item>, imem: Program, e: Env, st: State, m: Machine)
    requires Compiled(code, live, items, imem) && |live| == |code| + 1 && On(code, live, items, |code|, e, st, m)
    ensures StepTM(imem, m) == Halted
  {
    HoldsIO(code, live, items, |code|, e, st, m);
    Sized(items, |items|);
    hide ItemsTo, CodeAt, LocOf, MarkedOnce, LeaptOnce, On;
  }

  /** An error of the machine. */
  predicate Broken(r: StepResult) {
    !r.Okay? && !r.Halted?
  }

  predicate NoOut(code: seq<Instr>) {
    forall k :: 0 <= k < |code| ==> code[k].op != OUT
  }

  lemma QuietStep(i: Instr, m: Machine)
    requires GoodInstr(i) && i.op != OUT && Execute(m, i).Okay?
    ensures Execute(m, i).m.output == m.output
  {
  }

  lemma ErrorStep(imem: Program, at: nat, code: seq<Instr>, m: Machine)
    requires code != [] && AllPlain(code) && Loaded(imem, at, code) && m.reg[PC] == at && !StepTM(imem, m).Okay?
    ensures Broken(StepTM(imem, m))
  {
    assert imem[at] == imem[at..at + |code|][0] == code[0];
    assert Plain(code[0]);
  }

  /** Straight-line code that cannot run through stops with an error. */
  lemma {:induction false} Breaks(imem: Program, at: nat, code: seq<Instr>, m: Machine) returns (k: nat, n: Machine)
    requires AllPlain(code) && NoOut(code) && Loaded(imem, at, code) && m.reg[PC] == at && Exec(code, m).None?
    ensures RunTM(imem, m, k) == Some(n) && Broken(StepTM(imem, n)) && n.output == m.output
    decreases |code|
  {
    hide AllPlain, Loaded, Execute, StepTM, RunTM, Plain;
    FirstRuns(imem, at, code, m);
    var r := Execute(m, code[0]);
    if r.Okay? {
      QuietStep(code[0], m);
      RestBreaks(code, r.m, at);
      k, n := Breaks(imem, at + 1, code[1..], At(r.m, at + 1));
      RunFirst(imem, m, k);
      k := k + 1;
    } else {
      NoSteps(imem, m);
      ErrorStep(imem, at, code, m);
      k, n := 0, m;
    }
  }

  lemma RestBreaks(code: seq<Instr>, n: Machine, at: nat)
    requires code != [] && AllPlain(code[1..]) && Exec(code[1..], n).None?
    ensures Exec(code[1..], At(n, at + 1)).None?
  {
    ExecMoved(code[1..], n, at + 1);
  }

  // ----- only the code of an output puts anything out -----

  lemma NoOutAppend(a: seq<Instr>, b: seq<Instr>)
    requires NoOut(a) && NoOut(b)
    ensures NoOut(a + b)
  {
  }

  lemma NoOutOperand(d: Desc, a: Arg, ex1: Option<Arg>, ex2: Option<Arg>)
    ensures Operand(d, a, ex1, ex2).Some? ==> NoOut(Operand(d, a, ex1, ex2).value.code)
  {
    FoundAs(d, a, ex1, ex2);
    hide RegOf, Chosen, FindReg;
  }

  lemma NoOutTwo(d: Desc, r: nat, a1: Arg, ex: Option<Arg>)
    ensures GetReg2(d, r, a1, ex).Some? ==> NoOut(GetReg2(d, r, a1, ex).value.code)
  {
    NoOutOperand(d, Sym(r), Some(a1), ex);
    var f := Operand(d, Sym(r), Some(a1), ex);
    if f.Some? {
      var x, y := if ex.Some? then ex else Some(Sym(r)), if ex.Some? then Some(Sym(r)) else None;
      NoOutOperand(f.value.d, a1, x, y);
      var g := Operand(f.value.d, a1, x, y);
      hide Operand;
      if g.Some? {
        NoOutAppend(f.value.code, g.value.code);
      }
    }
  }

  lemma NoOutThree(d: Desc, r: nat, a1: Arg, a2: Arg)
    ensures GetReg3(d, r, a1, a2).Some? ==> NoOut(GetReg3(d, r, a1, a2).value.code)
  {
    NoOutTwo(d, r, a1, Some(a2));
    var o := GetReg2(d, r, a1, Some(a2));
    if o.Some? {
      NoOutOperand(o.value.d, a2, Some(a1), Some(Sym(r)));
      hide GetReg2, Operand;
    }
  }

  lemma NoOutGen(d: Desc, i: Ins)
    requires i.Bin? || i.In?
    ensures GenIns(d, i).Some? ==> NoOut(GenIns(d, i).value.1)
  {
    if i.Bin? {
      NoOutThree(d, i.r, i.a1, i.a2);
    }
    NoOutOperand(d, Sym(i.r), None, None);
    hide GetReg3, Operand, Increments;
  }

  lemma NoOutBoundary(d: Desc, out: set<nat>)
    ensures NoOut(BoundaryCode(d, out))
  {
  }

  lemma NoOutItem(d: Desc, code: seq<Ins>, live: LiveSets, p: nat)
    requires |live| == |code| + 1 && p < |code| && (code[p].Bin? || code[p].In?)
    ensures PlainItem(d, code, live, p).Some? ==> NoOut(Body(PlainItem(d, code, live, p).value.1))
  {
    NoOutGen(d, code[p]);
    var g := GenIns(d, code[p]);
    if g.Some? {
      PlainIs(d, code, live, p);
      var f := Swept(g.value.0, OutAt(code, live, p));
      NoOutBoundary(f, LiveOut(code, live, p));
      hide GenIns, Swept, OutAt, BoundaryCode, LiveOut, NoOut;
      NoOutAppend(g.value.1, BoundaryCode(f, LiveOut(code, live, p)));
    }
  }

  lemma StuckKinds(code: seq<Ins>, live: LiveSets, p: nat, st: State)
    requires Fit(code, live) && p < |code| && Next(code, Config(p, st)).None?
    ensures SpareCode.Straight(code[p]) && (code[p].Bin? || code[p].In?) && Effect(code[p], st).None? && !IsControl(code[p])
  {
    NextKinds(code, live, p, st);
    assert JumpsForward(code);
    hide Closed, LiveWritten, Generable, SweepsSafe, DistinctLabels;
  }

  /** Where the program is stuck the machine stops with an error, and has put out the same. */
  lemma StuckBreaks(code: seq<Ins>, live: LiveSets, items: seq<Item>, imem: Program, p: nat, e: Env, st: State, m: Machine) returns (k: nat, n: Machine)
    requires Fit(code, live) && Compiled(code, live, items, imem) && |live| == |code| + 1 && p < |code|
    requires On(code, live, items, p, e, st, m) && Next(code, Config(p, st)).None?
    ensures RunTM(imem, m, k) == Some(n) && Broken(StepTM(imem, n)) && n.output == m.output
  {
    hide *;
    StuckKinds(code, live, p, st);
    var f, x := StraightRuns(code, live, items, imem, p, e, st, m);
    ItemsHere(code, live, items, imem, p);
    PlainParts(code, live, items, p);
    NoOutItem(DescAt(code, live, p), code, live, p);
    HoldsIO(code, live, items, p, e, st, m);
    k, n := Breaks(imem, LocOf(items, p), Body(items[p]), m);
  }

  // ----- the code and the machine -----

  /** How the machine ends: it halts with the input left over and the output of the program, or it stops
      with an error where the program is stuck, with the same output. */
  ghost predicate EndsLike(code: seq<Ins>, c: Config, imem: Program, m: Machine) {
    if c.pc < |code| then Broken(StepTM(imem, m)) && m.output == c.st.output
    else StepTM(imem, m) == Halted && m.output == c.st.output && m.input == c.st.input
  }

  lemma IOParts(st: State, m: Machine)
    requires IOAgrees(st, m)
    ensures m.output == st.output && m.input == st.input
  {
  }

  /** The machine ends as the program does. */
  lemma MachineEnds(code: seq<Ins>, live: LiveSets, items: seq<Item>, imem: Program, input: seq<int>, n: nat) returns (k: nat, m: Machine)
    requires Fit(code, live) && Compiled(code, live, items, imem) && |live| == |code| + 1
    requires Run(code, Config(0, State(map[], input, [])), n).Some?
    requires Next(code, Run(code, Config(0, State(map[], input, [])), n).value).None?
    ensures RunTM(imem, Reset(input), k) == Some(m)
    ensures EndsLike(code, Run(code, Config(0, State(map[], input, [])), n).value, imem, m)
  {
    hide *;
    var e;
    k, e, m := RunsOn(code, live, items, imem, input, n);
    var c := Run(code, Config(0, State(map[], input, [])), n).value;
    OnBound(code, live, items, c, e, m);
    HoldsIO(code, live, items, c.pc, e, c.st, m);
    IOParts(c.st, m);
    if c.pc == |code| {
      EndHalts(code, live, items, imem, e, c.st, m);
    } else {
      var j;
      j, m := StuckBreaks(code, live, items, imem, c.pc, e, c.st, m);
      RunTMAdd(imem, Reset(input), k, j);
      k := k + j;
    }
    EndsSo(code, c, imem, m);
  }

  lemma OnBound(code: seq<Ins>, live: LiveSets, items: seq<Item>, c: Config, e: Env, m: Machine)
    requires |live| == |code| + 1 && On(code, live, items, c.pc, e, c.st, m)
    ensures c.pc <= |code| && c == Config(c.pc, c.st)
  {
  }

  lemma EndsSo(code: seq<Ins>, c: Config, imem: Program, m: Machine)
    requires m.output == c.st.output
    requires if c.pc < |code| then Broken(StepTM(imem, m)) else StepTM(imem, m) == Halted && m.input == c.st.input
    ensures EndsLike(code, c, imem, m)
  {
  }

  // ----- the program can be loaded -----

  lemma GoodFine(i: Item)
    requires GoodItem(i)
    ensures Fine(i)
  {
  }

  /** Every instruction of the finished program is one that the loader accepts. */
  lemma MadeGood(code: seq<Ins>, live: LiveSets, items: seq<Item>)
    requires Fit(code, live) && Made(code, live, items)
    ensures AllGood(CodeAt(items, |items|) + [Halt()])
  {
    hide *;
    MadeSize(code, live, items);
    forall j | 0 <= j < |items| ensures Fine(items[j]) {
      MadeHere(code, live, items, j);
      HereGood(code, live, items, j);
      GoodFine(items[j]);
    }
    FinishedGood(items, |items|);
    HaltGood(CodeAt(items, |items|));
  }

  lemma HereGood(code: seq<Ins>, live: LiveSets, items: seq<Item>, p: nat)
    requires |live| == |code| + 1 && p < |code| && ItemHere(code, live, items, p)
    ensures |items| == |code| && GoodItem(items[p])
  {
  }

  lemma HaltGood(code: seq<Instr>)
    requires AllGood(code)
    ensures AllGood(code + [Halt()])
  {
  }
}
