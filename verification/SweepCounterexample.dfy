/** A program that loses a value to free_regs:

      x := 5; a := 1; b := 2; c := 3; write a; write b; write c; write x

    Four intervals overlap, so x gets a memory slot and is kept in a spare register.  lva_bb leaves
    the operand of the last instruction out of the sets in the middle of the block; free_regs takes the
    register from x without a store, and the last instruction loads what memory held before. */
module SweepCounterexample {
  import opened Options
  import opened ThreeAddress
  import opened Ast
  import opened Lowering
  import opened Frontend
  import opened TreeBuilder
  import opened Intervals
  import opened Allocation
  import opened RegisterAllocation
  import opened LoopAllocation
  import LinearScan
  import C = LoopCounterexample
  import opened Tm
  import opened TmRun
  import opened Spares
  import opened SpareCode
  import opened SpareEnds
  import opened SpareSweep
  import opened InsLiveness
  import opened BackPatch
  import opened LoweredShape
  import opened MachineCode
  import Sim = MachineSim
  import X = MachineRun
  import W = WholeMachine

  // ----- the program -----

  /** The symbols x, a, b and c are 0, 1, 2 and 3. */
  function Tree(): Stmts {
    Chain(AssignS(0, Num(5)), Chain(AssignS(1, Num(1)), Chain(AssignS(2, Num(2)), Chain(AssignS(3, Num(3)), Prints()))))
  }

  function Prints(): Stmts {
    Chain(WriteS(Id(1)), Chain(WriteS(Id(2)), Chain(WriteS(Id(3)), Chain(WriteS(Id(0)), End))))
  }

  /** The code, whatever locations the symbols have. */
  function Code(x: nat, a: nat, b: nat, c: nat): seq<Ins> {
    [Assign(x, Const(5)), Assign(a, Const(1)), Assign(b, Const(2)), Assign(c, Const(3)),
     Out(Sym(a)), Out(Sym(b)), Out(Sym(c)), Out(Sym(x))]
  }

  function Source(): seq<Ins> {
    Code(0, 1, 2, 3)
  }

  lemma OneCode(s: Stmt, rest: Stmts)
    requires s.WriteS? || s.AssignS?
    requires s.e.Num? || s.e.Id?
    ensures GenStmts(Chain(s, rest)) == [if s.WriteS? then Out(Res(s.e)) else Assign(s.x, Res(s.e))] + GenStmts(rest)
  {
  }

  lemma TreeCode()
    ensures GenStmts(Tree()) == Source()
  {
    var w1 := Prints();
    var t := Tree();
    OneCode(w1.sibling.sibling.sibling.head, End);
    OneCode(w1.sibling.sibling.head, w1.sibling.sibling.sibling);
    OneCode(w1.sibling.head, w1.sibling.sibling);
    OneCode(w1.head, w1.sibling);
    OneCode(t.sibling.sibling.sibling.head, w1);
    OneCode(t.sibling.sibling.head, t.sibling.sibling.sibling);
    OneCode(t.sibling.head, t.sibling.sibling);
    OneCode(t.head, t.sibling);
    hide GenStmts;
  }

  /** The parser builds the tree as it is written. */
  lemma LeafBuilt(s: Supply, t: Stmt, rest: Stmts)
    requires (t.WriteS? || t.AssignS?) && (t.e.Num? || t.e.Id?)
    requires BuildStmts(s, rest) == Some((s, rest))
    ensures BuildStmts(s, Chain(t, rest)) == Some((s, Chain(t, rest)))
  {
    assert BuildExpr(s, t.e) == Some((s, t.e));
    assert BuildStmt(s, t) == Some((s, Chain(t, End)));
    assert Append(Chain(t, End), rest) == Chain(t, rest);
    hide BuildStmt, BuildExpr;
  }

  lemma LeafScoped(t: Stmt, rest: Stmts, base: nat)
    requires (t.WriteS? || t.AssignS?) && (t.e.Num? || (t.e.Id? && t.e.x < base)) && (t.AssignS? ==> t.x < base)
    requires StmtsScoped(rest, base)
    ensures StmtsScoped(Chain(t, rest), base)
  {
  }

  lemma CompiledIs(t: Stmts, s: Supply)
    requires s == Empty(4)
    ensures Compiles(t, 4, t) <== StmtsScoped(t, 4) && BuildStmts(s, t) == Some((s, t))
    ensures LoopFree(Tree()) && Ordered(Tree())
  {
    hide BuildStmts, StmtsScoped;
  }

  lemma TreeBuilt()
    ensures Compiles(Tree(), 4, Tree()) && LoopFree(Tree()) && Ordered(Tree())
  {
    var s := Empty(4);
    var w, t := Prints(), Tree();
    CompiledIs(t, s);
    assert BuildStmts(s, End) == Some((s, End)) && StmtsScoped(End, 4);
    hide BuildStmts, StmtsScoped, Compiles, LoopFree, Ordered;
    LeafBuilt(s, w.sibling.sibling.sibling.head, End);
    LeafBuilt(s, w.sibling.sibling.head, w.sibling.sibling.sibling);
    LeafBuilt(s, w.sibling.head, w.sibling.sibling);
    LeafBuilt(s, w.head, w.sibling);
    LeafBuilt(s, t.sibling.sibling.sibling.head, w);
    LeafBuilt(s, t.sibling.sibling.head, t.sibling.sibling.sibling);
    LeafBuilt(s, t.sibling.head, t.sibling.sibling);
    LeafBuilt(s, t.head, t.sibling);
    LeafScoped(w.sibling.sibling.sibling.head, End, 4);
    LeafScoped(w.sibling.sibling.head, w.sibling.sibling.sibling, 4);
    LeafScoped(w.sibling.head, w.sibling.sibling, 4);
    LeafScoped(w.head, w.sibling, 4);
    LeafScoped(t.sibling.sibling.sibling.head, w, 4);
    LeafScoped(t.sibling.sibling.head, t.sibling.sibling.sibling, 4);
    LeafScoped(t.sibling.head, t.sibling.sibling, 4);
    LeafScoped(t.head, t.sibling, 4);
  }

  // ----- its locations -----

  function Table(): seq<nat> {
    [0, 1, 2, 3]
  }

  function Places(): seq<LinearScan.Interval> {
    [LinearScan.Interval(1, 8), LinearScan.Interval(2, 5), LinearScan.Interval(3, 6), LinearScan.Interval(4, 7)]
  }

  lemma SourceInterval(v: nat)
    requires v < 4
    ensures FirstOf(Source(), v) == v + 1 && LastOf(Source(), v) == if v == 0 then 8 else v + 4
  {
    var e := if v == 0 then 8 else v + 4;
    assert Source()[v] == Assign(v, if v == 0 then Const(5) else Const(v));
    assert Source()[e - 1] == Out(Sym(v));
    assert forall j :: e <= j < 8 ==> Source()[j] == Out(Sym(if j == 7 then 0 else j - 3));
    C.FirstIs(Source(), v, v + 1);
    C.LastIs(Source(), v, e);
    hide FirstOf, LastOf;
  }

  lemma SourceIntervals()
    ensures Spans(Source(), Table()) == Places()
  {
    hide FirstOf, LastOf, Source;
    SourceInterval(0);
    SourceInterval(1);
    SourceInterval(2);
    SourceInterval(3);
  }

  lemma SourceListed()
    ensures Listed(Source(), Table())
  {
    forall p, v: nat | 0 <= p < |Source()| && Occurrences(Source()[p], v) > 0 ensures v in Table() {
      SourceSymbols(p, v);
    }
    hide Source, FirstOf, Occurrences;
    forall i, j | 0 <= i < j < |Table()|
      ensures Table()[i] != Table()[j] && FirstOf(Source(), Table()[i]) <= FirstOf(Source(), Table()[j])
    {
      TableAt(i);
      TableAt(j);
      SourceInterval(i);
      SourceInterval(j);
    }
  }

  lemma TableAt(i: nat)
    requires i < 4
    ensures |Table()| == 4 && Table()[i] == i
  {
  }

  lemma SourceSymbols(p: nat, v: nat)
    requires p < |Source()| && Occurrences(Source()[p], v) > 0
    ensures v in Table()
  {
    assert v < 4;
    TableAt(v);
    hide Table;
  }

  /** The scan after k intervals: x, a and b take the registers, and c takes that of x. */
  function After(k: nat): LinearScan.Alloc {
    if k == 0 then LinearScan.Alloc([0, 0, 0, 0], [], [2, 1, 0])
    else if k == 1 then LinearScan.Alloc([0, 0, 0, 0], [0], [2, 1])
    else if k == 2 then LinearScan.Alloc([0, 1, 0, 0], [1, 0], [2])
    else if k == 3 then LinearScan.Alloc([0, 1, 2, 0], [1, 2, 0], [])
    else LinearScan.Alloc([LinearScan.NO_REGISTER, 1, 2, 0], [1, 2, 3], [])
  }

  lemma Step0()
    ensures LinearScan.Indices(Places(), After(0).active) && LinearScan.Step(Places(), After(0), 0) == After(1)
  {
    C.Ended(Places(), After(0).active, Places()[0].start, 0, 0);
    C.Inserted(Places(), After(0).active[0..], 0, 0, 0);
    hide LinearScan.Step;
    C.StepTo(Places(), After(0), 0, 0, 0, After(1));
  }

  lemma Step1()
    ensures LinearScan.Indices(Places(), After(1).active) && LinearScan.Step(Places(), After(1), 1) == After(2)
  {
    C.Ended(Places(), After(1).active, Places()[1].start, 0, 0);
    C.Inserted(Places(), After(1).active[0..], 1, 0, 0);
    hide LinearScan.Step;
    C.StepTo(Places(), After(1), 1, 0, 0, After(2));
  }

  lemma Step2()
    ensures LinearScan.Indices(Places(), After(2).active) && LinearScan.Step(Places(), After(2), 2) == After(3)
  {
    C.Ended(Places(), After(2).active, Places()[2].start, 0, 0);
    C.Inserted(Places(), After(2).active[0..], 2, 0, 1);
    hide LinearScan.Step;
    C.StepTo(Places(), After(2), 2, 0, 1, After(3));
  }

  /** No register is free, and x ends last: it is spilled. */
  lemma Step3()
    ensures LinearScan.Indices(Places(), After(3).active) && LinearScan.Step(Places(), After(3), 3) == After(4)
  {
    C.Ended(Places(), After(3).active, Places()[3].start, 0, 0);
    assert After(3).active[..2] == [1, 2];
    C.Inserted(Places(), [1, 2], 3, 0, 2);
    hide LinearScan.EndedBefore, LinearScan.InsertAt;
    assert After(3).active[0..] == After(3).active && After(3).active[..0] == [];
  }

  lemma Scanned()
    ensures LinearScan.Scan(Places(), 3, 4) == After(4)
  {
    assert LinearScan.Scan(Places(), 3, 0) == After(0);
    Step0();
    Step1();
    Step2();
    Step3();
    LinearScan.ScanStep(Places(), 3, 0);
    LinearScan.ScanStep(Places(), 3, 1);
    LinearScan.ScanStep(Places(), 3, 2);
    LinearScan.ScanStep(Places(), 3, 3);
    hide LinearScan.Scan, LinearScan.Step, After, LinearScan.Indices;
  }

  lemma LocationsAre(reg: seq<int>)
    requires reg == [LinearScan.NO_REGISTER, 1, 2, 0]
    ensures var loc := LocationsOf(Table(), reg, 3);
      Allocation.At(loc, 0) == 3 && Allocation.At(loc, 1) == 1 && Allocation.At(loc, 2) == 2 && Allocation.At(loc, 3) == 0
  {
    assert IndexOf(Table(), 0) == 0;
    assert IndexOf(Table(), 1) == 1;
    assert IndexOf(Table(), 2) == 2;
    assert IndexOf(Table(), 3) == 3;
  }

  lemma AllocateIs()
    requires Listed(Source(), Table())
    ensures Allocate(Source(), Table(), 3) == LocationsOf(Table(), [LinearScan.NO_REGISTER, 1, 2, 0], 3)
  {
    assert |Table()| == 4 && After(4).reg == [LinearScan.NO_REGISTER, 1, 2, 0];
    hide *;
    SourceIntervals();
    Scanned();
    C.AllocateFrom(Source(), Table(), 3, Places());
  }

  /** The code on locations: x is in cell 0 of memory. */
  function Target(): seq<Ins> {
    Code(3, 1, 2, 0)
  }

  lemma SourceRenamed(loc: Locations)
    requires Allocation.At(loc, 0) == 3 && Allocation.At(loc, 1) == 1 && Allocation.At(loc, 2) == 2 && Allocation.At(loc, 3) == 0
    ensures RenameAll(Source(), loc) == Target()
  {
    hide Allocation.At;
  }

  lemma SourceAllocated()
    requires Listed(Source(), Table())
    ensures RenameAll(Source(), Allocate(Source(), Table(), 3)) == Target()
  {
    hide *;
    AllocateIs();
    LocationsAre([LinearScan.NO_REGISTER, 1, 2, 0]);
    SourceRenamed(Allocate(Source(), Table(), 3));
  }

  // ----- what is generated for it -----

  lemma OneBlock(p: nat)
    requires p < 8
    ensures |Target()| == 8 && (EndsBlock(Target(), p) <==> p == 7) && (StartsBlock(Target(), p) <==> p == 0)
  {
  }

  /** x is in the sets of the first two instructions, and not in that of the third. */
  lemma XMissing(live: LiveSets)
    requires |live| == 9 && live[8] == {}
    ensures |Target()| == 8 && 3 in OutAt(Target(), live, 0) && 3 in OutAt(Target(), live, 1) && 3 !in OutAt(Target(), live, 2)
    ensures LiveOut(Target(), live, 7) == {}
  {
    var t := Target();
    assert Mentions(t[0]) == {3};
    assert LiveOut(t, live, 7) == {};
    assert KeptAt(t, live, 7) == {};
    assert KeptAt(t, live, 6) == {0};
    assert KeptAt(t, live, 5) == {2, 0};
    assert KeptAt(t, live, 4) == {1, 2, 0};
    assert KeptAt(t, live, 3) == {0, 1, 2};
    assert KeptAt(t, live, 2) == {0, 1, 2};
    assert Mentions(t[1]) == {1};
  }

  function None3(): Desc {
    Desc([None, None, None], {})
  }

  /** x in the first spare register, and in none of them. */
  function WithX(): Desc {
    Desc([Some(Sym(3)), None, None], {3})
  }

  function WithoutX(): Desc {
    Desc([None, None, None], {3})
  }

  lemma SpareX()
    ensures RegOf(None3(), Sym(3)) == None && RegOf(WithoutX(), Sym(3)) == None
    ensures FindReg(None3(), Sym(3), Some(Const(5)), None) == Some(Found(WithX(), [], 3))
    ensures FindReg(WithoutX(), Sym(3), None, None) == Some(Found(WithX(), [Instr(LD, 3, 0, GP)], 3))
  {
    assert Spares.Mark(None3(), 0, Sym(3)) == WithX();
    assert Spares.Mark(WithoutX(), 0, Sym(3)) == WithX();
    NothingBefore([]);
    NothingBefore([Instr(LD, 3, 0, GP)]);
  }

  lemma NothingBefore(c: seq<Instr>)
    ensures [] + c == c
  {
  }

  lemma CodeOfX()
    ensures GenIns(None3(), Assign(3, Const(5))) == Some((WithX(), [Instr(LDC, 3, 5, 0)]))
    ensures GenIns(WithoutX(), Out(Sym(3))) == Some((WithX(), [Instr(LD, 3, 0, GP), Instr(OUT, 3, 0, 0)]))
  {
    SpareX();
    NothingBefore([Instr(LDC, 3, 5, 0)]);
    assert [Instr(LD, 3, 0, GP)] + [Instr(OUT, 3, 0, 0)] == [Instr(LD, 3, 0, GP), Instr(OUT, 3, 0, 0)];
    hide FindReg;
  }

  /** Symbols with registers of their own leave the spare registers alone. */
  lemma CodeOfOthers(d: Desc, r: nat, v: int)
    requires r < 3
    ensures GenIns(d, Assign(r, Const(v))) == Some((d, [Instr(LDC, r, v, 0)]))
    ensures GenIns(d, Out(Sym(r))) == Some((d, [Instr(OUT, r, 0, 0)]))
  {
    NothingBefore([Instr(LDC, r, v, 0)]);
    NothingBefore([Instr(OUT, r, 0, 0)]);
  }

  lemma SweepX(out: set<nat>)
    ensures Swept(WithX(), out) == if 3 in out then WithX() else WithoutX()
    ensures Swept(WithoutX(), out) == WithoutX()
  {
  }

  /** The items of the first p instructions. */
  function Items(p: nat): seq<Item>
    requires p <= 8
  {
    [Item.Straight([Instr(LDC, 3, 5, 0)]), Item.Straight([Instr(LDC, 1, 1, 0)]), Item.Straight([Instr(LDC, 2, 2, 0)]),
     Item.Straight([Instr(LDC, 0, 3, 0)]), Item.Straight([Instr(OUT, 1, 0, 0)]), Item.Straight([Instr(OUT, 2, 0, 0)]),
     Item.Straight([Instr(OUT, 0, 0, 0)]), Item.Straight([Instr(LD, 3, 0, GP), Instr(OUT, 3, 0, 0)])][..p]
  }

  function DescBefore(p: nat): Desc {
    if p == 0 then None3() else if p <= 2 then WithX() else WithoutX()
  }

  lemma ItemOf(live: LiveSets, p: nat)
    requires |live| == 9 && live[8] == {} && p < 8
    ensures |Target()| == 8
    ensures ItemAt(DescBefore(p), Target(), live, p) == Some((DescBefore(p + 1), Items(8)[p]))
  {
    OneBlock(p);
    XMissing(live);
    ItemCode(p);
    SweepX(OutAt(Target(), live, p));
    assert Emptied(WithX()) == WithoutX() && Emptied(WithoutX()) == WithoutX();
    NoStores(WithX());
    NoStores(WithoutX());
    assert Target()[p].Assign? || Target()[p].Out?;
    var c := [Instr(LD, 3, 0, GP), Instr(OUT, 3, 0, 0)];
    assert c + [] == c;
    hide GenIns, OutAt, Swept, BoundaryCode, Emptied, EndsBlock, LiveOut;
  }

  lemma NoStores(d: Desc)
    ensures BoundaryCode(d, {}) == []
  {
  }

  lemma TargetIs()
    ensures var t := Target();
      && |t| == 8 && t[0] == Assign(3, Const(5)) && t[1] == Assign(1, Const(1)) && t[2] == Assign(2, Const(2)) && t[3] == Assign(0, Const(3))
      && t[4] == Out(Sym(1)) && t[5] == Out(Sym(2)) && t[6] == Out(Sym(0)) && t[7] == Out(Sym(3))
  {
  }

  lemma ItemsAre()
    ensures var i := Items(8);
      && |i| == 8 && (forall k :: 0 <= k < 8 ==> i[k].Straight?)
      && i[0].code == [Instr(LDC, 3, 5, 0)] && i[1].code == [Instr(LDC, 1, 1, 0)] && i[2].code == [Instr(LDC, 2, 2, 0)]
      && i[3].code == [Instr(LDC, 0, 3, 0)] && i[4].code == [Instr(OUT, 1, 0, 0)] && i[5].code == [Instr(OUT, 2, 0, 0)]
      && i[6].code == [Instr(OUT, 0, 0, 0)] && i[7].code == [Instr(LD, 3, 0, GP), Instr(OUT, 3, 0, 0)]
  {
  }

  lemma DescsAre(p: nat)
    ensures DescBefore(0) == None3() && DescBefore(1) == WithX() && (p == 7 ==> DescBefore(p) == WithoutX())
  {
  }

  lemma ItemCode(p: nat)
    requires p < 8
    ensures |Target()| == 8 && |Items(8)| == 8 && Items(8)[p].Straight?
    ensures GenIns(DescBefore(p), Target()[p]) == Some((if p <= 1 || p == 7 then WithX() else DescBefore(p), Items(8)[p].code))
  {
    hide *;
    TargetIs();
    ItemsAre();
    DescsAre(p);
    CodeOfX();
    CodeOfOthers(DescBefore(p), 0, 3);
    CodeOfOthers(DescBefore(p), 1, 1);
    CodeOfOthers(DescBefore(p), 2, 2);
  }

  lemma {:induction false} AllItems(live: LiveSets, p: nat)
    requires |live| == 9 && live[8] == {} && p <= 8
    ensures |Target()| == 8 && ItemsTo(Target(), live, p) == Some((DescBefore(p), Items(p)))
  {
    hide *;
    TargetSize();
    if p > 0 {
      AllItems(live, p - 1);
      ItemOf(live, p - 1);
      ItemsGrow(p);
      NextItems(live, p);
    } else {
      FirstItems(live);
    }
  }

  lemma TargetSize()
    ensures |Target()| == 8
  {
  }

  lemma ItemsGrow(p: nat)
    requires 0 < p <= 8
    ensures |Items(8)| == 8 && Items(p) == Items(p - 1) + [Items(8)[p - 1]]
  {
  }

  lemma FirstItems(live: LiveSets)
    requires |live| == 9
    ensures |Target()| == 8 && ItemsTo(Target(), live, 0) == Some((DescBefore(0), Items(0)))
  {
  }

  lemma NextItems(live: LiveSets, p: nat)
    requires |live| == 9 && 0 < p <= 8
    ensures |Target()| == 8
    ensures ItemsTo(Target(), live, p) == match ItemsTo(Target(), live, p - 1)
      case None => None
      case Some((d, items)) => match ItemAt(d, Target(), live, p - 1) { case None => None case Some((e, i)) => Some((e, items + [i])) }
  {
    hide ItemAt;
  }

  /** The finished program. */
  function Finished(): seq<Instr> {
    [Instr(LDC, 3, 5, 0), Instr(LDC, 1, 1, 0), Instr(LDC, 2, 2, 0), Instr(LDC, 0, 3, 0),
     Instr(OUT, 1, 0, 0), Instr(OUT, 2, 0, 0), Instr(OUT, 0, 0, 0), Instr(LD, 3, 0, GP), Instr(OUT, 3, 0, 0)]
  }

  lemma {:induction false} Emission(p: nat)
    requires p <= 8
    ensures EmitTo(Items(8), p) == Some(BackPatch.Emission(Finished()[..if p == 8 then 9 else p], []))
  {
    if p > 0 {
      Emission(p - 1);
      assert Items(8)[p - 1].Straight?;
      assert Finished()[..p - 1] + Items(8)[p - 1].code == Finished()[..if p == 8 then 9 else p];
    }
  }

  // ----- what it prints -----

  function Registers0(p: nat): Regs {
    [if p >= 4 then 3 else 0, if p >= 2 then 1 else 0, if p >= 3 then 2 else 0,
     if p == 0 then 0 else if p < 8 then 5 else DADDR_SIZE - 1, 0, 0, 0, p]
  }

  function Printed(p: nat): seq<int> {
    [1, 2, 3, DADDR_SIZE - 1][..if p <= 4 then 0 else if p <= 7 then p - 4 else if p == 8 then 3 else 4]
  }

  /** The machine after p instructions. */
  function Machine0(p: nat, input: seq<int>): Machine {
    Machine(Registers0(p), X.Reset(input).dmem, input, Printed(p))
  }

  lemma Fetch(imem: Program, p: nat, input: seq<int>)
    requires imem == Finished() + [X.Halt()] && p < 9
    ensures |Finished()| == 9 && GoodInstr(Finished()[p])
    ensures StepTM(imem, Machine0(p, input)) == Execute(SetReg(Machine0(p, input), PC, p + 1), Finished()[p])
  {
    assert imem[p] == Finished()[p];
    hide Execute;
  }

  lemma ExecuteConst(p: nat, input: seq<int>)
    requires p < 4
    ensures |Finished()| == 9 && GoodInstr(Finished()[p])
    ensures Execute(SetReg(Machine0(p, input), PC, p + 1), Finished()[p]) == Okay(Machine0(p + 1, input))
  {
    var m, i := SetReg(Machine0(p, input), PC, p + 1), Finished()[p];
    assert Execute(m, i) == Okay(SetReg(m, i.a1, i.a2));
    assert SetReg(m, i.a1, i.a2).reg == Registers0(p + 1);
  }

  lemma ExecuteOut(p: nat, input: seq<int>)
    requires 4 <= p < 7 || p == 8
    ensures |Finished()| == 9 && GoodInstr(Finished()[p])
    ensures Execute(SetReg(Machine0(p, input), PC, p + 1), Finished()[p]) == Okay(Machine0(p + 1, input))
  {
    var m, i := SetReg(Machine0(p, input), PC, p + 1), Finished()[p];
    assert m.reg == Registers0(p + 1);
    assert Printed(p) + [m.reg[i.a1]] == Printed(p + 1);
  }

  lemma ExecuteLoad(input: seq<int>)
    ensures |Finished()| == 9 && GoodInstr(Finished()[7])
    ensures Execute(SetReg(Machine0(7, input), PC, 8), Finished()[7]) == Okay(Machine0(8, input))
  {
    var m, i := SetReg(Machine0(7, input), PC, 8), Finished()[7];
    assert m.dmem[0] == DADDR_SIZE - 1;
    assert Execute(m, i) == Okay(SetReg(m, 3, DADDR_SIZE - 1));
    assert SetReg(m, 3, DADDR_SIZE - 1).reg == Registers0(8);
  }

  lemma Step(imem: Program, p: nat, input: seq<int>)
    requires imem == Finished() + [X.Halt()] && p < 9
    ensures StepTM(imem, Machine0(p, input)) == Okay(Machine0(p + 1, input))
  {
    hide *;
    Fetch(imem, p, input);
    if p < 4 {
      ExecuteConst(p, input);
    } else if p == 7 {
      ExecuteLoad(input);
    } else {
      ExecuteOut(p, input);
    }
  }

  lemma {:induction false} Steps(imem: Program, p: nat, input: seq<int>)
    requires imem == Finished() + [X.Halt()] && p <= 9
    ensures RunTM(imem, Machine0(p, input), 9 - p) == Some(Machine0(9, input))
    decreases 9 - p
  {
    if p < 9 {
      Step(imem, p, input);
      Steps(imem, p + 1, input);
    }
    hide StepTM, Machine0;
  }

  lemma StartState(input: seq<int>)
    ensures Machine0(0, input) == X.Reset(input)
  {
  }

  lemma EndState(imem: Program, input: seq<int>)
    requires imem == Finished() + [X.Halt()]
    ensures StepTM(imem, Machine0(9, input)) == Halted && Machine0(9, input).output == [1, 2, 3, DADDR_SIZE - 1]
  {
    assert imem[9] == X.Halt();
  }

  /** The program prints the value of x. */
  lemma OneExec(s: Stmt, rest: Stmts, st: State)
    requires s.WriteS? || s.AssignS?
    requires s.e.Num? || s.e.Id?
    ensures ExecStmts(Chain(s, rest), st, 0) == ExecStmts(rest, After1(s, st), 0)
  {
  }

  function After1(s: Stmt, st: State): State
    requires s.WriteS? || s.AssignS?
    requires s.e.Num? || s.e.Id?
  {
    var v := if s.e.Num? then s.e.v else Get(st.env, s.e.x);
    if s.WriteS? then st.(output := st.output + [v]) else st.(env := st.env[s.x := v])
  }

  lemma SourcePrints(input: seq<int>)
    ensures ExecStmts(Tree(), State(map[], input, []), 0).Done?
    ensures ExecStmts(Tree(), State(map[], input, []), 0).st.output == [1, 2, 3, 5]
  {
    var t, w := Tree(), Prints();
    var e := map[0 := 5, 1 := 1, 2 := 2, 3 := 3];
    var s := State(e, input, []);
    var none: seq<int> := [];
    assert ExecStmts(t, State(map[], input, []), 0) == ExecStmts(w, s, 0) by {
      OneExec(t.head, t.sibling, State(map[], input, none));
      OneExec(t.sibling.head, t.sibling.sibling, State(map[0 := 5], input, none));
      OneExec(t.sibling.sibling.head, t.sibling.sibling.sibling, State(map[0 := 5, 1 := 1], input, none));
      OneExec(t.sibling.sibling.sibling.head, w, State(map[0 := 5, 1 := 1, 2 := 2], input, none));
      hide ExecStmts;
    }
    assert ExecStmts(w, s, 0) == ExecStmts(End, State(e, input, [1, 2, 3, 5]), 0) by {
      OneExec(w.head, w.sibling, s);
      OneExec(w.sibling.head, w.sibling.sibling, State(e, input, [1]));
      OneExec(w.sibling.sibling.head, w.sibling.sibling.sibling, State(e, input, [1, 2]));
      OneExec(w.sibling.sibling.sibling.head, End, State(e, input, [1, 2, 3]));
      hide ExecStmts;
    }
    hide Tree, Prints;
  }

  // ----- the results -----

  lemma EmittedHere(live: LiveSets, imem: Program)
    requires |live| == 9 && live[8] == {} && W.Emits(Target(), live, imem)
    ensures imem == Finished() + [X.Halt()]
  {
    AllItems(live, 8);
    Emission(8);
    assert |Target()| == 8 && |Items(8)| == 8 && Items(8)[..8] == Items(8);
    assert Finished()[..9] == Finished();
    hide Target, ItemsTo, Items, Finished, EmitTo;
  }

  lemma LiveSize(live: LiveSets, loc: Locations)
    requires SolvesCode(Source(), live)
    ensures |W.Images(live, loc)| == 9 && W.Images(live, loc)[8] == {}
  {
    assert live[8] == {};
    W.EmptyImage(loc);
  }

  /** On every input: the program prints 1 2 3 5, and its machine code 1 2 3 and what memory held at
      the start. */
  lemma SweepLoses(live: LiveSets, imem: Program, input: seq<int>) returns (m: Machine)
    requires SolvesCode(Source(), live) && Listed(Source(), Table())
    requires var loc := Allocate(Source(), Table(), 3); W.Emits(RenameAll(Source(), loc), W.Images(live, loc), imem)
    ensures ExecStmts(Tree(), State(map[], input, []), 0).Done?
    ensures ExecStmts(Tree(), State(map[], input, []), 0).st.output == [1, 2, 3, 5]
    ensures RunTM(imem, X.Reset(input), 9) == Some(m) && StepTM(imem, m) == Halted && m.output == [1, 2, 3, DADDR_SIZE - 1]
  {
    hide *;
    SourcePrints(input);
    SourceAllocated();
    var loc := Allocate(Source(), Table(), 3);
    LiveSize(live, loc);
    EmittedHere(W.Images(live, loc), imem);
    StartState(input);
    Steps(imem, 0, input);
    EndState(imem, input);
    m := Machine0(9, input);
  }

  lemma {:induction false} XLive(live: LiveSets, p: nat)
    requires SolvesCode(Source(), live) && 1 <= p <= 7
    ensures 0 in live[p]
    decreases 7 - p
  {
    assert live[p] == LiveIn(Source(), live, p);
    if p < 7 {
      XLive(live, p + 1);
      assert LiveOut(Source(), live, p) == live[p + 1];
      assert 0 !in Defs(Source()[p]);
    }
    hide SolvesCode;
  }

  lemma DescsBefore(live: LiveSets, p: nat)
    requires |live| == 9 && live[8] == {} && p <= 8
    ensures |Target()| == 8 && DescAt(Target(), live, p) == DescBefore(p)
  {
    AllItems(live, p);
    hide Target, ItemsTo, DescBefore, Items;
  }

  lemma SpareXOnly()
    ensures InSpares(WithX()) == {3} && MachineCode.Writes(Assign(3, Const(5))) == {3}
    ensures DescBefore(0) == None3() && DescBefore(1) == DescBefore(2) == WithX()
  {
  }

  lemma XKept(d: Desc, i: Ins, w: set<nat>, c: seq<Instr>)
    requires GenIns(d, i) == Some((WithX(), c)) && 3 in w + Writes(i)
    ensures 3 in DirtyBehind(d, i, w)
  {
    SpareXOnly();
    hide GenIns, Writes;
  }

  lemma DirtyIn(live: LiveSets, p: nat)
    requires |live| == 9 && 0 < p < 8
    ensures |Target()| == 8
    ensures DirtyAt(Target(), live, p)
         == DirtyBehind(DescAt(Target(), live, p - 1), Target()[p - 1], DirtyAt(Target(), live, p - 1)) * InSpares(DescAt(Target(), live, p))
  {
    OneBlock(p);
    hide Target, DescAt, DirtyBehind, InSpares, StartsBlock;
  }

  /** x is dirty in front of the third instruction, and behind its code. */
  lemma XDirty(live: LiveSets)
    requires |live| == 9 && live[8] == {}
    ensures |Target()| == 8 && 3 in DirtyBehind(DescAt(Target(), live, 2), Target()[2], DirtyAt(Target(), live, 2))
  {
    hide *;
    TargetIs();
    SpareXOnly();
    CodeOfX();
    CodeOfOthers(WithX(), 1, 1);
    CodeOfOthers(WithX(), 2, 2);
    DescsBefore(live, 0);
    DescsBefore(live, 1);
    DescsBefore(live, 2);
    DirtyIn(live, 1);
    DirtyIn(live, 2);
    XKept(None3(), Assign(3, Const(5)), DirtyAt(Target(), live, 0), [Instr(LDC, 3, 5, 0)]);
    XKept(WithX(), Assign(1, Const(1)), DirtyAt(Target(), live, 1), [Instr(LDC, 1, 1, 0)]);
    XKept(WithX(), Assign(2, Const(2)), DirtyAt(Target(), live, 2), [Instr(LDC, 2, 2, 0)]);
  }

  lemma XMoved(live: LiveSets, loc: Locations)
    requires SolvesCode(Source(), live) && Allocation.At(loc, 0) == 3
    ensures |live| == 9 && 3 in W.Images(live, loc)[3]
  {
    XLive(live, 3);
  }

  /** free_regs takes the register of x while x is live and its value is nowhere else. */
  lemma ConditionFails(live: LiveSets)
    requires SolvesCode(Source(), live) && Listed(Source(), Table())
    ensures var loc := Allocate(Source(), Table(), 3);
      && RenameAll(Source(), loc) == Target() && |W.Images(live, loc)| == |Target()| + 1
      && !Sim.SweepsSafe(Target(), W.Images(live, loc))
  {
    hide *;
    var loc := Allocate(Source(), Table(), 3);
    SourceAllocated();
    AllocateIs();
    LocationsAre([LinearScan.NO_REGISTER, 1, 2, 0]);
    LiveSize(live, loc);
    XMoved(live, loc);
    XDirty(W.Images(live, loc));
    XMissing(W.Images(live, loc));
    OneBlock(2);
    Unsafe(W.Images(live, loc));
  }

  lemma Unsafe(live: LiveSets)
    requires |Target()| == 8 && |live| == 9 && !EndsBlock(Target(), 2)
    requires 3 in live[3] && 3 in DirtyBehind(DescAt(Target(), live, 2), Target()[2], DirtyAt(Target(), live, 2))
    requires 3 !in OutAt(Target(), live, 2)
    ensures !Sim.SweepsSafe(Target(), live)
  {
    assert !Sim.SafeAt(Target(), live, 2, DescAt(Target(), live, 2), DirtyAt(Target(), live, 2));
    hide Target, EndsBlock, DirtyBehind, OutAt, DescAt, DirtyAt;
  }
}
