/** The items of a whole program: what gen emits for every instruction of code on locations, with
    free_regs after each one and the boundary stores at the end of each block. */
module MachineCode {
  import opened Options
  import opened ThreeAddress
  import opened Tm
  import opened TmRun
  import opened Spares
  import opened SpareCode
  import opened SpareBlocks
  import opened SpareEnds
  import opened SpareSweep
  import opened InsLiveness
  import opened LoopAllocation
  import opened BackPatch
  import LoweredJumps

  // ----- blocks of linear code -----

  /** Instruction p is the last one of its block. */
  predicate EndsBlock(code: seq<Ins>, p: nat)
    requires p < |code|
  {
    p + 1 == |code| || code[p + 1].Label? || code[p].Iff? || code[p].Jmp?
  }

  predicate StartsBlock(code: seq<Ins>, p: nat)
    requires p <= |code|
  {
    p == 0 || EndsBlock(code, p - 1)
  }

  /** What lva_bb keeps from instruction p on. */
  function KeptAt(code: seq<Ins>, live: LiveSets, p: nat): set<nat>
    requires |live| == |code| + 1 && p < |code|
    decreases |code| - p
  {
    if EndsBlock(code, p) then LiveOut(code, live, p) else Mentions(code[p]) + KeptAt(code, live, p + 1)
  }

  /** The out that lva_bb gives to instruction p. */
  function OutAt(code: seq<Ins>, live: LiveSets, p: nat): set<nat>
    requires |live| == |code| + 1 && p < |code|
  {
    KeptAt(code, live, p) + if StartsBlock(code, p) then {} else Mentions(code[p - 1])
  }

  // ----- the items -----

  /** A test takes the comparison in front of it for its operands. */
  function TestItem(d: Desc, cmp: Ins, out: set<nat>, l: nat): Option<(Desc, Item)>
    requires cmp.Bin?
  {
    match GetReg3(d, cmp.r, cmp.a1, cmp.a2)
    case None => None
    case Some(o) =>
      Some((Emptied(o.d), Test(o.code + BoundaryCode(o.d, out), TestOp(cmp.op), o.r1, o.r2, o.r3, l)))
  }

  function PlainItem(d: Desc, code: seq<Ins>, live: LiveSets, p: nat): Option<(Desc, Item)>
    requires |live| == |code| + 1 && p < |code|
  {
    match GenIns(d, code[p])
    case None => None
    case Some((e, c)) =>
      var f := Swept(e, OutAt(code, live, p));
      if EndsBlock(code, p) then Some((Emptied(f), Item.Straight(c + BoundaryCode(f, LiveOut(code, live, p)))))
      else Some((f, Item.Straight(c)))
  }

  /** Instruction p; the registers are empty behind the last one of a block. */
  function ItemAt(d: Desc, code: seq<Ins>, live: LiveSets, p: nat): Option<(Desc, Item)>
    requires |live| == |code| + 1 && p < |code|
  {
    match code[p]
    case Label(l) => Some((d, Mark(l)))
    case Jmp(l) => Some((Emptied(d), Jump(BoundaryCode(d, LiveOut(code, live, p)), l)))
    case Iff(_, l) => if p == 0 || !code[p - 1].Bin? then None else TestItem(d, code[p - 1], LiveOut(code, live, p), l)
    case _ => PlainItem(d, code, live, p)
  }

  /** The descriptors in front of instruction p, and the items before it. */
  function ItemsTo(code: seq<Ins>, live: LiveSets, p: nat): (r: Option<(Desc, seq<Item>)>)
    requires |live| == |code| + 1 && p <= |code|
    ensures r.Some? ==> |r.value.1| == p
  {
    if p == 0 then Some((Desc([None, None, None], {}), []))
    else
      match ItemsTo(code, live, p - 1)
      case None => None
      case Some((d, items)) =>
        match ItemAt(d, code, live, p - 1)
        case None => None
        case Some((e, i)) => Some((e, items + [i]))
  }

  /** The descriptors in front of instruction p. */
  function DescAt(code: seq<Ins>, live: LiveSets, p: nat): Desc
    requires |live| == |code| + 1 && p <= |code|
  {
    match ItemsTo(code, live, p)
    case None => Desc([None, None, None], {})
    case Some((d, _)) => d
  }

  // ----- values that only a spare register holds -----

  function SymOf(x: Option<Arg>): set<nat> {
    if x.Some? && x.value.Sym? then {x.value.id} else {}
  }

  /** The symbols in spare registers. */
  function InSpares(d: Desc): set<nat> {
    SymOf(d.regs[0]) + SymOf(d.regs[1]) + SymOf(d.regs[2])
  }

  /** The symbol whose register the code of an instruction writes; a copy to itself has no code. */
  function Writes(i: Ins): set<nat> {
    if i.Assign? && i.a1 == Sym(i.r) then {} else Defs(i)
  }

  /** The descriptors behind the code of an instruction. */
  function DescBehind(d: Desc, i: Ins): Desc {
    match GenIns(d, i)
    case None => d
    case Some((e, _)) => e
  }

  /** The symbols whose values are in spare registers and not in memory, behind the code of an instruction
      that they are w in front of.  A symbol that was evicted has been stored. */
  function DirtyBehind(d: Desc, i: Ins, w: set<nat>): set<nat> {
    (w + Writes(i)) * InSpares(DescBehind(d, i))
  }

  /** Those symbols in front of instruction p, as the block has gone through the registers. */
  function DirtyAt(code: seq<Ins>, live: LiveSets, p: nat): set<nat>
    requires |live| == |code| + 1 && p <= |code|
  {
    if StartsBlock(code, p) then {}
    else DirtyBehind(DescAt(code, live, p - 1), code[p - 1], DirtyAt(code, live, p - 1)) * InSpares(DescAt(code, live, p))
  }

  // ----- what the generator is right for -----

  predicate Ordering(i: Ins) {
    i.Bin? && (i.op.Lt? || i.op.Gt? || i.op.Le? || i.op.Ge?)
  }

  /** A test follows an ordering comparison whose result it tests, and which nothing reads afterwards. */
  ghost predicate TestFits(code: seq<Ins>, live: LiveSets, p: nat)
    requires |live| == |code| + 1 && p < |code|
  {
    code[p].Iff? ==> p > 0 && Ordering(code[p - 1]) && code[p].c == Sym(code[p - 1].r) && code[p - 1].r !in LiveOut(code, live, p)
  }

  /** A comparison is followed by its test, and no symbol is subtracted from one in place. */
  predicate OperationFits(code: seq<Ins>, p: nat)
    requires p < |code|
  {
    code[p].Bin? ==> !Reversed(code[p]) && (Arithmetic(code[p].op) || (p + 1 < |code| && code[p + 1].Iff?))
  }

  predicate SlotsFit(i: Ins) {
    forall x :: x in Mentions(i) ==> x < REGISTER_COUNT + DADDR_SIZE
  }

  ghost predicate Generable(code: seq<Ins>, live: LiveSets)
    requires |live| == |code| + 1
  {
    forall p :: 0 <= p < |code| ==> TestFits(code, live, p) && OperationFits(code, p) && SlotsFit(code[p])
  }

  /** The symbols that the first p instructions write. */
  function DefsTo(code: seq<Ins>, p: nat): set<nat>
    requires p <= |code|
  {
    if p == 0 then {} else DefsTo(code, p - 1) + Defs(code[p - 1])
  }

  /** What is live has been written further up in the text. */
  ghost predicate LiveWritten(code: seq<Ins>, live: LiveSets)
    requires |live| == |code| + 1
  {
    forall p :: 0 <= p < |code| ==> live[p] <= DefsTo(code, p)
  }

  // ----- items are generated for every instruction -----

  /** The descriptors in front of instruction p know every symbol written in the text before. */
  ghost predicate Knows(code: seq<Ins>, p: nat, d: Desc)
    requires p <= |code|
  {
    && Sane(d)
    && (forall x :: x in DefsTo(code, p) && x >= REGISTER_COUNT ==> x in d.loaded)
    && (StartsBlock(code, p) ==> d.regs == [None, None, None])
  }

  predicate Compared(i: Ins) {
    i.Bin? && !Arithmetic(i.op)
  }

  lemma CompareTotal(d: Desc, i: Ins)
    requires Sane(d) && Ready(d, i) && Compared(i)
    ensures Loads(d, i, GenIns(d, i)) && AllPlain(GenIns(d, i).value.1) && Sane(GenIns(d, i).value.0)
  {
    var st := State(map[], [], []);
    CanonicalRel(d);
    var r1, n := CompareOk(d, i, st, Canonical(d));
    BinLoads(d, i, st, Canonical(d));
    ReadySlots(d, i);
    hide Rel, GenIns, Exec, AllPlain, Shaped, Ready, Uses, Defs, RegOf;
  }

  lemma InsTotal(d: Desc, i: Ins)
    requires Sane(d) && Ready(d, i) && (SpareCode.Straight(i) || Compared(i))
    ensures Loads(d, i, GenIns(d, i)) && AllPlain(GenIns(d, i).value.1) && Sane(GenIns(d, i).value.0)
  {
    hide *;
    if SpareCode.Straight(i) {
      GenTotal(d, i);
    } else {
      CompareTotal(d, i);
    }
  }

  lemma SweptSane(d: Desc, out: set<nat>)
    requires Sane(d)
    ensures Sane(Swept(d, out)) && Swept(d, out).loaded == d.loaded && Sane(Emptied(d)) && Emptied(d).loaded == d.loaded
  {
  }

  lemma BoundaryPlain(d: Desc, out: set<nat>)
    requires Sane(d)
    ensures AllPlain(BoundaryCode(d, out))
  {
    CanonicalRel(d);
    var e, n := BoundaryOk(d, out, map[], Canonical(d));
    hide Rel, BoundaryCode, AllPlain, Exec, Canonical;
  }

  /** What the loader and the jump list ask of an item. */
  ghost predicate GoodItem(i: Item) {
    AllPlain(Body(i)) && (i.Test? ==> IsTest(i.op) && 0 <= i.r1 < GP && 0 <= i.r2 < GP && 0 <= i.r3 < GP)
  }

  lemma PlainAppend(a: seq<Instr>, b: seq<Instr>)
    requires AllPlain(a) && AllPlain(b)
    ensures AllPlain(a + b)
  {
    hide Plain;
  }

  lemma ReadyAt(code: seq<Ins>, live: LiveSets, p: nat, d: Desc)
    requires Closed(code, live) && LiveWritten(code, live) && p < |code| && Knows(code, p, d) && SlotsFit(code[p])
    ensures Ready(d, code[p])
  {
    assert LiveIn(code, live, p) <= live[p];
    forall x | x in Uses(code[p]) ensures Known(d, Sym(x)) && InMemory(Sym(x)) {
      assert x in Mentions(code[p]) && x in DefsTo(code, p);
    }
    forall x | x in Defs(code[p]) ensures InMemory(Sym(x)) {
      assert x in Mentions(code[p]);
    }
  }

  lemma TestReady(code: seq<Ins>, live: LiveSets, p: nat, d: Desc)
    requires Closed(code, live) && LiveWritten(code, live) && p < |code| && Knows(code, p, d) && Generable(code, live)
    requires code[p].Iff?
    ensures p > 0 && code[p - 1].Bin? && var i := code[p - 1];
      && InMemory(Sym(i.r)) && InMemory(i.a1) && InMemory(i.a2) && Known(d, Sym(i.r)) && Known(d, i.a1) && Known(d, i.a2)
  {
    assert TestFits(code, live, p) && SlotsFit(code[p - 1]);
    assert LiveIn(code, live, p - 1) <= live[p - 1];
    var i := code[p - 1];
    assert Mentions(i) == ArgSyms(i.a1) + ArgSyms(i.a2) + {i.r};
    assert DefsTo(code, p) == DefsTo(code, p - 1) + {i.r};
    assert ArgSyms(i.a1) + ArgSyms(i.a2) <= DefsTo(code, p);
    TakesArg(d, i.a1, DefsTo(code, p));
    TakesArg(d, i.a2, DefsTo(code, p));
    TakesArg(d, Sym(i.r), DefsTo(code, p));
  }

  lemma TakesArg(d: Desc, a: Arg, defs: set<nat>)
    requires ArgSyms(a) <= defs && forall x :: x in defs && x >= REGISTER_COUNT ==> x in d.loaded
    ensures Known(d, a)
  {
  }

  lemma TestItemIs(d: Desc, cmp: Ins, out: set<nat>, l: nat)
    requires cmp.Bin? && GetReg3(d, cmp.r, cmp.a1, cmp.a2).Some?
    ensures var o := GetReg3(d, cmp.r, cmp.a1, cmp.a2).value;
      TestItem(d, cmp, out, l)
      == Some((Emptied(o.d), Test(o.code + BoundaryCode(o.d, out), TestOp(cmp.op), o.r1, o.r2, o.r3, l)))
  {
    hide GetReg3, BoundaryCode, Emptied, TestOp;
  }

  lemma OpsTotal(d: Desc, i: Ins)
    requires Sane(d) && i.Bin?
    requires InMemory(Sym(i.r)) && InMemory(i.a1) && InMemory(i.a2) && Known(d, Sym(i.r)) && Known(d, i.a1) && Known(d, i.a2)
    ensures GetReg3(d, i.r, i.a1, i.a2).Some? && var o := GetReg3(d, i.r, i.a1, i.a2).value;
      && Sane(o.d) && AllPlain(o.code) && d.loaded <= o.d.loaded && o.r1 < GP && o.r2 < GP && o.r3 < GP
  {
    CanonicalRel(d);
    GetReg3Ok(d, map[], Canonical(d), None, i.r, i.a1, i.a2);
    var o := GetReg3(d, i.r, i.a1, i.a2).value;
    RegLow(o.d, Sym(i.r));
    RegLow(o.d, i.a1);
    RegLow(o.d, i.a2);
    hide Located, Exec, AllPlain, GetReg3, RegOf, Shaped, Canonical;
  }

  lemma TestTotal(d: Desc, i: Ins, out: set<nat>, l: nat)
    requires Sane(d) && i.Bin?
    requires InMemory(Sym(i.r)) && InMemory(i.a1) && InMemory(i.a2) && Known(d, Sym(i.r)) && Known(d, i.a1) && Known(d, i.a2)
    ensures TestItem(d, i, out, l).Some? && var (f, x) := TestItem(d, i, out, l).value;
      Sane(f) && f.regs == [None, None, None] && d.loaded <= f.loaded && GoodItem(x) && x.Test? && x.l == l
  {
    hide *;
    OpsTotal(d, i);
    var o := GetReg3(d, i.r, i.a1, i.a2).value;
    SweptSane(o.d, out);
    EmptyRegs(o.d);
    BoundaryPlain(o.d, out);
    PlainAppend(o.code, BoundaryCode(o.d, out));
    TestItemIs(d, i, out, l);
    GoodTest(o.code + BoundaryCode(o.d, out), i.op, o.r1, o.r2, o.r3, l);
  }

  lemma EmptyRegs(d: Desc)
    ensures Emptied(d).regs == [None, None, None]
  {
  }

  lemma GoodTest(c: seq<Instr>, op: BinOp, r1: nat, r2: nat, r3: nat, l: nat)
    requires AllPlain(c) && r1 < GP && r2 < GP && r3 < GP
    ensures GoodItem(Test(c, TestOp(op), r1, r2, r3, l))
  {
  }

  lemma RegLow(d: Desc, a: Arg)
    ensures RegOf(d, a).Some? ==> 0 <= RegOf(d, a).value < GP
  {
  }

  lemma PlainTotal(d: Desc, code: seq<Ins>, live: LiveSets, p: nat)
    requires |live| == |code| + 1 && p < |code| && Sane(d) && Ready(d, code[p])
    requires SpareCode.Straight(code[p]) || Compared(code[p])
    ensures PlainItem(d, code, live, p).Some? && var (f, x) := PlainItem(d, code, live, p).value;
      && GoodItem(x) && x.Straight? && Sane(f) && d.loaded <= f.loaded && (EndsBlock(code, p) ==> f.regs == [None, None, None])
      && forall x :: x in Defs(code[p]) && x >= REGISTER_COUNT ==> x in f.loaded
  {
    InsTotal(d, code[p]);
    var e := GenIns(d, code[p]).value.0;
    SweptSane(e, OutAt(code, live, p));
    SweptSane(Swept(e, OutAt(code, live, p)), {});
    BoundaryPlain(Swept(e, OutAt(code, live, p)), LiveOut(code, live, p));
    PlainAppend(GenIns(d, code[p]).value.1, BoundaryCode(Swept(e, OutAt(code, live, p)), LiveOut(code, live, p)));
    hide GenIns, Swept, OutAt, Shaped, Ready, AllPlain, BoundaryCode, LiveOut;
  }

  lemma KindOf(code: seq<Ins>, live: LiveSets, p: nat)
    requires |live| == |code| + 1 && Generable(code, live) && p < |code| && !IsControl(code[p])
    ensures SpareCode.Straight(code[p]) || Compared(code[p])
    ensures SlotsFit(code[p])
  {
    assert OperationFits(code, p);
  }

  /** What the next descriptors have to be. */
  ghost predicate Follow(code: seq<Ins>, p: nat, d: Desc, f: Desc)
    requires p < |code|
  {
    && Sane(f) && d.loaded <= f.loaded && (EndsBlock(code, p) ==> f.regs == [None, None, None])
    && forall x :: x in Defs(code[p]) && x >= REGISTER_COUNT ==> x in f.loaded
  }

  lemma ItemTotal(code: seq<Ins>, live: LiveSets, p: nat, d: Desc)
    requires Closed(code, live) && LiveWritten(code, live) && Generable(code, live) && p < |code| && Knows(code, p, d)
    ensures ItemAt(d, code, live, p).Some? && Follow(code, p, d, ItemAt(d, code, live, p).value.0)
    ensures GoodItem(ItemAt(d, code, live, p).value.1)
    ensures LoweredJumps.Rendered(code[p], ItemAt(d, code, live, p).value.1)
  {
    match code[p]
    case Label(_) => LabelStarts(code, live, p);
    case Jmp(_) =>
      SweptSane(d, {});
      BoundaryPlain(d, LiveOut(code, live, p));
      hide BoundaryCode, AllPlain;
    case Iff(_, l) =>
      TestReady(code, live, p, d);
      TestTotal(d, code[p - 1], LiveOut(code, live, p), l);
      hide Generable, Knows, TestItem, LiveOut;
    case _ =>
      KindOf(code, live, p);
      ReadyAt(code, live, p, d);
      PlainTotal(d, code, live, p);
      hide PlainItem, Generable, LiveWritten, Ready, Closed;
  }

  lemma LabelStarts(code: seq<Ins>, live: LiveSets, p: nat)
    requires p < |code| && code[p].Label?
    ensures StartsBlock(code, p)
  {
  }

  lemma FollowKnows(code: seq<Ins>, p: nat, d: Desc, f: Desc)
    requires p < |code| && Knows(code, p, d) && Follow(code, p, d, f)
    ensures Knows(code, p + 1, f)
  {
  }

  lemma {:induction false} ItemsTotal(code: seq<Ins>, live: LiveSets, p: nat)
    requires Closed(code, live) && LiveWritten(code, live) && Generable(code, live) && p <= |code|
    ensures ItemsTo(code, live, p).Some? && Knows(code, p, ItemsTo(code, live, p).value.0)
  {
    if p > 0 {
      ItemsTotal(code, live, p - 1);
      var d := ItemsTo(code, live, p - 1).value.0;
      hide Closed, LiveWritten, Generable, Knows, ItemAt, Follow;
      ItemTotal(code, live, p - 1, d);
      FollowKnows(code, p - 1, d, ItemAt(d, code, live, p - 1).value.0);
    }
  }
}
