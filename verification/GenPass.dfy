/** The main loop of the code generator: block by block and instruction by instruction, with free_regs
    behind each one, and the boundary stores where no jump has emitted them. */
module GenPass {
  import opened Options
  import opened ThreeAddress
  import opened BlockGraph
  import opened Tm
  import opened Spares
  import SpareCode
  import opened SpareEnds
  import opened SpareSweep
  import opened InsLiveness
  import opened LoopAllocation
  import opened BackPatch
  import opened MachineCode
  import opened CodeBlocks
  import opened Generator
  import opened JumpEmitter
  import MachineRun

  // ----- the emitted code, straight or with a jump -----

  /** What has been emitted since the last jump goes to the list of instructions. */
  method Flush(cg: CodeGenerator, tm: TmCode)
    requires cg.Valid() && tm.Valid()
    modifies cg`code, tm
    ensures cg.Valid() && tm.Valid() && cg.View() == old(cg.View()) && cg.code == []
    ensures tm.View() == Emission(old(tm.View()).code + old(cg.code), old(tm.View()).jmps)
  {
    var c := cg.TakeCode();
    tm.EmitAll(c);
  }

  /** gen_ins for an instruction without a jump. */
  method GenPlain(cg: CodeGenerator, tm: TmCode, i: Ins)
    requires cg.Valid() && tm.Valid() && cg.code == [] && !IsControl(i)
    modifies cg, cg.registers, tm
    ensures cg.Valid() && tm.Valid() && cg.code == [] && SpareCode.GenIns(old(cg.View()), i).Some?
    ensures var (d, c) := SpareCode.GenIns(old(cg.View()), i).value;
      cg.View() == d && tm.View() == Emission(old(tm.View()).code + c, old(tm.View()).jmps)
  {
    hide *;
    cg.ThreeSpares();
    cg.GenIns(i);
    Nothing(SpareCode.GenIns(old(cg.View()), i).value.1);
    Flush(cg, tm);
  }

  lemma Nothing(c: seq<Instr>)
    ensures [] + c == c
  {
  }

  /** gen_cond_jmp: the operands of the comparison in front of the test, the stores, and the jump. */
  method GenTest(cg: CodeGenerator, tm: TmCode, prev: Ins, out: set<nat>, l: nat)
    requires cg.Valid() && tm.Valid() && cg.code == [] && prev.Bin?
    modifies cg, cg.registers, tm
    ensures cg.Valid() && tm.Valid() && cg.code == [] && TestItem(old(cg.View()), prev, out, l).Some?
    ensures var (d, i) := TestItem(old(cg.View()), prev, out, l).value;
      cg.View() == d && EmitItem(old(tm.View()), i) == Some(tm.View())
  {
    hide *;
    cg.ThreeSpares();
    var r1, r2, r3 := cg.GetReg3(prev.r, prev.a1, prev.a2);
    cg.BoundaryStores(out);
    TestItemIs(old(cg.View()), prev, out, l);
    Nothing(SpareCode.GetReg3(old(cg.View()), prev.r, prev.a1, prev.a2).value.code);
    var stores := cg.TakeCode();
    tm.GenTest(stores, TestOp(prev.op), r1, r2, r3, l);
  }

  /** The TJMP branch of gen_ins, for a jump forward. */
  method GenJump(cg: CodeGenerator, tm: TmCode, out: set<nat>, l: nat)
    requires cg.Valid() && tm.Valid() && cg.code == []
    modifies cg, cg.registers, tm
    ensures cg.Valid() && tm.Valid() && cg.code == [] && cg.View() == Emptied(old(cg.View()))
    ensures EmitItem(old(tm.View()), Jump(BoundaryCode(old(cg.View()), out), l)) == Some(tm.View())
  {
    hide *;
    cg.ThreeSpares();
    cg.BoundaryStores(out);
    Nothing(BoundaryCode(old(cg.View()), out));
    var stores := cg.TakeCode();
    tm.GenJump(stores, l);
  }

  // ----- how far the generator has come -----

  /** Registers and emitted code are those in front of instruction p. */
  ghost predicate Upto(code: seq<Ins>, live: LiveSets, items: seq<Item>, p: nat, d: Desc, s: Emission)
    requires |live| == |code| + 1
  {
    p <= |code| && p <= |items| && d == DescAt(code, live, p) && EmitTo(items, p) == Some(s)
  }

  /** And those behind instruction p and free_regs, where the boundary stores may be still to come. */
  ghost predicate Behind(code: seq<Ins>, live: LiveSets, items: seq<Item>, p: nat, d: Desc, s: Emission)
    requires |live| == |code| + 1
  {
    p < |code| &&
    if EndsBlock(code, p) && !IsControl(code[p]) then
      && p <= |items| && EmitTo(items, p).Some? && SpareCode.GenIns(DescAt(code, live, p), code[p]).Some?
      && var (e, c) := SpareCode.GenIns(DescAt(code, live, p), code[p]).value;
         d == Swept(e, OutAt(code, live, p)) && s == Emission(EmitTo(items, p).value.code + c, EmitTo(items, p).value.jmps)
    else Upto(code, live, items, p + 1, d, s)
  }

  /** The code, its live symbols and its items, as the generator makes them. */
  ghost predicate Passes(code: seq<Ins>, live: LiveSets, items: seq<Item>) {
    MachineRun.Sound(code, live) && MachineRun.Made(code, live, items) && MarkedOnce(items)
  }

  /** What the descriptors and the items say of instruction p. */
  ghost predicate Known(code: seq<Ins>, live: LiveSets, items: seq<Item>, p: nat)
    requires |live| == |code| + 1 && p < |code|
  {
    && |items| == |code| && Knows(code, p, DescAt(code, live, p))
    && ItemAt(DescAt(code, live, p), code, live, p) == Some((DescAt(code, live, p + 1), items[p]))
    && EmitTo(items, p).Some? && EmitItem(EmitTo(items, p).value, items[p]) == EmitTo(items, p + 1) && EmitTo(items, p + 1).Some?
    && Knows(code, p + 1, DescAt(code, live, p + 1))
  }

  lemma Sizes(code: seq<Ins>, live: LiveSets, items: seq<Item>)
    requires Passes(code, live, items)
    ensures |live| == |code| + 1 && |items| == |code|
  {
    hide ItemsTo, MachineRun.Sound, MarkedOnce;
  }

  lemma KnownAt(code: seq<Ins>, live: LiveSets, items: seq<Item>, p: nat)
    requires Passes(code, live, items) && p < |code|
    ensures |live| == |code| + 1 && Known(code, live, items, p)
  {
    ItemsTotal(code, live, p);
    ItemsTotal(code, live, p + 1);
    MachineRun.ItemsPrefix(code, live, p, |code|);
    hide MachineRun.Sound, Knows, ItemAt, ItemsTo, Closed, LiveWritten, Generable;
    EmitNext(items, p);
    hide EmitTo, EmitItem, MarkedOnce;
  }

  lemma EmptyStays(d: Desc, out: set<nat>)
    requires d.regs == [None, None, None]
    ensures Swept(d, out) == d && Emptied(d) == d && BoundaryCode(d, out) == []
  {
  }

  lemma StartEmpty(code: seq<Ins>, live: LiveSets, p: nat)
    requires |live| == |code| + 1 && p <= |code| && StartsBlock(code, p) && Knows(code, p, DescAt(code, live, p))
    ensures DescAt(code, live, p).regs == [None, None, None]
  {
  }

  lemma LabelCase(code: seq<Ins>, live: LiveSets, items: seq<Item>, p: nat, s: Emission, out: set<nat>)
    requires |live| == |code| + 1 && p < |code| && code[p].Label? && Known(code, live, items, p) && EmitTo(items, p) == Some(s)
    ensures EmitItem(s, Mark(code[p].l)).Some?
    ensures Behind(code, live, items, p, Swept(DescAt(code, live, p), out), EmitItem(s, Mark(code[p].l)).value)
  {
    StartEmpty(code, live, p);
    EmptyStays(DescAt(code, live, p), out);
    hide EmitTo, EmitItem, DescAt, Swept, Knows, BoundaryCode, Emptied, OutAt;
  }

  lemma JumpCase(code: seq<Ins>, live: LiveSets, items: seq<Item>, p: nat, s: Emission, t: Emission, out: set<nat>)
    requires |live| == |code| + 1 && p < |code| && code[p].Jmp? && Known(code, live, items, p) && EmitTo(items, p) == Some(s)
    requires EmitItem(s, Jump(BoundaryCode(DescAt(code, live, p), LiveOut(code, live, p)), code[p].target)) == Some(t)
    ensures Behind(code, live, items, p, Swept(Emptied(DescAt(code, live, p)), out), t)
  {
    EmptyStays(Emptied(DescAt(code, live, p)), out);
    hide EmitTo, EmitItem, DescAt, Swept, Knows, BoundaryCode, OutAt, LiveOut;
  }

  lemma TestCase(code: seq<Ins>, live: LiveSets, items: seq<Item>, p: nat, s: Emission, out: set<nat>)
    requires |live| == |code| + 1 && p < |code| && code[p].Iff? && Known(code, live, items, p) && EmitTo(items, p) == Some(s)
    ensures p > 0 && code[p - 1].Bin?
    ensures var g := TestItem(DescAt(code, live, p), code[p - 1], LiveOut(code, live, p), code[p].target);
      && g.Some? && EmitItem(s, g.value.1).Some?
      && Behind(code, live, items, p, Swept(g.value.0, out), EmitItem(s, g.value.1).value)
  {
    hide *;
    TestHere(code, live, items, p);
    ControlEnds(code, p);
    StartsNext(code, p);
    StartEmpty(code, live, p + 1);
    EmptyStays(DescAt(code, live, p + 1), out);
    BehindTest(code, live, items, p, EmitItem(s, items[p]).value);
  }

  lemma TestHere(code: seq<Ins>, live: LiveSets, items: seq<Item>, p: nat)
    requires |live| == |code| + 1 && p < |code| && code[p].Iff? && Known(code, live, items, p)
    ensures p > 0 && code[p - 1].Bin? && |items| == |code| && Knows(code, p + 1, DescAt(code, live, p + 1))
    ensures TestItem(DescAt(code, live, p), code[p - 1], LiveOut(code, live, p), code[p].target)
         == Some((DescAt(code, live, p + 1), items[p]))
    ensures EmitTo(items, p).Some? && EmitItem(EmitTo(items, p).value, items[p]) == EmitTo(items, p + 1) && EmitTo(items, p + 1).Some?
  {
    hide EmitTo, EmitItem, DescAt, Knows, LiveOut, TestItem;
  }

  lemma StartsNext(code: seq<Ins>, p: nat)
    requires p < |code|
    ensures EndsBlock(code, p) ==> StartsBlock(code, p + 1)
  {
  }

  lemma BehindTest(code: seq<Ins>, live: LiveSets, items: seq<Item>, p: nat, t: Emission)
    requires |live| == |code| + 1 && p < |code| == |items| && code[p].Iff? && EmitTo(items, p + 1) == Some(t)
    ensures Behind(code, live, items, p, DescAt(code, live, p + 1), t)
  {
    hide EmitTo, DescAt;
  }

  lemma PlainCase(code: seq<Ins>, live: LiveSets, items: seq<Item>, p: nat, s: Emission)
    requires |live| == |code| + 1 && p < |code| && !IsControl(code[p]) && Known(code, live, items, p) && EmitTo(items, p) == Some(s)
    ensures SpareCode.GenIns(DescAt(code, live, p), code[p]).Some?
    ensures var (e, c) := SpareCode.GenIns(DescAt(code, live, p), code[p]).value;
      Behind(code, live, items, p, Swept(e, OutAt(code, live, p)), Emission(s.code + c, s.jmps))
  {
    hide EmitTo, DescAt, Swept, Knows, BoundaryCode, OutAt, LiveOut, SpareCode.GenIns, EndsBlock;
  }

  /** The stores at the end of a block whose last instruction is no jump. */
  lemma EndCase(code: seq<Ins>, live: LiveSets, items: seq<Item>, p: nat, d: Desc, s: Emission)
    requires |live| == |code| + 1 && p < |code| && EndsBlock(code, p) && !code[p].Jmp? && !code[p].Iff?
    requires Known(code, live, items, p) && Behind(code, live, items, p, d, s)
    ensures Upto(code, live, items, p + 1, Emptied(d), Emission(s.code + BoundaryCode(d, LiveOut(code, live, p)), s.jmps))
  {
    if code[p].Label? {
      StartEmpty(code, live, p + 1);
      EmptyStays(d, LiveOut(code, live, p));
      assert s.code + [] == s.code;
    } else {
      var (e, c) := SpareCode.GenIns(DescAt(code, live, p), code[p]).value;
      var t := EmitTo(items, p).value;
      Parts(t.code, c, BoundaryCode(d, LiveOut(code, live, p)));
    }
    hide EmitTo, DescAt, Swept, Knows, BoundaryCode, OutAt, LiveOut, SpareCode.GenIns;
  }

  lemma Parts(a: seq<Instr>, b: seq<Instr>, c: seq<Instr>)
    ensures a + b + c == a + (b + c)
  {
  }

  /** prev is the instruction in front of p, in whatever block it is. */
  ghost predicate PrevIs(code: seq<Ins>, p: nat, prev: Option<Ins>) {
    p <= |code| && prev == if p == 0 then None else Some(code[p - 1])
  }

  lemma UptoIs(code: seq<Ins>, live: LiveSets, items: seq<Item>, p: nat, d: Desc, s: Emission)
    requires |live| == |code| + 1 && Upto(code, live, items, p, d, s)
    ensures p <= |code| && p <= |items| && d == DescAt(code, live, p) && EmitTo(items, p) == Some(s)
  {
  }

  lemma PrevValue(code: seq<Ins>, p: nat, prev: Option<Ins>)
    requires PrevIs(code, p, prev) && 0 < p
    ensures p <= |code| && prev == Some(code[p - 1])
  {
  }

  lemma ControlEnds(code: seq<Ins>, p: nat)
    requires p < |code|
    ensures code[p].Jmp? || code[p].Iff? ==> EndsBlock(code, p)
    ensures IsControl(code[p]) <==> code[p].Jmp? || code[p].Iff? || code[p].Label?
  {
  }

  // ----- the loops -----

  /** gen_ins and free_regs, for instruction p. */
  method GenOne(cg: CodeGenerator, tm: TmCode, i: Ins, prev: Option<Ins>, out: set<nat>, keep: set<nat>,
                ghost code: seq<Ins>, ghost live: LiveSets, ghost items: seq<Item>, ghost p: nat)
    requires cg.Valid() && tm.Valid() && cg.code == [] && Passes(code, live, items) && p < |code| && code[p] == i && PrevIs(code, p, prev)
    requires |live| == |code| + 1 && Upto(code, live, items, p, cg.View(), tm.View())
    requires (EndsBlock(code, p) ==> out == LiveOut(code, live, p)) && keep == OutAt(code, live, p)
    modifies cg, cg.registers, tm
    ensures cg.Valid() && tm.Valid() && cg.code == [] && Behind(code, live, items, p, cg.View(), tm.View())
  {
    hide *;
    cg.ThreeSpares();
    KnownAt(code, live, items, p);
    UptoIs(code, live, items, p, cg.View(), tm.View());
    ControlEnds(code, p);
    ghost var s := tm.View();
    match i {
      case Label(l) =>
        LabelCase(code, live, items, p, s, keep);
        var ok := tm.GenLabel(l);
      case Jmp(l) =>
        GenJump(cg, tm, out, l);
        JumpCase(code, live, items, p, s, tm.View(), keep);
      case Iff(_, l) =>
        TestCase(code, live, items, p, s, keep);
        PrevValue(code, p, prev);
        GenTest(cg, tm, prev.value, out, l);
      case _ =>
        PlainCase(code, live, items, p, s);
        GenPlain(cg, tm, i);
    }
    cg.FreeRegs(keep);
  }

  lemma BlockStart(code: seq<Ins>, live: LiveSets, items: seq<Item>, blocks: seq<seq<Ins>>, outs: seq<set<nat>>, b: nat)
    requires Passes(code, live, items) && BlocksOf(code, live, blocks, outs) && b < |blocks|
    ensures |live| == |code| + 1 && Offset(blocks, b) <= |code| && StartsBlock(code, Offset(blocks, b))
    ensures DescAt(code, live, Offset(blocks, b)).regs == [None, None, None]
    ensures Offset(blocks, b + 1) == Offset(blocks, b) + |blocks[b]|
  {
    hide *;
    var o := Offset(blocks, b);
    BlockSize(code, live, blocks, outs, b);
    FirstOffset(blocks);
    StartsIs(code, o);
    if b > 0 {
      NotEmpty(code, live, blocks, outs, b - 1);
      InsHere(code, live, blocks, outs, b - 1, |blocks[b - 1]| - 1);
    }
    KnowsAt(code, live, items, o);
    StartEmpty(code, live, o);
  }

  lemma BlockSize(code: seq<Ins>, live: LiveSets, blocks: seq<seq<Ins>>, outs: seq<set<nat>>, b: nat)
    requires BlocksOf(code, live, blocks, outs) && b < |blocks|
    ensures |live| == |code| + 1 && Offset(blocks, b) + |blocks[b]| <= |code| && Offset(blocks, b + 1) == Offset(blocks, b) + |blocks[b]|
  {
    assert BlockHere(code, live, blocks, outs, b);
    hide Offset, EndsBlock, LiveOut;
  }

  lemma StartsIs(code: seq<Ins>, p: nat)
    requires p <= |code|
    ensures StartsBlock(code, p) <==> p == 0 || EndsBlock(code, p - 1)
  {
  }

  lemma KnowsAt(code: seq<Ins>, live: LiveSets, items: seq<Item>, p: nat)
    requires Passes(code, live, items) && p <= |code|
    ensures |live| == |code| + 1 && Knows(code, p, DescAt(code, live, p))
  {
    ItemsTotal(code, live, p);
    hide ItemsTo, Knows, Closed, LiveWritten, Generable, MarkedOnce;
  }

  lemma UptoRegs(code: seq<Ins>, live: LiveSets, items: seq<Item>, p: nat, d: Desc, s: Emission)
    requires |live| == |code| + 1 && p <= |code| && Upto(code, live, items, p, d, s) && DescAt(code, live, p).regs == [None, None, None]
    ensures d.regs == [None, None, None] && BoundaryCode(d, {}) == [] && s.code + [] == s.code
    ensures forall out :: BoundaryCode(d, out) == [] && Emptied(d) == d
  {
  }

  /** Behind an instruction that is not the last one of its block the next one follows. */
  lemma NextUpto(code: seq<Ins>, live: LiveSets, items: seq<Item>, p: nat, d: Desc, s: Emission)
    requires |live| == |code| + 1 && Behind(code, live, items, p, d, s)
    ensures p < |code|
    ensures !EndsBlock(code, p) || code[p].Jmp? || code[p].Iff? ==> Upto(code, live, items, p + 1, d, s)
  {
    hide Upto, EndsBlock, OutAt, Swept, SpareCode.GenIns, EmitTo, DescAt;
  }

  lemma PrevNext(code: seq<Ins>, p: nat)
    requires p < |code|
    ensures PrevIs(code, p + 1, Some(code[p]))
  {
  }

  /** One block: lva_bb, its instructions, and the stores at its end if no jump has emitted them. */
  method GenBlock(cg: CodeGenerator, tm: TmCode, ins: seq<Ins>, out: set<nat>, prev: Option<Ins>,
                  ghost code: seq<Ins>, ghost live: LiveSets, ghost items: seq<Item>,
                  ghost blocks: seq<seq<Ins>>, ghost outs: seq<set<nat>>, ghost b: nat) returns (last: Option<Ins>)
    requires cg.Valid() && tm.Valid() && cg.code == [] && Passes(code, live, items) && BlocksOf(code, live, blocks, outs)
    requires |live| == |code| + 1 && b < |blocks| == |outs| && ins == blocks[b] && out == outs[b]
    requires Upto(code, live, items, Offset(blocks, b), cg.View(), tm.View()) && PrevIs(code, Offset(blocks, b), prev)
    modifies cg, cg.registers, tm
    ensures cg.Valid() && tm.Valid() && cg.code == []
    ensures Upto(code, live, items, Offset(blocks, b + 1), cg.View(), tm.View()) && PrevIs(code, Offset(blocks, b + 1), last)
  {
    hide *;
    cg.ThreeSpares();
    BlockStart(code, live, items, blocks, outs, b);
    ghost var o := Offset(blocks, b);
    UptoRegs(code, live, items, o, cg.View(), tm.View());
    cg.StartBlock();
    var ok, sets := LvaBB(ins, out);
    var loaded := false;
    last := prev;
    var k := 0;
    while k < |ins|
      invariant k <= |ins| && cg.Valid() && tm.Valid() && cg.code == [] && PrevIs(code, o + k, last)
      invariant k == 0 || k < |ins| ==> Upto(code, live, items, o + k, cg.View(), tm.View())
      invariant k > 0 ==> o + k - 1 < |code| && Behind(code, live, items, o + k - 1, cg.View(), tm.View())
      invariant sets.Length == |ins| && forall j :: 0 <= j < |ins| ==> sets[j] == InsOut(ins, out, j)
      invariant loaded <==> k > 0 && (ins[k - 1].Iff? || ins[k - 1].Jmp?)
    {
      var i := ins[k];
      InsHere(code, live, blocks, outs, b, k);
      OutInBlock(code, live, blocks, outs, b, k);
      KnownAt(code, live, items, o + k);
      loaded := i.Iff? || i.Jmp?;
      GenOne(cg, tm, i, last, out, sets[k], code, live, items, o + k);
      NextUpto(code, live, items, o + k, cg.View(), tm.View());
      PrevNext(code, o + k);
      last := Some(i);
      k := k + 1;
    }
    if k > 0 {
      InsHere(code, live, blocks, outs, b, k - 1);
      KnownAt(code, live, items, o + k - 1);
      NextUpto(code, live, items, o + k - 1, cg.View(), tm.View());
    }
    if !loaded {
      ghost var d, s := cg.View(), tm.View();
      if k > 0 {
        EndCase(code, live, items, o + k - 1, d, s);
      } else {
        UptoRegs(code, live, items, o, d, s);
      }
      cg.BoundaryStores(out);
      Nothing(BoundaryCode(d, out));
      Flush(cg, tm);
      EmissionIs(s);
    }
  }

  lemma EmissionIs(s: Emission)
    ensures s == Emission(s.code, s.jmps)
  {
  }

  lemma Begin(code: seq<Ins>, live: LiveSets, items: seq<Item>)
    requires |live| == |code| + 1
    ensures Upto(code, live, items, 0, Desc([None, None, None], {}), Emission([], [])) && PrevIs(code, 0, None)
  {
  }

  lemma Finish(code: seq<Ins>, live: LiveSets, items: seq<Item>, d: Desc, s: Emission)
    requires |live| == |code| + 1 && |items| == |code| && Upto(code, live, items, |code|, d, s)
    ensures s.code == CodeAt(items, |items|)
  {
  }

  /** gen: all blocks, and HALT. */
  method Gen(blocks: seq<seq<Ins>>, outs: seq<set<nat>>, ghost code: seq<Ins>, ghost live: LiveSets, ghost items: seq<Item>)
    returns (tm: TmCode)
    requires Passes(code, live, items) && BlocksOf(code, live, blocks, outs)
    ensures fresh(tm) && tm.Valid() && tm.ins == CodeAt(items, |items|) + [MachineRun.Halt()]
  {
    hide *;
    Sizes(code, live, items);
    FirstOffset(blocks);
    LastOffset(code, live, blocks, outs);
    BlockSizes(code, live, blocks, outs);
    Begin(code, live, items);
    var cg := new CodeGenerator();
    tm := new TmCode();
    var prev: Option<Ins> := None;
    var b := 0;
    while b < |blocks|
      invariant b <= |blocks| && cg.Valid() && tm.Valid() && cg.code == []
      invariant fresh(cg) && fresh(cg.registers) && fresh(tm)
      invariant Upto(code, live, items, Offset(blocks, b), cg.View(), tm.View()) && PrevIs(code, Offset(blocks, b), prev)
    {
      prev := GenBlock(cg, tm, blocks[b], outs[b], prev, code, live, items, blocks, outs, b);
      b := b + 1;
    }
    Finish(code, live, items, cg.View(), tm.View());
    tm.ViewIs();
    tm.Emit(MachineRun.Halt());
  }

  lemma BlockSizes(code: seq<Ins>, live: LiveSets, blocks: seq<seq<Ins>>, outs: seq<set<nat>>)
    requires BlocksOf(code, live, blocks, outs)
    ensures |blocks| == |outs|
  {
  }
}
