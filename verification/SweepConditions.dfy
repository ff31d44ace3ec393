/** The sets that free_regs consults are those of lva_bb, and it loses nothing, on any machine, if and only
    if it takes no register from a live symbol whose value is nowhere else. */
module SweepConditions {
  import opened Options
  import opened ThreeAddress
  import opened Ast
  import opened Lowering
  import opened Labels
  import opened BasicBlocks
  import opened BlockGraph
  import opened LoweredBlocks
  import opened Predecessors
  import opened Liveness
  import opened InsLiveness
  import opened Allocation
  import RegisterAllocation
  import opened LoopAllocation
  import opened LoweredAllocation
  import opened Tm
  import opened Spares
  import opened SpareCode
  import opened SpareBlocks
  import opened SpareSweep
  import opened LivenessSound
  import X = MachineRun
  import BackPatch
  import LoweredJumps
  import GenPass
  import opened MachineCode
  import opened CodeBlocks
  import opened MachineSim
  import opened WholeMachine

  // ----- blocks of the graph and blocks of the code -----

  /** Between two blocks there is a label, or a test. */
  lemma {:induction false} CutEdges(code: seq<Ins>, b: nat)
    requires b + 1 < |Cut(code)|
    ensures (Cut(code)[b + 1] != [] && Cut(code)[b + 1][0].Label?) || (Cut(code)[b] != [] && BasicBlocks.Last(Cut(code)[b]).Iff?)
  {
    var m := |code| - 1;
    var c := Cut(code[..m]);
    if b + 1 < |c| {
      CutEdges(code[..m], b);
    }
  }

  /** The blocks of the graph are the cut code. */
  lemma LoweredCut(ss: Stmts, g: Cfg)
    requires StmtsApart(ss) && LabelsInRange(ss) && PlainProgram(ss) && Build(GenStmts(ss)) == Some(g)
    ensures Insns(g) == Cut(GenStmts(ss))
  {
    var code := GenStmts(ss);
    LoweredWellFormed(ss);
    PlainProgramIff(ss);
    assert PlainTo(code, |code|);
    hide GenStmts, StmtsApart, PlainProgram, WellFormed, PlainTo, BuildTo, Cut, Insns;
    BuildFed(code, |code|);
    FedShape(code, |code|, BuildTo(code, |code|).value);
    BuiltInsns(code, BuildTo(code, |code|).value);
  }

  lemma FedShape(code: seq<Ins>, k: nat, s: Building)
    requires k <= |code| && Fed(code, k, s)
    ensures Shape(code, k, s)
  {
  }

  lemma InsAt(code: seq<Ins>, g: Cfg, b: nat, i: nat)
    requires GraphOf(code, g) && b < |g| && i < |g[b].ins|
    ensures |Insns(g)| == |g| && Offset(Insns(g), b) + i < |code| && code[Offset(Insns(g), b) + i] == g[b].ins[i]
    ensures i < |g[b].ins| - 1 ==> !g[b].ins[i + 1].Label? && !g[b].ins[i].Iff? && !g[b].ins[i].Jmp?
  {
    assert GoodBlock(g, b);
    FlattenAt(Insns(g), b, i);
    hide Flatten, Offset, Falls, Leads;
  }

  /** Where block b ends. */
  lemma EndAt(code: seq<Ins>, g: Cfg, b: nat)
    requires GraphOf(code, g) && Insns(g) == Cut(code) && b < |g|
    ensures Offset(Insns(g), b + 1) == Offset(Insns(g), b) + |g[b].ins|
    ensures var p := Offset(Insns(g), b + 1);
      p == |code| || (p < |code| && code[p].Label?) || (g[b].ins != [] && BasicBlocks.Last(g[b].ins).Iff?)
  {
    hide *;
    GraphSize(code, g);
    FlattenEnd(Insns(g), b);
    if b + 1 < |g| {
      CutEdges(code, b);
      if g[b + 1].ins != [] {
        InsAt(code, g, b + 1, 0);
      }
    }
  }

  lemma GraphSize(code: seq<Ins>, g: Cfg)
    requires GraphOf(code, g)
    ensures Flatten(Insns(g)) == code && |Insns(g)| == |g| && forall b :: 0 <= b < |g| ==> Insns(g)[b] == g[b].ins
    ensures forall b :: 0 <= b < |g| - 1 ==> g[b].ins != []
  {
    forall b | 0 <= b < |g| - 1 ensures g[b].ins != [] {
      assert GoodBlock(g, b);
    }
    hide Flatten;
  }

  /** The last instruction of a block, and the first. */
  lemma PlaceEnds(code: seq<Ins>, g: Cfg, b: nat, i: nat)
    requires GraphOf(code, g) && Insns(g) == Cut(code) && b < |g| && i < |g[b].ins|
    ensures Offset(Insns(g), b) + i < |code|
    ensures EndsBlock(code, Offset(Insns(g), b) + i) <==> i == |g[b].ins| - 1
  {
    hide *;
    InsAt(code, g, b, i);
    EndsWhere(code, Offset(Insns(g), b) + i);
    if i < |g[b].ins| - 1 {
      InsAt(code, g, b, i + 1);
    } else {
      EndAt(code, g, b);
      LastIs(g[b].ins);
    }
  }

  lemma EndsWhere(code: seq<Ins>, p: nat)
    requires p < |code|
    ensures EndsBlock(code, p) <==> p + 1 == |code| || code[p + 1].Label? || code[p].Iff? || code[p].Jmp?
  {
  }

  lemma LastIs(ins: seq<Ins>)
    requires ins != []
    ensures BasicBlocks.Last(ins) == ins[|ins| - 1]
  {
  }

  lemma FitsIs(g: Cfg, s: Sets)
    requires Solves(g, s)
    ensures Fits(g, s)
  {
  }

  lemma BlockIs(code: seq<Ins>, g: Cfg, s: Sets, b: nat)
    requires DistinctLabels(code) && GraphOf(code, g) && Insns(g) == Cut(code) && Solves(g, s) && b < |g|
    ensures |CodeLive(g, s)| == |code| + 1 && b < |Insns(g)| == |s.outs| && BlockHere(code, CodeLive(g, s), Insns(g), s.outs, b)
  {
    hide *;
    FitsIs(g, s);
    GraphSize(code, g);
    var o, ins := Offset(Insns(g), b), g[b].ins;
    CodeLiveEnd(code, g, s);
    EndAt(code, g, b);
    forall i: nat | i < |ins| ensures InBlockAt(code, o, ins, i) {
      InsAt(code, g, b, i);
      PlaceEnds(code, g, b, i);
      InBlockIs(code, o, ins, i);
    }
    if ins != [] {
      OutAtEnd(code, g, s, b);
      InsAt(code, g, b, |ins| - 1);
    } else {
      OffsetBound(Insns(g), b, code);
    }
    SizesOf(g, s);
    HereIs(code, CodeLive(g, s), Insns(g), s.outs, b);
  }

  lemma SizesOf(g: Cfg, s: Sets)
    requires Fits(g, s)
    ensures |s.outs| == |g| == |Insns(g)|
  {
  }

  lemma {:induction false} OffsetBound(c: seq<seq<Ins>>, b: nat, code: seq<Ins>)
    requires b <= |c| && Flatten(c) == code
    ensures Offset(c, b) <= |code|
    decreases |c| - b
  {
    if b == |c| {
      assert c[..b] == c;
    } else {
      FlattenEnd(c, b);
      hide Flatten, Offset;
      OffsetBound(c, b + 1, code);
    }
  }

  lemma HereIs(code: seq<Ins>, live: LiveSets, blocks: seq<seq<Ins>>, outs: seq<set<nat>>, b: nat)
    requires |live| == |code| + 1 && b < |blocks| == |outs|
    requires var o, ins := Offset(blocks, b), blocks[b];
      && o + |ins| <= |code| && Offset(blocks, b + 1) == o + |ins|
      && (forall i: nat :: i < |ins| ==> InBlockAt(code, o, ins, i))
      && (ins != [] ==> LiveOut(code, live, o + |ins| - 1) == outs[b])
      && (b + 1 < |blocks| ==> ins != [])
    ensures BlockHere(code, live, blocks, outs, b)
  {
    hide Offset, EndsBlock, LiveOut, InBlockAt;
  }

  /** The blocks of the graph, with the sets that lva leaves for them, are the blocks of the code. */
  lemma GraphBlocks(code: seq<Ins>, g: Cfg, s: Sets)
    requires DistinctLabels(code) && GraphOf(code, g) && Insns(g) == Cut(code) && Solves(g, s)
    requires |g| <= |s.outs|
    ensures BlocksOf(code, CodeLive(g, s), Insns(g), s.outs)
  {
    GraphSize(code, g);
    FitsIs(g, s);
    CodeLiveEnd(code, g, s);
    hide GraphOf, Solves, DistinctLabels, Insns, Cut, CodeLive, Flatten, BlockHere;
    forall b: nat | b < |g| ensures BlockHere(code, CodeLive(g, s), Insns(g), s.outs, b) {
      BlockIs(code, g, s, b);
    }
  }

  lemma LoweredBlocksOf(ss: Stmts, g: Cfg, symbols: nat, s: Sets)
    requires Analyzed(ss, g, symbols, s) && Fits(g, s)
    ensures BlocksOf(GenStmts(ss), CodeLive(g, s), Insns(g), s.outs)
  {
    AnalyzedParts(ss, g, symbols, s);
    hide *;
    SizesOf(g, s);
    AnalyzedSolves(ss, g, symbols, s);
    LoweredCut(ss, g);
    GraphBlocks(GenStmts(ss), g, s);
  }

  lemma AnalyzedParts(ss: Stmts, g: Cfg, symbols: nat, s: Sets)
    requires Analyzed(ss, g, symbols, s)
    ensures StmtsApart(ss) && LabelsInRange(ss) && PlainProgram(ss) && Build(GenStmts(ss)) == Some(g)
  {
    hide StmtsApart, LabelsInRange, PlainProgram, GenStmts, Build;
  }

  /** free_regs consults the set that lva_bb computes for the instruction in its block. */
  lemma LoweredOut(ss: Stmts, g: Cfg, symbols: nat, s: Sets, b: nat, i: nat)
    requires Analyzed(ss, g, symbols, s) && Fits(g, s) && b < |g| && i < |g[b].ins|
    ensures var p := Offset(Insns(g), b) + i;
      p < |GenStmts(ss)| && |CodeLive(g, s)| == |GenStmts(ss)| + 1
      && OutAt(GenStmts(ss), CodeLive(g, s), p) == InsOut(g[b].ins, s.outs[b], i)
  {
    hide *;
    SizesOf(g, s);
    LoweredBlocksOf(ss, g, symbols, s);
    OutInBlock(GenStmts(ss), CodeLive(g, s), Insns(g), s.outs, b, i);
  }

  // ----- on locations -----

  lemma RenamedEnds(code: seq<Ins>, loc: Locations, p: nat)
    requires p < |code|
    ensures EndsBlock(RenameAll(code, loc), p) == EndsBlock(code, p)
  {
  }

  lemma RenamedMentions(i: Ins, loc: Locations)
    ensures Mentions(Rename(i, loc)) == Image(Mentions(i), loc)
  {
    RenamedUses(i, loc);
    ImageUnion(Uses(i), Defs(i), loc);
    hide Image, Uses, Defs, Rename;
  }

  lemma {:induction false} RenamedKept(code: seq<Ins>, live: LiveSets, loc: Locations, p: nat)
    requires |live| == |code| + 1 && p < |code|
    ensures KeptAt(RenameAll(code, loc), Images(live, loc), p) == Image(KeptAt(code, live, p), loc)
    decreases |code| - p
  {
    hide *;
    RenamedEnds(code, loc, p);
    ImageOut(code, live, loc, p);
    KeptAtIs(code, live, p);
    KeptAtIs(RenameAll(code, loc), Images(live, loc), p);
    if !EndsBlock(code, p) {
      RenamedKept(code, live, loc, p + 1);
      RenamedMentions(code[p], loc);
      ImageUnion(Mentions(code[p]), KeptAt(code, live, p + 1), loc);
    }
  }

  /** The blocks on locations. */
  function RenamedBlocks(blocks: seq<seq<Ins>>, loc: Locations): (r: seq<seq<Ins>>)
    ensures |r| == |blocks| && forall b :: 0 <= b < |r| ==> r[b] == RenameAll(blocks[b], loc)
  {
    seq(|blocks|, b requires 0 <= b < |blocks| => RenameAll(blocks[b], loc))
  }

  lemma RenamedAppend(a: seq<Ins>, b: seq<Ins>, loc: Locations)
    ensures RenameAll(a + b, loc) == RenameAll(a, loc) + RenameAll(b, loc)
  {
  }

  lemma {:induction false} RenamedFlatten(blocks: seq<seq<Ins>>, loc: Locations)
    ensures Flatten(RenamedBlocks(blocks, loc)) == RenameAll(Flatten(blocks), loc)
  {
    if blocks != [] {
      var m := |blocks| - 1;
      RenamedFlatten(blocks[..m], loc);
      RenamedAppend(Flatten(blocks[..m]), blocks[m], loc);
      assert RenamedBlocks(blocks, loc)[..m] == RenamedBlocks(blocks[..m], loc);
      hide RenameAll;
    }
  }

  lemma RenamedOffset(blocks: seq<seq<Ins>>, loc: Locations, b: nat)
    requires b <= |blocks|
    ensures Offset(RenamedBlocks(blocks, loc), b) == Offset(blocks, b)
  {
    RenamedFlatten(blocks[..b], loc);
    assert RenamedBlocks(blocks, loc)[..b] == RenamedBlocks(blocks[..b], loc);
    hide Flatten;
  }

  lemma RenamedHere(code: seq<Ins>, live: LiveSets, blocks: seq<seq<Ins>>, outs: seq<set<nat>>, loc: Locations, b: nat)
    requires |live| == |code| + 1 && b < |blocks| == |outs| && BlockHere(code, live, blocks, outs, b)
    ensures BlockHere(RenameAll(code, loc), Images(live, loc), RenamedBlocks(blocks, loc), Images(outs, loc), b)
  {
    hide *;
    HereParts(code, live, blocks, outs, b);
    var o, ins := Offset(blocks, b), blocks[b];
    RenamedOffset(blocks, loc, b);
    RenamedOffset(blocks, loc, b + 1);
    forall i: nat | i < |ins| ensures InBlockAt(RenameAll(code, loc), o, RenameAll(ins, loc), i) {
      InBlockIs(code, o, ins, i);
      RenamedEnds(code, loc, o + i);
      InBlockIs(RenameAll(code, loc), o, RenameAll(ins, loc), i);
    }
    if ins != [] {
      ImageOut(code, live, loc, o + |ins| - 1);
    }
    HereIs(RenameAll(code, loc), Images(live, loc), RenamedBlocks(blocks, loc), Images(outs, loc), b);
  }

  lemma InBlockIs(code: seq<Ins>, o: nat, ins: seq<Ins>, i: nat)
    requires o + i < |code| && i < |ins|
    ensures InBlockAt(code, o, ins, i) <==> code[o + i] == ins[i] && (EndsBlock(code, o + i) <==> i == |ins| - 1)
  {
  }

  lemma HereParts(code: seq<Ins>, live: LiveSets, blocks: seq<seq<Ins>>, outs: seq<set<nat>>, b: nat)
    requires |live| == |code| + 1 && b < |blocks| == |outs| && BlockHere(code, live, blocks, outs, b)
    ensures var o, ins := Offset(blocks, b), blocks[b];
      && o + |ins| <= |code| && Offset(blocks, b + 1) == o + |ins|
      && (forall i: nat :: i < |ins| ==> InBlockAt(code, o, ins, i))
      && (ins != [] ==> LiveOut(code, live, o + |ins| - 1) == outs[b])
      && (b + 1 < |blocks| ==> ins != [])
  {
    hide Offset, EndsBlock, LiveOut, InBlockAt;
  }

  /** On locations too. */
  lemma RenamedBlocksOf(code: seq<Ins>, live: LiveSets, blocks: seq<seq<Ins>>, outs: seq<set<nat>>, loc: Locations)
    requires BlocksOf(code, live, blocks, outs)
    ensures BlocksOf(RenameAll(code, loc), Images(live, loc), RenamedBlocks(blocks, loc), Images(outs, loc))
  {
    RenamedFlatten(blocks, loc);
    forall b: nat | b < |blocks|
      ensures BlockHere(RenameAll(code, loc), Images(live, loc), RenamedBlocks(blocks, loc), Images(outs, loc), b)
    {
      RenamedHere(code, live, blocks, outs, loc, b);
    }
    hide BlockHere, Flatten, RenameAll, Images, RenamedBlocks;
  }

  /** What the generator is called with for a program that is compiled. */
  lemma TargetBlocks(tree: Stmts, g: Cfg, symbols: nat, s: Sets, list: seq<nat>)
    requires Allocated(tree, g, symbols, s, list)
    ensures var loc := RegisterAllocation.Allocate(GenStmts(tree), list, 3);
      BlocksOf(CodeOn(tree, list), LiveOn(tree, g, s, list), RenamedBlocks(Insns(g), loc), Images(s.outs, loc))
  {
    AllocatedParts(tree, g, symbols, s, list);
    var loc := RegisterAllocation.Allocate(GenStmts(tree), list, 3);
    assert CodeOn(tree, list) == RenameAll(GenStmts(tree), loc) && LiveOn(tree, g, s, list) == Images(CodeLive(g, s), loc);
    hide *;
    LoweredBlocksOf(tree, g, symbols, s);
    RenamedBlocksOf(GenStmts(tree), CodeLive(g, s), Insns(g), s.outs, loc);
  }

  /** So the main loop of the generator, called with these blocks, emits the program of WholeMachine. */
  lemma TargetPasses(prog: Stmts, base: nat, tree: Stmts, g: Cfg, symbols: nat, s: Sets, list: seq<nat>) returns (items: seq<BackPatch.Item>)
    requires Translatable(prog, base, tree, g, symbols, s, list)
    ensures GenPass.Passes(CodeOn(tree, list), LiveOn(tree, g, s, list), items)
  {
    var loc := RegisterAllocation.Allocate(GenStmts(tree), list, 3);
    var code, live := CodeOn(tree, list), LiveOn(tree, g, s, list);
    assert code == RenameAll(GenStmts(tree), loc);
    hide *;
    Translated(prog, base, tree, g, symbols, s, list);
    CompiledSound(prog, base, tree, g, symbols, s, list);
    items := SoundMade(code, live);
    LoweredRenders(tree, loc, live, items);
    LoweredJumps.LoweredMarkedOnce(tree, items);
    PassesIs(code, live, items);
  }

  lemma SoundMade(code: seq<Ins>, live: LiveSets) returns (items: seq<BackPatch.Item>)
    requires X.Sound(code, live)
    ensures X.Made(code, live, items)
  {
    ItemsTotal(code, live, |code|);
    items := ItemsTo(code, live, |code|).value.1;
    hide ItemsTo;
  }

  lemma PassesIs(code: seq<Ins>, live: LiveSets, items: seq<BackPatch.Item>)
    requires X.Sound(code, live) && X.Made(code, live, items) && BackPatch.MarkedOnce(items)
    ensures GenPass.Passes(code, live, items)
  {
  }

  /** For a symbol with a memory slot the set of locations answers as the set of symbols does. */
  lemma SameAnswer(code: seq<Ins>, list: seq<nat>, s: set<nat>, v: nat)
    requires RegisterAllocation.Listed(code, list)
    ensures var loc := RegisterAllocation.Allocate(code, list, 3);
      v in loc && loc[v] >= 3 ==> (At(loc, v) in Image(s, loc) <==> v in s)
  {
    var loc := RegisterAllocation.Allocate(code, list, 3);
    hide RegisterAllocation.Allocate, RegisterAllocation.Listed;
    forall u | u in loc && v in loc && u != v && loc[u] == loc[v] ensures loc[u] < 3 {
      RegisterAllocation.AllocateAlone(code, list, 3, u, v);
    }
  }

  /** On locations the sets are those of the symbols. */
  lemma RenamedOut(code: seq<Ins>, live: LiveSets, loc: Locations, p: nat)
    requires |live| == |code| + 1 && p < |code|
    ensures OutAt(RenameAll(code, loc), Images(live, loc), p) == Image(OutAt(code, live, p), loc)
  {
    RenamedKept(code, live, loc, p);
    if p > 0 {
      RenamedEnds(code, loc, p - 1);
      RenamedMentions(code[p - 1], loc);
    }
    hide Image, LiveOut, Mentions, Rename, KeptAt, EndsBlock, Images;
    ImageUnion(KeptAt(code, live, p), if StartsBlock(code, p) then {} else Mentions(code[p - 1]), loc);
    EmptyImage(loc);
  }

  // ----- when nothing is lost -----

  /** Behind free_regs the machine still holds an environment that agrees with env on what is live. */
  ghost predicate Keeps(d: Desc, out: set<nat>, live: set<nat>, env: Env, m: Machine) {
    exists e :: Rel(Swept(d, out), e, m, None) && AgreeOn(live, env, e)
  }

  /** It does so on every machine whose memory is up to date but for w. */
  ghost predicate AlwaysKeeps(d: Desc, out: set<nat>, live: set<nat>, w: set<nat>) {
    forall env: Env, m: Machine :: Rel(d, env, m, None) && Clean(d, env, m, w) ==> Keeps(d, out, live, env, m)
  }

  lemma ResidentAt(d: Desc, x: nat) returns (i: nat)
    requires Shaped(d) && x in InSpares(d)
    ensures i < REGISTER_SPARE && d.regs[i] == Some(Sym(x)) && x >= REGISTER_COUNT && x in d.loaded
  {
    i := if d.regs[0] == Some(Sym(x)) then 0 else if d.regs[1] == Some(Sym(x)) then 1 else 2;
  }

  /** Every variable is zero, but x is one, and only its register says so. */
  lemma OnlyInRegister(d: Desc, i: nat, x: nat, w: set<nat>) returns (env: Env, m: Machine)
    requires Sane(d) && i < REGISTER_SPARE && d.regs[i] == Some(Sym(x)) && x >= REGISTER_COUNT && x in w
    ensures Rel(d, env, m, None) && Clean(d, env, m, w) && Get(env, x) == 1
    ensures x in d.loaded ==> x < REGISTER_COUNT + DADDR_SIZE && m.dmem[Slot(Sym(x))] == 0
  {
    CanonicalRel(d);
    var c := Canonical(d);
    m := c.(reg := c.reg[REGISTER_COUNT + i := 1]);
    env := map[x := 1];
    var none: Env := map[];
    assert RegOf(d, Sym(x)) == Some(REGISTER_COUNT + i) by {
      FoundThere(d, i, x);
    }
    forall a ensures Located(d, env, m, a) {
      assert Located(d, none, c, a);
      if RegOf(d, a) == Some(REGISTER_COUNT + i) {
        Injective(d, a, Sym(x));
      }
    }
    forall y | y in d.loaded && y >= REGISTER_COUNT && y !in w ensures CleanAt(env, m, y) {
    }
  }

  lemma FoundThere(d: Desc, i: nat, x: nat)
    requires Shaped(d) && i < REGISTER_SPARE && d.regs[i] == Some(Sym(x))
    ensures RegOf(d, Sym(x)) == Some(REGISTER_COUNT + i)
  {
  }

  lemma LosesRegister(d: Desc, i: nat, x: nat, out: set<nat>)
    requires Shaped(d) && i < REGISTER_SPARE && d.regs[i] == Some(Sym(x)) && x !in out
    ensures RegOf(Swept(d, out), Sym(x)) == None && Swept(d, out).loaded == d.loaded
  {
  }

  /** A live symbol whose value is only in its register is lost with it, on some machine. */
  lemma SweepLosesOne(d: Desc, out: set<nat>, live: set<nat>, w: set<nat>, x: nat) returns (env: Env, m: Machine)
    requires Sane(d) && x in live && x in w && x in InSpares(d) && x !in out
    ensures Rel(d, env, m, None) && Clean(d, env, m, w) && !Keeps(d, out, live, env, m)
  {
    var i := ResidentAt(d, x);
    env, m := OnlyInRegister(d, i, x, w);
    LosesRegister(d, i, x, out);
    forall e | Rel(Swept(d, out), e, m, None) ensures !AgreeOn(live, env, e) {
      assert Located(Swept(d, out), e, m, Sym(x));
    }
  }

  /** free_regs loses nothing on any machine, whatever the program computes, if and only if each live
      symbol whose value is only in its register is in the set. */
  lemma SweepExact(d: Desc, out: set<nat>, live: set<nat>, w: set<nat>)
    requires Sane(d)
    ensures SweepSafe(live, w * InSpares(d), out) <==> AlwaysKeeps(d, out, live, w)
  {
    if SweepSafe(live, w * InSpares(d), out) {
      hide *;
      forall env: Env, m: Machine | Rel(d, env, m, None) && Clean(d, env, m, w) ensures Keeps(d, out, live, env, m) {
        CleanResident(d, env, m, w);
        var e := SweepOk(d, out, live, w * InSpares(d), env, m);
        KeepsBy(d, out, live, env, m, e);
      }
      AlwaysIs(d, out, live, w);
    } else {
      var x :| x in live && x in w * InSpares(d) && x !in out;
      var env, m := SweepLosesOne(d, out, live, w, x);
    }
  }

  lemma KeepsBy(d: Desc, out: set<nat>, live: set<nat>, env: Env, m: Machine, e: Env)
    requires Rel(Swept(d, out), e, m, None) && AgreeOn(live, env, e)
    ensures Keeps(d, out, live, env, m)
  {
  }

  lemma AlwaysIs(d: Desc, out: set<nat>, live: set<nat>, w: set<nat>)
    requires forall env: Env, m: Machine :: Rel(d, env, m, None) && Clean(d, env, m, w) ==> Keeps(d, out, live, env, m)
    ensures AlwaysKeeps(d, out, live, w)
  {
  }

  // ----- the same for whole programs -----

  /** Wherever free_regs is called inside a block: any machine that agrees with the program before it,
      with memory up to date but for what the block has written and not stored since, agrees after it. */
  ghost predicate NothingLost(code: seq<Ins>, live: LiveSets)
    requires |live| == |code| + 1
  {
    forall p :: 0 <= p < |code| && !EndsBlock(code, p) ==> KeptBehind(code, live, p)
  }

  ghost predicate KeptBehind(code: seq<Ins>, live: LiveSets, p: nat)
    requires |live| == |code| + 1 && p < |code|
  {
    AlwaysKeeps(DescBehind(DescAt(code, live, p), code[p]), OutAt(code, live, p), live[p + 1],
                DirtyAt(code, live, p) + Writes(code[p]))
  }

  lemma BehindSane(code: seq<Ins>, live: LiveSets, p: nat)
    requires X.Sound(code, live) && p < |code|
    ensures |live| == |code| + 1 && Sane(DescBehind(DescAt(code, live, p), code[p]))
  {
    var d := DescAt(code, live, p);
    ItemsTotal(code, live, p);
    assert Knows(code, p, d);
    if IsControl(code[p]) {
      assert GenIns(d, code[p]) == None;
    } else {
      KindOf(code, live, p);
      ReadyAt(code, live, p, d);
      hide X.Sound, ItemsTo, SpareCode.Straight, Ready, GenIns;
      InsTotal(d, code[p]);
    }
  }

  /** free_regs takes no register from a live symbol whose value is nowhere else, if and only if it loses
      nothing on any machine. */
  lemma SweepsSafeIff(code: seq<Ins>, live: LiveSets)
    requires X.Sound(code, live)
    ensures |live| == |code| + 1 && (SweepsSafe(code, live) <==> NothingLost(code, live))
  {
    assert |live| == |code| + 1;
    forall p: nat | p < |code| ensures SafeAt(code, live, p, DescAt(code, live, p), DirtyAt(code, live, p)) <==> KeptBehind(code, live, p) {
      BehindSane(code, live, p);
      hide X.Sound, DescAt, DirtyAt, DescBehind, AlwaysKeeps, OutAt, Writes, Sane;
      SweepExact(DescBehind(DescAt(code, live, p), code[p]), OutAt(code, live, p), live[p + 1], DirtyAt(code, live, p) + Writes(code[p]));
    }
    hide SafeAt, KeptBehind, DescAt, DirtyAt, X.Sound, EndsBlock;
  }

  /** So it is for every program that is compiled. */
  lemma LoweredSafeIff(prog: Stmts, base: nat, tree: Stmts, g: Cfg, symbols: nat, s: Sets, list: seq<nat>)
    requires Compilable(prog, base, tree, g, symbols, s, list)
    ensures |LiveOn(tree, g, s, list)| == |CodeOn(tree, list)| + 1
    ensures KeepsLive(CodeOn(tree, list), LiveOn(tree, g, s, list)) <==> NothingLost(CodeOn(tree, list), LiveOn(tree, g, s, list))
  {
    assert Compilable(prog, base, tree, g, symbols, s, list);
    hide *;
    CompiledSound(prog, base, tree, g, symbols, s, list);
    SweepsSafeIff(CodeOn(tree, list), LiveOn(tree, g, s, list));
    KeepsLiveIs(CodeOn(tree, list), LiveOn(tree, g, s, list));
  }

  lemma KeepsLiveIs(code: seq<Ins>, live: LiveSets)
    requires |live| == |code| + 1
    ensures KeepsLive(code, live) <==> SweepsSafe(code, live)
  {
  }

  // ----- a condition on the text that is enough -----

  /** What the block of instruction p has written in front of it. */
  function WrittenAt(code: seq<Ins>, p: nat): set<nat>
    requires p <= |code|
  {
    if StartsBlock(code, p) then {} else WrittenAt(code, p - 1) + Defs(code[p - 1])
  }

  lemma WrittenNext(code: seq<Ins>, p: nat)
    requires p < |code|
    ensures WrittenAt(code, p + 1) == if EndsBlock(code, p) then {} else WrittenAt(code, p) + Defs(code[p])
  {
  }

  /** Only what was written in the block can be out of date. */
  lemma {:induction false} DirtyWritten(code: seq<Ins>, live: LiveSets, p: nat)
    requires |live| == |code| + 1 && p <= |code|
    ensures DirtyAt(code, live, p) <= WrittenAt(code, p)
  {
    hide *;
    DirtyGrows(code, live, p);
    if !StartsBlock(code, p) {
      DirtyWritten(code, live, p - 1);
      WrittenNext(code, p - 1);
      StartsIs(code, p);
    }
  }

  lemma DirtyGrows(code: seq<Ins>, live: LiveSets, p: nat)
    requires |live| == |code| + 1 && p <= |code|
    ensures if StartsBlock(code, p) then DirtyAt(code, live, p) == {}
            else p > 0 && DirtyAt(code, live, p) <= DirtyAt(code, live, p - 1) + Defs(code[p - 1])
  {
    if !StartsBlock(code, p) {
      assert Writes(code[p - 1]) <= Defs(code[p - 1]);
    }
    hide Writes, Defs, DescAt, DescBehind, InSpares;
  }

  lemma StartsIs(code: seq<Ins>, p: nat)
    requires p <= |code|
    ensures !StartsBlock(code, p) ==> p > 0 && !EndsBlock(code, p - 1)
  {
  }

  /** What is live in front of an instruction is read there or live behind it. */
  ghost predicate Tight(code: seq<Ins>, live: LiveSets) {
    |live| == |code| + 1 && forall p :: 0 <= p < |code| ==> live[p] <= Uses(code[p]) + LiveOut(code, live, p)
  }

  /** Every symbol with a memory slot that the last instruction of a block needs, and that the block
      itself has written, is in the set of the instruction before.  This can be read off the text, and
      says no more than that: find_reg may have stored the symbol in the meantime. */
  ghost predicate LastSafe(code: seq<Ins>, live: LiveSets)
    requires |live| == |code| + 1
  {
    forall q :: 0 < q < |code| && !StartsBlock(code, q) && EndsBlock(code, q) ==>
      SweepSafe(live[q], WrittenAt(code, q), OutAt(code, live, q - 1))
  }

  lemma {:induction false} SafeFrom(code: seq<Ins>, live: LiveSets, p: nat, x: nat)
    requires Tight(code, live) && LastSafe(code, live) && p < |code| && !EndsBlock(code, p)
    requires x in live[p + 1] && x in WrittenAt(code, p + 1) && x >= 3
    ensures x in OutAt(code, live, p)
    decreases |code| - p
  {
    var q := p + 1;
    hide *;
    InBlock(code, live, p);
    if EndsBlock(code, q) {
      SafeLast(code, live, q, x);
    } else {
      OutNext(code, live, p);
      TightNext(code, live, q, x);
      if x !in Uses(code[q]) {
        WrittenNext(code, q);
        SafeFrom(code, live, q, x);
      }
    }
  }

  lemma InBlock(code: seq<Ins>, live: LiveSets, p: nat)
    requires Tight(code, live) && p < |code| && !EndsBlock(code, p)
    ensures p + 1 < |code| && |live| == |code| + 1 && !StartsBlock(code, p + 1)
  {
  }

  lemma SafeLast(code: seq<Ins>, live: LiveSets, q: nat, x: nat)
    requires |live| == |code| + 1 && LastSafe(code, live) && 0 < q < |code| && !StartsBlock(code, q) && EndsBlock(code, q)
    requires x in live[q] && x in WrittenAt(code, q) && x >= 3
    ensures x in OutAt(code, live, q - 1)
  {
    assert SweepSafe(live[q], WrittenAt(code, q), OutAt(code, live, q - 1));
    hide WrittenAt, OutAt;
  }

  lemma OutNext(code: seq<Ins>, live: LiveSets, p: nat)
    requires |live| == |code| + 1 && p + 1 < |code| && !EndsBlock(code, p) && !EndsBlock(code, p + 1)
    ensures OutAt(code, live, p + 1) <= OutAt(code, live, p) && Uses(code[p + 1]) <= OutAt(code, live, p)
  {
    var a, b, c := Mentions(code[p]), Mentions(code[p + 1]), KeptAt(code, live, p + 2);
    assert KeptAt(code, live, p + 1) == b + c && KeptAt(code, live, p) == a + (b + c);
    assert OutAt(code, live, p + 1) == (b + c) + a;
    assert Uses(code[p + 1]) <= b;
    hide KeptAt, Mentions, Uses;
  }

  lemma TightNext(code: seq<Ins>, live: LiveSets, q: nat, x: nat)
    requires Tight(code, live) && q < |code| && !EndsBlock(code, q) && x in live[q]
    ensures x in Uses(code[q]) || x in live[q + 1]
  {
    assert LiveOut(code, live, q) == live[q + 1];
  }

  /** The condition on the last instructions is enough. */
  lemma LastEnough(code: seq<Ins>, live: LiveSets)
    requires Tight(code, live) && LastSafe(code, live)
    ensures SweepsSafe(code, live)
  {
    forall p: nat | p < |code| && !EndsBlock(code, p) ensures SafeAt(code, live, p, DescAt(code, live, p), DirtyAt(code, live, p)) {
      DirtyWritten(code, live, p);
      WrittenNext(code, p);
      var w := DirtyBehind(DescAt(code, live, p), code[p], DirtyAt(code, live, p));
      assert w <= WrittenAt(code, p + 1);
      hide WrittenAt, OutAt, Tight, LastSafe, DirtyAt, DescAt, DirtyBehind;
      forall x | x in live[p + 1] && x in w && x >= REGISTER_COUNT ensures x in OutAt(code, live, p) {
        SafeFrom(code, live, p, x);
      }
    }
    hide SafeAt, EndsBlock, DescAt, DirtyAt, Tight, LastSafe;
  }

  lemma RenamedTight(code: seq<Ins>, live: LiveSets, loc: Locations)
    requires SolvesCode(code, live)
    ensures Tight(RenameAll(code, loc), Images(live, loc))
  {
    var c, l := RenameAll(code, loc), Images(live, loc);
    forall p: nat | p < |c| ensures l[p] <= Uses(c[p]) + LiveOut(c, l, p) {
      assert live[p] <= Uses(code[p]) + LiveOut(code, live, p);
      RenamedUses(code[p], loc);
      ImageOut(code, live, loc, p);
      ImageUnion(Uses(code[p]), LiveOut(code, live, p), loc);
      ImageUnion(live[p], Uses(code[p]) + LiveOut(code, live, p), loc);
      hide Image, LiveOut, Uses, SolvesCode, RenameAll, Images;
    }
  }

  /** Also for a program that is compiled. */
  lemma LoweredLastEnough(tree: Stmts, g: Cfg, symbols: nat, s: Sets, list: seq<nat>)
    requires Allocated(tree, g, symbols, s, list)
    ensures |LiveOn(tree, g, s, list)| == |CodeOn(tree, list)| + 1
    ensures LastSafe(CodeOn(tree, list), LiveOn(tree, g, s, list)) ==> KeepsLive(CodeOn(tree, list), LiveOn(tree, g, s, list))
  {
    AllocatedParts(tree, g, symbols, s, list);
    AnalyzedSolves(tree, g, symbols, s);
    CodeSolved(GenStmts(tree), g, s);
    var loc := RegisterAllocation.Allocate(GenStmts(tree), list, 3);
    hide Analyzed, SolvesCode, GenStmts, CodeLive, RegisterAllocation.Allocate, SweepsSafe, LastSafe, Tight, GraphOf;
    RenamedTight(GenStmts(tree), CodeLive(g, s), loc);
    TightSize(CodeOn(tree, list), LiveOn(tree, g, s, list));
    if LastSafe(CodeOn(tree, list), LiveOn(tree, g, s, list)) {
      LastEnough(CodeOn(tree, list), LiveOn(tree, g, s, list));
    }
  }

  lemma TightSize(code: seq<Ins>, live: LiveSets)
    requires Tight(code, live)
    ensures |live| == |code| + 1
  {
  }
}
