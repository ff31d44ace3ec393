/** lva and reg_alloc together: the sets that lva leaves on the graph of a lowered program decide
    whether its intervals are long enough. */
module LoweredAllocation {
  import opened Options
  import opened ThreeAddress
  import opened Intervals
  import opened Ast
  import opened Lowering
  import opened Labels
  import opened BasicBlocks
  import opened BlockGraph
  import opened LoweredBlocks
  import opened Liveness
  import opened LivenessFixpoint
  import LoopHeaders
  import Allocation
  import RegisterAllocation
  import opened LoopAllocation

  // ----- from the sets of the blocks to the sets of the instructions -----

  /** The symbols live before each instruction of block b. */
  function BlockLive(g: Cfg, s: Sets, b: nat): (l: seq<set<nat>>)
    requires b < |g| && b < |s.outs|
    ensures |l| == |g[b].ins| && forall i :: 0 <= i < |l| ==> l[i] == Backward(g[b].ins[i..], s.outs[b])
  {
    seq(|g[b].ins|, i requires 0 <= i < |g[b].ins| => Backward(g[b].ins[i..], s.outs[b]))
  }

  function LiveList(g: Cfg, s: Sets, k: nat): seq<set<nat>>
    requires k <= |g| && k <= |s.outs|
  {
    if k == 0 then [] else LiveList(g, s, k - 1) + BlockLive(g, s, k - 1)
  }

  /** The sets of all instructions; nothing is live behind the last one. */
  function CodeLive(g: Cfg, s: Sets): LiveSets
    requires |g| <= |s.outs|
  {
    LiveList(g, s, |g|) + [{}]
  }

  lemma {:induction false} LiveListSize(g: Cfg, s: Sets, k: nat)
    requires k <= |g| && k <= |s.outs|
    ensures |LiveList(g, s, k)| == Offset(Insns(g), k)
  {
    if k > 0 {
      LiveListSize(g, s, k - 1);
      FlattenEnd(Insns(g), k - 1);
      hide Offset, Insns;
    }
  }

  lemma {:induction false} LiveListAt(g: Cfg, s: Sets, k: nat, b: nat, i: nat)
    requires b < k <= |g| && k <= |s.outs| && i < |g[b].ins|
    ensures Offset(Insns(g), b) + i < |LiveList(g, s, k)|
    ensures LiveList(g, s, k)[Offset(Insns(g), b) + i] == BlockLive(g, s, b)[i]
  {
    hide *;
    var p, front := Offset(Insns(g), b) + i, LiveList(g, s, k - 1);
    LiveListSize(g, s, k - 1);
    LiveListNext(g, s, k);
    if b < k - 1 {
      LiveListAt(g, s, k - 1, b, i);
      InFront(front, BlockLive(g, s, k - 1), p);
    } else {
      Behind(front, BlockLive(g, s, b), i);
    }
  }

  lemma LiveListNext(g: Cfg, s: Sets, k: nat)
    requires 0 < k <= |g| && k <= |s.outs|
    ensures LiveList(g, s, k) == LiveList(g, s, k - 1) + BlockLive(g, s, k - 1)
  {
  }

  lemma InFront<T>(a: seq<T>, b: seq<T>, i: nat)
    requires i < |a|
    ensures (a + b)[i] == a[i]
  {
  }

  lemma Behind<T>(a: seq<T>, b: seq<T>, i: nat)
    requires i < |b|
    ensures (a + b)[|a| + i] == b[i]
  {
  }

  lemma CodeLiveAt(code: seq<Ins>, g: Cfg, s: Sets, b: nat, i: nat)
    requires GraphOf(code, g) && Fits(g, s) && b < |g| && i < |g[b].ins|
    ensures var p := Offset(Insns(g), b) + i;
      |CodeLive(g, s)| == |code| + 1 && p < |code| && code[p] == g[b].ins[i]
      && CodeLive(g, s)[p] == Backward(g[b].ins[i..], s.outs[b])
  {
    LiveListAt(g, s, |g|, b, i);
    LiveListSize(g, s, |g|);
    FlattenAt(Insns(g), b, i);
    assert Insns(g)[..|g|] == Insns(g);
    hide Backward, GoodBlock, Flatten;
  }

  lemma CodeLiveEnd(code: seq<Ins>, g: Cfg, s: Sets)
    requires GraphOf(code, g) && Fits(g, s)
    ensures |CodeLive(g, s)| == |code| + 1 && CodeLive(g, s)[|code|] == {}
  {
    LiveListSize(g, s, |g|);
    assert Insns(g)[..|g|] == Insns(g);
    hide GoodBlock, Flatten;
  }

  /** What is live at the start of a block is its in. */
  lemma BlockStart(code: seq<Ins>, g: Cfg, s: Sets, b: nat)
    requires GraphOf(code, g) && Solves(g, s) && b < |g|
    ensures Offset(Insns(g), b) <= |code| && |CodeLive(g, s)| == |code| + 1
    ensures CodeLive(g, s)[Offset(Insns(g), b)] == s.ins[b]
  {
    assert GoodBlock(g, b) && BlockSolved(g, s, b);
    SummaryComposes(g[b].ins, s.outs[b]);
    assert g[b].ins[0..] == g[b].ins;
    CodeLiveEnd(code, g, s);
    FlattenEnd(Insns(g), b);
    if g[b].ins != [] {
      CodeLiveAt(code, g, s, b, 0);
    }
    hide Backward, Offset, Flatten, Leads, Summarize, CodeLive;
  }

  /** The block and the place in it of an instruction of the code. */
  lemma {:induction false} Locate(c: seq<seq<Ins>>, p: nat) returns (b: nat, i: nat)
    requires p < |Flatten(c)|
    ensures b < |c| && i < |c[b]| && p == Offset(c, b) + i
  {
    var m := |c| - 1;
    assert c[..m][..m] == c[..m];
    if p < |Flatten(c[..m])| {
      b, i := Locate(c[..m], p);
      assert c[..m][..b] == c[..b];
    } else {
      b, i := m, p - |Flatten(c[..m])|;
    }
  }

  /** A jump leads to the start of the block along the jump edge. */
  lemma JumpEdge(code: seq<Ins>, g: Cfg, b: nat)
    requires DistinctLabels(code) && GraphOf(code, g) && b < |g| && g[b].ins != []
    requires BasicBlocks.Last(g[b].ins).Iff? || BasicBlocks.Last(g[b].ins).Jmp?
    ensures g[b].jmp.Some? && g[b].jmp.value < |g| && Offset(Insns(g), g[b].jmp.value) < |code|
    ensures FindLabel(code, BasicBlocks.Last(g[b].ins).target) == Some(Offset(Insns(g), g[b].jmp.value))
  {
    hide *;
    JumpTarget(code, g, b);
    var t := g[b].jmp.value;
    FlattenAt(Insns(g), t, 0);
    FindDistinct(code, Offset(Insns(g), t));
  }

  lemma JumpTarget(code: seq<Ins>, g: Cfg, b: nat)
    requires GraphOf(code, g) && b < |g| && g[b].ins != []
    requires BasicBlocks.Last(g[b].ins).Iff? || BasicBlocks.Last(g[b].ins).Jmp?
    ensures g[b].jmp.Some? && g[b].jmp.value < |g| == |Insns(g)| && Flatten(Insns(g)) == code
    ensures var t := g[b].jmp.value;
      Insns(g)[t] == g[t].ins != [] && g[t].ins[0] == Label(BasicBlocks.Last(g[b].ins).target)
  {
    assert GoodBlock(g, b);
    hide Flatten, Falls, Piece;
  }

  /** What is live behind the last instruction of a block is its out. */
  lemma OutAtEnd(code: seq<Ins>, g: Cfg, s: Sets, b: nat)
    requires DistinctLabels(code) && GraphOf(code, g) && Solves(g, s) && b < |g| && g[b].ins != []
    ensures var p := Offset(Insns(g), b) + |g[b].ins| - 1;
      p < |code| && code[p] == BasicBlocks.Last(g[b].ins) && |CodeLive(g, s)| == |code| + 1
      && LiveOut(code, CodeLive(g, s), p) == s.outs[b]
  {
    assert GoodBlock(g, b) && BlockSolved(g, s, b);
    var i := BasicBlocks.Last(g[b].ins);
    CodeLiveAt(code, g, s, b, |g[b].ins| - 1);
    CodeLiveEnd(code, g, s);
    FlattenEnd(Insns(g), b);
    if b + 1 < |g| {
      BlockStart(code, g, s, b + 1);
    }
    if i.Iff? || i.Jmp? {
      JumpEdge(code, g, b);
      BlockStart(code, g, s, g[b].jmp.value);
    }
    hide Offset, Insns, CodeLive, Flatten, FindLabel, Backward, GraphOf, Solves, InOf, Piece, DistinctLabels;
  }

  /** The sets of the blocks, spread over the instructions, solve the equations of the code. */
  lemma CodeSolved(code: seq<Ins>, g: Cfg, s: Sets)
    requires DistinctLabels(code) && GraphOf(code, g) && Solves(g, s)
    ensures SolvesCode(code, CodeLive(g, s))
  {
    var live := CodeLive(g, s);
    CodeLiveEnd(code, g, s);
    forall p: nat | p < |code| ensures live[p] == LiveIn(code, live, p) {
      PlaceSolved(code, g, s, p);
    }
  }

  lemma PlaceSolved(code: seq<Ins>, g: Cfg, s: Sets, p: nat)
    requires DistinctLabels(code) && GraphOf(code, g) && Solves(g, s) && p < |code|
    ensures |CodeLive(g, s)| == |code| + 1 && CodeLive(g, s)[p] == LiveIn(code, CodeLive(g, s), p)
  {
    var b, i := Locate(Insns(g), p);
    CodeLiveAt(code, g, s, b, i);
    BackwardFront(g[b].ins, i, s.outs[b]);
    if i + 1 == |g[b].ins| {
      OutAtEnd(code, g, s, b);
    } else {
      CodeLiveAt(code, g, s, b, i + 1);
      assert GoodBlock(g, b);
    }
    hide Offset, Insns, CodeLive, Flatten, Backward, Solves, DistinctLabels;
  }

  lemma BackwardFront(ins: seq<Ins>, i: nat, out: set<nat>)
    requires i < |ins|
    ensures Backward(ins[i..], out) == Uses(ins[i]) + ((if i + 1 == |ins| then out else Backward(ins[i + 1..], out)) - Defs(ins[i]))
  {
    assert ins[i..][1..] == ins[i + 1..];
  }

  // ----- the condition on the loops -----

  /** The position of the jump that ends block b. */
  function JumpAt(g: Cfg, b: nat): int
    requires b < |g|
  {
    Offset(Insns(g), b) + |g[b].ins| - 1
  }

  /** The interval of every symbol in the in of a block reaches every jump back to that block. */
  ghost predicate LoopsSpanned(code: seq<Ins>, g: Cfg, s: Sets)
    requires Fits(g, s)
  {
    forall b :: 0 <= b < |g| ==> LoopSpanned(code, g, s, b)
  }

  ghost predicate LoopSpanned(code: seq<Ins>, g: Cfg, s: Sets, b: nat)
    requires Fits(g, s) && b < |g|
  {
    g[b].ins != [] && g[b].jmp.Some? && g[b].jmp.value <= b ==>
      forall v :: v in s.ins[g[b].jmp.value] ==> Allocation.SpansLoop(code, v, JumpAt(g, b), Offset(Insns(g), g[b].jmp.value))
  }

  /** A jump of the code is the jump edge of the block that it ends. */
  lemma JumpOfBlock(code: seq<Ins>, g: Cfg, p: nat, q: nat) returns (b: nat)
    requires DistinctLabels(code) && GraphOf(code, g) && Jumps(code, p, q)
    ensures b < |g| && g[b].ins != [] && p == JumpAt(g, b)
    ensures g[b].jmp.Some? && g[b].jmp.value < |g| && q == Offset(Insns(g), g[b].jmp.value)
    ensures q <= p ==> g[b].jmp.value <= b
  {
    var i;
    b, i := Locate(Insns(g), p);
    FlattenAt(Insns(g), b, i);
    assert GoodBlock(g, b);
    JumpEdge(code, g, b);
    FlattenEnd(Insns(g), b);
    if g[b].jmp.value > b {
      LoopHeaders.OffsetsGrow(Insns(g), b + 1, g[b].jmp.value);
    }
    hide Offset, Flatten, DistinctLabels, FindLabel;
  }

  lemma BlockJumps(code: seq<Ins>, g: Cfg, b: nat)
    requires DistinctLabels(code) && GraphOf(code, g) && b < |g| && g[b].ins != [] && g[b].jmp.Some?
    ensures g[b].jmp.value < |g| && JumpAt(g, b) >= 0 && Jumps(code, JumpAt(g, b), Offset(Insns(g), g[b].jmp.value))
    ensures g[b].jmp.value <= b ==> Offset(Insns(g), g[b].jmp.value) <= JumpAt(g, b)
  {
    assert GoodBlock(g, b);
    JumpEdge(code, g, b);
    FlattenAt(Insns(g), b, |g[b].ins| - 1);
    if g[b].jmp.value <= b {
      LoopHeaders.OffsetsGrow(Insns(g), g[b].jmp.value, b);
    }
    hide Offset, Flatten, DistinctLabels, FindLabel;
  }

  /** The condition on the blocks is the condition on the code. */
  lemma SpannedByBlocks(code: seq<Ins>, g: Cfg, s: Sets)
    requires DistinctLabels(code) && GraphOf(code, g) && Solves(g, s)
    ensures |CodeLive(g, s)| == |code| + 1
    ensures LoopsSpanned(code, g, s) <==> BackSpanned(code, CodeLive(g, s))
  {
    var live := CodeLive(g, s);
    CodeLiveEnd(code, g, s);
    if LoopsSpanned(code, g, s) {
      forall p: nat, q: nat, v | Jumps(code, p, q) && q <= p && v in live[q] ensures Allocation.SpansLoop(code, v, p, q) {
        var b := JumpOfBlock(code, g, p, q);
        BlockStart(code, g, s, g[b].jmp.value);
        assert LoopSpanned(code, g, s, b);
      }
    }
    if BackSpanned(code, live) {
      forall b | 0 <= b < |g| ensures LoopSpanned(code, g, s, b) {
        if g[b].ins != [] && g[b].jmp.Some? && g[b].jmp.value <= b {
          BlockJumps(code, g, b);
          BlockStart(code, g, s, g[b].jmp.value);
        }
      }
    }
    hide Offset, CodeLive, Solves, GraphOf, DistinctLabels, Allocation.SpansLoop;
  }

  // ----- lowered programs -----

  /** A label behind an unconditional jump is where its one jump, from before, goes. */
  lemma LoweredEntered(ss: Stmts)
    requires StmtsApart(ss) && LabelsInRange(ss)
    ensures Entered(GenStmts(ss))
  {
    var code := GenStmts(ss);
    LoweredWellFormed(ss);
    LoopHeaders.StmtsForward(ss);
    assert DistinctLabels(code);
    hide GenStmts, StmtsApart, DistinctLabels;
    forall q: nat | BehindJump(code, q) ensures exists p: nat :: p < q && Jumps(code, p, q) {
      assert code[q - 1].Jmp? && code[q].Label?;
      var l := code[q].l;
      DefCountAt(code, q, l);
      StmtsCounts(ss, l);
      var p := JumpPlace(code, l);
      FindDistinct(code, q);
      assert LoopHeaders.Cold(code, q, l) && LoopHeaders.JumpsTo(code[p], l);
      assert Jumps(code, p, q);
    }
  }

  lemma {:induction false} JumpPlace(code: seq<Ins>, l: nat) returns (p: nat)
    requires JumpCount(code, l) >= 1
    ensures p < |code| && (code[p].Iff? || code[p].Jmp?) && code[p].target == l
  {
    if (code[0].Iff? || code[0].Jmp?) && code[0].target == l {
      p := 0;
    } else {
      p := JumpPlace(code[1..], l);
      p := p + 1;
    }
  }

  /** A lowered program and the sets that lva leaves on its graph. */
  ghost predicate Analyzed(ss: Stmts, g: Cfg, symbols: nat, s: Sets) {
    && StmtsApart(ss) && LabelsInRange(ss) && PlainProgram(ss)
    && Build(GenStmts(ss)) == Some(g) && InRange(g, symbols) && s == Lva(g, symbols)
  }

  lemma AnalyzedSolves(ss: Stmts, g: Cfg, symbols: nat, s: Sets)
    requires Analyzed(ss, g, symbols, s)
    ensures DistinctLabels(GenStmts(ss)) && GraphOf(GenStmts(ss), g) && Solves(g, s) && Fits(g, s) && g != []
    ensures StmtsApart(ss) && LabelsInRange(ss)
  {
    LoweredGraphIff(ss);
    LoopHeaders.LoweredLiveness(ss, symbols);
    ApartDistinct(ss);
    hide GenStmts, StmtsApart, DistinctLabels, GoodBlock, BlockSolved, PlainProgram, Lva, InRange;
  }

  /** Wherever a symbol is written, its interval overlaps those of the symbols that are live behind the
      write by the sets of the blocks. */
  ghost predicate LongEnough(code: seq<Ins>, g: Cfg, s: Sets) {
    Fits(g, s) && |CodeLive(g, s)| == |code| + 1 && LiveOverlap(code, CodeLive(g, s))
  }

  /** If lva leaves the in of the entry empty, and its sets find the intervals long enough, the
      allocated program does what the program does, on every input and for any number of steps. */
  lemma LoweredAllocationPreserves(ss: Stmts, g: Cfg, symbols: nat, s: Sets, list: seq<nat>, count: nat, input: seq<int>, n: nat)
    requires Analyzed(ss, g, symbols, s) && Fits(g, s) && g != []
    requires s.ins[0] == {} && LongEnough(GenStmts(ss), g, s)
    requires count > 0 && RegisterAllocation.Listed(GenStmts(ss), list)
    ensures RegisterAllocation.SameBehaviour(
      Run(GenStmts(ss), RegisterAllocation.Start(input), n),
      Run(Allocation.RenameAll(GenStmts(ss), RegisterAllocation.Allocate(GenStmts(ss), list, count)), RegisterAllocation.Start(input), n))
  {
    var code, live := GenStmts(ss), CodeLive(g, s);
    assert LiveOverlap(code, live);
    hide *;
    AnalyzedSolves(ss, g, symbols, s);
    CodeSolved(code, g, s);
    NothingLive(code, g, s);
    SolvedClosed(code, live);
    AllocationPreserves(code, live, list, count, input, n);
  }

  /** If lva leaves the in of the entry empty, every operand has a start when the intervals are
      built: the assertions there hold. */
  lemma LoweredReadsStarted(ss: Stmts, g: Cfg, symbols: nat, s: Sets)
    requires Analyzed(ss, g, symbols, s) && Fits(g, s) && g != [] && s.ins[0] == {}
    ensures AllStarted(GenStmts(ss), |GenStmts(ss)|)
  {
    var code, live := GenStmts(ss), CodeLive(g, s);
    hide *;
    AnalyzedSolves(ss, g, symbols, s);
    CodeSolved(code, g, s);
    NothingLive(code, g, s);
    LoweredEntered(ss);
    LiveAllStarted(code, live);
  }

  lemma LiveAllStarted(code: seq<Ins>, live: LiveSets)
    requires SolvesCode(code, live) && live[0] == {} && Entered(code)
    ensures AllStarted(code, |code|)
  {
    forall k: nat | k < |code| ensures ReadsStarted(code, k) {
      LiveStarted(code, live, k);
    }
    hide SolvesCode, Entered, ReadsStarted;
  }

  lemma LiveStarted(code: seq<Ins>, live: LiveSets, k: nat)
    requires SolvesCode(code, live) && live[0] == {} && Entered(code) && k < |code|
    ensures ReadsStarted(code, k)
  {
    assert Uses(code[k]) <= live[k];
    forall v: nat | v in Uses(code[k]) ensures FirstDef(code, v, k) > 0 {
      StartedBefore(code, live, k, v);
    }
    hide Uses, Entered, SolvesCode, FirstDef;
  }

  lemma StartedBefore(code: seq<Ins>, live: LiveSets, k: nat, v: nat)
    requires SolvesCode(code, live) && live[0] == {} && Entered(code) && k < |code| && v in live[k]
    ensures FirstDef(code, v, k) > 0
  {
    hide SolvesCode, Entered;
    LiveBegins(code, live, k, v);
    assert v in Defs(code[FirstDef(code, v, |code|) - 1]);
  }

  /** Intervals that reach every jump back to a loop header where the symbol is live are long enough. */
  lemma LoweredSpannedEnough(ss: Stmts, g: Cfg, symbols: nat, s: Sets)
    requires Analyzed(ss, g, symbols, s) && Fits(g, s) && g != []
    requires s.ins[0] == {} && LoopsSpanned(GenStmts(ss), g, s)
    ensures LongEnough(GenStmts(ss), g, s)
  {
    var live := CodeLive(g, s);
    AnalyzedSolves(ss, g, symbols, s);
    CodeSolved(GenStmts(ss), g, s);
    SpannedByBlocks(GenStmts(ss), g, s);
    NothingLive(GenStmts(ss), g, s);
    LoweredEntered(ss);
    hide Analyzed, SolvesCode, Entered, BackSpanned, LoopsSpanned, LiveOverlap, GenStmts, CodeLive;
    SpannedOverlap(GenStmts(ss), live);
  }

  lemma NothingLive(code: seq<Ins>, g: Cfg, s: Sets)
    requires GraphOf(code, g) && Solves(g, s) && g != [] && s.ins[0] == {}
    ensures |CodeLive(g, s)| == |code| + 1 && CodeLive(g, s)[0] == {}
  {
    BlockStart(code, g, s, 0);
    assert Offset(Insns(g), 0) == 0;
    hide CodeLive;
  }

  lemma SolvedClosed(code: seq<Ins>, live: LiveSets)
    requires SolvesCode(code, live)
    ensures Closed(code, live)
  {
    hide LiveIn;
  }

  /** They reach those jumps if and only if they cover every instruction at which
      a symbol is live. */
  lemma LoweredSpannedIff(ss: Stmts, g: Cfg, symbols: nat, s: Sets)
    requires Analyzed(ss, g, symbols, s) && Fits(g, s) && g != [] && s.ins[0] == {}
    ensures |CodeLive(g, s)| == |GenStmts(ss)| + 1
    ensures LoopsSpanned(GenStmts(ss), g, s) <==> IntervalsCover(GenStmts(ss), CodeLive(g, s))
  {
    var live := CodeLive(g, s);
    hide *;
    AnalyzedSolves(ss, g, symbols, s);
    CodeSolved(GenStmts(ss), g, s);
    SpannedByBlocks(GenStmts(ss), g, s);
    NothingLive(GenStmts(ss), g, s);
    LoweredEntered(ss);
    SpannedIff(GenStmts(ss), live);
  }
}
