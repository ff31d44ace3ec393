# milac, modelled and proved in Dafny

milac compiles Mila, a small Pascal-like language, to Louden's TINY machine, and the same repository
holds the machine that runs the output. This project models the five parts of the compiler in which
something can go wrong quietly, and proves what each of them is for.

`dafny verify dfyconfig.toml` checks the whole project.

## The parts

Integers are unbounded. The input is a list, the output a trace. A division by zero, and a read from an
exhausted input, leave the program without a next state: it is stuck. A condition holds when its value is
positive. C lists are sequences, the register count is a parameter, and a pointer to a block is the
position of the block.

1. **Register allocation** (`LinearScan`, `LinearScanOptimal`, `ScanChoices`, `Stack`, `Allocator`, `Intervals`,
   `IntervalCounts`, `Allocation`, `RegisterAllocation`, `LoopAllocation`, `LoweredAllocation`, `LoopCounterexample`). The scan
   keeps its invariant in every reachable state and spills as little as any assignment could. The program on
   locations does what the program on symbols does, loops included, under a condition on the code and its
   live symbols that holds exactly when every way to separate overlapping intervals separates live symbols;
   for lowered programs it is read off from the sets of `lva`.
2. **Lowering and the control-flow graph** (`Ast`, `TreeBuilder`, `Folding`, `Frontend`, `Lowering`, `LoweringSim`,
   `Labels`, `Emitter`, `BasicBlocks`, `BlockSteps`, `Predecessors`, `PredecessorOrder`, `BlockGraph`, `GraphLimits`, `FlowRun`,
   `BlockBuilder`, `LoweredBlocks`). Parsing with the folding constructors, lowering, and `bb_build` each
   preserve meaning in both directions, divergence included. `bb_build` builds the control-flow graph
   exactly when no empty block is opened by a label, a test or a jump; for lowered programs that is a
   condition on the source program.
3. **Liveness and optimization** (`BitSets`, `Liveness`, `LivenessFixpoint`, `LivenessLimits`,
   `LivenessSound`, `LoopHeaders`, `LivenessPass`, `InsLiveness`, `Optimize`, `OptimizeExact`,
   `OptimizePass`, `Pipeline`). The in-place iteration ends,
   at the least solution on every graph whose loop headers are guarded, which graphs of lowered programs
   are; a solution is sound over whole runs; simplification followed by dead-assignment removal keeps the
   trace of every run of every graph. `Pipeline` puts the front end, the graph and these passes together:
   from the program as written to its optimized graph, in both directions, divergence included.
4. **Code generation and the machine** (`Tm`, `TmRun`, `Spares`, `SpareCode`, `SpareBlocks`, `SpareEnds`,
   `SpareExact`, `SpareSweep`, `SweepConditions`, `SweepCounterexample`, `SweepSpared`, `Handover`, `Generator`, `BackPatch`,
   `LoweredJumps`, `JumpEmitter`, `LoweredShape`, `MachineCode`, `CodeBlocks`, `GenPass`, `MachineSim`,
   `MachineRun`, `WholeMachine`,
   `Assembler`, `Loader`, `LoaderText`). The code of a block, run by `stepTM`, keeps every symbol where the descriptors say;
   the boundary stores that are left out cannot be noticed; every jump of a lowered program lands; and the
   printed program is loaded back as it was emitted. `WholeMachine` joins all stages, for optimization level
   0: the machine code of a program without loops gives the output of the program, and fails exactly where
   the program is stuck.
5. **The hash table** (`Association`, `HashTable`, `SymbolTable`). Linked chains that agree, for every key
   outside slot 0, with an association in which the entry inserted first wins.

Each pass that works in place is given twice: as functions, about which the properties are proved, and in the
compiler's own form (classes, arrays, loops, linked nodes), proved to compute exactly those functions. `ThreeAddress` holds the
three-address code and its meaning, which all passes share; `Operators` says in arithmetic what its operators, and
the instructions of the machine, compute.

## Where the code does not do what it is meant to

These are results, each with a proof:

- `new_loop` drops a loop whose condition is a positive constant: `TreeBuilder.NewLoopDrops`.
- Folding may leave nothing of the branch or the body of a statement that stays, as in
  `if n > 0 then while 0 do write n`, and the compiler then reads through a null pointer; when it does is
  `Folding.BuildStmtsExact`.
- `bb_build` puts a label, test or jump that opens an empty block into that block: `GraphLimits.BuildsGraphIff`
  and, for source programs, `LoweredBlocks.LoweredGraphIff`.
- `lva` stops one pass early on some graphs that `bb_build` does not build: `LivenessLimits.StopsEarly`.
- Intervals ignore back edges, so a loop may read a symbol whose register has been given away:
  `LoopCounterexample.LoopNotPreserved`; the condition is `LoopAllocation.OverlapIff`.
- `lva_bb` leaves the operands of the last instruction of a block out of its sets, and `free_regs` drops
  them without a store: `SweepCounterexample.SweepLoses`. When the sets contain what is live is
  `InsLiveness.CoversIff`; when the registers lose a value, on some machine, is
  `SweepConditions.SweepsSafeIff`.
- A comparison used as a value, as in `write a < b`, gives the difference of its operands:
  `SpareEnds.ComparisonExact`.
- `opt_algebra` turns `1 / x` into `x`: `Optimize.SimplifyExact`.
- `gen_inc` turns `1 - x` into `x - 1`: `SpareCode.ReversedExact`.
- Tests for equality and inequality jump the wrong way: `SpareEnds.TestExact`, `SpareEnds.EqualityInverted`.
- A key of hash slot 0 is never found: `Association.LookupMeaning`. Removing a head with successors returns
  nothing: `Association.RemovalReturns`. A removal may compare with a null key: `Association.RemovalFaultsIff`.

## Model

| member | source | states |
|---|---|---|
| `Stacks.Stack.constructor` | src/stack.c:17-40 | a new stack is empty, with room for the size asked for but at least ten |
| `Stacks.Stack.NotEmpty` | src/stack.c:63-69 | true exactly when something is on the stack |
| `Stacks.Stack.Push` | src/stack.c:72-88 | the entry is on top and everything below is untouched; the room doubles exactly when one cell is left |
| `Stacks.Stack.Pop` | src/stack.c:90-104 | the last entry pushed comes back and the rest stays; nothing comes back from an empty stack |
| `LinearScan.AddActiveSorted` | src/regalloc.c:273-296 | insertion keeps the active list sorted by end |
| `LinearScan.ExpireKeeps` | src/regalloc.c:256-271 | expiry hands every ended register back, and the allocation invariant holds at the new start |
| `LinearScan.SpillKeeps` | src/regalloc.c:298-316 | spilling the interval that ends last keeps the invariant, whichever of the two intervals loses |
| `LinearScan.StepKeeps` | src/regalloc.c:332-349 | one interval of the scan keeps the invariant |
| `LinearScan.ScanKeeps` | src/regalloc.c:318-349 | in every reachable state active is sorted by end, free and active registers are a permutation of 0..count-1, and overlapping intervals never share a register |
| `LinearScanOptimal.CrowdFits` | src/regalloc.c:256-316 | no valid assignment keeps more intervals alive at one point than there are registers |
| `LinearScanOptimal.SpillStepAhead` | src/regalloc.c:298-316 | the exchange argument: evicting the furthest end never falls behind any other assignment |
| `LinearScanOptimal.ScanOptimal` | src/regalloc.c:256-349 | no assignment that separates overlapping intervals keeps more intervals in registers than the scan does |
| `ScanChoices.ExpireExact` | src/regalloc.c:256-271 | exactly the intervals that ended before the point leave the active list, and their registers go on top of the pool in the order in which they ended |
| `ScanChoices.AddActiveExact` | src/regalloc.c:273-296 | an interval goes behind those that end at the same point |
| `ScanChoices.SpillExact` | src/regalloc.c:298-316 | the new interval is spilled exactly if no active one ends later; otherwise it gets the register of the last active one, which is spilled, and no other register changes |
| `ScanChoices.StepExact` | src/regalloc.c:332-349 | with a register free the interval gets the one freed last |
| `ScanChoices.FirstComeExact` | src/regalloc.c:237-254 | as long as no interval has ended the registers are given out in their order |
| `Allocators.SpilledMonotone` | src/regalloc.c:351-364 | memory slots are counted up, so a later spilled symbol gets a larger slot |
| `ScanChoices.SlotsDense` | src/regalloc.c:351-364 | from zero on, without leaving one out |
| `Allocators.LocationsApart` | src/regalloc.c:318-364 | two intervals share a location only if both hold the same register and do not overlap |
| `Allocators.Allocator.constructor` | src/regalloc.c:237-254 | the free pool holds every register once, the active list is empty |
| `Allocators.Allocator.ExpireOld` | src/regalloc.c:256-271 | the list and stack operations do what the specification of expiry says |
| `Allocators.Allocator.AddActive` | src/regalloc.c:273-296 | the list walk inserts where the specification says |
| `Allocators.Allocator.Spill` | src/regalloc.c:298-316 | the in-place spill is the specified one |
| `Allocators.Allocator.ScanOne` | src/regalloc.c:332-349 | one interval in place is one step of the scan |
| `Allocators.Allocator.ScanAll` | src/regalloc.c:318-349 | the loop over all intervals computes the scan |
| `Allocators.Allocator.AssignSlots` | src/regalloc.c:351-364 | every spilled symbol gets the next memory slot, every other one its register, and just the latter are marked as assigned |
| `Allocators.Allocator.LinScan` | src/regalloc.c:318-367 | the whole pass leaves the locations that the scan chose, and marks the holders of registers |
| `Intervals.OccurrencesMeaning` | src/regalloc.c:44-137 | a symbol occurs in an instruction exactly when it is read or written there |
| `IntervalCounts.OccurrencesCount` | src/regalloc.c:44-137 | and is counted once for each operand that it is, the result included |
| `IntervalCounts.UseCountAdds` | src/regalloc.c:44-137 | use counts add up over the code |
| `IntervalCounts.ReadsExact` | src/lva.c:129-185 | an instruction writes its result and reads the other operands |
| `Intervals.IntervalTable.Visit` | src/regalloc.c:44-137 | one instruction updates start, end and use count of just the symbols that occur in it; the assertions hold exactly if its operands have starts |
| `Intervals.IntervalTable.Build` | src/regalloc.c:35-146 | start is the first definition, end the last occurrence, and the use count the number of occurrences, for every symbol; the assertions hold exactly if every operand was written further up |
| `Intervals.FillInterval` | src/regalloc.c:201-234 | the interval goes in front of the first one that starts later, so the list stays sorted by start |
| `Intervals.InsertSorted` | src/regalloc.c:201-234 | that insertion keeps the list sorted by start |
| `Intervals.InsertPermutes` | src/regalloc.c:201-234 | and loses and repeats nothing |
| `RegisterAllocation.ListIntervals` | src/regalloc.c:201-234 | the interval list holds every symbol that occurs, once, sorted by start |
| `RegisterAllocation.RegAlloc` | src/regalloc.c:318-398 | the pass as a whole gives every listed symbol the location of the specification |
| `RegisterAllocation.AllocateApart` | src/regalloc.c:35-146 | no two symbols whose intervals overlap share a location |
| `RegisterAllocation.AllocateAlone` | src/regalloc.c:351-364 | two symbols never share a memory slot |
| `Allocation.FindLabelRename` | src/regalloc.c:318-367 | renaming symbols moves no label |
| `Allocation.NextAgrees` | src/regalloc.c:35-146 | one step of the program on locations is one step of the program on symbols |
| `Allocation.RunAgrees` | src/regalloc.c:35-146 | any disciplined run of any length does the same on any assignment that keeps overlapping symbols apart |
| `RegisterAllocation.ForwardPreserves` | src/regalloc.c:35-367 | for programs that only jump forward a write before each read on the path is enough |
| `LoopAllocation.ColoredRuns` | src/regalloc.c:318-367 | if no write goes to a location that another live symbol has, the program on locations runs like the program on symbols, for any number of steps |
| `LoopAllocation.OverlapIff` | src/regalloc.c:35-146 | each write goes to a symbol whose interval overlaps those of the symbols live behind it, if and only if every assignment that separates overlapping intervals keeps live symbols apart |
| `LoopAllocation.AllocationPreserves` | src/regalloc.c:35-367 | under that condition on code and liveness, and if nothing is live at the start, running on the locations that linear scan chose gives the trace of running by name, loops and stuck states included, on every input and for any number of steps |
| `LoopAllocation.SpannedIff` | src/regalloc.c:35-146 | the intervals cover every point at which a symbol is live if and only if they reach every jump back to where it is live |
| `LoopAllocation.SpannedOverlap` | src/regalloc.c:35-146 | and then the condition holds |
| `LoopAllocation.ForwardOverlap` | src/regalloc.c:35-146 | for code that only jumps forward it always holds |
| `LoweredAllocation.CodeSolved` | src/lva.c:216-309 | the sets that lva leaves for the blocks, spread over the instructions, solve the equations of the linear code |
| `LoweredAllocation.LoweredAllocationPreserves` | src/regalloc.c:35-367 | lva and reg_alloc together: with the sets of lva on the graph of a lowered program the condition can be read off, and allocation keeps every run |
| `LoweredAllocation.LoweredSpannedEnough` | src/regalloc.c:35-146 | on that graph intervals that reach the jumps back are long enough |
| `LoweredAllocation.LoweredSpannedIff` | src/regalloc.c:35-146 | which they do if and only if they cover every instruction at which lva finds the symbol live |
| `LoweredAllocation.LoweredReadsStarted` | src/regalloc.c:44-137 | if lva finds nothing live at the entry, the assertions made while the intervals are built hold |
| `LoopCounterexample.TreeCode` | src/3ac.c:357-396 | the counterexample is lowered code: x := 1; read n; while n > 0 do begin write x; y := 5; write y; n := n - 1 end |
| `LoopCounterexample.TreeBuilt` | src/tree.c:301-490 | and its tree is what parsing builds |
| `LoopCounterexample.Scanned` | src/regalloc.c:318-349 | linear scan with three registers gives y the register of x |
| `LoopCounterexample.LoopNotPreserved` | src/regalloc.c:35-367 | so on input 3 it prints 1 5 2 after allocation where the program prints 1 5 1 |
| `LoopCounterexample.ConditionFails` | src/regalloc.c:35-146 | and whatever sets contain what is live, the condition does not hold for it |
| `Ast.ExecAppend` | src/tree.c:415-455 | executing spliced statement lists is executing one after the other |
| `TreeBuilder.BuildExprOk` | src/tree.c:345-413 | every temporary is made for one expression, and none is given out twice |
| `TreeBuilder.BuildExprValue` | src/tree.c:301-413 | an expression built bottom-up through the folding constructors has the value of the expression as written |
| `TreeBuilder.NewIfMeans` | src/tree.c:415-455 | a conditional with a constant condition is the branch that would be taken |
| `TreeBuilder.NewLoopMeans` | src/tree.c:457-490 | a loop that is not dropped with the warning means the same |
| `TreeBuilder.NewLoopDrops` | src/tree.c:457-490 | dropping a loop with a constant condition is right if and only if the condition is not positive |
| `TreeBuilder.BuildStmtsMeans` | src/tree.c:301-490 | a program built bottom-up runs like the program as written, unless the warning about an infinite loop was printed |
| `TreeBuilder.BuildStmtsLabels` | src/3ac.c:169-240 | no two statements own the same label, and labels are positive and bounded by the counter |
| `TreeBuilder.BuildStmtsOk` | src/3ac.c:169-240 | the built program meets what lowering asks of temporaries |
| `Operators.ApplyExact` | src/tree.c:301-343 | for all operands an operator gives v exactly when v is the sum, the difference, the product, the quotient truncated toward zero, or one where the comparison holds and zero where not; only a division by zero gives nothing |
| `Operators.QuotientExact` | src/tree.c:315-317 | a number is the quotient exactly if what it leaves over is smaller than the divisor and zero or of the sign of the dividend |
| `Folding.FoldExact` | src/tree.c:345-379 | two constants become the constant that the operator computes, with nothing handed out |
| `Folding.NegationShared` | src/tree.c:381-413 | a negation is a multiplication by minus one, folded for constants only, and asking again gives the same node and takes no new temporary |
| `Folding.IfLabels` | src/3ac.c:222-231 | a conditional that stays takes the next label, or the next two if it has an else, the end before the else |
| `Folding.LoopLabels` | src/3ac.c:233-239 | a loop that stays takes the next two |
| `Folding.FoldsExactly` | src/tree.c:301-413 | folding is complete: an expression becomes a constant if and only if no variable occurs in it, and the compiler faults if and only if a part without variables has no value |
| `Folding.TempsDense` | src/tree.c:345-413 | no number of a temporary is left out |
| `Folding.BuildStmtsExact` | src/tree.c:415-490 | statements are built if and only if they do not crash, leave nothing if and only if they vanish, and cause one warning for each loop on a positive constant |
| `Folding.CompilesIff` | src/tree.c:301-490 | which programs compile: a condition on the program as written, read off without building anything |
| `Emitter.NodeFactory.NewBinop` | src/tree.c:301-379 | the constructor in place, with its counters and tables, is the specified one; for two constants it returns the constant that the operator computes and changes nothing |
| `Emitter.NodeFactory.NewUnop` | src/tree.c:381-413 | likewise, with the table that returns an earlier node for the same operand |
| `Emitter.NodeFactory.NewIf` | src/tree.c:415-455 | likewise |
| `Emitter.NodeFactory.NewLoop` | src/tree.c:457-490 | likewise, and the warning is counted |
| `Emitter.TacCode.Push` | src/3ac.c:242-438 | every pushed instruction carries the next number, starting at one |
| `Emitter.TacCode.GenExpr` | src/3ac.c:263-300 | operands first, left to right, then the operation into the temporary of the node |
| `Emitter.TacCode.GenIf` | src/3ac.c:302-355 | the recursive generator pushes the specified code of a conditional |
| `Emitter.TacCode.GenLoop` | src/3ac.c:357-396 | the recursive generator pushes the specified code of a loop |
| `Emitter.TacCode.GenAll` | src/3ac.c:398-438 | and of all siblings; ids are exactly 1..count in order |
| `Lowering.EvalAgrees` | src/3ac.c:169-240 | an expression has one value in states that agree on the user symbols |
| `Lowering.ResultSurvives` | src/3ac.c:263-300 | a temporary is never clobbered between its write and its use, though equal expressions share it |
| `Lowering.ExprSim` | src/3ac.c:263-300 | the code of an expression leaves its value, or is stuck where the evaluation is, and changes no user symbol |
| `LoweringSim.IfThenSim` | src/3ac.c:302-355 | simulation of a conditional without else |
| `LoweringSim.IfElseSim` | src/3ac.c:302-355 | simulation of a conditional with else |
| `LoweringSim.WhileSim` | src/3ac.c:357-396 | simulation of a loop through any number of iterations |
| `LoweringSim.StmtsSim` | src/3ac.c:398-438 | simulation of a statement list, nested to any depth |
| `LoweringSim.LoweringPreserves` | src/3ac.c:242-438 | whatever the tree does within any loop budget its code does: same outputs, input and user variables, same kind of end |
| `LoweringSim.LoweringReflects` | src/3ac.c:242-438 | and nothing else: a run of the code that ends or is stuck is a run of the tree |
| `Labels.StmtsCounts` | src/3ac.c:242-396 | every label of a tree is defined exactly once and jumped to exactly once in its code, and no other label occurs |
| `Labels.ApartDistinct` | src/3ac.c:242-396 | so labels in lowered code are distinct |
| `Frontend.CompilesWell` | src/tree.c:301-490 | what parsing builds meets everything that lowering assumes |
| `Frontend.FrontendPreserves` | src/3ac.c:440-461 | from the program as written to three-address code: everything it does is done |
| `Frontend.FrontendReflects` | src/3ac.c:440-461 | every final run of the code is one of the program as written |
| `Frontend.FrontendDiverges` | src/3ac.c:440-461 | the program runs forever if and only if its code does |
| `BasicBlocks.FlattenCut` | src/3ac.c:483-497 | cutting code into blocks and reading them in order gives the code back |
| `BasicBlocks.FindLabelBlock` | src/3ac.c:508-518 | searching the blocks for a label finds the block that was made for it |
| `BlockSteps.PlainStep` | src/3ac.c:585-588 | placing an ordinary instruction keeps the graph in shape |
| `BlockSteps.LabelAfterJump` | src/3ac.c:501-506 | a label after a TJMP goes into the empty block that is already current |
| `BlockSteps.LabelStep` | src/3ac.c:508-524 | a label opens its block, with a fall-through edge from the current one |
| `BlockSteps.JumpStep` | src/3ac.c:526-558 | an unconditional jump ends its block, with one jump edge and no fall-through edge |
| `BlockSteps.TestStep` | src/3ac.c:560-585 | a test ends its block, with a jump edge and a fall-through edge |
| `Predecessors.TestedExact` | src/3ac.c:560-585 | the two new edges of a test enter the two predecessor lists and no other |
| `PredecessorOrder.PredecessorsInOrder` | src/3ac.c:20-33 | predecessors are listed in the order of the text |
| `PredecessorOrder.AddExact` | src/3ac.c:21-31 | there is room for sixteen; further ones are dropped |
| `BlockGraph.BuiltGraph` | src/3ac.c:463-597 | the construction succeeds, blocks in order are the code, next, jmp and pred are exactly the control edges |
| `BlockGraph.TwoPredecessors` | src/3ac.c:463-597 | no block has more than two predecessors when each label is jumped to once |
| `GraphLimits.BuildsGraphIff` | src/3ac.c:499-506 | the graph is right if and only if no empty block is opened by a label, a test or a jump |
| `FlowRun.StepAgrees` | src/3ac.c:463-597 | one instruction of the graph is one instruction of the code, stuck states included |
| `FlowRun.RunsAgree` | src/3ac.c:463-597 | graph and code run in lock step for any number of steps, in both directions |
| `BlockBuilder.BlockCode.MakeBlocks` | src/3ac.c:478-497 | one block for the entry and one for each label and each test, in order |
| `BlockBuilder.BlockCode.Find` | src/3ac.c:510-517 | the first block with the id |
| `BlockBuilder.BlockCode.PlaceNext` | src/3ac.c:501-588 | the body of the second loop is the specified placement, faults included |
| `BlockBuilder.BlockCode.Build` | src/3ac.c:463-597 | both loops together build the specified graph |
| `LoweredBlocks.LoweredWellFormed` | src/3ac.c:302-396 | lowered code has distinct labels, defined targets, and a label after every unconditional jump |
| `LoweredBlocks.PlainProgramIff` | src/3ac.c:302-396 | which trees lower to code without a label, test or jump opening an empty block |
| `LoweredBlocks.LoweredGraphIff` | src/3ac.c:463-597 | the graph of a lowered program is right if and only if the program, every branch and every body start with something else than a loop or a bare test |
| `LoweredBlocks.LoweredPredecessors` | src/3ac.c:463-597 | its blocks have at most two predecessors |
| `LoweredBlocks.LoweredRunsAgree` | src/3ac.c:463-597 | its graph and its code run in lock step from any state |
| `BitSets.SetBitMembers` | src/bitset.h:41-44 | BITSET adds exactly one number, BITCLEAR takes exactly one away |
| `BitSets.Set` | src/bitset.h:43 | the byte array stands for the set with the number added |
| `BitSets.Clear` | src/bitset.h:44 | the byte array stands for the set without the number |
| `BitSets.Test` | src/bitset.h:45 | nonzero exactly for members |
| `Liveness.SummaryComposes` | src/lva.c:10-18 | use + (out - def) of the forward scan is the backward fold of the single instructions, for every block and every out |
| `Liveness.VisitSupported` | src/lva.c:236-291 | processing a block never puts more into a set than the equations justify, and sets only grow |
| `Liveness.VisitBelow` | src/lva.c:236-291 | and keeps every set below every solution |
| `LivenessFixpoint.PassProgress` | src/lva.c:231-309 | a pass that changes an out leaves fewer symbols missing, so the loop ends |
| `LivenessFixpoint.AtRest` | src/lva.c:293-307 | where loop headers are guarded, a pass that changes no out has found a solution |
| `LivenessFixpoint.LvaLeast` | src/lva.c:216-309 | on guarded graphs lva ends at the least solution of the equations |
| `LivenessLimits.StopsEarly` | src/lva.c:293-307 | on an unguarded graph it stops one pass early, away from any solution |
| `LivenessLimits.SparedSolved` | src/lva.c:293-307 | guards are not needed by the shape of the graph alone: on one without them lva ends at a solution whatever its blocks contain |
| `LivenessSound.SameEffect` | src/lva.c:129-185 | an instruction does the same from states that agree on what is live before it |
| `LivenessSound.RunsSame` | src/lva.c:129-291 | states that agree on the live symbols run alike through any number of loops |
| `LivenessSound.LiveInSound` | src/lva.c:241-291 | states that agree on in of a block produce the same trace from it on every input |
| `LoopHeaders.StmtsForward` | src/3ac.c:357-396 | lowered code never jumps back to a label that follows an unconditional jump |
| `LoopHeaders.GraphGuarded` | src/3ac.c:508-524 | so every loop header has a fall-through predecessor with no other successor |
| `LoopHeaders.LoweredLiveness` | src/lva.c:216-309 | on the graph of a lowered program lva ends at the least solution |
| `LoopHeaders.LoweredLiveInSound` | src/lva.c:216-309 | and what it leaves out of in cannot influence the run |
| `LivenessPass.Merge` | src/lva.c:264-288 | the bit loop adds the in of a successor |
| `LivenessPass.Flow` | src/lva.c:243-260 | the bit loop computes use + (out - def) in place |
| `LivenessPass.Differs` | src/lva.c:293-306 | the comparison loop finds a difference exactly when there is one |
| `LivenessPass.ScanOne` | src/lva.c:132-184 | the use and def bits of one instruction, reads before the write |
| `LivenessPass.DefUse` | src/lva.c:129-185 | the scan of a block leaves its summary in the two arrays |
| `LivenessPass.LiveTable.constructor` | src/lva.c:28-54 | four zeroed arrays for each block, all distinct |
| `LivenessPass.LiveTable.DefUseAll` | src/lva.c:187-196 | the summaries of all blocks |
| `LivenessPass.LiveTable.VisitBlock` | src/lva.c:236-307 | the loop body updates the arrays of its block only, as specified, and reports a changed out |
| `LivenessPass.LiveTable.RunPass` | src/lva.c:233-308 | one pass in reverse order is the specified pass |
| `LivenessPass.LiveTable.Solve` | src/lva.c:231-309 | the while loop ends and leaves what the specification computes |
| `LivenessPass.Analyze` | src/lva.c:216-322 | the whole analysis from allocation to the result |
| `InsLiveness.LvaBB` | src/lva.c:341-417 | the set of an instruction is the out of its block and the symbols of the instructions from its predecessor on, but for the last one; an empty block gets no sets |
| `InsLiveness.InsOutExact` | src/lva.c:341-417 | a symbol is in that set if and only if it is in the out of the block or some instruction from the one before on, but not the last, reads or writes it |
| `InsLiveness.CoversIff` | src/lva.c:341-417 | these sets contain what is live behind every instruction if and only if what the last instruction reads is live behind the block or occurs in one of the two instructions before it |
| `Optimize.SimplifyKeeps` | src/optimize.c:27-136 | a rewritten instruction has the effect of the original one in every state |
| `Optimize.SimplifyExact` | src/optimize.c:106-121 | the rewriting is right in every state if and only if it does not turn 1 / x into x |
| `OptimizeExact.AlgebraLaws` | src/optimize.c:38-131 | the laws that are applied, for every other operand |
| `OptimizeExact.RewrittenIff` | src/optimize.c:38-131 | and an instruction is rewritten if and only if one of them has something to say about it; its result stays |
| `Optimize.AlgebraKeepsRuns` | src/optimize.c:27-146 | step for step the simplified graph does what the graph does |
| `Optimize.StripPreserves` | src/optimize.c:148-226 | every run of a graph is a run of the stripped one, without the removed steps |
| `Optimize.StripReflects` | src/optimize.c:148-226 | every run of the stripped graph comes from a run of the graph and can go on exactly when that one can |
| `OptimizeExact.MarkedExact` | src/optimize.c:163-194 | a use bit is set if and only if some instruction of the graph reads the symbol or reads input into it |
| `OptimizeExact.UnusedExact` | src/optimize.c:148-226 | exactly the assignments to symbols without one are gone; everything else stays, in its order, and so do the edges |
| `Optimize.OptimizedPreserves` | src/optimize.c:233-240 | the passes in sequence keep the trace of every run of every graph, loops included; where the graph ends so does the optimized one, and where it is stuck likewise |
| `Optimize.OptimizedReflects` | src/optimize.c:233-240 | and add no behaviour, no end and no stuck state, and do not turn one into the other |
| `Optimize.OptimizedCode` | src/optimize.c:233-240 | whatever linear code does, the optimized graph of that code does, its end and its stuck states included |
| `Pipeline.SourcePreserved` | src/optimize.c:27-226 | from the program as written to its optimized graph: whatever the program does within any loop budget, the graph does; it stops behind the last block where the program ends, and at an instruction where the program is stuck |
| `Pipeline.SourceReflected` | src/optimize.c:27-226 | and where the optimized graph comes to its end the program ends, and where the graph is stuck the program is stuck, with the same trace |
| `Pipeline.SourceDiverges` | src/optimize.c:27-226 | the program runs forever if and only if its optimized graph does |
| `Pipeline.WalkIsRun` | src/3ac.c:463-597 | stepping through a graph with explicit hops at block ends is running it |
| `OptimizePass.Optimizer.SimplifyBlock` | src/optimize.c:27-136 | the loop over a block rewrites each instruction in place |
| `OptimizePass.Optimizer.AlgebraPass` | src/optimize.c:138-146 | every block is rewritten |
| `OptimizePass.Optimizer.MarkAll` | src/optimize.c:163-194 | the use bits are the symbols that some instruction reads, and the targets of TIN |
| `OptimizePass.Optimizer.FlagBlock` | src/optimize.c:196-205 | an instruction is flagged exactly when it assigns to a symbol without a use bit |
| `OptimizePass.Optimizer.RemoveFlagged` | src/optimize.c:207-221 | unlinking keeps the other instructions, in order |
| `OptimizePass.Optimizer.RemoveAll` | src/optimize.c:196-221 | the two loops together, on every block |
| `OptimizePass.Optimizer.UnusedPass` | src/optimize.c:148-226 | the three loops together are the specified removal: of each block just the assignments to symbols that nothing needs are gone |
| `Operators.PutsExact` | src/tm.c:399-423 | what an instruction leaves in its register, for every content of the machine: sums, products, the quotient truncated toward zero, shifts as repeated doubling and halving, loads; nothing else changes, and it fails just on a zero divisor or an address outside memory |
| `Operators.JumpExact` | src/tm.c:424-429 | a jump is taken if and only if its register has the relation to zero that it asks for, and does nothing else |
| `Operators.MoveExact` | src/tm.c:368-419 | input, output, store and halt |
| `Operators.StepExact` | src/tm.c:326-345 | a step takes the instruction under the program counter; the model differs from the code at location 1024 |
| `TmRun.PlainStep` | src/tm.c:326-434 | an instruction that is no jump does not depend on the program counter |
| `TmRun.RunsThrough` | src/tm.c:326-434 | straight-line code runs through under stepTM, to the location behind it |
| `Spares.FindRegTotal` | src/gen.c:95-136 | with three registers and two exclusions find_reg never returns -1 |
| `SpareExact.ChosenExact` | src/gen.c:98-126 | it takes the first empty register, or else the first that holds neither of the excluded symbols |
| `SpareExact.FindRegExact` | src/gen.c:95-136 | it emits one store if the register held a symbol, and one load unless the new symbol has never had a value |
| `Spares.FindRegKeeps` | src/gen.c:95-136 | the symbol gets a register and the excluded operands keep theirs |
| `Spares.EvictOk` | src/gen.c:114-124 | after the store the evicted symbol is in its memory slot and everything else where it was |
| `Spares.LoadOk` | src/gen.c:33-51 | after the load the symbol is in its register and everything else where it was |
| `SpareCode.GetReg3Ok` | src/gen.c:138-152 | all operands are in registers at once: none is evicted for another |
| `SpareCode.BinOk` | src/gen.c:204-241 | an arithmetic instruction through spare registers does what it means |
| `SpareCode.IncOk` | src/gen.c:191-218 | so does incrementing or decrementing in place |
| `SpareCode.ReversedExact` | src/gen.c:209-218 | one minus x into x is compiled to a decrement, which is right if and only if x is one |
| `SpareCode.InOk` | src/gen.c:335-338 | input reaches the register of its symbol |
| `SpareCode.OutOk` | src/gen.c:340-343 | output prints the value of its symbol or constant |
| `SpareCode.AssignConstOk` | src/gen.c:349-356 | a constant assignment |
| `SpareCode.AssignSymOk` | src/gen.c:357-363 | a copy as zero plus the other register, which needs two distinct registers |
| `SpareCode.GenOk` | src/gen.c:320-365 | whatever the spare registers hold, the code of an instruction does on the machine what the instruction means, or is stuck with it |
| `SpareExact.GenExact` | src/gen.c:320-365 | the code of an instruction is loads and stores, and then the instruction that does the work on the registers of its operands: INC or DEC for a step by one, ADD, SUB, MUL or DIV, IN, OUT, LDC, or LDC and ADD for a copy; nothing for a symbol assigned to itself |
| `SpareExact.ByOneCheap` | src/gen.c:191-218 | a step by one takes no register for the constant |
| `SpareBlocks.GenTotal` | src/gen.c:320-365 | code is generated for every such instruction |
| `SpareBlocks.BlockOk` | src/gen.c:320-365 | for instructions generated one after the other, from any contents of the spare registers, the machine ends with every symbol in its register if resident and in its memory slot otherwise |
| `SpareBlocks.BlockOnMachine` | src/tm.c:326-434 | and so under stepTM: after as many steps as its code has instructions the machine is behind it, or it is stuck exactly where the block is |
| `SpareEnds.BoundaryOk` | src/gen.c:53-74 | after the boundary stores the registers are free and every live symbol is in place |
| `SpareExact.BoundaryExact` | src/gen.c:53-74 | there is one store for each register that holds a live symbol, in the order of the registers, and no other |
| `SpareEnds.TestExact` | src/gen.c:282-309 | the jump skips the guarded code when the condition is false, for exactly the four orderings |
| `SpareEnds.EqualityInverted` | src/gen.c:284-292 | for TEQ and TNEQ the jump goes the wrong way on every pair of operands |
| `SpareEnds.CompareOk` | src/gen.c:243-265 | a comparison leaves the difference of its operands |
| `SpareEnds.ComparisonExact` | src/gen.c:243-265 | as a value the result of a comparison is right if and only if the difference is the truth value |
| `SpareEnds.TestOk` | src/gen.c:272-280 | operands and stores in front of the jump of a test: every live symbol is in place and the difference is in the tested register |
| `SpareEnds.TestRuns` | src/gen.c:272-318 | comparison, stores and jump run by stepTM: the machine is at the label if the jump is taken on the difference, and behind the jump otherwise |
| `SpareEnds.OrderingRuns` | src/gen.c:272-318 | so for the four orderings it is at the label exactly when the condition is false |
| `SpareSweep.SweepOk` | src/gen.c:76-93 | losing registers does no harm to symbols that the block has not written, that are in the set, or that are not live |
| `SpareExact.SweptExact` | src/gen.c:76-93 | a register is given up if and only if it holds a symbol that is not in the set |
| `SpareSweep.GenClean` | src/gen.c:95-365 | the code of an instruction leaves memory up to date for every symbol that the block has not written |
| `Handover.BoundaryHarmless` | src/gen.c:53-74 | the stores left out for symbols that are not live cannot be noticed in any run of the rest |
| `SweepConditions.LoweredOut` | src/gen.c:444-454 | the set that free_regs consults for an instruction of the code is the one that lva_bb computes for it in its block |
| `SweepConditions.RenamedOut` | src/gen.c:76-93 | on locations the set is the image of the set of symbols |
| `SweepConditions.SameAnswer` | src/gen.c:76-93 | for a symbol with a memory slot, asking for its location is asking for the symbol |
| `SweepConditions.SweepExact` | src/gen.c:76-93 | for any contents of the spare registers: nothing is lost on any machine if and only if each live symbol whose value is only in its register is in the set |
| `SweepConditions.SweepsSafeIff` | src/gen.c:444-454 | free_regs takes no register from a live symbol whose value is nowhere else, if and only if on every machine that agrees with the program before it, with memory up to date but for what the block has written and not stored since, it leaves a machine that agrees |
| `SweepConditions.LoweredSafeIff` | src/gen.c:444-454 | so it is for every program that is compiled: where the condition fails some machine that agrees with the program before free_regs does not agree after it |
| `SweepConditions.LastEnough` | src/gen.c:444-454 | a condition on the text is enough: each symbol that the last instruction of a block needs, and that the block has written, is in the set of the instruction before |
| `SweepConditions.LoweredLastEnough` | src/gen.c:444-454 | also for programs that are compiled |
| `SweepSpared.TextRejects` | src/gen.c:112-131 | but it is not needed: code in which find_reg stores the symbol before free_regs could lose it |
| `SweepCounterexample.TreeBuilt` | src/tree.c:301-490 | x := 5; a := 1; b := 2; c := 3; write a; write b; write c; write x parses to its tree |
| `SweepCounterexample.Scanned` | src/regalloc.c:318-349 | four intervals overlap, and linear scan spills x |
| `SweepCounterexample.SweepLoses` | src/gen.c:76-93 | its machine code prints 1 2 3 1023, since x loses its register without a store, where the program prints 1 2 3 5 |
| `SweepCounterexample.ConditionFails` | src/lva.c:341-417 | and free_regs takes the register of x while x is live and its value is nowhere else |
| `MachineCode.ItemsTotal` | src/gen.c:427-463 | code is generated for every instruction of a whole program, and a spilled symbol that was written further up is never taken for an empty one |
| `MachineSim.PlainOk` | src/gen.c:444-455 | the code of an instruction with free_regs, and with the stores at the end of a block, does what the instruction means from any machine that agrees on what is live, if free_regs takes no register from a live symbol whose value is nowhere else |
| `MachineSim.ComparedOk` | src/gen.c:243-265 | so does that of a comparison, but that its result holds the difference that decides the jump |
| `MachineSim.TestItemOk` | src/gen.c:272-280 | operands that free_regs has dropped are found again without harm to the result, and at the jump every live symbol is in place |
| `MachineSim.JoinHolds` | src/gen.c:434-438 | where control joins, slots that only the text between has used may hold anything |
| `Generator.CodeGenerator.constructor` | src/gen.c:10 | the three spare registers start empty |
| `Generator.CodeGenerator.GenLoad` | src/gen.c:33-51 | the load, with the state of the symbol updated; the symbol is never already in a register |
| `Generator.CodeGenerator.Choose` | src/gen.c:98-126 | the first empty register, or else the first that is not excluded |
| `Generator.CodeGenerator.FindReg` | src/gen.c:95-136 | table, symbol fields and emitted code change as specified |
| `Generator.CodeGenerator.GetReg2` | src/gen.c:165-174 | the operands of an assignment |
| `Generator.CodeGenerator.GetReg3` | src/gen.c:138-152 | the operands of an operation |
| `Generator.CodeGenerator.GenBinop` | src/gen.c:204-270 | the emitted code is the specified one |
| `Generator.CodeGenerator.GenAssign` | src/gen.c:349-365 | the emitted code is the specified one |
| `Generator.CodeGenerator.GenIns` | src/gen.c:320-365 | the emitted code is the specified one for every instruction of a block |
| `Generator.CodeGenerator.BoundaryStores` | src/gen.c:53-74 | the loop emits the specified stores and gives every register up |
| `Generator.CodeGenerator.FreeRegs` | src/gen.c:76-93 | the loop gives up just the registers whose symbols are not in the set, and emits nothing |
| `GenPass.GenOne` | src/gen.c:320-424 | gen_ins and free_regs for any instruction: registers and emitted code are those behind it |
| `GenPass.GenBlock` | src/gen.c:434-457 | one block: lva_bb, its instructions, and the stores at its end if no jump has emitted them |
| `GenPass.Gen` | src/gen.c:427-463 | the loops emit exactly the items of the specification, and HALT |
| `SweepConditions.TargetBlocks` | src/gen.c:434-444 | the blocks of the graph of a program, on locations, with the sets that lva leaves, are what the main loop is called with |
| `SweepConditions.TargetPasses` | src/gen.c:427-463 | and what the main loop emits for them is the program that SourceOnMachine is about |
| `BackPatch.EmitTotal` | src/gen.c:367-419 | with every label defined once the jump list never leads into a fault |
| `BackPatch.ForwardLands` | src/gen.c:313-317 | a jump before its label gets the displacement when the label is reached, and keeps it |
| `BackPatch.BackLands` | src/gen.c:367-376 | a jump after its label is emitted with the displacement to it |
| `BackPatch.JumpsLand` | src/tm.c:421-429 | under stepTM every jump goes to the first instruction emitted after its label, and a failing test to the next one |
| `BackPatch.BackTestStays` | src/gen.c:313-317 | a test after its label is never patched and keeps operand registers as its displacement |
| `BackPatch.LoneJumpStays` | src/gen.c:378-386 | a jump whose label never comes keeps the location 0 that it was emitted with |
| `BackPatch.BodyStays` | src/gen.c:391-408 | code in front of a jump is in the finished program as and where it was emitted |
| `BackPatch.FinishedGood` | src/gen.c:320-424 | every instruction of the finished program is one that the loader accepts |
| `LoweredJumps.StmtsForward` | src/3ac.c:302-396 | in lowered code every test comes before its label |
| `LoweredJumps.LoweredJumpsLand` | src/gen.c:320-424 | so every jump of a compiled program lands, whatever code is emitted in between |
| `LoweredShape.LoweredForward` | src/3ac.c:302-355 | the code of a program without loops only jumps forward |
| `LoweredShape.StmtsPlaced` | src/3ac.c:263-396 | in lowered code each test follows its comparison, no operation computes into an operand, and a temporary is read where it was computed, with no jump or label in between |
| `MachineRun.StepOn` | src/tm.c:326-434 | one step of the code on locations is some steps of stepTM, for every kind of instruction |
| `MachineRun.RunsOn` | src/tm.c:326-434 | so whatever the code does in any number of steps the machine does |
| `MachineRun.StuckBreaks` | src/tm.c:326-434 | where the code is stuck the machine stops with an error and has put out nothing more |
| `MachineRun.MachineEnds` | src/gen.c:427-463 | the machine halts with the output and the remaining input of the code, or stops with an error where the code is stuck, with the same output |
| `WholeMachine.TempDead` | src/3ac.c:263-396 | no temporary is live behind a jump, a test or a label |
| `WholeMachine.RenamedGenerable` | src/gen.c:427-463 | lowering, liveness and allocation give the generator only code that it is right for |
| `WholeMachine.SourceLoads` | src/gen.c:427-463 | what is generated for a program is one for the machine, with register numbers in range, if it fits into instruction memory |
| `WholeMachine.SourceOnMachine` | src/main.c:170-215 | from the program as written to the machine: without loops, with ordering comparisons as conditions, if nothing is read before it is written and free_regs takes no register from a live symbol whose value is nowhere else, the machine halts with the output of the program, and stops with an error, after the same output, exactly where the program is stuck |
| `WholeMachine.SourceExecuted` | src/tm.c:236-323 | and with the text in between: the lines printed for the program are loaded, and run from instruction memory they end as the program does |
| `JumpEmitter.TmCode.Emit` | src/code.c:40-72 | the instruction is added at the line it carries and the counters move on |
| `JumpEmitter.TmCode.EmitAbs` | src/code.c:99-116 | the displacement is relative to the next instruction |
| `JumpEmitter.TmCode.Here` | src/code.c:74-83 | the next location |
| `JumpEmitter.TmCode.GenTest` | src/gen.c:282-317 | the stores, the jump and its entry in the jump list |
| `JumpEmitter.TmCode.GenJump` | src/gen.c:367-389 | one LDA for each entry of the label, or a placeholder with the boundary stores before it |
| `JumpEmitter.TmCode.GenLabel` | src/gen.c:391-419 | the first entry is patched, or the location is remembered |
| `Assembler.NumberRead` | src/tm.c:173-196 | getNum reads any printed number back, negative ones through its sign loop |
| `Assembler.WordRead` | src/tm.c:198-211 | getWord reads a padded opcode back |
| `Assembler.PrintedNames` | src/gen.c:31 | the text printed for each instruction |
| `Assembler.TablesAgree` | src/tm.c:98-106 | the table of the generator and that of the loader, each in its own order, agree on every name |
| `Assembler.ClassByNumber` | src/tm.c:124-128 | the classes are the ranges between the limits in the table of the loader |
| `Assembler.FourCompared` | src/tm.c:272 | names are compared over four characters, the end of the string included |
| `Assembler.FindOpExact` | src/tm.c:269-275 | the search finds an opcode if and only if its name agrees with the word that far |
| `Assembler.LimitsNotRead` | src/tm.c:269-275 | and never one of the limits |
| `Assembler.NameFound` | src/tm.c:269-273 | the name that the generator prints for an instruction is found in the table of the loader, at the opcode of that instruction |
| `Assembler.RoundTrip` | src/gen.c:476-512 | a printed line loads as the location, opcode and arguments it was printed from, or with the error for the first register out of range |
| `Assembler.RoundTripGood` | src/tm.c:236-323 | it loads unchanged if and only if its registers are in range |
| `LoaderText.LineColumns` | src/gen.c:496-506 | a printed line by its columns |
| `LoaderText.DecimalText` | src/gen.c:496-506 | numbers are printed in base ten without leading zeros |
| `LoaderText.SumRead` | src/tm.c:173-196 | getNum reads sums of terms with any number of signs, of which two minus signs cancel, and refuses one that ends in signs |
| `LoaderText.WordMeaning` | src/tm.c:198-211 | getWord takes a run of letters and digits, of which it keeps nineteen |
| `LoaderText.NothingToLoad` | src/tm.c:260 | blank lines and lines that start with an asterisk load nothing |
| `LoaderText.LineErrors` | src/tm.c:261-275 | the errors for a location, a colon, an opcode, in this order |
| `LoaderText.NoLocation` | src/tm.c:261-262 | and for a line that starts with something else |
| `LoaderText.ParenthesisRead` | src/tm.c:309 | a parenthesis in front of the last register does as well as a comma |
| `Loader.LoadWritten` | src/tm.c:236-323 | a program that is written and loaded is in instruction memory as it was emitted, with HALT behind it |
| `Loader.Scanner.NonBlank` | src/tm.c:160-171 | the cursor stops at the next character that is no blank |
| `Loader.Scanner.GetNum` | src/tm.c:173-196 | the nested loops compute the sum of signed terms |
| `Loader.Scanner.GetWord` | src/tm.c:198-211 | the word, cut at nineteen characters |
| `Loader.Scanner.SkipCh` | src/tm.c:213-221 | the character is skipped if it is there |
| `Loader.Scanner.ReadRR` | src/tm.c:281-297 | the operands of a register instruction, with the error for each place |
| `Loader.Scanner.ReadRM` | src/tm.c:299-315 | the operands with a displacement, separated by a parenthesis or a comma |
| `Loader.Scanner.ReadLine` | src/tm.c:258-321 | one line of the loader, errors included |
| `Association.FindsOldest` | src/hashtab.c:150-156 | a chain finds the entry that was inserted first |
| `Association.LookupMeaning` | src/hashtab.c:92-209 | after any insertions, changes and removals without a fault lookup is the association for every key outside slot 0, and nothing for keys of slot 0 |
| `Association.SlotHolds` | src/hashtab.c:92-209 | each slot but slot 0 holds the live entries of its keys, in the order of insertion |
| `Association.SlotZeroHolds` | src/hashtab.c:105-134 | slot 0 holds every entry ever inserted into it: a change there is lost |
| `Association.RemovalReturns` | src/hashtab.c:179-209 | a removal gives back the oldest data of the key, and nothing if there is none or if its entry is the oldest of several in the slot |
| `Association.IterationMeaning` | src/hashtab.c:249-275 | then iteration visits exactly the live data of each key outside slot 0, oldest first, and nothing of slot 0 |
| `Association.IterationOrder` | src/hashtab.c:249-275 | slot by slot, and through each slot in the order of insertion |
| `Association.RemovalFaultsIff` | src/hashtab.c:174 | a removal compares with a null key if and only if the key is one of slot 0 or no key of its slot holds anything |
| `HashTable.Walk` | src/hashtab.c:150-151 | the walk stops at the first node with the key or at an empty head |
| `HashTable.LookupIn` | src/hashtab.c:137-157 | lookup in one slot |
| `HashTable.UpdateIn` | src/hashtab.c:277-295 | the data of the oldest entry changes and nothing else |
| `HashTable.InsertIn` | src/hashtab.c:105-134 | the entry is the last of its chain, in a new node or in an empty head |
| `HashTable.RemoveHead` | src/hashtab.c:191-203 | a head with successors takes over the next node, and then nothing is returned; a lone head becomes empty |
| `HashTable.RemoveIn` | src/hashtab.c:171-209 | the oldest entry leaves the chain, the chain stays linked, and the data of that entry is returned unless it was the first of several |
| `SymbolTable.SymTab.constructor` | src/hashtab.c:58-90 | every slot is empty |
| `SymbolTable.SymTab.Lookup` | src/hashtab.c:137-157 | lookup in the table |
| `SymbolTable.SymTab.Insert` | src/hashtab.c:92-135 | only the chain of the slot changes |
| `SymbolTable.SymTab.Update` | src/hashtab.c:277-295 | only the chain of the slot changes |
| `SymbolTable.SymTab.Remove` | src/hashtab.c:159-209 | only the chain of the slot changes, for a slot in use, and the data returned is that of the oldest entry unless it was the first of several |
| `SymbolTable.SymTab.Iterate` | src/hashtab.c:249-275 | the visiting function sees the specified data in the specified order |

## Left out

- 32-bit arithmetic: integers are unbounded, so overflow in folding, in the machine and in counters is not modelled.
- Constant propagation, copy propagation and common subexpressions (`const_prop.c`, `copy_prop.c`, `cse.c`): they are not sound on all inputs, and their results feed no other pass here.
- Block compaction (`bb.c`): it leaves holes and duplicates in the predecessor lists.
- Loops on the machine: a jump back emits no boundary stores, and leaves the register fields of the symbols and constants of its block set although the next block starts with an empty register table. What the spare registers hold is lost there, and a constant of that block counts as loaded behind it: by reading, `read n; while n > 0 do n := n - 2; write 2` prints what the loop header left in the register. `MachineRun` is about code that only jumps forward.
- Optimization on the way to the machine: `WholeMachine` takes the code as lowered; the passes before it are in `Pipeline`.
- `stepTM` at location 1024 and data address 1024, one past the arrays: the machine here reports an address error there.
- A test whose preceding instruction is no comparison (a bare symbol as a condition): the generator aborts there, and no code is modelled for it.
- Shifts by a negative amount: undefined in C, no effect here; the compiler emits no shifts.
- Input on the machine is a list of numbers; prompting and rejected lines are not part of this model.
- Symbol ids of constants: a constant is named by its value, as the symbol table shares them; the duplicates made when its name hashes to slot 0 are not modelled.
- The node table of `tree.c` is modelled where it is read, for negations; that a lookup in slot 0 misses there is not modelled. `new_binop` and the other constructors that only insert into it keep no trace of that.
- `emit_comment`, `emit_backup` and `emit_restore`: comments are printed only when tracing, and the other two are not called.
- Lines longer than the buffer of the loader, and lines without a newline at the end of the text.
- `count`, `collision_count` and `hit_count` of the hash table, a hash function that reports an error, and the concrete hash function: any function into the slots will do.
- Interval records are identified by their place in the list, and blocks by their position; what two pointers to one record could do is not modelled.
- LoopAllocation.AllocationPreserves: the condition is exact for keeping live symbols apart, not for the trace: whether two values that share a location differ on some input cannot be decided.
- WholeMachine.SourceOnMachine: the condition on `free_regs` is exact for machines whose memory may hold anything where the block has written and not stored, not for the trace of one program: whether the value that is lost happens to be the one in memory cannot be decided.
- Emitter.NodeFactory.NewBinop: node ids and the insertion into the node table are left out, since nothing reads them again.
- Emitter.NodeFactory.NewUnop: the node table is a map on operands, so a lookup that misses in slot 0 and names that collide are left out.
- Emitter.NodeFactory.NewIf: node ids and the insertion into the node table are left out.
- Emitter.NodeFactory.NewLoop: node ids and the insertion into the node table are left out.
- SymbolTable.SymTab.Iterate: the visiting function does not change the table, as `unused_vars` does.
- LivenessFixpoint.LvaLeast: guards are sufficient but not necessary on arbitrary graphs (LivenessLimits.SparedSolved), where whether the last pass was early depends on the order in which sets fill.
- SymbolTable.SymTab.Remove: requires a slot in use, since with an empty head the comparison would read through a null pointer.
- Lexer, grammar, printing, graph output, tracing, options, allocation failure and freeing.
