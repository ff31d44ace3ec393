/** Linear code as the generator goes through it: block by block, with the out of each block. */
module CodeBlocks {
  import opened ThreeAddress
  import opened BlockGraph
  import opened BasicBlocks
  import opened InsLiveness
  import opened LoopAllocation
  import opened MachineCode

  /** Instruction i of a block that begins at o. */
  ghost predicate InBlockAt(code: seq<Ins>, o: nat, ins: seq<Ins>, i: nat) {
    i < |ins| && o + i < |code| && code[o + i] == ins[i] && (EndsBlock(code, o + i) <==> i == |ins| - 1)
  }

  /** Block b and its out are those of the code from where the block begins. */
  ghost predicate BlockHere(code: seq<Ins>, live: LiveSets, blocks: seq<seq<Ins>>, outs: seq<set<nat>>, b: nat)
    requires |live| == |code| + 1 && b < |blocks| == |outs|
  {
    var o, ins := Offset(blocks, b), blocks[b];
    && o + |ins| <= |code| && Offset(blocks, b + 1) == o + |ins|
    && (forall i: nat :: i < |ins| ==> InBlockAt(code, o, ins, i))
    && (ins != [] ==> LiveOut(code, live, o + |ins| - 1) == outs[b])
    && (b + 1 < |blocks| ==> ins != [])
  }

  /** The blocks of the code. */
  ghost predicate BlocksOf(code: seq<Ins>, live: LiveSets, blocks: seq<seq<Ins>>, outs: seq<set<nat>>) {
    && |live| == |code| + 1 && |blocks| == |outs| && Flatten(blocks) == code
    && forall b :: 0 <= b < |blocks| ==> BlockHere(code, live, blocks, outs, b)
  }

  lemma FirstOffset(c: seq<seq<Ins>>)
    ensures Offset(c, 0) == 0
  {
  }

  lemma LastOffset(code: seq<Ins>, live: LiveSets, blocks: seq<seq<Ins>>, outs: seq<set<nat>>)
    requires BlocksOf(code, live, blocks, outs)
    ensures Offset(blocks, |blocks|) == |code|
  {
    assert blocks[..|blocks|] == blocks;
    hide Flatten;
  }

  /** Instruction i of block b. */
  lemma InsHere(code: seq<Ins>, live: LiveSets, blocks: seq<seq<Ins>>, outs: seq<set<nat>>, b: nat, i: nat)
    requires BlocksOf(code, live, blocks, outs) && b < |blocks| && i < |blocks[b]|
    ensures var p := Offset(blocks, b) + i;
      && |live| == |code| + 1 && |blocks| == |outs| && p < |code| && code[p] == blocks[b][i]
      && (EndsBlock(code, p) <==> i == |blocks[b]| - 1) && (i == |blocks[b]| - 1 ==> LiveOut(code, live, p) == outs[b])
    ensures Offset(blocks, b + 1) == Offset(blocks, b) + |blocks[b]|
  {
    assert BlockHere(code, live, blocks, outs, b);
    assert InBlockAt(code, Offset(blocks, b), blocks[b], i);
    hide Offset, EndsBlock, LiveOut, Flatten;
  }

  /** The first instruction of a block starts it. */
  lemma StartsHere(code: seq<Ins>, live: LiveSets, blocks: seq<seq<Ins>>, outs: seq<set<nat>>, b: nat, i: nat)
    requires BlocksOf(code, live, blocks, outs) && b < |blocks| && i < |blocks[b]|
    ensures Offset(blocks, b) + i < |code| && (StartsBlock(code, Offset(blocks, b) + i) <==> i == 0)
  {
    InsHere(code, live, blocks, outs, b, i);
    FirstOffset(blocks);
    if i > 0 {
      InsHere(code, live, blocks, outs, b, i - 1);
    } else if b > 0 {
      NotEmpty(code, live, blocks, outs, b - 1);
      InsHere(code, live, blocks, outs, b - 1, |blocks[b - 1]| - 1);
    }
    hide Offset, EndsBlock, BlocksOf;
  }

  lemma NotEmpty(code: seq<Ins>, live: LiveSets, blocks: seq<seq<Ins>>, outs: seq<set<nat>>, b: nat)
    requires BlocksOf(code, live, blocks, outs) && b + 1 < |blocks|
    ensures blocks[b] != []
  {
    assert BlockHere(code, live, blocks, outs, b);
    hide Offset, EndsBlock, LiveOut, Flatten;
  }

  // ----- the sets of lva_bb -----

  lemma {:induction false} KeptInBlock(code: seq<Ins>, live: LiveSets, blocks: seq<seq<Ins>>, outs: seq<set<nat>>, b: nat, i: nat)
    requires BlocksOf(code, live, blocks, outs) && b < |blocks| && i < |blocks[b]|
    ensures var p := Offset(blocks, b) + i;
      && |live| == |code| + 1 && |blocks| == |outs| && p < |code|
      && KeptAt(code, live, p) == InsLiveness.Kept(blocks[b], outs[b], i)
    decreases |blocks[b]| - i
  {
    hide *;
    InsHere(code, live, blocks, outs, b, i);
    KeptAtIs(code, live, Offset(blocks, b) + i);
    KeptIs(blocks[b], outs[b], i);
    if i < |blocks[b]| - 1 {
      KeptInBlock(code, live, blocks, outs, b, i + 1);
    }
  }

  lemma KeptAtIs(code: seq<Ins>, live: LiveSets, p: nat)
    requires |live| == |code| + 1 && p < |code|
    ensures EndsBlock(code, p) ==> KeptAt(code, live, p) == LiveOut(code, live, p)
    ensures !EndsBlock(code, p) ==> p + 1 < |code| && KeptAt(code, live, p) == Mentions(code[p]) + KeptAt(code, live, p + 1)
  {
    hide LiveOut, Mentions;
  }

  lemma KeptIs(ins: seq<Ins>, out: set<nat>, k: nat)
    requires k < |ins|
    ensures InsLiveness.Kept(ins, out, k) == if k == |ins| - 1 then out else Mentions(ins[k]) + InsLiveness.Kept(ins, out, k + 1)
  {
    hide Mentions;
  }

  /** The set of an instruction of the code is the one that lva_bb computes for it in its block. */
  lemma OutInBlock(code: seq<Ins>, live: LiveSets, blocks: seq<seq<Ins>>, outs: seq<set<nat>>, b: nat, i: nat)
    requires BlocksOf(code, live, blocks, outs) && b < |blocks| && i < |blocks[b]|
    ensures var p := Offset(blocks, b) + i;
      && |live| == |code| + 1 && |blocks| == |outs| && p < |code| && OutAt(code, live, p) == InsOut(blocks[b], outs[b], i)
  {
    hide *;
    KeptInBlock(code, live, blocks, outs, b, i);
    StartsHere(code, live, blocks, outs, b, i);
    OutAtIs(code, live, Offset(blocks, b) + i);
    InsOutIs(blocks[b], outs[b], i);
    if i > 0 {
      InsHere(code, live, blocks, outs, b, i - 1);
    }
  }

  lemma OutAtIs(code: seq<Ins>, live: LiveSets, p: nat)
    requires |live| == |code| + 1 && p < |code|
    ensures OutAt(code, live, p) == KeptAt(code, live, p) + if StartsBlock(code, p) then {} else Mentions(code[p - 1])
  {
    hide KeptAt, Mentions;
  }

  lemma InsOutIs(ins: seq<Ins>, out: set<nat>, k: nat)
    requires k < |ins|
    ensures InsOut(ins, out, k) == InsLiveness.Kept(ins, out, k) + if k > 0 then Mentions(ins[k - 1]) else {}
  {
    hide InsLiveness.Kept, Mentions;
  }
}
