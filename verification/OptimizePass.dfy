/** The two passes as the compiler runs them: instruction lists rewritten in place, use bits, and
    flags on the instructions to remove. */
module OptimizePass {
  import opened ThreeAddress
  import opened BasicBlocks
  import opened BitSets
  import opened LivenessFixpoint
  import opened Optimize
  import opened OptimizeExact

  class Optimizer {
    var blocks: Cfg

    constructor (g: Cfg)
      ensures blocks == g
    {
      blocks := g;
    }

    /** opt_algebra on block b. */
    method SimplifyBlock(b: nat)
      requires b < |blocks|
      modifies this
      ensures blocks == old(blocks)[b := old(blocks)[b].(ins := SimplifyAll(old(blocks)[b].ins))]
    {
      var ins := blocks[b].ins;
      for k := 0 to |ins|
        invariant |ins| == |old(blocks)[b].ins|
        invariant forall j :: 0 <= j < k ==> ins[j] == Simplify(old(blocks)[b].ins[j])
        invariant forall j :: k <= j < |ins| ==> ins[j] == old(blocks)[b].ins[j]
      {
        ins := ins[k := Simplify(ins[k])];
      }
      assert ins == SimplifyAll(old(blocks)[b].ins);
      blocks := blocks[b := blocks[b].(ins := ins)];
    }

    /** opt_bb_pass with opt_algebra. */
    method AlgebraPass()
      modifies this
      ensures blocks == Algebra(old(blocks))
    {
      hide SimplifyAll;
      for b := 0 to |blocks|
        invariant |blocks| == |old(blocks)|
        invariant forall c :: 0 <= c < b ==> blocks[c] == old(blocks)[c].(ins := SimplifyAll(old(blocks)[c].ins))
        invariant forall c :: b <= c < |blocks| ==> blocks[c] == old(blocks)[c]
      {
        SimplifyBlock(b);
      }
      assert blocks == Algebra(old(blocks));
    }

    method MarkArg(use: array<bv8>, a: Arg, count: nat)
      requires use.Length == Slots(count) && ArgSyms(a) <= Universe(count)
      modifies use
      ensures Members(use[..]) == Members(old(use[..])) + ArgSyms(a)
    {
      hide Universe, Members;
      if a.Sym? {
        assert a.id < count;
        Set(use, a.id);
      }
    }

    method MarkIns(use: array<bv8>, i: Ins, count: nat)
      requires use.Length == Slots(count) && Marks(i) <= Universe(count)
      modifies use
      ensures Members(use[..]) == Members(old(use[..])) + Marks(i)
    {
      hide Universe, Members;
      match i {
        case Bin(_, _, a1, a2) =>
          MarkArg(use, a1, count);
          MarkArg(use, a2, count);
        case In(r) => MarkArg(use, Sym(r), count);
        case Out(a) => MarkArg(use, a, count);
        case Iff(c, _) => MarkArg(use, c, count);
        case Assign(_, a1) => MarkArg(use, a1, count);
        case _ =>
      }
    }

    method MarkBlock(use: array<bv8>, b: nat, count: nat)
      requires b < |blocks| && use.Length == Slots(count) && MarksOf(blocks[b].ins) <= Universe(count)
      modifies use
      ensures Members(use[..]) == Members(old(use[..])) + MarksOf(blocks[b].ins)
    {
      var ins := blocks[b].ins;
      assert MarksOf(ins[..0]) == {};
      hide Universe, Members, Marks, MarksOf;
      for k := 0 to |ins|
        invariant Members(use[..]) == Members(old(use[..])) + MarksOf(ins[..k])
      {
        MarksNext(ins, k);
        MarkIns(use, ins[k], count);
      }
      assert ins[..|ins|] == ins;
    }

    method MarkAll(use: array<bv8>, count: nat)
      requires use.Length == Slots(count) && Marked(blocks) <= Universe(count) && Members(use[..]) == {}
      modifies use
      ensures Members(use[..]) == Marked(blocks) && forall x :: x in Members(use[..]) <==> Needed(blocks, x)
    {
      forall x ensures x in Marked(blocks) <==> Needed(blocks, x) {
        MarkedExact(blocks, x);
      }
      hide Needed;
      assert blocks[..0] == [];
      hide Universe, Members, MarksOf;
      for b := 0 to |blocks|
        invariant Members(use[..]) == Marked(blocks[..b])
      {
        assert blocks[..b + 1][..b] == blocks[..b];
        MarkBlock(use, b, count);
      }
      assert blocks[..|blocks|] == blocks;
    }

    /** Which instructions of block b are to be removed. */
    method FlagBlock(use: array<bv8>, b: nat, count: nat) returns (flags: seq<bool>)
      requires b < |blocks| && use.Length == Slots(count)
      requires forall k :: 0 <= k < |blocks[b].ins| ==> Defs(blocks[b].ins[k]) <= Universe(count)
      ensures |flags| == |blocks[b].ins|
      ensures forall k :: 0 <= k < |flags| ==> flags[k] == Dead(Members(use[..]), blocks[b].ins[k])
    {
      flags := [];
      hide Universe, Members;
      for k := 0 to |blocks[b].ins|
        invariant |flags| == k
        invariant forall j :: 0 <= j < k ==> flags[j] == Dead(Members(use[..]), blocks[b].ins[j])
      {
        var i := blocks[b].ins[k];
        var dead := false;
        if i.Assign? {
          assert i.r in Defs(i);
          var used := Test(use, i.r);
          dead := !used;
        }
        flags := flags + [dead];
      }
    }

    /** Unlinks the flagged instructions of block b. */
    method RemoveFlagged(b: nat, flags: seq<bool>, ghost use: set<nat>)
      requires b < |blocks| && |flags| == |blocks[b].ins|
      requires forall k :: 0 <= k < |flags| ==> flags[k] == Dead(use, blocks[b].ins[k])
      modifies this
      ensures blocks == old(blocks)[b := old(blocks)[b].(ins := Strip(use, old(blocks)[b].ins))]
    {
      var was, kept := blocks[b].ins, [];
      for k := 0 to |was|
        invariant kept == Strip(use, was[..k]) && blocks == old(blocks)
      {
        StripNext(use, was, k);
        if !flags[k] {
          kept := kept + [was[k]];
        }
      }
      assert was[..|was|] == was;
      blocks := blocks[b := blocks[b].(ins := kept)];
    }

    /** The flagged instructions of every block are unlinked. */
    method RemoveAll(use: array<bv8>, count: nat)
      requires use.Length == Slots(count)
      requires forall b, k :: 0 <= b < |blocks| && 0 <= k < |blocks[b].ins| ==> Defs(blocks[b].ins[k]) <= Universe(count)
      modifies this
      ensures blocks == StripAll(Members(use[..]), old(blocks))
    {
      ghost var marked := Members(use[..]);
      hide Universe, Members, Strip;
      for b := 0 to |blocks|
        invariant |blocks| == |old(blocks)| && Members(use[..]) == marked
        invariant forall c :: 0 <= c < b ==> blocks[c] == old(blocks)[c].(ins := Strip(marked, old(blocks)[c].ins))
        invariant forall c :: b <= c < |blocks| ==> blocks[c] == old(blocks)[c]
      {
        var flags := FlagBlock(use, b, count);
        RemoveFlagged(b, flags, marked);
      }
      assert blocks == StripAll(marked, old(blocks));
    }

    /** opt_unused_vars: mark what is read, then drop the assignments to the rest. */
    method UnusedPass(count: nat)
      requires Marked(blocks) <= Universe(count)
      requires forall b, k :: 0 <= b < |blocks| && 0 <= k < |blocks[b].ins| ==> Defs(blocks[b].ins[k]) <= Universe(count)
      modifies this
      ensures blocks == UnusedVars(old(blocks)) && |blocks| == |old(blocks)|
      ensures forall b :: 0 <= b < |blocks| ==> Pruned(old(blocks), old(blocks)[b].ins, blocks[b].ins)
    {
      UnusedExact(blocks);
      hide Universe, Members, Marked, StripAll, Pruned, Needed;
      var use := new bv8[Slots(count)](_ => 0);
      NoMembers(use[..]);
      MarkAll(use, count);
      RemoveAll(use, count);
    }
  }

  lemma MarksNext(ins: seq<Ins>, k: nat)
    requires k < |ins|
    ensures MarksOf(ins[..k + 1]) == MarksOf(ins[..k]) + Marks(ins[k]) && Marks(ins[k]) <= MarksOf(ins)
  {
    assert ins[..k + 1][..k] == ins[..k];
  }
}
