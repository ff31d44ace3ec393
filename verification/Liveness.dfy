/** Live variables: block summaries and the backward iteration over the blocks.

    Sets of symbols stand for the bit arrays; BitSets shows how the arrays represent them. */
module Liveness {
  import opened Options
  import opened ThreeAddress
  import opened BasicBlocks

  // ----- the summary of a block -----

  /** use: read before any write in the block; def: written in the block. */
  datatype Summary = Summary(use: set<nat>, def: set<nat>)

  function ScanIns(u: Summary, i: Ins): Summary {
    Summary(u.use + (Uses(i) - u.def), u.def + Defs(i))
  }

  /** One forward scan. */
  function Summarize(ins: seq<Ins>): Summary {
    if ins == [] then Summary({}, {}) else ScanIns(Summarize(ins[..|ins| - 1]), ins[|ins| - 1])
  }

  /** The symbols live before the instructions when out is live after them, one at a time. */
  function Backward(ins: seq<Ins>, out: set<nat>): set<nat> {
    if ins == [] then out else Uses(ins[0]) + (Backward(ins[1..], out) - Defs(ins[0]))
  }

  lemma {:induction false} BackwardLast(ins: seq<Ins>, i: Ins, out: set<nat>)
    ensures Backward(ins + [i], out) == Backward(ins, Uses(i) + (out - Defs(i)))
  {
    if ins == [] {
      assert (ins + [i])[1..] == [];
    } else {
      BackwardLast(ins[1..], i, out);
      assert (ins + [i])[1..] == ins[1..] + [i];
    }
  }

  /** The summary of a block says for every out what the instructions say one by one. */
  lemma {:induction false} SummaryComposes(ins: seq<Ins>, out: set<nat>)
    ensures var u := Summarize(ins); u.use + (out - u.def) == Backward(ins, out)
  {
    if ins != [] {
      var m := |ins| - 1;
      SummaryComposes(ins[..m], Uses(ins[m]) + (out - Defs(ins[m])));
      BackwardLast(ins[..m], ins[m], out);
      assert ins[..m] + [ins[m]] == ins;
      hide Backward;
    }
  }

  lemma SummaryStep(ins: seq<Ins>, i: nat)
    requires i < |ins|
    ensures Summarize(ins[..i + 1]) == ScanIns(Summarize(ins[..i]), ins[i])
  {
    assert ins[..i + 1][..i] == ins[..i];
  }

  /** The symbols of an instruction are in the summary of its block. */
  lemma {:induction false} SummaryHolds(ins: seq<Ins>, i: nat)
    requires i < |ins|
    ensures var u := Summarize(ins); Uses(ins[i]) <= u.use + u.def && Defs(ins[i]) <= u.def
  {
    var m := |ins| - 1;
    if i < m {
      SummaryHolds(ins[..m], i);
    }
  }

  // ----- the iteration -----

  datatype Sets = Sets(ins: seq<set<nat>>, outs: seq<set<nat>>)

  ghost predicate Fits(g: Cfg, s: Sets) {
    |s.ins| == |g| && |s.outs| == |g|
  }

  function Along(ins: seq<set<nat>>, e: Option<nat>): set<nat> {
    if e.Some? && e.value < |ins| then ins[e.value] else {}
  }

  function InOf(b: Block, out: set<nat>): set<nat> {
    var u := Summarize(b.ins);
    u.use + (out - u.def)
  }

  /** One block: its in from its out so far, then its out from the ins of its successors. */
  function Visit(g: Cfg, s: Sets, b: nat): (t: Sets)
    requires Fits(g, s) && b < |g|
    ensures Fits(g, t)
  {
    var ins := s.ins[b := InOf(g[b], s.outs[b])];
    Sets(ins, s.outs[b := s.outs[b] + Along(ins, g[b].jmp) + Along(ins, g[b].next)])
  }

  /** The blocks from the last one down to k. */
  function Pass(g: Cfg, s: Sets, k: nat): (t: Sets)
    requires Fits(g, s) && k <= |g|
    ensures Fits(g, t)
    decreases |g| - k
  {
    if k == |g| then s else Visit(g, Pass(g, s, k + 1), k)
  }

  // ----- what a solution is -----

  ghost predicate BlockSolved(g: Cfg, s: Sets, b: nat)
    requires Fits(g, s) && b < |g|
  {
    s.ins[b] == InOf(g[b], s.outs[b]) && s.outs[b] == Along(s.ins, g[b].jmp) + Along(s.ins, g[b].next)
  }

  /** in = use + (out - def), and out is the union of the ins of the successors. */
  ghost predicate Solves(g: Cfg, s: Sets) {
    Fits(g, s) && forall b :: 0 <= b < |g| ==> BlockSolved(g, s, b)
  }

  ghost predicate BlockBelow(s: Sets, t: Sets, b: nat)
    requires b < |s.ins| == |s.outs| == |t.ins| == |t.outs|
  {
    s.ins[b] <= t.ins[b] && s.outs[b] <= t.outs[b]
  }

  ghost predicate Below(g: Cfg, s: Sets, t: Sets) {
    Fits(g, s) && Fits(g, t) && forall b :: 0 <= b < |g| ==> BlockBelow(s, t, b)
  }

  ghost predicate Least(g: Cfg, s: Sets) {
    Solves(g, s) && forall t :: Solves(g, t) ==> Below(g, s, t)
  }

  // ----- what every visit keeps -----

  ghost predicate BlockSupported(g: Cfg, s: Sets, b: nat)
    requires Fits(g, s) && b < |g|
  {
    s.ins[b] <= InOf(g[b], s.outs[b]) && s.outs[b] <= Along(s.ins, g[b].jmp) + Along(s.ins, g[b].next)
  }

  /** No set holds more than the equations justify. */
  ghost predicate Supported(g: Cfg, s: Sets) {
    Fits(g, s) && forall b :: 0 <= b < |g| ==> BlockSupported(g, s, b)
  }

  lemma AlongGrows(ins: seq<set<nat>>, b: nat, v: set<nat>, e: Option<nat>)
    requires b < |ins| && ins[b] <= v
    ensures Along(ins, e) <= Along(ins[b := v], e)
  {
  }

  lemma VisitSupported(g: Cfg, s: Sets, b: nat)
    requires Supported(g, s) && b < |g|
    ensures Supported(g, Visit(g, s, b)) && Below(g, s, Visit(g, s, b))
  {
    var t := Visit(g, s, b);
    assert BlockSupported(g, s, b);
    var v := InOf(g[b], s.outs[b]);
    hide Summarize, Along;
    forall c | 0 <= c < |g| ensures BlockSupported(g, t, c) && BlockBelow(s, t, c) {
      assert BlockSupported(g, s, c);
      AlongGrows(s.ins, b, v, g[c].jmp);
      AlongGrows(s.ins, b, v, g[c].next);
    }
  }

  lemma BelowTransitive(g: Cfg, s: Sets, t: Sets, u: Sets)
    requires Below(g, s, t) && Below(g, t, u)
    ensures Below(g, s, u)
  {
    forall b | 0 <= b < |g| ensures BlockBelow(s, u, b) {
      assert BlockBelow(s, t, b) && BlockBelow(t, u, b);
    }
  }

  lemma BelowSelf(g: Cfg, s: Sets)
    requires Fits(g, s)
    ensures Below(g, s, s)
  {
  }

  lemma {:induction false} PassSupported(g: Cfg, s: Sets, k: nat)
    requires Supported(g, s) && k <= |g|
    ensures Supported(g, Pass(g, s, k)) && Below(g, s, Pass(g, s, k))
    decreases |g| - k
  {
    if k == |g| {
      BelowSelf(g, s);
    } else {
      PassSupported(g, s, k + 1);
      var t := Pass(g, s, k + 1);
      hide Supported, Below, Visit;
      VisitSupported(g, t, k);
      BelowTransitive(g, s, t, Visit(g, t, k));
    }
  }

  /** The sets stay below every solution. */
  lemma VisitBelow(g: Cfg, s: Sets, b: nat, t: Sets)
    requires Below(g, s, t) && Solves(g, t) && b < |g|
    ensures Below(g, Visit(g, s, b), t)
  {
    var r := Visit(g, s, b);
    assert BlockBelow(s, t, b) && BlockSolved(g, t, b);
    var v := InOf(g[b], s.outs[b]);
    assert v <= t.ins[b];
    forall c: nat | c < |g| ensures r.ins[c] <= t.ins[c] {
      assert BlockBelow(s, t, c);
    }
    assert Along(r.ins, g[b].jmp) <= Along(t.ins, g[b].jmp) && Along(r.ins, g[b].next) <= Along(t.ins, g[b].next);
    hide Along, InOf;
    forall c | 0 <= c < |g| ensures BlockBelow(r, t, c) {
      assert BlockBelow(s, t, c);
    }
  }

  lemma {:induction false} PassBelow(g: Cfg, s: Sets, k: nat, t: Sets)
    requires Below(g, s, t) && Solves(g, t) && k <= |g|
    ensures Below(g, Pass(g, s, k), t)
    decreases |g| - k
  {
    if k < |g| {
      PassBelow(g, s, k + 1, t);
      hide Below, Solves, Visit;
      VisitBelow(g, Pass(g, s, k + 1), k, t);
    }
  }
}
