/** What the two passes leave, exactly: which instructions are rewritten, into what, and which
    assignments are removed. */
module OptimizeExact {
  import opened ThreeAddress
  import opened BasicBlocks
  import opened Optimize

  // ----- opt_algebra -----

  /** The laws that are applied, for every operand x. */
  lemma AlgebraLaws(r: nat, x: Arg)
    ensures Simplify(Bin(Add, r, Const(0), x)) == Simplify(Bin(Add, r, x, Const(0))) == Assign(r, x)
    ensures x != Const(0) ==> Simplify(Bin(Sub, r, x, Const(0))) == Assign(r, x)
    ensures Simplify(Bin(Sub, r, Const(0), x)) == Bin(Mul, r, Const(-1), x)
    ensures Simplify(Bin(Mul, r, Const(0), x)) == Simplify(Bin(Mul, r, x, Const(0))) == Assign(r, Const(0))
    ensures Simplify(Bin(Mul, r, Const(1), x)) == Assign(r, x)
    ensures x != Const(2) ==> Simplify(Bin(Mul, r, x, Const(1))) == Assign(r, x)
    ensures x != Const(0) ==> Simplify(Bin(Mul, r, Const(2), x)) == Bin(Add, r, x, x)
    ensures x != Const(0) && x != Const(1) ==> Simplify(Bin(Mul, r, x, Const(2))) == Bin(Add, r, x, x)
    ensures Simplify(Bin(Div, r, x, Const(1))) == Assign(r, x)
    ensures x != Const(0) ==> Simplify(Bin(Div, r, Const(1), x)) == Assign(r, x)
  {
  }

  /** A constant operand that some law is about. */
  predicate Special(op: BinOp, a1: Arg, a2: Arg) {
    match op
    case Add => a1 == Const(0) || a2 == Const(0)
    case Sub => a1 == Const(0) || a2 == Const(0)
    case Mul => a1 in {Const(0), Const(1), Const(2)} || a2 in {Const(0), Const(1), Const(2)}
    case Div => (a1 == Const(1) || a2 == Const(1)) && a2 != Const(0)
    case _ => false
  }

  /** An instruction is rewritten exactly if it has such an operand, and keeps its result. */
  lemma RewrittenIff(i: Ins)
    ensures Simplify(i) != i <==> i.Bin? && Special(i.op, i.a1, i.a2)
    ensures Defs(Simplify(i)) == Defs(i)
  {
  }

  // ----- opt_unused_vars -----

  /** Some instruction of the graph reads x, or reads input into it. */
  ghost predicate Needed(g: Cfg, x: nat) {
    exists b, k :: 0 <= b < |g| && 0 <= k < |g[b].ins| && (x in Uses(g[b].ins[k]) || g[b].ins[k] == In(x))
  }

  ghost predicate NeededIn(ins: seq<Ins>, x: nat) {
    exists k :: 0 <= k < |ins| && (x in Uses(ins[k]) || ins[k] == In(x))
  }

  lemma {:induction false} MarksExact(ins: seq<Ins>, x: nat)
    ensures x in MarksOf(ins) <==> NeededIn(ins, x)
  {
    if ins != [] {
      var m := |ins| - 1;
      MarksExact(ins[..m], x);
      assert ins[..m] + [ins[m]] == ins;
      assert x in Marks(ins[m]) <==> x in Uses(ins[m]) || ins[m] == In(x);
      hide Marks, Uses;
      if x in MarksOf(ins[..m]) {
        var k :| 0 <= k < m && (x in Uses(ins[..m][k]) || ins[..m][k] == In(x));
        assert ins[k] == ins[..m][k];
      }
      if k :| 0 <= k < m && (x in Uses(ins[k]) || ins[k] == In(x)) {
        assert ins[..m][k] == ins[k];
      }
    }
  }

  /** The use bits are the symbols that are needed. */
  lemma {:induction false} MarkedExact(g: Cfg, x: nat)
    ensures x in Marked(g) <==> Needed(g, x)
  {
    if g != [] {
      var m := |g| - 1;
      MarkedExact(g[..m], x);
      MarksExact(g[m].ins, x);
      hide MarksOf, Uses;
      if x in Marked(g[..m]) {
        var b, k :| 0 <= b < m && 0 <= k < |g[..m][b].ins| && (x in Uses(g[..m][b].ins[k]) || g[..m][b].ins[k] == In(x));
        assert g[b] == g[..m][b];
      }
      if b, k :| 0 <= b < m && 0 <= k < |g[b].ins| && (x in Uses(g[b].ins[k]) || g[b].ins[k] == In(x)) {
        assert g[..m][b] == g[b];
      }
    }
  }

  /** r is what is left of s when just the positions ps stay. */
  predicate Selects(s: seq<Ins>, ps: seq<nat>, r: seq<Ins>) {
    && |ps| == |r|
    && (forall j :: 0 <= j < |ps| ==> ps[j] < |s| && r[j] == s[ps[j]])
    && (forall i, j :: 0 <= i < j < |ps| ==> ps[i] < ps[j])
  }

  /** The instruction assigns to a symbol that g does not need. */
  ghost predicate Idle(g: Cfg, i: Ins) {
    i.Assign? && !Needed(g, i.r)
  }

  /** r is s without its idle instructions, at the positions ps. */
  ghost predicate PrunedAt(g: Cfg, s: seq<Ins>, ps: seq<nat>, r: seq<Ins>) {
    Selects(s, ps, r) && forall k: nat :: k < |s| ==> (k in ps <==> !Idle(g, s[k]))
  }

  ghost predicate Pruned(g: Cfg, s: seq<Ins>, r: seq<Ins>) {
    exists ps :: PrunedAt(g, s, ps, r)
  }

  lemma PrunedNext(g: Cfg, s: seq<Ins>, ps: seq<nat>, r: seq<Ins>, i: Ins)
    requires PrunedAt(g, s, ps, r)
    ensures if Idle(g, i) then PrunedAt(g, s + [i], ps, r) else PrunedAt(g, s + [i], ps + [|s|], r + [i])
  {
    var m := |s|;
    hide Idle;
    assert forall k: nat :: k < m ==> (s + [i])[k] == s[k];
    assert forall j :: 0 <= j < |ps| ==> (ps + [m])[j] == ps[j] && ps[j] < m;
  }

  lemma {:induction false} StripPruned(g: Cfg, s: seq<Ins>) returns (ps: seq<nat>)
    ensures PrunedAt(g, s, ps, Strip(Marked(g), s))
  {
    if s == [] {
      ps := [];
    } else {
      var m := |s| - 1;
      ps := StripPruned(g, s[..m]);
      if s[m].Assign? {
        MarkedExact(g, s[m].r);
      }
      assert s[..m] + [s[m]] == s;
      assert Idle(g, s[m]) <==> Dead(Marked(g), s[m]);
      hide Marked, Needed, Idle, PrunedAt, Dead;
      PrunedNext(g, s[..m], ps, Strip(Marked(g), s[..m]), s[m]);
      if !Idle(g, s[m]) {
        ps := ps + [m];
      }
    }
  }

  /** Exactly the assignments to symbols that are read nowhere, and into which no input is read, are
      removed; everything else stays in its order, and the blocks keep their edges. */
  lemma UnusedExact(g: Cfg)
    ensures |UnusedVars(g)| == |g|
    ensures forall b :: 0 <= b < |g| ==>
      UnusedVars(g)[b] == g[b].(ins := UnusedVars(g)[b].ins) && Pruned(g, g[b].ins, UnusedVars(g)[b].ins)
  {
    forall b | 0 <= b < |g| ensures Pruned(g, g[b].ins, UnusedVars(g)[b].ins) {
      var ps := StripPruned(g, g[b].ins);
    }
    hide Pruned;
  }
}
