/** lva as the compiler runs it: bit arrays filled and compared in place, until a pass changes
    no out. */
module LivenessPass {
  import opened Options
  import opened ThreeAddress
  import opened BasicBlocks
  import opened BitSets
  import opened Liveness
  import opened LivenessFixpoint

  // ----- parts of sets -----

  function Low(s: set<nat>, n: nat): set<nat> {
    set x | x in s && x < n
  }

  function High(s: set<nat>, n: nat): set<nat> {
    set x | x in s && x >= n
  }

  /** from is merged into to. */
  method Merge(from: array<bv8>, to: array<bv8>, count: nat)
    requires from != to && from.Length == to.Length == Slots(count)
    requires Members(from[..]) <= Universe(count)
    modifies to
    ensures Members(to[..]) == Members(old(to[..])) + Members(from[..])
  {
    hide Members;
    for i := 0 to count
      invariant Members(to[..]) == Members(old(to[..])) + Low(Members(from[..]), i)
    {
      var bit := Test(from, i);
      if bit {
        Set(to, i);
      }
      LowStep(Members(from[..]), i);
    }
    LowAll(Members(from[..]), count);
  }

  lemma LowStep(s: set<nat>, i: nat)
    ensures Low(s, i + 1) == Low(s, i) + if i in s then {i} else {}
  {
  }

  lemma LowAll(s: set<nat>, count: nat)
    requires s <= Universe(count)
    ensures Low(s, count) == s
  {
    hide Universe;
  }

  /** live_in := use + (out - def), bit by bit. */
  method Flow(use: array<bv8>, def: array<bv8>, out: array<bv8>, live_in: array<bv8>, count: nat)
    requires live_in != use && live_in != def && live_in != out
    requires use.Length == def.Length == out.Length == live_in.Length == Slots(count)
    requires Members(use[..]) <= Universe(count) && Members(out[..]) <= Universe(count) && Members(live_in[..]) <= Universe(count)
    modifies live_in
    ensures Members(live_in[..]) == Members(use[..]) + (Members(out[..]) - Members(def[..]))
  {
    hide Members;
    ghost var goal := Members(use[..]) + (Members(out[..]) - Members(def[..]));
    ghost var was := Members(live_in[..]);
    Parts(was, goal, 0);
    for i := 0 to count
      invariant Members(live_in[..]) == Low(goal, i) + High(was, i)
    {
      var a := Test(out, i);
      var b := Test(def, i);
      if a && !b {
        Set(live_in, i);
      } else {
        var c := Test(use, i);
        if c {
          Set(live_in, i);
        } else {
          Clear(live_in, i);
        }
      }
      PartsStep(was, goal, i);
    }
    PartsAll(was, goal, count);
  }

  lemma Parts(was: set<nat>, goal: set<nat>, i: nat)
    ensures Low(goal, 0) + High(was, 0) == was
  {
  }

  lemma PartsStep(was: set<nat>, goal: set<nat>, i: nat)
    ensures Low(goal, i + 1) + High(was, i + 1)
         == if i in goal then Low(goal, i) + High(was, i) + {i} else (Low(goal, i) + High(was, i)) - {i}
  {
  }

  lemma PartsAll(was: set<nat>, goal: set<nat>, count: nat)
    requires was <= Universe(count) && goal <= Universe(count)
    ensures Low(goal, count) + High(was, count) == goal
  {
    hide Universe;
  }

  /** Whether a bit differs from what it was. */
  method Differs(a: array<bv8>, was: array<bv8>, count: nat) returns (r: bool)
    requires a.Length == was.Length == Slots(count)
    requires Members(a[..]) <= Universe(count) && Members(was[..]) <= Universe(count)
    ensures r <==> Members(a[..]) != Members(was[..])
  {
    hide Members;
    r := false;
    for i := 0 to count
      invariant !r && Low(Members(a[..]), i) == Low(Members(was[..]), i)
    {
      var x := Test(a, i);
      var y := Test(was, i);
      LowStep(Members(a[..]), i);
      LowStep(Members(was[..]), i);
      if x != y {
        return true;
      }
    }
    LowAll(Members(a[..]), count);
    LowAll(Members(was[..]), count);
  }

  // ----- the summary of one block -----

  /** A symbol read by the block, unless the block has written it before. */
  method UseBit(use: array<bv8>, def: array<bv8>, a: Arg, count: nat)
    requires use != def && use.Length == def.Length == Slots(count) && ArgSyms(a) <= Universe(count)
    modifies use
    ensures Members(use[..]) == Members(old(use[..])) + (ArgSyms(a) - Members(def[..]))
  {
    hide Universe;
    if a.Sym? {
      assert a.id < count;
      var written := Test(def, a.id);
      if !written {
        Set(use, a.id);
      }
    }
  }

  method UseBits(use: array<bv8>, def: array<bv8>, i: Ins, count: nat)
    requires use != def && use.Length == def.Length == Slots(count) && Uses(i) <= Universe(count)
    modifies use
    ensures Members(use[..]) == Members(old(use[..])) + (Uses(i) - Members(def[..]))
  {
    hide Universe, Members;
    match i {
      case Bin(_, _, a1, a2) =>
        UseBit(use, def, a1, count);
        UseBit(use, def, a2, count);
      case Out(a) => UseBit(use, def, a, count);
      case Iff(c, _) => UseBit(use, def, c, count);
      case Assign(_, a1) => UseBit(use, def, a1, count);
      case _ =>
    }
  }

  method DefBit(def: array<bv8>, i: Ins, count: nat)
    requires def.Length == Slots(count) && Defs(i) <= Universe(count)
    modifies def
    ensures Members(def[..]) == Members(old(def[..])) + Defs(i)
  {
    hide Universe, Members;
    if i.Bin? || i.In? || i.Assign? {
      assert i.r in Defs(i);
      Set(def, i.r);
    }
  }

  /** What one instruction adds to the sets of its block: reads first, then its write. */
  method ScanOne(use: array<bv8>, def: array<bv8>, i: Ins, count: nat)
    requires use != def && use.Length == def.Length == Slots(count) && Uses(i) + Defs(i) <= Universe(count)
    modifies use, def
    ensures Summary(Members(use[..]), Members(def[..])) == ScanIns(Summary(Members(old(use[..])), Members(old(def[..]))), i)
  {
    hide Universe, Members, Uses, Defs;
    UseBits(use, def, i, count);
    DefBit(def, i, count);
  }

  /** defuse_bb: one forward scan of a block. */
  method DefUse(use: array<bv8>, def: array<bv8>, code: seq<Ins>, count: nat)
    requires use != def && use.Length == def.Length == Slots(count)
    requires Summarize(code).use + Summarize(code).def <= Universe(count)
    requires Members(use[..]) == {} && Members(def[..]) == {}
    modifies use, def
    ensures Members(use[..]) == Summarize(code).use && Members(def[..]) == Summarize(code).def
  {
    assert code[..0] == [];
    var k := 0;
    hide Universe, Members;
    while k < |code|
      invariant k <= |code|
      invariant Members(use[..]) == Summarize(code[..k]).use && Members(def[..]) == Summarize(code[..k]).def
    {
      SummaryStep(code, k);
      SummaryHolds(code, k);
      ScanOne(use, def, code[k], count);
      k := k + 1;
    }
    assert code[..|code|] == code;
  }

  // ----- the sets of all blocks -----

  /** What a list of arrays stands for. */
  ghost function View(rows: seq<array<bv8>>): (v: seq<set<nat>>)
    reads rows
    ensures |v| == |rows| && forall b :: 0 <= b < |rows| ==> v[b] == Members(rows[b][..])
  {
    seq(|rows|, b requires 0 <= b < |rows| reads rows => Members(rows[b][..]))
  }

  ghost predicate Sized(rows: seq<array<bv8>>, n: nat, count: nat) {
    |rows| == n && forall b :: 0 <= b < n ==> rows[b].Length == Slots(count)
  }

  ghost predicate AllDistinct(rows: seq<array<bv8>>) {
    forall a, b :: 0 <= a < b < |rows| ==> rows[a] != rows[b]
  }

  ghost predicate Disjoint(p: seq<array<bv8>>, q: seq<array<bv8>>) {
    forall a, b :: 0 <= a < |p| && 0 <= b < |q| ==> p[a] != q[b]
  }

  class LiveTable {
    const g: Cfg
    const count: nat
    const uses: seq<array<bv8>>
    const defs: seq<array<bv8>>
    const ins: seq<array<bv8>>
    const outs: seq<array<bv8>>

    ghost predicate Shaped() {
      && Sized(uses, |g|, count) && Sized(defs, |g|, count) && Sized(ins, |g|, count) && Sized(outs, |g|, count)
      && AllDistinct(uses) && AllDistinct(defs) && AllDistinct(ins) && AllDistinct(outs)
      && Disjoint(uses, defs) && Disjoint(ins, uses) && Disjoint(ins, defs) && Disjoint(outs, uses) && Disjoint(outs, defs)
      && Disjoint(ins, outs)
    }

    ghost function Now(): Sets
      reads ins, outs
    {
      Sets(View(ins), View(outs))
    }

    /** The summaries have been computed. */
    ghost predicate Summarized()
      reads uses, defs
      requires Shaped()
    {
      forall b :: 0 <= b < |g| ==>
        Members(uses[b][..]) == Summarize(g[b].ins).use && Members(defs[b][..]) == Summarize(g[b].ins).def
    }

    /** Four zeroed arrays for each block. */
    constructor (g: Cfg, count: nat)
      ensures this.g == g && this.count == count && Shaped() && Now() == StartSets(g)
      ensures SummarizedTo(0)
      ensures fresh(uses) && fresh(defs) && fresh(ins) && fresh(outs)
    {
      var u := ZeroRows(|g|, count, []);
      var d := ZeroRows(|g|, count, u);
      var i := ZeroRows(|g|, count, u + d);
      var o := ZeroRows(|g|, count, u + d + i);
      DisjointSplit(i, u, d);
      DisjointSplit(o, u + d, i);
      DisjointSplit(o, u, d);
      DisjointFlip(d, u);
      DisjointFlip(o, i);
      hide Disjoint, AllDistinct, Sized, Slots, Members, Nothing, Summarize;
      this.g, this.count := g, count;
      uses, defs, ins, outs := u, d, i, o;
    }

    /** in := use + (out - def) for block b. */
    method UpdateIn(b: nat)
      requires Shaped() && Summarized() && InRange(g, count) && Bounded(Now(), count) && b < |g|
      modifies ins[b]
      ensures Shaped() && Summarized()
      ensures Now() == UpdatedIn(g, old(Now()), b)
    {
      assert Now().ins[b] <= Universe(count) && Now().outs[b] <= Universe(count);
      assert Summarize(g[b].ins).use <= Universe(count);
      hide Universe, Summarize, Members;
      Flow(uses[b], defs[b], outs[b], ins[b], count);
      assert View(ins) == old(View(ins))[b := InOf(g[b], old(View(outs))[b])];
      assert View(outs) == old(View(outs));
    }

    /** The in of one successor is added to the out of block b. */
    method MergeAlong(b: nat, e: Option<nat>)
      requires Shaped() && Summarized() && b < |g| && forall c :: 0 <= c < |g| ==> Now().ins[c] <= Universe(count)
      modifies outs[b]
      ensures Shaped() && Summarized()
      ensures Now() == Merged(g, old(Now()), b, e)
    {
      hide Universe, Summarize, Members;
      assert Now().outs[b] + {} == Now().outs[b];
      if e.Some? && e.value < |g| {
        assert Now().ins[e.value] <= Universe(count);
        Merge(ins[e.value], outs[b], count);
      }
      assert View(outs) == old(View(outs))[b := old(View(outs))[b] + Along(old(View(ins)), e)];
      assert View(ins) == old(View(ins));
    }

    /** The body of the loop over the blocks, for block b; changed says whether the out of b grew. */
    method VisitBlock(b: nat) returns (changed: bool)
      requires Shaped() && Summarized() && InRange(g, count) && Bounded(Now(), count) && b < |g|
      modifies ins[b], outs[b]
      ensures Shaped() && Summarized() && Bounded(Now(), count)
      ensures Now() == Visit(g, old(Now()), b)
      ensures changed <==> Now().outs[b] != old(Now().outs[b])
    {
      ghost var s := Now();
      VisitBounded(g, s, b, count);
      VisitParts(g, s, b, count);
      hide Universe, Summarize, InOf, Along, Visit, InRange, Members;
      var bcmp := Copy(outs[b]);
      UpdateIn(b);
      MergeAlong(b, g[b].jmp);
      MergeAlong(b, g[b].next);
      assert Now() == Visit(g, s, b);
      assert Now().outs[b] <= Universe(count) && s.outs[b] <= Universe(count);
      changed := Differs(outs[b], bcmp, count);
    }

    /** The summaries of the blocks below b have been computed. */
    ghost predicate SummarizedTo(b: nat)
      reads uses, defs
      requires Shaped()
    {
      forall c :: 0 <= c < |g| ==>
        var u := if c < b then Summarize(g[c].ins) else Summary({}, {});
        Members(uses[c][..]) == u.use && Members(defs[c][..]) == u.def
    }

    method DefUseNext(b: nat)
      requires Shaped() && InRange(g, count) && b < |g| && SummarizedTo(b)
      modifies uses[b], defs[b]
      ensures Shaped() && SummarizedTo(b + 1) && Now() == old(Now())
    {
      assert Summarize(g[b].ins).use + Summarize(g[b].ins).def <= Universe(count);
      forall c | 0 <= c < |g|
        ensures c != b ==> uses[c] != uses[b] && uses[c] != defs[b] && defs[c] != uses[b] && defs[c] != defs[b]
        ensures ins[c] != uses[b] && ins[c] != defs[b] && outs[c] != uses[b] && outs[c] != defs[b]
      {
      }
      assert uses[b] != defs[b] && |uses| == |defs| == |ins| == |outs| == |g|;
      hide Universe, Summarize, Members, Slots, InRange, Disjoint, AllDistinct, Sized;
      DefUse(uses[b], defs[b], g[b].ins, count);
      assert View(ins) == old(View(ins)) && View(outs) == old(View(outs));
    }

    /** lva_defuse: the summaries of all blocks. */
    method DefUseAll()
      requires Shaped() && InRange(g, count) && SummarizedTo(0)
      modifies uses, defs
      ensures Shaped() && Summarized() && Now() == old(Now())
    {
      hide Summarize, Members;
      for b := 0 to |g|
        invariant SummarizedTo(b) && Now() == old(Now())
      {
        DefUseNext(b);
      }
    }

    /** The next block of a pass that began with s. */
    method VisitNext(b: nat, ghost s: Sets, before: bool) returns (changed: bool)
      requires b < |g| && InRange(g, count) && Supported(g, s) && Partway(s, b + 1, before)
      modifies ins, outs
      ensures Partway(s, b, changed)
    {
      hide Shaped, Summarized, InRange, Supported, Bounded, Pass, Moved, Now, Visit;
      AtBlock(b);
      VisitShows(g, s, b);
      var grew := VisitBlock(b);
      changed := before || grew;
    }

    /** One pass over the blocks, last block first; changed says whether some out grew. */
    method RunPass() returns (changed: bool)
      requires Shaped() && Summarized() && InRange(g, count) && Bounded(Now(), count) && Supported(g, Now())
      modifies ins, outs
      ensures Shaped() && Summarized() && Bounded(Now(), count)
      ensures Now() == Pass(g, old(Now()), 0)
      ensures changed <==> Now().outs != old(Now()).outs
    {
      hide *;
      changed := false;
      ghost var s := Now();
      Departed();
      var b: nat := |g|;
      while b > 0
        invariant b <= |g|
        invariant Partway(s, b, changed)
      {
        b := b - 1;
        changed := VisitNext(b, s, changed);
      }
      Arrived(s, changed);
    }

    /** A pass that began with s has visited the blocks from b on. */
    ghost predicate Partway(s: Sets, b: nat, changed: bool)
      reads uses, defs, ins, outs
    {
      && Fits(g, s) && b <= |g| && Shaped() && Summarized() && Bounded(Now(), count)
      && Now() == Pass(g, s, b) && (changed <==> Moved(g, s, b))
    }

    lemma Departed()
      requires Shaped() && Summarized() && Bounded(Now(), count) && Supported(g, Now())
      ensures Partway(Now(), |g|, false)
    {
      PassStart(g, Now());
      hide Shaped, Summarized, Bounded, Supported, Now;
    }

    lemma Arrived(s: Sets, changed: bool)
      requires Partway(s, 0, changed)
      ensures Shaped() && Summarized() && Bounded(Now(), count) && Fits(g, s)
      ensures Now() == Pass(g, s, 0) && (changed <==> Now().outs != s.outs)
    {
    }

    lemma AtBlock(b: nat)
      requires Shaped() && b < |g|
      ensures b < |ins| && b < |outs|
    {
    }

    /** Passes until nothing changes. */
    method Solve()
      requires Shaped() && Summarized() && InRange(g, count) && Now() == StartSets(g)
      modifies ins, outs
      ensures Shaped() && Now() == Lva(g, count)
    {
      StartOk(g, count);
      var changed := true;
      ghost var s := Now();
      hide Supported, Bounded, InRange, Shaped, Summarized, Universe, Summarize, Pass;
      while changed
        invariant Shaped() && Summarized() && Supported(g, Now()) && Bounded(Now(), count)
        invariant changed ==> Lva(g, count) == Iterate(g, Now(), count)
        invariant !changed ==> Lva(g, count) == Now()
        decreases Missing(Now().outs, count), changed
      {
        PassProgress(g, Now(), count);
        changed := RunPass();
      }
    }

  }

  /** The pass from s has changed some out by the time that it has come down to b. */
  ghost predicate Moved(g: Cfg, s: Sets, b: nat)
    requires Fits(g, s) && b <= |g|
  {
    Pass(g, s, b).outs != s.outs
  }

  lemma PassStart(g: Cfg, s: Sets)
    requires Supported(g, s)
    ensures Fits(g, s) && Pass(g, s, |g|) == s && !Moved(g, s, |g|)
  {
  }

  /** A visit shows in the outs exactly when it changes the out of its block. */
  lemma VisitShows(g: Cfg, s: Sets, b: nat)
    requires Supported(g, s) && b < |g|
    ensures Pass(g, s, b) == Visit(g, Pass(g, s, b + 1), b)
    ensures Moved(g, s, b) <==> Moved(g, s, b + 1) || Pass(g, s, b).outs[b] != Pass(g, s, b + 1).outs[b]
  {
    PassSupported(g, s, b + 1);
    PassGrows(g, s, b, b + 1);
    var t, u := Pass(g, s, b + 1), Pass(g, s, b);
    assert u == Visit(g, t, b);
    hide Pass, Supported, InOf, Along;
    if u.outs == s.outs {
      forall c | 0 <= c < |g| ensures t.outs[c] == s.outs[c] {
        assert BlockBelow(s, t, c) && BlockBelow(t, u, c);
      }
    } else if u.outs[b] == t.outs[b] {
      assert u.outs == t.outs;
    }
  }

  function UpdatedIn(g: Cfg, s: Sets, b: nat): (t: Sets)
    requires Fits(g, s) && b < |g|
    ensures Fits(g, t)
  {
    s.(ins := s.ins[b := InOf(g[b], s.outs[b])])
  }

  function Merged(g: Cfg, s: Sets, b: nat, e: Option<nat>): (t: Sets)
    requires Fits(g, s) && b < |g|
    ensures Fits(g, t)
  {
    s.(outs := s.outs[b := s.outs[b] + Along(s.ins, e)])
  }

  /** Arrays of zeros, one for each block. */
  method ZeroRows(n: nat, count: nat, before: seq<array<bv8>>) returns (rows: seq<array<bv8>>)
    ensures Disjoint(rows, before) && fresh(rows)
    ensures Sized(rows, n, count) && AllDistinct(rows) && View(rows) == Nothing(n)
    ensures forall b :: 0 <= b < n ==> Members(rows[b][..]) == {}
  {
    rows := [];
    while |rows| < n
      invariant |rows| <= n && Sized(rows, |rows|, count) && AllDistinct(rows)
      invariant Disjoint(rows, before) && fresh(rows)
      invariant forall b :: 0 <= b < |rows| ==> Members(rows[b][..]) == {}
    {
      var a := new bv8[Slots(count)](_ => 0);
      NoMembers(a[..]);
      rows := rows + [a];
    }
  }

  lemma DisjointSplit(p: seq<array<bv8>>, q: seq<array<bv8>>, r: seq<array<bv8>>)
    requires Disjoint(p, q + r)
    ensures Disjoint(p, q) && Disjoint(p, r)
  {
    var s := q + r;
    assert forall b :: 0 <= b < |q| ==> s[b] == q[b];
    assert forall b :: 0 <= b < |r| ==> s[|q| + b] == r[b];
  }

  lemma DisjointFlip(p: seq<array<bv8>>, q: seq<array<bv8>>)
    requires Disjoint(p, q)
    ensures Disjoint(q, p)
  {
  }

  /** A visit is its three steps. */
  lemma VisitParts(g: Cfg, s: Sets, b: nat, count: nat)
    requires Fits(g, s) && b < |g| && InRange(g, count) && Bounded(s, count)
    ensures Visit(g, s, b) == Merged(g, Merged(g, UpdatedIn(g, s, b), b, g[b].jmp), b, g[b].next)
    ensures forall c :: 0 <= c < |g| ==> UpdatedIn(g, s, b).ins[c] <= Universe(count)
  {
    assert InOf(g[b], s.outs[b]) <= Universe(count);
    hide InOf, Along, Universe;
  }

  method Copy(a: array<bv8>) returns (b: array<bv8>)
    ensures fresh(b) && b[..] == a[..]
  {
    b := new bv8[a.Length];
    for i := 0 to a.Length
      invariant b[..i] == a[..i]
    {
      b[i] := a[i];
    }
  }

  /** The whole analysis. */
  method Analyze(g: Cfg, count: nat) returns (t: LiveTable)
    requires InRange(g, count)
    ensures fresh(t) && t.g == g && t.count == count && t.Shaped() && t.Now() == Lva(g, count)
  {
    t := new LiveTable(g, count);
    t.DefUseAll();
    t.Solve();
  }
}
