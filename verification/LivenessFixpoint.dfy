/** The iteration of lva ends, and where loop headers are guarded it ends at the least solution. */
module LivenessFixpoint {
  import opened Options
  import opened BasicBlocks
  import opened Liveness

  /** f only falls through to h and comes before it, so that it is visited later. */
  ghost predicate Guards(g: Cfg, f: nat, h: nat) {
    f < |g| && f < h && g[f].next == Some(h) && g[f].jmp == None
  }

  ghost predicate EdgeGuarded(g: Cfg, b: nat, e: Option<nat>) {
    e.Some? && e.value < b ==> exists f: nat :: Guards(g, f, e.value)
  }

  /** Every block that an edge goes back to has a guard. */
  ghost predicate Guarded(g: Cfg) {
    forall b :: 0 <= b < |g| ==> EdgeGuarded(g, b, g[b].jmp) && EdgeGuarded(g, b, g[b].next)
  }

  // ----- a pass that changes no out -----

  lemma {:induction false} PassGrows(g: Cfg, s: Sets, j: nat, k: nat)
    requires Supported(g, s) && j <= k <= |g|
    ensures Below(g, Pass(g, s, k), Pass(g, s, j))
    decreases k - j
  {
    PassFits(g, s);
    hide Supported, Below, Visit, Fits, Pass;
    if j == k {
      BelowSelf(g, Pass(g, s, k));
    } else {
      PassGrows(g, s, j + 1, k);
      NextGrows(g, s, j);
      BelowTransitive(g, Pass(g, s, k), Pass(g, s, j + 1), Pass(g, s, j));
    }
  }

  lemma PassFits(g: Cfg, s: Sets)
    requires Supported(g, s)
    ensures Fits(g, s)
  {
  }

  lemma NextGrows(g: Cfg, s: Sets, j: nat)
    requires Supported(g, s) && j < |g|
    ensures Below(g, Pass(g, s, j + 1), Pass(g, s, j))
  {
    PassSupported(g, s, j + 1);
    hide Supported, Below, Visit;
    VisitSupported(g, Pass(g, s, j + 1), j);
  }

  lemma RestOuts(g: Cfg, s: Sets, k: nat)
    requires Supported(g, s) && k <= |g| && Pass(g, s, 0).outs == s.outs
    ensures Pass(g, s, k).outs == s.outs
  {
    PassSupported(g, s, k);
    PassGrows(g, s, 0, k);
    var t := Pass(g, s, k);
    hide Supported, Pass;
    forall b | 0 <= b < |g| ensures t.outs[b] == s.outs[b] {
      assert BlockBelow(s, t, b) && BlockBelow(t, Pass(g, s, 0), b);
    }
  }

  lemma {:induction false} RestIns(g: Cfg, s: Sets, k: nat)
    requires Supported(g, s) && k <= |g| && Pass(g, s, 0).outs == s.outs
    ensures forall b :: 0 <= b < |g| ==> Pass(g, s, k).ins[b] == if b >= k then InOf(g[b], s.outs[b]) else s.ins[b]
    decreases |g| - k
  {
    if k < |g| {
      RestIns(g, s, k + 1);
      RestOuts(g, s, k + 1);
      hide Supported, InOf, Along;
    }
  }

  /** In such a pass the out of b already holds the ins that b looks up. */
  lemma RestLooksUp(g: Cfg, s: Sets, b: nat, e: Option<nat>)
    requires Supported(g, s) && b < |g| && Pass(g, s, 0).outs == s.outs && (e == g[b].jmp || e == g[b].next)
    ensures e.Some? && e.value < |g| ==>
      (if e.value >= b then InOf(g[e.value], s.outs[e.value]) else s.ins[e.value]) <= s.outs[b]
  {
    RestOuts(g, s, b);
    RestIns(g, s, b);
    var t := Pass(g, s, b + 1);
    assert Pass(g, s, b) == Visit(g, t, b);
    hide Pass, Supported, InOf;
    assert Along(Pass(g, s, b).ins, e) <= Pass(g, s, b).outs[b];
  }

  /** A guard keeps the in of the block that it guards from changing unnoticed. */
  lemma GuardHolds(g: Cfg, s: Sets, f: nat, h: nat)
    requires Supported(g, s) && Pass(g, s, 0).outs == s.outs && Guards(g, f, h) && h < |g|
    ensures InOf(g[h], s.outs[h]) <= s.ins[h]
  {
    RestLooksUp(g, s, f, g[f].next);
    assert BlockSupported(g, s, f);
    hide InOf, Supported, Pass;
  }

  lemma RestEdge(g: Cfg, s: Sets, b: nat, e: Option<nat>)
    requires Supported(g, s) && b < |g| && Pass(g, s, 0).outs == s.outs && (e == g[b].jmp || e == g[b].next)
    requires EdgeGuarded(g, b, e)
    ensures e.Some? && e.value < |g| ==> InOf(g[e.value], s.outs[e.value]) <= s.outs[b]
  {
    RestLooksUp(g, s, b, e);
    if e.Some? && e.value < |g| && e.value < b {
      var f: nat :| Guards(g, f, e.value);
      GuardHolds(g, s, f, e.value);
    }
    hide InOf, Supported, Pass;
  }

  lemma AtRest(g: Cfg, s: Sets)
    requires Supported(g, s) && Guarded(g) && Pass(g, s, 0).outs == s.outs
    ensures Solves(g, Pass(g, s, 0))
  {
    var t := Pass(g, s, 0);
    RestIns(g, s, 0);
    PassSupported(g, s, 0);
    hide Pass, InOf;
    forall b | 0 <= b < |g| ensures BlockSolved(g, t, b) {
      assert BlockSupported(g, t, b);
      RestEdge(g, s, b, g[b].jmp);
      RestEdge(g, s, b, g[b].next);
    }
  }

  // ----- the iteration ends -----

  /** The symbols that occur in the graph are below count, so their bits are in the arrays. */
  ghost predicate InRange(g: Cfg, count: nat) {
    forall b :: 0 <= b < |g| ==> Summarize(g[b].ins).use + Summarize(g[b].ins).def <= Universe(count)
  }

  function Universe(count: nat): (u: set<nat>)
    ensures |u| == count && forall x: nat :: x in u <==> x < count
  {
    if count == 0 then {} else Universe(count - 1) + {count - 1}
  }

  ghost predicate Bounded(s: Sets, count: nat) {
    && (forall b :: 0 <= b < |s.ins| ==> s.ins[b] <= Universe(count))
    && (forall b :: 0 <= b < |s.outs| ==> s.outs[b] <= Universe(count))
  }

  lemma VisitBounded(g: Cfg, s: Sets, b: nat, count: nat)
    requires Fits(g, s) && b < |g| && InRange(g, count) && Bounded(s, count)
    ensures Bounded(Visit(g, s, b), count)
  {
    assert InOf(g[b], s.outs[b]) <= Universe(count);
    hide InOf, InRange, Universe, Along;
    var ins := s.ins[b := InOf(g[b], s.outs[b])];
    AlongBounded(ins, g[b].jmp, count);
    AlongBounded(ins, g[b].next, count);
  }

  lemma AlongBounded(ins: seq<set<nat>>, e: Option<nat>, count: nat)
    requires forall b :: 0 <= b < |ins| ==> ins[b] <= Universe(count)
    ensures Along(ins, e) <= Universe(count)
  {
    hide Universe;
  }

  lemma {:induction false} PassBounded(g: Cfg, s: Sets, k: nat, count: nat)
    requires Fits(g, s) && k <= |g| && InRange(g, count) && Bounded(s, count)
    ensures Bounded(Pass(g, s, k), count)
    decreases |g| - k
  {
    hide Visit, Bounded, InRange, Fits, Universe;
    if k < |g| {
      PassBounded(g, s, k + 1, count);
      VisitBounded(g, Pass(g, s, k + 1), k, count);
    }
  }

  /** How many symbols are still missing from the sets. */
  function Missing(sets: seq<set<nat>>, count: nat): nat {
    if sets == [] then 0 else |Universe(count) - sets[0]| + Missing(sets[1..], count)
  }

  lemma SmallerRest(u: set<nat>, a: set<nat>, b: set<nat>)
    requires a <= b
    ensures |u - b| <= |u - a|
    ensures b <= u && a != b ==> |u - b| < |u - a|
  {
    SubsetSize(u - b, u - a);
    if b <= u && a != b {
      var x :| x in b && x !in a;
      assert x in u - a && x !in u - b;
      SubsetSize(u - b, u - a - {x});
    }
  }

  lemma {:induction false} SubsetSize(a: set<nat>, b: set<nat>)
    requires a <= b
    ensures |a| <= |b|
  {
    if a != {} {
      var x :| x in a;
      SubsetSize(a - {x}, b - {x});
    }
  }

  lemma {:induction false} MissingShrinks(a: seq<set<nat>>, b: seq<set<nat>>, count: nat)
    requires |a| == |b| && forall i :: 0 <= i < |a| ==> a[i] <= b[i] <= Universe(count)
    ensures Missing(b, count) <= Missing(a, count)
    ensures a != b ==> Missing(b, count) < Missing(a, count)
  {
    if a != [] {
      MissingShrinks(a[1..], b[1..], count);
      SmallerRest(Universe(count), a[0], b[0]);
      assert a != b ==> a[0] != b[0] || a[1..] != b[1..];
      hide Universe;
    }
  }

  lemma PassProgress(g: Cfg, s: Sets, count: nat)
    requires Supported(g, s) && InRange(g, count) && Bounded(s, count)
    ensures Supported(g, Pass(g, s, 0)) && Bounded(Pass(g, s, 0), count)
    ensures Pass(g, s, 0).outs != s.outs ==> Missing(Pass(g, s, 0).outs, count) < Missing(s.outs, count)
  {
    PassSupported(g, s, 0);
    PassBounded(g, s, 0, count);
    var t := Pass(g, s, 0);
    hide Pass, Supported, InRange, Missing, Universe;
    forall b | 0 <= b < |g| ensures s.outs[b] <= t.outs[b] <= Universe(count) {
      assert BlockBelow(s, t, b);
    }
    MissingShrinks(s.outs, t.outs, count);
  }

  /** Passes until one changes no out. */
  function Iterate(g: Cfg, s: Sets, count: nat): (t: Sets)
    requires Supported(g, s) && InRange(g, count) && Bounded(s, count)
    decreases Missing(s.outs, count)
  {
    PassProgress(g, s, count);
    var t := Pass(g, s, 0);
    if t.outs == s.outs then t else Iterate(g, t, count)
  }

  function Nothing(n: nat): (s: seq<set<nat>>)
    ensures |s| == n && forall b :: 0 <= b < n ==> s[b] == {}
  {
    if n == 0 then [] else Nothing(n - 1) + [{}]
  }

  function StartSets(g: Cfg): Sets {
    Sets(Nothing(|g|), Nothing(|g|))
  }

  lemma StartOk(g: Cfg, count: nat)
    ensures Supported(g, StartSets(g)) && Bounded(StartSets(g), count)
    ensures forall t :: Fits(g, t) ==> Below(g, StartSets(g), t)
  {
    var s := StartSets(g);
    forall b | 0 <= b < |g| ensures BlockSupported(g, s, b) {
    }
    forall t | Fits(g, t) ensures Below(g, s, t) {
      assert forall b :: 0 <= b < |g| ==> BlockBelow(s, t, b);
    }
  }

  /** The sets that lva leaves. */
  function Lva(g: Cfg, count: nat): Sets
    requires InRange(g, count)
  {
    StartOk(g, count);
    Iterate(g, StartSets(g), count)
  }

  lemma {:induction false} IterateLeast(g: Cfg, s: Sets, count: nat)
    requires Supported(g, s) && InRange(g, count) && Bounded(s, count)
    requires forall t :: Solves(g, t) ==> Below(g, s, t)
    ensures Supported(g, Iterate(g, s, count))
    ensures forall t :: Solves(g, t) ==> Below(g, Iterate(g, s, count), t)
    ensures Guarded(g) ==> Solves(g, Iterate(g, s, count))
    decreases Missing(s.outs, count)
  {
    PassProgress(g, s, count);
    var t := Pass(g, s, 0);
    forall u | Solves(g, u) ensures Below(g, t, u) {
      PassBelow(g, s, 0, u);
    }
    if t.outs != s.outs {
      IterateLeast(g, t, count);
    } else if Guarded(g) {
      AtRest(g, s);
    }
    hide Supported, Below, Bounded, Missing, Guarded, InRange, Solves, Pass;
  }

  /** lva finds the least solution of the liveness equations. */
  lemma LvaLeast(g: Cfg, count: nat)
    requires InRange(g, count) && Guarded(g)
    ensures Least(g, Lva(g, count))
  {
    StartOk(g, count);
    assert forall t :: Solves(g, t) ==> Fits(g, t);
    hide Guarded, Below, Bounded, Supported, InRange, Iterate;
    IterateLeast(g, StartSets(g), count);
  }
}
