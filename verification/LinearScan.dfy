/** Linear-scan register allocation: the scan over live intervals sorted by start.

    The functions say what the scan computes; class Allocator in Allocator.dfy does it in place.
    An interval is named by its position in the sorted list.  The number of registers is a
    parameter, so the results do not depend on its value. */
module LinearScan {
  datatype Interval = Interval(start: nat, end: nat)

  const NO_REGISTER := -1

  /** reg: the register of each interval; active: the intervals that hold a register, by end;
      free: the pool of free registers, its top last. */
  datatype Alloc = Alloc(reg: seq<int>, active: seq<nat>, free: seq<int>)

  ghost predicate Overlap(a: Interval, b: Interval) {
    a.start <= b.end && b.start <= a.end
  }

  ghost predicate Sorted(ivs: seq<Interval>) {
    && (forall i :: 0 <= i < |ivs| ==> ivs[i].start <= ivs[i].end)
    && (forall i, j :: 0 <= i < j < |ivs| ==> ivs[i].start <= ivs[j].start)
  }

  // ----- what the scan computes -----

  predicate Indices(ivs: seq<Interval>, active: seq<nat>) {
    forall j :: 0 <= j < |active| ==> active[j] < |ivs|
  }

  /** The initial pool: registers are pushed from the last to the first. */
  function Pool(count: nat): (free: seq<int>)
    ensures |free| == count
    ensures forall j :: 0 <= j < count ==> free[j] == count - 1 - j
  {
    seq(count, j => count - 1 - j)
  }

  /** How many leading entries of the active list end before point at; j of them are known. */
  function EndedBefore(ivs: seq<Interval>, active: seq<nat>, at: nat, j: nat): (e: nat)
    requires Indices(ivs, active) && j <= |active|
    ensures j <= e <= |active|
    ensures forall i :: j <= i < e ==> ivs[active[i]].end < at
    ensures e < |active| ==> at <= ivs[active[e]].end
    decreases |active| - j
  {
    if j < |active| && ivs[active[j]].end < at then EndedBefore(ivs, active, at, j + 1) else j
  }

  /** The registers of the active intervals, in order. */
  function Held(reg: seq<int>, active: seq<nat>): (h: seq<int>)
    requires forall j :: 0 <= j < |active| ==> active[j] < |reg|
    ensures |h| == |active| && forall j :: 0 <= j < |h| ==> h[j] == reg[active[j]]
  {
    seq(|active|, j requires 0 <= j < |active| => reg[active[j]])
  }

  /** Intervals that ended before point at give their registers back, in list order. */
  function Expire(ivs: seq<Interval>, s: Alloc, at: nat): (r: Alloc)
    requires |s.reg| == |ivs| && Indices(ivs, s.active)
    ensures r.reg == s.reg && Indices(ivs, r.active)
    ensures |r.free| + |r.active| == |s.free| + |s.active| && |r.free| >= |s.free|
  {
    var e := EndedBefore(ivs, s.active, at, 0);
    Alloc(s.reg, s.active[e..], s.free + Held(s.reg, s.active[..e]))
  }

  /** The place of n in the active list: before the first interval that ends later. */
  function InsertAt(ivs: seq<Interval>, active: seq<nat>, n: nat, j: nat): (p: nat)
    requires n < |ivs| && Indices(ivs, active) && j <= |active|
    ensures j <= p <= |active|
    ensures forall i :: j <= i < p ==> ivs[active[i]].end <= ivs[n].end
    ensures p < |active| ==> ivs[n].end < ivs[active[p]].end
    decreases |active| - j
  {
    if j < |active| && ivs[active[j]].end <= ivs[n].end then InsertAt(ivs, active, n, j + 1) else j
  }

  function AddActive(ivs: seq<Interval>, active: seq<nat>, n: nat): (a: seq<nat>)
    requires n < |ivs| && Indices(ivs, active)
    ensures Indices(ivs, a) && |a| == |active| + 1
  {
    var p := InsertAt(ivs, active, n, 0);
    active[..p] + [n] + active[p..]
  }

  /** No register is free: whichever of n and the last active interval ends later goes to memory. */
  function Spill(ivs: seq<Interval>, s: Alloc, n: nat): (r: Alloc)
    requires |s.reg| == |ivs| && Indices(ivs, s.active) && n < |ivs| && s.active != []
    ensures |r.reg| == |ivs| && Indices(ivs, r.active)
    ensures r.free == s.free && |r.active| == |s.active|
  {
    var last := s.active[|s.active| - 1];
    if ivs[last].end > ivs[n].end then
      Alloc(s.reg[n := s.reg[last]][last := NO_REGISTER],
            AddActive(ivs, s.active[..|s.active| - 1], n), s.free)
    else
      s.(reg := s.reg[n := NO_REGISTER])
  }

  function Step(ivs: seq<Interval>, s: Alloc, n: nat): (r: Alloc)
    requires |s.reg| == |ivs| && Indices(ivs, s.active) && n < |ivs|
    requires |s.free| + |s.active| > 0
    ensures |r.reg| == |ivs| && Indices(ivs, r.active)
    ensures |r.free| + |r.active| == |s.free| + |s.active|
  {
    var e := Expire(ivs, s, ivs[n].start);
    if e.free == [] then Spill(ivs, e, n)
    else
      Alloc(e.reg[n := e.free[|e.free| - 1]], AddActive(ivs, e.active, n), e.free[..|e.free| - 1])
  }

  /** The state after the first k intervals.  The register fields start at zero (calloc). */
  function Scan(ivs: seq<Interval>, count: nat, k: nat): (s: Alloc)
    requires k <= |ivs| && count > 0
    ensures |s.reg| == |ivs| && Indices(ivs, s.active) && |s.free| + |s.active| == count
  {
    if k == 0 then Alloc(seq(|ivs|, _ => 0), [], Pool(count))
    else Step(ivs, Scan(ivs, count, k - 1), k - 1)
  }

  // ----- what every reachable state keeps -----

  ghost predicate Below(active: seq<nat>, k: nat) {
    forall j :: 0 <= j < |active| ==> active[j] < k
  }

  ghost predicate ByEnd(ivs: seq<Interval>, active: seq<nat>)
    requires Indices(ivs, active)
  {
    forall i, j :: 0 <= i < j < |active| ==> active[i] != active[j] && ivs[active[i]].end <= ivs[active[j]].end
  }

  /** The free registers and the held ones are together a permutation of 0..count-1. */
  ghost predicate Conserved(count: nat, reg: seq<int>, active: seq<nat>, free: seq<int>)
    requires Below(active, |reg|)
  {
    multiset(free + Held(reg, active)) == multiset(Pool(count))
  }

  /** Overlapping intervals among the first k that hold a register hold different ones. */
  ghost predicate Separated(ivs: seq<Interval>, count: nat, reg: seq<int>, k: nat)
    requires k <= |ivs| == |reg|
  {
    && (forall i :: 0 <= i < k ==> reg[i] == NO_REGISTER || 0 <= reg[i] < count)
    && (forall i, j :: 0 <= i < j < k && reg[i] != NO_REGISTER && reg[j] != NO_REGISTER && Overlap(ivs[i], ivs[j])
          ==> reg[i] != reg[j])
  }

  /** Every register holder that is no longer active ended before point at. */
  ghost predicate Expired(ivs: seq<Interval>, reg: seq<int>, active: seq<nat>, k: nat, at: nat)
    requires k <= |ivs| == |reg|
  {
    forall i :: 0 <= i < k && reg[i] != NO_REGISTER && i !in active ==> ivs[i].end < at
  }

  /** The invariant of the scan with k intervals done. */
  ghost predicate Inv(ivs: seq<Interval>, count: nat, s: Alloc, k: nat, at: nat) {
    && k <= |ivs| == |s.reg| && Indices(ivs, s.active) && Below(s.active, k)
    && ByEnd(ivs, s.active)
    && Conserved(count, s.reg, s.active, s.free)
    && Separated(ivs, count, s.reg, k)
    && Expired(ivs, s.reg, s.active, k, at)
  }

  lemma {:induction false} PoolMultiplicity(count: nat, x: int)
    ensures multiset(Pool(count))[x] == if 0 <= x < count then 1 else 0
  {
    if count > 0 {
      assert Pool(count) == [count - 1] + Pool(count - 1);
      PoolMultiplicity(count - 1, x);
    }
  }

  lemma PermutationDistinct(p: seq<int>, count: nat)
    requires multiset(p) == multiset(Pool(count))
    ensures |p| == count
    ensures forall i :: 0 <= i < |p| ==> 0 <= p[i] < count
    ensures forall i, j :: 0 <= i < j < |p| ==> p[i] != p[j]
  {
    assert |multiset(p)| == |multiset(Pool(count))|;
    forall i | 0 <= i < |p| ensures 0 <= p[i] < count {
      assert p[i] in multiset(p);
      PoolMultiplicity(count, p[i]);
    }
    forall i, j | 0 <= i < j < |p| ensures p[i] != p[j] {
      PoolMultiplicity(count, p[j]);
      assert p == p[..j] + p[j..];
      assert p[i] == p[..j][i] && p[j] == p[j..][0];
    }
  }

  /** The active list stays sorted by end. */
  lemma AddActiveSorted(ivs: seq<Interval>, active: seq<nat>, n: nat)
    requires n < |ivs| && Indices(ivs, active) && ByEnd(ivs, active) && n !in active
    ensures ByEnd(ivs, AddActive(ivs, active, n))
  {
    var p := InsertAt(ivs, active, n, 0);
    var a := AddActive(ivs, active, n);
    forall i, j | 0 <= i < j < |a| ensures a[i] != a[j] && ivs[a[i]].end <= ivs[a[j]].end {
      assert a[i] == if i < p then active[i] else if i == p then n else active[i - 1];
      assert a[j] == if j < p then active[j] else if j == p then n else active[j - 1];
      assert j > p ==> ivs[active[p]].end <= ivs[active[j - 1]].end;
    }
  }

  lemma HeldInsert(reg: seq<int>, active: seq<nat>, n: nat, r: int, p: nat)
    requires Below(active, |reg|) && n < |reg| && n !in active && p <= |active|
    ensures var h := Held(reg, active);
      Held(reg[n := r], active[..p] + [n] + active[p..]) == h[..p] + [r] + h[p..]
  {
  }

  /** A register off the free list is held by nobody, and taking it loses none. */
  lemma TakeConserves(count: nat, free: seq<int>, h: seq<int>, r: int, p: nat)
    requires multiset([r] + free + h) == multiset(Pool(count)) && p <= |h|
    ensures multiset(free + (h[..p] + [r] + h[p..])) == multiset(Pool(count))
    ensures 0 <= r < count && r !in h
  {
    assert h == h[..p] + h[p..];
    var all := [r] + free + h;
    PermutationDistinct(all, count);
    assert all[0] == r;
    forall j | 0 <= j < |h| ensures h[j] != r {
      assert all[1 + |free| + j] == h[j];
    }
  }

  lemma TakeSeparated(ivs: seq<Interval>, count: nat, reg: seq<int>, active: seq<nat>, n: nat, r: int)
    requires n < |ivs| == |reg| && Below(active, n) && 0 <= r < count
    requires Separated(ivs, count, reg, n) && Expired(ivs, reg, active, n, ivs[n].start)
    requires forall x :: x in active ==> reg[x] != r
    ensures Separated(ivs, count, reg[n := r], n + 1)
  {
  }

  lemma TakeExpired(ivs: seq<Interval>, reg: seq<int>, active: seq<nat>, n: nat, r: int, p: nat, at: nat)
    requires n < |ivs| == |reg| && p <= |active| && Expired(ivs, reg, active, n, at)
    ensures Expired(ivs, reg[n := r], active[..p] + [n] + active[p..], n + 1, at)
  {
    var a := active[..p] + [n] + active[p..];
    assert n in a;
    forall x | x in active ensures x in a {
      assert active == active[..p] + active[p..];
    }
  }

  lemma HeldSplit(free: seq<int>, reg: seq<int>, active: seq<nat>, e: nat)
    requires Below(active, |reg|) && e <= |active|
    ensures free + Held(reg, active[..e]) + Held(reg, active[e..]) == free + Held(reg, active)
  {
    assert Held(reg, active[..e]) == Held(reg, active)[..e];
    assert Held(reg, active[e..]) == Held(reg, active)[e..];
  }

  lemma ExpireConserves(ivs: seq<Interval>, count: nat, s: Alloc, at: nat)
    requires |s.reg| == |ivs| && Indices(ivs, s.active) && Conserved(count, s.reg, s.active, s.free)
    ensures var r := Expire(ivs, s, at); Conserved(count, s.reg, r.active, r.free)
  {
    HeldSplit(s.free, s.reg, s.active, EndedBefore(ivs, s.active, at, 0));
    hide Held, Pool, EndedBefore;
  }

  lemma ExpireExpired(ivs: seq<Interval>, s: Alloc, k: nat, from: nat, at: nat)
    requires k <= |s.reg| == |ivs| && Indices(ivs, s.active) && from <= at
    requires Expired(ivs, s.reg, s.active, k, from)
    ensures Expired(ivs, s.reg, Expire(ivs, s, at).active, k, at)
  {
    var e := EndedBefore(ivs, s.active, at, 0);
    var r := Expire(ivs, s, at);
    assert s.active == s.active[..e] + r.active;
    forall i | 0 <= i < k && s.reg[i] != NO_REGISTER && i !in r.active ensures ivs[i].end < at {
      if i in s.active {
        assert i in s.active[..e];
      }
    }
  }

  lemma ExpireByEnd(ivs: seq<Interval>, s: Alloc, k: nat, at: nat)
    requires |s.reg| == |ivs| && Indices(ivs, s.active) && ByEnd(ivs, s.active) && Below(s.active, k)
    ensures var r := Expire(ivs, s, at);
      && ByEnd(ivs, r.active) && Below(r.active, k)
      && forall x :: x in r.active ==> at <= ivs[x].end
  {
    var e := EndedBefore(ivs, s.active, at, 0);
    forall x | x in Expire(ivs, s, at).active ensures at <= ivs[x].end {
      var j :| e <= j < |s.active| && s.active[j] == x;
      assert ivs[s.active[e]].end <= ivs[s.active[j]].end;
    }
  }

  lemma ExpireKeeps(ivs: seq<Interval>, count: nat, s: Alloc, k: nat, from: nat, at: nat)
    requires Inv(ivs, count, s, k, from) && from <= at
    ensures Inv(ivs, count, Expire(ivs, s, at), k, at)
    ensures forall x :: x in Expire(ivs, s, at).active ==> at <= ivs[x].end
  {
    ExpireConserves(ivs, count, s, at);
    ExpireExpired(ivs, s, k, from, at);
    ExpireByEnd(ivs, s, k, at);
    hide Separated, Conserved, ByEnd, Expired, Below;
  }

  /** Interval n takes register r off the free list. */
  lemma TakeKeeps(ivs: seq<Interval>, count: nat, reg: seq<int>, active: seq<nat>, free: seq<int>, n: nat, r: int)
    requires n < |ivs| == |reg| && Below(active, n) && ByEnd(ivs, active)
    requires Separated(ivs, count, reg, n) && Expired(ivs, reg, active, n, ivs[n].start)
    requires multiset([r] + free + Held(reg, active)) == multiset(Pool(count))
    ensures Inv(ivs, count, Alloc(reg[n := r], AddActive(ivs, active, n), free), n + 1, ivs[n].start)
  {
    var p := InsertAt(ivs, active, n, 0);
    var h := Held(reg, active);
    assert n !in active;
    AddActiveSorted(ivs, active, n);
    HeldInsert(reg, active, n, r, p);
    TakeConserves(count, free, h, r, p);
    forall x | x in active ensures reg[x] != r {
      var j :| 0 <= j < |active| && active[j] == x;
      assert h[j] == reg[x];
    }
    TakeSeparated(ivs, count, reg, active, n, r);
    TakeExpired(ivs, reg, active, n, r, p, ivs[n].start);
    hide Separated, ByEnd, Expired;
    assert Conserved(count, reg[n := r], AddActive(ivs, active, n), free);
  }

  lemma HeldEvict(reg: seq<int>, active: seq<nat>, n: nat, r: int, m: nat)
    requires Below(active, |reg|) && n < |reg| && m <= |active| && n !in active[..m]
    ensures Held(reg[n := r], active[..m]) == Held(reg, active)[..m]
  {
  }

  /** The last active interval loses its register. */
  lemma EvictConserves(count: nat, reg: seq<int>, active: seq<nat>)
    requires active != [] && Below(active, |reg|) && Conserved(count, reg, active, [])
    requires active[|active| - 1] !in active[..|active| - 1]
    ensures var m := |active| - 1;
      multiset([reg[active[m]]] + [] + Held(reg[active[m] := NO_REGISTER], active[..m])) == multiset(Pool(count))
  {
    var m := |active| - 1;
    var h := Held(reg, active);
    HeldEvict(reg, active, active[m], NO_REGISTER, m);
    assert [] + h == h == h[..m] + [h[m]];
    hide *;
    assert multiset([h[m]] + [] + h[..m]) == multiset(h[..m] + [h[m]]);
  }

  lemma EvictKeeps(ivs: seq<Interval>, count: nat, s: Alloc, n: nat)
    requires n < |ivs| && Inv(ivs, count, s, n, ivs[n].start)
    requires s.active != []
    ensures var m := |s.active| - 1;
      var reg := s.reg[s.active[m] := NO_REGISTER];
      && s.active[m] !in s.active[..m] && Below(s.active[..m], n) && ByEnd(ivs, s.active[..m])
      && Separated(ivs, count, reg, n) && Expired(ivs, reg, s.active[..m], n, ivs[n].start)
  {
    var m := |s.active| - 1;
    assert s.active == s.active[..m] + [s.active[m]];
    hide Conserved;
  }

  lemma SpillNewKeeps(ivs: seq<Interval>, count: nat, s: Alloc, n: nat)
    requires n < |ivs| && Inv(ivs, count, s, n, ivs[n].start)
    ensures Inv(ivs, count, s.(reg := s.reg[n := NO_REGISTER]), n + 1, ivs[n].start)
  {
    assert Held(s.reg[n := NO_REGISTER], s.active) == Held(s.reg, s.active);
  }

  lemma SpillOldKeeps(ivs: seq<Interval>, count: nat, s: Alloc, n: nat)
    requires n < |ivs| && Inv(ivs, count, s, n, ivs[n].start)
    requires s.free == [] && s.active != []
    requires ivs[s.active[|s.active| - 1]].end > ivs[n].end
    ensures Inv(ivs, count, Spill(ivs, s, n), n + 1, ivs[n].start)
  {
    var m := |s.active| - 1;
    var last := s.active[m];
    var reg := s.reg[last := NO_REGISTER];
    assert last < n && Conserved(count, s.reg, s.active, []);
    assert Spill(ivs, s, n) == Alloc(reg[n := s.reg[last]], AddActive(ivs, s.active[..m], n), []) by {
      assert s.reg[n := s.reg[last]][last := NO_REGISTER] == reg[n := s.reg[last]];
    }
    EvictKeeps(ivs, count, s, n);
    hide *;
    EvictConserves(count, s.reg, s.active);
    TakeKeeps(ivs, count, reg, s.active[..m], [], n, s.reg[last]);
  }

  lemma SpillKeeps(ivs: seq<Interval>, count: nat, s: Alloc, n: nat)
    requires n < |ivs| && Inv(ivs, count, s, n, ivs[n].start)
    requires s.free == [] && s.active != []
    ensures Inv(ivs, count, Spill(ivs, s, n), n + 1, ivs[n].start)
  {
    if ivs[s.active[|s.active| - 1]].end > ivs[n].end {
      SpillOldKeeps(ivs, count, s, n);
    } else {
      assert Spill(ivs, s, n) == s.(reg := s.reg[n := NO_REGISTER]);
      SpillNewKeeps(ivs, count, s, n);
    }
    hide *;
  }

  lemma PopKeeps(ivs: seq<Interval>, count: nat, e: Alloc, n: nat)
    requires n < |ivs| && Inv(ivs, count, e, n, ivs[n].start) && e.free != []
    ensures var m := |e.free| - 1;
      Inv(ivs, count, Alloc(e.reg[n := e.free[m]], AddActive(ivs, e.active, n), e.free[..m]), n + 1, ivs[n].start)
  {
    var m := |e.free| - 1;
    assert multiset([e.free[m]] + e.free[..m] + Held(e.reg, e.active)) == multiset(Pool(count)) by {
      assert e.free == e.free[..m] + [e.free[m]];
    }
    hide *;
    TakeKeeps(ivs, count, e.reg, e.active, e.free[..m], n, e.free[m]);
  }

  lemma StepKeeps(ivs: seq<Interval>, count: nat, s: Alloc, n: nat, from: nat)
    requires n < |ivs| && Inv(ivs, count, s, n, from) && from <= ivs[n].start
    requires |s.free| + |s.active| > 0
    ensures Inv(ivs, count, Step(ivs, s, n), n + 1, ivs[n].start)
  {
    var e := Expire(ivs, s, ivs[n].start);
    var m := |e.free| - 1;
    assert Step(ivs, s, n) == if e.free == [] then Spill(ivs, e, n)
      else Alloc(e.reg[n := e.free[m]], AddActive(ivs, e.active, n), e.free[..m]);
    hide *;
    ExpireKeeps(ivs, count, s, n, from, ivs[n].start);
    if e.free == [] {
      SpillKeeps(ivs, count, e, n);
    } else {
      PopKeeps(ivs, count, e, n);
    }
  }

  ghost function Reached(ivs: seq<Interval>, k: nat): nat
    requires k <= |ivs|
  {
    if k == 0 then 0 else ivs[k - 1].start
  }

  lemma InitKeeps(ivs: seq<Interval>, count: nat)
    requires count > 0
    ensures Inv(ivs, count, Scan(ivs, count, 0), 0, Reached(ivs, 0))
  {
    var s := Scan(ivs, count, 0);
    assert s.free + Held(s.reg, s.active) == Pool(count);
  }

  lemma ScanStep(ivs: seq<Interval>, count: nat, k: nat)
    requires count > 0 && k < |ivs|
    ensures var s := Scan(ivs, count, k);
      && |s.reg| == |ivs| && Indices(ivs, s.active) && |s.free| + |s.active| == count
      && Scan(ivs, count, k + 1) == Step(ivs, s, k)
    ensures Sorted(ivs) ==> Reached(ivs, k) <= ivs[k].start == Reached(ivs, k + 1)
  {
    hide Step, Indices;
  }

  /** Allocation safety: the invariant holds after every interval. */
  lemma {:induction false} ScanKeeps(ivs: seq<Interval>, count: nat, k: nat)
    requires Sorted(ivs) && count > 0 && k <= |ivs|
    ensures Inv(ivs, count, Scan(ivs, count, k), k, Reached(ivs, k))
  {
    hide *;
    if k == 0 {
      InitKeeps(ivs, count);
    } else {
      ScanStep(ivs, count, k - 1);
      ScanKeeps(ivs, count, k - 1);
      StepKeeps(ivs, count, Scan(ivs, count, k - 1), k - 1, Reached(ivs, k - 1));
    }
  }
}
