/** Linear scan spills as little as possible: no assignment of the same number of registers that
    keeps overlapping intervals apart leaves more intervals in registers.

    The scan stays ahead of every valid assignment: after each interval, and for every point t,
    it has kept at least as many intervals that end before t.  Evicting the interval that ends
    last is what preserves this. */
module LinearScanOptimal {
  import opened LinearScan

  ghost function Kept(reg: seq<int>): set<nat> {
    set i: nat | i < |reg| && reg[i] != NO_REGISTER
  }

  /** A valid assignment: registers in range, overlapping holders apart. */
  ghost predicate Valid(ivs: seq<Interval>, count: nat, asg: seq<int>) {
    |asg| == |ivs| && Separated(ivs, count, asg, |ivs|)
  }

  ghost function Finished(ivs: seq<Interval>, reg: seq<int>, k: nat, t: nat): set<nat>
    requires k <= |ivs| == |reg|
  {
    set i: nat | i < k && reg[i] != NO_REGISTER && ivs[i].end < t
  }

  /** The register holders among the first n+1 that are live where interval n starts. */
  ghost function Crowd(ivs: seq<Interval>, reg: seq<int>, n: nat): set<nat>
    requires n < |ivs| == |reg|
  {
    set i: nat | i < n + 1 && reg[i] != NO_REGISTER && ivs[n].start <= ivs[i].end
  }

  lemma SubsetCardinality<T>(a: set<T>, b: set<T>)
    requires a <= b
    ensures |a| <= |b|
  {
    assert b == a + (b - a);
  }

  lemma {:induction false} Pigeonhole(s: set<nat>, reg: seq<int>, count: nat)
    requires forall i :: i in s ==> i < |reg| && 0 <= reg[i] < count
    requires forall i, j :: i in s && j in s && i != j ==> reg[i] != reg[j]
    ensures |s| <= count
    decreases count
  {
    if s != {} {
      var i :| i in s;
      if count == 1 {
        assert s == {i};
      } else if exists j :: j in s && reg[j] == count - 1 {
        var j :| j in s && reg[j] == count - 1;
        Pigeonhole(s - {j}, reg, count - 1);
      } else {
        Pigeonhole(s, reg, count - 1);
      }
    }
  }

  /** Intervals live at one point overlap pairwise, so at most count of them hold registers. */
  lemma CrowdFits(ivs: seq<Interval>, count: nat, asg: seq<int>, n: nat)
    requires Sorted(ivs) && n < |ivs| && Valid(ivs, count, asg)
    ensures |Crowd(ivs, asg, n)| <= count
  {
    var c := Crowd(ivs, asg, n);
    forall i, j | i in c && j in c && i < j ensures asg[i] != asg[j] {
      assert Overlap(ivs[i], ivs[j]);
    }
    forall i, j | i in c && j in c && i != j ensures asg[i] != asg[j] {
      assert i < j || j < i;
    }
    Pigeonhole(c, asg, count);
  }

  lemma FinishedOrCrowd(ivs: seq<Interval>, count: nat, asg: seq<int>, n: nat, t: nat)
    requires Sorted(ivs) && n < |ivs| && Valid(ivs, count, asg)
    ensures |Finished(ivs, asg, n + 1, t)| <= |Finished(ivs, asg, n, ivs[n].start)| + count
  {
    var f, c := Finished(ivs, asg, n, ivs[n].start), Crowd(ivs, asg, n);
    CrowdFits(ivs, count, asg, n);
    assert Finished(ivs, asg, n + 1, t) <= f + c;
    SubsetCardinality(Finished(ivs, asg, n + 1, t), f + c);
  }

  lemma FinishedGrows(ivs: seq<Interval>, asg: seq<int>, n: nat, t: nat)
    requires n < |ivs| == |asg|
    ensures |Finished(ivs, asg, n + 1, t)| <= |Finished(ivs, asg, n, t)| + if ivs[n].end < t then 1 else 0
  {
    var f := Finished(ivs, asg, n, t);
    var g := if ivs[n].end < t then {n} else {};
    assert Finished(ivs, asg, n + 1, t) <= f + g;
    SubsetCardinality(Finished(ivs, asg, n + 1, t), f + g);
  }

  lemma FinishedTake(ivs: seq<Interval>, reg: seq<int>, reg': seq<int>, n: nat, t: nat)
    requires n < |ivs| == |reg| == |reg'| && (ivs[n].end < t ==> reg'[n] != NO_REGISTER)
    requires forall i: nat :: i < n && reg[i] != NO_REGISTER && ivs[i].end < t ==> reg'[i] != NO_REGISTER
    ensures |Finished(ivs, reg', n + 1, t)| >= |Finished(ivs, reg, n, t)| + if ivs[n].end < t then 1 else 0
  {
    var f := Finished(ivs, reg, n, t);
    var g := if ivs[n].end < t then {n} else {};
    assert f + g <= Finished(ivs, reg', n + 1, t);
    assert f !! g;
    SubsetCardinality(f + g, Finished(ivs, reg', n + 1, t));
  }

  ghost function Elements(active: seq<nat>): set<nat> {
    set x | x in active
  }

  lemma {:induction false} ListCardinality(active: seq<nat>)
    requires forall i, j :: 0 <= i < j < |active| ==> active[i] != active[j]
    ensures |Elements(active)| == |active|
  {
    if active == [] {
      assert Elements(active) == {};
    } else {
      var m := |active| - 1;
      var front := active[..m];
      ListCardinality(front);
      assert active == front + [active[m]];
      assert Elements(active) == Elements(front) + {active[m]};
    }
  }

  lemma ActiveHold(ivs: seq<Interval>, count: nat, s: Alloc, k: nat, at: nat)
    requires Inv(ivs, count, s, k, at)
    ensures forall x :: x in s.active ==> s.reg[x] != NO_REGISTER
  {
    var h := Held(s.reg, s.active);
    var all := s.free + h;
    assert multiset(all) == multiset(Pool(count));
    PermutationDistinct(all, count);
    forall x | x in s.active ensures s.reg[x] != NO_REGISTER {
      var j :| 0 <= j < |s.active| && s.active[j] == x;
      assert all[|s.free| + j] == h[j] == s.reg[x];
    }
  }

  /** The scan stays ahead of asg on the first k intervals. */
  ghost predicate Ahead(ivs: seq<Interval>, reg: seq<int>, asg: seq<int>, k: nat)
    requires k <= |ivs| == |reg| == |asg|
  {
    forall t: nat :: AheadAt(ivs, reg, asg, k, t)
  }

  ghost predicate AheadAt(ivs: seq<Interval>, reg: seq<int>, asg: seq<int>, k: nat, t: nat)
    requires k <= |ivs| == |reg| == |asg|
  {
    |Finished(ivs, asg, k, t)| <= |Finished(ivs, reg, k, t)|
  }

  lemma TakeAhead(ivs: seq<Interval>, reg: seq<int>, asg: seq<int>, n: nat, r: int)
    requires n < |ivs| == |reg| == |asg| && r != NO_REGISTER
    requires Ahead(ivs, reg, asg, n)
    ensures Ahead(ivs, reg[n := r], asg, n + 1)
  {
    var reg', k := reg[n := r], n + 1;
    forall t: nat ensures AheadAt(ivs, reg', asg, k, t) {
      assert AheadAt(ivs, reg, asg, n, t);
      FinishedGrows(ivs, asg, n, t);
      FinishedTake(ivs, reg, reg', n, t);
    }
  }

  /** Past the end of every register holder: all of them and all those before are finished. */
  lemma AllFinished(ivs: seq<Interval>, count: nat, reg: seq<int>, s: Alloc, n: nat, t: nat)
    requires n < |ivs| == |reg| && Inv(ivs, count, s, n + 1, ivs[n].start)
    requires |s.active| == count
    requires forall x :: x in s.active ==> ivs[n].start <= ivs[x].end < t
    requires forall i: nat :: i < n && reg[i] != NO_REGISTER && ivs[i].end < ivs[n].start ==> s.reg[i] != NO_REGISTER
    requires ivs[n].start <= t
    ensures |Finished(ivs, s.reg, n + 1, t)| >= |Finished(ivs, reg, n, ivs[n].start)| + count
  {
    var f, a := Finished(ivs, reg, n, ivs[n].start), Elements(s.active);
    ActiveHold(ivs, count, s, n + 1, ivs[n].start);
    ListCardinality(s.active);
    assert f !! a;
    assert f + a <= Finished(ivs, s.reg, n + 1, t);
    SubsetCardinality(f + a, Finished(ivs, s.reg, n + 1, t));
  }

  /** All registers are taken; of the holders and interval n, the one that ends last at m is
      left without. */
  lemma SpillAhead(ivs: seq<Interval>, count: nat, reg: seq<int>, s: Alloc, asg: seq<int>, n: nat, m: nat)
    requires Sorted(ivs) && n < |ivs| == |reg| && Valid(ivs, count, asg)
    requires Ahead(ivs, reg, asg, n)
    requires Inv(ivs, count, s, n + 1, ivs[n].start) && |s.active| == count
    requires forall x :: x in s.active ==> ivs[n].start <= ivs[x].end <= m
    requires ivs[n].end <= m && (ivs[n].end < m ==> s.reg[n] != NO_REGISTER)
    requires forall i: nat :: i < n && reg[i] != NO_REGISTER && ivs[i].end < m ==> s.reg[i] != NO_REGISTER
    ensures Ahead(ivs, s.reg, asg, n + 1)
  {
    var k := n + 1;
    forall t: nat ensures AheadAt(ivs, s.reg, asg, k, t) {
      assert AheadAt(ivs, reg, asg, n, t) && AheadAt(ivs, reg, asg, n, ivs[n].start);
      if t <= m {
        FinishedGrows(ivs, asg, n, t);
        FinishedTake(ivs, reg, s.reg, n, t);
      } else {
        FinishedOrCrowd(ivs, count, asg, n, t);
        AllFinished(ivs, count, reg, s, n, t);
      }
    }
  }

  lemma SpillStepAhead(ivs: seq<Interval>, count: nat, e: Alloc, asg: seq<int>, n: nat)
    requires Sorted(ivs) && n < |ivs| && Valid(ivs, count, asg) && count > 0
    requires Inv(ivs, count, e, n, ivs[n].start) && e.free == [] && |e.active| == count
    requires forall x :: x in e.active ==> ivs[n].start <= ivs[x].end
    requires Ahead(ivs, e.reg, asg, n)
    ensures Ahead(ivs, Spill(ivs, e, n).reg, asg, n + 1)
  {
    var s := Spill(ivs, e, n);
    var last := e.active[|e.active| - 1];
    SpillKeeps(ivs, count, e, n);
    LastEndsLast(ivs, e.active);
    ActiveHold(ivs, count, e, n, ivs[n].start);
    SpilledActive(ivs, e, n);
    hide Inv, Ahead, Valid, AddActive;
    SpillAhead(ivs, count, e.reg, s, asg, n, if ivs[last].end > ivs[n].end then ivs[last].end else ivs[n].end);
  }

  lemma LastEndsLast(ivs: seq<Interval>, active: seq<nat>)
    requires active != [] && Indices(ivs, active) && ByEnd(ivs, active)
    ensures forall x :: x in active ==> ivs[x].end <= ivs[active[|active| - 1]].end
  {
  }

  lemma SpilledActive(ivs: seq<Interval>, e: Alloc, n: nat)
    requires |e.reg| == |ivs| && Indices(ivs, e.active) && n < |ivs| && e.active != []
    ensures forall x :: x in Spill(ivs, e, n).active ==> x in e.active || x == n
    ensures forall x :: x in Spill(ivs, e, n).active && x == n ==> n in e.active || ivs[e.active[|e.active| - 1]].end > ivs[n].end
  {
  }

  lemma StepAhead(ivs: seq<Interval>, count: nat, s: Alloc, asg: seq<int>, n: nat, from: nat)
    requires Sorted(ivs) && n < |ivs| && Valid(ivs, count, asg) && count > 0
    requires Inv(ivs, count, s, n, from) && from <= ivs[n].start
    requires |s.free| + |s.active| == count
    requires Ahead(ivs, s.reg, asg, n)
    ensures Ahead(ivs, Step(ivs, s, n).reg, asg, n + 1)
  {
    var e := Expire(ivs, s, ivs[n].start);
    ExpireKeeps(ivs, count, s, n, from, ivs[n].start);
    if e.free == [] {
      SpillStepAhead(ivs, count, e, asg, n);
    } else {
      var m := |e.free| - 1;
      FreeHold(ivs, count, e, n, ivs[n].start);
      TakeAhead(ivs, e.reg, asg, n, e.free[m]);
    }
    hide Ahead;
  }

  lemma FreeHold(ivs: seq<Interval>, count: nat, s: Alloc, k: nat, at: nat)
    requires Inv(ivs, count, s, k, at)
    ensures forall j :: 0 <= j < |s.free| ==> s.free[j] != NO_REGISTER
  {
    var all := s.free + Held(s.reg, s.active);
    assert multiset(all) == multiset(Pool(count));
    PermutationDistinct(all, count);
    forall j | 0 <= j < |s.free| ensures s.free[j] != NO_REGISTER {
      assert all[j] == s.free[j];
    }
  }

  lemma InitAhead(ivs: seq<Interval>, reg: seq<int>, asg: seq<int>)
    requires |ivs| == |reg| == |asg|
    ensures Ahead(ivs, reg, asg, 0)
  {
    forall t: nat ensures AheadAt(ivs, reg, asg, 0, t) {
      assert Finished(ivs, asg, 0, t) == {};
    }
  }

  lemma {:induction false} ScanAhead(ivs: seq<Interval>, count: nat, asg: seq<int>, k: nat)
    requires Sorted(ivs) && count > 0 && k <= |ivs| == |asg| && Valid(ivs, count, asg)
    ensures Ahead(ivs, Scan(ivs, count, k).reg, asg, k)
  {
    hide *;
    if k == 0 {
      InitAhead(ivs, Scan(ivs, count, k).reg, asg);
    } else {
      ScanAhead(ivs, count, asg, k - 1);
      ScanKeeps(ivs, count, k - 1);
      ScanStep(ivs, count, k - 1);
      StepAhead(ivs, count, Scan(ivs, count, k - 1), asg, k - 1, Reached(ivs, k - 1));
    }
  }

  /** Linear scan is optimal. */
  lemma ScanOptimal(ivs: seq<Interval>, count: nat, asg: seq<int>)
    requires Sorted(ivs) && count > 0 && Valid(ivs, count, asg)
    ensures Valid(ivs, count, Scan(ivs, count, |ivs|).reg)
    ensures |Kept(asg)| <= |Kept(Scan(ivs, count, |ivs|).reg)|
  {
    var n := |ivs|;
    var reg := Scan(ivs, count, n).reg;
    ScanKeeps(ivs, count, n);
    ScanAhead(ivs, count, asg, n);
    var t := Horizon(ivs);
    assert Finished(ivs, asg, n, t) == Kept(asg) && Finished(ivs, reg, n, t) == Kept(reg);
    assert AheadAt(ivs, reg, asg, n, t);
  }

  ghost function Horizon(ivs: seq<Interval>): (t: nat)
    ensures forall i :: 0 <= i < |ivs| ==> ivs[i].end < t
  {
    if ivs == [] then 0
    else
      var m := |ivs| - 1;
      var t := Horizon(ivs[..m]);
      assert forall i :: 0 <= i < m ==> ivs[i] == ivs[..m][i];
      if ivs[m].end < t then t else ivs[m].end + 1
  }
}
