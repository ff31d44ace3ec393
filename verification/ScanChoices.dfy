/** Which register the scan gives, and to whom: ties included. */
module ScanChoices {
  import opened LinearScan
  import opened Allocators

  /** The intervals that ended before the point leave the front of the active list; their registers go
      on top of the pool, in the order in which they ended. */
  lemma ExpireExact(ivs: seq<Interval>, s: Alloc, at: nat)
    requires |s.reg| == |ivs| && Indices(ivs, s.active) && ByEnd(ivs, s.active)
    ensures var r := Expire(ivs, s, at); var gone := |s.active| - |r.active|;
      && gone >= 0 && |r.free| == |s.free| + gone && r.reg == s.reg
      && r.active == s.active[gone..]
      && (forall j :: 0 <= j < |s.active| ==> (j < gone <==> ivs[s.active[j]].end < at))
      && r.free[..|s.free|] == s.free
      && forall j :: 0 <= j < gone ==> r.free[|s.free| + j] == s.reg[s.active[j]]
  {
  }

  /** p is behind the active intervals that end no later than n, and in front of the others. */
  ghost predicate Between(ivs: seq<Interval>, active: seq<nat>, n: nat, p: nat)
    requires n < |ivs| && Indices(ivs, active)
  {
    p <= |active| && forall j :: 0 <= j < |active| ==> (j < p <==> ivs[active[j]].end <= ivs[n].end)
  }

  lemma AddActiveExact(ivs: seq<Interval>, active: seq<nat>, n: nat)
    requires n < |ivs| && Indices(ivs, active) && ByEnd(ivs, active)
    ensures exists p: nat :: Between(ivs, active, n, p) && AddActive(ivs, active, n) == active[..p] + [n] + active[p..]
  {
    var p := InsertAt(ivs, active, n, 0);
    assert AddActive(ivs, active, n) == active[..p] + [n] + active[p..];
    forall j | 0 <= j < |active| ensures j < p <==> ivs[active[j]].end <= ivs[n].end {
      if p < j {
        assert ivs[active[p]].end <= ivs[active[j]].end;
      }
    }
    assert Between(ivs, active, n, p);
  }

  /** No active interval ends later than n. */
  ghost predicate NoneLater(ivs: seq<Interval>, active: seq<nat>, n: nat)
    requires n < |ivs| && Indices(ivs, active)
  {
    forall j :: 0 <= j < |active| ==> ivs[active[j]].end <= ivs[n].end
  }

  lemma LastLatest(ivs: seq<Interval>, active: seq<nat>, n: nat)
    requires n < |ivs| && Indices(ivs, active) && ByEnd(ivs, active) && active != []
    ensures NoneLater(ivs, active, n) <==> ivs[active[|active| - 1]].end <= ivs[n].end
  {
    forall j | 0 <= j < |active| ensures ivs[active[j]].end <= ivs[active[|active| - 1]].end {
    }
  }

  /** Without a free register the interval is spilled itself exactly if no active one ends later;
      otherwise it gets the register of the active interval that comes last, which is spilled.  No other
      register changes. */
  lemma SpillExact(ivs: seq<Interval>, s: Alloc, n: nat)
    requires |s.reg| == |ivs| && Indices(ivs, s.active) && ByEnd(ivs, s.active) && n < |ivs| && s.active != []
    requires n !in s.active
    ensures var r := Spill(ivs, s, n); var last := s.active[|s.active| - 1];
      if NoneLater(ivs, s.active, n) then
        r == s.(reg := r.reg) && r.reg[n] == NO_REGISTER && forall i :: 0 <= i < |ivs| && i != n ==> r.reg[i] == s.reg[i]
      else
        && r.reg[n] == s.reg[last] && r.reg[last] == NO_REGISTER && r.free == s.free
        && (forall i :: 0 <= i < |ivs| && i != n && i != last ==> r.reg[i] == s.reg[i])
        && r.active == AddActive(ivs, s.active[..|s.active| - 1], n)
  {
    LastLatest(ivs, s.active, n);
    assert s.active[|s.active| - 1] in s.active;
    hide AddActive, NoneLater, ByEnd;
  }

  /** With a register free behind the expiry the interval gets the one that was freed last. */
  lemma StepExact(ivs: seq<Interval>, s: Alloc, n: nat)
    requires |s.reg| == |ivs| && Indices(ivs, s.active) && n < |ivs| && |s.free| + |s.active| > 0
    ensures var e, r := Expire(ivs, s, ivs[n].start), Step(ivs, s, n);
      if e.free == [] then r == Spill(ivs, e, n)
      else
        && e.free == r.free + [r.reg[n]] && (forall i :: 0 <= i < |ivs| && i != n ==> r.reg[i] == s.reg[i])
        && r.active == AddActive(ivs, e.active, n)
  {
    hide AddActive, Spill;
  }

  /** The first k intervals hold the registers 0 to k - 1. */
  ghost predicate InTurn(count: nat, k: nat, s: Alloc) {
    && k <= count && k <= |s.reg| && |s.active| == k && Below(s.active, k)
    && |s.free| == count - k && (forall j :: 0 <= j < count - k ==> s.free[j] == count - 1 - j)
    && forall i :: 0 <= i < k ==> s.reg[i] == i
  }

  lemma NextInTurn(ivs: seq<Interval>, count: nat, k: nat, s: Alloc)
    requires k < |ivs| == |s.reg| && k < count && InTurn(count, k, s)
    requires forall i :: 0 <= i < k ==> ivs[k].start <= ivs[i].end
    ensures InTurn(count, k + 1, Step(ivs, s, k))
  {
    assert Indices(ivs, s.active);
    NoneEnded(ivs, s, ivs[k].start);
    StepExact(ivs, s, k);
    OneMore(ivs, s.active, k);
    var r := Step(ivs, s, k);
    assert forall j :: 0 <= j < count - k ==> s.free[j] == (r.free + [r.reg[k]])[j];
    hide Expire, Step, AddActive, Below;
  }

  lemma NoneInTurn(ivs: seq<Interval>, count: nat)
    requires 0 < count
    ensures InTurn(count, 0, Scan(ivs, count, 0))
  {
  }

  lemma ScanNext(ivs: seq<Interval>, count: nat, k: nat)
    requires 0 < k <= |ivs| && 0 < count
    ensures Scan(ivs, count, k) == Step(ivs, Scan(ivs, count, k - 1), k - 1)
  {
    hide Step;
  }

  /** As long as no interval has ended the registers are given out in their order. */
  lemma {:induction false} FirstComeExact(ivs: seq<Interval>, count: nat, k: nat)
    requires 0 < count && k <= |ivs| && k <= count
    requires forall i, j :: 0 <= i < j < k ==> ivs[j].start <= ivs[i].end
    ensures InTurn(count, k, Scan(ivs, count, k))
  {
    hide *;
    if k == 0 {
      NoneInTurn(ivs, count);
    } else {
      FirstComeExact(ivs, count, k - 1);
      ScanNext(ivs, count, k);
      NextInTurn(ivs, count, k - 1, Scan(ivs, count, k - 1));
    }
  }

  lemma NoneEnded(ivs: seq<Interval>, s: Alloc, at: nat)
    requires |s.reg| == |ivs| && Indices(ivs, s.active)
    requires forall j :: 0 <= j < |s.active| ==> at <= ivs[s.active[j]].end
    ensures Expire(ivs, s, at) == s
  {
    assert EndedBefore(ivs, s.active, at, 0) == 0;
    assert s.active[0..] == s.active && s.active[..0] == [] && s.free + [] == s.free;
    assert Held(s.reg, []) == [];
  }

  lemma OneMore(ivs: seq<Interval>, active: seq<nat>, n: nat)
    requires n < |ivs| && Indices(ivs, active) && Below(active, n)
    ensures |AddActive(ivs, active, n)| == |active| + 1 && Below(AddActive(ivs, active, n), n + 1)
  {
  }

  // ----- memory slots -----

  /** Memory slots are given out from zero on, none left out. */
  lemma {:induction false} SlotsDense(reg: seq<int>, k: nat, m: nat) returns (i: nat)
    requires k <= |reg| && m < Spilled(reg, k)
    ensures i < k && reg[i] == NO_REGISTER && SlotOf(reg, i) == m
  {
    if m < Spilled(reg, k - 1) {
      i := SlotsDense(reg, k - 1, m);
    } else {
      i := k - 1;
    }
  }
}
