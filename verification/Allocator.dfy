/** The linear scan as regalloc.c performs it, on lists and fields changed in place. */
module Allocators {
  import opened LinearScan
  import opened Stacks

  /** How many of the first k intervals are in memory: the next free memory slot. */
  function Spilled(reg: seq<int>, k: nat): nat
    requires k <= |reg|
  {
    if k == 0 then 0 else Spilled(reg, k - 1) + if reg[k - 1] == NO_REGISTER then 1 else 0
  }

  /** The memory slot of interval i; an interval with a register has none. */
  function SlotOf(reg: seq<int>, i: nat): int
    requires i < |reg|
  {
    if reg[i] == NO_REGISTER then Spilled(reg, i) else NO_REGISTER
  }

  /** Where interval i lives: its register, or the register count plus its memory slot. */
  function Location(reg: seq<int>, count: nat, i: nat): int
    requires i < |reg|
  {
    if reg[i] == NO_REGISTER then count + Spilled(reg, i) else reg[i]
  }

  lemma NoSlots(reg: seq<int>)
    ensures Spilled(reg, 0) == 0
  {
  }

  lemma SlotNext(reg: seq<int>, n: nat)
    requires n < |reg|
    ensures Spilled(reg, n + 1) == Spilled(reg, n) + if reg[n] == NO_REGISTER then 1 else 0
    ensures SlotOf(reg, n) == if reg[n] == NO_REGISTER then Spilled(reg, n) else NO_REGISTER
  {
  }

  lemma {:induction false} SpilledMonotone(reg: seq<int>, i: nat, j: nat)
    requires i < j <= |reg|
    ensures Spilled(reg, i) + (if reg[i] == NO_REGISTER then 1 else 0) <= Spilled(reg, j)
    decreases j
  {
    if i < j - 1 {
      SpilledMonotone(reg, i, j - 1);
    }
  }

  /** Two intervals share a location only if both hold the same register and do not overlap. */
  lemma LocationsApart(ivs: seq<Interval>, count: nat, reg: seq<int>, i: nat, j: nat)
    requires |reg| == |ivs| && Separated(ivs, count, reg, |ivs|)
    requires i < j < |ivs| && (Overlap(ivs[i], ivs[j]) || reg[i] == NO_REGISTER || reg[j] == NO_REGISTER)
    ensures Location(reg, count, i) != Location(reg, count, j)
  {
    SpilledMonotone(reg, i, j);
  }

  class Allocator {
    const ivs: seq<Interval>   // the interval list, sorted by start
    const count: nat           // REGISTER_COUNT
    var reg: array<int>        // the register field of each interval
    var active: seq<nat>
    var regs: Stack            // the free registers

    ghost predicate Valid()
      reads this, reg, regs
    {
      && reg.Length == |ivs| && Indices(ivs, active) && regs.Valid()
      && reg != regs.stack
    }

    ghost function State(): Alloc
      reads this, reg, regs, regs.stack
      requires Valid()
    {
      Alloc(reg[..], active, regs.Contents())
    }

    /** All registers are pushed, the first one last. */
    constructor (ivs: seq<Interval>, count: nat)
      requires count > 0
      ensures Valid() && fresh(reg) && fresh(regs) && fresh(regs.stack)
      ensures this.ivs == ivs && this.count == count
      ensures State() == Scan(ivs, count, 0)
    {
      this.ivs := ivs;
      this.count := count;
      active := [];
      reg := new int[|ivs|](_ => 0);
      var s := new Stack(count);
      regs := s;
      new;
      var i := count;
      while i > 0
        invariant Valid() && fresh(reg) && fresh(regs) && fresh(regs.stack)
        invariant reg[..] == seq(|ivs|, _ => 0) && active == []
        invariant i <= count && regs.Contents() == Pool(count)[..count - i]
      {
        i := i - 1;
        regs.Push(i);
      }
    }

    method ExpireOld(n: nat)
      requires Valid() && n < |ivs|
      modifies this`active, regs, regs.stack
      ensures Valid() && (regs.stack == old(regs.stack) || fresh(regs.stack))
      ensures State() == Expire(ivs, old(State()), ivs[n].start)
    {
      ghost var j := 0;
      ghost var a, f := active, regs.Contents();
      while active != []
        invariant Valid() && (regs.stack == old(regs.stack) || fresh(regs.stack)) && regs == old(regs)
        invariant j <= |a| && active == a[j..] && reg[..] == old(reg[..])
        invariant regs.Contents() == f + Held(reg[..], a[..j])
        invariant EndedBefore(ivs, a, ivs[n].start, 0) == EndedBefore(ivs, a, ivs[n].start, j)
        decreases |active|
      {
        var t := active[0];
        if ivs[t].end >= ivs[n].start {
          break;
        }
        regs.Push(reg[t]);
        active := active[1..];
        j := j + 1;
      }
    }

    method AddActive(n: nat)
      requires Valid() && n < |ivs|
      modifies this`active
      ensures Valid() && active == LinearScan.AddActive(ivs, old(active), n)
    {
      var j := 0;
      while j < |active| && ivs[n].end >= ivs[active[j]].end
        invariant j <= |active| && active == old(active)
        invariant InsertAt(ivs, active, n, 0) == InsertAt(ivs, active, n, j)
      {
        j := j + 1;
      }
      active := active[..j] + [n] + active[j..];
    }

    method Spill(n: nat)
      requires Valid() && n < |ivs| && active != []
      modifies this`active, reg
      ensures Valid() && State() == LinearScan.Spill(ivs, old(State()), n)
    {
      var last := active[|active| - 1];
      if ivs[last].end > ivs[n].end {
        reg[n] := reg[last];
        reg[last] := NO_REGISTER;
        active := active[..|active| - 1];
        AddActive(n);
      } else {
        reg[n] := NO_REGISTER;
      }
    }

    method TakeRegister(n: nat)
      requires Valid() && n < |ivs| && |regs.Contents()| > 0
      modifies this`active, reg, regs, regs.stack
      ensures Valid() && regs.stack == old(regs.stack)
      ensures var s, m := old(State()), old(|regs.Contents()|) - 1;
        State() == Alloc(s.reg[n := s.free[m]], LinearScan.AddActive(ivs, s.active, n), s.free[..m])
    {
      var r := regs.Pop();
      reg[n] := r;
      AddActive(n);
    }

    method ScanOne(n: nat)
      requires Valid() && n < |ivs| && |regs.Contents()| + |active| > 0
      modifies this`active, reg, regs, regs.stack
      ensures Valid() && (regs.stack == old(regs.stack) || fresh(regs.stack))
      ensures State() == Step(ivs, old(State()), n)
    {
      ghost var s := State();
      ExpireOld(n);
      ghost var e, m := State(), |regs.Contents()| - 1;
      assert Step(ivs, s, n) == if e.free == [] then LinearScan.Spill(ivs, e, n)
        else Alloc(e.reg[n := e.free[m]], LinearScan.AddActive(ivs, e.active, n), e.free[..m]);
      hide Step, Expire, LinearScan.Spill, LinearScan.AddActive;
      var some := regs.NotEmpty();
      if !some {
        Spill(n);
      } else {
        TakeRegister(n);
      }
    }

    method ScanNext(n: nat)
      requires Valid() && n < |ivs| && count > 0 && State() == Scan(ivs, count, n)
      modifies this`active, reg, regs, regs.stack
      ensures Valid() && (regs.stack == old(regs.stack) || fresh(regs.stack))
      ensures State() == Scan(ivs, count, n + 1)
    {
      ScanStep(ivs, count, n);
      hide Scan, Step;
      ScanOne(n);
    }

    method ScanAll()
      requires Valid() && count > 0 && State() == Scan(ivs, count, 0)
      modifies this`active, reg, regs, regs.stack
      ensures Valid() && State() == Scan(ivs, count, |ivs|)
    {
      hide Scan, Indices, State;
      for n := 0 to |ivs|
        invariant Valid() && (regs.stack == old(regs.stack) || fresh(regs.stack))
        invariant regs == old(regs) && State() == Scan(ivs, count, n)
      {
        ScanNext(n);
      }
    }

    /** One interval: the next memory slot, or its register and the mark. */
    method AssignSlot(n: nat, memloc: nat, val: array<int>, sreg: array<int>, inReg: array<bool>) returns (next: nat)
      requires n < |ivs| == reg.Length == val.Length == sreg.Length == inReg.Length
      requires val != reg && sreg != reg && val != sreg
      modifies val, sreg, inReg
      ensures next == memloc + if reg[n] == NO_REGISTER then 1 else 0
      ensures val[n] == if reg[n] == NO_REGISTER then memloc else NO_REGISTER
      ensures sreg[n] == reg[n] && (inReg[n] <==> reg[n] != NO_REGISTER || old(inReg[n]))
      ensures forall i :: 0 <= i < |ivs| && i != n ==> val[i] == old(val[i]) && sreg[i] == old(sreg[i]) && inReg[i] == old(inReg[i])
    {
      next := memloc;
      if reg[n] == NO_REGISTER {
        val[n] := memloc;
        next := memloc + 1;
        sreg[n] := NO_REGISTER;
      } else {
        inReg[n] := true;
        val[n] := NO_REGISTER;
        sreg[n] := reg[n];
      }
    }

    lemma RegSize()
      requires Valid()
      ensures reg.Length == |ivs|
    {
    }

    /** Memory slots are numbered in list order; the holders of registers are marked as assigned. */
    method AssignSlots() returns (val: array<int>, sreg: array<int>, inReg: array<bool>)
      requires Valid()
      ensures fresh(inReg) && inReg.Length == |ivs|
      ensures forall i :: 0 <= i < |ivs| ==> (inReg[i] <==> reg[i] != NO_REGISTER)
      ensures fresh(val) && fresh(sreg) && val.Length == |ivs| && sreg[..] == reg[..]
      ensures forall i :: 0 <= i < |ivs| ==> val[i] == SlotOf(reg[..], i)
    {
      RegSize();
      hide *;
      val := new int[|ivs|](_ => 0);
      sreg := new int[|ivs|](_ => 0);
      inReg := new bool[|ivs|](_ => false);
      var memloc: nat := 0;
      ghost var regNow := reg[..];
      NoSlots(regNow);
      for n := 0 to |ivs|
        invariant fresh(val) && fresh(sreg) && fresh(inReg) && memloc == Spilled(regNow, n)
        invariant forall i :: n <= i < |ivs| ==> !inReg[i]
        invariant forall i :: 0 <= i < n ==> sreg[i] == regNow[i] && (inReg[i] <==> regNow[i] != NO_REGISTER)
        invariant forall i :: 0 <= i < n ==> val[i] == SlotOf(regNow, i)
      {
        SlotNext(regNow, n);
        memloc := AssignSlot(n, memloc, val, sreg, inReg);
      }
    }

    method LinScan() returns (val: array<int>, sreg: array<int>, inReg: array<bool>)
      requires Valid() && count > 0 && State() == Scan(ivs, count, 0)
      modifies this`active, reg, regs, regs.stack
      ensures Valid() && State() == Scan(ivs, count, |ivs|)
      ensures fresh(inReg) && inReg.Length == |ivs|
      ensures forall i :: 0 <= i < |ivs| ==> (inReg[i] <==> reg[i] != NO_REGISTER)
      ensures fresh(val) && fresh(sreg) && val.Length == |ivs| && sreg[..] == reg[..]
      ensures forall i :: 0 <= i < |ivs| ==> val[i] == SlotOf(reg[..], i)
    {
      ScanAll();
      val, sreg, inReg := AssignSlots();
    }
  }
}
