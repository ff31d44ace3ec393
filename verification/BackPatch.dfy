/** Jumps in the emitted code: forward ones get their displacement when the label is reached. */
module BackPatch {
  import opened Options
  import opened Tm
  import opened SpareEnds

  /** What the generator emits, in order.  A Jump emits the boundary stores only when it goes forward;
      a Test, behind its loads and stores, is first emitted with the operand registers in place of a
      displacement. */
  datatype Item =
    | Straight(code: seq<Instr>)
    | Test(stores: seq<Instr>, op: Op, r1: int, r2: int, r3: int, l: nat)
    | Jump(stores: seq<Instr>, l: nat)
    | Mark(l: nat)

  /** An entry of the jump list: a jump that waits for its label, or a label that was reached first. */
  datatype Entry = Entry(l: nat, line: Option<nat>, loc: nat)

  datatype Emission = Emission(code: seq<Instr>, jmps: seq<Entry>)

  predicate Leaps(i: Item) {
    i.Test? || i.Jump?
  }

  /** The first entry for a label, from position k on. */
  function Lookup(jmps: seq<Entry>, l: nat, k: nat): (e: Option<nat>)
    requires k <= |jmps|
    ensures e.Some? ==> k <= e.value < |jmps| && jmps[e.value].l == l && forall i :: k <= i < e.value ==> jmps[i].l != l
    ensures e.None? ==> forall i :: k <= i < |jmps| ==> jmps[i].l != l
    decreases |jmps| - k
  {
    if k == |jmps| then None else if jmps[k].l == l then Some(k) else Lookup(jmps, l, k + 1)
  }

  /** emit_RM_abs: an absolute location becomes a displacement from the next instruction. */
  function Absolute(line: nat, a: int): Instr {
    Instr(LDA, PC, a - (line + 1), PC)
  }

  /** One LDA for every entry with the label. */
  function BackJumps(code: seq<Instr>, jmps: seq<Entry>, l: nat): seq<Instr>
    decreases jmps
  {
    if jmps == [] then code
    else
      BackJumps(if jmps[0].l == l then code + [Absolute(|code|, jmps[0].loc)] else code, jmps[1..], l)
  }

  function Patched(code: seq<Instr>, j: nat): (r: seq<Instr>)
    requires j < |code|
    ensures |r| == |code|
  {
    var d := |code| - 1 - j;
    code[j := if code[j].op == LDA then code[j].(a2 := d) else code[j].(a2 := d, a3 := PC)]
  }

  /** One item; None where the compiler would fault, at a label that is defined twice. */
  function EmitItem(s: Emission, i: Item): Option<Emission> {
    match i
    case Straight(c) => Some(Emission(s.code + c, s.jmps))
    case Test(c, op, r1, r2, r3, l) =>
      Some(Emission(s.code + c + [Instr(op, r1, r2, r3)], s.jmps + [Entry(l, Some(|s.code| + |c|), 0)]))
    case Jump(c, l) =>
      if Lookup(s.jmps, l, 0).Some? then Some(Emission(BackJumps(s.code, s.jmps, l), s.jmps))
      else
        var line := |s.code| + |c|;
        Some(Emission(s.code + c + [Absolute(line, 0)], s.jmps + [Entry(l, Some(line), 0)]))
    case Mark(l) =>
      match Lookup(s.jmps, l, 0)
      case None => Some(Emission(s.code, s.jmps + [Entry(l, None, |s.code|)]))
      case Some(e) =>
        match s.jmps[e].line
        case None => None
        case Some(j) => if j < |s.code| then Some(Emission(Patched(s.code, j), s.jmps)) else None
  }

  function EmitTo(items: seq<Item>, k: nat): Option<Emission>
    requires k <= |items|
  {
    if k == 0 then Some(Emission([], []))
    else
      match EmitTo(items, k - 1)
      case None => None
      case Some(s) => EmitItem(s, items[k - 1])
  }

  // ----- the discipline of labels -----

  ghost predicate MarkedOnce(items: seq<Item>) {
    forall i, j :: 0 <= i < j < |items| && items[i].Mark? && items[j].Mark? ==> items[i].l != items[j].l
  }

  ghost predicate LeaptOnce(items: seq<Item>) {
    forall i, j :: 0 <= i < j < |items| && Leaps(items[i]) && Leaps(items[j]) ==> items[i].l != items[j].l
  }

  // ----- single steps -----

  /** Entry t is the only one for label l. */
  ghost predicate Only(jmps: seq<Entry>, l: nat, t: nat) {
    t < |jmps| && jmps[t].l == l && forall i :: 0 <= i < |jmps| && i != t ==> jmps[i].l != l
  }

  ghost predicate Absent(jmps: seq<Entry>, l: nat) {
    forall i :: 0 <= i < |jmps| ==> jmps[i].l != l
  }

  lemma OnlyFound(jmps: seq<Entry>, l: nat, t: nat)
    requires Only(jmps, l, t)
    ensures Lookup(jmps, l, 0) == Some(t)
  {
  }

  lemma {:induction false} BackJumpsNone(code: seq<Instr>, jmps: seq<Entry>, l: nat)
    requires Absent(jmps, l)
    ensures BackJumps(code, jmps, l) == code
    decreases jmps
  {
    if jmps != [] {
      BackJumpsNone(code, jmps[1..], l);
    }
  }

  /** With one entry there is one jump back. */
  lemma {:induction false} BackJumpsOne(code: seq<Instr>, jmps: seq<Entry>, l: nat, t: nat)
    requires Only(jmps, l, t)
    ensures BackJumps(code, jmps, l) == code + [Absolute(|code|, jmps[t].loc)]
    decreases jmps
  {
    if t == 0 {
      assert Absent(jmps[1..], l);
      BackJumpsNone(code + [Absolute(|code|, jmps[0].loc)], jmps[1..], l);
    } else {
      assert jmps[1..][t - 1] == jmps[t];
      BackJumpsOne(code, jmps[1..], l, t - 1);
    }
  }

  /** Code that is emitted stays, but for the instructions that entries refer to. */
  lemma {:induction false} BackJumpsExtend(code: seq<Instr>, jmps: seq<Entry>, l: nat)
    ensures code <= BackJumps(code, jmps, l)
    decreases jmps
  {
    if jmps != [] {
      BackJumpsExtend(if jmps[0].l == l then code + [Absolute(|code|, jmps[0].loc)] else code, jmps[1..], l);
    }
  }

  /** Instruction j waits for no label but l. */
  ghost predicate WaitsOnly(s: Emission, j: nat, l: nat) {
    j < |s.code| && forall i :: 0 <= i < |s.jmps| && s.jmps[i].l != l ==> s.jmps[i].line != Some(j)
  }

  /** An item that does not concern label l leaves its entries and its jump alone. */
  lemma OtherItem(s: Emission, i: Item, j: nat, l: nat)
    requires EmitItem(s, i).Some? && !(i.Mark? && i.l == l) && !(Leaps(i) && i.l == l)
    ensures var r := EmitItem(s, i).value;
      && |s.code| <= |r.code|
      && (WaitsOnly(s, j, l) ==> WaitsOnly(r, j, l) && r.code[j] == s.code[j])
      && (Absent(s.jmps, l) ==> Absent(r.jmps, l))
      && (forall t: nat :: Only(s.jmps, l, t) ==> Only(r.jmps, l, t) && r.jmps[t] == s.jmps[t])
  {
    if i.Jump? {
      BackJumpsExtend(s.code, s.jmps, i.l);
    }
  }

  // ----- whole emissions -----

  /** Entries point into the code; an entry without a line comes from a label that was reached. */
  ghost predicate Entered(items: seq<Item>, k: nat, s: Emission)
    requires k <= |items|
  {
    forall i :: 0 <= i < |s.jmps| ==> match s.jmps[i].line
      case None => exists p :: 0 <= p < k && items[p] == Mark(s.jmps[i].l)
      case Some(j) => j < |s.code|
  }

  /** The compiler does not fault. */
  lemma {:induction false} EmitTotal(items: seq<Item>, k: nat)
    requires MarkedOnce(items) && k <= |items|
    ensures EmitTo(items, k).Some? && Entered(items, k, EmitTo(items, k).value)
  {
    if k > 0 {
      EmitTotal(items, k - 1);
      var s, i := EmitTo(items, k - 1).value, items[k - 1];
      if i.Jump? {
        BackJumpsExtend(s.code, s.jmps, i.l);
      }
      if i.Mark? {
        var e := Lookup(s.jmps, i.l, 0);
        assert e.Some? ==> s.jmps[e.value].line.Some?;
      }
    }
  }

  /** Between a and b nothing concerns label l. */
  ghost predicate Quiet(items: seq<Item>, a: nat, b: nat, l: nat) {
    forall k :: a <= k < b && k < |items| ==> !((items[k].Mark? || Leaps(items[k])) && items[k].l == l)
  }

  lemma {:induction false} OtherItems(items: seq<Item>, a: nat, b: nat, j: nat, l: nat)
    requires a <= b <= |items| && Quiet(items, a, b, l) && EmitTo(items, a).Some? && EmitTo(items, b).Some?
    ensures var s, r := EmitTo(items, a).value, EmitTo(items, b).value;
      && |s.code| <= |r.code|
      && (WaitsOnly(s, j, l) ==> WaitsOnly(r, j, l) && r.code[j] == s.code[j])
      && (Absent(s.jmps, l) ==> Absent(r.jmps, l))
      && (forall t: nat :: Only(s.jmps, l, t) ==> Only(r.jmps, l, t) && r.jmps[t] == s.jmps[t])
    decreases b - a
  {
    if a < b {
      assert EmitTo(items, b - 1).Some?;
      OtherItems(items, a, b - 1, j, l);
      hide Only, Absent, WaitsOnly, EmitItem;
      OtherItem(EmitTo(items, b - 1).value, items[b - 1], j, l);
    }
  }

  function CodeAt(items: seq<Item>, k: nat): seq<Instr>
    requires k <= |items|
  {
    match EmitTo(items, k)
    case None => []
    case Some(s) => s.code
  }

  /** Where the code after item k begins. */
  function LocOf(items: seq<Item>, k: nat): nat
    requires k <= |items|
  {
    |CodeAt(items, k)|
  }

  /** The line of the jump that item q emits: its last instruction. */
  function LineOf(items: seq<Item>, q: nat): int
    requires q < |items|
  {
    LocOf(items, q + 1) - 1
  }

  /** The jump of item q, with the displacement that leads from line j to loc. */
  function Landing(i: Item, j: int, loc: int): Instr
    requires Leaps(i)
  {
    match i
    case Test(_, op, r1, _, _, _) => Instr(op, r1, loc - (j + 1), PC)
    case Jump(_, _) => Instr(LDA, PC, loc - (j + 1), PC)
  }

  lemma AbsentAtStart(items: seq<Item>, k: nat, l: nat)
    requires MarkedOnce(items) && k <= |items| && Quiet(items, 0, k, l)
    ensures EmitTo(items, k).Some? && Absent(EmitTo(items, k).value.jmps, l)
  {
    EmitTotal(items, k);
    OtherItems(items, 0, k, 0, l);
  }

  /** A jump emitted before its label waits for it alone. */
  lemma ForwardEmitted(s: Emission, i: Item, l: nat)
    requires Leaps(i) && i.l == l && Absent(s.jmps, l)
    requires forall k :: 0 <= k < |s.jmps| && s.jmps[k].line.Some? ==> s.jmps[k].line.value < |s.code|
    ensures EmitItem(s, i).Some?
    ensures var r := EmitItem(s, i).value; var t := |s.jmps|; var j := |r.code| - 1;
      && j >= 0 && Only(r.jmps, l, t) && r.jmps[t].line == Some(j) && WaitsOnly(r, j, l)
      && r.code[j].op == (if i.Test? then i.op else LDA) && r.code[j].a1 == (if i.Test? then i.r1 else PC)
      && (i.Jump? ==> r.code[j].a3 == PC)
  {
  }

  lemma QuietBetween(items: seq<Item>, p: nat, q: nat, a: nat, b: nat)
    requires MarkedOnce(items) && LeaptOnce(items) && p < |items| && q < |items| && b <= |items|
    requires items[p].Mark? && Leaps(items[q]) && items[p].l == items[q].l
    requires !(a <= p < b) && !(a <= q < b)
    ensures Quiet(items, a, b, items[p].l)
  {
  }

  /** A label reached after its jump fills in the displacement. */
  lemma Patches(s: Emission, l: nat, t: nat, j: nat)
    requires Only(s.jmps, l, t) && s.jmps[t].line == Some(j) && WaitsOnly(s, j, l)
    ensures EmitItem(s, Mark(l)) == Some(Emission(Patched(s.code, j), s.jmps))
    ensures WaitsOnly(EmitItem(s, Mark(l)).value, j, l)
  {
    OnlyFound(s.jmps, l, t);
  }

  /** In front of its label a forward jump is still as it was emitted. */
  ghost predicate Pending(s: Emission, i: Item, j: int, t: nat)
    requires Leaps(i)
  {
    && 0 <= j < |s.code| && Only(s.jmps, i.l, t) && s.jmps[t].line == Some(j) && WaitsOnly(s, j, i.l)
    && s.code[j].op == (if i.Test? then i.op else LDA) && s.code[j].a1 == (if i.Test? then i.r1 else PC)
    && (i.Jump? ==> s.code[j].a3 == PC)
  }

  lemma EmitNext(items: seq<Item>, k: nat)
    requires MarkedOnce(items) && k < |items|
    ensures EmitTo(items, k).Some? && EmitTo(items, k + 1).Some?
    ensures EmitItem(EmitTo(items, k).value, items[k]) == EmitTo(items, k + 1)
  {
    EmitTotal(items, k);
    EmitTotal(items, k + 1);
  }

  lemma PendingStart(items: seq<Item>, q: nat) returns (t: nat)
    requires MarkedOnce(items) && q < |items| && Leaps(items[q]) && Quiet(items, 0, q, items[q].l)
    ensures EmitTo(items, q + 1).Some? && Pending(EmitTo(items, q + 1).value, items[q], LineOf(items, q), t)
  {
    EmitNext(items, q);
    EmitTotal(items, q);
    AbsentAtStart(items, q, items[q].l);
    var s := EmitTo(items, q).value;
    ForwardEmitted(s, items[q], items[q].l);
    t := |s.jmps|;
    hide EmitTo, EmitItem, WaitsOnly, Only, Absent, Quiet, MarkedOnce;
  }

  lemma PendingStays(items: seq<Item>, q: nat, p: nat, t: nat)
    requires MarkedOnce(items) && q < p < |items| && Leaps(items[q]) && Quiet(items, q + 1, p, items[q].l)
    requires EmitTo(items, q + 1).Some? && Pending(EmitTo(items, q + 1).value, items[q], LineOf(items, q), t)
    ensures EmitTo(items, p).Some? && Pending(EmitTo(items, p).value, items[q], LineOf(items, q), t)
  {
    EmitTotal(items, p);
    hide EmitTo, WaitsOnly, Only, Absent, Quiet, MarkedOnce, LineOf;
    OtherItems(items, q + 1, p, LineOf(items, q), items[q].l);
  }

  lemma ForwardLands(items: seq<Item>, q: nat, p: nat)
    requires MarkedOnce(items) && LeaptOnce(items) && q < p < |items|
    requires Leaps(items[q]) && items[p] == Mark(items[q].l) && (items[q].Test? ==> items[q].op != LDA)
    ensures 0 <= LineOf(items, q) < LocOf(items, |items|)
    ensures CodeAt(items, |items|)[LineOf(items, q)] == Landing(items[q], LineOf(items, q), LocOf(items, p))
  {
    var l, j := items[q].l, LineOf(items, q);
    QuietBetween(items, p, q, 0, q);
    QuietBetween(items, p, q, q + 1, p);
    QuietBetween(items, p, q, p + 1, |items|);
    hide Quiet, LeaptOnce, LineOf;
    var t := PendingStart(items, q);
    PendingStays(items, q, p, t);
    EmitNext(items, p);
    EmitTotal(items, |items|);
    var u := EmitTo(items, p).value;
    hide EmitTo, EmitItem, WaitsOnly, Only, Absent, MarkedOnce, Entered;
    Patches(u, l, t, j);
    OtherItems(items, p + 1, |items|, j, l);
  }

  // ----- jumps back -----

  /** A label reached first is remembered with its location. */
  lemma MarkRemembers(items: seq<Item>, p: nat, l: nat) returns (t: nat)
    requires MarkedOnce(items) && p < |items| && items[p] == Mark(l) && Quiet(items, 0, p, l)
    ensures EmitTo(items, p + 1).Some?
    ensures Only(EmitTo(items, p + 1).value.jmps, l, t) && EmitTo(items, p + 1).value.jmps[t] == Entry(l, None, LocOf(items, p))
  {
    EmitNext(items, p);
    AbsentAtStart(items, p, l);
    t := |EmitTo(items, p).value.jmps|;
    hide EmitTo, Quiet, MarkedOnce;
  }

  /** Nothing refers to a line that is not there yet. */
  lemma NewLine(items: seq<Item>, k: nat, s: Emission, j: nat, l: nat, code: seq<Instr>)
    requires k <= |items| && Entered(items, k, s) && |s.code| <= j < |code|
    ensures WaitsOnly(Emission(code, s.jmps), j, l)
  {
  }

  lemma BackEmitted(items: seq<Item>, q: nat, l: nat, t: nat)
    requires MarkedOnce(items) && q < |items| && items[q].Jump? && items[q].l == l
    requires EmitTo(items, q).Some? && Only(EmitTo(items, q).value.jmps, l, t)
    ensures EmitTo(items, q + 1).Some?
    ensures var s, r := EmitTo(items, q).value, EmitTo(items, q + 1).value;
      r.code == s.code + [Absolute(|s.code|, s.jmps[t].loc)] && WaitsOnly(r, |s.code|, l)
  {
    EmitNext(items, q);
    EmitTotal(items, q);
    var s := EmitTo(items, q).value;
    OnlyFound(s.jmps, l, t);
    BackJumpsOne(s.code, s.jmps, l, t);
    NewLine(items, q, s, |s.code|, l, s.code + [Absolute(|s.code|, s.jmps[t].loc)]);
    hide EmitTo, Only, WaitsOnly, MarkedOnce, BackJumps;
  }

  lemma BackReached(items: seq<Item>, q: nat, p: nat)
    requires MarkedOnce(items) && LeaptOnce(items) && p < q < |items|
    requires items[q].Jump? && items[p] == Mark(items[q].l)
    ensures EmitTo(items, q + 1).Some? && WaitsOnly(EmitTo(items, q + 1).value, LocOf(items, q), items[q].l)
    ensures EmitTo(items, q + 1).value.code == CodeAt(items, q) + [Absolute(LocOf(items, q), LocOf(items, p))]
  {
    hide *;
    var l := items[q].l;
    QuietBetween(items, p, q, 0, p);
    QuietBetween(items, p, q, p + 1, q);
    var t := MarkRemembers(items, p, l);
    EmitTotal(items, q);
    OtherItems(items, p + 1, q, 0, l);
    BackEmitted(items, q, l, t);
    CodeIs(items, q);
  }

  lemma CodeIs(items: seq<Item>, k: nat)
    requires k <= |items| && EmitTo(items, k).Some?
    ensures CodeAt(items, k) == EmitTo(items, k).value.code && LocOf(items, k) == |CodeAt(items, k)|
  {
  }

  /** A line that waits for no other label stays to the end. */
  lemma StaysToEnd(items: seq<Item>, q: nat, j: nat)
    requires MarkedOnce(items) && q < |items| && !items[q].Straight? && Quiet(items, q + 1, |items|, items[q].l)
    requires EmitTo(items, q + 1).Some? && WaitsOnly(EmitTo(items, q + 1).value, j, items[q].l)
    ensures j < LocOf(items, q + 1) <= LocOf(items, |items|)
    ensures CodeAt(items, |items|)[j] == CodeAt(items, q + 1)[j]
  {
    EmitTotal(items, |items|);
    OtherItems(items, q + 1, |items|, j, items[q].l);
    hide Quiet, EmitTo, MarkedOnce, Entered;
  }

  lemma BackLands(items: seq<Item>, q: nat, p: nat)
    requires MarkedOnce(items) && LeaptOnce(items) && p < q < |items|
    requires items[q].Jump? && items[p] == Mark(items[q].l)
    ensures 0 <= LineOf(items, q) < LocOf(items, |items|)
    ensures CodeAt(items, |items|)[LineOf(items, q)] == Landing(items[q], LineOf(items, q), LocOf(items, p))
  {
    hide Quiet, LeaptOnce, EmitTo, WaitsOnly, MarkedOnce;
    QuietBetween(items, p, q, q + 1, |items|);
    BackReached(items, q, p);
    StaysToEnd(items, q, LocOf(items, q));
  }

  // ----- every jump lands -----

  /** Every jump has its label somewhere, and a test jumps forward. */
  ghost predicate Targeted(items: seq<Item>, q: nat, p: nat) {
    && q < |items| && p < |items| && Leaps(items[q]) && items[p] == Mark(items[q].l)
    && (items[q].Test? ==> q < p && items[q].op != LDA)
  }

  lemma PatchedRight(items: seq<Item>, q: nat, p: nat)
    requires MarkedOnce(items) && LeaptOnce(items) && Targeted(items, q, p)
    ensures 0 <= LineOf(items, q) < LocOf(items, |items|)
    ensures CodeAt(items, |items|)[LineOf(items, q)] == Landing(items[q], LineOf(items, q), LocOf(items, p))
  {
    if q < p {
      ForwardLands(items, q, p);
    } else {
      BackLands(items, q, p);
    }
  }

  /** The condition of a jump holds in the machine. */
  predicate Goes(i: Item, m: Machine)
    requires Leaps(i)
  {
    i.Jump? || (IsReg(i.r1) && Taken(i.op, m.reg[i.r1]))
  }

  /** What a landing jump does in line j. */
  lemma LandingRuns(i: Item, m: Machine, j: int, loc: int)
    requires Leaps(i) && (i.Test? ==> IsTest(i.op) && 0 <= i.r1 < PC)
    ensures GoodInstr(Landing(i, j, loc))
    ensures Execute(SetReg(m, PC, j + 1), Landing(i, j, loc)) == Okay(SetReg(m, PC, if Goes(i, m) then loc else j + 1))
  {
    var a := SetReg(m, PC, j + 1);
    assert SetReg(a, PC, loc).reg == SetReg(m, PC, loc).reg;
    if i.Test? {
      JumpTaken(i.op, a, i.r1, loc - (j + 1));
    }
  }

  /** Running the finished program, a jump goes to the first instruction emitted after its label,
      and a test that fails goes on to the next instruction. */
  lemma JumpsLand(items: seq<Item>, q: nat, p: nat, imem: Program, m: Machine)
    requires MarkedOnce(items) && LeaptOnce(items) && Targeted(items, q, p)
    requires CodeAt(items, |items|) <= imem && m.reg[PC] == LineOf(items, q)
    requires items[q].Test? ==> IsTest(items[q].op) && 0 <= items[q].r1 < PC
    ensures StepTM(imem, m)
         == Okay(SetReg(m, PC, if Goes(items[q], m) then LocOf(items, p) else LineOf(items, q) + 1))
  {
    hide *;
    TargetedLeaps(items, q, p);
    PatchedRight(items, q, p);
    Sized(items, |items|);
    var j, loc := LineOf(items, q), LocOf(items, p);
    LandingRuns(items[q], m, j, loc);
    StepAt(imem, m, CodeAt(items, |items|), j, Landing(items[q], j, loc));
  }

  lemma TargetedLeaps(items: seq<Item>, q: nat, p: nat)
    requires Targeted(items, q, p)
    ensures q < |items| && p < |items| && Leaps(items[q])
  {
  }

  lemma StepAt(imem: Program, m: Machine, code: seq<Instr>, j: nat, i: Instr)
    requires code <= imem && j < |code| && code[j] == i && m.reg[PC] == j && GoodInstr(i)
    ensures StepTM(imem, m) == Execute(SetReg(m, PC, j + 1), i)
  {
    hide Execute;
  }

  /** A test that comes after its label is never patched: it keeps the operand registers. */
  lemma BackTestStays(items: seq<Item>, q: nat, p: nat)
    requires MarkedOnce(items) && LeaptOnce(items) && p < q < |items|
    requires items[q].Test? && items[p] == Mark(items[q].l)
    ensures 0 <= LineOf(items, q) < LocOf(items, |items|)
    ensures CodeAt(items, |items|)[LineOf(items, q)] == Instr(items[q].op, items[q].r1, items[q].r2, items[q].r3)
  {
    QuietBetween(items, p, q, q + 1, |items|);
    EmitNext(items, q);
    EmitTotal(items, q);
    var s, r := EmitTo(items, q).value, EmitTo(items, q + 1).value;
    var j := |s.code| + |items[q].stores|;
    assert WaitsOnly(r, j, items[q].l);
    hide Quiet, LeaptOnce, EmitTo, WaitsOnly, MarkedOnce, Entered;
    StaysToEnd(items, q, j);
  }

  /** A jump to a label that is defined nowhere, the only one to it, stays as it was emitted: it goes to
      location 0. */
  lemma LoneJumpStays(items: seq<Item>, q: nat)
    requires MarkedOnce(items) && q < |items| && items[q].Jump?
    requires Quiet(items, 0, q, items[q].l) && Quiet(items, q + 1, |items|, items[q].l)
    ensures 0 <= LineOf(items, q) < LocOf(items, |items|)
    ensures CodeAt(items, |items|)[LineOf(items, q)] == Instr(LDA, PC, 0 - (LineOf(items, q) + 1), PC)
  {
    EmitNext(items, q);
    EmitTotal(items, q);
    AbsentAtStart(items, q, items[q].l);
    var s, r := EmitTo(items, q).value, EmitTo(items, q + 1).value;
    assert Lookup(s.jmps, items[q].l, 0).None?;
    ForwardEmitted(s, items[q], items[q].l);
    var j := |r.code| - 1;
    assert LineOf(items, q) == j;
    hide Quiet, EmitTo, WaitsOnly, MarkedOnce, Entered, Only, Absent;
    StaysToEnd(items, q, j);
  }

  // ----- straight code stays -----

  /** The code of an item in front of its jump. */
  function Body(i: Item): seq<Instr> {
    match i
    case Straight(c) => c
    case Test(c, _, _, _, _, _) => c
    case Jump(c, _) => c
    case Mark(_) => []
  }

  /** Nothing waits to change line j. */
  ghost predicate Settled(s: Emission, j: nat) {
    j < |s.code| && forall i :: 0 <= i < |s.jmps| ==> s.jmps[i].line != Some(j)
  }

  lemma SettledItem(s: Emission, i: Item, j: nat)
    requires EmitItem(s, i).Some? && Settled(s, j)
    ensures Settled(EmitItem(s, i).value, j) && EmitItem(s, i).value.code[j] == s.code[j]
  {
    if i.Jump? {
      BackJumpsExtend(s.code, s.jmps, i.l);
    }
  }

  lemma {:induction false} SettledStays(items: seq<Item>, a: nat, b: nat, j: nat)
    requires MarkedOnce(items) && a <= b <= |items| && EmitTo(items, a).Some? && Settled(EmitTo(items, a).value, j)
    ensures EmitTo(items, b).Some? && Settled(EmitTo(items, b).value, j)
    ensures EmitTo(items, b).value.code[j] == EmitTo(items, a).value.code[j]
    decreases b - a
  {
    if a < b {
      SettledStays(items, a, b - 1, j);
      EmitNext(items, b - 1);
      hide Settled, EmitItem, EmitTo, MarkedOnce;
      SettledItem(EmitTo(items, b - 1).value, items[b - 1], j);
    }
  }

  /** An item that is no jump back adds its code, and its jump behind it. */
  lemma BodyEmitted(s: Emission, i: Item)
    requires EmitItem(s, i).Some? && (i.Jump? ==> Absent(s.jmps, i.l))
    requires forall k :: 0 <= k < |s.jmps| && s.jmps[k].line.Some? ==> s.jmps[k].line.value < |s.code|
    ensures var r := EmitItem(s, i).value; var b := |s.code| + |Body(i)|;
      && |r.code| == b + (if Leaps(i) then 1 else 0)
      && (Body(i) != [] ==> r.code[..b] == s.code + Body(i))
      && forall j :: |s.code| <= j < b ==> Settled(r, j)
  {
    var r := EmitItem(s, i).value;
    var b := |s.code| + |Body(i)|;
    if Leaps(i) {
      assert r.code[..b] == s.code + Body(i);
    }
  }

  lemma InFinal(items: seq<Item>, k: nat, j: nat)
    requires MarkedOnce(items) && k <= |items| && EmitTo(items, k).Some? && Settled(EmitTo(items, k).value, j)
    ensures j < LocOf(items, |items|) && CodeAt(items, |items|)[j] == EmitTo(items, k).value.code[j]
  {
    SettledStays(items, k, |items|, j);
    hide EmitTo, MarkedOnce;
  }

  /** The code of an item in front of its jump is in the finished program where it was emitted, and the
      next item begins behind it. */
  lemma BodyStays(items: seq<Item>, k: nat)
    requires MarkedOnce(items) && k < |items| && (items[k].Jump? ==> Quiet(items, 0, k, items[k].l))
    ensures LocOf(items, k + 1) == LocOf(items, k) + |Body(items[k])| + if Leaps(items[k]) then 1 else 0
    ensures LocOf(items, k) + |Body(items[k])| <= LocOf(items, |items|)
    ensures CodeAt(items, |items|)[LocOf(items, k)..LocOf(items, k) + |Body(items[k])|] == Body(items[k])
  {
    hide *;
    EmitNext(items, k);
    CodeIs(items, k);
    CodeIs(items, k + 1);
    var s, r, c := EmitTo(items, k).value, EmitTo(items, k + 1).value, Body(items[k]);
    LinesInside(items, k, s);
    if items[k].Jump? {
      AbsentAtStart(items, k, items[k].l);
    }
    BodyEmitted(s, items[k]);
    BodyFinal(items, k, s, r, c);
  }

  lemma LinesInside(items: seq<Item>, k: nat, s: Emission)
    requires MarkedOnce(items) && k <= |items| && EmitTo(items, k) == Some(s)
    ensures forall i :: 0 <= i < |s.jmps| && s.jmps[i].line.Some? ==> s.jmps[i].line.value < |s.code|
  {
    EmitTotal(items, k);
    hide EmitTo, MarkedOnce;
  }

  lemma BodyFinal(items: seq<Item>, k: nat, s: Emission, r: Emission, c: seq<Instr>)
    requires MarkedOnce(items) && k < |items| && EmitTo(items, k + 1) == Some(r)
    requires var b := |s.code| + |c|;
      b <= |r.code| && (c != [] ==> r.code[..b] == s.code + c) && (forall j :: |s.code| <= j < b ==> Settled(r, j)) && |s.code| <= |r.code|
    ensures |s.code| + |c| <= LocOf(items, |items|) && CodeAt(items, |items|)[|s.code|..|s.code| + |c|] == c
  {
    hide *;
    Grows(items, k + 1);
    Sized(items, |items|);
    CodeIs(items, k + 1);
    forall j | |s.code| <= j < |s.code| + |c| ensures j < LocOf(items, |items|) && CodeAt(items, |items|)[j] == c[j - |s.code|] {
      InFinal(items, k + 1, j);
      Front(r.code, s.code, c, j);
    }
    Slice(CodeAt(items, |items|), |s.code|, c);
  }

  lemma Front(r: seq<Instr>, a: seq<Instr>, c: seq<Instr>, j: nat)
    requires |a| <= j < |a| + |c| <= |r| && r[..|a| + |c|] == a + c
    ensures r[j] == c[j - |a|]
  {
    assert r[j] == r[..|a| + |c|][j];
  }

  lemma Slice(f: seq<Instr>, at: nat, c: seq<Instr>)
    requires at <= |f| && forall j :: at <= j < at + |c| ==> j < |f| && f[j] == c[j - at]
    ensures at + |c| <= |f| && f[at..at + |c|] == c
  {
    if c != [] {
      var j := at + |c| - 1;
      assert j < |f| && f[j] == c[j - at];
    }
  }

  lemma Sized(items: seq<Item>, k: nat)
    requires k <= |items|
    ensures LocOf(items, k) == |CodeAt(items, k)|
  {
  }

  /** Code is never taken back. */
  lemma {:induction false} Grows(items: seq<Item>, k: nat)
    requires MarkedOnce(items) && k <= |items|
    ensures LocOf(items, k) <= LocOf(items, |items|)
    decreases |items| - k
  {
    if k < |items| {
      EmitNext(items, k);
      OtherSize(EmitTo(items, k).value, items[k]);
      Grows(items, k + 1);
    }
  }

  lemma OtherSize(s: Emission, i: Item)
    requires EmitItem(s, i).Some?
    ensures |s.code| <= |EmitItem(s, i).value.code|
  {
    if i.Jump? {
      BackJumpsExtend(s.code, s.jmps, i.l);
    }
  }

  // ----- the finished program can be loaded -----

  ghost predicate AllGood(code: seq<Instr>) {
    forall k :: 0 <= k < |code| ==> GoodInstr(code[k])
  }

  /** The registers of an item are registers. */
  ghost predicate Fine(i: Item) {
    AllGood(Body(i)) && (i.Test? ==> IsTest(i.op) && IsReg(i.r1) && IsReg(i.r2) && IsReg(i.r3))
  }

  lemma {:induction false} BackGood(code: seq<Instr>, jmps: seq<Entry>, l: nat)
    requires AllGood(code)
    ensures AllGood(BackJumps(code, jmps, l))
    decreases jmps
  {
    if jmps != [] {
      BackGood(if jmps[0].l == l then code + [Absolute(|code|, jmps[0].loc)] else code, jmps[1..], l);
    }
  }

  /** Only the jump list is patched. */
  ghost predicate Jumping(s: Emission) {
    AllGood(s.code) && forall i :: 0 <= i < |s.jmps| && s.jmps[i].line.Some? ==>
      s.jmps[i].line.value < |s.code| && ClassOf(s.code[s.jmps[i].line.value].op) == RA
  }

  lemma ItemGood(s: Emission, i: Item)
    requires Jumping(s) && Fine(i) && EmitItem(s, i).Some?
    ensures Jumping(EmitItem(s, i).value)
  {
    if i.Jump? {
      BackGood(s.code, s.jmps, i.l);
      BackJumpsExtend(s.code, s.jmps, i.l);
    }
  }

  /** Whatever registers the items use, every instruction of the finished program is one that the loader
      accepts. */
  lemma {:induction false} FinishedGood(items: seq<Item>, k: nat)
    requires k <= |items| && forall j :: 0 <= j < |items| ==> Fine(items[j])
    ensures EmitTo(items, k).Some? ==> Jumping(EmitTo(items, k).value)
    ensures AllGood(CodeAt(items, k))
  {
    if k > 0 {
      FinishedGood(items, k - 1);
      if EmitTo(items, k).Some? {
        hide Jumping, EmitItem, Fine;
        ItemGood(EmitTo(items, k - 1).value, items[k - 1]);
      }
    }
    if EmitTo(items, k).Some? {
      JumpingGood(EmitTo(items, k).value);
    }
  }

  lemma JumpingGood(s: Emission)
    requires Jumping(s)
    ensures AllGood(s.code)
  {
  }
}
