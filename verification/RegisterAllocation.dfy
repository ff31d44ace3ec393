/** The whole register allocator: intervals, sorted list, scan, locations. */
module RegisterAllocation {
  import opened Options
  import opened ThreeAddress
  import opened Intervals
  import opened Allocation
  import opened Allocators
  import LinearScan

  /** The intervals of the listed symbols. */
  function Spans(code: seq<Ins>, list: seq<nat>): (s: seq<LinearScan.Interval>)
    ensures |s| == |list|
    ensures forall i :: 0 <= i < |list| ==> s[i] == LinearScan.Interval(FirstOf(code, list[i]), LastOf(code, list[i]))
  {
    seq(|list|, i requires 0 <= i < |list| => LinearScan.Interval(FirstOf(code, list[i]), LastOf(code, list[i])))
  }

  /** The symbols of the code, each listed once, in the order of their first writes. */
  ghost predicate Listed(code: seq<Ins>, list: seq<nat>) {
    && (forall p, v: nat :: 0 <= p < |code| && Occurrences(code[p], v) > 0 ==> v in list)
    && (forall i, j :: 0 <= i < j < |list| ==> list[i] != list[j] && FirstOf(code, list[i]) <= FirstOf(code, list[j]))
  }

  function IndexOf(list: seq<nat>, v: nat): (i: nat)
    requires v in list
    ensures i < |list| && list[i] == v
  {
    if list[0] == v then 0 else 1 + IndexOf(list[1..], v)
  }

  function LocationsOf(list: seq<nat>, reg: seq<int>, count: nat): (loc: Locations)
    requires |reg| == |list| && forall i :: 0 <= i < |reg| ==> reg[i] == LinearScan.NO_REGISTER || 0 <= reg[i]
    ensures forall v :: v in loc <==> v in list
    ensures forall v :: v in list ==> loc[v] == Location(reg, count, IndexOf(list, v))
  {
    map v | v in list :: Location(reg, count, IndexOf(list, v)) as nat
  }

  lemma FirstBeforeLast(code: seq<Ins>, v: nat)
    ensures FirstOf(code, v) <= LastOf(code, v)
  {
    var d := FirstOf(code, v);
    if d > 0 {
      OccurrencesMeaning(code[d - 1], v);
    }
  }

  lemma SpansSorted(code: seq<Ins>, list: seq<nat>)
    requires Listed(code, list)
    ensures LinearScan.Sorted(Spans(code, list))
  {
    forall i | 0 <= i < |list| ensures FirstOf(code, list[i]) <= LastOf(code, list[i]) {
      FirstBeforeLast(code, list[i]);
    }
  }

  lemma SeparatedIsApart(code: seq<Ins>, list: seq<nat>, reg: seq<int>, count: nat)
    requires |reg| == |list| && Listed(code, list)
    requires LinearScan.Separated(Spans(code, list), count, reg, |list|)
    ensures Apart(code, LocationsOf(list, reg, count))
  {
    var loc := LocationsOf(list, reg, count);
    forall u, v | u in loc && v in loc && u != v && Interfere(code, u, v) ensures loc[u] != loc[v] {
      var i, j := IndexOf(list, u), IndexOf(list, v);
      if i < j {
        LocationsApart(Spans(code, list), count, reg, i, j);
      } else {
        LocationsApart(Spans(code, list), count, reg, j, i);
      }
    }
  }

  /** The locations that linear scan with count registers chooses. */
  function Allocate(code: seq<Ins>, list: seq<nat>, count: nat): Locations
    requires count > 0 && Listed(code, list)
  {
    var reg := LinearScan.Scan(Spans(code, list), count, |list|).reg;
    ScanInRange(code, list, count);
    LocationsOf(list, reg, count)
  }

  lemma ScanInRange(code: seq<Ins>, list: seq<nat>, count: nat)
    requires count > 0 && Listed(code, list)
    ensures var reg := LinearScan.Scan(Spans(code, list), count, |list|).reg;
      |reg| == |list| && LinearScan.Separated(Spans(code, list), count, reg, |list|)
  {
    SpansSorted(code, list);
    LinearScan.ScanKeeps(Spans(code, list), count, |list|);
  }

  /** No two overlapping symbols share the location that linear scan gave them. */
  lemma AllocateApart(code: seq<Ins>, list: seq<nat>, count: nat)
    requires count > 0 && Listed(code, list)
    ensures Apart(code, Allocate(code, list, count))
  {
    ScanInRange(code, list, count);
    SeparatedIsApart(code, list, LinearScan.Scan(Spans(code, list), count, |list|).reg, count);
    hide Apart, Listed;
  }

  /** Two symbols never share a cell of memory. */
  lemma AllocateAlone(code: seq<Ins>, list: seq<nat>, count: nat, u: nat, v: nat)
    requires count > 0 && Listed(code, list)
    ensures var loc := Allocate(code, list, count); u in loc && v in loc && u != v && loc[u] == loc[v] ==> loc[u] < count
  {
    ScanInRange(code, list, count);
    var reg := LinearScan.Scan(Spans(code, list), count, |list|).reg;
    assert Allocate(code, list, count) == LocationsOf(list, reg, count);
    SeparatedAlone(Spans(code, list), list, reg, count, u, v);
    hide Listed, LinearScan.Scan, Allocate, LocationsOf, LinearScan.Separated;
  }

  lemma SeparatedAlone(ivs: seq<LinearScan.Interval>, list: seq<nat>, reg: seq<int>, count: nat, u: nat, v: nat)
    requires |reg| == |list| == |ivs| && LinearScan.Separated(ivs, count, reg, |list|)
    ensures var loc := LocationsOf(list, reg, count); u in loc && v in loc && u != v && loc[u] == loc[v] ==> loc[u] < count
  {
    var loc := LocationsOf(list, reg, count);
    if u in loc && v in loc && u != v && loc[u] == loc[v] {
      var i, j := IndexOf(list, u), IndexOf(list, v);
      if reg[i] == LinearScan.NO_REGISTER || reg[j] == LinearScan.NO_REGISTER {
        if i < j {
          LocationsApart(ivs, count, reg, i, j);
        } else {
          LocationsApart(ivs, count, reg, j, i);
        }
      }
    }
  }

  // ----- the allocator as one pass over the symbol table -----

  lemma {:induction false} UseCountPositive(code: seq<Ins>, v: nat, k: nat)
    requires k <= |code|
    ensures UseCount(code, v, k) > 0 <==> exists j :: 0 <= j < k && Occurrences(code[j], v) > 0
  {
    if k > 0 {
      UseCountPositive(code, v, k - 1);
    }
  }

  /** The symbols of the first k entries of the symbol table that occur in the code. */
  ghost predicate UsedOf(code: seq<Ins>, order: seq<nat>, k: nat, list: seq<nat>)
    requires k <= |order|
  {
    && (forall i :: 0 <= i < k && UseCount(code, order[i], |code|) > 0 ==> order[i] in list)
    && (forall v :: v in list ==> v in order[..k])
    && (forall v :: multiset(list)[v] <= 1)
  }

  lemma OneMore(list: seq<nat>, r: seq<nat>, s: nat)
    requires multiset(r) == multiset(list) + multiset{s}
    ensures forall v :: v in r <==> v in list || v == s
  {
    forall v ensures v in r <==> v in list || v == s {
      assert v in r <==> v in multiset(r);
      assert v in list <==> v in multiset(list);
    }
  }

  lemma UsedNext(code: seq<Ins>, order: seq<nat>, k: nat, list: seq<nat>, r: seq<nat>)
    requires k < |order| && UsedOf(code, order, k, list)
    requires forall i, j :: 0 <= i < j < |order| ==> order[i] != order[j]
    requires if UseCount(code, order[k], |code|) > 0 then multiset(r) == multiset(list) + multiset{order[k]} else r == list
    ensures UsedOf(code, order, k + 1, r)
  {
    assert order[..k + 1] == order[..k] + [order[k]];
    assert order[k] !in order[..k];
    if UseCount(code, order[k], |code|) > 0 {
      OneMore(list, r, order[k]);
      assert order[k] !in multiset(list);
    }
    hide UseCount;
  }

  lemma DistinctList(list: seq<nat>)
    requires forall v :: multiset(list)[v] <= 1
    ensures forall i, j :: 0 <= i < j < |list| ==> list[i] != list[j]
  {
    forall i, j | 0 <= i < j < |list| ensures list[i] != list[j] {
      assert list == list[..j] + list[j..];
      assert list[..j][i] == list[i] && list[j..][0] == list[j];
      assert multiset(list)[list[j]] <= 1;
    }
  }

  /** The symbol table has every symbol of the code. */
  ghost predicate InTable(code: seq<Ins>, order: seq<nat>) {
    forall p, v: nat :: 0 <= p < |code| && Occurrences(code[p], v) > 0 ==> v in order
  }

  lemma UsedListed(code: seq<Ins>, order: seq<nat>, n: nat, list: seq<nat>, start: seq<nat>)
    requires SymbolsBelow(code, n) && InTable(code, order)
    requires UsedOf(code, order, |order|, list) && SortedByStart(list, start)
    requires |start| == n && forall v :: 0 <= v < n ==> start[v] == FirstOf(code, v)
    ensures Listed(code, list)
  {
    DistinctList(list);
    forall p, v: nat | 0 <= p < |code| && Occurrences(code[p], v) > 0 ensures v in list {
      UseCountPositive(code, v, |code|);
      assert v in order;
    }
  }

  method ListIntervals(code: seq<Ins>, ghost n: nat, order: seq<nat>, t: IntervalTable) returns (list: seq<nat>)
    requires t.Valid(n) && t.Describes(code, |code|) && SymbolsBelow(code, n) && InTable(code, order)
    requires forall i :: 0 <= i < |order| ==> order[i] < n
    requires forall i, j :: 0 <= i < j < |order| ==> order[i] != order[j]
    ensures Listed(code, list) && forall i :: 0 <= i < |list| ==> list[i] < n
  {
    list := [];
    ghost var start := t.start[..];
    for k := 0 to |order|
      invariant UsedOf(code, order, k, list) && SortedByStart(list, start) && t.start[..] == start
    {
      ghost var before := list;
      if t.usecount[order[k]] > 0 {
        list := FillInterval(list, order[k], t.start);
      }
      UsedNext(code, order, k, before, list);
    }
    UsedListed(code, order, n, list, start);
  }

  method ReadSpans(code: seq<Ins>, ghost n: nat, list: seq<nat>, t: IntervalTable) returns (ivs: seq<LinearScan.Interval>)
    requires t.Valid(n) && t.Describes(code, |code|) && forall i :: 0 <= i < |list| ==> list[i] < n
    ensures ivs == Spans(code, list)
  {
    ivs := [];
    for i := 0 to |list|
      invariant ivs == Spans(code, list)[..i]
    {
      ivs := ivs + [LinearScan.Interval(t.start[list[i]], t.end[list[i]])];
    }
  }

  lemma AllocatedAt(code: seq<Ins>, list: seq<nat>, count: nat, reg: seq<int>, i: nat)
    requires count > 0 && Listed(code, list) && i < |list|
    requires reg == LinearScan.Scan(Spans(code, list), count, |list|).reg
    ensures At(Allocate(code, list, count), list[i]) == Location(reg, count, i)
  {
    assert IndexOf(list, list[i]) == i;
    hide LinearScan.Scan, IndexOf, Spans;
  }

  /** The symbol list[i] is in register sreg[i], or in memory slot val[i] when there is none. */
  ghost predicate Placed(code: seq<Ins>, list: seq<nat>, count: nat, val: seq<int>, sreg: seq<int>)
    requires count > 0 && Listed(code, list)
  {
    && |val| == |sreg| == |list|
    && forall i :: 0 <= i < |list| ==> At(Allocate(code, list, count), list[i]) == Place(count, val[i], sreg[i])
  }

  function Place(count: nat, val: int, sreg: int): int {
    if sreg == LinearScan.NO_REGISTER then count + val else sreg
  }

  lemma ScanPlaces(code: seq<Ins>, list: seq<nat>, count: nat, val: seq<int>, sreg: seq<int>)
    requires count > 0 && Listed(code, list) && |val| == |sreg| == |list|
    requires sreg == LinearScan.Scan(Spans(code, list), count, |list|).reg
    requires forall i :: 0 <= i < |list| ==> val[i] == SlotOf(sreg, i)
    ensures Placed(code, list, count, val, sreg)
  {
    hide LinearScan.Scan, Listed, Allocate, Spans, At;
    forall i | 0 <= i < |list| ensures At(Allocate(code, list, count), list[i]) == Place(count, val[i], sreg[i]) {
      AllocatedAt(code, list, count, sreg, i);
    }
  }

  method PlaceIntervals(code: seq<Ins>, list: seq<nat>, count: nat, ivs: seq<LinearScan.Interval>)
    returns (val: array<int>, sreg: array<int>)
    requires count > 0 && Listed(code, list) && ivs == Spans(code, list)
    ensures Placed(code, list, count, val[..], sreg[..])
  {
    var a := new Allocator(ivs, count);
    hide LinearScan.Scan, Listed;
    var inReg;
    val, sreg, inReg := a.LinScan();
    ghost var v, r := val[..], sreg[..];
    assert forall i :: 0 <= i < |list| ==> v[i] == SlotOf(r, i);
    ScanPlaces(code, list, count, v, r);
  }

  /** From code and symbol table to registers and memory slots. */
  method RegAlloc(code: seq<Ins>, n: nat, count: nat, order: seq<nat>)
    returns (list: seq<nat>, val: array<int>, sreg: array<int>)
    requires count > 0 && SymbolsBelow(code, n) && InTable(code, order)
    requires forall i :: 0 <= i < |order| ==> order[i] < n
    requires forall i, j :: 0 <= i < j < |order| ==> order[i] != order[j]
    ensures Listed(code, list) && Placed(code, list, count, val[..], sreg[..])
  {
    hide Listed, Placed, InTable, SymbolsBelow, Spans, IntervalTable.Describes;
    var t := new IntervalTable(n);
    var _ := t.Build(code, n);
    list := ListIntervals(code, n, order, t);
    var ivs := ReadSpans(code, n, list, t);
    val, sreg := PlaceIntervals(code, list, count, ivs);
  }

  function Start(input: seq<int>): Config {
    Config(0, State(map[], input, []))
  }

  lemma StartAgrees(code: seq<Ins>, loc: Locations, input: seq<int>)
    ensures Agrees(code, loc, {}, Start(input), Start(input))
  {
  }

  ghost predicate SameBehaviour(c: Option<Config>, d: Option<Config>) {
    match (c, d)
    case (None, None) => true
    case (Some(c'), Some(d')) => c'.pc == d'.pc && c'.st.input == d'.st.input && c'.st.output == d'.st.output
    case _ => false
  }

  /** A run in which every read follows its write as Disciplined asks, as the runs of ForwardPreserves do:
      after any number of steps the programs on symbols and on locations are both stuck, or both at
      the same instruction with the same output and the same input left. */
  lemma DisciplinedPreserves(code: seq<Ins>, list: seq<nat>, count: nat, input: seq<int>, n: nat)
    requires count > 0 && Listed(code, list) && Disciplined(code, Start(input), {}, n)
    ensures SameBehaviour(Run(code, Start(input), n),
                          Run(RenameAll(code, Allocate(code, list, count)), Start(input), n))
  {
    AllocateApart(code, list, count);
    var loc := Allocate(code, list, count);
    StartAgrees(code, loc, input);
    hide Apart, Listed, Agrees, Run, Disciplined, Start, Allocate, RenameAll;
    RunAgrees(code, loc, {}, Start(input), Start(input), n);
  }

  // ----- programs that only jump forward -----

  ghost predicate ForwardOnly(code: seq<Ins>) {
    forall p :: 0 <= p < |code| && (code[p].Jmp? || code[p].Iff?) ==>
      var q := FindLabel(code, code[p].target); q.Some? ==> q.value > p
  }

  /** For n steps every read follows a write on the path taken; w holds the symbols written. */
  ghost predicate WrittenFirst(code: seq<Ins>, c: Config, w: set<nat>, n: nat)
    decreases n
  {
    n == 0 || c.pc >= |code| ||
    (Uses(code[c.pc]) <= w &&
     match Next(code, c)
     case None => true
     case Some(d) => WrittenFirst(code, d, w + Defs(code[c.pc]), n - 1))
  }

  lemma {:induction false} ForwardDisciplined(code: seq<Ins>, c: Config, w: set<nat>, n: nat)
    requires ForwardOnly(code) && WrittenFirst(code, c, w, n)
    ensures Disciplined(code, c, w, n)
    decreases n
  {
    if n > 0 && c.pc < |code| && Next(code, c).Some? {
      var d := Next(code, c).value;
      assert d.pc > c.pc;
      ForwardDisciplined(code, d, w + Defs(code[c.pc]), n - 1);
    }
  }

  /** Programs without backward jumps need no more than a write before each read. */
  lemma ForwardPreserves(code: seq<Ins>, list: seq<nat>, count: nat, input: seq<int>, n: nat)
    requires count > 0 && Listed(code, list) && ForwardOnly(code) && WrittenFirst(code, Start(input), {}, n)
    ensures SameBehaviour(Run(code, Start(input), n),
                          Run(RenameAll(code, Allocate(code, list, count)), Start(input), n))
  {
    ForwardDisciplined(code, Start(input), {}, n);
    DisciplinedPreserves(code, list, count, input, n);
    hide *;
  }
}
