/** Live intervals: from the first write of a symbol to its last occurrence, in text order. */
module Intervals {
  import opened ThreeAddress

  /** How often symbol v is an operand of an instruction. */
  function ArgCount(a: Arg, v: nat): nat {
    if a == Sym(v) then 1 else 0
  }

  function Occurrences(i: Ins, v: nat): nat {
    match i
    case Bin(_, r, a1, a2) => ArgCount(a1, v) + ArgCount(a2, v) + ArgCount(Sym(r), v)
    case In(r) => ArgCount(Sym(r), v)
    case Out(a) => ArgCount(a, v)
    case Assign(r, a1) => ArgCount(a1, v) + ArgCount(Sym(r), v)
    case Iff(c, _) => ArgCount(c, v)
    case _ => 0
  }

  /** The number (from 1) of the first of the first k instructions that writes v; 0 if none does. */
  function FirstDef(code: seq<Ins>, v: nat, k: nat): (d: nat)
    requires k <= |code|
    ensures d <= k && (d > 0 ==> v in Defs(code[d - 1]))
    ensures forall j :: 0 <= j < k && v in Defs(code[j]) ==> 0 < d <= j + 1
  {
    if k == 0 then 0
    else
      var d := FirstDef(code, v, k - 1);
      if d == 0 && v in Defs(code[k - 1]) then k else d
  }

  /** The number of the last of the first k instructions that mentions v; 0 if none does. */
  function LastOcc(code: seq<Ins>, v: nat, k: nat): (e: nat)
    requires k <= |code|
    ensures e <= k && (e > 0 ==> Occurrences(code[e - 1], v) > 0)
    ensures forall j :: 0 <= j < k && Occurrences(code[j], v) > 0 ==> j + 1 <= e
  {
    if k == 0 then 0
    else if Occurrences(code[k - 1], v) > 0 then k
    else LastOcc(code, v, k - 1)
  }

  function UseCount(code: seq<Ins>, v: nat, k: nat): nat
    requires k <= |code|
  {
    if k == 0 then 0 else UseCount(code, v, k - 1) + Occurrences(code[k - 1], v)
  }

  ghost predicate SymbolsBelow(code: seq<Ins>, n: nat) {
    forall j, v: nat :: 0 <= j < |code| && Occurrences(code[j], v) > 0 ==> v < n
  }

  /** Every symbol that instruction k reads has been written further up. */
  ghost predicate ReadsStarted(code: seq<Ins>, k: nat) {
    k < |code| && forall v: nat :: v in Uses(code[k]) ==> FirstDef(code, v, k) > 0
  }

  ghost predicate AllStarted(code: seq<Ins>, k: nat) {
    forall j: nat :: j < k ==> ReadsStarted(code, j)
  }

  lemma AllStartedNext(code: seq<Ins>, k: nat)
    ensures AllStarted(code, 0)
    ensures AllStarted(code, k + 1) <==> AllStarted(code, k) && ReadsStarted(code, k)
  {
    hide ReadsStarted;
  }

  lemma OccurrencesMeaning(i: Ins, v: nat)
    ensures Occurrences(i, v) > 0 <==> v in Uses(i) + Defs(i)
  {
  }

  /** The fields of the interval records, one cell a symbol. */
  class IntervalTable {
    var start: array<nat>
    var end: array<nat>
    var usecount: array<nat>

    ghost predicate Valid(n: nat)
      reads this
    {
      start.Length == n && end.Length == n && usecount.Length == n &&
      start != end && end != usecount && start != usecount
    }

    /** The table describes the first k instructions. */
    ghost predicate Describes(code: seq<Ins>, k: nat)
      requires k <= |code|
      reads this, start, end, usecount
    {
      && (forall v :: 0 <= v < start.Length ==> start[v] == FirstDef(code, v, k))
      && (forall v :: 0 <= v < end.Length ==> end[v] == LastOcc(code, v, k))
      && (forall v :: 0 <= v < usecount.Length ==> usecount[v] == UseCount(code, v, k))
    }

    /** All fields start at zero (calloc). */
    constructor (n: nat)
      ensures Valid(n) && fresh(start) && fresh(end) && fresh(usecount)
      ensures forall v :: 0 <= v < n ==> start[v] == end[v] == usecount[v] == 0
    {
      start := new nat[n](_ => 0);
      end := new nat[n](_ => 0);
      usecount := new nat[n](_ => 0);
    }

    /** A symbol should have a start where it is read. */
    method Read(a: Arg, c: nat, ghost n: nat) returns (ok: bool)
      requires Valid(n) && (a.Sym? ==> a.id < n)
      modifies end, usecount
      ensures ok <==> (a.Sym? ==> old(start[a.id]) > 0)
      ensures forall v :: 0 <= v < n ==> end[v] == if a == Sym(v) then c else old(end[v])
      ensures forall v :: 0 <= v < n ==> usecount[v] == old(usecount[v]) + ArgCount(a, v)
    {
      ok := true;
      if a.Sym? {
        ok := start[a.id] > 0;
        end[a.id] := c;
        usecount[a.id] := usecount[a.id] + 1;
      }
    }

    method Write(r: nat, c: nat, ghost n: nat)
      requires Valid(n) && r < n
      modifies start, end, usecount
      ensures forall v :: 0 <= v < n ==> start[v] == if v == r && old(start[v]) == 0 then c else old(start[v])
      ensures forall v :: 0 <= v < n ==> end[v] == if v == r then c else old(end[v])
      ensures forall v :: 0 <= v < n ==> usecount[v] == old(usecount[v]) + ArgCount(Sym(r), v)
    {
      if start[r] == 0 {
        start[r] := c;
        end[r] := c;
      } else {
        end[r] := c;
      }
      usecount[r] := usecount[r] + 1;
    }

    /** ok says that the assertions on the operands hold; a build without DEBUG leaves them out. */
    method Visit(i: Ins, c: nat, ghost n: nat) returns (ok: bool)
      requires Valid(n) && forall v: nat :: Occurrences(i, v) > 0 ==> v < n
      modifies start, end, usecount
      ensures ok <==> forall v: nat :: v < n && v in Uses(i) ==> old(start[v]) > 0
      ensures forall v :: 0 <= v < n ==>
        start[v] == if v in Defs(i) && old(start[v]) == 0 then c else old(start[v])
      ensures forall v :: 0 <= v < n ==> end[v] == if Occurrences(i, v) > 0 then c else old(end[v])
      ensures forall v :: 0 <= v < n ==> usecount[v] == old(usecount[v]) + Occurrences(i, v)
    {
      ok := true;
      match i
      case Bin(_, r, a1, a2) =>
        assert Occurrences(i, r) > 0 && (a1.Sym? ==> Occurrences(i, a1.id) > 0) && (a2.Sym? ==> Occurrences(i, a2.id) > 0);
        var ok1 := Read(a1, c, n);
        var ok2 := Read(a2, c, n);
        ok := ok1 && ok2;
        Write(r, c, n);
      case In(r) =>
        assert Occurrences(i, r) > 0;
        Write(r, c, n);
      case Out(a) =>
        assert a.Sym? ==> Occurrences(i, a.id) > 0;
        ok := Read(a, c, n);
      case Iff(a, _) =>
        assert a.Sym? ==> Occurrences(i, a.id) > 0;
        ok := Read(a, c, n);
      case Assign(r, a1) =>
        assert Occurrences(i, r) > 0 && (a1.Sym? ==> Occurrences(i, a1.id) > 0);
        ok := Read(a1, c, n);
        Write(r, c, n);
      case _ =>
    }

    method VisitNext(code: seq<Ins>, k: nat, ghost n: nat) returns (ok: bool)
      requires Valid(n) && SymbolsBelow(code, n) && k < |code| && Describes(code, k)
      modifies start, end, usecount
      ensures Describes(code, k + 1) && (ok <==> ReadsStarted(code, k))
    {
      assert forall v: nat :: Occurrences(code[k], v) > 0 ==> v < n;
      forall v: nat | v in Uses(code[k]) ensures v < n {
        OccurrencesMeaning(code[k], v);
      }
      hide SymbolsBelow, Occurrences, Defs, Uses;
      ok := Visit(code[k], k + 1, n);
    }

    lemma DescribesNothing(code: seq<Ins>, n: nat)
      requires Valid(n) && forall v :: 0 <= v < n ==> start[v] == end[v] == usecount[v] == 0
      ensures Describes(code, 0)
    {
    }

    /** The pass over the code, which numbers the instructions from 1. */
    method Build(code: seq<Ins>, ghost n: nat) returns (ok: bool)
      requires Valid(n) && SymbolsBelow(code, n)
      requires forall v :: 0 <= v < n ==> start[v] == end[v] == usecount[v] == 0
      modifies start, end, usecount
      ensures Describes(code, |code|) && (ok <==> AllStarted(code, |code|))
    {
      DescribesNothing(code, n);
      hide *;
      ok := true;
      AllStartedNext(code, 0);
      for c := 0 to |code|
        invariant Describes(code, c) && (ok <==> AllStarted(code, c))
      {
        var started := VisitNext(code, c, n);
        AllStartedNext(code, c);
        ok := ok && started;
      }
    }
  }

  // ----- the list of intervals, sorted by start -----

  ghost predicate SortedByStart(list: seq<nat>, start: seq<nat>) {
    && (forall i :: 0 <= i < |list| ==> list[i] < |start|)
    && (forall i, j :: 0 <= i < j < |list| ==> start[list[i]] <= start[list[j]])
  }

  lemma InsertSorted(list: seq<nat>, s: nat, n: nat, start: seq<nat>)
    requires SortedByStart(list, start) && s < |start| && n <= |list|
    requires forall i :: 0 <= i < n ==> start[list[i]] <= start[s]
    requires n < |list| ==> start[s] < start[list[n]]
    ensures SortedByStart(list[..n] + [s] + list[n..], start)
  {
    var r := list[..n] + [s] + list[n..];
    forall i, j | 0 <= i < j < |r| ensures start[r[i]] <= start[r[j]] {
      assert r[i] == if i < n then list[i] else if i == n then s else list[i - 1];
      assert r[j] == if j < n then list[j] else if j == n then s else list[j - 1];
      assert j > n ==> start[list[n]] <= start[list[j - 1]];
    }
  }

  lemma InsertPermutes(list: seq<nat>, s: nat, n: nat)
    requires n <= |list|
    ensures multiset(list[..n] + [s] + list[n..]) == multiset(list) + multiset{s}
  {
    assert list == list[..n] + list[n..];
  }

  /** A symbol is inserted in front of the first interval that starts later. */
  method FillInterval(list: seq<nat>, s: nat, start: array<nat>) returns (r: seq<nat>)
    requires s < start.Length && SortedByStart(list, start[..])
    ensures SortedByStart(r, start[..]) && multiset(r) == multiset(list) + multiset{s}
    ensures |r| == |list| + 1
    ensures exists k: nat :: k <= |list| && r == list[..k] + [s] + list[k..] && FrontOf(list, s, k, start[..])
  {
    var n: nat := 0;
    while n < |list| && start[s] >= start[list[n]]
      invariant n <= |list| && forall i :: 0 <= i < n ==> start[list[i]] <= start[s]
    {
      n := n + 1;
    }
    InsertSorted(list, s, n, start[..]);
    InsertPermutes(list, s, n);
    r := list[..n] + [s] + list[n..];
    assert FrontOf(list, s, n, start[..]);
    hide SortedByStart;
  }

  /** Position k is in front of the first interval that starts later than s. */
  ghost predicate FrontOf(list: seq<nat>, s: nat, k: nat, start: seq<nat>) {
    && s < |start| && k <= |list| && (forall i :: 0 <= i < |list| ==> list[i] < |start|)
    && (forall i :: 0 <= i < k ==> start[list[i]] <= start[s])
    && (k < |list| ==> start[s] < start[list[k]])
  }
}
