/** What is counted for an interval, in terms of the operands of the instructions. */
module IntervalCounts {
  import opened ThreeAddress
  import opened Intervals

  /** The operands of an instruction, the result in front. */
  function Operands(i: Ins): seq<Arg> {
    match i
    case Bin(_, r, a1, a2) => [Sym(r), a1, a2]
    case In(r) => [Sym(r)]
    case Out(a) => [a]
    case Assign(r, a1) => [Sym(r), a1]
    case Iff(c, _) => [c]
    case _ => []
  }

  /** What an instruction writes is its result, and what it reads are the other operands. */
  lemma ReadsExact(i: Ins)
    ensures Defs(i) == if i.Bin? || i.In? || i.Assign? then {i.r} else {}
    ensures Defs(i) != {} ==> Operands(i)[0] == Sym(i.r)
    ensures forall x :: x in Uses(i) <==> Sym(x) in Operands(i)[|Defs(i)|..]
  {
  }

  /** A symbol is counted once for each operand that it is. */
  lemma OccurrencesCount(i: Ins, v: nat)
    ensures Occurrences(i, v) == multiset(Operands(i))[Sym(v)]
  {
  }

  lemma {:induction false} CountedFront(a: seq<Ins>, b: seq<Ins>, v: nat, k: nat)
    requires k <= |a|
    ensures UseCount(a + b, v, k) == UseCount(a, v, k)
  {
    if k > 0 {
      CountedFront(a, b, v, k - 1);
      assert (a + b)[k - 1] == a[k - 1];
    }
  }

  /** Use counts add up over the code, from the counts of the single instructions. */
  lemma {:induction false} UseCountAdds(a: seq<Ins>, b: seq<Ins>, v: nat, k: nat)
    requires k <= |b|
    ensures UseCount(a + b, v, |a| + k) == UseCount(a, v, |a|) + UseCount(b, v, k)
    ensures |b| == 1 ==> UseCount(b, v, 1) == multiset(Operands(b[0]))[Sym(v)]
  {
    if k > 0 {
      UseCountAdds(a, b, v, k - 1);
      assert (a + b)[|a| + k - 1] == b[k - 1];
    } else {
      CountedFront(a, b, v, |a|);
    }
    if |b| == 1 {
      OccurrencesCount(b[0], v);
    }
    hide Occurrences, Operands;
  }
}
