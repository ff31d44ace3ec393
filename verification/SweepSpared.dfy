/** Code that free_regs does no harm to, though the condition on the text does not hold:

      b := 1; c := 2; x := 5; a := b + c; write a; write b; write c; write x

    with all four symbols in memory.  The register of x is needed for a, so find_reg stores x before
    free_regs could lose it, and the last instruction loads the value. */
module SweepSpared {
  import opened Options
  import opened ThreeAddress
  import opened LoopAllocation
  import opened Spares
  import opened SpareCode
  import opened SpareSweep
  import opened InsLiveness
  import opened MachineCode
  import opened MachineSim
  import opened SweepConditions

  /** The code on locations: b, c, x and a have the locations 5, 6, 3 and 4. */
  function Target(): seq<Ins> {
    [Assign(5, Const(1)), Assign(6, Const(2)), Assign(3, Const(5)), Bin(Add, 4, Sym(5), Sym(6)),
     Out(Sym(4)), Out(Sym(5)), Out(Sym(6)), Out(Sym(3))]
  }

  function Live(): LiveSets {
    [{}, {5}, {5, 6}, {5, 6, 3}, {4, 5, 6, 3}, {5, 6, 3}, {6, 3}, {3}, {}]
  }

  lemma OneBlock(p: nat)
    requires p < 8
    ensures |Target()| == 8 && |Live()| == 9
    ensures (EndsBlock(Target(), p) <==> p == 7) && (StartsBlock(Target(), p) <==> p == 0)
  {
  }

  /** The sets are what is live. */
  lemma LiveSolves()
    ensures SolvesCode(Target(), Live())
  {
    forall p: nat | p < |Target()| ensures Live()[p] == LiveIn(Target(), Live(), p) {
      LiveAt(p);
    }
    hide LiveIn;
  }

  lemma LiveAt(p: nat)
    requires p < 8
    ensures |Target()| == 8 && |Live()| == 9 && Live()[p] == LiveIn(Target(), Live(), p)
  {
    var t, l := Target(), Live();
    assert LiveOut(t, l, p) == l[p + 1];
    if p == 0 {
      assert Uses(t[0]) == {} && Defs(t[0]) == {5};
    } else if p == 1 {
      assert Uses(t[1]) == {} && Defs(t[1]) == {6};
    } else if p == 2 {
      assert Uses(t[2]) == {} && Defs(t[2]) == {3};
    } else if p == 3 {
      assert Uses(t[3]) == {5, 6} && Defs(t[3]) == {4};
    } else {
      assert Defs(t[p]) == {} && Uses(t[p]) == {if p == 4 then 4 else if p == 5 then 5 else if p == 6 then 6 else 3};
    }
    hide LiveOut;
  }

  // ----- the sets of lva_bb -----

  lemma Mentioned()
    ensures var t := Target();
      && |t| == 8 && Mentions(t[0]) == {5} && Mentions(t[1]) == {6} && Mentions(t[2]) == {3} && Mentions(t[3]) == {4, 5, 6}
      && Mentions(t[4]) == {4} && Mentions(t[5]) == {5} && Mentions(t[6]) == {6}
  {
  }

  lemma KeptSets()
    ensures |Target()| == 8 && |Live()| == 9
    ensures KeptAt(Target(), Live(), 6) == {6} && KeptAt(Target(), Live(), 5) == {5, 6} && KeptAt(Target(), Live(), 4) == {4, 5, 6}
    ensures KeptAt(Target(), Live(), 3) == {4, 5, 6} && KeptAt(Target(), Live(), 2) == {3, 4, 5, 6}
    ensures KeptAt(Target(), Live(), 1) == {3, 4, 5, 6} && KeptAt(Target(), Live(), 0) == {3, 4, 5, 6}
  {
    var t, l := Target(), Live();
    Mentioned();
    assert KeptAt(t, l, 7) == {};
    assert KeptAt(t, l, 6) == {6};
    assert KeptAt(t, l, 5) == {5} + {6};
    assert KeptAt(t, l, 4) == {4} + {5, 6};
    assert KeptAt(t, l, 3) == {4, 5, 6} + {4, 5, 6};
    assert KeptAt(t, l, 2) == {3} + {4, 5, 6};
    assert KeptAt(t, l, 1) == {6} + {3, 4, 5, 6};
    hide Mentions;
  }

  /** What stays in the sets: everything up to the addition, and then no longer x. */
  function Sets(p: nat): set<nat> {
    if p <= 3 then {3, 4, 5, 6} else if p <= 5 then {4, 5, 6} else {5, 6}
  }

  lemma OutSets(p: nat)
    requires p < 7
    ensures |Target()| == 8 && |Live()| == 9 && OutAt(Target(), Live(), p) == Sets(p)
  {
    KeptSets();
    Mentioned();
    OneBlock(p);
    hide KeptAt, Mentions, StartsBlock, Target, Live;
  }

  // ----- the registers -----

  /** The spare registers in front of instruction p. */
  function DescBefore(p: nat): Desc {
    if p == 0 then Desc([None, None, None], {})
    else if p == 1 then Desc([Some(Sym(5)), None, None], {5})
    else if p == 2 then Desc([Some(Sym(5)), Some(Sym(6)), None], {5, 6})
    else if p == 3 then Desc([Some(Sym(5)), Some(Sym(6)), Some(Sym(3))], {5, 6, 3})
    else Desc([Some(Sym(5)), Some(Sym(6)), Some(Sym(4))], {5, 6, 3, 4})
  }

  lemma Stored(d: Desc, p: nat, x: nat, v: int)
    requires p < 3 && d == DescBefore(p) && x == (if p == 0 then 5 else if p == 1 then 6 else 3)
    ensures GenIns(d, Assign(x, Const(v))).Some? && GenIns(d, Assign(x, Const(v))).value.0 == DescBefore(p + 1)
  {
    assert RegOf(d, Sym(x)).None?;
    assert Chosen(d, Some(Const(v)), None) == Some(p);
    assert Spares.Mark(d, p, Sym(x)) == DescBefore(p + 1);
    hide RegOf, Chosen, Spares.Mark;
  }

  /** The addition needs a register, and only that of x is free to be taken. */
  lemma Evicted(d: Desc)
    requires d == DescBefore(3)
    ensures GenIns(d, Bin(Add, 4, Sym(5), Sym(6))).Some? && GenIns(d, Bin(Add, 4, Sym(5), Sym(6))).value.0 == DescBefore(4)
  {
    assert RegOf(d, Sym(4)).None?;
    assert Chosen(d, Some(Sym(5)), Some(Sym(6))) == Some(2);
    assert Spares.Mark(d, 2, Sym(4)) == DescBefore(4);
    assert RegOf(DescBefore(4), Sym(5)).Some? && RegOf(DescBefore(4), Sym(6)).Some?;
    hide RegOf, Chosen, Spares.Mark, Load, Evict;
  }

  lemma Printed(x: nat)
    requires 4 <= x <= 6
    ensures GenIns(DescBefore(4), Out(Sym(x))).Some? && GenIns(DescBefore(4), Out(Sym(x))).value.0 == DescBefore(4)
  {
  }

  lemma Instructions()
    ensures var t := Target();
      && |t| == 8 && t[0] == Assign(5, Const(1)) && t[1] == Assign(6, Const(2)) && t[2] == Assign(3, Const(5))
      && t[3] == Bin(Add, 4, Sym(5), Sym(6)) && t[4] == Out(Sym(4)) && t[5] == Out(Sym(5)) && t[6] == Out(Sym(6))
  {
  }

  lemma Later(p: nat)
    ensures p >= 4 ==> DescBefore(p) == DescBefore(4)
  {
  }

  lemma Generated(p: nat)
    requires p < 7
    ensures |Target()| == 8 && !IsControl(Target()[p]) && GenIns(DescBefore(p), Target()[p]).Some?
    ensures GenIns(DescBefore(p), Target()[p]).value.0 == DescBefore(p + 1)
  {
    Instructions();
    hide GenIns, DescBefore, Target;
    Later(p);
    Later(p + 1);
    if p == 0 {
      Stored(DescBefore(0), 0, 5, 1);
    } else if p == 1 {
      Stored(DescBefore(1), 1, 6, 2);
    } else if p == 2 {
      Stored(DescBefore(2), 2, 3, 5);
    } else if p == 3 {
      Evicted(DescBefore(3));
    } else {
      Printed(p);
    }
  }

  lemma SweptNone(p: nat)
    requires p < 6
    ensures Swept(DescBefore(p + 1), Sets(p)) == DescBefore(p + 1)
  {
  }

  /** The descriptors in front of an instruction inside a block. */
  lemma NextDesc(code: seq<Ins>, live: LiveSets, p: nat, d: Desc, e: Desc)
    requires |live| == |code| + 1 && p < |code| && !EndsBlock(code, p) && !IsControl(code[p])
    requires ItemsTo(code, live, p).Some? && DescAt(code, live, p) == d
    requires GenIns(d, code[p]).Some? && GenIns(d, code[p]).value.0 == e
    ensures ItemsTo(code, live, p + 1).Some? && DescAt(code, live, p + 1) == Swept(e, OutAt(code, live, p))
  {
    hide GenIns, Swept, OutAt, EndsBlock;
  }

  lemma Size()
    ensures |Target()| == 8 && |Live()| == 9
    ensures ItemsTo(Target(), Live(), 0).Some? && DescAt(Target(), Live(), 0) == DescBefore(0)
  {
  }

  lemma {:induction false} Descs(p: nat)
    requires p <= 6
    ensures |Target()| == 8 && |Live()| == 9
    ensures ItemsTo(Target(), Live(), p).Some? && DescAt(Target(), Live(), p) == DescBefore(p)
  {
    hide *;
    Size();
    if p > 0 {
      Descs(p - 1);
      Generated(p - 1);
      OneBlock(p - 1);
      OutSets(p - 1);
      SweptNone(p - 1);
      NextDesc(Target(), Live(), p - 1, DescBefore(p - 1), DescBefore(p));
    }
  }

  /** Behind the addition x is in no register. */
  lemma XStored(p: nat, w: set<nat>)
    requires 4 <= p <= 6
    ensures |Target()| == 8 && 3 !in DirtyBehind(DescBefore(p), Target()[p], w)
  {
    Generated(p);
    Later(p + 1);
    assert InSpares(DescBefore(4)) == {5, 6, 4};
    hide GenIns, Target, InSpares, Writes, DescBefore;
  }

  lemma LiveIn6(p: nat)
    requires p < 7
    ensures |Live()| == 9 && (p <= 3 ==> Live()[p + 1] <= Sets(p)) && Live()[p + 1] <= Sets(p) + {3}
  {
  }

  /** No register is lost while its value is needed. */
  lemma NothingSwept()
    ensures |Live()| == |Target()| + 1 && SweepsSafe(Target(), Live())
  {
    Size();
    forall p: nat | p < |Target()| && !EndsBlock(Target(), p)
      ensures SafeAt(Target(), Live(), p, DescAt(Target(), Live(), p), DirtyAt(Target(), Live(), p))
    {
      hide *;
      OneBlock(p);
      Descs(p);
      OutSets(p);
      LiveIn6(p);
      if p >= 4 {
        XStored(p, DirtyAt(Target(), Live(), p));
      }
      SafeIs(Target(), Live(), p, DescBefore(p), DirtyAt(Target(), Live(), p), 3);
    }
    hide SafeAt, EndsBlock, DescAt, DirtyAt, Target, Live;
  }

  lemma SafeIs(code: seq<Ins>, live: LiveSets, p: nat, d: Desc, w: set<nat>, x: nat)
    requires |live| == |code| + 1 && p < |code| && live[p + 1] <= OutAt(code, live, p) + {x}
    requires live[p + 1] <= OutAt(code, live, p) || x !in DirtyBehind(d, code[p], w)
    ensures SafeAt(code, live, p, d, w)
  {
    hide OutAt, DirtyBehind;
  }

  // ----- the condition on the text -----

  lemma XWritten()
    ensures |Target()| == 8 && 3 in WrittenAt(Target(), 7)
  {
    var t := Target();
    Instructions();
    assert 3 in Defs(t[2]);
    OneBlock(3);
    OneBlock(4);
    OneBlock(5);
    OneBlock(6);
    OneBlock(7);
    hide Target, StartsBlock, Defs;
    assert 3 in WrittenAt(t, 3);
    assert 3 in WrittenAt(t, 4);
    assert 3 in WrittenAt(t, 5);
    assert 3 in WrittenAt(t, 6);
  }

  /** The condition on the text asks for more than is needed. */
  lemma TextRejects()
    ensures |Live()| == |Target()| + 1 && SolvesCode(Target(), Live())
    ensures SweepsSafe(Target(), Live()) && !LastSafe(Target(), Live())
  {
    LiveSolves();
    NothingSwept();
    XWritten();
    OutSets(6);
    OneBlock(7);
    assert 3 in Live()[7] && 3 !in Sets(6);
    hide SweepsSafe, SolvesCode, WrittenAt, OutAt, EndsBlock, StartsBlock, Target, Live, Sets;
    assert !SweepSafe(Live()[7], WrittenAt(Target(), 7), OutAt(Target(), Live(), 6));
  }
}
