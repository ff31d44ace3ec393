/** The sets that lva_bb gives to the instructions of a block, and when they contain what is live. */
module InsLiveness {
  import opened ThreeAddress
  import opened Liveness

  /** The symbols of an instruction. */
  function Mentions(i: Ins): set<nat> {
    Uses(i) + Defs(i)
  }

  /** The out of the block, and the symbols of instruction k and those behind it, but for the last one. */
  function Kept(ins: seq<Ins>, out: set<nat>, k: nat): set<nat>
    requires k < |ins|
    decreases |ins| - k
  {
    if k == |ins| - 1 then out else Mentions(ins[k]) + Kept(ins, out, k + 1)
  }

  /** The out of instruction k. */
  function InsOut(ins: seq<Ins>, out: set<nat>, k: nat): set<nat>
    requires k < |ins|
  {
    Kept(ins, out, k) + if k > 0 then Mentions(ins[k - 1]) else {}
  }

  /** lva_bb: from the last instruction up, the symbols of each one are added to the set of its
      successor, which is then copied.  An empty block gets no sets. */
  method LvaBB(ins: seq<Ins>, out: set<nat>) returns (ok: bool, outs: array<set<nat>>)
    ensures ok <==> ins != []
    ensures fresh(outs) && outs.Length == |ins|
    ensures forall k :: 0 <= k < |ins| ==> outs[k] == InsOut(ins, out, k)
  {
    ok := ins != [];
    if !ok {
      outs := new set<nat>[0];
      return;
    }
    outs := new set<nat>[|ins|](_ => {});
    outs[|ins| - 1] := out;
    for k := |ins| - 1 downto 0
      invariant fresh(outs) && outs[k] == Kept(ins, out, k)
      invariant forall j :: k < j < |ins| ==> outs[j] == InsOut(ins, out, j)
    {
      outs[k + 1] := outs[k + 1] + Mentions(ins[k]);
      outs[k] := outs[k + 1];
    }
  }

  lemma {:induction false} KeptExact(ins: seq<Ins>, out: set<nat>, k: nat, x: nat)
    requires k < |ins|
    ensures x in Kept(ins, out, k) <==> x in out || exists j :: k <= j < |ins| - 1 && x in Mentions(ins[j])
    decreases |ins| - k
  {
    if k < |ins| - 1 {
      KeptExact(ins, out, k + 1, x);
    }
    hide Mentions;
  }

  /** The set of an instruction: the out of the block, and every symbol that is read or written from the
      instruction before it on, but for the last instruction of the block. */
  lemma InsOutExact(ins: seq<Ins>, out: set<nat>, k: nat, x: nat)
    requires k < |ins|
    ensures x in InsOut(ins, out, k) <==>
      x in out || exists j :: k - 1 <= j < |ins| - 1 && 0 <= j && (x in Uses(ins[j]) || x in Defs(ins[j]))
  {
    KeptExact(ins, out, k, x);
    assert forall j :: 0 <= j < |ins| ==> (x in Mentions(ins[j]) <==> x in Uses(ins[j]) || x in Defs(ins[j]));
    hide Uses, Defs;
  }

  /** What is live behind instruction k. */
  function LiveBehind(ins: seq<Ins>, out: set<nat>, k: nat): set<nat>
    requires k < |ins|
  {
    Backward(ins[k + 1..], out)
  }

  /** The symbols of the last instruction that is not the first of the block are live behind the block,
      or occur in one of the two instructions before it. */
  ghost predicate LastCovered(ins: seq<Ins>, out: set<nat>) {
    var n := |ins|;
    n >= 2 ==> Uses(ins[n - 1]) <= out + Mentions(ins[n - 2]) + if n >= 3 then Mentions(ins[n - 3]) else {}
  }

  lemma {:induction false} LiveBound(ins: seq<Ins>, out: set<nat>, k: nat)
    requires k < |ins|
    ensures LiveBehind(ins, out, k) <= Kept(ins, out, k) + Uses(ins[|ins| - 1])
    decreases |ins| - k
  {
    if k == |ins| - 1 {
      assert ins[k + 1..] == [];
    } else {
      LiveBound(ins, out, k + 1);
      assert ins[k + 1..][0] == ins[k + 1] && ins[k + 1..][1..] == ins[k + 2..];
      if k + 1 == |ins| - 1 {
        assert ins[k + 2..] == [];
      }
    }
  }

  lemma {:induction false} KeptAlong(ins: seq<Ins>, out: set<nat>, k: nat, j: nat)
    requires k <= j < |ins| - 1
    ensures Mentions(ins[j]) <= Kept(ins, out, k) && out <= Kept(ins, out, k)
    decreases j - k
  {
    if k < j {
      KeptAlong(ins, out, k + 1, j);
    } else {
      KeptOut(ins, out, k);
    }
  }

  lemma {:induction false} KeptOut(ins: seq<Ins>, out: set<nat>, k: nat)
    requires k < |ins|
    ensures out <= Kept(ins, out, k)
    decreases |ins| - k
  {
    if k < |ins| - 1 {
      KeptOut(ins, out, k + 1);
    }
  }

  lemma CoveredAt(ins: seq<Ins>, out: set<nat>, k: nat)
    requires k < |ins| && LastCovered(ins, out)
    ensures LiveBehind(ins, out, k) <= InsOut(ins, out, k)
  {
    var n := |ins|;
    if k == n - 1 {
      assert ins[k + 1..] == [];
    } else {
      LiveBound(ins, out, k);
      KeptAlong(ins, out, k, n - 2);
      if k <= n - 3 {
        KeptAlong(ins, out, k, n - 3);
      }
    }
    hide Kept, LiveBehind, Mentions;
  }

  /** In front of the last instruction. */
  lemma BeforeLast(ins: seq<Ins>, out: set<nat>)
    requires |ins| >= 2
    ensures Uses(ins[|ins| - 1]) <= LiveBehind(ins, out, |ins| - 2)
    ensures InsOut(ins, out, |ins| - 2)
         == out + Mentions(ins[|ins| - 2]) + if |ins| >= 3 then Mentions(ins[|ins| - 3]) else {}
  {
    var n := |ins|;
    assert ins[n - 1..][0] == ins[n - 1];
    assert Kept(ins, out, n - 2) == Mentions(ins[n - 2]) + Kept(ins, out, n - 1);
    assert Mentions(ins[n - 2]) + out == out + Mentions(ins[n - 2]);
    hide Mentions;
  }

  /** The sets contain what is live behind every instruction if and only if the symbols that the last
      instruction reads are covered. */
  lemma CoversIff(ins: seq<Ins>, out: set<nat>)
    ensures (forall k :: 0 <= k < |ins| ==> LiveBehind(ins, out, k) <= InsOut(ins, out, k)) <==> LastCovered(ins, out)
  {
    var n := |ins|;
    hide InsOut, LiveBehind, Mentions;
    if LastCovered(ins, out) {
      forall k | 0 <= k < n ensures LiveBehind(ins, out, k) <= InsOut(ins, out, k) {
        CoveredAt(ins, out, k);
      }
    } else {
      BeforeLast(ins, out);
    }
  }
}
