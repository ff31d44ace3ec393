/** Placing one instruction keeps the graph under construction in shape. */
module BlockSteps {
  import opened Options
  import opened ThreeAddress
  import opened BasicBlocks

  // ----- how the wanted blocks change with one more instruction -----

  /** The last block of the cut grows by an instruction that is no jump. */
  lemma WantedGrows(code: seq<Ins>, c: seq<seq<Ins>>, i: Ins, b: nat)
    requires c != [] && !IsControl(i) && b < |Ids(code)|
    requires Last(c) == [] || (!Last(Last(c)).Iff? && !Last(Last(c)).Jmp?)
    ensures var n := |c| - 1;
      Wanted(code, c[n := c[n] + [i]], b)
      == if b == n then Wanted(code, c, b).(ins := c[n] + [i]) else Wanted(code, c, b)
  {
    hide Ids, Empties, FindBlock;
  }

  /** A label opens the next block of the cut. */
  lemma WantedOpens(code: seq<Ins>, c: seq<seq<Ins>>, i: Ins, b: nat)
    requires c != [] && Last(c) != [] && !Last(Last(c)).Iff? && i.Label? && b < |Ids(code)|
    ensures var n := |c| - 1;
      Wanted(code, c + [[i]], b)
      == if b == n && !Last(c[n]).Jmp? then Wanted(code, c, b).(next := Some(n + 1))
         else if b == n + 1 then Wanted(code, c, b).(ins := [i])
         else Wanted(code, c, b)
  {
    hide Ids, Empties, FindBlock;
  }

  /** A jump ends the last block of the cut. */
  lemma WantedJumps(code: seq<Ins>, c: seq<seq<Ins>>, i: Ins, b: nat)
    requires c != [] && i.Jmp? && b < |Ids(code)|
    ensures var n := |c| - 1;
      Wanted(code, c[n := c[n] + [i]], b)
      == if b == n then Wanted(code, c, b).(ins := c[n] + [i], next := None, jmp := FindBlock(Empties(code), i.target, 0))
         else Wanted(code, c, b)
  {
    hide Ids, Empties, FindBlock;
  }

  /** A test ends the last block of the cut and opens an empty one. */
  lemma WantedTests(code: seq<Ins>, c: seq<seq<Ins>>, i: Ins, b: nat)
    requires c != [] && i.Iff? && b < |Ids(code)|
    ensures var n := |c| - 1;
      Wanted(code, c[n := c[n] + [i]] + [[]], b)
      == if b == n
         then Wanted(code, c, b).(ins := c[n] + [i], next := Some(n + 1), jmp := FindBlock(Empties(code), i.target, 0))
         else Wanted(code, c, b)
  {
    hide Ids, Empties, FindBlock;
  }

  // ----- the placed instruction -----

  /** What is known about the current block before instruction k is placed. */
  lemma CurrentBlock(code: seq<Ins>, k: nat, s: Building)
    requires WellFormed(code) && k < |code| && Shape(code, k, s)
    ensures var c := Cut(code[..k]); var n := |c| - 1;
      && |c| == |Ids(code[..k])|
      && (Last(c) == [] <==> k == 0 || code[k - 1].Iff?) && (Last(c) != [] ==> Last(Last(c)) == code[k - 1])
      && s.cur == (if k > 0 && code[k - 1].Jmp? then n + 1 else n)
      && s.g[s.cur].ins == (if k > 0 && code[k - 1].Jmp? then [] else c[n])
      && (k > 0 && code[k - 1].Jmp? ==> code[k].Label?)
  {
    CutLast(code, k);
    assert Bare(s.g[s.cur]) == Wanted(code, Cut(code[..k]), s.cur);
    hide Cut, Ids, FindBlock, Empties;
  }

  lemma PlainStep(code: seq<Ins>, k: nat, s: Building)
    requires WellFormed(code) && k < |code| && Shape(code, k, s) && !IsControl(code[k])
    ensures Place(s, code[k]) == Some(Building(Push(s.g, s.cur, code[k]), s.cur))
    ensures Shape(code, k + 1, Place(s, code[k]).value)
  {
    CurrentBlock(code, k, s);
    CutStep(code, k);
    IdsStep(code, k);
    var c := Cut(code[..k]);
    var g := Push(s.g, s.cur, code[k]);
    hide Cut, Ids, FindBlock, Empties, WellFormed, Wanted;
    forall b | 0 <= b < |g| ensures Bare(g[b]) == Wanted(code, Cut(code[..k + 1]), b) {
      WantedGrows(code, c, code[k], b);
      assert Bare(s.g[b]) == Wanted(code, c, b);
    }
  }

  /** A label after a TJMP: the block is already current. */
  lemma LabelAfterJump(code: seq<Ins>, k: nat, s: Building)
    requires WellFormed(code) && 0 < k < |code| && Shape(code, k, s) && code[k].Label? && code[k - 1].Jmp?
    ensures Place(s, code[k]) == Some(Building(Push(s.g, s.cur, code[k]), s.cur))
    ensures Shape(code, k + 1, Place(s, code[k]).value)
  {
    CurrentBlock(code, k, s);
    CutStep(code, k);
    IdsStep(code, k);
    IdAt(code, k);
    var c := Cut(code[..k]);
    var g := Push(s.g, s.cur, code[k]);
    hide Cut, Ids, FindBlock, Empties, WellFormed, Wanted;
    forall b | 0 <= b < |g| ensures Bare(g[b]) == Wanted(code, Cut(code[..k + 1]), b) {
      WantedOpens(code, c, code[k], b);
      assert Bare(s.g[b]) == Wanted(code, c, b);
    }
  }

  /** The graph after a label that control falls into. */
  function Opened(s: Building, i: Ins, b: nat): (t: Building)
    requires s.cur < |s.g| && b < |s.g|
    ensures |t.g| == |s.g| && t.cur == b
  {
    var g := Push(s.g, b, i);
    Building(AddPred(g[s.cur := g[s.cur].(next := Some(b))], b, s.cur), b)
  }

  lemma OpenedBare(s: Building, i: Ins, b: nat, a: nat)
    requires s.cur < |s.g| && b < |s.g| && a < |s.g| && b != s.cur
    ensures Bare(Opened(s, i, b).g[a])
         == if a == s.cur then Bare(s.g[a]).(next := Some(b))
            else if a == b then Bare(s.g[a]).(ins := s.g[a].ins + [i]) else Bare(s.g[a])
  {
  }

  lemma LabelPlaced(code: seq<Ins>, k: nat, s: Building)
    requires WellFormed(code) && 0 < k < |code| && Shape(code, k, s) && code[k].Label?
    requires !code[k - 1].Jmp? && !code[k - 1].Iff?
    ensures s.cur + 1 < |s.g| && Place(s, code[k]) == Some(Opened(s, code[k], s.cur + 1))
  {
    CurrentBlock(code, k, s);
    IdAt(code, k);
    ShapeFinds(code, k, s, code[k].l);
    FindLabelBlock(code, k, Empties(code));
    hide Cut, Ids, FindBlock, Empties, WellFormed, Shape, Push, AddPred;
  }

  lemma LabelStep(code: seq<Ins>, k: nat, s: Building)
    requires WellFormed(code) && 0 < k < |code| && Shape(code, k, s) && code[k].Label?
    requires !code[k - 1].Jmp? && !code[k - 1].Iff?
    ensures s.cur + 1 < |s.g| && Place(s, code[k]) == Some(Opened(s, code[k], s.cur + 1))
    ensures Shape(code, k + 1, Opened(s, code[k], s.cur + 1))
  {
    LabelPlaced(code, k, s);
    CurrentBlock(code, k, s);
    CutStep(code, k);
    IdsStep(code, k);
    var c := Cut(code[..k]);
    var t := Opened(s, code[k], s.cur + 1);
    assert Bare(s.g[s.cur + 1]) == Wanted(code, c, s.cur + 1) && s.g[s.cur + 1].ins == [];
    hide Cut, Ids, FindBlock, Empties, WellFormed, Wanted, Opened;
    forall b | 0 <= b < |t.g| ensures Bare(t.g[b]) == Wanted(code, Cut(code[..k + 1]), b) {
      WantedOpens(code, c, code[k], b);
      OpenedBare(s, code[k], s.cur + 1, b);
      assert Bare(s.g[b]) == Wanted(code, c, b);
    }
  }

  /** The graph after an unconditional jump to block b. */
  function Jumped(s: Building, i: Ins, b: nat): (t: Building)
    requires s.cur < |s.g| && b < |s.g|
    ensures |t.g| == |s.g| && t.cur == s.cur + 1
  {
    var g := Push(s.g, s.cur, i);
    Building(AddPred(g[s.cur := g[s.cur].(jmp := Some(b), next := None)], b, s.cur), s.cur + 1)
  }

  lemma JumpedBare(s: Building, i: Ins, b: nat, a: nat)
    requires s.cur < |s.g| && b < |s.g| && a < |s.g|
    ensures Bare(Jumped(s, i, b).g[a])
         == if a == s.cur then Bare(s.g[a]).(ins := s.g[a].ins + [i], jmp := Some(b), next := None) else Bare(s.g[a])
  {
  }

  /** The block that a test or jump leads to. */
  lemma TargetFound(code: seq<Ins>, k: nat, s: Building) returns (b: nat)
    requires WellFormed(code) && k < |code| && Shape(code, k, s) && (code[k].Jmp? || code[k].Iff?)
    ensures b < |s.g| && s.cur + 1 < |s.g| && FindBlock(s.g, code[k].target, 0) == FindBlock(Empties(code), code[k].target, 0) == Some(b)
  {
    CurrentBlock(code, k, s);
    RoomAfter(code, k);
    ShapeFinds(code, k, s, code[k].target);
    var p := TargetBlock(code, code[k].target);
    b := |Ids(code[..p])|;
  }

  lemma JumpStep(code: seq<Ins>, k: nat, s: Building) returns (b: nat)
    requires WellFormed(code) && 0 < k < |code| && Shape(code, k, s) && code[k].Jmp? && !code[k - 1].Iff?
    ensures b < |s.g| && FindBlock(Empties(code), code[k].target, 0) == Some(b)
    ensures Place(s, code[k]) == Some(Jumped(s, code[k], b)) && Shape(code, k + 1, Jumped(s, code[k], b))
  {
    CurrentBlock(code, k, s);
    CutStep(code, k);
    IdsStep(code, k);
    b := TargetFound(code, k, s);
    var c := Cut(code[..k]);
    var t := Jumped(s, code[k], b);
    hide Cut, Ids, FindBlock, Empties, WellFormed, Wanted;
    assert Place(s, code[k]) == Some(t);
    hide Jumped, Place;
    forall a | 0 <= a < |t.g| ensures Bare(t.g[a]) == Wanted(code, Cut(code[..k + 1]), a) {
      WantedJumps(code, c, code[k], a);
      JumpedBare(s, code[k], b, a);
      assert Bare(s.g[a]) == Wanted(code, c, a);
    }
  }

  /** The graph after a test that jumps to block b. */
  function Tested(s: Building, i: Ins, b: nat): (t: Building)
    requires s.cur + 1 < |s.g| && b < |s.g|
    ensures |t.g| == |s.g| && t.cur == s.cur + 1
  {
    var g := Push(s.g, s.cur, i);
    var h := AddPred(g[s.cur := g[s.cur].(jmp := Some(b))], b, s.cur);
    Building(AddPred(h[s.cur := h[s.cur].(next := Some(s.cur + 1))], s.cur + 1, s.cur), s.cur + 1)
  }

  lemma TestedBare(s: Building, i: Ins, b: nat, a: nat)
    requires s.cur + 1 < |s.g| && b < |s.g| && a < |s.g|
    ensures Bare(Tested(s, i, b).g[a])
         == if a == s.cur then Bare(s.g[a]).(ins := s.g[a].ins + [i], jmp := Some(b), next := Some(a + 1)) else Bare(s.g[a])
  {
  }

  lemma TestStep(code: seq<Ins>, k: nat, s: Building) returns (b: nat)
    requires WellFormed(code) && 0 < k < |code| && Shape(code, k, s) && code[k].Iff? && !code[k - 1].Iff?
    ensures s.cur + 1 < |s.g| && b < |s.g| && FindBlock(Empties(code), code[k].target, 0) == Some(b)
    ensures Place(s, code[k]) == Some(Tested(s, code[k], b)) && Shape(code, k + 1, Tested(s, code[k], b))
  {
    CurrentBlock(code, k, s);
    CutStep(code, k);
    IdsStep(code, k);
    b := TargetFound(code, k, s);
    var c := Cut(code[..k]);
    var t := Tested(s, code[k], b);
    hide Cut, Ids, FindBlock, Empties, WellFormed, Wanted;
    assert Place(s, code[k]) == Some(t);
    hide Tested, Place;
    forall a | 0 <= a < |t.g| ensures Bare(t.g[a]) == Wanted(code, Cut(code[..k + 1]), a) {
      WantedTests(code, c, code[k], a);
      TestedBare(s, code[k], b, a);
      assert Bare(s.g[a]) == Wanted(code, c, a);
    }
  }
}
