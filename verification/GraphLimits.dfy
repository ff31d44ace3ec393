/** Where a label, a test or a jump opens an empty block, bb_build builds no control-flow graph. */
module GraphLimits {
  import opened Options
  import opened ThreeAddress
  import opened BasicBlocks
  import opened BlockSteps
  import opened Predecessors
  import opened BlockGraph

  /** The jump at the head of b has no edge, or is not the last of its block. */
  ghost predicate LostJump(g: Cfg, b: nat, i: Ins) {
    b < |g| && g[b].ins != [] && g[b].ins[0] == i && (|g[b].ins| > 1 || g[b].jmp == None)
  }

  lemma PlaceLosesJump(s: Building, b: nat, x: Ins, i: Ins)
    requires s.cur < |s.g| && LostJump(s.g, b, x) && Place(s, i).Some?
    ensures LostJump(Place(s, i).value.g, b, x)
  {
    hide FindBlock;
  }

  lemma LostJumpNoGraph(code: seq<Ins>, g: Cfg, b: nat, i: Ins)
    requires LostJump(g, b, i) && (i.Iff? || i.Jmp?)
    ensures !GraphOf(code, g)
  {
    assert !GoodBlock(g, b);
    hide Flatten, PredsExact, GoodBlock;
  }

  /** The label is in no block but b, and another block is the one made for it. */
  ghost predicate LostLabel(g: Cfg, b: nat, l: nat) {
    && (forall a :: 0 <= a < |g| && a != b ==> Label(l) !in g[a].ins)
    && exists a :: 0 <= a < |g| && a != b && g[a].id == l
  }

  lemma PlaceLosesLabel(s: Building, b: nat, l: nat, i: Ins)
    requires s.cur < |s.g| && LostLabel(s.g, b, l) && Place(s, i).Some? && i != Label(l)
    ensures LostLabel(Place(s, i).value.g, b, l)
  {
    var g := Place(s, i).value.g;
    forall a | 0 <= a < |g| ensures g[a].id == s.g[a].id && (g[a].ins == s.g[a].ins || g[a].ins == s.g[a].ins + [i]) {
      PlaceGrows(s, i, a);
    }
    hide Place;
  }

  lemma PlaceGrows(s: Building, i: Ins, a: nat)
    requires s.cur < |s.g| && Place(s, i).Some? && a < |s.g|
    ensures var g := Place(s, i).value.g;
      g[a].id == s.g[a].id && (g[a].ins == s.g[a].ins || g[a].ins == s.g[a].ins + [i])
  {
    hide FindBlock;
  }

  lemma LostLabelNoGraph(code: seq<Ins>, g: Cfg, b: nat, l: nat)
    requires LostLabel(g, b, l) && IsLabel(l)
    ensures !GraphOf(code, g)
  {
    var a :| 0 <= a < |g| && a != b && g[a].id == l;
    assert !GoodBlock(g, a);
    hide Flatten, PredsExact, GoodBlock;
  }

  /** Once lost, always lost. */
  ghost predicate Lost(g: Cfg, b: nat, i: Ins) {
    match i
    case Label(l) => LostLabel(g, b, l)
    case _ => LostJump(g, b, i)
  }

  lemma {:induction false} StaysLost(code: seq<Ins>, p: nat, k: nat, b: nat)
    requires DistinctLabels(code) && p < k <= |code| && IsControl(code[p])
    requires BuildTo(code, p + 1).Some? && Lost(BuildTo(code, p + 1).value.g, b, code[p])
    requires BuildTo(code, k).Some?
    ensures Lost(BuildTo(code, k).value.g, b, code[p])
  {
    if k > p + 1 {
      StaysLost(code, p, k - 1, b);
      var s := BuildTo(code, k - 1).value;
      hide LostLabel, LostJump, Place;
      if code[p].Label? {
        assert code[k - 1] != code[p];
        PlaceLosesLabel(s, b, code[p].l, code[k - 1]);
      } else {
        PlaceLosesJump(s, b, code[p], code[k - 1]);
      }
    }
  }

  lemma {:induction false} EntryId(code: seq<Ins>)
    ensures Ids(code)[0] == NO_ID
  {
    if code != [] {
      EntryId(code[..|code| - 1]);
    }
  }

  lemma OpensUnnamed(code: seq<Ins>, p: nat)
    requires p < |code| && Opening(code, p)
    ensures 0 < |Ids(code[..p])| <= |Ids(code)| && !IsLabel(Ids(code)[|Ids(code[..p])| - 1])
  {
    if p > 0 {
      assert code[p - 1].Iff?;
      hide *;
      OpensAfterTest(code, p - 1);
    } else {
      assert code[..0] == [];
      EntryId(code);
    }
  }

  lemma OpensAfterTest(code: seq<Ins>, q: nat)
    requires q < |code| && code[q].Iff?
    ensures 0 < |Ids(code[..q + 1])| <= |Ids(code)| && !IsLabel(Ids(code)[|Ids(code[..q + 1])| - 1])
  {
    TestNotNext(code, q);
    IdsStep(code, q);
    hide Ids, Cut;
  }

  /** The block that instruction p opens is empty, and made for no label. */
  lemma OpensPlain(code: seq<Ins>, p: nat, s: Building)
    requires WellFormed(code) && p < |code| && Opening(code, p) && Shape(code, p, s)
    ensures s.g[s.cur].ins == [] && s.g[s.cur].jmp == None && !IsLabel(s.g[s.cur].id)
    ensures Place(s, code[p]) == Some(Building(Push(s.g, s.cur, code[p]), s.cur))
  {
    CurrentBlock(code, p, s);
    assert Bare(s.g[s.cur]) == Wanted(code, Cut(code[..p]), s.cur);
    OpensUnnamed(code, p);
    hide Cut, FindBlock, Empties, WellFormed, Ids;
  }

  lemma NotYet(code: seq<Ins>, p: nat, s: Building, a: nat)
    requires DistinctLabels(code) && p < |code| && code[p].Label? && Shape(code, p, s) && a < |s.g|
    ensures code[p] !in s.g[a].ins
  {
    var c := Cut(code[..p]);
    assert Bare(s.g[a]) == Wanted(code, c, a);
    FlattenCut(code[..p]);
    if j :| 0 <= j < |s.g[a].ins| && s.g[a].ins[j] == code[p] {
      FlattenAt(c, a, j);
      assert false;
    }
  }

  lemma LostLabelAt(code: seq<Ins>, p: nat, s: Building)
    requires WellFormed(code) && p < |code| && Opening(code, p) && code[p].Label? && Shape(code, p, s)
    ensures LostLabel(Push(s.g, s.cur, code[p]), s.cur, code[p].l)
  {
    OpensPlain(code, p, s);
    var g := Push(s.g, s.cur, code[p]);
    forall a | 0 <= a < |g| && a != s.cur ensures code[p] !in g[a].ins {
      NotYet(code, p, s, a);
    }
    ShapeFinds(code, p, s, code[p].l);
    FindLabelBlock(code, p, Empties(code));
    var a := FindBlock(s.g, code[p].l, 0).value;
    assert g[a].id == code[p].l && a != s.cur && a < |g|;
  }

  /** The first instruction that goes wrong spoils the graph. */
  lemma SpoiledAt(code: seq<Ins>, p: nat)
    requires WellFormed(code) && FewJumps(code) && p < |code| && Opening(code, p) && IsControl(code[p])
    requires PlainTo(code, p) && Build(code).Some?
    ensures !GraphOf(code, Build(code).value)
  {
    BuildFed(code, p);
    var s := BuildTo(code, p).value;
    OpensPlain(code, p, s);
    assert BuildTo(code, p + 1) == Place(s, code[p]);
    if code[p].Label? {
      LostLabelAt(code, p, s);
    }
    assert Lost(Push(s.g, s.cur, code[p]), s.cur, code[p]);
    assert IsLabel(if code[p].Label? then code[p].l else 1);
    assert DistinctLabels(code);
    hide Place, WellFormed, Push, Shape, PlainTo, LostLabel, LostJump, BuildTo, GraphOf, FewJumps;
    StaysLost(code, p, |code|, s.cur);
    var g := Build(code).value;
    if code[p].Label? {
      LostLabelNoGraph(code, g, s.cur, code[p].l);
    } else {
      LostJumpNoGraph(code, g, s.cur, code[p]);
    }
  }

  lemma {:induction false} FirstBad(code: seq<Ins>, k: nat) returns (p: nat)
    requires k <= |code| && !PlainTo(code, k)
    ensures p < k && Opening(code, p) && IsControl(code[p]) && PlainTo(code, p)
  {
    if PlainTo(code, k - 1) {
      p := k - 1;
    } else {
      p := FirstBad(code, k - 1);
    }
  }

  /** Exactly when the construction builds the control-flow graph of lowered code. */
  lemma BuildsGraphIff(code: seq<Ins>)
    requires WellFormed(code) && FewJumps(code)
    ensures PlainStarts(code) <==> Build(code).Some? && GraphOf(code, Build(code).value)
  {
    if PlainStarts(code) {
      BuiltGraph(code);
    } else if Build(code).Some? {
      var p := FirstBad(code, |code|);
      SpoiledAt(code, p);
    }
  }
}
