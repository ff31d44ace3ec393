/** In which order bb_build lists the predecessors of a block. */
module PredecessorOrder {
  import opened Options
  import opened ThreeAddress
  import opened BasicBlocks
  import opened Predecessors
  import opened BlockGraph

  /** The list is in ascending order and stays below the limit. */
  ghost predicate InOrder(pred: seq<nat>, limit: nat) {
    && (forall j :: 0 <= j < |pred| ==> pred[j] <= limit)
    && forall j, k :: 0 <= j < k < |pred| ==> pred[j] <= pred[k]
  }

  ghost predicate AllInOrder(g: Cfg, limit: nat) {
    forall b :: 0 <= b < |g| ==> InOrder(g[b].pred, limit)
  }

  lemma AddInOrder(g: Cfg, b: nat, p: nat)
    requires b < |g| && AllInOrder(g, p)
    ensures AllInOrder(AddPred(g, b, p), p)
  {
  }

  /** A block has room for sixteen predecessors; further ones are dropped. */
  lemma AddExact(g: Cfg, b: nat, p: nat)
    requires b < |g|
    ensures var h := AddPred(g, b, p);
      && (forall a :: 0 <= a < |g| && a != b ==> h[a] == g[a]) && h[b] == g[b].(pred := h[b].pred)
      && g[b].pred <= h[b].pred && (p !in h[b].pred[|g[b].pred|..] <==> |g[b].pred| >= 16) && |h[b].pred| <= |g[b].pred| + 1
  {
  }

  lemma PlaceInOrder(s: Building, i: Ins)
    requires s.cur < |s.g| && AllInOrder(s.g, s.cur) && Place(s, i).Some? && s.cur <= Place(s, i).value.cur
    ensures AllInOrder(Place(s, i).value.g, Place(s, i).value.cur)
  {
    hide FindBlock;
    var t := Place(s, i).value;
    if s.g[s.cur].ins != [] {
      match i
      case Label(l) =>
        var b := FindBlock(s.g, l, 0).value;
        AddInOrder(Push(s.g, b, i)[s.cur := Push(s.g, b, i)[s.cur].(next := Some(b))], b, s.cur);
      case Jmp(l) =>
        var b := FindBlock(s.g, l, 0).value;
        AddInOrder(Push(s.g, s.cur, i)[s.cur := Push(s.g, s.cur, i)[s.cur].(jmp := Some(b), next := None)], b, s.cur);
      case Iff(_, l) =>
        var g := Push(s.g, s.cur, i);
        var h := match FindBlock(s.g, l, 0)
          case None => g
          case Some(b) => AddPred(g[s.cur := g[s.cur].(jmp := Some(b))], b, s.cur);
        if FindBlock(s.g, l, 0).Some? {
          var b := FindBlock(s.g, l, 0).value;
          AddInOrder(g[s.cur := g[s.cur].(jmp := Some(b))], b, s.cur);
        }
        AddInOrder(h[s.cur := h[s.cur].(next := Some(s.cur + 1))], s.cur + 1, s.cur);
      case _ =>
    }
  }

  lemma CurGrows(code: seq<Ins>, k: nat, s: Building, t: Building)
    requires k < |code| && WellFormed(code) && Shape(code, k, s) && Shape(code, k + 1, t)
    ensures s.cur <= t.cur
  {
    var a := code[..k + 1];
    assert a[..k] == code[..k] && a[k] == code[k];
    assert k > 0 && code[k - 1].Jmp? ==> code[k].Label?;
    hide Cut, WellFormed;
  }

  lemma {:induction false} BuildInOrder(code: seq<Ins>, k: nat)
    requires WellFormed(code) && FewJumps(code) && k <= |code| && PlainTo(code, k)
    ensures BuildTo(code, k).Some? && AllInOrder(BuildTo(code, k).value.g, BuildTo(code, k).value.cur)
  {
    BuildFed(code, k);
    if k == 0 {
      EmptiesBare(code);
    } else {
      BuildInOrder(code, k - 1);
      BuildFed(code, k - 1);
      var s, t := BuildTo(code, k - 1).value, BuildTo(code, k).value;
      assert Place(s, code[k - 1]) == Some(t);
      hide WellFormed, FewJumps, Shape, PredsExact, Counted, Place, AllInOrder;
      CurGrows(code, k - 1, s, t);
      PlaceInOrder(s, code[k - 1]);
    }
  }

  /** The predecessors of a block are listed in the order of the text. */
  lemma PredecessorsInOrder(code: seq<Ins>)
    requires WellFormed(code) && PlainStarts(code) && FewJumps(code)
    ensures Build(code).Some?
    ensures forall b, j, k :: 0 <= b < |Build(code).value| && 0 <= j < k < |Build(code).value[b].pred| ==>
      Build(code).value[b].pred[j] <= Build(code).value[b].pred[k]
  {
    BuildInOrder(code, |code|);
    hide BuildTo;
  }
}
