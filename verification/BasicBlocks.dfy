/** Basic blocks and the control-flow graph, built from linear code as bb_build does.

    A pointer to a block is the block's bbid, its position in the block list. */
module BasicBlocks {
  import opened Options
  import opened ThreeAddress

  const NO_ID := 0xFFFF_FFFF          // the id of the entry block
  const MAX_PREDECESSORS := 16

  /** id is the label the block was made for, or 0 for the block that follows a TIFF. */
  datatype Block = Block(id: nat, ins: seq<Ins>, next: Option<nat>, jmp: Option<nat>, pred: seq<nat>)

  type Cfg = seq<Block>

  // ----- the construction, step by step -----

  /** The empty blocks: one for the entry, one for each label and each TIFF, in code order. */
  function Empties(code: seq<Ins>): (g: Cfg)
    ensures |g| > 0
  {
    if code == [] then [Block(NO_ID, [], None, None, [])]
    else
      var m := |code| - 1;
      match code[m]
      case Label(l) => Empties(code[..m]) + [Block(l, [], None, None, [])]
      case Iff(_, _) => Empties(code[..m]) + [Block(0, [], None, None, [])]
      case _ => Empties(code[..m])
  }

  /** The first block with the given id, from position j on. */
  function FindBlock(g: Cfg, id: nat, j: nat): (b: Option<nat>)
    requires j <= |g|
    ensures b.Some? ==> j <= b.value < |g| && g[b.value].id == id && forall i :: j <= i < b.value ==> g[i].id != id
    ensures b.None? ==> forall i :: j <= i < |g| ==> g[i].id != id
    decreases |g| - j
  {
    if j == |g| then None else if g[j].id == id then Some(j) else FindBlock(g, id, j + 1)
  }

  function Push(g: Cfg, b: nat, i: Ins): (r: Cfg)
    requires b < |g|
    ensures |r| == |g|
  {
    g[b := g[b].(ins := g[b].ins + [i])]
  }

  /** Sixteen predecessors fit; more are dropped. */
  function AddPred(g: Cfg, b: nat, p: nat): (r: Cfg)
    requires b < |g|
    ensures |r| == |g|
  {
    if |g[b].pred| < MAX_PREDECESSORS then g[b := g[b].(pred := g[b].pred + [p])] else g
  }

  /** The blocks and the current one. */
  datatype Building = Building(g: Cfg, cur: nat)

  /** Where instruction i goes; None where the compiler would stop or fault. */
  function Place(s: Building, i: Ins): (r: Option<Building>)
    requires s.cur < |s.g|
    ensures r.Some? ==> r.value.cur < |r.value.g| && |r.value.g| == |s.g|
  {
    if s.g[s.cur].ins == [] then Some(Building(Push(s.g, s.cur, i), s.cur))
    else
      match i
      case Label(l) =>
        (match FindBlock(s.g, l, 0)
         case None => None
         case Some(b) =>
           var g := Push(s.g, b, i);
           Some(Building(AddPred(g[s.cur := g[s.cur].(next := Some(b))], b, s.cur), b)))
      case Jmp(l) =>
        (match FindBlock(s.g, l, 0)
         case None => None
         case Some(b) =>
           if s.cur + 1 == |s.g| then None
           else
             var g := Push(s.g, s.cur, i);
             Some(Building(AddPred(g[s.cur := g[s.cur].(jmp := Some(b), next := None)], b, s.cur), s.cur + 1)))
      case Iff(_, l) =>
        if s.cur + 1 == |s.g| then None
        else
          var g := Push(s.g, s.cur, i);
          var h := match FindBlock(s.g, l, 0)
            case None => g
            case Some(b) => AddPred(g[s.cur := g[s.cur].(jmp := Some(b))], b, s.cur);
          Some(Building(AddPred(h[s.cur := h[s.cur].(next := Some(s.cur + 1))], s.cur + 1, s.cur), s.cur + 1))
      case _ => Some(Building(Push(s.g, s.cur, i), s.cur))
  }

  function BuildTo(code: seq<Ins>, k: nat): (r: Option<Building>)
    requires k <= |code|
    ensures r.Some? ==> r.value.cur < |r.value.g| && |r.value.g| == |Empties(code)|
  {
    if k == 0 then Some(Building(Empties(code), 0))
    else
      match BuildTo(code, k - 1)
      case None => None
      case Some(s) => Place(s, code[k - 1])
  }

  /** The graph of the code. */
  function Build(code: seq<Ins>): Option<Cfg> {
    match BuildTo(code, |code|)
    case None => None
    case Some(s) => Some(s.g)
  }

  // ----- the graph that the code means -----

  /** What lowering guarantees: distinct labels in range, every target defined, and a label right
      after every unconditional jump. */
  ghost predicate WellFormed(code: seq<Ins>) {
    && DistinctLabels(code)
    && (forall i :: 0 <= i < |code| && code[i].Label? ==> 0 < code[i].l < NO_ID)
    && (forall i :: 0 <= i < |code| && (code[i].Iff? || code[i].Jmp?) ==> FindLabel(code, code[i].target).Some?)
    && (forall i :: 0 <= i < |code| && code[i].Jmp? ==> i + 1 < |code| && code[i + 1].Label?)
  }

  /** Instruction i goes into a block that is still empty. */
  predicate Opening(code: seq<Ins>, i: nat)
    requires i < |code|
  {
    i == 0 || code[i - 1].Iff?
  }

  /** Of the first k instructions, none that opens an empty block is a label, a test or a jump. */
  ghost predicate PlainTo(code: seq<Ins>, k: nat)
    requires k <= |code|
  {
    forall i :: 0 <= i < k && Opening(code, i) ==> !IsControl(code[i])
  }

  /** Neither the first instruction nor the one after a TIFF is a label, a test or a jump. */
  ghost predicate PlainStarts(code: seq<Ins>) {
    PlainTo(code, |code|)
  }

  /** The code cut into blocks: a label opens one, a TIFF closes one. */
  function Cut(code: seq<Ins>): (c: seq<seq<Ins>>)
    ensures |c| > 0
  {
    if code == [] then [[]]
    else
      var m := |code| - 1;
      var c := Cut(code[..m]);
      match code[m]
      case Label(_) => c + [[code[m]]]
      case Iff(_, _) => c[|c| - 1 := c[|c| - 1] + [code[m]]] + [[]]
      case _ => c[|c| - 1 := c[|c| - 1] + [code[m]]]
  }

  function Flatten(c: seq<seq<Ins>>): seq<Ins> {
    if c == [] then [] else Flatten(c[..|c| - 1]) + c[|c| - 1]
  }

  /** The ids of the blocks. */
  function Ids(code: seq<Ins>): (ids: seq<nat>)
    ensures |ids| == |Cut(code)| == |Empties(code)|
    ensures forall b :: 0 <= b < |ids| ==> ids[b] == Empties(code)[b].id
  {
    if code == [] then [NO_ID]
    else
      var m := |code| - 1;
      match code[m]
      case Label(l) => Ids(code[..m]) + [l]
      case Iff(_, _) => Ids(code[..m]) + [0]
      case _ => Ids(code[..m])
  }

  lemma {:induction false} FlattenCut(code: seq<Ins>)
    ensures Flatten(Cut(code)) == code
  {
    if code != [] {
      var m := |code| - 1;
      var c := Cut(code[..m]);
      FlattenCut(code[..m]);
      assert code == code[..m] + [code[m]];
      var n := |c| - 1;
      var d := c[n := c[n] + [code[m]]];
      assert d[..n] == c[..n] && (c + [[code[m]]])[..n + 1] == c && (d + [[]])[..n + 1] == d;
      assert Flatten(d) == Flatten(c[..n]) + (c[n] + [code[m]]);
      assert Flatten(c[..n]) + (c[n] + [code[m]]) == Flatten(c) + [code[m]];
    }
  }

  // ----- ids and positions -----

  lemma {:induction false} IdsPrefix(code: seq<Ins>, k: nat)
    requires k <= |code|
    ensures Ids(code[..k]) <= Ids(code)
    decreases |code|
  {
    if k == |code| {
      assert code[..k] == code;
    } else {
      var m := |code| - 1;
      assert code[..m][..k] == code[..k];
      IdsPrefix(code[..m], k);
    }
  }

  lemma IdsStep(code: seq<Ins>, k: nat)
    requires k < |code|
    ensures Ids(code[..k + 1]) == Ids(code[..k]) + match code[k] { case Label(l) => [l] case Iff(_, _) => [0] case _ => [] }
  {
    assert code[..k + 1][..k] == code[..k];
  }

  /** The block of a label is the one opened when the label is reached. */
  lemma IdAt(code: seq<Ins>, k: nat)
    requires k < |code| && code[k].Label?
    ensures |Ids(code[..k])| < |Ids(code)| && Ids(code)[|Ids(code[..k])|] == code[k].l
  {
    IdsStep(code, k);
    IdsPrefix(code, k + 1);
    hide Ids;
  }

  lemma {:induction false} IdOrigin(code: seq<Ins>, b: nat) returns (p: nat)
    requires b < |Ids(code)| && 0 < Ids(code)[b] < NO_ID
    ensures p < |code| && code[p] == Label(Ids(code)[b]) && |Ids(code[..p])| == b
    decreases |code|
  {
    var m := |code| - 1;
    IdsStep(code, m);
    assert code[..m + 1] == code;
    if b < |Ids(code[..m])| {
      p := IdOrigin(code[..m], b);
      assert code[..m][..p] == code[..p];
    } else {
      p := m;
    }
  }

  /** Looking the label of position k up finds the block opened there. */
  lemma FindLabelBlock(code: seq<Ins>, k: nat, g: Cfg)
    requires WellFormed(code) && k < |code| && code[k].Label?
    requires |g| == |Ids(code)| && forall b :: 0 <= b < |g| ==> g[b].id == Ids(code)[b]
    ensures FindBlock(g, code[k].l, 0) == Some(|Ids(code[..k])|)
  {
    IdAt(code, k);
    var b := FindBlock(g, code[k].l, 0);
    if b.Some? {
      var p := IdOrigin(code, b.value);
      assert p == k;
    }
  }

  // ----- the state of the construction -----

  function Last<T>(c: seq<T>): (i: T)
    requires c != []
  {
    c[|c| - 1]
  }

  /** Control falls out of a block into the following one unless the block ends in a TJMP. */
  function NextOf(cut: seq<seq<Ins>>, b: nat): Option<nat> {
    if b + 1 < |cut| && !(cut[b] != [] && Last(cut[b]).Jmp?) then Some(b + 1) else None
  }

  /** The jump edge of a block leads to the block of the label it jumps to. */
  function JmpOf(code: seq<Ins>, cut: seq<seq<Ins>>, b: nat): Option<nat> {
    if b < |cut| && cut[b] != [] && (Last(cut[b]).Iff? || Last(cut[b]).Jmp?) then
      FindBlock(Empties(code), Last(cut[b]).target, 0)
    else None
  }

  function InsOf(cut: seq<seq<Ins>>, b: nat): seq<Ins> {
    if b < |cut| then cut[b] else []
  }

  function Bare(b: Block): Block {
    b.(pred := [])
  }

  /** Block b of the graph under construction, predecessors apart, once the code cut so far is placed. */
  function Wanted(code: seq<Ins>, cut: seq<seq<Ins>>, b: nat): Block
    requires b < |Ids(code)|
  {
    Block(Ids(code)[b], InsOf(cut, b), NextOf(cut, b), JmpOf(code, cut, b), [])
  }

  ghost predicate Shape(code: seq<Ins>, k: nat, s: Building)
    requires k <= |code|
  {
    && |s.g| == |Ids(code)| && |Ids(code[..k])| <= |s.g|
    && s.cur == |Ids(code[..k])| - (if k > 0 && code[k - 1].Jmp? then 0 else 1) && s.cur < |s.g|
    && forall b :: 0 <= b < |s.g| ==> Bare(s.g[b]) == Wanted(code, Cut(code[..k]), b)
  }

  lemma CutStep(code: seq<Ins>, k: nat)
    requires k < |code|
    ensures var c, d := Cut(code[..k]), Cut(code[..k + 1]);
      var n := |c| - 1;
      var e := c[n := c[n] + [code[k]]];
      d == match code[k] { case Label(_) => c + [[code[k]]] case Iff(_, _) => e + [[]] case _ => e }
  {
    assert code[..k + 1][..k] == code[..k];
  }

  /** The last block is empty only at the start and after a TIFF. */
  lemma CutLast(code: seq<Ins>, k: nat)
    requires k <= |code|
    ensures var c := Cut(code[..k]); var n := |c| - 1;
      && (c[n] == [] <==> k == 0 || code[k - 1].Iff?)
      && (c[n] != [] ==> Last(c[n]) == code[k - 1])
  {
    if k > 0 {
      CutStep(code, k - 1);
    }
  }

  lemma FindBlockIds(g: Cfg, h: Cfg, id: nat, j: nat)
    requires |g| == |h| && j <= |g| && forall b :: 0 <= b < |g| ==> g[b].id == h[b].id
    ensures FindBlock(g, id, j) == FindBlock(h, id, j)
    decreases |g| - j
  {
    if j < |g| && g[j].id != id {
      FindBlockIds(g, h, id, j + 1);
    }
  }

  lemma ShapeFinds(code: seq<Ins>, k: nat, s: Building, id: nat)
    requires k <= |code| && Shape(code, k, s)
    ensures FindBlock(s.g, id, 0) == FindBlock(Empties(code), id, 0)
  {
    forall b | 0 <= b < |s.g| ensures s.g[b].id == Empties(code)[b].id {
      assert Bare(s.g[b]) == Wanted(code, Cut(code[..k]), b);
    }
    FindBlockIds(s.g, Empties(code), id, 0);
  }

  lemma RoomAfter(code: seq<Ins>, k: nat)
    requires WellFormed(code) && k < |code| && (code[k].Jmp? || code[k].Iff?)
    ensures |Ids(code[..k])| < |Ids(code)|
  {
    IdsStep(code, k);
    if code[k].Iff? {
      IdsPrefix(code, k + 1);
    } else {
      IdAt(code, k + 1);
    }
  }

  /** The block that the label of a jump opens. */
  lemma TargetBlock(code: seq<Ins>, l: nat) returns (p: nat)
    requires WellFormed(code) && FindLabel(code, l).Some?
    ensures p < |code| && code[p] == Label(l) && FindLabel(code, l) == Some(p)
    ensures FindBlock(Empties(code), l, 0) == Some(|Ids(code[..p])|)
  {
    p := FindLabel(code, l).value;
    FindLabelBlock(code, p, Empties(code));
  }
}
