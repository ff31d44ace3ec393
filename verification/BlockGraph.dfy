/** bb_build's result on lowered code: the graph whose blocks, read in order, are the code and whose
    edges are the control edges.  It builds that graph exactly when no empty block is opened by
    a label, a test or a jump. */
module BlockGraph {
  import opened Options
  import opened ThreeAddress
  import opened Labels
  import opened BasicBlocks
  import opened BlockSteps
  import opened Predecessors

  // ----- every instruction can be placed -----

  lemma StartFed(code: seq<Ins>)
    ensures Fed(code, 0, Building(Empties(code), 0))
  {
    var g := Empties(code);
    EmptiesBare(code);
    assert code[..0] == [];
    forall b | 0 <= b < |g| ensures Bare(g[b]) == Wanted(code, Cut(code[..0]), b) {
    }
  }

  lemma {:induction false} EmptiesBare(code: seq<Ins>)
    ensures forall b :: 0 <= b < |Empties(code)| ==>
      Empties(code)[b].ins == [] && Empties(code)[b].next == None && Empties(code)[b].jmp == None && Empties(code)[b].pred == []
  {
    if code != [] {
      EmptiesBare(code[..|code| - 1]);
    }
  }

  lemma StepFed(code: seq<Ins>, k: nat, s: Building)
    requires WellFormed(code) && k < |code| && PlainTo(code, k + 1) && FewJumps(code) && Fed(code, k, s)
    ensures Place(s, code[k]).Some? && Fed(code, k + 1, Place(s, code[k]).value)
  {
    assert Opening(code, k) ==> !IsControl(code[k]);
    assert IsControl(code[k]) ==> k > 0 && !code[k - 1].Iff?;
    assert k > 0 && code[k - 1].Jmp? ==> code[k].Label?;
    assert Fed(code, k, s) ==> Shape(code, k, s) && PredsExact(s.g) && Counted(code, k, s.g) && s.cur < |s.g| == |Ids(code)|;
    hide WellFormed, PlainTo, FewJumps, Shape, PredsExact, Counted, Place, Opened, Jumped, Tested, Push, Ids;
    match code[k]
    case Label(_) =>
      if code[k - 1].Jmp? {
        LabelAfterJump(code, k, s);
        CountedPush(code, k, s.g, s.cur);
      } else {
        LabelStep(code, k, s);
        OpenedFed(code, k, s);
      }
    case Jmp(_) =>
      var b := JumpStep(code, k, s);
      JumpedFed(code, k, s, b);
    case Iff(_, _) =>
      var b := TestStep(code, k, s);
      TestedFed(code, k, s, b);
    case _ =>
      PlainStep(code, k, s);
      CountedPush(code, k, s.g, s.cur);
  }

  lemma {:induction false} BuildFed(code: seq<Ins>, k: nat)
    requires WellFormed(code) && FewJumps(code) && k <= |code| && PlainTo(code, k)
    ensures BuildTo(code, k).Some? && Fed(code, k, BuildTo(code, k).value)
  {
    if k == 0 {
      StartFed(code);
    } else {
      BuildFed(code, k - 1);
      hide Fed, Place, WellFormed, FewJumps;
      StepFed(code, k - 1, BuildTo(code, k - 1).value);
    }
  }

  // ----- the cut -----

  /** A block begins with its label and with no other; only its last instruction may jump. */
  ghost predicate Piece(ins: seq<Ins>, id: nat) {
    && (IsLabel(id) ==> ins != [] && ins[0] == Label(id))
    && (forall j :: 0 < j < |ins| ==> !ins[j].Label?)
    && (forall j :: 0 <= j < |ins| - 1 ==> !ins[j].Iff? && !ins[j].Jmp?)
  }

  lemma PieceGrows(ins: seq<Ins>, id: nat, i: Ins)
    requires Piece(ins, id) && !i.Label? && (ins != [] ==> !Last(ins).Iff? && !Last(ins).Jmp?)
    ensures ins != [] || !IsLabel(id) ==> Piece(ins + [i], id)
  {
    var d := ins + [i];
    forall j | 0 <= j < |d| - 1 ensures !d[j].Iff? && !d[j].Jmp? {
      assert d[j] == ins[j];
    }
  }

  ghost predicate Pieces(c: seq<seq<Ins>>, ids: seq<nat>)
    requires |c| == |ids|
  {
    forall b :: 0 <= b < |c| ==> Piece(c[b], ids[b]) && (b < |c| - 1 ==> c[b] != [])
  }

  lemma PiecesGrow(c: seq<seq<Ins>>, ids: seq<nat>, i: Ins)
    requires 0 < |c| == |ids| && Pieces(c, ids) && !i.Label? && (Last(c) != [] ==> !Last(Last(c)).Iff? && !Last(Last(c)).Jmp?)
    ensures Pieces(c[|c| - 1 := c[|c| - 1] + [i]], ids)
  {
    PieceGrows(Last(c), Last(ids), i);
    hide Piece;
  }

  lemma PiecesOpen(c: seq<seq<Ins>>, ids: seq<nat>, ins: seq<Ins>, id: nat)
    requires 0 < |c| == |ids| && Pieces(c, ids) && Last(c) != [] && Piece(ins, id)
    ensures Pieces(c + [ins], ids + [id])
  {
    hide Piece;
  }

  lemma PiecesStep(c: seq<seq<Ins>>, ids: seq<nat>, i: Ins)
    requires 0 < |c| == |ids| && Pieces(c, ids)
    requires i.Label? ==> Last(c) != []
    requires !i.Label? && Last(c) != [] ==> !Last(Last(c)).Iff? && !Last(Last(c)).Jmp?
    ensures i.Label? ==> Pieces(c + [[i]], ids + [i.l])
    ensures !i.Label? ==> Pieces(c[|c| - 1 := c[|c| - 1] + [i]], ids)
    ensures i.Iff? ==> Pieces(c[|c| - 1 := c[|c| - 1] + [i]] + [[]], ids + [0])
  {
    assert Piece([], 0) && (i.Label? ==> Piece([i], i.l));
    hide Piece, Pieces;
    if i.Label? {
      PiecesOpen(c, ids, [i], i.l);
    } else {
      PiecesGrow(c, ids, i);
      if i.Iff? {
        PiecesOpen(c[|c| - 1 := Last(c) + [i]], ids, [], 0);
      }
    }
  }

  /** What the instruction before k says about the last block. */
  lemma LastPiece(code: seq<Ins>, k: nat)
    requires WellFormed(code) && k < |code| && PlainTo(code, k + 1)
    ensures var c := Cut(code[..k]);
      && (code[k].Label? ==> Last(c) != [])
      && (!code[k].Label? && Last(c) != [] ==> !Last(Last(c)).Iff? && !Last(Last(c)).Jmp?)
  {
    CutLast(code, k);
    assert Opening(code, k) ==> !IsControl(code[k]);
    assert k > 0 && code[k - 1].Jmp? ==> code[k].Label?;
    hide WellFormed, PlainTo, Cut;
  }

  lemma PiecesNext(code: seq<Ins>, k: nat)
    requires WellFormed(code) && k < |code| && PlainTo(code, k + 1) && Pieces(Cut(code[..k]), Ids(code[..k]))
    ensures Pieces(Cut(code[..k + 1]), Ids(code[..k + 1]))
  {
    hide *;
    CutStep(code, k);
    IdsStep(code, k);
    LastPiece(code, k);
    PiecesStep(Cut(code[..k]), Ids(code[..k]), code[k]);
    match code[k] {
      case Label(_) =>
      case Iff(_, _) =>
      case _ => SeqNil(Ids(code[..k]));
    }
  }

  lemma SeqNil<T>(s: seq<T>)
    ensures s + [] == s
  {
  }

  lemma {:induction false} CutPieces(code: seq<Ins>, k: nat)
    requires WellFormed(code) && k <= |code| && PlainTo(code, k)
    ensures Pieces(Cut(code[..k]), Ids(code[..k]))
  {
    if k == 0 {
      assert code[..0] == [];
    } else {
      assert PlainTo(code, k - 1);
      hide *;
      CutPieces(code, k - 1);
      PiecesNext(code, k - 1);
    }
  }

  // ----- the graph of the code -----

  function Insns(g: Cfg): (c: seq<seq<Ins>>)
    ensures |c| == |g| && forall b :: 0 <= b < |g| ==> c[b] == g[b].ins
  {
    seq(|g|, b requires 0 <= b < |g| => g[b].ins)
  }

  /** Jumps of a block lead to the block that begins with the label. */
  ghost predicate Leads(g: Cfg, b: nat)
    requires b < |g|
  {
    if g[b].ins != [] && (Last(g[b].ins).Iff? || Last(g[b].ins).Jmp?) then
      && g[b].jmp.Some? && g[b].jmp.value < |g|
      && g[g[b].jmp.value].ins != [] && g[g[b].jmp.value].ins[0] == Label(Last(g[b].ins).target)
    else g[b].jmp == None
  }

  /** The fall-through edge: to the following block, unless the block ends in a TJMP. */
  ghost predicate Falls(g: Cfg, b: nat)
    requires b < |g|
  {
    g[b].next == if b + 1 < |g| && !(g[b].ins != [] && Last(g[b].ins).Jmp?) then Some(b + 1) else None
  }

  /** Only the last block may be empty. */
  ghost predicate GoodBlock(g: Cfg, b: nat)
    requires b < |g|
  {
    && Falls(g, b) && Leads(g, b) && Piece(g[b].ins, g[b].id)
    && (b < |g| - 1 ==> g[b].ins != [])
  }

  /** g is the control-flow graph of the code. */
  ghost predicate GraphOf(code: seq<Ins>, g: Cfg) {
    && g != [] && Flatten(Insns(g)) == code
    && (forall b :: 0 <= b < |g| ==> GoodBlock(g, b))
    && PredsExact(g)
  }

  /** The position in the code of the first instruction of block b. */
  function Offset(c: seq<seq<Ins>>, b: nat): nat
    requires b <= |c|
  {
    |Flatten(c[..b])|
  }

  lemma {:induction false} FlattenAt(c: seq<seq<Ins>>, b: nat, j: nat)
    requires b < |c| && j < |c[b]|
    ensures Offset(c, b) + j < |Flatten(c)| && Flatten(c)[Offset(c, b) + j] == c[b][j]
  {
    var m := |c| - 1;
    if b < m {
      FlattenAt(c[..m], b, j);
      assert c[..m][..b] == c[..b];
    }
  }

  lemma FlattenEnd(c: seq<seq<Ins>>, b: nat)
    requires b < |c|
    ensures Offset(c, b + 1) == Offset(c, b) + |c[b]|
    ensures Offset(c, |c|) == |Flatten(c)|
  {
    assert c[..b + 1][..b] == c[..b];
    assert c[..|c|] == c;
  }

  /** The jump edge that the construction aims for leads to the block of the label. */
  lemma JumpLands(code: seq<Ins>, b: nat) returns (t: nat)
    requires WellFormed(code) && Pieces(Cut(code), Ids(code)) && b < |Cut(code)| && Cut(code)[b] != []
    requires Last(Cut(code)[b]).Iff? || Last(Cut(code)[b]).Jmp?
    ensures t < |Cut(code)| && JmpOf(code, Cut(code), b) == Some(t)
    ensures Cut(code)[t] != [] && Cut(code)[t][0] == Label(Last(Cut(code)[b]).target)
  {
    var c := Cut(code);
    FlattenCut(code);
    FlattenAt(c, b, |c[b]| - 1);
    var k := Offset(c, b) + |c[b]| - 1;
    assert code[k] == Last(c[b]);
    hide Cut, Ids, Flatten, Offset;
    var p := TargetBlock(code, code[k].target);
    IdAt(code, p);
    t := |Ids(code[..p])|;
    assert IsLabel(Ids(code)[t]);
    assert Piece(c[t], Ids(code)[t]);
  }

  lemma BuiltLeads(code: seq<Ins>, s: Building, b: nat)
    requires WellFormed(code) && Shape(code, |code|, s) && b < |s.g|
    requires Pieces(Cut(code), Ids(code))
    ensures GoodBlock(s.g, b)
  {
    var g := s.g;
    assert code[..|code|] == code;
    assert Bare(g[b]) == Wanted(code, Cut(code), b);
    hide Shape, Cut, Ids, WellFormed, Piece;
    assert Piece(Cut(code)[b], Ids(code)[b]);
    if g[b].ins != [] && (Last(g[b].ins).Iff? || Last(g[b].ins).Jmp?) {
      var t := JumpLands(code, b);
      BuiltIns(code, s, t);
    }
  }

  lemma BuiltIns(code: seq<Ins>, s: Building, b: nat)
    requires Shape(code, |code|, s) && b < |s.g|
    ensures |s.g| == |Cut(code)| && s.g[b].ins == Cut(code)[b]
  {
    assert code[..|code|] == code;
    assert Bare(s.g[b]) == Wanted(code, Cut(code), b);
    hide Cut, Ids;
  }

  lemma BuiltInsns(code: seq<Ins>, s: Building)
    requires Shape(code, |code|, s)
    ensures Insns(s.g) == Cut(code) && s.g != []
  {
    BuiltIns(code, s, s.cur);
    hide Shape, Cut;
    forall b | 0 <= b < |s.g| ensures s.g[b].ins == Cut(code)[b] {
      BuiltIns(code, s, b);
    }
  }

  lemma ShapeGraph(code: seq<Ins>, s: Building)
    requires WellFormed(code) && Pieces(Cut(code), Ids(code)) && Shape(code, |code|, s) && PredsExact(s.g)
    ensures GraphOf(code, s.g)
  {
    hide *;
    BuiltInsns(code, s);
    FlattenCut(code);
    forall b | 0 <= b < |s.g| ensures GoodBlock(s.g, b) {
      BuiltLeads(code, s, b);
    }
    GraphParts(code, s.g);
  }

  lemma GraphParts(code: seq<Ins>, g: Cfg)
    requires g != [] && Flatten(Insns(g)) == code && PredsExact(g) && forall b :: 0 <= b < |g| ==> GoodBlock(g, b)
    ensures GraphOf(code, g)
  {
    hide GoodBlock, PredsExact, Flatten;
  }

  /** The construction succeeds, and builds the control-flow graph of the code. */
  lemma BuiltGraph(code: seq<Ins>)
    requires WellFormed(code) && PlainStarts(code) && FewJumps(code)
    ensures Build(code).Some? && GraphOf(code, Build(code).value)
    ensures Fed(code, |code|, BuildTo(code, |code|).value)
  {
    hide WellFormed, PlainTo, FewJumps, Cut, Ids, Shape, Pieces, BuildTo, GraphOf, PredsExact;
    BuildFed(code, |code|);
    CutPieces(code, |code|);
    assert code[..|code|] == code;
    ShapeGraph(code, BuildTo(code, |code|).value);
  }

  /** A block has at most one predecessor that falls into it, and one for each jump to its label. */
  lemma TwoPredecessors(code: seq<Ins>, b: nat)
    requires WellFormed(code) && PlainStarts(code) && forall l :: JumpCount(code, l) <= 1
    ensures Build(code).Some? && (b < |Build(code).value| ==> |Build(code).value[b].pred| <= 2)
  {
    BuiltGraph(code);
    var g := Build(code).value;
    if b < |g| {
      assert code[..|code|] == code;
      assert |g[b].pred| == FallsIn(g, b) + JumpsInto(code[..|code|], Ids(code)[b]);
    }
  }
}
