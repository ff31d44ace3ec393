/** The predecessor lists that the construction leaves: exactly the incoming edges. */
module Predecessors {
  import opened Options
  import opened ThreeAddress
  import opened Labels
  import opened BasicBlocks
  import opened BlockSteps

  function To(e: Option<nat>, b: nat): nat {
    if e == Some(b) then 1 else 0
  }

  /** How many edges lead from a to b. */
  function Edges(g: Cfg, a: nat, b: nat): nat {
    if a < |g| then To(g[a].next, b) + To(g[a].jmp, b) else 0
  }

  /** Every block lists as predecessors the blocks whose edges lead to it, each once per edge. */
  ghost predicate PredsExact(g: Cfg) {
    forall b, a: nat :: 0 <= b < |g| ==> multiset(g[b].pred)[a] == Edges(g, a, b)
  }

  /** Whether control falls into b from the block before it. */
  function FallsIn(g: Cfg, b: nat): nat
    requires b < |g|
  {
    if b > 0 && g[b - 1].next == Some(b) then 1 else 0
  }

  predicate IsLabel(id: nat) {
    0 < id < NO_ID
  }

  /** How many of the instructions jump to the block of a label. */
  function JumpsInto(code: seq<Ins>, id: nat): nat {
    if IsLabel(id) then JumpCount(code, id) else 0
  }

  ghost predicate Counted(code: seq<Ins>, k: nat, g: Cfg)
    requires k <= |code| && |g| == |Ids(code)|
  {
    forall b :: 0 <= b < |g| ==> |g[b].pred| == FallsIn(g, b) + JumpsInto(code[..k], Ids(code)[b])
  }

  ghost predicate FewJumps(code: seq<Ins>) {
    forall l :: JumpCount(code, l) < MAX_PREDECESSORS
  }

  // ----- one step -----

  lemma PushEdges(g: Cfg, b: nat, i: Ins)
    requires b < |g| && PredsExact(g)
    ensures var h := Push(g, b, i);
      PredsExact(h) && forall a :: 0 <= a < |g| ==> |h[a].pred| == |g[a].pred| && FallsIn(h, a) == FallsIn(g, a)
  {
    var h := Push(g, b, i);
    forall c, a: nat | 0 <= c < |g| ensures multiset(h[c].pred)[a] == Edges(h, a, c) {
      assert multiset(g[c].pred)[a] == Edges(g, a, c);
    }
  }

  lemma OneMore(p: seq<nat>, x: nat, c: nat)
    ensures multiset(p + [x])[c] == multiset(p)[c] + if x == c then 1 else 0
  {
  }

  lemma OpenedPreds(s: Building, i: Ins, a: nat)
    requires s.cur + 1 < |s.g| && a < |s.g| && |s.g[s.cur + 1].pred| < MAX_PREDECESSORS
    ensures Opened(s, i, s.cur + 1).g[a].pred == s.g[a].pred + if a == s.cur + 1 then [s.cur] else []
  {
  }

  lemma JumpedPreds(s: Building, i: Ins, b: nat, a: nat)
    requires s.cur < |s.g| && b < |s.g| && a < |s.g| && |s.g[b].pred| < MAX_PREDECESSORS
    ensures Jumped(s, i, b).g[a].pred == s.g[a].pred + if a == b then [s.cur] else []
  {
  }

  lemma TestedPreds(s: Building, i: Ins, b: nat, a: nat)
    requires s.cur + 1 < |s.g| && b < |s.g| && a < |s.g| && b != s.cur + 1
    requires |s.g[b].pred| < MAX_PREDECESSORS && |s.g[s.cur + 1].pred| < MAX_PREDECESSORS
    ensures Tested(s, i, b).g[a].pred == s.g[a].pred + if a == b || a == s.cur + 1 then [s.cur] else []
  {
  }

  lemma OpenedEdges(s: Building, i: Ins, a: nat, c: nat)
    requires s.cur + 1 < |s.g| && a < |s.g| && PredsExact(s.g)
    requires s.g[s.cur].next == None && |s.g[s.cur + 1].pred| < MAX_PREDECESSORS
    ensures multiset(Opened(s, i, s.cur + 1).g[a].pred)[c] == Edges(Opened(s, i, s.cur + 1).g, c, a)
  {
    assert multiset(s.g[a].pred)[c] == Edges(s.g, c, a);
    hide PredsExact, Opened;
    OpenedPreds(s, i, a);
    OneMore(s.g[a].pred, s.cur, c);
    if c < |s.g| {
      OpenedBare(s, i, s.cur + 1, c);
    }
  }

  lemma OpenedCounts(s: Building, i: Ins, a: nat)
    requires s.cur + 1 < |s.g| && a < |s.g|
    requires s.g[s.cur].next == None && |s.g[s.cur + 1].pred| < MAX_PREDECESSORS
    ensures var h := Opened(s, i, s.cur + 1).g;
      && |h[a].pred| == |s.g[a].pred| + (if a == s.cur + 1 then 1 else 0)
      && FallsIn(h, a) == FallsIn(s.g, a) + (if a == s.cur + 1 then 1 else 0)
  {
    hide Opened;
    OpenedPreds(s, i, a);
    if a > 0 {
      OpenedBare(s, i, s.cur + 1, a - 1);
    }
  }

  lemma JumpedEdges(s: Building, i: Ins, b: nat, a: nat, c: nat)
    requires s.cur < |s.g| && b < |s.g| && a < |s.g| && PredsExact(s.g)
    requires s.g[s.cur].next == None && s.g[s.cur].jmp == None && |s.g[b].pred| < MAX_PREDECESSORS
    ensures var h := Jumped(s, i, b).g;
      && multiset(h[a].pred)[c] == Edges(h, c, a)
      && |h[a].pred| == |s.g[a].pred| + (if a == b then 1 else 0)
      && FallsIn(h, a) == FallsIn(s.g, a)
  {
    assert multiset(s.g[a].pred)[c] == Edges(s.g, c, a);
    hide PredsExact, Jumped;
    JumpedPreds(s, i, b, a);
    OneMore(s.g[a].pred, s.cur, c);
    JumpedBare(s, i, b, if c < |s.g| then c else 0);
    JumpedBare(s, i, b, if a > 0 then a - 1 else 0);
  }

  lemma TestedEdges(s: Building, i: Ins, b: nat, a: nat, c: nat)
    requires s.cur + 1 < |s.g| && b < |s.g| && a < |s.g| && b != s.cur + 1 && PredsExact(s.g)
    requires s.g[s.cur].next == None && s.g[s.cur].jmp == None
    requires |s.g[b].pred| < MAX_PREDECESSORS && |s.g[s.cur + 1].pred| < MAX_PREDECESSORS
    ensures multiset(Tested(s, i, b).g[a].pred)[c] == Edges(Tested(s, i, b).g, c, a)
  {
    assert multiset(s.g[a].pred)[c] == Edges(s.g, c, a);
    hide PredsExact, Tested;
    TestedPreds(s, i, b, a);
    OneMore(s.g[a].pred, s.cur, c);
    if c < |s.g| {
      TestedBare(s, i, b, c);
    }
  }

  lemma TestedCounts(s: Building, i: Ins, b: nat, a: nat)
    requires s.cur + 1 < |s.g| && b < |s.g| && a < |s.g| && b != s.cur + 1
    requires s.g[s.cur].next == None && s.g[s.cur].jmp == None
    requires |s.g[b].pred| < MAX_PREDECESSORS && |s.g[s.cur + 1].pred| < MAX_PREDECESSORS
    ensures var h := Tested(s, i, b).g;
      && |h[a].pred| == |s.g[a].pred| + (if a == b || a == s.cur + 1 then 1 else 0)
      && FallsIn(h, a) == FallsIn(s.g, a) + (if a == s.cur + 1 then 1 else 0)
  {
    hide Tested;
    TestedPreds(s, i, b, a);
    if a > 0 {
      TestedBare(s, i, b, a - 1);
    }
  }

  lemma JumpsStep(code: seq<Ins>, k: nat, id: nat)
    requires k < |code|
    ensures JumpsInto(code[..k + 1], id)
         == JumpsInto(code[..k], id)
            + if IsLabel(id) && (code[k].Iff? || code[k].Jmp?) && code[k].target == id then 1 else 0
    ensures JumpsInto(code[..k + 1], id) <= JumpsInto(code, id)
  {
    assert code[..k + 1] == code[..k] + [code[k]] && code == code[..k + 1] + code[k + 1..];
    CountAppend(code[..k], [code[k]], id);
    CountOne(code[k], id);
    CountAppend(code[..k + 1], code[k + 1..], id);
    hide JumpCount, DefCount;
  }

  /** The block found for a jump is the only one with that label, and no block after a TIFF. */
  lemma FoundBlock(code: seq<Ins>, k: nat, b: nat)
    requires WellFormed(code) && k < |code| && (code[k].Jmp? || code[k].Iff?)
    requires FindBlock(Empties(code), code[k].target, 0) == Some(b)
    ensures b < |Ids(code)| && IsLabel(code[k].target)
    ensures forall a :: 0 <= a < |Ids(code)| ==> (Ids(code)[a] == code[k].target <==> a == b)
  {
    var p := TargetBlock(code, code[k].target);
    IdAt(code, p);
    forall a | 0 <= a < |Ids(code)| && Ids(code)[a] == code[k].target ensures a == b {
      var q := IdOrigin(code, a);
      assert q == p;
    }
  }

  lemma TestNotNext(code: seq<Ins>, k: nat)
    requires k < |code| && code[k].Iff?
    ensures |Ids(code[..k])| < |Ids(code)| && Ids(code)[|Ids(code[..k])|] == 0
  {
    IdsStep(code, k);
    IdsPrefix(code, k + 1);
    hide Ids;
  }

  // ----- the steps keep the lists exact -----

  ghost predicate Fed(code: seq<Ins>, k: nat, s: Building)
    requires k <= |code|
  {
    Shape(code, k, s) && PredsExact(s.g) && Counted(code, k, s.g)
  }

  lemma CountedPush(code: seq<Ins>, k: nat, g: Cfg, b: nat)
    requires k < |code| && |g| == |Ids(code)| && b < |g| && !code[k].Iff? && !code[k].Jmp?
    requires PredsExact(g) && Counted(code, k, g)
    ensures PredsExact(Push(g, b, code[k])) && Counted(code, k + 1, Push(g, b, code[k]))
  {
    PushEdges(g, b, code[k]);
    var h := Push(g, b, code[k]);
    hide PredsExact, Push, Ids, JumpsInto, FallsIn;
    forall a | 0 <= a < |h| ensures |h[a].pred| == FallsIn(h, a) + JumpsInto(code[..k + 1], Ids(code)[a]) {
      JumpsStep(code, k, Ids(code)[a]);
      assert |g[a].pred| == FallsIn(g, a) + JumpsInto(code[..k], Ids(code)[a]);
    }
  }

  /** The current block has no edges yet. */
  lemma NoEdgesYet(code: seq<Ins>, k: nat, s: Building)
    requires WellFormed(code) && 0 < k < |code| && Shape(code, k, s) && !code[k - 1].Jmp? && !code[k - 1].Iff?
    ensures s.g[s.cur].next == None && s.g[s.cur].jmp == None
  {
    CurrentBlock(code, k, s);
    assert Bare(s.g[s.cur]) == Wanted(code, Cut(code[..k]), s.cur);
    hide Cut, Ids, Empties, FindBlock;
  }

  lemma OpenedFed(code: seq<Ins>, k: nat, s: Building)
    requires WellFormed(code) && FewJumps(code) && 0 < k < |code| && code[k].Label? && Fed(code, k, s)
    requires !code[k - 1].Jmp? && !code[k - 1].Iff? && s.cur + 1 < |s.g|
    ensures PredsExact(Opened(s, code[k], s.cur + 1).g) && Counted(code, k + 1, Opened(s, code[k], s.cur + 1).g)
  {
    NoEdgesYet(code, k, s);
    var b, h := s.cur + 1, Opened(s, code[k], s.cur + 1).g;
    JumpsStep(code, k, Ids(code)[b]);
    assert JumpCount(code, Ids(code)[b]) < MAX_PREDECESSORS;
    assert |s.g[b].pred| == FallsIn(s.g, b) + JumpsInto(code[..k], Ids(code)[b]);
    hide Opened, Ids, JumpCount, Shape, WellFormed;
    forall a, c: nat | 0 <= a < |h| ensures multiset(h[a].pred)[c] == Edges(h, c, a) {
      OpenedEdges(s, code[k], a, c);
    }
    hide PredsExact;
    forall a | 0 <= a < |h| ensures |h[a].pred| == FallsIn(h, a) + JumpsInto(code[..k + 1], Ids(code)[a]) {
      OpenedCounts(s, code[k], a);
      JumpsStep(code, k, Ids(code)[a]);
      assert |s.g[a].pred| == FallsIn(s.g, a) + JumpsInto(code[..k], Ids(code)[a]);
    }
  }

  lemma JumpedFed(code: seq<Ins>, k: nat, s: Building, b: nat)
    requires WellFormed(code) && FewJumps(code) && 0 < k < |code| && code[k].Jmp? && Fed(code, k, s)
    requires !code[k - 1].Iff? && b < |s.g| && FindBlock(Empties(code), code[k].target, 0) == Some(b)
    ensures PredsExact(Jumped(s, code[k], b).g) && Counted(code, k + 1, Jumped(s, code[k], b).g)
  {
    NoEdgesYet(code, k, s);
    FoundBlock(code, k, b);
    var h := Jumped(s, code[k], b).g;
    JumpsStep(code, k, Ids(code)[b]);
    assert JumpCount(code, Ids(code)[b]) < MAX_PREDECESSORS;
    assert |s.g[b].pred| == FallsIn(s.g, b) + JumpsInto(code[..k], Ids(code)[b]);
    hide Jumped, Ids, JumpCount, Shape, WellFormed, FindBlock, Empties;
    forall a, c: nat | 0 <= a < |h| ensures multiset(h[a].pred)[c] == Edges(h, c, a) {
      JumpedEdges(s, code[k], b, a, c);
    }
    hide PredsExact;
    forall a | 0 <= a < |h| ensures |h[a].pred| == FallsIn(h, a) + JumpsInto(code[..k + 1], Ids(code)[a]) {
      JumpedEdges(s, code[k], b, a, 0);
      JumpsStep(code, k, Ids(code)[a]);
      assert |s.g[a].pred| == FallsIn(s.g, a) + JumpsInto(code[..k], Ids(code)[a]);
    }
  }

  lemma JumpsGrow(code: seq<Ins>, k: nat, b: nat, a: nat)
    requires WellFormed(code) && k < |code| && (code[k].Jmp? || code[k].Iff?) && a < |Ids(code)|
    requires FindBlock(Empties(code), code[k].target, 0) == Some(b)
    ensures JumpsInto(code[..k + 1], Ids(code)[a]) == JumpsInto(code[..k], Ids(code)[a]) + if a == b then 1 else 0
  {
    FoundBlock(code, k, b);
    JumpsStep(code, k, Ids(code)[a]);
    hide Ids, JumpCount, WellFormed, FindBlock, Empties;
  }

  /** There is room for one more predecessor. */
  lemma Room(code: seq<Ins>, k: nat, s: Building, b: nat)
    requires WellFormed(code) && FewJumps(code) && k < |code| && Fed(code, k, s) && b < |s.g|
    requires FallsIn(s.g, b) == 0 || (IsLabel(Ids(code)[b]) && JumpsInto(code[..k + 1], Ids(code)[b]) > JumpsInto(code[..k], Ids(code)[b])) || !IsLabel(Ids(code)[b])
    ensures |s.g[b].pred| < MAX_PREDECESSORS
  {
    JumpsStep(code, k, Ids(code)[b]);
    assert JumpCount(code, Ids(code)[b]) < MAX_PREDECESSORS;
    assert |s.g[b].pred| == FallsIn(s.g, b) + JumpsInto(code[..k], Ids(code)[b]);
    hide Ids, JumpCount, WellFormed, Shape, PredsExact;
  }

  lemma CurIs(code: seq<Ins>, k: nat, s: Building)
    requires 0 < k < |code| && Shape(code, k, s) && !code[k - 1].Jmp?
    ensures s.cur + 1 == |Ids(code[..k])| && |s.g| == |Ids(code)|
  {
    hide Ids, Cut, Wanted;
  }

  lemma NoLabelZero()
    ensures !IsLabel(0)
  {
  }

  /** The block after a TIFF is made for no label, the block it jumps to is. */
  lemma TestedIds(code: seq<Ins>, k: nat, s: Building, b: nat)
    requires WellFormed(code) && 0 < k < |code| && code[k].Iff? && Shape(code, k, s) && !code[k - 1].Jmp?
    requires s.cur + 1 < |s.g| && b < |s.g| && FindBlock(Empties(code), code[k].target, 0) == Some(b)
    ensures IsLabel(Ids(code)[b]) && !IsLabel(Ids(code)[s.cur + 1]) && b != s.cur + 1
  {
    hide *;
    CurIs(code, k, s);
    NoLabelZero();
    TestNotNext(code, k);
    assert !IsLabel(Ids(code)[s.cur + 1]);
    FoundBlock(code, k, b);
    assert IsLabel(Ids(code)[b]);
  }

  lemma TestedReady(code: seq<Ins>, k: nat, s: Building, b: nat)
    requires WellFormed(code) && FewJumps(code) && 0 < k < |code| && code[k].Iff? && Fed(code, k, s)
    requires !code[k - 1].Iff? && !code[k - 1].Jmp?
    requires s.cur + 1 < |s.g| && b < |s.g| && FindBlock(Empties(code), code[k].target, 0) == Some(b)
    ensures s.g[s.cur].next == None && s.g[s.cur].jmp == None && b != s.cur + 1
    ensures |s.g[b].pred| < MAX_PREDECESSORS && |s.g[s.cur + 1].pred| < MAX_PREDECESSORS
  {
    assert |s.g| == |Ids(code)| && Shape(code, k, s);
    hide *;
    NoEdgesYet(code, k, s);
    TestedIds(code, k, s, b);
    JumpsGrow(code, k, b, b);
    Room(code, k, s, b);
    Room(code, k, s, s.cur + 1);
  }

  lemma TestedExact(s: Building, i: Ins, b: nat)
    requires s.cur + 1 < |s.g| && b < |s.g| && b != s.cur + 1 && PredsExact(s.g)
    requires s.g[s.cur].next == None && s.g[s.cur].jmp == None
    requires |s.g[b].pred| < MAX_PREDECESSORS && |s.g[s.cur + 1].pred| < MAX_PREDECESSORS
    ensures PredsExact(Tested(s, i, b).g)
  {
    var h := Tested(s, i, b).g;
    hide Tested, Edges;
    forall a, c: nat | 0 <= a < |h| ensures multiset(h[a].pred)[c] == Edges(h, c, a) {
      TestedEdges(s, i, b, a, c);
    }
  }

  lemma TestedFed(code: seq<Ins>, k: nat, s: Building, b: nat)
    requires WellFormed(code) && FewJumps(code) && 0 < k < |code| && code[k].Iff? && Fed(code, k, s)
    requires !code[k - 1].Iff? && !code[k - 1].Jmp?
    requires s.cur + 1 < |s.g| && b < |s.g| && FindBlock(Empties(code), code[k].target, 0) == Some(b)
    ensures PredsExact(Tested(s, code[k], b).g) && Counted(code, k + 1, Tested(s, code[k], b).g)
  {
    hide *;
    TestedReady(code, k, s, b);
    FedParts(code, k, s);
    TestedExact(s, code[k], b);
    TestedCounted(code, k, s, b);
  }

  lemma FedParts(code: seq<Ins>, k: nat, s: Building)
    requires k <= |code| && Fed(code, k, s)
    ensures PredsExact(s.g) && |s.g| == |Ids(code)| && Counted(code, k, s.g)
  {
  }

  lemma TestedCounted(code: seq<Ins>, k: nat, s: Building, b: nat)
    requires WellFormed(code) && k < |code| && code[k].Iff? && |s.g| == |Ids(code)| && Counted(code, k, s.g)
    requires s.cur + 1 < |s.g| && b < |s.g| && b != s.cur + 1 && FindBlock(Empties(code), code[k].target, 0) == Some(b)
    requires s.g[s.cur].next == None && s.g[s.cur].jmp == None
    requires |s.g[b].pred| < MAX_PREDECESSORS && |s.g[s.cur + 1].pred| < MAX_PREDECESSORS
    ensures Counted(code, k + 1, Tested(s, code[k], b).g)
  {
    var h := Tested(s, code[k], b).g;
    hide Tested, Ids, JumpCount, WellFormed, FindBlock, Empties, JumpsInto, FallsIn;
    forall a | 0 <= a < |h| ensures |h[a].pred| == FallsIn(h, a) + JumpsInto(code[..k + 1], Ids(code)[a]) {
      TestedCounts(s, code[k], b, a);
      JumpsGrow(code, k, b, a);
      assert |s.g[a].pred| == FallsIn(s.g, a) + JumpsInto(code[..k], Ids(code)[a]);
    }
  }
}
