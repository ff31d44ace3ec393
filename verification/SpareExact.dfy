/** The emitted code, instruction by instruction: which register is taken, what is stored and loaded,
    and which instruction does the work. */
module SpareExact {
  import opened Options
  import opened ThreeAddress
  import opened Tm
  import opened Spares
  import opened SpareCode
  import opened SpareEnds
  import opened SpareSweep

  // ----- finding a register -----

  /** Neither of the two symbols is in register i. */
  predicate Apart(d: Desc, i: nat, ex1: Option<Arg>, ex2: Option<Arg>)
    requires i < 3
  {
    d.regs[i] != ex1 && d.regs[i] != ex2
  }

  /** The first empty register is taken; if there is none, the first that holds neither of the two
      excluded symbols. */
  lemma ChosenExact(d: Desc, ex1: Option<Arg>, ex2: Option<Arg>)
    ensures match Chosen(d, ex1, ex2)
      case Some(i) =>
        || (d.regs[i] == None && forall j: nat :: j < i ==> d.regs[j] != None)
        || ((forall j: nat :: j < 3 ==> d.regs[j] != None) && Apart(d, i, ex1, ex2)
            && forall j: nat :: j < i ==> !Apart(d, j, ex1, ex2))
      case None => forall j: nat :: j < 3 ==> d.regs[j] != None && !Apart(d, j, ex1, ex2)
  {
  }

  /** The symbol that was in the register is stored into its slot; a constant is not.  A constant is then
      loaded from the instruction, and a symbol from its slot, unless it has never had a value. */
  lemma FindRegExact(d: Desc, a: Arg, ex1: Option<Arg>, ex2: Option<Arg>)
    requires FindReg(d, a, ex1, ex2).Some?
    ensures var f := FindReg(d, a, ex1, ex2).value;
      && 3 <= f.r < 6 && f.d.regs == d.regs[f.r - 3 := Some(a)]
      && var stores := match d.regs[f.r - 3] case Some(Sym(x)) => 1 case _ => 0;
         var loads := if a.Const? || a.id in d.loaded then 1 else 0;
      && |f.code| == stores + loads
      && (stores == 1 ==> f.code[0] == Instr(ST, f.r, d.regs[f.r - 3].value.id - 3, GP))
      && (loads == 1 ==> f.code[stores] == match a case Const(v) => Instr(LDC, f.r, v, 0) case Sym(x) => Instr(LD, f.r, x - 3, GP))
  {
  }

  // ----- the end of a block, and the sweep -----

  /** Register i holds a symbol of the set. */
  predicate Keeps(d: Desc, i: nat, out: set<nat>)
    requires i < 3
  {
    d.regs[i].Some? && d.regs[i].value.Sym? && d.regs[i].value.id in out
  }

  /** A register with a symbol of the set is stored, and nothing else is. */
  lemma StoreExact(d: Desc, i: nat, out: set<nat>)
    requires i < 3
    ensures BoundaryStore(d, i, out) == if Keeps(d, i, out) then [Instr(ST, 3 + i, d.regs[i].value.id - 3, GP)] else []
  {
  }

  /** Code with at most one instruction, on register r. */
  predicate OneOn(c: seq<Instr>, r: int) {
    |c| <= 1 && (|c| == 1 ==> c[0].a1 == r)
  }

  lemma InOrder(a: seq<Instr>, b: seq<Instr>, c: seq<Instr>)
    requires OneOn(a, 3) && OneOn(b, 4) && OneOn(c, 5)
    ensures forall j, k :: 0 <= j < k < |a + b + c| ==> (a + b + c)[j].a1 < (a + b + c)[k].a1
  {
  }

  /** The boundary stores are one for each register that holds a symbol of the set, in the order of the
      registers. */
  lemma BoundaryExact(d: Desc, out: set<nat>)
    ensures forall s: Instr :: s in BoundaryCode(d, out) <==>
      3 <= s.a1 < 6 && Keeps(d, s.a1 - 3, out) && s == Instr(ST, s.a1, d.regs[s.a1 - 3].value.id - 3, GP)
    ensures forall j, k :: 0 <= j < k < |BoundaryCode(d, out)| ==> BoundaryCode(d, out)[j].a1 < BoundaryCode(d, out)[k].a1
  {
    StoreExact(d, 0, out);
    StoreExact(d, 1, out);
    StoreExact(d, 2, out);
    var a, b, c := BoundaryStore(d, 0, out), BoundaryStore(d, 1, out), BoundaryStore(d, 2, out);
    assert BoundaryCode(d, out) == a + b + c;
    hide BoundaryStore, BoundaryCode, Keeps;
    InOrder(a, b, c);
    forall s: Instr ensures s in a + b + c <==>
      3 <= s.a1 < 6 && Keeps(d, s.a1 - 3, out) && s == Instr(ST, s.a1, d.regs[s.a1 - 3].value.id - 3, GP)
    {
      assert s in a + b + c <==> s in a || s in b || s in c;
    }
  }

  /** free_regs gives up just the registers that hold symbols which are not in the set. */
  lemma SweptExact(d: Desc, out: set<nat>)
    ensures Swept(d, out).loaded == d.loaded
    ensures forall i: nat :: i < 3 ==>
      Swept(d, out).regs[i] == if d.regs[i].Some? && d.regs[i].value.Sym? && !Keeps(d, i, out) then None else d.regs[i]
  {
  }

  // ----- one instruction -----

  /** Code that only moves values between registers and memory. */
  predicate Moves(c: seq<Instr>) {
    forall k :: 0 <= k < |c| ==> c[k].op == ST || c[k].op == LD || c[k].op == LDC
  }

  lemma OperandMoves(d: Desc, a: Arg, ex1: Option<Arg>, ex2: Option<Arg>)
    requires Shaped(d)
    ensures Operand(d, a, ex1, ex2).Some?
    ensures var f := Operand(d, a, ex1, ex2).value; Moves(f.code) && Shaped(f.d) && RegOf(f.d, a) == Some(f.r)
  {
    OperandKeeps(d, a, ex1, ex2);
    hide Shaped, Chosen;
  }

  lemma GetReg2Moves(d: Desc, r: nat, a1: Arg, ex: Option<Arg>)
    requires Shaped(d)
    ensures GetReg2(d, r, a1, ex).Some?
    ensures var o := GetReg2(d, r, a1, ex).value;
      Moves(o.code) && Shaped(o.d) && RegOf(o.d, Sym(r)) == Some(o.r1) && RegOf(o.d, a1) == Some(o.r2)
  {
    OperandMoves(d, Sym(r), Some(a1), ex);
    var f := Operand(d, Sym(r), Some(a1), ex).value;
    var x, y := if ex.Some? then ex else Some(Sym(r)), if ex.Some? then Some(Sym(r)) else None;
    OperandKeeps(f.d, a1, x, y);
    OperandMoves(f.d, a1, x, y);
    var g := Operand(f.d, a1, x, y).value;
    assert GetReg2(d, r, a1, ex) == Some(Ops(g.d, f.code + g.code, f.r, g.r, 0));
    hide Operand, Shaped, RegOf, GetReg2;
  }

  lemma GetReg3Moves(d: Desc, r: nat, a1: Arg, a2: Arg)
    requires Shaped(d)
    ensures GetReg3(d, r, a1, a2).Some?
    ensures var o := GetReg3(d, r, a1, a2).value;
      && Moves(o.code) && Shaped(o.d)
      && RegOf(o.d, Sym(r)) == Some(o.r1) && RegOf(o.d, a1) == Some(o.r2) && RegOf(o.d, a2) == Some(o.r3)
  {
    GetReg2Moves(d, r, a1, Some(a2));
    var o := GetReg2(d, r, a1, Some(a2)).value;
    OperandKeeps(o.d, a2, Some(a1), Some(Sym(r)));
    OperandMoves(o.d, a2, Some(a1), Some(Sym(r)));
    var g := Operand(o.d, a2, Some(a1), Some(Sym(r))).value;
    assert GetReg3(d, r, a1, a2) == Some(Ops(g.d, o.code + g.code, o.r1, o.r2, g.r));
    hide Operand, Shaped, RegOf, GetReg2, GetReg3;
  }

  /** One is added to x or subtracted from it, or x is subtracted from one. */
  predicate ByOne(i: Ins) {
    i.Bin? && (i.op.Add? || i.op.Sub?) && ((i.a1 == Sym(i.r) && i.a2 == Const(1)) || (i.a1 == Const(1) && i.a2 == Sym(i.r)))
  }

  /** The instructions that do the work: w is the register of the result, p and q those of the operands. */
  function Work(i: Ins, w: nat, p: nat, q: nat): seq<Instr> {
    match i
    case Bin(op, _, _, _) =>
      if ByOne(i) then [Instr(if op.Add? then INC else DEC, w, 0, 0)]
      else if op.Add? then [Instr(ADD, w, p, q)]
      else if op.Mul? then [Instr(MUL, w, p, q)]
      else if op.Div? then [Instr(DIV, w, p, q)]
      else [Instr(SUB, w, p, q)]
    case In(_) => [Instr(IN, w, 0, 0)]
    case Out(_) => [Instr(OUT, p, 0, 0)]
    case Assign(_, Const(v)) => [Instr(LDC, w, v, 0)]
    case Assign(_, Sym(_)) => [Instr(LDC, w, 0, 0), Instr(ADD, w, p, w)]
    case _ => []
  }

  /** The register of a symbol that an instruction names. */
  function Holder(e: Desc, a: Arg): nat {
    match RegOf(e, a)
    case Some(r) => r
    case None => 0
  }

  function WorkOf(i: Ins, e: Desc): seq<Instr> {
    match i
    case Bin(_, r, a1, a2) => Work(i, Holder(e, Sym(r)), Holder(e, a1), Holder(e, a2))
    case In(r) => Work(i, Holder(e, Sym(r)), 0, 0)
    case Out(a) => Work(i, 0, Holder(e, a), 0)
    case Assign(r, a1) => Work(i, Holder(e, Sym(r)), Holder(e, a1), 0)
    case _ => []
  }

  /** c moves values and then does the work w. */
  predicate MovesThen(c: seq<Instr>, w: seq<Instr>) {
    |w| <= |c| && c[|c| - |w|..] == w && Moves(c[..|c| - |w|])
  }

  lemma WorkBehind(c: seq<Instr>, w: seq<Instr>)
    requires Moves(c)
    ensures MovesThen(c + w, w)
  {
    assert (c + w)[|c|..] == w && (c + w)[..|c|] == c;
  }

  lemma ByOneExact(d: Desc, i: Ins)
    requires Shaped(d) && ByOne(i)
    ensures GenIns(d, i).Some? && MovesThen(GenIns(d, i).value.1, WorkOf(i, GenIns(d, i).value.0))
  {
    OperandMoves(d, Sym(i.r), None, None);
    var f := Operand(d, Sym(i.r), None, None).value;
    assert RegOf(f.d, Sym(i.r)) == Some(f.r);
    var w := [Instr(if i.op.Add? then INC else DEC, f.r, 0, 0)];
    assert GenIns(d, i) == Some((f.d, f.code + w));
    assert WorkOf(i, f.d) == w by { hide RegOf; }
    hide *;
    WorkBehind(f.code, w);
  }

  lemma AluExact(d: Desc, i: Ins)
    requires Shaped(d) && i.Bin? && !ByOne(i)
    ensures GenIns(d, i).Some? && MovesThen(GenIns(d, i).value.1, WorkOf(i, GenIns(d, i).value.0))
  {
    GetReg3Moves(d, i.r, i.a1, i.a2);
    var o := GetReg3(d, i.r, i.a1, i.a2).value;
    var w := [Instr(AluOp(i.op), o.r1, o.r2, o.r3)];
    assert GenIns(d, i) == Some((o.d, o.code + w)) by { hide AluOp, GetReg3, Shaped, RegOf; }
    assert WorkOf(i, o.d) == w by { hide RegOf, GetReg3; }
    hide *;
    WorkBehind(o.code, w);
  }

  lemma AssignExact(d: Desc, i: Ins)
    requires Shaped(d) && i.Assign? && i.a1 != Sym(i.r)
    ensures GenIns(d, i).Some? && MovesThen(GenIns(d, i).value.1, WorkOf(i, GenIns(d, i).value.0))
  {
    if i.a1.Const? {
      OperandMoves(d, Sym(i.r), Some(i.a1), None);
      var f := Operand(d, Sym(i.r), Some(i.a1), None).value;
      hide Operand, Shaped, RegOf, MovesThen, Moves;
      WorkBehind(f.code, WorkOf(i, f.d));
    } else {
      GetReg2Moves(d, i.r, i.a1, None);
      var o := GetReg2(d, i.r, i.a1, None).value;
      hide GetReg2, Shaped, RegOf, MovesThen, Moves;
      WorkBehind(o.code, WorkOf(i, o.d));
    }
  }

  lemma MoveExact(d: Desc, i: Ins)
    requires Shaped(d) && (i.In? || i.Out?)
    ensures GenIns(d, i).Some? && MovesThen(GenIns(d, i).value.1, WorkOf(i, GenIns(d, i).value.0))
  {
    var a := if i.In? then Sym(i.r) else i.a;
    OperandMoves(d, a, None, None);
    var f := Operand(d, a, None, None).value;
    hide Operand, Shaped, RegOf, MovesThen, Moves;
    WorkBehind(f.code, WorkOf(i, f.d));
  }

  /** The code of an instruction moves its operands into registers and then does the work on them; a symbol
      assigned to itself needs no code. */
  lemma GenExact(d: Desc, i: Ins)
    requires Shaped(d) && Generated(i)
    ensures GenIns(d, i).Some?
    ensures var (e, c) := GenIns(d, i).value;
      if i.Assign? && i.a1 == Sym(i.r) then c == [] && e == d else MovesThen(c, WorkOf(i, e))
  {
    if i.Bin? {
      if ByOne(i) {
        ByOneExact(d, i);
      } else {
        AluExact(d, i);
      }
    } else if i.Assign? {
      if i.a1 != Sym(i.r) {
        AssignExact(d, i);
      }
    } else {
      MoveExact(d, i);
    }
    hide MovesThen, WorkOf, Shaped;
  }

  /** Counting up or down takes no register for the constant. */
  lemma ByOneCheap(d: Desc, i: Ins)
    requires Shaped(d) && ByOne(i)
    ensures GenIns(d, i).Some?
    ensures var (e, c) := GenIns(d, i).value;
      (forall k: nat :: k < 3 && e.regs[k] == Some(Const(1)) ==> d.regs[k] == Some(Const(1))) && |c| <= 3
  {
    assert Increments(i);
    OperandKeeps(d, Sym(i.r), None, None);
    hide Shaped, Chosen;
  }
}
