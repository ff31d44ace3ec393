/** The code generator as the compiler runs it: the spare register table, the register and state
    fields of the symbols, and the emitted instructions, all updated in place. */
module Generator {
  import opened Options
  import opened ThreeAddress
  import opened Tm
  import opened Spares
  import opened SpareCode
  import opened SpareEnds
  import opened SpareSweep

  /** VS_INMEM and VS_INREG; a symbol without a state is VS_EMPTY. */
  datatype VarState = InMem | InReg

  class CodeGenerator {
    const registers: array<Option<Arg>>
    var reg: map<Arg, nat>            // the symbols whose register is not NO_REGISTER
    var state: map<nat, VarState>     // of the symbols with memory slots
    var code: seq<Instr>

    ghost function View(): Desc
      reads this, registers
      requires registers.Length == REGISTER_SPARE
    {
      Desc(registers[..], state.Keys)
    }

    /** The fields of the symbols agree with the register table. */
    ghost predicate Valid()
      reads this, registers
    {
      && registers.Length == REGISTER_SPARE
      && Shaped(View())
      && (forall a :: a in reg <==> RegOf(View(), a).Some?)
      && (forall a :: a in reg ==> RegOf(View(), a) == Some(reg[a]))
      && (forall x :: x in state && x >= REGISTER_COUNT ==> (state[x].InReg? <==> Sym(x) in reg))
    }

    constructor ()
      ensures Valid() && fresh(registers) && View() == Desc([None, None, None], {}) && code == []
    {
      registers := new Option<Arg>[REGISTER_SPARE](_ => None);
      reg := map[Sym(0) := 0, Sym(1) := 1, Sym(2) := 2];
      state := map[];
      code := [];
      new;
      assert registers[..] == [None, None, None];
    }

    method Emit(i: Instr)
      modifies this`code
      ensures code == old(code) + [i]
    {
      code := code + [i];
    }

    /** At the start of a block every register is free, as the end of the block before has left them. */
    method StartBlock()
      requires Valid() && View().regs == [None, None, None]
      modifies registers
      ensures Valid() && View() == old(View())
    {
      assert registers[..] == [None, None, None];
      registers[0] := None;
      registers[1] := None;
      registers[2] := None;
      assert registers[..] == old(registers[..]);
    }

    /** Hands over what has been emitted. */
    method TakeCode() returns (c: seq<Instr>)
      requires Valid()
      modifies this`code
      ensures Valid() && View() == old(View()) && c == old(code) && code == []
    {
      c := code;
      code := [];
    }

    /** gen_load, for a symbol that has just been given register r. */
    method GenLoad(a: Arg, r: nat)
      requires a.Sym? && a.id in state ==> state[a.id] == InMem
      modifies this`code, this`state
      ensures state == if a.Sym? then old(state)[a.id := InReg] else old(state)
      ensures code == old(code) + Load(Desc([None, None, None], old(state).Keys), a, r)
    {
      match a {
        case Const(v) => Emit(Instr(LDC, r, v, 0));
        case Sym(x) =>
          if x in state {
            assert state[x] != InReg;
            Emit(Instr(LD, r, Slot(a), GP));
          }
          state := state[x := InReg];
      }
    }

    /** The first empty register, or else the first one that may be evicted; -1 if there is none. */
    method Choose(ex1: Option<Arg>, ex2: Option<Arg>) returns (i: int)
      requires Valid()
      ensures i == match Chosen(View(), ex1, ex2) { case None => -1 case Some(k) => k }
    {
      i := 0;
      while i < REGISTER_SPARE
        invariant 0 <= i <= REGISTER_SPARE && forall j :: 0 <= j < i ==> registers[j] != None
      {
        if registers[i] == None {
          return;
        }
        i := i + 1;
      }
      i := 0;
      while i < REGISTER_SPARE
        invariant 0 <= i <= REGISTER_SPARE && forall j :: 0 <= j < i ==> registers[j] == ex1 || registers[j] == ex2
      {
        if registers[i] != ex1 && registers[i] != ex2 {
          return;
        }
        i := i + 1;
      }
      i := -1;
    }

    /** Takes register 3 + i from the symbol that holds it, with a store if its value is to be saved. */
    method Release(i: nat, save: bool)
      requires Valid() && i < REGISTER_SPARE
      modifies this`code, this`state, this`reg, registers
      ensures Valid() && View() == Freed(old(View()), i)
      ensures code == old(code) + if save then Evict(old(View()).regs[i], REGISTER_COUNT + i) else []
    {
      FreedRegs(View(), i);
      if registers[i].Some? {
        var s := registers[i].value;
        assert RegOf(View(), s) == Some(REGISTER_COUNT + i);
        if s.Sym? {
          if save {
            Emit(Instr(ST, REGISTER_COUNT + i, Slot(s), GP));
          }
          state := state[s.id := InMem];
        }
        reg := reg - {s};
        registers[i] := None;
      }
      assert View() == Freed(old(View()), i);
    }

    /** Puts a symbol into the free register 3 + i. */
    method Take(i: nat, a: Arg)
      requires Valid() && i < REGISTER_SPARE && View().regs[i] == None && RegOf(View(), a) == None
      modifies this`code, this`state, this`reg, registers
      ensures Valid() && View() == Mark(old(View()), i, a)
      ensures code == old(code) + Load(old(View()), a, REGISTER_COUNT + i)
    {
      MarkShaped(View(), i, a);
      registers[i] := Some(a);
      reg := reg[a := REGISTER_COUNT + i];
      GenLoad(a, REGISTER_COUNT + i);
      assert View() == Mark(old(View()), i, a);
    }

    /** find_reg. */
    method FindReg(a: Arg, ex1: Option<Arg>, ex2: Option<Arg>) returns (r: int)
      requires Valid() && a !in reg
      modifies this`code, this`state, this`reg, registers
      ensures Valid()
      ensures match Spares.FindReg(old(View()), a, ex1, ex2)
        case None => r == -1 && View() == old(View()) && code == old(code)
        case Some(f) => r == f.r && View() == f.d && code == old(code) + f.code
    {
      hide *;
      ThreeSpares();
      ghost var d := View();
      var i := Choose(ex1, ex2);
      FoundAs(d, a, ex1, ex2);
      if i == -1 {
        return -1;
      }
      FreeThere(d, i, a);
      Release(i, true);
      Take(i, a);
      r := REGISTER_COUNT + i;
    }

    lemma FreeThere(d: Desc, i: nat, a: Arg)
      requires Valid() && d == View() && i < REGISTER_SPARE && a !in reg
      ensures registers[i] == d.regs[i]
      ensures Freed(d, i).regs[i] == None && RegOf(Freed(d, i), a) == None
    {
      FreedRegs(d, i);
    }

    /** The register of an operand, found if it has none. */
    method Operand(a: Arg, ex1: Option<Arg>, ex2: Option<Arg>) returns (r: int)
      requires Valid()
      modifies this`code, this`state, this`reg, registers
      ensures Valid()
      ensures Spares.Operand(old(View()), a, ex1, ex2).Some?
      ensures var f := Spares.Operand(old(View()), a, ex1, ex2).value;
        r == f.r && View() == f.d && code == old(code) + f.code
    {
      OperandKeeps(View(), a, ex1, ex2);
      assert a in reg <==> RegOf(View(), a).Some?;
      hide RegOf, Shaped;
      if a in reg {
        r := reg[a];
      } else {
        r := FindReg(a, ex1, ex2);
      }
    }

    /** get_reg for the result and one operand. */
    method GetReg2(r: nat, a1: Arg, ex: Option<Arg>) returns (r1: int, r2: int)
      requires Valid()
      modifies this`code, this`state, this`reg, registers
      ensures Valid()
      ensures SpareCode.GetReg2(old(View()), r, a1, ex).Some?
      ensures var o := SpareCode.GetReg2(old(View()), r, a1, ex).value;
        r1 == o.r1 && r2 == o.r2 && View() == o.d && code == old(code) + o.code
    {
      hide *;
      ThreeSpares();
      r1 := Operand(Sym(r), Some(a1), ex);
      if ex.Some? {
        r2 := Operand(a1, ex, Some(Sym(r)));
      } else {
        r2 := Operand(a1, Some(Sym(r)), None);
      }
      TwoFound(old(View()), r, a1, ex);
    }

    /** get_reg for the result and two operands. */
    method GetReg3(r: nat, a1: Arg, a2: Arg) returns (r1: int, r2: int, r3: int)
      requires Valid()
      modifies this`code, this`state, this`reg, registers
      ensures Valid()
      ensures SpareCode.GetReg3(old(View()), r, a1, a2).Some?
      ensures var o := SpareCode.GetReg3(old(View()), r, a1, a2).value;
        r1 == o.r1 && r2 == o.r2 && r3 == o.r3 && View() == o.d && code == old(code) + o.code
    {
      hide *;
      ThreeSpares();
      r1, r2 := GetReg2(r, a1, Some(a2));
      r3 := Operand(a2, Some(a1), Some(Sym(r)));
      ThreeFound(old(View()), r, a1, a2);
    }

    lemma SpareAt(i: nat)
      requires Valid() && i < REGISTER_SPARE
      ensures registers.Length == REGISTER_SPARE && View().regs[i] == registers[i]
    {
    }

    lemma ThreeSpares()
      requires Valid()
      ensures registers.Length == REGISTER_SPARE == 3
    {
    }

    method GenInc(i: Ins)
      requires Valid() && Increments(i)
      modifies this`code, this`state, this`reg, registers
      ensures Valid() && SpareCode.GenIns(old(View()), i).Some?
      ensures var (d, c) := SpareCode.GenIns(old(View()), i).value; View() == d && code == old(code) + c
    {
      ThreeSpares();
      hide Spares.Operand, RegOf, Shaped, Valid;
      var r1 := Operand(Sym(i.r), None, None);
      Emit(Instr(if i.op == Add then INC else DEC, r1, 0, 0));
    }

    /** The operands in registers, and the operation. */
    method GenAlu(i: Ins)
      requires Valid() && i.Bin? && !Increments(i)
      modifies this`code, this`state, this`reg, registers
      ensures Valid() && SpareCode.GenIns(old(View()), i).Some?
      ensures var (d, c) := SpareCode.GenIns(old(View()), i).value; View() == d && code == old(code) + c
    {
      ThreeSpares();
      hide *;
      var r1, r2, r3 := GetReg3(i.r, i.a1, i.a2);
      var alu := Instr(AluOp(i.op), r1, r2, r3);
      ghost var o := SpareCode.GetReg3(old(View()), i.r, i.a1, i.a2).value;
      BinCode(old(View()), i);
      ThreeParts(old(code), o.code, [alu]);
      Emit(alu);
    }

    method GenBinop(i: Ins)
      requires Valid() && i.Bin?
      modifies this`code, this`state, this`reg, registers
      ensures Valid() && SpareCode.GenIns(old(View()), i).Some?
      ensures var (d, c) := SpareCode.GenIns(old(View()), i).value; View() == d && code == old(code) + c
    {
      ThreeSpares();
      hide *;
      if Increments(i) {
        GenInc(i);
      } else {
        GenAlu(i);
      }
    }

    method GenConst(i: Ins)
      requires Valid() && i.Assign? && i.a1.Const?
      modifies this`code, this`state, this`reg, registers
      ensures Valid() && SpareCode.GenIns(old(View()), i).Some?
      ensures var (d, c) := SpareCode.GenIns(old(View()), i).value; View() == d && code == old(code) + c
    {
      ThreeSpares();
      hide Spares.Operand, RegOf, Shaped, Valid;
      var r1 := Operand(Sym(i.r), Some(i.a1), None);
      Emit(Instr(LDC, r1, i.a1.val, 0));
    }

    method GenCopy(i: Ins)
      requires Valid() && i.Assign? && i.a1.Sym? && i.a1 != Sym(i.r)
      modifies this`code, this`state, this`reg, registers
      ensures Valid() && SpareCode.GenIns(old(View()), i).Some?
      ensures var (d, c) := SpareCode.GenIns(old(View()), i).value; View() == d && code == old(code) + c
    {
      ThreeSpares();
      hide *;
      var r1, r2 := GetReg2(i.r, i.a1, None);
      CopyCode(old(View()), i);
      ghost var c := SpareCode.GetReg2(old(View()), i.r, i.a1, None).value.code;
      TwoMore(old(code), c, Instr(LDC, r1, 0, 0), Instr(ADD, r1, r2, r1));
      Emit(Instr(LDC, r1, 0, 0));
      Emit(Instr(ADD, r1, r2, r1));
    }

    method GenAssign(i: Ins)
      requires Valid() && i.Assign?
      modifies this`code, this`state, this`reg, registers
      ensures Valid() && SpareCode.GenIns(old(View()), i).Some?
      ensures var (d, c) := SpareCode.GenIns(old(View()), i).value; View() == d && code == old(code) + c
    {
      ThreeSpares();
      hide SpareCode.GenAssign, Valid;
      if i.a1 == Sym(i.r) {
        assert code + [] == code;
      } else if i.a1.Const? {
        GenConst(i);
      } else {
        GenCopy(i);
      }
    }

    method GenInput(i: Ins)
      requires Valid() && i.In?
      modifies this`code, this`state, this`reg, registers
      ensures Valid() && SpareCode.GenIns(old(View()), i).Some?
      ensures var (d, c) := SpareCode.GenIns(old(View()), i).value; View() == d && code == old(code) + c
    {
      ThreeSpares();
      hide Spares.Operand, RegOf, Shaped, Valid;
      var r1 := Operand(Sym(i.r), None, None);
      Emit(Instr(IN, r1, 0, 0));
    }

    method GenOutput(i: Ins)
      requires Valid() && i.Out?
      modifies this`code, this`state, this`reg, registers
      ensures Valid() && SpareCode.GenIns(old(View()), i).Some?
      ensures var (d, c) := SpareCode.GenIns(old(View()), i).value; View() == d && code == old(code) + c
    {
      ThreeSpares();
      hide Spares.Operand, RegOf, Shaped, Valid;
      var r1 := Operand(i.a, None, None);
      Emit(Instr(OUT, r1, 0, 0));
    }

    /** gen_ins inside a block. */
    method GenIns(i: Ins)
      requires Valid() && !IsControl(i)
      modifies this`code, this`state, this`reg, registers
      ensures Valid() && SpareCode.GenIns(old(View()), i).Some?
      ensures var (d, c) := SpareCode.GenIns(old(View()), i).value; View() == d && code == old(code) + c
    {
      ThreeSpares();
      hide SpareCode.GenIns, Valid;
      match i {
        case Bin(_, _, _, _) => GenBinop(i);
        case In(_) => GenInput(i);
        case Out(_) => GenOutput(i);
        case Assign(_, _) => GenAssign(i);
      }
    }

    /** free_regs: the symbols that are not in the set lose their registers. */
    method FreeRegs(out: set<nat>)
      requires Valid()
      modifies this`code, this`state, this`reg, registers
      ensures Valid() && View() == Swept(old(View()), out) && code == old(code)
    {
      ThreeSpares();
      ghost var d := View();
      var i := 0;
      hide *;
      SweptStart(d, out);
      while i < REGISTER_SPARE
        invariant 0 <= i <= REGISTER_SPARE && Valid()
        invariant View() == SweptTo(d, i, out) && code == old(code)
      {
        SpareAt(i);
        SweptNext(d, i, out);
        var s := registers[i];
        if s.Some? && s.value.Sym? && s.value.id !in out {
          Release(i, false);
        }
        i := i + 1;
      }
      AllSwept(d, out);
    }

    /** gen_bb_loads: the live symbols are stored, and every register is given up. */
    method BoundaryStores(out: set<nat>)
      requires Valid()
      modifies this`code, this`state, this`reg, registers
      ensures Valid() && View() == Emptied(old(View()))
      ensures code == old(code) + BoundaryCode(old(View()), out)
    {
      ThreeSpares();
      ghost var d := View();
      var i := 0;
      hide *;
      StoresStart(d, out);
      while i < REGISTER_SPARE
        invariant 0 <= i <= REGISTER_SPARE && Valid()
        invariant View() == Cleared(d, i)
        invariant code == old(code) + Stores(d, i, out)
      {
        StoresNext(d, i, out);
        SpareAt(i);
        var s := registers[i];
        var save := s.Some? && s.value.Sym? && s.value.id in out;
        StoreIs(Cleared(d, i), i, out);
        ThreeParts(old(code), Stores(d, i, out), BoundaryStore(Cleared(d, i), i, out));
        Release(i, save);
        i := i + 1;
      }
      AllStores(d, out);
    }
  }

  /** The first i spare registers have been looked at. */
  function SweptTo(d: Desc, i: nat, out: set<nat>): Desc
    requires i <= REGISTER_SPARE
  {
    if i == 0 then d else SweptOne(SweptTo(d, i - 1, out), i - 1, out)
  }

  lemma SweptStart(d: Desc, out: set<nat>)
    ensures SweptTo(d, 0, out) == d
  {
  }

  lemma SweptNext(d: Desc, i: nat, out: set<nat>)
    requires i < REGISTER_SPARE
    ensures var e := SweptTo(d, i, out);
      SweptTo(d, i + 1, out) == if e.regs[i].Some? && e.regs[i].value.Sym? && e.regs[i].value.id !in out then Freed(e, i) else e
  {
  }

  lemma AllSwept(d: Desc, out: set<nat>)
    ensures SweptTo(d, 3, out) == Swept(d, out)
  {
    assert SweptTo(d, 1, out) == SweptOne(d, 0, out);
    assert SweptTo(d, 2, out) == SweptOne(SweptOne(d, 0, out), 1, out);
    hide SweptOne;
  }

  /** The first i spare registers are free. */
  function Cleared(d: Desc, i: nat): Desc
    requires i <= REGISTER_SPARE
  {
    if i == 0 then d else Freed(Cleared(d, i - 1), i - 1)
  }

  function Stores(d: Desc, i: nat, out: set<nat>): seq<Instr>
    requires i <= REGISTER_SPARE
  {
    if i == 0 then [] else Stores(d, i - 1, out) + BoundaryStore(d, i - 1, out)
  }

  lemma {:induction false} ClearedAt(d: Desc, i: nat, j: nat)
    requires i <= j < REGISTER_SPARE
    ensures Cleared(d, i).regs[j] == d.regs[j]
  {
    if i > 0 {
      ClearedAt(d, i - 1, j);
    }
  }

  lemma StoresStart(d: Desc, out: set<nat>)
    ensures Cleared(d, 0) == d && Stores(d, 0, out) == [] && forall c: seq<Instr> :: c + [] == c
  {
  }

  lemma StoreIs(d: Desc, i: nat, out: set<nat>)
    requires i < REGISTER_SPARE
    ensures var s := d.regs[i];
      BoundaryStore(d, i, out) == if s.Some? && s.value.Sym? && s.value.id in out then Evict(s, REGISTER_COUNT + i) else []
  {
    hide Evict;
  }

  lemma StoresNext(d: Desc, i: nat, out: set<nat>)
    requires i < REGISTER_SPARE
    ensures Cleared(d, i + 1) == Freed(Cleared(d, i), i)
    ensures Stores(d, i + 1, out) == Stores(d, i, out) + BoundaryStore(Cleared(d, i), i, out)
  {
    ClearedAt(d, i, i);
  }

  lemma AllStores(d: Desc, out: set<nat>)
    ensures Cleared(d, 3) == Emptied(d) && Stores(d, 3, out) == BoundaryCode(d, out)
  {
    hide BoundaryStore;
    assert Cleared(d, 1) == Freed(d, 0);
    assert Cleared(d, 2) == Freed(Freed(d, 0), 1);
    assert Cleared(d, 3).regs == [None, None, None];
    assert Stores(d, 1, out) == BoundaryStore(d, 0, out);
    assert Stores(d, 2, out) == BoundaryStore(d, 0, out) + BoundaryStore(d, 1, out);
  }

  lemma TwoMore(a: seq<Instr>, b: seq<Instr>, i: Instr, j: Instr)
    ensures a + b + [i] + [j] == a + (b + [i, j])
  {
  }

  lemma ThreeParts(a: seq<Instr>, b: seq<Instr>, c: seq<Instr>)
    ensures a + b + c == a + (b + c)
  {
  }

  lemma TwoFound(d: Desc, r: nat, a1: Arg, ex: Option<Arg>)
    requires Spares.Operand(d, Sym(r), Some(a1), ex).Some?
    ensures var f := Spares.Operand(d, Sym(r), Some(a1), ex).value;
      var g := if ex.Some? then Spares.Operand(f.d, a1, ex, Some(Sym(r))) else Spares.Operand(f.d, a1, Some(Sym(r)), None);
      SpareCode.GetReg2(d, r, a1, ex)
      == match g { case None => None case Some(h) => Some(Ops(h.d, f.code + h.code, f.r, h.r, 0)) }
  {
    hide Spares.Operand;
  }

  lemma ThreeFound(d: Desc, r: nat, a1: Arg, a2: Arg)
    requires SpareCode.GetReg2(d, r, a1, Some(a2)).Some?
    ensures var o := SpareCode.GetReg2(d, r, a1, Some(a2)).value;
      SpareCode.GetReg3(d, r, a1, a2)
      == match Spares.Operand(o.d, a2, Some(a1), Some(Sym(r)))
         case None => None
         case Some(g) => Some(Ops(g.d, o.code + g.code, o.r1, o.r2, g.r))
  {
    hide Spares.Operand, SpareCode.GetReg2;
  }
}
