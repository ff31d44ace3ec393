/** The front end as it works in place: node constructors over shared counters and tables, and the
    list that instructions are pushed onto. */
module Emitter {
  import opened Options
  import opened ThreeAddress
  import opened Ast
  import Lowering
  import opened TreeBuilder
  import opened Operators

  /** The node constructors of tree.c. */
  class NodeFactory {
    var nextSymbol: nat        // symb_id
    var lastLabel: nat         // tmp_label_id
    var negations: map<Expr, Expr>
    var warnings: nat
    ghost var temps: Lowering.Temps

    ghost function State(): Supply
      reads this
    {
      Supply(nextSymbol, lastLabel, negations, temps, warnings)
    }

    constructor (base: nat)
      ensures State() == Supply(base, 0, map[], map[], 0)
    {
      nextSymbol := base;
      lastLabel := 0;
      negations := map[];
      warnings := 0;
      temps := map[];
    }

    method NewBinop(op: BinOp, l: Expr, r: Expr) returns (e: Expr)
      requires TreeBuilder.NewBinop(State(), op, l, r).Some?
      modifies this
      ensures TreeBuilder.NewBinop(old(State()), op, l, r) == Some((State(), e))
      ensures l.Num? && r.Num? ==> State() == old(State()) && e.Num? && Computes(op, l.v, r.v, e.v)
    {
      if l.Num? && r.Num? {
        e := Num(Apply(op, l.v, r.v).value);
        ApplyExact(op, l.v, r.v);
        return;
      }
      e := Biop(op, l, r, nextSymbol);
      temps := temps[nextSymbol := e];
      nextSymbol := nextSymbol + 1;
    }

    method NewUnop(a: Expr) returns (e: Expr)
      modifies this
      ensures TreeBuilder.NewUnop(old(State()), a) == (State(), e)
    {
      if a.Num? {
        e := Num(-a.v);
      } else if a in negations {
        e := negations[a];
      } else {
        e := Uop(a, nextSymbol);
        temps := temps[nextSymbol := e];
        nextSymbol := nextSymbol + 1;
        negations := negations[a := e];
      }
    }

    method NewIf(c: Expr, thn: Stmts, els: Stmts) returns (ss: Stmts)
      requires TreeBuilder.NewIf(State(), c, thn, els).Some?
      modifies this
      ensures TreeBuilder.NewIf(old(State()), c, thn, els) == Some((State(), ss))
    {
      if c.Num? {
        ss := if c.v > 0 then thn else els;
      } else {
        var a2 := 0;
        if els != End {
          lastLabel := lastLabel + 1;
          a2 := lastLabel;
        }
        lastLabel := lastLabel + 1;
        ss := Chain(IfS(c, thn, els, a2, lastLabel), End);
      }
    }

    method NewLoop(c: Expr, body: Stmts) returns (ss: Stmts)
      requires TreeBuilder.NewLoop(State(), c, body).Some?
      modifies this
      ensures TreeBuilder.NewLoop(old(State()), c, body) == Some((State(), ss))
    {
      ss := End;
      if c.Num? {
        if c.v > 0 {
          warnings := warnings + 1;
        }
      } else {
        ss := Chain(WhileS(c, body, lastLabel + 1, lastLabel + 2), End);
        lastLabel := lastLabel + 2;
      }
    }
  }

  /** An instruction with the id it got when it was pushed. */
  datatype Tac = Tac(id: nat, ins: Ins)

  /** The instruction list under construction. */
  class TacCode {
    var count: nat
    var ins: seq<Tac>

    /** Instruction ids are 1 to count, in order. */
    ghost predicate Valid()
      reads this
    {
      count == |ins| && forall i :: 0 <= i < |ins| ==> ins[i].id == i + 1
    }

    ghost function Code(): (code: seq<Ins>)
      reads this
      ensures |code| == |ins| && forall i :: 0 <= i < |code| ==> code[i] == ins[i].ins
    {
      seq(|ins|, i requires 0 <= i < |ins| reads this => ins[i].ins)
    }

    constructor ()
      ensures Valid() && Code() == []
    {
      count := 0;
      ins := [];
    }

    method Push(i: Ins)
      requires Valid()
      modifies this
      ensures Valid() && Code() == old(Code()) + [i]
    {
      count := count + 1;
      ins := ins + [Tac(count, i)];
    }

    method GenExpr(e: Expr)
      requires Valid()
      modifies this
      ensures Valid() && Code() == old(Code()) + Lowering.GenExpr(e)
      decreases e
    {
      match e
      case Biop(op, l, r, t) =>
        GenExpr(l);
        GenExpr(r);
        Push(Bin(op, t, Lowering.Res(l), Lowering.Res(r)));
      case Uop(a, t) =>
        GenExpr(a);
        Push(Bin(Mul, t, Lowering.Res(a), Const(-1)));
      case _ =>   // a leaf has no code
    }

    /** A condition, its test, and the statements that it guards. */
    method GenGuarded(c: Expr, r: nat, ss: Stmts)
      requires Valid()
      modifies this
      ensures Valid()
      ensures Code() == old(Code()) + (Lowering.GenExpr(c) + [Iff(Lowering.Res(c), r)] + Lowering.GenStmts(ss))
      decreases ss, 1
    {
      GenExpr(c);
      Push(Iff(Lowering.Res(c), r));
      GenAll(ss);
    }

    method GenIf(s: Stmt)
      requires Valid() && s.IfS?
      modifies this
      ensures Valid() && Code() == old(Code()) + Lowering.GenStmt(s)
      decreases s, 0
    {
      hide Valid, Code;
      GenGuarded(s.c, s.r, s.thn);
      if s.els != End {
        Push(Jmp(s.a2));
        Push(Label(s.r));
        GenAll(s.els);
        Push(Label(s.a2));
        ElseCode(old(Code()), s);
      } else {
        Push(Label(s.r));
      }
    }

    method GenLoop(s: Stmt)
      requires Valid() && s.WhileS?
      modifies this
      ensures Valid() && Code() == old(Code()) + Lowering.GenStmt(s)
      decreases s, 0
    {
      hide Valid, Code;
      Push(Label(s.a2));
      GenGuarded(s.c, s.r, s.body);
      Push(Jmp(s.a2));
      Push(Label(s.r));
    }

    method Gen(s: Stmt)
      requires Valid()
      modifies this
      ensures Valid() && Code() == old(Code()) + Lowering.GenStmt(s)
      decreases s, 1
    {
      match s
      case IfS(_, _, _, _, _) => GenIf(s);
      case WhileS(_, _, _, _) => GenLoop(s);
      case ReadS(x) => Push(In(x));
      case WriteS(e) =>
        GenExpr(e);
        Push(Out(Lowering.Res(e)));
      case AssignS(x, e) =>
        GenExpr(e);
        Push(Assign(x, Lowering.Res(e)));
    }

    /** A statement and its siblings. */
    method GenAll(ss: Stmts)
      requires Valid()
      modifies this
      ensures Valid() && Code() == old(Code()) + Lowering.GenStmts(ss)
      decreases ss, 0
    {
      if ss.Chain? {
        Gen(ss.head);
        GenAll(ss.sibling);
      }
    }
  }

  lemma ElseCode(before: seq<Ins>, s: Stmt)
    requires s.IfS? && s.els != End
    ensures var test := Lowering.GenExpr(s.c) + [Iff(Lowering.Res(s.c), s.r)] + Lowering.GenStmts(s.thn);
      before + test + [Jmp(s.a2)] + [Label(s.r)] + Lowering.GenStmts(s.els) + [Label(s.a2)] == before + Lowering.GenStmt(s)
  {
    var test := Lowering.GenExpr(s.c) + [Iff(Lowering.Res(s.c), s.r)] + Lowering.GenStmts(s.thn);
    assert Lowering.GenStmt(s) == test + [Jmp(s.a2)] + ([Label(s.r)] + Lowering.GenStmts(s.els) + [Label(s.a2)]);
    hide Lowering.GenStmt, Lowering.GenStmts, Lowering.GenExpr;
  }
}
