/** What the operators compute, in arithmetic: for the three-address code, for folding and for the
    instructions of the machine. */
module Operators {
  import opened Options
  import opened ThreeAddress
  import opened Tm

  function Abs(x: int): nat {
    if x < 0 then -x else x
  }

  /** What a division may leave over: less than the divisor, and of the sign of the dividend. */
  predicate Leftover(a: int, b: int, rest: int) {
    Abs(rest) < Abs(b) && (rest > 0 ==> a > 0) && (rest < 0 ==> a < 0)
  }

  /** q is the quotient of a and b in C. */
  predicate Truncated(a: int, b: int, q: int) {
    Leftover(a, b, a - b * q)
  }

  lemma TimesMinus(b: int, e: int)
    ensures b * (-e) == -(b * e)
  {
  }

  lemma QuotientRest(a: int, b: int)
    requires b != 0
    ensures a == b * (a / b) + a % b && 0 <= a % b < Abs(b)
  {
  }

  /** What a division leaves over. */
  lemma TruncRest(a: int, b: int)
    requires b != 0
    ensures a - b * TruncDiv(a, b) == if a >= 0 then a % b else -((-a) % b)
  {
    if a >= 0 {
      QuotientRest(a, b);
    } else {
      QuotientRest(-a, b);
      TimesMinus(b, (-a) / b);
    }
  }

  lemma DivTruncates(a: int, b: int)
    requires b != 0
    ensures Truncated(a, b, TruncDiv(a, b))
  {
    TruncRest(a, b);
    RestLeftover(a, b);
    hide TruncDiv, Leftover;
  }

  lemma ZeroRest(b: int)
    requires b != 0
    ensures 0 % b == 0
  {
    QuotientRest(0, b);
  }

  lemma RestLeftover(a: int, b: int)
    requires b != 0
    ensures Leftover(a, b, if a >= 0 then a % b else -((-a) % b))
  {
    ZeroRest(b);
    var n := Abs(a);
    QuotientRest(n, b);
    var r := n % b;
    hide TruncDiv;
    assert a == 0 ==> r == 0;
  }

  lemma TimesDifference(b: int, p: int, q: int)
    ensures b * (q - p) == b * q - b * p
  {
  }

  lemma TimesAbs(b: int, d: int)
    ensures Abs(b * d) == Abs(b) * Abs(d)
  {
  }

  lemma TimesLarge(b: nat, d: nat)
    requires d > 0
    ensures b * d >= b
  {
  }

  /** There is only one such quotient. */
  lemma OneQuotient(a: int, b: int, p: int, q: int)
    requires Truncated(a, b, p) && Truncated(a, b, q)
    ensures p == q
  {
    var d := q - p;
    TimesDifference(b, p, q);
    assert Abs(b * d) < Abs(b) by {
      var (x, y) := (b * p, b * q);
      assert a - x > 0 ==> a - y >= 0;
    }
    TimesAbs(b, d);
    if d != 0 {
      TimesLarge(Abs(b), Abs(d));
    }
  }

  /** Division is the truncating one, and nothing else is. */
  lemma QuotientExact(a: int, b: int, q: int)
    requires b != 0
    ensures q == TruncDiv(a, b) <==> Truncated(a, b, q)
  {
    DivTruncates(a, b);
    if Truncated(a, b, q) {
      OneQuotient(a, b, q, TruncDiv(a, b));
    }
    hide TruncDiv, Truncated;
  }

  /** A value that an operator may give: a comparison gives one where it holds and zero where not. */
  predicate Computes(op: BinOp, x: int, y: int, v: int) {
    match op
    case Eq => (v == 1 && x == y) || (v == 0 && x != y)
    case Neq => (v == 1 && x != y) || (v == 0 && x == y)
    case Lt => (v == 1 && x < y) || (v == 0 && x >= y)
    case Gt => (v == 1 && x > y) || (v == 0 && x <= y)
    case Le => (v == 1 && x <= y) || (v == 0 && x > y)
    case Ge => (v == 1 && x >= y) || (v == 0 && x < y)
    case Add => v - y == x
    case Sub => v + y == x
    case Mul => v == x * y
    case Div => y != 0 && Truncated(x, y, v)
  }

  /** An operator gives v exactly when v is what it computes; only a division by zero gives nothing. */
  lemma ApplyExact(op: BinOp, x: int, y: int)
    ensures forall v :: Apply(op, x, y) == Some(v) <==> Computes(op, x, y, v)
    ensures Apply(op, x, y) == None <==> op == Div && y == 0
  {
    forall v ensures Apply(op, x, y) == Some(v) <==> Computes(op, x, y, v) {
      if op == Div && y != 0 {
        QuotientExact(x, y, v);
      }
      hide TruncDiv, Truncated;
    }
  }

  // ----- the machine -----

  /** An instruction that puts a value into its first register, and does nothing else. */
  predicate Puts(op: Op) {
    op.ADD? || op.SUB? || op.MUL? || op.DIV? || op.INC? || op.DEC? || op.SHL? || op.SHR? || op.LD? || op.LDA? || op.LDC?
  }

  /** v is the value that an instruction puts into its first register. */
  predicate PutsValue(m: Machine, i: Instr, v: int)
    requires GoodInstr(i)
  {
    match i.op
    case ADD => v - m.reg[i.a3] == m.reg[i.a2]
    case SUB => v + m.reg[i.a3] == m.reg[i.a2]
    case MUL => v == m.reg[i.a2] * m.reg[i.a3]
    case DIV => m.reg[i.a3] != 0 && Truncated(m.reg[i.a2], m.reg[i.a3], v)
    case INC => v - 1 == m.reg[i.a1]
    case DEC => v + 1 == m.reg[i.a1]
    case SHL => if m.reg[i.a3] <= 0 then v == m.reg[i.a1] else Doubled(m.reg[i.a1], m.reg[i.a3], v)
    case SHR => if m.reg[i.a3] <= 0 then v == m.reg[i.a1] else Halved(m.reg[i.a1], m.reg[i.a3], v)
    case LD => 0 <= i.a2 + m.reg[i.a3] < DADDR_SIZE && v == m.dmem[i.a2 + m.reg[i.a3]]
    case LDA => v == i.a2 + m.reg[i.a3]
    case LDC => v == i.a2
    case _ => false
  }

  /** x doubled n times. */
  predicate Doubled(x: int, n: nat, v: int)
    decreases n
  {
    if n == 0 then v == x else Doubled(x + x, n - 1, v)
  }

  /** x halved n times, each time rounded down. */
  predicate Halved(x: int, n: nat, v: int)
    decreases n
  {
    if n == 0 then v == x else Halved(x / 2, n - 1, v)
  }

  lemma TwiceInside(x: int, p: int)
    ensures (x + x) * p == x * (2 * p)
  {
  }

  lemma {:induction false} DoubledPow(x: int, n: nat, v: int)
    ensures Doubled(x, n, v) <==> v == x * Pow2(n)
    decreases n
  {
    if n > 0 {
      DoubledPow(x + x, n - 1, v);
      TwiceInside(x, Pow2(n - 1));
    }
  }

  lemma FloorIs(x: int, p: int, q: int, r: int)
    requires x == p * q + r && 0 <= r < p
    ensures x / p == q
  {
    QuotientRest(x, p);
    var d := x / p - q;
    TimesDifference(p, q, x / p);
    TimesAbs(p, d);
    if d != 0 {
      TimesLarge(p, Abs(d));
    }
  }

  lemma HalfFloor(x: int, p: int)
    requires p > 0
    ensures x / (2 * p) == (x / 2) / p
  {
    var h := x / 2;
    QuotientRest(h, p);
    assert 2 * (p * (h / p)) == (2 * p) * (h / p);
    FloorIs(x, 2 * p, h / p, 2 * (h % p) + (x - 2 * h));
  }

  lemma {:induction false} HalvedPow(x: int, n: nat, v: int)
    ensures Halved(x, n, v) <==> v == x / Pow2(n)
    decreases n
  {
    if n > 0 {
      HalvedPow(x / 2, n - 1, v);
      HalfFloor(x, Pow2(n - 1));
    }
  }

  /** The value that an instruction leaves in its first register, for every value, and nothing but
      that register changes; a division by zero and an address outside memory fail. */
  lemma PutsExact(m: Machine, i: Instr)
    requires GoodInstr(i) && Puts(i.op)
    ensures match Execute(m, i)
      case Okay(n) =>
        && PutsValue(m, i, n.reg[i.a1])
        && (forall k :: 0 <= k < NO_REGS && k != i.a1 ==> n.reg[k] == m.reg[k])
        && n.dmem == m.dmem && n.input == m.input && n.output == m.output
      case ZeroDivide => i.op == DIV && m.reg[i.a3] == 0
      case DmemErr => i.op == LD && !(0 <= i.a2 + m.reg[i.a3] < DADDR_SIZE)
      case _ => false
  {
    var t := m.reg[i.a3];
    match i.op {
      case DIV =>
        if t != 0 {
          DivTruncates(m.reg[i.a2], t);
        }
      case SHL =>
        if t >= 0 {
          DoubledPow(m.reg[i.a1], t, m.reg[i.a1] * Pow2(t));
        }
      case SHR =>
        if t >= 0 {
          HalvedPow(m.reg[i.a1], t, m.reg[i.a1] / Pow2(t));
        }
      case _ =>
    }
    hide TruncDiv, Truncated, Doubled, Halved, Pow2;
  }

  /** The relation that a jump asks its register to have to zero. */
  predicate Asks(op: Op, v: int) {
    match op
    case JLT => v < 0
    case JLE => v < 0 || v == 0
    case JGT => v > 0
    case JGE => v > 0 || v == 0
    case JEQ => v == 0
    case JNE => v < 0 || v > 0
    case _ => false
  }

  /** A jump moves the program counter, to its address, exactly when the register has the relation
      to zero that it asks for, and does nothing else. */
  lemma JumpExact(m: Machine, i: Instr)
    requires GoodInstr(i) && ClassOf(i.op) == RA && !Puts(i.op)
    ensures Execute(m, i).Okay?
    ensures var n := Execute(m, i).m;
      && n.reg[PC] == (if Asks(i.op, m.reg[i.a1]) then i.a2 + m.reg[i.a3] else m.reg[PC])
      && (forall k :: 0 <= k < PC ==> n.reg[k] == m.reg[k])
      && n.dmem == m.dmem && n.input == m.input && n.output == m.output
  {
  }

  /** The other instructions: one value moves, or the machine stops. */
  lemma MoveExact(m: Machine, i: Instr)
    requires GoodInstr(i) && !Puts(i.op) && ClassOf(i.op) != RA
    ensures match Execute(m, i)
      case Halted => i.op == HALT
      case NoInput => i.op == IN && m.input == []
      case DmemErr => i.op == ST && !(0 <= i.a2 + m.reg[i.a3] < DADDR_SIZE)
      case Okay(n) =>
        && (i.op == IN ==> m.input == [n.reg[i.a1]] + n.input && n.dmem == m.dmem && n.output == m.output)
        && (i.op == OUT ==> n.output == m.output + [m.reg[i.a1]] && n.dmem == m.dmem && n.input == m.input)
        && (i.op == ST ==>
             && (forall a :: 0 <= a < DADDR_SIZE ==>
                  n.dmem[a] == if a == i.a2 + m.reg[i.a3] then m.reg[i.a1] else m.dmem[a])
             && n.input == m.input && n.output == m.output)
        && (forall k :: 0 <= k < NO_REGS && (i.op == IN ==> k != i.a1) ==> n.reg[k] == m.reg[k])
      case _ => false
  {
  }

  /** A step takes the instruction under the program counter, which then points behind it; outside the
      1024 locations there is an error, and behind the program a halt. */
  lemma StepExact(imem: Program, m: Machine)
    ensures var pc := m.reg[7];
      && (StepTM(imem, m) == ImemErr <==> pc < 0 || pc >= 1024)
      && (|imem| <= pc < 1024 ==> StepTM(imem, m) == Halted)
      && (0 <= pc < |imem| ==> StepTM(imem, m) == Execute(m.(reg := m.reg[7 := pc + 1]), imem[pc]))
  {
    if 0 <= m.reg[7] < |imem| {
      NoImemErr(m.(reg := m.reg[7 := m.reg[7] + 1]), imem[m.reg[7]]);
      assert SetReg(m, PC, m.reg[7] + 1) == m.(reg := m.reg[7 := m.reg[7] + 1]);
    }
    hide Execute;
  }

  lemma NoImemErr(m: Machine, i: Instr)
    requires GoodInstr(i)
    ensures Execute(m, i) != ImemErr
  {
  }
}
