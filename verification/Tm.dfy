/** Louden's TINY machine, the target of the compiler. */
module Tm {
  import opened ThreeAddress

  const IADDR_SIZE := 1024
  const DADDR_SIZE := 1024
  const NO_REGS := 8
  const GP := 6
  const PC := 7

  datatype Op =
    | HALT | IN | OUT | ADD | SUB | MUL | DIV | INC | DEC | SHL | SHR
    | LD | ST
    | LDA | LDC | JLT | JLE | JGT | JGE | JEQ | JNE

  datatype OpClass = RR | RM | RA

  function ClassOf(op: Op): OpClass {
    if op.LD? || op.ST? then RM
    else if op.LDA? || op.LDC? || op.JLT? || op.JLE? || op.JGT? || op.JGE? || op.JEQ? || op.JNE? then RA
    else RR
  }

  datatype Instr = Instr(op: Op, a1: int, a2: int, a3: int)

  predicate IsReg(r: int) {
    0 <= r < NO_REGS
  }

  /** What the loader accepts: register numbers in range; a2 is a displacement in the RM and RA classes. */
  predicate GoodInstr(i: Instr) {
    IsReg(i.a1) && IsReg(i.a3) && (ClassOf(i.op) == RR ==> IsReg(i.a2))
  }

  type Regs = s: seq<int> | |s| == NO_REGS witness [0, 0, 0, 0, 0, 0, 0, 0]

  type Memory = s: seq<int> | |s| == DADDR_SIZE witness seq(DADDR_SIZE, _ => 0)

  datatype Machine = Machine(reg: Regs, dmem: Memory, input: seq<int>, output: seq<int>)

  datatype StepResult = Okay(m: Machine) | Halted | ImemErr | DmemErr | ZeroDivide | NoInput

  function Pow2(n: nat): (p: nat)
    ensures p > 0
  {
    if n == 0 then 1 else 2 * Pow2(n - 1)
  }

  function SetReg(m: Machine, r: int, v: int): (n: Machine)
    requires IsReg(r)
    ensures n.reg[r] == v && forall k :: 0 <= k < NO_REGS && k != r ==> n.reg[k] == m.reg[k]
    ensures n.dmem == m.dmem && n.input == m.input && n.output == m.output
  {
    m.(reg := m.reg[r := v])
  }

  /** The address that an RM or RA instruction computes. */
  function Address(m: Machine, i: Instr): int
    requires GoodInstr(i)
  {
    i.a2 + m.reg[i.a3]
  }

  function JumpIf(m: Machine, b: bool, a: int): Machine {
    if b then SetReg(m, PC, a) else m
  }

  /** What an instruction does once the program counter has moved on. */
  function Execute(m: Machine, i: Instr): StepResult
    requires GoodInstr(i)
  {
    if ClassOf(i.op) == RM && !(0 <= Address(m, i) < DADDR_SIZE) then DmemErr
    else
      match i.op
      case HALT => Halted
      case IN => if m.input == [] then NoInput else Okay(SetReg(m, i.a1, m.input[0]).(input := m.input[1..]))
      case OUT => Okay(m.(output := m.output + [m.reg[i.a1]]))
      case ADD => Okay(SetReg(m, i.a1, m.reg[i.a2] + m.reg[i.a3]))
      case SUB => Okay(SetReg(m, i.a1, m.reg[i.a2] - m.reg[i.a3]))
      case MUL => Okay(SetReg(m, i.a1, m.reg[i.a2] * m.reg[i.a3]))
      case DIV => if m.reg[i.a3] == 0 then ZeroDivide else Okay(SetReg(m, i.a1, TruncDiv(m.reg[i.a2], m.reg[i.a3])))
      case INC => Okay(SetReg(m, i.a1, m.reg[i.a1] + 1))
      case DEC => Okay(SetReg(m, i.a1, m.reg[i.a1] - 1))
      case SHL => Okay(if m.reg[i.a3] < 0 then m else SetReg(m, i.a1, m.reg[i.a1] * Pow2(m.reg[i.a3])))
      case SHR => Okay(if m.reg[i.a3] < 0 then m else SetReg(m, i.a1, m.reg[i.a1] / Pow2(m.reg[i.a3])))
      case LD => Okay(SetReg(m, i.a1, m.dmem[Address(m, i)]))
      case ST => Okay(m.(dmem := m.dmem[Address(m, i) := m.reg[i.a1]]))
      case LDA => Okay(SetReg(m, i.a1, Address(m, i)))
      case LDC => Okay(SetReg(m, i.a1, i.a2))
      case JLT => Okay(JumpIf(m, m.reg[i.a1] < 0, Address(m, i)))
      case JLE => Okay(JumpIf(m, m.reg[i.a1] <= 0, Address(m, i)))
      case JGT => Okay(JumpIf(m, m.reg[i.a1] > 0, Address(m, i)))
      case JGE => Okay(JumpIf(m, m.reg[i.a1] >= 0, Address(m, i)))
      case JEQ => Okay(JumpIf(m, m.reg[i.a1] == 0, Address(m, i)))
      case JNE => Okay(JumpIf(m, m.reg[i.a1] != 0, Address(m, i)))
  }

  type Program = s: seq<Instr> | |s| <= IADDR_SIZE && forall k :: 0 <= k < |s| ==> GoodInstr(s[k]) witness []

  /** stepTM: instruction memory beyond the program holds HALT. */
  function StepTM(imem: Program, m: Machine): StepResult {
    var pc := m.reg[PC];
    if pc < 0 || pc >= IADDR_SIZE then ImemErr
    else if pc >= |imem| then Halted
    else Execute(SetReg(m, PC, pc + 1), imem[pc])
  }
}
