/** The three-address code shared by every pass, and its meaning as a linear program.

    A symbol is named by its id, a label by its number.  Integers are unbounded.  A division
    by zero and a read from an exhausted input have no successor state: the machine is stuck. */
module Options {
  datatype Option<+T> = None | Some(value: T)
}

module ThreeAddress {
  import opened Options

  type Env = map<nat, int>

  datatype Arg = Sym(id: nat) | Const(val: int)

  datatype BinOp = Eq | Neq | Lt | Gt | Le | Ge | Add | Sub | Mul | Div

  datatype Ins =
    | Bin(op: BinOp, r: nat, a1: Arg, a2: Arg)
    | In(r: nat)
    | Out(a: Arg)
    | Assign(r: nat, a1: Arg)
    | Iff(c: Arg, target: nat)   // "if false goto": falls through when the condition is positive
    | Jmp(target: nat)
    | Label(l: nat)

  datatype State = State(env: Env, input: seq<int>, output: seq<int>)

  datatype Config = Config(pc: nat, st: State)

  /** A symbol that was never written reads as zero. */
  function Get(env: Env, x: nat): int {
    if x in env then env[x] else 0
  }

  function Val(env: Env, a: Arg): int {
    match a
    case Sym(x) => Get(env, x)
    case Const(v) => v
  }

  /** Division as C computes it: the quotient is truncated toward zero. */
  function TruncDiv(a: int, b: int): int
    requires b != 0
  {
    if a >= 0 then a / b else -((-a) / b)
  }

  function Truth(b: bool): int {
    if b then 1 else 0
  }

  function Apply(op: BinOp, x: int, y: int): Option<int> {
    match op
    case Eq => Some(Truth(x == y))
    case Neq => Some(Truth(x != y))
    case Lt => Some(Truth(x < y))
    case Gt => Some(Truth(x > y))
    case Le => Some(Truth(x <= y))
    case Ge => Some(Truth(x >= y))
    case Add => Some(x + y)
    case Sub => Some(x - y)
    case Mul => Some(x * y)
    case Div => if y == 0 then None else Some(TruncDiv(x, y))
  }

  /** What an instruction does to the state, control flow apart. */
  function Effect(i: Ins, s: State): Option<State> {
    match i
    case Bin(op, r, a1, a2) =>
      (match Apply(op, Val(s.env, a1), Val(s.env, a2))
       case None => None
       case Some(v) => Some(s.(env := s.env[r := v])))
    case In(r) =>
      if s.input == [] then None
      else Some(s.(env := s.env[r := s.input[0]], input := s.input[1..]))
    case Out(a) => Some(s.(output := s.output + [Val(s.env, a)]))
    case Assign(r, a1) => Some(s.(env := s.env[r := Val(s.env, a1)]))
    case _ => Some(s)
  }

  function ArgSyms(a: Arg): set<nat> {
    match a
    case Sym(x) => {x}
    case Const(_) => {}
  }

  /** The symbols an instruction reads. */
  function Uses(i: Ins): set<nat> {
    match i
    case Bin(_, _, a1, a2) => ArgSyms(a1) + ArgSyms(a2)
    case Out(a) => ArgSyms(a)
    case Assign(_, a1) => ArgSyms(a1)
    case Iff(c, _) => ArgSyms(c)
    case _ => {}
  }

  /** The symbol an instruction writes. */
  function Defs(i: Ins): set<nat> {
    match i
    case Bin(_, r, _, _) => {r}
    case In(r) => {r}
    case Assign(r, _) => {r}
    case _ => {}
  }

  predicate IsControl(i: Ins) {
    i.Iff? || i.Jmp? || i.Label?
  }

  // ----- linear code -----

  /** The first position of label l. */
  function FindLabel(code: seq<Ins>, l: nat): (p: Option<nat>)
    ensures p.Some? ==> p.value < |code| && code[p.value] == Label(l)
    ensures p.None? ==> forall i :: 0 <= i < |code| ==> code[i] != Label(l)
  {
    if code == [] then None
    else if code[0] == Label(l) then Some(0)
    else
      match FindLabel(code[1..], l)
      case None => None
      case Some(p) => Some(p + 1)
  }

  function Goto(code: seq<Ins>, l: nat, s: State): Option<Config> {
    match FindLabel(code, l)
    case None => None
    case Some(p) => Some(Config(p, s))
  }

  function Next(code: seq<Ins>, c: Config): Option<Config> {
    if c.pc >= |code| then None
    else
      match code[c.pc]
      case Jmp(l) => Goto(code, l, c.st)
      case Iff(a, l) =>
        if Val(c.st.env, a) > 0 then Some(Config(c.pc + 1, c.st)) else Goto(code, l, c.st)
      case i =>
        match Effect(i, c.st)
        case None => None
        case Some(s) => Some(Config(c.pc + 1, s))
  }

  /** The configuration after exactly n steps, if the machine can take that many. */
  function Run(code: seq<Ins>, c: Config, n: nat): Option<Config>
    decreases n
  {
    if n == 0 then Some(c)
    else
      match Next(code, c)
      case None => None
      case Some(c') => Run(code, c', n - 1)
  }

  ghost predicate DistinctLabels(code: seq<Ins>) {
    forall i, j :: 0 <= i < j < |code| && code[i].Label? && code[j].Label? ==> code[i] != code[j]
  }

  lemma RunAdd(code: seq<Ins>, c: Config, m: nat, n: nat)
    ensures Run(code, c, m).Some? ==> Run(code, c, m + n) == Run(code, Run(code, c, m).value, n)
    ensures Run(code, c, m).None? ==> Run(code, c, m + n).None?
    decreases m
  {
    if m != 0 && Next(code, c).Some? {
      RunAdd(code, Next(code, c).value, m - 1, n);
    }
  }

  lemma FindDistinct(code: seq<Ins>, p: nat)
    requires DistinctLabels(code) && p < |code| && code[p].Label?
    ensures FindLabel(code, code[p].l) == Some(p)
  {
    var q := FindLabel(code, code[p].l);
    assert code[p] == Label(code[p].l);
  }
}
