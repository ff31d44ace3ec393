/** The text of the emitted code, and the loader of the TINY machine that reads it back. */
module Assembler {
  import opened Options
  import opened Tm

  // ----- printing -----

  function DigitChar(d: nat): char
    requires d < 10
  {
    "0123456789"[d]
  }

  function Digits(n: nat): (s: string)
    ensures s != ""
  {
    (if n < 10 then "" else Digits(n / 10)) + [DigitChar(n % 10)]
  }

  /** %d */
  function Decimal(n: int): (s: string)
    ensures s != ""
  {
    if n < 0 then "-" + Digits(-n) else Digits(n)
  }

  function Blanks(n: nat): string {
    if n == 0 then "" else " " + Blanks(n - 1)
  }

  function PadLeft(s: string, width: nat): string {
    Blanks(if |s| < width then width - |s| else 0) + s
  }

  const INS_COUNT := 21

  /** The names that the generator prints, in the order of its own enumeration of the instructions. */
  function InsName(k: nat): string
    requires k < INS_COUNT
  {
    match k
    case 0 => "HALT" case 1 => "IN" case 2 => "OUT" case 3 => "ADD" case 4 => "INC" case 5 => "DEC" case 6 => "SHR"
    case 7 => "SHL" case 8 => "SUB" case 9 => "MUL" case 10 => "DIV" case 11 => "LD" case 12 => "ST" case 13 => "LDA"
    case 14 => "LDC" case 15 => "JLT" case 16 => "JLE" case 17 => "JGT" case 18 => "JGE" case 19 => "JEQ" case _ => "JNE"
  }

  /** The number of an instruction in the enumeration of the generator. */
  function InsNumber(op: Op): (k: nat)
    ensures k < INS_COUNT
  {
    match op
    case HALT => 0 case IN => 1 case OUT => 2 case ADD => 3 case INC => 4 case DEC => 5 case SHR => 6 case SHL => 7
    case SUB => 8 case MUL => 9 case DIV => 10 case LD => 11 case ST => 12
    case LDA => 13 case LDC => 14 case JLT => 15 case JLE => 16 case JGT => 17 case JGE => 18 case JEQ => 19 case JNE => 20
  }

  function Name(op: Op): string {
    InsName(InsNumber(op))
  }

  function Operands(i: Instr): string {
    Decimal(i.a1) + ("," + (Decimal(i.a2) + ("," + (Decimal(i.a3) + " "))))
  }

  /** The line that write_file prints for an instruction, without the newline. */
  function WriteLine(loc: nat, i: Instr): string {
    PadLeft(Decimal(loc), 3) + (":" + ("  " + (PadLeft(Name(i.op), 5) + ("  " + Operands(i)))))
  }

  // ----- scanning: each function takes the rest of the line and returns what is left of it -----

  predicate IsDigit(c: char) {
    '0' <= c <= '9'
  }

  predicate IsAlnum(c: char) {
    IsDigit(c) || 'A' <= c <= 'Z' || 'a' <= c <= 'z'
  }

  predicate IsSign(s: string) {
    s != "" && (s[0] == '+' || s[0] == '-')
  }

  /** nonBlank */
  function Skip(s: string): (t: string)
    ensures |t| <= |s| && (t != "" ==> t[0] != ' ')
    ensures s != "" && s[0] != ' ' ==> t == s
  {
    if s != "" && s[0] == ' ' then Skip(s[1..]) else s
  }

  datatype Signed = Signed(sign: int, seen: bool, rest: string)

  /** The signs in front of a number; two minus signs cancel. */
  function Signs(s: string, sign: int, seen: bool): (r: Signed)
    ensures |r.rest| <= |s| && !IsSign(r.rest) && Skip(r.rest) == r.rest
    decreases |s|
  {
    var t := Skip(s);
    if IsSign(t) then Signs(t[1..], if t[0] == '-' then -sign else sign, true) else Signed(sign, seen, t)
  }

  datatype Term = Term(val: int, rest: string)

  function TakeDigits(s: string, val: int): (r: Term)
    ensures |r.rest| <= |s| && (r.rest == s <==> s == "" || !IsDigit(s[0]))
  {
    if s != "" && IsDigit(s[0]) then TakeDigits(s[1..], val * 10 + (s[0] as int - '0' as int)) else Term(val, s)
  }

  datatype Num = Num(ok: bool, num: int, rest: string)

  /** getNum: a sum of signed terms; ok says whether the last thing read was a digit. */
  function GetNum(s: string, num: int, ok: bool): (r: Num)
    ensures |r.rest| <= |s|
    decreases |s|
  {
    var a := Signs(s, 1, false);
    var t := TakeDigits(a.rest, 0);
    var read := t.rest != a.rest;
    var sum := num + t.val * a.sign;
    var u := Skip(t.rest);
    if IsSign(u) then GetNum(u, sum, read || (ok && !a.seen)) else Num(read || (ok && !a.seen), sum, u)
  }

  const WORDSIZE := 20

  datatype Word = Word(word: string, rest: string)

  function TakeWord(s: string, word: string): (r: Word)
    ensures |r.rest| <= |s|
  {
    if s != "" && IsAlnum(s[0]) then TakeWord(s[1..], if |word| < WORDSIZE - 1 then word + [s[0]] else word) else Word(word, s)
  }

  /** getWord; none if there is no letter or digit. */
  function GetWord(s: string): Option<Word> {
    var t := Skip(s);
    if t == "" then None
    else
      var w := TakeWord(t, "");
      if w.word == "" then None else Some(w)
  }

  /** skipCh; none if the next character is another one. */
  function SkipCh(s: string, c: char): Option<string> {
    var t := Skip(s);
    if t != "" && t[0] == c then Some(t[1..]) else None
  }

  // ----- loading a line -----

  const RRLIM := 11
  const RMLIM := 14
  const RALIM := 23

  /** The names that the loader knows, in the order of its enumeration of the opcodes; each class is
      followed by a limit, which is no opcode. */
  function OpCodeTab(k: nat): string
    requires k <= RALIM + 1
  {
    match k
    case 0 => "HALT" case 1 => "IN" case 2 => "OUT" case 3 => "ADD" case 4 => "SUB" case 5 => "MUL" case 6 => "DIV"
    case 7 => "INC" case 8 => "DEC" case 9 => "SHL" case 10 => "SHR" case 11 => "?RR" case 12 => "LD" case 13 => "ST"
    case 14 => "?RM" case 15 => "LDA" case 16 => "LDC" case 17 => "JLT" case 18 => "JLE" case 19 => "JGT" case 20 => "JGE"
    case 21 => "JEQ" case 22 => "JNE" case 23 => "?RA" case _ => "?ALL"
  }

  /** The enumeration of the opcodes; the limits are none. */
  function OpCode(k: nat): Option<Op>
    requires k <= RALIM
  {
    match k
    case 0 => Some(HALT) case 1 => Some(IN) case 2 => Some(OUT) case 3 => Some(ADD) case 4 => Some(SUB) case 5 => Some(MUL)
    case 6 => Some(DIV) case 7 => Some(INC) case 8 => Some(DEC) case 9 => Some(SHL) case 10 => Some(SHR) case 11 => None
    case 12 => Some(LD) case 13 => Some(ST) case 14 => None case 15 => Some(LDA) case 16 => Some(LDC) case 17 => Some(JLT)
    case 18 => Some(JLE) case 19 => Some(JGT) case 20 => Some(JGE) case 21 => Some(JEQ) case 22 => Some(JNE) case _ => None
  }

  /** strncmp(name, word, 4) == 0, for a name of at most four characters. */
  predicate SameFour(name: string, word: string) {
    name == if |word| <= 4 then word else word[..4]
  }

  /** The number of the first opcode from k on that has the name. */
  function FindOp(word: string, k: nat): (op: Option<nat>)
    requires k <= RALIM
    ensures op.Some? ==> k <= op.value <= RALIM
    decreases RALIM - k
  {
    if SameFour(OpCodeTab(k), word) then Some(k)
    else if k == RALIM then None
    else FindOp(word, k + 1)
  }

  datatype Line =
    | Blank
    | BadLocation | LocationTooLarge(loc: int) | MissingColon | MissingOpcode | IllegalOpcode
    | BadRegister(k: nat) | MissingComma(k: nat) | BadDisplacement | MissingParen
    | Loaded(loc: int, instr: Instr)

  function ReadRegister(s: string): Option<(int, string)> {
    var n := GetNum(s, 0, false);
    if !n.ok || n.num < 0 || n.num >= NO_REGS then None else Some((n.num, n.rest))
  }

  /** The operands of a register instruction. */
  function ReadRR(loc: int, op: Op, s: string): Line {
    match ReadRegister(s)
    case None => BadRegister(1)
    case Some((a1, t)) =>
      match SkipCh(t, ',')
      case None => MissingComma(1)
      case Some(u) =>
        match ReadRegister(u)
        case None => BadRegister(2)
        case Some((a2, v)) =>
          match SkipCh(v, ',')
          case None => MissingComma(2)
          case Some(w) =>
            match ReadRegister(w)
            case None => BadRegister(3)
            case Some((a3, _)) => Loaded(loc, Instr(op, a1, a2, a3))
  }

  /** The operands of the other instructions: a displacement in the middle. */
  function ReadRM(loc: int, op: Op, s: string): Line {
    match ReadRegister(s)
    case None => BadRegister(1)
    case Some((a1, t)) =>
      match SkipCh(t, ',')
      case None => MissingComma(1)
      case Some(u) =>
        var d := GetNum(u, 0, false);
        if !d.ok then BadDisplacement
        else
          match (if SkipCh(d.rest, '(').Some? then SkipCh(d.rest, '(') else SkipCh(d.rest, ','))
          case None => MissingParen
          case Some(w) =>
            match ReadRegister(w)
            case None => BadRegister(2)
            case Some((a3, _)) => Loaded(loc, Instr(op, a1, d.num, a3))
  }

  function ReadOperands(loc: int, s: string): Line {
    match GetWord(s)
    case None => MissingOpcode
    case Some(w) =>
      match FindOp(w.word, 0)
      case None => IllegalOpcode
      case Some(k) =>
        match OpCode(k)
        case None => IllegalOpcode
        case Some(op) => if k <= RRLIM then ReadRR(loc, op, w.rest) else ReadRM(loc, op, w.rest)
  }

  /** One line of the program text, as readInstructions takes it apart. */
  function ReadLine(line: string): Line {
    var s := Skip(line);
    if s == "" || s[0] == '*' then Blank
    else
      var n := GetNum(s, 0, false);
      if !n.ok then BadLocation
      else if n.num > IADDR_SIZE then LocationTooLarge(n.num)
      else
        match SkipCh(n.rest, ':')
        case None => MissingColon
        case Some(t) => ReadOperands(n.num, t)
  }

  // ----- a printed number is read back -----

  ghost predicate AllDigits(s: string) {
    forall k :: 0 <= k < |s| ==> IsDigit(s[k])
  }

  function Value(s: string, val: int): int
  {
    if s == "" then val else Value(s[1..], val * 10 + (s[0] as int - '0' as int))
  }

  lemma {:induction false} ValueLast(s: string, c: char, val: int)
    ensures Value(s + [c], val) == Value(s, val) * 10 + (c as int - '0' as int)
  {
    if s == "" {
      assert (s + [c])[1..] == "";
    } else {
      assert (s + [c])[1..] == s[1..] + [c];
      ValueLast(s[1..], c, val * 10 + (s[0] as int - '0' as int));
    }
  }

  lemma DigitValue(d: nat)
    requires d < 10
    ensures IsDigit(DigitChar(d)) && DigitChar(d) as int - '0' as int == d
  {
  }

  lemma {:induction false} DigitsValue(n: nat)
    ensures AllDigits(Digits(n)) && Value(Digits(n), 0) == n
  {
    DigitValue(n % 10);
    var front := if n < 10 then "" else Digits(n / 10);
    if n >= 10 {
      DigitsValue(n / 10);
    }
    ValueLast(front, DigitChar(n % 10), 0);
  }

  lemma {:induction false} TakesAll(a: string, b: string, val: int)
    requires AllDigits(a) && (b == "" || !IsDigit(b[0]))
    ensures TakeDigits(a + b, val) == Term(Value(a, val), b)
  {
    if a == "" {
      assert a + b == b;
    } else {
      assert (a + b)[1..] == a[1..] + b;
      TakesAll(a[1..], b, val * 10 + (a[0] as int - '0' as int));
    }
  }

  /** A number cannot go on with this text. */
  predicate Stops(s: string) {
    (s == "" || !IsDigit(s[0])) && !IsSign(Skip(s))
  }

  lemma NoSigns(s: string, sign: int, seen: bool)
    requires s != "" && IsDigit(s[0])
    ensures Signs(s, sign, seen) == Signed(sign, seen, s)
  {
    assert Skip(s) == s;
  }

  lemma OneMinus(s: string)
    requires s != "" && IsDigit(s[0])
    ensures Signs("-" + s, 1, false) == Signed(-1, true, s)
  {
    var t := "-" + s;
    assert t[0] == '-' && t[1..] == s && Skip(t) == t;
    NoSigns(s, -1, true);
    hide Skip;
  }

  lemma SignsOf(n: int, rest: string)
    ensures Signs(Decimal(n) + rest, 1, false)
         == if n < 0 then Signed(-1, true, Digits(-n) + rest) else Signed(1, false, Digits(n) + rest)
  {
    var d := Digits(if n < 0 then -n else n);
    DigitsValue(if n < 0 then -n else n);
    assert IsDigit(d[0]) && (d + rest)[0] == d[0];
    hide Digits, Signs;
    if n < 0 {
      assert Decimal(n) + rest == "-" + (d + rest);
      OneMinus(d + rest);
    } else {
      NoSigns(d + rest, 1, false);
    }
  }

  lemma NumberRead(n: int, rest: string)
    requires Stops(rest)
    ensures GetNum(Decimal(n) + rest, 0, false) == Num(true, n, Skip(rest))
  {
    var m: nat := if n < 0 then -n else n;
    SignsOf(n, rest);
    DigitsValue(m);
    TakesAll(Digits(m), rest, 0);
    assert Digits(m) + rest != rest;
    hide Digits, Decimal, Signs, TakeDigits, Value, AllDigits;
  }

  lemma {:induction false} SkipBlanks(n: nat, s: string)
    ensures Skip(Blanks(n) + s) == Skip(s)
  {
    if n == 0 {
      assert Blanks(0) + s == s;
    } else {
      assert (Blanks(n) + s)[0] == ' ' && (Blanks(n) + s)[1..] == Blanks(n - 1) + s;
      SkipBlanks(n - 1, s);
    }
  }

  lemma SignsSkip(s: string)
    ensures GetNum(Skip(s), 0, false) == GetNum(s, 0, false)
  {
    assert Skip(Skip(s)) == Skip(s);
    assert Signs(Skip(s), 1, false) == Signs(s, 1, false);
    hide Signs, Skip;
  }

  /** A number behind blanks. */
  lemma PaddedNumberRead(n: int, k: nat, rest: string)
    requires Stops(rest)
    ensures GetNum(Blanks(k) + (Decimal(n) + rest), 0, false) == Num(true, n, Skip(rest))
  {
    SkipBlanks(k, Decimal(n) + rest);
    SignsSkip(Blanks(k) + (Decimal(n) + rest));
    SignsSkip(Decimal(n) + rest);
    NumberRead(n, rest);
    hide GetNum, Skip, Stops;
  }

  lemma {:induction false} TakesName(a: string, b: string, word: string)
    requires (forall k :: 0 <= k < |a| ==> IsAlnum(a[k])) && (b == "" || !IsAlnum(b[0]))
    requires |word| + |a| < WORDSIZE
    ensures TakeWord(a + b, word) == Word(word + a, b)
  {
    if a == "" {
      assert a + b == b && word + a == word;
    } else {
      assert (a + b)[1..] == a[1..] + b && word + [a[0]] + a[1..] == word + a;
      TakesName(a[1..], b, word + [a[0]]);
    }
  }

  lemma NameChars(op: Op)
    ensures 0 < |Name(op)| <= 4 && forall k :: 0 <= k < |Name(op)| ==> IsAlnum(Name(op)[k]) && Name(op)[k] != ' '
  {
  }

  lemma WordRead(op: Op, k: nat, rest: string)
    requires rest == "" || !IsAlnum(rest[0])
    ensures GetWord(Blanks(k) + (Name(op) + rest)) == Some(Word(Name(op), rest))
  {
    NameChars(op);
    SkipBlanks(k, Name(op) + rest);
    assert (Name(op) + rest)[0] == Name(op)[0];
    assert Skip(Name(op) + rest) == Name(op) + rest;
    TakesName(Name(op), rest, "");
    assert "" + Name(op) == Name(op);
    hide Name, Skip, TakeWord, Blanks;
  }

  /** What is printed for each instruction. */
  lemma PrintedNames()
    ensures Name(HALT) == "HALT" && Name(IN) == "IN" && Name(OUT) == "OUT"
    ensures Name(ADD) == "ADD" && Name(SUB) == "SUB" && Name(MUL) == "MUL" && Name(DIV) == "DIV"
    ensures Name(INC) == "INC" && Name(DEC) == "DEC" && Name(SHL) == "SHL" && Name(SHR) == "SHR"
    ensures Name(LD) == "LD" && Name(ST) == "ST" && Name(LDA) == "LDA" && Name(LDC) == "LDC"
    ensures Name(JLT) == "JLT" && Name(JLE) == "JLE" && Name(JGT) == "JGT" && Name(JGE) == "JGE"
    ensures Name(JEQ) == "JEQ" && Name(JNE) == "JNE"
  {
  }

  /** The number of an opcode in the enumeration of the loader. */
  function OpNumber(op: Op): (k: nat)
    ensures k < RALIM && OpCode(k) == Some(op)
  {
    match op
    case HALT => 0 case IN => 1 case OUT => 2 case ADD => 3 case SUB => 4 case MUL => 5 case DIV => 6
    case INC => 7 case DEC => 8 case SHL => 9 case SHR => 10 case LD => 12 case ST => 13 case LDA => 15
    case LDC => 16 case JLT => 17 case JLE => 18 case JGT => 19 case JGE => 20 case JEQ => 21 case JNE => 22
  }

  /** The classes of the machine are the ranges between the limits of the loader. */
  lemma ClassByNumber(op: Op)
    ensures ClassOf(op) == if OpNumber(op) <= RRLIM then RR else if OpNumber(op) <= RMLIM then RM else RA
  {
  }

  /** The generator and the loader agree on the name of every instruction, though not on its number. */
  lemma TablesAgree(op: Op)
    ensures OpCodeTab(OpNumber(op)) == Name(op)
  {
  }

  /** No name comes twice. */
  lemma NamesDistinct(i: nat, j: nat)
    requires i < j <= RALIM
    ensures OpCodeTab(i) != OpCodeTab(j)
  {
    match i
    case 0 => case 1 => case 2 => case 3 => case 4 => case 5 => case 6 => case 7 => case 8 => case 9 => case 10 =>
    case 11 => case 12 => case 13 => case 14 => case 15 => case 16 => case 17 => case 18 => case 19 => case 20 =>
    case 21 => case _ =>
  }

  /** The search finds exactly the name that agrees with the word in the first four characters. */
  lemma {:induction false} FindOpExact(word: string, k: nat, j: nat)
    requires k <= j <= RALIM
    ensures FindOp(word, k) == Some(j) <==> SameFour(OpCodeTab(j), word)
    decreases RALIM - k
  {
    hide OpCodeTab;
    if k < j {
      NamesDistinct(k, j);
      FindOpExact(word, k + 1, j);
    }
  }

  /** The character at a position of a string in C. */
  function CharAt(s: string, k: nat): char {
    if k < |s| then s[k] else '\0'
  }

  /** The comparison looks at four characters, the end of the string included. */
  lemma FourCompared(name: string, word: string)
    requires |name| <= 4 && '\0' !in name && '\0' !in word
    ensures SameFour(name, word) <==> forall k: nat :: k < 4 ==> CharAt(name, k) == CharAt(word, k)
  {
    if forall k: nat :: k < 4 ==> CharAt(name, k) == CharAt(word, k) {
      var w := if |word| <= 4 then word else word[..4];
      assert |name| < 4 ==> CharAt(word, |name|) == '\0';
      assert |w| < 4 ==> CharAt(name, |w|) == '\0';
      assert |name| == |w|;
      forall k | 0 <= k < |name| ensures name[k] == w[k] {
        assert CharAt(name, k) == CharAt(word, k);
      }
    }
  }

  /** A printed name is found again, as the opcode that it was printed for. */
  lemma NameFound(op: Op)
    ensures FindOp(Name(op), 0) == Some(OpNumber(op))
  {
    TablesAgree(op);
    NameChars(op);
    FindOpExact(Name(op), 0, OpNumber(op));
    hide Name, OpCodeTab, FindOp;
  }

  lemma {:induction false} TakesAlnum(s: string, word: string)
    requires forall k :: 0 <= k < |word| ==> IsAlnum(word[k])
    ensures forall k :: 0 <= k < |TakeWord(s, word).word| ==> IsAlnum(TakeWord(s, word).word[k])
    decreases s
  {
    if s != "" && IsAlnum(s[0]) {
      TakesAlnum(s[1..], if |word| < WORDSIZE - 1 then word + [s[0]] else word);
    }
  }

  /** A word in the text is never taken for one of the limits. */
  lemma LimitsNotRead(s: string)
    ensures match GetWord(s)
      case None => true
      case Some(w) => FindOp(w.word, 0).Some? ==> OpCode(FindOp(w.word, 0).value).Some?
  {
    if GetWord(s).Some? {
      var w := GetWord(s).value.word;
      TakesAlnum(Skip(s), "");
      assert IsAlnum(w[0]);
      assert !IsAlnum('?');
      NoLimit(w, RRLIM);
      NoLimit(w, RMLIM);
      NoLimit(w, RALIM);
      hide GetWord, FindOp, IsAlnum;
    }
  }

  lemma LimitMark(k: nat)
    requires k == RRLIM || k == RMLIM || k == RALIM
    ensures OpCodeTab(k) != "" && OpCodeTab(k)[0] == '?'
  {
  }

  lemma NoLimit(w: string, k: nat)
    requires w != "" && w[0] != '?' && (k == RRLIM || k == RMLIM || k == RALIM)
    ensures FindOp(w, 0) != Some(k)
  {
    FindOpExact(w, 0, k);
    LimitMark(k);
    hide FindOp, OpCodeTab;
  }

  // ----- a printed line is read back -----

  lemma RegisterRead(n: int, k: nat, rest: string)
    requires Stops(rest)
    ensures ReadRegister(Blanks(k) + (Decimal(n) + rest)) == if IsReg(n) then Some((n, Skip(rest))) else None
  {
    PaddedNumberRead(n, k, rest);
    hide GetNum, Decimal, Blanks, Skip, Stops;
  }

  lemma PlainRegisterRead(n: int, rest: string)
    requires Stops(rest)
    ensures ReadRegister(Decimal(n) + rest) == if IsReg(n) then Some((n, Skip(rest))) else None
  {
    RegisterRead(n, 0, rest);
    assert Blanks(0) + (Decimal(n) + rest) == Decimal(n) + rest;
    hide ReadRegister, Decimal, Skip;
  }

  /** A separator stops a number and is then skipped. */
  lemma Separator(c: char, rest: string)
    requires c == ',' || c == ':'
    ensures Stops([c] + rest) && Skip([c] + rest) == [c] + rest && SkipCh([c] + rest, c) == Some(rest)
    ensures c == ',' ==> SkipCh([c] + rest, '(') == None
  {
    assert ([c] + rest)[0] == c && ([c] + rest)[1..] == rest;
  }

  lemma EndStops()
    ensures Stops(" ") && Skip(" ") == ""
  {
    assert " "[1..] == "";
  }

  /** What the loader makes of the printed operands: the instruction, or the first register
      operand that is out of range. */
  function Outcome(loc: int, i: Instr): Line {
    if !IsReg(i.a1) then BadRegister(1)
    else if ClassOf(i.op) == RR && !IsReg(i.a2) then BadRegister(2)
    else if !IsReg(i.a3) then BadRegister(if ClassOf(i.op) == RR then 3 else 2)
    else Loaded(loc, i)
  }

  lemma RRRead(loc: int, i: Instr)
    requires ClassOf(i.op) == RR
    ensures ReadRR(loc, i.op, "  " + Operands(i)) == Outcome(loc, i)
  {
    var c := Decimal(i.a3) + " ";
    var b := Decimal(i.a2) + ("," + c);
    assert Operands(i) == Decimal(i.a1) + ("," + b);
    assert Blanks(2) == "  ";
    Separator(',', b);
    Separator(',', c);
    EndStops();
    hide Decimal, Skip, SkipCh, ReadRegister, Stops, Operands;
    RegisterRead(i.a1, 2, "," + b);
    PlainRegisterRead(i.a2, "," + c);
    PlainRegisterRead(i.a3, " ");
  }

  lemma RMRead(loc: int, i: Instr)
    requires ClassOf(i.op) != RR
    ensures ReadRM(loc, i.op, "  " + Operands(i)) == Outcome(loc, i)
  {
    var c := Decimal(i.a3) + " ";
    var b := Decimal(i.a2) + ("," + c);
    assert Operands(i) == Decimal(i.a1) + ("," + b);
    assert Blanks(2) == "  ";
    Separator(',', b);
    Separator(',', c);
    EndStops();
    hide Decimal, Skip, SkipCh, ReadRegister, Stops, Operands, GetNum;
    RegisterRead(i.a1, 2, "," + b);
    NumberRead(i.a2, "," + c);
    PlainRegisterRead(i.a3, " ");
  }

  /** Two blanks and the padded name are some blanks and the name. */
  lemma NamePadded(op: Op, rest: string) returns (k: nat)
    ensures "  " + (PadLeft(Name(op), 5) + rest) == Blanks(k) + (Name(op) + rest)
  {
    NameChars(op);
    var pad := 5 - |Name(op)|;
    k := 2 + pad;
    BlanksAdd(2, pad);
    assert Blanks(2) == "  ";
    assert PadLeft(Name(op), 5) == Blanks(pad) + Name(op);
    hide *;
    Regroup("  ", Blanks(pad), Name(op), rest);
  }

  lemma Regroup(a: string, b: string, c: string, d: string)
    ensures a + ((b + c) + d) == (a + b) + (c + d)
  {
  }

  lemma OperandsRead(loc: int, i: Instr)
    ensures ReadOperands(loc, "  " + (PadLeft(Name(i.op), 5) + ("  " + Operands(i)))) == Outcome(loc, i)
  {
    var rest := "  " + Operands(i);
    var k := NamePadded(i.op, rest);
    assert rest[0] == ' ' && !IsAlnum(' ');
    hide Blanks, Name, Operands, PadLeft, GetWord, FindOp, ReadRR, ReadRM, Outcome, IsAlnum;
    WordRead(i.op, k, rest);
    NameFound(i.op);
    ClassByNumber(i.op);
    if ClassOf(i.op) == RR {
      RRRead(loc, i);
    } else {
      RMRead(loc, i);
    }
  }

  lemma {:induction false} BlanksAdd(a: nat, b: nat)
    ensures Blanks(a + b) == Blanks(a) + Blanks(b)
  {
    if a > 0 {
      BlanksAdd(a - 1, b);
    }
  }

  /** The location in front of a line. */
  lemma LocationRead(loc: nat, rest: string)
    ensures var line := PadLeft(Decimal(loc), 3) + (":" + rest); var s := Skip(line);
      && s != "" && IsDigit(s[0])
      && GetNum(s, 0, false) == Num(true, loc, ":" + rest)
  {
    var k := if |Decimal(loc)| < 3 then 3 - |Decimal(loc)| else 0;
    var tail := ":" + rest;
    assert PadLeft(Decimal(loc), 3) + tail == Blanks(k) + (Decimal(loc) + tail);
    SkipBlanks(k, Decimal(loc) + tail);
    FirstDigit(loc, tail);
    Separator(':', rest);
    NumberRead(loc, tail);
    hide Blanks, Decimal, PadLeft, GetNum, Stops, Skip;
  }

  /** Loading a printed line gives back the location and the instruction, whatever the displacement,
      unless the location or a register is out of range, which the loader reports. */
  lemma RoundTrip(loc: nat, i: Instr)
    ensures ReadLine(WriteLine(loc, i)) == if loc > IADDR_SIZE then LocationTooLarge(loc) else Outcome(loc, i)
  {
    var rest := "  " + (PadLeft(Name(i.op), 5) + ("  " + Operands(i)));
    assert WriteLine(loc, i) == PadLeft(Decimal(loc), 3) + (":" + rest);
    assert !IsDigit('*');
    hide Decimal, PadLeft, Name, Operands, GetNum, Skip, SkipCh, ReadOperands, WriteLine, Stops, Outcome;
    LocationRead(loc, rest);
    Separator(':', rest);
    OperandsRead(loc, i);
  }

  lemma FirstDigit(n: nat, rest: string)
    ensures var s := Decimal(n) + rest; s != "" && IsDigit(s[0]) && Skip(s) == s
  {
    DigitsValue(n);
    assert (Decimal(n) + rest)[0] == Digits(n)[0];
  }

  lemma RoundTripGood(loc: nat, i: Instr)
    requires loc <= IADDR_SIZE
    ensures ReadLine(WriteLine(loc, i)) == Loaded(loc, i) <==> GoodInstr(i)
  {
    RoundTrip(loc, i);
    hide ReadLine, WriteLine;
  }
}
