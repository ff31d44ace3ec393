/** Loading a whole program, and the scanner as the machine runs it: a cursor over the line. */
module Loader {
  import opened Options
  import opened Tm
  import opened Assembler

  // ----- whole programs -----

  /** The text of a program, line by line. */
  function WriteAll(code: seq<Instr>): seq<string> {
    seq(|code|, k requires 0 <= k < |code| => WriteLine(k, code[k]))
  }

  function Halts(n: nat): (s: seq<Instr>)
    ensures |s| == n && forall k :: 0 <= k < n ==> s[k] == Instr(HALT, 0, 0, 0)
  {
    if n == 0 then [] else Halts(n - 1) + [Instr(HALT, 0, 0, 0)]
  }

  /** Instruction memory after the first k lines; None where the loader gives up. */
  function LoadTo(lines: seq<string>, k: nat): (r: Option<seq<Instr>>)
    requires k <= |lines|
    ensures r.Some? ==> |r.value| == IADDR_SIZE
  {
    if k == 0 then Some(Halts(IADDR_SIZE))
    else
      match LoadTo(lines, k - 1)
      case None => None
      case Some(mem) =>
        match ReadLine(lines[k - 1])
        case Blank => Some(mem)
        case Loaded(loc, i) => if 0 <= loc < IADDR_SIZE then Some(mem[loc := i]) else None
        case _ => None
  }

  lemma HaltsNext(code: seq<Instr>, k: nat)
    requires k < |code| <= IADDR_SIZE
    ensures (code[..k] + Halts(IADDR_SIZE - k))[k := code[k]] == code[..k + 1] + Halts(IADDR_SIZE - (k + 1))
  {
  }

  lemma LoadStep(code: Program, k: nat)
    requires k < |code|
    ensures ReadLine(WriteAll(code)[k]) == Loaded(k, code[k])
  {
    assert GoodInstr(code[k]);
    assert WriteAll(code)[k] == WriteLine(k, code[k]) by { hide WriteLine; }
    hide *;
    RoundTripGood(k, code[k]);
  }

  lemma {:induction false} LoadWrittenTo(code: Program, k: nat)
    requires k <= |code|
    ensures LoadTo(WriteAll(code), k) == Some(code[..k] + Halts(IADDR_SIZE - k))
  {
    hide ReadLine, WriteAll, Halts;
    if k > 0 {
      LoadWrittenTo(code, k - 1);
      LoadStep(code, k - 1);
      HaltsNext(code, k - 1);
    } else {
      assert code[..0] + Halts(IADDR_SIZE) == Halts(IADDR_SIZE);
    }
  }

  /** A program that is written and loaded is in instruction memory as it was emitted. */
  lemma LoadWritten(code: Program)
    ensures LoadTo(WriteAll(code), |code|) == Some(code + Halts(IADDR_SIZE - |code|))
  {
    LoadWrittenTo(code, |code|);
    assert code[..|code|] == code;
  }

  // ----- the scanner -----

  class Scanner {
    const inLine: string
    const lineLen: nat
    var inCol: nat
    var ch: char
    var num: int
    var word: string

    ghost predicate Valid()
      reads this
    {
      lineLen == |inLine| && inCol <= lineLen
    }

    /** What is left of the line. */
    ghost function Rest(): string
      reads this
      requires Valid()
    {
      inLine[inCol..]
    }

    /** ch is the character under the cursor, or a blank at the end. */
    ghost predicate Current()
      reads this
    {
      ch == if inCol < |inLine| then inLine[inCol] else ' '
    }

    constructor (line: string)
      ensures Valid() && Rest() == line
    {
      inLine, lineLen, inCol, ch, num, word := line, |line|, 0, ' ', 0, "";
    }

    method GetCh()
      requires Valid() && inCol < lineLen
      modifies this`inCol, this`ch
      ensures Valid() && Current() && Rest() == old(Rest())[1..]
    {
      inCol := inCol + 1;
      ch := if inCol < lineLen then inLine[inCol] else ' ';
    }

    method NonBlank() returns (b: bool)
      requires Valid()
      modifies this`inCol, this`ch
      ensures Valid() && Current() && Rest() == Skip(old(Rest())) && (b <==> Rest() != "")
    {
      while inCol < lineLen && inLine[inCol] == ' '
        invariant Valid() && Skip(Rest()) == Skip(old(Rest()))
      {
        inCol := inCol + 1;
      }
      if inCol < lineLen {
        ch := inLine[inCol];
        b := true;
      } else {
        ch := ' ';
        b := false;
      }
    }

    /** The signs in front of a term. */
    method GetSigns() returns (sign: int, seen: bool)
      requires Valid()
      modifies this`inCol, this`ch
      ensures Valid() && Current() && Signs(old(Rest()), 1, false) == Signed(sign, seen, Rest())
    {
      hide Signs, Skip;
      sign, seen := 1, false;
      ghost var s := Rest();
      SignsSkipped(s, 1, false);
      var more := NonBlank();
      while more && (ch == '+' || ch == '-')
        invariant Valid() && Current() && (more <==> Rest() != "") && Skip(Rest()) == Rest()
        invariant Signs(s, 1, false) == Signs(Rest(), sign, seen)
        decreases lineLen - inCol
      {
        SignStep(Rest(), sign, seen);
        seen := true;
        if ch == '-' {
          sign := -sign;
        }
        GetCh();
        SkipTwice(Rest());
        more := NonBlank();
      }
      SignsDone(Rest(), sign, seen);
    }

    /** The digits of a term. */
    method GetTerm() returns (term: int, read: bool)
      requires Valid() && Current()
      modifies this`inCol, this`ch
      ensures Valid() && Current()
      ensures TakeDigits(old(Rest()), 0) == Term(term, Rest()) && (read <==> Rest() != old(Rest()))
    {
      term, read := 0, false;
      while IsDigit(ch)
        invariant Valid() && Current()
        invariant TakeDigits(old(Rest()), 0) == TakeDigits(Rest(), term)
        invariant |Rest()| <= |old(Rest())| && (read <==> Rest() != old(Rest())) && (read <==> |Rest()| < |old(Rest())|)
        decreases lineLen - inCol
      {
        read := true;
        term := term * 10 + (ch as int - '0' as int);
        GetCh();
      }
    }

    /** One signed term is read and added; more says whether another one follows. */
    method AddTerm() returns (read: bool, seen: bool, more: bool)
      requires Valid()
      modifies this`inCol, this`ch, this`num
      ensures Valid() && Current() && (more <==> IsSign(Rest())) && (more ==> |Rest()| < |old(Rest())|)
      ensures var a := Signs(old(Rest()), 1, false); var t := TakeDigits(a.rest, 0);
        && num == old(num) + t.val * a.sign && read == (t.rest != a.rest) && seen == a.seen && Rest() == Skip(t.rest)
    {
      hide Signs, TakeDigits, Skip;
      var sign, term;
      sign, seen := GetSigns();
      term, read := GetTerm();
      num := num + term * sign;
      more := NonBlank();
      more := more && (ch == '+' || ch == '-');
    }

    /** getNum. */
    method GetNum() returns (ok: bool)
      requires Valid()
      modifies this`inCol, this`ch, this`num
      ensures Valid() && Current() && Assembler.GetNum(old(Rest()), 0, false) == Num(ok, num, Rest())
    {
      hide Signs, TakeDigits, Skip;
      ok, num := false, 0;
      var more := true;
      ghost var s := Rest();
      while more
        invariant Valid() && (!more ==> Current())
        invariant more ==> Assembler.GetNum(s, 0, false) == Assembler.GetNum(Rest(), num, ok)
        invariant !more ==> Assembler.GetNum(s, 0, false) == Num(ok, num, Rest())
        decreases if more then 1 + |Rest()| else 0
      {
        var read, seen;
        read, seen, more := AddTerm();
        ok := read || (ok && !seen);
      }
    }

    /** getWord. */
    method GetWord() returns (ok: bool)
      requires Valid()
      modifies this`inCol, this`ch, this`word
      ensures Valid()
      ensures match Assembler.GetWord(old(Rest()))
        case None => !ok
        case Some(w) => ok && word == w.word && Rest() == w.rest
    {
      var more := NonBlank();
      if !more {
        return false;
      }
      ghost var t := Rest();
      word := "";
      while IsAlnum(ch)
        invariant Valid() && Current()
        invariant TakeWord(t, "") == TakeWord(Rest(), word)
        decreases lineLen - inCol
      {
        if |word| < WORDSIZE - 1 {
          word := word + [ch];
        }
        GetCh();
      }
      ok := word != "";
    }

    /** skipCh. */
    method SkipCh(c: char) returns (ok: bool)
      requires Valid()
      modifies this`inCol, this`ch
      ensures Valid() && Current()
      ensures match Assembler.SkipCh(old(Rest()), c)
        case None => !ok && Rest() == Skip(old(Rest()))
        case Some(t) => ok && Rest() == t
    {
      var more := NonBlank();
      ok := more && ch == c;
      if ok {
        GetCh();
      }
    }

    /** One line of readInstructions. */
    method ReadLine() returns (r: Line)
      requires Valid()
      modifies this
      ensures r == Assembler.ReadLine(old(Rest()))
    {
      var more := NonBlank();
      if !more || ch == '*' {
        return Blank;
      }
      var ok := GetNum();
      if !ok {
        return BadLocation;
      }
      var loc := num;
      if loc > IADDR_SIZE {
        return LocationTooLarge(loc);
      }
      ok := SkipCh(':');
      if !ok {
        return MissingColon;
      }
      r := ReadOperands(loc);
    }

    method ReadOperands(loc: int) returns (r: Line)
      requires Valid()
      modifies this
      ensures r == Assembler.ReadOperands(loc, old(Rest()))
    {
      var ok := GetWord();
      if !ok {
        return MissingOpcode;
      }
      var k := 0;
      while k < RALIM && !SameFour(OpCodeTab(k), word)
        invariant k <= RALIM && FindOp(word, 0) == FindOp(word, k)
      {
        k := k + 1;
      }
      if !SameFour(OpCodeTab(k), word) || OpCode(k).None? {
        return IllegalOpcode;
      }
      if k <= RRLIM {
        r := ReadRR(loc, OpCode(k).value);
      } else {
        r := ReadRM(loc, OpCode(k).value);
      }
    }

    method ReadRegister() returns (ok: bool, n: int)
      requires Valid()
      modifies this`inCol, this`ch, this`num
      ensures Valid()
      ensures match Assembler.ReadRegister(old(Rest()))
        case None => !ok
        case Some((k, t)) => ok && n == k && Rest() == t
    {
      ok := GetNum();
      n := num;
      ok := ok && !(num < 0) && !(num >= NO_REGS);
    }

    method ReadRR(loc: int, op: Op) returns (r: Line)
      requires Valid()
      modifies this
      ensures r == Assembler.ReadRR(loc, op, old(Rest()))
    {
      hide Assembler.ReadRegister, Assembler.SkipCh, Skip;
      var ok, a1 := ReadRegister();
      if !ok {
        return BadRegister(1);
      }
      ok := SkipCh(',');
      if !ok {
        return MissingComma(1);
      }
      var a2;
      ok, a2 := ReadRegister();
      if !ok {
        return BadRegister(2);
      }
      ok := SkipCh(',');
      if !ok {
        return MissingComma(2);
      }
      var a3;
      ok, a3 := ReadRegister();
      r := if ok then Loaded(loc, Instr(op, a1, a2, a3)) else BadRegister(3);
    }

    /** A parenthesis or a comma. */
    method SkipEither() returns (ok: bool)
      requires Valid()
      modifies this`inCol, this`ch
      ensures Valid()
      ensures var s := old(Rest());
        match (if Assembler.SkipCh(s, '(').Some? then Assembler.SkipCh(s, '(') else Assembler.SkipCh(s, ','))
        case None => !ok
        case Some(w) => ok && Rest() == w
    {
      hide Skip;
      SkipAgain();
      ok := SkipCh('(');
      if !ok {
        ok := SkipCh(',');
      }
    }

    method ReadRM(loc: int, op: Op) returns (r: Line)
      requires Valid()
      modifies this
      ensures r == Assembler.ReadRM(loc, op, old(Rest()))
    {
      hide Assembler.ReadRegister, Assembler.GetNum, Skip;
      SkipAgain();
      var ok, a1 := ReadRegister();
      if !ok {
        return BadRegister(1);
      }
      ok := SkipCh(',');
      if !ok {
        return MissingComma(1);
      }
      ok := GetNum();
      if !ok {
        return BadDisplacement;
      }
      var d := num;
      ok := SkipEither();
      if !ok {
        return MissingParen;
      }
      var a3;
      ok, a3 := ReadRegister();
      r := if ok then Loaded(loc, Instr(op, a1, d, a3)) else BadRegister(2);
    }
  }

  lemma SkipAgain()
    ensures forall s :: Skip(Skip(s)) == Skip(s)
  {
  }

  lemma SkipTwice(s: string)
    ensures Skip(Skip(s)) == Skip(s)
  {
  }

  lemma SignsSkipped(s: string, sign: int, seen: bool)
    ensures Signs(Skip(s), sign, seen) == Signs(s, sign, seen) && Skip(Skip(s)) == Skip(s)
  {
    SkipTwice(s);
    hide Skip;
  }

  lemma SignStep(s: string, sign: int, seen: bool)
    requires IsSign(s)
    ensures Signs(s, sign, seen) == Signs(Skip(s[1..]), if s[0] == '-' then -sign else sign, true)
  {
    assert Skip(s) == s;
    SignsSkipped(s[1..], if s[0] == '-' then -sign else sign, true);
  }

  lemma SignsDone(s: string, sign: int, seen: bool)
    requires Skip(s) == s && !IsSign(s)
    ensures Signs(s, sign, seen) == Signed(sign, seen, s)
  {
  }
}
