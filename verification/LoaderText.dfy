/** The text between the generator and the loader: what is printed, column by column, and what the
    loader makes of text that the generator does not print. */
module LoaderText {
  import opened Options
  import opened Tm
  import opened Assembler

  // ----- what is printed -----

  lemma {:induction false} BlanksAre(n: nat)
    ensures |Blanks(n)| == n && forall k :: 0 <= k < n ==> Blanks(n)[k] == ' '
  {
    if n > 0 {
      BlanksAre(n - 1);
    }
  }

  /** A padded text has at least the width asked for: blanks, and then the text. */
  lemma Padded(s: string, width: nat)
    ensures var p := PadLeft(s, width); var b := |p| - |s|;
      && |p| == (if |s| < width then width else |s|)
      && b >= 0 && p[b..] == s && forall k :: 0 <= k < b ==> p[k] == ' '
  {
    BlanksAre(if |s| < width then width - |s| else 0);
    hide Blanks;
  }

  /** A number is printed in base ten without leading zeros, behind a minus sign if it is negative. */
  lemma DecimalText(n: int)
    ensures 0 <= n < 10 ==> Decimal(n) == [('0' as int + n) as char]
    ensures n >= 10 ==> Decimal(n) == Decimal(n / 10) + Decimal(n % 10)
    ensures n < 0 ==> Decimal(n) == "-" + Decimal(-n)
  {
    if n >= 0 {
      DigitValue(n % 10);
      OneDigit(n % 10);
      hide DigitChar;
    }
  }

  lemma OneDigit(n: nat)
    requires n < 10
    ensures Digits(n) == [DigitChar(n)] == [('0' as int + n) as char]
  {
    assert n % 10 == n;
    assert "" + [DigitChar(n)] == [DigitChar(n)];
    DigitValue(n);
    hide DigitChar;
  }

  /** The line of an instruction, by its columns. */
  lemma LineColumns(loc: nat, i: Instr)
    requires loc < 1000
    ensures var line := WriteLine(loc, i);
      && |line| >= 13 && line[..3] == PadLeft(Decimal(loc), 3) && line[3..6] == ":  "
      && line[6..11] == PadLeft(Name(i.op), 5) && line[11..13] == "  "
      && line[13..] == Decimal(i.a1) + "," + Decimal(i.a2) + "," + Decimal(i.a3) + " "
  {
    ShortNumber(loc);
    NameChars(i.op);
    Padded(Decimal(loc), 3);
    Padded(Name(i.op), 5);
    var (a, b, c) := (PadLeft(Decimal(loc), 3), PadLeft(Name(i.op), 5), Operands(i));
    assert WriteLine(loc, i) == a + (":" + ("  " + (b + ("  " + c))));
    assert c == Decimal(i.a1) + "," + Decimal(i.a2) + "," + Decimal(i.a3) + " ";
    hide *;
    Columns(a, b, c);
  }

  lemma Columns(a: string, b: string, c: string)
    requires |a| == 3 && |b| == 5
    ensures var line := a + (":" + ("  " + (b + ("  " + c))));
      |line| >= 13 && line[..3] == a && line[3..6] == ":  " && line[6..11] == b && line[11..13] == "  " && line[13..] == c
  {
  }

  lemma ShortNumber(n: nat)
    requires n < 1000
    ensures |Decimal(n)| <= 3
  {
    if n >= 10 {
      assert n / 10 < 100;
      assert |Digits(n / 10)| <= 2 by {
        if n / 10 >= 10 {
          assert n / 10 / 10 < 10;
        }
      }
    }
  }

  // ----- numbers -----

  predicate Signed(s: string) {
    forall k :: 0 <= k < |s| ==> s[k] == '+' || s[k] == '-'
  }

  /** The number of minus signs. */
  function Minuses(s: string): nat {
    if s == "" then 0 else Minuses(s[1..]) + if s[0] == '-' then 1 else 0
  }

  /** One term of a sum: signs and a number. */
  datatype Part = Part(signs: string, n: nat)

  function Worth(p: Part): int {
    if Minuses(p.signs) % 2 == 0 then p.n else 0 - p.n
  }

  function PartText(p: Part): string {
    p.signs + Digits(p.n)
  }

  /** A sum of terms. */
  datatype Terms = Last(p: Part) | Plus(p: Part, rest: Terms)

  /** The text of a sum in front of other text. */
  function Text(s: Terms, end: string): string {
    PartText(s.p) + match s case Last(_) => end case Plus(_, rest) => Text(rest, end)
  }

  function Sum(s: Terms): int {
    match s
    case Last(p) => Worth(p)
    case Plus(p, rest) => Worth(p) + Sum(rest)
  }

  /** Each term but the first has a sign. */
  predicate WellSigned(s: Terms) {
    Signed(s.p.signs) && (s.Plus? ==> s.rest.p.signs != "" && WellSigned(s.rest))
  }

  /** Behind the signs in tail the number cannot go on. */
  predicate Ends(tail: string, rest: string) {
    Stops(rest) && (tail != "" ==> Stops(Skip(rest)))
  }

  lemma {:induction false} SignsRead(signs: string, rest: string, sign: int, seen: bool)
    requires Signed(signs) && !IsSign(Skip(rest))
    ensures Signs(signs + rest, sign, seen)
         == Assembler.Signed(if Minuses(signs) % 2 == 0 then sign else -sign, seen || signs != "", Skip(rest))
    decreases signs
  {
    if signs == "" {
      assert signs + rest == rest;
    } else {
      var t := signs + rest;
      assert t[1..] == signs[1..] + rest && Skip(t) == t;
      SignsRead(signs[1..], rest, if t[0] == '-' then -sign else sign, true);
    }
  }

  lemma DigitFirst(n: nat, rest: string)
    ensures var t := Digits(n) + rest; t != rest && IsDigit(t[0]) && Skip(t) == t && !IsSign(t)
  {
    DigitsValue(n);
    assert (Digits(n) + rest)[0] == Digits(n)[0];
    hide Digits;
  }

  /** A round of reading: the sum so far and another term, which stops the digits. */
  function Round(num: int, p: Part, rest: string): Num {
    if IsSign(Skip(rest)) then GetNum(Skip(rest), num + Worth(p), true) else Num(true, num + Worth(p), Skip(rest))
  }

  lemma RoundOf(s: string, num: int, ok: bool, p: Part, rest: string)
    requires Signs(s, 1, false) == Assembler.Signed(if Minuses(p.signs) % 2 == 0 then 1 else -1, p.signs != "", Digits(p.n) + rest)
    requires TakeDigits(Digits(p.n) + rest, 0) == Term(p.n, rest) && Digits(p.n) + rest != rest
    ensures GetNum(s, num, ok) == Round(num, p, rest)
  {
    hide Signs, TakeDigits, Digits, Skip, Minuses, IsSign;
  }

  lemma PartRead(p: Part, rest: string, num: int, ok: bool)
    requires Signed(p.signs) && (rest == "" || !IsDigit(rest[0]))
    ensures GetNum(PartText(p) + rest, num, ok) == Round(num, p, rest)
  {
    var t := Digits(p.n) + rest;
    assert PartText(p) + rest == p.signs + t;
    DigitsValue(p.n);
    hide *;
    DigitFirst(p.n, rest);
    SignsRead(p.signs, t, 1, false);
    TakesAll(Digits(p.n), rest, 0);
    RoundOf(p.signs + t, num, ok, p, rest);
  }

  /** The loader reads a sum: every term with its signs, of which two minus signs cancel; a number
      that ends in signs is refused. */
  lemma {:induction false} SumRead(s: Terms, tail: string, rest: string, num: int, ok: bool)
    requires WellSigned(s) && Signed(tail) && Ends(tail, rest)
    ensures GetNum(Text(s, tail + rest), num, ok) == Num(tail == "", num + Sum(s), Skip(rest))
  {
    match s
    case Last(p) =>
      TailRead(p, tail, rest, num, ok);
    case Plus(p, others) =>
      SumRead(others, tail, rest, num + Worth(p), true);
      SumOn(s, tail + rest, num, ok);
      hide GetNum, Worth, Skip, Text;
  }

  lemma SumOn(s: Terms, end: string, num: int, ok: bool)
    requires s.Plus? && WellSigned(s)
    ensures GetNum(Text(s, end), num, ok) == GetNum(Text(s.rest, end), num + Worth(s.p), true)
  {
    assert Signed(s.p.signs) && Signed(s.rest.p.signs) && s.rest.p.signs != "";
    var rest := Text(s.rest, end);
    assert Text(s, end) == PartText(s.p) + rest;
    hide *;
    SignFirst(s.rest, end);
    PartRead(s.p, rest, num, ok);
    RoundOn(num, s.p, rest);
  }

  lemma RoundOn(num: int, p: Part, rest: string)
    requires IsSign(Skip(rest)) && Skip(rest) == rest
    ensures Round(num, p, rest) == GetNum(rest, num + Worth(p), true)
  {
  }

  lemma SignFirst(s: Terms, end: string)
    requires s.p.signs != "" && Signed(s.p.signs)
    ensures var t := Text(s, end); Skip(t) == t && IsSign(t) && !IsDigit(t[0])
  {
    var more := match s case Last(_) => end case Plus(_, rest) => Text(rest, end);
    assert Text(s, end) == s.p.signs + Digits(s.p.n) + more;
    assert Text(s, end)[0] == s.p.signs[0];
  }

  lemma TailRead(p: Part, tail: string, rest: string, num: int, ok: bool)
    requires Signed(p.signs) && Signed(tail) && Ends(tail, rest)
    ensures GetNum(PartText(p) + (tail + rest), num, ok) == Num(tail == "", num + Worth(p), Skip(rest))
  {
    var more := tail + rest;
    if tail == "" {
      assert more == rest;
      PartRead(p, rest, num, ok);
    } else {
      assert more[0] == tail[0] && Skip(more) == more && IsSign(more);
      PartRead(p, more, num, ok);
      SignsRead(tail, rest, 1, false);
      NoDigits(Skip(rest));
      hide Signs, Stops, PartText, Minuses;
    }
  }

  lemma NoDigits(s: string)
    requires s == "" || !IsDigit(s[0])
    ensures TakeDigits(s, 0) == Term(0, s)
  {
  }

  // ----- words -----

  predicate AllAlnum(s: string) {
    forall k :: 0 <= k < |s| ==> IsAlnum(s[k])
  }

  lemma {:induction false} TakenWord(a: string, b: string, word: string)
    requires AllAlnum(a) && (b == "" || !IsAlnum(b[0])) && |word| < WORDSIZE
    ensures TakeWord(a + b, word) == Word(if |word| + |a| < WORDSIZE then word + a else (word + a)[..WORDSIZE - 1], b)
    decreases |a|
  {
    if a == "" {
      assert a + b == b && word + a == word;
    } else {
      assert (a + b)[1..] == a[1..] + b;
      if |word| < WORDSIZE - 1 {
        assert word + [a[0]] + a[1..] == word + a;
        TakenWord(a[1..], b, word + [a[0]]);
      } else {
        TakenWord(a[1..], b, word);
        assert (word + a)[..WORDSIZE - 1] == word == (word + a[1..])[..WORDSIZE - 1];
      }
    }
  }

  /** A word is a run of letters and digits behind blanks, of which the first nineteen are kept. */
  lemma WordMeaning(k: nat, a: string, b: string)
    requires AllAlnum(a) && (b == "" || !IsAlnum(b[0]))
    ensures a != "" ==> GetWord(Blanks(k) + (a + b)) == Some(Word(if |a| < 20 then a else a[..19], b))
    ensures a == "" && (b == "" || b[0] != ' ') ==> GetWord(Blanks(k) + b) == None
  {
    assert !IsAlnum(' ');
    TakenWord(a, b, "");
    assert "" + a == a;
    SkipBlanks(k, a + b);
    SkipBlanks(k, b);
    assert a == "" ==> a + b == b;
    assert a != "" ==> (a + b)[0] == a[0];
    hide IsAlnum, Blanks, TakeWord;
  }

  // ----- lines -----

  /** Lines without an instruction. */
  lemma NothingToLoad(k: nat, s: string)
    ensures ReadLine(Blanks(k)) == Blank && ReadLine(Blanks(k) + ("*" + s)) == Blank
  {
    SkipBlanks(k, "");
    assert Blanks(k) + "" == Blanks(k);
    SkipBlanks(k, "*" + s);
    assert ("*" + s)[0] == '*';
    hide Blanks;
  }

  /** No opcode has the name. */
  predicate NoName(word: string) {
    forall j: nat :: j <= RALIM ==> !SameFour(OpCodeTab(j), word)
  }

  /** The errors in front of the operands, and in which order they are found. */
  lemma LineErrors(loc: nat, rest: string, word: string, more: string)
    requires Stops(rest) && AllAlnum(word) && (more == "" || !IsAlnum(more[0])) && (word == "" ==> more == "")
    ensures loc > 1024 ==> ReadLine(Decimal(loc) + rest) == LocationTooLarge(loc)
    ensures loc <= 1024 && (Skip(rest) == "" || Skip(rest)[0] != ':') ==> ReadLine(Decimal(loc) + rest) == MissingColon
    ensures loc <= 1024 && rest == ":" + (" " + (word + more)) && word == "" ==> ReadLine(Decimal(loc) + rest) == MissingOpcode
    ensures loc <= 1024 && rest == ":" + (" " + (word + more)) && word != "" && NoName(if |word| < 20 then word else word[..19]) ==>
      ReadLine(Decimal(loc) + rest) == IllegalOpcode
  {
    var line := Decimal(loc) + rest;
    FirstDigit(loc, rest);
    NumberRead(loc, rest);
    assert !IsDigit('*');
    var tail := " " + (word + more);
    assert Blanks(1) == " ";
    WordMeaning(1, word, more);
    if rest == ":" + tail {
      assert rest[0] == ':' && rest[1..] == tail && Skip(rest) == rest;
      assert word == "" ==> tail == Blanks(1) + more;
      NoSuchName(if |word| < 20 then word else word[..19]);
    }
    hide Decimal, GetNum, Skip, Stops, GetWord, FindOp, OpCodeTab, IsDigit, IsAlnum, AllAlnum, Blanks, NoName;
  }

  lemma NoSuchName(word: string)
    ensures NoName(word) ==> FindOp(word, 0) == None
  {
    if FindOp(word, 0).Some? {
      FindOpExact(word, 0, FindOp(word, 0).value);
    }
    hide SameFour, OpCodeTab, FindOp;
  }

  /** A line that does not start with a number. */
  lemma NoLocation(s: string)
    requires s != "" && s[0] != ' ' && s[0] != '*' && !IsDigit(s[0]) && !IsSign(s)
    ensures ReadLine(s) == BadLocation
  {
    assert Skip(s) == s;
  }

  /** In front of the last register a parenthesis does as well as a comma. */
  lemma ParenthesisRead(loc: int, op: Op, a1: nat, d: int, a3: nat)
    requires a1 < NO_REGS && a3 < NO_REGS
    ensures ReadRM(loc, op, Decimal(a1) + ("," + (Decimal(d) + ("(" + (Decimal(a3) + ")"))))) == Loaded(loc, Instr(op, a1, d, a3))
  {
    var c := Decimal(a3) + ")";
    var b := Decimal(d) + ("(" + c);
    Separator(',', b);
    OpenParenthesis(c);
    assert ")"[0] == ')' && Skip(")") == ")";
    hide Decimal, Skip, SkipCh, ReadRegister, Stops, GetNum;
    Closing();
    PlainRegisterRead(a1, "," + b);
    NumberRead(d, "(" + c);
    PlainRegisterRead(a3, ")");
  }

  lemma OpenParenthesis(rest: string)
    ensures Stops("(" + rest) && Skip("(" + rest) == "(" + rest && SkipCh("(" + rest, '(') == Some(rest)
  {
    assert ("(" + rest)[0] == '(' && ("(" + rest)[1..] == rest;
  }

  lemma Closing()
    ensures Stops(")")
  {
    assert ")"[0] == ')' && Skip(")") == ")";
  }
}
