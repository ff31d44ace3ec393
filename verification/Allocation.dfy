/** Register allocation preserves meaning: a program that runs on locations, its registers and
    memory slots, behaves like the program that runs on symbols.

    A location is a number: a register, or the register count plus a memory slot. */
module Allocation {
  import opened Options
  import opened ThreeAddress
  import opened Intervals

  type Locations = map<nat, nat>

  function FirstOf(code: seq<Ins>, v: nat): nat { FirstDef(code, v, |code|) }

  function LastOf(code: seq<Ins>, v: nat): nat { LastOcc(code, v, |code|) }

  ghost predicate Interfere(code: seq<Ins>, u: nat, v: nat) {
    FirstOf(code, u) <= LastOf(code, v) && FirstOf(code, v) <= LastOf(code, u)
  }

  /** Symbols with overlapping intervals live in different locations, and every symbol has one. */
  ghost predicate Apart(code: seq<Ins>, loc: Locations) {
    && (forall p, v: nat :: 0 <= p < |code| && Occurrences(code[p], v) > 0 ==> v in loc)
    && (forall u, v :: u in loc && v in loc && u != v && Interfere(code, u, v) ==> loc[u] != loc[v])
  }

  function At(loc: Locations, v: nat): nat {
    if v in loc then loc[v] else 0
  }

  function RenameArg(a: Arg, loc: Locations): Arg {
    match a
    case Sym(x) => Sym(At(loc, x))
    case Const(_) => a
  }

  function Rename(i: Ins, loc: Locations): Ins {
    match i
    case Bin(op, r, a1, a2) => Bin(op, At(loc, r), RenameArg(a1, loc), RenameArg(a2, loc))
    case In(r) => In(At(loc, r))
    case Out(a) => Out(RenameArg(a, loc))
    case Assign(r, a1) => Assign(At(loc, r), RenameArg(a1, loc))
    case Iff(c, l) => Iff(RenameArg(c, loc), l)
    case _ => i
  }

  function RenameAll(code: seq<Ins>, loc: Locations): (r: seq<Ins>)
    ensures |r| == |code| && forall p :: 0 <= p < |code| ==> r[p] == Rename(code[p], loc)
  {
    seq(|code|, p requires 0 <= p < |code| => Rename(code[p], loc))
  }

  // ----- which symbols carry a value -----

  /** The interval of v covers the loop that the jump from p back to q closes. */
  predicate SpansLoop(code: seq<Ins>, v: nat, p: nat, q: nat) {
    FirstOf(code, v) <= q + 1 && p + 1 <= LastOf(code, v)
  }

  /** The symbols that carry a value after a step from p to q: those written so far, less the
      ones whose interval does not span the loop when the step goes backward. */
  function Carried(code: seq<Ins>, w: set<nat>, p: nat, q: nat): set<nat>
    requires p < |code|
  {
    if q > p then w + Defs(code[p]) else set v | v in w && SpansLoop(code, v, p, q)
  }

  /** For n steps every read is of a symbol that carries a value. */
  ghost predicate Disciplined(code: seq<Ins>, c: Config, w: set<nat>, n: nat)
    decreases n
  {
    n == 0 || c.pc >= |code| ||
    (Uses(code[c.pc]) <= w &&
     match Next(code, c)
     case None => true
     case Some(d) => Disciplined(code, d, Carried(code, w, c.pc, d.pc), n - 1))
  }

  /** The state on locations agrees with the state on symbols, as far as it still matters. */
  ghost predicate Agrees(code: seq<Ins>, loc: Locations, w: set<nat>, c: Config, d: Config) {
    && c.pc == d.pc && c.st.input == d.st.input && c.st.output == d.st.output
    && (forall v :: v in w ==> v in loc && 1 <= FirstOf(code, v) <= c.pc + 1)
    && (forall v :: v in w && c.pc + 1 <= LastOf(code, v) ==> Get(d.st.env, At(loc, v)) == Get(c.st.env, v))
  }

  lemma OccurrenceBounds(code: seq<Ins>, p: nat, v: nat)
    requires p < |code|
    ensures v in Defs(code[p]) ==> 1 <= FirstOf(code, v) <= p + 1 <= LastOf(code, v)
    ensures v in Uses(code[p]) ==> p + 1 <= LastOf(code, v)
  {
    OccurrencesMeaning(code[p], v);
  }

  lemma ArgAgrees(code: seq<Ins>, loc: Locations, w: set<nat>, c: Config, d: Config, a: Arg)
    requires c.pc < |code| && Agrees(code, loc, w, c, d)
    requires ArgSyms(a) <= Uses(code[c.pc]) && ArgSyms(a) <= w
    ensures Val(d.st.env, RenameArg(a, loc)) == Val(c.st.env, a)
  {
    if a.Sym? {
      assert a.id in ArgSyms(a);
      OccurrenceBounds(code, c.pc, a.id);
    }
  }

  lemma FindLabelRename(code: seq<Ins>, loc: Locations, l: nat)
    ensures FindLabel(RenameAll(code, loc), l) == FindLabel(code, l)
  {
    if code != [] {
      FindLabelRename(code[1..], loc, l);
      assert RenameAll(code, loc)[1..] == RenameAll(code[1..], loc);
    }
  }

  lemma WriteApart(code: seq<Ins>, loc: Locations, p: nat, r: nat, v: nat)
    requires Apart(code, loc) && p < |code| && r in Defs(code[p])
    requires v in loc && v != r && FirstOf(code, v) <= p + 1 <= LastOf(code, v)
    ensures r in loc && loc[v] != loc[r]
  {
    OccurrenceBounds(code, p, r);
    OccurrencesMeaning(code[p], r);
    assert Interfere(code, v, r);
  }

  /** A write to r disturbs no other symbol that still matters. */
  lemma WriteAgrees(code: seq<Ins>, loc: Locations, w: set<nat>, c: Config, d: Config, r: nat, x: int, input: seq<int>)
    requires Apart(code, loc) && c.pc < |code| && Agrees(code, loc, w, c, d)
    requires Defs(code[c.pc]) == {r}
    ensures Agrees(code, loc, w + {r},
                   Config(c.pc + 1, State(c.st.env[r := x], input, c.st.output)),
                   Config(c.pc + 1, State(d.st.env[At(loc, r) := x], input, d.st.output)))
  {
    OccurrenceBounds(code, c.pc, r);
    OccurrencesMeaning(code[c.pc], r);
    var env, env' := c.st.env[r := x], d.st.env[At(loc, r) := x];
    assert r in loc by {
      assert Occurrences(code[c.pc], r) > 0;
    }
    forall v | v in w + {r} && c.pc + 2 <= LastOf(code, v) ensures Get(env', At(loc, v)) == Get(env, v) {
      if v != r {
        WriteApart(code, loc, c.pc, r, v);
      }
    }
    hide Apart, Occurrences, Uses;
  }

  /** Both machines are stuck, or both step and still agree. */
  ghost predicate StepsAgree(code: seq<Ins>, loc: Locations, w: set<nat>, p: nat, c: Option<Config>, d: Option<Config>)
    requires p < |code|
  {
    match (c, d)
    case (None, None) => true
    case (Some(c'), Some(d')) => Agrees(code, loc, Carried(code, w, p, c'.pc), c', d')
    case _ => false
  }

  lemma BinAgrees(code: seq<Ins>, loc: Locations, w: set<nat>, c: Config, d: Config)
    requires Apart(code, loc) && c.pc < |code| && Agrees(code, loc, w, c, d)
    requires Uses(code[c.pc]) <= w && code[c.pc].Bin?
    ensures StepsAgree(code, loc, w, c.pc, Next(code, c), Next(RenameAll(code, loc), d))
  {
    var i := code[c.pc];
    ArgAgrees(code, loc, w, c, d, i.a1);
    ArgAgrees(code, loc, w, c, d, i.a2);
    assert d.pc == c.pc && d.st.input == c.st.input && d.st.output == c.st.output;
    var x := Apply(i.op, Val(c.st.env, i.a1), Val(c.st.env, i.a2));
    if x.Some? {
      WriteAgrees(code, loc, w, c, d, i.r, x.value, c.st.input);
    }
    hide Agrees, Apart, Apply;
  }

  lemma MoveAgrees(code: seq<Ins>, loc: Locations, w: set<nat>, c: Config, d: Config)
    requires Apart(code, loc) && c.pc < |code| && Agrees(code, loc, w, c, d)
    requires Uses(code[c.pc]) <= w && (code[c.pc].In? || code[c.pc].Assign?)
    ensures StepsAgree(code, loc, w, c.pc, Next(code, c), Next(RenameAll(code, loc), d))
  {
    var i := code[c.pc];
    if i.In? {
      if c.st.input != [] {
        WriteAgrees(code, loc, w, c, d, i.r, c.st.input[0], c.st.input[1..]);
      }
    } else {
      ArgAgrees(code, loc, w, c, d, i.a1);
      WriteAgrees(code, loc, w, c, d, i.r, Val(c.st.env, i.a1), c.st.input);
    }
    hide Apart;
  }

  lemma ControlAgrees(code: seq<Ins>, loc: Locations, w: set<nat>, c: Config, d: Config)
    requires c.pc < |code| && Agrees(code, loc, w, c, d)
    requires Uses(code[c.pc]) <= w && (IsControl(code[c.pc]) || code[c.pc].Out?)
    ensures StepsAgree(code, loc, w, c.pc, Next(code, c), Next(RenameAll(code, loc), d))
  {
    match code[c.pc]
    case Jmp(l) =>
      FindLabelRename(code, loc, l);
    case Iff(a, l) =>
      ArgAgrees(code, loc, w, c, d, a);
      FindLabelRename(code, loc, l);
    case Out(a) =>
      ArgAgrees(code, loc, w, c, d, a);
    case Label(_) =>
  }

  lemma NextAgrees(code: seq<Ins>, loc: Locations, w: set<nat>, c: Config, d: Config)
    requires Apart(code, loc) && c.pc < |code| && Agrees(code, loc, w, c, d) && Uses(code[c.pc]) <= w
    ensures StepsAgree(code, loc, w, c.pc, Next(code, c), Next(RenameAll(code, loc), d))
  {
    match code[c.pc] {
      case Bin(_, _, _, _) => BinAgrees(code, loc, w, c, d);
      case In(_) => MoveAgrees(code, loc, w, c, d);
      case Assign(_, _) => MoveAgrees(code, loc, w, c, d);
      case _ => ControlAgrees(code, loc, w, c, d);
    }
    hide *;
  }

  /** Register allocation preserves meaning, for every disciplined run of any length. */
  lemma {:induction false} RunAgrees(code: seq<Ins>, loc: Locations, w: set<nat>, c: Config, d: Config, n: nat)
    requires Apart(code, loc) && Agrees(code, loc, w, c, d) && Disciplined(code, c, w, n)
    ensures match (Run(code, c, n), Run(RenameAll(code, loc), d, n))
      case (None, None) => true
      case (Some(c'), Some(d')) => c'.pc == d'.pc && c'.st.input == d'.st.input && c'.st.output == d'.st.output
      case _ => false
    decreases n
  {
    if n > 0 && c.pc < |code| {
      DisciplinedStep(code, c, w, n);
      hide Apart, Agrees, Disciplined, Next, Carried;
      NextAgrees(code, loc, w, c, d);
      var c', d' := Next(code, c), Next(RenameAll(code, loc), d);
      if c'.Some? {
        RunAgrees(code, loc, Carried(code, w, c.pc, c'.value.pc), c'.value, d'.value, n - 1);
      }
    }
  }

  lemma DisciplinedStep(code: seq<Ins>, c: Config, w: set<nat>, n: nat)
    requires n > 0 && c.pc < |code| && Disciplined(code, c, w, n)
    ensures Uses(code[c.pc]) <= w
    ensures Next(code, c).Some? ==> (
      var d := Next(code, c).value; Disciplined(code, d, Carried(code, w, c.pc, d.pc), n - 1))
  {
    hide Next, Carried, Uses;
  }
}
