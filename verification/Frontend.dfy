/** From parse tree to three-address code: the front end as a whole. */
module Frontend {
  import opened Options
  import opened ThreeAddress
  import opened Ast
  import opened Lowering
  import opened LoweringSim
  import opened Labels
  import opened TreeBuilder

  /** The supply before parsing; user symbols have the ids below base. */
  function Empty(base: nat): Supply {
    Supply(base, 0, map[], map[], 0)
  }

  /** The program compiles to tree, without a fault and without a warning. */
  ghost predicate Compiles(prog: Stmts, base: nat, tree: Stmts) {
    && StmtsScoped(prog, base)
    && BuildStmts(Empty(base), prog).Some?
    && var (s, t) := BuildStmts(Empty(base), prog).value; t == tree && s.infinite == 0
  }

  lemma CompilesWell(prog: Stmts, base: nat, tree: Stmts) returns (temps: Temps)
    requires Compiles(prog, base, tree)
    ensures Compiled(tree, temps, base) && SameStmts(prog, tree) && StmtsApart(tree)
  {
    var (s, _) := BuildStmts(Empty(base), prog).value;
    temps := s.temps;
    assert SupplyOk(Empty(base), base) && UopsOk(Empty(base));
    BuildStmtsOk(Empty(base), prog, base);
    BuildStmtsLabels(Empty(base), prog);
    BuildStmtsMeans(Empty(base), prog);
    ApartDistinct(tree);
    hide BuildStmts, StmtsScoped, SameStmts, StmtsApart, GenStmts, DistinctLabels, StmtsOk;
  }

  /** Whatever the program as written does within some loop budget, its code does. */
  lemma FrontendPreserves(prog: Stmts, base: nat, tree: Stmts, st: State, fuel: nat) returns (k: nat, d: Config)
    requires Compiles(prog, base, tree)
    ensures Run(GenStmts(tree), Config(0, st), k) == Some(d)
    ensures Alike(base, ExecStmts(prog, st, fuel).st, d.st)
    ensures match ExecStmts(prog, st, fuel)
      case Done(_) => d.pc == |GenStmts(tree)| && Final(GenStmts(tree), Config(0, st), d)
      case Stuck(_) => d.pc < |GenStmts(tree)| && Final(GenStmts(tree), Config(0, st), d)
      case Timeout(_) => k >= fuel
  {
    var temps := CompilesWell(prog, base, tree);
    assert ExecStmts(prog, st, fuel) == ExecStmts(tree, st, fuel);
    hide *;
    k, d := LoweringPreserves(tree, temps, base, st, fuel);
  }

  /** A run of the code that ends, or is stuck, is one of the program as written. */
  lemma FrontendReflects(prog: Stmts, base: nat, tree: Stmts, st: State, d: Config) returns (fuel: nat)
    requires Compiles(prog, base, tree) && Final(GenStmts(tree), Config(0, st), d)
    ensures Alike(base, ExecStmts(prog, st, fuel).st, d.st)
    ensures ExecStmts(prog, st, fuel).Done? <==> d.pc == |GenStmts(tree)|
    ensures ExecStmts(prog, st, fuel).Stuck? <==> d.pc != |GenStmts(tree)|
  {
    var temps := CompilesWell(prog, base, tree);
    fuel := LoweringReflects(tree, temps, base, st, d);
    assert ExecStmts(prog, st, fuel) == ExecStmts(tree, st, fuel);
    hide *;
  }

  /** The program exhausts every loop budget. */
  ghost predicate ProgramDiverges(prog: Stmts, st: State) {
    forall fuel: nat :: ExecStmts(prog, st, fuel).Timeout?
  }

  /** The code can always take one more step. */
  ghost predicate CodeDiverges(code: seq<Ins>, c: Config) {
    forall k: nat :: Run(code, c, k).Some?
  }

  /** The program runs forever exactly when its code does. */
  lemma FrontendDiverges(prog: Stmts, base: nat, tree: Stmts, st: State)
    requires Compiles(prog, base, tree)
    ensures ProgramDiverges(prog, st) <==> CodeDiverges(GenStmts(tree), Config(0, st))
  {
    var code, c := GenStmts(tree), Config(0, st);
    if ProgramDiverges(prog, st) {
      forall k: nat ensures Run(code, c, k).Some? {
        assert ExecStmts(prog, st, k).Timeout?;
        var k', d := FrontendPreserves(prog, base, tree, st, k);
        RunAdd(code, c, k, k' - k);
      }
    }
    if CodeDiverges(code, c) {
      forall fuel: nat ensures ExecStmts(prog, st, fuel).Timeout? {
        var k, d := FrontendPreserves(prog, base, tree, st, fuel);
        RunAdd(code, c, k, 1);
        var next := k + 1;
        assert Run(code, c, next).Some?;
      }
    }
  }
}
