/** The emitted code, its location counters and the jump list, updated in place. */
module JumpEmitter {
  import opened Options
  import opened Tm
  import opened BackPatch

  class TmCode {
    var ins: seq<Instr>
    var lines: seq<nat>        // the line number of each instruction
    var emitLoc: nat
    var highEmitLoc: nat
    var jmps: seq<Entry>

    /** The counters agree with the code: every instruction is at the line it carries. */
    ghost predicate Valid()
      reads this
    {
      && |lines| == |ins| && (forall k :: 0 <= k < |lines| ==> lines[k] == k)
      && emitLoc == |ins| && highEmitLoc == emitLoc
    }

    ghost function View(): Emission
      reads this
    {
      Emission(ins, jmps)
    }

    lemma ViewIs()
      ensures View().code == ins
    {
    }

    constructor ()
      ensures Valid() && View() == Emission([], [])
    {
      ins, lines, jmps := [], [], [];
      emitLoc, highEmitLoc := 0, 0;
    }

    /** emit_RO and emit_RM. */
    method Emit(i: Instr)
      requires Valid()
      modifies this`ins, this`lines, this`emitLoc, this`highEmitLoc
      ensures Valid() && ins == old(ins) + [i]
    {
      ins := ins + [i];
      lines := lines + [emitLoc];
      emitLoc := emitLoc + 1;
      if highEmitLoc < emitLoc {
        highEmitLoc := emitLoc;
      }
    }

    /** emit_RM_abs. */
    method EmitAbs(op: Op, r: int, a: int)
      requires Valid()
      modifies this`ins, this`lines, this`emitLoc, this`highEmitLoc
      ensures Valid() && ins == old(ins) + [Instr(op, r, a - (|old(ins)| + 1), PC)]
    {
      Emit(Instr(op, r, a - (emitLoc + 1), PC));
    }

    method EmitAll(code: seq<Instr>)
      requires Valid()
      modifies this`ins, this`lines, this`emitLoc, this`highEmitLoc
      ensures Valid() && ins == old(ins) + code
    {
      for k := 0 to |code|
        invariant Valid() && ins == old(ins) + code[..k]
      {
        Emit(code[k]);
        assert code[..k] + [code[k]] == code[..k + 1];
      }
      assert code[..|code|] == code;
    }

    /** emit_skip(0): the next location. */
    method Here() returns (loc: nat)
      requires Valid()
      ensures loc == |ins|
    {
      loc := emitLoc;
    }

    /** gen_cond_jmp, given the code that finds its operands and clears the registers. */
    method GenTest(stores: seq<Instr>, op: Op, r1: int, r2: int, r3: int, l: nat)
      requires Valid()
      modifies this
      ensures Valid() && EmitItem(old(View()), Test(stores, op, r1, r2, r3, l)) == Some(View())
    {
      EmitAll(stores);
      Emit(Instr(op, r1, r2, r3));
      jmps := jmps + [Entry(l, Some(emitLoc - 1), 0)];
    }

    /** The TJMP branch of gen_ins. */
    method GenJump(stores: seq<Instr>, l: nat)
      requires Valid()
      modifies this
      ensures Valid() && EmitItem(old(View()), Jump(stores, l)) == Some(View())
    {
      var found := false;
      for k := 0 to |jmps|
        invariant Valid() && jmps == old(jmps)
        invariant BackJumps(ins, jmps[k..], l) == BackJumps(old(ins), jmps, l)
        invariant found <==> exists i :: 0 <= i < k && jmps[i].l == l
        invariant !found ==> ins == old(ins)
      {
        assert jmps[k..][1..] == jmps[k + 1..];
        if jmps[k].l == l {
          EmitAbs(LDA, PC, jmps[k].loc);
          found := true;
        }
      }
      if !found {
        EmitAll(stores);
        EmitAbs(LDA, PC, 0);
        jmps := jmps + [Entry(l, Some(emitLoc - 1), 0)];
      }
    }

    /** The TLABEL branch of gen_ins; ok is false where the compiler would fault. */
    method GenLabel(l: nat) returns (ok: bool)
      requires Valid()
      modifies this
      ensures Valid()
      ensures EmitItem(old(View()), Mark(l)) == if ok then Some(View()) else None
    {
      ok := true;
      var k := 0;
      while k < |jmps| && jmps[k].l != l
        invariant k <= |jmps| && Lookup(jmps, l, 0) == Lookup(jmps, l, k)
      {
        k := k + 1;
      }
      if k < |jmps| {
        var e := jmps[k].line;
        if e.None? || e.value >= |ins| {
          return false;
        }
        var j := e.value;
        var here := Here();
        if ins[j].op == LDA {
          ins := ins[j := ins[j].(a2 := (here - 1) - lines[j])];
        } else {
          ins := ins[j := ins[j].(a2 := (here - 1) - lines[j], a3 := PC)];
        }
      } else {
        jmps := jmps + [Entry(l, None, emitLoc)];
      }
    }
  }
}
