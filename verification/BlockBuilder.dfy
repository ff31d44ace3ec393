/** bb_build as the compiler runs it: one loop makes the blocks, a second one fills and joins them. */
module BlockBuilder {
  import opened Options
  import opened ThreeAddress
  import opened BasicBlocks

  class BlockCode {
    var blocks: seq<Block>
    var count: nat

    constructor ()
      ensures blocks == [] && count == 0
    {
      blocks, count := [], 0;
    }

    method NewBlock(id: nat)
      modifies this
      ensures blocks == old(blocks) + [Block(id, [], None, None, [])] && count == old(count) + 1
    {
      blocks := blocks + [Block(id, [], None, None, [])];
      count := count + 1;
    }

    /** The entry block, and one block for every label and every test. */
    method MakeBlocks(code: seq<Ins>)
      requires blocks == [] && count == 0
      modifies this
      ensures blocks == Empties(code) && count == |blocks|
    {
      NewBlock(NO_ID);
      assert code[..0] == [];
      var k := 0;
      while k < |code|
        invariant k <= |code|
        invariant blocks == Empties(code[..k]) && count == |blocks|
      {
        assert code[..k + 1][..k] == code[..k];
        match code[k] {
          case Label(l) => NewBlock(l);
          case Iff(_, _) => NewBlock(0);
          case _ =>
        }
        k := k + 1;
      }
      assert code[..|code|] == code;
    }

    /** The first block with this id. */
    method Find(id: nat) returns (b: Option<nat>)
      ensures b == FindBlock(blocks, id, 0)
    {
      var j := 0;
      while j < |blocks| && blocks[j].id != id
        invariant j <= |blocks|
        invariant FindBlock(blocks, id, 0) == FindBlock(blocks, id, j)
      {
        j := j + 1;
      }
      b := if j < |blocks| then Some(j) else None;
    }

    method Append(b: nat, i: Ins)
      requires b < |blocks|
      modifies this`blocks
      ensures blocks == Push(old(blocks), b, i)
    {
      blocks := blocks[b := blocks[b].(ins := blocks[b].ins + [i])];
    }

    method AddPredecessor(b: nat, p: nat)
      requires b < |blocks|
      modifies this`blocks
      ensures blocks == AddPred(old(blocks), b, p)
    {
      if |blocks[b].pred| < MAX_PREDECESSORS {
        blocks := blocks[b := blocks[b].(pred := blocks[b].pred + [p])];
      }
    }

    /** Puts one instruction where it belongs; ok is false where the compiler would stop or fault. */
    method PlaceNext(cur: nat, i: Ins) returns (ok: bool, now: nat)
      requires cur < |blocks|
      modifies this`blocks
      ensures var r := Place(Building(old(blocks), cur), i);
        ok == r.Some? && (ok ==> Building(blocks, now) == r.value)
    {
      ok, now := true, cur;
      if blocks[cur].ins == [] || !IsControl(i) {
        Append(cur, i);
        return;
      }
      match i {
        case Label(l) =>
          var b := Find(l);
          if b == None {
            return false, cur;
          }
          Append(b.value, i);
          blocks := blocks[cur := blocks[cur].(next := b)];
          AddPredecessor(b.value, cur);
          now := b.value;
        case Jmp(l) =>
          var b := Find(l);
          if b == None || cur + 1 == |blocks| {
            return false, cur;
          }
          Append(cur, i);
          blocks := blocks[cur := blocks[cur].(jmp := b, next := None)];
          AddPredecessor(b.value, cur);
          now := cur + 1;
        case Iff(_, l) =>
          if cur + 1 == |blocks| {
            return false, cur;
          }
          var b := Find(l);
          Append(cur, i);
          if b.Some? {
            blocks := blocks[cur := blocks[cur].(jmp := b)];
            AddPredecessor(b.value, cur);
          }
          now := cur + 1;
          blocks := blocks[cur := blocks[cur].(next := Some(now))];
          AddPredecessor(now, cur);
      }
    }

    method Build(code: seq<Ins>) returns (ok: bool)
      requires blocks == [] && count == 0
      modifies this
      ensures ok == BasicBlocks.Build(code).Some?
      ensures ok ==> blocks == BasicBlocks.Build(code).value && count == |blocks|
    {
      MakeBlocks(code);
      var cur, k := 0, 0;
      ok := true;
      while k < |code| && ok
        invariant k <= |code|
        invariant ok == BuildTo(code, k).Some?
        invariant ok ==> BuildTo(code, k) == Some(Building(blocks, cur)) && count == |blocks|
        invariant !ok ==> BuildTo(code, |code|).None?
      {
        ok, cur := PlaceNext(cur, code[k]);
        k := k + 1;
        if !ok {
          StaysNone(code, k, |code|);
        }
      }
    }
  }

  lemma {:induction false} StaysNone(code: seq<Ins>, k: nat, n: nat)
    requires k <= n <= |code| && BuildTo(code, k).None?
    ensures BuildTo(code, n).None?
  {
    if k < n {
      StaysNone(code, k, n - 1);
    }
  }
}
