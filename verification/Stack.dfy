/** The growable stack that holds the free registers. */
module Stacks {

  class Stack {
    var size: nat
    var cursize: nat
    var stack: array<int>

    ghost predicate Valid()
      reads this
    {
      size == stack.Length && cursize < size
    }

    ghost function Contents(): (s: seq<int>)
      reads this, stack
      requires Valid()
    {
      stack[..cursize]
    }

    constructor (initSize: nat)
      ensures Valid() && fresh(stack) && Contents() == []
      ensures size == if initSize < 10 then 10 else initSize
    {
      var n := if initSize < 10 then 10 else initSize;
      size := n;
      cursize := 0;
      stack := new int[n](_ => 0);
    }

    method NotEmpty() returns (b: bool)
      requires Valid()
      ensures b <==> |Contents()| > 0
    {
      b := cursize != 0;
    }

    /** The buffer doubles when one cell is left, so a push never fails for want of room. */
    method Push(data: int)
      requires Valid()
      modifies this, stack
      ensures Valid() && (stack == old(stack) || fresh(stack))
      ensures Contents() == old(Contents()) + [data]
      ensures size == if old(cursize) == old(size) - 1 then 2 * old(size) else old(size)
    {
      if cursize == size - 1 {
        var bigger := new int[size * 2];
        for i := 0 to cursize
          invariant unchanged(this) && unchanged(stack) && fresh(bigger)
          invariant bigger[..i] == stack[..i]
        {
          bigger[i] := stack[i];
        }
        stack := bigger;
        size := size * 2;
      }
      stack[cursize] := data;
      cursize := cursize + 1;
    }

    /** An empty stack yields NULL, the bit pattern of 0. */
    method Pop() returns (data: int)
      requires Valid()
      modifies this, stack
      ensures Valid() && stack == old(stack) && size == old(size)
      ensures old(cursize) > 0 ==> stack[cursize] == 0
      ensures old(cursize) == 0 ==> data == 0 && Contents() == []
      ensures old(cursize) > 0 ==>
        && data == old(Contents())[old(cursize) - 1]
        && Contents() == old(Contents())[..old(cursize) - 1]
    {
      if cursize == 0 {
        return 0;
      }
      cursize := cursize - 1;
      data := stack[cursize];
      stack[cursize] := 0;
    }
  }
}
