/** Sets of small numbers as arrays of bytes, one bit per number. */
module BitSets {
  type Bytes = seq<bv8>

  function Mask(k: nat): bv8
    requires k < 8
  {
    if k == 0 then 1 else if k == 1 then 2 else if k == 2 then 4 else if k == 3 then 8
    else if k == 4 then 16 else if k == 5 then 32 else if k == 6 then 64 else 128
  }

  predicate Bit(x: bv8, k: nat)
    requires k < 8
  {
    x & Mask(k) != 0
  }

  function Raise(x: bv8, k: nat): bv8
    requires k < 8
  {
    x | Mask(k)
  }

  function Lower(x: bv8, k: nat): bv8
    requires k < 8
  {
    x & !Mask(k)
  }

  predicate TestBit(s: Bytes, b: nat)
    requires b / 8 < |s|
  {
    Bit(s[b / 8], b % 8)
  }

  function SetBit(s: Bytes, b: nat): Bytes
    requires b / 8 < |s|
  {
    s[b / 8 := Raise(s[b / 8], b % 8)]
  }

  function ClearBit(s: Bytes, b: nat): Bytes
    requires b / 8 < |s|
  {
    s[b / 8 := Lower(s[b / 8], b % 8)]
  }

  /** Enough bytes for n bits. */
  function Slots(n: nat): (k: nat)
    ensures forall b: nat :: b < n ==> b / 8 < k
    ensures k > 0 ==> 8 * (k - 1) < n
  {
    (n + 7) / 8
  }

  function Members(s: Bytes): (m: set<nat>)
  {
    set b: nat | b < 8 * |s| && TestBit(s, b)
  }

  lemma BitChanged(x: bv8, i: nat, j: nat)
    requires i < 8 && j < 8
    ensures Bit(Raise(x, i), j) <==> i == j || Bit(x, j)
    ensures Bit(Lower(x, i), j) <==> i != j && Bit(x, j)
  {
  }

  lemma SetBitTest(s: Bytes, b: nat, c: nat)
    requires b / 8 < |s| && c / 8 < |s|
    ensures TestBit(SetBit(s, b), c) <==> c == b || TestBit(s, c)
    ensures TestBit(ClearBit(s, b), c) <==> c != b && TestBit(s, c)
  {
    hide Bit, Raise, Lower;
    BitChanged(s[b / 8], b % 8, c % 8);
    assert b == 8 * (b / 8) + b % 8 && c == 8 * (c / 8) + c % 8;
  }

  lemma SetBitMembers(s: Bytes, b: nat)
    requires b / 8 < |s|
    ensures Members(SetBit(s, b)) == Members(s) + {b}
    ensures Members(ClearBit(s, b)) == Members(s) - {b}
  {
    forall c: nat | c < 8 * |s|
      ensures TestBit(SetBit(s, b), c) <==> c == b || TestBit(s, c)
      ensures TestBit(ClearBit(s, b), c) <==> c != b && TestBit(s, c)
    {
      SetBitTest(s, b, c);
    }
    assert b < 8 * |s|;
    hide TestBit;
  }

  method Set(a: array<bv8>, b: nat)
    requires b / 8 < a.Length
    modifies a
    ensures Members(a[..]) == Members(old(a[..])) + {b}
  {
    SetBitMembers(a[..], b);
    a[b / 8] := Raise(a[b / 8], b % 8);
    assert a[..] == SetBit(old(a[..]), b);
  }

  method Clear(a: array<bv8>, b: nat)
    requires b / 8 < a.Length
    modifies a
    ensures Members(a[..]) == Members(old(a[..])) - {b}
  {
    SetBitMembers(a[..], b);
    a[b / 8] := Lower(a[b / 8], b % 8);
    assert a[..] == ClearBit(old(a[..]), b);
  }

  method Test(a: array<bv8>, b: nat) returns (r: bool)
    requires b / 8 < a.Length
    ensures r <==> b in Members(a[..])
  {
    r := Bit(a[b / 8], b % 8);
    assert b < 8 * a.Length;
    assert r == TestBit(a[..], b);
    hide TestBit;
  }

  lemma {:induction false} NoMembers(s: Bytes)
    requires forall i :: 0 <= i < |s| ==> s[i] == 0
    ensures Members(s) == {}
  {
    forall b: nat | b < 8 * |s| ensures !TestBit(s, b) {
      assert s[b / 8] == 0;
      ZeroByte(b % 8);
    }
    hide TestBit;
  }

  lemma ZeroByte(k: nat)
    requires k < 8
    ensures !Bit(0, k)
  {
  }
}
