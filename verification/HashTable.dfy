/** The chained hash table: an array of head nodes, each with a list of further nodes behind it. */
module HashTable {
  import opened Options
  import opened Association

  class Node<D> {
    var key: int                  // the slot number; 0 in a head that is empty
    var keyTxt: Option<string>
    var data: Option<D>
    var next: Node?<D>

    constructor (key: int, keyTxt: Option<string>, data: Option<D>)
      ensures this.key == key && this.keyTxt == keyTxt && this.data == data && next == null
    {
      this.key, this.keyTxt, this.data, this.next := key, keyTxt, data, null;
    }
  }

  // ----- one list of nodes -----

  /** c is the list of nodes from its first one on. */
  ghost predicate Linked<D>(c: seq<Node<D>>)
    reads c
  {
    && c != []
    && (forall a, b :: 0 <= a < b < |c| ==> c[a] != c[b])
    && (forall a :: 0 <= a < |c| - 1 ==> c[a].next == c[a + 1])
    && c[|c| - 1].next == null
  }

  ghost predicate Stores<D>(n: Node<D>, i: nat, p: Pair<D>)
    reads n
  {
    n.keyTxt == Some(p.key) && n.data == Some(p.data) && n.key == i
  }

  /** An empty head. */
  ghost predicate Unused<D>(n: Node<D>)
    reads n
  {
    n.keyTxt == None && n.key == 0
  }

  /** The nodes of slot i hold the entries e: the head of slot 0 is never used, and behind an
      empty head of another slot there is nothing. */
  ghost predicate Holds<D>(c: seq<Node<D>>, i: nat, e: Chain<D>)
    reads c
  {
    && c != []
    && if i == 0 then Unused(c[0]) && |c| == |e| + 1 && forall a :: 0 <= a < |e| ==> Stores(c[a + 1], i, e[a])
       else if e == [] then Unused(c[0]) && |c| == 1
       else |c| == |e| && forall a :: 0 <= a < |e| ==> Stores(c[a], i, e[a])
  }

  /** The node with index a, or null behind the last one. */
  ghost function Item<D>(c: seq<Node<D>>, a: nat): Node?<D> {
    if a < |c| then c[a] else null
  }

  lemma NextItem<D>(c: seq<Node<D>>, a: nat)
    requires Linked(c) && a < |c|
    ensures c[a].next == Item(c, a + 1)
  {
  }

  // ----- walking -----

  /** Entry a of a chain is the one wanted, and none before it is. */
  lemma FirstAt<D>(e: Chain<D>, k: string, a: nat)
    requires a <= |e| && (a < |e| ==> e[a].key == k) && forall j :: 0 <= j < a ==> e[j].key != k
    ensures First(e, k) == a
  {
    if e != [] && a > 0 {
      FirstAt(e[1..], k, a - 1);
    }
  }

  /** The loop of lookup, update and removal: stops at the first node with the key, or at an empty
      head.  prev is the node before. */
  method Walk<D>(head: Node<D>, ghost c: seq<Node<D>>, ghost i: nat, ghost e: Chain<D>, k: string)
    returns (prev: Node?<D>, item: Node?<D>, ghost a: nat)
    requires Linked(c) && Holds(c, i, e) && head == c[0]
    ensures a <= |c| && item == Item(c, a) && prev == if a == 0 then null else c[a - 1]
    ensures i == 0 || e == [] ==> a == 0
    ensures i > 0 && e != [] ==> a == First(e, k)
  {
    prev, item, a := null, head, 0;
    while item != null && item.keyTxt != None && item.keyTxt != Some(k)
      invariant a <= |c| && item == Item(c, a) && prev == if a == 0 then null else c[a - 1]
      invariant i == 0 || e == [] ==> a == 0
      invariant i > 0 && e != [] ==> forall b :: 0 <= b < a ==> e[b].key != k
      decreases |c| - a
    {
      NextItem(c, a);
      prev := item;
      item := item.next;
      a := a + 1;
    }
    if i > 0 && e != [] {
      assert a < |e| ==> Stores(c[a], i, e[a]);
      FirstAt(e, k, a);
    }
  }

  method LastNode<D>(head: Node<D>, ghost c: seq<Node<D>>) returns (item: Node<D>)
    requires Linked(c) && head == c[0]
    ensures item == c[|c| - 1]
  {
    item := head;
    ghost var a := 0;
    while item.next != null
      invariant a < |c| && item == c[a]
      decreases |c| - a
    {
      NextItem(c, a);
      item := item.next;
      a := a + 1;
    }
    NextItem(c, a);
  }

  // ----- one slot -----

  method LookupIn<D>(head: Node<D>, ghost c: seq<Node<D>>, ghost i: nat, ghost e: Chain<D>, k: string) returns (r: Option<D>)
    requires Linked(c) && Holds(c, i, e) && head == c[0]
    ensures r == if i == 0 then None else Find(e, k)
  {
    var _, item, a := Walk(head, c, i, e, k);
    if item == null {
      return None;
    }
    r := if item.keyTxt.Some? then item.data else None;
  }

  /** The data of one node is replaced. */
  method SetData<D>(ghost c: seq<Node<D>>, ghost i: nat, ghost e: Chain<D>, item: Node<D>, ghost a: nat, d: D)
    requires Linked(c) && Holds(c, i, e) && a < |c| && item == c[a]
    modifies item`data
    ensures Linked(c)
    ensures i == 0 && a == 0 ==> Holds(c, i, e)
    ensures i > 0 ==> Holds(c, i, if a < |e| then e[a := Pair(e[a].key, d)] else e)
  {
    item.data := Some(d);
    assert forall b :: 0 <= b < |c| && b != a ==> c[b] != item;
    hide Linked;
  }

  method UpdateIn<D>(head: Node<D>, ghost c: seq<Node<D>>, ghost i: nat, ghost e: Chain<D>, k: string, d: D) returns (ghost f: Chain<D>)
    requires Linked(c) && Holds(c, i, e) && head == c[0]
    modifies c
    ensures f == if i == 0 then e else Update(e, k, d)
    ensures Linked(c) && Holds(c, i, f)
  {
    hide Linked, First;
    var _, item, a := Walk(head, c, i, e, k);
    f := if i == 0 then e else Update(e, k, d);
    if item != null {
      SetData(c, i, e, item, a, d);
    }
  }

  method LinkLast<D>(ghost c: seq<Node<D>>, item: Node<D>, n: Node<D>)
    requires Linked(c) && item == c[|c| - 1] && n !in c && n.next == null
    modifies item`next
    ensures Linked(c + [n])
  {
    item.next := n;
    ghost var r := c + [n];
    assert forall b :: 0 <= b < |c| - 1 ==> c[b] != item && c[b].next == c[b + 1];
    assert forall b :: 0 <= b < |c| ==> r[b] == c[b];
  }

  lemma HoldsMore<D>(c: seq<Node<D>>, i: nat, e: Chain<D>, n: Node<D>, p: Pair<D>)
    requires Holds(c, i, e) && Stores(n, i, p) && (i == 0 || e != [])
    ensures Holds(c + [n], i, e + [p])
  {
  }

  /** A node is linked in behind the last one. */
  method AppendNode<D>(head: Node<D>, ghost c: seq<Node<D>>, i: nat, ghost e: Chain<D>, k: string, d: D) returns (ghost r: seq<Node<D>>)
    requires Linked(c) && Holds(c, i, e) && head == c[0] && (i == 0 || e != [])
    modifies c
    ensures |r| == |c| + 1 && r[..|c|] == c && fresh(r[|c|..])
    ensures Linked(r) && Holds(r, i, e + [Pair(k, d)])
  {
    hide Linked;
    var item := LastNode(head, c);
    var n := new Node<D>(i, Some(k), Some(d));
    LinkLast(c, item, n);
    r := c + [n];
    assert Holds(c, i, e);
    hide Holds;
    HoldsMore(c, i, e, n, Pair(k, d));
  }

  /** An empty head is filled. */
  method FillHead<D>(head: Node<D>, ghost c: seq<Node<D>>, i: nat, k: string, d: D)
    requires Linked(c) && Holds(c, i, []) && head == c[0] && i > 0
    modifies head
    ensures Linked(c) && Holds(c, i, [Pair(k, d)])
  {
    head.data := Some(d);
    head.key := i;
    head.keyTxt := Some(k);
    head.next := null;
  }

  lemma HeadKey<D>(c: seq<Node<D>>, i: nat, e: Chain<D>)
    requires Holds(c, i, e)
    ensures c[0].key == i <==> i == 0 || e != []
  {
  }

  method InsertIn<D>(head: Node<D>, ghost c: seq<Node<D>>, i: nat, ghost e: Chain<D>, k: string, d: D) returns (ghost r: seq<Node<D>>)
    requires Linked(c) && Holds(c, i, e) && head == c[0]
    modifies c
    ensures |r| >= |c| && r[..|c|] == c && fresh(r[|c|..])
    ensures Linked(r) && Holds(r, i, e + [Pair(k, d)])
  {
    HeadKey(c, i, e);
    hide Linked, Holds;
    if head.key == i {
      r := AppendNode(head, c, i, e, k, d);
    } else {
      FillHead(head, c, i, k, d);
      r := c;
      assert e + [Pair(k, d)] == [Pair(k, d)];
    }
  }

  method Bypass<D>(ghost c: seq<Node<D>>, prev: Node<D>, item: Node<D>, ghost a: nat)
    requires Linked(c) && 0 < a < |c| && item == c[a] && prev == c[a - 1]
    modifies prev`next
    ensures Linked(c[..a] + c[a + 1..])
  {
    NextItem(c, a);
    prev.next := item.next;
    ghost var r := c[..a] + c[a + 1..];
    assert forall b :: 0 <= b < |r| ==> r[b] == if b < a then c[b] else c[b + 1];
    assert forall b :: 0 <= b < |c| && b != a - 1 ==> c[b].next == old(c[b].next);
  }

  /** A node behind the head is unlinked. */
  method Unlink<D>(ghost c: seq<Node<D>>, ghost i: nat, ghost e: Chain<D>, prev: Node<D>, item: Node<D>, ghost a: nat)
    requires Linked(c) && Holds(c, i, e) && i > 0 && 0 < a < |c| == |e| && item == c[a] && prev == c[a - 1]
    modifies prev`next
    ensures Linked(c[..a] + c[a + 1..]) && Holds(c[..a] + c[a + 1..], i, e[..a] + e[a + 1..])
  {
    hide Linked;
    Bypass(c, prev, item, a);
    assert Holds(c, i, e);
    hide Holds;
    HoldsLess(c, i, e, a);
  }

  lemma HoldsLess<D>(c: seq<Node<D>>, i: nat, e: Chain<D>, a: nat)
    requires Holds(c, i, e) && i > 0 && 0 < a < |e|
    ensures Holds(c[..a] + c[a + 1..], i, e[..a] + e[a + 1..])
  {
    var r, f := c[..a] + c[a + 1..], e[..a] + e[a + 1..];
    forall b | 0 <= b < |f| ensures Stores(r[b], i, f[b]) {
      assert r[b] == if b < a then c[b] else c[b + 1];
      assert f[b] == if b < a then e[b] else e[b + 1];
    }
  }

  /** The node behind the head is copied into the head. */
  method CopyDown<D>(head: Node<D>, ghost c: seq<Node<D>>, ghost i: nat, ghost e: Chain<D>)
    requires Linked(c) && Holds(c, i, e) && head == c[0] && i > 0 && |e| > 1
    modifies head
    ensures Linked([head] + c[2..]) && Holds([head] + c[2..], i, e[1..])
  {
    NextItem(c, 0);
    NextItem(c, 1);
    var n := head.next;
    assert Stores(n, i, e[1]);
    head.key, head.keyTxt, head.data, head.next := n.key, n.keyTxt, n.data, n.next;
    ghost var r := [head] + c[2..];
    assert forall b :: 0 < b < |r| ==> r[b] == c[b + 1] && r[b] != head;
    assert Linked(r);
    hide Linked;
    assert forall b :: 1 < b < |e| ==> c[b] != head && Stores(c[b], i, e[b]);
  }

  method ClearHead<D>(head: Node<D>, ghost c: seq<Node<D>>, ghost i: nat, ghost e: Chain<D>) returns (r: Option<D>)
    requires Linked(c) && Holds(c, i, e) && head == c[0] && i > 0 && |e| == 1
    modifies head
    ensures Linked(c) && Holds(c, i, []) && r == Some(e[0].data)
  {
    assert Stores(head, i, e[0]);
    head.key := 0;
    head.keyTxt := None;
    r := head.data;
    head.data := None;
  }

  /** Removal of the first node. */
  method RemoveHead<D>(head: Node<D>, ghost c: seq<Node<D>>, ghost i: nat, ghost e: Chain<D>)
    returns (ret: Option<D>, ghost r: seq<Node<D>>)
    requires Linked(c) && Holds(c, i, e) && head == c[0] && i > 0 && e != []
    modifies head
    ensures r != [] && r[0] == head && forall n :: n in r ==> n in c
    ensures Linked(r) && Holds(r, i, e[1..]) && ret == if |e| > 1 then None else Some(e[0].data)
  {
    NextItem(c, 0);
    assert |c| == |e|;
    hide Linked, Holds;
    if head.next != null {
      CopyDown(head, c, i, e);
      ret, r := None, [head] + c[2..];
    } else {
      ret := ClearHead(head, c, i, e);
      r := c;
      assert e[1..] == [];
    }
  }

  /** Removal from a slot that is in use; with an empty head the compiler would fault. */
  method RemoveIn<D>(head: Node<D>, ghost c: seq<Node<D>>, ghost i: nat, ghost e: Chain<D>, k: string)
    returns (ret: Option<D>, ghost r: seq<Node<D>>)
    requires Linked(c) && Holds(c, i, e) && head == c[0] && head.keyTxt != None
    modifies c
    ensures r != [] && r[0] == head && forall n :: n in r ==> n in c
    ensures Linked(r) && Holds(r, i, Remove(e, k)) && Returns(e, k, ret)
  {
    var prev, item, a := Walk(head, c, i, e, k);
    assert i > 0 && e != [] && |c| == |e|;
    ret, r := None, c;
    if item != null {
      assert Stores(item, i, e[a]);
      hide Linked, First, Holds;
      if prev != null {
        ret := item.data;
        Unlink(c, i, e, prev, item, a);
        r := c[..a] + c[a + 1..];
      } else {
        ret, r := RemoveHead(head, c, i, e);
        assert Remove(e, k) == e[1..];
      }
    }
    ReturnsFirst(e, k, ret);
    hide Returns;
  }
}
