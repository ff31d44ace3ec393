/** The hash table as a whole: every operation works on the chain of one slot. */
module SymbolTable {
  import opened Options
  import opened Association
  import opened HashTable

  ghost predicate Apart<D>(chains: seq<seq<Node<D>>>) {
    forall i, j, a, b :: 0 <= i < |chains| && 0 <= j < |chains| && i != j && 0 <= a < |chains[i]| && 0 <= b < |chains[j]|
      ==> chains[i][a] != chains[j][b]
  }

  class SymTab<D(!new)> {
    const slots: nat
    const hash: string -> nat
    const tab: array<Node<D>>
    ghost var chains: seq<seq<Node<D>>>
    ghost var entries: Table<D>

    constructor (slots: nat, hash: string -> nat)
      requires slots > 0 && HashesInto(hash, slots)
      ensures Valid() && this.slots == slots && this.hash == hash && entries == Empty(slots)
      ensures fresh(tab) && fresh(Nodes())
    {
      this.slots, this.hash := slots, hash;
      var t, c := EmptyHeads<D>(slots);
      tab, chains, entries := t, c, Empty(slots);
      new;
      hide Linked, Holds, Apart;
      forall i | 0 <= i < slots ensures SlotValid(i) {
        InNodes(i);
      }
    }

    ghost function Nodes(): set<Node<D>>
      reads this
    {
      set i, a | 0 <= i < |chains| && 0 <= a < |chains[i]| :: chains[i][a]
    }

    ghost predicate Valid()
      reads this, tab, Nodes()
    {
      && HashesInto(hash, slots) && tab.Length == slots && |chains| == slots && |entries| == slots
      && Apart(chains)
      && (forall i :: 0 <= i < slots ==> SlotValid(i))
    }

    ghost predicate SlotValid(i: nat)
      reads this, tab, Nodes()
      requires i < tab.Length && i < |chains| && i < |entries|
    {
      && Inside(chains[i], Nodes()) && chains[i] != [] && chains[i][0] == tab[i]
      && Linked(chains[i]) && Holds(chains[i], i, entries[i])
    }

    /** The lists of distinct slots share no node. */
    lemma OtherSlots(h: nat, i: nat)
      requires Apart(chains) && h < |chains| && i < |chains| && h != i
      ensures forall n :: n in chains[i] ==> n !in chains[h]
    {
    }

    lemma InNodes(h: nat)
      requires h < |chains|
      ensures forall n :: n in chains[h] ==> n in Nodes()
    {
    }

    method Lookup(k: string) returns (r: Option<D>)
      requires Valid()
      ensures r == Association.Lookup(entries, hash, k)
    {
      var h := hash(k);
      assert h < slots && SlotValid(h);
      r := LookupIn(tab[h], chains[h], h, entries[h], k);
    }

    method Update(k: string, d: D)
      requires Valid()
      modifies Nodes(), this`entries, this`chains
      ensures Valid() && chains == old(chains)
      ensures entries == Act(old(entries), hash, Change(k, d))
    {
      hide Linked, Holds, Inside, Association.Update;
      var h := hash(k);
      assert h < slots && SlotValid(h);
      forall i | 0 <= i < slots && i != h ensures forall n :: n in chains[i] ==> n !in chains[h] {
        OtherSlots(h, i);
      }
      hide Apart;
      InNodes(h);
      ghost var f := UpdateIn(tab[h], chains[h], h, entries[h], k, d);
      forall i | 0 <= i < slots && i != h ensures SlotValid(i) {
        assert old(SlotValid(i));
      }
      assert chains[h := chains[h]] == chains;
      Install(h, chains[h], f);
    }

    /** A chain is exchanged for one that shares no node with the others. */
    lemma StaysApart(h: nat, r: seq<Node<D>>)
      requires Apart(chains) && h < |chains|
      requires forall i, b :: 0 <= i < |chains| && i != h && 0 <= b < |chains[i]| ==> chains[i][b] !in r
      ensures Apart(chains[h := r])
    {
    }

    method Insert(k: string, d: D)
      requires Valid()
      modifies Nodes(), this`entries, this`chains
      ensures Valid() && fresh(Nodes() - old(Nodes()))
      ensures entries == Act(old(entries), hash, Insertion(k, d))
    {
      hide Linked, Holds, Inside;
      var h := hash(k);
      assert h < slots && SlotValid(h);
      forall i | 0 <= i < slots && i != h ensures forall n :: n in chains[i] ==> n !in chains[h] {
        OtherSlots(h, i);
      }
      InNodes(h);
      ghost var c := chains[h];
      ghost var r := InsertIn(tab[h], c, h, entries[h], k, d);
      Split(r, |c|);
      forall i, b | 0 <= i < |chains| && i != h && 0 <= b < |chains[i]| ensures chains[i][b] !in r {
        assert chains[i][b] in chains[i];
      }
      StaysApart(h, r);
      hide Apart;
      forall i | 0 <= i < slots && i != h ensures SlotValid(i) {
        assert old(SlotValid(i));
      }
      Install(h, r, entries[h] + [Pair(k, d)]);
    }

    /** The exchange of a chain, as far as the ghost state goes. */
    ghost method Install(h: nat, r: seq<Node<D>>, e: Chain<D>)
      requires h < slots == tab.Length == |chains| == |entries| && HashesInto(hash, slots)
      requires Apart(chains[h := r]) && Linked(r) && Holds(r, h, e) && r != [] && r[0] == tab[h]
      requires forall i :: 0 <= i < slots && i != h ==> SlotValid(i)
      modifies this`entries, this`chains
      ensures Valid() && chains == old(chains)[h := r] && entries == old(entries)[h := e]
      ensures forall n :: n in Nodes() ==> n in old(Nodes()) || n in r
    {
      hide Linked, Holds, Apart;
      chains := chains[h := r];
      entries := entries[h := e];
      forall i | 0 <= i < slots ensures SlotValid(i) {
        assert i != h ==> old(SlotValid(i));
      }
    }

    lemma Split(r: seq<Node<D>>, m: nat)
      requires m <= |r|
      ensures forall n :: n in r ==> n in r[..m] || n in r[m..]
    {
    }

    /** A head is empty exactly where removal faults. */
    lemma FaultsAtEmptyHead(k: string)
      requires Valid()
      ensures Faults(entries, hash, Removal(k)) <==> tab[hash(k)].keyTxt == None
      ensures Faults(entries, hash, Removal(k)) <== hash(k) == 0
    {
      var h := hash(k);
      assert h < slots && SlotValid(h);
      assert h > 0 && entries[h] != [] ==> Stores(chains[h][0], h, entries[h][0]);
    }

    /** The slot of the key must be in use: the compiler only removes keys that are present. */
    method Remove(k: string) returns (ret: Option<D>)
      requires Valid() && !Faults(entries, hash, Removal(k))
      modifies Nodes(), this`entries, this`chains
      ensures Valid() && Nodes() <= old(Nodes())
      ensures entries == Act(old(entries), hash, Removal(k))
      ensures Returns(old(entries)[hash(k)], k, ret)
    {
      hide Linked, Inside, Association.Remove, Returns, Faults;
      FaultsAtEmptyHead(k);
      var h := hash(k);
      assert h < slots && SlotValid(h);
      assert h > 0;
      hide Holds;
      forall i | 0 <= i < slots && i != h ensures forall n :: n in chains[i] ==> n !in chains[h] {
        OtherSlots(h, i);
      }
      InNodes(h);
      ghost var c := chains[h];
      ghost var r;
      ret, r := RemoveIn(tab[h], c, h, entries[h], k);
      forall i, b | 0 <= i < |chains| && i != h && 0 <= b < |chains[i]| ensures chains[i][b] !in r {
        assert chains[i][b] in chains[i];
      }
      StaysApart(h, r);
      hide Apart;
      forall i | 0 <= i < slots && i != h ensures SlotValid(i) {
        assert old(SlotValid(i));
      }
      Install(h, r, Association.Remove(entries[h], k));
    }

    /** The visiting function is called with each data in turn; what it saw is returned. */
    method Iterate() returns (seen: seq<D>)
      requires Valid()
      ensures |seen| == |Visited(entries, slots)|
      ensures forall a :: 0 <= a < |seen| ==> seen[a] == Visited(entries, slots)[a].data
    {
      seen := [];
      for i := 0 to slots
        invariant |seen| == |Visited(entries, i)|
        invariant forall a :: 0 <= a < |seen| ==> seen[a] == Visited(entries, i)[a].data
      {
        assert SlotValid(i);
        var more := VisitSlot(tab[i], chains[i], i, entries[i]);
        seen := seen + more;
      }
    }
  }

  /** The data of one slot; a slot with an empty head is passed over. */
  method VisitSlot<D>(head: Node<D>, ghost c: seq<Node<D>>, ghost i: nat, ghost e: Chain<D>) returns (seen: seq<D>)
    requires Linked(c) && Holds(c, i, e) && head == c[0]
    ensures i == 0 ==> seen == []
    ensures i > 0 ==> |seen| == |e| && forall a :: 0 <= a < |e| ==> seen[a] == e[a].data
  {
    seen := [];
    if head.keyTxt != None {
      assert i > 0 && |c| == |e|;
      assert Stores(c[0], i, e[0]);
      var item := head.next;
      NextItem(c, 0);
      seen := [head.data.value];
      ghost var a := 1;
      while item != null
        invariant 0 < a <= |c| && item == Item(c, a) && |seen| == a
        invariant forall b :: 0 <= b < a ==> seen[b] == e[b].data
        decreases |c| - a
      {
        NextItem(c, a);
        assert Stores(c[a], i, e[a]);
        seen := seen + [item.data.value];
        item := item.next;
        a := a + 1;
      }
    }
  }

  ghost predicate Inside<D>(c: seq<Node<D>>, s: set<Node<D>>) {
    forall a :: 0 <= a < |c| ==> c[a] in s
  }

  /** Empty heads, one for each slot. */
  method EmptyHeads<D(!new)>(slots: nat) returns (tab: array<Node<D>>, ghost chains: seq<seq<Node<D>>>)
    requires slots > 0
    ensures fresh(tab) && tab.Length == slots == |chains| && Apart(chains)
    ensures forall i :: 0 <= i < slots ==> chains[i] == [tab[i]] && fresh(tab[i]) && Linked(chains[i]) && Holds(chains[i], i, [])
  {
    var heads: seq<Node<D>> := [];
    while |heads| < slots
      invariant |heads| <= slots
      invariant forall i :: 0 <= i < |heads| ==> fresh(heads[i]) && Unused(heads[i]) && heads[i].next == null
      invariant forall i, j :: 0 <= i < j < |heads| ==> heads[i] != heads[j]
    {
      var n := new Node<D>(0, None, None);
      heads := heads + [n];
    }
    tab := new Node<D>[slots](i requires 0 <= i < slots => heads[i]);
    chains := seq(slots, i requires 0 <= i < slots => [heads[i]]);
    assert Apart(chains) by {
      forall i, j, a, b | 0 <= i < |chains| && 0 <= j < |chains| && i != j && 0 <= a < |chains[i]| && 0 <= b < |chains[j]|
        ensures chains[i][a] != chains[j][b]
      {
        assert chains[i][a] == heads[i] && chains[j][b] == heads[j];
      }
    }
  }
}
