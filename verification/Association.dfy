/** What the chained hash table means: for every key the data inserted under it, oldest first.

    Keys that hash to slot 0 are never found; the others behave as in the association, as long as
    nothing is removed from a slot with an empty head. */
module Association {
  import opened Options

  datatype Pair<D> = Pair(key: string, data: D)

  type Chain<D> = seq<Pair<D>>

  // ----- one chain -----

  /** The position of the first entry with the key; the length if there is none. */
  function First<D>(c: Chain<D>, k: string): (i: nat)
    ensures i <= |c| && (i < |c| ==> c[i].key == k) && forall j :: 0 <= j < i ==> c[j].key != k
  {
    if c == [] || c[0].key == k then 0 else 1 + First(c[1..], k)
  }

  function Find<D>(c: Chain<D>, k: string): Option<D> {
    if First(c, k) < |c| then Some(c[First(c, k)].data) else None
  }

  function Update<D>(c: Chain<D>, k: string, d: D): Chain<D> {
    var i := First(c, k);
    if i < |c| then c[i := Pair(k, d)] else c
  }

  function Remove<D>(c: Chain<D>, k: string): Chain<D> {
    var i := First(c, k);
    if i < |c| then c[..i] + c[i + 1..] else c
  }

  /** The data under one key, in chain order. */
  function DataOf<D>(c: Chain<D>, k: string): seq<D> {
    if c == [] then [] else (if c[0].key == k then [c[0].data] else []) + DataOf(c[1..], k)
  }

  function Own<D>(p: Pair<D>, k: string): seq<D> {
    if p.key == k then [p.data] else []
  }

  lemma DataFront<D>(c: Chain<D>, p: Pair<D>, k: string)
    ensures DataOf([p] + c, k) == Own(p, k) + DataOf(c, k)
  {
    assert ([p] + c)[0] == p && ([p] + c)[1..] == c;
  }

  lemma NoneFront<D>(b: Chain<D>, k: string)
    ensures DataOf([] + b, k) == DataOf([], k) + DataOf(b, k)
  {
    assert [] + b == b;
  }

  lemma {:induction false} DataAppend<D>(a: Chain<D>, b: Chain<D>, k: string)
    ensures DataOf(a + b, k) == DataOf(a, k) + DataOf(b, k)
  {
    hide DataOf, Own;
    if a == [] {
      NoneFront(b, k);
    } else {
      var p, rest := a[0], a[1..];
      assert a == [p] + rest && a + b == [p] + (rest + b);
      DataAppend(rest, b, k);
      DataFront(rest, p, k);
      DataFront(rest + b, p, k);
      Regroup(Own(p, k), DataOf(rest, k), DataOf(b, k));
    }
  }

  lemma Regroup<D>(a: seq<D>, b: seq<D>, c: seq<D>)
    ensures a + (b + c) == a + b + c
  {
  }

  lemma {:induction false} NoData<D>(c: Chain<D>, k: string)
    requires forall i :: 0 <= i < |c| ==> c[i].key != k
    ensures DataOf(c, k) == []
  {
    if c != [] {
      NoData(c[1..], k);
    }
  }

  /** A chain taken apart at the first entry with the key. */
  lemma DataSplit<D>(c: Chain<D>, k: string, j: string)
    requires First(c, k) < |c|
    ensures var i := First(c, k);
      && DataOf(c, j) == DataOf(c[..i], j) + DataOf([c[i]], j) + DataOf(c[i + 1..], j)
      && DataOf(c[..i], k) == [] && DataOf([c[i]], j) == if j == k then [c[i].data] else []
  {
    var i := First(c, k);
    assert c == c[..i] + [c[i]] + c[i + 1..];
    DataAppend(c[..i] + [c[i]], c[i + 1..], j);
    DataAppend(c[..i], [c[i]], j);
    NoData(c[..i], k);
    assert [c[i]][1..] == [];
  }

  /** The entry found is the oldest one. */
  lemma FindsOldest<D>(c: Chain<D>, k: string)
    ensures Find(c, k) == if DataOf(c, k) == [] then None else Some(DataOf(c, k)[0])
  {
    if First(c, k) < |c| {
      DataSplit(c, k, k);
    } else {
      NoData(c, k);
    }
  }

  lemma InsertData<D>(c: Chain<D>, k: string, d: D, j: string)
    ensures DataOf(c + [Pair(k, d)], j) == DataOf(c, j) + if j == k then [d] else []
  {
    DataAppend(c, [Pair(k, d)], j);
    assert [Pair(k, d)][1..] == [];
  }

  lemma UpdateData<D>(c: Chain<D>, k: string, d: D, j: string)
    ensures DataOf(Update(c, k, d), j)
         == if j == k && DataOf(c, k) != [] then [d] + DataOf(c, k)[1..] else DataOf(c, j)
  {
    var i := First(c, k);
    if i < |c| {
      DataSplit(c, k, j);
      DataSplit(c, k, k);
      var u := Update(c, k, d);
      assert u == c[..i] + [Pair(k, d)] + c[i + 1..];
      hide DataOf, First, Update;
      DataAppend(c[..i] + [Pair(k, d)], c[i + 1..], j);
      InsertData(c[..i], k, d, j);
    } else {
      NoData(c, k);
    }
  }

  lemma RemoveData<D>(c: Chain<D>, k: string, j: string)
    ensures DataOf(Remove(c, k), j) == if j == k && DataOf(c, k) != [] then DataOf(c, k)[1..] else DataOf(c, j)
  {
    var i := First(c, k);
    if i < |c| {
      assert Remove(c, k) == c[..i] + c[i + 1..];
      hide DataOf, Remove, First;
      DataSplit(c, k, j);
      DataSplit(c, k, k);
      DataAppend(c[..i], c[i + 1..], j);
    } else {
      NoData(c, k);
    }
  }

  // ----- tables -----

  /** The chain of every slot. */
  type Table<D> = seq<Chain<D>>

  datatype Action<D> = Insertion(key: string, data: D) | Change(key: string, data: D) | Removal(key: string)

  /** Removal from a slot whose head is empty compares the key with a null pointer. */
  predicate Faults<D>(t: Table<D>, hash: string -> nat, a: Action<D>)
    requires hash(a.key) < |t|
  {
    a.Removal? && (hash(a.key) == 0 || t[hash(a.key)] == [])
  }

  /** The table after an action. */
  function Act<D>(t: Table<D>, hash: string -> nat, a: Action<D>): Table<D>
    requires hash(a.key) < |t| && !Faults(t, hash, a)
  {
    var h := hash(a.key);
    match a
    case Insertion(k, d) => t[h := t[h] + [Pair(k, d)]]
    case Change(k, d) => if h == 0 then t else t[h := Update(t[h], k, d)]
    case Removal(k) => t[h := Remove(t[h], k)]
  }

  /** The chain of slot 0 exists, but is hidden behind an empty head. */
  function Lookup<D>(t: Table<D>, hash: string -> nat, k: string): Option<D>
    requires hash(k) < |t|
  {
    if hash(k) == 0 then None else Find(t[hash(k)], k)
  }

  /** The entries that iteration visits, in order. */
  function Visited<D>(t: Table<D>, n: nat): seq<Pair<D>>
    requires n <= |t|
  {
    if n <= 1 then [] else Visited(t, n - 1) + t[n - 1]
  }

  ghost predicate HashesInto(hash: string -> nat, n: nat) {
    forall k :: hash(k) < n
  }

  /** Every entry is in the slot of its key. */
  ghost predicate InSlots<D(!new)>(t: Table<D>, hash: string -> nat) {
    forall i, j :: 0 <= i < |t| && 0 <= j < |t[i]| ==> hash(t[i][j].key) == i
  }

  /** The table after some actions on an empty one, unless one of them faults. */
  function RunTable<D>(n: nat, hash: string -> nat, actions: seq<Action<D>>): (t: Option<Table<D>>)
    requires HashesInto(hash, n)
    ensures t.Some? ==> |t.value| == n
  {
    if actions == [] then Some(Empty(n))
    else
      var m := |actions| - 1;
      match RunTable(n, hash, actions[..m])
      case None => None
      case Some(t) => if Faults(t, hash, actions[m]) then None else Some(Act(t, hash, actions[m]))
  }

  function Empty<D>(n: nat): (t: Table<D>)
    ensures |t| == n && forall i :: 0 <= i < n ==> t[i] == []
  {
    if n == 0 then [] else Empty(n - 1) + [[]]
  }

  // ----- the association -----

  /** The data under one key after some actions, oldest first: insertion appends, a change concerns
      the oldest, and removal takes the oldest away. */
  function Meaning<D>(actions: seq<Action<D>>, k: string): seq<D> {
    if actions == [] then []
    else
      var m := |actions| - 1;
      var was := Meaning(actions[..m], k);
      var a := actions[m];
      if a.key != k then was
      else
        match a
        case Insertion(_, d) => was + [d]
        case Change(_, d) => if was == [] then [] else [d] + was[1..]
        case Removal(_) => if was == [] then [] else was[1..]
  }

  lemma ActData<D(!new)>(t: Table<D>, hash: string -> nat, a: Action<D>, k: string)
    requires HashesInto(hash, |t|) && hash(k) != 0 && !Faults(t, hash, a)
    ensures DataOf(Act(t, hash, a)[hash(k)], k)
         == (var was := DataOf(t[hash(k)], k);
             if a.key != k then was
             else match a
               case Insertion(_, d) => was + [d]
               case Change(_, d) => if was == [] then [] else [d] + was[1..]
               case Removal(_) => if was == [] then [] else was[1..])
  {
    var c := t[hash(k)];
    match a
    case Insertion(j, d) => InsertData(c, j, d, k);
    case Change(j, d) => UpdateData(c, j, d, k);
    case Removal(j) => RemoveData(c, j, k);
  }

  /** After any actions each chain holds, under each key, what the association says. */
  lemma {:induction false} RunData<D(!new)>(n: nat, hash: string -> nat, actions: seq<Action<D>>, k: string)
    requires HashesInto(hash, n) && hash(k) != 0 && RunTable(n, hash, actions).Some?
    ensures DataOf(RunTable(n, hash, actions).value[hash(k)], k) == Meaning(actions, k)
  {
    if actions != [] {
      var m := |actions| - 1;
      RunData(n, hash, actions[..m], k);
      hide DataOf, Act;
      ActData(RunTable(n, hash, actions[..m]).value, hash, actions[m], k);
    }
  }

  /** After any insertions, changes and removals, none of which faults, the table finds exactly what the association
      holds, for every key outside slot 0; keys of slot 0 are not found. */
  lemma LookupMeaning<D(!new)>(n: nat, hash: string -> nat, actions: seq<Action<D>>, k: string)
    requires HashesInto(hash, n) && RunTable(n, hash, actions).Some?
    ensures Lookup(RunTable(n, hash, actions).value, hash, k)
         == if hash(k) == 0 || Meaning(actions, k) == [] then None else Some(Meaning(actions, k)[0])
  {
    if hash(k) != 0 {
      RunData(n, hash, actions, k);
      FindsOldest(RunTable(n, hash, actions).value[hash(k)], k);
    }
    hide RunTable, Meaning, DataOf, Find;
  }

  // ----- what the slots hold -----

  /** All entries after some actions, in the order of their insertion. */
  function Live<D>(actions: seq<Action<D>>): Chain<D> {
    if actions == [] then []
    else
      var m := |actions| - 1;
      var was := Live(actions[..m]);
      match actions[m]
      case Insertion(k, d) => was + [Pair(k, d)]
      case Change(k, d) => Update(was, k, d)
      case Removal(k) => Remove(was, k)
  }

  /** The entries of one slot. */
  function InSlot<D>(c: Chain<D>, hash: string -> nat, h: nat): Chain<D> {
    if c == [] then [] else (if hash(c[0].key) == h then [c[0]] else []) + InSlot(c[1..], hash, h)
  }

  lemma UpdateFront<D>(c: Chain<D>, k: string, d: D)
    requires c != []
    ensures Update(c, k, d) == if c[0].key == k then [Pair(k, d)] + c[1..] else [c[0]] + Update(c[1..], k, d)
  {
  }

  lemma RemoveIs<D>(c: Chain<D>, k: string)
    ensures var i := First(c, k); Remove(c, k) == if i < |c| then c[..i] + c[i + 1..] else c
  {
  }

  lemma FirstFront<D>(c: Chain<D>, k: string)
    requires c != []
    ensures First(c, k) == if c[0].key == k then 0 else First(c[1..], k) + 1
  {
  }

  lemma RemoveFront<D>(c: Chain<D>, k: string)
    requires c != []
    ensures Remove(c, k) == if c[0].key == k then c[1..] else [c[0]] + Remove(c[1..], k)
  {
    var i := First(c[1..], k);
    hide *;
    FirstFront(c, k);
    RemoveIs(c, k);
    RemoveIs(c[1..], k);
    if c[0].key == k {
      assert c[..0] + c[1..] == c[1..];
    } else if i < |c[1..]| {
      CutFront(c, i);
    } else {
      assert [c[0]] + c[1..] == c;
    }
  }

  lemma CutFront<T>(c: seq<T>, i: nat)
    requires i + 1 < |c|
    ensures c[..i + 1] + c[i + 2..] == [c[0]] + (c[1..][..i] + c[1..][i + 1..])
  {
    var rest := c[1..];
    assert rest[i + 1..] == c[i + 2..];
    assert [c[0]] + rest[..i] == c[..i + 1];
  }

  lemma SlotFront<D>(p: Pair<D>, c: Chain<D>, hash: string -> nat, h: nat)
    ensures InSlot([p] + c, hash, h) == if hash(p.key) == h then [p] + InSlot(c, hash, h) else InSlot(c, hash, h)
  {
    assert ([p] + c)[1..] == c;
  }

  lemma NoneInSlot<D>(k: string, hash: string -> nat, h: nat)
    ensures InSlot<D>([], hash, h) == [] && Remove<D>([], k) == [] && forall d: D :: Update([], k, d) == []
  {
  }

  lemma {:induction false} SlotInsert<D>(c: Chain<D>, p: Pair<D>, hash: string -> nat, h: nat)
    ensures InSlot(c + [p], hash, h) == if hash(p.key) == h then InSlot(c, hash, h) + [p] else InSlot(c, hash, h)
  {
    hide InSlot;
    if c == [] {
      NoneInSlot<D>(p.key, hash, h);
      SlotFront(p, [], hash, h);
      assert [p] + [] == [p] == c + [p];
    } else {
      var q, rest := c[0], c[1..];
      SlotInsert(rest, p, hash, h);
      assert c == [q] + rest;
      assert c + [p] == [q] + (rest + [p]);
      SlotFront(q, rest, hash, h);
      SlotFront(q, rest + [p], hash, h);
      Regroup([q], InSlot(rest, hash, h), [p]);
    }
  }

  lemma UpdateCons<D>(p: Pair<D>, c: Chain<D>, k: string, d: D)
    ensures Update([p] + c, k, d) == if p.key == k then [Pair(k, d)] + c else [p] + Update(c, k, d)
  {
    assert ([p] + c)[1..] == c;
    UpdateFront([p] + c, k, d);
    hide Update;
  }

  lemma RemoveCons<D>(p: Pair<D>, c: Chain<D>, k: string)
    ensures Remove([p] + c, k) == if p.key == k then c else [p] + Remove(c, k)
  {
    assert ([p] + c)[1..] == c;
    RemoveFront([p] + c, k);
    hide Remove;
  }

  lemma {:induction false} SlotUpdate<D>(c: Chain<D>, k: string, d: D, hash: string -> nat, h: nat)
    ensures InSlot(Update(c, k, d), hash, h)
         == if hash(k) == h then Update(InSlot(c, hash, h), k, d) else InSlot(c, hash, h)
  {
    hide Update, InSlot;
    if c == [] {
      NoneInSlot<D>(k, hash, h);
    } else {
      var p, rest := c[0], c[1..];
      assert c == [p] + rest;
      SlotUpdate(rest, k, d, hash, h);
      UpdateCons(p, rest, k, d);
      UpdateCons(p, InSlot(rest, hash, h), k, d);
      SlotFront(p, rest, hash, h);
      if p.key == k {
        SlotFront(Pair(k, d), rest, hash, h);
      } else {
        SlotFront(p, Update(rest, k, d), hash, h);
      }
    }
  }

  lemma {:induction false} SlotRemove<D>(c: Chain<D>, k: string, hash: string -> nat, h: nat)
    ensures InSlot(Remove(c, k), hash, h) == if hash(k) == h then Remove(InSlot(c, hash, h), k) else InSlot(c, hash, h)
  {
    hide Remove, InSlot;
    if c == [] {
      NoneInSlot<D>(k, hash, h);
    } else {
      var p, rest := c[0], c[1..];
      assert c == [p] + rest;
      SlotRemove(rest, k, hash, h);
      RemoveCons(p, rest, k);
      RemoveCons(p, InSlot(rest, hash, h), k);
      SlotFront(p, rest, hash, h);
      SlotFront(p, Remove(rest, k), hash, h);
    }
  }

  /** Each slot but slot 0 holds exactly its entries, in the order of their insertion. */
  lemma {:induction false} SlotHolds<D(!new)>(n: nat, hash: string -> nat, actions: seq<Action<D>>, h: nat)
    requires HashesInto(hash, n) && RunTable(n, hash, actions).Some? && 0 < h < n
    ensures RunTable(n, hash, actions).value[h] == InSlot(Live(actions), hash, h)
  {
    if actions != [] {
      var m := |actions| - 1;
      SlotHolds(n, hash, actions[..m], h);
      var was := Live(actions[..m]);
      match actions[m] {
        case Insertion(k, d) => SlotInsert(was, Pair(k, d), hash, h);
        case Change(k, d) => SlotUpdate(was, k, d, hash, h);
        case Removal(k) => SlotRemove(was, k, hash, h);
      }
      hide InSlot, Update, Remove;
    }
  }

  /** The entries made under keys of a slot, whatever was done to them. */
  function Inserted<D>(actions: seq<Action<D>>, hash: string -> nat, h: nat): Chain<D> {
    if actions == [] then []
    else
      var m := |actions| - 1;
      Inserted(actions[..m], hash, h)
        + if actions[m].Insertion? && hash(actions[m].key) == h then [Pair(actions[m].key, actions[m].data)] else []
  }

  /** Slot 0 holds every entry that was ever inserted into it: a change there is lost, and a removal faults. */
  lemma {:induction false} SlotZeroHolds<D(!new)>(n: nat, hash: string -> nat, actions: seq<Action<D>>)
    requires HashesInto(hash, n) && RunTable(n, hash, actions).Some? && 0 < n
    ensures RunTable(n, hash, actions).value[0] == Inserted(actions, hash, 0)
  {
    if actions != [] {
      SlotZeroHolds(n, hash, actions[..|actions| - 1]);
    }
    hide Update, Remove;
  }

  /** What a removal gives back: the data of the oldest entry of the key, but nothing if it is the
      first of several. */
  ghost predicate Returns<D>(c: Chain<D>, k: string, r: Option<D>) {
    && ((forall i :: 0 <= i < |c| ==> c[i].key != k) ==> r == None)
    && forall i :: 0 <= i < |c| && c[i].key == k && (forall j :: 0 <= j < i ==> c[j].key != k) ==>
         r == if i == 0 && |c| > 1 then None else Some(c[i].data)
  }

  lemma ReturnsFirst<D>(c: Chain<D>, k: string, r: Option<D>)
    ensures var i := First(c, k);
      Returns(c, k, r) <==> r == if i == |c| || (i == 0 && |c| > 1) then None else Some(c[i].data)
  {
    var i := First(c, k);
    if i < |c| {
      assert c[i].key == k;
    }
  }

  /** After any actions a removal that does not fault gives back the oldest data of the key, unless the
      key holds nothing or its entry is the oldest of several in the slot. */
  lemma RemovalReturns<D(!new)>(n: nat, hash: string -> nat, actions: seq<Action<D>>, k: string, r: Option<D>)
    requires HashesInto(hash, n) && RunTable(n, hash, actions).Some? && hash(k) != 0
    ensures var slot, held := InSlot(Live(actions), hash, hash(k)), Meaning(actions, k);
      && (held != [] ==> slot != [])
      && (Returns(RunTable(n, hash, actions).value[hash(k)], k, r) <==>
           r == if held == [] || (slot[0].key == k && |slot| > 1) then None else Some(held[0]))
  {
    var c := RunTable(n, hash, actions).value[hash(k)];
    SlotHolds(n, hash, actions, hash(k));
    RunData(n, hash, actions, k);
    ReturnsFirst(c, k, r);
    FindsOldest(c, k);
    hide RunTable, Meaning, Live, InSlot, DataOf, Returns;
  }

  /** The entries of the slots from 1 to below n, slot by slot. */
  function BySlot<D>(c: Chain<D>, hash: string -> nat, n: nat): Chain<D> {
    if n <= 1 then [] else BySlot(c, hash, n - 1) + InSlot(c, hash, n - 1)
  }

  lemma {:induction false} VisitedBySlot<D(!new)>(n: nat, hash: string -> nat, actions: seq<Action<D>>, h: nat)
    requires HashesInto(hash, n) && RunTable(n, hash, actions).Some? && h <= n
    ensures Visited(RunTable(n, hash, actions).value, h) == BySlot(Live(actions), hash, h)
  {
    if h > 1 {
      VisitedBySlot(n, hash, actions, h - 1);
      SlotHolds(n, hash, actions, h - 1);
      hide RunTable, Live, InSlot;
    }
  }

  /** Iteration goes from slot to slot, and through each one in the order of insertion. */
  lemma IterationOrder<D(!new)>(n: nat, hash: string -> nat, actions: seq<Action<D>>)
    requires HashesInto(hash, n) && RunTable(n, hash, actions).Some?
    ensures Visited(RunTable(n, hash, actions).value, n) == BySlot(Live(actions), hash, n)
  {
    VisitedBySlot(n, hash, actions, n);
  }

  // ----- iteration -----

  lemma RemoveInSlots<D(!new)>(c: Chain<D>, k: string, j: nat)
    requires j < |Remove(c, k)|
    ensures Remove(c, k)[j] in c
  {
    var i := First(c, k);
    if i < |c| {
      assert Remove(c, k) == c[..i] + c[i + 1..];
      hide First, Remove;
      if j < i {
        assert (c[..i] + c[i + 1..])[j] == c[j];
      } else {
        assert (c[..i] + c[i + 1..])[j] == c[j + 1];
      }
    }
  }

  lemma ActInSlots<D(!new)>(t: Table<D>, hash: string -> nat, a: Action<D>)
    requires HashesInto(hash, |t|) && InSlots(t, hash) && !Faults(t, hash, a)
    ensures InSlots(Act(t, hash, a), hash)
  {
    var h := hash(a.key);
    var u: Table<D> := Act(t, hash, a);
    forall i: nat, j: nat | i < |u| && j < |u[i]| ensures hash(u[i][j].key) == i {
      if i == h && a.Removal? {
        RemoveInSlots(t[h], a.key, j);
      }
    }
  }

  lemma {:induction false} RunInSlots<D(!new)>(n: nat, hash: string -> nat, actions: seq<Action<D>>)
    requires HashesInto(hash, n) && RunTable(n, hash, actions).Some?
    ensures InSlots(RunTable(n, hash, actions).value, hash)
  {
    if actions != [] {
      var m := |actions| - 1;
      RunInSlots(n, hash, actions[..m]);
      ActInSlots(RunTable(n, hash, actions[..m]).value, hash, actions[m]);
      hide InSlots, Act;
    }
  }

  lemma SlotData<D(!new)>(t: Table<D>, hash: string -> nat, i: nat, k: string)
    requires HashesInto(hash, |t|) && InSlots(t, hash) && i < |t|
    ensures hash(k) != i ==> DataOf(t[i], k) == []
  {
    if hash(k) != i {
      NoData(t[i], k);
    }
  }

  lemma {:induction false} VisitedData<D(!new)>(t: Table<D>, hash: string -> nat, n: nat, k: string)
    requires HashesInto(hash, |t|) && InSlots(t, hash) && n <= |t|
    ensures DataOf(Visited(t, n), k) == if 0 < hash(k) < n then DataOf(t[hash(k)], k) else []
  {
    if n > 1 {
      VisitedData(t, hash, n - 1, k);
      assert Visited(t, n) == Visited(t, n - 1) + t[n - 1];
      hide DataOf, Visited, InSlots, HashesInto;
      DataAppend(Visited(t, n - 1), t[n - 1], k);
      SlotData(t, hash, n - 1, k);
    }
  }

  /** Iteration visits under each key exactly the live data, oldest first, and nothing of slot 0. */
  lemma IterationMeaning<D(!new)>(n: nat, hash: string -> nat, actions: seq<Action<D>>, k: string)
    requires HashesInto(hash, n) && RunTable(n, hash, actions).Some?
    ensures DataOf(Visited(RunTable(n, hash, actions).value, n), k) == if hash(k) == 0 then [] else Meaning(actions, k)
  {
    var t := RunTable(n, hash, actions).value;
    RunInSlots(n, hash, actions);
    hide RunTable, Meaning, DataOf, InSlots, Visited;
    VisitedData(t, hash, n, k);
    if hash(k) != 0 {
      RunData(n, hash, actions, k);
    }
  }

  // ----- faults -----

  /** No key of the slot holds anything. */
  ghost predicate SlotUnused<D(!new)>(hash: string -> nat, actions: seq<Action<D>>, h: nat) {
    forall j :: hash(j) == h ==> Meaning(actions, j) == []
  }

  lemma EmptySlot<D(!new)>(n: nat, hash: string -> nat, actions: seq<Action<D>>, h: nat)
    requires HashesInto(hash, n) && RunTable(n, hash, actions).Some? && 0 < h < n
    ensures RunTable(n, hash, actions).value[h] == [] <==> SlotUnused(hash, actions, h)
  {
    var c := RunTable(n, hash, actions).value[h];
    RunInSlots(n, hash, actions);
    if c == [] {
      hide RunTable, Meaning, InSlots;
      forall j | hash(j) == h ensures Meaning(actions, j) == [] {
        RunData(n, hash, actions, j);
      }
    } else {
      var j := c[0].key;
      assert DataOf(c, j)[0] == c[0].data;
      assert hash(j) == h;
      hide RunTable, Meaning, InSlots, DataOf;
      RunData(n, hash, actions, j);
    }
  }

  /** A removal faults exactly for a key of slot 0 and for a key whose slot no key uses. */
  lemma RemovalFaultsIff<D(!new)>(n: nat, hash: string -> nat, actions: seq<Action<D>>, k: string)
    requires HashesInto(hash, n) && RunTable(n, hash, actions).Some?
    ensures RunTable(n, hash, actions + [Removal(k)]).None? <==> hash(k) == 0 || SlotUnused(hash, actions, hash(k))
  {
    var more := actions + [Removal(k)];
    assert more[..|actions|] == actions && more[|actions|] == Removal(k);
    if hash(k) != 0 {
      EmptySlot(n, hash, actions, hash(k));
    }
    hide SlotUnused, HashesInto;
  }
}
