/** The memtable on its skip list (db/memtable.cc: Add, Get, the iterator): the sorted list of module `MemTables` is what level 0 links, and
    a lookup that runs beside inserts answers as of its start. */
module SkipMemTable {
  import opened InternalKeys
  import opened History
  import opened MemTables
  import opened SkipList

  // ---------------------------------------------------------------- keys and entries

  type ValueOf = InternalKey -> Bytes

  ghost function Held(keys: set<Key>, values: ValueOf): set<Entry> { set k | k in keys :: Entry(k, values(k)) }

  /** What the caller of a seek makes of the node it finds. */
  function Hit(next: Option<Key>, values: ValueOf, u: UserKey): Option<Entry> {
    if next.Some? && next.value.user == u then Some(Entry(next.value, values(next.value))) else None
  }

  /** The first key at or after the lookup key decides the read. */
  lemma NeighbourReads(keys: set<Key>, values: ValueOf, u: UserKey, s: nat, before: Ref, next: Option<Key>)
    requires Neighbours(keys, Some(LookupKey(u, s)), before, next)
    ensures Reads(Held(keys, values), u, s, Hit(next, values, u))
  {
    forall x | x in Held(keys, values) && Visible(x, u, s) ensures next.Some? && AtMost(next.value, x.key) {
      assert x.key in keys && !Passes(Some(LookupKey(u, s)), x.key);
    }
  }

  // ---------------------------------------------------------------- a lookup beside inserts

  /** A lookup that other threads' inserts overtake, all of them newer than its snapshot, answers as of any moment since it started. */
  lemma LookupIsAtomic(states: seq<State>, steps: seq<Step>, a: nat, j: nat, i: nat, u: UserKey, s: nat, values: ValueOf)
    requires IsRun(states, steps) && a <= j < |steps| && steps[j] == Load(i)
    requires i < |states[j + 1].readers| && states[j + 1].readers[i].Found? && states[j + 1].readers[i].target == Some(LookupKey(u, s))
    requires |states[a].list.keys| == |states[j].list.keys| == MAX_HEIGHT
    requires forall k :: k in states[j].list.keys[0] && k !in states[a].list.keys[0] ==> k.sequence > s
    ensures Reads(Held(states[a].list.keys[0], values), u, s, Hit(states[j + 1].readers[i].next, values, u))
  {
    SearchIsExact(states, steps, a, j, i);
    KeysStay(states, steps, a, j);
    var r := states[j + 1].readers[i];
    NeighbourReads(states[j].list.keys[0], values, u, s, r.before, r.next);
    NewerAreUnseen(states[a].list.keys[0], states[j].list.keys[0], values, u, s, Hit(r.next, values, u));
  }

  lemma NewerAreUnseen(older: set<Key>, keys: set<Key>, values: ValueOf, u: UserKey, s: nat, r: Option<Entry>)
    requires older <= keys && (forall k :: k in keys && k !in older ==> k.sequence > s) && Reads(Held(keys, values), u, s, r)
    ensures Reads(Held(older, values), u, s, r)
  {
  }

  // ---------------------------------------------------------------- sorted lists

  lemma {:induction false} SortedListsAgree(a: seq<Entry>, b: seq<Entry>)
    requires Sorted(a) && Sorted(b) && Elements(a) == Elements(b)
    ensures a == b
  {
    EmptyOnly(a);
    EmptyOnly(b);
    if a != [] {
      FirstAgrees(a, b);
      RestAgrees(a, b);
      SortedListsAgree(a[1..], b[1..]);
      assert a == [a[0]] + a[1..] && b == [b[0]] + b[1..];
    }
  }

  lemma EmptyOnly(a: seq<Entry>)
    ensures a == [] <==> Elements(a) == {}
  {
    if a != [] { assert a[0] in Elements(a); }
  }

  lemma FirstAgrees(a: seq<Entry>, b: seq<Entry>)
    requires Sorted(a) && Sorted(b) && Elements(a) == Elements(b) && a != []
    ensures b != [] && a[0] == b[0]
  {
    assert a[0] in Elements(b);
    var i :| 0 <= i < |b| && b[i] == a[0];
    assert b[0] in Elements(a);
    var j :| 0 <= j < |a| && a[j] == b[0];
  }

  lemma RestAgrees(a: seq<Entry>, b: seq<Entry>)
    requires Sorted(a) && Sorted(b) && Elements(a) == Elements(b) && a != [] && b != [] && a[0] == b[0]
    ensures Elements(a[1..]) == Elements(b[1..])
  {
    RestIsOthers(a);
    RestIsOthers(b);
  }

  lemma RestIsOthers(a: seq<Entry>)
    requires Sorted(a) && a != []
    ensures Elements(a[1..]) == Elements(a) - {a[0]}
  {
    assert a == [a[0]] + a[1..];
  }

  // ---------------------------------------------------------------- the memtable

  /** The entries of a map. */
  ghost predicate Pairs(es: set<Entry>, values: map<InternalKey, Bytes>) {
    forall e :: e in es <==> e.key in values && values[e.key] == e.value
  }

  lemma PairsAreHeld(es: set<Entry>, values: map<InternalKey, Bytes>, valueOf: ValueOf)
    requires Pairs(es, values) && forall k :: k in values ==> valueOf(k) == values[k]
    ensures Held(values.Keys, valueOf) == es
  {
    forall e | e in es ensures e in Held(values.Keys, valueOf) { assert e == Entry(e.key, valueOf(e.key)); }
  }

  /** The entries up to a node of level 0. */
  ghost predicate UpTo(es: seq<Entry>, values: map<InternalKey, Bytes>, x: Ref) {
    && Sorted(es) && (forall e :: e in es <==> e.key in values && values[e.key] == e.value && !After(x, e.key))
    && (x.Node? ==> es != [] && es[|es| - 1].key == x.key)
  }

  lemma OneMore(es: seq<Entry>, values: map<InternalKey, Bytes>, x: Ref, k: Key)
    requires UpTo(es, values, x) && IsNext(values.Keys, x, Some(k)) && Linked(values.Keys, x)
    ensures UpTo(es + [Entry(k, values[k])], values, Node(k))
  {
    var es' := es + [Entry(k, values[k])];
    forall e | e in es ensures Before(e.key, k) {
      assert !After(x, e.key);
    }
    forall e ensures e in es' <==> e.key in values && values[e.key] == e.value && !After(Node(k), e.key) {
      assert e in es' <==> e in es || e == Entry(k, values[k]);
    }
  }

  lemma NoneAfter(es: seq<Entry>, values: map<InternalKey, Bytes>, x: Ref)
    requires UpTo(es, values, x) && IsNext(values.Keys, x, None)
    ensures Pairs(Elements(es), values)
  {
  }

  class MemTable {
    const table: Lists
    var values: map<InternalKey, Bytes>
    ghost var entries: seq<Entry>

    ghost predicate Valid()
      reads this, table
    {
      ListOk(table.list) && values.Keys == table.list.keys[0] && Sorted(entries) && Pairs(Elements(entries), values)
    }

    constructor ()
      ensures Valid() && fresh(table) && entries == []
    {
      table := new Lists();
      values := map[];
      entries := [];
    }

    /** Insert an entry with a new key at the drawn height. */
    method Add(e: Entry, height: nat)
      requires Valid() && 1 <= height <= MAX_HEIGHT
      requires forall x :: x in entries ==> x.key.user != e.key.user || x.key.sequence != e.key.sequence
      modifies this, table
      ensures Valid() && entries == Insert(old(entries), e)
    {
      KeyIsNew(Elements(entries), values, e.key);
      InsertKeepsOrder(entries, e);
      table.Insert(e.key, height);
      values := values[e.key := e.value];
      entries := Insert(entries, e);
    }

    /** Seek the lookup key and compare the user key. */
    method Get(u: UserKey, s: nat) returns (r: Option<Entry>)
      requires Valid()
      ensures Reads(Elements(entries), u, s, r)
    {
      var before, next, _ := FindGreaterOrEqual(table.list, Some(LookupKey(u, s)));
      r := if next.Some? && next.value.user == u then Some(Entry(next.value, values[next.value])) else None;
      ghost var vs := values;
      ghost var valueOf := (k: InternalKey) => if k in vs then vs[k] else [];
      PairsAreHeld(Elements(entries), vs, valueOf);
      NeighbourReads(table.list.keys[0], valueOf, u, s, before, next);
    }

    /** Walk level 0 from the head: the entries in order, as a flush writes them. */
    method All() returns (es: seq<Entry>)
      requires Valid()
      ensures es == entries
    {
      es := [];
      var x := Head;
      assert LevelOk(table.list.next, 0, values.Keys);
      while true
        invariant Linked(values.Keys, x) && UpTo(es, values, x)
        decreases set k | k in values && After(x, k)
      {
        var next := table.list.next[(x, 0)];
        assert IsNext(values.Keys, x, next);
        if next.None? {
          NoneAfter(es, values, x);
          break;
        }
        OneMore(es, values, x, next.value);
        FewerAhead(values, x, next.value);
        es := es + [Entry(next.value, values[next.value])];
        x := Node(next.value);
      }
      assert Elements(es) == Elements(entries);
      SortedListsAgree(es, entries);
    }
  }

  lemma FewerAhead(values: map<InternalKey, Bytes>, x: Ref, k: Key)
    requires k in values && After(x, k)
    ensures (set j | j in values && After(Node(k), j)) < (set j | j in values && After(x, j))
  {
    var ahead, left := (set j | j in values && After(x, j)), (set j | j in values && After(Node(k), j));
    assert k in ahead && k !in left;
    forall j | j in left ensures j in ahead {}
  }

  lemma KeyIsNew(es: set<Entry>, values: map<InternalKey, Bytes>, k: InternalKey)
    requires Pairs(es, values) && forall x :: x in es ==> x.key.user != k.user || x.key.sequence != k.sequence
    ensures k !in values
  {
    forall j | j in values ensures Entry(j, values[j]) in es {}
  }

  /** A write batch goes into the memtable entry by entry, at heights drawn for each (MemTableInserter). */
  method InsertBatch(m: MemTable, batch: seq<Entry>, heights: nat -> nat)
    requires m.Valid() && forall i :: 1 <= heights(i) <= MAX_HEIGHT
    requires forall x, y :: x in m.entries && y in batch ==> x.key.sequence != y.key.sequence
    requires forall i, j :: 0 <= i < j < |batch| ==> batch[i].key.sequence != batch[j].key.sequence
    modifies m, m.table
    ensures m.Valid() && m.entries == InsertAll(old(m.entries), batch)
  {
    ghost var start := m.entries;
    for n := 0 to |batch|
      invariant m.Valid() && m.entries == InsertAll(start, batch[..n])
    {
      InsertAllKeepsOrder(start, batch[..n]);
      assert batch[..n + 1][..n] == batch[..n];
      forall x | x in m.entries ensures x.key.sequence != batch[n].key.sequence {
        assert x in Elements(start) + Elements(batch[..n]);
      }
      m.Add(batch[n], heights(n));
    }
    assert batch[..|batch|] == batch;
  }
}
