/** One shard of the LRU cache (util/cache.cc: LRUCache). Handles are named by the order of their creation; the two linked
    lists appear as sequences of names, oldest first.
 */
module LruCache {
  import opened InternalKeys
  import opened Queues
  import opened HandleTables

  datatype Handle = Handle(key: Bytes, charge: nat, inCache: bool, refs: nat)

  type Handles = map<nat, Handle>

  // ---------------------------------------------------------------- the invariant, part by part

  predicate Idle(hs: Handles, id: nat) { id in hs && hs[id].inCache && hs[id].refs == 1 }

  predicate Busy(hs: Handles, id: nat) { id in hs && hs[id].inCache && hs[id].refs >= 2 }

  /** Cached entries that only the cache holds are on the LRU list, those that clients hold on the in-use list. */
  ghost predicate ListsOk(hs: Handles, lru: seq<nat>, inUse: seq<nat>) {
    && Distinct(lru) && Distinct(inUse)
    && (forall id :: id in lru <==> Idle(hs, id)) && (forall id :: id in inUse <==> Busy(hs, id))
  }

  /** The table holds exactly the cached entries, except that `out` is cached and no longer in the table. */
  ghost predicate TableOk(hs: Handles, contents: map<Bytes, nat>, out: Option<nat>) {
    match out
    case None =>
      && (forall id :: id in hs && hs[id].inCache ==> hs[id].key in contents && contents[hs[id].key] == id)
      && (forall k :: k in contents ==> contents[k] in hs && hs[contents[k]].inCache && hs[contents[k]].key == k)
    case Some(x) =>
      && (forall id :: id in hs && hs[id].inCache && id != x ==> hs[id].key in contents && contents[hs[id].key] == id)
      && (forall k :: k in contents ==> contents[k] in hs && contents[k] != x && hs[contents[k]].inCache && hs[contents[k]].key == k)
  }

  /** References: one for each client handle, one for the cache, and one about to be dropped for `owed`. */
  ghost predicate RefsOk(hs: Handles, clients: map<nat, nat>, owed: Option<nat>) {
    && clients.Keys == hs.Keys
    && forall id :: id in hs ==>
         && hs[id].refs >= 1
         && hs[id].refs == clients[id] + (if hs[id].inCache then 1 else 0) + if Some(id) == owed then 1 else 0
  }

  /** The deleter of an entry has run, once, exactly if the entry is gone. */
  ghost predicate DeletedOk(hs: Handles, deleted: seq<nat>, next: nat) {
    Distinct(deleted) && (forall id: nat :: id in deleted <==> id < next && id !in hs) && forall id :: id in hs ==> id < next
  }

  function Charge(ids: seq<nat>, hs: Handles): nat
    requires forall id :: id in ids ==> id in hs
  {
    if ids == [] then 0 else Charge(ids[..|ids| - 1], hs) + hs[ids[|ids| - 1]].charge
  }

  lemma {:induction false} ChargeSame(ids: seq<nat>, hs: Handles, hs': Handles)
    requires forall id :: id in ids ==> id in hs && id in hs' && hs[id].charge == hs'[id].charge
    ensures Charge(ids, hs) == Charge(ids, hs')
  {
    if ids != [] { ChargeSame(ids[..|ids| - 1], hs, hs'); }
  }

  lemma {:induction false} ChargeConcat(a: seq<nat>, b: seq<nat>, hs: Handles)
    requires forall id :: id in a + b ==> id in hs
    ensures Charge(a + b, hs) == Charge(a, hs) + Charge(b, hs)
  {
    if b == [] {
      assert a + b == a;
    } else {
      var n := |b| - 1;
      ChargeConcat(a, b[..n], hs);
      assert (a + b)[..|a + b| - 1] == a + b[..n];
    }
  }

  lemma {:induction false} ChargeWithout(ids: seq<nat>, hs: Handles, id: nat)
    requires (forall x :: x in ids ==> x in hs) && id in ids
    ensures (forall x :: x in Without(ids, id) ==> x in hs) && Charge(ids, hs) == Charge(Without(ids, id), hs) + hs[id].charge
  {
    var head, rest := ids[0], ids[1..];
    assert ids == [head] + rest;
    ChargeConcat([head], rest, hs);
    assert Charge([head], hs) == hs[head].charge by { assert [head][..0] == []; }
    if head != id {
      ChargeWithout(rest, hs, id);
      assert Without(ids, id) == [head] + Without(rest, id);
      ChargeConcat([head], Without(rest, id), hs);
    }
  }

  /** Everything but the table's agreement. */
  ghost predicate BooksOk(hs: Handles, lru: seq<nat>, inUse: seq<nat>, clients: map<nat, nat>, deleted: seq<nat>, next: nat, usage: int,
                          owed: Option<nat>)
  {
    match owed
    case None =>
      && ListsOk(hs, lru, inUse) && RefsOk(hs, clients, None) && DeletedOk(hs, deleted, next)
      && usage == Charge(lru, hs) + Charge(inUse, hs)
    case Some(id) =>
      && ListsOk(hs, lru, inUse) && RefsOk(hs, clients, owed) && DeletedOk(hs, deleted, next) && id in hs
      && usage == Charge(lru, hs) + Charge(inUse, hs)
  }

  // ---------------------------------------------------------------- changes to the lists

  lemma Joins(hs: Handles, hs': Handles, ids: seq<nat>, id: nat)
    requires Distinct(ids) && id !in ids && id in hs' && forall x :: x in ids ==> x in hs && x in hs' && hs[x].charge == hs'[x].charge
    ensures Distinct(ids + [id]) && (forall x :: x in ids + [id] ==> x in hs')
    ensures Charge(ids + [id], hs') == Charge(ids, hs) + hs'[id].charge
  {
    AppendDistinct(ids, id);
    ChargeSame(ids, hs, hs');
    assert (ids + [id])[..|ids|] == ids;
  }

  lemma Leaves(hs: Handles, hs': Handles, ids: seq<nat>, id: nat)
    requires Distinct(ids) && id in ids && forall x :: x in ids ==> x in hs && x in hs' && hs[x].charge == hs'[x].charge
    ensures Distinct(Without(ids, id)) && id !in Without(ids, id) && (forall x :: x in Without(ids, id) ==> x in hs')
    ensures Charge(ids, hs) == Charge(Without(ids, id), hs') + hs[id].charge
  {
    WithoutDistinct(ids, id);
    ChargeWithout(ids, hs, id);
    ChargeSame(Without(ids, id), hs, hs');
  }

  lemma MoveToUse(hs: Handles, hs': Handles, lru: seq<nat>, inUse: seq<nat>, id: nat)
    requires ListsOk(hs, lru, inUse) && Idle(hs, id) && hs' == hs[id := hs[id].(refs := 2)]
    ensures ListsOk(hs', Without(lru, id), inUse + [id])
    ensures Charge(lru, hs) + Charge(inUse, hs) == Charge(Without(lru, id), hs') + Charge(inUse + [id], hs')
  {
    assert id in lru && id !in inUse;
    Leaves(hs, hs', lru, id);
    Joins(hs, hs', inUse, id);
  }

  lemma MoveToLru(hs: Handles, hs': Handles, lru: seq<nat>, inUse: seq<nat>, id: nat)
    requires ListsOk(hs, lru, inUse) && Busy(hs, id) && hs' == hs[id := hs[id].(refs := 1)]
    ensures ListsOk(hs', lru + [id], Without(inUse, id))
    ensures Charge(lru, hs) + Charge(inUse, hs) == Charge(lru + [id], hs') + Charge(Without(inUse, id), hs')
  {
    assert id in inUse && id !in lru;
    Leaves(hs, hs', inUse, id);
    Joins(hs, hs', lru, id);
  }

  /** A change of reference count that keeps the entry on its list, or off the lists. */
  lemma StayPut(hs: Handles, hs': Handles, lru: seq<nat>, inUse: seq<nat>, id: nat, refs: nat)
    requires ListsOk(hs, lru, inUse) && id in hs && hs' == hs[id := hs[id].(refs := refs)] && refs >= 1
    requires hs[id].inCache ==> hs[id].refs >= 2 && refs >= 2
    ensures ListsOk(hs', lru, inUse) && Charge(lru, hs) == Charge(lru, hs') && Charge(inUse, hs) == Charge(inUse, hs')
  {
    ChargeSame(lru, hs, hs');
    ChargeSame(inUse, hs, hs');
  }

  /** An entry off the lists disappears. */
  lemma Vanish(hs: Handles, hs': Handles, lru: seq<nat>, inUse: seq<nat>, id: nat)
    requires ListsOk(hs, lru, inUse) && id in hs && !hs[id].inCache && hs' == hs - {id}
    ensures ListsOk(hs', lru, inUse) && Charge(lru, hs) == Charge(lru, hs') && Charge(inUse, hs) == Charge(inUse, hs')
  {
    ChargeSame(lru, hs, hs');
    ChargeSame(inUse, hs, hs');
  }

  /** An entry leaves the cache. */
  lemma LeaveLists(hs: Handles, hs': Handles, lru: seq<nat>, inUse: seq<nat>, id: nat)
    requires ListsOk(hs, lru, inUse) && id in hs && hs[id].inCache && hs[id].refs >= 1 && hs' == hs[id := hs[id].(inCache := false)]
    ensures ListsOk(hs', Without(lru, id), Without(inUse, id))
    ensures Charge(lru, hs) + Charge(inUse, hs) == Charge(Without(lru, id), hs') + Charge(Without(inUse, id), hs') + hs[id].charge
  {
    assert Idle(hs, id) || Busy(hs, id);
    assert id in lru <==> id !in inUse;
    if id in lru {
      LeavesOne(hs, hs', lru, inUse, id);
    } else {
      LeavesOne(hs, hs', inUse, lru, id);
    }
    assert forall x :: Idle(hs', x) <==> Idle(hs, x) && x != id;
    assert forall x :: Busy(hs', x) <==> Busy(hs, x) && x != id;
  }

  lemma LeavesOne(hs: Handles, hs': Handles, ids: seq<nat>, others: seq<nat>, id: nat)
    requires Distinct(ids) && Distinct(others) && id in ids && id !in others
    requires forall x :: x in ids || x in others ==> x in hs && x in hs' && hs[x].charge == hs'[x].charge
    ensures Distinct(Without(ids, id)) && Distinct(Without(others, id)) && id !in Without(ids, id) && id !in Without(others, id)
    ensures (forall x :: x in Without(ids, id) ==> x in hs') && forall x :: x in Without(others, id) ==> x in hs'
    ensures Charge(ids, hs) + Charge(others, hs) == Charge(Without(ids, id), hs') + Charge(Without(others, id), hs') + hs[id].charge
  {
    Leaves(hs, hs', ids, id);
    SameWithout(others, id);
    ChargeSame(others, hs, hs');
  }

  lemma {:induction false} SameWithout(ids: seq<nat>, id: nat)
    requires id !in ids
    ensures Without(ids, id) == ids
  {
    if ids != [] {
      SameWithout(ids[1..], id);
      assert ids == [ids[0]] + ids[1..];
    }
  }

  /** A new entry held by a client and by the cache. */
  lemma JoinLists(hs: Handles, hs': Handles, lru: seq<nat>, inUse: seq<nat>, id: nat, h: Handle)
    requires ListsOk(hs, lru, inUse) && id !in hs && h.inCache && h.refs == 2 && hs' == hs[id := h]
    ensures ListsOk(hs', lru, inUse + [id])
    ensures Charge(lru, hs') + Charge(inUse + [id], hs') == Charge(lru, hs) + Charge(inUse, hs) + h.charge
  {
    assert id !in inUse;
    ChargeSame(lru, hs, hs');
    Joins(hs, hs', inUse, id);
    assert forall x :: Idle(hs', x) <==> Idle(hs, x);
    assert forall x :: Busy(hs', x) <==> Busy(hs, x) || x == id;
  }

  // ---------------------------------------------------------------- changes to the books

  lemma RefBooks(hs: Handles, lru: seq<nat>, inUse: seq<nat>, clients: map<nat, nat>, deleted: seq<nat>, next: nat, usage: int, id: nat)
    requires BooksOk(hs, lru, inUse, clients, deleted, next, usage, None) && id in hs && hs[id].inCache
    ensures var hs' := hs[id := hs[id].(refs := hs[id].refs + 1)];
            var clients' := clients[id := clients[id] + 1];
            if hs[id].refs == 1 then BooksOk(hs', Without(lru, id), inUse + [id], clients', deleted, next, usage, None)
            else BooksOk(hs', lru, inUse, clients', deleted, next, usage, None)
  {
    var hs' := hs[id := hs[id].(refs := hs[id].refs + 1)];
    if hs[id].refs == 1 { MoveToUse(hs, hs', lru, inUse, id); } else { StayPut(hs, hs', lru, inUse, id, hs[id].refs + 1); }
  }

  lemma DropBooks(hs: Handles, lru: seq<nat>, inUse: seq<nat>, clients: map<nat, nat>, deleted: seq<nat>, next: nat, usage: int, id: nat)
    requires BooksOk(hs, lru, inUse, clients, deleted, next, usage, Some(id)) && id in hs
    ensures var refs := hs[id].refs - 1;
            if refs == 0 then BooksOk(hs - {id}, lru, inUse, clients - {id}, deleted + [id], next, usage, None)
            else if hs[id].inCache && refs == 1
            then BooksOk(hs[id := hs[id].(refs := 1)], lru + [id], Without(inUse, id), clients, deleted, next, usage, None)
            else BooksOk(hs[id := hs[id].(refs := refs)], lru, inUse, clients, deleted, next, usage, None)
  {
    var refs := hs[id].refs - 1;
    if refs == 0 {
      Vanish(hs, hs - {id}, lru, inUse, id);
    } else if hs[id].inCache && refs == 1 {
      MoveToLru(hs, hs[id := hs[id].(refs := 1)], lru, inUse, id);
    } else {
      StayPut(hs, hs[id := hs[id].(refs := refs)], lru, inUse, id, refs);
    }
  }

  lemma OweBooks(hs: Handles, lru: seq<nat>, inUse: seq<nat>, clients: map<nat, nat>, deleted: seq<nat>, next: nat, usage: int, id: nat)
    requires BooksOk(hs, lru, inUse, clients, deleted, next, usage, None) && id in clients && clients[id] > 0
    ensures BooksOk(hs, lru, inUse, clients[id := clients[id] - 1], deleted, next, usage, Some(id))
    ensures hs[id].inCache ==> hs[id].refs >= 2
  {
  }

  lemma EraseBooks(hs: Handles, lru: seq<nat>, inUse: seq<nat>, clients: map<nat, nat>, deleted: seq<nat>, next: nat, usage: int, id: nat)
    requires BooksOk(hs, lru, inUse, clients, deleted, next, usage, None) && id in hs && hs[id].inCache
    ensures hs[id].charge <= usage
    ensures BooksOk(hs[id := hs[id].(inCache := false)], Without(lru, id), Without(inUse, id), clients, deleted, next,
                    usage - hs[id].charge, Some(id))
  {
    LeaveLists(hs, hs[id := hs[id].(inCache := false)], lru, inUse, id);
  }

  lemma NewCached(hs: Handles, lru: seq<nat>, inUse: seq<nat>, clients: map<nat, nat>, deleted: seq<nat>, next: nat, usage: int, h: Handle)
    requires BooksOk(hs, lru, inUse, clients, deleted, next, usage, None) && h.inCache && h.refs == 2
    ensures BooksOk(hs[next := h], lru, inUse + [next], clients[next := 1], deleted, next + 1, usage + h.charge, None)
  {
    JoinLists(hs, hs[next := h], lru, inUse, next, h);
  }

  lemma NewUncached(hs: Handles, lru: seq<nat>, inUse: seq<nat>, clients: map<nat, nat>, deleted: seq<nat>, next: nat, usage: int, h: Handle)
    requires BooksOk(hs, lru, inUse, clients, deleted, next, usage, None) && !h.inCache && h.refs == 1
    ensures BooksOk(hs[next := h], lru, inUse, clients[next := 1], deleted, next + 1, usage, None)
  {
    ChargeSame(lru, hs, hs[next := h]);
    ChargeSame(inUse, hs, hs[next := h]);
  }

  // ---------------------------------------------------------------- changes to the table

  lemma TableSameKeys(hs: Handles, hs': Handles, contents: map<Bytes, nat>)
    requires TableOk(hs, contents, None)
    requires forall id :: id in hs && hs[id].inCache ==> id in hs' && hs'[id].inCache && hs'[id].key == hs[id].key
    requires forall id :: id in hs' && hs'[id].inCache ==> id in hs && hs[id].inCache
    ensures TableOk(hs', contents, None)
  {
  }

  lemma TableErased(hs: Handles, hs': Handles, contents: map<Bytes, nat>, x: nat)
    requires TableOk(hs, contents, Some(x))
    requires forall id :: id != x ==> (id in hs' <==> id in hs) && (id in hs ==> hs'[id] == hs[id])
    requires x in hs' ==> !hs'[x].inCache
    ensures TableOk(hs', contents, None)
  {
  }

  lemma TableRemoved(hs: Handles, contents: map<Bytes, nat>, x: nat)
    requires TableOk(hs, contents, None) && x in hs && hs[x].inCache
    ensures TableOk(hs, contents - {hs[x].key}, Some(x)) && hs[x].key in contents && contents[hs[x].key] == x
  {
  }

  lemma TableInserted(hs: Handles, contents: map<Bytes, nat>, x: nat, h: Handle)
    requires TableOk(hs, contents, None) && x !in hs && h.inCache
    ensures TableOk(hs[x := h], contents[h.key := x], if h.key in contents then Some(contents[h.key]) else None)
  {
  }

  // ---------------------------------------------------------------- what the operations do

  /** The state of a shard: `deleted` lists the entries whose deleter has run, `clients` counts the handles that clients hold,
      `contents` is what the hash table maps. */
  datatype State = State(handles: Handles, lru: seq<nat>, inUse: seq<nat>, usage: int, next: nat, deleted: seq<nat>,
                         clients: map<nat, nat>, contents: map<Bytes, nat>)

  /** The invariant, while `owed` has one reference too many. */
  ghost predicate Books(s: State, owed: Option<nat>) {
    BooksOk(s.handles, s.lru, s.inUse, s.clients, s.deleted, s.next, s.usage, owed)
  }

  ghost predicate Inv(s: State) {
    match s
    case State(hs, lru, inUse, usage, next, deleted, clients, contents) =>
      BooksOk(hs, lru, inUse, clients, deleted, next, usage, None) && TableOk(hs, contents, None)
  }

  predicate Known(s: State, id: nat) { id in s.handles && id in s.clients && s.handles[id].refs >= 1 }

  /** A client takes a reference: an idle entry moves to the in-use list. */
  function Referenced(s: State, id: nat): State
    requires Known(s, id)
  {
    var h := s.handles[id];
    var s' := s.(handles := s.handles[id := h.(refs := h.refs + 1)], clients := s.clients[id := s.clients[id] + 1]);
    if h.refs == 1 && h.inCache then s'.(lru := Without(s.lru, id), inUse := s.inUse + [id]) else s'
  }

  /** A reference goes: the last one runs the deleter; the last one besides the cache's makes the entry idle. */
  function Unreferenced(s: State, id: nat): State
    requires Known(s, id)
  {
    var h := s.handles[id];
    if h.refs == 1 then s.(handles := s.handles - {id}, clients := s.clients - {id}, deleted := s.deleted + [id])
    else
      var s' := s.(handles := s.handles[id := h.(refs := h.refs - 1)]);
      if h.inCache && h.refs == 2 then s'.(lru := s.lru + [id], inUse := Without(s.inUse, id)) else s'
  }

  /** An entry that is out of the table leaves the cache. */
  function Erased(s: State, id: nat): State
    requires Known(s, id)
  {
    Unreferenced(Unlisted(s, id), id)
  }

  function Unlisted(s: State, id: nat): State
    requires Known(s, id)
    ensures Known(Unlisted(s, id), id)
  {
    var h := s.handles[id];
    s.(handles := s.handles[id := h.(inCache := false)], lru := Without(s.lru, id), inUse := Without(s.inUse, id),
       usage := s.usage - h.charge)
  }

  /** The entry of `key`, if any, leaves the table and the cache. */
  function Removed(s: State, key: Bytes): State
    requires key in s.contents ==> Known(s, s.contents[key])
  {
    if key in s.contents then Erased(s.(contents := s.contents - {key}), s.contents[key]) else s
  }

  /** A new entry, held by a client and by the cache, takes the place of any other of its key. */
  function Added(s: State, key: Bytes, charge: nat): State
    requires key in s.contents ==> Known(s, s.contents[key])
  {
    var s' := Cached(s, key, charge).(contents := s.contents[key := s.next]);
    if key in s.contents then Erased(s', s.contents[key]) else s'
  }

  /** The new entry before it is in the table. */
  function Cached(s: State, key: Bytes, charge: nat): State {
    s.(handles := s.handles[s.next := Handle(key, charge, true, 2)], clients := s.clients[s.next := 1], inUse := s.inUse + [s.next],
       usage := s.usage + charge, next := s.next + 1)
  }

  /** A new entry that only its client holds. */
  function Uncached(s: State, key: Bytes, charge: nat): State {
    s.(handles := s.handles[s.next := Handle(key, charge, false, 1)], clients := s.clients[s.next := 1], next := s.next + 1)
  }

  function Released(s: State, id: nat): State
    requires Known(s, id) && s.clients[id] > 0
  {
    Unreferenced(s.(clients := s.clients[id := s.clients[id] - 1]), id)
  }

  /** Idle entries go, oldest first, until the usage is within `capacity`. */
  ghost function Evicted(s: State, capacity: int): State
    requires Inv(s)
    decreases |s.lru|
  {
    if s.usage > capacity && s.lru != [] then OldestGoes(s); Evicted(Removed(s, s.handles[s.lru[0]].key), capacity) else s
  }

  // ---------------------------------------------------------------- every operation keeps the invariant

  lemma ReferenceKeeps(s: State, key: Bytes)
    requires Inv(s) && key in s.contents
    ensures Known(s, s.contents[key]) && s.handles[s.contents[key]].key == key
    ensures Inv(Referenced(s, s.contents[key]))
  {
    ReferenceBooks(s, s.contents[key]);
    ReferenceTable(s, s.contents[key]);
  }

  lemma ReferenceBooks(s: State, id: nat)
    requires Books(s, None) && id in s.handles && s.handles[id].inCache
    ensures Known(s, id) && Books(Referenced(s, id), None)
  {
    RefBooks(s.handles, s.lru, s.inUse, s.clients, s.deleted, s.next, s.usage, id);
  }

  lemma ReferenceTable(s: State, id: nat)
    requires TableOk(s.handles, s.contents, None) && Known(s, id)
    ensures TableOk(Referenced(s, id).handles, Referenced(s, id).contents, None)
  {
    TableSameKeys(s.handles, Referenced(s, id).handles, s.contents);
  }

  lemma ReleaseKeeps(s: State, id: nat)
    requires Inv(s) && id in s.clients && s.clients[id] > 0
    ensures Known(s, id) && Inv(Released(s, id))
  {
    OweBooks(s.handles, s.lru, s.inUse, s.clients, s.deleted, s.next, s.usage, id);
    UnrefBooks(s.(clients := s.clients[id := s.clients[id] - 1]), id);
    UnrefTable(s.(clients := s.clients[id := s.clients[id] - 1]), id);
  }

  lemma UnrefBooks(s: State, id: nat)
    requires Books(s, Some(id))
    ensures Known(s, id) && Books(Unreferenced(s, id), None)
  {
    DropBooks(s.handles, s.lru, s.inUse, s.clients, s.deleted, s.next, s.usage, id);
  }

  lemma UnrefTable(s: State, id: nat)
    requires TableOk(s.handles, s.contents, None) && Known(s, id) && (s.handles[id].inCache ==> s.handles[id].refs >= 2)
    ensures TableOk(Unreferenced(s, id).handles, Unreferenced(s, id).contents, None)
  {
    TableSameKeys(s.handles, Unreferenced(s, id).handles, s.contents);
  }

  /** An entry that is out of the table can be taken out of the cache. */
  lemma EraseKeeps(s: State, id: nat)
    requires Books(s, None) && TableOk(s.handles, s.contents, Some(id)) && id in s.handles && s.handles[id].inCache
    ensures Known(s, id) && Inv(Erased(s, id))
  {
    UnlistBooks(s, id);
    UnrefBooks(Unlisted(s, id), id);
    EraseTable(s, id);
  }

  lemma UnlistBooks(s: State, id: nat)
    requires Books(s, None) && id in s.handles && s.handles[id].inCache
    ensures Known(s, id) && Books(Unlisted(s, id), Some(id))
  {
    EraseBooks(s.handles, s.lru, s.inUse, s.clients, s.deleted, s.next, s.usage, id);
  }

  lemma EraseTable(s: State, id: nat)
    requires TableOk(s.handles, s.contents, Some(id)) && Known(s, id)
    ensures TableOk(Erased(s, id).handles, Erased(s, id).contents, None)
  {
    TableErased(s.handles, Erased(s, id).handles, s.contents, id);
  }

  lemma RemoveKeeps(s: State, key: Bytes)
    requires Inv(s)
    ensures key in s.contents ==> Known(s, s.contents[key])
    ensures Inv(Removed(s, key))
  {
    if key in s.contents {
      TableRemoved(s.handles, s.contents, s.contents[key]);
      EraseKeeps(s.(contents := s.contents - {key}), s.contents[key]);
    }
  }

  lemma AddKeeps(s: State, key: Bytes, charge: nat)
    requires Inv(s)
    ensures key in s.contents ==> Known(s, s.contents[key])
    ensures Inv(Added(s, key, charge))
  {
    CachedKeeps(s, key, charge);
    if key in s.contents {
      EraseKeeps(Cached(s, key, charge).(contents := s.contents[key := s.next]), s.contents[key]);
    }
  }

  lemma CachedKeeps(s: State, key: Bytes, charge: nat)
    requires Inv(s)
    ensures Books(Cached(s, key, charge), None)
    ensures TableOk(Cached(s, key, charge).handles, s.contents[key := s.next], if key in s.contents then Some(s.contents[key]) else None)
    ensures key in s.contents ==> Known(s, s.contents[key]) && s.contents[key] != s.next && s.handles[s.contents[key]].inCache
  {
    NewCached(s.handles, s.lru, s.inUse, s.clients, s.deleted, s.next, s.usage, Handle(key, charge, true, 2));
    TableInserted(s.handles, s.contents, s.next, Handle(key, charge, true, 2));
  }

  lemma UncachedKeeps(s: State, key: Bytes, charge: nat)
    requires Inv(s)
    ensures Inv(Uncached(s, key, charge))
  {
    NewUncached(s.handles, s.lru, s.inUse, s.clients, s.deleted, s.next, s.usage, Handle(key, charge, false, 1));
    TableSameKeys(s.handles, Uncached(s, key, charge).handles, s.contents);
  }

  /** Only the cache holds the oldest idle entry, so that removing it runs its deleter. */
  lemma OldestGoes(s: State)
    requires Inv(s) && s.lru != []
    ensures s.lru[0] in s.handles
    ensures var key := s.handles[s.lru[0]].key;
            && key in s.contents && s.contents[key] == s.lru[0] && Known(s, s.lru[0])
            && Inv(Removed(s, key)) && Removed(s, key).lru == s.lru[1..] && Removed(s, key).deleted == s.deleted + [s.lru[0]]
            && Removed(s, key).handles == s.handles - {s.lru[0]} && Removed(s, key).clients == s.clients - {s.lru[0]}
            && Removed(s, key).contents == s.contents - {key}
  {
    var id := s.lru[0];
    assert id in s.lru && Idle(s.handles, id);
    RemoveKeeps(s, s.handles[id].key);
    FirstWithout(s.lru);
    assert s.handles[id := s.handles[id].(inCache := false)] - {id} == s.handles - {id};
  }

  lemma FirstWithout(ids: seq<nat>)
    requires ids != [] && Distinct(ids)
    ensures Without(ids, ids[0]) == ids[1..]
  {
    TailDistinct(ids);
    SameWithout(ids[1..], ids[0]);
  }

  /** Eviction takes idle entries in the order in which they became idle and ends within the capacity or with none left. What a
      client holds stays, in the table too. */
  lemma {:induction false} EvictKeeps(s: State, capacity: int)
    requires Inv(s)
    ensures var s' := Evicted(s, capacity);
            Inv(s') && (s'.usage <= capacity || s'.lru == []) && Moved(s.lru, s'.lru, s.deleted, s'.deleted)
    decreases |s.lru|
  {
    if s.usage > capacity && s.lru != [] {
      OldestGoes(s);
      var next := Removed(s, s.handles[s.lru[0]].key);
      EvictKeeps(next, capacity);
      MovedOn(s.lru, Evicted(next, capacity).lru, s.deleted, Evicted(next, capacity).deleted);
    } else {
      assert Evicted(s, capacity) == s && s.deleted == s.deleted + s.lru[..0];
    }
  }

  /** Some entries at the front of one list are now at the end of the other. */
  predicate Moved(from: seq<nat>, from': seq<nat>, to: seq<nat>, to': seq<nat>) {
    match |from'| <= |from|
    case true => from' == from[|from| - |from'|..] && to' == to + from[..|from| - |from'|]
    case false => false
  }

  lemma MovedOn(from: seq<nat>, from': seq<nat>, to: seq<nat>, to': seq<nat>)
    requires from != [] && Moved(from[1..], from', to + [from[0]], to')
    ensures Moved(from, from', to, to')
  {
    var n := |from[1..]| - |from'|;
    assert from[..n + 1] == [from[0]] + from[1..][..n];
  }

  lemma {:induction false} EvictSpares(s: State, capacity: int, id: nat)
    requires Inv(s) && id in s.clients && s.clients[id] > 0
    ensures var s' := Evicted(s, capacity);
            && id in s.handles && id in s'.handles && s'.handles[id] == s.handles[id]
            && id in s'.clients && s'.clients[id] == s.clients[id]
    decreases |s.lru|
  {
    if s.usage > capacity && s.lru != [] {
      OldestGoes(s);
      assert s.lru[0] in s.lru && Idle(s.handles, s.lru[0]);
      EvictSpares(Removed(s, s.handles[s.lru[0]].key), capacity, id);
    }
  }

  // ---------------------------------------------------------------- the cache

  class LRUCache {
    const capacity: nat
    const table: HandleTable
    var usage: int
    var lru: seq<nat>
    var inUse: seq<nat>
    var handles: Handles
    var next: nat
    var deleted: seq<nat>
    ghost var clients: map<nat, nat>

    ghost function Abs(): State
      reads this, table
    {
      State(handles, lru, inUse, usage, next, deleted, clients, table.contents)
    }

    ghost predicate Valid()
      reads this, table
    {
      Inv(Abs()) && table.Valid()
    }

    constructor (capacity: nat, hash: HashOf)
      ensures Valid() && fresh(table) && this.capacity == capacity
      ensures Abs() == EMPTY
    {
      this.capacity := capacity;
      table := new HandleTable(hash);
      usage, lru, inUse, handles, next, deleted, clients := 0, [], [], map[], 0, [], map[];
    }

    method Ref(id: nat)
      requires Known(Abs(), id)
      modifies this`lru, this`inUse, this`handles, this`clients
      ensures Abs() == Referenced(old(Abs()), id)
    {
      if handles[id].refs == 1 && handles[id].inCache {
        lru := Without(lru, id);
        inUse := inUse + [id];
      }
      handles := handles[id := handles[id].(refs := handles[id].refs + 1)];
      clients := clients[id := clients[id] + 1];
    }

    method Unref(id: nat)
      requires Known(Abs(), id)
      modifies this`lru, this`inUse, this`handles, this`clients, this`deleted
      ensures Abs() == Unreferenced(old(Abs()), id)
    {
      var h := handles[id];
      var refs := h.refs - 1;
      if refs == 0 {
        deleted := deleted + [id];
        handles := handles - {id};
        clients := clients - {id};
      } else {
        handles := handles[id := h.(refs := refs)];
        if h.inCache && refs == 1 {
          inUse := Without(inUse, id);
          lru := lru + [id];
        }
      }
    }

    method FinishErase(id: nat)
      requires Known(Abs(), id)
      modifies this`lru, this`inUse, this`handles, this`clients, this`deleted, this`usage
      ensures Abs() == Erased(old(Abs()), id)
    {
      lru := Without(lru, id);
      inUse := Without(inUse, id);
      usage := usage - handles[id].charge;
      handles := handles[id := handles[id].(inCache := false)];
      Unref(id);
    }

    method Lookup(key: Bytes) returns (id: Option<nat>)
      requires Valid()
      modifies this
      ensures Valid() && id == if key in old(table.contents) then Some(old(table.contents)[key]) else None
      ensures id.Some? ==> Known(old(Abs()), id.value) && Abs() == Referenced(old(Abs()), id.value)
      ensures id.None? ==> Abs() == old(Abs())
    {
      id := table.Lookup(key);
      if id.Some? {
        ReferenceKeeps(Abs(), key);
        Ref(id.value);
      }
    }

    /** Give back a handle. */
    method Release(id: nat)
      requires Valid() && id in clients && clients[id] > 0
      modifies this
      ensures Valid() && Known(old(Abs()), id) && Abs() == Released(old(Abs()), id)
    {
      ReleaseKeeps(Abs(), id);
      clients := clients[id := clients[id] - 1];
      Unref(id);
    }

    method Erase(key: Bytes)
      requires Valid()
      modifies this, table
      ensures Valid() && (key in old(table.contents) ==> Known(old(Abs()), old(table.contents)[key]))
      ensures Abs() == Removed(old(Abs()), key)
    {
      RemoveKeeps(Abs(), key);
      RemoveEntry(key);
    }

    method RemoveEntry(key: Bytes)
      requires table.Valid() && (key in table.contents ==> Known(Abs(), table.contents[key]))
      modifies this, table
      ensures table.Valid() && Abs() == Removed(old(Abs()), key)
    {
      ghost var before := table.contents;
      var r := table.Remove(key);
      if r.Some? {
        FinishErase(r.value);
      } else {
        assert before - {key} == before;
      }
    }

    method AddEntry(key: Bytes, charge: nat)
      requires table.Valid() && (key in table.contents ==> Known(Abs(), table.contents[key]))
      modifies this, table
      ensures table.Valid() && Abs() == Added(old(Abs()), key, charge)
    {
      var id := next;
      NewEntry(key, charge, true);
      var older := table.Insert(key, id);
      if older.Some? {
        FinishErase(older.value);
      }
    }

    method NewEntry(key: Bytes, charge: nat, cached: bool)
      modifies this`handles, this`clients, this`inUse, this`usage, this`next
      ensures Abs() == if cached then Cached(old(Abs()), key, charge) else Uncached(old(Abs()), key, charge)
    {
      handles := handles[next := Handle(key, charge, cached, if cached then 2 else 1)];
      clients := clients[next := 1];
      if cached {
        inUse := inUse + [next];
        usage := usage + charge;
      }
      next := next + 1;
    }

    /** Insert an entry, which a client then holds, and evict. */
    method Insert(key: Bytes, charge: nat) returns (id: nat)
      requires Valid()
      modifies this, table
      ensures Valid() && id == old(next) && Abs() == Evicted(Entered(old(Abs()), capacity, key, charge), capacity)
      ensures usage <= capacity || lru == []
    {
      id := next;
      EvictKeeps(Entered(Abs(), capacity, key, charge), capacity);
      if capacity > 0 {
        AddKeeps(Abs(), key, charge);
        AddEntry(key, charge);
      } else {
        NewEntry(key, charge, false);
      }
      Evict();
    }

    method Evict()
      requires Valid()
      modifies this, table
      ensures table.Valid() && Abs() == Evicted(old(Abs()), capacity)
    {
      while usage > capacity && lru != []
        invariant Valid() && Evicted(Abs(), capacity) == Evicted(old(Abs()), capacity)
        decreases |lru|
      {
        OldestGoes(Abs());
        RemoveEntry(handles[lru[0]].key);
      }
    }

    /** Drop every entry that no client holds. */
    method Prune()
      requires Valid()
      modifies this, table
      ensures Valid() && lru == [] && Abs() == Evicted(old(Abs()), -1)
    {
      EvictKeeps(Abs(), -1);
      while lru != []
        invariant Valid() && Evicted(Abs(), -1) == Evicted(old(Abs()), -1)
        decreases |lru|
      {
        UsageNonNegative(Abs());
        OldestGoes(Abs());
        RemoveEntry(handles[lru[0]].key);
      }
    }
  }

  lemma UsageNonNegative(s: State)
    requires Inv(s)
    ensures s.usage >= 0
  {
  }

  /** The first part of an insertion; a capacity of zero turns caching off. */
  ghost function Entered(s: State, capacity: nat, key: Bytes, charge: nat): State
    requires Inv(s)
    ensures Inv(Entered(s, capacity, key, charge))
  {
    if capacity > 0 then AddKeeps(s, key, charge); Added(s, key, charge)
    else UncachedKeeps(s, key, charge); Uncached(s, key, charge)
  }

  /** The client's new handle survives its own insertion, and with caching on a lookup then finds it. */
  lemma InsertIsFound(s: State, capacity: nat, key: Bytes, charge: nat)
    requires Inv(s)
    ensures var s' := Evicted(Entered(s, capacity, key, charge), capacity);
            && s.next in s'.clients && s'.clients[s.next] == 1 && s.next in s'.handles && s'.handles[s.next].key == key
            && (capacity > 0 ==> key in s'.contents && s'.contents[key] == s.next)
  {
    var t := Entered(s, capacity, key, charge);
    EnteredHolds(s, capacity, key, charge);
    EvictSpares(t, capacity, s.next);
    EvictKeeps(t, capacity);
    if capacity > 0 { CachedIsFound(Evicted(t, capacity), s.next); }
  }

  lemma EnteredHolds(s: State, capacity: nat, key: Bytes, charge: nat)
    requires Inv(s)
    ensures var t := Entered(s, capacity, key, charge);
            && s.next in t.clients && t.clients[s.next] == 1
            && s.next in t.handles && t.handles[s.next].key == key && (capacity > 0 ==> t.handles[s.next].inCache)
  {
    CachedKeeps(s, key, charge);
  }

  lemma CachedIsFound(s: State, id: nat)
    requires Inv(s) && id in s.handles && s.handles[id].inCache
    ensures s.handles[id].key in s.contents && s.contents[s.handles[id].key] == id
  {
  }

  // ---------------------------------------------------------------- whole runs

  datatype Op = OpLookup(key: Bytes) | OpRelease(id: nat) | OpInsert(key: Bytes, charge: nat) | OpErase(key: Bytes) | OpPrune

  /** Clients only give back handles they hold. */
  predicate Allowed(s: State, op: Op) {
    op.OpRelease? ==> op.id in s.clients && s.clients[op.id] > 0
  }

  ghost function Apply(s: State, capacity: nat, op: Op): State
    requires Inv(s) && Allowed(s, op)
  {
    match op
    case OpLookup(key) => if key in s.contents then ReferenceKeeps(s, key); Referenced(s, s.contents[key]) else s
    case OpRelease(id) => ReleaseKeeps(s, id); Released(s, id)
    case OpInsert(key, charge) => Evicted(Entered(s, capacity, key, charge), capacity)
    case OpErase(key) => RemoveKeeps(s, key); Removed(s, key)
    case OpPrune => Evicted(s, -1)
  }

  lemma ApplyKeeps(s: State, capacity: nat, op: Op)
    requires Inv(s) && Allowed(s, op)
    ensures Inv(Apply(s, capacity, op))
    ensures s.deleted <= Apply(s, capacity, op).deleted
    ensures op.OpInsert? ==> Apply(s, capacity, op).usage <= capacity || Apply(s, capacity, op).lru == []
  {
    match op
    case OpLookup(key) => if key in s.contents { ReferenceKeeps(s, key); }
    case OpRelease(id) => ReleaseKeeps(s, id);
    case OpInsert(key, charge) => EvictKeeps(Entered(s, capacity, key, charge), capacity);
    case OpErase(key) => RemoveKeeps(s, key);
    case OpPrune => EvictKeeps(s, -1);
  }

  // ---------------------------------------------------------------- steps, as far as the code checks anything

  predicate Removable(s: State, key: Bytes) { key in s.contents ==> Known(s, s.contents[key]) }

  /** There is an idle entry that must go; pruning has no limit to stop at. */
  predicate Over(s: State, limit: Option<nat>) {
    s.lru != [] && (limit.Some? ==> s.usage > limit.value)
  }

  /** The front of the LRU list is removed. */
  predicate OldestRemoved(s: State, limit: Option<nat>, s': State) {
    && Over(s, limit) && s.lru[0] in s.handles && Removable(s, s.handles[s.lru[0]].key)
    && s' == Removed(s, s.handles[s.lru[0]].key)
  }

  /** The eviction loop goes round `n` times. */
  ghost predicate Evicts(s: State, limit: Option<nat>, n: nat, s': State)
    decreases n
  {
    if n == 0 then s' == s && !Over(s, limit) else exists t :: OldestRemoved(s, limit, t) && Evicts(t, limit, n - 1, s')
  }

  ghost predicate Settles(s: State, limit: Option<nat>, s': State) {
    exists n :: Evicts(s, limit, n, s')
  }

  /** An operation as the code runs it: only what it dereferences has to be there. */
  ghost predicate StepsTo(s: State, capacity: nat, op: Op, s': State) {
    match op
    case OpLookup(key) => Removable(s, key) && s' == if key in s.contents then Referenced(s, s.contents[key]) else s
    case OpRelease(id) => Allowed(s, op) && Known(s, id) && s' == Released(s, id)
    case OpInsert(key, charge) =>
      Removable(s, key) && Settles(if capacity > 0 then Added(s, key, charge) else Uncached(s, key, charge), Some(capacity), s')
    case OpErase(key) => Removable(s, key) && s' == Removed(s, key)
    case OpPrune => Settles(s, None, s')
  }

  /** Operation after operation on a cache that starts empty. */
  ghost predicate IsRun(capacity: nat, ops: seq<Op>, states: seq<State>) {
    && |states| == |ops| + 1 && states[0] == EMPTY
    && forall i :: 0 <= i < |ops| ==> StepsTo(states[i], capacity, ops[i], states[i + 1])
  }

  const EMPTY: State := State(map[], [], [], 0, 0, [], map[], map[])

  function Limit(limit: Option<nat>): int { if limit.Some? then limit.value else -1 }

  lemma EvictOne(s: State, limit: Option<nat>, t: State)
    requires Inv(s) && OldestRemoved(s, limit, t)
    ensures Inv(t) && |t.lru| < |s.lru| && Evicted(s, Limit(limit)) == Evicted(t, Limit(limit))
  {
    UsageNonNegative(s);
    OldestGoes(s);
  }

  lemma OneGoes(s: State, limit: Option<nat>) returns (t: State)
    requires Inv(s) && Over(s, limit)
    ensures OldestRemoved(s, limit, t)
  {
    OldestGoes(s);
    t := Removed(s, s.handles[s.lru[0]].key);
  }

  lemma NoneGoes(s: State, limit: Option<nat>)
    requires Inv(s) && !Over(s, limit)
    ensures Evicted(s, Limit(limit)) == s
  {
  }

  lemma {:induction false} EvictsOnlyThere(s: State, limit: Option<nat>, n: nat, s': State)
    requires Inv(s) && Evicts(s, limit, n, s')
    ensures s' == Evicted(s, Limit(limit))
    decreases n
  {
    if n == 0 {
      NoneGoes(s, limit);
    } else {
      var t :| OldestRemoved(s, limit, t) && Evicts(t, limit, n - 1, s');
      EvictOne(s, limit, t);
      EvictsOnlyThere(t, limit, n - 1, s');
    }
  }

  lemma {:induction false} EvictsThere(s: State, limit: Option<nat>) returns (n: nat)
    requires Inv(s)
    ensures Evicts(s, limit, n, Evicted(s, Limit(limit)))
    decreases |s.lru|
  {
    n := 0;
    if Over(s, limit) {
      var t := OneGoes(s, limit);
      EvictOne(s, limit, t);
      var m := EvictsThere(t, limit);
      n := m + 1;
    } else {
      NoneGoes(s, limit);
    }
  }

  lemma SettlesExactly(s: State, limit: Option<nat>, s': State)
    requires Inv(s)
    ensures Settles(s, limit, s') <==> s' == Evicted(s, Limit(limit))
  {
    if Settles(s, limit, s') {
      var n :| Evicts(s, limit, n, s');
      EvictsOnlyThere(s, limit, n, s');
    }
    var n := EvictsThere(s, limit);
  }

  /** From a state that keeps the invariant, the code's step is exactly the specified one, and clients need only hold what they release. */
  lemma StepIsApply(s: State, capacity: nat, op: Op, s': State)
    requires Inv(s)
    ensures StepsTo(s, capacity, op, s') <==> Allowed(s, op) && s' == Apply(s, capacity, op)
  {
    match op
    case OpLookup(key) => if key in s.contents { ReferenceKeeps(s, key); }
    case OpRelease(id) => if Allowed(s, op) { ReleaseKeeps(s, id); }
    case OpInsert(key, charge) =>
      AddKeeps(s, key, charge);
      SettlesExactly(Entered(s, capacity, key, charge), Some(capacity), s');
    case OpErase(key) => RemoveKeeps(s, key);
    case OpPrune => SettlesExactly(s, None, s');
  }

  lemma EmptyIsOk()
    ensures Inv(EMPTY)
  {
  }

  /** Every state of every run keeps the invariant. */
  lemma {:induction false} RunKeepsInv(capacity: nat, ops: seq<Op>, states: seq<State>, n: nat)
    requires IsRun(capacity, ops, states) && n < |states|
    ensures Inv(states[n])
    ensures n > 0 && ops[n - 1].OpInsert? ==> states[n].usage <= capacity || states[n].lru == []
  {
    if n == 0 {
      EmptyIsOk();
    } else {
      RunKeepsInv(capacity, ops, states, n - 1);
      assert StepsTo(states[n - 1], capacity, ops[n - 1], states[n]);
      StepIsApply(states[n - 1], capacity, ops[n - 1], states[n]);
      ApplyKeeps(states[n - 1], capacity, ops[n - 1]);
    }
  }

  /** A run never gets stuck: any operation that clients may ask for goes on, with one outcome. */
  lemma RunGoesOn(capacity: nat, ops: seq<Op>, states: seq<State>, op: Op)
    requires IsRun(capacity, ops, states) && Allowed(states[|ops|], op)
    ensures Inv(states[|ops|]) && IsRun(capacity, ops + [op], states + [Apply(states[|ops|], capacity, op)])
  {
    RunKeepsInv(capacity, ops, states, |ops|);
    var s' := Apply(states[|ops|], capacity, op);
    StepIsApply(states[|ops|], capacity, op, s');
    var ops', states' := ops + [op], states + [s'];
    forall i | 0 <= i < |ops'| ensures StepsTo(states'[i], capacity, ops'[i], states'[i + 1]) {
      assert i < |ops| ==> StepsTo(states[i], capacity, ops[i], states[i + 1]);
    }
  }

  // ---------------------------------------------------------------- the class follows the runs

  /** Clients only give back handles they hold, all along. */
  ghost predicate AllAllowed(s: State, capacity: nat, ops: seq<Op>)
    requires Inv(s)
    decreases |ops|
  {
    ops == [] || (Allowed(s, ops[0]) && (ApplyKeeps(s, capacity, ops[0]); AllAllowed(Apply(s, capacity, ops[0]), capacity, ops[1..])))
  }

  method Perform(cache: LRUCache, op: Op) returns (handle: Option<nat>)
    requires cache.Valid() && Allowed(cache.Abs(), op)
    modifies cache, cache.table
    ensures cache.Valid() && cache.Abs() == Apply(old(cache.Abs()), cache.capacity, op)
  {
    handle := None;
    match op
    case OpLookup(key) => handle := cache.Lookup(key);
    case OpRelease(id) => cache.Release(id);
    case OpInsert(key, charge) => var id := cache.Insert(key, charge); handle := Some(id);
    case OpErase(key) => cache.Erase(key);
    case OpPrune => cache.Prune();
  }

  /** The first `i` operations have made a run that ends in `s`, and the others are allowed from there. */
  ghost predicate Driven(capacity: nat, ops: seq<Op>, i: nat, states: seq<State>, s: State) {
    match i <= |ops|
    case true => IsRun(capacity, ops[..i], states) && s == states[i] && Inv(s) && AllAllowed(s, capacity, ops[i..])
    case false => false
  }

  lemma OneMore(capacity: nat, ops: seq<Op>, i: nat, states: seq<State>, s: State)
    requires i < |ops| && Driven(capacity, ops, i, states, s)
    ensures Inv(s) && Allowed(s, ops[i])
    ensures Driven(capacity, ops, i + 1, states + [Apply(s, capacity, ops[i])], Apply(s, capacity, ops[i]))
  {
    assert ops[i..][0] == ops[i] && ops[i..][1..] == ops[i + 1..] && ops[..i] + [ops[i]] == ops[..i + 1];
    ApplyKeeps(s, capacity, ops[i]);
    RunGoesOn(capacity, ops[..i], states, ops[i]);
  }

  lemma NoneYet(capacity: nat, ops: seq<Op>)
    requires Inv(EMPTY) && AllAllowed(EMPTY, capacity, ops)
    ensures Driven(capacity, ops, 0, [EMPTY], EMPTY)
  {
    assert ops[0..] == ops && ops[..0] == [];
  }

  lemma AllDriven(capacity: nat, ops: seq<Op>, states: seq<State>, s: State)
    requires Driven(capacity, ops, |ops|, states, s)
    ensures IsRun(capacity, ops, states) && s == states[|ops|]
  {
    assert ops[..|ops|] == ops;
  }

  /** A new cache under any list of operations makes a run. */
  method Drive(capacity: nat, hash: HashOf, ops: seq<Op>) returns (cache: LRUCache, handles: seq<Option<nat>>, ghost states: seq<State>)
    requires Inv(EMPTY) && AllAllowed(EMPTY, capacity, ops)
    ensures |handles| == |ops| && IsRun(capacity, ops, states) && cache.Valid() && cache.Abs() == states[|ops|]
  {
    cache := new LRUCache(capacity, hash);
    handles, states := [], [EMPTY];
    NoneYet(capacity, ops);
    for i := 0 to |ops|
      invariant cache.Valid() && cache.capacity == capacity && fresh(cache) && fresh(cache.table) && |handles| == i
      invariant Driven(capacity, ops, i, states, cache.Abs())
    {
      OneMore(capacity, ops, i, states, cache.Abs());
      states := states + [Apply(cache.Abs(), capacity, ops[i])];
      var handle := Perform(cache, ops[i]);
      handles := handles + [handle];
    }
    AllDriven(capacity, ops, states, cache.Abs());
  }

  /** What the invariant says of any reachable state. */
  lemma CacheIsExact(capacity: nat, ops: seq<Op>, states: seq<State>, n: nat)
    requires IsRun(capacity, ops, states) && n < |states|
    ensures var s := states[n];
            && (forall id :: id in s.contents.Values <==> id in s.lru + s.inUse) && Distinct(s.lru + s.inUse)
            && (forall id :: id in s.lru ==> id in s.handles && s.handles[id].refs == 1)
            && (forall id :: id in s.lru + s.inUse ==> id in s.handles) && s.usage == Charge(s.lru + s.inUse, s.handles)
  {
    RunKeepsInv(capacity, ops, states, n);
    var s := states[n];
    ContentsAreListed(s);
    ListsAreApart(s.handles, s.lru, s.inUse);
    ChargeConcat(s.lru, s.inUse, s.handles);
  }

  lemma ContentsAreListed(s: State)
    requires Inv(s)
    ensures forall id :: id in s.contents.Values <==> id in s.lru + s.inUse
    ensures forall id :: id in s.lru + s.inUse ==> id in s.handles
    ensures ListsOk(s.handles, s.lru, s.inUse) && s.usage == Charge(s.lru, s.handles) + Charge(s.inUse, s.handles)
  {
    forall id | id in s.contents.Values ensures id in s.lru + s.inUse {
      var key :| key in s.contents && s.contents[key] == id;
      assert Idle(s.handles, id) || Busy(s.handles, id);
    }
    forall id | id in s.lru + s.inUse ensures id in s.contents.Values {
      assert Idle(s.handles, id) || Busy(s.handles, id);
      assert s.contents[s.handles[id].key] == id;
    }
  }

  lemma ListsAreApart(hs: Handles, lru: seq<nat>, inUse: seq<nat>)
    requires ListsOk(hs, lru, inUse)
    ensures Distinct(lru + inUse) && forall id :: id in lru ==> id in hs && hs[id].refs == 1
  {
    forall i, j | 0 <= i < j < |lru + inUse| ensures (lru + inUse)[i] != (lru + inUse)[j] {
      if i < |lru| <= j {
        assert lru[i] in lru && inUse[j - |lru|] in inUse;
      }
    }
  }

  /** The deleter of an entry runs at most once, and it has run exactly if neither a client nor the cache holds the entry. What
      has been deleted stays deleted. */
  lemma {:induction false} DeletedOnce(capacity: nat, ops: seq<Op>, states: seq<State>, m: nat, n: nat)
    requires IsRun(capacity, ops, states) && m <= n < |states|
    ensures Distinct(states[n].deleted) && states[m].deleted <= states[n].deleted
    ensures forall id: nat :: id < states[n].next ==>
              (id in states[n].deleted <==> id !in states[n].lru + states[n].inUse && (id in states[n].clients ==> states[n].clients[id] == 0))
    decreases n
  {
    RunKeepsInv(capacity, ops, states, n);
    GoneMeansUnheld(states[n]);
    if m < n {
      assert StepsTo(states[n - 1], capacity, ops[n - 1], states[n]);
      DeletedOnce(capacity, ops, states, m, n - 1);
      RunKeepsInv(capacity, ops, states, n - 1);
      StepIsApply(states[n - 1], capacity, ops[n - 1], states[n]);
      ApplyKeeps(states[n - 1], capacity, ops[n - 1]);
    }
  }

  lemma GoneMeansUnheld(s: State)
    requires Inv(s)
    ensures Distinct(s.deleted)
    ensures forall id: nat :: id < s.next ==>
              (id in s.deleted <==> id !in s.lru + s.inUse && (id in s.clients ==> s.clients[id] == 0))
  {
    forall id: nat | id < s.next ensures id in s.deleted <==> id !in s.lru + s.inUse && (id in s.clients ==> s.clients[id] == 0) {
      assert id in s.lru <==> Idle(s.handles, id);
      assert id in s.inUse <==> Busy(s.handles, id);
    }
  }
}
