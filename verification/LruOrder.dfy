/** "Least recently used" (util/cache.cc): the order of the LRU list is the order in which clients let go of the entries, and eviction
    takes those first that were let go first. Times are counted in operations of a run, and holding is told by the clients' counts. */
module LruOrder {
  import opened InternalKeys
  import opened Queues
  import opened LruCache

  predicate Held(s: State, id: nat) { id in s.clients && s.clients[id] > 0 }

  ghost predicate NotSince(states: seq<State>, i: nat, n: nat, a: nat) {
    forall j :: i <= j <= n && j < |states| ==> !Held(states[j], a)
  }

  /** Some client held `b` at a moment since which, up to moment `n`, none has held `a`. */
  ghost predicate LetGoFirst(states: seq<State>, n: nat, a: nat, b: nat) {
    exists i: nat :: i < n && i < |states| && Held(states[i], b) && NotSince(states, i, n, a)
  }

  // ---------------------------------------------------------------- what operations do to the list

  /** An entry that only the cache holds is held by no client. */
  lemma {:induction false} IdleIsFree(s: State, id: nat)
    requires Inv(s) && id in s.lru
    ensures !Held(s, id)
  {
    assert Idle(s.handles, id);
  }

  /** The order of the list after an operation: as before, except that an entry just released is behind all others. */
  ghost predicate KeepsOrder(s: State, op: Op, s': State, a: nat, b: nat) {
    Ahead(s'.lru, a, b) ==> Ahead(s.lru, a, b) || (a in s.lru && op == OpRelease(b))
  }

  lemma {:induction false} RemovedOrder(s: State, key: Bytes, a: nat, b: nat)
    requires Inv(s) && Ahead(Removed(s, key).lru, a, b) && (key in s.contents ==> Known(s, s.contents[key]))
    ensures Ahead(s.lru, a, b)
  {
    if key in s.contents { WithoutAhead(s.lru, s.contents[key], a, b); }
  }

  lemma {:induction false} EnteredOrder(s: State, capacity: nat, key: Bytes, charge: nat, a: nat, b: nat)
    requires Inv(s) && Ahead(Entered(s, capacity, key, charge).lru, a, b)
    ensures Ahead(s.lru, a, b)
  {
    AddKeeps(s, key, charge);
    CachedKeeps(s, key, charge);
    if key in s.contents { WithoutAhead(s.lru, s.contents[key], a, b); }
  }

  lemma {:induction false} EvictedOrder(s: State, capacity: int, a: nat, b: nat)
    requires Inv(s) && Ahead(Evicted(s, capacity).lru, a, b)
    ensures Ahead(s.lru, a, b)
  {
    EvictKeeps(s, capacity);
    TailAhead(s.lru, |s.lru| - |Evicted(s, capacity).lru|, a, b);
  }

  lemma {:induction false} ReferencedOrder(s: State, id: nat, a: nat, b: nat)
    requires Known(s, id) && Ahead(Referenced(s, id).lru, a, b)
    ensures Ahead(s.lru, a, b)
  {
    WithoutAhead(s.lru, id, a, b);
  }

  lemma {:induction false} ReleasedOrder(s: State, id: nat, a: nat, b: nat)
    requires Known(s, id) && s.clients[id] > 0 && Ahead(Released(s, id).lru, a, b)
    ensures Ahead(s.lru, a, b) || (a in s.lru && b == id)
  {
    AppendAhead(s.lru, id, a, b);
  }

  lemma {:induction false} ApplyOrder(s: State, capacity: nat, op: Op, a: nat, b: nat)
    requires Inv(s) && Allowed(s, op)
    ensures KeepsOrder(s, op, Apply(s, capacity, op), a, b)
  {
    if Ahead(Apply(s, capacity, op).lru, a, b) {
      match op
      case OpLookup(key) =>
        if key in s.contents {
          ReferenceKeeps(s, key);
          ReferencedOrder(s, s.contents[key], a, b);
        }
      case OpRelease(id) =>
        ReleaseKeeps(s, id);
        ReleasedOrder(s, id, a, b);
      case OpInsert(key, charge) =>
        EvictedOrder(Entered(s, capacity, key, charge), capacity, a, b);
        EnteredOrder(s, capacity, key, charge, a, b);
      case OpErase(key) =>
        RemoveKeeps(s, key);
        RemovedOrder(s, key, a, b);
      case OpPrune => EvictedOrder(s, -1, a, b);
    }
  }

  // ---------------------------------------------------------------- runs

  lemma {:induction false} StillLetGo(states: seq<State>, n: nat, a: nat, b: nat)
    requires n + 1 < |states| && LetGoFirst(states, n, a, b) && !Held(states[n + 1], a)
    ensures LetGoFirst(states, n + 1, a, b)
  {
    var i: nat :| i < n && i < |states| && Held(states[i], b) && NotSince(states, i, n, a);
    assert NotSince(states, i, n + 1, a);
  }

  lemma {:induction false} JustLetGo(states: seq<State>, n: nat, a: nat, b: nat)
    requires n + 1 < |states| && Held(states[n], b) && !Held(states[n], a) && !Held(states[n + 1], a)
    ensures LetGoFirst(states, n + 1, a, b)
  {
    assert NotSince(states, n, n + 1, a);
  }

  /** The list is in the order in which clients let go. */
  lemma {:induction false} ListIsByAge(capacity: nat, ops: seq<Op>, states: seq<State>, n: nat, a: nat, b: nat)
    requires IsRun(capacity, ops, states) && n < |states| && Ahead(states[n].lru, a, b)
    ensures LetGoFirst(states, n, a, b)
    decreases n
  {
    if n > 0 {
      var s := states[n - 1];
      RunKeepsInv(capacity, ops, states, n - 1);
      RunKeepsInv(capacity, ops, states, n);
      assert StepsTo(s, capacity, ops[n - 1], states[n]);
      StepIsApply(s, capacity, ops[n - 1], states[n]);
      ApplyOrder(s, capacity, ops[n - 1], a, b);
      IdleIsFree(states[n], a);
      if Ahead(s.lru, a, b) {
        ListIsByAge(capacity, ops, states, n - 1, a, b);
        StillLetGo(states, n - 1, a, b);
      } else {
        IdleIsFree(s, a);
        JustLetGo(states, n - 1, a, b);
      }
    }
  }

  /** Two idle entries: the one that clients let go of first is ahead, and is not so the other way round. */
  lemma {:induction false} ListOrderExact(capacity: nat, ops: seq<Op>, states: seq<State>, n: nat, a: nat, b: nat)
    requires IsRun(capacity, ops, states) && n < |states| && a in states[n].lru && b in states[n].lru && a != b
    ensures Ahead(states[n].lru, a, b) <==> LetGoFirst(states, n, a, b)
  {
    RunKeepsInv(capacity, ops, states, n);
    if Ahead(states[n].lru, a, b) {
      ListIsByAge(capacity, ops, states, n, a, b);
    } else {
      EitherAhead(states[n].lru, a, b);
      ListIsByAge(capacity, ops, states, n, b, a);
      NotBoth(states, n, b, a);
    }
  }

  lemma {:induction false} EitherAhead(q: seq<nat>, a: nat, b: nat)
    requires a in q && b in q && a != b
    ensures Ahead(q, a, b) || Ahead(q, b, a)
  {
    var i :| 0 <= i < |q| && q[i] == a;
    var j :| 0 <= j < |q| && q[j] == b;
    assert i < j || j < i;
  }

  lemma {:induction false} NotBoth(states: seq<State>, n: nat, a: nat, b: nat)
    requires n < |states| && LetGoFirst(states, n, a, b)
    ensures !LetGoFirst(states, n, b, a)
  {
  }

  /** An idle entry that is gone after an insertion, other than one of the key inserted, was let go before every idle entry that stays. */
  lemma {:induction false} OldestAreEvicted(capacity: nat, ops: seq<Op>, states: seq<State>, n: nat, key: Bytes, charge: nat, a: nat, b: nat)
    requires IsRun(capacity, ops, states) && n < |ops| && ops[n] == OpInsert(key, charge)
    requires a in states[n].lru && a !in states[n + 1].lru && a in states[n].handles && states[n].handles[a].key != key
    requires b in states[n + 1].lru
    ensures a in states[n + 1].deleted && LetGoFirst(states, n, a, b)
  {
    var s := states[n];
    RunKeepsInv(capacity, ops, states, n);
    assert StepsTo(s, capacity, ops[n], states[n + 1]);
    StepIsApply(s, capacity, ops[n], states[n + 1]);
    EvictsFront(s, capacity, key, charge, a, b);
    ListIsByAge(capacity, ops, states, n, a, b);
  }

  lemma {:induction false} EvictsFront(s: State, capacity: nat, key: Bytes, charge: nat, a: nat, b: nat)
    requires Inv(s) && a in s.lru && a in s.handles && s.handles[a].key != key
    requires var s' := Evicted(Entered(s, capacity, key, charge), capacity); a !in s'.lru && b in s'.lru
    ensures Ahead(s.lru, a, b) && a in Evicted(Entered(s, capacity, key, charge), capacity).deleted
  {
    var t := Entered(s, capacity, key, charge);
    var s' := Evicted(t, capacity);
    EntryStays(s, capacity, key, charge, a);
    EvictKeeps(t, capacity);
    GoneIsAhead(t.lru, |t.lru| - |s'.lru|, a, b);
    EnteredOrder(s, capacity, key, charge, a, b);
  }

  lemma {:induction false} EntryStays(s: State, capacity: nat, key: Bytes, charge: nat, a: nat)
    requires Inv(s) && a in s.lru && a in s.handles && s.handles[a].key != key
    ensures a in Entered(s, capacity, key, charge).lru
  {
    AddKeeps(s, key, charge);
    CachedKeeps(s, key, charge);
    if capacity > 0 && key in s.contents { assert s.contents[key] != a; }
  }

  /** Eviction stops as soon as it may: with the last entry that went, the capacity would still be exceeded. */
  lemma {:induction false} EvictsNoMore(s: State, capacity: int) returns (k: nat)
    requires Inv(s) && Evicted(s, capacity).lru != s.lru
    ensures var s' := Evicted(s, capacity);
            && k < |s.lru| && s'.lru == s.lru[k + 1..] && s.lru[k] in s.handles
            && s'.usage + s.handles[s.lru[k]].charge > capacity
    decreases |s.lru|
  {
    OldestGoes(s);
    var next := Removed(s, s.handles[s.lru[0]].key);
    if Evicted(next, capacity).lru == next.lru {
      k := 0;
      EvictsSomeOrNone(next, capacity);
    } else {
      var j := EvictsNoMore(next, capacity);
      k := j + 1;
      assert next.lru[j] == s.lru[k];
    }
  }

  lemma {:induction false} EvictsSomeOrNone(s: State, capacity: int)
    requires Inv(s)
    ensures Evicted(s, capacity) == s || |Evicted(s, capacity).lru| < |s.lru|
  {
    if s.usage > capacity && s.lru != [] {
      OldestGoes(s);
      EvictKeeps(Removed(s, s.handles[s.lru[0]].key), capacity);
    }
  }

  /** An idle entry leaves for an insertion only if there is need: of those that do, `z` is the last, and with it the capacity would be
      exceeded. */
  lemma {:induction false} EvictedOnlyIfNeeded(capacity: nat, ops: seq<Op>, states: seq<State>, n: nat, key: Bytes, charge: nat, a: nat)
      returns (z: nat)
    requires IsRun(capacity, ops, states) && n < |ops| && ops[n] == OpInsert(key, charge)
    requires a in states[n].lru && a !in states[n + 1].lru && a in states[n].handles && states[n].handles[a].key != key
    ensures z in states[n].lru && z !in states[n + 1].lru && (z == a || Ahead(states[n].lru, a, z))
    ensures z in states[n].handles && states[n + 1].usage + states[n].handles[z].charge > capacity
  {
    var s := states[n];
    RunKeepsInv(capacity, ops, states, n);
    assert StepsTo(s, capacity, ops[n], states[n + 1]);
    StepIsApply(s, capacity, ops[n], states[n + 1]);
    z := LastOut(s, capacity, key, charge, a);
  }

  lemma {:induction false} LastOut(s: State, capacity: nat, key: Bytes, charge: nat, a: nat) returns (z: nat)
    requires Inv(s) && a in s.lru && a in s.handles && s.handles[a].key != key
    requires a !in Evicted(Entered(s, capacity, key, charge), capacity).lru
    ensures var s' := Evicted(Entered(s, capacity, key, charge), capacity);
            && z in s.lru && z !in s'.lru && (z == a || Ahead(s.lru, a, z))
            && z in s.handles && s'.usage + s.handles[z].charge > capacity
  {
    var t := Entered(s, capacity, key, charge);
    var s' := Evicted(t, capacity);
    EntryStays(s, capacity, key, charge, a);
    var k := EvictsNoMore(t, capacity);
    z := t.lru[k];
    EntryCame(s, capacity, key, charge, z);
    GoneWith(t.lru, k, a);
    if a != z { EnteredOrder(s, capacity, key, charge, a, z); }
  }

  lemma {:induction false} EntryCame(s: State, capacity: nat, key: Bytes, charge: nat, z: nat)
    requires Inv(s) && z in Entered(s, capacity, key, charge).lru
    ensures z in s.lru && z in s.handles && z in Entered(s, capacity, key, charge).handles
    ensures Entered(s, capacity, key, charge).handles[z].charge == s.handles[z].charge
  {
    AddKeeps(s, key, charge);
    CachedKeeps(s, key, charge);
  }

  lemma {:induction false} GoneWith(q: seq<nat>, k: nat, a: nat)
    requires Distinct(q) && k < |q| && a in q && a !in q[k + 1..]
    ensures q[k] !in q[k + 1..] && (a == q[k] || Ahead(q, a, q[k]))
  {
    assert q == q[..k + 1] + q[k + 1..];
    var i :| 0 <= i < k + 1 && q[i] == a;
  }
}
