/** The chained hash table of the LRU cache (util/cache.cc: HandleTable) implements a map from keys to handles, through every
    insertion, removal and resize. */
module HandleTables {
  import opened InternalKeys

  /** A handle in a bucket chain. */
  datatype Slot = Slot(key: Bytes, hash: nat, id: nat)

  type HashOf = Bytes -> nat

  /** A chain has at most one slot for each key. */
  predicate KeysDiffer(chain: seq<Slot>) {
    forall i, j :: 0 <= i < j < |chain| ==> chain[i].key != chain[j].key
  }

  /** Every slot of bucket `b` belongs there and is in the map. */
  ghost predicate ChainOk(hash: HashOf, contents: map<Bytes, nat>, chain: seq<Slot>, n: nat, b: nat)
    requires n > 0
  {
    && KeysDiffer(chain)
    && forall x :: x in chain ==> x.hash == hash(x.key) && x.hash % n == b && x.key in contents && contents[x.key] == x.id
  }

  /** The chain leads to `key`. */
  predicate Leads(chain: seq<Slot>, key: Bytes) {
    exists i :: 0 <= i < |chain| && chain[i].key == key
  }

  ghost predicate BucketsOk(hash: HashOf, contents: map<Bytes, nat>, buckets: seq<seq<Slot>>) {
    && |buckets| > 0
    && (forall b :: 0 <= b < |buckets| ==> ChainOk(hash, contents, buckets[b], |buckets|, b))
    && (forall key :: key in contents ==> Leads(buckets[hash(key) % |buckets|], key))
  }

  class HandleTable {
    const hash: HashOf
    var buckets: seq<seq<Slot>>
    var elems: nat
    ghost var contents: map<Bytes, nat>

    ghost predicate Valid()
      reads this
    {
      match elems == |contents|
      case true => BucketsOk(hash, contents, buckets)
      case false => false
    }

    constructor (hash: HashOf)
      ensures Valid() && contents == map[] && this.hash == hash
    {
      this.hash := hash;
      buckets, elems, contents := [[], [], [], []], 0, map[];
    }

    /** Walk the chain to the slot of `key`, or to its end (FindPointer). */
    method FindPointer(key: Bytes) returns (b: nat, i: nat)
      requires Valid()
      ensures b == hash(key) % |buckets| && b < |buckets| && i <= |buckets[b]|
      ensures if i < |buckets[b]| then buckets[b][i].key == key && key in contents && contents[key] == buckets[b][i].id
              else key !in contents
    {
      b, i := hash(key) % |buckets|, 0;
      assert ChainOk(hash, contents, buckets[b], |buckets|, b);
      while i < |buckets[b]| && (buckets[b][i].hash != hash(key) || buckets[b][i].key != key)
        invariant 0 <= i <= |buckets[b]| && forall k :: 0 <= k < i ==> buckets[b][k].key != key
      {
        assert buckets[b][i] in buckets[b];
        i := i + 1;
      }
      if i < |buckets[b]| {
        assert buckets[b][i] in buckets[b];
      } else {
        assert !Leads(buckets[b], key);
      }
    }

    method Lookup(key: Bytes) returns (r: Option<nat>)
      requires Valid()
      ensures r == if key in contents then Some(contents[key]) else None
    {
      var b, i := FindPointer(key);
      r := if i < |buckets[b]| then Some(buckets[b][i].id) else None;
    }

    /** Put a handle in place of an older one of the same key, which is returned, or at the end of its chain. */
    method Insert(key: Bytes, id: nat) returns (older: Option<nat>)
      requires Valid()
      modifies this
      ensures Valid() && contents == old(contents)[key := id]
      ensures older == if key in old(contents) then Some(old(contents)[key]) else None
    {
      var b, i := FindPointer(key);
      var chain := buckets[b];
      var slot := Slot(key, hash(key), id);
      older := if i < |chain| then Some(chain[i].id) else None;
      ghost var before := contents;
      contents := contents[key := id];
      if older.None? {
        ChainGrows(hash, before, buckets, b, slot);
        buckets := buckets[b := chain + [slot]];
        assert contents.Keys == before.Keys + {key};
        elems := elems + 1;
        if elems > |buckets| {
          Resize();
        }
      } else {
        ChainReplaces(hash, before, buckets, b, i, slot);
        buckets := buckets[b := chain[i := slot]];
        assert contents.Keys == before.Keys;
      }
    }

    method Remove(key: Bytes) returns (r: Option<nat>)
      requires Valid()
      modifies this
      ensures Valid() && contents == old(contents) - {key}
      ensures r == if key in old(contents) then Some(old(contents)[key]) else None
    {
      var b, i := FindPointer(key);
      var chain := buckets[b];
      if i == |chain| {
        assert contents - {key} == contents;
        return None;
      }
      r := Some(chain[i].id);
      ChainShrinks(hash, contents, buckets, b, i);
      buckets := buckets[b := chain[..i] + chain[i + 1..]];
      assert contents.Keys == (contents - {key}).Keys + {key};
      contents := contents - {key};
      elems := elems - 1;
    }

    /** Double the number of buckets until it is enough, and move every slot to the front of its new chain. */
    method Resize()
      requires BucketsOk(hash, contents, buckets) && elems == |contents|
      modifies this`buckets
      ensures Valid()
    {
      var n := 4;
      while n < elems
        invariant n > 0
        decreases elems - n
      {
        n := n * 2;
      }
      buckets := Rehash(hash, buckets, n, contents);
    }
  }

  method Rehash(hash: HashOf, buckets: seq<seq<Slot>>, n: nat, ghost contents: map<Bytes, nat>) returns (moved: seq<seq<Slot>>)
    requires BucketsOk(hash, contents, buckets) && n > 0
    ensures BucketsOk(hash, contents, moved)
  {
    moved := seq(n, _ => []);
    for b := 0 to |buckets|
      invariant |moved| == n && MovedOk(hash, contents, buckets, moved, b, 0)
    {
      for i := 0 to |buckets[b]|
        invariant |moved| == n && MovedOk(hash, contents, buckets, moved, b, i)
      {
        var slot := buckets[b][i];
        MovesOne(hash, contents, buckets, moved, b, i);
        moved := moved[slot.hash % n := [slot] + moved[slot.hash % n]];
      }
      NextBucket(hash, contents, buckets, moved, b);
    }
    AllMoved(hash, contents, buckets, moved);
  }

  // ---------------------------------------------------------------- changing one chain

  lemma ChainGrows(hash: HashOf, contents: map<Bytes, nat>, buckets: seq<seq<Slot>>, b: nat, slot: Slot)
    requires BucketsOk(hash, contents, buckets) && slot.hash == hash(slot.key) && b == slot.hash % |buckets| && slot.key !in contents
    ensures BucketsOk(hash, contents[slot.key := slot.id], buckets[b := buckets[b] + [slot]])
  {
    var contents', buckets' := contents[slot.key := slot.id], buckets[b := buckets[b] + [slot]];
    forall k | 0 <= k < |buckets'| ensures ChainOk(hash, contents', buckets'[k], |buckets'|, k) {
      assert ChainOk(hash, contents, buckets[k], |buckets|, k);
      assert forall i :: 0 <= i < |buckets[k]| ==> buckets[k][i] in buckets[k];
    }
    forall key | key in contents' ensures Leads(buckets'[hash(key) % |buckets'|], key) {
      if key == slot.key {
        assert buckets'[b][|buckets[b]|].key == key;
      } else {
        LeadsStays(buckets[hash(key) % |buckets|], [slot], key);
      }
    }
  }

  lemma LeadsStays(chain: seq<Slot>, more: seq<Slot>, key: Bytes)
    requires Leads(chain, key)
    ensures Leads(chain + more, key) && Leads(more + chain, key)
  {
    var i :| 0 <= i < |chain| && chain[i].key == key;
    assert (chain + more)[i].key == key && (more + chain)[|more| + i].key == key;
  }

  lemma ChainReplaces(hash: HashOf, contents: map<Bytes, nat>, buckets: seq<seq<Slot>>, b: nat, i: nat, slot: Slot)
    requires BucketsOk(hash, contents, buckets) && slot.hash == hash(slot.key) && b == slot.hash % |buckets|
    requires i < |buckets[b]| && buckets[b][i].key == slot.key
    ensures BucketsOk(hash, contents[slot.key := slot.id], buckets[b := buckets[b][i := slot]])
  {
    var contents', buckets' := contents[slot.key := slot.id], buckets[b := buckets[b][i := slot]];
    forall k | 0 <= k < |buckets'| ensures ChainOk(hash, contents', buckets'[k], |buckets'|, k) {
      assert ChainOk(hash, contents, buckets[k], |buckets|, k);
      assert forall j :: 0 <= j < |buckets[k]| ==> buckets[k][j] in buckets[k];
    }
    forall key | key in contents' ensures Leads(buckets'[hash(key) % |buckets'|], key) {
      assert buckets[b][i] in buckets[b];
      var chain := buckets[hash(key) % |buckets|];
      assert Leads(chain, key);
      var j :| 0 <= j < |chain| && chain[j].key == key;
      assert buckets'[hash(key) % |buckets'|][j].key == key;
    }
  }

  lemma ChainShrinks(hash: HashOf, contents: map<Bytes, nat>, buckets: seq<seq<Slot>>, b: nat, i: nat)
    requires BucketsOk(hash, contents, buckets) && b < |buckets| && i < |buckets[b]|
    ensures BucketsOk(hash, contents - {buckets[b][i].key}, buckets[b := buckets[b][..i] + buckets[b][i + 1..]])
  {
    var gone := buckets[b][i].key;
    var contents', buckets' := contents - {gone}, buckets[b := buckets[b][..i] + buckets[b][i + 1..]];
    assert ChainOk(hash, contents, buckets[b], |buckets|, b) && buckets[b][i] in buckets[b];
    forall k | 0 <= k < |buckets'| ensures ChainOk(hash, contents', buckets'[k], |buckets'|, k) {
      assert ChainOk(hash, contents, buckets[k], |buckets|, k);
      if k == b { CutChain(buckets[b], i); }
    }
    forall key | key in contents' ensures Leads(buckets'[hash(key) % |buckets'|], key) {
      assert Leads(buckets[hash(key) % |buckets|], key);
      if hash(key) % |buckets| == b { CutLeads(buckets[b], i, key); }
    }
  }

  lemma CutChain(chain: seq<Slot>, i: nat)
    requires KeysDiffer(chain) && i < |chain|
    ensures KeysDiffer(chain[..i] + chain[i + 1..])
    ensures forall x :: x in chain[..i] + chain[i + 1..] ==> x in chain && x.key != chain[i].key
  {
    var cut := chain[..i] + chain[i + 1..];
    assert forall j :: 0 <= j < |cut| ==> cut[j] == chain[if j < i then j else j + 1];
  }

  lemma CutLeads(chain: seq<Slot>, i: nat, key: Bytes)
    requires Leads(chain, key) && i < |chain| && key != chain[i].key
    ensures Leads(chain[..i] + chain[i + 1..], key)
  {
    var j :| 0 <= j < |chain| && chain[j].key == key;
    assert (chain[..i] + chain[i + 1..])[if j < i then j else j - 1].key == key;
  }

  // ---------------------------------------------------------------- resizing

  /** A slot with this key is in an earlier bucket, or before position `i` of bucket `b`. */
  predicate Visited(buckets: seq<seq<Slot>>, b: nat, i: nat, key: Bytes) {
    exists c, j :: 0 <= c < |buckets| && 0 <= j < |buckets[c]| && (c < b || (c == b && j < i)) && buckets[c][j].key == key
  }

  /** Exactly the visited slots have been moved to their new chains. */
  ghost predicate MovedOk(hash: HashOf, contents: map<Bytes, nat>, buckets: seq<seq<Slot>>, moved: seq<seq<Slot>>, b: nat, i: nat) {
    && |moved| > 0
    && (forall k :: 0 <= k < |moved| ==> ChainOk(hash, contents, moved[k], |moved|, k))
    && (forall k, x :: 0 <= k < |moved| && x in moved[k] ==> Visited(buckets, b, i, x.key))
    && (forall key :: Visited(buckets, b, i, key) ==> Leads(moved[hash(key) % |moved|], key))
  }

  lemma VisitNext(buckets: seq<seq<Slot>>, b: nat, i: nat, key: Bytes)
    requires b < |buckets| && i < |buckets[b]|
    ensures Visited(buckets, b, i + 1, key) <==> Visited(buckets, b, i, key) || key == buckets[b][i].key
  {
    if key == buckets[b][i].key { assert buckets[b][i].key == key; }
    if Visited(buckets, b, i, key) {
      var c, j :| 0 <= c < |buckets| && 0 <= j < |buckets[c]| && (c < b || (c == b && j < i)) && buckets[c][j].key == key;
    }
  }

  /** Keys are not repeated across the table, so the next slot's key is new. */
  lemma NotVisited(hash: HashOf, contents: map<Bytes, nat>, buckets: seq<seq<Slot>>, b: nat, i: nat)
    requires BucketsOk(hash, contents, buckets) && b < |buckets| && i < |buckets[b]|
    ensures !Visited(buckets, b, i, buckets[b][i].key)
  {
    var key := buckets[b][i].key;
    assert ChainOk(hash, contents, buckets[b], |buckets|, b) && buckets[b][i] in buckets[b];
    forall c, j | 0 <= c < |buckets| && 0 <= j < |buckets[c]| && (c < b || (c == b && j < i)) ensures buckets[c][j].key != key {
      assert ChainOk(hash, contents, buckets[c], |buckets|, c) && buckets[c][j] in buckets[c];
    }
  }

  lemma PushedChain(hash: HashOf, contents: map<Bytes, nat>, chain: seq<Slot>, slot: Slot, n: nat, b: nat)
    requires n > 0 && ChainOk(hash, contents, chain, n, b) && (forall x :: x in chain ==> x.key != slot.key)
    requires slot.hash == hash(slot.key) && slot.hash % n == b && slot.key in contents && contents[slot.key] == slot.id
    ensures ChainOk(hash, contents, [slot] + chain, n, b)
  {
    assert forall j :: 0 <= j < |chain| ==> chain[j] in chain;
  }

  lemma MovesOne(hash: HashOf, contents: map<Bytes, nat>, buckets: seq<seq<Slot>>, moved: seq<seq<Slot>>, b: nat, i: nat)
    requires BucketsOk(hash, contents, buckets) && b < |buckets| && i < |buckets[b]| && MovedOk(hash, contents, buckets, moved, b, i)
    ensures var slot := buckets[b][i];
            var n := slot.hash % |moved|;
            MovedOk(hash, contents, buckets, moved[n := [slot] + moved[n]], b, i + 1)
  {
    var slot := buckets[b][i];
    var n := slot.hash % |moved|;
    var moved' := moved[n := [slot] + moved[n]];
    NotVisited(hash, contents, buckets, b, i);
    assert ChainOk(hash, contents, buckets[b], |buckets|, b) && slot in buckets[b];
    forall key ensures Visited(buckets, b, i + 1, key) <==> Visited(buckets, b, i, key) || key == slot.key { VisitNext(buckets, b, i, key); }
    forall k | 0 <= k < |moved'| ensures ChainOk(hash, contents, moved'[k], |moved'|, k) {
      assert ChainOk(hash, contents, moved[k], |moved|, k);
      if k == n { PushedChain(hash, contents, moved[n], slot, |moved|, n); }
    }
    forall key | Visited(buckets, b, i + 1, key) ensures Leads(moved'[hash(key) % |moved'|], key) {
      if key == slot.key { assert moved'[n][0].key == key; } else { LeadsStays(moved[hash(key) % |moved|], [slot], key); }
    }
  }

  lemma NextBucket(hash: HashOf, contents: map<Bytes, nat>, buckets: seq<seq<Slot>>, moved: seq<seq<Slot>>, b: nat)
    requires b < |buckets| && MovedOk(hash, contents, buckets, moved, b, |buckets[b]|)
    ensures MovedOk(hash, contents, buckets, moved, b + 1, 0)
  {
    forall key ensures Visited(buckets, b + 1, 0, key) <==> Visited(buckets, b, |buckets[b]|, key) {
      if Visited(buckets, b + 1, 0, key) {
        var c, j :| 0 <= c < |buckets| && 0 <= j < |buckets[c]| && (c < b + 1 || (c == b + 1 && j < 0)) && buckets[c][j].key == key;
      }
      if Visited(buckets, b, |buckets[b]|, key) {
        var c, j :| 0 <= c < |buckets| && 0 <= j < |buckets[c]| && (c < b || (c == b && j < |buckets[b]|)) && buckets[c][j].key == key;
      }
    }
  }

  lemma AllMoved(hash: HashOf, contents: map<Bytes, nat>, buckets: seq<seq<Slot>>, moved: seq<seq<Slot>>)
    requires BucketsOk(hash, contents, buckets) && MovedOk(hash, contents, buckets, moved, |buckets|, 0)
    ensures BucketsOk(hash, contents, moved)
  {
    forall key | key in contents ensures Leads(moved[hash(key) % |moved|], key) {
      var c := hash(key) % |buckets|;
      assert Leads(buckets[c], key);
      var j :| 0 <= j < |buckets[c]| && buckets[c][j].key == key;
      assert Visited(buckets, |buckets|, 0, key);
    }
  }
}
