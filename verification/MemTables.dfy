/** The memtable as the sorted list its skip list keeps at level 0 (db/memtable.cc: Add, Get), and the layered read of
    the running store (db/db_impl.cc: DBImpl::Get). */
module MemTables {
  import opened InternalKeys
  import opened History
  import opened Versions

  /** Insert an entry at the position a seek for its key finds. */
  function Insert(es: seq<Entry>, e: Entry): seq<Entry> {
    var i := SeekIndex(es, e.key);
    es[..i] + [e] + es[i..]
  }

  function InsertAll(es: seq<Entry>, batch: seq<Entry>): seq<Entry> {
    if batch == [] then es else Insert(InsertAll(es, batch[..|batch| - 1]), batch[|batch| - 1])
  }

  lemma InsertKeepsOrder(es: seq<Entry>, e: Entry)
    requires Sorted(es) && forall x :: x in es ==> x.key.user != e.key.user || x.key.sequence != e.key.sequence
    ensures Sorted(Insert(es, e))
    ensures Elements(Insert(es, e)) == Elements(es) + {e}
  {
    var i := SeekIndex(es, e.key);
    forall k | i <= k < |es| ensures Before(e.key, es[k].key) {
      assert es[k] in es && es[i] in es;
      assert i < k ==> Before(es[i].key, es[k].key);
    }
    InsertAtSorted(es, e, i);
    InsertElements(es, e, i);
  }

  lemma InsertAtSorted(es: seq<Entry>, e: Entry, i: nat)
    requires Sorted(es) && i <= |es|
    requires forall k :: 0 <= k < i ==> Before(es[k].key, e.key)
    requires forall k :: i <= k < |es| ==> Before(e.key, es[k].key)
    ensures Sorted(es[..i] + [e] + es[i..])
  {
    var out := es[..i] + [e] + es[i..];
    assert forall k :: 0 <= k < |out| ==> out[k] == if k < i then es[k] else if k == i then e else es[k - 1];
  }

  lemma InsertElements(es: seq<Entry>, e: Entry, i: nat)
    requires i <= |es|
    ensures Elements(es[..i] + [e] + es[i..]) == Elements(es) + {e}
  {
    assert es == es[..i] + es[i..];
  }

  /** Applying a whole batch of newer entries keeps the memtable sorted and adds exactly the batch. */
  lemma {:induction false} InsertAllKeepsOrder(es: seq<Entry>, batch: seq<Entry>)
    requires Sorted(es)
    requires forall x, y :: x in es && y in batch ==> x.key.sequence != y.key.sequence
    requires forall i, j :: 0 <= i < j < |batch| ==> batch[i].key.sequence != batch[j].key.sequence
    ensures Sorted(InsertAll(es, batch))
    ensures Elements(InsertAll(es, batch)) == Elements(es) + Elements(batch)
  {
    if batch != [] {
      var n := |batch| - 1;
      InsertAllKeepsOrder(es, batch[..n]);
      var mid := InsertAll(es, batch[..n]);
      forall x | x in mid ensures x.key.sequence != batch[n].key.sequence {
        assert x in Elements(mid);
      }
      InsertKeepsOrder(mid, batch[n]);
      assert batch == batch[..n] + [batch[n]];
    }
  }

  /** Look in the memtable, then the immutable memtable, then the version; the first hit decides (DBImpl::Get). */
  method Get(mem: seq<Entry>, imm: Option<seq<Entry>>, v: Version, u: UserKey, s: nat) returns (answer: Answer)
    requires Sorted(mem) && (imm.Some? ==> Sorted(imm.value)) && VersionOk(v)
    requires imm.Some? ==> NewerThan(Elements(mem), Elements(imm.value)) && NewerThan(Elements(imm.value), Contents(v))
    requires NewerThan(Elements(mem), Contents(v))
    requires Distinct(Elements(mem) + (if imm.Some? then Elements(imm.value) else {}) + Contents(v))
    ensures answer == ReadAt(Elements(mem) + (if imm.Some? then Elements(imm.value) else {}) + Contents(v), u, s)
  {
    var r := GetRecent(mem, imm, u, s);
    ghost var recent := Elements(mem) + if imm.Some? then Elements(imm.value) else {};
    var older: Option<Entry> := None;
    if r == None {
      older := VersionGet(v, u, s);
    }
    LayeredReads(recent, Contents(v), u, s, r, older);
    r := if r.Some? then r else older;
    ReadsDetermine(recent + Contents(v), u, s, r);
    answer := AnswerOf(r);
  }

  /** The two memtables. */
  method GetRecent(mem: seq<Entry>, imm: Option<seq<Entry>>, u: UserKey, s: nat) returns (r: Option<Entry>)
    requires Sorted(mem) && (imm.Some? ==> Sorted(imm.value) && NewerThan(Elements(mem), Elements(imm.value)))
    ensures Reads(Elements(mem) + (if imm.Some? then Elements(imm.value) else {}), u, s, r)
  {
    r := Seek(mem, u, s);
    SeekReads(mem, u, s);
    var frozen: Option<Entry> := None;
    if r == None && imm.Some? {
      frozen := Seek(imm.value, u, s);
      SeekReads(imm.value, u, s);
    }
    LayeredReads(Elements(mem), if imm.Some? then Elements(imm.value) else {}, u, s, r, frozen);
    r := if r.Some? then r else frozen;
  }
}
