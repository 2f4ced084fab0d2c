/** What is on disk: the manifest, the write-ahead logs and the tables, and what recovery would read from them. */
module Disk {
  import opened InternalKeys
  import opened History
  import opened Versions
  import opened VersionEdits

  // ---------------------------------------------------------------- write batches

  datatype Op = Put(user: UserKey, value: Bytes) | Delete(user: UserKey)

  /** A group of operations logged as one record; the operations take consecutive sequence numbers from `first`. */
  datatype Batch = Batch(first: nat, ops: seq<Op>)

  function OpEntry(op: Op, sequence: nat): Entry {
    match op
    case Put(u, v) => Entry(InternalKey(u, sequence, Value), v)
    case Delete(u) => Entry(InternalKey(u, sequence, Deletion), [])
  }

  function BatchEntries(b: Batch): (es: seq<Entry>)
    ensures |es| == |b.ops|
    ensures forall i :: 0 <= i < |es| ==> es[i] == OpEntry(b.ops[i], b.first + i)
  {
    seq(|b.ops|, i requires 0 <= i < |b.ops| => OpEntry(b.ops[i], b.first + i))
  }

  function LogContents(bs: seq<Batch>): set<Entry> {
    set b, e | b in bs && e in BatchEntries(b) :: e
  }

  ghost predicate SeqBefore(a: set<Entry>, b: set<Entry>) {
    forall x, y :: x in a && y in b ==> x.key.sequence < y.key.sequence
  }

  ghost predicate SeqAtMost(a: set<Entry>, n: nat) {
    forall x :: x in a ==> x.key.sequence <= n
  }

  /** Records of a log carry increasing sequence numbers. */
  ghost predicate Ascending(bs: seq<Batch>) {
    forall i, j :: 0 <= i < j < |bs| ==> SeqBefore(Elements(BatchEntries(bs[i])), Elements(BatchEntries(bs[j])))
  }

  /** No record runs past the largest sequence number. */
  predicate RecordsInRange(bs: seq<Batch>) {
    forall b :: b in bs ==> b.first + |b.ops| <= MAX_SEQUENCE
  }

  lemma LogAppend(bs: seq<Batch>, b: Batch)
    ensures LogContents(bs + [b]) == LogContents(bs) + Elements(BatchEntries(b))
  {
    assert forall x :: x in bs + [b] <==> x in bs || x == b;
  }

  lemma BatchRange(b: Batch)
    ensures forall e :: e in BatchEntries(b) ==> b.first <= e.key.sequence < b.first + |b.ops|
    ensures Distinct(Elements(BatchEntries(b)))
  {
    var es := BatchEntries(b);
    forall x, y | x in es && y in es && x.key.sequence == y.key.sequence ensures x == y {
      var i :| 0 <= i < |es| && es[i] == x;
      var j :| 0 <= j < |es| && es[j] == y;
    }
  }

  // ---------------------------------------------------------------- disk

  datatype Disk = Disk(manifest: seq<VersionEdit>, logs: map<nat, seq<Batch>>, tables: map<nat, seq<Entry>>)

  /** The last values a replay of the manifest sees. */
  function LastLogNumber(edits: seq<VersionEdit>): Option<nat> {
    if edits == [] then None
    else if edits[|edits| - 1].logNumber.Some? then edits[|edits| - 1].logNumber else LastLogNumber(edits[..|edits| - 1])
  }

  function LastNextFile(edits: seq<VersionEdit>): Option<nat> {
    if edits == [] then None
    else if edits[|edits| - 1].nextFile.Some? then edits[|edits| - 1].nextFile else LastNextFile(edits[..|edits| - 1])
  }

  function LastSequence(edits: seq<VersionEdit>): Option<nat> {
    if edits == [] then None
    else if edits[|edits| - 1].lastSequence.Some? then edits[|edits| - 1].lastSequence else LastSequence(edits[..|edits| - 1])
  }

  predicate ManifestComplete(edits: seq<VersionEdit>) {
    LastLogNumber(edits).Some? && LastNextFile(edits).Some? && LastSequence(edits).Some?
  }

  function MinLog(manifest: seq<VersionEdit>): nat {
    if LastLogNumber(manifest).Some? then LastLogNumber(manifest).value else 0
  }

  function NextFileOf(manifest: seq<VersionEdit>): nat {
    if LastNextFile(manifest).Some? then LastNextFile(manifest).value else 0
  }

  function SequenceOf(manifest: seq<VersionEdit>): nat {
    if LastSequence(manifest).Some? then LastSequence(manifest).value else 0
  }

  /** Entries of all logs that recovery would read. */
  ghost function LiveLogs(logs: map<nat, seq<Batch>>, minLog: nat): set<Entry> {
    set n, e | n in logs && minLog <= n && e in LogContents(logs[n]) :: e
  }

  /** A table is on disk with the expected contents. */
  predicate TablePresent(tables: map<nat, seq<Entry>>, f: FileMeta) {
    f.number in tables && tables[f.number] == f.entries
  }

  ghost predicate TablesPresent(tables: map<nat, seq<Entry>>, v: Version) {
    forall l, f :: 0 <= l < NUM_LEVELS && f in v[l] ==> TablePresent(tables, f)
  }

  ghost predicate NumbersBelow(v: Version, n: nat) {
    forall l, f :: 0 <= l < NUM_LEVELS && f in v[l] ==> f.number < n
  }

  // ---------------------------------------------------------------- the manifest

  /** The manifest replays to `v`; every live file was added once at its level and files only ever moved down. */
  ghost predicate Replays(edits: seq<VersionEdit>, v: Version) {
    && EditsInRange(edits) && AddedOnce(edits)
    && SetsOf(v) == Replay(SetsOf(NO_FILES), edits)
    && (forall l, f :: 0 <= l < NUM_LEVELS && f in v[l] ==> (l, f.number) in AddedPairs(edits))
    && MovedDown(edits, v)
  }

  ghost predicate PairsBelow(pairs: set<(nat, nat)>, n: nat) {
    forall p :: p in pairs ==> p.1 < n
  }

  ghost predicate ManifestOk(edits: seq<VersionEdit>, v: Version) {
    Replays(edits, v) && ManifestComplete(edits) && PairsBelow(AddedPairs(edits), LastNextFile(edits).value)
  }

  ghost predicate MovedDown(edits: seq<VersionEdit>, v: Version) {
    forall l, f, p :: 0 <= l < NUM_LEVELS && f in v[l] && p in AddedPairs(edits) && p.1 == f.number ==> p.0 <= l
  }

  /** An edit as LogAndApply completes it. */
  predicate EditComplete(edit: VersionEdit) {
    edit.logNumber.Some? && edit.nextFile.Some? && edit.lastSequence.Some?
  }

  /** Appending an edit that adds only new (level, number) pairs keeps the manifest in order. */
  lemma ManifestAppends(edits: seq<VersionEdit>, v: Version, edit: VersionEdit, v': Version)
    requires Replays(edits, v) && LevelsInRange(edit) && DistinctAdds(edit) && EditComplete(edit)
    requires Pairs(edit) !! AddedPairs(edits)
    requires SetsOf(v') == Next(SetsOf(v), edit)
    requires PairsBelow(AddedPairs(edits) + Pairs(edit), edit.nextFile.value)
    requires MovedDown(edits + [edit], v')
    ensures ManifestOk(edits + [edit], v')
  {
    var all := edits + [edit];
    assert all[..|edits|] == edits && all[|edits|] == edit;
    assert AddedPairs(all) == AddedPairs(edits) + Pairs(edit);
    assert Replay(SetsOf(NO_FILES), all) == Next(Replay(SetsOf(NO_FILES), edits), edit);
    forall l, f | 0 <= l < NUM_LEVELS && f in v'[l] ensures (l, f.number) in AddedPairs(all) {
      assert f in SetsOf(v')[l];
      if f !in SetsOf(v)[l] {
        var a :| a in edit.added && a.0 == l && a.1 == f;
        assert (a.0, a.1.number) in Pairs(edit);
      }
    }
  }
}
