/** Reads that go down to the tables: each file that the search of a version opens is a table with index, blocks and filter (db/table_cache.cc,
    db/version_set.cc: Version::Get, db/db_impl.cc: DBImpl::Get). */
module TableReads {
  import opened InternalKeys
  import opened History
  import opened Bytewise
  import opened Versions
  import opened LogFormat
  import opened FilterBlocks
  import opened Compaction
  import opened Tables
  import opened MemTables
  import opened Store
  import opened Guarantees

  // ---------------------------------------------------------------- files and their tables

  function AsEntries(es: seq<ByteEntry>): (r: seq<Entry>)
    ensures |r| == |es| && forall i :: 0 <= i < |r| ==> r[i] == EntryOf(es[i])
  {
    seq(|es|, i requires 0 <= i < |es| => EntryOf(es[i]))
  }

  lemma SameElements(es: seq<ByteEntry>)
    ensures Elements(AsEntries(es)) == AllEntries(es)
  {
    forall e | e in AllEntries(es) ensures e in Elements(AsEntries(es)) {
      var b :| b in es && EntryOf(b) == e;
      var i :| 0 <= i < |es| && es[i] == b;
      assert AsEntries(es)[i] == e;
    }
  }

  /** A table with the entries of a file. */
  ghost predicate Holds(t: Table, f: FileMeta) { TableOk(t) && AsEntries(Flat(t.blocks)) == f.entries }

  ghost predicate AllHeld(tables: map<nat, Table>, fs: seq<FileMeta>) {
    forall f :: f in fs ==> f.number in tables && Holds(tables[f.number], f)
  }

  ghost predicate Backed(tables: map<nat, Table>, v: Version) {
    forall l :: 0 <= l < NUM_LEVELS ==> AllHeld(tables, v[l])
  }

  /** Build the table of a file. */
  method BuildFile(number: nat, entries: seq<ByteEntry>, size: seq<ByteEntry> -> nat, full: seq<ByteEntry> -> bool, policy: Option<Policy>)
    returns (f: FileMeta, t: Table, ghost groups: seq<seq<Bytes>>)
    requires entries != [] && SortedBlock(entries) && (forall e :: e in entries ==> e.key.sequence <= MAX_SEQUENCE)
    requires policy.Some? ==> Sound(policy.value)
    ensures FileOk(f) && f.number == number && f.entries == AsEntries(entries)
    ensures policy.None? || |Data(policy.value, groups)| < TWO32 ==> Holds(t, f)
  {
    t, groups := BuildTable(entries, size, full, policy);
    f := OutputFile(number, size(entries), AsEntries(entries));
  }

  // ---------------------------------------------------------------- one file

  lemma ReadsUnique(h: set<Entry>, u: UserKey, s: nat, a: Option<Entry>, b: Option<Entry>)
    requires Distinct(h) && Reads(h, u, s, a) && Reads(h, u, s, b)
    ensures a == b
  {
  }

  /** Opening the table gives what a seek over the file's entries gives. */
  method FileGet(tables: map<nat, Table>, f: FileMeta, u: Bytes, s: nat) returns (r: Option<Entry>)
    requires f.number in tables && Holds(tables[f.number], f) && FileOk(f) && Distinct(Elements(f.entries))
    ensures r == Seek(f.entries, Rank(u), s)
  {
    var t := tables[f.number];
    var e := InternalGet(t, u, s);
    r := if e.Some? && e.value.key.user == u then Some(EntryOf(e.value)) else None;
    SameElements(Flat(t.blocks));
    SeekReads(f.entries, Rank(u), s);
    ReadsUnique(Elements(f.entries), Rank(u), s, r, Seek(f.entries, Rank(u), s));
  }

  // ---------------------------------------------------------------- the version

  lemma FileIsDistinct(v: Version, l: nat, f: FileMeta)
    requires VersionOk(v) && l < NUM_LEVELS && f in v[l]
    ensures FileOk(f) && Distinct(Elements(f.entries))
  {
    assert ShapeOk(l, v[l]);
    forall x | x in Elements(f.entries) ensures x in Versions.Contents(v) {
      assert x in FilesContents(v[l]);
      InContents(v, l, x);
    }
  }

  method SearchSorted(v: Version, l: nat, tables: map<nat, Table>, u: Bytes, s: nat) returns (r: Option<Entry>)
    requires VersionOk(v) && 0 < l < NUM_LEVELS && AllHeld(tables, v[l])
    ensures Reads(FilesContents(v[l]), Rank(u), s, r)
  {
    assert ShapeOk(l, v[l]);
    var index := FindFile(v[l], LookupKey(Rank(u), s));
    OneFileSuffices(v[l], Rank(u), s, index);
    if index >= |v[l]| || Rank(u) < v[l][index].smallest.user {
      r := None;
    } else {
      FileIsDistinct(v, l, v[l][index]);
      r := FileGet(tables, v[l][index], u, s);
    }
  }

  method SearchZero(v: Version, tables: map<nat, Table>, u: Bytes, s: nat) returns (r: Option<Entry>)
    requires VersionOk(v) && AllHeld(tables, v[0])
    ensures Reads(FilesContents(v[0]), Rank(u), s, r)
  {
    assert ShapeOk(0, v[0]);
    var tmp := CandidatesNewestFirst(v[0], Rank(u));
    r := None;
    for i := 0 to |tmp|
      invariant r == None
      invariant forall j :: 0 <= j < i ==> Reads(Elements(tmp[j].entries), Rank(u), s, None)
    {
      assert tmp[i] in v[0];
      FileIsDistinct(v, 0, tmp[i]);
      r := FileGet(tables, tmp[i], u, s);
      SeekReads(tmp[i].entries, Rank(u), s);
      if r.Some? {
        FirstHitIsNewest(v[0], tmp, i, Rank(u), s, r);
        return;
      }
    }
    NoHit(v[0], tmp, Rank(u), s);
  }

  /** Version::Get over tables. */
  method TablesGet(v: Version, tables: map<nat, Table>, u: Bytes, s: nat) returns (r: Option<Entry>)
    requires VersionOk(v) && Backed(tables, v)
    ensures Reads(Versions.Contents(v), Rank(u), s, r)
  {
    r := None;
    for level := 0 to NUM_LEVELS
      invariant Reads(Shallow(v, level), Rank(u), s, r)
    {
      var found: Option<Entry> := None;
      if r == None {
        if level == 0 {
          found := SearchZero(v, tables, u, s);
        } else {
          found := SearchSorted(v, level, tables, u, s);
        }
      }
      LayeredReads(Shallow(v, level), FilesContents(v[level]), Rank(u), s, r, found) by { ShallowIsNewer(v, level); }
      ShallowStep(v, level);
      r := if r.Some? then r else found;
    }
  }

  // ---------------------------------------------------------------- the store

  /** DBImpl::Get down to blocks and filters: the answer is the history's. */
  method ReadThroughTables(st: State, tables: map<nat, Table>, u: Bytes, snapshot: nat) returns (answer: Answer)
    requires Inv(st) && st.memory.Some? && LiveSnapshot(st.memory.value, snapshot) && Backed(tables, st.memory.value.version)
    ensures answer == ReadAt(st.t.history, Rank(u), snapshot)
  {
    var m := st.memory.value;
    LayersForGet(st);
    LiveIsInRange(st, snapshot);
    ReadsMatchHistory(st, Rank(u), snapshot);
    answer := GetThroughTables(m.mem, m.imm, m.version, tables, u, snapshot);
  }

  method GetThroughTables(mem: seq<Entry>, imm: Option<seq<Entry>>, v: Version, tables: map<nat, Table>, u: Bytes, s: nat) returns (answer: Answer)
    requires Sorted(mem) && (imm.Some? ==> Sorted(imm.value)) && VersionOk(v) && Backed(tables, v)
    requires imm.Some? ==> NewerThan(Elements(mem), Elements(imm.value)) && NewerThan(Elements(imm.value), Versions.Contents(v))
    requires NewerThan(Elements(mem), Versions.Contents(v))
    requires Distinct(Elements(mem) + (if imm.Some? then Elements(imm.value) else {}) + Versions.Contents(v))
    ensures answer == ReadAt(Elements(mem) + (if imm.Some? then Elements(imm.value) else {}) + Versions.Contents(v), Rank(u), s)
  {
    var r := GetRecent(mem, imm, Rank(u), s);
    ghost var recent := Elements(mem) + if imm.Some? then Elements(imm.value) else {};
    var older: Option<Entry> := None;
    if r == None {
      older := TablesGet(v, tables, u, s);
    }
    LayeredReads(recent, Versions.Contents(v), Rank(u), s, r, older);
    r := if r.Some? then r else older;
    ReadsDetermine(recent + Versions.Contents(v), Rank(u), s, r);
    answer := AnswerOf(r);
  }
}
