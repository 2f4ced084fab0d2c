/** Iterating over the store (db/db_impl.cc: NewInternalIterator; db/version_set.cc: AddIterators): one sorted run for each memtable, for
    each level-0 file and for each deeper level, merged and read through the user-level iterator. */
module StoreScan {
  import opened InternalKeys
  import opened History
  import opened Versions
  import opened Merging
  import opened UserIterator
  import opened Store
  import Guarantees

  // ---------------------------------------------------------------- runs that share no key

  ghost predicate NoSameKey(a: set<Entry>, b: set<Entry>) {
    forall x, y :: x in a && y in b ==> x.key != y.key
  }

  lemma NewerHasOtherKeys(a: set<Entry>, b: set<Entry>)
    requires NewerThan(a, b) || NewerThan(b, a)
    ensures NoSameKey(a, b)
  {
  }

  lemma AppendRun(runs: seq<seq<Entry>>, r: seq<Entry>)
    requires RunsOk(runs) && Sorted(r) && NoSameKey(Union(runs), Elements(r))
    ensures RunsOk(runs + [r]) && Union(runs + [r]) == Union(runs) + Elements(r)
  {
    var all := runs + [r];
    forall j | 0 <= j < |runs| ensures ApartAt(all, j, |runs|) && ApartAt(all, |runs|, j) {
      assert forall x :: x in runs[j] ==> x in Union(runs);
      assert forall x :: x in r ==> x in Elements(r);
    }
    forall j, k | 0 <= j < |all| && 0 <= k < |all| && j != k ensures ApartAt(all, j, k) {
      assert j < |runs| && k < |runs| ==> ApartAt(runs, j, k);
    }
    forall e | e in Union(all) ensures e in Union(runs) + Elements(r) {
      var j :| 0 <= j < |all| && e in all[j];
      assert j < |runs| ==> e in runs[j];
    }
    forall e | e in Union(runs) + Elements(r) ensures e in Union(all) {
      if e in Union(runs) {
        var j :| 0 <= j < |runs| && e in runs[j];
        assert all[j] == runs[j];
      } else {
        assert e in all[|runs|];
      }
    }
  }

  // ---------------------------------------------------------------- one level as one run

  /** The files of a sorted level, one after the other (NewConcatenatingIterator). */
  method Concatenate(fs: seq<FileMeta>) returns (es: seq<Entry>)
    requires FilesOk(fs) && DisjointSorted(fs)
    ensures Sorted(es) && Elements(es) == FilesContents(fs)
  {
    es := [];
    for i := 0 to |fs|
      invariant Sorted(es) && Elements(es) == FilesContents(fs[..i])
    {
      assert fs[..i + 1] == fs[..i] + [fs[i]];
      NextFileIsLater(fs, i);
      SortedAppend(es, fs[i].entries);
      es := es + fs[i].entries;
    }
    assert fs[..|fs|] == fs;
  }

  lemma NextFileIsLater(fs: seq<FileMeta>, i: nat)
    requires FilesOk(fs) && DisjointSorted(fs) && i < |fs|
    ensures forall x, y :: x in FilesContents(fs[..i]) && y in fs[i].entries ==> Before(x.key, y.key)
    ensures Sorted(fs[i].entries)
  {
    assert fs[i] in fs;
    forall x, y | x in FilesContents(fs[..i]) && y in fs[i].entries ensures Before(x.key, y.key) {
      var f :| f in fs[..i] && x in f.entries;
      var k :| 0 <= k < i && fs[k] == f;
      FileInRange(f, x);
      FileInRange(fs[i], y);
      assert Before(fs[k].largest, fs[i].smallest);
    }
  }

  lemma SortedAppend(a: seq<Entry>, b: seq<Entry>)
    requires Sorted(a) && Sorted(b) && forall x, y :: x in Elements(a) && y in b ==> Before(x.key, y.key)
    ensures Sorted(a + b) && Elements(a + b) == Elements(a) + Elements(b)
  {
    forall i, j | 0 <= i < j < |a + b| ensures Before((a + b)[i].key, (a + b)[j].key) {
      if i < |a| <= j { assert a[i] in Elements(a) && b[j - |a|] in b; }
    }
  }

  // ---------------------------------------------------------------- all runs of a version

  lemma ZeroFilesDiffer(fs: seq<FileMeta>, i: nat)
    requires NumberedByAge(fs) && UniqueNumbers(fs) && i < |fs|
    ensures NoSameKey(FilesContents(fs[..i]), Elements(fs[i].entries))
    ensures FilesContents(fs[..i + 1]) == FilesContents(fs[..i]) + Elements(fs[i].entries)
  {
    assert fs[..i + 1] == fs[..i] + [fs[i]];
    forall x, y | x in FilesContents(fs[..i]) && y in Elements(fs[i].entries) ensures x.key != y.key {
      var f :| f in fs[..i] && x in f.entries;
      var k :| 0 <= k < i && fs[k] == f;
      assert f in fs && fs[i] in fs && f.number != fs[i].number;
      NewerHasOtherKeys(Elements(f.entries), Elements(fs[i].entries));
    }
  }

  lemma NextZeroFile(v: Version, i: nat, above: set<Entry>)
    requires VersionOk(v) && NoSameKey(above, Contents(v)) && i < |v[0]|
    ensures NoSameKey(above + FilesContents(v[0][..i]), Elements(v[0][i].entries)) && Sorted(v[0][i].entries)
    ensures FilesContents(v[0][..i + 1]) == FilesContents(v[0][..i]) + Elements(v[0][i].entries)
  {
    assert ShapeOk(0, v[0]) && v[0][i] in v[0];
    ZeroFilesDiffer(v[0], i);
    forall e | e in Elements(v[0][i].entries) ensures e in Contents(v) { InContents(v, 0, e); }
  }

  method AddZeroFiles(runs: seq<seq<Entry>>, v: Version) returns (runs': seq<seq<Entry>>)
    requires RunsOk(runs) && VersionOk(v) && NoSameKey(Union(runs), Contents(v))
    ensures RunsOk(runs') && Union(runs') == Union(runs) + FilesContents(v[0])
  {
    runs' := runs;
    ghost var above := Union(runs);
    assert FilesContents(v[0][..0]) == {};
    for i := 0 to |v[0]|
      invariant RunsOk(runs') && Union(runs') == above + FilesContents(v[0][..i])
    {
      NextZeroFile(v, i, above);
      AppendRun(runs', v[0][i].entries);
      runs' := runs' + [v[0][i].entries];
    }
    assert v[0][..|v[0]|] == v[0];
  }

  method AddIterators(runs: seq<seq<Entry>>, v: Version) returns (runs': seq<seq<Entry>>)
    requires RunsOk(runs) && VersionOk(v) && NoSameKey(Union(runs), Contents(v))
    ensures RunsOk(runs') && Union(runs') == Union(runs) + Contents(v)
  {
    ghost var above := Union(runs);
    runs' := AddZeroFiles(runs, v);
    ShallowStep(v, 0);
    assert Shallow(v, 0) == {};
    for l := 1 to NUM_LEVELS
      invariant RunsOk(runs') && Union(runs') == above + Shallow(v, l)
    {
      assert ShapeOk(l, v[l]);
      var run := Concatenate(v[l]);
      LevelDiffers(v, l, above);
      AppendRun(runs', run);
      runs' := runs' + [run];
      ShallowStep(v, l);
    }
  }

  lemma LevelDiffers(v: Version, l: nat, above: set<Entry>)
    requires VersionOk(v) && l < NUM_LEVELS && NoSameKey(above, Contents(v))
    ensures NoSameKey(above + Shallow(v, l), FilesContents(v[l]))
  {
    ShallowIsNewer(v, l);
    NewerHasOtherKeys(Shallow(v, l), FilesContents(v[l]));
    forall e | e in FilesContents(v[l]) ensures e in Contents(v) { InContents(v, l, e); }
  }

  lemma OneRun(es: seq<Entry>)
    requires Sorted(es)
    ensures RunsOk([es]) && Union([es]) == Elements(es)
  {
    assert forall e :: e in es ==> e in [es][0];
  }

  /** The runs of everything a reader of the store can see. */
  method InternalRuns(s: State) returns (runs: seq<seq<Entry>>)
    requires Inv(s) && s.memory.Some?
    ensures RunsOk(runs) && Union(runs) == View(s.memory.value)
  {
    var m := s.memory.value;
    Guarantees.LayersForGet(s);
    OneRun(m.mem);
    runs := [m.mem];
    if m.imm.Some? {
      NewerHasOtherKeys(MemSet(m), ImmSet(m));
      AppendRun(runs, m.imm.value);
      runs := runs + [m.imm.value];
    }
    NewerHasOtherKeys(MemSet(m), Contents(m.version));
    NewerHasOtherKeys(ImmSet(m), Contents(m.version));
    runs := AddIterators(runs, m.version);
  }

  // ---------------------------------------------------------------- the history's map

  /** A cursor moves over one set of entries as over another if both answer all reads alike. */
  lemma SameMoves(h: set<Entry>, h': set<Entry>, s: nat, move: Move, at: Option<UserKey>, at': Option<UserKey>)
    requires Moved(h, s, move, at, at') && forall u :: ReadAt(h, u, s) == ReadAt(h', u, s)
    ensures Moved(h', s, move, at, at')
  {
    assert forall u :: Present(h, s, u) == Present(h', s, u);
  }

  /** Any sequence of seeks and steps over the running store, at any live snapshot: the iterator goes where a cursor over the map of the
      whole history goes, and shows the history's values. */
  method Scan(s: State, snapshot: nat, moves: seq<Move>) returns (keys: seq<Option<UserKey>>, values: seq<Bytes>)
    requires Inv(s) && s.memory.Some? && Guarantees.LiveSnapshot(s.memory.value, snapshot)
    ensures |keys| == |values| == |moves| + 1 && keys[0] == None
    ensures forall i :: 0 <= i < |moves| ==> Moved(s.t.history, snapshot, moves[i], keys[i], keys[i + 1])
    ensures forall i :: 0 <= i < |keys| && keys[i].Some? ==> ReadAt(s.t.history, keys[i].value, snapshot) == Found(values[i])
  {
    var m := s.memory.value;
    var runs := InternalRuns(s);
    ViewKeysDiffer(s);
    Guarantees.LiveIsInRange(s, snapshot);
    forall u ensures ReadAt(View(m), u, snapshot) == ReadAt(s.t.history, u, snapshot) { ReadsMatchHistory(s, u, snapshot); }
    keys, values := Walk(runs, snapshot, moves);
    forall i | 0 <= i < |moves| ensures Moved(s.t.history, snapshot, moves[i], keys[i], keys[i + 1]) {
      SameMoves(View(m), s.t.history, snapshot, moves[i], keys[i], keys[i + 1]);
    }
  }

  lemma ViewKeysDiffer(s: State)
    requires Inv(s) && s.memory.Some?
    ensures Distinct(View(s.memory.value)) && KeysDiffer(View(s.memory.value))
  {
    Guarantees.LayersForGet(s);
  }
}
