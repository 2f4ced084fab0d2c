/** The background work as it is done (db/db_impl.cc: CompactMemTable, BackgroundCompaction, DoCompactionWork, InstallCompactionResults):
    each method takes the steps of the state machine. */
module StoreWork {
  import opened InternalKeys
  import opened History
  import opened Versions
  import opened Selection
  import opened VersionEdits
  import opened Compaction
  import opened CompactionReads
  import opened Installs
  import opened Flushes
  import opened Merging
  import opened UserIterator
  import opened Disk
  import opened Store
  import opened StoreBackground
  import opened StoreRuns
  import opened StoreScan
  import opened SnapshotFree

  // ---------------------------------------------------------------- applying edits

  /** New files under new numbers. */
  lemma NewFilesFit(v: Version, next: nat, edit: VersionEdit)
    requires VersionOk(v) && NumbersBelow(v, next) && LevelsInRange(edit)
    requires forall a :: a in edit.added ==> next <= a.1.number
    ensures forall l :: 0 <= l < NUM_LEVELS ==> SortedBySmallest(v[l])
    ensures forall a, f :: a in edit.added && f in v[a.0] ==> f.number != a.1.number
  {
    LevelsAreSorted(v);
  }

  lemma MoveFits(v: Version, m: Memory, level: nat, f: FileMeta)
    requires VersionOk(v) && NumbersUnique(v) && level + 1 < NUM_LEVELS && f in v[level]
    ensures var edit := CompactionEdit(m, level, [f], [], [f]);
            && LevelsInRange(edit) && DistinctAdds(edit)
            && (forall l :: 0 <= l < NUM_LEVELS ==> SortedBySmallest(v[l]))
            && (forall a, g :: a in edit.added && g in v[a.0] ==> g.number != a.1.number)
  {
    var edit := CompactionEdit(m, level, [f], [], [f]);
    LevelsAreSorted(v);
    forall a | a in edit.added ensures a == (level + 1, f) { assert a == (a.0, a.1); }
    forall d | d in edit.deleted ensures d.0 < NUM_LEVELS { assert d == (d.0, d.1); }
  }

  // ---------------------------------------------------------------- flush

  /** The level for a new table, as the picker allows it. */
  method PickLevel(v: Version, table: Option<FileMeta>, maxGrandparentBytes: nat) returns (level: nat)
    requires VersionOk(v)
    ensures level < NUM_LEVELS && (table.Some? ==> LevelAllowed(v, level, table.value))
  {
    level := 0;
    if table.Some? {
      level := PickLevelForMemTableOutput(v, table.value.smallest.user, table.value.largest.user, maxGrandparentBytes);
    }
  }

  lemma FlushFits(s: State, level: nat)
    requires Inv(s) && s.memory.Some? && s.memory.value.job.Flushing? && level < NUM_LEVELS
    ensures var m := s.memory.value;
            var edit := FlushEdit(m, level);
            && VersionOk(m.version) && LevelsInRange(edit) && DistinctAdds(edit)
            && (forall l :: 0 <= l < NUM_LEVELS ==> SortedBySmallest(m.version[l]))
            && (forall a, f :: a in edit.added && f in m.version[a.0] ==> f.number != a.1.number)
  {
    var m := s.memory.value;
    VersionNumbers(s);
    assert StandsFor(m.version, s.t.below, s.t.low);
    assert Written(s.disk.tables, JobTables(m.job), NextFileOf(s.disk.manifest), m.nextFile);
    if m.job.table.Some? { assert m.job.table.value in JobTables(m.job); }
    NewFilesFit(m.version, NextFileOf(s.disk.manifest), FlushEdit(m, level));
  }

  method StartFlush(s: State, size: nat) returns (s': State)
    requires s.memory.Some? && s.memory.value.job.Idle? && s.memory.value.imm.Some?
    ensures NextBackground(s, DoBuildFlush(size), s') && s'.memory.Some? && s'.memory.value.job.Flushing?
  {
    var m, d := s.memory.value, s.disk;
    var job := FlushJob(m, size);
    s' := State(d.(tables := AddTables(d.tables, JobTables(job))), Some(m.(job := job, nextFile := m.nextFile + 1)), s.t);
  }

  method FinishFlush(s: State, maxGrandparentBytes: nat) returns (s': State, level: nat, v: Version)
    requires Inv(s) && s.memory.Some? && s.memory.value.job.Flushing?
    ensures NextBackground(s, DoCommitFlush(level, v), s') && Inv(s') && s'.memory.Some? && s'.memory.value.job.Installing?
    ensures s'.memory.value.job.dropImm
  {
    var m := s.memory.value;
    FlushFits(s, 0);
    level := PickLevel(m.version, m.job.table, maxGrandparentBytes);
    FlushFits(s, level);
    var edit := FlushEdit(m, level);
    v := ApplyToCurrent(m.version, edit);
    s' := State(s.disk.(manifest := s.disk.manifest + [edit]), Some(m.(job := Installing(v, edit.logNumber.value, true))),
                s.t.(flushed := s.t.flushed + ImmSet(m), committed := v));
    CommitFlushKeepsInv(s, s', level, v);
  }

  method InstallVersion(s: State) returns (s': State)
    requires s.memory.Some? && s.memory.value.job.Installing?
    ensures NextBackground(s, DoInstall, s') && s'.memory.Some? && s'.memory.value.job.Idle? && s'.memory.value.version == s.memory.value.job.version
    ensures s'.memory.value.imm == if s.memory.value.job.dropImm then None else s.memory.value.imm
  {
    var m := s.memory.value;
    s' := s.(memory := Some(m.(version := m.job.version, logNumber := m.job.logNumber, imm := if m.job.dropImm then None else m.imm, job := Idle)),
             t := s.t.(below := s.t.flushed));
  }

  /** Flush the immutable memtable: three steps, after which it is gone (CompactMemTable). */
  method CompactMemTable(s: State, size: nat, maxGrandparentBytes: nat) returns (s1: State, s2: State, s3: State, level: nat, v: Version)
    requires Inv(s) && s.memory.Some? && s.memory.value.job.Idle? && s.memory.value.imm.Some?
    ensures NextBackground(s, DoBuildFlush(size), s1) && NextBackground(s1, DoCommitFlush(level, v), s2) && NextBackground(s2, DoInstall, s3)
    ensures Inv(s3) && s3.memory.Some? && s3.memory.value.job.Idle? && s3.memory.value.imm.None?
  {
    s1 := StartFlush(s, size);
    BuildFlushKeepsInv(s, s1, size);
    s2, level, v := FinishFlush(s1, maxGrandparentBytes);
    s3 := InstallVersion(s2);
    InstallKeepsInv(s2, s3);
  }

  // ---------------------------------------------------------------- merging the inputs

  /** Everything before the cursor has been taken, in order. */
  ghost predicate Taken(all: set<Entry>, es: seq<Entry>, n: Option<Entry>) {
    && Sorted(es) && (forall x :: x in es ==> x in all && Passed(n, x)) && (forall x :: x in all && Passed(n, x) ==> x in es)
  }

  lemma TakeNext(all: set<Entry>, es: seq<Entry>, e: Entry, n: Option<Entry>)
    requires KeysDiffer(all) && Taken(all, es, Some(e)) && e in all && IsLeast(all, Beyond(e.key), n)
    ensures Taken(all, es + [e], n) && e !in es
  {
    SortedAppend(es, [e]);
    forall x | x in all && Passed(n, x) ensures x in es + [e] {
      assert !Beyond(e.key)(x.key);
      Total(x.key, e.key);
    }
  }

  /** The runs as one sorted list. */
  method MergeRuns(runs: seq<seq<Entry>>) returns (es: seq<Entry>)
    requires RunsOk(runs) && KeysDiffer(Union(runs))
    ensures Sorted(es) && Elements(es) == Union(runs)
  {
    var it := new MergingIterator(runs);
    it.SeekToFirst();
    es := [];
    while it.current.Some?
      invariant it.Valid() && it.runs == runs && fresh(it) && Taken(Union(runs), es, it.Cur())
      decreases Union(runs) - Elements(es)
    {
      var e := it.Cur().value;
      it.Next();
      TakeNext(Union(runs), es, e, it.Cur());
      assert e in Union(runs) - Elements(es) && e in Elements(es + [e]);
      es := es + [e];
    }
  }

  // ---------------------------------------------------------------- compaction

  /** The merged entries of the input files (MakeInputIterator). */
  method MergeInputs(v: Version, level: nat, in0: seq<FileMeta>, in1: seq<FileMeta>) returns (es: seq<Entry>)
    requires VersionOk(v) && level + 1 < NUM_LEVELS && SelectionClosed(level, v[level], v[level + 1], in0, in1)
    ensures Sorted(es) && Elements(es) == Inputs(in0, in1)
  {
    InputFacts(v, level, in0, in1);
    var runs := InputRuns(v, level, in0, in1);
    es := MergeRuns(runs);
  }

  method InputRuns(v: Version, level: nat, in0: seq<FileMeta>, in1: seq<FileMeta>) returns (runs: seq<seq<Entry>>)
    requires VersionOk(v) && level + 1 < NUM_LEVELS && NoSameKey(FilesContents(in0), FilesContents(v[level + 1]))
    requires (forall f :: f in in0 ==> f in v[level]) && (forall f :: f in in1 ==> f in v[level + 1]) && AllDiffer(in0) && AllDiffer(in1)
    ensures RunsOk(runs) && Union(runs) == Inputs(in0, in1)
  {
    runs := [];
    assert Union(runs) == {};
    runs := AddFiles(v, level, in0, runs);
    assert Union(runs) == FilesContents(in0);
    runs := AddFiles(v, level + 1, in1, runs);
  }

  predicate AllDiffer(files: seq<FileMeta>) {
    forall i, j :: 0 <= i < j < |files| ==> files[i] != files[j]
  }

  lemma {:induction false} OverlappingDiffers(files: seq<FileMeta>, r: Range)
    requires AllDiffer(files)
    ensures AllDiffer(Overlapping(files, r))
  {
    if files != [] {
      var n := |files| - 1;
      OverlappingDiffers(files[..n], r);
      assert files[n] !in files[..n];
    }
  }

  lemma InputsDiffer(level: nat, fs: seq<FileMeta>, next: seq<FileMeta>, in0: seq<FileMeta>, in1: seq<FileMeta>)
    requires SortedBySmallest(fs) && SortedBySmallest(next) && SelectionClosed(level, fs, next, in0, in1)
    ensures AllDiffer(in0) && AllDiffer(in1)
  {
    var lo, hi :| Spans(in0, lo, hi) && in1 == Overlapping(next, Range(Some(lo), Some(hi)));
    OverlappingDiffers(next, Range(Some(lo), Some(hi)));
    if level == 0 {
      var r :| ClosedRange(fs, r) && in0 == Overlapping(fs, r);
      OverlappingDiffers(fs, r);
    } else {
      var i, j :| SliceAt(fs, in0, i, j) && CleanCut(fs, j);
    }
  }

  lemma InputFacts(v: Version, level: nat, in0: seq<FileMeta>, in1: seq<FileMeta>)
    requires VersionOk(v) && level + 1 < NUM_LEVELS && SelectionClosed(level, v[level], v[level + 1], in0, in1)
    ensures (forall f :: f in in0 ==> f in v[level]) && (forall f :: f in in1 ==> f in v[level + 1]) && AllDiffer(in0) && AllDiffer(in1)
    ensures NoSameKey(FilesContents(in0), FilesContents(v[level + 1])) && KeysDiffer(Inputs(in0, in1)) && Distinct(Inputs(in0, in1))
  {
    SelectedAreMembers(v, level, in0, in1);
    LevelsAreSorted(v);
    InputsDiffer(level, v[level], v[level + 1], in0, in1);
    UpperIsApart(v, level, in0, in1);
    InputKeysDiffer(v, level, in0, in1);
  }

  lemma UpperIsApart(v: Version, level: nat, in0: seq<FileMeta>, in1: seq<FileMeta>)
    requires VersionOk(v) && level + 1 < NUM_LEVELS
    requires (forall f :: f in in0 ==> f in v[level]) && (forall f :: f in in1 ==> f in v[level + 1])
    ensures NoSameKey(FilesContents(in0), FilesContents(v[level + 1]))
  {
    assert NewerThan(FilesContents(v[level]), FilesContents(v[level + 1]));
    NewerHasOtherKeys(FilesContents(v[level]), FilesContents(v[level + 1]));
    ChosenSplit(v[level], in0);
  }

  lemma InputKeysDiffer(v: Version, level: nat, in0: seq<FileMeta>, in1: seq<FileMeta>)
    requires VersionOk(v) && level + 1 < NUM_LEVELS
    requires (forall f :: f in in0 ==> f in v[level]) && (forall f :: f in in1 ==> f in v[level + 1])
    ensures KeysDiffer(Inputs(in0, in1)) && Distinct(Inputs(in0, in1))
  {
    RestAndInputs(v, level, in0, in1);
  }

  /** A run for each file. */
  method AddFiles(v: Version, level: nat, files: seq<FileMeta>, runs: seq<seq<Entry>>) returns (runs': seq<seq<Entry>>)
    requires VersionOk(v) && level < NUM_LEVELS && RunsOk(runs) && NoSameKey(Union(runs), FilesContents(v[level]))
    requires (forall f :: f in files ==> f in v[level]) && AllDiffer(files)
    ensures RunsOk(runs') && Union(runs') == Union(runs) + FilesContents(files)
  {
    runs' := runs;
    ghost var above := Union(runs);
    assert FilesContents(files[..0]) == {};
    for i := 0 to |files|
      invariant RunsOk(runs') && Union(runs') == above + FilesContents(files[..i])
    {
      NextInput(v, level, files, i, above);
      AppendRun(runs', files[i].entries);
      runs' := runs' + [files[i].entries];
    }
    assert files[..|files|] == files;
  }

  lemma NextInput(v: Version, level: nat, files: seq<FileMeta>, i: nat, above: set<Entry>)
    requires VersionOk(v) && level < NUM_LEVELS && i < |files| && NoSameKey(above, FilesContents(v[level]))
    requires (forall f :: f in files ==> f in v[level]) && AllDiffer(files)
    ensures NoSameKey(above + FilesContents(files[..i]), Elements(files[i].entries)) && Sorted(files[i].entries)
    ensures FilesContents(files[..i + 1]) == FilesContents(files[..i]) + Elements(files[i].entries)
  {
    NextContents(files, i);
    assert files[i] in files && ShapeOk(level, v[level]);
    forall x, y | x in FilesContents(files[..i]) && y in Elements(files[i].entries) ensures x.key != y.key {
      var f :| f in files[..i] && x in f.entries;
      var k :| 0 <= k < i && files[k] == f;
      OtherFile(v, level, f, files[i], x, y);
    }
  }

  lemma NextContents(files: seq<FileMeta>, i: nat)
    requires i < |files|
    ensures FilesContents(files[..i + 1]) == FilesContents(files[..i]) + Elements(files[i].entries)
  {
    assert files[..i + 1] == files[..i] + [files[i]];
  }

  lemma OtherFile(v: Version, level: nat, f: FileMeta, g: FileMeta, x: Entry, y: Entry)
    requires VersionOk(v) && level < NUM_LEVELS && f in v[level] && g in v[level] && f != g && x in f.entries && y in g.entries
    ensures x.key != y.key
  {
    StoredOnlyThere(v, level, f, x);
    assert x in FilesContents(v[level]) && y in FilesContents(v[level]);
    InContents(v, level, x);
    InContents(v, level, y);
  }

  lemma MayCompact(s: State)
    requires Inv(s) && s.memory.Some? && s.memory.value.job.Idle?
    ensures var m := s.memory.value;
            && VersionOk(m.version) && NumbersBelow(m.version, m.nextFile) && NumbersUnique(m.version)
            && OldestSnapshot(m) < MAX_SEQUENCE && SeqAtMost(Contents(m.version), MAX_SEQUENCE)
  {
    var m := s.memory.value;
    VersionNumbers(s);
    assert Pinned(s.disk.tables, m.version, m.nextFile);
    assert SnapshotsOk(m.snapshots, s.t.low, m.lastSequence) && m.lastSequence < MAX_SEQUENCE;
    assert StandsFor(m.version, s.t.below, s.t.low);
    assert forall e :: e in s.t.below ==> e in s.t.history;
  }

  lemma InputsInRange(v: Version, level: nat, in0: seq<FileMeta>, in1: seq<FileMeta>)
    requires VersionOk(v) && level + 1 < NUM_LEVELS && SeqAtMost(Contents(v), MAX_SEQUENCE)
    requires (forall f :: f in in0 ==> f in v[level]) && (forall f :: f in in1 ==> f in v[level + 1])
    ensures SeqAtMost(Inputs(in0, in1), MAX_SEQUENCE)
  {
    RestAndInputs(v, level, in0, in1);
  }

  /** Merge the inputs, drop what the rules drop, and cut the rest into tables. */
  method WriteOutputs(v: Version, level: nat, in0: seq<FileMeta>, in1: seq<FileMeta>, ss: nat, first: nat, size: seq<Entry> -> nat,
                      stopBefore: nat -> bool, full: nat -> bool) returns (outs: seq<FileMeta>)
    requires VersionOk(v) && level + 1 < NUM_LEVELS && SelectionClosed(level, v[level], v[level + 1], in0, in1)
    requires ss < MAX_SEQUENCE && SeqAtMost(Contents(v), MAX_SEQUENCE)
    ensures OutputsOk(outs, first) && FilesContents(outs) == Kept(Inputs(in0, in1), BaseOf(v, level), ss)
  {
    var input := MergeInputs(v, level, in0, in1);
    InputFacts(v, level, in0, in1);
    InputsInRange(v, level, in0, in1);
    assert forall e :: e in input ==> e in Elements(input);
    outs := Compact(v, level, input, ss, first, size, stopBefore, full);
  }

  /** Choose the inputs of a compaction and compute its outputs. */
  method ChooseAndCompact(s: State, level: nat, f: FileMeta, expandLimit: nat, size: seq<Entry> -> nat, stopBefore: nat -> bool, full: nat -> bool)
    returns (in0: seq<FileMeta>, in1: seq<FileMeta>, outs: seq<FileMeta>)
    requires Inv(s) && s.memory.Some? && s.memory.value.job.Idle? && level + 1 < NUM_LEVELS && f in s.memory.value.version[level]
    ensures ClosedCompaction(s.memory.value.version, level, in0, in1, outs, OldestSnapshot(s.memory.value))
    ensures f in in0 && OutputsOk(outs, s.memory.value.nextFile)
  {
    var m := s.memory.value;
    MayCompact(s);
    VersionLevelOk(m.version, level);
    in0, in1 := PickCompaction(level, m.version[level], m.version[level + 1], f, expandLimit);
    outs := WriteOutputs(m.version, level, in0, in1, OldestSnapshot(m), m.nextFile, size, stopBefore, full);
  }

  /** Write the outputs under new numbers: a step of the store, if the compaction exposes nothing. */
  method StartCompaction(s: State, level: nat, in0: seq<FileMeta>, in1: seq<FileMeta>, outs: seq<FileMeta>) returns (s': State, next: nat)
    requires s.memory.Some? && s.memory.value.job.Idle? && OutputsOk(outs, s.memory.value.nextFile)
    requires ClosedCompaction(s.memory.value.version, level, in0, in1, outs, OldestSnapshot(s.memory.value))
    ensures BuildAny(s, s', level, in0, in1, outs, next) && s'.memory.Some? && s'.memory.value.job.Compacting?
  {
    var m, d := s.memory.value, s.disk;
    next := m.nextFile + |outs|;
    var job := Compacting(level, in0, in1, outs, OldestSnapshot(m));
    s' := State(d.(tables := AddTables(d.tables, outs)), Some(m.(job := job, nextFile := next)), s.t);
  }

  lemma EditFits(v: Version, m: Memory, next: nat)
    requires VersionOk(v) && NumbersBelow(v, next) && m.job.Compacting? && m.job.level + 1 < NUM_LEVELS
    requires UniqueNumbers(m.job.outs) && forall f :: f in m.job.outs ==> next <= f.number
    ensures var edit := CompactionEdit(m, m.job.level, m.job.in0, m.job.in1, m.job.outs);
            && LevelsInRange(edit) && DistinctAdds(edit)
            && (forall l :: 0 <= l < NUM_LEVELS ==> SortedBySmallest(v[l]))
            && (forall a, g :: a in edit.added && g in v[a.0] ==> g.number != a.1.number)
  {
    var edit := CompactionEdit(m, m.job.level, m.job.in0, m.job.in1, m.job.outs);
    forall a | a in edit.added ensures a.0 == m.job.level + 1 && next <= a.1.number { assert a == (a.0, a.1); }
    forall d | d in edit.deleted ensures d.0 < NUM_LEVELS { assert d == (d.0, d.1); }
    NewFilesFit(v, next, edit);
  }

  /** Commit a compaction whose outputs are written under new numbers (InstallCompactionResults). */
  method FinishCompaction(s: State, ghost first: nat) returns (s': State, v: Version)
    requires s.memory.Some? && s.memory.value.job.Compacting? && s.memory.value.job.level + 1 < NUM_LEVELS
    requires VersionOk(s.memory.value.version) && NumbersBelow(s.memory.value.version, first)
    requires UniqueNumbers(s.memory.value.job.outs) && forall f :: f in s.memory.value.job.outs ==> first <= f.number
    ensures NextBackground(s, DoCommitCompaction(v), s') && s'.memory.Some? && s'.memory.value.job == Installing(v, s.memory.value.logNumber, false)
  {
    var m := s.memory.value;
    var j := m.job;
    EditFits(m.version, m, first);
    var edit := CompactionEdit(m, j.level, j.in0, j.in1, j.outs);
    v := ApplyToCurrent(m.version, edit);
    s' := State(s.disk.(manifest := s.disk.manifest + [edit]), Some(m.(job := Installing(v, edit.logNumber.value, false))),
                s.t.(low := if s.t.low < j.ss then j.ss else s.t.low, committed := v));
  }

  /** Move a file that is the only input down a level. */
  method MoveFile(s: State, level: nat, f: FileMeta) returns (s': State, v: Version)
    requires Inv(s) && s.memory.Some? && s.memory.value.job.Idle? && level + 1 < NUM_LEVELS
    requires SelectionClosed(level, s.memory.value.version[level], s.memory.value.version[level + 1], [f], [])
    ensures NextBackground(s, DoCommitMove(level, f, v), s') && Inv(s') && s'.memory.Some? && s'.memory.value.job.Installing?
  {
    var m := s.memory.value;
    MayCompact(s);
    SelectedAreMembers(m.version, level, [f], []);
    assert f in [f];
    MoveFits(m.version, m, level, f);
    var edit := CompactionEdit(m, level, [f], [], [f]);
    v := ApplyToCurrent(m.version, edit);
    s' := State(s.disk.(manifest := s.disk.manifest + [edit]), Some(m.(job := Installing(v, edit.logNumber.value, false))),
                s.t.(committed := v));
    CommitMoveKeepsInv(s, s', level, f, v);
  }

  /** The steps of a compaction as the code takes them. */
  ghost predicate CompactionSteps(s: State, s1: State, s2: State, s3: State, level: nat, in0: seq<FileMeta>, in1: seq<FileMeta>,
                                  outs: seq<FileMeta>, next: nat, v: Version)
  {
    match s.memory
    case Some(_) => BuildAny(s, s1, level, in0, in1, outs, next) && CommitCompaction(s1, s2, v) && Install(s2, s3)
    case None => false
  }

  /** The compaction exposes nothing. */
  ghost predicate Harmless(s: State, level: nat, in0: seq<FileMeta>, in1: seq<FileMeta>) {
    match s.memory
    case Some(m) => NoExposure(m.version, level, in0, in1, OldestSnapshot(m))
    case None => false
  }

  ghost predicate KeepsReads(s: State, v: Version) {
    match s.memory
    case Some(m) => ReadsPreserved(Contents(m.version), Contents(v), OldestSnapshot(m))
    case None => false
  }

  /** Write the outputs, commit, install. */
  method CarryOut(s: State, level: nat, in0: seq<FileMeta>, in1: seq<FileMeta>, outs: seq<FileMeta>)
    returns (s1: State, s2: State, s3: State, next: nat, v: Version)
    requires s.memory.Some? && s.memory.value.job.Idle? && OutputsOk(outs, s.memory.value.nextFile)
    requires ClosedCompaction(s.memory.value.version, level, in0, in1, outs, OldestSnapshot(s.memory.value))
    requires VersionOk(s.memory.value.version) && NumbersBelow(s.memory.value.version, s.memory.value.nextFile)
    ensures CompactionSteps(s, s1, s2, s3, level, in0, in1, outs, next, v)
    ensures s3.memory.Some? && s3.memory.value.job.Idle? && s3.memory.value.version == v
  {
    s1, next := StartCompaction(s, level, in0, in1, outs);
    s2, v := FinishCompaction(s1, s.memory.value.nextFile);
    s3 := InstallVersion(s2);
  }

  /** A whole compaction from one file of a level (BackgroundCompaction, DoCompactionWork). It preserves the reads of the version exactly
      if it exposes nothing, which is so whenever the next level splits no user key over two files, and its steps are then steps of the
      store. */
  method CompactLevel(s: State, level: nat, f: FileMeta, expandLimit: nat, size: seq<Entry> -> nat, stopBefore: nat -> bool, full: nat -> bool)
    returns (s1: State, s2: State, s3: State, in0: seq<FileMeta>, in1: seq<FileMeta>, outs: seq<FileMeta>, next: nat, v: Version)
    requires Inv(s) && s.memory.Some? && s.memory.value.job.Idle? && level + 1 < NUM_LEVELS && f in s.memory.value.version[level]
    ensures f in in0 && CompactionSteps(s, s1, s2, s3, level, in0, in1, outs, next, v)
    ensures s3.memory.Some? && s3.memory.value.job.Idle? && s3.memory.value.version == v
    ensures KeepsReads(s, v) <==> Harmless(s, level, in0, in1)
    ensures Harmless(s, level, in0, in1) ==> NextBackground(s, DoBuildOutputs(level, in0, in1, outs, next), s1) && Inv(s3)
    ensures Whole(s.memory.value.version[level + 1]) ==> Harmless(s, level, in0, in1)
  {
    in0, in1, outs := ChooseAndCompact(s, level, f, expandLimit, size, stopBefore, full);
    MayCompact(s);
    s1, s2, s3, next, v := CarryOut(s, level, in0, in1, outs);
    ReadsOutcome(s, s1, s2, s3, level, in0, in1, outs, next, v);
    if Harmless(s, level, in0, in1) { StepsOutcome(s, s1, s2, s3, level, in0, in1, outs, next, v); }
    if Whole(s.memory.value.version[level + 1]) { WholeOutcome(s, s1, s2, s3, level, in0, in1, outs, next, v); }
  }

  lemma ReadsOutcome(s: State, s1: State, s2: State, s3: State, level: nat, in0: seq<FileMeta>, in1: seq<FileMeta>, outs: seq<FileMeta>,
                     next: nat, v: Version)
    requires s.memory.Some? && VersionOk(s.memory.value.version) && NumbersUnique(s.memory.value.version)
    requires CompactionSteps(s, s1, s2, s3, level, in0, in1, outs, next, v)
    ensures KeepsReads(s, v) <==> Harmless(s, level, in0, in1)
  {
    ReadsExactly(s, s1, s2, level, in0, in1, outs, next, v);
  }

  lemma StepsOutcome(s: State, s1: State, s2: State, s3: State, level: nat, in0: seq<FileMeta>, in1: seq<FileMeta>, outs: seq<FileMeta>,
                     next: nat, v: Version)
    requires Inv(s) && CompactionSteps(s, s1, s2, s3, level, in0, in1, outs, next, v) && Harmless(s, level, in0, in1)
    ensures NextBackground(s, DoBuildOutputs(level, in0, in1, outs, next), s1) && Inv(s3)
  {
    GuardedKeepsInv(s, s1, s2, s3, level, in0, in1, outs, next, v);
  }

  lemma WholeOutcome(s: State, s1: State, s2: State, s3: State, level: nat, in0: seq<FileMeta>, in1: seq<FileMeta>, outs: seq<FileMeta>,
                     next: nat, v: Version)
    requires Inv(s) && CompactionSteps(s, s1, s2, s3, level, in0, in1, outs, next, v) && level + 1 < NUM_LEVELS
    requires s.memory.Some? && Whole(s.memory.value.version[level + 1])
    ensures Harmless(s, level, in0, in1)
  {
    WholeIsGuarded(s, s1, level, in0, in1, outs, next);
  }

  /** The reads after the commit, for any compaction the code may choose. */
  lemma ReadsExactly(s: State, s1: State, s2: State, level: nat, in0: seq<FileMeta>, in1: seq<FileMeta>, outs: seq<FileMeta>, next: nat, v: Version)
    requires s.memory.Some? && VersionOk(s.memory.value.version) && NumbersUnique(s.memory.value.version)
    requires BuildAny(s, s1, level, in0, in1, outs, next) && CommitCompaction(s1, s2, v)
    ensures ReadsPreserved(Contents(s.memory.value.version), Contents(v), OldestSnapshot(s.memory.value))
            <==> NoExposure(s.memory.value.version, level, in0, in1, OldestSnapshot(s.memory.value))
  {
    var m := s.memory.value;
    OutputsInstalled(m.version, s1.memory.value, level, in0, in1, outs, v);
    VersionReadsExactly(m.version, level, in0, in1, outs, OldestSnapshot(m), v);
  }

  lemma OutputsInstalled(v: Version, m: Memory, level: nat, in0: seq<FileMeta>, in1: seq<FileMeta>, outs: seq<FileMeta>, v': Version)
    requires VersionOk(v) && NumbersUnique(v) && level + 1 < NUM_LEVELS && SelectionClosed(level, v[level], v[level + 1], in0, in1)
    requires Applied(v, CompactionEdit(m, level, in0, in1, outs), v')
    ensures CompactionInstalled(v, v', level, in0, in1, outs)
  {
    SelectedAreMembers(v, level, in0, in1);
    LevelsAreSorted(v);
    EditInstalls(v, level, in0, in1, outs, CompactionEdit(m, level, in0, in1, outs), v');
  }

  lemma VersionReadsExactly(v: Version, level: nat, in0: seq<FileMeta>, in1: seq<FileMeta>, outs: seq<FileMeta>, ss: nat, v': Version)
    requires VersionOk(v) && Compacted(v, v', level, in0, in1, outs, ss)
    ensures ReadsPreserved(Contents(v), Contents(v'), ss) <==> NoExposure(v, level, in0, in1, ss)
  {
    CompactedSets(v, v', level, in0, in1, outs, ss);
    DropRulesExact(Rest(v, level, in0, in1), Inputs(in0, in1), BaseOf(v, level), ss);
  }

  lemma GuardedKeepsInv(s: State, s1: State, s2: State, s3: State, level: nat, in0: seq<FileMeta>, in1: seq<FileMeta>, outs: seq<FileMeta>,
                        next: nat, v: Version)
    requires Inv(s) && BuildAny(s, s1, level, in0, in1, outs, next) && CommitCompaction(s1, s2, v) && Install(s2, s3)
    requires NoExposure(s.memory.value.version, level, in0, in1, OldestSnapshot(s.memory.value))
    ensures BuildOutputs(s, s1, level, in0, in1, outs, next) && Inv(s3)
  {
    BuildOutputsKeepsInv(s, s1, level, in0, in1, outs, next);
    CommitCompactionKeepsInv(s1, s2, v);
    InstallKeepsInv(s2, s3);
  }

  lemma WholeIsGuarded(s: State, s': State, level: nat, in0: seq<FileMeta>, in1: seq<FileMeta>, outs: seq<FileMeta>, next: nat)
    requires Inv(s) && BuildAny(s, s', level, in0, in1, outs, next) && Whole(s.memory.value.version[level + 1])
    ensures NoExposure(s.memory.value.version, level, in0, in1, OldestSnapshot(s.memory.value))
  {
    var m := s.memory.value;
    VersionIsOld(s);
    SelectedAreMembers(m.version, level, in0, in1);
    assert ShapeOk(level + 1, m.version[level + 1]);
    WholeIsCut(m.version[level + 1], in1);
    CutExposesNothing(m.version, level, in0, in1, OldestSnapshot(m));
  }
}
