/** A run of the store, from a new database, that ends in the version whose next compaction brings a deleted key back: one key
    is written, a snapshot taken, another key written and the first deleted; with the snapshot held, a compaction leaves the tombstone
    and the old value in neighbouring files of level 2. */
module ResurrectionRun {
  import opened InternalKeys
  import opened History
  import opened Versions
  import opened VersionEdits
  import opened Selection
  import opened Compaction
  import opened Installs
  import opened Flushes
  import opened CompactionReads
  import opened MemTables
  import opened Disk
  import opened Store
  import opened StoreSteps
  import opened StoreBackground
  import opened StoreRecovery
  import opened StoreRuns
  import opened Resurrection

  // ---------------------------------------------------------------- reachable states

  ghost predicate Reachable(s: State) {
    exists states, steps :: IsRun(states, steps) && states[|steps|] == s
  }

  /** A property of states that a new database has and that every step keeps. */
  ghost predicate Closed(reach: State -> bool) {
    reach(Empty) && forall s, step, s' :: Carries(reach, s, step, s')
  }

  ghost predicate Carries(reach: State -> bool, s: State, step: Step, s': State) {
    reach(s) && NextState(s, step, s') ==> reach(s')
  }

  lemma StepReaches(reach: State -> bool, s: State, step: Step, s': State)
    requires Closed(reach) && reach(s) && NextState(s, step, s')
    ensures reach(s')
  {
    assert Carries(reach, s, step, s');
  }

  lemma RunExtends(s: State, step: Step, s': State)
    requires Reachable(s) && NextState(s, step, s')
    ensures Reachable(s')
  {
    var states, steps :| IsRun(states, steps) && states[|steps|] == s;
    var states', steps' := states + [s'], steps + [step];
    forall i | 0 <= i < |steps'| ensures StepAt(states', steps', i) {
      if i < |steps| { assert StepAt(states, steps, i); }
    }
    assert IsRun(states', steps') && states'[|steps'|] == s';
  }

  lemma ReachableIsClosed()
    ensures Closed(s => Reachable(s))
  {
    var reach := s => Reachable(s);
    var steps: seq<Step> := [];
    assert IsRun([Empty], steps) && [Empty][|steps|] == Empty;
    forall s, step, s' ensures Carries(reach, s, step, s') {
      if Reachable(s) && NextState(s, step, s') { RunExtends(s, step, s'); }
    }
  }

  /** An open store with an empty memtable and no work under way. */
  ghost predicate Rests(s: State, v: Version, last: nat, next: nat, snapshots: seq<nat>) {
    && Running(s)
    && var m := s.memory.value;
       && m.mem == [] && m.imm.None? && m.writing.None? && m.job.Idle? && m.version == v
       && m.lastSequence == last && m.nextFile == next && m.snapshots == snapshots
  }

  // ---------------------------------------------------------------- versions of the run

  const First := FileMeta(5, LARGE, Deleted.key, Deleted.key, [Deleted])
  const Second := FileMeta(7, LARGE, OldOne.key, Tombstone.key, [OldOne, Tombstone])

  const AfterFirst: Version := [[], [], [First], [], [], [], []]
  const AfterSecond: Version := [[], [Second], [First], [], [], [], []]
  const AfterMerge: Version := [[], [], [Chosen, LeftBehind], [], [], [], []]

  // ---------------------------------------------------------------- flushes

  lemma FileApplied(v: Version, level: nat, f: FileMeta, edit: VersionEdit, v': Version)
    requires level < NUM_LEVELS && v[level] == [] && v' == v[level := [f]] && edit.deleted == {} && edit.added == [(level, f)]
    requires forall l :: 0 <= l < NUM_LEVELS ==> SortedBySmallest(v[l])
    ensures Applied(v, edit, v')
  {
    forall l | 0 <= l < NUM_LEVELS ensures SetsOf(v')[l] == NextLevel(SetsOf(v)[l], edit, l) {
      assert (level, f) in edit.added && (level, f).1 == f;
      assert AddedTo(edit, l) == if l == level then {f} else {};
    }
  }

  lemma WriteReaches(reach: State -> bool, s: State, ops: seq<Op>, es: seq<Entry>, v: Version, last: nat, next: nat, snapshots: seq<nat>) returns (s': State)
    requires Closed(reach) && reach(s) && Rests(s, v, last, next, snapshots) && last + |ops| < MAX_SEQUENCE
    requires InsertAll([], BatchEntries(Batch(last + 1, ops))) == es
    ensures reach(s') && Running(s') && s'.memory.value == s.memory.value.(mem := es, lastSequence := last + |ops|)
  {
    var m, b := s.memory.value, Batch(last + 1, ops);
    var s1 := LogReaches(reach, s, ops, b);
    s' := s1.(memory := Some(m.(mem := es, lastSequence := last + |ops|)));
    StepReaches(reach, s1, Foreground(DoApplyWrite), s');
  }

  lemma LogReaches(reach: State -> bool, s: State, ops: seq<Op>, b: Batch) returns (s': State)
    requires Closed(reach) && reach(s) && Running(s) && s.memory.value.writing.None?
    requires b == Batch(s.memory.value.lastSequence + 1, ops) && s.memory.value.lastSequence + |ops| < MAX_SEQUENCE
    ensures reach(s') && Running(s') && s'.memory.value == s.memory.value.(writing := Some(b))
  {
    var m, d := s.memory.value, s.disk;
    s' := State(d.(logs := d.logs[m.logFile := d.logs[m.logFile] + [b]]), Some(m.(writing := Some(b))),
                s.t.(history := s.t.history + Elements(BatchEntries(b))));
    StepReaches(reach, s, Foreground(DoLogWrite(ops)), s');
  }

  /** Switch, write the table, commit, install. */
  lemma FlushReaches(reach: State -> bool, s: State, es: seq<Entry>, size: nat, level: nat, f: FileMeta, v: Version, v': Version) returns (s': State)
    requires Closed(reach) && reach(s) && Running(s) && s.memory.value.imm.None? && s.memory.value.writing.None? && s.memory.value.job.Idle?
    requires s.memory.value.mem == es && es != [] && s.memory.value.version == v && f == OutputFile(s.memory.value.nextFile + 1, size, es)
    requires LevelAllowed(v, level, f) && v[level] == [] && v' == v[level := [f]] && forall l :: 0 <= l < NUM_LEVELS ==> SortedBySmallest(v[l])
    ensures reach(s') && Rests(s', v', s.memory.value.lastSequence, s.memory.value.nextFile + 2, s.memory.value.snapshots)
  {
    var m, d := s.memory.value, s.disk;
    var m1 := m.(imm := Some(es), mem := [], logFile := m.nextFile, nextFile := m.nextFile + 1, synced := 0, immSynced := m.synced);
    var s1 := State(d.(logs := d.logs[m.nextFile := []]), Some(m1), s.t.(immLog := m.logFile));
    StepReaches(reach, s, Foreground(DoSwitchMem), s1);
    var job := Flushing(Some(f));
    var m2 := m1.(job := job, nextFile := m.nextFile + 2);
    var s2 := State(s1.disk.(tables := AddTables(s1.disk.tables, [f])), Some(m2), s1.t);
    assert JobTables(job) == [f];
    StepReaches(reach, s1, Background(DoBuildFlush(size)), s2);
    var edit := FlushEdit(m2, level);
    FileApplied(v, level, f, edit, v');
    var s3 := State(s2.disk.(manifest := s2.disk.manifest + [edit]), Some(m2.(job := Installing(v', edit.logNumber.value, true))),
                    s2.t.(flushed := s2.t.flushed + ImmSet(m2), committed := v'));
    StepReaches(reach, s2, Background(DoCommitFlush(level, v')), s3);
    var m3 := s3.memory.value;
    s' := s3.(memory := Some(m3.(version := v', logNumber := m3.job.logNumber, imm := None, job := Idle)),
              t := s3.t.(below := s3.t.flushed));
    StepReaches(reach, s3, Background(DoInstall), s');
  }

  lemma SingleInsert(e: Entry)
    ensures InsertAll([], [e]) == [e]
  {
    assert [e][..0] == [];
    assert InsertAll([], []) == [];
    assert Insert([], e) == [e];
  }

  /** Both operations of the second write: the keys come in order. */
  lemma PairInsert(a: Entry, b: Entry)
    requires Before(a.key, b.key)
    ensures InsertAll([], [a, b]) == [a, b]
  {
    SingleInsert(a);
    assert [a, b][..1] == [a];
    assert SeekIndex([a], b.key) == 1;
  }

  // ---------------------------------------------------------------- the run

  lemma NewIsReady()
    ensures OpenReady(Empty.disk, NO_FILES, [], 3, 4, 0, NO_FILES)
  {
    EmptyManifest();
    EmptyLogs(0);
    var edit := OpenEdit([], 3, 4, 0);
    assert Applied(NO_FILES, edit, NO_FILES) by {
      forall l | 0 <= l < NUM_LEVELS ensures SetsOf(NO_FILES)[l] == NextLevel(SetsOf(NO_FILES)[l], edit, l) {}
    }
    assert FilesContents([]) == {};
  }

  lemma OpenReaches(reach: State -> bool) returns (s: State)
    requires Closed(reach)
    ensures reach(s) && Rests(s, NO_FILES, 0, 4, [])
  {
    NewIsReady();
    s := State(OpenedDisk(Empty.disk, NO_FILES, [], 3, 4, 0), Some(OpenedMemory(3, 4, 0, NO_FILES)), Trace({}, {}, {}, 0, NO_FILES, 0));
    StepReaches(reach, Empty, Restart(DoOpen(NO_FILES, [], 3, 4, 0, NO_FILES)), s);
  }

  lemma FirstFlush(reach: State -> bool, s: State) returns (s': State)
    requires Closed(reach) && reach(s) && Rests(s, NO_FILES, 0, 4, [])
    ensures reach(s') && Rests(s', AfterFirst, 1, 6, [])
  {
    var ops := [Put(TWO, [7])];
    assert BatchEntries(Batch(1, ops)) == [Deleted];
    SingleInsert(Deleted);
    var s1 := WriteReaches(reach, s, ops, [Deleted], NO_FILES, 0, 4, []);
    assert AfterFirst == NO_FILES[2 := [First]];
    s' := FlushReaches(reach, s1, [Deleted], LARGE, 2, First, NO_FILES, AfterFirst);
  }

  lemma Snapshot(reach: State -> bool, s: State) returns (s': State)
    requires Closed(reach) && reach(s) && Rests(s, AfterFirst, 1, 6, [])
    ensures reach(s') && Rests(s', AfterFirst, 1, 6, [1])
  {
    s' := s.(memory := Some(s.memory.value.(snapshots := s.memory.value.snapshots + [s.memory.value.lastSequence])));
    StepReaches(reach, s, Foreground(DoTakeSnapshot), s');
  }

  lemma SecondFlush(reach: State -> bool, s: State) returns (s': State)
    requires Closed(reach) && reach(s) && Rests(s, AfterFirst, 1, 6, [1])
    ensures reach(s') && Rests(s', AfterSecond, 3, 8, [1])
  {
    var ops := [Put(ONE, [0]), Delete(TWO)];
    assert BatchEntries(Batch(2, ops)) == [OldOne, Tombstone];
    KeysInOrder();
    PairInsert(OldOne, Tombstone);
    var s1 := WriteReaches(reach, s, ops, [OldOne, Tombstone], AfterFirst, 1, 6, [1]);
    assert AfterSecond == AfterFirst[1 := [Second]];
    s' := FlushReaches(reach, s1, [OldOne, Tombstone], LARGE, 1, Second, AfterFirst, AfterSecond);
  }

  lemma MergeKeepsAll()
    ensures Inputs([Second], [First]) == {OldOne, Tombstone, Deleted}
    ensures FilesContents([Chosen, LeftBehind]) == Kept(Inputs([Second], [First]), BaseOf(AfterSecond, 1), 1)
    ensures Rest(AfterSecond, 1, [Second], [First]) == {}
  {
    KeysInOrder();
    assert FilesContents([Second]) == {OldOne, Tombstone} by {
      assert Second in [Second] && OldOne in Second.entries && Tombstone in Second.entries;
    }
    assert FilesContents([First]) == {Deleted} by {
      assert First in [First] && Deleted in First.entries;
    }
    assert FilesContents([Chosen, LeftBehind]) == {OldOne, Tombstone, Deleted} by {
      assert Chosen in [Chosen, LeftBehind] && LeftBehind in [Chosen, LeftBehind];
      assert OldOne in Chosen.entries && Tombstone in Chosen.entries && Deleted in LeftBehind.entries;
    }
  }

  lemma MergeIsClosed()
    ensures SelectionClosed(1, AfterSecond[1], AfterSecond[2], [Second], [First])
  {
    KeysInOrder();
    assert SliceAt(AfterSecond[1], [Second], 0, 1) && CleanCut(AfterSecond[1], 1);
    assert Unchosen(AfterSecond[1], [Second]) == {};
    assert Spans([Second], ONE, TWO) by {
      assert Second in [Second];
    }
    assert [First][..0] == [];
    assert Overlapping([First], Range(Some(ONE), Some(TWO))) == [First];
  }

  lemma MergeIsReady()
    ensures CompactionReady(AfterSecond, 1, [Second], [First], [Chosen, LeftBehind], 1)
  {
    KeysInOrder();
    MergeKeepsAll();
    MergeIsClosed();
    FilesAreOk();
    forall t | t in Inputs([Second], [First]) ensures !ExposedBy({}, Inputs([Second], [First]), BaseOf(AfterSecond, 1), 1, t) {
      ReadsDetermine({}, t.key.user, t.key.sequence, None);
    }
  }

  lemma MergeApplied(m: Memory)
    ensures Applied(AfterSecond, CompactionEdit(m, 1, [Second], [First], [Chosen, LeftBehind]), AfterMerge)
  {
    var edit := CompactionEdit(m, 1, [Second], [First], [Chosen, LeftBehind]);
    assert (1, 7) in edit.deleted by { assert Second in [Second]; }
    assert (2, 5) in edit.deleted by { assert First in [First]; }
    forall l | 0 <= l < NUM_LEVELS ensures SetsOf(AfterMerge)[l] == NextLevel(SetsOf(AfterSecond)[l], edit, l) {
      assert edit.added == [(2, Chosen), (2, LeftBehind)];
      assert edit.added[0].1 == Chosen && edit.added[1].1 == LeftBehind;
      assert AddedTo(edit, l) == if l == 2 then {Chosen, LeftBehind} else {};
    }
  }

  lemma Merge(reach: State -> bool, s: State) returns (s': State)
    requires Closed(reach) && reach(s) && Rests(s, AfterSecond, 3, 8, [1])
    ensures reach(s') && Rests(s', AfterMerge, 3, 10, [1])
  {
    var m, outs := s.memory.value, [Chosen, LeftBehind];
    var job := Compacting(1, [Second], [First], outs, 1);
    MergeIsReady();
    assert OldestSnapshot(m) == 1 && JobTables(job) == outs;
    var m1 := m.(job := job, nextFile := 10);
    var s1 := State(s.disk.(tables := AddTables(s.disk.tables, outs)), Some(m1), s.t);
    StepReaches(reach, s, Background(DoBuildOutputs(1, [Second], [First], outs, 10)), s1);
    var edit := CompactionEdit(m1, 1, [Second], [First], outs);
    MergeApplied(m1);
    var s2 := State(s1.disk.(manifest := s1.disk.manifest + [edit]), Some(m1.(job := Installing(AfterMerge, edit.logNumber.value, false))),
                    s1.t.(low := if s1.t.low < 1 then 1 else s1.t.low, committed := AfterMerge));
    StepReaches(reach, s1, Background(DoCommitCompaction(AfterMerge)), s2);
    var m2 := s2.memory.value;
    s' := s2.(memory := Some(m2.(version := AfterMerge, logNumber := m2.job.logNumber, job := Idle)), t := s2.t.(below := s2.t.flushed));
    StepReaches(reach, s2, Background(DoInstall), s');
  }

  lemma Release(reach: State -> bool, s: State) returns (s': State)
    requires Closed(reach) && reach(s) && Rests(s, AfterMerge, 3, 10, [1])
    ensures reach(s') && Rests(s', AfterMerge, 3, 10, [])
  {
    s' := s.(memory := Some(s.memory.value.(snapshots := [])));
    assert [1][..0] + [1][1..] == [];
    StepReaches(reach, s, Foreground(DoReleaseSnapshot(0)), s');
  }

  lemma ThirdFlush(reach: State -> bool, s: State) returns (s': State)
    requires Closed(reach) && reach(s) && Rests(s, AfterMerge, 3, 10, [])
    ensures reach(s') && Rests(s', Start, 4, 12, [])
  {
    var ops := [Put(ONE, [1])];
    assert BatchEntries(Batch(4, ops)) == [NewOne];
    SingleInsert(NewOne);
    var s1 := WriteReaches(reach, s, ops, [NewOne], AfterMerge, 3, 10, []);
    KeysInOrder();
    assert Start == AfterMerge[1 := [Upper]];
    s' := FlushReaches(reach, s1, [NewOne], SMALL, 1, Upper, AfterMerge, Start);
  }

  lemma Journey(reach: State -> bool) returns (s: State)
    requires Closed(reach)
    ensures reach(s) && Rests(s, Start, 4, 12, [])
  {
    s := OpenReaches(reach);
    s := FirstFlush(reach, s);
    s := Snapshot(reach, s);
    s := SecondFlush(reach, s);
    s := Merge(reach, s);
    s := Release(reach, s);
    s := ThirdFlush(reach, s);
  }

  lemma EndOfJourney(m: Memory)
    requires m.mem == [] && m.imm.None? && m.version == Start && m.lastSequence == 4 && m.snapshots == []
    ensures OldestSnapshot(m) == 4 && View(m) == Contents(Start)
  {
    assert MemSet(m) == {} && ImmSet(m) == {};
  }

  lemma JourneyEnds() returns (s: State)
    ensures Reachable(s) && Rests(s, Start, 4, 12, [])
  {
    ReachableIsClosed();
    s := Journey(s => Reachable(s));
  }

  /** A run reaches a state with no snapshot held from which one more compaction, chosen and carried out by the source's rules, makes a
      deleted key readable again. */
  lemma RunToResurrection() returns (s: State)
    ensures Reachable(s) && Rests(s, Start, 4, 12, [])
    ensures Compacted(Start, End, 1, [Upper], [Chosen], [Output], OldestSnapshot(s.memory.value))
    ensures ReadAt(View(s.memory.value), TWO, 4) == NotFound && ReadAt(Contents(End), TWO, 4) == Found([7])
  {
    s := JourneyEnds();
    EndOfJourney(s.memory.value);
    DeletedKeyReturns();
  }
}
