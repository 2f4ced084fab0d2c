/** Runs that never take a snapshot need no care with compactions.

    Without snapshots a compaction keeps at most one entry of each user key, so that its outputs never split a user key. Then no level
    below level 0 ever does, and closed inputs never expose anything: the guard on compaction steps holds by itself.
 */
module SnapshotFree {
  import opened InternalKeys
  import opened History
  import opened Versions
  import opened Selection
  import opened VersionEdits
  import opened Compaction
  import opened CompactionReads
  import opened Installs
  import opened Flushes
  import opened Store
  import opened StoreBackground
  import opened StoreRecovery
  import opened StoreRuns

  // ---------------------------------------------------------------- files that share no user key

  ghost predicate ShareNoKey(f: FileMeta, g: FileMeta) {
    forall x, y :: x in f.entries && y in g.entries ==> x.key.user != y.key.user
  }

  /** No user key is split over two files. */
  ghost predicate Whole(fs: seq<FileMeta>) {
    forall f, g :: f in fs && g in fs && f != g ==> ShareNoKey(f, g)
  }

  ghost predicate WholeVersion(v: Version) {
    forall l :: 0 < l < NUM_LEVELS ==> Whole(v[l])
  }

  lemma WholeReplaced(fs: seq<FileMeta>, gone: seq<FileMeta>, added: seq<FileMeta>, fs': seq<FileMeta>)
    requires Replaced(fs, gone, added, fs') && Whole(fs) && Whole(added)
    requires forall f, g :: f in fs && f !in gone && g in added ==> ShareNoKey(f, g)
    ensures Whole(fs')
  {
    forall f, g | f in fs' && g in fs' && f != g ensures ShareNoKey(f, g) {
      if g in fs && g !in gone && f in added { assert ShareNoKey(g, f); }
    }
  }

  /** Whole files are cut between user keys. */
  lemma WholeIsCut(next: seq<FileMeta>, in1: seq<FileMeta>)
    requires FilesOk(next) && Whole(next) && forall f :: f in in1 ==> f in next
    ensures NextLevelCut(next, in1)
  {
    forall f, g | f in in1 && g in next && g !in in1 ensures f.largest.user != g.smallest.user {
      FileBounds(f);
      FileBounds(g);
      assert ShareNoKey(f, g);
    }
  }

  lemma CutExposesNothing(v: Version, level: nat, in0: seq<FileMeta>, in1: seq<FileMeta>, ss: nat)
    requires VersionOk(v) && level + 1 < NUM_LEVELS && SelectionClosed(level, v[level], v[level + 1], in0, in1)
    requires NextLevelCut(v[level + 1], in1)
    ensures NoExposure(v, level, in0, in1, ss)
  {
    SelectedAreMembers(v, level, in0, in1);
    RestAndInputs(v, level, in0, in1);
    RestIsDisjoint(v, level, in0, in1);
    var rest, inputs := Rest(v, level, in0, in1), Inputs(in0, in1);
    forall t | t in inputs ensures !ExposedBy(rest, inputs, BaseOf(v, level), ss, t) {
      if BaseLevel(v, level, t.key.user) {
        RestIsNewer(v, level, in0, in1, t);
        NotExposed(Contents(v), rest, inputs, BaseOf(v, level), ss, t);
      }
    }
  }

  lemma NotExposed(all: set<Entry>, rest: set<Entry>, inputs: set<Entry>, base: UserKey -> bool, ss: nat, t: Entry)
    requires all == rest + inputs && rest !! inputs && t in inputs && Distinct(all)
    requires forall y :: y in rest && y.key.user == t.key.user ==> t.key.sequence <= y.key.sequence
    ensures !ExposedBy(rest, inputs, base, ss, t)
  {
    assert {} + all == all && {} + rest == rest;
    NothingBelow({}, all, rest, inputs, t);
  }

  // ---------------------------------------------------------------- what compactions write

  /** Above every sequence number, the rules keep one entry of each user key. */
  lemma KeptIsSingle(inputs: set<Entry>, base: UserKey -> bool, ss: nat, x: Entry, y: Entry)
    requires x in Kept(inputs, base, ss) && y in Kept(inputs, base, ss) && x.key.user == y.key.user
    requires forall e :: e in inputs ==> e.key.sequence <= ss
    ensures x.key.sequence == y.key.sequence
  {
    assert !Hidden(inputs, ss, x) && !Hidden(inputs, ss, y);
  }

  lemma OutputsAreWhole(inputs: set<Entry>, base: UserKey -> bool, ss: nat, outs: seq<FileMeta>)
    requires FilesOk(outs) && DisjointSorted(outs) && FilesContents(outs) == Kept(inputs, base, ss)
    requires Distinct(inputs) && forall e :: e in inputs ==> e.key.sequence <= ss
    ensures Whole(outs)
  {
    MembersFromPositions(outs);
    FilesAreRanged(outs);
    forall f, g | f in outs && g in outs && f != g ensures ShareNoKey(f, g) {
      assert Apart(f, g);
      forall x, y | x in f.entries && y in g.entries ensures x.key.user != y.key.user {
        assert x in FilesContents(outs) && y in FilesContents(outs);
        FileInRange(f, x);
        FileInRange(g, y);
        assert x != y;
        if x.key.user == y.key.user { KeptIsSingle(inputs, base, ss, x, y); }
      }
    }
  }

  // ---------------------------------------------------------------- versions stay whole

  lemma FlushKeepsWhole(v: Version, table: Option<FileMeta>, level: nat, edit: VersionEdit, v': Version)
    requires VersionOk(v) && WholeVersion(v) && Applied(v, edit, v') && edit.deleted == {}
    requires table.None? ==> edit.added == []
    requires table.Some? ==> FileOk(table.value) && LevelAllowed(v, level, table.value) && edit.added == [(level, table.value)]
    ensures WholeVersion(v')
  {
    forall l | 0 < l < NUM_LEVELS ensures Whole(v'[l]) {
      assert ShapeOk(l, v[l]);
      if table.Some? && l == level {
        AppliedIsReplaced(v, edit, v', l, [], [table.value]);
        NoOverlapNoSharedKey(v[l], table.value);
        forall f | f in v[l] ensures ShareNoKey(f, table.value) {
          assert forall x :: x in f.entries ==> x in FilesContents(v[l]);
        }
        WholeReplaced(v[l], [], [table.value], v'[l]);
      } else {
        AppliedIsReplaced(v, edit, v', l, [], []);
        WholeReplaced(v[l], [], [], v'[l]);
      }
    }
  }

  /** A file left behind shares no user key with the outputs. */
  lemma LeftBehindIsAside(v: Version, level: nat, in0: seq<FileMeta>, in1: seq<FileMeta>, outs: seq<FileMeta>, f: FileMeta, g: FileMeta)
    requires VersionOk(v) && level + 1 < NUM_LEVELS && SelectionClosed(level, v[level], v[level + 1], in0, in1) && Whole(v[level + 1])
    requires FilesContents(outs) <= Inputs(in0, in1) && f in v[level + 1] && f !in in1 && g in outs
    ensures ShareNoKey(f, g)
  {
    SelectedAreMembers(v, level, in0, in1);
    assert ShapeOk(level + 1, v[level + 1]);
    assert forall h :: h in in1 ==> ShareNoKey(f, h);
    forall x, y | x in f.entries && y in g.entries ensures x.key.user != y.key.user {
      assert y in FilesContents(outs);
      if x.key.user == y.key.user { NotInRange(v[level + 1], in0, in1, f, x, y); }
    }
  }

  lemma CompactionKeepsWhole(v: Version, v': Version, level: nat, in0: seq<FileMeta>, in1: seq<FileMeta>, outs: seq<FileMeta>)
    requires VersionOk(v) && WholeVersion(v) && level + 1 < NUM_LEVELS && SelectionClosed(level, v[level], v[level + 1], in0, in1)
    requires CompactionInstalled(v, v', level, in0, in1, outs) && Whole(outs) && FilesContents(outs) <= Inputs(in0, in1)
    ensures WholeVersion(v')
  {
    forall l | 0 < l < NUM_LEVELS ensures Whole(v'[l]) {
      if l == level {
        WholeReplaced(v[l], in0, [], v'[l]);
      } else if l == level + 1 {
        forall f, g | f in v[l] && f !in in1 && g in outs ensures ShareNoKey(f, g) { LeftBehindIsAside(v, level, in0, in1, outs, f, g); }
        WholeReplaced(v[l], in1, outs, v'[l]);
      } else {
        assert v'[l] == v[l];
      }
    }
  }

  // ---------------------------------------------------------------- steps without the guard

  /** Everything that a compaction's inputs and outputs must satisfy, apart from the guard. */
  ghost predicate ClosedCompaction(v: Version, level: nat, in0: seq<FileMeta>, in1: seq<FileMeta>, outs: seq<FileMeta>, ss: nat) {
    && level + 1 < NUM_LEVELS
    && SelectionClosed(level, v[level], v[level + 1], in0, in1)
    && FilesOk(outs) && DisjointSorted(outs) && UniqueNumbers(outs)
    && FilesContents(outs) == Kept(Inputs(in0, in1), BaseOf(v, level), ss)
  }

  ghost predicate BuildAny(s: State, s': State, level: nat, in0: seq<FileMeta>, in1: seq<FileMeta>, outs: seq<FileMeta>, next: nat) {
    && s.memory.Some?
    && var m := s.memory.value;
       && ClosedCompaction(m.version, level, in0, in1, outs, OldestSnapshot(m))
       && StartJob(s, s', Compacting(level, in0, in1, outs, OldestSnapshot(m)), next)
  }

  /** A step of the store as the code takes it. */
  ghost predicate NextAny(s: State, step: Step, s': State) {
    match step
    case Background(DoBuildOutputs(level, in0, in1, outs, next)) => BuildAny(s, s', level, in0, in1, outs, next)
    case _ => NextState(s, step, s')
  }

  ghost predicate AnyStepAt(states: seq<State>, steps: seq<Step>, i: nat) {
    i + 1 < |states| && i < |steps| && NextAny(states[i], steps[i], states[i + 1])
  }

  ghost predicate IsAnyRun(states: seq<State>, steps: seq<Step>) {
    && |states| == |steps| + 1 && states[0] == Empty
    && forall i :: 0 <= i < |steps| ==> AnyStepAt(states, steps, i)
  }

  predicate TakesSnapshot(step: Step) { step.Foreground? && step.f.DoTakeSnapshot? }

  // ---------------------------------------------------------------- the invariant

  ghost predicate WholeMemory(m: Memory) {
    m.snapshots == [] && WholeVersion(m.version) && (m.job.Compacting? ==> Whole(m.job.outs))
  }

  ghost predicate WholeState(s: State) {
    WholeVersion(s.t.committed) && (s.memory.Some? ==> WholeMemory(s.memory.value))
  }

  lemma InputsAreBelow(s: State, level: nat, in0: seq<FileMeta>, in1: seq<FileMeta>)
    requires Inv(s) && s.memory.Some? && level + 1 < NUM_LEVELS
    requires SelectionClosed(level, s.memory.value.version[level], s.memory.value.version[level + 1], in0, in1)
    ensures Distinct(Inputs(in0, in1)) && forall e :: e in Inputs(in0, in1) ==> e.key.sequence <= s.memory.value.lastSequence
  {
    var m := s.memory.value;
    SelectedAreMembers(m.version, level, in0, in1);
    RestAndInputs(m.version, level, in0, in1);
    VersionIsOld(s);
  }

  lemma VersionIsOld(s: State)
    requires Inv(s) && s.memory.Some?
    ensures VersionOk(s.memory.value.version)
    ensures forall e :: e in Contents(s.memory.value.version) ==> e.key.sequence <= s.memory.value.lastSequence
  {
  }

  /** Without snapshots every closed compaction meets the guard, and its outputs are whole. */
  lemma AnyBuildIsGuarded(s: State, s': State, level: nat, in0: seq<FileMeta>, in1: seq<FileMeta>, outs: seq<FileMeta>, next: nat)
    requires Inv(s) && WholeState(s) && BuildAny(s, s', level, in0, in1, outs, next)
    ensures BuildOutputs(s, s', level, in0, in1, outs, next) && Whole(outs)
  {
    var m := s.memory.value;
    VersionIsOld(s);
    InputsAreBelow(s, level, in0, in1);
    SelectedAreMembers(m.version, level, in0, in1);
    assert ShapeOk(level + 1, m.version[level + 1]);
    WholeIsCut(m.version[level + 1], in1);
    CutExposesNothing(m.version, level, in0, in1, OldestSnapshot(m));
    OutputsAreWhole(Inputs(in0, in1), BaseOf(m.version, level), OldestSnapshot(m), outs);
  }

  lemma AnyStepIsGuarded(s: State, step: Step, s': State)
    requires Inv(s) && WholeState(s) && NextAny(s, step, s')
    ensures NextState(s, step, s')
  {
    if step.Background? && step.b.DoBuildOutputs? {
      AnyBuildIsGuarded(s, s', step.b.level, step.b.in0, step.b.in1, step.b.outs, step.b.next);
    }
  }

  lemma CommitFlushKeepsWhole(s: State, s': State, level: nat, v': Version)
    requires Inv(s) && WholeState(s) && CommitFlush(s, s', level, v')
    ensures WholeState(s')
  {
    var m := s.memory.value;
    VersionIsOld(s);
    assert FlushReady(m.job.table, m.imm);
    FlushKeepsWhole(m.version, m.job.table, level, FlushEdit(m, level), v');
  }

  lemma CommitCompactionKeepsWhole(s: State, s': State, v': Version)
    requires Inv(s) && WholeState(s) && CommitCompaction(s, s', v')
    ensures WholeState(s')
  {
    var m := s.memory.value;
    VersionIsOld(s);
    VersionNumbers(s);
    CompactingFacts(s);
    JobKeepsWhole(m.version, m, v');
  }

  lemma JobKeepsWhole(v: Version, m: Memory, v': Version)
    requires VersionOk(v) && WholeVersion(v) && NumbersUnique(v) && m.job.Compacting? && Whole(m.job.outs)
    requires JobOk(m.job, v, m.imm, m.snapshots, m.lastSequence)
    requires Applied(v, CompactionEdit(m, m.job.level, m.job.in0, m.job.in1, m.job.outs), v')
    ensures WholeVersion(v')
  {
    CompactionInstalls(v, m, v');
    KeptIsPart(v, m);
    JobIsClosed(v, m);
    OutcomeKeepsWhole(v, m, v');
  }

  lemma JobIsClosed(v: Version, m: Memory)
    requires m.job.Compacting? && JobOk(m.job, v, m.imm, m.snapshots, m.lastSequence)
    ensures m.job.level + 1 < NUM_LEVELS && SelectionClosed(m.job.level, v[m.job.level], v[m.job.level + 1], m.job.in0, m.job.in1)
  {
  }

  lemma OutcomeKeepsWhole(v: Version, m: Memory, v': Version)
    requires VersionOk(v) && WholeVersion(v) && Outcome(v, m, v') && Whole(m.job.outs)
    requires SelectionClosed(m.job.level, v[m.job.level], v[m.job.level + 1], m.job.in0, m.job.in1)
    requires FilesContents(m.job.outs) <= Inputs(m.job.in0, m.job.in1)
    ensures WholeVersion(v')
  {
    CompactionKeepsWhole(v, v', m.job.level, m.job.in0, m.job.in1, m.job.outs);
  }

  lemma CommitMoveKeepsWhole(s: State, s': State, level: nat, f: FileMeta, v': Version)
    requires Inv(s) && WholeState(s) && CommitMove(s, s', level, f, v')
    ensures WholeState(s')
  {
    var m := s.memory.value;
    VersionIsOld(s);
    VersionNumbers(s);
    SelectedAreMembers(m.version, level, [f], []);
    LevelsAreSorted(m.version);
    EditInstalls(m.version, level, [f], [], [f], CompactionEdit(m, level, [f], [], [f]), v');
    CompactionKeepsWhole(m.version, v', level, [f], [], [f]);
  }

  lemma InstallKeepsWhole(s: State, s': State)
    requires Inv(s) && WholeState(s) && Install(s, s')
    ensures WholeState(s')
  {
  }

  lemma BackgroundKeepsWhole(s: State, b: BackgroundStep, s': State)
    requires Inv(s) && WholeState(s) && NextBackground(s, b, s')
    ensures WholeState(s')
  {
    match b
    case DoCommitFlush(level, v) => CommitFlushKeepsWhole(s, s', level, v);
    case DoBuildOutputs(level, in0, in1, outs, next) => AnyBuildIsGuarded(s, s', level, in0, in1, outs, next);
    case DoCommitCompaction(v) => CommitCompactionKeepsWhole(s, s', v);
    case DoCommitMove(level, f, v) => CommitMoveKeepsWhole(s, s', level, f, v);
    case DoInstall => InstallKeepsWhole(s, s');
    case _ =>
  }

  lemma OpenKeepsWhole(s: State, s': State, r: RestartStep)
    requires Inv(s) && WholeState(s) && r.DoOpen? && NextRestart(s, r, s')
    ensures WholeState(s')
  {
    RecoversCommitted(s, r.found);
    LevelsAreSorted(s.t.committed);
    OpenedLevels(r.found, r.files, OpenEdit(r.files, r.newLog, r.next, r.last), r.version);
  }

  lemma StepKeepsWhole(s: State, step: Step, s': State)
    requires Inv(s) && WholeState(s) && NextState(s, step, s') && !TakesSnapshot(step)
    ensures WholeState(s')
  {
    match step
    case Foreground(f) => ForegroundKeepsWhole(s, f, s');
    case Background(b) => BackgroundKeepsWhole(s, b, s');
    case Restart(r) => if r.DoOpen? { OpenKeepsWhole(s, s', r); } else { RestartKeepsWhole(s, r, s'); }
  }

  lemma ForegroundKeepsWhole(s: State, f: ForegroundStep, s': State)
    requires WholeState(s) && NextForeground(s, f, s') && !f.DoTakeSnapshot?
    ensures WholeState(s')
  {
  }

  lemma RestartKeepsWhole(s: State, r: RestartStep, s': State)
    requires WholeState(s) && NextRestart(s, r, s') && !r.DoOpen?
    ensures WholeState(s')
  {
  }

  lemma {:induction false} PrefixIsRun(states: seq<State>, steps: seq<Step>, n: nat)
    requires IsAnyRun(states, steps) && n <= |steps| && forall i :: 0 <= i < |steps| ==> !TakesSnapshot(steps[i])
    ensures IsRun(states[..n + 1], steps[..n]) && WholeState(states[n])
  {
    if n > 0 {
      PrefixIsRun(states, steps, n - 1);
      var before, after := states[..n], states[..n + 1];
      RunKeepsInv(before, steps[..n - 1], n - 1);
      assert AnyStepAt(states, steps, n - 1);
      AnyStepIsGuarded(states[n - 1], steps[n - 1], states[n]);
      StepKeepsWhole(states[n - 1], steps[n - 1], states[n]);
      forall i | 0 <= i < n ensures StepAt(after, steps[..n], i) {
        assert i < n - 1 ==> StepAt(before, steps[..n - 1], i);
      }
    }
  }

  /** Every run of the code's own steps in which no snapshot is taken is a run of guarded steps: reads, durability and recovery are as
      the run guarantees say, with no condition on compactions. */
  lemma SnapshotFreeRun(states: seq<State>, steps: seq<Step>)
    requires IsAnyRun(states, steps) && forall i :: 0 <= i < |steps| ==> !TakesSnapshot(steps[i])
    ensures IsRun(states, steps)
  {
    PrefixIsRun(states, steps, |steps|);
    assert states[..|steps| + 1] == states && steps[..|steps|] == steps;
  }

  /** Reads in such a run, for instance. */
  lemma SnapshotFreeReads(states: seq<State>, steps: seq<Step>, i: nat, u: UserKey)
    requires IsAnyRun(states, steps) && (forall i :: 0 <= i < |steps| ==> !TakesSnapshot(steps[i])) && i < |states| && states[i].memory.Some?
    ensures var m := states[i].memory.value; ReadAt(View(m), u, m.lastSequence) == ReadAt(states[i].t.history, u, m.lastSequence)
  {
    SnapshotFreeRun(states, steps);
    RunKeepsInv(states, steps, i);
    ReadsMatchHistory(states[i], u, states[i].memory.value.lastSequence);
  }
}
