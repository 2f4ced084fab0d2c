/** Whole runs of the store: what holds after any sequence of steps, crashes and recoveries included. */
module StoreRuns {
  import opened InternalKeys
  import opened Versions
  import opened VersionEdits
  import opened Disk
  import opened Store
  import opened StoreSteps
  import opened StoreBackground
  import opened StoreRecovery

  // ---------------------------------------------------------------- steps and runs

  datatype ForegroundStep =
    | DoLogWrite(ops: seq<Op>)
    | DoApplyWrite
    | DoFailWrite(count: nat)
    | DoSyncLog
    | DoSwitchMem
    | DoTakeSnapshot
    | DoReleaseSnapshot(index: nat)
    | DoPin
    | DoUnpin(index: nat)

  datatype BackgroundStep =
    | DoBuildFlush(size: nat)
    | DoCommitFlush(level: nat, version: Version)
    | DoBuildOutputs(level: nat, in0: seq<FileMeta>, in1: seq<FileMeta>, outs: seq<FileMeta>, next: nat)
    | DoCommitCompaction(version: Version)
    | DoCommitMove(level: nat, file: FileMeta, version: Version)
    | DoInstall
    | DoDeleteTable(number: nat)
    | DoDeleteLog(number: nat)

  datatype RestartStep =
    | DoCrash(kept: map<nat, nat>)
    | DoOrphanTable(number: nat, entries: seq<Entry>)
    | DoOrphanLog(number: nat)
    | DoOpen(found: Version, files: seq<FileMeta>, newLog: nat, next: nat, last: nat, version: Version)

  datatype Step = Foreground(f: ForegroundStep) | Background(b: BackgroundStep) | Restart(r: RestartStep)

  ghost predicate NextForeground(s: State, step: ForegroundStep, s': State) {
    match step
    case DoLogWrite(ops) => LogWrite(s, s', ops)
    case DoApplyWrite => ApplyWrite(s, s')
    case DoFailWrite(count) => FailWrite(s, s', count)
    case DoSyncLog => SyncLog(s, s')
    case DoSwitchMem => SwitchMem(s, s')
    case DoTakeSnapshot => TakeSnapshot(s, s')
    case DoReleaseSnapshot(i) => ReleaseSnapshot(s, s', i)
    case DoPin => Pin(s, s')
    case DoUnpin(i) => Unpin(s, s', i)
  }

  ghost predicate NextBackground(s: State, step: BackgroundStep, s': State) {
    match step
    case DoBuildFlush(size) => BuildFlush(s, s', size)
    case DoCommitFlush(level, v) => CommitFlush(s, s', level, v)
    case DoBuildOutputs(level, in0, in1, outs, next) => BuildOutputs(s, s', level, in0, in1, outs, next)
    case DoCommitCompaction(v) => CommitCompaction(s, s', v)
    case DoCommitMove(level, f, v) => CommitMove(s, s', level, f, v)
    case DoInstall => Install(s, s')
    case DoDeleteTable(n) => DeleteTable(s, s', n)
    case DoDeleteLog(n) => DeleteLog(s, s', n)
  }

  ghost predicate NextRestart(s: State, step: RestartStep, s': State) {
    match step
    case DoCrash(kept) => Crash(s, s', kept)
    case DoOrphanTable(n, es) => OrphanTable(s, s', n, es)
    case DoOrphanLog(n) => OrphanLog(s, s', n)
    case DoOpen(found, files, newLog, next, last, v) => Open(s, s', found, files, newLog, next, last, v)
  }

  ghost predicate NextState(s: State, step: Step, s': State) {
    match step
    case Foreground(f) => NextForeground(s, f, s')
    case Background(b) => NextBackground(s, b, s')
    case Restart(r) => NextRestart(s, r, s')
  }

  const NEW_DB: VersionEdit := VersionEdit(Some(0), Some(2), Some(0), {}, [])

  /** A new database: a manifest with one edit, nothing else (NewDB). */
  const Empty: State := State(Disk([NEW_DB], map[], map[]), None, Trace({}, {}, {}, 0, NO_FILES, 0))

  ghost predicate StepAt(states: seq<State>, steps: seq<Step>, i: nat) {
    i + 1 < |states| && i < |steps| && NextState(states[i], steps[i], states[i + 1])
  }

  ghost predicate IsRun(states: seq<State>, steps: seq<Step>) {
    && |states| == |steps| + 1 && states[0] == Empty
    && forall i :: 0 <= i < |steps| ==> StepAt(states, steps, i)
  }

  lemma EmptyManifest()
    ensures ManifestOk([NEW_DB], NO_FILES)
    ensures MinLog([NEW_DB]) == 0 && NextFileOf([NEW_DB]) == 2 && SequenceOf([NEW_DB]) == 0
  {
    assert [NEW_DB][..0] == [];
    assert AddedPairs([NEW_DB]) == {};
    assert Replay(SetsOf(NO_FILES), []) == SetsOf(NO_FILES);
    assert SetsOf(NO_FILES) == Next(SetsOf(NO_FILES), NEW_DB) by {
      forall l | 0 <= l < NUM_LEVELS ensures NextLevel(SetsOf(NO_FILES)[l], NEW_DB, l) == SetsOf(NO_FILES)[l] {}
    }
  }

  lemma EmptyVersion(v: Version, low: nat)
    requires forall l :: 0 <= l < NUM_LEVELS ==> v[l] == []
    ensures StandsFor(v, {}, low) && TablesPresent(map[], v)
  {
    assert Contents(v) == {};
  }

  lemma EmptyLogs(minLog: nat)
    ensures LiveLogs(map[], minLog) == {}
  {
  }

  lemma EmptyIsOk()
    ensures Inv(Empty)
  {
    EmptyManifest();
    EmptyVersion(NO_FILES, 0);
    EmptyLogs(0);
    assert HistorySplit({}, 0, {}, {}, 0);
  }

  lemma ForegroundKeepsInv(s: State, step: ForegroundStep, s': State)
    requires Inv(s) && NextForeground(s, step, s')
    ensures Inv(s')
  {
    match step
    case DoLogWrite(ops) => LogWriteKeepsInv(s, s', ops);
    case DoApplyWrite => ApplyWriteKeepsInv(s, s');
    case DoFailWrite(count) => FailWriteKeepsInv(s, s', count);
    case DoSyncLog => SyncLogKeepsInv(s, s');
    case DoSwitchMem => SwitchMemKeepsInv(s, s');
    case DoTakeSnapshot => TakeSnapshotKeepsInv(s, s');
    case DoReleaseSnapshot(i) => ReleaseSnapshotKeepsInv(s, s', i);
    case DoPin => PinStepsKeepInv(s, s', 0);
    case DoUnpin(i) => PinStepsKeepInv(s, s', i);
  }

  lemma BackgroundKeepsInv(s: State, step: BackgroundStep, s': State)
    requires Inv(s) && NextBackground(s, step, s')
    ensures Inv(s')
  {
    match step
    case DoBuildFlush(size) => BuildFlushKeepsInv(s, s', size);
    case DoCommitFlush(level, v) => CommitFlushKeepsInv(s, s', level, v);
    case DoBuildOutputs(level, in0, in1, outs, next) => BuildOutputsKeepsInv(s, s', level, in0, in1, outs, next);
    case DoCommitCompaction(v) => CommitCompactionKeepsInv(s, s', v);
    case DoCommitMove(level, f, v) => CommitMoveKeepsInv(s, s', level, f, v);
    case DoInstall => InstallKeepsInv(s, s');
    case DoDeleteTable(n) => DeleteTableKeepsInv(s, s', n);
    case DoDeleteLog(n) => DeleteLogKeepsInv(s, s', n);
  }

  lemma RestartKeepsInv(s: State, step: RestartStep, s': State)
    requires Inv(s) && NextRestart(s, step, s')
    ensures Inv(s')
  {
    match step
    case DoCrash(kept) => CrashKeepsInv(s, s', kept);
    case DoOrphanTable(n, es) => OrphanTableKeepsInv(s, s', n, es);
    case DoOrphanLog(n) => OrphanLogKeepsInv(s, s', n);
    case DoOpen(found, files, newLog, next, last, v) => OpenKeepsInv(s, s', found, files, newLog, next, last, v);
  }

  lemma StepKeepsInv(s: State, step: Step, s': State)
    requires Inv(s) && NextState(s, step, s')
    ensures Inv(s')
  {
    match step
    case Foreground(f) => ForegroundKeepsInv(s, f, s');
    case Background(b) => BackgroundKeepsInv(s, b, s');
    case Restart(r) => RestartKeepsInv(s, r, s');
  }

  /** Every state of every run keeps the invariant. */
  lemma {:induction false} RunKeepsInv(states: seq<State>, steps: seq<Step>, i: nat)
    requires IsRun(states, steps) && i < |states|
    ensures Inv(states[i])
  {
    if i == 0 {
      EmptyIsOk();
    } else {
      RunKeepsInv(states, steps, i - 1);
      assert StepAt(states, steps, i - 1);
      StepKeepsInv(states[i - 1], steps[i - 1], states[i]);
    }
  }
}
