/** What the store promises its users, over every run: reads, repeatable snapshots, durability and recovery. */
module Guarantees {
  import opened InternalKeys
  import opened History
  import opened Versions
  import opened VersionEdits
  import opened Disk
  import opened MemTables
  import opened Store
  import opened StoreSteps
  import opened StoreBackground
  import opened StoreRecovery
  import opened StoreRuns

  // ---------------------------------------------------------------- reads

  predicate LiveSnapshot(m: Memory, snapshot: nat) {
    snapshot == m.lastSequence || snapshot in m.snapshots
  }

  /** After any run, a read at any live snapshot answers as the whole history does. */
  lemma ReadsAreCorrect(states: seq<State>, steps: seq<Step>, i: nat, u: UserKey, snapshot: nat)
    requires IsRun(states, steps) && i < |states| && states[i].memory.Some? && LiveSnapshot(states[i].memory.value, snapshot)
    ensures ReadAt(View(states[i].memory.value), u, snapshot) == ReadAt(states[i].t.history, u, snapshot)
  {
    RunKeepsInv(states, steps, i);
    LiveIsInRange(states[i], snapshot);
    ReadsMatchHistory(states[i], u, snapshot);
  }

  lemma LiveIsInRange(s: State, snapshot: nat)
    requires Inv(s) && s.memory.Some? && LiveSnapshot(s.memory.value, snapshot)
    ensures s.t.low <= snapshot <= s.memory.value.lastSequence
  {
  }

  lemma LayersForGet(s: State)
    requires Inv(s) && s.memory.Some?
    ensures var m := s.memory.value;
            && Sorted(m.mem) && (m.imm.Some? ==> Sorted(m.imm.value)) && VersionOk(m.version)
            && NewerThan(MemSet(m), ImmSet(m)) && NewerThan(ImmSet(m), Contents(m.version)) && NewerThan(MemSet(m), Contents(m.version))
            && Distinct(View(m))
  {
    var m := s.memory.value;
    LayerOrder(s.t.history, s.t.below, ImmSet(m), MemSet(m), WritingSet(m), m.lastSequence, Contents(m.version));
  }

  /** The layered read path returns the history's answer (DBImpl::Get). */
  method Read(s: State, u: UserKey, snapshot: nat) returns (answer: Answer)
    requires Inv(s) && s.memory.Some? && LiveSnapshot(s.memory.value, snapshot)
    ensures answer == ReadAt(s.t.history, u, snapshot)
  {
    var m := s.memory.value;
    LayersForGet(s);
    LiveIsInRange(s, snapshot);
    ReadsMatchHistory(s, u, snapshot);
    answer := Get(m.mem, m.imm, m.version, u, snapshot);
  }

  // ---------------------------------------------------------------- what steps do to the history

  /** What a crash may lose: the records of the live logs that were not synced. */
  ghost function Tail(s: State): set<Entry> {
    if s.memory.Some? then Lost(s.disk.logs, MinLog(s.disk.manifest), Synced(s)) else {}
  }

  /** Entries that no crash can lose. */
  ghost function Durable(s: State): set<Entry> {
    s.t.history - Tail(s)
  }

  ghost function Added(s: State, step: Step): set<Entry> {
    match step
    case Foreground(DoLogWrite(ops)) =>
      if s.memory.Some? then Elements(BatchEntries(Batch(s.memory.value.lastSequence + 1, ops))) else {}
    case _ => {}
  }

  lemma ForegroundHistory(s: State, f: ForegroundStep, s': State)
    requires NextForeground(s, f, s')
    ensures s.memory.Some? && s'.memory.Some? && s.memory.value.lastSequence <= s'.memory.value.lastSequence
    ensures s'.t.history == s.t.history + Added(s, Foreground(f))
    ensures forall e :: e in Added(s, Foreground(f)) ==> s.memory.value.lastSequence < e.key.sequence
  {
    if f.DoLogWrite? { BatchRange(Batch(s.memory.value.lastSequence + 1, f.ops)); }
  }

  /** Background work leaves the history, the last sequence and the live logs alone, and only ever gives logs up. */
  lemma BackgroundFrame(s: State, b: BackgroundStep, s': State)
    requires Inv(s) && NextBackground(s, b, s')
    ensures s.memory.Some? && s'.memory.Some? && s'.t.history == s.t.history && s'.t.immLog == s.t.immLog
    ensures s'.memory.value.lastSequence == s.memory.value.lastSequence && s'.memory.value.logFile == s.memory.value.logFile
    ensures s'.memory.value.synced == s.memory.value.synced && s'.memory.value.immSynced == s.memory.value.immSynced
    ensures s'.disk.logs == s.disk.logs || (b.DoDeleteLog? && s'.disk.logs == s.disk.logs - {b.number})
    ensures MinLog(s.disk.manifest) <= MinLog(s'.disk.manifest)
  {
    var m := s.memory.value;
    match b
    case DoCommitFlush(level, v) => ManifestReads(s.disk.manifest, FlushEdit(m, level));
    case DoCommitCompaction(v) => ManifestReads(s.disk.manifest, CompactionEdit(m, m.job.level, m.job.in0, m.job.in1, m.job.outs));
    case DoCommitMove(level, f, v) => ManifestReads(s.disk.manifest, CompactionEdit(m, level, [f], [], [f]));
    case _ =>
  }

  lemma RestartHistory(s: State, r: RestartStep, s': State)
    requires Inv(s) && NextRestart(s, r, s')
    ensures s'.t.history <= s.t.history <= s'.t.history + Tail(s)
  {
    if r.DoCrash? { CrashLosesTail(s, s', r.kept); }
  }

  /** Only a logged batch adds to the history, under sequence numbers never published before; only a crash takes from it,
      and only what was not synced. */
  lemma HistoryChanges(s: State, step: Step, s': State)
    requires Inv(s) && NextState(s, step, s')
    ensures s'.t.history <= s.t.history + Added(s, step) <= s'.t.history + Tail(s)
    ensures !step.Restart? ==> s'.t.history == s.t.history + Added(s, step)
    ensures s.memory.Some? ==> forall e :: e in Added(s, step) ==> s.memory.value.lastSequence < e.key.sequence
  {
    match step
    case Foreground(f) => ForegroundHistory(s, f, s');
    case Background(b) => BackgroundFrame(s, b, s');
    case Restart(r) => RestartHistory(s, r, s');
  }

  lemma CrashLosesTail(s: State, s': State, kept: map<nat, nat>)
    requires Inv(s) && Crash(s, s', kept)
    ensures s'.t.history <= s.t.history <= s'.t.history + Tail(s)
  {
    TornContents(s.disk.logs, MinLog(s.disk.manifest), kept);
    LostIsUnsynced(s.disk.logs, MinLog(s.disk.manifest), Synced(s), kept);
  }

  lemma LostIsUnsynced(logs: map<nat, seq<Batch>>, minLog: nat, synced: map<nat, nat>, kept: map<nat, nat>)
    requires forall n :: n in logs ==> Surviving(synced, n, |logs[n]|) <= Surviving(kept, n, |logs[n]|)
    ensures Lost(logs, minLog, kept) <= Lost(logs, minLog, synced)
  {
    forall e | e in Lost(logs, minLog, kept) ensures e in Lost(logs, minLog, synced) {
      var n :| n in logs && minLog <= n && e in LogContents(logs[n][Surviving(kept, n, |logs[n]|)..]);
      SyncedPrefix(logs[n], Surviving(synced, n, |logs[n]|), Surviving(kept, n, |logs[n]|));
      assert e in LogContents(logs[n][Surviving(synced, n, |logs[n]|)..]);
    }
  }

  lemma SyncedPrefix(log: seq<Batch>, synced: nat, keep: nat)
    requires synced <= keep <= |log|
    ensures LogContents(log[keep..]) <= LogContents(log[synced..])
  {
    assert log[synced..][keep - synced..] == log[keep..];
    PrefixContents(log[synced..], keep - synced);
  }

  /** Fewer logs, or later ones only, have less to lose. */
  lemma LostShrinks(logs: map<nat, seq<Batch>>, logs': map<nat, seq<Batch>>, minLog: nat, minLog': nat, synced: map<nat, nat>, synced': map<nat, nat>)
    requires minLog <= minLog'
    requires forall n :: n in logs' && minLog' <= n ==>
               n in logs && logs'[n] == logs[n] && Surviving(synced, n, |logs[n]|) <= Surviving(synced', n, |logs[n]|)
    ensures Lost(logs', minLog', synced') <= Lost(logs, minLog, synced)
  {
    forall e | e in Lost(logs', minLog', synced') ensures e in Lost(logs, minLog, synced) {
      var n :| n in logs' && minLog' <= n && e in LogContents(logs'[n][Surviving(synced', n, |logs'[n]|)..]);
      SyncedPrefix(logs[n], Surviving(synced, n, |logs[n]|), Surviving(synced', n, |logs[n]|));
      assert e in LogContents(logs[n][Surviving(synced, n, |logs[n]|)..]);
    }
  }

  /** Steps that write no log. */
  lemma QuietTail(s: State, s': State)
    requires s.memory.Some? && s'.memory.Some? && MinLog(s.disk.manifest) <= MinLog(s'.disk.manifest) && s'.t.immLog == s.t.immLog
    requires s'.memory.value.logFile == s.memory.value.logFile && s'.memory.value.immSynced == s.memory.value.immSynced
    requires s.memory.value.synced <= s'.memory.value.synced
    requires forall n :: n in s'.disk.logs ==> n in s.disk.logs && s'.disk.logs[n] == s.disk.logs[n]
    ensures Tail(s') <= Tail(s)
  {
    LostShrinks(s.disk.logs, s'.disk.logs, MinLog(s.disk.manifest), MinLog(s'.disk.manifest), Synced(s), Synced(s'));
  }

  lemma BackgroundTail(s: State, b: BackgroundStep, s': State)
    requires Inv(s) && NextBackground(s, b, s')
    ensures Tail(s') <= Tail(s)
  {
    BackgroundFrame(s, b, s');
    QuietTail(s, s');
  }

  /** A record more is a record more to lose. */
  lemma AppendLost(logs: map<nat, seq<Batch>>, minLog: nat, n: nat, b: Batch, synced: map<nat, nat>, synced': map<nat, nat>)
    requires n in logs && forall k :: k in logs ==> Surviving(synced, k, |logs[k]|) <= Surviving(synced', k, |logs[n := logs[n] + [b]][k]|)
    ensures Lost(logs[n := logs[n] + [b]], minLog, synced') <= Lost(logs, minLog, synced) + Elements(BatchEntries(b))
  {
    var logs' := logs[n := logs[n] + [b]];
    forall e | e in Lost(logs', minLog, synced') ensures e in Lost(logs, minLog, synced) + Elements(BatchEntries(b)) {
      var k :| k in logs' && minLog <= k && e in LogContents(logs'[k][Surviving(synced', k, |logs'[k]|)..]);
      var sure := Surviving(synced, k, |logs[k]|);
      SyncedPrefix(logs'[k], sure, Surviving(synced', k, |logs'[k]|));
      if k == n { AppendedSuffix(logs[n], sure, b); }
      assert e in LogContents(logs[k][sure..]) || e in Elements(BatchEntries(b));
    }
  }

  lemma AppendedSuffix(log: seq<Batch>, k: nat, b: Batch)
    requires k <= |log|
    ensures LogContents((log + [b])[k..]) == LogContents(log[k..]) + Elements(BatchEntries(b))
  {
    assert (log + [b])[k..] == log[k..] + [b];
    LogAppend(log[k..], b);
  }

  /** An empty log has nothing to lose. */
  lemma EmptyLogLost(logs: map<nat, seq<Batch>>, minLog: nat, n: nat, synced: map<nat, nat>, synced': map<nat, nat>)
    requires n !in logs && forall k :: k in logs && minLog <= k ==> Surviving(synced, k, |logs[k]|) <= Surviving(synced', k, |logs[k]|)
    ensures Lost(logs[n := []], minLog, synced') <= Lost(logs, minLog, synced)
  {
    var logs' := logs[n := []];
    assert LogContents([]) == {};
    forall e | e in Lost(logs', minLog, synced') ensures e in Lost(logs, minLog, synced) {
      var k :| k in logs' && minLog <= k && e in LogContents(logs'[k][Surviving(synced', k, |logs'[k]|)..]);
      SyncedPrefix(logs[k], Surviving(synced, k, |logs[k]|), Surviving(synced', k, |logs[k]|));
      assert e in LogContents(logs[k][Surviving(synced, k, |logs[k]|)..]);
    }
  }

  lemma NothingToLose(logs: map<nat, seq<Batch>>, minLog: nat, kept: map<nat, nat>)
    requires forall n :: n in logs && minLog <= n ==> logs[n] == []
    ensures Lost(logs, minLog, kept) == {}
  {
    assert LogContents([]) == {};
    assert forall n :: n in logs && minLog <= n ==> logs[n][Surviving(kept, n, |logs[n]|)..] == [];
  }

  lemma WriteTail(s: State, f: ForegroundStep, s': State)
    requires f.DoLogWrite? && LogWrite(s, s', f.ops)
    ensures Tail(s') <= Tail(s) + Added(s, Foreground(f))
  {
    var m, b := s.memory.value, Batch(s.memory.value.lastSequence + 1, f.ops);
    AppendLost(s.disk.logs, MinLog(s.disk.manifest), m.logFile, b, Synced(s), Synced(s'));
  }

  /** A switch closes the newest log as it is: what was not synced stays so. */
  lemma SwitchTail(s: State, f: ForegroundStep, s': State)
    requires f.DoSwitchMem? && Inv(s) && SwitchMem(s, s')
    ensures Tail(s') <= Tail(s) + Added(s, Foreground(f))
  {
    EmptyLogLost(s.disk.logs, MinLog(s.disk.manifest), s.memory.value.nextFile, Synced(s), Synced(s'));
  }

  lemma ForegroundTail(s: State, f: ForegroundStep, s': State)
    requires Inv(s) && NextForeground(s, f, s')
    ensures Tail(s') <= Tail(s) + Added(s, Foreground(f))
  {
    if f.DoLogWrite? {
      WriteTail(s, f, s');
    } else if f.DoSwitchMem? {
      SwitchTail(s, f, s');
    } else {
      OtherTail(s, f, s');
    }
  }

  lemma OtherTail(s: State, f: ForegroundStep, s': State)
    requires s.memory.Some? && s.memory.value.logFile in s.disk.logs && s.memory.value.synced <= |s.disk.logs[s.memory.value.logFile]|
    requires NextForeground(s, f, s') && !f.DoLogWrite? && !f.DoSwitchMem?
    ensures Tail(s') <= Tail(s) + Added(s, Foreground(f))
  {
    ForegroundFrame(s, f, s');
    QuietTail(s, s');
  }

  lemma ForegroundFrame(s: State, f: ForegroundStep, s': State)
    requires s.memory.Some? && s.memory.value.logFile in s.disk.logs && s.memory.value.synced <= |s.disk.logs[s.memory.value.logFile]|
    requires NextForeground(s, f, s') && !f.DoLogWrite? && !f.DoSwitchMem?
    ensures s.memory.Some? && s'.memory.Some? && s'.disk == s.disk && s'.t == s.t
    ensures s'.memory.value.logFile == s.memory.value.logFile && s'.memory.value.immSynced == s.memory.value.immSynced
    ensures s.memory.value.synced <= s'.memory.value.synced
  {
  }

  lemma TailChanges(s: State, step: Step, s': State)
    requires Inv(s) && NextState(s, step, s')
    ensures step.Restart? ==> Tail(s') == {}
    ensures Tail(s') <= Tail(s) + Added(s, step)
  {
    match step
    case Foreground(f) => ForegroundTail(s, f, s');
    case Background(b) => BackgroundTail(s, b, s');
    case Restart(r) => RestartTail(s, r, s');
  }

  lemma RestartTail(s: State, r: RestartStep, s': State)
    requires Inv(s) && NextRestart(s, r, s')
    ensures Tail(s') == {}
  {
    if r.DoOpen? {
      OpenKeepsLogs(s, s', r.found, r.files, r.newLog, r.next, r.last, r.version);
      NothingToLose(s'.disk.logs, r.newLog, Synced(s'));
    }
  }

  lemma AddedIsNew(s: State, step: Step, s': State)
    requires Inv(s) && NextState(s, step, s')
    ensures s.t.history !! Added(s, step)
  {
    if step.Foreground? && step.f.DoLogWrite? {
      LogWriteKeepsMemory(s, s', step.f.ops);
      ForegroundHistory(s, step.f, s');
      assert forall e :: e in s.t.history ==> e.key.sequence <= s.memory.value.lastSequence;
    }
  }

  // ---------------------------------------------------------------- durability

  lemma StepKeepsDurable(s: State, step: Step, s': State)
    requires Inv(s) && NextState(s, step, s')
    ensures Durable(s) <= Durable(s')
  {
    HistoryChanges(s, step, s');
    TailChanges(s, step, s');
    AddedIsNew(s, step, s');
  }

  lemma RunKeepsDurable(states: seq<State>, steps: seq<Step>, j: nat)
    requires IsRun(states, steps) && 0 < j < |states|
    ensures Durable(states[j - 1]) <= Durable(states[j])
  {
    RunKeepsInv(states, steps, j - 1);
    assert StepAt(states, steps, j - 1);
    StepKeepsDurable(states[j - 1], steps[j - 1], states[j]);
  }

  /** Once durable, an entry stays in the history through every later step, crash and recovery of the run. */
  lemma {:induction false} DurableForever(states: seq<State>, steps: seq<Step>, i: nat, j: nat, e: Entry)
    requires IsRun(states, steps) && i <= j < |states| && e in Durable(states[i])
    ensures e in Durable(states[j]) && e in states[j].t.history
  {
    if i < j {
      DurableForever(states, steps, i, j - 1, e);
      RunKeepsDurable(states, steps, j);
    }
  }

  /** What a sync does not reach: unsynced records of a live log before the newest. */
  ghost function OlderTail(s: State): set<Entry>
    requires s.memory.Some?
  {
    Lost(s.disk.logs - {s.memory.value.logFile}, MinLog(s.disk.manifest), Synced(s))
  }

  lemma SyncedLost(logs: map<nat, seq<Batch>>, minLog: nat, newest: nat, synced: map<nat, nat>, synced': map<nat, nat>)
    requires newest in logs && Surviving(synced', newest, |logs[newest]|) == |logs[newest]|
    requires forall n :: n in logs && n != newest ==> Surviving(synced, n, |logs[n]|) == Surviving(synced', n, |logs[n]|)
    ensures Lost(logs, minLog, synced') == Lost(logs - {newest}, minLog, synced)
  {
    var older := logs - {newest};
    assert LogContents([]) == {};
    forall e | e in Lost(logs, minLog, synced') ensures e in Lost(older, minLog, synced) {
      var n :| n in logs && minLog <= n && e in LogContents(logs[n][Surviving(synced', n, |logs[n]|)..]);
      assert n in older && e in LogContents(older[n][Surviving(synced, n, |older[n]|)..]);
    }
    forall e | e in Lost(older, minLog, synced) ensures e in Lost(logs, minLog, synced') {
      var n :| n in older && minLog <= n && e in LogContents(older[n][Surviving(synced, n, |older[n]|)..]);
      assert n in logs && e in LogContents(logs[n][Surviving(synced', n, |logs[n]|)..]);
    }
  }

  /** What an older log may lose is live, and older than everything in the newest log. */
  lemma OlderLost(logs: map<nat, seq<Batch>>, minLog: nat, newest: nat, synced: map<nat, nat>)
    requires LogsOk(logs, minLog) && newest in logs && forall n :: n in logs ==> n <= newest
    ensures Lost(logs - {newest}, minLog, synced) <= LiveLogs(logs, minLog)
    ensures SeqBefore(Lost(logs - {newest}, minLog, synced), LogContents(logs[newest]))
  {
    var older := logs - {newest};
    forall e | e in Lost(older, minLog, synced) ensures exists n :: n in older && minLog <= n && e in LogContents(logs[n]) {
      var n :| n in older && minLog <= n && e in LogContents(older[n][Surviving(synced, n, |older[n]|)..]);
      PrefixContents(logs[n], Surviving(synced, n, |logs[n]|));
    }
    forall e, x | e in Lost(older, minLog, synced) && x in LogContents(logs[newest]) ensures e.key.sequence < x.key.sequence {
      var n :| n in older && minLog <= n && e in LogContents(logs[n]);
      assert SeqBefore(LogContents(logs[n]), LogContents(logs[newest]));
    }
  }

  lemma OlderIsOld(s: State)
    requires Inv(s) && s.memory.Some?
    ensures OlderTail(s) <= s.t.history && SeqBefore(OlderTail(s), LogContents(s.disk.logs[s.memory.value.logFile]))
    ensures LogContents(s.disk.logs[s.memory.value.logFile]) <= s.t.history
  {
    OlderLost(s.disk.logs, MinLog(s.disk.manifest), s.memory.value.logFile, Synced(s));
    InLiveLogs(s.disk.logs, MinLog(s.disk.manifest), s.memory.value.logFile);
  }

  /** A sync makes the newest log durable, and with it the write that asked for the sync. It makes the whole history durable exactly
      if no older live log was closed with unsynced records. */
  lemma SyncMakesDurable(s: State, s': State)
    requires Inv(s) && SyncLog(s, s')
    ensures s'.t.history == s.t.history && Durable(s') == s.t.history - OlderTail(s)
    ensures LogContents(s.disk.logs[s.memory.value.logFile]) <= Durable(s')
    ensures Durable(s') == s.t.history <==> OlderTail(s) == {}
  {
    SyncedLost(s.disk.logs, MinLog(s.disk.manifest), s.memory.value.logFile, Synced(s), Synced(s'));
    OlderIsOld(s);
  }

  /** Nothing is invented: every entry of the history was logged by an earlier step of the run. */
  lemma {:induction false} HistoryWasLogged(states: seq<State>, steps: seq<Step>, i: nat, e: Entry)
    requires IsRun(states, steps) && i < |states| && e in states[i].t.history
    ensures exists k :: 0 <= k < i && e in Added(states[k], steps[k])
  {
    if i > 0 {
      RunKeepsInv(states, steps, i - 1);
      assert StepAt(states, steps, i - 1);
      HistoryChanges(states[i - 1], steps[i - 1], states[i]);
      if e in states[i - 1].t.history {
        HistoryWasLogged(states, steps, i - 1, e);
      }
    }
  }

  // ---------------------------------------------------------------- repeatable reads

  /** Between restarts what a published sequence number reads never changes. */
  lemma {:induction false} PublishedIsFixed(states: seq<State>, steps: seq<Step>, i: nat, j: nat, u: UserKey, snapshot: nat)
    requires IsRun(states, steps) && i <= j < |states| && states[i].memory.Some? && snapshot <= states[i].memory.value.lastSequence
    requires forall k :: i <= k < j ==> !steps[k].Restart?
    ensures states[j].memory.Some? && snapshot <= states[j].memory.value.lastSequence
    ensures ReadAt(states[j].t.history, u, snapshot) == ReadAt(states[i].t.history, u, snapshot)
  {
    if i < j {
      PublishedIsFixed(states, steps, i, j - 1, u, snapshot);
      RunFixesPublished(states, steps, j, u, snapshot);
    }
  }

  lemma RunFixesPublished(states: seq<State>, steps: seq<Step>, j: nat, u: UserKey, snapshot: nat)
    requires IsRun(states, steps) && 0 < j < |states| && !steps[j - 1].Restart?
    requires states[j - 1].memory.Some? && snapshot <= states[j - 1].memory.value.lastSequence
    ensures states[j].memory.Some? && snapshot <= states[j].memory.value.lastSequence
    ensures ReadAt(states[j].t.history, u, snapshot) == ReadAt(states[j - 1].t.history, u, snapshot)
  {
    RunKeepsInv(states, steps, j - 1);
    assert StepAt(states, steps, j - 1);
    StepFixesPublished(states[j - 1], steps[j - 1], states[j], u, snapshot);
  }

  lemma StepKeepsDistinct(s: State, step: Step, s': State)
    requires Inv(s) && NextState(s, step, s')
    ensures Distinct(s'.t.history)
  {
    StepKeepsInv(s, step, s');
  }

  lemma StepFixesPublished(s: State, step: Step, s': State, u: UserKey, snapshot: nat)
    requires Inv(s) && NextState(s, step, s') && !step.Restart?
    requires s.memory.Some? && snapshot <= s.memory.value.lastSequence
    ensures s'.memory.Some? && snapshot <= s'.memory.value.lastSequence
    ensures ReadAt(s'.t.history, u, snapshot) == ReadAt(s.t.history, u, snapshot)
  {
    HistoryChanges(s, step, s');
    if step.Foreground? { ForegroundHistory(s, step.f, s'); } else { BackgroundFrame(s, step.b, s'); }
    StepKeepsDistinct(s, step, s');
    InvisibleAbove(s.t.history, Added(s, step), u, snapshot);
  }

  /** A snapshot held across any steps short of a restart keeps reading the same value, whatever was flushed, compacted,
      deleted or written in between. */
  lemma SnapshotIsRepeatable(states: seq<State>, steps: seq<Step>, i: nat, j: nat, u: UserKey, snapshot: nat)
    requires IsRun(states, steps) && i <= j < |states|
    requires states[i].memory.Some? && LiveSnapshot(states[i].memory.value, snapshot)
    requires states[j].memory.Some? && LiveSnapshot(states[j].memory.value, snapshot)
    requires forall k :: i <= k < j ==> !steps[k].Restart?
    ensures ReadAt(View(states[j].memory.value), u, snapshot) == ReadAt(View(states[i].memory.value), u, snapshot)
  {
    ReadsAreCorrect(states, steps, i, u, snapshot);
    ReadsAreCorrect(states, steps, j, u, snapshot);
    RunKeepsInv(states, steps, i);
    LiveIsInRange(states[i], snapshot);
    PublishedIsFixed(states, steps, i, j, u, snapshot);
  }

  // ---------------------------------------------------------------- recovery

  /** At every moment of every run the disk alone holds the history's answers: every table of the version the manifest
      replays to is there, and that version with the live logs reads as the history does. */
  lemma CrashSafe(states: seq<State>, steps: seq<Step>, i: nat, u: UserKey, snapshot: nat)
    requires IsRun(states, steps) && i < |states| && states[i].t.low <= snapshot
    ensures ManifestOk(states[i].disk.manifest, states[i].t.committed) && TablesPresent(states[i].disk.tables, states[i].t.committed)
    ensures ReadAt(Recoverable(states[i]), u, snapshot) == ReadAt(states[i].t.history, u, snapshot)
  {
    RunKeepsInv(states, steps, i);
    RecoverableMatchesHistory(states[i], u, snapshot);
  }

  /** Replay the manifest, replay the live logs into tables, and build the version to start from (DBImpl::Recover). */
  method RecoverFromDisk(s: State, full: (nat, nat) -> bool, size: nat)
    returns (v: Version, files: seq<FileMeta>, newLog: nat, next: nat, last: nat, v': Version)
    requires Inv(s)
    ensures OpenReady(s.disk, v, files, newLog, next, last, v')
  {
    var d := s.disk;
    v := RecoverVersion(d.manifest);
    RecoversCommitted(s, v);
    LiveInRange(s);
    files, next, last := RecoverLogs(d.logs, MinLog(d.manifest), NextFileOf(d.manifest), SequenceOf(d.manifest), full, size);
    LastInRange(s, last);
    WiderRange(files, NextFileOf(d.manifest), next, next + 1);
    newLog, next := next, next + 1;
    OpenEditFits(s, files, OpenEdit(files, newLog, next, last));
    v' := ApplyToCurrent(v, OpenEdit(files, newLog, next, last));
  }

  /** Opening a crashed store always succeeds. The reopened store is a legal next state, its last sequence is at least
      that of every entry, and its reads are the history's (DB::Open). */
  method Reopen(s: State, full: (nat, nat) -> bool, size: nat) returns (s': State, ghost step: RestartStep)
    requires Inv(s) && s.memory.None?
    ensures NextRestart(s, step, s') && Inv(s')
    ensures s'.memory.Some? && s'.t.history == s.t.history && SeqAtMost(s'.t.history, s'.memory.value.lastSequence)
    ensures forall u, snapshot :: s.t.low <= snapshot <= s'.memory.value.lastSequence
              ==> ReadAt(View(s'.memory.value), u, snapshot) == ReadAt(s.t.history, u, snapshot)
  {
    var v, files, newLog, next, last, v' := RecoverFromDisk(s, full, size);
    s' := State(OpenedDisk(s.disk, v, files, newLog, next, last), Some(OpenedMemory(newLog, next, last, v')),
                Trace(s.t.history, s.t.history, s.t.history, s.t.low, v', 0));
    step := DoOpen(v, files, newLog, next, last, v');
    OpenKeepsInv(s, s', v, files, newLog, next, last, v');
    OpenedReads(s');
  }

  lemma OpenedReads(s: State)
    requires Inv(s) && s.memory.Some? && s.memory.value.writing.None?
    ensures SeqAtMost(s.t.history, s.memory.value.lastSequence)
    ensures forall u, snapshot :: s.t.low <= snapshot <= s.memory.value.lastSequence
              ==> ReadAt(View(s.memory.value), u, snapshot) == ReadAt(s.t.history, u, snapshot)
  {
    forall u, snapshot | s.t.low <= snapshot <= s.memory.value.lastSequence
      ensures ReadAt(View(s.memory.value), u, snapshot) == ReadAt(s.t.history, u, snapshot)
    {
      ReadsMatchHistory(s, u, snapshot);
    }
  }

  lemma LastInRange(s: State, last: nat)
    requires Inv(s)
    requires last == SequenceOf(s.disk.manifest) || exists n :: n in s.disk.logs && MinLog(s.disk.manifest) <= n && LastOf(s.disk.logs[n], last)
    ensures last < MAX_SEQUENCE
  {
  }

  lemma LiveInRange(s: State)
    requires Inv(s)
    ensures SeqAtMost(Live(s.disk), MAX_SEQUENCE)
  {
  }

  lemma OpenEditFits(s: State, files: seq<FileMeta>, edit: VersionEdit)
    requires Inv(s) && EditComplete(edit) && Recovered(files, NextFileOf(s.disk.manifest), edit.nextFile.value)
    requires edit.deleted == {} && edit.added == AtLevel(0, files)
    ensures LevelsInRange(edit) && DistinctAdds(edit)
    ensures forall a, f :: a in edit.added && f in s.t.committed[a.0] ==> f.number != a.1.number
    ensures forall l :: 0 <= l < NUM_LEVELS ==> SortedBySmallest(s.t.committed[l])
  {
    AddsOk(files, NextFileOf(s.disk.manifest), edit);
    ManifestNumbersUnique(s.disk.manifest, s.t.committed);
    LevelsAreSorted(s.t.committed);
  }
}
