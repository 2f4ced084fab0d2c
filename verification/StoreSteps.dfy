/** The steps of the store and the proof that each keeps the invariant. */
module StoreSteps {
  import opened InternalKeys
  import opened History
  import opened Disk
  import opened MemTables
  import opened Store

  predicate Running(s: State) { s.memory.Some? && s.memory.value.logFile in s.disk.logs }

  // ---------------------------------------------------------------- writes

  /** The batch group is appended to the log; readers do not see it yet. */
  ghost predicate LogWrite(s: State, s': State, ops: seq<Op>) {
    && Running(s)
    && var m, d := s.memory.value, s.disk;
       var b := Batch(m.lastSequence + 1, ops);
       && m.writing.None? && m.lastSequence + |ops| < MAX_SEQUENCE
       && s' == State(d.(logs := d.logs[m.logFile := d.logs[m.logFile] + [b]]), Some(m.(writing := Some(b))),
                      s.t.(history := s.t.history + Elements(BatchEntries(b))))
  }

  /** The logged group is inserted into the memtable and published by advancing the last sequence. */
  ghost predicate ApplyWrite(s: State, s': State) {
    && Running(s)
    && var m := s.memory.value;
       && m.writing.Some?
       && s' == s.(memory := Some(m.(mem := InsertAll(m.mem, BatchEntries(m.writing.value)),
                                     lastSequence := m.lastSequence + |m.writing.value.ops|, writing := None)))
  }

  /** A write whose record did not reach the log still uses up its sequence numbers. */
  ghost predicate FailWrite(s: State, s': State, count: nat) {
    && Running(s)
    && var m := s.memory.value;
       && m.writing.None? && m.lastSequence + count < MAX_SEQUENCE
       && s' == s.(memory := Some(m.(lastSequence := m.lastSequence + count)))
  }

  ghost predicate SyncLog(s: State, s': State) {
    && Running(s)
    && s' == s.(memory := Some(s.memory.value.(synced := |s.disk.logs[s.memory.value.logFile]|)))
  }

  /** Writing a record to the newest log adds its entries to what recovery reads. */
  lemma AppendToNewest(logs: map<nat, seq<Batch>>, minLog: nat, n: nat, b: Batch)
    requires n in logs && minLog <= n
    ensures LiveLogs(logs[n := logs[n] + [b]], minLog) == LiveLogs(logs, minLog) + Elements(BatchEntries(b))
  {
    var logs' := logs[n := logs[n] + [b]];
    LogAppend(logs[n], b);
    forall e | e in LiveLogs(logs, minLog) ensures e in LiveLogs(logs', minLog) {
      var k :| k in logs && minLog <= k && e in LogContents(logs[k]);
      assert k in logs' && e in LogContents(logs'[k]);
    }
    forall e | e in Elements(BatchEntries(b)) ensures e in LiveLogs(logs', minLog) {
      assert n in logs' && e in LogContents(logs'[n]);
    }
    forall e | e in LiveLogs(logs', minLog) ensures e in LiveLogs(logs, minLog) + Elements(BatchEntries(b)) {
      var k :| k in logs' && minLog <= k && e in LogContents(logs'[k]);
      assert k != n ==> logs'[k] == logs[k];
    }
  }

  lemma InLiveLogs(logs: map<nat, seq<Batch>>, minLog: nat, n: nat)
    requires n in logs && minLog <= n
    ensures LogContents(logs[n]) <= LiveLogs(logs, minLog)
  {
  }

  lemma AppendKeepsLogsOk(logs: map<nat, seq<Batch>>, minLog: nat, n: nat, b: Batch)
    requires LogsOk(logs, minLog) && n in logs && minLog <= n && forall k :: k in logs ==> k <= n
    requires SeqBefore(LiveLogs(logs, minLog), Elements(BatchEntries(b))) && b.first + |b.ops| <= MAX_SEQUENCE
    ensures LogsOk(logs[n := logs[n] + [b]], minLog)
  {
    var logs' := logs[n := logs[n] + [b]];
    LogAppend(logs[n], b);
    InLiveLogs(logs, minLog, n);
    AppendAscending(logs[n], b);
    forall i, k | i in logs' && k in logs' && minLog <= i < k ensures SeqBefore(LogContents(logs'[i]), LogContents(logs'[k])) {
      InLiveLogs(logs, minLog, i);
      assert SeqBefore(LogContents(logs[i]), LogContents(logs[k]));
      assert logs'[i] == logs[i];
    }
  }

  lemma AppendAscending(bs: seq<Batch>, b: Batch)
    requires Ascending(bs) && SeqBefore(LogContents(bs), Elements(BatchEntries(b)))
    ensures Ascending(bs + [b])
  {
    forall i | 0 <= i < |bs| ensures SeqBefore(Elements(BatchEntries(bs[i])), Elements(BatchEntries(b))) {
      assert bs[i] in bs;
      assert forall e :: e in Elements(BatchEntries(bs[i])) ==> e in LogContents(bs);
    }
  }

  lemma HistoryGrows(live: set<Entry>, diskSequence: nat, history: set<Entry>, flushed: set<Entry>, low: nat, last: nat, batch: set<Entry>)
    requires HistorySplit(live, diskSequence, history, flushed, low) && SeqAtMost(history, last)
    requires Distinct(batch) && SeqAtMost(batch, MAX_SEQUENCE - 1) && forall e :: e in batch ==> last < e.key.sequence
    ensures HistorySplit(live + batch, diskSequence, history + batch, flushed, low)
  {
  }

  lemma LayersGrow(history: set<Entry>, below: set<Entry>, imm: set<Entry>, mem: set<Entry>, last: nat, batch: set<Entry>)
    requires Layers(history, below, imm, mem, {}, last)
    requires forall e :: e in batch ==> last < e.key.sequence
    ensures Layers(history + batch, below, imm, mem, batch, last)
    ensures SeqAtMost(history, last)
  {
  }

  lemma AppendMatches(logs: map<nat, seq<Batch>>, minLog: nat, n: nat, synced: nat, mem: set<Entry>, immLive: bool, immLog: nat,
                      imm: set<Entry>, next: nat, b: Batch)
    requires LogsMatch(logs, minLog, n, synced, mem + {}, immLive, immLog, imm) && LogsBelow(logs, next)
    ensures LogsMatch(logs[n := logs[n] + [b]], minLog, n, synced, mem + Elements(BatchEntries(b)), immLive, immLog, imm)
    ensures LogsBelow(logs[n := logs[n] + [b]], next)
  {
    LogAppend(logs[n], b);
  }

  /** Appending a record with newer sequences keeps the disk in order. */
  lemma AppendKeepsDisk(d: Disk, t: Trace, n: nat, b: Batch, last: nat)
    requires DiskOk(d, t) && n in d.logs && MinLog(d.manifest) <= n && forall k :: k in d.logs ==> k <= n
    requires SeqAtMost(t.history, last) && b.first == last + 1 && last + |b.ops| < MAX_SEQUENCE
    ensures DiskOk(d.(logs := d.logs[n := d.logs[n] + [b]]), t.(history := t.history + Elements(BatchEntries(b))))
  {
    BatchRange(b);
    HistoryGrows(Live(d), SequenceOf(d.manifest), t.history, t.flushed, t.low, last, Elements(BatchEntries(b)));
    AppendToNewest(d.logs, MinLog(d.manifest), n, b);
    AppendKeepsLogsOk(d.logs, MinLog(d.manifest), n, b);
  }

  lemma LogWriteKeepsRecent(d: Disk, m: Memory, t: Trace, b: Batch)
    requires m.writing.None? && b.first == m.lastSequence + 1 && m.lastSequence + |b.ops| < MAX_SEQUENCE
    requires RecentOk(d.logs, MinLog(d.manifest), m.logFile, m.synced, m.mem, m.imm, m.writing, ImmLive(m), t.immLog, t.history, t.below,
                      m.lastSequence, m.nextFile)
    ensures RecentOk(d.logs[m.logFile := d.logs[m.logFile] + [b]], MinLog(d.manifest), m.logFile, m.synced, m.mem, m.imm, Some(b),
                     ImmLive(m), t.immLog, t.history + Elements(BatchEntries(b)), t.below, m.lastSequence, m.nextFile)
    ensures SeqAtMost(t.history, m.lastSequence)
  {
    BatchRange(b);
    LayersGrow(t.history, t.below, ImmSet(m), MemSet(m), m.lastSequence, Elements(BatchEntries(b)));
    AppendMatches(d.logs, MinLog(d.manifest), m.logFile, m.synced, MemSet(m), ImmLive(m), t.immLog, ImmSet(m), m.nextFile, b);
  }

  lemma LogWriteKeepsMemory(s: State, s': State, ops: seq<Op>)
    requires s.memory.Some? && MemoryOk(s.disk, s.memory.value, s.t) && LogWrite(s, s', ops)
    ensures MemoryOk(s'.disk, s'.memory.value, s'.t)
    ensures SeqAtMost(s.t.history, s.memory.value.lastSequence)
  {
    LogWriteKeepsRecent(s.disk, s.memory.value, s.t, s'.memory.value.writing.value);
  }

  lemma LogWriteKeepsInv(s: State, s': State, ops: seq<Op>)
    requires Inv(s) && LogWrite(s, s', ops)
    ensures Inv(s')
  {
    LogWriteKeepsMemory(s, s', ops);
    AppendKeepsDisk(s.disk, s.t, s.memory.value.logFile, s'.memory.value.writing.value, s.memory.value.lastSequence);
  }

  lemma SyncLogKeepsInv(s: State, s': State)
    requires Inv(s) && SyncLog(s, s')
    ensures Inv(s')
  {
  }

  lemma FailWriteKeepsInv(s: State, s': State, count: nat)
    requires Inv(s) && FailWrite(s, s', count)
    ensures Inv(s')
  {
    LaterSequence(s.disk, s.memory.value, s.t, s'.memory.value.lastSequence);
  }

  /** Nothing on the background side minds when the last sequence advances. */
  lemma LaterSequence(d: Disk, m: Memory, t: Trace, last: nat)
    requires m.lastSequence <= last
    requires BackgroundOk(d.manifest, d.tables, m.version, m.job, m.imm, m.snapshots, m.pinned, m.nextFile, m.lastSequence, m.logNumber,
                          t.below, t.flushed, t.low, t.committed)
    ensures BackgroundOk(d.manifest, d.tables, m.version, m.job, m.imm, m.snapshots, m.pinned, m.nextFile, last, m.logNumber,
                         t.below, t.flushed, t.low, t.committed)
  {
  }

  lemma InsertNewer(mem: seq<Entry>, b: Batch, last: nat)
    requires Sorted(mem) && SeqAtMost(Elements(mem), last) && b.first == last + 1
    ensures Sorted(InsertAll(mem, BatchEntries(b)))
    ensures Elements(InsertAll(mem, BatchEntries(b))) == Elements(mem) + Elements(BatchEntries(b))
  {
    BatchRange(b);
    forall x, y | x in mem && y in BatchEntries(b) ensures x.key.sequence != y.key.sequence {
      assert x in Elements(mem);
    }
    InsertAllKeepsOrder(mem, BatchEntries(b));
  }

  /** Inserting the logged batch into the memtable moves it from the write in flight to the memtable and changes nothing else. */
  lemma InsertKeepsRecent(d: Disk, m: Memory, t: Trace, b: Batch)
    requires m.writing == Some(b)
    requires RecentOk(d.logs, MinLog(d.manifest), m.logFile, m.synced, m.mem, m.imm, m.writing, ImmLive(m), t.immLog, t.history, t.below,
                      m.lastSequence, m.nextFile)
    ensures RecentOk(d.logs, MinLog(d.manifest), m.logFile, m.synced, InsertAll(m.mem, BatchEntries(b)), m.imm, None, ImmLive(m), t.immLog,
                     t.history, t.below, m.lastSequence + |b.ops|, m.nextFile)
  {
    BatchRange(b);
    InsertNewer(m.mem, b, m.lastSequence);
    LayersShift(t.history, t.below, ImmSet(m), MemSet(m), Elements(BatchEntries(b)), m.lastSequence, m.lastSequence + |b.ops|);
    assert Elements(InsertAll(m.mem, BatchEntries(b))) + BatchSet(None) == MemSet(m) + BatchSet(m.writing);
  }

  lemma LayersShift(history: set<Entry>, below: set<Entry>, imm: set<Entry>, mem: set<Entry>, batch: set<Entry>, last: nat, last': nat)
    requires Layers(history, below, imm, mem, batch, last) && SeqAtMost(batch, last') && last <= last'
    ensures Layers(history, below, imm, mem + batch, {}, last')
  {
  }

  lemma ApplyWriteKeepsInv(s: State, s': State)
    requires Inv(s) && ApplyWrite(s, s')
    ensures Inv(s')
  {
    var m := s.memory.value;
    InsertKeepsRecent(s.disk, m, s.t, m.writing.value);
    LaterSequence(s.disk, m, s.t, s'.memory.value.lastSequence);
  }

  // ---------------------------------------------------------------- memtable switch

  /** A new log is opened and the full memtable becomes immutable (MakeRoomForWrite). */
  ghost predicate SwitchMem(s: State, s': State) {
    && Running(s)
    && var m, d := s.memory.value, s.disk;
       && m.writing.None? && m.imm.None?
       && s' == State(d.(logs := d.logs[m.nextFile := []]),
                      Some(m.(imm := Some(m.mem), mem := [], logFile := m.nextFile, nextFile := m.nextFile + 1, synced := 0,
                               immSynced := m.synced)),
                      s.t.(immLog := m.logFile))
  }

  /** An empty log adds nothing to what recovery reads. */
  lemma EmptyLogAdds(logs: map<nat, seq<Batch>>, minLog: nat, n: nat)
    requires n !in logs
    ensures LiveLogs(logs[n := []], minLog) == LiveLogs(logs, minLog)
    ensures LogsOk(logs, minLog) ==> LogsOk(logs[n := []], minLog)
  {
    var logs' := logs[n := []];
    assert LogContents([]) == {};
    forall e | e in LiveLogs(logs, minLog) ensures e in LiveLogs(logs', minLog) {
      var k :| k in logs && minLog <= k && e in LogContents(logs[k]);
      assert k in logs' && e in LogContents(logs'[k]);
    }
  }

  lemma SwitchKeepsRecent(d: Disk, m: Memory, t: Trace)
    requires m.writing.None? && m.imm.None?
    requires RecentOk(d.logs, MinLog(d.manifest), m.logFile, m.synced, m.mem, m.imm, m.writing, ImmLive(m), t.immLog, t.history, t.below,
                      m.lastSequence, m.nextFile)
    ensures RecentOk(d.logs[m.nextFile := []], MinLog(d.manifest), m.nextFile, 0, [], Some(m.mem), None, true, m.logFile, t.history, t.below,
                     m.lastSequence, m.nextFile + 1)
  {
    assert LogContents([]) == {} && Elements([]) == {};
    assert MemSet(m) + {} == MemSet(m);
  }

  lemma SwitchKeepsBackground(d: Disk, m: Memory, t: Trace)
    requires m.imm.None?
    requires BackgroundOk(d.manifest, d.tables, m.version, m.job, m.imm, m.snapshots, m.pinned, m.nextFile, m.lastSequence, m.logNumber,
                          t.below, t.flushed, t.low, t.committed)
    ensures BackgroundOk(d.manifest, d.tables, m.version, m.job, Some(m.mem), m.snapshots, m.pinned, m.nextFile + 1, m.lastSequence,
                         m.logNumber, t.below, t.flushed, t.low, t.committed)
    ensures !(m.job.Installing? && m.job.dropImm)
  {
  }

  lemma SwitchKeepsMemory(s: State, s': State)
    requires s.memory.Some? && MemoryOk(s.disk, s.memory.value, s.t) && SwitchMem(s, s')
    ensures MemoryOk(s'.disk, s'.memory.value, s'.t)
  {
    SwitchKeepsRecent(s.disk, s.memory.value, s.t);
    SwitchKeepsBackground(s.disk, s.memory.value, s.t);
  }

  lemma SwitchMemKeepsInv(s: State, s': State)
    requires Inv(s) && SwitchMem(s, s')
    ensures Inv(s')
  {
    SwitchKeepsMemory(s, s');
    EmptyLogAdds(s.disk.logs, MinLog(s.disk.manifest), s.memory.value.nextFile);
  }

  // ---------------------------------------------------------------- snapshots and pinned versions

  ghost predicate TakeSnapshot(s: State, s': State) {
    && Running(s)
    && s' == s.(memory := Some(s.memory.value.(snapshots := s.memory.value.snapshots + [s.memory.value.lastSequence])))
  }

  ghost predicate ReleaseSnapshot(s: State, s': State, i: nat) {
    && Running(s) && i < |s.memory.value.snapshots|
    && s' == s.(memory := Some(s.memory.value.(snapshots := s.memory.value.snapshots[..i] + s.memory.value.snapshots[i + 1..])))
  }

  /** A reader or an iterator keeps the current version alive. */
  ghost predicate Pin(s: State, s': State) {
    && Running(s)
    && s' == s.(memory := Some(s.memory.value.(pinned := s.memory.value.pinned + [s.memory.value.version])))
  }

  ghost predicate Unpin(s: State, s': State, i: nat) {
    && Running(s) && i < |s.memory.value.pinned|
    && s' == s.(memory := Some(s.memory.value.(pinned := s.memory.value.pinned[..i] + s.memory.value.pinned[i + 1..])))
  }

  /** Every list of live snapshots in range and in order is as good as another. */
  lemma OtherSnapshots(d: Disk, m: Memory, t: Trace, snapshots: seq<nat>)
    requires BackgroundOk(d.manifest, d.tables, m.version, m.job, m.imm, m.snapshots, m.pinned, m.nextFile, m.lastSequence, m.logNumber,
                          t.below, t.flushed, t.low, t.committed)
    requires SnapshotsOk(snapshots, t.low, m.lastSequence)
    requires forall i :: 0 <= i < |snapshots| ==> snapshots[i] in m.snapshots || snapshots[i] == m.lastSequence
    ensures BackgroundOk(d.manifest, d.tables, m.version, m.job, m.imm, snapshots, m.pinned, m.nextFile, m.lastSequence, m.logNumber,
                         t.below, t.flushed, t.low, t.committed)
  {
  }

  lemma TakenSnapshots(snapshots: seq<nat>, low: nat, last: nat)
    requires SnapshotsOk(snapshots, low, last)
    ensures SnapshotsOk(snapshots + [last], low, last)
  {
  }

  lemma ReleasedSnapshots(snapshots: seq<nat>, i: nat, low: nat, last: nat)
    requires SnapshotsOk(snapshots, low, last) && i < |snapshots|
    ensures SnapshotsOk(snapshots[..i] + snapshots[i + 1..], low, last)
    ensures forall x :: x in snapshots[..i] + snapshots[i + 1..] ==> x in snapshots
  {
  }

  lemma TakeSnapshotKeepsInv(s: State, s': State)
    requires Inv(s) && TakeSnapshot(s, s')
    ensures Inv(s')
  {
    TakenSnapshots(s.memory.value.snapshots, s.t.low, s.memory.value.lastSequence);
    OtherSnapshots(s.disk, s.memory.value, s.t, s'.memory.value.snapshots);
  }

  lemma ReleaseSnapshotKeepsInv(s: State, s': State, i: nat)
    requires Inv(s) && ReleaseSnapshot(s, s', i)
    ensures Inv(s')
  {
    ReleasedSnapshots(s.memory.value.snapshots, i, s.t.low, s.memory.value.lastSequence);
    OtherSnapshots(s.disk, s.memory.value, s.t, s'.memory.value.snapshots);
  }

  lemma PinStepsKeepInv(s: State, s': State, i: nat)
    requires Inv(s) && (Pin(s, s') || Unpin(s, s', i))
    ensures Inv(s')
  {
  }
}
