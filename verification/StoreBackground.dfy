/** The background steps of the store: flush, trivial move, compaction, manifest install and file deletion. */
module StoreBackground {
  import opened InternalKeys
  import opened History
  import opened Versions
  import opened Selection
  import opened VersionEdits
  import opened Compaction
  import opened Installs
  import opened Flushes
  import opened CompactionReads
  import opened Disk
  import opened Store

  // ---------------------------------------------------------------- building tables

  /** The tables on disk after writing `fs`. */
  function AddTables(tables: map<nat, seq<Entry>>, fs: seq<FileMeta>): map<nat, seq<Entry>> {
    if fs == [] then tables
    else AddTables(tables, fs[..|fs| - 1])[fs[|fs| - 1].number := fs[|fs| - 1].entries]
  }

  lemma {:induction false} AddTablesWritten(tables: map<nat, seq<Entry>>, fs: seq<FileMeta>)
    ensures forall f :: f in fs && UniqueNumbers(fs) ==> TablePresent(AddTables(tables, fs), f)
    ensures forall n :: n in tables && (forall f :: f in fs ==> f.number != n) ==> n in AddTables(tables, fs) && AddTables(tables, fs)[n] == tables[n]
  {
    if fs != [] {
      var k := |fs| - 1;
      AddTablesWritten(tables, fs[..k]);
      assert fs == fs[..k] + [fs[k]];
      assert UniqueNumbers(fs) ==> UniqueNumbers(fs[..k]);
      assert UniqueNumbers(fs) ==> forall f :: f in fs[..k] ==> f.number != fs[k].number;
    }
  }

  /** Writing tables with unused numbers disturbs no version that uses smaller ones. */
  lemma NewTablesKeep(tables: map<nat, seq<Entry>>, fs: seq<FileMeta>, v: Version, next: nat)
    requires TablesPresent(tables, v) && NumbersBelow(v, next)
    requires forall f :: f in fs ==> next <= f.number
    ensures TablesPresent(AddTables(tables, fs), v)
  {
    AddTablesWritten(tables, fs);
    forall l, f | 0 <= l < NUM_LEVELS && f in v[l] ensures TablePresent(AddTables(tables, fs), f) {
      assert TablePresent(tables, f);
      assert forall g :: g in fs ==> g.number != f.number;
    }
  }

  /** Background side of a step that takes numbers, writes the tables of a new job and starts it. */
  lemma JobStarts(d: Disk, m: Memory, t: Trace, job: Job, next: nat)
    requires m.job.Idle? && !job.Installing? && m.nextFile <= next
    requires BackgroundOk(d.manifest, d.tables, m.version, m.job, m.imm, m.snapshots, m.pinned, m.nextFile, m.lastSequence, m.logNumber,
                          t.below, t.flushed, t.low, t.committed)
    requires UniqueNumbers(JobTables(job)) && forall f :: f in JobTables(job) ==> m.nextFile <= f.number < next
    requires JobOk(job, m.version, m.imm, m.snapshots, m.lastSequence)
    ensures BackgroundOk(d.manifest, AddTables(d.tables, JobTables(job)), m.version, job, m.imm, m.snapshots, m.pinned, next,
                         m.lastSequence, m.logNumber, t.below, t.flushed, t.low, t.committed)
    ensures TablesPresent(AddTables(d.tables, JobTables(job)), t.committed)
  {
    var fs := JobTables(job);
    AddTablesWritten(d.tables, fs);
    NewTablesKeep(d.tables, fs, m.version, m.nextFile);
    forall v | v in m.pinned ensures Pinned(AddTables(d.tables, fs), v, next) {
      NewTablesKeep(d.tables, fs, v, m.nextFile);
    }
  }

  /** A new job: fresh numbers are taken, its tables written. */
  ghost predicate StartJob(s: State, s': State, job: Job, next: nat) {
    && s.memory.Some?
    && var m, d := s.memory.value, s.disk;
       && m.job.Idle? && !job.Installing? && m.nextFile <= next
       && UniqueNumbers(JobTables(job)) && (forall f :: f in JobTables(job) ==> m.nextFile <= f.number < next)
       && s' == State(d.(tables := AddTables(d.tables, JobTables(job))), Some(m.(job := job, nextFile := next)), s.t)
  }

  lemma StartJobKeepsMemory(s: State, s': State, job: Job, next: nat)
    requires s.memory.Some? && MemoryOk(s.disk, s.memory.value, s.t) && StartJob(s, s', job, next)
    requires JobOk(job, s.memory.value.version, s.memory.value.imm, s.memory.value.snapshots, s.memory.value.lastSequence)
    ensures MemoryOk(s'.disk, s'.memory.value, s'.t)
    ensures TablesPresent(s'.disk.tables, s.t.committed)
  {
    JobStarts(s.disk, s.memory.value, s.t, job, next);
  }

  lemma StartJobKeepsInv(s: State, s': State, job: Job, next: nat)
    requires Inv(s) && StartJob(s, s', job, next)
    requires JobOk(job, s.memory.value.version, s.memory.value.imm, s.memory.value.snapshots, s.memory.value.lastSequence)
    ensures Inv(s')
  {
    StartJobKeepsMemory(s, s', job, next);
  }

  // ---------------------------------------------------------------- flush

  function FlushJob(m: Memory, size: nat): Job
    requires m.imm.Some?
  {
    Flushing(if m.imm.value == [] then None else Some(OutputFile(m.nextFile, size, m.imm.value)))
  }

  /** The immutable memtable is written as a table; an empty one leaves no table (WriteLevel0Table, BuildTable). */
  ghost predicate BuildFlush(s: State, s': State, size: nat) {
    && s.memory.Some? && s.memory.value.imm.Some?
    && StartJob(s, s', FlushJob(s.memory.value, size), s.memory.value.nextFile + 1)
  }

  lemma BuildFlushKeepsMemory(s: State, s': State, size: nat)
    requires s.memory.Some? && MemoryOk(s.disk, s.memory.value, s.t) && BuildFlush(s, s', size)
    requires JobOk(s'.memory.value.job, s.memory.value.version, s.memory.value.imm, s.memory.value.snapshots, s.memory.value.lastSequence)
    ensures MemoryOk(s'.disk, s'.memory.value, s'.t)
    ensures TablesPresent(s'.disk.tables, s.t.committed)
  {
    StartJobKeepsMemory(s, s', s'.memory.value.job, s.memory.value.nextFile + 1);
  }

  lemma BuildFlushKeepsInv(s: State, s': State, size: nat)
    requires Inv(s) && BuildFlush(s, s', size)
    ensures Inv(s')
  {
    ImmIsTable(s, size);
    BuildFlushKeepsMemory(s, s', size);
  }

  lemma ImmIsTable(s: State, size: nat)
    requires Inv(s) && s.memory.Some? && s.memory.value.imm.Some?
    ensures var m := s.memory.value; JobOk(FlushJob(m, size), m.version, m.imm, m.snapshots, m.lastSequence)
  {
    var m := s.memory.value;
    if m.imm.value != [] {
      forall e | e in m.imm.value ensures e.key.sequence <= MAX_SEQUENCE {
        assert e in ImmSet(m) && e in s.t.history;
      }
      OutputFileOk(m.nextFile, size, m.imm.value);
    }
  }

  // ---------------------------------------------------------------- committing an edit

  function Edit(m: Memory, log: nat, deleted: set<(nat, nat)>, added: seq<(nat, FileMeta)>): VersionEdit {
    VersionEdit(Some(log), Some(m.nextFile), Some(m.lastSequence), deleted, added)
  }

  /** `v'` is `v` with the edit applied, as the builder saves it. */
  ghost predicate Applied(v: Version, edit: VersionEdit, v': Version) {
    SetsOf(v') == Next(SetsOf(v), edit) && forall l :: 0 <= l < NUM_LEVELS ==> SortedBySmallest(v'[l])
  }

  lemma AppliedMembers(v: Version, edit: VersionEdit, v': Version, l: nat)
    requires Applied(v, edit, v') && l < NUM_LEVELS
    ensures forall f :: f in v'[l] <==> (f in v[l] && (l, f.number) !in edit.deleted) || (l, f) in edit.added
  {
    forall f ensures f in v'[l] <==> (f in v[l] && (l, f.number) !in edit.deleted) || (l, f) in edit.added {
      assert f in v'[l] <==> f in SetsOf(v')[l];
      assert f in v[l] <==> f in SetsOf(v)[l];
      assert f in AddedTo(edit, l) <==> (l, f) in edit.added by {
        if (l, f) in edit.added { assert (l, f).0 == l && (l, f).1 == f; }
      }
    }
  }

  lemma AppliedIsReplaced(v: Version, edit: VersionEdit, v': Version, l: nat, gone: seq<FileMeta>, added: seq<FileMeta>)
    requires Applied(v, edit, v') && l < NUM_LEVELS
    requires forall f :: f in v[l] ==> ((l, f.number) in edit.deleted <==> f in gone)
    requires forall f :: (l, f) in edit.added <==> f in added
    ensures Replaced(v[l], gone, added, v'[l])
  {
    AppliedMembers(v, edit, v', l);
  }

  lemma AppliedUnchanged(v: Version, edit: VersionEdit, v': Version, l: nat)
    requires Applied(v, edit, v') && l < NUM_LEVELS && SortedBySmallest(v[l])
    requires forall d :: d in edit.deleted ==> d.0 != l
    requires forall a :: a in edit.added ==> a.0 != l
    ensures v'[l] == v[l]
  {
    AppliedMembers(v, edit, v', l);
    forall f: FileMeta ensures (l, f.number) !in edit.deleted && (l, f) !in edit.added {
      assert (l, f.number).0 == l && (l, f).0 == l;
    }
    SortedListUnique(v'[l], v[l]);
  }

  /** An edit reaches the manifest: from now on recovery sees `v'` (LogAndApply up to the manifest write). */
  ghost predicate Commit(s: State, s': State, edit: VersionEdit, v': Version, dropImm: bool, flushed: set<Entry>, low: nat) {
    && s.memory.Some? && edit.logNumber.Some? && Applied(s.memory.value.version, edit, v')
    && s' == State(s.disk.(manifest := s.disk.manifest + [edit]),
                   Some(s.memory.value.(job := Installing(v', edit.logNumber.value, dropImm))),
                   s.t.(flushed := flushed, low := low, committed := v'))
  }

  lemma ManifestReads(manifest: seq<VersionEdit>, edit: VersionEdit)
    requires EditComplete(edit)
    ensures MinLog(manifest + [edit]) == edit.logNumber.value
    ensures NextFileOf(manifest + [edit]) == edit.nextFile.value
    ensures SequenceOf(manifest + [edit]) == edit.lastSequence.value
  {
  }

  lemma CommitKeepsBackground(d: Disk, m: Memory, t: Trace, edit: VersionEdit, v': Version, dropImm: bool, flushed: set<Entry>, low: nat)
    requires BackgroundOk(d.manifest, d.tables, m.version, m.job, m.imm, m.snapshots, m.pinned, m.nextFile, m.lastSequence, m.logNumber,
                          t.below, t.flushed, t.low, t.committed)
    requires edit.logNumber.Some? && edit.nextFile == Some(m.nextFile) && edit.lastSequence == Some(m.lastSequence)
    requires dropImm ==> m.imm.Some?
    requires flushed == t.below + if dropImm then TableSet(m.imm) else {}
    requires t.low <= low && SnapshotsOk(m.snapshots, low, m.lastSequence)
    ensures BackgroundOk(d.manifest + [edit], d.tables, m.version, Installing(v', edit.logNumber.value, dropImm), m.imm, m.snapshots,
                         m.pinned, m.nextFile, m.lastSequence, m.logNumber, t.below, flushed, low, v')
  {
    ManifestReads(d.manifest, edit);
  }

  /** A file number lives at one place of the version. */
  ghost predicate NumbersUnique(v: Version) {
    forall l, k, f, g :: 0 <= l < NUM_LEVELS && 0 <= k < NUM_LEVELS && f in v[l] && g in v[k] && f.number == g.number ==> l == k && f == g
  }

  lemma ManifestNumbersUnique(edits: seq<VersionEdit>, v: Version)
    requires ManifestOk(edits, v) && VersionOk(v)
    ensures NumbersUnique(v)
    ensures NumbersBelow(v, NextFileOf(edits))
  {
    forall l, k, f, g | 0 <= l < NUM_LEVELS && 0 <= k < NUM_LEVELS && f in v[l] && g in v[k] && f.number == g.number
      ensures l == k && f == g
    {
      assert (l, f.number) in AddedPairs(edits) && (k, g.number) in AddedPairs(edits);
      assert (l, f.number).0 <= k && (k, g.number).0 <= l;
      assert ShapeOk(l, v[l]);
      MembersFromPositions(v[l]);
    }
    forall l, f | 0 <= l < NUM_LEVELS && f in v[l] ensures f.number < NextFileOf(edits) {
      assert (l, f.number) in AddedPairs(edits);
    }
  }

  /** Adding files under new numbers keeps files moving down only. */
  lemma NewNumbersMoveDown(edits: seq<VersionEdit>, v: Version, edit: VersionEdit, v': Version, n: nat)
    requires MovedDown(edits, v) && PairsBelow(AddedPairs(edits), n) && NumbersBelow(v, n)
    requires forall a :: a in edit.added ==> n <= a.1.number
    requires forall a, b :: a in edit.added && b in edit.added && a.1.number == b.1.number ==> a == b
    requires forall l, f :: 0 <= l < NUM_LEVELS && f in v'[l] ==> f in v[l] || (l, f) in edit.added
    ensures MovedDown(edits + [edit], v')
    ensures Pairs(edit) !! AddedPairs(edits)
  {
    assert (edits + [edit])[..|edits|] == edits;
    assert AddedPairs(edits + [edit]) == AddedPairs(edits) + Pairs(edit);
  }

  // ---------------------------------------------------------------- committing a flush

  function FlushEdit(m: Memory, level: nat): VersionEdit
    requires m.job.Flushing?
  {
    Edit(m, m.logFile, {}, if m.job.table.Some? then [(level, m.job.table.value)] else [])
  }

  /** The flushed table enters the manifest and the logs before the current one are given up (CompactMemTable). */
  ghost predicate CommitFlush(s: State, s': State, level: nat, v': Version) {
    && s.memory.Some? && s.memory.value.job.Flushing?
    && var m := s.memory.value;
       && (m.job.table.Some? ==> LevelAllowed(m.version, level, m.job.table.value))
       && Commit(s, s', FlushEdit(m, level), v', true, s.t.flushed + ImmSet(m), s.t.low)
  }

  lemma FlushVersion(v: Version, table: Option<FileMeta>, level: nat, edit: VersionEdit, v': Version, imm: seq<Entry>)
    requires VersionOk(v) && Applied(v, edit, v') && FlushReady(table, Some(imm)) && edit.deleted == {}
    requires table.None? ==> edit.added == []
    requires table.Some? ==> LevelAllowed(v, level, table.value) && edit.added == [(level, table.value)] && NumbersBelow(v, table.value.number)
    requires NewerThan(Elements(imm), Contents(v)) && Distinct(Contents(v) + Elements(imm))
    ensures VersionOk(v') && Contents(v') == Contents(v) + Elements(imm)
  {
    LevelsAreSorted(v);
    if table.None? {
      forall l | 0 <= l < NUM_LEVELS ensures v'[l] == v[l] { AppliedUnchanged(v, edit, v', l); }
      assert v' == v;
    } else {
      AppliedIsReplaced(v, edit, v', level, [], [table.value]);
      forall l | 0 <= l < NUM_LEVELS && l != level ensures v'[l] == v[l] { AppliedUnchanged(v, edit, v', l); }
      FlushKeepsVersion(v, v', level, table.value);
    }
  }

  lemma FlushStandsFor(v: Version, v': Version, below: set<Entry>, low: nat, imm: set<Entry>)
    requires StandsFor(v, below, low) && VersionOk(v') && Contents(v') == Contents(v) + imm
    requires SeqBefore(below, imm) && Distinct(below + imm)
    ensures StandsFor(v', below + imm, low)
  {
    AgreeAddNewer(below, Contents(v), imm, low);
  }

  /** Only the newest log stays live. */
  lemma NewestLogOnly(logs: map<nat, seq<Batch>>, n: nat)
    requires n in logs && forall k :: k in logs ==> k <= n
    ensures LiveLogs(logs, n) == LogContents(logs[n])
  {
  }

  lemma FlushKeepsRecent(d: Disk, m: Memory, t: Trace)
    requires RecentOk(d.logs, MinLog(d.manifest), m.logFile, m.synced, m.mem, m.imm, m.writing, ImmLive(m), t.immLog, t.history, t.below,
                      m.lastSequence, m.nextFile)
    ensures RecentOk(d.logs, m.logFile, m.logFile, m.synced, m.mem, m.imm, m.writing, false, t.immLog, t.history, t.below,
                     m.lastSequence, m.nextFile)
  {
  }

  lemma FlushSplitsHistory(logs: map<nat, seq<Batch>>, n: nat, history: set<Entry>, below: set<Entry>, imm: set<Entry>, mem: set<Entry>,
                           writing: set<Entry>, last: nat, low: nat)
    requires Layers(history, below, imm, mem, writing, last) && low <= last < MAX_SEQUENCE
    requires n in logs && (forall k :: k in logs ==> k <= n) && LogContents(logs[n]) == mem + writing
    requires Distinct(history) && SeqAtMost(history, MAX_SEQUENCE - 1)
    ensures HistorySplit(LiveLogs(logs, n), last, history, below + imm, low)
  {
    NewestLogOnly(logs, n);
  }

  lemma FlushKeepsManifest(edits: seq<VersionEdit>, v: Version, edit: VersionEdit, v': Version, level: nat, table: Option<FileMeta>)
    requires ManifestOk(edits, v) && VersionOk(v) && Applied(v, edit, v') && EditComplete(edit) && edit.deleted == {}
    requires edit.added == if table.Some? then [(level, table.value)] else []
    requires table.Some? ==> level < NUM_LEVELS && NextFileOf(edits) <= table.value.number < edit.nextFile.value
    requires NextFileOf(edits) <= edit.nextFile.value
    ensures ManifestOk(edits + [edit], v')
  {
    ManifestNumbersUnique(edits, v);
    forall l, f | 0 <= l < NUM_LEVELS && f in v'[l] ensures f in v[l] || (l, f) in edit.added {
      AppliedMembers(v, edit, v', l);
    }
    NewNumbersMoveDown(edits, v, edit, v', NextFileOf(edits));
    ManifestAppends(edits, v, edit, v');
  }

  lemma AppliedTablesPresent(tables: map<nat, seq<Entry>>, v: Version, edit: VersionEdit, v': Version)
    requires TablesPresent(tables, v) && Applied(v, edit, v')
    requires forall a :: a in edit.added ==> TablePresent(tables, a.1)
    ensures TablesPresent(tables, v')
  {
    forall l, f | 0 <= l < NUM_LEVELS && f in v'[l] ensures TablePresent(tables, f) {
      AppliedMembers(v, edit, v', l);
      assert (l, f) in edit.added ==> (l, f).1 == f;
    }
  }

  lemma CommitFlushKeepsMemory(s: State, s': State, level: nat, v': Version)
    requires s.memory.Some? && MemoryOk(s.disk, s.memory.value, s.t) && CommitFlush(s, s', level, v')
    ensures MemoryOk(s'.disk, s'.memory.value, s'.t)
  {
    var m := s.memory.value;
    FlushKeepsRecent(s.disk, m, s.t);
    ManifestReads(s.disk.manifest, FlushEdit(m, level));
    CommitKeepsBackground(s.disk, m, s.t, FlushEdit(m, level), v', true, s.t.flushed + ImmSet(m), s.t.low);
  }

  lemma FlushLayer(s: State)
    requires Inv(s) && s.memory.Some? && s.memory.value.imm.Some?
    ensures var m := s.memory.value;
            && NewerThan(ImmSet(m), Contents(m.version)) && Distinct(Contents(m.version) + ImmSet(m))
            && SeqBefore(s.t.below, ImmSet(m)) && Distinct(s.t.below + ImmSet(m))
  {
    var m := s.memory.value;
    LayerOrder(s.t.history, s.t.below, ImmSet(m), MemSet(m), WritingSet(m), m.lastSequence, Contents(m.version));
  }

  /** While no edit waits to be installed, the version's files have unique numbers below the manifest's counter. */
  lemma VersionNumbers(s: State)
    requires Inv(s) && s.memory.Some? && !s.memory.value.job.Installing?
    ensures NumbersUnique(s.memory.value.version) && NumbersBelow(s.memory.value.version, NextFileOf(s.disk.manifest))
  {
    assert s.memory.value.version == s.t.committed;
    ManifestNumbersUnique(s.disk.manifest, s.t.committed);
  }

  lemma BelowMore(v: Version, a: nat, b: nat)
    requires NumbersBelow(v, a) && a <= b
    ensures NumbersBelow(v, b)
  {
  }

  lemma CommitFlushKeepsVersion(s: State, s': State, level: nat, v': Version)
    requires Inv(s) && CommitFlush(s, s', level, v')
    ensures StandsFor(v', s'.t.flushed, s.t.low)
  {
    var m := s.memory.value;
    assert StandsFor(m.version, s.t.below, s.t.low) && FlushReady(m.job.table, m.imm);
    assert m.job.table.Some? ==> NumbersBelow(m.version, m.job.table.value.number) by {
      VersionNumbers(s);
      if m.job.table.Some? {
        assert m.job.table.value in JobTables(m.job);
        BelowMore(m.version, NextFileOf(s.disk.manifest), m.job.table.value.number);
      }
    }
    FlushLayer(s);
    FlushVersion(m.version, m.job.table, level, FlushEdit(m, level), v', m.imm.value);
    FlushStandsFor(m.version, v', s.t.below, s.t.low, ImmSet(m));
  }

  lemma CommitFlushKeepsTables(s: State, s': State, level: nat, v': Version)
    requires Inv(s) && CommitFlush(s, s', level, v')
    ensures TablesPresent(s'.disk.tables, v')
  {
    var m := s.memory.value;
    AppliedTablesPresent(s.disk.tables, m.version, FlushEdit(m, level), v');
  }

  lemma CommitFlushKeepsLogs(s: State, s': State, level: nat, v': Version)
    requires Inv(s) && CommitFlush(s, s', level, v')
    ensures MinLog(s'.disk.manifest) <= NextFileOf(s'.disk.manifest)
    ensures LogsOk(s'.disk.logs, MinLog(s'.disk.manifest))
    ensures HistorySplit(Live(s'.disk), SequenceOf(s'.disk.manifest), s'.t.history, s'.t.flushed, s'.t.low)
  {
    var m := s.memory.value;
    ManifestReads(s.disk.manifest, FlushEdit(m, level));
    FlushSplitsHistory(s.disk.logs, m.logFile, s.t.history, s.t.below, ImmSet(m), MemSet(m), WritingSet(m), m.lastSequence, s.t.low);
  }

  lemma CommitFlushKeepsManifest(s: State, s': State, level: nat, v': Version)
    requires Inv(s) && CommitFlush(s, s', level, v')
    ensures ManifestOk(s'.disk.manifest, v')
  {
    var m := s.memory.value;
    FlushKeepsManifest(s.disk.manifest, m.version, FlushEdit(m, level), v', level, m.job.table);
  }

  lemma CommitFlushKeepsInv(s: State, s': State, level: nat, v': Version)
    requires Inv(s) && CommitFlush(s, s', level, v')
    ensures Inv(s')
  {
    CommitFlushKeepsMemory(s, s', level, v');
    CommitFlushKeepsVersion(s, s', level, v');
    CommitFlushKeepsTables(s, s', level, v');
    CommitFlushKeepsLogs(s, s', level, v');
    CommitFlushKeepsManifest(s, s', level, v');
  }

  // ---------------------------------------------------------------- compaction

  function OldestSnapshot(m: Memory): nat {
    if m.snapshots == [] then m.lastSequence else m.snapshots[0]
  }

  /** The inputs are chosen, the kept entries written to new tables (DoCompactionWork). The compaction property is false
      without `NoExposure`; `CutCompactionPreservesReads` gives a condition on the files that implies it. */
  ghost predicate BuildOutputs(s: State, s': State, level: nat, in0: seq<FileMeta>, in1: seq<FileMeta>, outs: seq<FileMeta>, next: nat) {
    && s.memory.Some?
    && var m := s.memory.value;
       && CompactionReady(m.version, level, in0, in1, outs, OldestSnapshot(m))
       && StartJob(s, s', Compacting(level, in0, in1, outs, OldestSnapshot(m)), next)
  }

  lemma BuildOutputsKeepsInv(s: State, s': State, level: nat, in0: seq<FileMeta>, in1: seq<FileMeta>, outs: seq<FileMeta>, next: nat)
    requires Inv(s) && BuildOutputs(s, s', level, in0, in1, outs, next)
    ensures Inv(s')
  {
    var m := s.memory.value;
    assert SnapshotsOk(m.snapshots, s.t.low, m.lastSequence);
    StartJobKeepsInv(s, s', Compacting(level, in0, in1, outs, OldestSnapshot(m)), next);
  }

  function AtLevel(level: nat, fs: seq<FileMeta>): (r: seq<(nat, FileMeta)>)
    ensures |r| == |fs| && forall i :: 0 <= i < |r| ==> r[i] == (level, fs[i])
    ensures forall l, f :: (l, f) in r <==> l == level && f in fs
  {
    var r := seq(|fs|, i requires 0 <= i < |fs| => (level, fs[i]));
    assert forall f :: f in fs ==> (level, f) in r by {
      forall f | f in fs ensures (level, f) in r {
        var i :| 0 <= i < |fs| && fs[i] == f;
        assert r[i] == (level, f);
      }
    }
    r
  }

  function NumbersAt(level: nat, fs: seq<FileMeta>): (r: set<(nat, nat)>)
    ensures forall l, n :: (l, n) in r <==> l == level && exists f :: f in fs && f.number == n
  {
    set f | f in fs :: (level, f.number)
  }

  function CompactionEdit(m: Memory, level: nat, in0: seq<FileMeta>, in1: seq<FileMeta>, outs: seq<FileMeta>): VersionEdit {
    Edit(m, m.logNumber, NumbersAt(level, in0) + NumbersAt(level + 1, in1), AtLevel(level + 1, outs))
  }

  /** Inputs out, outputs in (InstallCompactionResults). */
  ghost predicate CommitCompaction(s: State, s': State, v': Version) {
    && s.memory.Some? && s.memory.value.job.Compacting?
    && var m := s.memory.value;
       var j := m.job;
       Commit(s, s', CompactionEdit(m, j.level, j.in0, j.in1, j.outs), v', false, s.t.flushed, if s.t.low < j.ss then j.ss else s.t.low)
  }

  /** A single file with nothing below it moves down without being rewritten (BackgroundCompaction). */
  ghost predicate CommitMove(s: State, s': State, level: nat, f: FileMeta, v': Version) {
    && s.memory.Some? && level + 1 < NUM_LEVELS
    && var m := s.memory.value;
       && m.job.Idle? && SelectionClosed(level, m.version[level], m.version[level + 1], [f], [])
       && Commit(s, s', CompactionEdit(m, level, [f], [], [f]), v', false, s.t.flushed, s.t.low)
  }

  /** Applying the edit of a compaction installs it. */
  lemma EditInstalls(v: Version, level: nat, in0: seq<FileMeta>, in1: seq<FileMeta>, outs: seq<FileMeta>, edit: VersionEdit, v': Version)
    requires level + 1 < NUM_LEVELS && NumbersUnique(v) && forall l :: 0 <= l < NUM_LEVELS ==> SortedBySmallest(v[l])
    requires (forall f :: f in in0 ==> f in v[level]) && (forall f :: f in in1 ==> f in v[level + 1])
    requires edit.deleted == NumbersAt(level, in0) + NumbersAt(level + 1, in1) && edit.added == AtLevel(level + 1, outs)
    requires Applied(v, edit, v')
    ensures CompactionInstalled(v, v', level, in0, in1, outs)
  {
    AppliedIsReplaced(v, edit, v', level, in0, []);
    AppliedIsReplaced(v, edit, v', level + 1, in1, outs);
    forall l | 0 <= l < NUM_LEVELS && l != level && l != level + 1 ensures v'[l] == v[l] {
      AppliedUnchanged(v, edit, v', l);
    }
  }

  lemma CompactionStandsFor(v: Version, v': Version, below: set<Entry>, low: nat, low': nat, ss: nat)
    requires StandsFor(v, below, low) && VersionOk(v') && Contents(v') <= Contents(v)
    requires ReadsPreserved(Contents(v), Contents(v'), ss) && low <= low' && ss <= low'
    ensures StandsFor(v', below, low')
  {
    forall u, s: nat | low' <= s ensures ReadAt(Contents(v'), u, s) == ReadAt(below, u, s) {
      assert ReadAt(Contents(v), u, s) == ReadAt(below, u, s);
    }
  }

  lemma CompactionKeepsManifest(edits: seq<VersionEdit>, v: Version, edit: VersionEdit, v': Version, level: nat, outs: seq<FileMeta>)
    requires ManifestOk(edits, v) && VersionOk(v) && Applied(v, edit, v') && EditComplete(edit) && LevelsInRange(edit)
    requires edit.added == AtLevel(level, outs) && UniqueNumbers(outs)
    requires forall f :: f in outs ==> NextFileOf(edits) <= f.number < edit.nextFile.value
    requires NextFileOf(edits) <= edit.nextFile.value
    ensures ManifestOk(edits + [edit], v')
  {
    ManifestNumbersUnique(edits, v);
    forall l, f | 0 <= l < NUM_LEVELS && f in v'[l] ensures f in v[l] || (l, f) in edit.added {
      AppliedMembers(v, edit, v', l);
    }
    assert forall a :: a in edit.added ==> a.1 in outs;
    NewNumbersMoveDown(edits, v, edit, v', NextFileOf(edits));
    ManifestAppends(edits, v, edit, v');
  }

  lemma MoveAdds(edits: seq<VersionEdit>, v: Version, edit: VersionEdit, level: nat, f: FileMeta)
    requires ManifestOk(edits, v) && level + 1 < NUM_LEVELS && f in v[level] && EditComplete(edit)
    requires edit.added == AtLevel(level + 1, [f]) && NextFileOf(edits) <= edit.nextFile.value
    ensures edit.added == [(level + 1, f)] && DistinctAdds(edit) && Pairs(edit) == {(level + 1, f.number)}
    ensures Pairs(edit) !! AddedPairs(edits) && PairsBelow(AddedPairs(edits) + Pairs(edit), edit.nextFile.value)
  {
    assert edit.added == [(level + 1, f)];
    assert (level, f.number) in AddedPairs(edits) && (level, f.number).1 < NextFileOf(edits);
    assert (level + 1, f.number) !in AddedPairs(edits);
  }

  lemma MoveKeepsManifest(edits: seq<VersionEdit>, v: Version, edit: VersionEdit, v': Version, level: nat, f: FileMeta)
    requires ManifestOk(edits, v) && NumbersUnique(v) && Applied(v, edit, v') && EditComplete(edit)
    requires level + 1 < NUM_LEVELS && f in v[level]
    requires edit.deleted == NumbersAt(level, [f]) + NumbersAt(level + 1, []) && edit.added == AtLevel(level + 1, [f])
    requires NextFileOf(edits) <= edit.nextFile.value
    ensures ManifestOk(edits + [edit], v')
  {
    MoveAdds(edits, v, edit, level, f);
    MoveMovesDown(edits, v, edit, v', level, f);
    ManifestAppends(edits, v, edit, v');
  }

  lemma MoveMovesDown(edits: seq<VersionEdit>, v: Version, edit: VersionEdit, v': Version, level: nat, f: FileMeta)
    requires MovedDown(edits, v) && NumbersUnique(v) && Applied(v, edit, v') && level + 1 < NUM_LEVELS && f in v[level]
    requires edit.deleted == NumbersAt(level, [f]) + NumbersAt(level + 1, [])
    requires edit.added == [(level + 1, f)] && Pairs(edit) == {(level + 1, f.number)}
    ensures MovedDown(edits + [edit], v')
  {
    var all := edits + [edit];
    assert all[..|edits|] == edits;
    assert AddedPairs(all) == AddedPairs(edits) + Pairs(edit);
    forall l, g, p | 0 <= l < NUM_LEVELS && g in v'[l] && p in AddedPairs(all) && p.1 == g.number ensures p.0 <= l {
      AppliedMembers(v, edit, v', l);
      MoveGoesDown(edits, v, edit, level, f, l, g, p);
    }
  }

  lemma MoveGoesDown(edits: seq<VersionEdit>, v: Version, edit: VersionEdit, level: nat, f: FileMeta, l: nat, g: FileMeta, p: (nat, nat))
    requires MovedDown(edits, v) && NumbersUnique(v) && level + 1 < NUM_LEVELS && f in v[level] && l < NUM_LEVELS
    requires edit.deleted == NumbersAt(level, [f]) + NumbersAt(level + 1, [])
    requires (g in v[l] && (l, g.number) !in edit.deleted) || (l, g) == (level + 1, f)
    requires p in AddedPairs(edits) || p == (level + 1, f.number)
    requires p.1 == g.number
    ensures p.0 <= l
  {
    assert f in [f] && (level, f.number) in edit.deleted;
  }

  /** A commit that gives up no log leaves the split of the history alone. */
  lemma SameLogsSplit(live: set<Entry>, seq0: nat, seq1: nat, history: set<Entry>, flushed: set<Entry>, low: nat, low': nat)
    requires HistorySplit(live, seq0, history, flushed, low) && seq0 <= seq1 && low' <= seq1 < MAX_SEQUENCE
    ensures HistorySplit(live, seq1, history, flushed, low')
  {
  }

  lemma CompactionEditInRange(m: Memory, level: nat, in0: seq<FileMeta>, in1: seq<FileMeta>, outs: seq<FileMeta>)
    requires level + 1 < NUM_LEVELS
    ensures LevelsInRange(CompactionEdit(m, level, in0, in1, outs))
  {
  }

  lemma CommitSameLogsKeepsMemory(s: State, s': State, edit: VersionEdit, v': Version, low: nat)
    requires s.memory.Some? && MemoryOk(s.disk, s.memory.value, s.t) && !s.memory.value.job.Installing?
    requires Commit(s, s', edit, v', false, s.t.flushed, low)
    requires edit.logNumber == Some(s.memory.value.logNumber)
    requires edit.nextFile == Some(s.memory.value.nextFile) && edit.lastSequence == Some(s.memory.value.lastSequence)
    requires s.t.low <= low && SnapshotsOk(s.memory.value.snapshots, low, s.memory.value.lastSequence)
    ensures MemoryOk(s'.disk, s'.memory.value, s'.t)
  {
    var m := s.memory.value;
    assert s.t.flushed == s.t.below + {};
    ManifestReads(s.disk.manifest, edit);
    CommitKeepsBackground(s.disk, m, s.t, edit, v', false, s.t.flushed, low);
  }

  lemma CommitSameLogsKeepsLogs(s: State, s': State, edit: VersionEdit, v': Version, low: nat)
    requires Inv(s) && s.memory.Some? && !s.memory.value.job.Installing?
    requires Commit(s, s', edit, v', false, s.t.flushed, low)
    requires edit.logNumber == Some(s.memory.value.logNumber)
    requires edit.nextFile == Some(s.memory.value.nextFile) && edit.lastSequence == Some(s.memory.value.lastSequence)
    requires low <= s.memory.value.lastSequence
    ensures MinLog(s'.disk.manifest) <= NextFileOf(s'.disk.manifest)
    ensures LogsOk(s'.disk.logs, MinLog(s'.disk.manifest))
    ensures HistorySplit(Live(s'.disk), SequenceOf(s'.disk.manifest), s'.t.history, s'.t.flushed, s'.t.low)
  {
    var m := s.memory.value;
    ManifestReads(s.disk.manifest, edit);
    SameLogsSplit(Live(s.disk), SequenceOf(s.disk.manifest), m.lastSequence, s.t.history, s.t.flushed, s.t.low, low);
  }

  /** What the invariant says of a compaction whose outputs are written. */
  lemma CompactingFacts(s: State)
    requires Inv(s) && s.memory.Some? && s.memory.value.job.Compacting?
    ensures var m := s.memory.value;
            var j := m.job;
            && CompactionReady(m.version, j.level, j.in0, j.in1, j.outs, j.ss)
            && StandsFor(m.version, s.t.flushed, s.t.low)
            && Written(s.disk.tables, j.outs, NextFileOf(s.disk.manifest), m.nextFile)
            && m.version == s.t.committed && NextFileOf(s.disk.manifest) <= m.nextFile
  {
  }

  ghost predicate Outcome(v: Version, m: Memory, v': Version) {
    m.job.Compacting? && m.job.level + 1 < NUM_LEVELS && CompactionInstalled(v, v', m.job.level, m.job.in0, m.job.in1, m.job.outs)
  }

  lemma CompactionInstalls(v: Version, m: Memory, v': Version)
    requires m.job.Compacting? && JobOk(m.job, v, m.imm, m.snapshots, m.lastSequence)
    requires VersionOk(v) && NumbersUnique(v) && Applied(v, CompactionEdit(m, m.job.level, m.job.in0, m.job.in1, m.job.outs), v')
    ensures Outcome(v, m, v')
  {
    var j := m.job;
    InputsAreMembers(v, m);
    LevelsAreSorted(v);
    EditInstalls(v, j.level, j.in0, j.in1, j.outs, CompactionEdit(m, j.level, j.in0, j.in1, j.outs), v');
  }

  lemma InputsAreMembers(v: Version, m: Memory)
    requires VersionOk(v) && m.job.Compacting? && JobOk(m.job, v, m.imm, m.snapshots, m.lastSequence)
    ensures forall f :: f in m.job.in0 ==> f in v[m.job.level]
    ensures forall f :: f in m.job.in1 ==> f in v[m.job.level + 1]
  {
    SelectedAreMembers(v, m.job.level, m.job.in0, m.job.in1);
  }

  lemma LevelsAreSorted(v: Version)
    requires VersionOk(v)
    ensures forall l :: 0 <= l < NUM_LEVELS ==> SortedBySmallest(v[l])
  {
    forall l | 0 <= l < NUM_LEVELS ensures SortedBySmallest(v[l]) { assert ShapeOk(l, v[l]); }
  }

  lemma OutcomeKeepsVersion(v: Version, m: Memory, v': Version, n: nat)
    requires VersionOk(v) && Outcome(v, m, v') && JobOk(m.job, v, m.imm, m.snapshots, m.lastSequence)
    requires NumbersBelow(v, n) && forall f :: f in m.job.outs ==> n <= f.number
    ensures VersionOk(v')
  {
    NewNumbersDiffer(v, m.job.level + 1, m.job.outs, n);
    KeptIsPart(v, m);
    CompactionKeepsVersion(v, v', m.job.level, m.job.in0, m.job.in1, m.job.outs);
  }

  lemma KeptIsPart(v: Version, m: Memory)
    requires m.job.Compacting? && JobOk(m.job, v, m.imm, m.snapshots, m.lastSequence)
    ensures FilesContents(m.job.outs) <= Inputs(m.job.in0, m.job.in1)
  {
  }

  lemma NewNumbersDiffer(v: Version, l: nat, outs: seq<FileMeta>, n: nat)
    requires l < NUM_LEVELS && NumbersBelow(v, n) && forall f :: f in outs ==> n <= f.number
    ensures forall f, g :: f in v[l] && g in outs ==> f.number != g.number
  {
  }

  lemma OutcomeKeepsReads(v: Version, m: Memory, v': Version)
    requires VersionOk(v) && Outcome(v, m, v') && JobOk(m.job, v, m.imm, m.snapshots, m.lastSequence)
    ensures Contents(v') <= Contents(v) && ReadsPreserved(Contents(v), Contents(v'), m.job.ss)
  {
    var j := m.job;
    CompactedSets(v, v', j.level, j.in0, j.in1, j.outs, j.ss);
    DropRulesExact(Rest(v, j.level, j.in0, j.in1), Inputs(j.in0, j.in1), BaseOf(v, j.level), j.ss);
  }

  lemma CompactionCommits(v: Version, m: Memory, n: nat, v': Version, below: set<Entry>, low: nat, low': nat)
    requires m.job.Compacting? && JobOk(m.job, v, m.imm, m.snapshots, m.lastSequence)
    requires StandsFor(v, below, low) && NumbersUnique(v) && low <= low' && m.job.ss <= low'
    requires NumbersBelow(v, n) && forall f :: f in m.job.outs ==> n <= f.number
    requires Applied(v, CompactionEdit(m, m.job.level, m.job.in0, m.job.in1, m.job.outs), v')
    ensures StandsFor(v', below, low')
  {
    CompactionInstalls(v, m, v');
    OutcomeKeepsVersion(v, m, v', n);
    OutcomeKeepsReads(v, m, v');
    CompactionStandsFor(v, v', below, low, low', m.job.ss);
  }

  lemma CommitCompactionKeepsVersion(s: State, s': State, v': Version)
    requires Inv(s) && CommitCompaction(s, s', v')
    ensures StandsFor(v', s'.t.flushed, s'.t.low)
  {
    VersionNumbers(s);
    CompactingFacts(s);
    CompactionCommits(s.memory.value.version, s.memory.value, NextFileOf(s.disk.manifest), v', s.t.flushed, s.t.low, s'.t.low);
  }

  lemma CommitCompactionKeepsTables(s: State, s': State, v': Version)
    requires Inv(s) && CommitCompaction(s, s', v')
    ensures TablesPresent(s'.disk.tables, v')
  {
    var m := s.memory.value;
    var j := m.job;
    AppliedTablesPresent(s.disk.tables, m.version, CompactionEdit(m, j.level, j.in0, j.in1, j.outs), v') by {
      CompactingFacts(s);
    }
  }

  lemma CommitCompactionKeepsManifest(s: State, s': State, v': Version)
    requires Inv(s) && CommitCompaction(s, s', v')
    ensures ManifestOk(s'.disk.manifest, v')
  {
    var m := s.memory.value;
    var j := m.job;
    CompactionEditInRange(m, j.level, j.in0, j.in1, j.outs);
    CompactingFacts(s);
    CompactionKeepsManifest(s.disk.manifest, m.version, CompactionEdit(m, j.level, j.in0, j.in1, j.outs), v', j.level + 1, j.outs);
  }

  lemma CommitCompactionKeepsInv(s: State, s': State, v': Version)
    requires Inv(s) && CommitCompaction(s, s', v')
    ensures Inv(s')
  {
    var m := s.memory.value;
    var j := m.job;
    var edit := CompactionEdit(m, j.level, j.in0, j.in1, j.outs);
    CommitSameLogsKeepsMemory(s, s', edit, v', s'.t.low);
    CommitSameLogsKeepsLogs(s, s', edit, v', s'.t.low);
    CommitCompactionKeepsVersion(s, s', v');
    CommitCompactionKeepsTables(s, s', v');
    CommitCompactionKeepsManifest(s, s', v');
  }

  lemma CommitMoveKeepsVersion(s: State, s': State, level: nat, f: FileMeta, v': Version)
    requires Inv(s) && CommitMove(s, s', level, f, v')
    ensures StandsFor(v', s'.t.flushed, s'.t.low) && TablesPresent(s'.disk.tables, v') && f in s.memory.value.version[level]
  {
    var m := s.memory.value;
    var edit := CompactionEdit(m, level, [f], [], [f]);
    VersionNumbers(s);
    assert StandsFor(m.version, s.t.below, s.t.low) && Pinned(s.disk.tables, m.version, m.nextFile);
    SelectedAreMembers(m.version, level, [f], []);
    assert f in [f];
    LevelsAreSorted(m.version);
    EditInstalls(m.version, level, [f], [], [f], edit, v');
    TrivialMoveKeepsVersion(m.version, v', level, f);
    AppliedTablesPresent(s.disk.tables, m.version, edit, v');
  }

  lemma CommitMoveKeepsInv(s: State, s': State, level: nat, f: FileMeta, v': Version)
    requires Inv(s) && CommitMove(s, s', level, f, v')
    ensures Inv(s')
  {
    var m := s.memory.value;
    var edit := CompactionEdit(m, level, [f], [], [f]);
    CommitSameLogsKeepsMemory(s, s', edit, v', s'.t.low);
    CommitSameLogsKeepsLogs(s, s', edit, v', s'.t.low);
    CommitMoveKeepsVersion(s, s', level, f, v');
    VersionNumbers(s);
    MoveKeepsManifest(s.disk.manifest, m.version, edit, v', level, f);
  }

  // ---------------------------------------------------------------- installing in memory

  /** The committed version becomes current; after a flush the immutable memtable is dropped in the same step. */
  ghost predicate Install(s: State, s': State) {
    && s.memory.Some? && s.memory.value.job.Installing?
    && var m := s.memory.value;
       s' == s.(memory := Some(m.(version := m.job.version, logNumber := m.job.logNumber, imm := if m.job.dropImm then None else m.imm, job := Idle)),
                t := s.t.(below := s.t.flushed))
  }

  lemma InstallKeepsRecent(d: Disk, m: Memory, t: Trace)
    requires m.job.Installing? && InStep(m.job, m.version, t.committed, m.logNumber, MinLog(d.manifest), t.below, t.flushed, TableSet(m.imm))
    requires RecentOk(d.logs, MinLog(d.manifest), m.logFile, m.synced, m.mem, m.imm, m.writing, ImmLive(m), t.immLog, t.history, t.below,
                      m.lastSequence, m.nextFile)
    ensures var imm := if m.job.dropImm then None else m.imm;
            RecentOk(d.logs, MinLog(d.manifest), m.logFile, m.synced, m.mem, imm, m.writing, imm.Some?, t.immLog, t.history, t.flushed,
                     m.lastSequence, m.nextFile)
  {
    assert t.flushed == t.below + if m.job.dropImm then TableSet(m.imm) else {};
    if m.job.dropImm {
      assert t.below + TableSet(m.imm) + {} + Elements(m.mem) + BatchSet(m.writing) == t.history;
    } else {
      assert t.flushed == t.below;
    }
  }

  lemma InstallKeepsBackground(s: State, s': State)
    requires Inv(s) && Install(s, s')
    ensures var m, m' := s.memory.value, s'.memory.value;
            BackgroundOk(s'.disk.manifest, s'.disk.tables, m'.version, m'.job, m'.imm, m'.snapshots, m'.pinned, m'.nextFile,
                         m'.lastSequence, m'.logNumber, s'.t.below, s'.t.flushed, s'.t.low, s'.t.committed)
  {
    ManifestNumbersUnique(s.disk.manifest, s.t.committed);
    BelowMore(s.t.committed, NextFileOf(s.disk.manifest), s.memory.value.nextFile);
  }

  lemma InstallKeepsInv(s: State, s': State)
    requires Inv(s) && Install(s, s')
    ensures Inv(s')
  {
    InstallKeepsRecent(s.disk, s.memory.value, s.t);
    InstallKeepsBackground(s, s');
  }

  // ---------------------------------------------------------------- deleting files

  ghost predicate Uses(v: Version, n: nat) {
    exists l, f :: 0 <= l < NUM_LEVELS && f in v[l] && f.number == n
  }

  /** A table that neither the current version, a pinned one nor the running job uses is removed (RemoveObsoleteFiles). */
  ghost predicate DeleteTable(s: State, s': State, n: nat) {
    && s.memory.Some?
    && var m := s.memory.value;
       && !m.job.Installing? && !Uses(m.version, n)
       && (forall v :: v in m.pinned ==> !Uses(v, n))
       && (forall f :: f in JobTables(m.job) ==> f.number != n)
       && s' == s.(disk := s.disk.(tables := s.disk.tables - {n}))
  }

  lemma UnusedTable(tables: map<nat, seq<Entry>>, v: Version, n: nat)
    requires TablesPresent(tables, v) && !Uses(v, n)
    ensures TablesPresent(tables - {n}, v)
  {
    forall l, f | 0 <= l < NUM_LEVELS && f in v[l] ensures TablePresent(tables - {n}, f) {
      assert TablePresent(tables, f) && f.number != n;
    }
  }

  lemma UnusedTables(tables: map<nat, seq<Entry>>, vs: seq<Version>, next: nat, n: nat)
    requires AllPinned(tables, vs, next) && forall v :: v in vs ==> !Uses(v, n)
    ensures AllPinned(tables - {n}, vs, next)
  {
    forall v | v in vs ensures Pinned(tables - {n}, v, next) {
      assert Pinned(tables, v, next);
      UnusedTable(tables, v, n);
    }
  }

  lemma UnusedByJob(tables: map<nat, seq<Entry>>, fs: seq<FileMeta>, lo: nat, hi: nat, n: nat)
    requires Written(tables, fs, lo, hi) && forall f :: f in fs ==> f.number != n
    ensures Written(tables - {n}, fs, lo, hi)
  {
  }

  lemma DeleteTableKeepsMemory(s: State, s': State, n: nat)
    requires s.memory.Some? && MemoryOk(s.disk, s.memory.value, s.t) && DeleteTable(s, s', n)
    ensures MemoryOk(s'.disk, s'.memory.value, s'.t) && TablesPresent(s'.disk.tables, s.t.committed)
  {
    var m := s.memory.value;
    UnusedTable(s.disk.tables, m.version, n);
    UnusedTables(s.disk.tables, m.pinned, m.nextFile, n);
    UnusedByJob(s.disk.tables, JobTables(m.job), NextFileOf(s.disk.manifest), m.nextFile, n);
  }

  lemma DeleteTableKeepsInv(s: State, s': State, n: nat)
    requires Inv(s) && DeleteTable(s, s', n)
    ensures Inv(s')
  {
    DeleteTableKeepsMemory(s, s', n);
  }

  /** A log older than the version set's log number is removed. */
  ghost predicate DeleteLog(s: State, s': State, n: nat) {
    && s.memory.Some? && !s.memory.value.job.Installing? && n < s.memory.value.logNumber
    && s' == s.(disk := s.disk.(logs := s.disk.logs - {n}))
  }

  lemma DeadLog(logs: map<nat, seq<Batch>>, minLog: nat, n: nat)
    requires n < minLog
    ensures LiveLogs(logs - {n}, minLog) == LiveLogs(logs, minLog)
    ensures LogsOk(logs, minLog) ==> LogsOk(logs - {n}, minLog)
  {
    var logs' := logs - {n};
    forall e | e in LiveLogs(logs, minLog) ensures e in LiveLogs(logs', minLog) {
      var k :| k in logs && minLog <= k && e in LogContents(logs[k]);
      assert k in logs' && logs'[k] == logs[k];
    }
  }

  lemma DeleteLogKeepsRecent(d: Disk, m: Memory, t: Trace, n: nat)
    requires n < MinLog(d.manifest)
    requires RecentOk(d.logs, MinLog(d.manifest), m.logFile, m.synced, m.mem, m.imm, m.writing, ImmLive(m), t.immLog, t.history, t.below,
                      m.lastSequence, m.nextFile)
    ensures RecentOk(d.logs - {n}, MinLog(d.manifest), m.logFile, m.synced, m.mem, m.imm, m.writing, ImmLive(m), t.immLog, t.history, t.below,
                     m.lastSequence, m.nextFile)
  {
  }

  lemma DeleteLogKeepsInv(s: State, s': State, n: nat)
    requires Inv(s) && DeleteLog(s, s', n)
    ensures Inv(s')
  {
    assert n < MinLog(s.disk.manifest);
    DeadLog(s.disk.logs, MinLog(s.disk.manifest), n);
    DeleteLogKeepsRecent(s.disk, s.memory.value, s.t, n);
  }
}
