/** The store as a state machine over disk and memory: writes, memtable switches, flushes, moves, compactions,
    file deletion, crashes and recovery (db/db_impl.cc, db/version_set.cc).

    Background work is done by one job at a time. A crash may come between any two steps and may tear off, from each log that
    recovery would read, records that were not synced.
 */
module Store {
  import opened InternalKeys
  import opened History
  import opened Versions
  import opened Selection
  import opened VersionEdits
  import opened Compaction
  import opened Installs
  import opened Disk

  // ---------------------------------------------------------------- state

  /** The background job: idle, a flush whose table is written (`None` for an empty memtable), a compaction whose
      outputs are written, or an edit that is in the manifest but not yet installed in memory. */
  datatype Job =
    | Idle
    | Flushing(table: Option<FileMeta>)
    | Compacting(level: nat, in0: seq<FileMeta>, in1: seq<FileMeta>, outs: seq<FileMeta>, ss: nat)
    | Installing(version: Version, logNumber: nat, dropImm: bool)

  /** `synced` and `immSynced` count the records at the start of the newest log, and of the immutable memtable's log, that were
      synced: switching to a new log closes the old one without a sync. */
  datatype Memory = Memory(
    mem: seq<Entry>, imm: Option<seq<Entry>>, version: Version,
    lastSequence: nat, logNumber: nat, logFile: nat, nextFile: nat, synced: nat, immSynced: nat,
    writing: Option<Batch>, job: Job, snapshots: seq<nat>, pinned: seq<Version>)

  /** Specification variables. `history`: every entry that reached a log and was not torn off. `flushed`: the part of it
      no longer in a live log. `below`: the part the in-memory version stands for. `low`: the largest oldest-snapshot any
      compaction used. `committed`: the version the manifest replays to. `immLog`: the log of the immutable memtable. */
  datatype Trace = Trace(history: set<Entry>, flushed: set<Entry>, below: set<Entry>, low: nat, committed: Version, immLog: nat)

  /** `memory` is `None` between a crash and the next open. */
  datatype State = State(disk: Disk, memory: Option<Memory>, t: Trace)

  function MemSet(m: Memory): set<Entry> { Elements(m.mem) }

  function TableSet(imm: Option<seq<Entry>>): set<Entry> { if imm.Some? then Elements(imm.value) else {} }

  function BatchSet(writing: Option<Batch>): set<Entry> { if writing.Some? then Elements(BatchEntries(writing.value)) else {} }

  function ImmSet(m: Memory): set<Entry> { TableSet(m.imm) }

  function WritingSet(m: Memory): set<Entry> { BatchSet(m.writing) }

  /** The immutable memtable still depends on its log. */
  predicate ImmLive(m: Memory) {
    m.imm.Some? && !(m.job.Installing? && m.job.dropImm)
  }

  /** Everything a reader of the running store can see. */
  ghost function View(m: Memory): set<Entry> {
    MemSet(m) + ImmSet(m) + Contents(m.version)
  }

  ghost function Live(d: Disk): set<Entry> {
    LiveLogs(d.logs, MinLog(d.manifest))
  }

  /** Everything a recovery from this disk would see. */
  ghost function Recoverable(s: State): set<Entry> {
    Contents(s.t.committed) + Live(s.disk)
  }

  // ---------------------------------------------------------------- invariant: disk

  ghost predicate LogsOk(logs: map<nat, seq<Batch>>, minLog: nat) {
    && (forall n :: n in logs ==> Ascending(logs[n]) && RecordsInRange(logs[n]))
    && (forall n, k :: n in logs && k in logs && minLog <= n < k ==> SeqBefore(LogContents(logs[n]), LogContents(logs[k])))
  }

  ghost predicate HistorySplit(live: set<Entry>, diskSequence: nat, history: set<Entry>, flushed: set<Entry>, low: nat) {
    && history == flushed + live
    && Distinct(history) && SeqAtMost(history, MAX_SEQUENCE - 1)
    && SeqBefore(flushed, live)
    && SeqAtMost(flushed, diskSequence)
    && low <= diskSequence < MAX_SEQUENCE
  }

  /** `v` stands for the entries `h`: it holds some of them and answers every read at or above `low` as `h` does. */
  ghost predicate StandsFor(v: Version, h: set<Entry>, low: nat) {
    VersionOk(v) && Contents(v) <= h && ReadsPreserved(h, Contents(v), low)
  }

  ghost predicate DiskOk(d: Disk, t: Trace) {
    && ManifestOk(d.manifest, t.committed)
    && StandsFor(t.committed, t.flushed, t.low)
    && TablesPresent(d.tables, t.committed)
    && MinLog(d.manifest) <= NextFileOf(d.manifest)
    && LogsOk(d.logs, MinLog(d.manifest))
    && HistorySplit(Live(d), SequenceOf(d.manifest), t.history, t.flushed, t.low)
  }

  // ---------------------------------------------------------------- invariant: memory
  //
  // Each part mentions only the fields it depends on, so that a step needs to argue only about the parts it touches.

  /** The newest log holds the memtable (and a write in flight); the only other live log is the immutable memtable's. */
  ghost predicate LogsMatch(logs: map<nat, seq<Batch>>, minLog: nat, logFile: nat, synced: nat, newest: set<Entry>,
                            immLive: bool, immLog: nat, imm: set<Entry>)
  {
    && logFile in logs && minLog <= logFile && synced <= |logs[logFile]|
    && LogContents(logs[logFile]) == newest
    && (forall n :: n in logs ==> n <= logFile)
    && (forall n :: n in logs && minLog <= n < logFile ==> immLive && n == immLog)
    && (immLive ==> immLog in logs && minLog <= immLog < logFile && LogContents(logs[immLog]) == imm)
  }

  /** The history is what the version stands for, then the immutable memtable, the memtable and the write in flight, in
      increasing sequence order. */
  ghost predicate Layers(history: set<Entry>, below: set<Entry>, imm: set<Entry>, mem: set<Entry>, writing: set<Entry>, last: nat) {
    && history == below + imm + mem + writing
    && SeqBefore(below, imm + mem + writing)
    && SeqBefore(imm, mem + writing)
    && SeqAtMost(below + imm + mem, last)
  }

  ghost predicate SortedTables(mem: seq<Entry>, imm: Option<seq<Entry>>) {
    Sorted(mem) && (imm.Some? ==> Sorted(imm.value))
  }

  predicate WriteFollows(writing: Option<Batch>, last: nat) {
    last < MAX_SEQUENCE && (writing.Some? ==> writing.value.first == last + 1 && last + |writing.value.ops| < MAX_SEQUENCE)
  }

  predicate LogsBelow(logs: map<nat, seq<Batch>>, next: nat) {
    forall n :: n in logs ==> n < next
  }

  predicate SnapshotsOk(snapshots: seq<nat>, low: nat, last: nat) {
    && low <= last
    && (forall i :: 0 <= i < |snapshots| ==> low <= snapshots[i] <= last)
    && (forall i, j :: 0 <= i < j < |snapshots| ==> snapshots[i] <= snapshots[j])
  }

  ghost predicate Pinned(tables: map<nat, seq<Entry>>, v: Version, next: nat) {
    TablesPresent(tables, v) && NumbersBelow(v, next)
  }

  ghost predicate AllPinned(tables: map<nat, seq<Entry>>, vs: seq<Version>, next: nat) {
    forall v :: v in vs ==> Pinned(tables, v, next)
  }

  /** New tables of a running job: written, and numbered between the manifest's counter and the in-memory one. */
  ghost predicate Written(tables: map<nat, seq<Entry>>, fs: seq<FileMeta>, lo: nat, hi: nat) {
    forall f :: f in fs ==> TablePresent(tables, f) && lo <= f.number < hi
  }

  ghost predicate NoExposure(v: Version, level: nat, in0: seq<FileMeta>, in1: seq<FileMeta>, ss: nat) {
    level + 1 < NUM_LEVELS
    && forall t :: t in Inputs(in0, in1) ==> !ExposedBy(Rest(v, level, in0, in1), Inputs(in0, in1), BaseOf(v, level), ss, t)
  }

  ghost predicate FlushReady(table: Option<FileMeta>, imm: Option<seq<Entry>>) {
    && imm.Some?
    && (table.None? ==> imm.value == [])
    && (table.Some? ==> FileOk(table.value) && table.value.entries == imm.value)
  }

  ghost predicate CompactionReady(v: Version, level: nat, in0: seq<FileMeta>, in1: seq<FileMeta>, outs: seq<FileMeta>, ss: nat) {
    && level + 1 < NUM_LEVELS
    && SelectionClosed(level, v[level], v[level + 1], in0, in1)
    && NoExposure(v, level, in0, in1, ss)
    && FilesOk(outs) && DisjointSorted(outs) && UniqueNumbers(outs)
    && FilesContents(outs) == Kept(Inputs(in0, in1), BaseOf(v, level), ss)
  }

  predicate AtOrBelowSnapshots(ss: nat, snapshots: seq<nat>, last: nat) {
    ss <= last && forall i :: 0 <= i < |snapshots| ==> ss <= snapshots[i]
  }

  function JobTables(job: Job): seq<FileMeta> {
    match job
    case Flushing(Some(f)) => [f]
    case Compacting(_, _, _, outs, _) => outs
    case _ => []
  }

  ghost predicate JobOk(job: Job, v: Version, imm: Option<seq<Entry>>, snapshots: seq<nat>, last: nat) {
    match job
    case Flushing(table) => FlushReady(table, imm)
    case Compacting(level, in0, in1, outs, ss) => CompactionReady(v, level, in0, in1, outs, ss) && AtOrBelowSnapshots(ss, snapshots, last)
    case Installing(_, _, dropImm) => dropImm ==> imm.Some?
    case Idle => true
  }

  /** How memory relates to the manifest: equal, unless an edit waits to be installed. */
  ghost predicate InStep(job: Job, v: Version, committed: Version, logNumber: nat, minLog: nat, below: set<Entry>, flushed: set<Entry>, imm: set<Entry>) {
    match job
    case Installing(v', log, dropImm) => v' == committed && log == minLog && flushed == below + if dropImm then imm else {}
    case _ => v == committed && logNumber == minLog && below == flushed
  }

  /** The write path: logs, memtables and the write in flight. */
  ghost predicate RecentOk(logs: map<nat, seq<Batch>>, minLog: nat, logFile: nat, synced: nat, mem: seq<Entry>, imm: Option<seq<Entry>>,
                           writing: Option<Batch>, immLive: bool, immLog: nat, history: set<Entry>, below: set<Entry>, last: nat, next: nat)
  {
    && LogsMatch(logs, minLog, logFile, synced, Elements(mem) + BatchSet(writing), immLive, immLog, TableSet(imm))
    && Layers(history, below, TableSet(imm), Elements(mem), BatchSet(writing), last)
    && SortedTables(mem, imm)
    && WriteFollows(writing, last)
    && LogsBelow(logs, next)
  }

  /** The background side: the version, its tables and the running job. */
  ghost predicate BackgroundOk(manifest: seq<VersionEdit>, tables: map<nat, seq<Entry>>, v: Version, job: Job, imm: Option<seq<Entry>>,
                               snapshots: seq<nat>, pinned: seq<Version>, next: nat, last: nat, logNumber: nat,
                               below: set<Entry>, flushed: set<Entry>, low: nat, committed: Version)
  {
    && StandsFor(v, below, low)
    && NextFileOf(manifest) <= next && SequenceOf(manifest) <= last
    && SnapshotsOk(snapshots, low, last)
    && Pinned(tables, v, next) && AllPinned(tables, pinned, next)
    && Written(tables, JobTables(job), NextFileOf(manifest), next)
    && JobOk(job, v, imm, snapshots, last)
    && InStep(job, v, committed, logNumber, MinLog(manifest), below, flushed, TableSet(imm))
  }

  ghost predicate MemoryOk(d: Disk, m: Memory, t: Trace) {
    && RecentOk(d.logs, MinLog(d.manifest), m.logFile, m.synced, m.mem, m.imm, m.writing, ImmLive(m), t.immLog, t.history, t.below,
                m.lastSequence, m.nextFile)
    && BackgroundOk(d.manifest, d.tables, m.version, m.job, m.imm, m.snapshots, m.pinned, m.nextFile, m.lastSequence, m.logNumber,
                    t.below, t.flushed, t.low, t.committed)
  }

  ghost predicate Inv(s: State) {
    DiskOk(s.disk, s.t) && (s.memory.Some? ==> MemoryOk(s.disk, s.memory.value, s.t))
  }

  // ---------------------------------------------------------------- reads agree with the history

  /** The layers of the store, newest first, hold disjoint ages of the history. */
  lemma LayerOrder(history: set<Entry>, below: set<Entry>, imm: set<Entry>, mem: set<Entry>, writing: set<Entry>, last: nat, stored: set<Entry>)
    requires Layers(history, below, imm, mem, writing, last) && stored <= below && Distinct(history)
    ensures NewerThan(mem, imm) && NewerThan(imm, stored) && NewerThan(mem, stored)
    ensures SeqBefore(below, imm) && Distinct(below + imm) && Distinct(stored + imm) && Distinct(mem + imm + stored)
  {
  }

  lemma AgreeAddNewer(a: set<Entry>, b: set<Entry>, n: set<Entry>, low: nat)
    requires ReadsPreserved(a, b, low) && b <= a && SeqBefore(a, n) && Distinct(a + n)
    ensures ReadsPreserved(a + n, b + n, low)
  {
    forall u, s | low <= s ensures ReadAt(b + n, u, s) == ReadAt(a + n, u, s) {
      var top := Newest(n, u, s);
      if top.Some? {
        ReadsDetermine(a + n, u, s, top);
        ReadsDetermine(b + n, u, s, top);
      } else {
        var ra, rb := Newest(a, u, s), Newest(b, u, s);
        ReadsDetermine(a + n, u, s, ra);
        ReadsDetermine(b + n, u, s, rb);
        assert ReadAt(a, u, s) == ReadAt(b, u, s);
      }
    }
  }

  lemma InvisibleAbove(a: set<Entry>, w: set<Entry>, u: UserKey, s: nat)
    requires Distinct(a + w) && forall e :: e in w ==> s < e.key.sequence
    ensures ReadAt(a + w, u, s) == ReadAt(a, u, s)
  {
    ReadsDetermine(a + w, u, s, Newest(a, u, s));
    ReadsDetermine(a, u, s, Newest(a, u, s));
  }

  /** In every state that keeps the invariant, a read at a live snapshot answers as the history does. */
  lemma ReadsMatchHistory(s: State, u: UserKey, snapshot: nat)
    requires Inv(s) && s.memory.Some?
    requires s.t.low <= snapshot <= s.memory.value.lastSequence
    ensures ReadAt(View(s.memory.value), u, snapshot) == ReadAt(s.t.history, u, snapshot)
  {
    var m := s.memory.value;
    var recent := ImmSet(m) + MemSet(m) + WritingSet(m);
    assert s.t.history == s.t.below + recent;
    AgreeAddNewer(s.t.below, Contents(m.version), recent, s.t.low);
    assert Contents(m.version) + recent == View(m) + WritingSet(m);
    assert forall e :: e in WritingSet(m) ==> snapshot < e.key.sequence by {
      if m.writing.Some? { BatchRange(m.writing.value); }
    }
    InvisibleAbove(View(m), WritingSet(m), u, snapshot);
  }

  /** In every state that keeps the invariant, what a recovery would read answers as the history does. */
  lemma RecoverableMatchesHistory(s: State, u: UserKey, snapshot: nat)
    requires Inv(s) && s.t.low <= snapshot
    ensures ReadAt(Recoverable(s), u, snapshot) == ReadAt(s.t.history, u, snapshot)
  {
    AgreeAddNewer(s.t.flushed, Contents(s.t.committed), Live(s.disk), s.t.low);
  }
}
