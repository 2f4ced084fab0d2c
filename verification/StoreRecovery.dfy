/** Crash and recovery (db/db_impl.cc: Recover, RecoverLogFile, DB::Open; db/version_set.cc: Recover, WriteSnapshot). */
module StoreRecovery {
  import opened InternalKeys
  import opened History
  import opened Versions
  import opened Selection
  import opened VersionEdits
  import opened Compaction
  import opened Installs
  import opened Flushes
  import opened Disk
  import opened MemTables
  import opened Store
  import opened StoreSteps
  import opened StoreBackground

  // ---------------------------------------------------------------- crash

  /** How many of the `size` records of log `n` are kept: all, unless `kept` names fewer. */
  function Surviving(kept: map<nat, nat>, n: nat, size: nat): (k: nat)
    ensures k <= size
  {
    if n in kept && kept[n] <= size then kept[n] else size
  }

  /** The records that were synced. Of a log that recovery would not read none need survive. */
  function Synced(s: State): map<nat, nat> {
    map n | n in s.disk.logs ::
      if s.memory.None? then 0
      else if n == s.memory.value.logFile then s.memory.value.synced
      else if n == s.t.immLog then s.memory.value.immSynced else 0
  }

  function TornLogs(logs: map<nat, seq<Batch>>, kept: map<nat, nat>): map<nat, seq<Batch>> {
    map n | n in logs :: logs[n][..Surviving(kept, n, |logs[n]|)]
  }

  /** Memory is lost, and so are records at the end of any log; synced ones are not. */
  ghost predicate Crash(s: State, s': State, kept: map<nat, nat>) {
    && s.memory.Some?
    && (forall n :: n in s.disk.logs ==> Surviving(Synced(s), n, |s.disk.logs[n]|) <= Surviving(kept, n, |s.disk.logs[n]|))
    && var d' := s.disk.(logs := TornLogs(s.disk.logs, kept));
       s' == State(d', None, s.t.(history := s.t.flushed + Live(d')))
  }

  /** What is lost if each log keeps only its first records. */
  ghost function Lost(logs: map<nat, seq<Batch>>, minLog: nat, kept: map<nat, nat>): set<Entry> {
    set n, e | n in logs && minLog <= n && e in LogContents(logs[n][Surviving(kept, n, |logs[n]|)..]) :: e
  }

  lemma PrefixContents(bs: seq<Batch>, keep: nat)
    requires keep <= |bs|
    ensures LogContents(bs) == LogContents(bs[..keep]) + LogContents(bs[keep..])
  {
    assert bs == bs[..keep] + bs[keep..];
    assert forall b :: b in bs <==> b in bs[..keep] || b in bs[keep..];
  }

  lemma TornContents(logs: map<nat, seq<Batch>>, minLog: nat, kept: map<nat, nat>)
    ensures var logs' := TornLogs(logs, kept);
            && LiveLogs(logs', minLog) <= LiveLogs(logs, minLog)
            && LiveLogs(logs, minLog) <= LiveLogs(logs', minLog) + Lost(logs, minLog, kept)
  {
    var logs' := TornLogs(logs, kept);
    forall n | n in logs
      ensures LogContents(logs[n]) == LogContents(logs'[n]) + LogContents(logs[n][Surviving(kept, n, |logs[n]|)..])
    {
      PrefixContents(logs[n], Surviving(kept, n, |logs[n]|));
    }
    forall e | e in LiveLogs(logs', minLog) ensures e in LiveLogs(logs, minLog) {
      var k :| k in logs' && minLog <= k && e in LogContents(logs'[k]);
      assert e in LogContents(logs[k]);
    }
    forall e | e in LiveLogs(logs, minLog) ensures e in LiveLogs(logs', minLog) + Lost(logs, minLog, kept) {
      var k :| k in logs && minLog <= k && e in LogContents(logs[k]);
      assert e in LogContents(logs'[k]) || e in LogContents(logs[k][Surviving(kept, k, |logs[k]|)..]);
    }
  }

  lemma TornLogsOk(logs: map<nat, seq<Batch>>, minLog: nat, kept: map<nat, nat>)
    requires LogsOk(logs, minLog)
    ensures LogsOk(TornLogs(logs, kept), minLog)
  {
    var logs' := TornLogs(logs, kept);
    forall n | n in logs' ensures Ascending(logs'[n]) && RecordsInRange(logs'[n]) && LogContents(logs'[n]) <= LogContents(logs[n]) {
      PrefixContents(logs[n], Surviving(kept, n, |logs[n]|));
    }
    forall i, k | i in logs' && k in logs' && minLog <= i < k ensures SeqBefore(LogContents(logs'[i]), LogContents(logs'[k])) {
      assert SeqBefore(LogContents(logs[i]), LogContents(logs[k]));
    }
  }

  lemma LessLive(live: set<Entry>, live': set<Entry>, diskSequence: nat, history: set<Entry>, flushed: set<Entry>, low: nat)
    requires HistorySplit(live, diskSequence, history, flushed, low) && live' <= live
    ensures HistorySplit(live', diskSequence, flushed + live', flushed, low)
  {
  }

  lemma CrashKeepsInv(s: State, s': State, kept: map<nat, nat>)
    requires Inv(s) && Crash(s, s', kept)
    ensures Inv(s')
  {
    TornContents(s.disk.logs, MinLog(s.disk.manifest), kept);
    TornLogsOk(s.disk.logs, MinLog(s.disk.manifest), kept);
    LessLive(Live(s.disk), Live(s'.disk), SequenceOf(s.disk.manifest), s.t.history, s.t.flushed, s.t.low);
  }

  // ---------------------------------------------------------------- interrupted recoveries

  /** A recovery that stopped before its manifest was current may leave a table or an empty log with a new number. */
  ghost predicate OrphanTable(s: State, s': State, n: nat, entries: seq<Entry>) {
    && s.memory.None? && NextFileOf(s.disk.manifest) <= n
    && s' == s.(disk := s.disk.(tables := s.disk.tables[n := entries]))
  }

  ghost predicate OrphanLog(s: State, s': State, n: nat) {
    && s.memory.None? && n !in s.disk.logs
    && s' == s.(disk := s.disk.(logs := s.disk.logs[n := []]))
  }

  lemma OrphanTableKeepsInv(s: State, s': State, n: nat, entries: seq<Entry>)
    requires Inv(s) && OrphanTable(s, s', n, entries)
    ensures Inv(s')
  {
    ManifestNumbersUnique(s.disk.manifest, s.t.committed);
    forall l, f | 0 <= l < NUM_LEVELS && f in s.t.committed[l] ensures TablePresent(s'.disk.tables, f) {
      assert TablePresent(s.disk.tables, f) && f.number < NextFileOf(s.disk.manifest);
    }
  }

  lemma OrphanLogKeepsInv(s: State, s': State, n: nat)
    requires Inv(s) && OrphanLog(s, s', n)
    ensures Inv(s')
  {
    EmptyLogAdds(s.disk.logs, MinLog(s.disk.manifest), n);
  }

  // ---------------------------------------------------------------- tables rebuilt from logs

  /** Files listed from oldest to newest. */
  ghost predicate AgeOrdered(fs: seq<FileMeta>) {
    forall i, j :: 0 <= i < j < |fs| ==> fs[i].number < fs[j].number && SeqBefore(Elements(fs[i].entries), Elements(fs[j].entries))
  }

  /** Files that may join level 0 together: sound tables, oldest first, numbered in [lo, hi). */
  ghost predicate Recovered(fs: seq<FileMeta>, lo: nat, hi: nat) {
    FilesOk(fs) && AgeOrdered(fs) && forall f :: f in fs ==> lo <= f.number < hi
  }

  lemma RecoveredAppend(fs: seq<FileMeta>, lo: nat, n: nat, size: nat, mem: seq<Entry>)
    requires Recovered(fs, lo, n) && lo <= n && mem != [] && Sorted(mem)
    requires SeqBefore(FilesContents(fs), Elements(mem)) && SeqAtMost(Elements(mem), MAX_SEQUENCE)
    ensures Recovered(fs + [OutputFile(n, size, mem)], lo, n + 1)
    ensures FilesContents(fs + [OutputFile(n, size, mem)]) == FilesContents(fs) + Elements(mem)
  {
    var f := OutputFile(n, size, mem);
    forall e | e in mem ensures e.key.sequence <= MAX_SEQUENCE { assert e in Elements(mem); }
    OutputFileOk(n, size, mem);
    forall i | 0 <= i < |fs| ensures fs[i].number < n && SeqBefore(Elements(fs[i].entries), Elements(mem)) {
      assert fs[i] in fs;
      assert forall e :: e in Elements(fs[i].entries) ==> e in FilesContents(fs);
    }
    assert forall g :: g in fs + [f] <==> g in fs || g == f;
  }

  /** Write the rebuilt memtable as a level-0 table, unless it is empty. The number is taken in either case. */
  method WriteLevel0Table(files: seq<FileMeta>, mem: seq<Entry>, next: nat, size: nat, ghost lo: nat, ghost all: set<Entry>)
    returns (files': seq<FileMeta>, next': nat)
    requires Replaying(files, mem, lo, next, all)
    ensures Replaying(files', [], lo, next', all) && next' == next + 1
    ensures files <= files'
  {
    next' := next + 1;
    if mem == [] {
      files' := files;
    } else {
      RecoveredAppend(files, lo, next, size, mem);
      files' := files + [OutputFile(next, size, mem)];
    }
  }

  /** While a log is replayed: the tables and the memtable hold `all`, tables first. */
  ghost predicate Replaying(files: seq<FileMeta>, mem: seq<Entry>, lo: nat, next: nat, all: set<Entry>) {
    && Recovered(files, lo, next) && lo <= next && Sorted(mem)
    && FilesContents(files) + Elements(mem) == all
    && SeqBefore(FilesContents(files), Elements(mem)) && SeqAtMost(Elements(mem), MAX_SEQUENCE)
  }

  lemma ReplayBatch(files: seq<FileMeta>, mem: seq<Entry>, lo: nat, next: nat, all: set<Entry>, b: Batch)
    requires Replaying(files, mem, lo, next, all) && SeqBefore(all, Elements(BatchEntries(b)))
    requires SeqAtMost(Elements(BatchEntries(b)), MAX_SEQUENCE)
    ensures Replaying(files, InsertAll(mem, BatchEntries(b)), lo, next, all + Elements(BatchEntries(b)))
  {
    BatchRange(b);
    forall x, y | x in mem && y in BatchEntries(b) ensures x.key.sequence != y.key.sequence {
      assert x in Elements(mem) && y in Elements(BatchEntries(b));
    }
    InsertAllKeepsOrder(mem, BatchEntries(b));
  }

  lemma NextRecord(log: seq<Batch>, i: nat, before: set<Entry>)
    requires i < |log| && Ascending(log) && SeqBefore(before, LogContents(log))
    ensures LogContents(log[..i + 1]) == LogContents(log[..i]) + Elements(BatchEntries(log[i]))
    ensures SeqBefore(before + LogContents(log[..i]), Elements(BatchEntries(log[i])))
  {
    assert log[..i + 1] == log[..i] + [log[i]];
    LogAppend(log[..i], log[i]);
    forall x, y | x in before + LogContents(log[..i]) && y in Elements(BatchEntries(log[i])) ensures x.key.sequence < y.key.sequence {
      assert log[i] in log && y in LogContents(log);
      if x !in before {
        var b :| b in log[..i] && x in BatchEntries(b);
        var k :| 0 <= k < i && log[k] == b;
        assert SeqBefore(Elements(BatchEntries(log[k])), Elements(BatchEntries(log[i])));
      }
    }
  }

  predicate LastOf(log: seq<Batch>, last: nat) {
    exists b :: b in log && last == b.first + |b.ops| - 1
  }

  /** The running maximum of the records' last sequence numbers. */
  ghost predicate MaxSoFar(all: set<Entry>, start: nat, log: seq<Batch>, max: nat) {
    SeqAtMost(all, max) && start <= max && (max == start || LastOf(log, max))
  }

  lemma RecordAtMost(log: seq<Batch>, b: Batch, all: set<Entry>, start: nat, max: nat)
    requires MaxSoFar(all, start, log, max) && b in log
    ensures MaxSoFar(all + Elements(BatchEntries(b)), start, log, if max < b.first + |b.ops| - 1 then b.first + |b.ops| - 1 else max)
  {
    BatchRange(b);
  }

  /** Replay one log: insert record by record, write a table whenever `full` says so and once more at the end. */
  method RecoverLogFile(log: seq<Batch>, files: seq<FileMeta>, next: nat, maxSequence: nat, full: nat -> bool, size: nat,
                        ghost lo: nat, ghost all: set<Entry>)
    returns (files': seq<FileMeta>, next': nat, max': nat)
    requires Replaying(files, [], lo, next, all) && Ascending(log)
    requires SeqBefore(all, LogContents(log)) && SeqAtMost(all, maxSequence) && SeqAtMost(LogContents(log), MAX_SEQUENCE)
    ensures Replaying(files', [], lo, next', all + LogContents(log)) && next <= next'
    ensures MaxSoFar(all + LogContents(log), maxSequence, log, max')
  {
    var mem: seq<Entry> := [];
    var open := false;
    files', next', max' := files, next, maxSequence;
    assert LogContents(log[..0]) == {};
    assert all + {} == all;
    for i := 0 to |log|
      invariant Replaying(files', mem, lo, next', all + LogContents(log[..i])) && next <= next'
      invariant MaxSoFar(all + LogContents(log[..i]), maxSequence, log, max')
      invariant !open ==> mem == []
    {
      var b := log[i];
      NextRecord(log, i, all);
      ghost var so := all + LogContents(log[..i]);
      assert so + Elements(BatchEntries(b)) == all + LogContents(log[..i + 1]);
      RecordAtMost(log, b, so, maxSequence, max');
      RecordInLog(log, b);
      ReplayBatch(files', mem, lo, next', so, b);
      mem, open := InsertAll(mem, BatchEntries(b)), true;
      if max' < b.first + |b.ops| - 1 {
        max' := b.first + |b.ops| - 1;
      }
      if full(i) {
        files', next' := WriteLevel0Table(files', mem, next', size, lo, so + Elements(BatchEntries(b)));
        mem, open := [], false;
      }
    }
    assert log[..|log|] == log;
    if open {
      files', next' := WriteLevel0Table(files', mem, next', size, lo, all + LogContents(log));
    }
  }

  lemma RecordInLog(log: seq<Batch>, b: Batch)
    requires b in log
    ensures Elements(BatchEntries(b)) <= LogContents(log)
  {
  }

  /** The live logs in increasing number order. */
  method SortedLogs(logs: map<nat, seq<Batch>>, minLog: nat) returns (numbers: seq<nat>)
    ensures forall i, j :: 0 <= i < j < |numbers| ==> numbers[i] < numbers[j]
    ensures forall n :: n in numbers <==> n in logs && minLog <= n
  {
    numbers := [];
    var todo := set n | n in logs && minLog <= n;
    while todo != {}
      invariant forall n :: n in logs && minLog <= n <==> n in todo || n in numbers
      invariant forall i, j :: 0 <= i < j < |numbers| ==> numbers[i] < numbers[j]
      invariant forall n, k :: n in numbers && k in todo ==> n < k
      decreases todo
    {
      var n := Smallest(todo);
      todo := todo - {n};
      assert forall i :: 0 <= i < |numbers| ==> numbers[i] in numbers;
      numbers := numbers + [n];
    }
  }

  method Smallest(ns: set<nat>) returns (n: nat)
    requires ns != {}
    ensures n in ns && forall k :: k in ns ==> n <= k
  {
    n :| n in ns;
    var todo := ns - {n};
    while todo != {}
      invariant n in ns && todo <= ns && forall k :: k in ns && k !in todo ==> n <= k
      decreases todo
    {
      var k :| k in todo;
      todo := todo - {k};
      if k < n { n := k; }
    }
  }

  /** Entries of the first `n` of the listed logs. */
  ghost function Listed(logs: map<nat, seq<Batch>>, numbers: seq<nat>, n: nat): set<Entry>
    requires n <= |numbers| && forall k :: k in numbers ==> k in logs
  {
    set i, e | 0 <= i < n && e in LogContents(logs[numbers[i]]) :: e
  }

  lemma NextLog(logs: map<nat, seq<Batch>>, minLog: nat, numbers: seq<nat>, n: nat)
    requires n < |numbers| && LogsOk(logs, minLog) && forall k :: k in numbers ==> k in logs && minLog <= k
    requires forall i, j :: 0 <= i < j < |numbers| ==> numbers[i] < numbers[j]
    ensures Listed(logs, numbers, n + 1) == Listed(logs, numbers, n) + LogContents(logs[numbers[n]])
    ensures SeqBefore(Listed(logs, numbers, n), LogContents(logs[numbers[n]]))
    ensures LogContents(logs[numbers[n]]) <= LiveLogs(logs, minLog)
  {
    forall x, y | x in Listed(logs, numbers, n) && y in LogContents(logs[numbers[n]]) ensures x.key.sequence < y.key.sequence {
      var i :| 0 <= i < n && x in LogContents(logs[numbers[i]]);
      assert numbers[i] in numbers && numbers[n] in numbers && numbers[i] < numbers[n];
      assert SeqBefore(LogContents(logs[numbers[i]]), LogContents(logs[numbers[n]]));
    }
    InLiveLogs(logs, minLog, numbers[n]);
  }

  lemma AllListed(logs: map<nat, seq<Batch>>, minLog: nat, numbers: seq<nat>)
    requires forall k :: k in numbers <==> k in logs && minLog <= k
    ensures Listed(logs, numbers, |numbers|) == LiveLogs(logs, minLog)
  {
    forall e | e in LiveLogs(logs, minLog) ensures e in Listed(logs, numbers, |numbers|) {
      var k :| k in logs && minLog <= k && e in LogContents(logs[k]);
      assert k in numbers;
      var i :| 0 <= i < |numbers| && numbers[i] == k;
    }
  }

  /** Replay every live log in order, marking its number as used (Recover). `next` and `last` come from the manifest. */
  method RecoverLogs(logs: map<nat, seq<Batch>>, minLog: nat, next: nat, last: nat, full: (nat, nat) -> bool, size: nat)
    returns (files: seq<FileMeta>, next': nat, last': nat)
    requires LogsOk(logs, minLog) && SeqAtMost(LiveLogs(logs, minLog), MAX_SEQUENCE)
    ensures Recovered(files, next, next') && next <= next'
    ensures FilesContents(files) == LiveLogs(logs, minLog)
    ensures forall n :: n in logs && minLog <= n ==> n < next'
    ensures last <= last' && SeqAtMost(LiveLogs(logs, minLog), last')
    ensures last' == last || exists n :: n in logs && minLog <= n && LastOf(logs[n], last')
  {
    var numbers := SortedLogs(logs, minLog);
    files, next', last' := [], next, last;
    assert FilesContents([]) == {} == Elements([]) && Listed(logs, numbers, 0) == {};
    for i := 0 to |numbers|
      invariant Replaying(files, [], next, next', Listed(logs, numbers, i)) && next <= next'
      invariant last <= last' && SeqAtMost(Listed(logs, numbers, i), last')
      invariant forall j :: 0 <= j < i ==> numbers[j] < next'
      invariant last' == last || exists n :: n in logs && minLog <= n && LastOf(logs[n], last')
    {
      var n := numbers[i];
      assert n in numbers;
      NextLog(logs, minLog, numbers, i);
      files, next', last' := RecoverLogFile(logs[n], files, next', last', (k: nat) => full(n, k), size, next, Listed(logs, numbers, i));
      if next' <= n {
        WiderRange(files, next, next', n + 1);
        next' := n + 1;
      }
    }
    AllListed(logs, minLog, numbers);
    assert Elements([]) == {};
  }

  lemma WiderRange(files: seq<FileMeta>, lo: nat, hi: nat, hi': nat)
    requires Recovered(files, lo, hi) && hi <= hi'
    ensures Recovered(files, lo, hi')
  {
  }

  // ---------------------------------------------------------------- the new manifest

  function SnapshotAdds(v: Version, n: nat): (r: seq<(nat, FileMeta)>)
    requires n <= NUM_LEVELS
  {
    if n == 0 then [] else SnapshotAdds(v, n - 1) + AtLevel(n - 1, v[n - 1])
  }

  /** A fresh manifest starts with the whole recovered version as one edit (WriteSnapshot). */
  function SnapshotEdit(v: Version): VersionEdit {
    VersionEdit(None, None, None, {}, SnapshotAdds(v, NUM_LEVELS))
  }

  lemma {:induction false} SnapshotMembers(v: Version, n: nat)
    requires n <= NUM_LEVELS
    ensures forall a :: a in SnapshotAdds(v, n) <==> a.0 < n && a.1 in v[a.0]
  {
    if n > 0 {
      SnapshotMembers(v, n - 1);
      forall a ensures a in AtLevel(n - 1, v[n - 1]) <==> a.0 == n - 1 && a.1 in v[n - 1] {
        assert a == (a.0, a.1);
      }
    }
  }

  predicate DistinctPairs(r: seq<(nat, FileMeta)>) {
    forall i, j :: 0 <= i < j < |r| ==> r[i].0 != r[j].0 || r[i].1.number != r[j].1.number
  }

  lemma DistinctConcat(a: seq<(nat, FileMeta)>, b: seq<(nat, FileMeta)>)
    requires DistinctPairs(a) && DistinctPairs(b) && forall x, y :: x in a && y in b ==> x.0 != y.0
    ensures DistinctPairs(a + b)
  {
    var r := a + b;
    forall i, j | 0 <= i < j < |r| ensures r[i].0 != r[j].0 || r[i].1.number != r[j].1.number {
      if i < |a| && |a| <= j {
        assert r[i] in a && r[j] in b;
      }
    }
  }

  lemma {:induction false} SnapshotDistinct(v: Version, n: nat)
    requires n <= NUM_LEVELS && forall l :: 0 <= l < NUM_LEVELS ==> UniqueNumbers(v[l])
    ensures DistinctPairs(SnapshotAdds(v, n))
  {
    if n > 0 {
      SnapshotDistinct(v, n - 1);
      SnapshotMembers(v, n - 1);
      DistinctConcat(SnapshotAdds(v, n - 1), AtLevel(n - 1, v[n - 1]));
    }
  }

  lemma SnapshotPairs(v: Version)
    ensures forall p :: p in Pairs(SnapshotEdit(v)) ==> p.0 < NUM_LEVELS && exists f :: f in v[p.0] && f.number == p.1
    ensures forall l, f :: 0 <= l < NUM_LEVELS && f in v[l] ==> (l, f.number) in Pairs(SnapshotEdit(v))
    ensures LevelsInRange(SnapshotEdit(v))
  {
    SnapshotMembers(v, NUM_LEVELS);
    forall l, f | 0 <= l < NUM_LEVELS && f in v[l] ensures (l, f.number) in Pairs(SnapshotEdit(v)) {
      assert (l, f).0 == l && (l, f) in SnapshotEdit(v).added && (l, f).1 == f;
    }
  }

  /** The snapshot edit alone replays to the version it was made from. */
  lemma SnapshotReplays(v: Version, n: nat)
    requires VersionOk(v) && NumbersUnique(v) && NumbersBelow(v, n)
    ensures Replays([SnapshotEdit(v)], v) && PairsBelow(AddedPairs([SnapshotEdit(v)]), n)
  {
    var snap := SnapshotEdit(v);
    SnapshotPairs(v);
    assert DistinctAdds(snap) by {
      forall l | 0 <= l < NUM_LEVELS ensures UniqueNumbers(v[l]) { assert ShapeOk(l, v[l]); }
      SnapshotDistinct(v, NUM_LEVELS);
    }
    assert [snap][..0] == [];
    assert AddedPairs([]) == {};
    assert AddedPairs([snap]) == Pairs(snap);
    SnapshotSets(v);
  }

  lemma SnapshotSets(v: Version)
    ensures Replay(SetsOf(NO_FILES), [SnapshotEdit(v)]) == SetsOf(v)
  {
    var snap := SnapshotEdit(v);
    assert [snap][..0] == [];
    assert Replay(SetsOf(NO_FILES), []) == SetsOf(NO_FILES);
    SnapshotMembers(v, NUM_LEVELS);
    forall l | 0 <= l < NUM_LEVELS ensures NextLevel(SetsOf(NO_FILES)[l], snap, l) == SetsOf(v)[l] {
      forall f | f in v[l] ensures f in AddedTo(snap, l) {
        assert (l, f).0 == l && (l, f) in snap.added && (l, f).1 == f;
      }
    }
  }

  // ---------------------------------------------------------------- open

  function OpenEdit(files: seq<FileMeta>, newLog: nat, next: nat, last: nat): VersionEdit {
    VersionEdit(Some(newLog), Some(next), Some(last), {}, AtLevel(0, files))
  }

  /** What a recovery from this disk finds: the manifest gives `v`, the live logs give level-0 tables, and the counters
      are past everything seen. */
  ghost predicate OpenReady(d: Disk, v: Version, files: seq<FileMeta>, newLog: nat, next: nat, last: nat, v': Version) {
    && SetsOf(v) == Replay(SetsOf(NO_FILES), d.manifest) && (forall l :: 0 <= l < NUM_LEVELS ==> SortedBySmallest(v[l]))
    && Recovered(files, NextFileOf(d.manifest), next) && FilesContents(files) == Live(d)
    && NextFileOf(d.manifest) <= newLog < next && (forall n :: n in d.logs && MinLog(d.manifest) <= n ==> n < newLog)
    && SequenceOf(d.manifest) <= last < MAX_SEQUENCE && SeqAtMost(Live(d), last)
    && Applied(v, OpenEdit(files, newLog, next, last), v')
  }

  function OpenedDisk(d: Disk, v: Version, files: seq<FileMeta>, newLog: nat, next: nat, last: nat): Disk {
    Disk([SnapshotEdit(v), OpenEdit(files, newLog, next, last)], d.logs[newLog := []], AddTables(d.tables, files))
  }

  function OpenedMemory(newLog: nat, next: nat, last: nat, v': Version): Memory {
    Memory([], None, v', last, newLog, newLog, next, 0, 0, None, Idle, [], [])
  }

  /** A new manifest and a new log take over in one step, the switch of the current-manifest pointer (DB::Open,
      LogAndApply). */
  ghost predicate Open(s: State, s': State, v: Version, files: seq<FileMeta>, newLog: nat, next: nat, last: nat, v': Version) {
    && s.memory.None? && OpenReady(s.disk, v, files, newLog, next, last, v')
    && s' == State(OpenedDisk(s.disk, v, files, newLog, next, last), Some(OpenedMemory(newLog, next, last, v')),
                   Trace(s.t.history, s.t.history, s.t.history, s.t.low, v', 0))
  }

  /** What recovery reads from the manifest is the committed version. */
  lemma RecoversCommitted(s: State, v: Version)
    requires Inv(s) && SetsOf(v) == Replay(SetsOf(NO_FILES), s.disk.manifest) && forall l :: 0 <= l < NUM_LEVELS ==> SortedBySmallest(v[l])
    ensures v == s.t.committed
  {
    LevelsAreSorted(s.t.committed);
    VersionUnique(v, s.t.committed);
  }

  lemma RecoveredNumbers(files: seq<FileMeta>, lo: nat, hi: nat)
    requires Recovered(files, lo, hi)
    ensures UniqueNumbers(files) && NumberedByAge(files)
  {
    forall f, g | f in files && g in files && f.number > g.number ensures NewerThan(Elements(f.entries), Elements(g.entries)) {
      var i :| 0 <= i < |files| && files[i] == f;
      var j :| 0 <= j < |files| && files[j] == g;
      assert j < i;
    }
  }

  lemma RecoveredContents(v: Version, files: seq<FileMeta>, v': Version)
    requires Replaced(v[0], [], files, v'[0]) && forall l :: 0 < l < NUM_LEVELS ==> v'[l] == v[l]
    ensures FilesContents(v'[0]) == FilesContents(v[0]) + FilesContents(files)
    ensures Contents(v') == Contents(v) + FilesContents(files)
  {
    ReplacedContents(v[0], [], files, v'[0]);
    assert Unchosen(v[0], []) == FilesContents(v[0]);
    forall e | e in Contents(v') ensures e in Contents(v) + FilesContents(files) {
      var l :| 0 <= l < NUM_LEVELS && e in FilesContents(v'[l]);
      assert e in FilesContents(v[l]) || e in FilesContents(files);
    }
    forall e | e in Contents(v) ensures e in Contents(v') {
      var l :| 0 <= l < NUM_LEVELS && e in FilesContents(v[l]);
      InContents(v', l, e);
    }
    forall e | e in FilesContents(files) ensures e in Contents(v') { InContents(v', 0, e); }
  }

  lemma RecoveredZero(v0: seq<FileMeta>, files: seq<FileMeta>, v0': seq<FileMeta>, lo: nat, hi: nat)
    requires ShapeOk(0, v0) && NumberedByAge(v0) && Recovered(files, lo, hi) && Replaced(v0, [], files, v0')
    requires (forall f :: f in v0 ==> f.number < lo) && NewerThan(FilesContents(files), FilesContents(v0))
    ensures ShapeOk(0, v0') && NumberedByAge(v0')
  {
    RecoveredNumbers(files, lo, hi);
    ReplacedLevelOk(0, v0, [], files, v0');
    forall f, g | f in v0' && g in v0' && f.number > g.number ensures NewerThan(Elements(f.entries), Elements(g.entries)) {
      assert f in files ==> forall e :: e in Elements(f.entries) ==> e in FilesContents(files);
      assert g in v0 ==> forall e :: e in Elements(g.entries) ==> e in FilesContents(v0);
    }
  }

  /** Level-0 tables rebuilt from the logs join the recovered version without breaking it. */
  lemma RecoveredVersion(v: Version, files: seq<FileMeta>, v': Version, lo: nat, hi: nat)
    requires VersionOk(v) && Recovered(files, lo, hi) && NumbersBelow(v, lo)
    requires Replaced(v[0], [], files, v'[0]) && forall l :: 0 < l < NUM_LEVELS ==> v'[l] == v[l]
    requires NewerThan(FilesContents(files), Contents(v)) && Distinct(Contents(v) + FilesContents(files))
    ensures VersionOk(v') && Contents(v') == Contents(v) + FilesContents(files)
  {
    RecoveredContents(v, files, v');
    assert ShapeOk(0, v[0]);
    NewerInLevel(v, 0, FilesContents(files));
    RecoveredZero(v[0], files, v'[0], lo, hi);
    forall l | 0 <= l < NUM_LEVELS ensures ShapeOk(l, v'[l]) { assert l > 0 ==> ShapeOk(l, v[l]); }
    forall i, j | 0 <= i < j < NUM_LEVELS ensures NewerThan(FilesContents(v'[i]), FilesContents(v'[j])) {
      NewerInLevel(v, j, FilesContents(files));
      assert NewerThan(FilesContents(v[i]), FilesContents(v[j]));
    }
  }

  lemma OpenedLevels(v: Version, files: seq<FileMeta>, edit: VersionEdit, v': Version)
    requires Applied(v, edit, v') && edit.deleted == {} && edit.added == AtLevel(0, files)
    requires forall l :: 0 <= l < NUM_LEVELS ==> SortedBySmallest(v[l])
    ensures Replaced(v[0], [], files, v'[0]) && forall l :: 0 < l < NUM_LEVELS ==> v'[l] == v[l]
  {
    AppliedIsReplaced(v, edit, v', 0, [], files);
    forall l | 0 < l < NUM_LEVELS ensures v'[l] == v[l] {
      AppliedUnchanged(v, edit, v', l);
    }
  }

  lemma OpenKeepsVersion(s: State, s': State, v: Version, files: seq<FileMeta>, newLog: nat, next: nat, last: nat, v': Version)
    requires Inv(s) && Open(s, s', v, files, newLog, next, last, v')
    ensures StandsFor(v', s.t.history, s.t.low)
  {
    RecoversCommitted(s, v);
    ManifestNumbersUnique(s.disk.manifest, v);
    OpenedLevels(v, files, OpenEdit(files, newLog, next, last), v');
    assert NewerThan(Live(s.disk), Contents(v)) && Distinct(Contents(v) + Live(s.disk));
    RecoveredVersion(v, files, v', NextFileOf(s.disk.manifest), next);
    AgreeAddNewer(s.t.flushed, Contents(v), Live(s.disk), s.t.low);
  }

  lemma OpenKeepsTables(s: State, s': State, v: Version, files: seq<FileMeta>, newLog: nat, next: nat, last: nat, v': Version)
    requires Inv(s) && Open(s, s', v, files, newLog, next, last, v')
    ensures TablesPresent(s'.disk.tables, v') && NumbersBelow(v', next)
  {
    var n := NextFileOf(s.disk.manifest);
    RecoversCommitted(s, v);
    ManifestNumbersUnique(s.disk.manifest, v);
    RecoveredNumbers(files, n, next);
    AddTablesWritten(s.disk.tables, files);
    NewTablesKeep(s.disk.tables, files, v, n);
    var edit := OpenEdit(files, newLog, next, last);
    forall a | a in edit.added ensures TablePresent(s'.disk.tables, a.1) { assert (a.0, a.1) in edit.added; }
    AppliedTablesPresent(s'.disk.tables, v, edit, v');
    forall l, f | 0 <= l < NUM_LEVELS && f in v'[l] ensures f.number < next {
      AppliedMembers(v, edit, v', l);
    }
  }

  lemma OpenKeepsManifest(s: State, s': State, v: Version, files: seq<FileMeta>, newLog: nat, next: nat, last: nat, v': Version)
    requires Inv(s) && Open(s, s', v, files, newLog, next, last, v')
    ensures ManifestOk(s'.disk.manifest, v')
  {
    var n := NextFileOf(s.disk.manifest);
    var edit := OpenEdit(files, newLog, next, last);
    RecoversCommitted(s, v);
    ManifestNumbersUnique(s.disk.manifest, v);
    NewManifest(v, files, n, edit, v');
  }

  lemma NewManifest(v: Version, files: seq<FileMeta>, n: nat, edit: VersionEdit, v': Version)
    requires VersionOk(v) && NumbersUnique(v) && NumbersBelow(v, n) && EditComplete(edit) && Applied(v, edit, v')
    requires Recovered(files, n, edit.nextFile.value) && edit.deleted == {} && edit.added == AtLevel(0, files) && n <= edit.nextFile.value
    ensures ManifestOk([SnapshotEdit(v), edit], v')
  {
    var snap := SnapshotEdit(v);
    SnapshotReplays(v, n);
    AddsOk(files, n, edit);
    forall l, f | 0 <= l < NUM_LEVELS && f in v'[l] ensures f in v[l] || (l, f) in edit.added {
      AppliedMembers(v, edit, v', l);
    }
    NewNumbersMoveDown([snap], v, edit, v', n);
    ManifestAppends([snap], v, edit, v');
    assert [snap] + [edit] == [snap, edit];
  }

  lemma AddsOk(files: seq<FileMeta>, n: nat, edit: VersionEdit)
    requires EditComplete(edit) && Recovered(files, n, edit.nextFile.value) && edit.deleted == {} && edit.added == AtLevel(0, files)
    ensures LevelsInRange(edit) && DistinctAdds(edit) && PairsBelow(Pairs(edit), edit.nextFile.value)
    ensures forall a :: a in edit.added ==> n <= a.1.number
    ensures forall a, b :: a in edit.added && b in edit.added && a.1.number == b.1.number ==> a == b
  {
    RecoveredNumbers(files, n, edit.nextFile.value);
    MembersFromPositions(files);
    forall a | a in edit.added ensures a.0 == 0 && a.1 in files {
      assert a == (a.0, a.1);
    }
  }

  lemma OpenReads(v: Version, files: seq<FileMeta>, newLog: nat, next: nat, last: nat)
    ensures var m := [SnapshotEdit(v), OpenEdit(files, newLog, next, last)];
            MinLog(m) == newLog && NextFileOf(m) == next && SequenceOf(m) == last
  {
    ManifestReads([SnapshotEdit(v)], OpenEdit(files, newLog, next, last));
    assert [SnapshotEdit(v)] + [OpenEdit(files, newLog, next, last)] == [SnapshotEdit(v), OpenEdit(files, newLog, next, last)];
  }

  lemma OpenKeepsLogs(s: State, s': State, v: Version, files: seq<FileMeta>, newLog: nat, next: nat, last: nat, v': Version)
    requires Inv(s) && Open(s, s', v, files, newLog, next, last, v')
    ensures MinLog(s'.disk.manifest) == newLog && NextFileOf(s'.disk.manifest) == next && SequenceOf(s'.disk.manifest) == last
    ensures forall n :: n in s.disk.logs ==> n < newLog
    ensures LogsOk(s'.disk.logs, newLog) && Live(s'.disk) == {}
    ensures HistorySplit(Live(s'.disk), last, s.t.history, s.t.history, s.t.low)
  {
    OpenReads(v, files, newLog, next, last);
    NewestLogOnly(s'.disk.logs, newLog);
    assert LogContents([]) == {};
  }

  lemma OpenKeepsMemory(s: State, s': State, v: Version, files: seq<FileMeta>, newLog: nat, next: nat, last: nat, v': Version)
    requires Inv(s) && Open(s, s', v, files, newLog, next, last, v')
    ensures MemoryOk(s'.disk, s'.memory.value, s'.t)
  {
    OpenKeepsLogs(s, s', v, files, newLog, next, last, v');
    OpenKeepsVersion(s, s', v, files, newLog, next, last, v');
    OpenKeepsTables(s, s', v, files, newLog, next, last, v');
    assert Elements([]) == {} && LogContents([]) == {};
  }

  lemma OpenKeepsInv(s: State, s': State, v: Version, files: seq<FileMeta>, newLog: nat, next: nat, last: nat, v': Version)
    requires Inv(s) && Open(s, s', v, files, newLog, next, last, v')
    ensures Inv(s')
  {
    OpenKeepsMemory(s, s', v, files, newLog, next, last, v');
    OpenKeepsVersion(s, s', v, files, newLog, next, last, v');
    OpenKeepsTables(s, s', v, files, newLog, next, last, v');
    OpenKeepsManifest(s, s', v, files, newLog, next, last, v');
    OpenKeepsLogs(s, s', v, files, newLog, next, last, v');
  }
}
