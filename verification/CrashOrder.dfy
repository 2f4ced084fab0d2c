/** Which writes a crash can lose while later ones survive.

    Closing a log does not sync it (db/db_impl.cc: MakeRoomForWrite). Until the memtable that it protects has been flushed, a crash can
    take unsynced records off its end, and spare the newest log, even records of it that were synced on request.
 */
module CrashOrder {
  import opened InternalKeys
  import opened History
  import opened Disk
  import opened MemTables
  import opened Store
  import opened StoreSteps
  import opened StoreRecovery
  import opened StoreRuns
  import opened Guarantees

  /** With each entry, `part` has every older one. */
  ghost predicate OldestFirst(part: set<Entry>, all: set<Entry>) {
    forall x, e :: x in part && e in all && e.key.sequence < x.key.sequence ==> e in part
  }

  ghost function KeptOf(log: seq<Batch>, k: nat): set<Entry>
    requires k <= |log|
  {
    LogContents(log[..k])
  }

  ghost function LostOf(log: seq<Batch>, k: nat): set<Entry>
    requires k <= |log|
  {
    LogContents(log[k..])
  }

  /** No live log loses anything while a newer one keeps something. */
  ghost predicate NoGap(logs: map<nat, seq<Batch>>, minLog: nat, kept: map<nat, nat>) {
    forall n, k :: n in logs && k in logs && minLog <= n < k ==>
      LostOf(logs[n], Surviving(kept, n, |logs[n]|)) == {} || KeptOf(logs[k], Surviving(kept, k, |logs[k]|)) == {}
  }

  lemma KeptBeforeLost(log: seq<Batch>, k: nat)
    requires Ascending(log) && k <= |log|
    ensures SeqBefore(KeptOf(log, k), LostOf(log, k)) && LogContents(log) == KeptOf(log, k) + LostOf(log, k)
  {
    PrefixContents(log, k);
    forall x, e | x in KeptOf(log, k) && e in LostOf(log, k) ensures x.key.sequence < e.key.sequence {
      var a :| a in log[..k] && x in BatchEntries(a);
      var b :| b in log[k..] && e in BatchEntries(b);
      var i :| 0 <= i < k && log[i] == a;
      var j :| k <= j < |log| && log[j] == b;
      assert SeqBefore(Elements(BatchEntries(log[i])), Elements(BatchEntries(log[j])));
    }
  }

  /** Where an entry of the live logs is, and whether it survives. */
  lemma Whereabouts(logs: map<nat, seq<Batch>>, minLog: nat, kept: map<nat, nat>, e: Entry) returns (n: nat)
    requires LogsOk(logs, minLog) && e in LiveLogs(logs, minLog)
    ensures n in logs && minLog <= n && e in LogContents(logs[n])
    ensures e in LiveLogs(TornLogs(logs, kept), minLog) <==> e in KeptOf(logs[n], Surviving(kept, n, |logs[n]|))
    ensures e !in LiveLogs(TornLogs(logs, kept), minLog) ==> e in LostOf(logs[n], Surviving(kept, n, |logs[n]|))
  {
    n :| n in logs && minLog <= n && e in LogContents(logs[n]);
    var torn := TornLogs(logs, kept);
    KeptBeforeLost(logs[n], Surviving(kept, n, |logs[n]|));
    if e in LiveLogs(torn, minLog) {
      var k :| k in torn && minLog <= k && e in LogContents(torn[k]);
      KeptBeforeLost(logs[k], Surviving(kept, k, |logs[k]|));
      SameLog(logs, minLog, e, n, k);
    } else {
      assert n in torn && torn[n] == logs[n][..Surviving(kept, n, |logs[n]|)];
    }
  }

  lemma SameLog(logs: map<nat, seq<Batch>>, minLog: nat, e: Entry, n: nat, k: nat)
    requires LogsOk(logs, minLog) && n in logs && k in logs && minLog <= n && minLog <= k && e in LogContents(logs[n]) && e in LogContents(logs[k])
    ensures n == k
  {
  }

  lemma GapFree(logs: map<nat, seq<Batch>>, minLog: nat, kept: map<nat, nat>, x: Entry, e: Entry)
    requires LogsOk(logs, minLog) && NoGap(logs, minLog, kept)
    requires x in LiveLogs(TornLogs(logs, kept), minLog) && x in LiveLogs(logs, minLog) && e in LiveLogs(logs, minLog)
    requires e.key.sequence < x.key.sequence
    ensures e in LiveLogs(TornLogs(logs, kept), minLog)
  {
    var n := Whereabouts(logs, minLog, kept, e);
    var k := Whereabouts(logs, minLog, kept, x);
    if e in LostOf(logs[n], Surviving(kept, n, |logs[n]|)) { KeptIsOlder(logs, minLog, kept, n, k, x, e); }
  }

  /** A lost entry is newer than a kept one, unless the kept one is in a newer log. */
  lemma KeptIsOlder(logs: map<nat, seq<Batch>>, minLog: nat, kept: map<nat, nat>, n: nat, k: nat, x: Entry, e: Entry)
    requires LogsOk(logs, minLog) && n in logs && k in logs && minLog <= n && minLog <= k
    requires x in KeptOf(logs[k], Surviving(kept, k, |logs[k]|)) && e in LostOf(logs[n], Surviving(kept, n, |logs[n]|))
    ensures x.key.sequence < e.key.sequence || n < k
  {
    KeptBeforeLost(logs[n], Surviving(kept, n, |logs[n]|));
    KeptBeforeLost(logs[k], Surviving(kept, k, |logs[k]|));
    assert k < n ==> SeqBefore(LogContents(logs[k]), LogContents(logs[n]));
  }

  /** What survives a crash is the oldest part of the history exactly if no live log lost anything while a newer one kept something. */
  lemma CrashKeepsOldest(s: State, s': State, kept: map<nat, nat>)
    requires Inv(s) && Crash(s, s', kept)
    ensures OldestFirst(s'.t.history, s.t.history) <==> NoGap(s.disk.logs, MinLog(s.disk.manifest), kept)
  {
    var logs, minLog := s.disk.logs, MinLog(s.disk.manifest);
    TornContents(logs, minLog, kept);
    if NoGap(logs, minLog, kept) {
      forall x, e | x in s'.t.history && e in s.t.history && e.key.sequence < x.key.sequence ensures e in s'.t.history {
        if e !in s.t.flushed { GapFree(logs, minLog, kept, x, e); }
      }
    }
    CrashSurvives(s, s', kept);
    if OldestFirst(s'.t.history, s.t.history) { OldestHasNoGap(logs, minLog, kept, s.t.flushed, s.t.history, s'.t.history); }
  }

  /** What survives if each log keeps only its first records. */
  ghost predicate Survives(logs: map<nat, seq<Batch>>, minLog: nat, kept: map<nat, nat>, flushed: set<Entry>, all: set<Entry>, part: set<Entry>) {
    && LogsOk(logs, minLog) && SeqBefore(flushed, LiveLogs(logs, minLog))
    && all == flushed + LiveLogs(logs, minLog) && part == flushed + LiveLogs(TornLogs(logs, kept), minLog)
  }

  lemma CrashSurvives(s: State, s': State, kept: map<nat, nat>)
    requires Inv(s) && Crash(s, s', kept)
    ensures Survives(s.disk.logs, MinLog(s.disk.manifest), kept, s.t.flushed, s.t.history, s'.t.history)
  {
  }

  lemma OldestHasNoGap(logs: map<nat, seq<Batch>>, minLog: nat, kept: map<nat, nat>, flushed: set<Entry>, all: set<Entry>, part: set<Entry>)
    requires Survives(logs, minLog, kept, flushed, all, part) && OldestFirst(part, all)
    ensures NoGap(logs, minLog, kept)
  {
    forall n, k | n in logs && k in logs && minLog <= n < k
      ensures LostOf(logs[n], Surviving(kept, n, |logs[n]|)) == {} || KeptOf(logs[k], Surviving(kept, k, |logs[k]|)) == {}
    {
      if e, x :| e in LostOf(logs[n], Surviving(kept, n, |logs[n]|)) && x in KeptOf(logs[k], Surviving(kept, k, |logs[k]|)) {
        GapShows(logs, minLog, kept, flushed, all, part, n, k, e, x);
        assert false;
      }
    }
  }

  lemma GapShows(logs: map<nat, seq<Batch>>, minLog: nat, kept: map<nat, nat>, flushed: set<Entry>, all: set<Entry>, part: set<Entry>,
                 n: nat, k: nat, e: Entry, x: Entry)
    requires Survives(logs, minLog, kept, flushed, all, part) && n in logs && k in logs && minLog <= n < k
    requires e in LostOf(logs[n], Surviving(kept, n, |logs[n]|)) && x in KeptOf(logs[k], Surviving(kept, k, |logs[k]|))
    ensures !OldestFirst(part, all)
  {
    KeptBeforeLost(logs[n], Surviving(kept, n, |logs[n]|));
    KeptBeforeLost(logs[k], Surviving(kept, k, |logs[k]|));
    assert SeqBefore(LogContents(logs[n]), LogContents(logs[k]));
    InLiveLogs(logs, minLog, n);
    InLiveLogs(TornLogs(logs, kept), minLog, k);
    var at := Whereabouts(logs, minLog, kept, e);
    SameLog(logs, minLog, e, n, at);
    assert x in part && e in all && e !in part && e.key.sequence < x.key.sequence;
  }

  // ---------------------------------------------------------------- when no crash can leave a gap

  lemma SuffixContents(log: seq<Batch>, j: nat, k: nat)
    requires j <= k <= |log|
    ensures LostOf(log, k) <= LostOf(log, j)
  {
    assert forall b :: b in log[k..] ==> b in log[j..];
  }

  /** The newest log is the only one with an older live log, and a crash takes only unsynced records. */
  lemma NothingOlderIsLost(logs: map<nat, seq<Batch>>, minLog: nat, newest: nat, synced: map<nat, nat>, kept: map<nat, nat>)
    requires newest in logs && forall n, k :: n in logs && k in logs && minLog <= n < k ==> k == newest
    requires forall n :: n in logs ==> Surviving(synced, n, |logs[n]|) <= Surviving(kept, n, |logs[n]|)
    requires Lost(logs - {newest}, minLog, synced) == {} || LogContents(logs[newest]) == {}
    ensures NoGap(logs, minLog, kept)
  {
    forall n, k | n in logs && k in logs && minLog <= n < k
      ensures LostOf(logs[n], Surviving(kept, n, |logs[n]|)) == {} || KeptOf(logs[k], Surviving(kept, k, |logs[k]|)) == {}
    {
      var older := logs - {newest};
      assert n in older && older[n] == logs[n];
      SuffixContents(logs[n], Surviving(synced, n, |logs[n]|), Surviving(kept, n, |logs[n]|));
      PrefixContents(logs[newest], Surviving(kept, newest, |logs[newest]|));
    }
  }

  /** A crash that takes every unsynced record of one log and nothing else. */
  lemma WorstCrash(s: State, n: nat) returns (s': State, kept: map<nat, nat>)
    requires s.memory.Some? && n in s.disk.logs
    ensures kept == map[n := Surviving(Synced(s), n, |s.disk.logs[n]|)] && Crash(s, s', kept)
  {
    kept := map[n := Surviving(Synced(s), n, |s.disk.logs[n]|)];
    var d' := s.disk.(logs := TornLogs(s.disk.logs, kept));
    s' := State(d', None, s.t.(history := s.t.flushed + Live(d')));
  }

  /** An unsynced record of an older log and any record of the newest one: some crash loses the first and keeps the second. */
  lemma SomeCrashLeavesGap(s: State, e: Entry, x: Entry) returns (s': State, kept: map<nat, nat>)
    requires Inv(s) && s.memory.Some? && Running(s) && e in OlderTail(s) && x in LogContents(s.disk.logs[s.memory.value.logFile])
    ensures Crash(s, s', kept) && !OldestFirst(s'.t.history, s.t.history)
  {
    var newest := s.memory.value.logFile;
    var n := LostFrom(s.disk.logs, MinLog(s.disk.manifest), newest, Synced(s), e);
    s', kept := WorstCrash(s, n);
    KeptWhole(s.disk.logs[newest]);
    NewestIsLast(s, n);
    CrashSurvives(s, s', kept);
    GapShows(s.disk.logs, MinLog(s.disk.manifest), kept, s.t.flushed, s.t.history, s'.t.history, n, newest, e, x);
  }

  lemma LostFrom(logs: map<nat, seq<Batch>>, minLog: nat, newest: nat, synced: map<nat, nat>, e: Entry) returns (n: nat)
    requires e in Lost(logs - {newest}, minLog, synced)
    ensures n in logs && n != newest && minLog <= n && e in LostOf(logs[n], Surviving(synced, n, |logs[n]|))
  {
    var older := logs - {newest};
    n :| n in older && minLog <= n && e in LogContents(older[n][Surviving(synced, n, |older[n]|)..]);
  }

  lemma KeptWhole(log: seq<Batch>)
    ensures KeptOf(log, |log|) == LogContents(log)
  {
    assert log[..|log|] == log;
  }

  lemma NewestIsLast(s: State, n: nat)
    requires Inv(s) && s.memory.Some? && n in s.disk.logs
    ensures n <= s.memory.value.logFile
  {
  }

  lemma OnlyNewestHasOlder(s: State)
    requires Inv(s) && s.memory.Some?
    ensures Running(s)
    ensures forall n, k :: n in s.disk.logs && k in s.disk.logs && MinLog(s.disk.manifest) <= n < k ==> k == s.memory.value.logFile
  {
  }

  /** The state decides whether writes can be lost out of order: every crash keeps the oldest part of the history exactly if no older
      live log has unsynced records, or the newest log is still empty. */
  lemma EveryCrashKeepsOldest(s: State)
    requires Inv(s) && s.memory.Some?
    ensures Running(s)
    ensures (forall s', kept :: Crash(s, s', kept) ==> OldestFirst(s'.t.history, s.t.history))
            <==> OlderTail(s) == {} || LogContents(s.disk.logs[s.memory.value.logFile]) == {}
  {
    OnlyNewestHasOlder(s);
    var newest := s.disk.logs[s.memory.value.logFile];
    if e, x :| e in OlderTail(s) && x in LogContents(newest) {
      var s', kept := SomeCrashLeavesGap(s, e, x);
    } else {
      assert OlderTail(s) == {} || LogContents(newest) == {};
      forall s', kept | Crash(s, s', kept) ensures OldestFirst(s'.t.history, s.t.history) {
        NothingOlderIsLost(s.disk.logs, MinLog(s.disk.manifest), s.memory.value.logFile, Synced(s), kept);
        CrashKeepsOldest(s, s', kept);
      }
    }
  }

  // ---------------------------------------------------------------- a synced write outlives an older one

  ghost predicate IsIdle(s: State) {
    s.memory.Some? && s.memory.value.writing.None? && s.memory.value.imm.None? && s.memory.value.lastSequence + 2 < MAX_SEQUENCE
  }

  ghost function AfterLog(s: State, op: Op): State
    requires Running(s)
  {
    var m, d := s.memory.value, s.disk;
    var b := Batch(m.lastSequence + 1, [op]);
    State(d.(logs := d.logs[m.logFile := d.logs[m.logFile] + [b]]), Some(m.(writing := Some(b))),
          s.t.(history := s.t.history + Elements(BatchEntries(b))))
  }

  ghost function AfterApply(s: State): State
    requires s.memory.Some? && s.memory.value.writing.Some?
  {
    var m := s.memory.value;
    s.(memory := Some(m.(mem := InsertAll(m.mem, BatchEntries(m.writing.value)),
                         lastSequence := m.lastSequence + |m.writing.value.ops|, writing := None)))
  }

  ghost function AfterSwitch(s: State): State
    requires s.memory.Some?
  {
    var m, d := s.memory.value, s.disk;
    State(d.(logs := d.logs[m.nextFile := []]),
          Some(m.(imm := Some(m.mem), mem := [], logFile := m.nextFile, nextFile := m.nextFile + 1, synced := 0, immSynced := m.synced)),
          s.t.(immLog := m.logFile))
  }

  ghost function AfterSync(s: State): State
    requires Running(s)
  {
    s.(memory := Some(s.memory.value.(synced := |s.disk.logs[s.memory.value.logFile]|)))
  }

  lemma IdleFacts(s: State)
    requires Inv(s) && IsIdle(s)
    ensures Running(s) && s.memory.value.nextFile !in s.disk.logs && s.memory.value.synced <= |s.disk.logs[s.memory.value.logFile]|
    ensures MinLog(s.disk.manifest) <= s.memory.value.logFile < s.memory.value.nextFile
    ensures SeqAtMost(s.t.history, s.memory.value.lastSequence) && s.t.history == s.t.flushed + Live(s.disk)
  {
  }

  /** Losing the last record of the older log leaves the logs as if it had never been written. */
  lemma TornBack(logs: map<nat, seq<Batch>>, older: nat, newest: nat, a: Batch, b: Batch)
    requires older in logs && newest !in logs
    ensures TornLogs(logs[older := logs[older] + [a]][newest := [b]], map[older := |logs[older]|]) == logs[newest := [b]]
  {
    assert (logs[older] + [a])[..|logs[older]|] == logs[older] && [b][..1] == [b];
    assert forall n :: n in logs ==> logs[n][..|logs[n]|] == logs[n];
  }

  lemma OneMoreLog(logs: map<nat, seq<Batch>>, minLog: nat, newest: nat, b: Batch)
    requires newest !in logs && minLog <= newest
    ensures LiveLogs(logs[newest := [b]], minLog) == LiveLogs(logs, minLog) + Elements(BatchEntries(b))
  {
    EmptyLogAdds(logs, minLog, newest);
    AppendToNewest(logs[newest := []], minLog, newest, b);
    assert [] + [b] == [b] && logs[newest := []][newest := [b]] == logs[newest := [b]];
  }

  /** From any idle state: write `a`; switch to a new memtable and log; write `b` and sync it. */
  ghost function Hole(s: State, a: Op, b: Op): (states: seq<State>)
    requires Running(s) && IsIdle(s)
    ensures |states| == 7 && states[0] == s && Running(states[6])
  {
    var s1 := AfterLog(s, a);
    var s2 := AfterApply(s1);
    var s3 := AfterSwitch(s2);
    var s4 := AfterLog(s3, b);
    var s5 := AfterApply(s4);
    [s, s1, s2, s3, s4, s5, AfterSync(s5)]
  }

  function HoleSteps(a: Op, b: Op): (steps: seq<Step>)
    ensures |steps| == 6
  {
    [Foreground(DoLogWrite([a])), Foreground(DoApplyWrite), Foreground(DoSwitchMem), Foreground(DoLogWrite([b])),
     Foreground(DoApplyWrite), Foreground(DoSyncLog)]
  }

  lemma HoleIsRun(s: State, a: Op, b: Op, i: nat)
    requires Running(s) && IsIdle(s) && s.memory.value.nextFile !in s.disk.logs && i < 6
    ensures StepAt(Hole(s, a, b), HoleSteps(a, b), i)
  {
    var states, steps := Hole(s, a, b), HoleSteps(a, b);
    match i
    case 0 => assert NextState(states[0], steps[0], states[1]);
    case 1 => assert NextState(states[1], steps[1], states[2]);
    case 2 => assert NextState(states[2], steps[2], states[3]);
    case 3 => assert NextState(states[3], steps[3], states[4]);
    case 4 => assert NextState(states[4], steps[4], states[5]);
    case 5 => assert NextState(states[5], steps[5], states[6]);
  }

  /** A crash then may lose `a`, whose log was closed without a sync, and keep `b`: the history is what it was, and `b`. */
  lemma SyncedOutlivesOlder(s: State, a: Op, b: Op) returns (s': State, kept: map<nat, nat>)
    requires Inv(s) && IsIdle(s)
    ensures Running(s) && forall i: nat :: i < 6 ==> StepAt(Hole(s, a, b), HoleSteps(a, b), i)
    ensures Crash(Hole(s, a, b)[6], s', kept)
    ensures s'.t.history == s.t.history + {OpEntry(b, s.memory.value.lastSequence + 2)}
    ensures OpEntry(a, s.memory.value.lastSequence + 1) !in s'.t.history
  {
    IdleFacts(s);
    forall i: nat | i < 6 ensures StepAt(Hole(s, a, b), HoleSteps(a, b), i) { HoleIsRun(s, a, b, i); }
    var m := s.memory.value;
    kept := map[m.logFile := |s.disk.logs[m.logFile]|];
    HoleDisk(s, a, b);
    s' := HoleCrash(s, Hole(s, a, b)[6], a, b, kept);
  }

  lemma HoleCrash(s: State, t: State, a: Op, b: Op, kept: map<nat, nat>) returns (s': State)
    requires Running(s) && s.memory.value.nextFile !in s.disk.logs && s.memory.value.synced <= |s.disk.logs[s.memory.value.logFile]|
    requires MinLog(s.disk.manifest) <= s.memory.value.logFile < s.memory.value.nextFile
    requires SeqAtMost(s.t.history, s.memory.value.lastSequence) && s.t.history == s.t.flushed + Live(s.disk)
    requires HoleEnds(s, t, a, b) && kept == map[s.memory.value.logFile := |s.disk.logs[s.memory.value.logFile]|]
    ensures Crash(t, s', kept) && s'.t.history == s.t.history + {OpEntry(b, s.memory.value.lastSequence + 2)}
    ensures OpEntry(a, s.memory.value.lastSequence + 1) !in s'.t.history
  {
    var m, last := s.memory.value, s.memory.value.lastSequence;
    var ba, bb := Batch(last + 1, [a]), Batch(last + 2, [b]);
    HoleLive(s.disk.logs, MinLog(s.disk.manifest), m.logFile, m.nextFile, ba, bb, t.disk.logs, kept);
    HoleAllowed(s, t, a, b, kept);
    HoleHistory(s.t.history, s.t.flushed, Live(s.disk), last, a, b);
    var d := t.disk.(logs := TornLogs(t.disk.logs, kept));
    s' := State(d, None, t.t.(history := t.t.flushed + Live(d)));
    assert Live(d) == Live(s.disk) + Elements(BatchEntries(bb));
  }

  lemma HoleLive(logs: map<nat, seq<Batch>>, minLog: nat, older: nat, newest: nat, a: Batch, b: Batch, logs': map<nat, seq<Batch>>, kept: map<nat, nat>)
    requires older in logs && newest !in logs && minLog <= newest
    requires logs' == logs[older := logs[older] + [a]][newest := [b]] && kept == map[older := |logs[older]|]
    ensures LiveLogs(TornLogs(logs', kept), minLog) == LiveLogs(logs, minLog) + Elements(BatchEntries(b))
  {
    TornBack(logs, older, newest, a, b);
    OneMoreLog(logs, minLog, newest, b);
  }

  lemma HoleAllowed(s: State, t: State, a: Op, b: Op, kept: map<nat, nat>)
    requires Running(s) && s.memory.value.nextFile !in s.disk.logs && s.memory.value.synced <= |s.disk.logs[s.memory.value.logFile]|
    requires HoleEnds(s, t, a, b) && kept == map[s.memory.value.logFile := |s.disk.logs[s.memory.value.logFile]|]
    ensures forall n :: n in t.disk.logs ==> Surviving(Synced(t), n, |t.disk.logs[n]|) <= Surviving(kept, n, |t.disk.logs[n]|)
  {
  }

  lemma HoleHistory(history: set<Entry>, flushed: set<Entry>, live: set<Entry>, last: nat, a: Op, b: Op)
    requires history == flushed + live && SeqAtMost(history, last)
    ensures flushed + (live + Elements(BatchEntries(Batch(last + 2, [b])))) == history + {OpEntry(b, last + 2)}
    ensures OpEntry(a, last + 1) !in history + {OpEntry(b, last + 2)}
  {
    assert BatchEntries(Batch(last + 2, [b])) == [OpEntry(b, last + 2)];
    assert forall e :: e in history ==> e.key.sequence <= last;
  }

  /** The state before the crash. */
  ghost predicate HoleEnds(s: State, t: State, a: Op, b: Op)
    requires Running(s)
  {
    var m := s.memory.value;
    && t.disk == s.disk.(logs := s.disk.logs[m.logFile := s.disk.logs[m.logFile] + [Batch(m.lastSequence + 1, [a])]]
                                            [m.nextFile := [Batch(m.lastSequence + 2, [b])]])
    && t.t.flushed == s.t.flushed && t.t.immLog == m.logFile
    && t.memory.Some? && t.memory.value.logFile == m.nextFile && t.memory.value.synced == 1 && t.memory.value.immSynced == m.synced
  }

  lemma HoleDisk(s: State, a: Op, b: Op)
    requires IsIdle(s) && Running(s) && s.memory.value.nextFile !in s.disk.logs
    ensures HoleEnds(s, Hole(s, a, b)[6], a, b)
  {
    var m := s.memory.value;
    var logs: map<nat, seq<Batch>> := s.disk.logs[m.logFile := s.disk.logs[m.logFile] + [Batch(m.lastSequence + 1, [a])]];
    var bb := Batch(m.lastSequence + 2, [b]);
    var empty: map<nat, seq<Batch>> := logs[m.nextFile := []];
    assert [] + [bb] == [bb] && empty[m.nextFile := [bb]] == logs[m.nextFile := [bb]];
  }
}
