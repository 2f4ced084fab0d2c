/** What clients wrote is what they read (include/leveldb/db.h: Put, Delete, Get, GetSnapshot). The statements name the operations
    of the calls only, not the entries that the store makes of them. */
module WriteReads {
  import opened InternalKeys
  import opened History
  import opened Disk
  import opened Store
  import opened StoreSteps
  import opened StoreRecovery
  import opened StoreRuns
  import opened Guarantees

  // ---------------------------------------------------------------- operations as a map

  /** Operation `i` is the last one on `u`. */
  ghost predicate LastOn(ops: seq<Op>, u: UserKey, i: nat) {
    i < |ops| && ops[i].user == u && forall j :: i < j < |ops| ==> ops[j].user != u
  }

  ghost predicate Untouched(ops: seq<Op>, u: UserKey) {
    forall i :: 0 <= i < |ops| ==> ops[i].user != u
  }

  function Told(op: Op): Answer {
    match op
    case Put(_, v) => Found(v)
    case Delete(_) => NotFound
  }

  /** What a map answers for `u` after the operations, if it answered `before` at first. */
  function MapAnswer(ops: seq<Op>, u: UserKey, before: Answer): Answer {
    if ops == [] then before
    else if ops[|ops| - 1].user == u then Told(ops[|ops| - 1])
    else MapAnswer(ops[..|ops| - 1], u, before)
  }

  /** A read before the operations gave `before` and one behind them gives `after`: the last operation on the key decides. */
  ghost predicate Answers(ops: seq<Op>, u: UserKey, before: Answer, after: Answer) {
    && (forall i: nat :: LastOn(ops, u, i) ==>
          match ops[i]
          case Put(_, v) => after == Found(v)
          case Delete(_) => after == NotFound)
    && (Untouched(ops, u) ==> after == before)
  }

  lemma {:induction false} MapAnswerHits(ops: seq<Op>, u: UserKey, before: Answer, i: nat)
    requires LastOn(ops, u, i)
    ensures MapAnswer(ops, u, before) == Told(ops[i])
  {
    if i < |ops| - 1 { MapAnswerHits(ops[..|ops| - 1], u, before, i); }
  }

  lemma {:induction false} MapAnswerMisses(ops: seq<Op>, u: UserKey, before: Answer)
    requires Untouched(ops, u)
    ensures MapAnswer(ops, u, before) == before
  {
    if ops != [] { MapAnswerMisses(ops[..|ops| - 1], u, before); }
  }

  /** The map gives the last operation on the key. */
  lemma MapAnswerIsLast(ops: seq<Op>, u: UserKey, before: Answer)
    ensures Answers(ops, u, before, MapAnswer(ops, u, before))
  {
    forall i: nat | LastOn(ops, u, i) ensures MapAnswer(ops, u, before) == Told(ops[i]) { MapAnswerHits(ops, u, before, i); }
    if Untouched(ops, u) { MapAnswerMisses(ops, u, before); }
  }

  lemma {:induction false} SomeLast(ops: seq<Op>, u: UserKey) returns (i: nat)
    requires !Untouched(ops, u)
    ensures LastOn(ops, u, i)
  {
    i := |ops| - 1;
    if ops[i].user != u { i := SomeLast(ops[..i], u); }
  }

  lemma {:induction false} MapAnswerConcat(a: seq<Op>, b: seq<Op>, u: UserKey, before: Answer)
    ensures MapAnswer(a + b, u, before) == MapAnswer(b, u, MapAnswer(a, u, before))
  {
    if b == [] {
      assert a + b == a;
    } else {
      var n := |b| - 1;
      MapAnswerConcat(a, b[..n], u, before);
      assert (a + b)[..|a + b| - 1] == a + b[..n];
    }
  }

  // ---------------------------------------------------------------- one batch over a history

  /** Reading behind a batch finds its last operation on the key, or what was there before. */
  lemma BatchReads(older: set<Entry>, b: Batch, u: UserKey, s: nat)
    requires Distinct(older) && (forall e :: e in older ==> e.key.sequence < b.first) && b.first + |b.ops| <= s + 1
    ensures Distinct(older + Elements(BatchEntries(b)))
    ensures ReadAt(older + Elements(BatchEntries(b)), u, s) == MapAnswer(b.ops, u, ReadAt(older, u, s))
  {
    BatchRange(b);
    if Untouched(b.ops, u) {
      MapAnswerMisses(b.ops, u, ReadAt(older, u, s));
      BatchMisses(older, b, u, s);
    } else {
      var i := SomeLast(b.ops, u);
      MapAnswerHits(b.ops, u, ReadAt(older, u, s), i);
      BatchHits(older, b, u, s, i);
    }
  }

  lemma BatchMisses(older: set<Entry>, b: Batch, u: UserKey, s: nat)
    requires Distinct(older + Elements(BatchEntries(b))) && Untouched(b.ops, u)
    ensures ReadAt(older + Elements(BatchEntries(b)), u, s) == ReadAt(older, u, s)
  {
    var es := BatchEntries(b);
    forall e | e in es ensures e.key.user != u {
      var j :| 0 <= j < |es| && es[j] == e;
      assert b.ops[j].user != u;
    }
    ReadsDetermine(older + Elements(es), u, s, Newest(older, u, s));
  }

  lemma BatchHits(older: set<Entry>, b: Batch, u: UserKey, s: nat, i: nat)
    requires Distinct(older + Elements(BatchEntries(b))) && (forall e :: e in older ==> e.key.sequence < b.first)
    requires b.first + |b.ops| <= s + 1 && LastOn(b.ops, u, i)
    ensures ReadAt(older + Elements(BatchEntries(b)), u, s) == Told(b.ops[i])
  {
    var es := BatchEntries(b);
    var hit := es[i];
    assert hit in es;
    forall e | e in older + Elements(es) && Visible(e, u, s) ensures e.key.sequence <= hit.key.sequence {
      if e in es {
        var j :| 0 <= j < |es| && es[j] == e;
        assert b.ops[j].user == u;
      }
    }
    ReadsDetermine(older + Elements(es), u, s, Some(hit));
  }

  // ---------------------------------------------------------------- one write

  lemma WriteLayers(s: State)
    requires Inv(s) && s.memory.Some? && s.memory.value.writing.Some?
    ensures var m := s.memory.value;
            var older := s.t.below + ImmSet(m) + MemSet(m);
            && s.t.history == older + WritingSet(m) && Distinct(s.t.history) && SeqAtMost(older, m.lastSequence)
            && m.writing.value.first == m.lastSequence + 1
  {
  }

  /** Publishing a logged batch: each key reads as the last operation on it, and all others as before. */
  lemma ApplyReads(s: State, s': State, u: UserKey)
    requires Inv(s) && ApplyWrite(s, s')
    ensures var m, m' := s.memory.value, s'.memory.value;
            ReadAt(View(m'), u, m'.lastSequence) == MapAnswer(m.writing.value.ops, u, ReadAt(View(m), u, m.lastSequence))
  {
    var m, m' := s.memory.value, s'.memory.value;
    var older, b := s.t.below + ImmSet(m) + MemSet(m), m.writing.value;
    ApplyWriteKeepsInv(s, s');
    WriteLayers(s);
    Guarantees.LiveIsInRange(s, m.lastSequence);
    Guarantees.LiveIsInRange(s', m'.lastSequence);
    ReadsMatchHistory(s, u, m.lastSequence);
    ReadsMatchHistory(s', u, m'.lastSequence);
    BatchReads(older, b, u, m'.lastSequence);
    BatchRange(b);
    InvisibleAbove(older, WritingSet(m), u, m.lastSequence);
    SameAbove(older, u, m.lastSequence, m'.lastSequence);
  }

  /** Beyond the largest sequence number all snapshots read alike. */
  lemma SameAbove(h: set<Entry>, u: UserKey, s: nat, s': nat)
    requires Distinct(h) && SeqAtMost(h, s) && s <= s'
    ensures ReadAt(h, u, s') == ReadAt(h, u, s)
  {
    ReadsDetermine(h, u, s', Newest(h, u, s));
  }

  /** DB::Write, then DB::Get: a put reads back, a deleted key is not found, and a key the batch does not name reads as before. */
  lemma WriteReadsBack(s: State, s1: State, s2: State, ops: seq<Op>, u: UserKey)
    requires Inv(s) && LogWrite(s, s1, ops) && ApplyWrite(s1, s2)
    ensures var m, m2 := s.memory.value, s2.memory.value;
            Answers(ops, u, ReadAt(View(m), u, m.lastSequence), ReadAt(View(m2), u, m2.lastSequence))
  {
    LogWriteKeepsInv(s, s1, ops);
    ApplyReads(s1, s2, u);
    LogShowsNothing(s, s1, ops);
    MapAnswerIsLast(ops, u, ReadAt(View(s.memory.value), u, s.memory.value.lastSequence));
  }

  lemma LogShowsNothing(s: State, s': State, ops: seq<Op>)
    requires LogWrite(s, s', ops)
    ensures View(s'.memory.value) == View(s.memory.value) && s'.memory.value.lastSequence == s.memory.value.lastSequence
    ensures s'.memory.value.writing == Some(Batch(s.memory.value.lastSequence + 1, ops))
  {
  }

  // ---------------------------------------------------------------- whole runs

  /** All operations that the first `n` steps logged, in order. */
  function Logged(steps: seq<Step>, n: nat): seq<Op>
    requires n <= |steps|
  {
    if n == 0 then []
    else
      Logged(steps, n - 1) + match steps[n - 1]
      case Foreground(DoLogWrite(ops)) => ops
      case _ => []
  }

  /** If step `k` is a crash, it takes no record that recovery would read. */
  ghost predicate LosesNothing(states: seq<State>, steps: seq<Step>, k: nat)
    requires k < |states| && k < |steps|
  {
    match steps[k]
    case Restart(DoCrash(kept)) => Lost(states[k].disk.logs, MinLog(states[k].disk.manifest), kept) == {}
    case _ => true
  }

  lemma HistoryKept(states: seq<State>, steps: seq<Step>, k: nat)
    requires IsRun(states, steps) && k < |steps| && LosesNothing(states, steps, k)
    ensures states[k + 1].t.history == states[k].t.history + Added(states[k], steps[k])
  {
    RunKeepsInv(states, steps, k);
    assert StepAt(states, steps, k);
    StepKeepsHistory(states[k], steps[k], states[k + 1]);
  }

  lemma StepKeepsHistory(s: State, step: Step, s': State)
    requires Inv(s) && NextState(s, step, s')
    requires match step case Restart(DoCrash(kept)) => Lost(s.disk.logs, MinLog(s.disk.manifest), kept) == {} case _ => true
    ensures s'.t.history == s.t.history + Added(s, step)
  {
    match step
    case Restart(DoCrash(kept)) => CrashKeepsAll(s, s', kept);
    case Restart(_) =>
    case _ => HistoryChanges(s, step, s');
  }

  lemma CrashKeepsAll(s: State, s': State, kept: map<nat, nat>)
    requires Inv(s) && Crash(s, s', kept) && Lost(s.disk.logs, MinLog(s.disk.manifest), kept) == {}
    ensures s'.t.history == s.t.history
  {
    TornContents(s.disk.logs, MinLog(s.disk.manifest), kept);
  }

  lemma HistoryIsBounded(s: State)
    requires Inv(s)
    ensures Distinct(s.t.history) && SeqAtMost(s.t.history, MAX_SEQUENCE)
  {
  }

  lemma LogReads(s: State, s': State, ops: seq<Op>, u: UserKey)
    requires Inv(s) && LogWrite(s, s', ops)
    ensures ReadAt(s'.t.history, u, MAX_SEQUENCE) == MapAnswer(ops, u, ReadAt(s.t.history, u, MAX_SEQUENCE))
  {
    IdleHistory(s);
    HistoryIsBounded(s);
    BatchReads(s.t.history, Batch(s.memory.value.lastSequence + 1, ops), u, MAX_SEQUENCE);
  }

  lemma IdleHistory(s: State)
    requires Inv(s) && s.memory.Some? && s.memory.value.writing.None?
    ensures SeqAtMost(s.t.history, s.memory.value.lastSequence) && s.memory.value.lastSequence < MAX_SEQUENCE
  {
  }

  /** The history reads as the map that all logged operations make. */
  lemma {:induction false} HistoryIsMap(states: seq<State>, steps: seq<Step>, n: nat, u: UserKey)
    requires IsRun(states, steps) && n < |states| && forall k :: 0 <= k < n ==> LosesNothing(states, steps, k)
    ensures ReadAt(states[n].t.history, u, MAX_SEQUENCE) == MapAnswer(Logged(steps, n), u, NotFound)
  {
    if n == 0 {
      ReadsDetermine({}, u, MAX_SEQUENCE, None);
    } else {
      HistoryIsMap(states, steps, n - 1, u);
      HistoryStep(states, steps, n - 1, u);
    }
  }

  lemma HistoryStep(states: seq<State>, steps: seq<Step>, k: nat, u: UserKey)
    requires IsRun(states, steps) && k < |steps| && LosesNothing(states, steps, k)
    requires ReadAt(states[k].t.history, u, MAX_SEQUENCE) == MapAnswer(Logged(steps, k), u, NotFound)
    ensures ReadAt(states[k + 1].t.history, u, MAX_SEQUENCE) == MapAnswer(Logged(steps, k + 1), u, NotFound)
  {
    match steps[k]
    case Foreground(DoLogWrite(ops)) =>
      LoggedStep(states, steps, k, ops, u);
      MapAnswerConcat(Logged(steps, k), ops, u, NotFound);
    case _ =>
      HistoryKept(states, steps, k);
      assert Added(states[k], steps[k]) == {} && states[k + 1].t.history == states[k].t.history;
      assert Logged(steps, k + 1) == Logged(steps, k);
  }

  lemma LoggedStep(states: seq<State>, steps: seq<Step>, k: nat, ops: seq<Op>, u: UserKey)
    requires IsRun(states, steps) && k < |steps| && steps[k] == Foreground(DoLogWrite(ops))
    ensures ReadAt(states[k + 1].t.history, u, MAX_SEQUENCE) == MapAnswer(ops, u, ReadAt(states[k].t.history, u, MAX_SEQUENCE))
  {
    RunKeepsInv(states, steps, k);
    assert StepAt(states, steps, k);
    LogReads(states[k], states[k + 1], ops, u);
  }

  /** After every run of writes, flushes, compactions, crashes that lose nothing and recoveries, a store with no write in flight answers as
      the map that all its writes make, in the order in which they were logged. */
  lemma StoreIsMap(states: seq<State>, steps: seq<Step>, n: nat, u: UserKey)
    requires IsRun(states, steps) && n < |states| && forall k :: 0 <= k < n ==> LosesNothing(states, steps, k)
    requires states[n].memory.Some? && states[n].memory.value.writing.None?
    ensures var m := states[n].memory.value; ReadAt(View(m), u, m.lastSequence) == MapAnswer(Logged(steps, n), u, NotFound)
  {
    var s, m := states[n], states[n].memory.value;
    HistoryIsMap(states, steps, n, u);
    RunKeepsInv(states, steps, n);
    ReadsAreCorrect(states, steps, n, u, m.lastSequence);
    IdleHistory(s);
    HistoryIsBounded(s);
    SameAbove(s.t.history, u, m.lastSequence, MAX_SEQUENCE);
  }

  // ---------------------------------------------------------------- snapshots

  /** A new snapshot shows the store as it is, and the others stay as they were. */
  lemma SnapshotShowsNow(s: State, s': State, u: UserKey)
    requires Inv(s) && TakeSnapshot(s, s')
    ensures var m, m' := s.memory.value, s'.memory.value;
            && |m'.snapshots| == |m.snapshots| + 1 && m'.snapshots[..|m.snapshots|] == m.snapshots
            && LiveSnapshot(m', m'.snapshots[|m.snapshots|])
            && ReadAt(View(m'), u, m'.snapshots[|m.snapshots|]) == ReadAt(View(m), u, m.lastSequence)
  {
  }

  /** Releasing a snapshot takes out that one. */
  lemma ReleaseTakesOne(s: State, s': State, i: nat)
    requires ReleaseSnapshot(s, s', i)
    ensures var held, held' := s.memory.value.snapshots, s'.memory.value.snapshots;
            && multiset(held') == multiset(held) - multiset{held[i]}
            && held'[..i] == held[..i] && held'[i..] == held[i + 1..]
  {
    var held := s.memory.value.snapshots;
    assert held == held[..i] + [held[i]] + held[i + 1..];
  }

  /** Whatever happens short of a restart, a snapshot that is still held reads what a read would have given when it was taken. */
  lemma SnapshotKeepsThen(states: seq<State>, steps: seq<Step>, k: nat, j: nat, u: UserKey)
    requires IsRun(states, steps) && k < j < |states| && steps[k] == Foreground(DoTakeSnapshot) && forall l :: k <= l < j ==> !steps[l].Restart?
    requires states[k].memory.Some? && states[j].memory.Some? && LiveSnapshot(states[j].memory.value, states[k].memory.value.lastSequence)
    ensures var m := states[k].memory.value;
            ReadAt(View(states[j].memory.value), u, m.lastSequence) == ReadAt(View(m), u, m.lastSequence)
  {
    SnapshotIsRepeatable(states, steps, k, j, u, states[k].memory.value.lastSequence);
  }
}
