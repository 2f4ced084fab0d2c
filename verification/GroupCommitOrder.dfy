/** Sequence numbers, log records, statuses and progress of the writer queue, over whole runs. */
module GroupCommitOrder {
  import opened InternalKeys
  import opened Disk
  import opened Queues
  import opened GroupCommit
  import opened GroupCommitSafety

  // ---------------------------------------------------------------- grants of one group

  /** Disjoint increasing ranges within [lo, hi), handed out by order of arrival to places within [from, to). */
  ghost predicate GrantsIn(gs: seq<Grant>, from: nat, to: nat, lo: nat, hi: nat) {
    && (forall i :: 0 <= i < |gs| ==> from <= gs[i].place < to && lo <= gs[i].first && gs[i].first + gs[i].count <= hi)
    && (forall i, j :: 0 <= i < j < |gs| ==> gs[i].place < gs[j].place && gs[i].first + gs[i].count <= gs[j].first)
  }

  /** The grant belongs to the writer at its place and has the size of its batch. */
  ghost predicate Belongs(g: Grant, arrived: seq<nat>, rs: Requests) {
    && g.place < |arrived| && arrived[g.place] == g.id
    && g.id in rs && rs[g.id].batch.Some? && g.count == |rs[g.id].batch.value|
  }

  /** A grant covers exactly its writer's operations in the record that starts at `first`. */
  ghost predicate Covers(g: Grant, rs: Requests, first: nat, ops: seq<Op>) {
    && g.id in rs && rs[g.id].batch.Some? && g.count == |rs[g.id].batch.value|
    && first <= g.first && g.first - first + g.count <= |ops|
    && ops[g.first - first..g.first - first + g.count] == rs[g.id].batch.value
  }

  lemma CoversInLonger(g: Grant, rs: Requests, first: nat, ops: seq<Op>, more: seq<Op>)
    requires Covers(g, rs, first, ops)
    ensures Covers(g, rs, first, ops + more)
  {
    var i, n := g.first - first, g.count;
    assert (ops + more)[i..i + n] == ops[i..i + n];
  }

  ghost predicate AllCover(gs: seq<Grant>, rs: Requests, first: nat, ops: seq<Op>) {
    forall g :: g in gs ==> Covers(g, rs, first, ops)
  }

  lemma CoverMore(gs: seq<Grant>, rs: Requests, first: nat, ops: seq<Op>, id: nat, place: nat)
    requires AllCover(gs, rs, first, ops) && id in rs && rs[id].batch.Some?
    ensures AllCover(gs + [Grant(id, place, first + |ops|, |OpsOf(rs[id])|)], rs, first, ops + OpsOf(rs[id]))
  {
    var all := ops + OpsOf(rs[id]);
    forall g | g in gs ensures Covers(g, rs, first, all) {
      CoversInLonger(g, rs, first, ops, OpsOf(rs[id]));
    }
    assert all[|ops|..|ops| + |OpsOf(rs[id])|] == OpsOf(rs[id]);
  }

  lemma {:induction false} GroupRanges(ids: seq<nat>, rs: Requests, place: nat, first: nat)
    requires Known(ids, rs)
    ensures GrantsIn(GrantsFrom(ids, rs, place, first), place, place + |ids|, first, first + |Merged(ids, rs)|)
  {
    if ids != [] {
      GroupRanges(ids[..|ids| - 1], rs, place, first);
    }
  }

  lemma {:induction false} GroupContents(ids: seq<nat>, rs: Requests, place: nat, first: nat)
    requires Known(ids, rs)
    ensures AllCover(GrantsFrom(ids, rs, place, first), rs, first, Merged(ids, rs))
  {
    if ids != [] {
      var n := |ids| - 1;
      var before, id := ids[..n], ids[n];
      GroupContents(before, rs, place, first);
      if rs[id].batch.Some? {
        CoverMore(GrantsFrom(before, rs, place, first), rs, first, Merged(before, rs), id, place + n);
      } else {
        assert Merged(ids, rs) == Merged(before, rs);
      }
    }
  }

  lemma {:induction false} GroupBelongs(ids: seq<nat>, rs: Requests, place: nat, first: nat, arrived: seq<nat>)
    requires Known(ids, rs) && place + |ids| <= |arrived| && forall i :: 0 <= i < |ids| ==> arrived[place + i] == ids[i]
    ensures forall g :: g in GrantsFrom(ids, rs, place, first) ==> Belongs(g, arrived, rs)
  {
    if ids != [] {
      GroupBelongs(ids[..|ids| - 1], rs, place, first, arrived);
    }
  }

  lemma AppendGrants(gs: seq<Grant>, from: nat, via: nat, to: nat, lo: nat, mid: nat, hi: nat, more: seq<Grant>)
    requires GrantsIn(gs, from, via, lo, mid) && GrantsIn(more, via, to, mid, hi) && lo <= mid <= hi && from <= via <= to
    ensures GrantsIn(gs + more, from, to, lo, hi)
  {
  }

  // ---------------------------------------------------------------- the invariant

  /** The group in its unlocked section, if any. */
  function Pending(s: State): Option<Phase> {
    if s.queue != [] && s.queue[0] in s.phase && s.phase[s.queue[0]].Committing? then Some(s.phase[s.queue[0]]) else None
  }

  function Free(s: State): nat { s.lastSequence + 1 + if Pending(s).Some? then |Pending(s).value.ops| else 0 }

  function Taken(s: State): nat { s.popped + if Pending(s).Some? then Pending(s).value.k else 0 }

  ghost predicate GrantsOk(grants: seq<Grant>, arrived: seq<nat>, taken: nat, free: nat, rs: Requests) {
    taken <= |arrived| && GrantsIn(grants, 0, taken, 1, free) && forall g :: g in grants ==> Belongs(g, arrived, rs)
  }

  ghost predicate LogOk(log: seq<Batch>, hi: nat) {
    && (forall i :: 0 <= i < |log| ==> log[i].first + |log[i].ops| <= hi)
    && (forall i, j :: 0 <= i < j < |log| ==> log[i].first + |log[i].ops| <= log[j].first)
  }

  function Logged(s: State): nat {
    s.lastSequence + 1 + if Pending(s).Some? && Pending(s).value.logged then |Pending(s).value.ops| else 0
  }

  ghost predicate StatusOf(groups: seq<(seq<nat>, Status)>, id: nat, status: Status) {
    exists i :: 0 <= i < |groups| && id in groups[i].0 && groups[i].1 == status
  }

  /** Groups take disjoint sets of popped writers. */
  ghost predicate GroupsApart(groups: seq<(seq<nat>, Status)>, arrived: seq<nat>, popped: nat) {
    && popped <= |arrived|
    && (forall i, id :: 0 <= i < |groups| && id in groups[i].0 ==> id in arrived[..popped])
    && (forall i, j, id :: 0 <= i < j < |groups| && id in groups[i].0 ==> id !in groups[j].0)
  }

  /** Everyone finished has the status of its group. */
  ghost predicate StatusesOk(groups: seq<(seq<nat>, Status)>, done: map<nat, Status>, phase: map<nat, Phase>) {
    && (forall id :: id in done ==> StatusOf(groups, id, done[id]))
    && (forall id :: id in phase && phase[id].Returned? ==> StatusOf(groups, id, phase[id].status))
  }

  ghost predicate BooksOk(s: State) {
    && GrantsOk(s.grants, s.arrived, Taken(s), Free(s), s.requests) && LogOk(s.log, Logged(s))
    && GroupsApart(s.groups, s.arrived, s.popped) && StatusesOk(s.groups, s.done, s.phase)
  }

  ghost predicate FullInv(s: State) {
    Inv(s) && BooksOk(s)
  }

  // ---------------------------------------------------------------- steps

  lemma PendingSame(s: State, step: Step, s': State)
    requires Next(s, step, s') && (step.Enqueue? || step.Sleep? || step.Wake? || step.ReturnDone? || step.Lead?)
    ensures Taken(s') == Taken(s) && Free(s') == Free(s) && Logged(s') == Logged(s)
  {
    assert Pending(s') == Pending(s);
  }

  lemma PendingBegins(s: State, s': State, id: nat, k: nat)
    requires DoBegin(s, s', id, k)
    ensures Taken(s) == s.popped && Free(s) == Logged(s) == Logged(s') == s.lastSequence + 1
    ensures Taken(s') == s.popped + k && Free(s') == s.lastSequence + 1 + |Merged(s.queue[..k], s.requests)|
  {
    assert Pending(s) == None && Pending(s') == Some(s'.phase[id]);
  }

  lemma QuietGrants(grants: seq<Grant>, arrived: seq<nat>, arrived': seq<nat>, taken: nat, free: nat, rs: Requests, rs': Requests)
    requires GrantsOk(grants, arrived, taken, free, rs) && arrived <= arrived'
    requires forall id :: id in rs ==> id in rs' && rs'[id] == rs[id]
    ensures GrantsOk(grants, arrived', taken, free, rs')
  {
    forall g | g in grants ensures Belongs(g, arrived', rs') {
      assert Belongs(g, arrived, rs);
    }
  }

  lemma QuietGroups(groups: seq<(seq<nat>, Status)>, arrived: seq<nat>, arrived': seq<nat>, popped: nat)
    requires GroupsApart(groups, arrived, popped) && arrived <= arrived'
    ensures GroupsApart(groups, arrived', popped)
  {
    assert arrived'[..popped] == arrived[..popped];
  }

  lemma QuietStatuses(groups: seq<(seq<nat>, Status)>, done: map<nat, Status>, phase: map<nat, Phase>, phase': map<nat, Phase>)
    requires StatusesOk(groups, done, phase)
    requires forall id :: id in phase' && phase'[id].Returned? ==>
               (id in phase && phase[id] == phase'[id]) || (id in done && phase'[id].status == done[id])
    ensures StatusesOk(groups, done, phase')
  {
  }

  lemma QuietKeepsBooks(s: State, step: Step, s': State)
    requires BooksOk(s) && Next(s, step, s') && (step.Enqueue? || step.Sleep? || step.Wake? || step.ReturnDone? || step.Lead?)
    requires forall id :: id in s.requests ==> id in s.phase
    ensures BooksOk(s')
  {
    PendingSame(s, step, s');
    QuietGrants(s.grants, s.arrived, s'.arrived, Taken(s), Free(s), s.requests, s'.requests);
    QuietGroups(s.groups, s.arrived, s'.arrived, s.popped);
    QuietStatuses(s.groups, s.done, s.phase, s'.phase);
  }

  lemma BeginGrants(grants: seq<Grant>, arrived: seq<nat>, popped: nat, k: nat, first: nat, rs: Requests, ids: seq<nat>)
    requires GrantsOk(grants, arrived, popped, first, rs) && popped + k <= |arrived| && ids == arrived[popped..][..k] && Known(ids, rs) && 1 <= first
    ensures GrantsOk(grants + GrantsFrom(ids, rs, popped, first), arrived, popped + k, first + |Merged(ids, rs)|, rs)
  {
    GroupRanges(ids, rs, popped, first);
    GroupBelongs(ids, rs, popped, first, arrived);
    AppendGrants(grants, 0, popped, popped + k, 1, first, first + |Merged(ids, rs)|, GrantsFrom(ids, rs, popped, first));
  }

  lemma BeginBooksGrants(s: State, s': State, id: nat, k: nat)
    requires GrantsOk(s.grants, s.arrived, Taken(s), Free(s), s.requests) && DoBegin(s, s', id, k)
    requires s.popped <= |s.arrived| && s.queue == s.arrived[s.popped..]
    ensures GrantsOk(s'.grants, s'.arrived, Taken(s'), Free(s'), s'.requests)
  {
    PendingBegins(s, s', id, k);
    BeginGrants(s.grants, s.arrived, s.popped, k, s.lastSequence + 1, s.requests, s.queue[..k]);
  }

  lemma BeginBooksRest(s: State, s': State, id: nat, k: nat)
    requires LogOk(s.log, Logged(s)) && GroupsApart(s.groups, s.arrived, s.popped) && StatusesOk(s.groups, s.done, s.phase)
    requires DoBegin(s, s', id, k)
    ensures LogOk(s'.log, Logged(s')) && GroupsApart(s'.groups, s'.arrived, s'.popped) && StatusesOk(s'.groups, s'.done, s'.phase)
  {
    PendingBegins(s, s', id, k);
    QuietStatuses(s.groups, s.done, s.phase, s'.phase);
  }

  lemma BeginKeepsBooks(s: State, s': State, id: nat, k: nat)
    requires BooksOk(s) && DoBegin(s, s', id, k) && s.popped <= |s.arrived| && s.queue == s.arrived[s.popped..]
    ensures BooksOk(s')
  {
    BeginBooksGrants(s, s', id, k);
    BeginBooksRest(s, s', id, k);
  }

  lemma LogKeepsBooks(s: State, s': State, id: nat)
    requires BooksOk(s) && DoLog(s, s', id) && s.queue != [] && s.queue[0] == id && s.phase[id].first == s.lastSequence + 1
    ensures BooksOk(s')
  {
    assert Pending(s) == Some(s.phase[id]) && Pending(s') == Some(s'.phase[id]);
    QuietStatuses(s.groups, s.done, s.phase, s'.phase);
  }

  lemma PoppedStatuses(s: State, s': State, id: nat, k: nat, status: Status, last: nat)
    requires StatusesOk(s.groups, s.done, s.phase) && Popped(s, s', id, k, status, last)
    ensures StatusesOk(s'.groups, s'.done, s'.phase)
  {
    var ids := s.queue[..k];
    forall x, st | StatusOf(s.groups, x, st) ensures StatusOf(s'.groups, x, st) {
      var i :| 0 <= i < |s.groups| && x in s.groups[i].0 && s.groups[i].1 == st;
      assert s'.groups[i] == s.groups[i];
    }
    forall i | 0 <= i < k ensures StatusOf(s'.groups, s.queue[i], status) {
      assert s'.groups[|s.groups|] == (ids, status) && ids[i] in ids;
    }
  }

  lemma PoppedGroups(s: State, s': State, id: nat, k: nat, status: Status, last: nat)
    requires Distinct(s.arrived) && s.popped <= |s.arrived| && s.queue == s.arrived[s.popped..]
    requires GroupsApart(s.groups, s.arrived, s.popped) && Popped(s, s', id, k, status, last)
    ensures GroupsApart(s'.groups, s'.arrived, s'.popped)
  {
    var ids := s.queue[..k];
    assert s.arrived[..s.popped] + ids == s.arrived[..s.popped + k];
    NotPoppedBefore(s.arrived, s.popped, k);
  }

  lemma NotPoppedBefore(arrived: seq<nat>, popped: nat, k: nat)
    requires Distinct(arrived) && popped + k <= |arrived|
    ensures forall x :: x in arrived[popped..][..k] ==> x !in arrived[..popped]
  {
    forall x | x in arrived[popped..][..k] ensures x !in arrived[..popped] {
      var i :| 0 <= i < k && arrived[popped..][..k][i] == x;
      assert arrived[popped + i] == x;
    }
  }

  lemma PopLeavesNothingPending(s: State, s': State, id: nat, k: nat, status: Status, last: nat)
    requires QueueOk(s.queue, s.arrived, s.popped, s.requests, s.phase) && PhasesOk(s.queue, s.done, s.phase) && Popped(s, s', id, k, status, last)
    ensures Pending(s') == None
  {
    QueueMembers(s.queue, s.arrived, s.popped);
    if s'.queue != [] && s'.queue[0] in s'.phase {
      PoppedPhase(s, s', id, k, status, last, s'.queue[0]);
    }
  }

  lemma RefuseKeepsBooks(s: State, s': State, id: nat, status: Status)
    requires Inv(s) && BooksOk(s) && DoRefuse(s, s', id, status)
    ensures BooksOk(s')
  {
    PoppedStatuses(s, s', id, 1, status, s'.lastSequence);
    PoppedGroups(s, s', id, 1, status, s'.lastSequence);
    RefusePending(s, s', id, status);
    MoreTaken(s.grants, s.arrived, s.popped, s.popped + 1, Free(s), s.requests);
  }

  lemma RefusePending(s: State, s': State, id: nat, status: Status)
    requires Inv(s) && DoRefuse(s, s', id, status)
    ensures Taken(s) == s.popped && Taken(s') == s.popped + 1 <= |s.arrived| && Free(s') == Free(s) && Logged(s') == Logged(s)
  {
    PopLeavesNothingPending(s, s', id, 1, status, s'.lastSequence);
    assert Pending(s) == None;
  }

  lemma MoreTaken(grants: seq<Grant>, arrived: seq<nat>, taken: nat, taken': nat, free: nat, rs: Requests)
    requires GrantsOk(grants, arrived, taken, free, rs) && taken <= taken' <= |arrived|
    ensures GrantsOk(grants, arrived, taken', free, rs)
  {
  }

  lemma FinishKeepsBooks(s: State, s': State, id: nat, status: Status)
    requires Inv(s) && BooksOk(s) && DoFinish(s, s', id, status)
    ensures BooksOk(s')
  {
    FinishPending(s, s', id, status);
    PoppedStatuses(s, s', id, s.phase[id].k, status, s'.lastSequence);
    PoppedGroups(s, s', id, s.phase[id].k, status, s'.lastSequence);
    LogGrows(s.log, Logged(s), Logged(s'));
  }

  lemma LogGrows(log: seq<Batch>, hi: nat, hi': nat)
    requires LogOk(log, hi) && hi <= hi'
    ensures LogOk(log, hi')
  {
  }

  lemma CommitterIsPending(s: State, id: nat)
    requires PhasesOk(s.queue, s.done, s.phase) && id in s.phase && s.phase[id].Committing?
    ensures Pending(s) == Some(s.phase[id])
  {
    assert PhaseOk(s.queue, s.done, id, s.phase[id]);
  }

  lemma FinishPending(s: State, s': State, id: nat, status: Status)
    requires QueueOk(s.queue, s.arrived, s.popped, s.requests, s.phase) && PhasesOk(s.queue, s.done, s.phase) && DoFinish(s, s', id, status)
    ensures Free(s') == Free(s) && Taken(s') == Taken(s) && Logged(s) <= Logged(s')
  {
    var p := s.phase[id];
    CommitterIsPending(s, id);
    PopLeavesNothingPending(s, s', id, p.k, status, s'.lastSequence);
  }

  lemma StepKeepsBooks(s: State, step: Step, s': State)
    requires FullInv(s) && Next(s, step, s')
    ensures BooksOk(s')
  {
    match step
    case Refuse(id, status) => RefuseKeepsBooks(s, s', id, status);
    case Begin(id, k) => BeginKeepsBooks(s, s', id, k);
    case Log(id) =>
      assert PhaseOk(s.queue, s.done, id, s.phase[id]);
      assert CommitOk(s.queue, s.requests, s.lastSequence, s.phase[id]);
      LogKeepsBooks(s, s', id);
    case Finish(id, status) => FinishKeepsBooks(s, s', id, status);
    case _ => QuietKeepsBooks(s, step, s');
  }

  lemma StepKeepsFull(s: State, step: Step, s': State)
    requires FullInv(s) && Next(s, step, s')
    ensures FullInv(s')
  {
    StepKeepsInv(s, step, s');
    StepKeepsBooks(s, step, s');
  }

  // ---------------------------------------------------------------- runs

  ghost predicate StepAt(states: seq<State>, steps: seq<Step>, i: nat) {
    i + 1 < |states| && i < |steps| && Next(states[i], steps[i], states[i + 1])
  }

  ghost predicate IsRun(states: seq<State>, steps: seq<Step>) {
    |states| == |steps| + 1 && states[0] == Empty && forall i :: 0 <= i < |steps| ==> StepAt(states, steps, i)
  }

  lemma {:induction false} RunKeepsInv(states: seq<State>, steps: seq<Step>, i: nat)
    requires IsRun(states, steps) && i < |states|
    ensures FullInv(states[i])
  {
    if i > 0 {
      RunKeepsInv(states, steps, i - 1);
      RunStep(states, steps, i - 1);
    }
  }

  lemma RunStep(states: seq<State>, steps: seq<Step>, i: nat)
    requires IsRun(states, steps) && i < |steps| && FullInv(states[i])
    ensures FullInv(states[i + 1])
  {
    assert StepAt(states, steps, i);
    StepKeepsFull(states[i], steps[i], states[i + 1]);
  }

  /** At most one writer makes room, logs or applies at any time, and it is the one at the front of the queue. */
  lemma OneLeader(states: seq<State>, steps: seq<Step>, i: nat, a: nat, b: nat)
    requires IsRun(states, steps) && i < |states|
    requires a in states[i].phase && b in states[i].phase && Active(states[i].phase[a]) && Active(states[i].phase[b])
    ensures a == b && states[i].queue != [] && states[i].queue[0] == a
  {
    RunKeepsInv(states, steps, i);
    assert PhaseOk(states[i].queue, states[i].done, a, states[i].phase[a]);
    assert PhaseOk(states[i].queue, states[i].done, b, states[i].phase[b]);
  }

  /** Batches get disjoint ranges of sequence numbers in order of arrival, each as long as the batch, and log records follow
      each other in the same order. */
  lemma RangesInArrivalOrder(states: seq<State>, steps: seq<Step>, n: nat)
    requires IsRun(states, steps) && n < |states|
    ensures var s := states[n];
            && (forall i, j :: 0 <= i < j < |s.grants| ==>
                  s.grants[i].place < s.grants[j].place && s.grants[i].first + s.grants[i].count <= s.grants[j].first)
            && (forall g :: g in s.grants ==> Belongs(g, s.arrived, s.requests))
            && (forall i, j :: 0 <= i < j < |s.log| ==> s.log[i].first + |s.log[i].ops| <= s.log[j].first)
  {
    RunKeepsInv(states, steps, n);
  }

  /** Every call returns at most once, and with the status of the one group it was in. */
  lemma ReturnsOnce(states: seq<State>, steps: seq<Step>, n: nat)
    requires IsRun(states, steps) && n < |states|
    ensures var s := states[n];
            && (forall i, j :: 0 <= i < j < |s.returned| ==> s.returned[i].0 != s.returned[j].0)
            && (forall r :: r in s.returned ==> StatusOf(s.groups, r.0, r.1))
            && (forall i, j, id :: 0 <= i < j < |s.groups| && id in s.groups[i].0 ==> id !in s.groups[j].0)
  {
    RunKeepsInv(states, steps, n);
  }

  /** A write that asked for a sync is committed only by a leader that syncs. */
  lemma SyncIsHonoured(states: seq<State>, steps: seq<Step>, n: nat, leader: nat, i: nat)
    requires IsRun(states, steps) && n < |states| && leader in states[n].phase && states[n].phase[leader].Committing?
    requires i < states[n].phase[leader].k
    ensures i < |states[n].queue| && states[n].queue[i] in states[n].requests && leader in states[n].requests
    ensures states[n].requests[states[n].queue[i]].sync ==> states[n].requests[leader].sync
  {
    RunKeepsInv(states, steps, n);
    var s := states[n];
    assert PhaseOk(s.queue, s.done, leader, s.phase[leader]);
    assert CommitOk(s.queue, s.requests, s.lastSequence, s.phase[leader]);
    assert MayJoin(s.requests, s.queue[0], s.queue[i]);
  }

  // ---------------------------------------------------------------- nobody is left waiting

  /** Steps the writers take by themselves: no new call, no spurious wake-up. */
  ghost predicate Internal(s: State, step: Step) {
    !step.Enqueue? && (step.Wake? ==> InPhase(s, step.id, Sleeping(true)))
  }

  ghost predicate Stuck(s: State) {
    forall step, s' :: Internal(s, step) ==> !Next(s, step, s')
  }

  /** The writer at the front can always go on. */
  lemma FrontCanMove(s: State) returns (step: Step, s': State)
    requires Inv(s) && s.queue != []
    ensures Internal(s, step) && Next(s, step, s') && (step.Lead? ==> step.id == s.queue[0])
    ensures InPhase(s, s.queue[0], Leading) || (!step.Refuse? && !step.Begin?)
  {
    var id := s.queue[0];
    QueueMembers(s.queue, s.arrived, s.popped);
    assert id in s.queue;
    assert PhaseOk(s.queue, s.done, id, s.phase[id]);
    match s.phase[id]
    case Checking => step, s' := Lead(id), s.(phase := s.phase[id := Leading]);
    case Sleeping(_) => step, s' := Wake(id), s.(phase := s.phase[id := Checking]);
    case Leading => step, s' := Refuse(id, Error(0)), PoppedState(s, id, 1, Error(0), s.lastSequence);
    case Committing(k, _, _, _) =>
      assert CommitOk(s.queue, s.requests, s.lastSequence, s.phase[id]);
      step, s' := CommitterCanMove(s, id);
  }

  lemma CommitterCanMove(s: State, id: nat) returns (step: Step, s': State)
    requires id in s.phase && s.phase[id].Committing? && 1 <= s.phase[id].k <= |s.queue| && s.queue[0] == id
    ensures step.Finish? && Internal(s, step) && Next(s, step, s')
  {
    step := Finish(id, Error(0));
    s' := PoppedState(s, id, s.phase[id].k, Error(0), s.lastSequence + |s.phase[id].ops|);
  }

  /** A writer off the queue can always go on until it has returned. */
  lemma DoneCanMove(s: State, id: nat) returns (step: Step, s': State)
    requires Inv(s) && id in s.phase && id !in s.queue && !s.phase[id].Returned?
    ensures (step.ReturnDone? || step.Wake?) && Internal(s, step) && Next(s, step, s')
  {
    assert PhaseOk(s.queue, s.done, id, s.phase[id]);
    if s.phase[id].Checking? {
      step, s' := ReturnDone(id), s.(phase := s.phase[id := Returned(s.done[id])], returned := s.returned + [(id, s.done[id])]);
    } else {
      step, s' := Wake(id), s.(phase := s.phase[id := Checking]);
    }
  }

  /** No wake-up is lost: in a reachable state in which the writers can do nothing more, every call has returned. */
  lemma StuckMeansReturned(states: seq<State>, steps: seq<Step>, n: nat)
    requires IsRun(states, steps) && n < |states| && Stuck(states[n])
    ensures forall id :: id in states[n].phase ==> states[n].phase[id].Returned?
  {
    RunKeepsInv(states, steps, n);
    StuckIsReturned(states[n]);
  }

  lemma StuckIsReturned(s: State)
    requires Inv(s) && Stuck(s)
    ensures forall id :: id in s.phase ==> s.phase[id].Returned?
  {
    if s.queue != [] {
      var step, s' := FrontCanMove(s);
      assert false;
    }
    forall id | id in s.phase ensures s.phase[id].Returned? {
      if !s.phase[id].Returned? {
        var step, s' := DoneCanMove(s, id);
        assert false;
      }
    }
  }
}
