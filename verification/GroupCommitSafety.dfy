/** What every reachable state of the writer queue keeps. */
module GroupCommitSafety {
  import opened Queues
  import opened GroupCommit

  predicate Active(p: Phase) { p.Leading? || p.Committing? }

  // ---------------------------------------------------------------- the queue

  /** The queue holds the writers that arrived and were not yet popped, in order of arrival. */
  ghost predicate QueueOk(queue: seq<nat>, arrived: seq<nat>, popped: nat, rs: Requests, phase: map<nat, Phase>) {
    && Distinct(arrived) && popped <= |arrived| && queue == arrived[popped..]
    && (forall id :: id in arrived <==> id in phase) && (forall id :: id in arrived <==> id in rs)
  }

  lemma QueueMembers(queue: seq<nat>, arrived: seq<nat>, popped: nat)
    requires Distinct(arrived) && popped <= |arrived| && queue == arrived[popped..]
    ensures Distinct(queue) && forall id :: id in queue ==> id in arrived
  {
  }

  /** Where each writer stands. */
  ghost predicate PhaseOk(queue: seq<nat>, done: map<nat, Status>, id: nat, p: Phase) {
    match p
    case Checking => id in queue || id in done
    case Sleeping(true) => id in queue || id in done
    case Sleeping(false) => id in queue && id !in done && queue[0] != id
    case Leading => queue != [] && queue[0] == id
    case Committing(_, _, _, _) => queue != [] && queue[0] == id
    case Returned(status) => id !in queue && (id in done ==> done[id] == status)
  }

  ghost predicate PhasesOk(queue: seq<nat>, done: map<nat, Status>, phase: map<nat, Phase>) {
    && (forall id :: id in phase ==> PhaseOk(queue, done, id, phase[id]))
    && (forall id :: id in done ==> id in phase && id !in queue)
  }

  /** A group being committed is a fair prefix of the queue and takes the numbers right after the last published one. */
  ghost predicate CommitOk(queue: seq<nat>, rs: Requests, last: nat, p: Phase) {
    p.Committing? ==>
      && GroupOk(queue, rs, p.k) && Known(queue[..p.k], rs) && p.ops == Merged(queue[..p.k], rs) && p.first == last + 1
  }

  ghost predicate CommitsOk(s: State) {
    forall id :: id in s.phase ==> CommitOk(s.queue, s.requests, s.lastSequence, s.phase[id])
  }

  ghost predicate ReturnedOk(returned: seq<(nat, Status)>, phase: map<nat, Phase>) {
    && (forall i, j :: 0 <= i < j < |returned| ==> returned[i].0 != returned[j].0)
    && (forall r :: r in returned <==> r.0 in phase && phase[r.0] == Returned(r.1))
  }

  ghost predicate Inv(s: State) {
    && QueueOk(s.queue, s.arrived, s.popped, s.requests, s.phase)
    && PhasesOk(s.queue, s.done, s.phase)
    && CommitsOk(s)
    && ReturnedOk(s.returned, s.phase)
  }

  // ---------------------------------------------------------------- each step keeps it

  lemma EnqueueKeepsQueue(s: State, s': State, id: nat, r: Request)
    requires QueueOk(s.queue, s.arrived, s.popped, s.requests, s.phase) && DoEnqueue(s, s', id, r)
    ensures QueueOk(s'.queue, s'.arrived, s'.popped, s'.requests, s'.phase)
  {
    assert s'.arrived[s.popped..] == s.arrived[s.popped..] + [id];
  }

  lemma EnqueueKeepsPhases(s: State, s': State, id: nat, r: Request)
    requires PhasesOk(s.queue, s.done, s.phase) && DoEnqueue(s, s', id, r)
    ensures PhasesOk(s'.queue, s'.done, s'.phase)
  {
    forall x | x in s'.phase ensures PhaseOk(s'.queue, s'.done, x, s'.phase[x]) {
      if x != id { assert PhaseOk(s.queue, s.done, x, s.phase[x]); }
    }
  }

  lemma EnqueueKeepsCommits(s: State, s': State, id: nat, r: Request)
    requires CommitsOk(s) && DoEnqueue(s, s', id, r) && id !in s.queue && Known(s.queue, s.requests)
    ensures CommitsOk(s')
  {
    forall x | x in s'.phase ensures CommitOk(s'.queue, s'.requests, s'.lastSequence, s'.phase[x]) {
      if x != id && s.phase[x].Committing? {
        assert CommitOk(s.queue, s.requests, s.lastSequence, s.phase[x]);
        assert s'.queue[..s.phase[x].k] == s.queue[..s.phase[x].k];
        MergedSame(s.queue[..s.phase[x].k], s.requests, s'.requests);
      }
    }
  }

  lemma EnqueueKeepsInv(s: State, s': State, id: nat, r: Request)
    requires Inv(s) && DoEnqueue(s, s', id, r)
    ensures Inv(s')
  {
    QueueMembers(s.queue, s.arrived, s.popped);
    EnqueueKeepsQueue(s, s', id, r);
    EnqueueKeepsPhases(s, s', id, r);
    EnqueueKeepsCommits(s, s', id, r);
  }

  lemma {:induction false} MergedSame(ids: seq<nat>, rs: Requests, rs': Requests)
    requires forall id :: id in ids ==> id in rs && id in rs' && rs[id] == rs'[id]
    ensures Merged(ids, rs) == Merged(ids, rs')
  {
    if ids != [] {
      MergedSame(ids[..|ids| - 1], rs, rs');
    }
  }

  /** One writer changes its phase. */
  lemma SetPhase(s: State, s': State, id: nat, p: Phase)
    requires Inv(s) && id in s.phase && PhaseOk(s.queue, s.done, id, p) && CommitOk(s.queue, s.requests, s.lastSequence, p)
    requires !s.phase[id].Returned? && s'.phase == s.phase[id := p] && s'.returned == s.returned + (if p.Returned? then [(id, p.status)] else [])
    requires s'.queue == s.queue && s'.arrived == s.arrived && s'.popped == s.popped && s'.requests == s.requests && s'.done == s.done
    requires s'.lastSequence == s.lastSequence
    ensures Inv(s')
  {
    forall r | r in s.returned ensures r.0 != id {
      assert s.phase[r.0] == Returned(r.1);
    }
    assert ReturnedOk(s'.returned, s'.phase);
    assert CommitsOk(s');
  }

  lemma WaitStepsKeepInv(s: State, step: Step, s': State)
    requires Inv(s) && Next(s, step, s') && (step.Sleep? || step.Wake? || step.ReturnDone?)
    ensures Inv(s')
  {
    assert PhaseOk(s.queue, s.done, step.id, s.phase[step.id]);
    SetPhase(s, s', step.id, s'.phase[step.id]);
  }

  lemma LeaderStepsKeepInv(s: State, step: Step, s': State)
    requires Inv(s) && Next(s, step, s') && (step.Lead? || step.Begin? || step.Log?)
    ensures Inv(s')
  {
    assert PhaseOk(s.queue, s.done, step.id, s.phase[step.id]);
    assert CommitOk(s.queue, s.requests, s.lastSequence, s.phase[step.id]);
    SetPhase(s, s', step.id, s'.phase[step.id]);
  }

  lemma PoppedQueue(s: State, s': State, id: nat, k: nat, status: Status, last: nat)
    requires QueueOk(s.queue, s.arrived, s.popped, s.requests, s.phase) && Popped(s, s', id, k, status, last)
    ensures QueueOk(s'.queue, s'.arrived, s'.popped, s'.requests, s'.phase)
  {
    assert s.arrived[s.popped..][k..] == s.arrived[s.popped + k..];
  }

  lemma PrefixOrRest(queue: seq<nat>, k: nat, x: nat)
    requires Distinct(queue) && k <= |queue|
    ensures x in queue <==> x in queue[..k] || x in queue[k..]
    ensures x in queue[..k] ==> x !in queue[k..]
    ensures x in queue[..k] && k > 0 && x != queue[0] ==> exists i :: 1 <= i < k && queue[i] == x
    ensures k < |queue| ==> (x in queue[..Min(k + 1, |queue|)] <==> x in queue[..k] || x == queue[k])
  {
    assert queue == queue[..k] + queue[k..];
    if x in queue[..k] && k > 0 && x != queue[0] {
      var i :| 0 <= i < k && queue[..k][i] == x;
      assert queue[i] == x;
    }
  }

  /** After the pop every writer is where its phase says. */
  lemma PoppedPhase(s: State, s': State, id: nat, k: nat, status: Status, last: nat, x: nat)
    requires Distinct(s.queue) && PhasesOk(s.queue, s.done, s.phase) && Popped(s, s', id, k, status, last) && x in s'.phase
    ensures PhaseOk(s'.queue, s'.done, x, s'.phase[x]) && !Active(s'.phase[x])
  {
    PrefixOrRest(s.queue, k, x);
    assert PhaseOk(s.queue, s.done, x, s.phase[x]);
    if k < |s.queue| { assert s'.queue[0] == s.queue[k]; }
  }

  lemma PoppedKeepsInv(s: State, s': State, id: nat, k: nat, status: Status, last: nat)
    requires QueueOk(s.queue, s.arrived, s.popped, s.requests, s.phase) && PhasesOk(s.queue, s.done, s.phase) && ReturnedOk(s.returned, s.phase)
    requires Popped(s, s', id, k, status, last) && id in s.phase
    ensures Inv(s')
  {
    QueueMembers(s.queue, s.arrived, s.popped);
    PoppedQueue(s, s', id, k, status, last);
    forall x | x in s'.phase ensures PhaseOk(s'.queue, s'.done, x, s'.phase[x]) && !Active(s'.phase[x]) {
      PoppedPhase(s, s', id, k, status, last, x);
    }
    forall x | x in s'.done ensures x in s'.phase && x !in s'.queue {
      PrefixOrRest(s.queue, k, x);
      if x !in s.done {
        var i :| 1 <= i < k && s.queue[i] == x;
        assert s.queue[..k][i] == x;
      }
    }
    PoppedReturned(s, s', id, k, status, last);
  }

  lemma PoppedReturned(s: State, s': State, id: nat, k: nat, status: Status, last: nat)
    requires ReturnedOk(s.returned, s.phase) && PhasesOk(s.queue, s.done, s.phase) && Popped(s, s', id, k, status, last) && id in s.phase
    ensures ReturnedOk(s'.returned, s'.phase)
  {
    assert PhaseOk(s.queue, s.done, id, s.phase[id]);
    assert s.queue[0] in s.queue;
    assert !s.phase[id].Returned?;
    forall r | r in s.returned ensures r.0 != id {
      assert s.phase[r.0] == Returned(r.1);
    }
  }

  lemma FinishKeepsInv(s: State, s': State, id: nat, status: Status)
    requires Inv(s) && DoFinish(s, s', id, status)
    ensures Inv(s')
  {
    PoppedKeepsInv(s, s', id, s.phase[id].k, status, s'.lastSequence);
  }

  lemma RefuseKeepsInv(s: State, s': State, id: nat, status: Status)
    requires Inv(s) && DoRefuse(s, s', id, status)
    ensures Inv(s')
  {
    PoppedKeepsInv(s, s', id, 1, status, s'.lastSequence);
  }

  lemma StepKeepsInv(s: State, step: Step, s': State)
    requires Inv(s) && Next(s, step, s')
    ensures Inv(s')
  {
    match step
    case Enqueue(id, r) => EnqueueKeepsInv(s, s', id, r);
    case Refuse(id, status) => RefuseKeepsInv(s, s', id, status);
    case Finish(id, status) => FinishKeepsInv(s, s', id, status);
    case Sleep(_) => WaitStepsKeepInv(s, step, s');
    case Wake(_) => WaitStepsKeepInv(s, step, s');
    case ReturnDone(_) => WaitStepsKeepInv(s, step, s');
    case _ => LeaderStepsKeepInv(s, step, s');
  }
}
