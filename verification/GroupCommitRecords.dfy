/** What the log records of group commit hold, over whole runs. */
module GroupCommitRecords {
  import opened InternalKeys
  import opened Disk
  import opened GroupCommit
  import opened GroupCommitSafety
  import opened GroupCommitOrder

  predicate Within(g: Grant, first: nat, ops: seq<Op>) {
    g.count > 0 && first <= g.first && g.first + g.count <= first + |ops|
  }

  /** Sequence number `n` was granted to some batch. */
  ghost predicate Granted(gs: seq<Grant>, n: nat) {
    exists g :: g in gs && g.first <= n < g.first + g.count
  }

  /** The record holds the operations of each batch at the sequence numbers granted to it, and nothing else. */
  ghost predicate RecordOk(first: nat, ops: seq<Op>, gs: seq<Grant>, rs: Requests) {
    && (forall g :: g in gs && Within(g, first, ops) ==> Covers(g, rs, first, ops))
    && (forall n: nat :: first <= n < first + |ops| ==> Granted(gs, n))
  }

  ghost predicate RecordsOk(s: State) {
    && (forall i :: 0 <= i < |s.log| ==> RecordOk(s.log[i].first, s.log[i].ops, s.grants, s.requests))
    && (Pending(s).Some? ==> RecordOk(Pending(s).value.first, Pending(s).value.ops, s.grants, s.requests))
  }

  /** The grants of a group leave no gap. */
  lemma {:induction false} GroupIsGranted(ids: seq<nat>, rs: Requests, place: nat, first: nat, n: nat)
    requires Known(ids, rs) && first <= n < first + |Merged(ids, rs)|
    ensures Granted(GrantsFrom(ids, rs, place, first), n)
  {
    var k := |ids| - 1;
    var before, id := ids[..k], ids[k];
    if n < first + |Merged(before, rs)| {
      GroupIsGranted(before, rs, place, first, n);
      GrantedMore(GrantsFrom(before, rs, place, first), GrantsFrom(ids, rs, place, first)[|GrantsFrom(before, rs, place, first)|..], n);
      assert GrantsFrom(ids, rs, place, first)
          == GrantsFrom(before, rs, place, first) + GrantsFrom(ids, rs, place, first)[|GrantsFrom(before, rs, place, first)|..];
    } else {
      assert Grant(id, place + k, first + |Merged(before, rs)|, |OpsOf(rs[id])|) in GrantsFrom(ids, rs, place, first);
    }
  }

  lemma GrantedMore(gs: seq<Grant>, more: seq<Grant>, n: nat)
    requires Granted(gs, n)
    ensures Granted(gs + more, n)
  {
    var g :| g in gs && g.first <= n < g.first + g.count;
    assert g in gs + more;
  }

  /** Grants of later numbers, and new requests, leave a record alone. */
  lemma RecordStays(first: nat, ops: seq<Op>, gs: seq<Grant>, more: seq<Grant>, rs: Requests, rs': Requests)
    requires RecordOk(first, ops, gs, rs) && (forall g :: g in more ==> first + |ops| <= g.first)
    requires forall id :: id in rs ==> id in rs' && rs'[id] == rs[id]
    ensures RecordOk(first, ops, gs + more, rs')
  {
    forall n: nat | first <= n < first + |ops| ensures Granted(gs + more, n) { GrantedMore(gs, more, n); }
    forall g | g in gs + more && Within(g, first, ops) ensures Covers(g, rs', first, ops) {
      assert g in gs && Covers(g, rs, first, ops);
    }
  }

  lemma RecordsStay(s: State, s': State, more: seq<Grant>)
    requires RecordsOk(s) && s'.log == s.log && s'.grants == s.grants + more
    requires forall i, g :: 0 <= i < |s.log| && g in more ==> s.log[i].first + |s.log[i].ops| <= g.first
    requires forall id :: id in s.requests ==> id in s'.requests && s'.requests[id] == s.requests[id]
    ensures forall i :: 0 <= i < |s'.log| ==> RecordOk(s'.log[i].first, s'.log[i].ops, s'.grants, s'.requests)
  {
    forall i | 0 <= i < |s'.log| ensures RecordOk(s'.log[i].first, s'.log[i].ops, s'.grants, s'.requests) {
      RecordStays(s.log[i].first, s.log[i].ops, s.grants, more, s.requests, s'.requests);
    }
  }

  /** The group that begins: its own grants cover it, and earlier ones end before it. */
  lemma BeginRecord(gs: seq<Grant>, ids: seq<nat>, rs: Requests, place: nat, first: nat)
    requires Known(ids, rs) && forall g :: g in gs ==> g.first + g.count <= first
    ensures RecordOk(first, Merged(ids, rs), gs + GrantsFrom(ids, rs, place, first), rs)
  {
    var ops, granted := Merged(ids, rs), GrantsFrom(ids, rs, place, first);
    GroupContents(ids, rs, place, first);
    forall n: nat | first <= n < first + |ops| ensures Granted(gs + granted, n) {
      GroupIsGranted(ids, rs, place, first, n);
      var g :| g in granted && g.first <= n < g.first + g.count;
      assert g in gs + granted;
    }
  }

  lemma BeginKeepsRecords(s: State, s': State, id: nat, k: nat)
    requires RecordsOk(s) && BooksOk(s) && DoBegin(s, s', id, k)
    ensures RecordsOk(s')
  {
    PendingBegins(s, s', id, k);
    var ids, first := s.queue[..k], s.lastSequence + 1;
    GroupRanges(ids, s.requests, s.popped, first);
    BeginRecord(s.grants, ids, s.requests, s.popped, first);
    RecordsStay(s, s', GrantsFrom(ids, s.requests, s.popped, first));
  }

  lemma LogKeepsRecords(s: State, s': State, id: nat)
    requires RecordsOk(s) && DoLog(s, s', id) && PhasesOk(s.queue, s.done, s.phase)
    ensures RecordsOk(s')
  {
    CommitterIsPending(s, id);
    assert Pending(s) == Some(s.phase[id]) && Pending(s') == Some(s'.phase[id]);
  }

  lemma PopKeepsRecords(s: State, s': State, id: nat, k: nat, status: Status, last: nat)
    requires RecordsOk(s) && QueueOk(s.queue, s.arrived, s.popped, s.requests, s.phase) && PhasesOk(s.queue, s.done, s.phase)
    requires Popped(s, s', id, k, status, last)
    ensures RecordsOk(s')
  {
    PopLeavesNothingPending(s, s', id, k, status, last);
  }

  lemma QuietKeepsRecords(s: State, step: Step, s': State)
    requires RecordsOk(s) && Next(s, step, s') && (step.Enqueue? || step.Sleep? || step.Wake? || step.ReturnDone? || step.Lead?)
    requires forall id :: id in s.requests ==> id in s.phase
    ensures RecordsOk(s')
  {
    assert Pending(s') == Pending(s);
    assert s.grants + [] == s.grants;
    RecordsStay(s, s', []);
    if Pending(s).Some? { RecordStays(Pending(s).value.first, Pending(s).value.ops, s.grants, [], s.requests, s'.requests); }
  }

  lemma StepKeepsRecords(s: State, step: Step, s': State)
    requires FullInv(s) && RecordsOk(s) && Next(s, step, s')
    ensures RecordsOk(s')
  {
    if step.Begin? {
      BeginKeepsRecords(s, s', step.id, step.k);
    } else {
      OtherKeepsRecords(s, step, s');
    }
  }

  lemma OtherKeepsRecords(s: State, step: Step, s': State)
    requires QueueOk(s.queue, s.arrived, s.popped, s.requests, s.phase) && PhasesOk(s.queue, s.done, s.phase)
    requires RecordsOk(s) && Next(s, step, s') && !step.Begin?
    ensures RecordsOk(s')
  {
    match step
    case Refuse(id, status) => PopKeepsRecords(s, s', id, 1, status, s.lastSequence);
    case Log(id) => LogKeepsRecords(s, s', id);
    case Finish(id, status) => PopKeepsRecords(s, s', id, s.phase[id].k, status, s.lastSequence + |s.phase[id].ops|);
    case _ => QuietKeepsRecords(s, step, s');
  }

  lemma {:induction false} RunKeepsRecords(states: seq<State>, steps: seq<Step>, n: nat)
    requires IsRun(states, steps) && n < |states|
    ensures RecordsOk(states[n])
  {
    if n > 0 {
      RunKeepsRecords(states, steps, n - 1);
      RecordsStep(states, steps, n - 1);
    }
  }

  lemma RecordsStep(states: seq<State>, steps: seq<Step>, i: nat)
    requires IsRun(states, steps) && i < |steps| && RecordsOk(states[i])
    ensures RecordsOk(states[i + 1])
  {
    RunKeepsInv(states, steps, i);
    assert StepAt(states, steps, i);
    StepKeepsRecords(states[i], steps[i], states[i + 1]);
  }

  /** In every run, every record of the log holds the operations of each batch of its group at exactly the sequence numbers granted to
      that batch, and every operation in it belongs to such a batch. */
  lemma RecordMatchesGrants(states: seq<State>, steps: seq<Step>, n: nat, i: nat)
    requires IsRun(states, steps) && n < |states| && i < |states[n].log|
    ensures var s, r := states[n], states[n].log[i];
            && (forall g :: g in s.grants && Within(g, r.first, r.ops) ==> Covers(g, s.requests, r.first, r.ops))
            && (forall p: nat :: r.first <= p < r.first + |r.ops| ==> Granted(s.grants, p))
  {
    RunKeepsRecords(states, steps, n);
    assert RecordOk(states[n].log[i].first, states[n].log[i].ops, states[n].grants, states[n].requests);
  }
}
