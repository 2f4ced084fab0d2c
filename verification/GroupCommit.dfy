/** The writer queue and group commit (db/db_impl.cc: Write, BuildBatchGroup) as a state machine over the critical sections
    of the writing threads. The leader of a group logs and applies it with the lock released; meanwhile other writers may
    arrive, wake or go to sleep.
 */
module GroupCommit {
  import opened InternalKeys
  import opened Disk

  // ---------------------------------------------------------------- requests and groups

  /** A write call; no batch means the caller only wants the memtable switched. */
  datatype Request = Request(batch: Option<seq<Op>>, sync: bool)

  datatype Status = Ok | Error(reason: nat)

  type Requests = map<nat, Request>

  ghost predicate Known(ids: seq<nat>, rs: Requests) {
    forall id :: id in ids ==> id in rs
  }

  function OpsOf(r: Request): seq<Op> { if r.batch.Some? then r.batch.value else [] }

  /** The operations of a group in queue order: what is logged as one record. */
  function Merged(ids: seq<nat>, rs: Requests): seq<Op>
    requires forall id :: id in ids ==> id in rs
  {
    if ids == [] then [] else Merged(ids[..|ids| - 1], rs) + OpsOf(rs[ids[|ids| - 1]])
  }

  /** A member may join unless it wants a sync the leader would not do. */
  predicate MayJoin(rs: Requests, leader: nat, id: nat)
    requires leader in rs && id in rs
  {
    rs[id].sync ==> rs[leader].sync
  }

  function TotalSize(ids: seq<nat>, rs: Requests, size: seq<Op> -> nat): nat
    requires forall id :: id in ids ==> id in rs
  {
    if ids == [] then 0
    else
      var r := rs[ids[|ids| - 1]];
      TotalSize(ids[..|ids| - 1], rs, size) + if r.batch.Some? then size(r.batch.value) else 0
  }

  /** A group: the leader and the writers right behind it that may join. */
  ghost predicate GroupOk(queue: seq<nat>, rs: Requests, k: nat) {
    1 <= k <= |queue| && Known(queue, rs) && forall i :: 0 <= i < k ==> MayJoin(rs, queue[0], queue[i])
  }

  /** A group has at most a megabyte, and one with a leader of at most 128 kilobytes at most as much again. */
  predicate WithinLimit(first: nat, total: nat) {
    if first <= 128 * 1024 then total <= first + 128 * 1024 else total <= 1024 * 1024
  }

  function Limit(first: nat): nat {
    if first <= 0x2_0000 then first + 0x2_0000 else 0x10_0000
  }

  /** Take writers from the queue while they may join and the group stays within its size limit (BuildBatchGroup). */
  method BuildBatchGroup(queue: seq<nat>, rs: Requests, size: seq<Op> -> nat) returns (k: nat, ops: seq<Op>)
    requires queue != [] && Known(queue, rs) && rs[queue[0]].batch.Some?
    ensures GroupOk(queue, rs, k) && ops == Merged(queue[..k], rs)
    ensures k > 1 ==> WithinLimit(size(OpsOf(rs[queue[0]])), TotalSize(queue[..k], rs, size)) || forall i :: 1 <= i < k ==> rs[queue[i]].batch.None?
    ensures k < |queue| ==> !MayJoin(rs, queue[0], queue[k])
                            || (rs[queue[k]].batch.Some? && !WithinLimit(size(OpsOf(rs[queue[0]])), TotalSize(queue[..k + 1], rs, size)))
  {
    var first := rs[queue[0]];
    var total := size(first.batch.value);
    var max := Limit(total);
    ops := first.batch.value;
    k := 1;
    assert queue[..1][..0] == [] && queue[..1] == [queue[0]];
    while k < |queue|
      invariant GroupOk(queue, rs, k) && ops == Merged(queue[..k], rs) && total == TotalSize(queue[..k], rs, size)
      invariant total <= max || forall i :: 1 <= i < k ==> rs[queue[i]].batch.None?
    {
      assert queue[..k + 1][..k] == queue[..k];
      var w := rs[queue[k]];
      if w.sync && !first.sync {
        break;
      }
      if w.batch.Some? {
        if total + size(w.batch.value) > max {
          break;
        }
        total := total + size(w.batch.value);
        ops := ops + w.batch.value;
      }
      k := k + 1;
    }
  }

  // ---------------------------------------------------------------- state

  datatype Phase =
    | Checking                    // holds the lock and is about to look at done and at the queue
    | Sleeping(signalled: bool)
    | Leading                     // at the front, making room
    | Committing(k: nat, first: nat, ops: seq<Op>, logged: bool)
    | Returned(status: Status)

  /** The sequence numbers given to the batch of the writer that arrived as number `place`. */
  datatype Grant = Grant(id: nat, place: nat, first: nat, count: nat)

  datatype State = State(
    queue: seq<nat>, requests: Requests, phase: map<nat, Phase>, done: map<nat, Status>, lastSequence: nat,
    arrived: seq<nat>, popped: nat, grants: seq<Grant>, log: seq<Batch>, returned: seq<(nat, Status)>,
    groups: seq<(seq<nat>, Status)>)

  const Empty := State([], map[], map[], map[], 0, [], 0, [], [], [], [])

  /** Consecutive ranges for the batches of a group, in queue order; its leader arrived as number `place`. */
  function GrantsFrom(ids: seq<nat>, rs: Requests, place: nat, first: nat): (gs: seq<Grant>)
    requires forall id :: id in ids ==> id in rs
  {
    if ids == [] then []
    else
      var n := |ids| - 1;
      var before := ids[..n];
      GrantsFrom(before, rs, place, first)
      + if rs[ids[n]].batch.Some? then [Grant(ids[n], place + n, first + |Merged(before, rs)|, |OpsOf(rs[ids[n]])|)] else []
  }

  // ---------------------------------------------------------------- steps

  datatype Step =
    | Enqueue(id: nat, request: Request) | Sleep(id: nat) | Wake(id: nat) | ReturnDone(id: nat)
    | Lead(id: nat) | Refuse(id: nat, status: Status) | Begin(id: nat, k: nat) | Log(id: nat) | Finish(id: nat, status: Status)

  predicate InPhase(s: State, id: nat, p: Phase) { id in s.phase && s.phase[id] == p }

  ghost predicate DoEnqueue(s: State, s': State, id: nat, r: Request) {
    && id !in s.phase
    && s' == s.(queue := s.queue + [id], arrived := s.arrived + [id], requests := s.requests[id := r], phase := s.phase[id := Checking])
  }

  ghost predicate DoSleep(s: State, s': State, id: nat) {
    && InPhase(s, id, Checking) && id !in s.done && (s.queue == [] || s.queue[0] != id)
    && s' == s.(phase := s.phase[id := Sleeping(false)])
  }

  ghost predicate DoWake(s: State, s': State, id: nat) {
    id in s.phase && s.phase[id].Sleeping? && s' == s.(phase := s.phase[id := Checking])
  }

  ghost predicate DoReturnDone(s: State, s': State, id: nat) {
    && InPhase(s, id, Checking) && id in s.done
    && s' == s.(phase := s.phase[id := Returned(s.done[id])], returned := s.returned + [(id, s.done[id])])
  }

  ghost predicate DoLead(s: State, s': State, id: nat) {
    && InPhase(s, id, Checking) && id !in s.done && s.queue != [] && s.queue[0] == id
    && s' == s.(phase := s.phase[id := Leading])
  }

  /** Take the group off the queue, hand its status to the members, wake them and the new head; the leader returns. */
  function PoppedState(s: State, id: nat, k: nat, status: Status, last: nat): State
    requires 1 <= k <= |s.queue| && s.queue[0] == id
  {
    s.(queue := s.queue[k..], popped := s.popped + k, lastSequence := last,
       done := map x | x in s.done.Keys + (set i | 1 <= i < k :: s.queue[i]) :: if x in s.done then s.done[x] else status,
       phase := map x | x in s.phase :: if x == id then Returned(status) else Signalled(s, k, x),
       returned := s.returned + [(id, status)], groups := s.groups + [(s.queue[..k], status)])
  }

  ghost predicate Popped(s: State, s': State, id: nat, k: nat, status: Status, last: nat) {
    1 <= k <= |s.queue| && s.queue[0] == id && s' == PoppedState(s, id, k, status, last)
  }

  /** Members and the new head are signalled. */
  function Signalled(s: State, k: nat, x: nat): Phase
    requires x in s.phase && k <= |s.queue|
  {
    if s.phase[x].Sleeping? && x in s.queue[..Min(k + 1, |s.queue|)] then Sleeping(true) else s.phase[x]
  }

  function Min(a: nat, b: nat): nat { if a < b then a else b }

  /** No room could be made, or there is nothing to write: only the leader itself is finished. */
  ghost predicate DoRefuse(s: State, s': State, id: nat, status: Status) {
    && InPhase(s, id, Leading) && id in s.requests && (status.Ok? ==> s.requests[id].batch.None?)
    && Popped(s, s', id, 1, status, s.lastSequence)
  }

  ghost predicate DoBegin(s: State, s': State, id: nat, k: nat) {
    && InPhase(s, id, Leading) && GroupOk(s.queue, s.requests, k) && s.queue[0] == id && s.requests[id].batch.Some?
    && Known(s.queue[..k], s.requests)
    && s' == s.(phase := s.phase[id := Committing(k, s.lastSequence + 1, Merged(s.queue[..k], s.requests), false)],
                grants := s.grants + GrantsFrom(s.queue[..k], s.requests, s.popped, s.lastSequence + 1))
  }

  /** With the lock released, the group is appended to the log as one record. */
  ghost predicate DoLog(s: State, s': State, id: nat) {
    && id in s.phase && s.phase[id].Committing? && !s.phase[id].logged
    && s' == s.(phase := s.phase[id := s.phase[id].(logged := true)], log := s.log + [Batch(s.phase[id].first, s.phase[id].ops)])
  }

  /** The lock is retaken; the sequence numbers are used up whether or not the write succeeded. */
  ghost predicate DoFinish(s: State, s': State, id: nat, status: Status) {
    && id in s.phase && s.phase[id].Committing? && (status.Ok? ==> s.phase[id].logged)
    && Popped(s, s', id, s.phase[id].k, status, s.lastSequence + |s.phase[id].ops|)
  }

  ghost predicate Next(s: State, step: Step, s': State) {
    match step
    case Enqueue(id, r) => DoEnqueue(s, s', id, r)
    case Sleep(id) => DoSleep(s, s', id)
    case Wake(id) => DoWake(s, s', id)
    case ReturnDone(id) => DoReturnDone(s, s', id)
    case Lead(id) => DoLead(s, s', id)
    case Refuse(id, status) => DoRefuse(s, s', id, status)
    case Begin(id, k) => DoBegin(s, s', id, k)
    case Log(id) => DoLog(s, s', id)
    case Finish(id, status) => DoFinish(s, s', id, status)
  }
}
