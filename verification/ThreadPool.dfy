/** The libuv thread pool as a state machine (Libuv-gRPC/src/threadpool.c): workers, the shared queue with its slow-I/O
    marker, cancellation and condition-variable wake-ups.

    Every critical section of the source is one step or several. Steps interleave at least as freely as the source allows:
    a worker may lose the lock between two turns of its loop, waiters may wake spuriously, and finished requests may be
    collected and delivered in any order, which covers any number of event loops.
 */
module ThreadPool {
  import opened Queues

  // ---------------------------------------------------------------- state

  /** An element of the shared queue: a request, or the marker that stands for the slow-I/O queue. */
  datatype Item = Marker | Work(id: nat)

  datatype Worker =
    | AtTop                        // at the top of its loop, about to look at the queue
    | Waiting(signalled: bool)     // in uv_cond_wait
    | Working(id: nat, slow: bool) // running a request, no lock held
    | Returning(slow: bool)        // the request is handed back, the lock not yet retaken

  datatype Status =
    | Queued | SlowQueued | Executing
    | Finished(cancelled: bool)    // in its event loop's queue
    | Collected(cancelled: bool)   // in the local list of uv__work_done
    | Called(cancelled: bool)      // the done callback ran

  datatype Pool = Pool(
    wq: seq<Item>, slow: seq<nat>, running: nat, idle: nat, workers: seq<Worker>,
    finished: seq<nat>, collected: seq<nat>, status: map<nat, Status>,
    executed: seq<nat>, callbacks: seq<(nat, bool)>)

  function Threshold(p: Pool): nat { (|p.workers| + 1) / 2 }

  // ---------------------------------------------------------------- counting workers

  function Count(ws: seq<Worker>, which: Worker -> bool): nat {
    if ws == [] then 0 else (if which(ws[0]) then 1 else 0) + Count(ws[1..], which)
  }

  lemma {:induction false} CountUpdate(ws: seq<Worker>, i: nat, w: Worker, which: Worker -> bool)
    requires i < |ws|
    ensures Count(ws[i := w], which) + (if which(ws[i]) then 1 else 0) == Count(ws, which) + if which(w) then 1 else 0
  {
    if i == 0 {
      assert ws[0 := w][1..] == ws[1..];
    } else {
      assert ws[i := w][1..] == ws[1..][i - 1 := w];
      CountUpdate(ws[1..], i - 1, w, which);
    }
  }

  lemma {:induction false} CountWitness(ws: seq<Worker>, which: Worker -> bool)
    ensures Count(ws, which) > 0 <==> exists i :: 0 <= i < |ws| && which(ws[i])
    ensures Count(ws, which) <= |ws|
  {
    if ws != [] {
      CountWitness(ws[1..], which);
      if i :| 0 <= i < |ws| && which(ws[i]) {
        assert i > 0 ==> which(ws[1..][i - 1]);
      }
      if k :| 0 <= k < |ws[1..]| && which(ws[1..][k]) {
        assert which(ws[k + 1]);
      }
    }
  }

  const IsWaiting: Worker -> bool := (w: Worker) => w.Waiting?
  const IsSleeping: Worker -> bool := (w: Worker) => w.Waiting? && !w.signalled
  /** Awake and going to look at the queue. */
  const IsLooking: Worker -> bool := (w: Worker) => w.AtTop? || (w.Waiting? && w.signalled)
  const IsSlow: Worker -> bool := (w: Worker) => (w.Working? || w.Returning?) && w.slow

  // ---------------------------------------------------------------- steps

  /** uv_cond_signal wakes one sleeper if there is one. */
  ghost predicate Signal(ws: seq<Worker>, ws': seq<Worker>) {
    if exists k :: 0 <= k < |ws| && IsSleeping(ws[k])
    then exists k :: 0 <= k < |ws| && IsSleeping(ws[k]) && ws' == ws[k := Waiting(true)]
    else ws' == ws
  }

  ghost predicate SignalIfIdle(p: Pool, ws': seq<Worker>) {
    if p.idle > 0 then Signal(p.workers, ws') else ws' == p.workers
  }

  datatype Step =
    | SubmitCpu(id: nat) | SubmitSlow(id: nat) | Cancel(id: nat)
    | Sleep(i: nat) | Wake(i: nat) | Requeue(i: nat) | DropMarker(i: nat) | TakeSlow(i: nat) | TakeCpu(i: nat)
    | FinishWork(i: nat) | Relock(i: nat)
    | Collect(id: nat) | Deliver(id: nat)

  ghost predicate DoSubmitCpu(p: Pool, p': Pool, id: nat) {
    && id !in p.status
    && SignalIfIdle(p, p'.workers)
    && p' == p.(wq := p.wq + [Work(id)], workers := p'.workers, status := p.status[id := Queued])
  }

  /** Slow work goes to its own queue; the marker is queued unless it is there already. */
  ghost predicate DoSubmitSlow(p: Pool, p': Pool, id: nat) {
    && id !in p.status
    && (if Marker in p.wq then p'.workers == p.workers else SignalIfIdle(p, p'.workers))
    && p' == p.(slow := p.slow + [id], wq := if Marker in p.wq then p.wq else p.wq + [Marker], workers := p'.workers,
                status := p.status[id := SlowQueued])
  }

  /** A request that is still linked and not yet run moves to its loop's queue; otherwise the call fails and nothing changes.
      Callers cancel only requests whose callback has not run. */
  ghost predicate DoCancel(p: Pool, p': Pool, id: nat) {
    && id in p.status && !p.status[id].Called?
    && var gone := p.(status := p.status[id := Finished(true)]);
       match p.status[id]
       case Queued => p' == gone.(wq := Without(p.wq, Work(id)), finished := p.finished + [id])
       case SlowQueued => p' == gone.(slow := Without(p.slow, id), finished := p.finished + [id])
       case Finished(true) => p' == gone.(finished := Without(p.finished, id) + [id])
       case Collected(true) => p' == gone.(collected := Without(p.collected, id), finished := p.finished + [id])
       case _ => p' == p
  }

  predicate AtTheTop(p: Pool, i: nat) { i < |p.workers| && p.workers[i].AtTop? }

  /** No work, or only slow work and the threshold is reached. */
  predicate MustWait(p: Pool) { p.wq == [] || (p.wq == [Marker] && p.running >= Threshold(p)) }

  ghost predicate DoSleep(p: Pool, p': Pool, i: nat) {
    AtTheTop(p, i) && MustWait(p) && p' == p.(workers := p.workers[i := Waiting(false)], idle := p.idle + 1)
  }

  /** Woken by a signal or spuriously. */
  ghost predicate DoWake(p: Pool, p': Pool, i: nat) {
    i < |p.workers| && p.workers[i].Waiting? && p.idle > 0 && p' == p.(workers := p.workers[i := AtTop], idle := p.idle - 1)
  }

  predicate MarkerFirst(p: Pool, i: nat) { AtTheTop(p, i) && !MustWait(p) && p.wq[0] == Marker }

  ghost predicate DoRequeue(p: Pool, p': Pool, i: nat) {
    MarkerFirst(p, i) && p.running >= Threshold(p) && p' == p.(wq := p.wq[1..] + [Marker])
  }

  ghost predicate DoDropMarker(p: Pool, p': Pool, i: nat) {
    MarkerFirst(p, i) && p.running < Threshold(p) && p.slow == [] && p' == p.(wq := p.wq[1..])
  }

  ghost predicate DoTakeSlow(p: Pool, p': Pool, i: nat) {
    && MarkerFirst(p, i) && p.running < Threshold(p) && p.slow != []
    && var id := p.slow[0];
       var more := |p.slow| > 1;
       var busy := p.(workers := p.workers[i := Working(id, true)]);
       && (if more then SignalIfIdle(busy, p'.workers) else p'.workers == busy.workers)
       && p' == p.(wq := p.wq[1..] + (if more then [Marker] else []), slow := p.slow[1..], running := p.running + 1,
                   workers := p'.workers, status := p.status[id := Executing], executed := p.executed + [id])
  }

  ghost predicate DoTakeCpu(p: Pool, p': Pool, i: nat) {
    && AtTheTop(p, i) && p.wq != [] && p.wq[0].Work?
    && var id := p.wq[0].id;
       p' == p.(wq := p.wq[1..], workers := p.workers[i := Working(id, false)],
                status := p.status[id := Executing], executed := p.executed + [id])
  }

  ghost predicate DoFinishWork(p: Pool, p': Pool, i: nat) {
    && i < |p.workers| && p.workers[i].Working?
    && var id := p.workers[i].id;
       p' == p.(workers := p.workers[i := Returning(p.workers[i].slow)], finished := p.finished + [id],
                status := p.status[id := Finished(false)])
  }

  ghost predicate DoRelock(p: Pool, p': Pool, i: nat) {
    && i < |p.workers| && p.workers[i].Returning? && (p.workers[i].slow ==> p.running > 0)
    && p' == p.(workers := p.workers[i := AtTop], running := if p.workers[i].slow then p.running - 1 else p.running)
  }

  ghost predicate DoCollect(p: Pool, p': Pool, id: nat) {
    && id in p.finished && id in p.status && p.status[id].Finished?
    && p' == p.(finished := Without(p.finished, id), collected := p.collected + [id],
                status := p.status[id := Collected(p.status[id].cancelled)])
  }

  ghost predicate DoDeliver(p: Pool, p': Pool, id: nat) {
    && id in p.collected && id in p.status && p.status[id].Collected?
    && var cancelled := p.status[id].cancelled;
       p' == p.(collected := Without(p.collected, id), callbacks := p.callbacks + [(id, cancelled)],
                status := p.status[id := Called(cancelled)])
  }

  ghost predicate Next(p: Pool, step: Step, p': Pool) {
    match step
    case SubmitCpu(id) => DoSubmitCpu(p, p', id)
    case SubmitSlow(id) => DoSubmitSlow(p, p', id)
    case Cancel(id) => DoCancel(p, p', id)
    case Sleep(i) => DoSleep(p, p', i)
    case Wake(i) => DoWake(p, p', i)
    case Requeue(i) => DoRequeue(p, p', i)
    case DropMarker(i) => DoDropMarker(p, p', i)
    case TakeSlow(i) => DoTakeSlow(p, p', i)
    case TakeCpu(i) => DoTakeCpu(p, p', i)
    case FinishWork(i) => DoFinishWork(p, p', i)
    case Relock(i) => DoRelock(p, p', i)
    case Collect(id) => DoCollect(p, p', id)
    case Deliver(id) => DoDeliver(p, p', id)
  }

  /** After init_threads: every worker about to look at an empty queue. */
  ghost predicate Init(p: Pool) {
    p == Pool([], [], 0, 0, p.workers, [], [], map[], [], []) && |p.workers| > 0 && forall i :: 0 <= i < |p.workers| ==> p.workers[i].AtTop?
  }
}
