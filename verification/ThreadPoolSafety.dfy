/** What every reachable state of the thread pool keeps. */
module ThreadPoolSafety {
  import opened Queues
  import opened ThreadPool

  // ---------------------------------------------------------------- every request is in one place

  ghost predicate QueueOk(wq: seq<Item>, status: map<nat, Status>) {
    Distinct(wq) && forall id :: Work(id) in wq <==> id in status && status[id].Queued?
  }

  ghost predicate SlowOk(slow: seq<nat>, status: map<nat, Status>) {
    Distinct(slow) && forall id :: id in slow <==> id in status && status[id].SlowQueued?
  }

  ghost predicate WorkersOk(workers: seq<Worker>, status: map<nat, Status>) {
    && (forall i :: 0 <= i < |workers| && workers[i].Working? ==> workers[i].id in status && status[workers[i].id].Executing?)
    && (forall i, j :: 0 <= i < j < |workers| && workers[i].Working? && workers[j].Working? ==> workers[i].id != workers[j].id)
  }

  predicate RunBy(workers: seq<Worker>, id: nat) {
    exists i :: 0 <= i < |workers| && workers[i].Working? && workers[i].id == id
  }

  /** An executing request has a worker. */
  ghost predicate AttendedOk(workers: seq<Worker>, status: map<nat, Status>) {
    forall id :: id in status && status[id].Executing? ==> RunBy(workers, id)
  }

  ghost predicate FinishedOk(finished: seq<nat>, status: map<nat, Status>) {
    Distinct(finished) && forall id :: id in finished <==> id in status && status[id].Finished?
  }

  ghost predicate CollectedOk(collected: seq<nat>, status: map<nat, Status>) {
    Distinct(collected) && forall id :: id in collected <==> id in status && status[id].Collected?
  }

  predicate Ran(s: Status) {
    s.Executing? || ((s.Finished? || s.Collected? || s.Called?) && !s.cancelled)
  }

  ghost predicate ExecutedOk(executed: seq<nat>, status: map<nat, Status>) {
    Distinct(executed) && forall id :: id in executed <==> id in status && Ran(status[id])
  }

  ghost predicate CallbacksOk(callbacks: seq<(nat, bool)>, status: map<nat, Status>) {
    && (forall i, j :: 0 <= i < j < |callbacks| ==> callbacks[i].0 != callbacks[j].0)
    && (forall c :: c in callbacks <==> c.0 in status && status[c.0] == Called(c.1))
  }

  ghost predicate PlacesOk(p: Pool) {
    && QueueOk(p.wq, p.status) && SlowOk(p.slow, p.status) && WorkersOk(p.workers, p.status)
    && FinishedOk(p.finished, p.status) && CollectedOk(p.collected, p.status)
    && ExecutedOk(p.executed, p.status) && CallbacksOk(p.callbacks, p.status)
  }

  // ---------------------------------------------------------------- counters, marker, wake-ups

  /** Queued items a worker could take now: all of them, except the marker when slow work is at its limit. */
  function Runnable(wq: seq<Item>, running: nat, threshold: nat): nat {
    if Marker in wq && running >= threshold then |wq| - 1 else |wq|
  }

  ghost predicate CountersOk(p: Pool) {
    && |p.workers| > 0
    && p.idle == Count(p.workers, IsWaiting)
    && p.running == Count(p.workers, IsSlow) && p.running <= Threshold(p)
  }

  ghost predicate MarkerOk(p: Pool) {
    Distinct(p.wq) && (p.slow != [] ==> Marker in p.wq)
  }

  /** While any worker sleeps unsignalled, at least as many workers are on their way to the queue as there are runnable items. */
  ghost predicate NoLostWakeup(p: Pool) {
    Count(p.workers, IsSleeping) > 0 ==> Runnable(p.wq, p.running, Threshold(p)) <= Count(p.workers, IsLooking)
  }

  ghost predicate Inv(p: Pool) {
    PlacesOk(p) && AttendedOk(p.workers, p.status) && CountersOk(p) && MarkerOk(p) && NoLostWakeup(p)
  }

  // ---------------------------------------------------------------- places

  lemma SignalKeepsWorking(ws: seq<Worker>, ws': seq<Worker>)
    requires Signal(ws, ws')
    ensures |ws'| == |ws| && forall i :: 0 <= i < |ws| ==> ws'[i] == ws[i] || (!ws'[i].Working? && !ws[i].Working?)
  {
  }

  lemma SubmitKeepsPlaces(p: Pool, step: Step, p': Pool)
    requires PlacesOk(p) && Next(p, step, p') && (step.SubmitCpu? || step.SubmitSlow?)
    ensures PlacesOk(p')
  {
    if step.SubmitCpu? { SubmitCpuKeepsPlaces(p, step, p'); } else { SubmitSlowKeepsPlaces(p, step, p'); }
  }

  lemma SubmitCpuKeepsPlaces(p: Pool, step: Step, p': Pool)
    requires PlacesOk(p) && Next(p, step, p') && step.SubmitCpu?
    ensures PlacesOk(p')
  {
    if Signal(p.workers, p'.workers) { SignalKeepsWorking(p.workers, p'.workers); }
    assert WorkersOk(p'.workers, p'.status);
  }

  lemma SubmitSlowKeepsPlaces(p: Pool, step: Step, p': Pool)
    requires PlacesOk(p) && Next(p, step, p') && step.SubmitSlow?
    ensures PlacesOk(p')
  {
    if Signal(p.workers, p'.workers) { SignalKeepsWorking(p.workers, p'.workers); }
    assert WorkersOk(p'.workers, p'.status);
  }

  lemma CancelQueuedKeepsPlaces(p: Pool, id: nat, p': Pool)
    requires PlacesOk(p) && DoCancel(p, p', id) && (p.status[id].Queued? || p.status[id].SlowQueued?)
    ensures PlacesOk(p')
  {
    WithoutDistinct(p.wq, Work(id));
    WithoutDistinct(p.slow, id);
  }

  lemma CancelAgainKeepsPlaces(p: Pool, id: nat, p': Pool)
    requires PlacesOk(p) && DoCancel(p, p', id) && !p.status[id].Queued? && !p.status[id].SlowQueued?
    ensures PlacesOk(p')
  {
    WithoutDistinct(p.finished, id);
    WithoutDistinct(p.collected, id);
  }

  lemma TakeCpuKeepsPlaces(p: Pool, i: nat, p': Pool)
    requires PlacesOk(p) && DoTakeCpu(p, p', i)
    ensures PlacesOk(p')
  {
    TailDistinct(p.wq);
  }

  lemma TakeSlowKeepsPlaces(p: Pool, i: nat, p': Pool)
    requires PlacesOk(p) && DoTakeSlow(p, p', i)
    ensures PlacesOk(p')
  {
    TailDistinct(p.wq);
    TailDistinct(p.slow);
    var busy := p.workers[i := Working(p.slow[0], true)];
    assert WorkersOk(busy, p'.status);
    if Signal(busy, p'.workers) { SignalKeepsWorking(busy, p'.workers); }
  }

  lemma QueueStepsKeepPlaces(p: Pool, step: Step, p': Pool)
    requires PlacesOk(p) && Next(p, step, p') && (step.Requeue? || step.DropMarker? || step.Sleep? || step.Wake? || step.Relock?)
    ensures PlacesOk(p')
  {
    if step.Requeue? || step.DropMarker? { TailDistinct(p.wq); }
  }

  lemma FinishKeepsPlaces(p: Pool, i: nat, p': Pool)
    requires PlacesOk(p) && DoFinishWork(p, p', i)
    ensures PlacesOk(p')
  {
  }

  lemma CollectKeepsPlaces(p: Pool, id: nat, p': Pool)
    requires PlacesOk(p) && DoCollect(p, p', id)
    ensures PlacesOk(p')
  {
    WithoutDistinct(p.finished, id);
  }

  lemma DeliverKeepsPlaces(p: Pool, id: nat, p': Pool)
    requires PlacesOk(p) && DoDeliver(p, p', id)
    ensures PlacesOk(p')
  {
    WithoutDistinct(p.collected, id);
  }

  lemma StepKeepsPlaces(p: Pool, step: Step, p': Pool)
    requires PlacesOk(p) && Next(p, step, p')
    ensures PlacesOk(p')
  {
    match step
    case SubmitCpu(_) => SubmitKeepsPlaces(p, step, p');
    case SubmitSlow(_) => SubmitKeepsPlaces(p, step, p');
    case Cancel(id) =>
      if p.status[id].Queued? || p.status[id].SlowQueued? { CancelQueuedKeepsPlaces(p, id, p'); } else { CancelAgainKeepsPlaces(p, id, p'); }
    case TakeSlow(i) => TakeSlowKeepsPlaces(p, i, p');
    case TakeCpu(i) => TakeCpuKeepsPlaces(p, i, p');
    case FinishWork(i) => FinishKeepsPlaces(p, i, p');
    case Collect(id) => CollectKeepsPlaces(p, id, p');
    case Deliver(id) => DeliverKeepsPlaces(p, id, p');
    case _ => QueueStepsKeepPlaces(p, step, p');
  }

  // ---------------------------------------------------------------- counters

  lemma UpdateCounts(ws: seq<Worker>, i: nat, w: Worker)
    requires i < |ws|
    ensures forall which :: which == IsWaiting || which == IsSleeping || which == IsLooking || which == IsSlow ==>
              Count(ws[i := w], which) + (if which(ws[i]) then 1 else 0) == Count(ws, which) + if which(w) then 1 else 0
  {
    CountUpdate(ws, i, w, IsWaiting);
    CountUpdate(ws, i, w, IsSleeping);
    CountUpdate(ws, i, w, IsLooking);
    CountUpdate(ws, i, w, IsSlow);
  }

  /** A signal turns one sleeper, if there is one, into a worker on its way to the queue. */
  lemma SignalCounts(ws: seq<Worker>, ws': seq<Worker>)
    requires Signal(ws, ws')
    ensures |ws'| == |ws| && Count(ws', IsWaiting) == Count(ws, IsWaiting) && Count(ws', IsSlow) == Count(ws, IsSlow)
    ensures Count(ws, IsSleeping) > 0 ==> Count(ws', IsLooking) == Count(ws, IsLooking) + 1
    ensures Count(ws, IsSleeping) == 0 ==> ws' == ws
  {
    CountWitness(ws, IsSleeping);
    if k :| 0 <= k < |ws| && IsSleeping(ws[k]) && ws' == ws[k := Waiting(true)] {
      UpdateCounts(ws, k, Waiting(true));
    }
  }

  lemma {:induction false} SleepersWait(ws: seq<Worker>)
    ensures Count(ws, IsSleeping) <= Count(ws, IsWaiting)
  {
    if ws != [] { SleepersWait(ws[1..]); }
  }

  /** A new item, announced by a signal if anyone is idle, keeps the wake-up invariant. */
  lemma SignalCovers(p: Pool, ws': seq<Worker>, before: nat, after: nat)
    requires p.idle == Count(p.workers, IsWaiting) && SignalIfIdle(p, ws')
    requires Count(p.workers, IsSleeping) > 0 ==> before <= Count(p.workers, IsLooking)
    requires after <= before + 1
    ensures |ws'| == |p.workers| && Count(ws', IsWaiting) == p.idle && Count(ws', IsSlow) == Count(p.workers, IsSlow)
    ensures Count(ws', IsSleeping) > 0 ==> after <= Count(ws', IsLooking)
  {
    SleepersWait(p.workers);
    SleepersWait(ws');
    if p.idle > 0 { SignalCounts(p.workers, ws'); }
  }

  /** Everything about counters, marker and wake-ups. */
  ghost predicate PaceOk(p: Pool) {
    CountersOk(p) && MarkerOk(p) && NoLostWakeup(p)
  }

  lemma SubmitKeepsPace(p: Pool, step: Step, p': Pool)
    requires PlacesOk(p) && PaceOk(p) && Next(p, step, p') && (step.SubmitCpu? || step.SubmitSlow?)
    ensures PaceOk(p')
  {
    var before, after := Runnable(p.wq, p.running, Threshold(p)), Runnable(p'.wq, p.running, Threshold(p));
    if step.SubmitCpu? || Marker !in p.wq {
      SignalCovers(p, p'.workers, before, after);
    }
  }

  lemma CancelKeepsPace(p: Pool, id: nat, p': Pool)
    requires PlacesOk(p) && PaceOk(p) && DoCancel(p, p', id)
    ensures PaceOk(p')
  {
    WithoutDistinct(p.wq, Work(id));
    assert Runnable(p'.wq, p.running, Threshold(p)) <= Runnable(p.wq, p.running, Threshold(p));
  }

  lemma TakeCpuKeepsPace(p: Pool, i: nat, p': Pool)
    requires PaceOk(p) && DoTakeCpu(p, p', i)
    ensures PaceOk(p')
  {
    TailDistinct(p.wq);
    UpdateCounts(p.workers, i, Working(p.wq[0].id, false));
  }

  lemma TakeSlowKeepsPace(p: Pool, i: nat, p': Pool)
    requires PaceOk(p) && DoTakeSlow(p, p', i)
    ensures PaceOk(p')
  {
    TailDistinct(p.wq);
    var busy := p.(workers := p.workers[i := Working(p.slow[0], true)]);
    UpdateCounts(p.workers, i, Working(p.slow[0], true));
    var rest := Runnable(p.wq[1..], p.running + 1, Threshold(p));
    var after := Runnable(p'.wq, p.running + 1, Threshold(p));
    assert rest == |p.wq| - 1;
    if |p.slow| > 1 {
      SignalCovers(busy, p'.workers, rest, after);
    }
  }

  lemma QueueStepsKeepPace(p: Pool, step: Step, p': Pool)
    requires PaceOk(p) && Next(p, step, p') && (step.Requeue? || step.DropMarker?)
    ensures PaceOk(p')
  {
    TailDistinct(p.wq);
  }

  lemma WorkerStepsKeepPace(p: Pool, step: Step, p': Pool)
    requires PaceOk(p) && Next(p, step, p') && (step.Sleep? || step.Wake? || step.Relock? || step.FinishWork?)
    ensures PaceOk(p')
  {
    UpdateCounts(p.workers, step.i, p'.workers[step.i]);
  }

  lemma StepKeepsInv(p: Pool, step: Step, p': Pool)
    requires Inv(p) && Next(p, step, p')
    ensures Inv(p')
  {
    StepKeepsPlaces(p, step, p');
    StepKeepsAttended(p, step, p');
    match step
    case SubmitCpu(_) => SubmitKeepsPace(p, step, p');
    case SubmitSlow(_) => SubmitKeepsPace(p, step, p');
    case Cancel(id) => CancelKeepsPace(p, id, p');
    case TakeSlow(i) => TakeSlowKeepsPace(p, i, p');
    case TakeCpu(i) => TakeCpuKeepsPace(p, i, p');
    case Requeue(_) => QueueStepsKeepPace(p, step, p');
    case DropMarker(_) => QueueStepsKeepPace(p, step, p');
    case Collect(_) =>
    case Deliver(_) =>
    case _ => WorkerStepsKeepPace(p, step, p');
  }

  // ---------------------------------------------------------------- executing requests

  /** Workers that keep running what they run. */
  lemma StillRun(ws: seq<Worker>, ws': seq<Worker>, i: nat)
    requires |ws'| == |ws| && forall k :: 0 <= k < |ws| && k != i && ws[k].Working? ==> ws'[k] == ws[k]
    ensures forall id :: RunBy(ws, id) && !(i < |ws| && ws[i].Working? && ws[i].id == id) ==> RunBy(ws', id)
  {
    forall id | RunBy(ws, id) && !(i < |ws| && ws[i].Working? && ws[i].id == id) ensures RunBy(ws', id) {
      var k :| 0 <= k < |ws| && ws[k].Working? && ws[k].id == id;
      assert ws'[k] == ws[k];
    }
  }

  lemma SignalStillRuns(ws: seq<Worker>, ws': seq<Worker>)
    requires Signal(ws, ws') || ws' == ws
    ensures forall id :: RunBy(ws, id) ==> RunBy(ws', id)
  {
    if Signal(ws, ws') { SignalKeepsWorking(ws, ws'); }
    StillRun(ws, ws', |ws|);
  }

  lemma TakeKeepsAttended(p: Pool, step: Step, p': Pool)
    requires AttendedOk(p.workers, p.status) && Next(p, step, p') && (step.TakeSlow? || step.TakeCpu?)
    ensures AttendedOk(p'.workers, p'.status)
  {
    var id := if step.TakeSlow? then p.slow[0] else p.wq[0].id;
    var busy := p.workers[step.i := Working(id, step.TakeSlow?)];
    StillRun(p.workers, busy, step.i);
    assert busy[step.i].id == id && RunBy(busy, id);
    SignalStillRuns(busy, p'.workers);
  }

  lemma StepKeepsAttended(p: Pool, step: Step, p': Pool)
    requires PlacesOk(p) && AttendedOk(p.workers, p.status) && Next(p, step, p')
    ensures AttendedOk(p'.workers, p'.status)
  {
    match step
    case SubmitCpu(_) => SignalStillRuns(p.workers, p'.workers);
    case SubmitSlow(_) => SignalStillRuns(p.workers, p'.workers);
    case TakeSlow(_) => TakeKeepsAttended(p, step, p');
    case TakeCpu(_) => TakeKeepsAttended(p, step, p');
    case Sleep(i) => StillRun(p.workers, p'.workers, i);
    case Wake(i) => StillRun(p.workers, p'.workers, i);
    case Relock(i) => StillRun(p.workers, p'.workers, i);
    case FinishWork(i) => StillRun(p.workers, p'.workers, i);
    case _ =>
  }

  // ---------------------------------------------------------------- runs

  ghost predicate StepAt(pools: seq<Pool>, steps: seq<Step>, k: nat) {
    k + 1 < |pools| && k < |steps| && Next(pools[k], steps[k], pools[k + 1])
  }

  ghost predicate IsRun(pools: seq<Pool>, steps: seq<Step>) {
    |pools| == |steps| + 1 && Init(pools[0]) && forall k :: 0 <= k < |steps| ==> StepAt(pools, steps, k)
  }

  lemma {:induction false} NoneCounted(ws: seq<Worker>, which: Worker -> bool)
    requires forall i :: 0 <= i < |ws| ==> !which(ws[i])
    ensures Count(ws, which) == 0
  {
    if ws != [] { NoneCounted(ws[1..], which); }
  }

  lemma InitIsOk(p: Pool)
    requires Init(p)
    ensures Inv(p)
  {
    NoneCounted(p.workers, IsWaiting);
    NoneCounted(p.workers, IsSlow);
    NoneCounted(p.workers, IsSleeping);
  }

  lemma {:induction false} RunKeepsInv(pools: seq<Pool>, steps: seq<Step>, k: nat)
    requires IsRun(pools, steps) && k < |pools|
    ensures Inv(pools[k])
  {
    if k == 0 {
      InitIsOk(pools[0]);
    } else {
      RunKeepsInv(pools, steps, k - 1);
      assert StepAt(pools, steps, k - 1);
      StepKeepsInv(pools[k - 1], steps[k - 1], pools[k]);
    }
  }

  /** Each request gets its done callback at most once, runs at most once, and is told it was cancelled exactly if it did
      not run. */
  lemma CallbacksAreExact(pools: seq<Pool>, steps: seq<Step>, k: nat)
    requires IsRun(pools, steps) && k < |pools|
    ensures var p := pools[k];
            && (forall i, j :: 0 <= i < j < |p.callbacks| ==> p.callbacks[i].0 != p.callbacks[j].0)
            && Distinct(p.executed)
            && (forall c :: c in p.callbacks ==> (c.1 <==> c.0 !in p.executed))
  {
    RunKeepsInv(pools, steps, k);
  }

  /** Slow work is throttled and never forgotten: running slow requests stay within half the pool, rounded up, and while any
      is pending the marker is in the queue exactly once. */
  lemma SlowWorkIsThrottled(pools: seq<Pool>, steps: seq<Step>, k: nat)
    requires IsRun(pools, steps) && k < |pools|
    ensures var p := pools[k];
            && Count(p.workers, IsSlow) == p.running <= (|p.workers| + 1) / 2
            && (p.slow != [] ==> Marker in p.wq) && (forall i, j :: 0 <= i < j < |p.wq| ==> p.wq[i] != p.wq[j])
  {
    RunKeepsInv(pools, steps, k);
  }

  /** No wake-up is lost: in no reachable state is there runnable work while every worker waits unsignalled. */
  lemma SomeoneIsAwake(pools: seq<Pool>, steps: seq<Step>, k: nat)
    requires IsRun(pools, steps) && k < |pools| && Runnable(pools[k].wq, pools[k].running, Threshold(pools[k])) > 0
    ensures exists i :: 0 <= i < |pools[k].workers| && !IsSleeping(pools[k].workers[i])
  {
    RunKeepsInv(pools, steps, k);
    var p := pools[k];
    CountWitness(p.workers, IsSleeping);
    CountWitness(p.workers, IsLooking);
    if Count(p.workers, IsSleeping) > 0 {
      var i :| 0 <= i < |p.workers| && IsLooking(p.workers[i]);
      assert !IsSleeping(p.workers[i]);
    } else {
      assert !IsSleeping(p.workers[0]);
    }
  }

  // ---------------------------------------------------------------- nothing gets stuck

  /** Steps the pool and its loops take by themselves: not new calls, and no spurious wake-up. */
  ghost predicate Internal(p: Pool, step: Step) {
    !step.SubmitCpu? && !step.SubmitSlow? && !step.Cancel? && (step.Wake? && step.i < |p.workers| ==> p.workers[step.i] == Waiting(true))
  }

  ghost predicate Stuck(p: Pool) {
    forall step, p' :: Internal(p, step) ==> !Next(p, step, p')
  }

  lemma SomeSignal(ws: seq<Worker>) returns (ws': seq<Worker>)
    ensures Signal(ws, ws')
  {
    if k :| 0 <= k < |ws| && IsSleeping(ws[k]) {
      ws' := ws[k := Waiting(true)];
    } else {
      ws' := ws;
    }
  }

  /** A worker at the top of its loop can always go on. */
  lemma TopCanMove(p: Pool, i: nat) returns (step: Step, p': Pool)
    requires AtTheTop(p, i) && PlacesOk(p)
    ensures Internal(p, step) && Next(p, step, p')
  {
    if MustWait(p) {
      step, p' := Sleep(i), p.(workers := p.workers[i := Waiting(false)], idle := p.idle + 1);
    } else if p.wq[0].Work? {
      var id := p.wq[0].id;
      step := TakeCpu(i);
      p' := p.(wq := p.wq[1..], workers := p.workers[i := Working(id, false)], status := p.status[id := Executing], executed := p.executed + [id]);
    } else if p.running >= Threshold(p) {
      step, p' := Requeue(i), p.(wq := p.wq[1..] + [Marker]);
    } else if p.slow == [] {
      step, p' := DropMarker(i), p.(wq := p.wq[1..]);
    } else {
      var id, more := p.slow[0], |p.slow| > 1;
      var busy := p.workers[i := Working(id, true)];
      var ws' := busy;
      if more && p.idle > 0 { ws' := SomeSignal(busy); }
      step := TakeSlow(i);
      p' := p.(wq := p.wq[1..] + (if more then [Marker] else []), slow := p.slow[1..], running := p.running + 1, workers := ws',
               status := p.status[id := Executing], executed := p.executed + [id]);
    }
  }

  /** A worker that is not asleep can always go on. */
  lemma AwakeCanMove(p: Pool, i: nat) returns (step: Step, p': Pool)
    requires Inv(p) && i < |p.workers| && !IsSleeping(p.workers[i])
    ensures Internal(p, step) && Next(p, step, p')
  {
    CountWitness(p.workers, IsWaiting);
    CountWitness(p.workers, IsSlow);
    match p.workers[i]
    case AtTop => step, p' := TopCanMove(p, i);
    case Waiting(_) =>
      assert IsWaiting(p.workers[i]);
      step, p' := Wake(i), p.(workers := p.workers[i := AtTop], idle := p.idle - 1);
    case Working(id, slow) =>
      step := FinishWork(i);
      p' := p.(workers := p.workers[i := Returning(slow)], finished := p.finished + [id], status := p.status[id := Finished(false)]);
    case Returning(slow) =>
      assert slow ==> IsSlow(p.workers[i]);
      step := Relock(i);
      p' := p.(workers := p.workers[i := AtTop], running := if slow then p.running - 1 else p.running);
  }

  lemma AllAsleepIsEmpty(p: Pool)
    requires Inv(p) && forall i :: 0 <= i < |p.workers| ==> IsSleeping(p.workers[i])
    ensures p.wq == [] && p.slow == []
  {
    NoneCounted(p.workers, IsSlow);
    NoneCounted(p.workers, IsLooking);
    CountWitness(p.workers, IsSleeping);
    assert IsSleeping(p.workers[0]);
  }

  /** No deadlock: in a reachable state in which the pool and its loops can do nothing more, every request ever submitted has
      had its callback. */
  lemma StuckMeansDone(pools: seq<Pool>, steps: seq<Step>, k: nat)
    requires IsRun(pools, steps) && k < |pools| && Stuck(pools[k])
    ensures forall id :: id in pools[k].status ==> pools[k].status[id].Called?
  {
    RunKeepsInv(pools, steps, k);
    StuckPoolIsDone(pools[k]);
  }

  lemma StuckPoolIsDone(p: Pool)
    requires Inv(p) && Stuck(p)
    ensures forall id :: id in p.status ==> p.status[id].Called?
  {
    forall i | 0 <= i < |p.workers| ensures IsSleeping(p.workers[i]) {
      if !IsSleeping(p.workers[i]) {
        var step, p' := AwakeCanMove(p, i);
        assert false;
      }
    }
    AllAsleepIsEmpty(p);
    forall id | id in p.status ensures p.status[id].Called? {
      NotExecuting(p, id);
      if p.status[id].Finished? {
        var p' := p.(finished := Without(p.finished, id), collected := p.collected + [id], status := p.status[id := Collected(p.status[id].cancelled)]);
        assert Next(p, Collect(id), p');
        assert false;
      } else if p.status[id].Collected? {
        var cancelled := p.status[id].cancelled;
        var p' := p.(collected := Without(p.collected, id), callbacks := p.callbacks + [(id, cancelled)], status := p.status[id := Called(cancelled)]);
        assert Next(p, Deliver(id), p');
        assert false;
      }
    }
  }

  lemma NotExecuting(p: Pool, id: nat)
    requires Inv(p) && id in p.status && forall i :: 0 <= i < |p.workers| ==> IsSleeping(p.workers[i])
    ensures !p.status[id].Executing?
  {
  }
}
