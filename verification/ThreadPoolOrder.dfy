/** The order in which the pool runs requests (threadpool.c: post, worker): CPU requests in the order of their submission, and slow
    requests among themselves likewise, however submissions, workers and cancellations interleave. */
module ThreadPoolOrder {
  import opened Queues
  import opened ThreadPool
  import opened ThreadPoolSafety

  predicate Cancelled(p: Pool, id: nat) {
    id in p.status && (p.status[id] == Finished(true) || p.status[id] == Collected(true) || p.status[id] == Called(true))
  }

  /** `y` has not run, or it ran after `x`, or `x` was cancelled before it could run. */
  ghost predicate RunsAfter(p: Pool, x: nat, y: nat) {
    y in p.executed ==> Ahead(p.executed, x, y) || Cancelled(p, x)
  }

  // ---------------------------------------------------------------- two requests of a kind

  /** `x` waits in front of `y`, or has run and `y` has not run before it, or was cancelled. */
  ghost predicate CpuInOrder(p: Pool, x: nat, y: nat) {
    && x in p.status && y in p.status && !p.status[x].SlowQueued? && !p.status[y].SlowQueued? && x != y
    && (p.status[x].Queued? && p.status[y].Queued? ==> Ahead(p.wq, Work(x), Work(y)))
    && (p.status[x].Queued? ==> y !in p.executed)
    && RunsAfter(p, x, y)
  }

  ghost predicate SlowInOrder(p: Pool, x: nat, y: nat) {
    && x in p.status && y in p.status && !p.status[x].Queued? && !p.status[y].Queued? && x != y
    && (p.status[x].SlowQueued? && p.status[y].SlowQueued? ==> Ahead(p.slow, x, y))
    && (p.status[x].SlowQueued? ==> y !in p.executed)
    && RunsAfter(p, x, y)
  }

  ghost predicate InOrder(p: Pool, slow: bool, x: nat, y: nat) {
    if slow then SlowInOrder(p, x, y) else CpuInOrder(p, x, y)
  }

  // ---------------------------------------------------------------- the queues

  lemma {:induction false} HeadIsFirst<T(!new)>(q: seq<T>, x: T, y: T)
    requires Distinct(q) && q != [] && Ahead(q, x, y)
    ensures q[0] != y && (q[0] != x ==> Ahead(q[1..], x, y))
  {
    if q[0] != x {
      assert q[..1] == [q[0]];
      TailAhead(q, 1, x, y);
    }
  }

  lemma {:induction false} TakeCpuKeepsOrder(p: Pool, i: nat, p': Pool, x: nat, y: nat)
    requires PlacesOk(p) && DoTakeCpu(p, p', i) && CpuInOrder(p, x, y)
    ensures CpuInOrder(p', x, y)
  {
    var id := p.wq[0].id;
    assert Work(id) in p.wq;
    AppendAhead(p.executed, id, x, y);
    if p.status[x].Queued? && p.status[y].Queued? { HeadIsFirst(p.wq, Work(x), Work(y)); }
  }

  lemma {:induction false} TakeSlowKeepsCpu(p: Pool, i: nat, p': Pool, x: nat, y: nat)
    requires PlacesOk(p) && DoTakeSlow(p, p', i) && CpuInOrder(p, x, y)
    ensures CpuInOrder(p', x, y)
  {
    var id := p.slow[0];
    assert id in p.slow;
    AppendAhead(p.executed, id, x, y);
    if p.status[x].Queued? && p.status[y].Queued? {
      HeadIsFirst(p.wq, Work(x), Work(y));
      AppendAhead(p.wq[1..], Marker, Work(x), Work(y));
      assert p.wq[1..] + [] == p.wq[1..];
    }
  }

  lemma {:induction false} TakeSlowKeepsSlow(p: Pool, i: nat, p': Pool, x: nat, y: nat)
    requires PlacesOk(p) && DoTakeSlow(p, p', i) && SlowInOrder(p, x, y)
    ensures SlowInOrder(p', x, y)
  {
    var id := p.slow[0];
    assert id in p.slow;
    AppendAhead(p.executed, id, x, y);
    if p.status[x].SlowQueued? && p.status[y].SlowQueued? { HeadIsFirst(p.slow, x, y); }
  }

  lemma {:induction false} TakeCpuKeepsSlow(p: Pool, i: nat, p': Pool, x: nat, y: nat)
    requires PlacesOk(p) && DoTakeCpu(p, p', i) && SlowInOrder(p, x, y)
    ensures SlowInOrder(p', x, y)
  {
    assert Work(p.wq[0].id) in p.wq;
    AppendAhead(p.executed, p.wq[0].id, x, y);
  }

  lemma {:induction false} CancelKeepsOrder(p: Pool, id: nat, p': Pool, slow: bool, x: nat, y: nat)
    requires PlacesOk(p) && DoCancel(p, p', id) && InOrder(p, slow, x, y)
    ensures InOrder(p', slow, x, y)
  {
    WithoutAhead(p.wq, Work(id), Work(x), Work(y));
    WithoutAhead(p.slow, id, x, y);
  }

  lemma {:induction false} SubmitKeepsOrder(p: Pool, step: Step, p': Pool, slow: bool, x: nat, y: nat)
    requires PlacesOk(p) && Next(p, step, p') && (step.SubmitCpu? || step.SubmitSlow?) && InOrder(p, slow, x, y)
    ensures InOrder(p', slow, x, y)
  {
    AppendAhead(p.wq, if step.SubmitCpu? then Work(step.id) else Marker, Work(x), Work(y));
    AppendAhead(p.slow, step.id, x, y);
  }

  lemma {:induction false} MarkerKeepsOrder(p: Pool, step: Step, p': Pool, slow: bool, x: nat, y: nat)
    requires PlacesOk(p) && Next(p, step, p') && (step.Requeue? || step.DropMarker?) && InOrder(p, slow, x, y)
    ensures InOrder(p', slow, x, y)
  {
    if !slow && p.status[x].Queued? && p.status[y].Queued? {
      HeadIsFirst(p.wq, Work(x), Work(y));
      AppendAhead(p.wq[1..], Marker, Work(x), Work(y));
    }
  }

  /** Steps that touch neither queue. */
  lemma {:induction false} OtherKeepsOrder(p: Pool, step: Step, p': Pool, slow: bool, x: nat, y: nat)
    requires PlacesOk(p) && Next(p, step, p') && InOrder(p, slow, x, y)
    requires step.Sleep? || step.Wake? || step.FinishWork? || step.Relock? || step.Collect? || step.Deliver?
    ensures InOrder(p', slow, x, y)
  {
  }

  lemma {:induction false} StepKeepsOrder(p: Pool, step: Step, p': Pool, slow: bool, x: nat, y: nat)
    requires PlacesOk(p) && Next(p, step, p') && InOrder(p, slow, x, y)
    ensures InOrder(p', slow, x, y)
  {
    match step
    case SubmitCpu(_) => SubmitKeepsOrder(p, step, p', slow, x, y);
    case SubmitSlow(_) => SubmitKeepsOrder(p, step, p', slow, x, y);
    case Cancel(id) => CancelKeepsOrder(p, id, p', slow, x, y);
    case Requeue(_) => MarkerKeepsOrder(p, step, p', slow, x, y);
    case DropMarker(_) => MarkerKeepsOrder(p, step, p', slow, x, y);
    case TakeSlow(i) => if slow { TakeSlowKeepsSlow(p, i, p', x, y); } else { TakeSlowKeepsCpu(p, i, p', x, y); }
    case TakeCpu(i) => if slow { TakeCpuKeepsSlow(p, i, p', x, y); } else { TakeCpuKeepsOrder(p, i, p', x, y); }
    case _ => OtherKeepsOrder(p, step, p', slow, x, y);
  }

  // ---------------------------------------------------------------- runs

  /** A request keeps its kind. */
  ghost predicate OfKind(p: Pool, slow: bool, x: nat) {
    x in p.status && if slow then !p.status[x].Queued? else !p.status[x].SlowQueued?
  }

  predicate Submits(step: Step, slow: bool, x: nat) { step == if slow then SubmitSlow(x) else SubmitCpu(x) }

  lemma {:induction false} StepKeepsKind(p: Pool, step: Step, p': Pool, slow: bool, x: nat)
    requires PlacesOk(p) && Next(p, step, p') && OfKind(p, slow, x)
    ensures OfKind(p', slow, x)
  {
    match step
    case TakeSlow(_) => assert p.slow[0] in p.slow;
    case TakeCpu(_) => assert Work(p.wq[0].id) in p.wq;
    case _ =>
  }

  lemma {:induction false} KindStays(pools: seq<Pool>, steps: seq<Step>, slow: bool, i: nat, x: nat, n: nat)
    requires IsRun(pools, steps) && i < n < |pools| && Submits(steps[i], slow, x)
    ensures OfKind(pools[n], slow, x)
    decreases n
  {
    RunKeepsInv(pools, steps, n - 1);
    assert StepAt(pools, steps, n - 1);
    if i < n - 1 {
      KindStays(pools, steps, slow, i, x, n - 1);
      StepKeepsKind(pools[n - 1], steps[n - 1], pools[n], slow, x);
    }
  }

  lemma {:induction false} SecondJoins(p: Pool, step: Step, p': Pool, slow: bool, x: nat, y: nat)
    requires PlacesOk(p) && Next(p, step, p') && Submits(step, slow, y) && OfKind(p, slow, x)
    ensures InOrder(p', slow, x, y)
  {
    AppendAhead(p.wq, Work(y), Work(x), Work(y));
    AppendAhead(p.slow, y, x, y);
    assert y !in p.executed;
  }

  lemma {:induction false} OrderStays(pools: seq<Pool>, steps: seq<Step>, slow: bool, i: nat, x: nat, j: nat, y: nat, n: nat)
    requires IsRun(pools, steps) && i < j < n < |pools| && Submits(steps[i], slow, x) && Submits(steps[j], slow, y)
    ensures InOrder(pools[n], slow, x, y)
    decreases n
  {
    RunKeepsInv(pools, steps, n - 1);
    assert StepAt(pools, steps, n - 1);
    if j == n - 1 {
      KindStays(pools, steps, slow, i, x, n - 1);
      SecondJoins(pools[n - 1], steps[n - 1], pools[n], slow, x, y);
    } else {
      OrderStays(pools, steps, slow, i, x, j, y, n - 1);
      StepKeepsOrder(pools[n - 1], steps[n - 1], pools[n], slow, x, y);
    }
  }

  /** Of two CPU requests, or of two slow ones, the one submitted later does not run before the other, unless the other was cancelled. */
  lemma {:induction false} FirstComeFirstServed(pools: seq<Pool>, steps: seq<Step>, slow: bool, i: nat, x: nat, j: nat, y: nat, n: nat)
    requires IsRun(pools, steps) && i < j < n < |pools| && Submits(steps[i], slow, x) && Submits(steps[j], slow, y)
    ensures y in pools[n].executed ==> Ahead(pools[n].executed, x, y) || (Cancelled(pools[n], x) && x !in pools[n].executed)
  {
    OrderStays(pools, steps, slow, i, x, j, y, n);
    RunKeepsInv(pools, steps, n);
  }
}
