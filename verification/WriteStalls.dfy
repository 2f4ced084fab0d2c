/** A leader that waits for room (db/db_impl.cc: MakeRoomForWrite, MaybeScheduleCompaction, BackgroundCall), joined to the writer queue.
    The leader may wait for the background thread; while it does, every writer behind it waits for the leader. */
module WriteStalls {
  import opened GroupCommit
  import opened GroupCommitSafety
  import opened GroupCommitOrder

  const COMPACTION_TRIGGER: nat := 4
  const SLOWDOWN_TRIGGER: nat := 8
  const STOP_TRIGGER: nat := 12

  // ---------------------------------------------------------------- room in the memtable

  /** Where the leader is: in the loop of MakeRoomForWrite, delayed once by a millisecond, waiting for background work, or out of the loop
      with or without room. */
  datatype Place =
    | Outside
    | Looking(force: bool, delay: bool)
    | Delayed(force: bool)
    | Waiting(force: bool, delay: bool, signalled: bool)
    | Left(ok: bool)

  /** `files` counts the level-0 files; `other` says that another level, a seek or a manual compaction asks for work. */
  datatype Room = Room(place: Place, full: bool, imm: bool, files: nat, other: bool, error: bool, scheduled: bool, working: bool)

  const NEW_ROOM := Room(Outside, false, false, 0, false, false, false, false)

  predicate WorkWanted(r: Room) { !r.error && (r.imm || r.files >= COMPACTION_TRIGGER || r.other) }

  function MaybeSchedule(r: Room): Room { if WorkWanted(r) then r.(scheduled := true) else r }

  function SignalAll(r: Room): Room { if r.place.Waiting? then r.(place := r.place.(signalled := true)) else r }

  function RecordError(r: Room): Room { if r.error then r else SignalAll(r.(error := true)) }

  /** One round of the loop; `created` says whether a new log file could be created. */
  function Looked(r: Room, created: bool): Room
    requires r.place.Looking?
  {
    var force, delay := r.place.force, r.place.delay;
    if r.error then r.(place := Left(false))
    else if delay && r.files >= SLOWDOWN_TRIGGER then r.(place := Delayed(force))
    else if !force && !r.full then r.(place := Left(true))
    else if r.imm || r.files >= STOP_TRIGGER then r.(place := Waiting(force, delay, false))
    else if !created then r.(place := Left(false))
    else MaybeSchedule(r.(imm := true, full := false, place := Looking(false, delay)))
  }

  datatype RoomStep =
    | Look(created: bool) | EndDelay | WakeUp
    | StartWork | Flush(ok: bool, files: nat, signal: bool) | Compact(ok: bool, files: nat, other: bool) | EndWork
    | Fill | AskForWork | FailWrite

  ghost predicate NextRoom(r: Room, step: RoomStep, r': Room) {
    match step
    case Look(created) => r.place.Looking? && r' == Looked(r, created)
    case EndDelay => r.place.Delayed? && r' == r.(place := Looking(r.place.force, false))
    case WakeUp => r.place.Waiting? && r' == r.(place := Looking(r.place.force, r.place.delay))
    case StartWork => r.scheduled && !r.working && r' == r.(working := true)
    // the immutable memtable becomes a table, also in the middle of a compaction, which then signals
    case Flush(ok, files, signal) =>
      && r.working && r.imm && files <= r.files + 1
      && r' == if ok then (if signal then SignalAll(r.(imm := false, files := files)) else r.(imm := false, files := files)) else RecordError(r)
    case Compact(ok, files, other) => r.working && r' == if ok then r.(files := files, other := other) else RecordError(r)
    case EndWork => r.working && r' == SignalAll(MaybeSchedule(r.(scheduled := false, working := false)))
    case Fill => (r.place.Outside? || r.place.Left?) && r' == r.(full := true)
    case AskForWork => r' == MaybeSchedule(r.(other := true))
    case FailWrite => r' == RecordError(r)
  }

  /** Work that is wanted is scheduled, and so nobody waits for work that will not come. */
  ghost predicate RoomInv(r: Room) {
    (WorkWanted(r) ==> r.scheduled) && (r.working ==> r.scheduled) && (r.place.Waiting? && !r.place.signalled ==> r.scheduled)
  }

  lemma RoomStepKeeps(r: Room, step: RoomStep, r': Room)
    requires RoomInv(r) && NextRoom(r, step, r')
    ensures RoomInv(r') && (r'.place.Outside? <==> r.place.Outside?)
  {
  }

  /** Steps that the leader and the background thread take by themselves: no spurious wake-up, and nothing that others cause. */
  ghost predicate RoomInternal(r: Room, step: RoomStep) {
    match step
    case WakeUp => r.place.Waiting? && r.place.signalled
    case Fill => false
    case AskForWork => false
    case FailWrite => false
    case _ => true
  }

  /** Until the leader is out of the loop, it or the background thread can go on. */
  lemma RoomCanMove(r: Room) returns (step: RoomStep, r': Room)
    requires RoomInv(r) && !r.place.Outside? && !r.place.Left?
    ensures RoomInternal(r, step) && NextRoom(r, step, r')
  {
    match r.place
    case Looking(_, _) => step, r' := Look(true), Looked(r, true);
    case Delayed(force) => step, r' := EndDelay, r.(place := Looking(force, false));
    case Waiting(force, delay, signalled) =>
      if signalled {
        step, r' := WakeUp, r.(place := Looking(force, delay));
      } else if r.working {
        step, r' := EndWork, SignalAll(MaybeSchedule(r.(scheduled := false, working := false)));
      } else {
        step, r' := StartWork, r.(working := true);
      }
  }

  // ---------------------------------------------------------------- writers and room together

  datatype Joint = Joint(writers: State, room: Room)

  datatype JointStep = Writers(w: Step) | Inside(r: RoomStep)

  /** What a writer's step needs of the room, and does to it. */
  ghost predicate RoomFor(s: State, step: Step, r: Room, r': Room) {
    match step
    case Lead(id) => id in s.requests && var force := s.requests[id].batch.None?; r' == r.(place := Looking(force, !force))
    case Refuse(id, status) => r.place.Left? && (r.place.ok <==> status.Ok?) && r' == r.(place := Outside)
    case Begin(id, k) => r.place == Left(true) && r' == r.(place := Outside)
    case _ => r' == r
  }

  ghost predicate NextJoint(s: Joint, step: JointStep, s': Joint) {
    match step
    case Writers(w) => Next(s.writers, w, s'.writers) && RoomFor(s.writers, w, s.room, s'.room)
    case Inside(r) => s'.writers == s.writers && NextRoom(s.room, r, s'.room)
  }

  ghost predicate Leads(s: State, id: nat) { id in s.phase && s.phase[id].Leading? }

  /** The leader is in the loop exactly while it is making room. */
  ghost predicate JointInv(s: Joint) {
    FullInv(s.writers) && RoomInv(s.room) && (s.room.place.Outside? <==> NobodyLeads(s.writers))
  }

  lemma OnlyFrontLeads(s: State, id: nat)
    requires Inv(s) && Leads(s, id)
    ensures s.queue != [] && s.queue[0] == id
  {
    assert PhaseOk(s.queue, s.done, id, s.phase[id]);
  }

  ghost predicate NobodyLeads(s: State) { forall id :: !Leads(s, id) }

  /** Popping a group whose leader was the only active writer. */
  lemma PopEndsLead(s: State, s': State, id: nat, k: nat, status: Status, last: nat, x: nat)
    requires Inv(s) && Popped(s, s', id, k, status, last)
    ensures !Leads(s', x)
  {
    if Leads(s, x) { OnlyFrontLeads(s, x); }
  }

  lemma RefuseEndsLead(s: State, s': State, id: nat, status: Status)
    requires Inv(s) && DoRefuse(s, s', id, status)
    ensures !NobodyLeads(s) && NobodyLeads(s')
  {
    assert Leads(s, id);
    forall x ensures !Leads(s', x) { PopEndsLead(s, s', id, 1, status, s.lastSequence, x); }
  }

  lemma BeginEndsLead(s: State, s': State, id: nat, k: nat)
    requires Inv(s) && DoBegin(s, s', id, k)
    ensures !NobodyLeads(s) && NobodyLeads(s')
  {
    assert Leads(s, id);
    forall x ensures !Leads(s', x) {
      if Leads(s, x) { OnlyFrontLeads(s, x); }
    }
  }

  lemma FinishNoLead(s: State, s': State, id: nat, status: Status)
    requires Inv(s) && DoFinish(s, s', id, status)
    ensures NobodyLeads(s) && NobodyLeads(s')
  {
    assert PhaseOk(s.queue, s.done, id, s.phase[id]);
    forall x ensures !Leads(s, x) && !Leads(s', x) {
      if Leads(s, x) { OnlyFrontLeads(s, x); }
      PopEndsLead(s, s', id, s.phase[id].k, status, s.lastSequence + |s.phase[id].ops|, x);
    }
  }

  /** One writer's phase changes, to or from neither of which it leads. */
  lemma OtherPhase(s: State, s': State, id: nat, p: Phase)
    requires s'.phase == s.phase[id := p] && !p.Leading? && !Leads(s, id)
    ensures NobodyLeads(s') <==> NobodyLeads(s)
  {
    assert forall x :: Leads(s', x) <==> Leads(s, x);
  }

  lemma QuietLead(s: State, step: Step, s': State)
    requires Next(s, step, s') && !step.Lead? && !step.Refuse? && !step.Begin? && !step.Finish?
    ensures NobodyLeads(s') <==> NobodyLeads(s)
  {
    OtherPhase(s, s', step.id, s'.phase[step.id]);
  }

  /** Who makes room before a step and after it. */
  lemma LeadersChange(s: State, step: Step, s': State)
    requires Inv(s) && Next(s, step, s')
    ensures step.Lead? ==> !NobodyLeads(s')
    ensures step.Refuse? || step.Begin? ==> NobodyLeads(s')
    ensures !step.Lead? && !step.Refuse? && !step.Begin? ==> (NobodyLeads(s') <==> NobodyLeads(s))
  {
    match step
    case Lead(id) => assert Leads(s', id);
    case Refuse(id, status) => RefuseEndsLead(s, s', id, status);
    case Begin(id, k) => BeginEndsLead(s, s', id, k);
    case Finish(id, status) => FinishNoLead(s, s', id, status);
    case _ => QuietLead(s, step, s');
  }

  lemma JointStepKeeps(s: Joint, step: JointStep, s': Joint)
    requires JointInv(s) && NextJoint(s, step, s')
    ensures JointInv(s')
  {
    match step
    case Inside(r) => RoomStepKeeps(s.room, r, s'.room);
    case Writers(w) => WritersKeep(s, w, s');
  }

  lemma WritersKeep(s: Joint, w: Step, s': Joint)
    requires JointInv(s) && NextJoint(s, Writers(w), s')
    ensures JointInv(s')
  {
    StepKeepsFull(s.writers, w, s'.writers);
    LeadersChange(s.writers, w, s'.writers);
    RoomForKeeps(s.writers, w, s.room, s'.room);
  }

  lemma RoomForKeeps(s: State, w: Step, r: Room, r': Room)
    requires RoomInv(r) && RoomFor(s, w, r, r')
    ensures RoomInv(r') && (w.Lead? ==> !r'.place.Outside?) && (w.Refuse? || w.Begin? ==> r'.place.Outside?)
    ensures !w.Lead? && !w.Refuse? && !w.Begin? ==> r' == r
  {
  }

  // ---------------------------------------------------------------- runs

  ghost predicate JointStepAt(states: seq<Joint>, steps: seq<JointStep>, i: nat) {
    i + 1 < |states| && i < |steps| && NextJoint(states[i], steps[i], states[i + 1])
  }

  ghost predicate IsJointRun(states: seq<Joint>, steps: seq<JointStep>) {
    && |states| == |steps| + 1 && states[0] == Joint(Empty, NEW_ROOM)
    && forall i :: 0 <= i < |steps| ==> JointStepAt(states, steps, i)
  }

  lemma NewIsOk(s: Joint)
    requires s == Joint(Empty, NEW_ROOM)
    ensures JointInv(s)
  {
  }

  ghost predicate Carries(ok: Joint -> bool, s: Joint, step: JointStep, s': Joint) {
    ok(s) && NextJoint(s, step, s') ==> ok(s')
  }

  /** What holds at first and is kept by every step holds in every state of a run. */
  lemma {:induction false} RunCarries(ok: Joint -> bool, states: seq<Joint>, steps: seq<JointStep>, n: nat)
    requires IsJointRun(states, steps) && n < |states| && ok(states[0]) && forall s, step, s' :: Carries(ok, s, step, s')
    ensures ok(states[n])
  {
    if n > 0 {
      RunCarries(ok, states, steps, n - 1);
      assert JointStepAt(states, steps, n - 1) && Carries(ok, states[n - 1], steps[n - 1], states[n]);
    }
  }

  lemma InvIsCarried(ok: Joint -> bool)
    requires ok == ((s: Joint) => JointInv(s))
    ensures forall s, step, s' :: Carries(ok, s, step, s')
  {
    forall s, step, s' ensures Carries(ok, s, step, s') {
      if JointInv(s) && NextJoint(s, step, s') { JointStepKeeps(s, step, s'); }
    }
  }

  /** Every state of every run keeps the invariant. */
  lemma JointRunKeepsInv(states: seq<Joint>, steps: seq<JointStep>, n: nat)
    requires IsJointRun(states, steps) && n < |states|
    ensures JointInv(states[n])
  {
    var ok := (s: Joint) => JointInv(s);
    NewIsOk(states[0]);
    InvIsCarried(ok);
    RunCarries(ok, states, steps, n);
    assert ok(states[n]);
  }

  /** A writer waits for background work only while that work is scheduled or has signalled it. */
  lemma WaitersAreServed(states: seq<Joint>, steps: seq<JointStep>, n: nat)
    requires IsJointRun(states, steps) && n < |states| && states[n].room.place.Waiting?
    ensures states[n].room.scheduled || states[n].room.place.signalled
    ensures exists id :: Leads(states[n].writers, id) && states[n].writers.queue != [] && states[n].writers.queue[0] == id
  {
    JointRunKeepsInv(states, steps, n);
    var id :| Leads(states[n].writers, id);
    OnlyFrontLeads(states[n].writers, id);
  }

  // ---------------------------------------------------------------- nobody is left waiting

  ghost predicate JointInternal(s: Joint, step: JointStep) {
    match step
    case Writers(w) => Internal(s.writers, w)
    case Inside(r) => RoomInternal(s.room, r)
  }

  ghost predicate JointStuck(s: Joint) {
    forall step, s' :: JointInternal(s, step) ==> !NextJoint(s, step, s')
  }

  /** A leader that is out of the loop goes on: with an error or without a batch it returns, otherwise it commits. */
  lemma LeaderCanMove(s: Joint, id: nat) returns (step: JointStep, s': Joint)
    requires JointInv(s) && s.room.place.Left? && Leads(s.writers, id)
    ensures JointInternal(s, step) && NextJoint(s, step, s')
  {
    var w := s.writers;
    OnlyFrontLeads(w, id);
    QueueMembers(w.queue, w.arrived, w.popped);
    assert id in w.queue && id in w.requests;
    var room := s.room.(place := Outside);
    if !s.room.place.ok {
      step, s' := Writers(Refuse(id, Error(0))), Joint(PoppedState(w, id, 1, Error(0), w.lastSequence), room);
    } else if w.requests[id].batch.None? {
      step, s' := Writers(Refuse(id, Ok)), Joint(PoppedState(w, id, 1, Ok, w.lastSequence), room);
    } else {
      assert Known(w.queue, w.requests) && GroupOk(w.queue, w.requests, 1);
      step := Writers(Begin(id, 1));
      s' := Joint(w.(phase := w.phase[id := Committing(1, w.lastSequence + 1, Merged(w.queue[..1], w.requests), false)],
                     grants := w.grants + GrantsFrom(w.queue[..1], w.requests, w.popped, w.lastSequence + 1)), room);
    }
  }

  lemma FrontGoesOn(s: Joint) returns (step: JointStep, s': Joint)
    requires JointInv(s) && s.writers.queue != []
    ensures JointInternal(s, step) && NextJoint(s, step, s')
  {
    var w := s.writers;
    var id := w.queue[0];
    QueueMembers(w.queue, w.arrived, w.popped);
    assert id in w.queue && id in w.requests && id in w.phase;
    if Leads(w, id) {
      if s.room.place.Left? {
        step, s' := LeaderCanMove(s, id);
      } else {
        var r, room := RoomCanMove(s.room);
        step, s' := Inside(r), Joint(w, room);
      }
    } else {
      var move, w' := FrontCanMove(w);
      step := Writers(move);
      var force := w.requests[id].batch.None?;
      s' := Joint(w', if move.Lead? then s.room.(place := Looking(force, !force)) else s.room);
    }
  }

  /** No wake-up is lost, by writers or by the background thread: in a reachable state in which none of them can do anything more, every
      call has returned. */
  lemma StuckMeansReturned(states: seq<Joint>, steps: seq<JointStep>, n: nat)
    requires IsJointRun(states, steps) && n < |states| && JointStuck(states[n])
    ensures forall id :: id in states[n].writers.phase ==> states[n].writers.phase[id].Returned?
  {
    JointRunKeepsInv(states, steps, n);
    JointStuckIsReturned(states[n]);
  }

  lemma JointStuckIsReturned(s: Joint)
    requires JointInv(s) && JointStuck(s)
    ensures forall id :: id in s.writers.phase ==> s.writers.phase[id].Returned?
  {
    if s.writers.queue != [] {
      var step, s' := FrontGoesOn(s);
      assert false;
    }
    forall id | id in s.writers.phase ensures s.writers.phase[id].Returned? {
      if !s.writers.phase[id].Returned? {
        var step, w' := DoneCanMove(s.writers, id);
        assert JointInternal(s, Writers(step)) && NextJoint(s, Writers(step), Joint(w', s.room));
        assert false;
      }
    }
  }
}
