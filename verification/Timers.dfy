/** The timers of an event loop (libuv: src/timer.c), kept in a linked heap by due time and then by start order. */
module Timers {
  import opened InternalKeys
  import opened Queues
  import opened LinkedHeaps

  const MAX_TIME: nat := 0xFFFF_FFFF_FFFF_FFFF
  const INT_MAX: nat := 0x7FFF_FFFF

  datatype Timer = Timer(timeout: nat, startId: nat, repeat: nat, active: bool, callback: bool, closing: bool)

  type Timers = map<nat, Timer>

  datatype State = State(time: nat, counter: nat, timers: Timers)

  // ---------------------------------------------------------------- the order of timers

  function TimeoutOf(ts: Timers, x: nat): nat { if x in ts then ts[x].timeout else 0 }

  function StartOf(ts: Timers, x: nat): nat { if x in ts then ts[x].startId else 0 }

  predicate Sooner(ts: Timers, a: nat, b: nat) {
    TimeoutOf(ts, a) < TimeoutOf(ts, b) || (TimeoutOf(ts, a) == TimeoutOf(ts, b) && StartOf(ts, a) < StartOf(ts, b))
  }

  function TimerLess(ts: Timers): Less {
    (a: nat, b: nat) => Sooner(ts, a, b)
  }

  lemma TimerOrders(ts: Timers)
    ensures Orders(TimerLess(ts))
  {
  }

  /** Timers outside the heap do not matter to its order. */
  lemma OrderedSame(ts: Timers, ts': Timers, at: map<nat, nat>, pos: map<nat, nat>)
    requires Ordered(TimerLess(ts), at) && Inverse(at, pos)
    requires forall x :: x in pos ==> TimeoutOf(ts', x) == TimeoutOf(ts, x) && StartOf(ts', x) == StartOf(ts, x)
    ensures Ordered(TimerLess(ts'), at)
  {
    var less' := TimerLess(ts');
    forall p: nat ensures Above(less', at, p / 2, p) {
      assert Above(TimerLess(ts), at, p / 2, p);
    }
  }

  // ---------------------------------------------------------------- what the operations do

  predicate Active(ts: Timers, x: nat) { x in ts && ts[x].active }

  predicate Due(s: State, x: nat) { Active(s.timers, x) && s.timers[x].timeout <= s.time }

  predicate Apart(ts: Timers, x: nat, y: nat) {
    Active(ts, x) && Active(ts, y) && ts[x].startId == ts[y].startId ==> x == y
  }

  /** Active timers can be called, and were started at different times. */
  ghost predicate Inv(s: State) {
    && (forall x :: Active(s.timers, x) ==>
          s.timers[x].callback && !s.timers[x].closing && s.timers[x].startId < s.counter && s.timers[x].timeout <= MAX_TIME)
    && (forall x, y :: Apart(s.timers, x, y))
    && s.time <= MAX_TIME
  }

  /** 64-bit addition that stays at the maximum. */
  function Clamped(time: nat, timeout: nat): nat {
    if time + timeout > MAX_TIME then MAX_TIME else time + timeout
  }

  function Stopped(s: State, x: nat): State
    requires x in s.timers
  {
    s.(timers := s.timers[x := s.timers[x].(active := false)])
  }

  function Started(s: State, x: nat, timeout: nat, repeat: nat): State
    requires x in s.timers
  {
    s.(timers := s.timers[x := Timer(Clamped(s.time, timeout), s.counter, repeat, true, true, s.timers[x].closing)], counter := s.counter + 1)
  }

  /** A timer fires: it stops, and starts again if it repeats. */
  function Fired(s: State, x: nat): State
    requires x in s.timers
  {
    if s.timers[x].repeat > 0 then Started(Stopped(s, x), x, s.timers[x].repeat, s.timers[x].repeat) else Stopped(s, x)
  }

  lemma StoppedKeeps(s: State, x: nat)
    requires Inv(s) && x in s.timers
    ensures Inv(Stopped(s, x))
  {
    var ts := Stopped(s, x).timers;
    forall a, b ensures Apart(ts, a, b) { assert Apart(s.timers, a, b); }
  }

  lemma StartedKeeps(s: State, x: nat, timeout: nat, repeat: nat)
    requires Inv(s) && x in s.timers && !s.timers[x].closing
    ensures Inv(Started(s, x, timeout, repeat))
  {
    var ts := Started(s, x, timeout, repeat).timers;
    forall a, b ensures Apart(ts, a, b) { assert Apart(s.timers, a, b); }
  }

  lemma AddedKeeps(s: State, x: nat)
    requires Inv(s) && x !in s.timers
    ensures Inv(s.(timers := s.timers[x := Timer(0, 0, 0, false, false, false)]))
  {
    var ts := s.timers[x := Timer(0, 0, 0, false, false, false)];
    forall a, b ensures Apart(ts, a, b) { assert Apart(s.timers, a, b); }
  }

  lemma FiredKeeps(s: State, x: nat)
    requires Inv(s) && x in s.timers && !s.timers[x].closing
    ensures Inv(Fired(s, x))
  {
    StoppedKeeps(s, x);
    StartedKeeps(Stopped(s, x), x, s.timers[x].repeat, s.timers[x].repeat);
  }

  /** The effect of uv_timer_again on a handle with a callback; a closing handle only stops. */
  function Repeated(s: State, x: nat): State
    requires x in s.timers
  {
    if s.timers[x].repeat == 0 then s
    else if s.timers[x].closing then Stopped(s, x)
    else Started(s, x, s.timers[x].repeat, s.timers[x].repeat)
  }

  lemma FiredRepeats(s: State, x: nat)
    requires Inv(s) && Active(s.timers, x)
    ensures Fired(s, x) == Repeated(Stopped(s, x), x)
  {
  }

  lemma Restarted(s: State, x: nat, timeout: nat, repeat: nat)
    requires x in s.timers
    ensures Started(Stopped(s, x), x, timeout, repeat) == Started(s, x, timeout, repeat)
  {
  }

  /** When a timer that was just started is due: once its timeout has passed, and in any case at the last time there is. */
  lemma StartIsDue(s: State, x: nat, timeout: nat, repeat: nat, t: nat)
    requires Inv(s) && x in s.timers && s.time <= t <= MAX_TIME
    ensures Due(Started(s, x, timeout, repeat).(time := t), x) <==> t >= s.time + timeout || t == MAX_TIME
  {
  }

  // ---------------------------------------------------------------- what callbacks do

  datatype Action = StopIt(y: nat) | StartIt(y: nat, timeout: nat, repeat: nat) | AgainIt(y: nat)

  /** What the callback of each timer does to the timers. */
  type Script = nat -> seq<Action>

  function Acted(s: State, a: Action): State {
    if a.y !in s.timers then s
    else
      match a
      case StopIt(y) => Stopped(s, y)
      case StartIt(y, timeout, repeat) => if s.timers[y].closing then s else Started(s, y, timeout, repeat)
      case AgainIt(y) => if s.timers[y].callback then Repeated(s, y) else s
  }

  function ActAll(s: State, acts: seq<Action>): State {
    if acts == [] then s else Acted(ActAll(s, acts[..|acts| - 1]), acts[|acts| - 1])
  }

  /** A timer fires and its callback runs. */
  function Called(s: State, script: Script, x: nat): State {
    if x in s.timers then ActAll(Fired(s, x), script(x)) else s
  }

  function CallAll(s: State, script: Script, xs: seq<nat>): State {
    if xs == [] then s else Called(CallAll(s, script, xs[..|xs| - 1]), script, xs[|xs| - 1])
  }

  /** The action takes a timer, as it stands in `s`, out of the heap or puts it elsewhere. */
  predicate Touches(s: State, a: Action, y: nat) {
    a.y == y && (a.AgainIt? ==> y in s.timers && s.timers[y].repeat > 0)
  }

  predicate TouchedBy(s: State, acts: seq<Action>, y: nat) { exists a :: a in acts && Touches(s, a, y) }

  /** The action makes no timer due: it starts timers for later times only. */
  predicate Gentle(time: nat, a: Action) {
    match time < MAX_TIME
    case true => a.StartIt? ==> a.timeout > 0
    case false => a.StopIt?
  }

  predicate AllGentle(time: nat, acts: seq<Action>) { forall a :: a in acts ==> Gentle(time, a) }

  /** No timer becomes due while the due ones run. */
  ghost predicate Calm(s: State, script: Script) { Ends(s) && forall x :: AllGentle(s.time, script(x)) }

  lemma ActedKeeps(s: State, a: Action)
    requires Inv(s)
    ensures Inv(Acted(s, a)) && Acted(s, a).time == s.time && Acted(s, a).timers.Keys == s.timers.Keys
  {
    if a.y in s.timers {
      match a
      case StopIt(y) => StoppedKeeps(s, y);
      case StartIt(y, timeout, repeat) => if !s.timers[y].closing { StartedKeeps(s, y, timeout, repeat); }
      case AgainIt(y) => RepeatedKeeps(s, y);
    }
  }

  lemma RepeatedKeeps(s: State, x: nat)
    requires Inv(s) && x in s.timers
    ensures Inv(Repeated(s, x))
  {
    StoppedKeeps(s, x);
    if !s.timers[x].closing { StartedKeeps(s, x, s.timers[x].repeat, s.timers[x].repeat); }
  }

  /** A gentle action makes nothing due, and leaves what it does not touch as it is. */
  lemma ActedAt(s: State, t: State, a: Action, y: nat)
    requires Inv(t) && Ends(t) && Gentle(t.time, a)
    ensures Ends(Acted(t, a)) && (!Due(t, y) ==> !Due(Acted(t, a), y))
    ensures y in s.timers && y in t.timers && t.timers[y] == s.timers[y] && !Touches(s, a, y) ==> Acted(t, a).timers[y] == s.timers[y]
    ensures y in s.timers && y in t.timers && t.timers[y] == s.timers[y] && Active(t.timers, y) && Touches(s, a, y) ==> !Due(Acted(t, a), y)
  {
  }

  lemma {:induction false} ActAllKeeps(s: State, acts: seq<Action>)
    requires Inv(s)
    ensures Inv(ActAll(s, acts)) && ActAll(s, acts).time == s.time && ActAll(s, acts).timers.Keys == s.timers.Keys
  {
    if acts != [] {
      ActAllKeeps(s, acts[..|acts| - 1]);
      ActedKeeps(ActAll(s, acts[..|acts| - 1]), acts[|acts| - 1]);
    }
  }

  lemma {:induction false} ActAllQuiet(t: State, acts: seq<Action>, y: nat)
    requires Inv(t) && Ends(t) && AllGentle(t.time, acts)
    ensures Ends(ActAll(t, acts)) && (!Due(t, y) ==> !Due(ActAll(t, acts), y))
  {
    if acts != [] {
      var n := |acts| - 1;
      ActAllQuiet(t, acts[..n], y);
      ActAllKeeps(t, acts[..n]);
      assert acts[n] in acts;
      ActedAt(t, ActAll(t, acts[..n]), acts[n], y);
    }
  }

  /** A due timer is as it was, or touched and no longer due. */
  lemma {:induction false} ActAllAt(s: State, t: State, acts: seq<Action>, y: nat)
    requires Inv(t) && Ends(t) && AllGentle(t.time, acts) && y in s.timers && y in t.timers && t.timers[y] == s.timers[y] && Active(t.timers, y)
    ensures y in ActAll(t, acts).timers
    ensures TouchedBy(s, acts, y) ==> !Due(ActAll(t, acts), y)
    ensures !TouchedBy(s, acts, y) ==> ActAll(t, acts).timers[y] == s.timers[y]
  {
    ActAllKeeps(t, acts);
    if acts != [] {
      var n := |acts| - 1;
      ActAllAt(s, t, acts[..n], y);
      ActAllKeeps(t, acts[..n]);
      ActAllQuiet(t, acts[..n], y);
      assert acts == acts[..n] + [acts[n]] && acts[n] in acts;
      ActedAt(s, ActAll(t, acts[..n]), acts[n], y);
    }
  }

  lemma CalledKeeps(t: State, script: Script, x: nat)
    requires Inv(t) && Calm(t, script) && Active(t.timers, x)
    ensures Inv(Called(t, script, x)) && Calm(Called(t, script, x), script)
    ensures Called(t, script, x).time == t.time && Called(t, script, x).timers.Keys == t.timers.Keys
  {
    FiredKeeps(t, x);
    ActAllKeeps(Fired(t, x), script(x));
    ActAllQuiet(Fired(t, x), script(x), x);
  }

  /** What a firing does to each timer. */
  lemma CalledAt(s: State, t: State, script: Script, x: nat, y: nat)
    requires Inv(t) && Calm(t, script) && Active(t.timers, x)
    ensures y == x || !Due(t, y) ==> !Due(Called(t, script, x), y)
    ensures y != x && y in s.timers && Active(t.timers, y) && t.timers[y] == s.timers[y] ==>
              && y in Called(t, script, x).timers
              && (TouchedBy(s, script(x), y) ==> !Due(Called(t, script, x), y))
              && (!TouchedBy(s, script(x), y) ==> Called(t, script, x).timers[y] == s.timers[y])
  {
    FiredKeeps(t, x);
    assert !Due(Fired(t, x), x) && (y != x && !Due(t, y) ==> !Due(Fired(t, x), y));
    ActAllQuiet(Fired(t, x), script(x), y);
    if y != x && y in s.timers && Active(t.timers, y) && t.timers[y] == s.timers[y] { ActAllAt(s, Fired(t, x), script(x), y); }
  }

  // ---------------------------------------------------------------- the loop

  class Loop {
    var time: nat
    var counter: nat
    var timers: Timers
    const heap: LinkedHeap
    var calls: seq<nat>   // the timers whose callbacks have been called, in order

    ghost function Abs(): State
      reads this
    {
      State(time, counter, timers)
    }

    /** The heap holds exactly the active timers, in order. */
    ghost predicate Valid()
      reads this, heap
    {
      match Inv(Abs())
      case true => heap.Valid() && Ordered(TimerLess(timers), heap.at) && (forall x :: x in heap.pos <==> Active(timers, x))
      case false => false
    }

    constructor (time: nat)
      requires time <= MAX_TIME
      ensures Valid() && fresh(heap) && Abs() == State(time, 0, map[]) && calls == []
    {
      this.time := time;
      counter, timers, calls := 0, map[], [];
      heap := new LinkedHeap();
    }

    /** A new handle (uv_timer_init). */
    method Init(x: nat)
      requires Valid() && x !in timers
      modifies this`timers
      ensures Valid() && timers == old(timers)[x := Timer(0, 0, 0, false, false, false)]
    {
      AddedKeeps(Abs(), x);
      timers := timers[x := Timer(0, 0, 0, false, false, false)];
      OrderedSame(old(timers), timers, heap.at, heap.pos);
    }

    /** Stopping an inactive timer changes nothing. */
    method Stop(x: nat)
      requires Valid() && x in timers
      modifies this`timers, heap
      ensures Valid() && Abs() == Stopped(old(Abs()), x)
    {
      if !timers[x].active {
        assert timers[x := timers[x].(active := false)] == timers;
        return;
      }
      TimerOrders(timers);
      StoppedKeeps(Abs(), x);
      heap.Remove(x, TimerLess(timers));
      timers := timers[x := timers[x].(active := false)];
      OrderedSame(old(timers), timers, heap.at, heap.pos);
    }

    /** Start or restart a timer; a closing handle and a missing callback are refused. */
    method Start(x: nat, callback: bool, timeout: nat, repeat: nat) returns (ok: bool)
      requires Valid() && x in timers
      modifies this`timers, this`counter, heap
      ensures Valid() && ok == (!old(timers)[x].closing && callback)
      ensures Abs() == if ok then Started(old(Abs()), x, timeout, repeat) else old(Abs())
    {
      ok := !timers[x].closing && callback;
      if ok {
        Restarted(Abs(), x, timeout, repeat);
        if timers[x].active {
          Stop(x);
        }
        Enter(x, timeout, repeat);
      }
    }

    method Enter(x: nat, timeout: nat, repeat: nat)
      requires Valid() && x in timers && !timers[x].active && !timers[x].closing
      modifies this`timers, this`counter, heap
      ensures Valid() && Abs() == Started(old(Abs()), x, timeout, repeat)
    {
      StartedKeeps(Abs(), x, timeout, repeat);
      timers := timers[x := Timer(Clamped(time, timeout), counter, repeat, true, true, timers[x].closing)];
      counter := counter + 1;
      OrderedSame(old(timers), timers, heap.at, heap.pos);
      TimerOrders(timers);
      heap.Insert(x, TimerLess(timers));
    }

    /** Restart a repeating timer. */
    method Again(x: nat) returns (ok: bool)
      requires Valid() && x in timers
      modifies this`timers, this`counter, heap
      ensures Valid() && ok == old(timers)[x].callback && Abs() == if ok then Repeated(old(Abs()), x) else old(Abs())
    {
      ok := timers[x].callback;
      if ok && timers[x].repeat > 0 {
        Restarted(Abs(), x, timers[x].repeat, timers[x].repeat);
        var repeat := timers[x].repeat;
        Stop(x);
        var started := Start(x, true, repeat, repeat);
      }
    }

    method Act(a: Action)
      requires Valid()
      modifies this`timers, this`counter, heap
      ensures Valid() && Abs() == Acted(old(Abs()), a)
    {
      if a.y in timers {
        match a
        case StopIt(y) => Stop(y);
        case StartIt(y, timeout, repeat) => var started := Start(y, true, timeout, repeat);
        case AgainIt(y) => var again := Again(y);
      }
    }

    /** Fire a timer and run its callback. */
    method Fire(x: nat, script: Script)
      requires Valid() && Active(timers, x)
      modifies this, heap
      ensures Valid() && Abs() == Called(old(Abs()), script, x) && calls == old(calls) + [x]
    {
      Restart(x);
      calls := calls + [x];
      var acts := script(x);
      ghost var fired := Abs();
      for i := 0 to |acts|
        invariant Valid() && Abs() == ActAll(fired, acts[..i]) && calls == old(calls) + [x]
      {
        assert acts[..i + 1][..i] == acts[..i];
        Act(acts[i]);
      }
      assert acts[..|acts|] == acts;
    }

    method Restart(x: nat)
      requires Valid() && Active(timers, x)
      modifies this`timers, this`counter, heap
      ensures Valid() && Abs() == Fired(old(Abs()), x)
    {
      FiredRepeats(Abs(), x);
      Stop(x);
      var ok := Again(x);
    }

    /** Run the due timers and their callbacks. */
    method RunTimers(script: Script) returns (ghost ran: seq<nat>)
      requires Valid() && Calm(Abs(), script)
      modifies this, heap
      ensures Valid() && calls == old(calls) + ran && Abs() == CallAll(old(Abs()), script, ran) && InOrder(old(Abs()), ran) && time == old(time)
      ensures forall x :: x in ran <==> Due(old(Abs()), x) && !Prevented(old(Abs()), script, ran, x)
      ensures forall x :: !Due(Abs(), x)
    {
      ran := [];
      ghost var s := Abs();
      NonePicked(s, script);
      while true
        invariant Valid() && calls == old(calls) + ran && Picked(s, script, ran, Abs()) && Abs() == CallAll(s, script, ran)
        decreases s.timers.Keys - Members(ran)
      {
        var m := FirstDue();
        if m.None? {
          AllPicked(s, script, ran, Abs());
          break;
        }
        PickNext(s, script, ran, Abs(), m.value);
        RanMore(s.timers.Keys, ran, m.value);
        ran := ran + [m.value];
        Fire(m.value, script);
      }
    }

    /** One turn of the event loop: read the clock, run the due timers. The clock counts nanoseconds in 64 bits, the loop milliseconds. */
    method Turn(hrtime: nat, script: Script) returns (ghost ran: seq<nat>)
      requires Valid() && hrtime <= MAX_TIME && forall x :: AllGentle(0, script(x))
      modifies this, heap
      ensures Valid() && time == hrtime / 1_000_000 && calls == old(calls) + ran
      ensures var s := old(Abs()).(time := hrtime / 1_000_000);
              && InOrder(s, ran) && Abs() == CallAll(s, script, ran)
              && forall x :: x in ran <==> Due(s, x) && !Prevented(s, script, ran, x)
      ensures forall x :: !Due(Abs(), x)
    {
      time := hrtime / 1_000_000;
      TimeGoesOn(old(Abs()), time, script);
      ran := RunTimers(script);
    }

    method FirstDue() returns (m: Option<nat>)
      requires Valid()
      ensures m.None? ==> forall x :: !Due(Abs(), x)
      ensures m.Some? ==> Due(Abs(), m.value) && forall y :: Active(timers, y) ==> !Sooner(timers, y, m.value)
    {
      TimerOrders(timers);
      m := heap.Min(TimerLess(timers));
      if m.Some? && timers[m.value].timeout > time {
        assert forall x :: x in heap.pos ==> !TimerLess(timers)(x, m.value);
        m := None;
      }
    }

    /** How long to wait for the next timer: -1 if there is none, otherwise the time to the first one, within an `int`. */
    method NextTimeout() returns (wait: int)
      requires Valid()
      ensures wait == -1 <==> forall x :: !Active(timers, x)
      ensures wait == 0 <==> exists x :: Due(Abs(), x)
      ensures wait > 0 ==> wait == INT_MAX || exists x :: Active(timers, x) && timers[x].timeout == time + wait
      ensures wait > 0 ==> forall x :: Active(timers, x) ==> timers[x].timeout >= time + wait
    {
      TimerOrders(timers);
      var m := heap.Min(TimerLess(timers));
      if m.None? {
        return -1;
      }
      var first := timers[m.value].timeout;
      assert Active(timers, m.value);
      if first <= time {
        assert Due(Abs(), m.value);
        return 0;
      }
      wait := if first - time > INT_MAX then INT_MAX else first - time;
    }
  }

  // ---------------------------------------------------------------- one run over the due timers

  ghost function Members(xs: seq<nat>): set<nat> { set x | x in xs }

  lemma RanMore(all: set<nat>, xs: seq<nat>, x: nat)
    requires x in all && x !in xs
    ensures all - Members(xs + [x]) < all - Members(xs)
  {
    assert x in all - Members(xs) && x in Members(xs + [x]);
  }

  /** Timers that were due, none twice, by due time and then by start order. */
  ghost predicate InOrder(s: State, xs: seq<nat>) {
    match Distinct(xs)
    case true => (forall x :: x in xs ==> Due(s, x)) && forall i, j :: 0 <= i < j < |xs| ==> Sooner(s.timers, xs[i], xs[j])
    case false => false
  }

  /** The callback of a timer that came before stopped the timer or started it anew. */
  ghost predicate Prevented(s: State, script: Script, xs: seq<nat>, y: nat) {
    exists x :: x in xs && Sooner(s.timers, x, y) && TouchedBy(s, script(x), y)
  }

  /** Still in its place, behind all that ran. */
  ghost predicate Waits(s: State, script: Script, xs: seq<nat>, t: State, y: nat) {
    && y in s.timers && y in t.timers && t.timers[y] == s.timers[y]
    && forall x :: x in xs ==> Sooner(s.timers, x, y) && !TouchedBy(s, script(x), y)
  }

  /** What has become of a timer after `xs` ran, in state `t`. */
  ghost predicate Fate(s: State, script: Script, xs: seq<nat>, t: State, y: nat) {
    if y in xs then !Due(t, y) && !Prevented(s, script, xs, y)
    else if Due(s, y) then Waits(s, script, xs, t, y) || (!Due(t, y) && Prevented(s, script, xs, y))
    else !Due(t, y)
  }

  /** The run so far. */
  ghost predicate Picked(s: State, script: Script, xs: seq<nat>, t: State) {
    match InOrder(s, xs)
    case true => Inv(t) && Calm(t, script) && t.time == s.time && t.timers.Keys == s.timers.Keys && forall y :: Fate(s, script, xs, t, y)
    case false => false
  }

  /** The run ends: a timer that repeats is not due again. */
  ghost predicate Ends(s: State) {
    match s.time < MAX_TIME
    case true => true
    case false => forall x :: Active(s.timers, x) ==> s.timers[x].repeat == 0
  }

  lemma PickNext(s: State, script: Script, xs: seq<nat>, t: State, m: nat)
    requires Inv(s) && Picked(s, script, xs, t) && Due(t, m) && forall y :: Active(t.timers, y) ==> !Sooner(t.timers, y, m)
    ensures m !in xs && m in s.timers && Picked(s, script, xs + [m], Called(t, script, m))
  {
    assert Fate(s, script, xs, t, m);
    var t' := Called(t, script, m);
    OneMoreInOrder(s, xs, m);
    CalledKeeps(t, script, m);
    forall y ensures Fate(s, script, xs + [m], t', y) {
      assert Fate(s, script, xs, t, y);
      CalledAt(s, t, script, m, y);
      NextFate(s, script, xs, t, t', m, y);
    }
  }

  lemma OneMoreInOrder(s: State, xs: seq<nat>, m: nat)
    requires InOrder(s, xs) && m !in xs && Due(s, m) && forall x :: x in xs ==> Sooner(s.timers, x, m)
    ensures InOrder(s, xs + [m])
  {
    AppendDistinct(xs, m);
  }

  lemma NextFate(s: State, script: Script, xs: seq<nat>, t: State, t': State, m: nat, y: nat)
    requires Inv(s) && InOrder(s, xs) && m !in xs && Due(s, m) && Waits(s, script, xs, t, m) && Fate(s, script, xs, t, y)
    requires forall y :: Active(t.timers, y) ==> !Sooner(t.timers, y, m)
    requires t'.timers.Keys == t.timers.Keys && (y == m || !Due(t, y) ==> !Due(t', y))
    requires y != m && y in s.timers && Active(t.timers, y) && t.timers[y] == s.timers[y] ==>
               && (TouchedBy(s, script(m), y) ==> !Due(t', y)) && (!TouchedBy(s, script(m), y) ==> t'.timers[y] == s.timers[y])
    ensures Fate(s, script, xs + [m], t', y)
  {
    assert Apart(s.timers, m, y);
  }

  lemma AllPicked(s: State, script: Script, xs: seq<nat>, t: State)
    requires Picked(s, script, xs, t) && forall x :: !Due(t, x)
    ensures forall x :: x in xs <==> Due(s, x) && !Prevented(s, script, xs, x)
  {
    forall x ensures x in xs <==> Due(s, x) && !Prevented(s, script, xs, x) {
      assert Fate(s, script, xs, t, x) && !Due(t, x);
    }
  }

  lemma NonePicked(s: State, script: Script)
    requires Inv(s) && Calm(s, script)
    ensures Picked(s, script, [], s)
  {
  }

  /** The largest time that the clock gives is far below the largest number. */
  lemma TimeGoesOn(s: State, time: nat, script: Script)
    requires Inv(s) && time <= MAX_TIME / 1_000_000 && forall x :: AllGentle(0, script(x))
    ensures Inv(s.(time := time)) && Calm(s.(time := time), script)
  {
    var s' := s.(time := time);
    forall x, y ensures Apart(s'.timers, x, y) { assert Apart(s.timers, x, y); }
    forall x ensures AllGentle(time, script(x)) { assert AllGentle(0, script(x)); }
  }

  // ---------------------------------------------------------------- when a run does not end

  /** No active timer comes before. */
  ghost predicate First(s: State, x: nat) { Due(s, x) && forall y :: Active(s.timers, y) ==> !Sooner(s.timers, y, x) }

  /** Each state follows from the one before when the first timer fires. */
  ghost predicate Firings(states: seq<State>, xs: seq<nat>) {
    |states| == |xs| + 1 && forall i :: 0 <= i < |xs| ==> First(states[i], xs[i]) && states[i + 1] == Fired(states[i], xs[i])
  }

  lemma {:induction false} Soonest(ts: Timers, all: set<nat>) returns (m: nat)
    requires all != {}
    ensures m in all && forall y :: y in all ==> !Sooner(ts, y, m)
  {
    m :| m in all;
    var others := all - {m};
    if others != {} {
      var k := Soonest(ts, others);
      assert forall y :: y in all ==> y == m || y in others;
      if Sooner(ts, k, m) { m := k; }
    } else {
      assert forall y :: y in all ==> y == m by {
        forall y | y in all ensures y == m { assert y !in others; }
      }
    }
  }

  lemma StaysDue(s: State, x: nat)
    requires Inv(s) && !Ends(s) && Due(s, x)
    ensures Inv(Fired(s, x)) && !Ends(Fired(s, x))
  {
    FiredKeeps(s, x);
    var y :| Active(s.timers, y) && s.timers[y].repeat != 0;
    assert Active(Fired(s, x).timers, y) && Fired(s, x).timers[y].repeat != 0;
  }

  lemma SomeIsFirst(s: State) returns (x: nat)
    requires Inv(s) && !Ends(s)
    ensures First(s, x)
  {
    var y :| Active(s.timers, y) && s.timers[y].repeat != 0;
    var active := set z | z in s.timers && Active(s.timers, z);
    assert y in active;
    x := Soonest(s.timers, active);
  }

  /** The condition `Ends` is exact. Without it the run goes on however many timers have fired: at the last representable time a timer
      that repeats is due again at once. */
  lemma {:induction false} NeverEnds(s: State, n: nat) returns (states: seq<State>, xs: seq<nat>)
    requires Inv(s) && !Ends(s)
    ensures |xs| == n && Firings(states, xs) && states[0] == s && Inv(states[n]) && !Ends(states[n]) && exists x :: First(states[n], x)
  {
    if n == 0 {
      states, xs := [s], [];
      var x := SomeIsFirst(s);
    } else {
      states, xs := NeverEnds(s, n - 1);
      var x :| First(states[n - 1], x);
      StaysDue(states[n - 1], x);
      states, xs := states + [Fired(states[n - 1], x)], xs + [x];
      var y := SomeIsFirst(states[n]);
    }
  }

  /** Such a state: one timer that repeats, at the last time. */
  const LAST: State := State(MAX_TIME, 1, map[0 := Timer(MAX_TIME, 0, 1, true, true, false)])

  lemma LastTimeNeverEnds(n: nat) returns (states: seq<State>, xs: seq<nat>)
    ensures Inv(LAST) && !Ends(LAST) && |xs| == n && Firings(states, xs) && states[0] == LAST && exists x :: First(states[n], x)
  {
    assert Active(LAST.timers, 0);
    states, xs := NeverEnds(LAST, n);
  }

  /** Nor does it end if a callback starts its own timer with a timeout of zero. */
  lemma BusyCallback(s: State, script: Script, x: nat, repeat: nat)
    requires Inv(s) && Due(s, x) && script(x) == [StartIt(x, 0, repeat)]
    ensures Inv(Called(s, script, x)) && Due(Called(s, script, x), x)
  {
    FiredKeeps(s, x);
    assert script(x)[..0] == [];
    assert ActAll(Fired(s, x), []) == Fired(s, x);
    ActedKeeps(Fired(s, x), StartIt(x, 0, repeat));
  }
}
