/** The time-slot barrier (timer.c) between one timer thread and any number of devices.  Each critical
    section under event_lock or timer_lock is one step.  A condition wait is three: the test that sends
    the thread to sleep, which releases the lock, the signal that rouses it, and the test it makes then.
    A signal that finds nobody asleep has no effect, and a sleeper may rouse without a signal. */
module Timer {
  /** Where a device thread is: doing the work of its slot; in next_slot, about to test its flag; asleep
      there; or past detach_event. */
  datatype Phase = Working | Testing | Sleeping | Detached

  /** `done` and `fsh` are the shared flags; `slot` counts the slots the device has been let into. */
  datatype Device = Device(phase: Phase, done: bool, fsh: bool, slot: nat)

  /** Where the timer thread is, with its local counters fsh and event: at the loop head; about to look
      at the device behind the first k; asleep there; about to release that device; out of the loop. */
  datatype TimerPc =
    | Top
    | Scan(k: nat, fsh: nat, event: nat)
    | Asleep(k: nat, fsh: nat, event: nat)
    | Release(k: nat, fsh: nat, event: nat)
    | Stopped

  /** `devs` in the order of attachment.  Each attach_event puts its device at the head of the list, so
      the timer meets the last one first. */
  datatype State = State(time: nat, devs: seq<Device>, timer: TimerPc, stop: bool)

  /** The device the timer is at when k of them lie behind it. */
  function Next(s: State, k: nat): nat
    requires k < |s.devs|
  {
    |s.devs| - 1 - k
  }

  /** Whether device i is one of the first k the timer meets. */
  predicate Met(s: State, i: nat, k: nat) { |s.devs| - k <= i }

  /** Rouse and RouseTimer are wake-ups without a signal. */
  datatype Step =
    | Signal(i: nat)
    | Test(i: nat)
    | Detach(i: nat)
    | TimerStep
    | StopTimer
    | Rouse(i: nat)
    | RouseTimer

  function Start(n: nat): State {
    State(0, seq(n, _ => Device(Working, false, false, 0)), Top, false)
  }

  predicate TimerCanMove(s: State) { !s.timer.Asleep? && s.timer != Stopped }

  predicate AllDetached(s: State) { forall i :: 0 <= i < |s.devs| ==> s.devs[i].phase == Detached }

  /** A device thread may signal or detach while it works; the timer is stopped after all threads have
      been joined. */
  predicate Enabled(s: State, step: Step) {
    match step
    case Signal(i) => i < |s.devs| && s.devs[i].phase == Working
    case Test(i) => i < |s.devs| && s.devs[i].phase == Testing
    case Detach(i) => i < |s.devs| && s.devs[i].phase == Working
    case TimerStep => TimerCanMove(s)
    case StopTimer => AllDetached(s)
    case Rouse(i) => i < |s.devs| && s.devs[i].phase == Sleeping
    case RouseTimer => s.timer.Asleep?
  }

  /** pthread_cond_signal on the event_cond of device i */
  function SignalEvent(s: State, i: nat): TimerPc {
    match s.timer
    case Asleep(k, fsh, event) => if k < |s.devs| && Next(s, k) == i then Scan(k, fsh, event) else s.timer
    case _ => s.timer
  }

  /** Clearing the flag of a device and pthread_cond_signal on its timer_cond */
  function Let(d: Device): Device {
    d.(done := false, phase := if d.phase == Sleeping then Testing else d.phase)
  }

  function MoveTimer(s: State): State
    requires TimerCanMove(s)
  {
    match s.timer
    case Top => s.(timer := if s.stop then Stopped else Scan(0, 0, 0))
    case Scan(k, fsh, event) =>
      if k < |s.devs| then
        var d := s.devs[Next(s, k)];
        s.(timer := if !d.done && !d.fsh then Asleep(k, fsh, event) else Scan(k + 1, if d.fsh then fsh + 1 else fsh, event + 1))
      else s.(time := s.time + 1, timer := Release(0, fsh, event))
    case Release(k, fsh, event) =>
      if k < |s.devs| then
        var i := Next(s, k);
        s.(devs := s.devs[i := Let(s.devs[i])], timer := Release(k + 1, fsh, event))
      else s.(timer := if fsh == event then Stopped else Top)
  }

  function Do(s: State, step: Step): State
    requires Enabled(s, step)
  {
    match step
    case Signal(i) => s.(devs := s.devs[i := s.devs[i].(phase := Testing, done := true)], timer := SignalEvent(s, i))
    case Test(i) =>
      var d := s.devs[i];
      s.(devs := s.devs[i := if d.done then d.(phase := Sleeping) else d.(phase := Working, slot := d.slot + 1)])
    case Detach(i) => s.(devs := s.devs[i := s.devs[i].(phase := Detached, fsh := true)], timer := SignalEvent(s, i))
    case TimerStep => MoveTimer(s)
    case StopTimer => s.(stop := true)
    case Rouse(i) => s.(devs := s.devs[i := s.devs[i].(phase := Testing)])
    case RouseTimer => s.(timer := Scan(s.timer.k, s.timer.fsh, s.timer.event))
  }

  // ---------------------------------------------------------------- invariant

  /** In next_slot */
  predicate Waiting(d: Device) { d.phase == Testing || d.phase == Sleeping }

  /** A device whose flag is still to be cleared in this pass. */
  predicate Held(d: Device, time: nat) { Waiting(d) && d.done && d.slot + 1 == time }

  /** A device of the current slot: working, done with it, or let in but not yet through its test. */
  predicate Current(d: Device, time: nat) {
    match d.phase
    case Working => !d.done && d.slot == time
    case Detached => d.slot <= time
    case _ => if d.done then d.slot == time else d.slot + 1 == time
  }

  /** What the timer knows about the devices it has met in a scan. */
  predicate Scanned(s: State, d: Device, i: nat, k: nat, fsh: nat) {
    && Current(d, s.time)
    && (Met(s, i, k) ==> d.done || d.phase == Detached)
    && (Met(s, i, k) && fsh == k ==> d.phase == Detached)
  }

  predicate DeviceOk(s: State, i: nat)
    requires i < |s.devs|
  {
    var d := s.devs[i];
    && (d.fsh <==> d.phase == Detached)
    && (d.phase == Detached ==> !d.done)
    && (d.phase == Sleeping ==> d.done)
    && match s.timer
       case Top => Current(d, s.time)
       case Stopped => d.phase == Detached && d.slot <= s.time
       case Scan(k, fsh, _) => Scanned(s, d, i, k, fsh)
       case Asleep(k, fsh, _) => Scanned(s, d, i, k, fsh) && (k < |s.devs| && i == Next(s, k) ==> !d.done && !d.fsh)
       case Release(k, fsh, _) =>
         && (if Met(s, i, k) then Current(d, s.time) else Held(d, s.time) || (d.phase == Detached && d.slot <= s.time))
         && (fsh == |s.devs| ==> d.phase == Detached)
  }

  ghost predicate Ok(s: State) {
    && (forall i :: 0 <= i < |s.devs| ==> DeviceOk(s, i))
    && (s.stop ==> AllDetached(s))
    && match s.timer
       case Scan(k, fsh, event) => fsh <= event == k <= |s.devs|
       case Asleep(k, fsh, event) => fsh <= event == k < |s.devs|
       case Release(k, fsh, event) => k <= |s.devs| && fsh <= event == |s.devs|
       case _ => true
  }

  lemma StartIsOk(n: nat)
    ensures Ok(Start(n))
  {
  }

  lemma DoKeepsOk(s: State, step: Step)
    requires Ok(s) && Enabled(s, step)
    ensures Ok(Do(s, step)) && |Do(s, step).devs| == |s.devs|
  {
    var s' := Do(s, step);
    forall i | 0 <= i < |s.devs| ensures DeviceOk(s', i) {
      DeviceStaysOk(s, step, i);
    }
  }

  lemma DeviceStaysOk(s: State, step: Step, i: nat)
    requires Ok(s) && Enabled(s, step) && i < |s.devs|
    ensures |Do(s, step).devs| == |s.devs| && DeviceOk(Do(s, step), i)
  {
    if step == TimerStep {
      TimerMovePreserves(s, i);
    } else if step == StopTimer || step == RouseTimer {
      assert DeviceOk(s, i);
    } else {
      ThreadStepPreserves(s, step, i);
    }
  }

  lemma ThreadStepPreserves(s: State, step: Step, i: nat)
    requires Ok(s) && Enabled(s, step) && i < |s.devs|
    requires step.Signal? || step.Test? || step.Detach? || step.Rouse?
    ensures |Do(s, step).devs| == |s.devs| && DeviceOk(Do(s, step), i)
  {
    assert DeviceOk(s, i);
  }

  lemma TimerMovePreserves(s: State, i: nat)
    requires Ok(s) && TimerCanMove(s) && i < |s.devs|
    ensures |MoveTimer(s).devs| == |s.devs| && DeviceOk(MoveTimer(s), i)
  {
    assert DeviceOk(s, i);
    match s.timer {
      case Scan(k, fsh, event) =>
        if k < |s.devs| {
          assert DeviceOk(s, Next(s, k));
          ScanGoesOn(s, i);
        }
      case Release(k, _, _) =>
      case _ =>
    }
  }

  /** The timer looks at one more device. */
  lemma ScanGoesOn(s: State, i: nat)
    requires s.timer.Scan? && s.timer.k < |s.devs| && i < |s.devs|
    requires DeviceOk(s, i) && DeviceOk(s, Next(s, s.timer.k)) && s.timer.fsh <= s.timer.k
    ensures DeviceOk(MoveTimer(s), i)
  {
  }

  predicate Possible(s: State, steps: seq<Step>)
    decreases |steps|
  {
    steps == [] || (Enabled(s, steps[0]) && Possible(Do(s, steps[0]), steps[1..]))
  }

  function Run(s: State, steps: seq<Step>): State
    requires Possible(s, steps)
    decreases |steps|
  {
    if steps == [] then s else Run(Do(s, steps[0]), steps[1..])
  }

  lemma {:induction false} RunKeepsOk(s: State, steps: seq<Step>)
    requires Ok(s) && Possible(s, steps)
    ensures Ok(Run(s, steps)) && |Run(s, steps).devs| == |s.devs|
    decreases |steps|
  {
    hide Ok, Enabled, Do;
    if steps != [] {
      DoKeepsOk(s, steps[0]);
      RunKeepsOk(Do(s, steps[0]), steps[1..]);
    }
  }

  // ---------------------------------------------------------------- what the barrier promises

  /** Slots whose work the device has finished. */
  function FinishedSlots(d: Device): nat { if Waiting(d) then d.slot + 1 else d.slot }

  lemma SlotsStraddleTime(s: State, i: nat)
    requires Ok(s) && i < |s.devs|
    ensures s.devs[i].slot <= s.time
    ensures s.devs[i].phase != Detached ==> s.time <= FinishedSlots(s.devs[i])
    ensures s.devs[i].phase == Working ==> s.devs[i].slot == s.time
  {
    assert DeviceOk(s, i);
  }

  /** Safety, for any number of devices and any interleaving: no device is in a slot before every other
      device has finished the slot before it or has detached, and attached devices are never more than
      one slot apart. */
  lemma BarrierIsSafe(n: nat, steps: seq<Step>, i: nat, j: nat)
    requires Possible(Start(n), steps) && i < n && j < n
    ensures var s := Run(Start(n), steps);
            && |s.devs| == n
            && (s.devs[j].phase != Detached ==> s.devs[i].slot <= FinishedSlots(s.devs[j]))
            && (s.devs[i].phase != Detached && s.devs[j].phase != Detached ==>
                  s.devs[i].slot <= s.devs[j].slot + 1 && s.devs[j].slot <= s.devs[i].slot + 1)
  {
    StartIsOk(n);
    RunKeepsOk(Start(n), steps);
    var s := Run(Start(n), steps);
    SlotsStraddleTime(s, i);
    SlotsStraddleTime(s, j);
  }

  /** Some thread has a step that needs no wake-up without a signal. */
  ghost predicate SomebodyCanMove(s: State) {
    TimerCanMove(s) || exists i: nat :: Enabled(s, Signal(i)) || Enabled(s, Test(i))
  }

  /** No wake-up is lost, in any reachable state: nobody sleeps on a condition that has come true, that is
      a device sleeps only while its flag is set and the timer only while neither flag of its device is;
      and while a device is attached, the timer has not left its loop and some thread is awake with a
      step to make. */
  lemma NoLostWakeup(n: nat, steps: seq<Step>)
    requires Possible(Start(n), steps)
    ensures var s := Run(Start(n), steps);
            && |s.devs| == n
            && (forall i :: 0 <= i < n && s.devs[i].phase == Sleeping ==> s.devs[i].done)
            && (s.timer.Asleep? ==> s.timer.k < n && !s.devs[Next(s, s.timer.k)].done && !s.devs[Next(s, s.timer.k)].fsh)
            && (!AllDetached(s) ==> s.timer != Stopped && SomebodyCanMove(s))
  {
    StartIsOk(n);
    RunKeepsOk(Start(n), steps);
    var s := Run(Start(n), steps);
    forall i | 0 <= i < n && s.devs[i].phase == Sleeping ensures s.devs[i].done {
      assert DeviceOk(s, i);
    }
    if s.timer.Asleep? {
      var k := Next(s, s.timer.k);
      assert DeviceOk(s, k);
      assert Enabled(s, Signal(k)) || Enabled(s, Test(k));
    }
    if !AllDetached(s) {
      var d :| 0 <= d < |s.devs| && s.devs[d].phase != Detached;
      assert DeviceOk(s, d);
    }
  }

  /** A device that has finished its slot and whose flag this release pass, if one is on, has passed. */
  predicate Again(s: State) {
    exists i :: 0 <= i < |s.devs| && Waiting(s.devs[i]) && s.devs[i].done && (s.timer.Release? ==> Met(s, i, s.timer.k))
  }

  /** An upper bound for the timer's moves while no device works. */
  function MovesLeft(s: State): nat
    requires Ok(s)
  {
    var n := |s.devs|;
    (if Again(s) then 2 * n + 4 else 0) +
    match s.timer
    case Release(k, _, _) => (n - k) + n + 3
    case Top => n + 2
    case Scan(k, _, _) => n - k + 1
    case _ => 0
  }

  /** The timer cannot turn without letting anybody in: as long as every attached device is in next_slot,
      each of its moves brings it closer to the point where it sleeps, and there a device has been let in
      or is still to test its flag. */
  lemma TimerCannotSpin(s: State)
    requires Ok(s) && TimerCanMove(s) && !AllDetached(s)
    requires forall i :: 0 <= i < |s.devs| ==> s.devs[i].phase != Working
    ensures Ok(MoveTimer(s)) && MovesLeft(MoveTimer(s)) < MovesLeft(s) <= 4 * |s.devs| + 7
  {
    DoKeepsOk(s, TimerStep);
    var s' := MoveTimer(s);
    var d :| 0 <= d < |s.devs| && s.devs[d].phase != Detached;
    assert DeviceOk(s, d);
    AgainStays(s);
    if s.timer.Scan? && s.timer.k == |s.devs| {
      assert Waiting(s.devs[d]) && s.devs[d].done;
    }
  }

  lemma AgainStays(s: State)
    requires Ok(s) && TimerCanMove(s)
    ensures Again(MoveTimer(s)) ==> Again(s)
  {
    var s' := MoveTimer(s);
    if Again(s') {
      var i :| 0 <= i < |s'.devs| && Waiting(s'.devs[i]) && s'.devs[i].done && (s'.timer.Release? ==> Met(s', i, s'.timer.k));
      assert DeviceOk(s, i);
    }
  }

  // ---------------------------------------------------------------- the end of the timer

  /** How many moves the timer still makes once every device is detached: to the end of this pass, and one
      whole pass more if this one has met a device before it detached. */
  function StopsIn(s: State): nat
    requires Ok(s)
  {
    var n := |s.devs|;
    var pass := if s.stop then 1 else 2 * n + 3;
    match s.timer
    case Top => pass
    case Scan(k, fsh, event) => 2 * n - k + 2 + (if fsh == event then 0 else pass)
    case Asleep(k, fsh, event) => 2 * n - k + 2 + (if fsh == event then 0 else pass)
    case Release(k, fsh, event) => n - k + 1 + (if fsh == event then 0 else pass)
    case Stopped => 0
  }

  lemma SomebodyIsAwaited(s: State)
    requires Ok(s) && s.timer.Asleep?
    ensures s.timer.k < |s.devs| && var d := s.devs[Next(s, s.timer.k)]; !d.done && !d.fsh
    ensures !AllDetached(s)
  {
    assert DeviceOk(s, Next(s, s.timer.k));
  }

  lemma OneMoveLess(s: State)
    requires Ok(s) && AllDetached(s) && s.timer != Stopped
    ensures TimerCanMove(s)
    ensures var s' := MoveTimer(s);
            && Ok(s') && AllDetached(s') && s'.stop == s.stop && |s'.devs| == |s.devs| && StopsIn(s') == StopsIn(s) - 1
            && s'.time == s.time + (if s.timer.Scan? && s.timer.k == |s.devs| then 1 else 0)
  {
    if s.timer.Asleep? {
      SomebodyIsAwaited(s);
    }
    DoKeepsOk(s, TimerStep);
    if s.timer.Scan? && s.timer.k < |s.devs| {
      assert DeviceOk(s, Next(s, s.timer.k));
    }
  }

  function Moves(n: nat): (steps: seq<Step>) { seq(n, _ => TimerStep) }

  /** The timer leaves its loop by itself: once every device is detached, in whatever pass that finds it, it
      stops after just StopsIn of its own moves, whether or not stop_timer is called. */
  lemma {:induction false} TimerStops(s: State)
    requires Ok(s) && AllDetached(s)
    ensures StopsIn(s) <= 4 * |s.devs| + 5 && Possible(s, Moves(StopsIn(s)))
    ensures var s' := Run(s, Moves(StopsIn(s)));
            s'.timer == Stopped && s'.stop == s.stop && AllDetached(s') && |s'.devs| == |s.devs|
    ensures forall m :: 0 <= m < StopsIn(s) ==> Possible(s, Moves(m)) && Run(s, Moves(m)).timer != Stopped
    decreases StopsIn(s)
  {
    if s.timer != Stopped {
      OneMoveLess(s);
      var s' := MoveTimer(s);
      TimerStops(s');
      hide Ok, MoveTimer, StopsIn, AllDetached;
      MovesSplit(StopsIn(s));
      forall m | 0 <= m < StopsIn(s) ensures Possible(s, Moves(m)) && Run(s, Moves(m)).timer != Stopped {
        if m > 0 {
          MovesSplit(m);
        }
      }
    }
  }

  /** stop_timer, called once all threads are gone, makes the timer stop at the next head of its loop. */
  lemma StopTimerStops(s: State)
    requires Ok(s) && AllDetached(s)
    ensures Enabled(s, StopTimer)
    ensures var s' := Do(s, StopTimer);
            && Ok(s') && AllDetached(s') && s'.timer == s.timer && s'.time == s.time && s'.devs == s.devs
            && StopsIn(s') <= StopsIn(s) && (s.timer == Top ==> MoveTimer(s').timer == Stopped)
  {
    DoKeepsOk(s, StopTimer);
  }

  lemma MovesSplit(m: nat)
    requires m > 0
    ensures |Moves(m)| == m && Moves(m)[0] == TimerStep && Moves(m)[1..] == Moves(m - 1)
  {
  }
}
