/** One CPU and one process of one instruction: an interleaving in which the CPU stops, and one in which
    it never does. */
module SampleRuns {
  import opened Queue
  import opened Os
  import opened Idle

  function Sample(): Config { Config(1, 1, [Program(0, 1, 0)]) }

  ghost predicate Arrives(s: State) {
    Inv(Sample(), s) &&
    exists steps: seq<Step> :: Possible(Sample(), Boot(Sample()), steps) && Run(Sample(), Boot(Sample()), steps) == s
  }

  lemma {:induction false} RunSnoc(c: Config, s: State, steps: seq<Step>, step: Step)
    requires Possible(c, s, steps) && Shaped(c, Run(c, s, steps)) && Enabled(Run(c, s, steps), step)
    ensures Possible(c, s, steps + [step]) && Run(c, s, steps + [step]) == Do(c, Run(c, s, steps), step)
    decreases |steps|
  {
    hide Shaped, Enabled, Do;
    var all := steps + [step];
    if steps == [] {
      assert all[0] == step && all[1..] == [];
    } else {
      RunSnoc(c, Do(c, s, steps[0]), steps[1..], step);
      assert all[0] == steps[0] && all[1..] == steps[1..] + [step];
    }
  }

  lemma Goes(s: State, step: Step)
    requires Arrives(s) && Enabled(s, step)
    ensures Shaped(Sample(), s) && Arrives(Do(Sample(), s, step))
  {
    hide Inv, Enabled, Do, Boot;
    var c := Sample();
    LoaderFacts(c, s);
    StepKeeps(c, s, step);
    var steps: seq<Step> :| Possible(c, Boot(c), steps) && Run(c, Boot(c), steps) == s;
    RunSnoc(c, Boot(c), steps, step);
  }

  /** Equality of states, field by field */
  predicate Same(s: State, t: State) {
    && s.bar.time == t.bar.time && s.bar.devs == t.bar.devs && s.bar.timer == t.bar.timer && s.bar.stop == t.bar.stop
    && s.cpus == t.cpus && s.loader == t.loader && s.done == t.done && s.mlq == t.mlq
    && s.pc == t.pc && s.place == t.place && s.ran == t.ran && s.burst == t.burst
  }

  lemma GoesTo(s: State, step: Step, t: State)
    requires Arrives(s) && Enabled(s, step)
    requires Shaped(Sample(), s) ==> Same(Do(Sample(), s, step), t)
    ensures Arrives(t)
  {
    hide Arrives, Enabled, Do, Shaped;
    Goes(s, step);
  }

  // ---------------------------------------------------------------- snapshots

  /** The barrier with device 0, the CPU's, and device 1, the loader's */
  function Bar(time: nat, cpu: T.Device, loader: T.Device, timer: T.TimerPc): T.State {
    T.State(time, [cpu, loader], timer, false)
  }

  function Busy(slot: nat): T.Device { T.Device(T.Working, false, false, slot) }

  function Through(slot: nat): T.Device { T.Device(T.Testing, true, false, slot) }

  function LetIn(slot: nat): T.Device { T.Device(T.Testing, false, false, slot) }

  /** Queues with the process on level 0 or nowhere, and its level charged for a dispatch or not */
  function Levels(waiting: bool, charged: bool): M.State {
    M.State(M.Start().ready[0 := if waiting then [Proc(0, 0)] else []],
            M.Start().slot[0 := if charged then M.MAX_PRIO - 1 else M.MAX_PRIO])
  }

  /** The whole system, `ran` telling whether the instruction has been executed */
  function Snap(bar: T.State, cpu: Cpu, loader: Loader, done: bool, mlq: M.State, place: Place, ran: bool): State {
    State(bar, [cpu], loader, done, mlq, [if ran then 1 else 0], [place], [if ran then [0] else []], [if ran then 1 else 0])
  }

  lemma BootArrives()
    ensures Arrives(Snap(Bar(0, Busy(0), Busy(0), T.Top), Head(Nobody, 0), AtHead(0), false, Levels(false, false), Unloaded, false))
  {
    var c := Sample();
    var s := Snap(Bar(0, Busy(0), Busy(0), T.Top), Head(Nobody, 0), AtHead(0), false, Levels(false, false), Unloaded, false);
    assert Boot(c) == s by {
      assert T.Start(2).devs == [Busy(0), Busy(0)];
      assert Levels(false, false) == M.Start();
    }
    BootInv(c);
    assert Possible(c, Boot(c), []) && Run(c, Boot(c), []) == s;
  }

  lemma PutAddsIt()
    ensures M.Ok(Levels(false, false)) && M.Shaped(Levels(false, false))
    ensures M.Put(Levels(false, false), Proc(0, 0)) == Levels(true, false)
  {
    assert [] + [Proc(0, 0)] == [Proc(0, 0)];
    assert M.Put(Levels(false, false), Proc(0, 0)).ready == Levels(true, false).ready;
  }

  /** The loader adds the process. */
  lemma Add()
    ensures Arrives(Snap(Bar(0, Busy(0), Busy(0), T.Top), Head(Nobody, 0), Pausing(1), false, Levels(true, false), Queued, false))
  {
    BootArrives();
    hide Arrives, Inv;
    var s := Snap(Bar(0, Busy(0), Busy(0), T.Top), Head(Nobody, 0), AtHead(0), false, Levels(false, false), Unloaded, false);
    PutAddsIt();
    hide M.Ok, M.Put, Levels;
    GoesTo(s, LoaderStep,
           Snap(Bar(0, Busy(0), Busy(0), T.Top), Head(Nobody, 0), Pausing(1), false, Levels(true, false), Queued, false));
  }

  lemma GetTakesTheOne()
    ensures M.Ok(Levels(true, false)) && M.Shaped(Levels(true, false))
    ensures M.Get(Levels(true, false)) == (Proc(0, 0), Levels(false, true))
  {
    var q := Levels(true, false);
    M.GetIsWorkConserving(q);
    var (p, q') := M.Get(q);
    assert q.ready[0] in q.ready;
    assert p.Proc?;
    assert forall i :: 0 < i < M.MAX_PRIO ==> q.ready[i] == [];
    assert M.Ready(q, 0) && q.slot[0] == M.MAX_PRIO;
    assert p.prio == 0 && p == Proc(0, 0);
    hide M.Get;
    assert q'.ready == Levels(false, true).ready && q'.slot == Levels(false, true).slot;
  }

  lemma GetFindsNone()
    ensures M.Ok(Levels(false, true)) && M.Shaped(Levels(false, true))
    ensures M.Get(Levels(false, true)) == (NULL, Levels(false, true))
  {
    var q := Levels(false, true);
    assert forall i :: 0 <= i < M.MAX_PRIO ==> q.ready[i] == [];
    M.GetIsWorkConserving(q);
  }

  /** The CPU fetches it and is about to run. */
  lemma Dispatch()
    ensures Arrives(Snap(Bar(0, Busy(0), Busy(0), T.Top), Running(0, 1), Pausing(1), false, Levels(false, true), OnCpu(0), false))
  {
    Add();
    hide Arrives, Inv;
    var s := Snap(Bar(0, Busy(0), Busy(0), T.Top), Head(Nobody, 0), Pausing(1), false, Levels(true, false), Queued, false);
    GetTakesTheOne();
    hide M.Ok, M.Get, Levels;
    GoesTo(s, CpuStep(0),
           Snap(Bar(0, Busy(0), Busy(0), T.Top), Running(0, 1), Pausing(1), false, Levels(false, true), OnCpu(0), false));
  }

  /** It runs the instruction, which takes it four steps. */
  lemma ReadOne()
    ensures Arrives(Snap(Bar(0, Busy(0), Busy(0), T.Top), Reading(0, 1, 0), Pausing(1), false, Levels(false, true), OnCpu(0), false))
  {
    Dispatch();
    hide Arrives, Inv, Levels;
    var bar, q := Bar(0, Busy(0), Busy(0), T.Top), Levels(false, true);
    var s1 := Snap(bar, Running(0, 1), Pausing(1), false, q, OnCpu(0), false);
    var s2 := s1.(cpus := [Decoding(0, 1)]);
    GoesTo(s1, CpuStep(0), s2);
    GoesTo(s2, CpuStep(0), s1.(cpus := [Reading(0, 1, 0)]));
  }

  lemma RunOne()
    ensures Arrives(Snap(Bar(0, Busy(0), Busy(0), T.Top), Leaving(Pid(0), 0), Pausing(1), false, Levels(false, true), OnCpu(0), true))
  {
    ReadOne();
    hide Arrives, Inv, Levels;
    var bar, q := Bar(0, Busy(0), Busy(0), T.Top), Levels(false, true);
    var s3 := Snap(bar, Reading(0, 1, 0), Pausing(1), false, q, OnCpu(0), false);
    var s4 := s3.(cpus := [Storing(0, 1, 0, 0)]);
    GoesTo(s3, CpuStep(0), s4);
    assert [] + [0] == [0];
    GoesTo(s4, CpuStep(0), Snap(bar, Leaving(Pid(0), 0), Pausing(1), false, q, OnCpu(0), true));
  }

  /** Both threads finish the slot. */
  lemma BothThrough()
    ensures Arrives(Snap(Bar(0, Through(0), Through(0), T.Top), Asleep(Pid(0), 0), Sleeping(1), false, Levels(false, true), OnCpu(0), true))
  {
    RunOne();
    hide Arrives, Inv, Levels;
    var q := Levels(false, true);
    var s1 := Snap(Bar(0, Busy(0), Busy(0), T.Top), Leaving(Pid(0), 0), Pausing(1), false, q, OnCpu(0), true);
    var s2 := Snap(Bar(0, Through(0), Busy(0), T.Top), Asleep(Pid(0), 0), Pausing(1), false, q, OnCpu(0), true);
    GoesTo(s1, CpuStep(0), s2);
    GoesTo(s2, LoaderStep, Snap(Bar(0, Through(0), Through(0), T.Top), Asleep(Pid(0), 0), Sleeping(1), false, q, OnCpu(0), true));
  }

  /** The timer makes a round and lets both in. */
  lemma NextSlot()
    ensures Arrives(Snap(Bar(1, LetIn(0), LetIn(0), T.Top), Asleep(Pid(0), 0), Sleeping(1), false, Levels(false, true), OnCpu(0), true))
  {
    BothThrough();
    hide Arrives, Inv, Levels;
    var b0 := Bar(0, Through(0), Through(0), T.Top);
    var b1, b2, b3 := b0.(timer := T.Scan(0, 0, 0)), b0.(timer := T.Scan(1, 0, 1)), b0.(timer := T.Scan(2, 0, 2));
    var b4 := Bar(1, Through(0), Through(0), T.Release(0, 0, 2));
    var b5, b6 := Bar(1, Through(0), LetIn(0), T.Release(1, 0, 2)), Bar(1, LetIn(0), LetIn(0), T.Release(2, 0, 2));
    TimerGoes(b0, b1);
    TimerGoes(b1, b2);
    TimerGoes(b2, b3);
    TimerGoes(b3, b4);
    TimerGoes(b4, b5);
    TimerGoes(b5, b6);
    TimerGoes(b6, Bar(1, LetIn(0), LetIn(0), T.Top));
  }

  lemma TimerGoes(bar: T.State, next: T.State)
    requires Arrives(Snap(bar, Asleep(Pid(0), 0), Sleeping(1), false, Levels(false, true), OnCpu(0), true))
    requires T.TimerCanMove(bar)
    requires var b := T.MoveTimer(bar);
             b.time == next.time && b.devs == next.devs && b.timer == next.timer && b.stop == next.stop
    ensures Arrives(Snap(next, Asleep(Pid(0), 0), Sleeping(1), false, Levels(false, true), OnCpu(0), true))
  {
    hide Arrives, Levels, T.MoveTimer;
    GoesTo(Snap(bar, Asleep(Pid(0), 0), Sleeping(1), false, Levels(false, true), OnCpu(0), true), TimerStep,
           Snap(next, Asleep(Pid(0), 0), Sleeping(1), false, Levels(false, true), OnCpu(0), true));
  }

  // ---------------------------------------------------------------- the two ends

  /** From there the CPU finishes the process and finds no other. */
  lemma CpuFinishes(loader: Loader, loaderDev: T.Device, done: bool)
    requires Arrives(Snap(Bar(1, LetIn(0), loaderDev, T.Top), Asleep(Pid(0), 0), loader, done, Levels(false, true), OnCpu(0), true))
    ensures Arrives(Snap(Bar(1, Busy(1), loaderDev, T.Top), Checking(true), loader, done, Levels(false, true), Finished, true))
  {
    GetFindsNone();
    hide Arrives, Levels, M.Get, M.Ok;
    var q := Levels(false, true);
    var bar := Bar(1, Busy(1), loaderDev, T.Top);
    var s1 := Snap(Bar(1, LetIn(0), loaderDev, T.Top), Asleep(Pid(0), 0), loader, done, q, OnCpu(0), true);
    var s2 := Snap(bar, Head(Pid(0), 0), loader, done, q, OnCpu(0), true);
    var s3 := Snap(bar, Refetch, loader, done, q, Finished, true);
    GoesTo(s1, CpuStep(0), s2);
    GoesTo(s2, CpuStep(0), s3);
    EverythingLoaded(s3);
    GoesTo(s3, CpuStep(0), Snap(bar, Checking(true), loader, done, q, Finished, true));
  }

  lemma EverythingLoaded(s: State)
    requires Arrives(s) && AllFinished(s)
    ensures AllLoaded(Sample(), s)
  {
    hide Inv;
    NothingLeft(Sample(), s);
  }

  lemma EndArrives()
    ensures Arrives(Snap(Bar(1, Busy(1), Busy(1), T.Top), Exiting, Ending, true, Levels(false, true), Finished, true))
  {
    NextSlot();
    hide Arrives, Levels;
    var q := Levels(false, true);
    var s1 := Snap(Bar(1, LetIn(0), LetIn(0), T.Top), Asleep(Pid(0), 0), Sleeping(1), false, q, OnCpu(0), true);
    var s2 := Snap(Bar(1, LetIn(0), Busy(1), T.Top), Asleep(Pid(0), 0), AtHead(1), false, q, OnCpu(0), true);
    GoesTo(s1, LoaderStep, s2);
    GoesTo(s2, LoaderStep, s2.(loader := Ending, done := true));
    CpuFinishes(Ending, Busy(1), true);
    GoesTo(Snap(Bar(1, Busy(1), Busy(1), T.Top), Checking(true), Ending, true, q, Finished, true), CpuStep(0),
           Snap(Bar(1, Busy(1), Busy(1), T.Top), Exiting, Ending, true, q, Finished, true));
  }

  /** If the loader goes first, it sets `done` and the CPU stops: the hypothesis of ShutdownIsComplete is
      met in this run. */
  lemma ShutdownHappens()
    ensures exists steps: seq<Step> ::
              && Possible(Sample(), Boot(Sample()), steps)
              && (forall cpu <- Run(Sample(), Boot(Sample()), steps).cpus :: cpu == Exiting || cpu == Gone)
  {
    EndArrives();
    hide Inv, Run, Possible, Boot, Levels;
    var last := Snap(Bar(1, Busy(1), Busy(1), T.Top), Exiting, Ending, true, Levels(false, true), Finished, true);
    var steps: seq<Step> :| Possible(Sample(), Boot(Sample()), steps) && Run(Sample(), Boot(Sample()), steps) == last;
  }

  function Stuck(): State {
    Snap(Bar(1, Busy(1), LetIn(0), T.Top), Leaving(Nobody, 0), Sleeping(1), false, Levels(false, true), Finished, true)
  }

  lemma StuckArrives()
    ensures Arrives(Stuck())
  {
    NextSlot();
    hide Arrives, Levels;
    CpuFinishes(Sleeping(1), LetIn(0), false);
    GoesTo(Stuck().(cpus := [Checking(true)]), CpuStep(0), Stuck());
  }

  lemma StuckForever(more: seq<Step>)
    requires Inv(Sample(), Stuck()) && Possible(Sample(), Stuck(), more)
    ensures var s := Run(Sample(), Stuck(), more); |s.cpus| == 1 && s.cpus[0] != Exiting && s.cpus[0] != Gone
  {
    hide Inv, Run, Possible, Levels;
    IdlingForever(Sample(), Stuck(), more, 0);
  }

  /** If the CPU goes first, it finds nothing to run and `done` not set, and never stops. */
  lemma ShutdownFails()
    ensures exists steps: seq<Step> ::
              && Possible(Sample(), Boot(Sample()), steps)
              && AllFinished(Run(Sample(), Boot(Sample()), steps))
              && forall more: seq<Step> :: Possible(Sample(), Run(Sample(), Boot(Sample()), steps), more) ==>
                   var s := Run(Sample(), Run(Sample(), Boot(Sample()), steps), more);
                   |s.cpus| == 1 && s.cpus[0] != Exiting && s.cpus[0] != Gone
  {
    StuckArrives();
    hide Inv, Run, Possible, Boot, Levels;
    var steps: seq<Step> :| Possible(Sample(), Boot(Sample()), steps) && Run(Sample(), Boot(Sample()), steps) == Stuck();
    forall more: seq<Step> | Possible(Sample(), Stuck(), more)
      ensures var s := Run(Sample(), Stuck(), more); |s.cpus| == 1 && s.cpus[0] != Exiting && s.cpus[0] != Gone
    {
      StuckForever(more);
    }
  }
}
