/** Which CPUs stop once all processes are finished, and which turn in their loops for ever. */
module Idle {
  import opened Os

  predicate AllFinished(s: State) { forall p :: 0 <= p < |s.place| ==> s.place[p] == Finished }

  /** A CPU without a process at the head of its loop, on its way to the next slot or asleep there */
  predicate Idling(cpu: Cpu) { (cpu.Head? || cpu.Leaving? || cpu.Asleep?) && cpu.proc == Nobody }

  lemma HeadIsQueued(c: Config, s: State, i: nat)
    requires Shaped(c, s) && Owned(c, s) && i < M.MAX_PRIO
    ensures s.mlq.ready[i] != [] ==> s.place[s.mlq.ready[i][0].pid] == Queued
  {
    assert s.mlq.ready[i] != [] ==> s.mlq.ready[i][0] == Pcb(c, s.mlq.ready[i][0].pid);
  }

  lemma NextIsUnloaded(c: Config, s: State)
    requires Shaped(c, s) && Owned(c, s)
    ensures Loaded(c, s) < |c.programs| ==> s.place[Loaded(c, s)] == Unloaded
  {
    hide M.Ok;
  }

  lemma NothingLeft(c: Config, s: State)
    requires Inv(c, s) && AllFinished(s)
    ensures M.AllEmpty(s.mlq) && AllLoaded(c, s) && |s.cpus| == c.cpus
    ensures forall k :: 0 <= k < c.cpus ==> Owner(s.cpus[k]) == Nobody
  {
    hide T.Ok, Executed, Closing;
    forall i | 0 <= i < M.MAX_PRIO ensures s.mlq.ready[i] == [] {
      HeadIsQueued(c, s, i);
    }
    NextIsUnloaded(c, s);
  }

  /** Where CPU k goes from here when there is nothing to fetch. */
  function Onward(s: State, k: nat): Cpu
    requires k < |s.cpus| && k < |s.bar.devs|
  {
    match s.cpus[k]
    case Head(_, left) => Leaving(Nobody, left)
    case Refetch => Checking(true)
    case Checking(_) => if s.done then Exiting else Leaving(Nobody, 0)
    case Leaving(_, left) => Asleep(Nobody, left)
    case Asleep(_, left) => if s.bar.devs[k].done then Asleep(Nobody, left) else Head(Nobody, left)
    case Exiting => Gone
    case cpu => cpu
  }

  /** With nothing to fetch a CPU does not touch queues and places. */
  lemma CpuStepIsLocal(c: Config, s: State, k: nat)
    requires Inv(c, s) && AllFinished(s) && CpuEnabled(s, k)
    ensures Shaped(c, s) && k < c.cpus
    ensures var s' := DoCpu(c, s, k);
            && s'.mlq == s.mlq && s'.place == s.place && s'.done == s.done && s'.loader == s.loader
            && s'.cpus == s.cpus[k := s'.cpus[k]]
            && s'.cpus[k] == Onward(s, k) && |s'.bar.devs| == |s.bar.devs|
            && forall j :: 0 <= j <= c.cpus && j != k ==> s'.bar.devs[j] == s.bar.devs[j]
  {
    hide Inv, Enqueue, Execute, M.Get, M.Put, T.Do;
    HolderFacts(c, s, k);
    NothingLeft(c, s);
    M.OkIsShaped(s.mlq);
    M.GetIsWorkConserving(s.mlq);
    assert Owner(s.cpus[k]) == Nobody;
    BarrierStepIsLocal(c, s, k);
  }

  lemma BarrierStepIsLocal(c: Config, s: State, k: nat)
    requires Shaped(c, s) && CpuEnabled(s, k)
    ensures |DoCpu(c, s, k).bar.devs| == |s.bar.devs|
    ensures forall j :: 0 <= j <= c.cpus && j != k ==> DoCpu(c, s, k).bar.devs[j] == s.bar.devs[j]
  {
    hide M.Ok, Enqueue, Fetch;
    assert s.cpus[k].Head? || s.cpus[k] == Refetch ==> DoCpu(c, s, k).bar == s.bar by { FetchKeepsBar(c, s, k); }
  }

  lemma FetchKeepsBar(c: Config, s: State, k: nat)
    requires Shaped(c, s) && CpuEnabled(s, k)
    ensures s.cpus[k].Head? || s.cpus[k] == Refetch ==> DoCpu(c, s, k).bar == s.bar
  {
    hide M.Ok;
  }

  lemma FinishedStays(c: Config, s: State, step: Step)
    requires Inv(c, s) && Enabled(s, step) && AllFinished(s)
    ensures Shaped(c, s) && AllFinished(Do(c, s, step))
  {
    hide Inv, DoCpu, M.Ok, T.Do, Enqueue;
    LoaderFacts(c, s);
    NothingLeft(c, s);
    if step.CpuStep? {
      CpuStepIsLocal(c, s, step.c);
    }
  }

  lemma IdlingStays(c: Config, s: State, step: Step, k: nat)
    requires Inv(c, s) && Enabled(s, step) && AllFinished(s) && k < c.cpus && k < |s.cpus| && Idling(s.cpus[k])
    ensures Shaped(c, s) && |Do(c, s, step).cpus| == c.cpus && Idling(Do(c, s, step).cpus[k])
  {
    hide Inv, DoCpu, M.Ok, T.Do, Enqueue;
    LoaderFacts(c, s);
    NothingLeft(c, s);
    if step.CpuStep? {
      CpuStepIsLocal(c, s, step.c);
    }
  }

  // ---------------------------------------------------------------- who can still exit

  /** The loader has set `done` or will set it without having to wait for anybody. */
  predicate EndsSoon(c: Config, s: State)
    requires |s.bar.devs| == c.cpus + 1
  {
    s.done || s.loader.AtHead? || (s.loader.Sleeping? && !s.bar.devs[c.cpus].done)
  }

  /** A CPU that has left its loop, or is on its way to the test of `done` in time. */
  predicate CanExit(c: Config, s: State, k: nat)
    requires |s.bar.devs| == c.cpus + 1 && k < |s.cpus|
  {
    s.cpus[k] == Exiting || s.cpus[k] == Gone || ((s.cpus[k] == Refetch || s.cpus[k].Checking?) && EndsSoon(c, s))
  }

  lemma NotOwningIsOneOf(cpu: Cpu)
    requires Owner(cpu) == Nobody
    ensures Idling(cpu) || cpu == Refetch || cpu.Checking? || cpu == Exiting || cpu == Gone
  {
  }

  lemma OthersKeepCpus(c: Config, s: State, step: Step)
    requires Shaped(c, s) && Enabled(s, step) && !step.CpuStep?
    ensures Do(c, s, step).cpus == s.cpus
  {
    hide M.Ok, T.Do;
  }

  lemma StaysShaped(c: Config, s: State, step: Step)
    requires Inv(c, s) && Enabled(s, step)
    ensures Shaped(c, s) && |Do(c, s, step).bar.devs| == c.cpus + 1 && |Do(c, s, step).cpus| == c.cpus
  {
    hide DoCpu, DoLoader;
    StepKeeps(c, s, step);
  }

  /** A CPU that cannot exit now cannot later. */
  lemma CannotExitStays(c: Config, s: State, step: Step, k: nat)
    requires Inv(c, s) && Enabled(s, step) && AllFinished(s) && k < c.cpus
    requires |s.bar.devs| == c.cpus + 1 && |s.cpus| == c.cpus && !CanExit(c, s, k)
    ensures var s' := Do(c, s, step); |s'.bar.devs| == c.cpus + 1 && |s'.cpus| == c.cpus && !CanExit(c, s', k)
  {
    hide Inv, Shaped, DoCpu, DoLoader, EndsSoon;
    StaysShaped(c, s, step);
    NothingLeft(c, s);
    NotOwningIsOneOf(s.cpus[k]);
    if Idling(s.cpus[k]) {
      IdlingStays(c, s, step, k);
    } else {
      LoaderStaysOut(c, s, step, k);
      if step.CpuStep? {
        NotDone(c, s);
        CpuStepIsLocal(c, s, step.c);
      } else {
        OthersKeepCpus(c, s, step);
      }
    }
  }

  lemma NotDone(c: Config, s: State)
    requires |s.bar.devs| == c.cpus + 1 && !EndsSoon(c, s)
    ensures !s.done
  {
  }

  lemma DoneMeansLoaded(c: Config, s: State)
    requires Inv(c, s)
    ensures s.done <==> s.loader.Ending? || s.loader.Ended?
  {
  }

  /** As long as a CPU is awake the loader is not let into its next slot: the timer releases the loader
      first, and has seen every CPU asleep before it does. */
  lemma LoaderStaysOut(c: Config, s: State, step: Step, k: nat)
    requires Inv(c, s) && Enabled(s, step) && AllFinished(s) && k < c.cpus
    requires |s.bar.devs| == c.cpus + 1 && !EndsSoon(c, s) && |s.cpus| == c.cpus
    requires s.cpus[k] == Refetch || s.cpus[k].Checking?
    ensures var s' := Do(c, s, step); |s'.bar.devs| == c.cpus + 1 && !EndsSoon(c, s')
  {
    hide Owned, Executed, M.Ok, DoCpu, Enqueue;
    DoneMeansLoaded(c, s);
    match step {
      case CpuStep(j) =>
        CpuStepIsLocal(c, s, j);
      case LoaderStep =>
      case TimerStep =>
        assert T.DeviceOk(s.bar, k) && T.DeviceOk(s.bar, c.cpus);
      case StopTimer =>
      case Rouse(_) =>
      case RouseTimer =>
    }
  }

  ghost predicate ReachesExit(c: Config, s: State, k: nat) {
    exists steps: seq<Step> :: Possible(c, s, steps) && k < |Run(c, s, steps).cpus|
      && (Run(c, s, steps).cpus[k] == Exiting || Run(c, s, steps).cpus[k] == Gone)
  }

  lemma {:induction false} CannotExitEver(c: Config, s: State, steps: seq<Step>, k: nat)
    requires Inv(c, s) && AllFinished(s) && k < c.cpus && Possible(c, s, steps)
    requires |s.bar.devs| == c.cpus + 1 && |s.cpus| == c.cpus && !CanExit(c, s, k)
    ensures var s' := Run(c, s, steps); |s'.bar.devs| == c.cpus + 1 && |s'.cpus| == c.cpus && !CanExit(c, s', k)
    decreases |steps|
  {
    hide Inv, AllFinished, CanExit, Do, Enabled;
    if steps != [] {
      StepKeeps(c, s, steps[0]);
      FinishedStays(c, s, steps[0]);
      CannotExitStays(c, s, steps[0], k);
      CannotExitEver(c, Do(c, s, steps[0]), steps[1..], k);
    }
  }

  /** An idle CPU never stops: once every process is finished it goes from slot to slot without looking
      at `done`, in every continuation. */
  lemma {:induction false} IdlingForever(c: Config, s: State, steps: seq<Step>, k: nat)
    requires Inv(c, s) && AllFinished(s) && k < c.cpus && Possible(c, s, steps) && |s.cpus| == c.cpus && Idling(s.cpus[k])
    ensures |Run(c, s, steps).cpus| == c.cpus && Idling(Run(c, s, steps).cpus[k])
    decreases |steps|
  {
    hide Inv, AllFinished, Idling, Do, Enabled;
    if steps != [] {
      StepKeeps(c, s, steps[0]);
      FinishedStays(c, s, steps[0]);
      IdlingStays(c, s, steps[0], k);
      IdlingForever(c, Do(c, s, steps[0]), steps[1..], k);
    }
  }

  lemma StepBack(c: Config, s: State, step: Step, k: nat)
    requires Shaped(c, s) && Enabled(s, step) && ReachesExit(c, Do(c, s, step), k)
    ensures ReachesExit(c, s, k)
  {
    hide Shaped, Enabled, Do;
    var s' := Do(c, s, step);
    var steps: seq<Step> :| Possible(c, s', steps) && k < |Run(c, s', steps).cpus|
      && (Run(c, s', steps).cpus[k] == Exiting || Run(c, s', steps).cpus[k] == Gone);
    var all := [step] + steps;
    assert all[0] == step && all[1..] == steps;
    assert Possible(c, s, all) && Run(c, s, all) == Run(c, s', steps);
  }

  lemma OutIsReached(c: Config, s: State, k: nat)
    requires k < |s.cpus| && (s.cpus[k] == Exiting || s.cpus[k] == Gone)
    ensures ReachesExit(c, s, k)
  {
    assert Possible(c, s, []) && Run(c, s, []) == s;
  }

  lemma CheckingReaches(c: Config, s: State, k: nat)
    requires Inv(c, s) && AllFinished(s) && k < c.cpus && |s.cpus| == c.cpus && s.cpus[k].Checking? && s.done
    ensures ReachesExit(c, s, k)
  {
    hide Inv, DoCpu, ReachesExit;
    CpuStepIsLocal(c, s, k);
    OutIsReached(c, Do(c, s, CpuStep(k)), k);
    StepBack(c, s, CpuStep(k), k);
  }

  lemma DoneReaches(c: Config, s: State, k: nat)
    requires Inv(c, s) && AllFinished(s) && k < c.cpus && |s.cpus| == c.cpus && s.done
    requires s.cpus[k] == Refetch || s.cpus[k].Checking?
    ensures ReachesExit(c, s, k)
  {
    hide Inv, DoCpu, ReachesExit;
    if s.cpus[k] == Refetch {
      CpuStepIsLocal(c, s, k);
      StepKeeps(c, s, CpuStep(k));
      FinishedStays(c, s, CpuStep(k));
      CheckingReaches(c, Do(c, s, CpuStep(k)), k);
      StepBack(c, s, CpuStep(k), k);
    } else {
      CheckingReaches(c, s, k);
    }
  }

  lemma AtHeadReaches(c: Config, s: State, k: nat)
    requires Inv(c, s) && AllFinished(s) && k < c.cpus && |s.cpus| == c.cpus && s.loader.AtHead?
    requires s.cpus[k] == Refetch || s.cpus[k].Checking?
    ensures ReachesExit(c, s, k)
  {
    hide Inv, ReachesExit, Enqueue, M.Ok;
    LoaderFacts(c, s);
    NothingLeft(c, s);
    StepKeeps(c, s, LoaderStep);
    FinishedStays(c, s, LoaderStep);
    DoneReaches(c, Do(c, s, LoaderStep), k);
    StepBack(c, s, LoaderStep, k);
  }

  lemma LetInIsTesting(c: Config, s: State)
    requires Inv(c, s) && s.loader.Sleeping? && |s.bar.devs| == c.cpus + 1 && !s.bar.devs[c.cpus].done
    ensures LoaderEnabled(s)
  {
    assert T.DeviceOk(s.bar, c.cpus);
  }

  /** Once every process is finished, a CPU can still stop exactly if it has left its loop, or is on its
      way to the test of `done` while the loader sets it without waiting for that CPU. */
  lemma ReachesExitIff(c: Config, s: State, k: nat)
    requires Inv(c, s) && AllFinished(s) && k < c.cpus && |s.cpus| == c.cpus && |s.bar.devs| == c.cpus + 1
    ensures ReachesExit(c, s, k) <==> CanExit(c, s, k)
  {
    hide Inv, AllFinished;
    if CanExit(c, s, k) {
      ExitIsReached(c, s, k);
    } else {
      forall steps: seq<Step> | Possible(c, s, steps) ensures |Run(c, s, steps).bar.devs| == c.cpus + 1
        && |Run(c, s, steps).cpus| == c.cpus && !CanExit(c, Run(c, s, steps), k)
      {
        CannotExitEver(c, s, steps, k);
      }
    }
  }

  lemma ExitIsReached(c: Config, s: State, k: nat)
    requires Inv(c, s) && AllFinished(s) && k < c.cpus && |s.cpus| == c.cpus && |s.bar.devs| == c.cpus + 1
    requires CanExit(c, s, k)
    ensures ReachesExit(c, s, k)
  {
    hide Inv, AllFinished, ReachesExit, Enqueue, M.Ok;
    if s.cpus[k] == Exiting || s.cpus[k] == Gone {
      OutIsReached(c, s, k);
    } else if s.done {
      DoneReaches(c, s, k);
    } else if s.loader.AtHead? {
      AtHeadReaches(c, s, k);
    } else {
      LoaderFacts(c, s);
      LetInIsTesting(c, s);
      StepKeeps(c, s, LoaderStep);
      FinishedStays(c, s, LoaderStep);
      AtHeadReaches(c, Do(c, s, LoaderStep), k);
      StepBack(c, s, LoaderStep, k);
    }
  }
}
