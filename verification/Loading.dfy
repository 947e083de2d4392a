/** When the loader adds each program, and that it takes part in every slot until it is through. */
module Loading {
  import opened Os
  import opened Idle
  import opened Progress

  /** The step adds a program. */
  predicate Adds(c: Config, s: State, step: Step)
    requires Shaped(c, s) && Enabled(s, step)
  {
    step == LoaderStep && Do(c, s, step).place != s.place
  }

  /** The time slots of a run in which programs were added, in order */
  ghost function LoadTimes(c: Config, s: State, steps: seq<Step>): seq<nat>
    requires Possible(c, s, steps)
    decreases |steps|
  {
    if steps == [] then []
    else (if Adds(c, s, steps[0]) then [s.bar.time] else []) + LoadTimes(c, Do(c, s, steps[0]), steps[1..])
  }

  /** The first slot program i can be added in: its own start slot, but not the slot of the one before it. */
  function Due(c: Config, times: seq<nat>, i: nat): nat
    requires i < |c.programs| && i <= |times|
  {
    var next := if i == 0 then 0 else times[i - 1] + 1;
    if c.programs[i].start > next then c.programs[i].start else next
  }

  /** The slot the loader is in, or is about to leave, is not too late for its next program. */
  predicate InTime(c: Config, s: State, times: seq<nat>)
    requires Shaped(c, s)
  {
    var i, slot := |times|, s.bar.devs[c.cpus].slot;
    i < |c.programs| ==>
      match s.loader
      case AtHead(_) => slot <= Due(c, times, i) && (i > 0 ==> times[i - 1] + 1 <= slot)
      case _ => slot + 1 <= Due(c, times, i) && (i > 0 ==> times[i - 1] <= slot)
  }

  ghost predicate Timely(c: Config, s: State, times: seq<nat>)
    requires Shaped(c, s)
  {
    && |times| == Loaded(c, s) && (forall i :: 0 <= i < |times| ==> times[i] == Due(c, times, i))
    && InTime(c, s, times)
  }

  lemma OthersKeepTimely(c: Config, s: State, s': State, times: seq<nat>)
    requires Shaped(c, s) && Shaped(c, s') && Timely(c, s, times)
    requires s'.loader == s.loader && s'.bar.devs[c.cpus].slot == s.bar.devs[c.cpus].slot
    ensures Timely(c, s', times)
  {
  }

  lemma AddEffect(c: Config, s: State)
    requires Shaped(c, s) && LoadsNow(c, s)
    ensures var s' := Do(c, s, LoaderStep);
            && s'.bar == s.bar && s'.loader == Pausing(s.loader.i + 1) && |s.place| == |s'.place| == |c.programs|
            && s'.place[s.loader.i] == Queued
  {
    hide M.Ok, M.Put;
  }

  lemma AddIsTimely(c: Config, s: State, times: seq<nat>)
    requires Inv(c, s) && Shaped(c, s) && Timely(c, s, times) && LoadsNow(c, s)
    requires s.bar.devs[c.cpus].slot == s.bar.time && Shaped(c, Do(c, s, LoaderStep))
    ensures Adds(c, s, LoaderStep) && Timely(c, Do(c, s, LoaderStep), times + [s.bar.time])
  {
    hide Inv, Shaped, Do, Owned, Executed, Due;
    S.Sizes(c, s);
    S.Sizes(c, Do(c, s, LoaderStep));
    S.Parts(c, s);
    NextIsUnloaded(c, s);
    AddEffect(c, s);
    TimesGrow(c, s, times);
  }

  lemma TimesGrow(c: Config, s: State, times: seq<nat>)
    requires Shaped(c, s) && Timely(c, s, times) && LoadsNow(c, s) && s.bar.devs[c.cpus].slot == s.bar.time
    ensures var more := times + [s.bar.time];
            && (forall k :: 0 <= k < |more| ==> more[k] == Due(c, more, k))
            && (|more| < |c.programs| ==> s.bar.time + 1 <= Due(c, more, |more|))
  {
    hide Shaped, Due;
    var more := times + [s.bar.time];
    DueNow(c, s, times);
    forall k | 0 <= k < |more| ensures more[k] == Due(c, more, k) {
      DueIsLocal(c, times, more, k);
    }
    if |more| < |c.programs| {
      DueNext(c, more, |more|);
    }
  }

  lemma DueNow(c: Config, s: State, times: seq<nat>)
    requires Shaped(c, s) && |times| == Loaded(c, s) && InTime(c, s, times) && LoadsNow(c, s)
    requires s.bar.devs[c.cpus].slot == s.bar.time
    ensures s.bar.time == Due(c, times, |times|)
  {
  }

  lemma DueIsLocal(c: Config, times: seq<nat>, more: seq<nat>, k: nat)
    requires times <= more && k <= |times| && k < |c.programs|
    ensures Due(c, more, k) == Due(c, times, k)
  {
  }

  lemma DueNext(c: Config, times: seq<nat>, i: nat)
    requires 0 < i <= |times| && i < |c.programs|
    ensures times[i - 1] + 1 <= Due(c, times, i)
  {
  }

  lemma WaitingIsTimely(c: Config, s: State, times: seq<nat>)
    requires Inv(c, s) && Shaped(c, s) && Timely(c, s, times) && !LoadsNow(c, s) && LoaderEnabled(s)
    requires s.loader.AtHead? ==> s.bar.devs[c.cpus].slot == s.bar.time
    requires Shaped(c, Do(c, s, LoaderStep))
    ensures !Adds(c, s, LoaderStep) && Timely(c, Do(c, s, LoaderStep), times)
  {
    hide Inv, M.Ok, Enqueue;
  }

  lemma StepIsTimely(c: Config, s: State, step: Step, times: seq<nat>)
    requires Inv(c, s) && Shaped(c, s) && Timely(c, s, times) && Enabled(s, step)
    ensures Inv(c, Do(c, s, step)) && Shaped(c, Do(c, s, step))
    ensures Timely(c, Do(c, s, step), times + if Adds(c, s, step) then [s.bar.time] else [])
  {
    hide Inv, Shaped, Timely, Do;
    S.Sizes(c, s);
    StepKeeps(c, s, step);
    S.Parts(c, Do(c, s, step));
    assert times + [] == times;
    if step == LoaderStep {
      LoaderSlot(c, s);
      if LoadsNow(c, s) {
        AddIsTimely(c, s, times);
      } else {
        WaitingIsTimely(c, s, times);
      }
    } else {
      LoaderUntouched(c, s, step);
      OthersKeepTimely(c, s, Do(c, s, step), times);
    }
  }

  lemma LoaderSlot(c: Config, s: State)
    requires Inv(c, s)
    ensures Shaped(c, s) && (s.loader.AtHead? ==> s.bar.devs[c.cpus].slot == s.bar.time && s.bar.devs[c.cpus].phase == T.Working)
  {
    hide Owned, Executed, Closing, M.Ok;
    assert T.DeviceOk(s.bar, c.cpus) && PhaseOfLoader(s.loader, s.bar.devs[c.cpus].phase);
  }

  lemma LoaderUntouched(c: Config, s: State, step: Step)
    requires Shaped(c, s) && Enabled(s, step) && step != LoaderStep
    ensures var s' := Do(c, s, step);
            |s'.bar.devs| == c.cpus + 1 && s'.loader == s.loader && s'.bar.devs[c.cpus].slot == s.bar.devs[c.cpus].slot
  {
    hide M.Ok, M.Put;
    if step.CpuStep? {
      BarrierStepIsLocal(c, s, step.c);
    }
  }

  lemma {:induction false} RunIsTimely(c: Config, s: State, steps: seq<Step>, times: seq<nat>)
    requires Inv(c, s) && Shaped(c, s) && Timely(c, s, times) && Possible(c, s, steps)
    ensures Inv(c, Run(c, s, steps)) && Shaped(c, Run(c, s, steps))
    ensures Timely(c, Run(c, s, steps), times + LoadTimes(c, s, steps))
    decreases |steps|
  {
    hide Inv, Shaped, Timely, Do, Enabled, Adds;
    if steps == [] {
      assert times + LoadTimes(c, s, steps) == times;
    } else {
      var now := if Adds(c, s, steps[0]) then [s.bar.time] else [];
      StepIsTimely(c, s, steps[0], times);
      RunIsTimely(c, Do(c, s, steps[0]), steps[1..], times + now);
      assert times + LoadTimes(c, s, steps) == times + now + LoadTimes(c, Do(c, s, steps[0]), steps[1..]);
    }
  }

  /** Programs are added in order, each in the first slot it can be: its start slot, or the one after its
      predecessor's if that is later; and just these programs are loaded. */
  lemma ProgramsLoadOnTime(c: Config, steps: seq<Step>)
    requires Legal(c) && Possible(c, Boot(c), steps)
    ensures var s, times := Run(c, Boot(c), steps), LoadTimes(c, Boot(c), steps);
            && |times| <= |c.programs| && |s.place| == |c.programs|
            && (forall i :: 0 <= i < |times| ==> times[i] == Due(c, times, i))
            && (forall p :: 0 <= p < |c.programs| ==> (s.place[p] == Unloaded <==> |times| <= p))
  {
    BootTimely(c);
    hide Inv, Possible, Run, LoadTimes;
    RunIsTimely(c, Boot(c), steps, []);
    var s, times := Run(c, Boot(c), steps), LoadTimes(c, Boot(c), steps);
    assert [] + times == times;
    S.Parts(c, s);
  }

  lemma BootTimely(c: Config)
    requires Legal(c)
    ensures Inv(c, Boot(c)) && Shaped(c, Boot(c)) && Timely(c, Boot(c), [])
  {
    hide Inv;
    BootInv(c);
    S.Parts(c, Boot(c));
  }

  /** Two steps take the loader from the head of its loop into next_slot, or out of it: nothing it does in a
      slot makes it stay there. */
  lemma LoaderLeavesTheSlot(c: Config, steps: seq<Step>)
    requires Legal(c) && Possible(c, Boot(c), steps) && Run(c, Boot(c), steps).loader.AtHead?
    ensures var s := Run(c, Boot(c), steps);
            && Possible(c, s, [LoaderStep, LoaderStep])
            && var d := Run(c, s, [LoaderStep, LoaderStep]).bar.devs;
               |d| == c.cpus + 1 && (d[c.cpus].phase == T.Testing || d[c.cpus].phase == T.Detached)
  {
    hide Inv, Shaped, Do;
    var s := Run(c, Boot(c), steps);
    BootInv(c);
    RunKeeps(c, Boot(c), steps);
    S.Parts(c, s);
    FirstLoaderStep(c, s);
    var s1 := Do(c, s, LoaderStep);
    StepKeeps(c, s, LoaderStep);
    S.Parts(c, s1);
    SecondLoaderStep(c, s1);
    var two := [LoaderStep, LoaderStep];
    assert two[0] == LoaderStep && two[1..] == [LoaderStep] && [LoaderStep][1..] == [];
    assert Possible(c, Do(c, s1, LoaderStep), []) && Run(c, Do(c, s1, LoaderStep), []) == Do(c, s1, LoaderStep);
    assert Possible(c, s1, [LoaderStep]) && Run(c, s1, [LoaderStep]) == Do(c, s1, LoaderStep);
  }

  lemma FirstLoaderStep(c: Config, s: State)
    requires Inv(c, s) && Shaped(c, s) && s.loader.AtHead?
    ensures Enabled(s, LoaderStep) && (Do(c, s, LoaderStep).loader.Pausing? || Do(c, s, LoaderStep).loader.Ending?)
  {
    hide Inv, M.Ok, M.Put;
  }

  lemma SecondLoaderStep(c: Config, s: State)
    requires Inv(c, s) && Shaped(c, s) && (s.loader.Pausing? || s.loader.Ending?)
    ensures Enabled(s, LoaderStep)
    ensures var d := Do(c, s, LoaderStep).bar.devs;
            |d| == c.cpus + 1 && (d[c.cpus].phase == T.Testing || d[c.cpus].phase == T.Detached)
  {
    hide Owned, Executed, Closing, M.Ok;
    assert PhaseOfLoader(s.loader, s.bar.devs[c.cpus].phase);
  }
}
