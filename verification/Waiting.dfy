/** How long a queued process can wait in the multi-CPU run. */
module Waiting {
  import opened Os
  import S = Slots

  /** The step calls get_proc. */
  predicate Fetches(s: State, step: Step) {
    step.CpuStep? && step.c < |s.cpus| && (s.cpus[step.c].Refetch? || (s.cpus[step.c].Head? && s.cpus[step.c].proc == Nobody))
  }

  /** The CPU of the step holds process p afterwards and did not before. */
  predicate Dispatches(c: Config, s: State, step: Step, p: nat)
    requires Shaped(c, s) && Enabled(s, step)
  {
    step.CpuStep? && Owner(s.cpus[step.c]) == Nobody && Owner(Do(c, s, step).cpus[step.c]) == Pid(p)
  }

  /** How often get_proc is called before the first step that dispatches p. */
  ghost function FetchesBefore(c: Config, s: State, steps: seq<Step>, p: nat): nat
    requires Possible(c, s, steps)
    decreases |steps|
  {
    if steps == [] || Dispatches(c, s, steps[0], p) then 0
    else (if Fetches(s, steps[0]) then 1 else 0) + FetchesBefore(c, Do(c, s, steps[0]), steps[1..], p)
  }

  /** The call of the scheduler a step makes, if it makes one */
  function CallOf(c: Config, s: State, step: Step): (calls: seq<M.Call>)
    requires Shaped(c, s)
    ensures M.LegalCalls(calls) && |calls| <= 1
  {
    if Fetches(s, step) then [M.GetCall]
    else match step
      case CpuStep(k) =>
        if k < |s.cpus| && s.cpus[k].Head? && s.pc[Owner(s.cpus[k]).p] != c.programs[Owner(s.cpus[k]).p].size && s.cpus[k].left == 0
        then [M.PutCall(Pcb(c, Owner(s.cpus[k]).p))] else []
      case LoaderStep =>
        if s.loader.AtHead? && s.loader.i < |c.programs| && s.bar.time >= c.programs[s.loader.i].start
        then [M.PutCall(Pcb(c, s.loader.i))] else []
      case _ => []
  }

  ghost function Calls(c: Config, s: State, steps: seq<Step>): (calls: seq<M.Call>)
    requires Possible(c, s, steps)
    ensures M.LegalCalls(calls)
    decreases |steps|
  {
    if steps == [] then [] else CallOf(c, s, steps[0]) + Calls(c, Do(c, s, steps[0]), steps[1..])
  }

  /** Between its calls a run leaves the scheduler alone. */
  lemma StepIsCall(c: Config, s: State, step: Step)
    requires Shaped(c, s) && Enabled(s, step)
    ensures M.Ok(s.mlq) && M.Shaped(s.mlq)
    ensures var calls := CallOf(c, s, step);
            && Do(c, s, step).mlq == (if calls == [] then s.mlq else M.Serve(s.mlq, calls[0]))
            && (Fetches(s, step) <==> calls == [M.GetCall])
  {
    M.OkIsShaped(s.mlq);
    hide M.Ok, M.Get, M.Put, M.Serve;
  }

  lemma FetchDispatches(c: Config, s: State, k: nat, left: int, empty: Cpu, p: nat)
    requires Shaped(c, s) && Owned(c, s) && k < |s.cpus| && p < |c.programs| && Owner(empty) == Nobody
    ensures M.Shaped(s.mlq)
    ensures Owner(Fetch(c, s, k, left, empty).cpus[k]) == Pid(p) <==> M.Get(s.mlq).0 == Pcb(c, p)
  {
    hide M.Get, M.Ok, M.Shaped, Owned;
    FetchedWasQueued(c, s);
  }

  lemma DispatchIsGet(c: Config, s: State, step: Step, p: nat)
    requires Shaped(c, s) && Owned(c, s) && Enabled(s, step) && p < |c.programs|
    ensures M.Shaped(s.mlq)
    ensures Dispatches(c, s, step, p) <==> Fetches(s, step) && M.Get(s.mlq).0 == Pcb(c, p)
  {
    M.OkIsShaped(s.mlq);
    hide Fetch, Enqueue, M.Get, M.Ok, Owned;
    if Fetches(s, step) {
      match s.cpus[step.c]
      case Head(_, left) => FetchDispatches(c, s, step.c, left, Leaving(Nobody, left), p);
      case Refetch => FetchDispatches(c, s, step.c, 0, Checking(AllLoaded(c, s)), p);
    }
  }

  /** A run makes the scheduler go through the calls of its steps, and dispatches p when a call returns it. */
  lemma {:induction false} RunIsCalls(c: Config, s: State, steps: seq<Step>, p: nat)
    requires Inv(c, s) && Possible(c, s, steps) && p < |c.programs|
    ensures M.Ok(s.mlq) && FetchesBefore(c, s, steps, p) == M.GetsBefore(s.mlq, Calls(c, s, steps), Pcb(c, p))
    decreases |steps|
  {
    hide Inv, Owned, Shaped, Do, Enabled, M.Get, M.Ok, M.Serve, Dispatches, CallOf, Fetches;
    S.Parts(c, s);
    if steps != [] {
      var step, calls := steps[0], CallOf(c, s, steps[0]);
      var s' := Do(c, s, step);
      StepKeeps(c, s, step);
      StepIsCall(c, s, step);
      DispatchIsGet(c, s, step, p);
      RunIsCalls(c, s', steps[1..], p);
      if calls == [] {
        assert Calls(c, s, steps) == Calls(c, s', steps[1..]);
      } else {
        assert Calls(c, s, steps)[0] == calls[0] && Calls(c, s, steps)[1..] == Calls(c, s', steps[1..]);
      }
    }
  }

  /** The processes of a level are different programs. */
  lemma LevelIsShort(c: Config, s: State, i: nat)
    requires Shaped(c, s) && Owned(c, s) && i < M.MAX_PRIO
    ensures |s.mlq.ready[i]| <= |c.programs|
  {
    var level := s.mlq.ready[i];
    forall x <- level ensures x in Pcbs(c, |c.programs|) {
      var k :| 0 <= k < |level| && level[k] == x;
      assert x == Pcb(c, level[k].pid);
    }
    DistinctCount(level);
    PcbsCount(c, |c.programs|);
    SubsetCount(Members(level), Pcbs(c, |c.programs|));
  }

  /** No starvation over all interleavings: in every run a process with k others before it on its level is
      dispatched within (k + 1) * 19739 calls of get_proc, and any queued process within that many for
      each program. */
  lemma EveryoneIsDispatched(c: Config, before: seq<Step>, steps: seq<Step>, p: nat, k: nat)
    requires Legal(c) && Possible(c, Boot(c), before) && Possible(c, Run(c, Boot(c), before), steps)
    requires p < |c.programs| && M.WaitsAt(Run(c, Boot(c), before).mlq, Pcb(c, p), k)
    ensures k < |c.programs|
    ensures FetchesBefore(c, Run(c, Boot(c), before), steps, p) < (k + 1) * (M.BOUND + 1)
  {
    hide *;
    var s := Run(c, Boot(c), before);
    BootInv(c);
    RunKeeps(c, Boot(c), before);
    S.Parts(c, s);
    PlaceIsLow(c, s, p, k);
    RunIsCalls(c, s, steps, p);
    M.NoStarvation(s.mlq, Calls(c, s, steps), Pcb(c, p), k);
  }

  lemma PlaceIsLow(c: Config, s: State, p: nat, k: nat)
    requires Shaped(c, s) && Owned(c, s) && p < |c.programs| && M.WaitsAt(s.mlq, Pcb(c, p), k)
    ensures k < |c.programs|
  {
    LevelIsShort(c, s, c.programs[p].prio);
  }
}
