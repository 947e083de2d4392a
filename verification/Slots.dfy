/** What a CPU does in each time slot: whole quanta of one instruction per slot. */
module Slots {
  import opened Os

  // ---------------------------------------------------------------- quanta

  /** The instructions a process has executed since it was dispatched and those it may still execute make a
      whole quantum, while it is unfinished. */
  predicate QuantumOf(c: Config, s: State, cpu: Cpu)
    requires |s.pc| == |s.burst| == |c.programs|
  {
    Owner(cpu).Pid? && Owner(cpu).p < |c.programs| && s.pc[Owner(cpu).p] < c.programs[Owner(cpu).p].size ==>
      s.burst[Owner(cpu).p] + LeftOf(cpu) == c.timeSlot
  }

  ghost predicate Quanta(c: Config, s: State)
    requires Shaped(c, s)
  {
    forall k :: 0 <= k < c.cpus ==> QuantumOf(c, s, s.cpus[k])
  }

  lemma Parts(c: Config, s: State)
    requires Inv(c, s)
    ensures Shaped(c, s) && Owned(c, s) && Executed(c, s) && |s.cpus| == c.cpus
  {
  }

  lemma Sizes(c: Config, s: State)
    requires Shaped(c, s)
    ensures |s.pc| == |s.place| == |c.programs| && |s.cpus| == c.cpus && |s.bar.devs| == c.cpus + 1
  {
  }

  /** A fetch touches the record of the process it dispatches, which waited in a queue, and no other. */
  lemma FetchTouches(c: Config, s: State, k: nat, left: int, empty: Cpu, p: nat)
    requires Shaped(c, s) && Owned(c, s) && k < c.cpus && p < |c.programs|
    requires Owner(empty) == Nobody && (left == 0 || LeftOf(empty) == left)
    ensures var s' := Fetch(c, s, k, left, empty);
            && s'.cpus == s.cpus[k := s'.cpus[k]] && s'.pc == s.pc && |s'.burst| == |s.burst|
            && (s.place[p] != Queued ==> s'.burst[p] == s.burst[p])
            && (left == 0 && Owner(s'.cpus[k]) == Pid(p) ==> s'.burst[p] == 0 && LeftOf(s'.cpus[k]) == c.timeSlot)
  {
    hide M.Ok, M.Get, M.Shaped, Owned;
    FetchedWasQueued(c, s);
  }

  /** What a CPU step does to the records of processes it does not hold. */
  lemma CpuTouches(c: Config, s: State, k: nat, p: nat)
    requires Shaped(c, s) && Owned(c, s) && Enabled(s, CpuStep(k)) && k < c.cpus && p < |c.programs|
    requires Owner(s.cpus[k]) != Pid(p) && s.place[p] != Queued
    requires Owner(s.cpus[k]) == Nobody ==> LeftOf(s.cpus[k]) == 0
    ensures var s' := Do(c, s, CpuStep(k));
            && s'.cpus == s.cpus[k := s'.cpus[k]] && |s'.pc| == |s'.burst| == |c.programs|
            && s'.pc[p] == s.pc[p] && s'.burst[p] == s.burst[p]
  {
    hide Fetch, M.Ok, M.Put, Owned;
    match s.cpus[k]
    case Head(Nobody, left) => FetchTouches(c, s, k, left, Leaving(Nobody, left), p);
    case Refetch => FetchTouches(c, s, k, 0, Checking(AllLoaded(c, s)), p);
    case _ =>
  }

  /** The CPU that makes the step keeps its quantum whole. */
  lemma OwnQuantum(c: Config, s: State, k: nat)
    requires Shaped(c, s) && Owned(c, s) && Executed(c, s) && Enabled(s, CpuStep(k)) && k < c.cpus && QuantumOf(c, s, s.cpus[k])
    ensures var s' := Do(c, s, CpuStep(k));
            && |s'.cpus| == c.cpus && |s'.pc| == |s'.burst| == |c.programs| && QuantumOf(c, s', s'.cpus[k])
  {
    hide Fetch, M.Ok, M.Put, Owned, Executed;
    match s.cpus[k]
    case Head(Nobody, left) =>
      IdleHasNoneLeft(c, s, k);
      FetchedQuantum(c, s, k, Leaving(Nobody, left));
    case Refetch => FetchedQuantum(c, s, k, Checking(AllLoaded(c, s)));
    case _ => HeldQuantum(c, s, k);
  }

  lemma HeldQuantum(c: Config, s: State, k: nat)
    requires Shaped(c, s) && Executed(c, s) && Enabled(s, CpuStep(k)) && k < c.cpus && QuantumOf(c, s, s.cpus[k])
    requires s.cpus[k] != Refetch && !(s.cpus[k].Head? && s.cpus[k].proc == Nobody)
    ensures var s' := Do(c, s, CpuStep(k));
            && |s'.cpus| == c.cpus && |s'.pc| == |s'.burst| == |c.programs| && QuantumOf(c, s', s'.cpus[k])
  {
    assert Exact(c, s, s.cpus[k]);
    hide Do, Executed, Exact, Shaped, QuantumOf;
    if s.cpus[k].Head? {
      HeadQuantum(c, s, k);
    } else {
      RunQuantum(c, s, k);
    }
  }

  lemma RunQuantum(c: Config, s: State, k: nat)
    requires Shaped(c, s) && Enabled(s, CpuStep(k)) && k < c.cpus && QuantumOf(c, s, s.cpus[k]) && Exact(c, s, s.cpus[k])
    requires s.cpus[k] != Refetch && !s.cpus[k].Head?
    ensures var s' := Do(c, s, CpuStep(k));
            && |s'.cpus| == c.cpus && |s'.pc| == |s'.burst| == |c.programs| && QuantumOf(c, s', s'.cpus[k])
  {
    hide M.Ok, M.Put, T.Do, Fetch, Enqueue;
  }

  lemma HeadQuantum(c: Config, s: State, k: nat)
    requires Shaped(c, s) && Enabled(s, CpuStep(k)) && k < c.cpus && QuantumOf(c, s, s.cpus[k])
    requires s.cpus[k].Head? && s.cpus[k].proc.Pid?
    ensures var s' := Do(c, s, CpuStep(k));
            && |s'.cpus| == c.cpus && |s'.pc| == |s'.burst| == |c.programs| && QuantumOf(c, s', s'.cpus[k])
  {
    hide M.Ok, M.Put, T.Do;
  }

  lemma FetchedQuantum(c: Config, s: State, k: nat, empty: Cpu)
    requires Shaped(c, s) && Owned(c, s) && k < c.cpus && Owner(empty) == Nobody
    ensures var s' := Fetch(c, s, k, 0, empty);
            |s'.cpus| == c.cpus && |s'.pc| == |s'.burst| == |c.programs| && QuantumOf(c, s', s'.cpus[k])
  {
    hide M.Ok, M.Get, M.Shaped, Owned;
    FetchedWasQueued(c, s);
  }

  lemma OtherSteps(c: Config, s: State, step: Step)
    requires Shaped(c, s) && Enabled(s, step) && !step.CpuStep?
    ensures var s' := Do(c, s, step);
            s'.cpus == s.cpus && s'.pc == s.pc && s'.burst == s.burst && s'.ran == s.ran
  {
    hide M.Ok, M.Put, T.Do;
  }

  lemma OwnersDiffer(c: Config, s: State, j: nat, k: nat)
    requires Shaped(c, s) && Owned(c, s) && j < c.cpus && k < c.cpus && j != k && Owner(s.cpus[j]).Pid?
    ensures Owner(s.cpus[j]).p < |c.programs| && Owner(s.cpus[k]) != Owner(s.cpus[j]) && s.place[Owner(s.cpus[j]).p] != Queued
  {
  }

  lemma IdleHasNoneLeft(c: Config, s: State, k: nat)
    requires Shaped(c, s) && Executed(c, s) && k < c.cpus && Owner(s.cpus[k]) == Nobody
    ensures LeftOf(s.cpus[k]) == 0
  {
  }

  lemma QuantumStays(c: Config, s: State, step: Step, j: nat)
    requires Inv(c, s) && Enabled(s, step) && j < c.cpus && |s.cpus| == c.cpus
    requires |s.pc| == |s.burst| == |c.programs| && QuantumOf(c, s, s.cpus[j])
    ensures Shaped(c, s)
    ensures var s' := Do(c, s, step);
            |s'.cpus| == c.cpus && |s'.pc| == |s'.burst| == |c.programs| && QuantumOf(c, s', s'.cpus[j])
  {
    hide Inv, Shaped, Owned, Executed, Do;
    Parts(c, s);
    if !step.CpuStep? {
      OtherSteps(c, s, step);
    } else if step.c == j {
      OwnQuantum(c, s, j);
    } else {
      OtherQuantum(c, s, step.c, j);
    }
  }

  lemma OtherQuantum(c: Config, s: State, k: nat, j: nat)
    requires Shaped(c, s) && Owned(c, s) && Executed(c, s) && Enabled(s, CpuStep(k)) && k < c.cpus && j < c.cpus && j != k
    requires QuantumOf(c, s, s.cpus[j])
    ensures var s' := Do(c, s, CpuStep(k));
            |s'.cpus| == c.cpus && |s'.pc| == |s'.burst| == |c.programs| && QuantumOf(c, s', s'.cpus[j])
  {
    hide Owned, Executed, Do;
    StillShaped(c, s, k);
    if Owner(s.cpus[j]).Pid? {
      OwnersDiffer(c, s, j, k);
      if Owner(s.cpus[k]) == Nobody {
        IdleHasNoneLeft(c, s, k);
      }
      CpuTouches(c, s, k, Owner(s.cpus[j]).p);
    }
  }

  lemma StillShaped(c: Config, s: State, k: nat)
    requires Shaped(c, s) && Enabled(s, CpuStep(k)) && k < c.cpus
    ensures var s' := Do(c, s, CpuStep(k));
            |s'.pc| == |s'.burst| == |c.programs| && |s'.cpus| == c.cpus && s'.cpus == s.cpus[k := s'.cpus[k]]
  {
    hide M.Ok, M.Put, T.Do;
  }

  lemma StepKeepsQuanta(c: Config, s: State, step: Step)
    requires Inv(c, s) && Shaped(c, s) && Quanta(c, s) && Enabled(s, step)
    ensures Inv(c, Do(c, s, step)) && Shaped(c, Do(c, s, step)) && Quanta(c, Do(c, s, step))
  {
    hide Inv, Shaped, Do, QuantumOf;
    StepKeeps(c, s, step);
    Parts(c, s);
    Parts(c, Do(c, s, step));
    forall j | 0 <= j < c.cpus ensures QuantumOf(c, Do(c, s, step), Do(c, s, step).cpus[j]) {
      QuantumStays(c, s, step, j);
    }
  }

  lemma {:induction false} RunKeepsQuanta(c: Config, s: State, steps: seq<Step>)
    requires Inv(c, s) && Shaped(c, s) && Quanta(c, s) && Possible(c, s, steps)
    ensures Inv(c, Run(c, s, steps)) && Shaped(c, Run(c, s, steps)) && Quanta(c, Run(c, s, steps))
    decreases |steps|
  {
    hide Inv, Do, Enabled, Shaped, Quanta;
    if steps != [] {
      StepKeepsQuanta(c, s, steps[0]);
      RunKeepsQuanta(c, Do(c, s, steps[0]), steps[1..]);
    }
  }

  lemma BootQuanta(c: Config)
    requires Legal(c)
    ensures Inv(c, Boot(c)) && Shaped(c, Boot(c)) && Quanta(c, Boot(c))
  {
    hide Inv;
    BootInv(c);
    Parts(c, Boot(c));
  }

  // ---------------------------------------------------------------- leaving a CPU

  predicate AtHeadWith(s: State, k: nat, p: nat) { k < |s.cpus| && s.cpus[k].Head? && s.cpus[k].proc == Pid(p) }

  /** A process leaves the CPU it is on only at the head of the CPU's loop: as finished exactly if all its code
      is executed, and else put back exactly if it has had its whole quantum. */
  lemma LeavesCpuIff(c: Config, s: State, step: Step, p: nat)
    requires Inv(c, s) && Shaped(c, s) && Quanta(c, s) && Enabled(s, step) && p < |c.programs| && s.place[p].OnCpu?
    ensures var s', k := Do(c, s, step), s.place[p].c;
            var atHead, full := step == CpuStep(k) && AtHeadWith(s, k, p), s.pc[p] == c.programs[p].size;
            && |s'.place| == |c.programs|
            && (s'.place[p] == Finished <==> atHead && full)
            && (s'.place[p] == Queued <==> atHead && !full && s.burst[p] == c.timeSlot)
            && (s'.place[p] != s.place[p] ==> s'.place[p] == Finished || s'.place[p] == Queued)
  {
    hide Inv, Do;
    Parts(c, s);
    var k := s.place[p].c;
    assert k < c.cpus && Owner(s.cpus[k]) == Pid(p) && QuantumOf(c, s, s.cpus[k]) && LeftOk(c, s.cpus[k]) && s.pc[p] <= c.programs[p].size;
    hide Owned, Executed, Quanta;
    match step {
      case CpuStep(j) =>
        if j == k {
          OwnStepPlaces(c, s, k, p);
        } else {
          OtherStepPlaces(c, s, j, p);
        }
      case LoaderStep => LoaderStepPlaces(c, s, p);
      case _ => TimerStepPlaces(c, s, step);
    }
  }

  lemma OwnStepPlaces(c: Config, s: State, k: nat, p: nat)
    requires Shaped(c, s) && Enabled(s, CpuStep(k)) && p < |c.programs| && s.place[p] == OnCpu(k) && Owner(s.cpus[k]) == Pid(p)
    ensures var s', cpu := Do(c, s, CpuStep(k)), s.cpus[k];
            && |s'.place| == |c.programs|
            && s'.place[p] == if !cpu.Head? then OnCpu(k)
                              else if s.pc[p] == c.programs[p].size then Finished
                              else if cpu.left == 0 then Queued else OnCpu(k)
  {
    hide M.Ok, M.Put, T.Do;
  }

  lemma OtherStepPlaces(c: Config, s: State, j: nat, p: nat)
    requires Inv(c, s) && Shaped(c, s) && Enabled(s, CpuStep(j)) && p < |c.programs| && s.place[p].OnCpu? && s.place[p].c != j
    ensures |Do(c, s, CpuStep(j)).place| == |c.programs| && Do(c, s, CpuStep(j)).place[p] == s.place[p]
  {
    hide M.Ok, M.Put, T.Do, Fetch;
    Parts(c, s);
    match s.cpus[j] {
      case Head(Nobody, left) => FetchPlaces(c, s, j, left, Leaving(Nobody, left), p);
      case Refetch => FetchPlaces(c, s, j, 0, Checking(AllLoaded(c, s)), p);
      case _ =>
    }
  }

  lemma FetchPlaces(c: Config, s: State, k: nat, left: int, empty: Cpu, p: nat)
    requires Shaped(c, s) && Owned(c, s) && k < c.cpus && p < |c.programs| && s.place[p] != Queued
    ensures var s' := Fetch(c, s, k, left, empty); |s'.place| == |c.programs| && s'.place[p] == s.place[p]
  {
    hide M.Ok, M.Get, M.Shaped, Owned;
    FetchedWasQueued(c, s);
  }

  lemma LoaderStepPlaces(c: Config, s: State, p: nat)
    requires Inv(c, s) && Shaped(c, s) && Enabled(s, LoaderStep) && p < |c.programs| && s.place[p] != Unloaded
    ensures |Do(c, s, LoaderStep).place| == |c.programs| && Do(c, s, LoaderStep).place[p] == s.place[p]
  {
    hide M.Ok, M.Put, T.Do;
    Parts(c, s);
  }

  lemma TimerStepPlaces(c: Config, s: State, step: Step)
    requires Shaped(c, s) && Enabled(s, step) && !step.CpuStep? && !step.LoaderStep?
    ensures Do(c, s, step).place == s.place && Do(c, s, step).loader == s.loader
  {
    hide M.Ok, T.Do;
  }

  /** Quanta are whole, over all interleavings: in every reachable state an unfinished process on a CPU has
      its quantum left but for the instructions it has executed since it was dispatched; so it is put back
      only after exactly a time slot of them, and only then. */
  lemma QuantaAreWhole(c: Config, steps: seq<Step>, p: nat)
    requires Legal(c) && Possible(c, Boot(c), steps) && p < |c.programs|
    ensures var s := Run(c, Boot(c), steps);
            && Shaped(c, s)
            && (forall k :: 0 <= k < c.cpus && Owner(s.cpus[k]) == Pid(p) && s.pc[p] < c.programs[p].size ==>
                  s.burst[p] + LeftOf(s.cpus[k]) == c.timeSlot)
            && forall step :: Enabled(s, step) && s.place[p].OnCpu? ==>
                 var s' := Do(c, s, step);
                 && |s'.place| == |c.programs|
                 && (s'.place[p] == Queued <==>
                       && step == CpuStep(s.place[p].c) && AtHeadWith(s, s.place[p].c, p)
                       && s.pc[p] < c.programs[p].size && s.burst[p] == c.timeSlot)
                 && (s'.place[p] == Finished <==>
                       step == CpuStep(s.place[p].c) && AtHeadWith(s, s.place[p].c, p) && s.pc[p] == c.programs[p].size)
  {
    hide Inv, Do, Enabled, QuantumOf, Possible, Run;
    var s := Run(c, Boot(c), steps);
    BootQuanta(c);
    RunKeepsQuanta(c, Boot(c), steps);
    Parts(c, s);
    forall k | 0 <= k < c.cpus && Owner(s.cpus[k]) == Pid(p) && s.pc[p] < c.programs[p].size
      ensures s.burst[p] + LeftOf(s.cpus[k]) == c.timeSlot
    {
      QuantumIs(c, s, k, p);
    }
    assert s.pc[p] <= c.programs[p].size;
    forall step | Enabled(s, step) && s.place[p].OnCpu?
      ensures var s', k := Do(c, s, step), s.place[p].c;
              var atHead, full := step == CpuStep(k) && AtHeadWith(s, k, p), s.pc[p] == c.programs[p].size;
              && |s'.place| == |c.programs|
              && (s'.place[p] == Finished <==> atHead && full)
              && (s'.place[p] == Queued <==> atHead && !full && s.burst[p] == c.timeSlot)
    {
      LeavesCpuIff(c, s, step, p);
    }
  }

  lemma QuantumIs(c: Config, s: State, k: nat, p: nat)
    requires Shaped(c, s) && Quanta(c, s) && k < c.cpus && p < |c.programs| && Owner(s.cpus[k]) == Pid(p)
    requires s.pc[p] < c.programs[p].size
    ensures s.burst[p] + LeftOf(s.cpus[k]) == c.timeSlot
  {
    assert QuantumOf(c, s, s.cpus[k]);
  }

  // ---------------------------------------------------------------- leaving the loop

  /** A CPU leaves its loop exactly when it looks at `done` with no process, and `done` is set. */
  lemma StopsIff(c: Config, s: State, step: Step, k: nat)
    requires Inv(c, s) && Shaped(c, s) && Enabled(s, step) && k < c.cpus
    ensures var s' := Do(c, s, step);
            && |s.cpus| == |s'.cpus| == c.cpus
            && (s.cpus[k] != Exiting && s'.cpus[k] == Exiting <==> step == CpuStep(k) && s.cpus[k].Checking? && s.done)
            && (s'.cpus[k] == Gone ==> s.cpus[k] == Gone || s.cpus[k] == Exiting)
  {
    hide Inv, M.Ok, M.Put, M.Get, T.Do;
  }

  /** A CPU ends a slot with no process only if get_proc, in this slot, found every queue empty: at the head of
      the loop in the same step, or before the test of `done`. */
  lemma IdlesOnlyWhenEmpty(c: Config, s: State, step: Step, k: nat)
    requires Inv(c, s) && Shaped(c, s) && Enabled(s, step) && k < c.cpus
    ensures var s' := Do(c, s, step);
            && |s.cpus| == |s'.cpus| == c.cpus
            && (s'.cpus[k].Leaving? && s'.cpus[k].proc == Nobody && s'.cpus[k] != s.cpus[k] ==>
                  step == CpuStep(k) && (s.cpus[k].Checking? || (AtHeadIdle(s, k) && M.AllEmpty(s.mlq))))
            && (s'.cpus[k].Checking? && s'.cpus[k] != s.cpus[k] ==>
                  step == CpuStep(k) && s.cpus[k] == Refetch && M.AllEmpty(s.mlq))
  {
    hide Inv, Owned, Executed, M.Ok, M.Put, M.Get, T.Do, Fetch, M.AllEmpty;
    Parts(c, s);
    if step == CpuStep(k) {
      match s.cpus[k] {
        case Head(Nobody, left) => FetchFindsNone(c, s, k, left, Leaving(Nobody, left));
        case Refetch => FetchFindsNone(c, s, k, 0, Checking(AllLoaded(c, s)));
        case _ =>
      }
    } else if step.CpuStep? {
      StillShaped(c, s, step.c);
    }
  }

  predicate AtHeadIdle(s: State, k: nat) { k < |s.cpus| && s.cpus[k].Head? && s.cpus[k].proc == Nobody }

  lemma FetchFindsNone(c: Config, s: State, k: nat, left: int, empty: Cpu)
    requires Shaped(c, s) && k < c.cpus
    ensures var s' := Fetch(c, s, k, left, empty);
            |s'.cpus| == c.cpus && (s'.cpus[k].Running? || (M.AllEmpty(s.mlq) && s'.cpus[k] == empty))
  {
    M.GetIsWorkConserving(s.mlq);
    hide M.Ok, M.Get, M.AllEmpty, M.AfterRefill, M.Ready;
  }

  // ---------------------------------------------------------------- one instruction per slot

  /** A process that a CPU may still run() has code left, or has no code at all. */
  predicate Runnable(c: Config, s: State, p: nat)
    requires |s.pc| == |c.programs|
  {
    p < |c.programs| ==> s.pc[p] < c.programs[p].size || c.programs[p].size == 0
  }

  ghost predicate Unspent(c: Config, s: State)
    requires Shaped(c, s)
  {
    && (forall p :: 0 <= p < |c.programs| && s.place[p] == Unloaded ==> s.pc[p] == 0)
    && (forall p :: 0 <= p < |c.programs| && s.place[p] == Queued ==> Runnable(c, s, p))
    && (forall k :: 0 <= k < c.cpus && s.cpus[k].Running? ==> Runnable(c, s, s.cpus[k].p))
  }

  /** The step executes an instruction on CPU k. */
  predicate Executes(c: Config, s: State, step: Step, k: nat)
    requires Shaped(c, s) && Enabled(s, step)
  {
    step == CpuStep(k) && Do(c, s, step).ran != s.ran
  }

  /** CPU k has a process with code, and is through with it for this slot. */
  predicate Through(c: Config, cpu: Cpu) {
    cpu.Leaving? && cpu.proc.Pid? && cpu.proc.p < |c.programs| && c.programs[cpu.proc.p].size > 0
  }

  /** The step enters next_slot with such a process. */
  predicate EndsBusySlot(c: Config, s: State, step: Step, k: nat)
    requires Shaped(c, s) && Enabled(s, step) && k < c.cpus
  {
    && step == CpuStep(k) && Owner(s.cpus[k]).Pid? && c.programs[Owner(s.cpus[k]).p].size > 0
    && Do(c, s, step).bar.devs != s.bar.devs && s.bar.devs[k].phase == T.Working
  }

  ghost function Executions(c: Config, s: State, steps: seq<Step>, k: nat): nat
    requires Possible(c, s, steps)
    decreases |steps|
  {
    if steps == [] then 0
    else (if Executes(c, s, steps[0], k) then 1 else 0) + Executions(c, Do(c, s, steps[0]), steps[1..], k)
  }

  ghost function BusySlots(c: Config, s: State, steps: seq<Step>, k: nat): nat
    requires Possible(c, s, steps) && k < c.cpus
    decreases |steps|
  {
    if steps == [] then 0
    else (if EndsBusySlot(c, s, steps[0], k) then 1 else 0) + BusySlots(c, Do(c, s, steps[0]), steps[1..], k)
  }

  lemma StepKeepsUnspent(c: Config, s: State, step: Step)
    requires Inv(c, s) && Shaped(c, s) && Unspent(c, s) && Enabled(s, step)
    ensures Inv(c, Do(c, s, step)) && Shaped(c, Do(c, s, step)) && Unspent(c, Do(c, s, step))
  {
    hide Inv, Do;
    StepKeeps(c, s, step);
    Parts(c, s);
    Parts(c, Do(c, s, step));
    hide Shaped, Owned, Executed;
    match step {
      case CpuStep(k) => CpuKeepsUnspent(c, s, k);
      case LoaderStep => LoaderKeepsUnspent(c, s);
      case _ => OtherSteps(c, s, step); TimerStepPlaces(c, s, step);
    }
  }

  lemma CpuKeepsUnspent(c: Config, s: State, k: nat)
    requires Inv(c, s) && Shaped(c, s) && Unspent(c, s) && Enabled(s, CpuStep(k)) && Shaped(c, Do(c, s, CpuStep(k)))
    ensures Unspent(c, Do(c, s, CpuStep(k)))
  {
    hide Inv, Shaped, Do, Unspent;
    Parts(c, s);
    match s.cpus[k] {
      case Head(Nobody, left) => FetchingKeepsUnspent(c, s, k);
      case Refetch => FetchingKeepsUnspent(c, s, k);
      case _ => HoldingKeepsUnspent(c, s, k);
    }
  }

  lemma FetchingKeepsUnspent(c: Config, s: State, k: nat)
    requires Shaped(c, s) && Owned(c, s) && Unspent(c, s) && Enabled(s, CpuStep(k)) && k < c.cpus
    requires s.cpus[k] == Refetch || (s.cpus[k].Head? && s.cpus[k].proc == Nobody)
    requires Shaped(c, Do(c, s, CpuStep(k)))
    ensures Unspent(c, Do(c, s, CpuStep(k)))
  {
    hide M.Ok, Unspent, Owned, Fetch;
    match s.cpus[k] {
      case Head(_, left) => FetchKeepsUnspent(c, s, k, left, Leaving(Nobody, left));
      case Refetch => FetchKeepsUnspent(c, s, k, 0, Checking(AllLoaded(c, s)));
    }
  }

  /** A CPU that does not fetch works on the records of its own process. */
  predicate WorksOn(c: Config, s: State, s': State, k: nat, h: Held)
    requires |s.pc| == |s.place| == |c.programs| && k < |s.cpus|
  {
    && |s'.cpus| == |s.cpus| && s'.cpus == s.cpus[k := s'.cpus[k]] && |s'.pc| == |s'.place| == |c.programs|
    && (forall p :: 0 <= p < |c.programs| && h != Pid(p) ==> s'.pc[p] == s.pc[p] && s'.place[p] == s.place[p])
    && (forall p :: 0 <= p < |c.programs| && s'.place[p] == Queued && s.place[p] != Queued ==>
          s'.pc[p] == s.pc[p] != c.programs[p].size)
    && (forall p :: 0 <= p < |c.programs| && h == Pid(p) ==> s'.place[p] == s.place[p] || !s'.place[p].Unloaded?)
    && (s'.cpus[k].Running? ==> h == Pid(s'.cpus[k].p) && s'.pc == s.pc
                                && (h.p < |c.programs| ==> s.pc[h.p] != c.programs[h.p].size))
  }

  lemma HoldingWorks(c: Config, s: State, k: nat)
    requires Shaped(c, s) && Enabled(s, CpuStep(k)) && k < c.cpus
    requires s.cpus[k] != Refetch && !(s.cpus[k].Head? && s.cpus[k].proc == Nobody)
    ensures WorksOn(c, s, Do(c, s, CpuStep(k)), k, Owner(s.cpus[k]))
  {
    hide M.Ok, M.Put, T.Do;
  }

  lemma HoldingKeepsUnspent(c: Config, s: State, k: nat)
    requires Shaped(c, s) && Owned(c, s) && Executed(c, s) && Unspent(c, s) && Enabled(s, CpuStep(k)) && k < c.cpus
    requires s.cpus[k] != Refetch && !(s.cpus[k].Head? && s.cpus[k].proc == Nobody) && Shaped(c, Do(c, s, CpuStep(k)))
    ensures Unspent(c, Do(c, s, CpuStep(k)))
  {
    HoldingWorks(c, s, k);
    hide Do;
    WorkKeepsUnspent(c, s, Do(c, s, CpuStep(k)), k);
  }

  lemma WorkKeepsUnspent(c: Config, s: State, s': State, k: nat)
    requires Shaped(c, s) && Owned(c, s) && Executed(c, s) && Unspent(c, s) && k < c.cpus && Shaped(c, s')
    requires WorksOn(c, s, s', k, Owner(s.cpus[k]))
    ensures Unspent(c, s')
  {
    var h := Owner(s.cpus[k]);
    assert forall j :: 0 <= j < c.cpus && j != k && Owner(s.cpus[j]).Pid? ==> Owner(s.cpus[j]) != h;
    assert h.Pid? ==> s.place[h.p] == OnCpu(k) && s.pc[h.p] <= c.programs[h.p].size;
    hide M.Ok, Owned, Executed;
    forall j | 0 <= j < c.cpus && s'.cpus[j].Running? ensures Runnable(c, s', s'.cpus[j].p) {
      if j != k {
        assert Owner(s.cpus[j]) == Pid(s.cpus[j].p);
      }
    }
  }

  lemma FetchKeepsUnspent(c: Config, s: State, k: nat, left: int, empty: Cpu)
    requires Shaped(c, s) && Owned(c, s) && Unspent(c, s) && k < c.cpus && Owner(empty) == Nobody
    requires Shaped(c, Fetch(c, s, k, left, empty))
    ensures Unspent(c, Fetch(c, s, k, left, empty))
  {
    hide M.Get, M.Ok, M.Shaped, Owned;
    FetchedWasQueued(c, s);
  }

  lemma LoaderKeepsUnspent(c: Config, s: State)
    requires Inv(c, s) && Shaped(c, s) && Unspent(c, s) && Enabled(s, LoaderStep) && Shaped(c, Do(c, s, LoaderStep))
    ensures Unspent(c, Do(c, s, LoaderStep))
  {
    hide M.Ok, M.Put, T.Do;
    Parts(c, s);
  }

  /** The balance of one step: executing leads to being through, and only the end of the slot ends that. */
  lemma Balance(c: Config, s: State, step: Step, k: nat)
    requires Inv(c, s) && Shaped(c, s) && Unspent(c, s) && Enabled(s, step) && k < c.cpus
    ensures var s' := Do(c, s, step);
            && |s'.cpus| == |s.cpus| == c.cpus && |s'.bar.devs| == c.cpus + 1
            && (if Executes(c, s, step, k) then 1 else 0) + (if Through(c, s.cpus[k]) then 1 else 0)
            == (if EndsBusySlot(c, s, step, k) then 1 else 0) + (if Through(c, s'.cpus[k]) then 1 else 0)
            && T.FinishedSlots(s'.bar.devs[k]) >= T.FinishedSlots(s.bar.devs[k]) + (if EndsBusySlot(c, s, step, k) then 1 else 0)
  {
    hide Inv;
    Parts(c, s);
    match step {
      case CpuStep(j) =>
        if j == k {
          OwnBalance(c, s, k);
        } else {
          OtherBalance(c, s, j, k);
        }
      case _ => NoBalance(c, s, step, k);
    }
  }

  lemma OwnBalance(c: Config, s: State, k: nat)
    requires Inv(c, s) && Shaped(c, s) && Unspent(c, s) && Enabled(s, CpuStep(k)) && k < c.cpus
    ensures var step := CpuStep(k);
            var s' := Do(c, s, step);
            && |s'.cpus| == |s.cpus| == c.cpus && |s'.bar.devs| == c.cpus + 1
            && (if Executes(c, s, step, k) then 1 else 0) + (if Through(c, s.cpus[k]) then 1 else 0)
            == (if EndsBusySlot(c, s, step, k) then 1 else 0) + (if Through(c, s'.cpus[k]) then 1 else 0)
            && T.FinishedSlots(s'.bar.devs[k]) >= T.FinishedSlots(s.bar.devs[k]) + (if EndsBusySlot(c, s, step, k) then 1 else 0)
  {
    hide Inv, Do;
    Parts(c, s);
    HolderFacts(c, s, k);
    match s.cpus[k] {
      case Storing(p, left, i, j) => StoringBalance(c, s, k);
      case Leaving(_, _) => BarrierBalance(c, s, k);
      case Asleep(_, _) => BarrierBalance(c, s, k);
      case Exiting => BarrierBalance(c, s, k);
      case _ => PlainBalance(c, s, k);
    }
  }

  lemma StoringBalance(c: Config, s: State, k: nat)
    requires Shaped(c, s) && Executed(c, s) && Enabled(s, CpuStep(k)) && k < c.cpus && s.cpus[k].Storing?
    ensures var s' := Do(c, s, CpuStep(k));
            && |s'.cpus| == |s.cpus| == c.cpus && s'.bar == s.bar && |s.bar.devs| == c.cpus + 1
            && Executes(c, s, CpuStep(k), k) && Through(c, s'.cpus[k])
  {
    hide M.Ok, M.Get, M.Put, T.Do;
    assert Exact(c, s, s.cpus[k]);
    var p := s.cpus[k].p;
    assert Owner(s.cpus[k]) == Pid(p) && s.ran[p] + [s.cpus[k].i] != s.ran[p];
  }

  lemma BarrierBalance(c: Config, s: State, k: nat)
    requires Shaped(c, s) && Enabled(s, CpuStep(k)) && k < c.cpus && PhaseOfCpu(s.cpus[k], s.bar.devs[k].phase)
    requires s.cpus[k].Leaving? || s.cpus[k].Asleep? || s.cpus[k] == Exiting
    ensures var s' := Do(c, s, CpuStep(k));
            && |s'.cpus| == |s.cpus| == c.cpus && |s'.bar.devs| == |s.bar.devs| == c.cpus + 1
            && !Executes(c, s, CpuStep(k), k) && !Through(c, s'.cpus[k])
            && (EndsBusySlot(c, s, CpuStep(k), k) <==> Through(c, s.cpus[k]))
            && T.FinishedSlots(s'.bar.devs[k]) == T.FinishedSlots(s.bar.devs[k]) + (if s.cpus[k].Leaving? then 1 else 0)
  {
    hide M.Ok, M.Get, M.Put;
    assert s.cpus[k].Leaving? ==> Do(c, s, CpuStep(k)).bar.devs[k] != s.bar.devs[k];
  }

  lemma PlainBalance(c: Config, s: State, k: nat)
    requires Shaped(c, s) && Unspent(c, s) && Enabled(s, CpuStep(k)) && k < c.cpus
    requires !(s.cpus[k].Leaving? || s.cpus[k].Asleep? || s.cpus[k] == Exiting || s.cpus[k].Storing?)
    ensures var s' := Do(c, s, CpuStep(k));
            && |s'.cpus| == |s.cpus| == c.cpus && s'.bar == s.bar && |s.bar.devs| == c.cpus + 1
            && s'.ran == s.ran && !Through(c, s'.cpus[k])
  {
    hide M.Ok, M.Get, M.Put, T.Do;
  }

  lemma OtherBalance(c: Config, s: State, j: nat, k: nat)
    requires Shaped(c, s) && Enabled(s, CpuStep(j)) && k < c.cpus && j != k
    ensures var step := CpuStep(j);
            var s' := Do(c, s, step);
            && |s'.cpus| == |s.cpus| == c.cpus && |s'.bar.devs| == c.cpus + 1
            && s'.cpus[k] == s.cpus[k] && s'.bar.devs[k] == s.bar.devs[k]
  {
    hide M.Ok, M.Get, M.Put;
  }

  lemma NoBalance(c: Config, s: State, step: Step, k: nat)
    requires Shaped(c, s) && Enabled(s, step) && k < c.cpus && !step.CpuStep?
    ensures var s' := Do(c, s, step);
            && |s'.cpus| == |s.cpus| == c.cpus && |s'.bar.devs| == c.cpus + 1
            && s'.cpus[k] == s.cpus[k] && T.FinishedSlots(s'.bar.devs[k]) == T.FinishedSlots(s.bar.devs[k])
  {
    hide M.Ok, M.Get, M.Put;
  }

  lemma BootUnspent(c: Config)
    requires Legal(c)
    ensures Shaped(c, Boot(c)) && Unspent(c, Boot(c))
  {
  }

  lemma {:induction false} RunBalance(c: Config, s: State, steps: seq<Step>, k: nat)
    requires Inv(c, s) && Shaped(c, s) && Unspent(c, s) && Possible(c, s, steps) && k < c.cpus
    ensures var s' := Run(c, s, steps);
            && |s'.cpus| == |s.cpus| == c.cpus && |s'.bar.devs| == |s.bar.devs| == c.cpus + 1
            && Executions(c, s, steps, k) + (if Through(c, s.cpus[k]) then 1 else 0)
            == BusySlots(c, s, steps, k) + (if Through(c, s'.cpus[k]) then 1 else 0)
            && T.FinishedSlots(s'.bar.devs[k]) >= T.FinishedSlots(s.bar.devs[k]) + BusySlots(c, s, steps, k)
    decreases |steps|
  {
    hide Inv, Unspent, Enabled, Do, Executes, EndsBusySlot, Through, T.FinishedSlots;
    Sizes(c, s);
    if steps != [] {
      var s1 := Do(c, s, steps[0]);
      StepKeepsUnspent(c, s, steps[0]);
      Balance(c, s, steps[0], k);
      RunBalance(c, s1, steps[1..], k);
    }
  }

  /** One instruction per slot, over all interleavings: a CPU executes exactly one in each slot in which it has
      a process with any code, and so never more than there were slots. */
  lemma OneInstructionPerSlot(c: Config, steps: seq<Step>, k: nat)
    requires Legal(c) && Possible(c, Boot(c), steps) && k < c.cpus
    ensures var s := Run(c, Boot(c), steps);
            && |s.cpus| == c.cpus && |s.bar.devs| == c.cpus + 1
            && Executions(c, Boot(c), steps, k) == BusySlots(c, Boot(c), steps, k) + (if Through(c, s.cpus[k]) then 1 else 0)
            && BusySlots(c, Boot(c), steps, k) <= T.FinishedSlots(s.bar.devs[k])
            && Executions(c, Boot(c), steps, k) <= s.bar.time + 1
  {
    hide Run, Possible, Executions, BusySlots, Boot;
    var s := Run(c, Boot(c), steps);
    BootInv(c);
    BootUnspent(c);
    StartsFree(c, k);
    RunKeeps(c, Boot(c), steps);
    RunBalance(c, Boot(c), steps, k);
    SlotsSoFar(c, s, k);
  }

  lemma StartsFree(c: Config, k: nat)
    requires Legal(c) && k < c.cpus
    ensures !Through(c, Boot(c).cpus[k]) && T.FinishedSlots(Boot(c).bar.devs[k]) == 0
  {
  }

  lemma SlotsSoFar(c: Config, s: State, k: nat)
    requires Inv(c, s) && k < c.cpus && |s.cpus| == c.cpus && |s.bar.devs| == c.cpus + 1
    ensures T.FinishedSlots(s.bar.devs[k]) + (if Through(c, s.cpus[k]) then 1 else 0) <= s.bar.time + 1
  {
    hide Owned, Executed, Closing, M.Ok;
    T.SlotsStraddleTime(s.bar, k);
    assert PhaseOfCpu(s.cpus[k], s.bar.devs[k].phase);
  }
}
