/** The multi-CPU run (os.c, cpu.c): any number of CPU threads and the loader over the scheduler and the
    slot barrier, as an interleaving of atomic steps. */
module Os {
  import T = Timer
  import M = Mlq
  import opened Queue

  /** A configured process: its priority, the size of its code and the slot it is loaded in. */
  datatype Program = Program(prio: nat, size: nat, start: nat)

  datatype Config = Config(timeSlot: nat, cpus: nat, programs: seq<Program>)

  predicate Legal(c: Config) {
    && c.timeSlot > 0 && c.cpus > 0 && |c.programs| <= MAX_QUEUE_SIZE
    && forall p :: 0 <= p < |c.programs| ==> c.programs[p].prio < M.MAX_PRIO
  }

  datatype Held = Nobody | Pid(p: nat)

  /** Where a CPU thread is in its loop: at the head; about to call get_proc after it finished or put
      back a process; about to look at `done` with no process, having called get_proc when all
      programs were loaded or not; in run(), which takes no lock: about to compare pc with the code
      size, to read the instruction at pc, to read pc again for its increment, having read instruction
      i, and to store j + 1; about to enter next_slot; inside it; out of the loop; detached. */
  datatype Cpu =
    | Head(proc: Held, left: int)
    | Refetch
    | Checking(sawAll: bool)
    | Running(p: nat, left: int)
    | Decoding(p: nat, left: int)
    | Reading(p: nat, left: int, i: nat)
    | Storing(p: nat, left: int, i: nat, j: nat)
    | Leaving(proc: Held, left: int)
    | Asleep(proc: Held, left: int)
    | Exiting
    | Gone

  /** The loader, with the number of programs it has added. */
  datatype Loader = AtHead(i: nat) | Pausing(i: nat) | Sleeping(i: nat) | Ending | Ended

  /** Which thread, if any, has a process.  A record kept beside the program's own variables. */
  datatype Place = Unloaded | Queued | OnCpu(c: nat) | Finished

  /** `ran` records the instructions each process has executed, in order, and `burst` how many of them
      since it was last dispatched. */
  datatype State = State(bar: T.State, cpus: seq<Cpu>, loader: Loader, done: bool, mlq: M.State,
                         pc: seq<nat>, place: seq<Place>, ran: seq<seq<nat>>, burst: seq<nat>)

  function Boot(c: Config): State {
    var n := |c.programs|;
    State(T.Start(c.cpus + 1), seq(c.cpus, _ => Head(Nobody, 0)), AtHead(0), false, M.Start(),
          seq(n, _ => 0), seq(n, _ => Unloaded), seq(n, _ => []), seq(n, _ => 0))
  }

  function Loaded(c: Config, s: State): nat {
    match s.loader
    case AtHead(i) => i
    case Pausing(i) => i
    case Sleeping(i) => i
    case _ => |c.programs|
  }

  predicate AllLoaded(c: Config, s: State) { Loaded(c, s) == |c.programs| }

  function Pcb(c: Config, p: nat): PcbPtr
    requires p < |c.programs|
  {
    Proc(p, c.programs[p].prio)
  }

  /** Rouse and RouseTimer are wake-ups without a signal, of a device thread and of the timer. */
  datatype Step = CpuStep(c: nat) | LoaderStep | TimerStep | StopTimer | Rouse(i: nat) | RouseTimer

  /** A thread can take its next step unless that is a barrier call that has to wait. */
  predicate CpuEnabled(s: State, k: nat) {
    k < |s.cpus| &&
    match s.cpus[k]
    case Leaving(_, _) => T.Enabled(s.bar, T.Signal(k))
    case Asleep(_, _) => T.Enabled(s.bar, T.Test(k))
    case Exiting => T.Enabled(s.bar, T.Detach(k))
    case Gone => false
    case _ => true
  }

  predicate LoaderEnabled(s: State) {
    match s.loader
    case AtHead(_) => true
    case Pausing(_) => T.Enabled(s.bar, T.Signal(|s.cpus|))
    case Sleeping(_) => T.Enabled(s.bar, T.Test(|s.cpus|))
    case Ending => T.Enabled(s.bar, T.Detach(|s.cpus|))
    case Ended => false
  }

  predicate Enabled(s: State, step: Step) {
    match step
    case CpuStep(k) => CpuEnabled(s, k)
    case LoaderStep => LoaderEnabled(s)
    case TimerStep => T.Enabled(s.bar, T.TimerStep)
    case StopTimer => T.Enabled(s.bar, T.StopTimer)
    case Rouse(i) => T.Enabled(s.bar, T.Rouse(i))
    case RouseTimer => T.Enabled(s.bar, T.RouseTimer)
  }

  predicate Shaped(c: Config, s: State) {
    && Legal(c) && |s.cpus| == c.cpus && |s.bar.devs| == c.cpus + 1
    && |s.pc| == |s.place| == |s.ran| == |s.burst| == |c.programs|
    && M.Ok(s.mlq)
    && (forall i, k :: 0 <= i < M.MAX_PRIO && 0 <= k < |s.mlq.ready[i]| ==> s.mlq.ready[i][k].pid < |c.programs|)
    && (forall k :: 0 <= k < |s.cpus| ==> Owner(s.cpus[k]).Pid? ==> Owner(s.cpus[k]).p < |c.programs|)
    && Loaded(c, s) <= |c.programs|
  }

  /** The process a CPU thread holds. */
  function Owner(cpu: Cpu): Held {
    match cpu
    case Head(h, _) => h
    case Running(p, _) => Pid(p)
    case Decoding(p, _) => Pid(p)
    case Reading(p, _, _) => Pid(p)
    case Storing(p, _, _, _) => Pid(p)
    case Leaving(h, _) => h
    case Asleep(h, _) => h
    case _ => Nobody
  }

  /** get_proc by CPU k; `empty` is where the CPU goes if there is nothing to run. */
  function Fetch(c: Config, s: State, k: nat, left: int, empty: Cpu): State
    requires Shaped(c, s) && k < |s.cpus|
  {
    M.OkIsShaped(s.mlq);
    M.GetIsWorkConserving(s.mlq);
    var (p, q) := M.Get(s.mlq);
    match p
    case NULL => s.(mlq := q, cpus := s.cpus[k := empty])
    case Proc(pid, prio) =>
      assert s.mlq.ready[prio][0].pid < |c.programs|;
      s.(mlq := q, cpus := s.cpus[k := Running(pid, if left == 0 then c.timeSlot else left)],
         place := s.place[pid := OnCpu(k)], burst := if left == 0 then s.burst[pid := 0] else s.burst)
  }

  /** put_proc or add_proc of process p */
  function Enqueue(c: Config, s: State, p: nat): State
    requires Shaped(c, s) && p < |c.programs|
  {
    M.OkIsShaped(s.mlq);
    s.(mlq := M.Put(s.mlq, Pcb(c, p)), place := s.place[p := Queued])
  }

  /** The store that ends the increment of pc, the execution of instruction i, and the accounting after
      run() */
  function Execute(s: State, k: nat, p: nat, left: int, i: nat, j: nat): State
    requires k < |s.cpus| && p < |s.pc| == |s.ran| == |s.burst|
  {
    s.(cpus := s.cpus[k := Leaving(Pid(p), left - 1)], pc := s.pc[p := j + 1],
       ran := s.ran[p := s.ran[p] + [i]], burst := s.burst[p := s.burst[p] + 1])
  }

  function DoCpu(c: Config, s: State, k: nat): State
    requires Shaped(c, s) && Enabled(s, CpuStep(k))
  {
    match s.cpus[k]
    case Head(Nobody, left) => Fetch(c, s, k, left, Leaving(Nobody, left))
    case Head(Pid(p), left) =>
      assert Owner(s.cpus[k]) == Pid(p);
      if s.pc[p] == c.programs[p].size then s.(cpus := s.cpus[k := Refetch], place := s.place[p := Finished])
      else if left == 0 then Enqueue(c, s, p).(cpus := s.cpus[k := Refetch])
      else s.(cpus := s.cpus[k := Running(p, left)])
    case Refetch => Fetch(c, s, k, 0, Checking(AllLoaded(c, s)))
    case Checking(_) => s.(cpus := s.cpus[k := if s.done then Exiting else Leaving(Nobody, 0)])
    case Running(p, left) =>
      assert Owner(s.cpus[k]) == Pid(p);
      s.(cpus := s.cpus[k := if s.pc[p] >= c.programs[p].size then Leaving(Pid(p), left - 1) else Decoding(p, left)])
    case Decoding(p, left) =>
      assert Owner(s.cpus[k]) == Pid(p);
      s.(cpus := s.cpus[k := Reading(p, left, s.pc[p])])
    case Reading(p, left, i) =>
      assert Owner(s.cpus[k]) == Pid(p);
      s.(cpus := s.cpus[k := Storing(p, left, i, s.pc[p])])
    case Storing(p, left, i, j) =>
      assert Owner(s.cpus[k]) == Pid(p);
      Execute(s, k, p, left, i, j)
    case Leaving(h, left) => s.(cpus := s.cpus[k := Asleep(h, left)], bar := T.Do(s.bar, T.Signal(k)))
    case Asleep(h, left) =>
      s.(cpus := s.cpus[k := if s.bar.devs[k].done then Asleep(h, left) else Head(h, left)], bar := T.Do(s.bar, T.Test(k)))
    case Exiting => s.(cpus := s.cpus[k := Gone], bar := T.Do(s.bar, T.Detach(k)))
  }

  function DoLoader(c: Config, s: State): State
    requires Shaped(c, s) && Enabled(s, LoaderStep)
  {
    var me := |s.cpus|;
    match s.loader
    case AtHead(i) =>
      if i == |c.programs| then s.(done := true, loader := Ending)
      else if s.bar.time < c.programs[i].start then s.(loader := Pausing(i))
      else Enqueue(c, s, i).(loader := Pausing(i + 1))
    case Pausing(i) => s.(loader := Sleeping(i), bar := T.Do(s.bar, T.Signal(me)))
    case Sleeping(i) =>
      s.(loader := if s.bar.devs[me].done then Sleeping(i) else AtHead(i), bar := T.Do(s.bar, T.Test(me)))
    case Ending => s.(loader := Ended, bar := T.Do(s.bar, T.Detach(me)))
  }

  function Do(c: Config, s: State, step: Step): State
    requires Shaped(c, s) && Enabled(s, step)
  {
    match step
    case CpuStep(k) => DoCpu(c, s, k)
    case LoaderStep => DoLoader(c, s)
    case TimerStep => s.(bar := T.Do(s.bar, T.TimerStep))
    case StopTimer => s.(bar := T.Do(s.bar, T.StopTimer))
    case Rouse(i) => s.(bar := T.Do(s.bar, T.Rouse(i)))
    case RouseTimer => s.(bar := T.Do(s.bar, T.RouseTimer))
  }

  // ---------------------------------------------------------------- invariants

  /** The threads are where the barrier thinks they are. */
  predicate Waits(ph: T.Phase) { ph == T.Testing || ph == T.Sleeping }

  predicate PhaseOfCpu(cpu: Cpu, ph: T.Phase) {
    match cpu
    case Asleep(_, _) => Waits(ph)
    case Gone => ph == T.Detached
    case _ => ph == T.Working
  }

  predicate PhaseOfLoader(l: Loader, ph: T.Phase) {
    match l
    case Sleeping(_) => Waits(ph)
    case Ended => ph == T.Detached
    case _ => ph == T.Working
  }

  ghost predicate InStep(c: Config, s: State) {
    && Shaped(c, s) && T.Ok(s.bar)
    && (forall k :: 0 <= k < c.cpus ==> PhaseOfCpu(s.cpus[k], s.bar.devs[k].phase))
    && PhaseOfLoader(s.loader, s.bar.devs[c.cpus].phase)
  }

  predicate Distinct(level: seq<PcbPtr>) { forall j, k :: 0 <= j < k < |level| ==> level[j] != level[k] }

  /** Exclusive ownership: every process is in exactly one place, which is one position of the ready
      level of its priority, one CPU, or nowhere any more or yet. */
  ghost predicate Owned(c: Config, s: State)
    requires Shaped(c, s)
  {
    && (forall p :: 0 <= p < |c.programs| ==>
          && (s.place[p] == Queued <==> Pcb(c, p) in s.mlq.ready[c.programs[p].prio])
          && (s.place[p] == Unloaded <==> Loaded(c, s) <= p)
          && (s.place[p].OnCpu? ==> s.place[p].c < c.cpus && Owner(s.cpus[s.place[p].c]) == Pid(p)))
    && (forall i :: 0 <= i < M.MAX_PRIO ==> Distinct(s.mlq.ready[i]))
    && (forall i, k :: 0 <= i < M.MAX_PRIO && 0 <= k < |s.mlq.ready[i]| ==>
          s.mlq.ready[i][k] == Pcb(c, s.mlq.ready[i][k].pid))
    && (forall k :: 0 <= k < c.cpus && Owner(s.cpus[k]).Pid? ==> s.place[Owner(s.cpus[k]).p] == OnCpu(k))
  }

  /** Instructions still allowed in the current dispatch. */
  predicate LeftOk(c: Config, cpu: Cpu) {
    match cpu
    case Head(h, left) => 0 <= left < c.timeSlot && (h == Nobody ==> left == 0)
    case Running(_, left) => 0 < left <= c.timeSlot
    case Decoding(_, left) => 0 < left <= c.timeSlot
    case Reading(_, left, _) => 0 < left <= c.timeSlot
    case Storing(_, left, _, _) => 0 < left <= c.timeSlot
    case Leaving(h, left) => 0 <= left < c.timeSlot && (h == Nobody ==> left == 0)
    case Asleep(h, left) => 0 <= left < c.timeSlot && (h == Nobody ==> left == 0)
    case _ => true
  }

  function LeftOf(cpu: Cpu): int {
    match cpu
    case Head(_, left) => left
    case Running(_, left) => left
    case Decoding(_, left) => left
    case Reading(_, left, _) => left
    case Storing(_, left, _, _) => left
    case Leaving(_, left) => left
    case Asleep(_, left) => left
    case _ => 0
  }

  /** What a CPU in run() has read of pc is still so when it stores. */
  predicate Exact(c: Config, s: State, cpu: Cpu)
    requires |s.pc| == |c.programs|
  {
    Owner(cpu).Pid? && Owner(cpu).p < |c.programs| ==>
      match cpu
      case Decoding(p, _) => s.pc[p] < c.programs[p].size
      case Reading(p, _, i) => i == s.pc[p] < c.programs[p].size
      case Storing(p, _, i, j) => i == j == s.pc[p] < c.programs[p].size
      case _ => true
  }

  /** Exact execution: each process has run its instructions 0 .. pc-1, once each and in order,
      and no more than a time slot of them since it was last dispatched. */
  ghost predicate Executed(c: Config, s: State)
    requires Shaped(c, s)
  {
    && (forall p :: 0 <= p < |c.programs| ==>
          && s.pc[p] <= c.programs[p].size
          && s.ran[p] == seq(s.pc[p], i => i)
          && s.burst[p] <= c.timeSlot
          && (s.place[p] == Finished ==> s.pc[p] == c.programs[p].size))
    && (forall k :: 0 <= k < c.cpus ==> LeftOk(c, s.cpus[k]) && Exact(c, s, s.cpus[k]))
    && (forall k :: 0 <= k < c.cpus && Owner(s.cpus[k]).Pid? ==>
          s.burst[Owner(s.cpus[k]).p] + LeftOf(s.cpus[k]) <= c.timeSlot)
  }

  /** A CPU that will call get_proc again whatever the others do. */
  predicate Live(cpu: Cpu) { !(cpu.Checking? && cpu.sawAll) && cpu != Exiting && cpu != Gone }

  /** What shutdown rests on: the flag is set only by a loader that is through; a CPU that found no
      process before the last program was added is asleep or further by the time the loader has passed
      its last next_slot; and while a loaded process waits, some CPU will fetch again. */
  ghost predicate Closing(c: Config, s: State)
    requires Shaped(c, s)
  {
    && (s.done <==> s.loader.Ending? || s.loader.Ended?)
    && (forall k :: 0 <= k < c.cpus && (s.cpus[k] == Exiting || s.cpus[k] == Gone) ==> s.done)
    && (forall k :: 0 <= k < c.cpus && s.cpus[k] == Checking(true) ==> AllLoaded(c, s))
    && (forall k :: 0 <= k < c.cpus && s.cpus[k] == Checking(false) && AllLoaded(c, s) ==>
          (s.loader.Pausing? || s.loader.Sleeping?) && s.bar.devs[k].slot <= s.bar.devs[c.cpus].slot)
    && (AllLoaded(c, s) && !M.AllEmpty(s.mlq) ==> exists k :: 0 <= k < c.cpus && Live(s.cpus[k]))
  }

  ghost predicate Inv(c: Config, s: State) {
    InStep(c, s) && Owned(c, s) && Executed(c, s) && Closing(c, s)
  }

  /** What get_proc returns is a configured process from a queue. */
  lemma FetchedWasQueued(c: Config, s: State)
    requires Shaped(c, s) && Owned(c, s)
    ensures M.Shaped(s.mlq)
    ensures var x := M.Get(s.mlq).0; x.Proc? ==> x.pid < |c.programs| && x == Pcb(c, x.pid) && s.place[x.pid] == Queued
  {
    M.GetReturnsAHead(s.mlq);
    hide M.Get, M.Ok, M.Shaped;
    var x := M.Get(s.mlq).0;
    if x.Proc? {
      assert s.mlq.ready[x.prio][0] == Pcb(c, s.mlq.ready[x.prio][0].pid);
    }
  }

  lemma BootInv(c: Config)
    requires Legal(c)
    ensures Inv(c, Boot(c))
  {
    T.StartIsOk(c.cpus + 1);
  }

  // ---------------------------------------------------------------- each step

  /** get_proc by a CPU that holds nothing. */
  lemma FetchKeeps(c: Config, s: State, k: nat, empty: Cpu)
    requires Inv(c, s) && k < c.cpus
    requires || (s.cpus[k] == Refetch && empty == Checking(AllLoaded(c, s)))
             || (s.cpus[k] == Head(Nobody, 0) && empty == Leaving(Nobody, 0))
    ensures Inv(c, Fetch(c, s, k, 0, empty))
  {
    M.OkIsShaped(s.mlq);
    M.GetIsWorkConserving(s.mlq);
    if M.AllEmpty(s.mlq) {
      FindNothingKeeps(c, s, k, empty);
    } else {
      var (p, q) := M.Get(s.mlq);
      assert s.mlq.ready[p.prio][0] == Pcb(c, p.pid);
      DispatchKeeps(c, s, k, p, q.slot);
    }
  }

  lemma FindNothingKeeps(c: Config, s: State, k: nat, empty: Cpu)
    requires Inv(c, s) && k < c.cpus && M.AllEmpty(s.mlq)
    requires || (s.cpus[k] == Refetch && empty == Checking(AllLoaded(c, s)))
             || (s.cpus[k] == Head(Nobody, 0) && empty == Leaving(Nobody, 0))
    ensures Inv(c, s.(cpus := s.cpus[k := empty]))
  {
    hide Owned, Executed;
    LocalMoveKeeps(c, s, k, empty);
    if empty == Checking(false) && s.cpus[k] == Refetch {
      T.SlotsStraddleTime(s.bar, k);
    }
  }

  /** A step of a CPU that touches nothing but its own place in the loop. */
  lemma LocalMoveKeeps(c: Config, s: State, k: nat, cpu: Cpu)
    requires InStep(c, s) && Owned(c, s) && Executed(c, s)
    requires k < c.cpus && Owner(cpu) == Owner(s.cpus[k]) && LeftOk(c, cpu) && LeftOf(cpu) <= LeftOf(s.cpus[k])
    requires PhaseOfCpu(cpu, T.Working) && PhaseOfCpu(s.cpus[k], T.Working) && Exact(c, s, cpu)
    ensures var s' := s.(cpus := s.cpus[k := cpu]);
            InStep(c, s') && Owned(c, s') && Executed(c, s')
  {
    var s' := s.(cpus := s.cpus[k := cpu]);
    InStepFrame(c, s, s', k);
    OwnedFrame(c, s, s');
    hide InStep, Owned, T.Ok, M.Ok;
  }

  lemma InStepFrame(c: Config, s: State, s': State, k: nat)
    requires InStep(c, s) && k < c.cpus && |s'.cpus| == c.cpus && s'.cpus == s.cpus[k := s'.cpus[k]]
    requires Owner(s'.cpus[k]) == Owner(s.cpus[k])
    requires PhaseOfCpu(s'.cpus[k], T.Working) && PhaseOfCpu(s.cpus[k], T.Working)
    requires s'.bar == s.bar && s'.mlq == s.mlq && s'.loader == s.loader
    requires |s'.pc| == |s'.place| == |s'.ran| == |s'.burst| == |c.programs|
    ensures InStep(c, s')
  {
    hide T.Ok, M.Ok;
  }

  /** Ownership depends only on the queues, the record of places and what the CPUs hold. */
  lemma OwnedFrame(c: Config, s: State, s': State)
    requires Shaped(c, s) && Shaped(c, s') && Owned(c, s)
    requires s'.mlq == s.mlq && s'.place == s.place && Loaded(c, s') == Loaded(c, s)
    requires forall k :: 0 <= k < c.cpus ==> Owner(s'.cpus[k]) == Owner(s.cpus[k])
    ensures Owned(c, s')
  {
    hide M.Ok;
  }

  lemma DispatchOwned(c: Config, s: State, s': State, k: nat, p: PcbPtr)
    requires Shaped(c, s) && Owned(c, s) && k < c.cpus && Owner(s.cpus[k]) == Nobody && Shaped(c, s')
    requires p.Proc? && p.prio < M.MAX_PRIO && s.mlq.ready[p.prio] != [] && p == s.mlq.ready[p.prio][0]
    requires p.pid < |c.programs| && p == Pcb(c, p.pid)
    requires s'.mlq.ready == s.mlq.ready[p.prio := s.mlq.ready[p.prio][1..]] && s'.loader == s.loader
    requires s'.cpus == s.cpus[k := s'.cpus[k]] && Owner(s'.cpus[k]) == Pid(p.pid)
    requires s'.place == s.place[p.pid := OnCpu(k)]
    ensures Owned(c, s')
  {
    M.OkIsShaped(s.mlq);
    hide M.Ok;
    PopIsExact(s.mlq.ready[p.prio]);
    assert s.place[p.pid] == Queued;
  }

  /** The oldest process of a level moves from there to CPU k. */
  lemma DispatchKeeps(c: Config, s: State, k: nat, p: PcbPtr, slot: seq<int>)
    requires Inv(c, s) && k < c.cpus && (s.cpus[k] == Refetch || s.cpus[k] == Head(Nobody, 0))
    requires p.Proc? && p.prio < M.MAX_PRIO && s.mlq.ready[p.prio] != [] && p == s.mlq.ready[p.prio][0]
    requires p.pid < |c.programs| && p == Pcb(c, p.pid)
    requires M.Ok(M.State(s.mlq.ready[p.prio := s.mlq.ready[p.prio][1..]], slot))
    ensures var q := M.State(s.mlq.ready[p.prio := s.mlq.ready[p.prio][1..]], slot);
            Inv(c, s.(mlq := q, cpus := s.cpus[k := Running(p.pid, c.timeSlot)], place := s.place[p.pid := OnCpu(k)],
                      burst := s.burst[p.pid := 0]))
  {
    var q := M.State(s.mlq.ready[p.prio := s.mlq.ready[p.prio][1..]], slot);
    var s' := s.(mlq := q, cpus := s.cpus[k := Running(p.pid, c.timeSlot)], place := s.place[p.pid := OnCpu(k)],
                 burst := s.burst[p.pid := 0]);
    M.OkIsShaped(s.mlq);
    hide T.Ok, M.Ok, LeftOk;
    assert Shaped(c, s');
    DispatchOwned(c, s, s', k, p);
    DispatchExecuted(c, s, s', k, p);
    hide Owned, Executed;
    assert Live(s'.cpus[k]);
  }

  lemma DispatchExecuted(c: Config, s: State, s': State, k: nat, p: PcbPtr)
    requires Shaped(c, s) && Executed(c, s) && k < c.cpus && Shaped(c, s') && Owned(c, s')
    requires p.Proc? && p.pid < |c.programs| && Owner(s.cpus[k]) == Nobody
    requires s'.cpus == s.cpus[k := Running(p.pid, c.timeSlot)] && s'.place == s.place[p.pid := OnCpu(k)]
    requires s'.burst == s.burst[p.pid := 0] && s'.pc == s.pc && s'.ran == s.ran
    ensures Executed(c, s')
  {
    hide M.Ok;
  }

  /** Popping the head of a level of distinct processes removes just that process from it. */
  lemma PopIsExact(level: seq<PcbPtr>)
    requires level != [] && Distinct(level)
    ensures Distinct(level[1..]) && level[0] !in level[1..]
    ensures forall x :: x in level <==> x == level[0] || x in level[1..]
  {
  }

  lemma FinishKeeps(c: Config, s: State, k: nat, p: nat, left: int)
    requires Inv(c, s) && k < c.cpus && s.cpus[k] == Head(Pid(p), left)
    requires p < |c.programs| && s.pc[p] == c.programs[p].size
    ensures Inv(c, s.(cpus := s.cpus[k := Refetch], place := s.place[p := Finished]))
  {
    assert Owner(s.cpus[k]) == Pid(p);
    var s' := s.(cpus := s.cpus[k := Refetch], place := s.place[p := Finished]);
    assert Shaped(c, s') && InStep(c, s') by { hide T.Ok, M.Ok, Owned, Executed, Closing; }
    FinishOwned(c, s, s', k, p);
    FinishExecuted(c, s, s', k, p);
    hide InStep, Owned, Executed;
    assert Live(s'.cpus[k]);
  }

  lemma FinishOwned(c: Config, s: State, s': State, k: nat, p: nat)
    requires Shaped(c, s) && Shaped(c, s') && Owned(c, s) && k < c.cpus && p < |c.programs| && Owner(s.cpus[k]) == Pid(p)
    requires s'.cpus == s.cpus[k := Refetch] && s'.place == s.place[p := Finished] && s'.mlq == s.mlq && s'.loader == s.loader
    ensures Owned(c, s')
  {
    hide M.Ok;
    assert s.place[p] == OnCpu(k) && Loaded(c, s') == Loaded(c, s);
  }

  lemma FinishExecuted(c: Config, s: State, s': State, k: nat, p: nat)
    requires Shaped(c, s) && Shaped(c, s') && Executed(c, s) && k < c.cpus && p < |c.programs| && s.pc[p] == c.programs[p].size
    requires s'.cpus == s.cpus[k := Refetch] && s'.place == s.place[p := Finished]
    requires s'.pc == s.pc && s'.ran == s.ran && s'.burst == s.burst
    ensures Executed(c, s')
  {
    hide M.Ok;
    forall j | 0 <= j < c.cpus ensures Exact(c, s', s'.cpus[j]) {
      assert Exact(c, s, s.cpus[j]);
    }
  }

  /** A CPU moves on by itself, holding what it held. */
  lemma MoveKeeps(c: Config, s: State, k: nat, cpu: Cpu)
    requires Inv(c, s) && k < c.cpus && Owner(cpu) == Owner(s.cpus[k]) && LeftOk(c, cpu) && LeftOf(cpu) <= LeftOf(s.cpus[k])
    requires PhaseOfCpu(cpu, T.Working) && PhaseOfCpu(s.cpus[k], T.Working) && |s.pc| == |c.programs| && Exact(c, s, cpu)
    requires !cpu.Checking? && (cpu == Exiting ==> s.done && s.cpus[k].Checking?) && (s.cpus[k] == Exiting ==> cpu == Exiting)
    ensures Inv(c, s.(cpus := s.cpus[k := cpu]))
  {
    hide Owned, Executed;
    LocalMoveKeeps(c, s, k, cpu);
    var s' := s.(cpus := s.cpus[k := cpu]);
    if cpu != Exiting {
      assert Live(s'.cpus[k]);
    } else if AllLoaded(c, s) && !M.AllEmpty(s.mlq) {
      var j :| 0 <= j < c.cpus && Live(s.cpus[j]);
      assert j != k;
      assert Live(s'.cpus[j]);
    }
  }

  /** The store and the increment are exact because no other CPU is in run() with the same process. */
  lemma ExecutedAfter(c: Config, s: State, k: nat, p: nat, left: int, i: nat, j: nat)
    requires Shaped(c, s) && Owned(c, s) && Executed(c, s) && k < c.cpus && s.cpus[k] == Storing(p, left, i, j)
    requires p < |c.programs| && Shaped(c, Execute(s, k, p, left, i, j))
    ensures Executed(c, Execute(s, k, p, left, i, j))
  {
    assert Owner(s.cpus[k]) == Pid(p);
    var s' := Execute(s, k, p, left, i, j);
    assert Exact(c, s, s.cpus[k]);
    OthersExact(c, s, s', k, p);
    hide M.Ok, Owned, Exact;
  }

  lemma OthersExact(c: Config, s: State, s': State, k: nat, p: nat)
    requires Shaped(c, s) && Shaped(c, s') && Owned(c, s) && Executed(c, s) && k < c.cpus && p < |c.programs|
    requires Owner(s.cpus[k]) == Pid(p) && s'.cpus == s.cpus[k := s'.cpus[k]] && s'.cpus[k].Leaving?
    requires s'.pc == s.pc[p := s'.pc[p]]
    ensures forall l :: 0 <= l < c.cpus ==> Exact(c, s', s'.cpus[l])
  {
    hide M.Ok, LeftOk;
    forall l | 0 <= l < c.cpus && l != k ensures Exact(c, s', s'.cpus[l]) {
      assert Owner(s.cpus[l]) != Pid(p) && Exact(c, s, s.cpus[l]);
    }
  }

  lemma ExecuteKeeps(c: Config, s: State, k: nat, p: nat, left: int, i: nat, j: nat)
    requires Inv(c, s) && k < c.cpus && s.cpus[k] == Storing(p, left, i, j) && p < |c.programs|
    ensures Shaped(c, s)
    ensures var s' := Execute(s, k, p, left, i, j);
            && Inv(c, s')
            && s'.pc == s.pc[p := s.pc[p] + 1] && s'.ran == s.ran[p := s.ran[p] + [s.pc[p]]]
            && s'.burst == s.burst[p := s.burst[p] + 1]
  {
    assert Owner(s.cpus[k]) == Pid(p) && Exact(c, s, s.cpus[k]);
    var s' := Execute(s, k, p, left, i, j);
    InStepFrame(c, s, s', k);
    OwnedFrame(c, s, s');
    assert Live(s'.cpus[k]);
    ExecutedAfter(c, s, k, p, left, i, j);
    hide InStep, Owned, Executed, T.Ok, M.Ok;
  }

  // A level never fills up, because there are no more processes than it has room for.

  function Pcbs(c: Config, n: nat): set<PcbPtr>
    requires n <= |c.programs|
  {
    set p | 0 <= p < n :: Pcb(c, p)
  }

  lemma {:induction false} PcbsCount(c: Config, n: nat)
    requires n <= |c.programs|
    ensures |Pcbs(c, n)| <= n
  {
    if n > 0 {
      PcbsCount(c, n - 1);
      assert Pcbs(c, n) == Pcbs(c, n - 1) + {Pcb(c, n - 1)};
    }
  }

  function Members(level: seq<PcbPtr>): set<PcbPtr> { set x <- level }

  lemma {:induction false} DistinctCount(level: seq<PcbPtr>)
    requires Distinct(level)
    ensures |Members(level)| == |level|
  {
    if level != [] {
      var last := |level| - 1;
      DistinctCount(level[..last]);
      assert Members(level) == Members(level[..last]) + {level[last]};
      assert level[last] !in level[..last];
    }
  }

  lemma LevelHasRoom(c: Config, level: seq<PcbPtr>, p: nat)
    requires Legal(c) && p < |c.programs| && Distinct(level) && Pcb(c, p) !in level
    requires forall x <- level :: x in Pcbs(c, |c.programs|)
    ensures |level| < MAX_QUEUE_SIZE
  {
    DistinctCount(level);
    PcbsCount(c, |c.programs|);
    var held, all := Members(level), Pcbs(c, |c.programs|);
    assert Pcb(c, p) in all && held <= all - {Pcb(c, p)};
    SubsetCount(held, all - {Pcb(c, p)});
  }

  lemma {:induction false} SubsetCount(a: set<PcbPtr>, b: set<PcbPtr>)
    requires a <= b
    ensures |a| <= |b|
  {
    assert |b| == |a| + |b - a| by {
      assert b == a + (b - a);
    }
  }

  /** A process that is not in a level joins the end of its own. */
  lemma EnqueueIsExact(c: Config, s: State, p: nat)
    requires Shaped(c, s) && Owned(c, s) && p < |c.programs| && s.place[p] != Queued
    ensures var i, x := c.programs[p].prio, Pcb(c, p);
            && M.Shaped(s.mlq) && M.Ok(M.Put(s.mlq, x))
            && x !in s.mlq.ready[i]
            && M.Put(s.mlq, x) == s.mlq.(ready := s.mlq.ready[i := s.mlq.ready[i] + [x]])
            && Distinct(s.mlq.ready[i] + [x])
  {
    var i, x := c.programs[p].prio, Pcb(c, p);
    var level := s.mlq.ready[i];
    M.PutKeepsOk(s.mlq, x);
    forall y | y in level ensures y in Pcbs(c, |c.programs|) {
      var k :| 0 <= k < |level| && level[k] == y;
      assert y == Pcb(c, level[k].pid);
    }
    LevelHasRoom(c, level, p);
  }

  /** Ownership once p has joined its level and no CPU holds it. */
  lemma EnqueueOwned(c: Config, s: State, s': State, p: nat)
    requires Shaped(c, s) && Owned(c, s) && p < |c.programs| && s.place[p] != Queued
    requires Shaped(c, s') && s'.mlq == M.Put(s.mlq, Pcb(c, p)) && s'.place == s.place[p := Queued]
    requires forall k :: 0 <= k < c.cpus ==>
               Owner(s'.cpus[k]) == if Owner(s.cpus[k]) == Pid(p) then Nobody else Owner(s.cpus[k])
    requires p < Loaded(c, s') && (Loaded(c, s') == Loaded(c, s) || (Loaded(c, s) == p && Loaded(c, s') == p + 1))
    ensures Owned(c, s')
  {
    EnqueueIsExact(c, s, p);
    hide M.Ok;
    var i := c.programs[p].prio;
    assert s'.mlq.ready == s.mlq.ready[i := s.mlq.ready[i] + [Pcb(c, p)]];
    forall q | 0 <= q < |c.programs|
      ensures s'.place[q] == Queued <==> Pcb(c, q) in s'.mlq.ready[c.programs[q].prio]
    {
      assert q != p ==> Pcb(c, q) != Pcb(c, p);
    }
  }

  lemma PutBackExecuted(c: Config, s: State, s': State, k: nat, p: nat)
    requires Shaped(c, s) && Executed(c, s) && k < c.cpus && p < |c.programs| && Shaped(c, s')
    requires s'.cpus == s.cpus[k := Refetch] && s'.place == s.place[p := Queued]
    requires s'.burst == s.burst && s'.pc == s.pc && s'.ran == s.ran
    ensures Executed(c, s')
  {
    hide M.Ok;
  }

  lemma PutBackKeeps(c: Config, s: State, k: nat, p: nat)
    requires Inv(c, s) && k < c.cpus && s.cpus[k] == Head(Pid(p), 0)
    requires p < |c.programs|
    ensures Inv(c, Enqueue(c, s, p).(cpus := s.cpus[k := Refetch]))
  {
    assert Owner(s.cpus[k]) == Pid(p);
    EnqueueIsExact(c, s, p);
    var s' := Enqueue(c, s, p).(cpus := s.cpus[k := Refetch]);
    hide M.Ok, T.Ok, M.Put;
    EnqueueOwned(c, s, s', p);
    PutBackExecuted(c, s, s', k, p);
    hide Owned, Executed, LeftOk;
    assert Live(s'.cpus[k]);
  }

  /** The loader adds program i: any CPU can still fetch it. */
  lemma AddKeeps(c: Config, s: State, i: nat)
    requires Inv(c, s) && s.loader == AtHead(i) && i < |c.programs|
    ensures Inv(c, Enqueue(c, s, i).(loader := Pausing(i + 1)))
  {
    EnqueueIsExact(c, s, i);
    var s' := Enqueue(c, s, i).(loader := Pausing(i + 1));
    hide M.Ok;
    EnqueueOwned(c, s, s', i);
    hide Owned, Executed;
    forall k | 0 <= k < c.cpus ensures Live(s'.cpus[k]) && s.bar.devs[k].slot <= s.bar.devs[c.cpus].slot {
      T.SlotsStraddleTime(s.bar, k);
      T.SlotsStraddleTime(s.bar, c.cpus);
    }
    hide T.Ok;
    assert Live(s'.cpus[0]);
  }

  // Barrier calls

  lemma CpuBarrierInStep(c: Config, s: State, k: nat, cpu: Cpu, step: T.Step)
    requires InStep(c, s) && k < c.cpus && Owner(cpu) == Owner(s.cpus[k])
    requires step == T.Signal(k) || step == T.Test(k) || step == T.Detach(k)
    requires T.Enabled(s.bar, step) && PhaseOfCpu(cpu, T.Do(s.bar, step).devs[k].phase)
    ensures InStep(c, s.(cpus := s.cpus[k := cpu], bar := T.Do(s.bar, step)))
  {
    T.DoKeepsOk(s.bar, step);
    hide T.Ok, M.Ok;
  }

  /** Execution depends only on what was run and on what each CPU holds and may still run. */
  lemma ExecutedFrame(c: Config, s: State, s': State)
    requires Shaped(c, s) && Shaped(c, s') && Executed(c, s)
    requires s'.pc == s.pc && s'.ran == s.ran && s'.burst == s.burst && s'.place == s.place
    requires forall k :: 0 <= k < c.cpus ==>
               Owner(s'.cpus[k]) == Owner(s.cpus[k]) && LeftOk(c, s'.cpus[k]) && LeftOf(s'.cpus[k]) <= LeftOf(s.cpus[k])
               && Exact(c, s, s'.cpus[k])
    ensures Executed(c, s')
  {
    hide M.Ok, LeftOk, LeftOf, Owner;
  }

  lemma CpuBarrierKeeps(c: Config, s: State, k: nat, cpu: Cpu, step: T.Step)
    requires Inv(c, s) && k < c.cpus && Owner(cpu) == Owner(s.cpus[k]) && LeftOk(c, cpu) && LeftOf(cpu) <= LeftOf(s.cpus[k])
    requires step == T.Signal(k) || step == T.Test(k) || step == T.Detach(k)
    requires T.Enabled(s.bar, step) && PhaseOfCpu(cpu, T.Do(s.bar, step).devs[k].phase)
    requires !cpu.Checking? && !s.cpus[k].Checking? && cpu != Exiting && (cpu == Gone <==> s.cpus[k] == Exiting)
    requires cpu.Head? || cpu.Asleep? || cpu == Gone
    ensures Inv(c, s.(cpus := s.cpus[k := cpu], bar := T.Do(s.bar, step)))
  {
    var s' := s.(cpus := s.cpus[k := cpu], bar := T.Do(s.bar, step));
    CpuBarrierInStep(c, s, k, cpu, step);
    OwnedFrame(c, s, s');
    assert Executed(c, s') by {
      hide Owned, Closing, M.Ok, T.Ok, T.Do;
      ExecutedFrame(c, s, s');
    }
    CpuBarrierClosing(c, s, s', k);
  }

  lemma CpuBarrierClosing(c: Config, s: State, s': State, k: nat)
    requires Shaped(c, s) && Closing(c, s) && k < c.cpus && Shaped(c, s') && s'.cpus == s.cpus[k := s'.cpus[k]]
    requires !s'.cpus[k].Checking? && !s.cpus[k].Checking? && s'.cpus[k] != Exiting && (s'.cpus[k] == Gone <==> s.cpus[k] == Exiting)
    requires s.cpus[k] != Gone && s'.done == s.done && s'.loader == s.loader && s'.mlq == s.mlq
    requires forall j :: 0 <= j <= c.cpus && j != k ==> s'.bar.devs[j] == s.bar.devs[j]
    ensures Closing(c, s')
  {
    hide M.Ok;
    assert Live(s'.cpus[k]) <==> Live(s.cpus[k]);
    if AllLoaded(c, s) && !M.AllEmpty(s.mlq) {
      var j :| 0 <= j < c.cpus && Live(s.cpus[j]);
      assert Live(s'.cpus[j]);
    }
  }

  lemma LoaderBarrierKeeps(c: Config, s: State, loader: Loader, step: T.Step)
    requires Inv(c, s) && T.Enabled(s.bar, step)
    requires match s.loader
             case Pausing(i) => loader == Sleeping(i) && step == T.Signal(c.cpus)
             case Sleeping(i) =>
               && step == T.Test(c.cpus) && |s.bar.devs| == c.cpus + 1
               && loader == if s.bar.devs[c.cpus].done then Sleeping(i) else AtHead(i)
             case Ending => loader == Ended && step == T.Detach(c.cpus)
             case _ => false
    ensures Inv(c, s.(loader := loader, bar := T.Do(s.bar, step)))
  {
    T.DoKeepsOk(s.bar, step);
    var s' := s.(loader := loader, bar := T.Do(s.bar, step));
    assert forall j :: 0 <= j < c.cpus ==> s'.bar.devs[j] == s.bar.devs[j];
    if s.loader.Sleeping? && loader.AtHead? {
      // The loader is let in only when every CPU has left the slot it was in.
      forall k | 0 <= k < c.cpus && s.cpus[k] == Checking(false) ensures !AllLoaded(c, s) {
        assert T.DeviceOk(s.bar, k) && T.DeviceOk(s.bar, c.cpus);
      }
    }
    assert Closing(c, s') by {
      hide Owned, Executed, T.Ok;
    }
  }

  predicate TimerOnly(step: T.Step) { step == T.TimerStep || step == T.StopTimer || step.Rouse? || step == T.RouseTimer }

  lemma TimerPhases(b: T.State, step: T.Step, j: nat)
    requires T.Enabled(b, step) && TimerOnly(step) && j < |b.devs|
    ensures var b' := T.Do(b, step);
            && |b'.devs| == |b.devs| && b'.devs[j].slot == b.devs[j].slot
            && (b'.devs[j].phase == b.devs[j].phase || (Waits(b'.devs[j].phase) && Waits(b.devs[j].phase)))
  {
  }

  lemma TimerKeepsStep(c: Config, s: State, b: T.State)
    requires InStep(c, s) && T.Ok(b) && |b.devs| == |s.bar.devs|
    requires forall j :: 0 <= j <= c.cpus ==>
               (b.devs[j].phase == s.bar.devs[j].phase || (Waits(b.devs[j].phase) && Waits(s.bar.devs[j].phase)))
    ensures InStep(c, s.(bar := b))
  {
    hide T.Ok, M.Ok;
  }

  lemma TimerKeeps(c: Config, s: State, step: T.Step)
    requires Inv(c, s) && T.Enabled(s.bar, step) && TimerOnly(step)
    ensures Inv(c, s.(bar := T.Do(s.bar, step)))
  {
    T.DoKeepsOk(s.bar, step);
    var b := T.Do(s.bar, step);
    forall j | 0 <= j <= c.cpus
      ensures b.devs[j].slot == s.bar.devs[j].slot
      ensures b.devs[j].phase == s.bar.devs[j].phase || (Waits(b.devs[j].phase) && Waits(s.bar.devs[j].phase))
    {
      TimerPhases(s.bar, step, j);
    }
    hide T.Do, T.Ok, T.Enabled, M.Ok;
    TimerKeepsStep(c, s, b);
    hide InStep;
    OwnedFrame(c, s, s.(bar := b));
    hide Owned;
    ExecutedFrame(c, s, s.(bar := b));
    hide Executed;
  }

  lemma StepKeeps(c: Config, s: State, step: Step)
    requires Inv(c, s) && Enabled(s, step)
    ensures Inv(c, Do(c, s, step))
  {
    hide Inv;
    match step {
      case CpuStep(k) => CpuStepKeeps(c, s, k);
      case LoaderStep => LoaderStepKeeps(c, s);
      case TimerStep => TimerKeeps(c, s, T.TimerStep);
      case StopTimer => TimerKeeps(c, s, T.StopTimer);
      case Rouse(i) => TimerKeeps(c, s, T.Rouse(i));
      case RouseTimer => TimerKeeps(c, s, T.RouseTimer);
    }
  }

  lemma CpuStepKeeps(c: Config, s: State, k: nat)
    requires Inv(c, s) && CpuEnabled(s, k)
    ensures Inv(c, DoCpu(c, s, k))
  {
    hide Inv, DoCpu, Shaped;
    HolderFacts(c, s, k);
    match s.cpus[k] {
      case Head(Nobody, _) => FetchStepKeeps(c, s, k);
      case Head(Pid(p), left) => HeadStepKeeps(c, s, k, p, left);
      case Refetch => FetchStepKeeps(c, s, k);
      case Checking(_) => CheckStepKeeps(c, s, k);
      case Running(p, left) => RunStepKeeps(c, s, k, p, left);
      case Decoding(p, left) => RunStepKeeps(c, s, k, p, left);
      case Reading(p, left, _) => RunStepKeeps(c, s, k, p, left);
      case Storing(p, left, _, _) => RunStepKeeps(c, s, k, p, left);
      case _ => BarrierStepKeeps(c, s, k);
    }
  }

  lemma FetchStepKeeps(c: Config, s: State, k: nat)
    requires Inv(c, s) && k < c.cpus && (s.cpus[k] == Refetch || (s.cpus[k].Head? && s.cpus[k].proc == Nobody))
    ensures Inv(c, DoCpu(c, s, k))
  {
    hide Inv, Fetch;
    HolderFacts(c, s, k);
    FetchKeeps(c, s, k, if s.cpus[k] == Refetch then Checking(AllLoaded(c, s)) else Leaving(Nobody, 0));
  }

  lemma CheckStepKeeps(c: Config, s: State, k: nat)
    requires Inv(c, s) && k < c.cpus && s.cpus[k].Checking?
    ensures Inv(c, DoCpu(c, s, k))
  {
    hide Inv;
    HolderFacts(c, s, k);
    MoveKeeps(c, s, k, if s.done then Exiting else Leaving(Nobody, 0));
  }

  lemma RunStepKeeps(c: Config, s: State, k: nat, p: nat, left: int)
    requires Inv(c, s) && k < c.cpus && Owner(s.cpus[k]) == Pid(p) && LeftOf(s.cpus[k]) == left
    requires s.cpus[k].Running? || s.cpus[k].Decoding? || s.cpus[k].Reading? || s.cpus[k].Storing?
    ensures Inv(c, DoCpu(c, s, k))
  {
    hide Inv, Execute, Fetch, Enqueue, M.Ok, T.Do;
    HolderFacts(c, s, k);
    match s.cpus[k] {
      case Running(_, _) =>
        MoveKeeps(c, s, k, if s.pc[p] >= c.programs[p].size then Leaving(Pid(p), left - 1) else Decoding(p, left));
      case Decoding(_, _) => MoveKeeps(c, s, k, Reading(p, left, s.pc[p]));
      case Reading(_, _, i) => MoveKeeps(c, s, k, Storing(p, left, i, s.pc[p]));
      case Storing(_, _, i, j) => ExecuteKeeps(c, s, k, p, left, i, j);
    }
  }

  lemma BarrierStepKeeps(c: Config, s: State, k: nat)
    requires Inv(c, s) && CpuEnabled(s, k) && (s.cpus[k].Leaving? || s.cpus[k].Asleep? || s.cpus[k] == Exiting)
    ensures Inv(c, DoCpu(c, s, k))
  {
    hide Inv, Shaped;
    HolderFacts(c, s, k);
    match s.cpus[k] {
      case Leaving(h, left) => CpuBarrierKeeps(c, s, k, Asleep(h, left), T.Signal(k));
      case Asleep(h, left) =>
        CpuBarrierKeeps(c, s, k, if s.bar.devs[k].done then Asleep(h, left) else Head(h, left), T.Test(k));
      case Exiting => CpuBarrierKeeps(c, s, k, Gone, T.Detach(k));
    }
  }

  lemma HeadStepKeeps(c: Config, s: State, k: nat, p: nat, left: int)
    requires Inv(c, s) && k < c.cpus && s.cpus[k] == Head(Pid(p), left)
    ensures Inv(c, DoCpu(c, s, k))
  {
    hide Inv, Enqueue;
    HolderFacts(c, s, k);
    if s.pc[p] == c.programs[p].size {
      FinishKeeps(c, s, k, p, left);
    } else if left == 0 {
      PutBackKeeps(c, s, k, p);
    } else {
      MoveKeeps(c, s, k, Running(p, left));
    }
  }

  lemma HolderFacts(c: Config, s: State, k: nat)
    requires Inv(c, s) && (k < |s.cpus| || k < c.cpus)
    ensures Shaped(c, s) && k < c.cpus && LeftOk(c, s.cpus[k]) && Exact(c, s, s.cpus[k])
    ensures PhaseOfCpu(s.cpus[k], s.bar.devs[k].phase)
    ensures Owner(s.cpus[k]).Pid? ==> Owner(s.cpus[k]).p < |c.programs|
  {
  }

  lemma LoaderHeadKeeps(c: Config, s: State, i: nat)
    requires Inv(c, s) && s.loader == AtHead(i)
    ensures Inv(c, DoLoader(c, s))
  {
    hide Inv, Enqueue, M.Ok, T.Do;
    LoaderFacts(c, s);
    if i == |c.programs| {
      SetDoneKeeps(c, s);
    } else if s.bar.time < c.programs[i].start {
      PauseKeeps(c, s, i);
    } else {
      AddKeeps(c, s, i);
    }
  }

  lemma LoaderStepKeeps(c: Config, s: State)
    requires Inv(c, s) && LoaderEnabled(s)
    ensures Inv(c, DoLoader(c, s))
  {
    hide Inv, Enqueue, M.Ok, T.Do;
    LoaderFacts(c, s);
    match s.loader {
      case AtHead(i) => LoaderHeadKeeps(c, s, i);
      case Pausing(i) => LoaderBarrierKeeps(c, s, Sleeping(i), T.Signal(c.cpus));
      case Sleeping(i) =>
        LoaderBarrierKeeps(c, s, if s.bar.devs[c.cpus].done then Sleeping(i) else AtHead(i), T.Test(c.cpus));
      case Ending => LoaderBarrierKeeps(c, s, Ended, T.Detach(c.cpus));
    }
  }

  lemma LoaderFacts(c: Config, s: State)
    requires Inv(c, s)
    ensures Shaped(c, s) && |s.cpus| == c.cpus && Loaded(c, s) <= |c.programs|
  {
  }

  lemma SetDoneKeeps(c: Config, s: State)
    requires Inv(c, s) && s.loader == AtHead(|c.programs|)
    ensures Inv(c, s.(done := true, loader := Ending))
  {
    hide T.Ok, M.Ok;
  }

  lemma PauseKeeps(c: Config, s: State, i: nat)
    requires Inv(c, s) && s.loader == AtHead(i) && i < |c.programs|
    ensures Inv(c, s.(loader := Pausing(i)))
  {
    hide T.Ok, M.Ok;
  }

  // ---------------------------------------------------------------- runs

  ghost predicate Possible(c: Config, s: State, steps: seq<Step>)
    decreases |steps|
  {
    steps == [] || (Shaped(c, s) && Enabled(s, steps[0]) && Possible(c, Do(c, s, steps[0]), steps[1..]))
  }

  ghost function Run(c: Config, s: State, steps: seq<Step>): State
    requires Possible(c, s, steps)
    decreases |steps|
  {
    if steps == [] then s else Run(c, Do(c, s, steps[0]), steps[1..])
  }

  lemma {:induction false} RunKeeps(c: Config, s: State, steps: seq<Step>)
    requires Inv(c, s) && Possible(c, s, steps)
    ensures Inv(c, Run(c, s, steps))
    decreases |steps|
  {
    hide Inv, Do, Enabled, Shaped;
    if steps != [] {
      StepKeeps(c, s, steps[0]);
      RunKeeps(c, Do(c, s, steps[0]), steps[1..]);
    }
  }

  /** Shutdown is complete, over all interleavings: once every CPU has left its loop, every configured
      process has been loaded and has executed all of its code, once and in order. */
  lemma ShutdownIsComplete(c: Config, steps: seq<Step>)
    requires Legal(c) && Possible(c, Boot(c), steps)
    requires forall cpu <- Run(c, Boot(c), steps).cpus :: cpu == Exiting || cpu == Gone
    ensures var s := Run(c, Boot(c), steps);
            && s.done && M.AllEmpty(s.mlq) && |s.pc| == |s.place| == |s.ran| == |c.programs|
            && forall p :: 0 <= p < |c.programs| ==>
                 && s.place[p] == Finished && s.pc[p] == c.programs[p].size
                 && s.ran[p] == seq(c.programs[p].size, i => i)
  {
    var s := Run(c, Boot(c), steps);
    BootInv(c);
    RunKeeps(c, Boot(c), steps);
    assert s.cpus[0] in s.cpus && s.done;
    forall k | 0 <= k < c.cpus ensures !Live(s.cpus[k]) && Owner(s.cpus[k]) == Nobody {
      assert s.cpus[k] in s.cpus;
    }
    forall p | 0 <= p < |c.programs| ensures s.place[p] == Finished {
      assert s.mlq.ready[c.programs[p].prio] in s.mlq.ready;
    }
  }

  /** Process p is at position j of ready level i. */
  predicate WaitsIn(s: State, p: nat, i: int, j: int)
    requires M.Ok(s.mlq)
  {
    0 <= i < M.MAX_PRIO && 0 <= j < |s.mlq.ready[i]| && s.mlq.ready[i][j].pid == p
  }

  /** Exclusive ownership and exact execution in every reachable state. */
  lemma OneOwner(c: Config, steps: seq<Step>, p: nat)
    requires Legal(c) && Possible(c, Boot(c), steps) && p < |c.programs|
    ensures var s := Run(c, Boot(c), steps);
            && Shaped(c, s)
            // at most one CPU, or at most one position of the level of its priority
            && (forall j, k :: 0 <= j < c.cpus && 0 <= k < c.cpus && Owner(s.cpus[j]) == Owner(s.cpus[k]) == Pid(p) ==> j == k)
            && (forall i, j, i', j' :: WaitsIn(s, p, i, j) && WaitsIn(s, p, i', j') ==>
                  i == i' == c.programs[p].prio && j == j')
            && (forall k, i, j :: 0 <= k < c.cpus && Owner(s.cpus[k]) == Pid(p) ==> !WaitsIn(s, p, i, j))
            // and one of them while it is loaded and unfinished
            && (p < Loaded(c, s) && s.pc[p] < c.programs[p].size ==>
                  || Pcb(c, p) in s.mlq.ready[c.programs[p].prio]
                  || exists k :: 0 <= k < c.cpus && Owner(s.cpus[k]) == Pid(p))
            && s.ran[p] == seq(s.pc[p], i => i) && s.pc[p] <= c.programs[p].size && s.burst[p] <= c.timeSlot
  {
    var s := Run(c, Boot(c), steps);
    BootInv(c);
    RunKeeps(c, Boot(c), steps);
    hide T.Ok, Closing;
    forall i, j | WaitsIn(s, p, i, j)
      ensures i == c.programs[p].prio && s.mlq.ready[i][j] == Pcb(c, p) && s.place[p] == Queued
    {
      assert s.mlq.ready[i][j] == Pcb(c, p);
    }
  }
}
