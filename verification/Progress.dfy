/** Nothing gets stuck before the work is done: from every reachable state some continuation loads and
    finishes every process and ends the loader. */
module Progress {
  import opened Os
  import opened Queue
  import opened Idle
  import S = Slots

  // ---------------------------------------------------------------- work left

  /** What process p still owes: to be loaded, to execute its code, to be found finished; and, without code
      left, to be dispatched once. */
  function Owed(c: Config, s: State, p: nat): nat
    requires |s.pc| == |s.place| == |c.programs| && p < |c.programs|
  {
    var size := c.programs[p].size;
    (if s.place[p] == Unloaded then 1 else 0) + (if s.place[p] == Finished then 0 else 1)
    + (if s.pc[p] < size then size - s.pc[p] else 0)
    + (if (s.place[p] == Unloaded || s.place[p] == Queued) && s.pc[p] == size then 1 else 0)
  }

  function OwedTo(c: Config, s: State, n: nat): nat
    requires |s.pc| == |s.place| == |c.programs| && n <= |c.programs|
  {
    if n == 0 then 0 else OwedTo(c, s, n - 1) + Owed(c, s, n - 1)
  }

  /** What the loader owes besides: to set `done`, and to detach */
  function LoaderOwed(l: Loader): nat {
    match l
    case Ended => 0
    case Ending => 1
    case _ => 2
  }

  function Work(c: Config, s: State): nat
    requires |s.pc| == |s.place| == |c.programs|
  {
    OwedTo(c, s, |c.programs|) + LoaderOwed(s.loader)
  }

  /** Nobody owes more, and if there is a process in `less`, it owes less. */
  ghost predicate NoMore(c: Config, s: State, s': State, less: set<nat>)
    requires |s.pc| == |s.place| == |c.programs|
  {
    && |s'.pc| == |s'.place| == |c.programs| && LoaderOwed(s'.loader) <= LoaderOwed(s.loader)
    && forall p :: 0 <= p < |c.programs| ==> Owed(c, s', p) <= Owed(c, s, p) && (p in less ==> Owed(c, s', p) < Owed(c, s, p))
  }

  lemma {:induction false} SumFollows(c: Config, s: State, s': State, less: set<nat>, n: nat)
    requires |s.pc| == |s.place| == |c.programs| && n <= |c.programs| && NoMore(c, s, s', less)
    ensures OwedTo(c, s', n) <= OwedTo(c, s, n)
    ensures (exists p :: p in less && p < n) ==> OwedTo(c, s', n) < OwedTo(c, s, n)
  {
    hide Owed;
    if n > 0 {
      SumFollows(c, s, s', less, n - 1);
    }
  }

  lemma WorkFollows(c: Config, s: State, s': State, less: set<nat>)
    requires |s.pc| == |s.place| == |c.programs| && NoMore(c, s, s', less) && forall p <- less :: p < |c.programs|
    ensures Work(c, s') <= Work(c, s)
    ensures less != {} || LoaderOwed(s'.loader) < LoaderOwed(s.loader) ==> Work(c, s') < Work(c, s)
  {
    hide Owed, OwedTo, LoaderOwed;
    SumFollows(c, s, s', less, |c.programs|);
    if less != {} {
      var p :| p in less;
      assert p < |c.programs|;
    }
  }

  /** get_proc finds nothing exactly if the queues are empty, and else puts a queued process on the CPU. */
  lemma FetchIs(c: Config, s: State, k: nat, left: int, empty: Cpu)
    requires Shaped(c, s) && Owned(c, s) && k < c.cpus
    ensures M.AllEmpty(s.mlq) ==> Fetch(c, s, k, left, empty) == s.(cpus := s.cpus[k := empty])
    ensures !M.AllEmpty(s.mlq) ==>
              var s' := Fetch(c, s, k, left, empty);
              && s'.cpus[k].Running? && var p := s'.cpus[k].p;
              && s'.cpus == s.cpus[k := Running(p, if left == 0 then c.timeSlot else left)]
              && p < |c.programs| && s.place[p] == Queued && s'.place == s.place[p := OnCpu(k)]
              && s'.pc == s.pc && s'.loader == s.loader && s'.bar == s.bar
  {
    FetchedWasQueued(c, s);
    GetIsNull(s.mlq);
    hide M.Get, M.Ok, M.Shaped, M.AllEmpty, Owned;
  }

  lemma GetIsNull(q: M.State)
    requires M.Ok(q)
    ensures M.Shaped(q) && (M.Get(q).0 == NULL <==> M.AllEmpty(q)) && (M.AllEmpty(q) ==> M.Get(q).1 == q)
  {
    M.GetIsWorkConserving(q);
  }

  lemma FetchOwes(c: Config, s: State, k: nat, left: int, empty: Cpu)
    requires Shaped(c, s) && Owned(c, s) && k < c.cpus && Owner(empty) == Nobody
    ensures NoMore(c, s, Fetch(c, s, k, left, empty), {})
    ensures !M.AllEmpty(s.mlq) ==>
              var s' := Fetch(c, s, k, left, empty);
              && s'.cpus[k].Running? && s'.cpus[k].p < |c.programs|
              && (s.pc[s'.cpus[k].p] == c.programs[s'.cpus[k].p].size ==> NoMore(c, s, s', {s'.cpus[k].p}))
  {
    FetchIs(c, s, k, left, empty);
    hide Fetch, M.Ok, Owned;
  }

  lemma HoldingOwes(c: Config, s: State, k: nat)
    requires Shaped(c, s) && Owned(c, s) && Executed(c, s) && Enabled(s, CpuStep(k)) && k < c.cpus
    requires s.cpus[k] != Refetch && !(s.cpus[k].Head? && s.cpus[k].proc == Nobody)
    ensures NoMore(c, s, Do(c, s, CpuStep(k)), {})
    ensures s.cpus[k].Storing? || (s.cpus[k].Head? && s.pc[s.cpus[k].proc.p] == c.programs[s.cpus[k].proc.p].size) ==>
              NoMore(c, s, Do(c, s, CpuStep(k)), {Owner(s.cpus[k]).p})
  {
    assert Exact(c, s, s.cpus[k]);
    assert Owner(s.cpus[k]).Pid? ==> s.place[Owner(s.cpus[k]).p] == OnCpu(k);
    hide M.Ok, M.Put, T.Do, Owned, Executed;
  }

  lemma LoaderOwes(c: Config, s: State)
    requires Shaped(c, s) && Owned(c, s) && Enabled(s, LoaderStep)
    ensures NoMore(c, s, Do(c, s, LoaderStep), {})
    ensures s.loader.AtHead? && s.loader.i < |c.programs| && s.bar.time >= c.programs[s.loader.i].start ==>
              NoMore(c, s, Do(c, s, LoaderStep), {s.loader.i})
    ensures s.loader.Ending? || s.loader == AtHead(|c.programs|) ==>
              LoaderOwed(Do(c, s, LoaderStep).loader) < LoaderOwed(s.loader)
  {
    assert forall p :: 0 <= p < |c.programs| ==> (s.place[p] == Unloaded <==> Loaded(c, s) <= p);
    hide M.Ok, M.Put, T.Do, Owned;
  }

  lemma StepOwes(c: Config, s: State, step: Step)
    requires Inv(c, s) && Enabled(s, step)
    ensures Shaped(c, s) && NoMore(c, s, Do(c, s, step), {}) && Work(c, Do(c, s, step)) <= Work(c, s)
  {
    hide Inv, Shaped, Owned, Executed, Do, NoMore, Owed, Work;
    S.Parts(c, s);
    match step {
      case CpuStep(k) => CpuOwes(c, s, k);
      case LoaderStep => LoaderOwes(c, s);
      case _ => TimerOwes(c, s, step);
    }
    WorkFollows(c, s, Do(c, s, step), {});
  }

  lemma TimerOwes(c: Config, s: State, step: Step)
    requires Shaped(c, s) && Enabled(s, step) && !step.CpuStep? && !step.LoaderStep?
    ensures NoMore(c, s, Do(c, s, step), {})
  {
    hide Do;
    S.OtherSteps(c, s, step);
    S.TimerStepPlaces(c, s, step);
  }

  lemma CpuOwes(c: Config, s: State, k: nat)
    requires Shaped(c, s) && Owned(c, s) && Executed(c, s) && Enabled(s, CpuStep(k))
    ensures NoMore(c, s, Do(c, s, CpuStep(k)), {})
  {
    hide Owned, Executed, Fetch, NoMore, M.Ok;
    match s.cpus[k] {
      case Head(Nobody, left) => FetchOwes(c, s, k, left, Leaving(Nobody, left));
      case Refetch => FetchOwes(c, s, k, 0, Checking(AllLoaded(c, s)));
      case _ => HoldingOwes(c, s, k);
    }
  }

  // ---------------------------------------------------------------- a CPU that gets work done by itself

  ghost predicate Improved(c: Config, s: State, w: nat) {
    Inv(c, s) && |s.pc| == |s.place| == |c.programs| && Work(c, s) < w
  }

  ghost predicate CanImprove(c: Config, s: State, w: nat) {
    exists steps: seq<Step> :: Possible(c, s, steps) && Improved(c, Run(c, s, steps), w)
  }

  lemma ImprovedNow(c: Config, s: State, w: nat)
    requires Improved(c, s, w)
    ensures CanImprove(c, s, w)
  {
    hide Improved;
    assert Possible(c, s, []) && Run(c, s, []) == s;
  }

  lemma ImproveBack(c: Config, s: State, step: Step, w: nat)
    requires Shaped(c, s) && Enabled(s, step) && CanImprove(c, Do(c, s, step), w)
    ensures CanImprove(c, s, w)
  {
    hide Shaped, Enabled, Do, Improved;
    var s' := Do(c, s, step);
    var steps: seq<Step> :| Possible(c, s', steps) && Improved(c, Run(c, s', steps), w);
    var all := [step] + steps;
    assert all[0] == step && all[1..] == steps;
    assert Possible(c, s, all) && Run(c, s, all) == Run(c, s', steps);
  }

  /** CPU k, left to itself, gets to execute an instruction or to finish a process. */
  predicate Busy(c: Config, s: State, k: nat)
    requires Shaped(c, s) && k < c.cpus
  {
    match s.cpus[k]
    case Head(h, _) => h.Pid? || !M.AllEmpty(s.mlq)
    case Refetch => !M.AllEmpty(s.mlq)
    case Running(p, _) => assert Owner(s.cpus[k]) == Pid(p); s.pc[p] < c.programs[p].size
    case Decoding(_, _) => true
    case Reading(_, _, _) => true
    case Storing(_, _, _, _) => true
    case Asleep(h, _) => !s.bar.devs[k].done && (h.Pid? || !M.AllEmpty(s.mlq))
    case _ => false
  }

  /** Steps of CPU k until it is in next_slot or out, at most */
  function Rank(s: State, k: nat): nat
    requires k < |s.cpus| && k < |s.bar.devs|
  {
    match s.cpus[k]
    case Asleep(_, _) => if s.bar.devs[k].done then 0 else 9
    case Head(_, _) => 8
    case Refetch => 7
    case Checking(_) => 6
    case Running(_, _) => 5
    case Decoding(_, _) => 4
    case Reading(_, _, _) => 3
    case Storing(_, _, _, _) => 2
    case Leaving(_, _) => 1
    case Exiting => 1
    case Gone => 0
  }

  /** Work gets less, or CPU k is busy still and closer to that. */
  ghost predicate Closer(c: Config, s: State, s': State, k: nat)
    requires Shaped(c, s) && k < c.cpus
  {
    && Shaped(c, s')
    && (Work(c, s') < Work(c, s) || (Busy(c, s', k) && Rank(s', k) < Rank(s, k) && Work(c, s') <= Work(c, s)))
  }

  lemma BusyFetches(c: Config, s: State, k: nat, left: int, empty: Cpu)
    requires Shaped(c, s) && Owned(c, s) && Executed(c, s) && k < c.cpus && Owner(empty) == Nobody && !M.AllEmpty(s.mlq)
    requires Rank(s, k) > 5 && Shaped(c, Fetch(c, s, k, left, empty))
    ensures Closer(c, s, Fetch(c, s, k, left, empty), k)
  {
    FetchOwes(c, s, k, left, empty);
    var s' := Fetch(c, s, k, left, empty);
    var p := s'.cpus[k].p;
    assert s.pc[p] <= c.programs[p].size;
    hide NoMore, Owed, Work, Owned, Executed, M.Ok;
    WorkFollows(c, s, s', {});
    if s.pc[p] == c.programs[p].size {
      WorkFollows(c, s, s', {p});
    } else {
      FetchKeepsPc(c, s, k, left, empty);
    }
  }

  lemma FetchKeepsPc(c: Config, s: State, k: nat, left: int, empty: Cpu)
    requires Shaped(c, s) && k < c.cpus
    ensures var s' := Fetch(c, s, k, left, empty); s'.pc == s.pc && s'.bar == s.bar
  {
    hide M.Ok;
  }

  lemma BusyHolds(c: Config, s: State, k: nat)
    requires Shaped(c, s) && Owned(c, s) && Executed(c, s) && Enabled(s, CpuStep(k)) && k < c.cpus && Busy(c, s, k)
    requires s.cpus[k] != Refetch && !(s.cpus[k].Head? && s.cpus[k].proc == Nobody) && Shaped(c, Do(c, s, CpuStep(k)))
    ensures Closer(c, s, Do(c, s, CpuStep(k)), k)
  {
    hide Shaped, Owned, Executed, NoMore, Owed, Work, Do;
    S.Sizes(c, s);
    HoldingOwes(c, s, k);
    var s' := Do(c, s, CpuStep(k));
    WorkFollows(c, s, s', {});
    match s.cpus[k] {
      case Storing(p, _, _, _) =>
        OwnerIsKnown(c, s, k);
        WorkFollows(c, s, s', {p});
      case Head(h, left) =>
        OwnerIsKnown(c, s, k);
        if s.pc[h.p] == c.programs[h.p].size {
          WorkFollows(c, s, s', {h.p});
        } else {
          BusyGoesOn(c, s, k, h.p, left);
        }
      case _ => BusyMoves(c, s, k);
    }
  }

  lemma OwnerIsKnown(c: Config, s: State, k: nat)
    requires Shaped(c, s) && k < c.cpus && Owner(s.cpus[k]).Pid?
    ensures Owner(s.cpus[k]).p < |c.programs|
  {
  }

  /** At the head with code left: on into run(), or into the queue, which then is not empty. */
  lemma BusyGoesOn(c: Config, s: State, k: nat, p: nat, left: int)
    requires Shaped(c, s) && Owned(c, s) && Executed(c, s) && Enabled(s, CpuStep(k)) && k < c.cpus && s.cpus[k] == Head(Pid(p), left)
    requires p < |c.programs| && s.pc[p] != c.programs[p].size && Shaped(c, Do(c, s, CpuStep(k)))
    ensures Busy(c, Do(c, s, CpuStep(k)), k) && Rank(Do(c, s, CpuStep(k)), k) < Rank(s, k)
  {
    assert Owner(s.cpus[k]) == Pid(p) && s.pc[p] <= c.programs[p].size;
    EnqueueIsExact(c, s, p);
    hide Owned, Executed, M.Ok, M.Put, M.Shaped, Distinct;
    if left == 0 {
      var i, q := c.programs[p].prio, Do(c, s, CpuStep(k)).mlq;
      assert q.ready[i] == s.mlq.ready[i] + [Pcb(c, p)] && q.ready[i] in q.ready;
    }
  }

  lemma BusyMoves(c: Config, s: State, k: nat)
    requires Shaped(c, s) && Enabled(s, CpuStep(k)) && k < c.cpus && Busy(c, s, k)
    requires s.cpus[k].Running? || s.cpus[k].Decoding? || s.cpus[k].Reading? || s.cpus[k].Asleep?
    requires Shaped(c, Do(c, s, CpuStep(k)))
    ensures Busy(c, Do(c, s, CpuStep(k)), k) && Rank(Do(c, s, CpuStep(k)), k) < Rank(s, k)
  {
    hide M.Ok, M.Put, M.Get, Enqueue, Fetch, Execute;
  }

  lemma BusyCanStep(c: Config, s: State, k: nat)
    requires Inv(c, s) && Shaped(c, s) && k < c.cpus && Busy(c, s, k)
    ensures Enabled(s, CpuStep(k))
  {
    hide Owned, Executed, Closing, M.Ok;
    assert T.DeviceOk(s.bar, k) && PhaseOfCpu(s.cpus[k], s.bar.devs[k].phase);
  }

  lemma BusyStep(c: Config, s: State, k: nat)
    requires Inv(c, s) && Shaped(c, s) && k < c.cpus && Busy(c, s, k)
    ensures Enabled(s, CpuStep(k)) && Inv(c, Do(c, s, CpuStep(k))) && Closer(c, s, Do(c, s, CpuStep(k)), k)
  {
    hide Inv, Shaped, Owned, Executed, Do, Closer, Fetch;
    S.Parts(c, s);
    BusyCanStep(c, s, k);
    StepKeeps(c, s, CpuStep(k));
    S.Parts(c, Do(c, s, CpuStep(k)));
    if s.cpus[k] == Refetch || (s.cpus[k].Head? && s.cpus[k].proc == Nobody) {
      BusyFetchStep(c, s, k);
    } else {
      BusyHolds(c, s, k);
    }
  }

  lemma BusyFetchStep(c: Config, s: State, k: nat)
    requires Shaped(c, s) && Owned(c, s) && Executed(c, s) && k < c.cpus && Busy(c, s, k) && Enabled(s, CpuStep(k))
    requires s.cpus[k] == Refetch || (s.cpus[k].Head? && s.cpus[k].proc == Nobody)
    requires Shaped(c, Do(c, s, CpuStep(k)))
    ensures Closer(c, s, Do(c, s, CpuStep(k)), k)
  {
    hide Owned, Executed, Fetch, Closer, M.Ok;
    match s.cpus[k] {
      case Head(_, left) => BusyFetches(c, s, k, left, Leaving(Nobody, left));
      case Refetch => BusyFetches(c, s, k, 0, Checking(AllLoaded(c, s)));
    }
  }

  lemma {:induction false} BusyImproves(c: Config, s: State, k: nat, w: nat)
    requires Inv(c, s) && Shaped(c, s) && k < c.cpus && Busy(c, s, k) && Work(c, s) <= w
    ensures CanImprove(c, s, w)
    decreases Rank(s, k)
  {
    hide Inv, Shaped, Do, Busy, Rank, Work, Enabled, CanImprove;
    BusyStep(c, s, k);
    var s' := Do(c, s, CpuStep(k));
    S.Sizes(c, s);
    S.Sizes(c, s');
    if Work(c, s') < Work(c, s) {
      ImprovedNow(c, s', w);
    } else {
      BusyImproves(c, s', k, w);
    }
    ImproveBack(c, s, CpuStep(k), w);
  }

  // ---------------------------------------------------------------- rounds of the timer

  function LoaderRank(s: State): nat
    requires |s.cpus| < |s.bar.devs|
  {
    match s.loader
    case Sleeping(_) => if s.bar.devs[|s.cpus|].done then 0 else 4
    case AtHead(_) => 3
    case Pausing(_) => 2
    case Ending => 1
    case Ended => 0
  }

  function RankTo(s: State, n: nat): nat
    requires n <= |s.cpus| < |s.bar.devs|
  {
    if n == 0 then 0 else RankTo(s, n - 1) + Rank(s, n - 1)
  }

  lemma {:induction false} RanksFollow(s: State, s': State, k: nat, d: int, n: nat)
    requires n <= |s.cpus| < |s.bar.devs| && |s'.cpus| == |s.cpus| && |s'.bar.devs| == |s.bar.devs|
    requires forall j :: 0 <= j < n && j != k ==> Rank(s', j) == Rank(s, j)
    requires k < n ==> Rank(s', k) <= Rank(s, k) + d
    ensures RankTo(s', n) <= RankTo(s, n) + (if k < n then d else 0)
  {
    hide Rank;
    if n > 0 {
      RanksFollow(s, s', k, d, n - 1);
    }
  }

  lemma {:induction false} RankIsPart(s: State, k: nat, n: nat)
    requires k < n <= |s.cpus| < |s.bar.devs|
    ensures Rank(s, k) <= RankTo(s, n)
  {
    hide Rank;
    if k < n - 1 {
      RankIsPart(s, k, n - 1);
    }
  }

  /** Moves of the timer before device t is let in, when everybody waits for it */
  function TurnsTo(b: T.State, t: nat): nat
    requires t < |b.devs|
  {
    var n, m := |b.devs|, T.Next(b, t);
    match b.timer
    case Top => n + m + 3
    case Scan(k, _, _) => (if k <= n then n - k else 0) + m + 2
    case Asleep(k, _, _) => (if k <= n then n - k else 0) + m + 2
    case Release(k, _, _) => if k <= m then m - k + 1 else (if k <= n then n - k else 0) + n + m + 4
    case Stopped => 0
  }

  /** The timer has cleared the flag of device t, which has yet to see it. */
  predicate LetIn(b: T.State, t: nat)
    requires t < |b.devs|
  {
    T.Waiting(b.devs[t]) && !b.devs[t].done
  }

  /** The thread whose turn brings the work on: the loader as long as it runs, and then a CPU with a process,
      or one that will fetch again while a process waits. */
  predicate Aim(c: Config, s: State, t: nat)
    requires Shaped(c, s)
  {
    if t == c.cpus then !s.loader.Ended?
    else t < c.cpus && AllLoaded(c, s) && (Owner(s.cpus[t]).Pid? || (!M.AllEmpty(s.mlq) && Live(s.cpus[t])))
  }

  /** Slots the loader has still to wait for */
  function Laps(c: Config, s: State, t: nat): nat
    requires Shaped(c, s) && t <= c.cpus
  {
    var i := Loaded(c, s);
    if t == c.cpus && i < |c.programs| && c.programs[i].start > s.bar.devs[t].slot
    then c.programs[i].start - s.bar.devs[t].slot else 0
  }

  function Distance(c: Config, s: State, t: nat): nat
    requires Shaped(c, s) && t <= c.cpus
  {
    if LetIn(s.bar, t) then 0 else 1 + 10 * TurnsTo(s.bar, t) + RankTo(s, c.cpus) + LoaderRank(s)
  }

  predicate LoadsNow(c: Config, s: State) {
    s.loader.AtHead? && s.loader.i < |c.programs| && s.bar.time >= c.programs[s.loader.i].start
  }

  /** The next step of the loader gets something done. */
  predicate LoaderReady(c: Config, s: State) { LoadsNow(c, s) || s.loader == AtHead(|c.programs|) || s.loader.Ending? }

  /** A step that keeps the aim and brings it closer. */
  ghost predicate Approaches(c: Config, s: State, s': State, t: nat)
    requires Shaped(c, s) && t <= c.cpus
  {
    && Shaped(c, s') && Aim(c, s', t)
    && (Laps(c, s', t) < Laps(c, s, t) || (Laps(c, s', t) == Laps(c, s, t) && Distance(c, s', t) < Distance(c, s, t)))
  }

  /** A step of a CPU that is awake with nothing to do but to get to next_slot or out. */
  lemma SlackStep(c: Config, s: State, k: nat)
    requires Inv(c, s) && Shaped(c, s) && k < c.cpus && !Busy(c, s, k) && Rank(s, k) > 0
    ensures Enabled(s, CpuStep(k))
    ensures var s' := Do(c, s, CpuStep(k));
            && |s'.cpus| == c.cpus && |s'.bar.devs| == c.cpus + 1 && Rank(s', k) < Rank(s, k)
            && s'.loader == s.loader && (M.AllEmpty(s'.mlq) <==> M.AllEmpty(s.mlq)) && Owner(s'.cpus[k]) == Owner(s.cpus[k])
            && (AllLoaded(c, s) && Live(s.cpus[k]) && !M.AllEmpty(s.mlq) ==> Live(s'.cpus[k]))
            && !LetIn(s'.bar, k)
  {
    hide Inv, Owned, Executed, Fetch, M.Ok;
    SlackFacts(c, s, k);
    match s.cpus[k] {
      case Head(Nobody, left) => FetchIs(c, s, k, left, Leaving(Nobody, left));
      case Refetch => FetchIs(c, s, k, 0, Checking(AllLoaded(c, s)));
      case _ => SlackMoves(c, s, k);
    }
  }

  lemma SlackMoves(c: Config, s: State, k: nat)
    requires Shaped(c, s) && k < c.cpus && !Busy(c, s, k) && Rank(s, k) > 0 && s.cpus[k] != Refetch && !s.cpus[k].Head?
    requires PhaseOfCpu(s.cpus[k], s.bar.devs[k].phase)
    requires s.bar.devs[k].phase == T.Sleeping ==> s.bar.devs[k].done
    requires s.bar.devs[k].phase == T.Working || s.bar.devs[k].phase == T.Detached ==> !s.bar.devs[k].done
    requires s.cpus[k] == Checking(false) && AllLoaded(c, s) ==> !s.done
    ensures Enabled(s, CpuStep(k))
    ensures var s' := Do(c, s, CpuStep(k));
            && |s'.cpus| == c.cpus && |s'.bar.devs| == c.cpus + 1 && Rank(s', k) < Rank(s, k)
            && s'.loader == s.loader && s'.mlq == s.mlq && Owner(s'.cpus[k]) == Owner(s.cpus[k])
            && (AllLoaded(c, s) && Live(s.cpus[k]) ==> Live(s'.cpus[k]))
            && !LetIn(s'.bar, k)
  {
    hide M.Ok, M.Put, M.Get, Fetch, Enqueue;
  }

  lemma SlackFacts(c: Config, s: State, k: nat)
    requires Inv(c, s) && k < c.cpus
    ensures Shaped(c, s) && Owned(c, s) && Executed(c, s) && PhaseOfCpu(s.cpus[k], s.bar.devs[k].phase)
    ensures s.bar.devs[k].phase == T.Sleeping ==> s.bar.devs[k].done
    ensures s.bar.devs[k].phase == T.Working || s.bar.devs[k].phase == T.Detached ==> !s.bar.devs[k].done
    ensures s.cpus[k] == Checking(false) && AllLoaded(c, s) ==> !s.done
  {
    hide M.Ok;
    assert T.DeviceOk(s.bar, k);
  }

  lemma SignalKeepsTurns(b: T.State, step: T.Step, t: nat)
    requires T.Enabled(b, step) && (step.Signal? || step.Test? || step.Detach?) && t < |b.devs|
    ensures |T.Do(b, step).devs| == |b.devs| && TurnsTo(T.Do(b, step), t) == TurnsTo(b, t)
  {
  }

  lemma CpuKeepsTurns(c: Config, s: State, k: nat, t: nat)
    requires Shaped(c, s) && CpuEnabled(s, k) && k < c.cpus && t <= c.cpus
    ensures |DoCpu(c, s, k).bar.devs| == |s.bar.devs| && TurnsTo(DoCpu(c, s, k).bar, t) == TurnsTo(s.bar, t)
  {
    hide M.Ok, Enqueue, Fetch, TurnsTo, T.Do;
    match s.cpus[k] {
      case Leaving(_, _) => SignalKeepsTurns(s.bar, T.Signal(k), t);
      case Asleep(_, _) => SignalKeepsTurns(s.bar, T.Test(k), t);
      case Exiting => SignalKeepsTurns(s.bar, T.Detach(k), t);
      case Head(_, _) => FetchKeepsBar(c, s, k);
      case Refetch => FetchKeepsBar(c, s, k);
      case _ =>
    }
  }

  lemma SlackApproaches(c: Config, s: State, k: nat, t: nat)
    requires Inv(c, s) && Shaped(c, s) && k < c.cpus && !Busy(c, s, k) && Rank(s, k) > 0
    requires Aim(c, s, t) && t <= c.cpus && !LetIn(s.bar, t)
    ensures Enabled(s, CpuStep(k)) && Inv(c, Do(c, s, CpuStep(k))) && Approaches(c, s, Do(c, s, CpuStep(k)), t)
  {
    hide Inv, Shaped, Do, Busy, Rank, TurnsTo, DoCpu, LetIn;
    S.Sizes(c, s);
    SlackStep(c, s, k);
    StepKeeps(c, s, CpuStep(k));
    var s' := Do(c, s, CpuStep(k));
    S.Parts(c, s');
    DoIsDoCpu(c, s, k);
    BarrierStepIsLocal(c, s, k);
    S.StillShaped(c, s, k);
    CpuKeepsTurns(c, s, k, t);
    SameDevice(s.bar, s'.bar, t);
    OthersKeepRank(s, s', k);
    RanksFollow(s, s', k, -1, c.cpus);
    SameLoader(s, s');
  }

  lemma DoIsDoCpu(c: Config, s: State, k: nat)
    requires Shaped(c, s) && Enabled(s, CpuStep(k))
    ensures Do(c, s, CpuStep(k)) == DoCpu(c, s, k)
  {
    hide DoCpu;
  }

  lemma SameDevice(b: T.State, b': T.State, t: nat)
    requires t < |b.devs| == |b'.devs|
    ensures b.devs[t] == b'.devs[t] ==> (LetIn(b, t) <==> LetIn(b', t))
  {
  }

  lemma OthersKeepRank(s: State, s': State, k: nat)
    requires |s.cpus| < |s.bar.devs| && |s'.cpus| == |s.cpus| && |s'.bar.devs| == |s.bar.devs|
    requires forall j :: 0 <= j < |s.cpus| && j != k ==> s'.cpus[j] == s.cpus[j] && s'.bar.devs[j].done == s.bar.devs[j].done
    ensures forall j :: 0 <= j < |s.cpus| && j != k ==> Rank(s', j) == Rank(s, j)
  {
  }

  lemma SameLoader(s: State, s': State)
    requires |s.cpus| < |s.bar.devs| && |s'.cpus| == |s.cpus| && |s'.bar.devs| == |s.bar.devs| && s'.loader == s.loader
    requires s'.bar.devs[|s.cpus|].done == s.bar.devs[|s.cpus|].done
    ensures LoaderRank(s') == LoaderRank(s)
  {
  }

  // The loader

  lemma LoaderCanStep(c: Config, s: State)
    requires Inv(c, s) && Shaped(c, s) && LoaderRank(s) > 0
    ensures Enabled(s, LoaderStep)
    ensures s.loader.Sleeping? ==> LetIn(s.bar, c.cpus)
    ensures s.loader.AtHead? || s.loader.Pausing? ==> s.bar.devs[c.cpus].slot == s.bar.time && !LetIn(s.bar, c.cpus)
    ensures s.loader.Sleeping? ==> s.bar.devs[c.cpus].slot + 1 == s.bar.time
    ensures s.loader.Ending? ==> !LetIn(s.bar, c.cpus)
  {
    hide Owned, Executed, Closing, M.Ok;
    assert T.DeviceOk(s.bar, c.cpus) && PhaseOfLoader(s.loader, s.bar.devs[c.cpus].phase);
  }

  lemma LoaderKeepsTurns(c: Config, s: State, t: nat)
    requires Shaped(c, s) && LoaderEnabled(s) && t <= c.cpus
    ensures var s' := Do(c, s, LoaderStep);
            && |s'.bar.devs| == |s.bar.devs| && TurnsTo(s'.bar, t) == TurnsTo(s.bar, t)
            && s'.cpus == s.cpus && forall j :: 0 <= j < c.cpus ==> s'.bar.devs[j] == s.bar.devs[j]
  {
    hide M.Ok, Enqueue, TurnsTo;
    match s.loader {
      case Pausing(_) => SignalKeepsTurns(s.bar, T.Signal(c.cpus), t);
      case Sleeping(_) => SignalKeepsTurns(s.bar, T.Test(c.cpus), t);
      case Ending => SignalKeepsTurns(s.bar, T.Detach(c.cpus), t);
      case AtHead(_) => AddKeepsBar(c, s);
    }
  }

  lemma AddKeepsBar(c: Config, s: State)
    requires Shaped(c, s) && s.loader.AtHead?
    ensures Do(c, s, LoaderStep).bar == s.bar && Do(c, s, LoaderStep).cpus == s.cpus
  {
    hide M.Ok, M.Put;
  }

  /** What a step of the loader does if it does not load a program. */
  lemma LoaderMoves(c: Config, s: State)
    requires Shaped(c, s) && LoaderEnabled(s) && !LoaderReady(c, s) && LoaderRank(s) > 0
    requires !s.loader.Sleeping? ==> !LetIn(s.bar, c.cpus)
    ensures var s' := Do(c, s, LoaderStep);
            && Loaded(c, s') == Loaded(c, s) && s'.mlq == s.mlq && |s'.cpus| == |s.cpus| == c.cpus && |s'.bar.devs| == c.cpus + 1
            && LoaderRank(s') < LoaderRank(s) && !LetIn(s'.bar, c.cpus) && !s'.loader.Ended?
            && s'.bar.devs[c.cpus].slot == s.bar.devs[c.cpus].slot + (if s.loader.Sleeping? then 1 else 0)
            && s'.bar.time == s.bar.time && (s.loader.Sleeping? ==> s'.loader == AtHead(s.loader.i))
  {
    hide M.Ok, M.Put, Enqueue;
  }

  lemma LoaderApproaches(c: Config, s: State, t: nat)
    requires Inv(c, s) && Shaped(c, s) && !LoaderReady(c, s) && LoaderRank(s) > 0 && t <= c.cpus && Aim(c, s, t)
    requires t == c.cpus || !LetIn(s.bar, t)
    ensures Enabled(s, LoaderStep) && Inv(c, Do(c, s, LoaderStep))
    ensures var s' := Do(c, s, LoaderStep); LoaderReady(c, s') || Approaches(c, s, s', t)
  {
    hide Inv, Shaped, Do, Rank, TurnsTo, LetIn, LoaderRank;
    S.Sizes(c, s);
    LoaderCanStep(c, s);
    StepKeeps(c, s, LoaderStep);
    var s' := Do(c, s, LoaderStep);
    S.Parts(c, s');
    LoaderMoves(c, s);
    LoaderKeepsTurns(c, s, t);
    OthersKeepRank(s, s', c.cpus);
    RanksFollow(s, s', c.cpus, 0, c.cpus);
    if t < c.cpus {
      SameDevice(s.bar, s'.bar, t);
    }
  }

  // The timer

  /** Everybody waits for the timer or has left. */
  lemma AllAtRest(c: Config, s: State, t: nat)
    requires Inv(c, s) && Shaped(c, s) && t <= c.cpus && Aim(c, s, t) && LoaderRank(s) == 0
    requires forall k :: 0 <= k < c.cpus ==> Rank(s, k) == 0
    ensures T.Waiting(s.bar.devs[t]) && s.bar.devs[t].done && T.TimerCanMove(s.bar) && T.Ok(s.bar)
    ensures forall i :: 0 <= i <= c.cpus ==> s.bar.devs[i].fsh || s.bar.devs[i].done
  {
    hide Owned, Executed, Closing, M.Ok, T.Ok;
    forall i | 0 <= i <= c.cpus ensures s.bar.devs[i].fsh || s.bar.devs[i].done {
      AtRest(c, s, i);
    }
    AimWaits(c, s, t);
    TimerIsAwake(s.bar, t);
  }

  lemma AtRest(c: Config, s: State, i: nat)
    requires InStep(c, s) && i <= c.cpus && LoaderRank(s) == 0
    requires i < c.cpus ==> Rank(s, i) == 0
    ensures s.bar.devs[i].fsh || s.bar.devs[i].done
  {
    assert T.DeviceOk(s.bar, i);
  }

  lemma AimWaits(c: Config, s: State, t: nat)
    requires InStep(c, s) && t <= c.cpus && Aim(c, s, t) && LoaderRank(s) == 0 && (t < c.cpus ==> Rank(s, t) == 0)
    ensures T.Waiting(s.bar.devs[t]) && s.bar.devs[t].done
  {
    hide M.Ok, T.Ok;
  }

  lemma TimerIsAwake(b: T.State, t: nat)
    requires T.Ok(b) && t < |b.devs| && T.Waiting(b.devs[t]) && forall i :: 0 <= i < |b.devs| ==> b.devs[i].fsh || b.devs[i].done
    ensures T.TimerCanMove(b)
  {
    assert T.DeviceOk(b, t);
    if b.timer.Asleep? {
      T.SomebodyIsAwaited(b);
    }
  }

  /** The device whose flag the timer clears with this move, if it clears one */
  function Cleared(b: T.State): nat {
    if b.timer.Release? && b.timer.k < |b.devs| then T.Next(b, b.timer.k) else 0
  }

  lemma TimerTurns(b: T.State, t: nat)
    requires T.Ok(b) && t < |b.devs| && T.Waiting(b.devs[t]) && b.devs[t].done && T.TimerCanMove(b)
    requires forall i :: 0 <= i < |b.devs| ==> b.devs[i].fsh || b.devs[i].done
    ensures var b' := T.MoveTimer(b);
            && |b'.devs| == |b.devs| && (LetIn(b', t) || TurnsTo(b', t) < TurnsTo(b, t))
            && (forall i :: 0 <= i < |b.devs| ==> b'.devs[i].slot == b.devs[i].slot)
            && forall i :: 0 <= i < |b.devs| && i != Cleared(b) ==> b'.devs[i] == b.devs[i]
  {
    assert T.DeviceOk(b, t) && !b.stop;
  }

  lemma TimerRanks(s: State, s': State, k: nat)
    requires |s.cpus| < |s.bar.devs| && s'.cpus == s.cpus && s'.loader == s.loader && |s'.bar.devs| == |s.bar.devs|
    requires forall i :: 0 <= i <= |s.cpus| && i != k ==> s'.bar.devs[i] == s.bar.devs[i]
    ensures RankTo(s', |s.cpus|) + LoaderRank(s') <= RankTo(s, |s.cpus|) + LoaderRank(s) + 9
  {
    hide Rank, LoaderRank;
    OthersKeepRank(s, s', k);
    RankIsLow(s', k);
    RanksFollow(s, s', k, 9, |s.cpus|);
    if k < |s.cpus| {
      SameLoader(s, s');
    }
  }

  lemma TimerApproaches(c: Config, s: State, t: nat)
    requires Inv(c, s) && Shaped(c, s) && t <= c.cpus && Aim(c, s, t) && LoaderRank(s) == 0 && !LetIn(s.bar, t)
    requires forall k :: 0 <= k < c.cpus ==> Rank(s, k) == 0
    ensures Enabled(s, TimerStep) && Inv(c, Do(c, s, TimerStep)) && Approaches(c, s, Do(c, s, TimerStep), t)
  {
    hide Inv, Shaped, Do, Rank, TurnsTo, LetIn, T.Ok, T.Waiting, T.MoveTimer, RankTo, LoaderRank, Cleared;
    S.Sizes(c, s);
    AllAtRest(c, s, t);
    TimerTurns(s.bar, t);
    StepKeeps(c, s, TimerStep);
    var s' := Do(c, s, TimerStep);
    S.Parts(c, s');
    TimerStepIs(c, s);
    TimerRanks(s, s', Cleared(s.bar));
  }

  lemma TimerStepIs(c: Config, s: State)
    requires Shaped(c, s) && Enabled(s, TimerStep)
    ensures Do(c, s, TimerStep) == s.(bar := T.MoveTimer(s.bar))
  {
    hide M.Ok;
  }

  lemma RankIsLow(s: State, k: nat)
    requires |s.cpus| < |s.bar.devs|
    ensures LoaderRank(s) <= 4 && (k < |s.cpus| ==> Rank(s, k) <= 9)
  {
  }

  // ---------------------------------------------------------------- to the end

  lemma LoadingImproves(c: Config, s: State, w: nat)
    requires Inv(c, s) && Shaped(c, s) && LoaderReady(c, s) && Work(c, s) <= w
    ensures CanImprove(c, s, w)
  {
    hide Inv, Shaped, Do, CanImprove, NoMore, Owed, Work, Owned, Executed;
    S.Sizes(c, s);
    S.Parts(c, s);
    LoaderEnds(c, s);
    LoaderOwes(c, s);
    StepKeeps(c, s, LoaderStep);
    var s' := Do(c, s, LoaderStep);
    S.Parts(c, s');
    S.Sizes(c, s');
    if LoadsNow(c, s) {
      WorkFollows(c, s, s', {s.loader.i});
    } else {
      WorkFollows(c, s, s', {});
    }
    ImprovedNow(c, s', w);
    ImproveBack(c, s, LoaderStep, w);
  }

  lemma LoaderEnds(c: Config, s: State)
    requires Inv(c, s) && Shaped(c, s) && LoaderReady(c, s)
    ensures Enabled(s, LoaderStep)
  {
    hide Owned, Executed, Closing, M.Ok, T.Ok;
    assert PhaseOfLoader(s.loader, s.bar.devs[c.cpus].phase);
  }

  /** While thread t is the one to bring the work on, somebody has a step that brings t closer. */
  lemma {:induction false} AimImproves(c: Config, s: State, t: nat, w: nat)
    requires Inv(c, s) && Shaped(c, s) && t <= c.cpus && Aim(c, s, t) && Work(c, s) <= w
    ensures CanImprove(c, s, w)
    decreases Laps(c, s, t), Distance(c, s, t)
  {
    hide Inv, Shaped, Aim, Do, Busy, Rank, Work, Enabled, CanImprove, Laps, Distance, LoaderRank, LetIn, LoaderReady;
    S.Sizes(c, s);
    if k: nat :| k < c.cpus && Busy(c, s, k) {
      BusyImproves(c, s, k, w);
    } else if LoaderReady(c, s) {
      LoadingImproves(c, s, w);
    } else {
      var step := NextStep(c, s, t);
      StepOwes(c, s, step);
      var s' := Do(c, s, step);
      S.Parts(c, s');
      S.Sizes(c, s');
      if LoaderReady(c, s') {
        LoadingImproves(c, s', w);
      } else {
        AimImproves(c, s', t, w);
      }
      ImproveBack(c, s, step, w);
    }
  }

  /** Threads that are awake go first, and then the timer. */
  lemma NextStep(c: Config, s: State, t: nat) returns (step: Step)
    requires Inv(c, s) && Shaped(c, s) && t <= c.cpus && Aim(c, s, t) && !LoaderReady(c, s)
    requires forall k: nat :: k < c.cpus ==> !Busy(c, s, k)
    ensures Enabled(s, step) && Inv(c, Do(c, s, step))
    ensures var s' := Do(c, s, step); LoaderReady(c, s') || Approaches(c, s, s', t)
  {
    hide Inv, Shaped, Aim, Do, Busy, Rank, LoaderRank, LetIn, LoaderReady, Approaches;
    S.Sizes(c, s);
    if LetIn(s.bar, t) {
      LetInIsLoader(c, s, t);
      LoaderApproaches(c, s, t);
      return LoaderStep;
    }
    if k: nat :| k < c.cpus && Rank(s, k) > 0 {
      SlackApproaches(c, s, k, t);
      return CpuStep(k);
    }
    if LoaderRank(s) > 0 {
      LoaderApproaches(c, s, t);
      return LoaderStep;
    }
    TimerApproaches(c, s, t);
    return TimerStep;
  }

  lemma LetInIsLoader(c: Config, s: State, t: nat)
    requires Inv(c, s) && Shaped(c, s) && t <= c.cpus && Aim(c, s, t) && LetIn(s.bar, t)
    requires t < c.cpus ==> !Busy(c, s, t)
    ensures t == c.cpus && LoaderRank(s) > 0
  {
    hide Owned, Executed, Closing, M.Ok, T.Ok;
  }

  lemma SomebodyHasTheAim(c: Config, s: State) returns (t: nat)
    requires Inv(c, s) && Shaped(c, s) && !(AllFinished(s) && s.loader.Ended?)
    ensures t <= c.cpus && Aim(c, s, t)
  {
    hide InStep, Executed;
    if !s.loader.Ended? {
      return c.cpus;
    }
    var p :| 0 <= p < |s.place| && s.place[p] != Finished;
    if s.place[p].OnCpu? {
      return s.place[p].c;
    }
    assert Pcb(c, p) in s.mlq.ready[c.programs[p].prio] && s.mlq.ready[c.programs[p].prio] in s.mlq.ready;
    assert !M.AllEmpty(s.mlq);
    var k :| 0 <= k < c.cpus && Live(s.cpus[k]);
    return k;
  }

  ghost predicate AtTheEnd(c: Config, s: State) { Inv(c, s) && AllFinished(s) && s.loader.Ended? }

  ghost predicate CanFinish(c: Config, s: State) {
    exists steps: seq<Step> :: Possible(c, s, steps) && AtTheEnd(c, Run(c, s, steps))
  }

  lemma {:induction false} RunOn(c: Config, s: State, steps: seq<Step>, more: seq<Step>)
    requires Possible(c, s, steps) && Possible(c, Run(c, s, steps), more)
    ensures Possible(c, s, steps + more) && Run(c, s, steps + more) == Run(c, Run(c, s, steps), more)
    decreases |steps|
  {
    hide Shaped, Enabled, Do;
    var all := steps + more;
    if steps == [] {
      assert all == more;
    } else {
      RunOn(c, Do(c, s, steps[0]), steps[1..], more);
      assert all[0] == steps[0] && all[1..] == steps[1..] + more;
    }
  }

  lemma {:induction false} WorkGetsDone(c: Config, s: State, w: nat)
    requires Inv(c, s) && Shaped(c, s) && Work(c, s) <= w
    ensures CanFinish(c, s)
    decreases w
  {
    hide Inv, Shaped, AllFinished, Work, Possible, Run;
    if AtTheEnd(c, s) {
      FinishedNow(c, s);
    } else {
      var t := SomebodyHasTheAim(c, s);
      AimImproves(c, s, t, w);
      var steps: seq<Step> :| Possible(c, s, steps) && Improved(c, Run(c, s, steps), w);
      var s' := Run(c, s, steps);
      S.Parts(c, s');
      WorkGetsDone(c, s', w - 1);
      var more: seq<Step> :| Possible(c, s', more) && AtTheEnd(c, Run(c, s', more));
      RunOn(c, s, steps, more);
    }
  }

  lemma FinishedNow(c: Config, s: State)
    requires AtTheEnd(c, s)
    ensures CanFinish(c, s)
  {
    hide AtTheEnd;
    assert Possible(c, s, []) && Run(c, s, []) == s;
  }

  /** No deadlock before the work is done, over all interleavings: after every run there is a continuation in
      which every configured process is loaded and executes all of its code, once and in order, and the loader
      sets `done` and detaches. */
  lemma EveryRunCanFinish(c: Config, steps: seq<Step>)
    requires Legal(c) && Possible(c, Boot(c), steps)
    ensures exists more: seq<Step> ::
              && Possible(c, Run(c, Boot(c), steps), more)
              && var s := Run(c, Run(c, Boot(c), steps), more);
                 && s.loader == Ended && s.done && |s.pc| == |s.place| == |s.ran| == |c.programs|
                 && forall p :: 0 <= p < |c.programs| ==>
                      s.place[p] == Finished && s.pc[p] == c.programs[p].size && s.ran[p] == seq(c.programs[p].size, i => i)
  {
    hide Inv, Shaped, AllFinished, Work, Possible, Run;
    var s := Run(c, Boot(c), steps);
    BootInv(c);
    RunKeeps(c, Boot(c), steps);
    S.Parts(c, s);
    S.Sizes(c, s);
    WorkGetsDone(c, s, Work(c, s));
    var more: seq<Step> :| Possible(c, s, more) && AtTheEnd(c, Run(c, s, more));
    FinishedMeans(c, Run(c, s, more));
  }

  lemma FinishedMeans(c: Config, s: State)
    requires AtTheEnd(c, s)
    ensures s.done && |s.pc| == |s.place| == |s.ran| == |c.programs|
    ensures forall p :: 0 <= p < |c.programs| ==>
              s.place[p] == Finished && s.pc[p] == c.programs[p].size && s.ran[p] == seq(c.programs[p].size, i => i)
  {
    hide InStep, Owned;
    S.Parts(c, s);
  }
}
