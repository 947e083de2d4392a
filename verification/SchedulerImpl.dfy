/** The scheduler's global arrays and its three entry points. */
module Sched {
  import opened Queue
  import opened Mlq

  class Scheduler {
    const mlqReadyQueue: seq<ReadyQueue>
    const slot: array<int>

    ghost predicate Valid()
      reads slot, mlqReadyQueue, set q <- mlqReadyQueue :: q.proc
    {
      && |mlqReadyQueue| == slot.Length == MAX_PRIO
      && (forall i :: 0 <= i < MAX_PRIO ==> mlqReadyQueue[i].Valid())
      && (forall i, j :: 0 <= i < j < MAX_PRIO ==>
            mlqReadyQueue[i] != mlqReadyQueue[j] && mlqReadyQueue[i].proc != mlqReadyQueue[j].proc)
    }

    ghost function Abs(): State
      requires Valid()
      reads slot, mlqReadyQueue, set q <- mlqReadyQueue :: q.proc
    {
      State(seq(MAX_PRIO, i requires 0 <= i < MAX_PRIO reads slot, mlqReadyQueue, (set q <- mlqReadyQueue :: q.proc)
                            requires Valid() => mlqReadyQueue[i].Contents()), slot[..])
    }

    /** init_scheduler */
    constructor ()
      ensures Valid() && Abs() == Start()
      ensures fresh(slot) && forall q <- mlqReadyQueue :: fresh(q) && fresh(q.proc)
    {
      var queues: seq<ReadyQueue> := [];
      var budget := new int[MAX_PRIO];
      for i := 0 to MAX_PRIO
        invariant |queues| == i
        invariant forall j :: 0 <= j < i ==> budget[j] == MAX_PRIO - j
        invariant forall j :: 0 <= j < i ==> fresh(queues[j]) && fresh(queues[j].proc)
        invariant forall j :: 0 <= j < i ==> queues[j].Valid() && queues[j].Contents() == []
        invariant forall j, k :: 0 <= j < k < i ==> queues[j] != queues[k] && queues[j].proc != queues[k].proc
      {
        var q := new ReadyQueue();
        queues := queues + [q];
        budget[i] := MAX_PRIO - i;
      }
      mlqReadyQueue := queues;
      slot := budget;
      new;
      assert slot[..] == Quotas();
    }

    /** The first loop of get_mlq_proc: the lowest level with a process and budget, or -1. */
    method FindQueue() returns (found: int)
      requires Valid()
      ensures found == if FindReady(Abs(), 0) < MAX_PRIO then FindReady(Abs(), 0) else -1
    {
      for i := 0 to MAX_PRIO
        invariant FindReady(Abs(), 0) == FindReady(Abs(), i)
      {
        if mlqReadyQueue[i].size != 0 && slot[i] > 0 {
          return i;
        }
      }
      return -1;
    }

    method HasProcess() returns (has: bool)
      requires Valid()
      ensures has <==> !AllEmpty(Abs())
    {
      for i := 0 to MAX_PRIO
        invariant forall j :: 0 <= j < i ==> Abs().ready[j] == []
      {
        if mlqReadyQueue[i].size != 0 {
          assert Abs().ready[i] in Abs().ready;
          return true;
        }
      }
      return false;
    }

    method ResetSlots()
      requires Valid()
      modifies slot
      ensures Valid() && Abs() == Refilled(old(Abs()))
    {
      for i := 0 to MAX_PRIO
        invariant forall j :: 0 <= j < i ==> slot[j] == MAX_PRIO - j
      {
        slot[i] := MAX_PRIO - i;
      }
      assert slot[..] == Quotas();
    }

    lemma ValidIsShaped()
      requires Valid()
      ensures Shaped(Abs())
    {
    }

    /** dequeue from level i */
    method Pop(i: nat) returns (proc: PcbPtr)
      requires Valid() && i < MAX_PRIO
      modifies mlqReadyQueue[i], mlqReadyQueue[i].proc
      ensures Valid() && Shaped(old(Abs())) && slot[..] == old(slot[..])
      ensures var (p, rest) := Dequeued(old(Abs()).ready[i]);
              proc == p && Abs().ready == old(Abs()).ready[i := rest]
    {
      hide LeastAndFirst, Dequeued;
      ValidIsShaped();
      proc := mlqReadyQueue[i].Dequeue();
    }

    /** Step 3 of get_mlq_proc: dequeue from the level found and charge it. */
    method TakeFrom(i: nat) returns (proc: PcbPtr)
      requires Valid() && i < MAX_PRIO
      modifies slot, mlqReadyQueue[i], mlqReadyQueue[i].proc
      ensures Valid() && Shaped(old(Abs())) && (proc, Abs()) == Take(old(Abs()), i)
    {
      hide Dequeued, AllProcs;
      proc := Pop(i);
      ghost var ready := Abs().ready;
      if proc != NULL {
        slot[i] := slot[i] - 1;
      }
      assert Abs().ready == ready;
    }

    /** get_mlq_proc */
    method GetMlqProc() returns (proc: PcbPtr)
      requires Valid()
      modifies slot, mlqReadyQueue, set q <- mlqReadyQueue :: q.proc
      ensures Valid() && Shaped(old(Abs())) && (proc, Abs()) == Get(old(Abs()))
    {
      hide Take, AllEmpty, FindReady, AllProcs, Quotas;
      ValidIsShaped();
      proc := NULL;
      var found := FindQueue();
      if found == -1 {
        var has := HasProcess();
        if has {
          ResetSlots();
          found := FindQueue();
        }
      }
      if found != -1 {
        proc := TakeFrom(found);
      }
    }

    /** put_mlq_proc and add_mlq_proc, which do the same */
    method PutMlqProc(proc: PcbPtr)
      requires Valid() && proc.Proc? && proc.prio < MAX_PRIO
      modifies mlqReadyQueue[proc.prio], mlqReadyQueue[proc.prio].proc
      ensures Valid() && Shaped(old(Abs())) && Abs() == Put(old(Abs()), proc)
    {
      ValidIsShaped();
      mlqReadyQueue[proc.prio].Enqueue(proc);
      assert Abs().ready == old(Abs()).ready[proc.prio := mlqReadyQueue[proc.prio].Contents()];
    }
  }
}
