/** Ready queues (queue.c): a fixed buffer of process pointers. */
module Queue {
  const MAX_QUEUE_SIZE: nat := 50

  /** A pointer to a process control block. */
  datatype PcbPtr = NULL | Proc(pid: nat, prio: nat)

  predicate AllProcs(q: seq<PcbPtr>) { forall k :: 0 <= k < |q| ==> q[k].Proc? }

  /** enqueue: a full queue silently drops the process. */
  function Enqueued(q: seq<PcbPtr>, p: PcbPtr): seq<PcbPtr> {
    if p.NULL? || |q| >= MAX_QUEUE_SIZE then q else q + [p]
  }

  /** The position the minimum scan stops at: the first among those of least prio. */
  function FirstMin(q: seq<PcbPtr>): (k: nat)
    requires q != [] && AllProcs(q)
    ensures k < |q|
    ensures forall i :: 0 <= i < |q| ==> q[k].prio <= q[i].prio && (i < k ==> q[k].prio < q[i].prio)
  {
    if |q| == 1 then 0
    else
      var last := |q| - 1;
      var k := FirstMin(q[..last]);
      if q[last].prio < q[k].prio then last else k
  }

  /** No entry has a lesser prio than the k-th, and none before it the same. */
  predicate LeastAndFirst(q: seq<PcbPtr>, k: int) {
    && 0 <= k < |q| && AllProcs(q)
    && forall i :: 0 <= i < |q| ==> q[k].prio <= q[i].prio && (i < k ==> q[k].prio < q[i].prio)
  }

  /** q without its k-th element, the later ones moved up. */
  function Without(q: seq<PcbPtr>, k: nat): seq<PcbPtr>
    requires k < |q|
  {
    q[..k] + q[k+1..]
  }

  /** dequeue */
  function Dequeued(q: seq<PcbPtr>): (PcbPtr, seq<PcbPtr>)
    requires AllProcs(q)
  {
    if q == [] then (NULL, []) else (q[FirstMin(q)], Without(q, FirstMin(q)))
  }

  /** Among equal priorities the scan with shifting is a plain first-in-first-out pop. */
  lemma EqualPrioIsFifo(q: seq<PcbPtr>, prio: nat)
    requires q != [] && forall k :: 0 <= k < |q| ==> q[k].Proc? && q[k].prio == prio
    ensures Dequeued(q) == (q[0], q[1..])
  {
    var k := FirstMin(q);
    assert q[0].prio == prio && q[k].prio == prio;
    assert Without(q, 0) == q[1..];
  }

  class ReadyQueue {
    const proc: array<PcbPtr>
    var size: nat

    ghost predicate Valid()
      reads this, proc
    {
      && proc.Length == MAX_QUEUE_SIZE && size <= MAX_QUEUE_SIZE
      && AllProcs(proc[..size])
    }

    function Contents(): seq<PcbPtr>
      requires size <= proc.Length
      reads this, proc
    {
      proc[..size]
    }

    constructor ()
      ensures Valid() && Contents() == [] && fresh(proc)
    {
      proc := new PcbPtr[MAX_QUEUE_SIZE](_ => NULL);
      size := 0;
    }

    method Enqueue(p: PcbPtr)
      requires Valid()
      modifies this, proc
      ensures Valid() && Contents() == Enqueued(old(Contents()), p)
      ensures Contents() == if p == NULL || |old(Contents())| == 50 then old(Contents()) else old(Contents()) + [p]
    {
      if p.NULL? {
        return;
      }
      if size >= MAX_QUEUE_SIZE {
        return;
      }
      proc[size] := p;
      size := size + 1;
    }

    /** Shift the elements behind position k up by one and clear the freed cell. */
    method RemoveAt(k: nat)
      requires Valid() && k < size
      modifies this, proc
      ensures Valid() && Contents() == Without(old(Contents()), k)
    {
      for i := k to size - 1
        invariant size == old(size) && forall j :: 0 <= j < k || i < j < size ==> proc[j] == old(proc[j])
        invariant forall j :: k <= j < i ==> proc[j] == old(proc[j + 1])
        invariant forall j :: 0 <= j < i ==> proc[j].Proc?
      {
        proc[i] := proc[i + 1];
      }
      proc[size - 1] := NULL;
      size := size - 1;
    }

    method Dequeue() returns (p: PcbPtr)
      requires Valid()
      modifies this, proc
      ensures Valid() && (p, Contents()) == Dequeued(old(Contents()))
      ensures old(Contents()) == [] ==> p == NULL && Contents() == []
      ensures old(Contents()) != [] ==>
                exists k :: LeastAndFirst(old(Contents()), k) && p == old(Contents())[k]
                            && Contents() == old(Contents())[..k] + old(Contents())[k+1..]
    {
      if size == 0 {
        return NULL;
      }
      var highest := 0;
      for i := 1 to size
        invariant highest == FirstMin(proc[..i])
      {
        assert proc[..i + 1][..i] == proc[..i];
        if proc[i].prio < proc[highest].prio {
          highest := i;
        }
      }
      p := proc[highest];
      assert LeastAndFirst(old(Contents()), highest);
      RemoveAt(highest);
    }

    /** purgequeue: remove the first occurrence of p, if there is one. */
    method Purge(p: PcbPtr) returns (removed: PcbPtr)
      requires Valid()
      modifies this, proc
      ensures Valid()
      ensures removed == if p in old(Contents()) then p else NULL
      ensures p !in old(Contents()) ==> Contents() == old(Contents())
      ensures p in old(Contents()) ==>
                exists k :: (0 <= k < |old(Contents())| && old(Contents())[k] == p
                             && p !in old(Contents())[..k] && Contents() == Without(old(Contents()), k))
    {
      if size == 0 || p.NULL? {
        return NULL;
      }
      var found := 0;
      while found < size && proc[found] != p
        invariant found <= size && p !in proc[..found]
      {
        found := found + 1;
      }
      if found == size {
        return NULL;
      }
      RemoveAt(found);
      return p;
    }
  }
}

/** The multi-level queue scheduler (sched.c). */
module Mlq {
  import opened Queue

  const MAX_PRIO: nat := 140

  /** One ready queue and one slot budget per level. */
  datatype State = State(ready: seq<seq<PcbPtr>>, slot: seq<int>)

  /** The budgets init_scheduler and every refill set. */
  function Quotas(): seq<int> { seq(MAX_PRIO, i => MAX_PRIO - i) }

  function Start(): State { State(seq(MAX_PRIO, _ => []), Quotas()) }

  predicate Ok(q: State) {
    && |q.ready| == |q.slot| == MAX_PRIO
    && (forall i :: 0 <= i < MAX_PRIO ==> 0 <= q.slot[i] <= MAX_PRIO - i)
    && (forall i, k :: 0 <= i < MAX_PRIO && 0 <= k < |q.ready[i]| ==> q.ready[i][k].Proc? && q.ready[i][k].prio == i)
  }

  predicate Shaped(q: State) {
    |q.ready| == |q.slot| == MAX_PRIO && forall i :: 0 <= i < MAX_PRIO ==> AllProcs(q.ready[i])
  }

  predicate Ready(q: State, i: nat)
    requires i < |q.ready| && i < |q.slot|
  {
    q.ready[i] != [] && q.slot[i] > 0
  }

  /** The lowest level from i on with a process and budget left, or MAX_PRIO. */
  function FindReady(q: State, i: nat): (level: nat)
    requires |q.ready| == |q.slot| == MAX_PRIO && i <= MAX_PRIO
    ensures i <= level <= MAX_PRIO
    ensures forall j :: i <= j < level ==> !Ready(q, j)
    ensures level < MAX_PRIO ==> Ready(q, level)
    decreases MAX_PRIO - i
  {
    if i == MAX_PRIO || Ready(q, i) then i else FindReady(q, i + 1)
  }

  predicate AllEmpty(q: State) { forall level <- q.ready :: level == [] }

  /** Dequeue from a level and charge it. */
  function Take(q: State, i: nat): (PcbPtr, State)
    requires Shaped(q) && i < MAX_PRIO
  {
    var (p, rest) := Dequeued(q.ready[i]);
    (p, State(q.ready[i := rest], if p.Proc? then q.slot[i := q.slot[i] - 1] else q.slot))
  }

  function Refilled(q: State): State { q.(slot := Quotas()) }

  /** get_mlq_proc */
  function Get(q: State): (PcbPtr, State)
    requires Shaped(q)
  {
    var i := FindReady(q, 0);
    if i < MAX_PRIO then Take(q, i)
    else if AllEmpty(q) then (NULL, q)
    else
      var j := FindReady(Refilled(q), 0);
      if j < MAX_PRIO then Take(Refilled(q), j) else (NULL, Refilled(q))
  }

  /** put_mlq_proc and add_mlq_proc */
  function Put(q: State, p: PcbPtr): State
    requires Shaped(q) && p.Proc? && p.prio < MAX_PRIO
  {
    q.(ready := q.ready[p.prio := Enqueued(q.ready[p.prio], p)])
  }

  lemma OkIsShaped(q: State)
    requires Ok(q)
    ensures Shaped(q) && |q.ready| == |q.slot| == MAX_PRIO
  {
  }

  /** Whether get_mlq_proc has to refill the budgets first. */
  predicate Refills(q: State)
    requires |q.ready| == |q.slot| == MAX_PRIO
  {
    FindReady(q, 0) == MAX_PRIO && !AllEmpty(q)
  }

  function AfterRefill(q: State): State
    requires |q.ready| == |q.slot| == MAX_PRIO
  {
    if Refills(q) then Refilled(q) else q
  }

  /** Popping a ready level takes its oldest process and one unit of its budget. */
  lemma TakeIsFifo(q: State, i: nat)
    requires Ok(q) && i < MAX_PRIO && Ready(q, i)
    ensures Shaped(q)
    ensures var (p, q') := Take(q, i);
            && p == q.ready[i][0] && p.Proc? && p.prio == i
            && q' == State(q.ready[i := q.ready[i][1..]], q.slot[i := q.slot[i] - 1])
            && Ok(q')
  {
    hide Dequeued;
    OkIsShaped(q);
    EqualPrioIsFifo(q.ready[i], i);
  }

  /** Work conservation and priority: nothing is returned only when every level is empty; otherwise it
      is the oldest process of the lowest level that has a process and budget, after a refill if no
      level had both, and just that level is popped and charged. */
  lemma GetIsWorkConserving(q: State)
    requires Ok(q)
    ensures Shaped(q)
    ensures var (p, q') := Get(q);
            && Ok(q')
            && (p == NULL <==> AllEmpty(q))
            && (p == NULL ==> q' == q)
            && (p.Proc? ==>
                  var b := AfterRefill(q);
                  && p.prio < MAX_PRIO && Ready(b, p.prio) && (forall j :: 0 <= j < p.prio ==> !Ready(b, j))
                  && p == q.ready[p.prio][0]
                  && q' == State(q.ready[p.prio := q.ready[p.prio][1..]], b.slot[p.prio := b.slot[p.prio] - 1]))
  {
    hide Take, Ok, Shaped;
    OkIsShaped(q);
    var i := FindReady(q, 0);
    if i < MAX_PRIO {
      TakeIsFifo(q, i);
      assert q.ready[i] in q.ready;
    } else if !AllEmpty(q) {
      RefillMakesReady(q);
      TakeIsFifo(Refilled(q), FindReady(Refilled(q), 0));
    }
  }

  lemma GetReturnsAHead(q: State)
    requires Ok(q)
    ensures Shaped(q)
    ensures var x := Get(q).0; x.Proc? ==> x.prio < MAX_PRIO && q.ready[x.prio] != [] && x == q.ready[x.prio][0]
  {
    GetIsWorkConserving(q);
  }

  lemma RefillMakesReady(q: State)
    requires Ok(q) && !AllEmpty(q)
    ensures Ok(Refilled(q)) && FindReady(Refilled(q), 0) < MAX_PRIO
  {
    var level :| level in q.ready && level != [];
    var k :| 0 <= k < MAX_PRIO && q.ready[k] == level;
    assert Ready(Refilled(q), k);
  }

  lemma PutKeepsOk(q: State, p: PcbPtr)
    requires Ok(q) && p.Proc? && p.prio < MAX_PRIO
    ensures Shaped(q) && Ok(Put(q, p))
    ensures forall i :: 0 <= i < MAX_PRIO ==> q.ready[i] <= Put(q, p).ready[i]
  {
    OkIsShaped(q);
  }

  // ---------------------------------------------------------------- no starvation

  function SumTo(s: seq<int>, k: nat): int
    requires k <= |s|
  {
    if k == 0 then 0 else SumTo(s, k - 1) + s[k - 1]
  }

  lemma {:induction false} SumOfUpdate(s: seq<int>, j: nat, v: int, k: nat)
    requires j < |s| && k <= |s|
    ensures SumTo(s[j := v], k) == SumTo(s, k) + (if j < k then v - s[j] else 0)
  {
    if k > 0 {
      SumOfUpdate(s, j, v, k - 1);
    }
  }

  lemma {:induction false} SumBounds(s: seq<int>, t: seq<int>, k: nat)
    requires k <= |s| && k <= |t| && forall i :: 0 <= i < k ==> 0 <= s[i] <= t[i]
    ensures 0 <= SumTo(s, k) <= SumTo(t, k)
  {
    if k > 0 {
      SumBounds(s, t, k - 1);
    }
  }

  lemma {:induction false} SumMonotone(s: seq<int>, k: nat, n: nat)
    requires k <= n <= |s| && forall i :: 0 <= i < |s| ==> 0 <= s[i]
    ensures SumTo(s, k) <= SumTo(s, n)
    ensures k < n ==> SumTo(s, k) + s[k] <= SumTo(s, n)
  {
    if k < n {
      SumMonotone(s, k, n - 1);
    }
  }

  lemma {:induction false} SumOfQuotas(k: nat)
    requires k <= MAX_PRIO
    ensures 2 * SumTo(Quotas(), k) == k * (2 * MAX_PRIO + 1 - k)
  {
    if k > 0 {
      SumOfQuotas(k - 1);
    }
  }

  const BOUND: nat := 19738

  /** How many dispatches of other levels can still come before one of level i. */
  function Phi(q: State, i: nat): int
    requires Ok(q) && i < MAX_PRIO
  {
    if q.slot[i] > 0 then SumTo(q.slot, i) else SumTo(q.slot, MAX_PRIO) + SumTo(Quotas(), i)
  }

  lemma PhiIsBounded(q: State, i: nat)
    requires Ok(q) && i < MAX_PRIO
    ensures 0 <= Phi(q, i) <= BOUND
  {
    SumOfQuotas(MAX_PRIO);
    SumBounds(q.slot, Quotas(), i);
    SumMonotone(Quotas(), i, MAX_PRIO);
    SumBounds(Quotas(), Quotas(), i);
    if q.slot[i] == 0 {
      var most := Quotas()[i := 0];
      SumBounds(q.slot, most, MAX_PRIO);
      SumOfUpdate(Quotas(), i, 0, MAX_PRIO);
    }
  }

  lemma GetLowersPhi(q: State, i: nat)
    requires Ok(q) && i < MAX_PRIO && q.ready[i] != []
    ensures Shaped(q)
    ensures var (p, q') := Get(q);
            && Ok(q') && p.Proc?
            && (p.prio != i ==> q'.ready[i] == q.ready[i] && Phi(q', i) < Phi(q, i))
  {
    GetIsWorkConserving(q);
    assert q.ready[i] in q.ready;
    var (p, q') := Get(q);
    var b := AfterRefill(q);
    if p.prio != i {
      ChargeLowersSums(b.slot, p.prio, i);
      assert b.slot[i] > 0 ==> Ready(b, i);
      if Refills(q) {
        assert !Ready(q, i);
        SumBounds(q.slot, Quotas(), MAX_PRIO);
      }
    }
  }

  lemma ChargeLowersSums(s: seq<int>, j: nat, i: nat)
    requires |s| == MAX_PRIO && j < MAX_PRIO && i < MAX_PRIO && j != i
    ensures var t := s[j := s[j] - 1];
            && t[i] == s[i]
            && SumTo(t, MAX_PRIO) == SumTo(s, MAX_PRIO) - 1
            && SumTo(t, i) == SumTo(s, i) - if j < i then 1 else 0
  {
    SumOfUpdate(s, j, s[j] - 1, i);
    SumOfUpdate(s, j, s[j] - 1, MAX_PRIO);
  }

  /** Where process p waits: at position k of its level. */
  predicate WaitsAt(q: State, p: PcbPtr, k: nat) {
    p.Proc? && p.prio < |q.ready| && k < |q.ready[p.prio]| && q.ready[p.prio][k] == p
  }

  datatype Call = GetCall | PutCall(p: PcbPtr)

  predicate LegalCalls(cs: seq<Call>) { forall c <- cs :: c.PutCall? ==> c.p.Proc? && c.p.prio < MAX_PRIO }

  function Serve(q: State, c: Call): (r: State)
    requires Ok(q) && (c.PutCall? ==> c.p.Proc? && c.p.prio < MAX_PRIO)
    ensures Ok(r)
  {
    OkIsShaped(q);
    match c
    case GetCall => GetIsWorkConserving(q); Get(q).1
    case PutCall(p) => PutKeepsOk(q, p); Put(q, p)
  }

  /** How often get_mlq_proc was called before the first time it returned p. */
  function GetsBefore(q: State, cs: seq<Call>, p: PcbPtr): nat
    requires Ok(q) && LegalCalls(cs)
    decreases |cs|
  {
    OkIsShaped(q);
    if cs == [] || (cs[0].GetCall? && Get(q).0 == p) then 0
    else (if cs[0].GetCall? then 1 else 0) + GetsBefore(Serve(q, cs[0]), cs[1..], p)
  }

  /** No starvation, with a bound: whatever is put or added meanwhile, a process with k others before
      it on its level is returned within (k + 1) * 19739 calls of get_mlq_proc.  For the oldest
      process of a level that is the bound for the level. */
  lemma {:induction false} NoStarvation(q: State, cs: seq<Call>, p: PcbPtr, k: nat)
    requires Ok(q) && LegalCalls(cs) && WaitsAt(q, p, k)
    ensures GetsBefore(q, cs, p) <= k * (BOUND + 1) + Phi(q, p.prio) < (k + 1) * (BOUND + 1)
    decreases |cs|
  {
    PhiIsBounded(q, p.prio);
    OkIsShaped(q);
    if cs != [] && !(cs[0].GetCall? && Get(q).0 == p) {
      var q' := Serve(q, cs[0]);
      match cs[0] {
        case GetCall =>
          GetLowersPhi(q, p.prio);
          GetIsWorkConserving(q);
          if Get(q).0.prio == p.prio {
            assert k > 0 && WaitsAt(q', p, k - 1);
            NoStarvation(q', cs[1..], p, k - 1);
          } else {
            NoStarvation(q', cs[1..], p, k);
          }
        case PutCall(added) =>
          PutKeepsOk(q, added);
          NoStarvation(q', cs[1..], p, k);
      }
    }
  }

  // ---------------------------------------------------------------- epochs

  /** The scheduler with a count, per level, of its dispatches since the last refill. */
  datatype Epoch = Epoch(q: State, sent: seq<nat>)

  function Zeros(): seq<nat> { seq(MAX_PRIO, _ => 0) }

  function Advance(e: Epoch, c: Call): Epoch
    requires Ok(e.q) && |e.sent| == MAX_PRIO && (c.PutCall? ==> c.p.Proc? && c.p.prio < MAX_PRIO)
  {
    OkIsShaped(e.q);
    GetIsWorkConserving(e.q);
    var q' := Serve(e.q, c);
    if c.PutCall? || Get(e.q).0.NULL? then Epoch(q', e.sent)
    else
      var base := if Refills(e.q) then Zeros() else e.sent;
      var i := Get(e.q).0.prio;
      Epoch(q', base[i := base[i] + 1])
  }

  function AdvanceAll(cs: seq<Call>): (e: Epoch)
    requires LegalCalls(cs)
    ensures Ok(e.q) && |e.sent| == MAX_PRIO
  {
    if cs == [] then Epoch(Start(), Zeros())
    else
      assert cs[|cs|-1] in cs;
      Advance(AdvanceAll(cs[..|cs|-1]), cs[|cs|-1])
  }

  lemma AdvanceShares(e: Epoch, c: Call, i: nat)
    requires Ok(e.q) && |e.sent| == MAX_PRIO && (c.PutCall? ==> c.p.Proc? && c.p.prio < MAX_PRIO) && i < MAX_PRIO
    requires e.sent[i] + e.q.slot[i] == MAX_PRIO - i
    ensures var e' := Advance(e, c);
            Ok(e'.q) && |e'.sent| == MAX_PRIO && e'.sent[i] + e'.q.slot[i] == MAX_PRIO - i
  {
    OkIsShaped(e.q);
    GetIsWorkConserving(e.q);
    hide Get, Ready, AllEmpty, FindReady, Shaped;
  }

  /** Shares: in every reachable state the dispatches of level i since the last refill and its
      remaining budget add up to 140 - i, so it gets at most that many per epoch; and exactly that many
      if it has a process waiting when the next refill comes. */
  lemma {:induction false} EpochShares(cs: seq<Call>, i: nat)
    requires LegalCalls(cs) && i < MAX_PRIO
    ensures var e := AdvanceAll(cs);
            && e.sent[i] + e.q.slot[i] == MAX_PRIO - i
            && (Refills(e.q) && e.q.ready[i] != [] ==> e.sent[i] == MAX_PRIO - i)
  {
    var e := AdvanceAll(cs);
    assert e.sent[i] + e.q.slot[i] == MAX_PRIO - i by {
      if cs != [] {
        var last := |cs| - 1;
        assert cs[last] in cs;
        EpochShares(cs[..last], i);
        hide Advance, Ok;
        AdvanceShares(AdvanceAll(cs[..last]), cs[last], i);
      }
    }
    hide AdvanceAll;
    if Refills(e.q) && e.q.ready[i] != [] {
      assert !Ready(e.q, i);
    }
  }
}
