/** How many frames a request can get, in terms of what the machine holds before it. */
module Supply {
  import opened Wrappers
  import opened Regions
  import opened Paging
  import opened Growth

  function Min(a: nat, b: nat): nat { if a <= b then a else b }

  /** The free frames, and one more for each page that can be moved to a free slot. */
  function Capacity(m: Machine): nat { |m.ram.free| + Min(|m.mm.fifo|, |m.swp.free|) }

  /** The page that leaves the queue after k others. */
  function Oldest(mm: Mm, k: nat): nat
    requires k < |mm.fifo|
  {
    mm.fifo[|mm.fifo| - 1 - k]
  }

  lemma OldestIsResident(mm: Mm, k: nat)
    requires QueueSound(mm) && k < |mm.fifo|
    ensures mm.At(Oldest(mm, k)).InRam?
  {
    assert Oldest(mm, k) in mm.fifo;
  }

  /** The i-th frame a request gets: the free ones in list order, then those of the oldest pages. */
  function Granted(m: Machine, i: nat): nat
    requires QueueSound(m.mm) && i < Capacity(m)
  {
    if i < |m.ram.free| then m.ram.free[i]
    else
      var k := i - |m.ram.free|;
      OldestIsResident(m.mm, k);
      m.mm.At(Oldest(m.mm, k)).fpn
  }

  lemma {:induction false} ReversedAt(xs: seq<nat>, k: nat)
    requires k < |xs|
    ensures Reversed(xs)[k] == xs[|xs| - 1 - k]
  {
    if k < |xs| - 1 {
      ReversedAt(xs[1..], k);
    }
  }

  /** Pages a request for n frames evicts. */
  function Evictions(m: Machine, n: nat): nat { if n <= |m.ram.free| then 0 else n - |m.ram.free| }

  /** m' is m after a request for n frames that was met: the free list, the queue and the slots have each
      lost what was taken from their proper ends, and the pages evicted left oldest first. */
  predicate Took(m: Machine, n: nat, m': Machine)
    requires n <= Capacity(m)
  {
    var e := Evictions(m, n);
    && m'.ram.free == m.ram.free[n - e..] && m'.swp.free == m.swp.free[e..]
    && m'.mm.fifo == m.mm.fifo[..|m.mm.fifo| - e]
    && m'.mm.popped == m.mm.popped + Reversed(m.mm.fifo)[..e] && m'.mm.enlisted == m.mm.enlisted
    && forall g <- m'.mm.fifo :: m'.mm.At(g) == m.mm.At(g)
  }

  lemma TakeOneFree(m: Machine, n: nat, before: Machine)
    requires QueueSound(m.mm) && n < |m.ram.free| && Took(m, n, before)
    ensures GrabFrame(before).1 == Some(Granted(m, n)) && Took(m, n + 1, GrabFrame(before).0)
  {
  }

  lemma TakeOneVictim(m: Machine, n: nat, before: Machine)
    requires QueueSound(m.mm) && |m.ram.free| <= n < Capacity(m) && Took(m, n, before)
    ensures GrabFrame(before).1 == Some(Granted(m, n)) && Took(m, n + 1, GrabFrame(before).0)
  {
    var e := Evictions(m, n);
    var v := Oldest(m.mm, e);
    OldestIsResident(m.mm, e);
    ReversedAt(m.mm.fifo, e);
    assert before.mm.fifo[|before.mm.fifo| - 1] == v && v in before.mm.fifo;
    assert Reversed(m.mm.fifo)[..e + 1] == Reversed(m.mm.fifo)[..e] + [v];
    var m' := GrabFrame(before).0;
    forall g | g in m'.mm.fifo ensures m'.mm.At(g) == m.mm.At(g) {
      assert g != v && g in before.mm.fifo;
    }
  }

  /** Pages a request takes off the queue; one that runs out of slots takes one it cannot move. */
  function Pops(m: Machine, n: nat): (k: nat)
    ensures k <= |m.mm.fifo|
  {
    if n <= Capacity(m) then Evictions(m, n)
    else if |m.mm.fifo| <= |m.swp.free| then |m.mm.fifo| else |m.swp.free| + 1
  }

  lemma TakeNoneLeft(m: Machine, n: nat, before: Machine)
    requires QueueSound(m.mm) && n == Capacity(m) && Took(m, n, before)
    ensures var (m', f) := GrabFrame(before);
            && f == None && m'.mm.enlisted == m.mm.enlisted
            && m'.mm.popped == m.mm.popped + Reversed(m.mm.fifo)[..Pops(m, n + 1)]
  {
    var e := Evictions(m, n);
    if e < |m.mm.fifo| {
      ReversedAt(m.mm.fifo, e);
      assert Reversed(m.mm.fifo)[..e + 1] == Reversed(m.mm.fifo)[..e] + [Oldest(m.mm, e)];
    }
  }

  /** alloc_pages_range succeeds exactly if it is asked for no more than the capacity.  It collects the
      granted frames in order, as many as were asked for or as there are, and pops the oldest pages. */
  lemma {:induction false} AllocPagesExact(m: Machine, n: nat)
    requires QueueSound(m.mm)
    ensures var r := AllocPages(m, n);
            && (r.ok <==> n <= Capacity(m))
            && |r.frames| == Min(n, Capacity(m))
            && (forall i :: 0 <= i < |r.frames| ==> r.frames[i] == Granted(m, i))
            && (r.ok ==> Took(m, n, r.m))
            && r.m.mm.popped == m.mm.popped + Reversed(m.mm.fifo)[..Pops(m, n)] && r.m.mm.enlisted == m.mm.enlisted
  {
    hide GrabFrame, QueueSound, Granted, Took;
    if n == 0 {
      TookNone(m);
    } else {
      AllocPagesExact(m, n - 1);
      var before := AllocPages(m, n - 1);
      if before.ok {
        if n <= |m.ram.free| {
          TakeOneFree(m, n - 1, before.m);
        } else if n <= Capacity(m) {
          TakeOneVictim(m, n - 1, before.m);
        } else {
          TakeNoneLeft(m, n - 1, before.m);
        }
      }
      if n <= Capacity(m) {
        TookPops(m, n, AllocPages(m, n).m);
      }
    }
  }

  lemma TookPops(m: Machine, n: nat, m': Machine)
    requires n <= Capacity(m) ==> Took(m, n, m')
    ensures n <= Capacity(m) ==>
              m'.mm.popped == m.mm.popped + Reversed(m.mm.fifo)[..Pops(m, n)] && m'.mm.enlisted == m.mm.enlisted
  {
  }

  lemma TookNone(m: Machine)
    ensures Took(m, 0, m) && m.mm.popped == m.mm.popped + Reversed(m.mm.fifo)[..Pops(m, 0)]
  {
  }

  // ---------------------------------------------------------------- growth

  /** Growing by n > 0 pages moves the limits in any case, and maps the new pages exactly if n is within
      the capacity; otherwise none of them is mapped and as many frames as there were are dropped. */
  lemma GrowthMapsIff(s: Sys, p: nat, incSize: nat)
    requires SysOk(s) && p in s.mms && incSize > 0 && incSize % PAGE_SIZE == 0
    requires s.mms[p].area.vmEnd + incSize <= MAX_PGN * PAGE_SIZE
    ensures var m, g, n := Focus(s, p), s.mms[p].area.vmEnd / PAGE_SIZE, incSize / PAGE_SIZE;
            var r := IncVmaLimit(m, incSize);
            && r.m.mm.area == Extend(Addr32, m.mm.area, incSize)
            && (if n <= Capacity(m) then forall i :: 0 <= i < n ==> r.m.mm.At(g + i) == InRam(Granted(m, i))
                else AbsentFrom(r.m.mm, g, g + n))
            && |r.dropped| == (if n <= Capacity(m) then 0 else Capacity(m))
            && NoDup(r.dropped) && (forall f <- r.dropped :: f !in s.hand)
  {
    hide Inv, AllocPages, MapRange, Granted;
    var m, g, n := Focus(s, p), s.mms[p].area.vmEnd / PAGE_SIZE, incSize / PAGE_SIZE;
    QueueIsSound(s, p);
    AllocPagesExact(m, n);
    AllocPagesKeeps(s, p, n);
    assert Align(Addr32, incSize) == incSize;
    MapRamKeeps(s, p, g, n);
    var grown := MapRam(m, g, n);
    hide MapRam;
    var r := IncVmaLimit(m, incSize);
    assert forall k: nat :: r.m.mm.At(k) == grown.m.mm.At(k);
  }

  lemma QueueIsSound(s: Sys, p: nat)
    requires Inv(s) && p in s.mms
    ensures QueueSound(s.mms[p])
  {
  }

  /** A page added by growth holds what its frame held before: it reads as zeros exactly if that did. */
  lemma FreshPageHolds(s: Sys, p: nat, g: nat, n: nat, i: nat)
    requires Inv(s) && p in s.mms && g + n <= MAX_PGN && AbsentFrom(s.mms[p], g, g + n)
    requires i < n <= Capacity(Focus(s, p))
    ensures QueueSound(s.mms[p]) && Granted(Focus(s, p), i) < |s.ram.pages|
    ensures var m := Focus(s, p);
            var r := MapRam(m, g, n);
            var s' := Put(s, p, r.m, s.hand + ToSet(r.dropped));
            && Bytes(s', p, g + i) == s.ram.pages[Granted(m, i)]
            && (Bytes(s', p, g + i) == ZeroPage() <==> s.ram.pages[Granted(m, i)] == ZeroPage())
  {
    hide Inv, AllocPages, MapRam, Granted;
    QueueIsSound(s, p);
    AllocPagesExact(Focus(s, p), n);
    MapRamKeeps(s, p, g, n);
    var got := AllocPages(Focus(s, p), n);
    assert got.frames[i] in got.frames;
  }
}
