/** Amounts of RAM and swap, known before a run, under which no request is refused in it. */
module Room {
  import opened Wrappers
  import opened Regions
  import opened Paging
  import opened Growth
  import opened Supply
  import opened Memory
  import opened Processes
  import opened Flat

  /** Pages an event can add, at most. */
  function DemandOf(e: Event): nat { if e.Do? && e.op.Alloc? then AlignUp(e.op.size) / PAGE_SIZE else 0 }

  function Demand(es: seq<Event>): nat {
    if es == [] then 0 else DemandOf(es[0]) + Demand(es[1..])
  }

  /** The pages an area has. */
  function Pages(mm: Mm): nat { mm.area.vmEnd / PAGE_SIZE }

  lemma {:induction false} MapRangeEntries(m: Machine, g: nat, frames: seq<nat>, k: nat)
    requires g + |frames| <= |m.mm.table|
    ensures var m' := MapRange(m, g, frames);
            && m'.ram == m.ram && m'.swp == m.swp && |m'.mm.table| == |m.mm.table|
            && |m'.mm.fifo| == |m.mm.fifo| + |frames|
            && m'.mm.At(k) == if g <= k < g + |frames| then InRam(frames[k - g]) else m.mm.At(k)
  {
    if frames != [] {
      MapRangeEntries(m, g, frames[..|frames|-1], k);
    }
  }

  /** The page an access faults on, if it gets as far as that. */
  function Accessed(mm: Mm, op: Op): Option<nat>
    requires Legal(mm, op)
  {
    match op
    case Read(rgid, offset) =>
      var r := SymbolOf(mm.area, rgid);
      if r.Some? && Plus(r.value.start, offset) < r.value.end then Some(Pgn(Plus(r.value.start, offset))) else None
    case Write(rgid, offset, _) =>
      var r := SymbolOf(mm.area, rgid);
      if r.Some? then Some(Pgn(Plus(r.value.start, offset))) else None
    case _ => None
  }

  /** An access touches a page of the area, is refused exactly if that page cannot be served, and leaves
      page table, queue and free lists as the fault does. */
  lemma AccessIsFault(mm: Mm, m: Machine, op: Op)
    requires AreaOk(mm) && m.mm == mm && Legal(mm, op) && !op.Alloc?
    ensures var g, m' := Accessed(mm, op), Perform(m, op).m;
            && (g.Some? ==> g.value < Pages(mm) <= MAX_PGN)
            && (Starved(m, op) <==> g.Some? && CannotServe(m, g.value))
            && m'.mm.area.vmEnd == mm.area.vmEnd
            && var f := if g.Some? then GetPage(m, g.value).0 else m;
               m'.mm.table == f.mm.table && m'.mm.fifo == f.mm.fifo && m'.ram.free == f.ram.free && m'.swp.free == f.swp.free
  {
    hide GetPage, CannotServe, Pgn, Plus, AbsentFrom;
    match op {
      case Free(_) =>
      case Read(rgid, offset) =>
        if Accessed(mm, op).Some? {
          var addr := Plus(SymbolOf(mm.area, rgid).value.start, offset);
          AddressSplit(addr);
          GetPageTouchesOnePage(m, Pgn(addr), 0);
        }
      case Write(rgid, offset, _) =>
        if Accessed(mm, op).Some? {
          var addr := Plus(SymbolOf(mm.area, rgid).value.start, offset);
          AddressSplit(addr);
          GetPageTouchesOnePage(m, Pgn(addr), 0);
        }
    }
  }

  // ---------------------------------------------------------------- RAM for all pages

  ghost predicate Resident(mm: Mm) { forall g: nat :: g < Pages(mm) ==> mm.At(g).InRam? }

  ghost predicate AllResident(s: Sys) { forall p <- s.mms :: Resident(s.mms[p]) }

  lemma {:induction false} AllocFromFree(m: Machine, n: nat)
    requires n <= |m.ram.free|
    ensures AllocPages(m, n) == Grabbed(m.(ram := m.ram.(free := m.ram.free[n..])), m.ram.free[..n], true)
  {
    if n == 0 {
      assert m.ram.(free := m.ram.free[0..]) == m.ram;
    } else {
      AllocFromFree(m, n - 1);
    }
  }

  lemma AllocWithinRam(m: Machine, rgid: nat, size: nat)
    requires AreaOk(m.mm) && |m.mm.table| == MAX_PGN && Legal(m.mm, Alloc(rgid, size)) && Resident(m.mm)
    requires AlignUp(size) / PAGE_SIZE <= |m.ram.free|
    ensures var m' := DoAlloc(m, rgid, size).m;
            Resident(m'.mm) && |m'.ram.free| >= |m.ram.free| - AlignUp(size) / PAGE_SIZE
  {
    hide AllocPages, MapRange;
    var n, g := PagesAdded(m, Alloc(rgid, size)), Pages(m.mm);
    AllocFromFree(m, n);
    var got := AllocPages(m, n);
    var m' := DoAlloc(m, rgid, size).m;
    if n > 0 {
      MapRangeEntries(got.m, g, got.frames, 0);
      forall k: nat | k < g + n ensures m'.mm.At(k).InRam? {
        MapRangeEntries(got.m, g, got.frames, k);
      }
    } else {
      assert forall k: nat :: m'.mm.At(k) == m.mm.At(k);
    }
  }

  lemma StepWithinRam(s: Sys, e: Event)
    requires SysOk(s) && Enabled(s, e) && AllResident(s) && DemandOf(e) <= |s.ram.free|
    ensures AllResident(Step(s, e)) && |Step(s, e).ram.free| >= |s.ram.free| - DemandOf(e)
    ensures e.Do? ==> !Starved(Focus(s, e.pid), e.op)
  {
    hide Inv, Perform, Starved, AreaOk;
    match e {
      case Spawn(_) =>
      case Exit(_) =>
      case Do(p, op) =>
        assert |s.mms[p].table| == MAX_PGN by { TableIsWhole(s, p); }
        DoWithinRam(s.mms[p], Focus(s, p), op);
    }
  }

  lemma TableIsWhole(s: Sys, p: nat)
    requires Inv(s) && p in s.mms
    ensures |s.mms[p].table| == MAX_PGN
  {
  }

  lemma DoWithinRam(mm: Mm, m: Machine, op: Op)
    requires m.mm == mm && AreaOk(mm) && |mm.table| == MAX_PGN && Legal(mm, op) && Resident(mm)
    requires DemandOf(Do(0, op)) <= |m.ram.free|
    ensures var m' := Perform(m, op).m;
            Resident(m'.mm) && |m'.ram.free| >= |m.ram.free| - DemandOf(Do(0, op)) && !Starved(m, op)
  {
    if op.Alloc? {
      hide DoAlloc, AreaOk;
      AllocWithinRam(m, op.rgid, op.size);
    } else {
      AccessIsFault(mm, m, op);
      hide AreaOk, Perform, Starved;
      assert Accessed(mm, op).Some? ==> mm.At(Accessed(mm, op).value).InRam?;
      assert forall g: nat :: Perform(m, op).m.mm.At(g) == mm.At(g);
    }
  }

  lemma {:induction false} RunWithinRam(s: Sys, es: seq<Event>)
    requires SysOk(s) && NoSlotZero(s) && Possible(s, es) && AllResident(s) && Demand(es) <= |s.ram.free|
    ensures NeverStarved(s, es)
    decreases |es|
  {
    hide SysOk, NoSlotZero, Enabled, Step, AllResident, Starved;
    if es != [] {
      StepKeeps(s, es[0]);
      StepWithinRam(s, es[0]);
      RunWithinRam(Step(s, es[0]), es[1..]);
    }
  }

  /** If the pages requested in a run of any processes do not outnumber the frames, no request of it is
      refused. */
  lemma RamSuffices(frames: nat, slots: nat, es: seq<Event>)
    requires slots > 0 && Possible(Boot(frames, slots), es) && Demand(es) <= frames
    ensures NeverStarved(Boot(frames, slots), es)
  {
    hide Possible, NeverStarved, Demand;
    BootIsSound(frames, slots);
    RunWithinRam(Boot(frames, slots), es);
  }

  /** Then flat memory serves every access of it. */
  lemma RamServesAll(frames: nat, slots: nat, es: seq<Event>)
    requires slots > 0 && Possible(Boot(frames, slots), es) && Demand(es) <= frames
    ensures forall k :: 0 <= k < |es| ==> ServedAll(Boot(frames, slots), es)[k]
  {
    hide *;
    RamSuffices(frames, slots, es);
    AllServedIff(Boot(frames, slots), es);
  }

  // ---------------------------------------------------------------- one process and its swap

  /** The only process of a system with `frames` frames and `slots` pooled slots, none of them lost: every
      frame is free or holds a page of the queue, and all other pages of the area lie in slots. */
  ghost predicate Snug(m: Machine, frames: nat, slots: nat) {
    && |m.mm.fifo| + |m.ram.free| == frames
    && |m.mm.fifo| + slots == Pages(m.mm) + |m.swp.free|
    && forall g: nat :: g < Pages(m.mm) ==> m.mm.At(g) != Absent
  }

  /** Then a growth is served exactly if its pages fit in RAM together and all pages in RAM and swap. */
  lemma SnugCapacity(m: Machine, frames: nat, slots: nat, n: nat)
    requires Snug(m, frames, slots)
    ensures n <= Capacity(m) <==> n <= frames && Pages(m.mm) + n <= frames + slots
  {
  }

  lemma AllocStaysSnug(m: Machine, rgid: nat, size: nat, frames: nat, slots: nat)
    requires AreaOk(m.mm) && |m.mm.table| == MAX_PGN && QueueSound(m.mm) && Legal(m.mm, Alloc(rgid, size))
    requires Snug(m, frames, slots) && PagesAdded(m, Alloc(rgid, size)) <= Capacity(m)
    ensures var m' := DoAlloc(m, rgid, size).m;
            Snug(m', frames, slots) && Pages(m'.mm) == Pages(m.mm) + PagesAdded(m, Alloc(rgid, size))
  {
    hide AllocPages, MapRange, QueueSound, Granted;
    var n, g := PagesAdded(m, Alloc(rgid, size)), Pages(m.mm);
    AllocPagesExact(m, n);
    var got := AllocPages(m, n);
    var m' := DoAlloc(m, rgid, size).m;
    AllocPagesMovesOnlyResidentPages(m, n, 0);
    if n > 0 {
      MapRangeEntries(got.m, g, got.frames, 0);
      forall k: nat | k < g + n ensures m'.mm.At(k) != Absent {
        MapRangeEntries(got.m, g, got.frames, k);
        AllocPagesMovesOnlyResidentPages(m, n, k);
      }
    } else {
      assert forall k: nat :: m'.mm.At(k) == m.mm.At(k);
    }
  }

  lemma FaultStaysSnug(m: Machine, g: nat, frames: nat, slots: nat)
    requires |m.mm.table| == MAX_PGN && QueueSound(m.mm) && Snug(m, frames, slots)
    requires g < Pages(m.mm) <= MAX_PGN && m.mm.At(g) != InSwap(0)
    requires frames > 0 && Pages(m.mm) < frames + slots
    ensures !CannotServe(m, g) && Snug(GetPage(m, g).0, frames, slots)
  {
    if !m.mm.At(g).InRam? {
      if m.ram.free == [] {
        OldestIsResident(m.mm, 0);
      }
      var (m1, f) := GrabFrame(m);
      hide QueueSound, GrabFrame;
      var m' := Fill(m1, g, f.value);
      GrabMovesOnlyResidentPages(m, g);
      forall k: nat | k < Pages(m.mm) ensures m'.mm.At(k) != Absent {
        GrabMovesOnlyResidentPages(m, k);
      }
    }
  }

  lemma DoStaysSnug(mm: Mm, m: Machine, op: Op, frames: nat, slots: nat)
    requires m.mm == mm && AreaOk(mm) && |mm.table| == MAX_PGN && QueueSound(mm) && Legal(mm, op)
    requires forall g: nat :: mm.At(g) != InSwap(0)
    requires Snug(m, frames, slots) && frames > 0 && DemandOf(Do(0, op)) <= frames
    requires Pages(mm) + DemandOf(Do(0, op)) < frames + slots
    ensures var m' := Perform(m, op).m;
            && Snug(m', frames, slots) && Pages(m'.mm) <= Pages(mm) + DemandOf(Do(0, op)) && !Starved(m, op)
  {
    if op.Alloc? {
      hide DoAlloc, AreaOk, QueueSound, Snug, Capacity;
      SnugCapacity(m, frames, slots, PagesAdded(m, op));
      AllocStaysSnug(m, op.rgid, op.size, frames, slots);
    } else {
      AccessIsFault(mm, m, op);
      hide AreaOk, Perform, Starved, QueueSound, GetPage, CannotServe;
      var g, m' := Accessed(mm, op), Perform(m, op).m;
      if g.Some? {
        FaultStaysSnug(m, g.value, frames, slots);
        GetPageTouchesOnePage(m, g.value, 0);
        assert forall k: nat :: m'.mm.At(k) == GetPage(m, g.value).0.mm.At(k);
      } else {
        assert forall k: nat :: m'.mm.At(k) == mm.At(k);
      }
    }
  }

  predicate AllBy(p: nat, es: seq<Event>) { forall e <- es :: e.Do? && e.pid == p }

  lemma {:induction false} RunStaysSnug(s: Sys, p: nat, es: seq<Event>, frames: nat, slots: nat)
    requires SysOk(s) && NoSlotZero(s) && Possible(s, es) && p in s.mms && AllBy(p, es)
    requires Snug(Focus(s, p), frames, slots) && frames > 0 && forall e <- es :: DemandOf(e) <= frames
    requires Pages(s.mms[p]) + Demand(es) < frames + slots
    ensures NeverStarved(s, es)
    decreases |es|
  {
    if es != [] {
      var e, s' := es[0], Step(s, es[0]);
      assert e in es && forall x <- es[1..] :: x in es;
      hide Inv, AreaOk, Snug, Perform, Starved, Legal;
      ProcessFacts(s, p);
      DoStaysSnug(s.mms[p], Focus(s, p), e.op, frames, slots);
      assert Focus(s', p) == Perform(Focus(s, p), e.op).m;
      hide SysOk, NoSlotZero, Step;
      StepKeeps(s, e);
      RunStaysSnug(s', p, es[1..], frames, slots);
    }
  }

  lemma ProcessFacts(s: Sys, p: nat)
    requires SysOk(s) && NoSlotZero(s) && p in s.mms
    ensures AreaOk(s.mms[p]) && |s.mms[p].table| == MAX_PGN && QueueSound(s.mms[p])
    ensures forall g: nat :: s.mms[p].At(g) != InSwap(0)
  {
    hide AreaOk;
    forall g: nat ensures s.mms[p].At(g) != InSwap(0) {
      NeverInSlotZero(s, p, g);
    }
  }

  /** A single process is never refused if no growth asks for more pages than there are frames and all
      of them together leave one frame or pooled slot unused. */
  lemma StorageSuffices(frames: nat, slots: nat, p: nat, es: seq<Event>)
    requires frames > 0 && slots > 0 && Possible(Boot(frames, slots), [Spawn(p)] + es) && AllBy(p, es)
    requires (forall e <- es :: DemandOf(e) <= frames) && Demand(es) < frames + slots - 1
    ensures NeverStarved(Boot(frames, slots), [Spawn(p)] + es)
  {
    hide *;
    SpawnFirst(Boot(frames, slots), p, es);
    BootIsSnug(frames, slots, p);
    RunStaysSnug(Step(Boot(frames, slots), Spawn(p)), p, es, frames, slots - 1);
  }

  lemma SpawnFirst(b: Sys, p: nat, es: seq<Event>)
    requires Possible(b, [Spawn(p)] + es)
    ensures Enabled(b, Spawn(p)) && Possible(Step(b, Spawn(p)), es)
    ensures NeverStarved(Step(b, Spawn(p)), es) ==> NeverStarved(b, [Spawn(p)] + es)
  {
    hide Step, Starved;
    var all := [Spawn(p)] + es;
    assert all[0] == Spawn(p) && all[1..] == es;
  }

  lemma BootIsSnug(frames: nat, slots: nat, p: nat)
    requires slots > 0
    ensures var b := Boot(frames, slots);
            && Enabled(b, Spawn(p))
            && var s := Step(b, Spawn(p));
               SysOk(s) && NoSlotZero(s) && p in s.mms && Snug(Focus(s, p), frames, slots - 1) && Pages(s.mms[p]) == 0
  {
    hide SysOk, NoSlotZero;
    BootIsSound(frames, slots);
    StepKeeps(Boot(frames, slots), Spawn(p));
  }
}
