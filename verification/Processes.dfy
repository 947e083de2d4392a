/** Whole runs: processes come, execute memory instructions in any interleaving, and go. */
module Processes {
  import opened Wrappers
  import opened Regions
  import opened Paging
  import opened Growth
  import opened Memory
  import opened Supply

  function Range(lo: nat, hi: nat): seq<nat>
    requires lo <= hi
  {
    seq(hi - lo, i => lo + i)
  }

  /** Devices as init_memphy leaves them, with swap slot 0 kept out of the pool. */
  function Boot(frames: nat, slots: nat): Sys
    requires slots > 0
  {
    Sys(Device(seq(frames, _ => ZeroPage()), Range(0, frames)),
        Device(seq(slots, _ => ZeroPage()), Range(1, slots)),
        map[], {}, ToSet(Range(1, slots)))
  }

  lemma BootIsSound(frames: nat, slots: nat)
    requires slots > 0
    ensures SysOk(Boot(frames, slots)) && NoSlotZero(Boot(frames, slots))
  {
    var s := Boot(frames, slots);
    assert SameEntries(s, s);
    forall f: nat ensures f in s.ram.free <==> f < frames {
      if f < frames { assert s.ram.free[f] == f; }
    }
    forall t: nat ensures t in s.swp.free <==> 1 <= t < slots {
      if 1 <= t < slots { assert s.swp.free[t - 1] == t; }
    }
  }

  /** init_mm */
  function InitMm(): Mm { Mm(seq(MAX_PGN, _ => Absent), [], Initial().area, [], []) }

  // ---------------------------------------------------------------- teardown

  /** Storage given back by free_pcb_memph when it has looked at the first k pages, newest first. */
  function FramesOf(mm: Mm, k: nat): seq<nat> {
    if k == 0 then []
    else match mm.At(k - 1)
      case InRam(f) => [f] + FramesOf(mm, k - 1)
      case _ => FramesOf(mm, k - 1)
  }

  function SlotsOf(mm: Mm, k: nat): seq<nat> {
    if k == 0 then []
    else match mm.At(k - 1)
      case InSwap(t) => [t] + SlotsOf(mm, k - 1)
      case _ => SlotsOf(mm, k - 1)
  }

  /** free_pcb_memph */
  function Collect(m: Machine): Machine {
    m.(ram := m.ram.(free := FramesOf(m.mm, MAX_PGN) + m.ram.free),
       swp := m.swp.(free := SlotsOf(m.mm, MAX_PGN) + m.swp.free))
  }

  /** The process is gone once its storage is collected. */
  function Exited(s: Sys, p: nat): Sys
    requires p in s.mms
  {
    var m := Collect(Focus(s, p));
    s.(ram := m.ram, swp := m.swp, mms := s.mms - {p})
  }

  ghost predicate EntriesDistinct(mm: Mm) {
    forall g: nat, g': nat :: mm.At(g) != Absent && mm.At(g) == mm.At(g') ==> g == g'
  }

  lemma {:induction false} FramesOfMembers(mm: Mm, k: nat)
    requires EntriesDistinct(mm)
    ensures NoDup(FramesOf(mm, k))
    ensures forall f: nat :: f in FramesOf(mm, k) <==> exists g: nat :: g < k && mm.At(g) == InRam(f)
  {
    if k > 0 {
      FramesOfMembers(mm, k - 1);
    }
  }

  lemma {:induction false} SlotsOfMembers(mm: Mm, k: nat)
    requires EntriesDistinct(mm)
    ensures NoDup(SlotsOf(mm, k))
    ensures forall t: nat :: t in SlotsOf(mm, k) <==> exists g: nat :: g < k && mm.At(g) == InSwap(t)
  {
    if k > 0 {
      SlotsOfMembers(mm, k - 1);
    }
  }

  /** Collecting a process returns each of its frames and slots once and touches nobody else. */
  lemma ExitKeeps(s: Sys, p: nat)
    requires Inv(s) && p in s.mms
    ensures Inv(Exited(s, p))
    ensures forall q: nat, g: nat :: q != p ==> Bytes(Exited(s, p), q, g) == Bytes(s, q, g)
  {
    var mm, s' := s.mms[p], Exited(s, p);
    assert forall q: nat, g: nat :: s'.At(q, g) == if q == p then Absent else s.At(q, g);
    assert EntriesDistinct(mm) by {
      assert forall g: nat :: mm.At(g) == s.At(p, g);
    }
    FramesOfMembers(mm, MAX_PGN);
    SlotsOfMembers(mm, MAX_PGN);
    FramesAfterExit(s, p);
    SlotsAfterExit(s, p);
  }

  lemma NoDupConcat(xs: seq<nat>, ys: seq<nat>)
    requires NoDup(xs) && NoDup(ys) && forall x <- xs :: x !in ys
    ensures NoDup(xs + ys)
  {
    forall i, j | 0 <= i < j < |xs + ys| ensures (xs + ys)[i] != (xs + ys)[j] {
      assert i < |xs| ==> (xs + ys)[i] in xs;
      assert j >= |xs| ==> (xs + ys)[j] in ys;
    }
  }

  lemma FramesAfterExit(s: Sys, p: nat)
    requires Inv(s) && p in s.mms
    ensures FramesConserved(Exited(s, p))
  {
    var mm, s' := s.mms[p], Exited(s, p);
    assert forall q: nat, g: nat :: s'.At(q, g) == if q == p then Absent else s.At(q, g);
    assert forall g: nat :: mm.At(g) == s.At(p, g);
    FramesOfMembers(mm, MAX_PGN);
    var given := FramesOf(mm, MAX_PGN);
    forall f: nat ensures FrameHeld(s, f) <==> f in given || FrameHeld(s', f) {
      if FrameHeld(s, f) {
        var q: nat, g: nat :| s.At(q, g) == InRam(f);
        assert q == p ==> mm.At(g) == InRam(f) && g < MAX_PGN;
        assert q != p ==> s'.At(q, g) == InRam(f);
      }
    }
    forall f: nat | f in given ensures !FrameHeld(s', f) {
      var g: nat :| g < MAX_PGN && mm.At(g) == InRam(f);
      assert s.At(p, g) == InRam(f);
    }
    forall f <- given ensures FrameHeld(s, f) {}
    NoDupConcat(given, s.ram.free);
  }

  lemma SlotsAfterExit(s: Sys, p: nat)
    requires Inv(s) && p in s.mms
    ensures SlotsConserved(Exited(s, p))
  {
    var mm, s' := s.mms[p], Exited(s, p);
    assert forall q: nat, g: nat :: s'.At(q, g) == if q == p then Absent else s.At(q, g);
    assert forall g: nat :: mm.At(g) == s.At(p, g);
    SlotsOfMembers(mm, MAX_PGN);
    var given := SlotsOf(mm, MAX_PGN);
    forall t: nat ensures SlotHeld(s, t) <==> t in given || SlotHeld(s', t) {
      if SlotHeld(s, t) {
        var q: nat, g: nat :| s.At(q, g) == InSwap(t);
        assert q == p ==> mm.At(g) == InSwap(t) && g < MAX_PGN;
        assert q != p ==> s'.At(q, g) == InSwap(t);
      }
    }
    forall t: nat | t in given ensures !SlotHeld(s', t) {
      var g: nat :| g < MAX_PGN && mm.At(g) == InSwap(t);
      assert s.At(p, g) == InSwap(t);
    }
    forall t <- given ensures SlotHeld(s, t) {}
    NoDupConcat(given, s.swp.free);
  }

  // ---------------------------------------------------------------- runs

  datatype Event = Spawn(pid: nat) | Exit(pid: nat) | Do(pid: nat, op: Op)

  predicate Enabled(s: Sys, e: Event) {
    match e
    case Spawn(p) => p !in s.mms
    case Exit(p) => p in s.mms
    case Do(p, op) => p in s.mms && Legal(s.mms[p], op)
  }

  function Step(s: Sys, e: Event): Sys
    requires Enabled(s, e)
  {
    match e
    case Spawn(p) => s.(mms := s.mms[p := InitMm()])
    case Exit(p) => Exited(s, p)
    case Do(p, op) => After(s, p, op)
  }

  predicate Possible(s: Sys, es: seq<Event>)
    decreases |es|
  {
    es == [] || (Enabled(s, es[0]) && Possible(Step(s, es[0]), es[1..]))
  }

  function Run(s: Sys, es: seq<Event>): Sys
    requires Possible(s, es)
    decreases |es|
  {
    if es == [] then s else Run(Step(s, es[0]), es[1..])
  }

  lemma StepKeeps(s: Sys, e: Event)
    requires SysOk(s) && NoSlotZero(s) && Enabled(s, e)
    ensures SysOk(Step(s, e)) && NoSlotZero(Step(s, e)) && Step(s, e).pool == s.pool
  {
    match e {
      case Spawn(p) => SpawnKeeps(s, p);
      case Exit(p) => ExitKeeps(s, p);
      case Do(p, op) =>
        hide Inv;
        PerformKeeps(s, p, op);
    }
  }

  lemma SpawnKeeps(s: Sys, p: nat)
    requires SysOk(s) && p !in s.mms
    ensures SysOk(Step(s, Spawn(p))) && SameBytes(s, Step(s, Spawn(p)))
  {
    var s' := Step(s, Spawn(p));
    InitIsOk();
    assert SameEntries(s, s');
    SameEntriesKeepHolders(s, s');
    hide QueueSound, AreaOk, FrameHeld, SlotHeld, Unshared, InitMm;
  }

  lemma InitIsOk()
    ensures AreaOk(InitMm()) && QueueSound(InitMm()) && |InitMm().table| == MAX_PGN
    ensures forall g: nat :: InitMm().At(g) == Absent
  {
  }

  /** In every reachable state no two pages share storage, and each frame and each pooled slot is in
      exactly one place. */
  lemma {:induction false} RunKeeps(s: Sys, es: seq<Event>)
    requires SysOk(s) && NoSlotZero(s) && Possible(s, es)
    ensures SysOk(Run(s, es)) && Run(s, es).pool == s.pool
    decreases |es|
  {
    hide SysOk, NoSlotZero, Step;
    if es != [] {
      StepKeeps(s, es[0]);
      RunKeeps(Step(s, es[0]), es[1..]);
    }
  }

  /** Does event e store a byte at address a of process p? */
  predicate Stores(s: Sys, e: Event, p: nat, a: nat)
    requires Enabled(s, e)
  {
    e.Do? && e.pid == p && Target(Focus(s, p), e.op) == Some(a)
  }

  /** What a flat byte holds after the run when it held b before it. */
  function FlatByte(s: Sys, es: seq<Event>, p: nat, a: nat, b: bv8): bv8
    requires Possible(s, es)
    decreases |es|
  {
    if es == [] then b
    else FlatByte(Step(s, es[0]), es[1..], p, a, if Stores(s, es[0], p, a) then es[0].op.value else b)
  }

  /** Demand paging with replacement refines one flat byte array per process: over any interleaving of
      any processes, with all the evictions and reloads it takes, a byte of the memory p already has
      is the last one a served write of p stored there. */
  lemma {:induction false} PagingRefinesFlatMemory(s: Sys, es: seq<Event>, p: nat, a: nat)
    requires SysOk(s) && NoSlotZero(s) && Possible(s, es)
    requires p in s.mms && a < s.mms[p].area.vmEnd && Exit(p) !in es
    ensures ByteAt(Run(s, es), p, a) == FlatByte(s, es, p, a, ByteAt(s, p, a))
    ensures p in Run(s, es).mms && a < Run(s, es).mms[p].area.vmEnd
    decreases |es|
  {
    hide SysOk, NoSlotZero, ByteAt, Step, Stores;
    if es != [] {
      StepKeeps(s, es[0]);
      StepOnByte(s, es[0], p, a);
      PagingRefinesFlatMemory(Step(s, es[0]), es[1..], p, a);
    }
  }

  lemma StepOnByte(s: Sys, e: Event, p: nat, a: nat)
    requires SysOk(s) && NoSlotZero(s) && Enabled(s, e)
    requires p in s.mms && a < s.mms[p].area.vmEnd && e != Exit(p)
    ensures var s' := Step(s, e);
            && p in s'.mms && a < s'.mms[p].area.vmEnd
            && ByteAt(s', p, a) == if Stores(s, e, p, a) then e.op.value else ByteAt(s, p, a)
  {
    match e {
      case Spawn(q) =>
        SpawnKeeps(s, q);
      case Exit(q) =>
        ExitKeeps(s, q);
      case Do(q, op) =>
        hide Inv;
        PerformKeeps(s, q, op);
    }
  }

  /** A read that is served after any run returns the last byte stored. */
  lemma ReadReturnsLastStored(s: Sys, es: seq<Event>, p: nat, rgid: int, offset: nat)
    requires SysOk(s) && NoSlotZero(s) && Possible(s, es) && p in s.mms && Exit(p) !in es
    requires p in Run(s, es).mms && Legal(Run(s, es).mms[p], Read(rgid, offset))
    requires SymbolOf(Run(s, es).mms[p].area, rgid).Some?
    ensures var m := Focus(Run(s, es), p);
            var addr := Plus(SymbolOf(m.mm.area, rgid).value.start, offset);
            addr < s.mms[p].area.vmEnd && DoRead(m, rgid, offset).1.Some?
            ==> DoRead(m, rgid, offset).1 == Some(FlatByte(s, es, p, addr, ByteAt(s, p, addr)))
  {
    hide Inv, ByteAt, DoRead;
    var t := Run(s, es);
    RunKeeps(s, es);
    ReadKeeps(t, p, rgid, offset);
    var addr := Plus(SymbolOf(t.mms[p].area, rgid).value.start, offset);
    if addr < s.mms[p].area.vmEnd {
      PagingRefinesFlatMemory(s, es, p, addr);
    }
  }

  // ---------------------------------------------------------------- no request refused

  /** Pages an instruction adds to the area: an allocation that no free region fits and that moves the
      limits rounds up to whole pages. */
  function PagesAdded(m: Machine, op: Op): nat
    requires op.Alloc? ==> op.size < Width(Addr32)
  {
    match op
    case Alloc(_, size) =>
      if FitIndex(Addr32, m.mm.area.freeList, size) < |m.mm.area.freeList| || !Moves(Addr32, m.mm.area, size) then 0
      else Align(Addr32, size) / PAGE_SIZE
    case _ => 0
  }

  /** Does the instruction ask for a frame or a slot it cannot have? */
  predicate Starved(m: Machine, op: Op)
    requires Legal(m.mm, op)
  {
    match op
    case Alloc(rgid, size) => PagesAdded(m, op) > Capacity(m)
    case Free(_) => false
    case Read(rgid, offset) =>
      var r := SymbolOf(m.mm.area, rgid);
      r.Some? && Plus(r.value.start, offset) < r.value.end && CannotServe(m, Pgn(Plus(r.value.start, offset)))
    case Write(rgid, offset, _) =>
      var r := SymbolOf(m.mm.area, rgid);
      r.Some? && CannotServe(m, Pgn(Plus(r.value.start, offset)))
  }

  predicate NeverStarved(s: Sys, es: seq<Event>)
    requires Possible(s, es)
    decreases |es|
  {
    es == [] || ((es[0].Do? ==> !Starved(Focus(s, es[0].pid), es[0].op)) && NeverStarved(Step(s, es[0]), es[1..]))
  }

  /** The replacement queue holds every resident page. */
  ghost predicate QueueComplete(mm: Mm) { forall g: nat :: mm.At(g).InRam? ==> g in mm.fifo }

  lemma GrabKeepsComplete(m: Machine)
    requires QueueComplete(m.mm) && GrabFrame(m).1.Some?
    ensures QueueComplete(GrabFrame(m).0.mm)
  {
    var mm' := GrabFrame(m).0.mm;
    forall g: nat | mm'.At(g).InRam? ensures g in mm'.fifo {
      assert m.mm.At(g).InRam?;
    }
  }

  lemma MapKeepsComplete(m: Machine, g: nat, f: nat)
    requires QueueComplete(m.mm)
    ensures QueueComplete(Map(m, g, f).mm)
  {
    forall k: nat | Map(m, g, f).mm.At(k).InRam? ensures k in Map(m, g, f).mm.fifo {
      assert k != g ==> m.mm.At(k).InRam?;
    }
  }

  lemma GetPageKeepsComplete(m: Machine, g: int)
    requires QueueComplete(m.mm) && GetPage(m, g).1.Some?
    ensures QueueComplete(GetPage(m, g).0.mm)
  {
    if !m.mm.At(g).InRam? {
      var (m1, f) := GrabFrame(m);
      GrabKeepsComplete(m);
      MapKeepsComplete(m1, g, f.value);
    }
  }

  lemma {:induction false} AllocPagesKeepsComplete(m: Machine, n: nat)
    requires QueueComplete(m.mm) && AllocPages(m, n).ok
    ensures QueueComplete(AllocPages(m, n).m.mm)
  {
    hide GrabFrame, QueueComplete;
    if n > 0 {
      AllocPagesKeepsComplete(m, n - 1);
      GrabKeepsComplete(AllocPages(m, n - 1).m);
    }
  }

  lemma {:induction false} MapRangeKeepsComplete(m: Machine, g: nat, frames: seq<nat>)
    requires QueueComplete(m.mm)
    ensures QueueComplete(MapRange(m, g, frames).mm)
  {
    hide Map, QueueComplete;
    if frames != [] {
      var last := |frames| - 1;
      MapRangeKeepsComplete(m, g, frames[..last]);
      MapKeepsComplete(MapRange(m, g, frames[..last]), g + last, frames[last]);
    }
  }

  lemma QueueIgnoresArea(mm: Mm, a: Area)
    requires QueueComplete(mm)
    ensures QueueComplete(mm.(area := a))
  {
    forall g: nat | mm.(area := a).At(g).InRam? ensures g in mm.fifo {
      assert mm.At(g).InRam?;
    }
  }

  lemma AllocKeepsComplete(s: Sys, p: nat, rgid: nat, size: nat)
    requires SysOk(s) && p in s.mms && Legal(s.mms[p], Alloc(rgid, size))
    requires QueueComplete(s.mms[p]) && !Starved(Focus(s, p), Alloc(rgid, size))
    ensures QueueComplete(After(s, p, Alloc(rgid, size)).mms[p]) && After(s, p, Alloc(rgid, size)).hand == s.hand
  {
    hide Inv, AreaOk, QueueComplete, AllocPages, MapRange;
    var m := Focus(s, p);
    var op := Alloc(rgid, size);
    var mm' := After(s, p, op).mms[p];
    assert s.hand + ToSet([]) == s.hand;
    var n := PagesAdded(m, op);
    if n > 0 {
      QueueIsSound(s, p);
      AllocPagesExact(m, n);
      var got := AllocPages(m, n);
      AllocPagesKeepsComplete(m, n);
      var g := m.mm.area.vmEnd / PAGE_SIZE;
      MapRangeKeepsComplete(got.m, g, got.frames);
      QueueIgnoresArea(MapRange(got.m, g, got.frames).mm, mm'.area);
    } else {
      QueueIgnoresArea(m.mm, mm'.area);
    }
  }

  lemma PerformKeepsComplete(s: Sys, p: nat, op: Op)
    requires SysOk(s) && NoSlotZero(s) && p in s.mms && Legal(s.mms[p], op)
    requires QueueComplete(s.mms[p]) && !Starved(Focus(s, p), op)
    ensures QueueComplete(After(s, p, op).mms[p]) && After(s, p, op).hand == s.hand
  {
    hide Inv, AreaOk, QueueComplete, GetPage;
    var m := Focus(s, p);
    assert s.hand + ToSet([]) == s.hand;
    match op {
      case Alloc(rgid, size) =>
        AllocKeepsComplete(s, p, rgid, size);
      case Free(rgid) =>
        QueueIgnoresArea(m.mm, After(s, p, op).mms[p].area);
      case Read(rgid, offset) =>
        var r := SymbolOf(m.mm.area, rgid);
        if r.Some? && Plus(r.value.start, offset) < r.value.end {
          AccessKeepsComplete(s, p, Plus(r.value.start, offset), 0);
        }
      case Write(rgid, offset, value) =>
        var r := SymbolOf(m.mm.area, rgid);
        if r.Some? {
          AccessKeepsComplete(s, p, Plus(r.value.start, offset), value);
        }
    }
  }

  lemma AccessKeepsComplete(s: Sys, p: nat, addr: nat, value: bv8)
    requires Inv(s) && p in s.mms && QueueComplete(s.mms[p]) && !CannotServe(Focus(s, p), Pgn(addr))
    ensures QueueComplete(GetVal(Focus(s, p), addr).0.mm)
    ensures QueueComplete(SetVal(Focus(s, p), addr, value).0.mm)
  {
    hide Inv, QueueComplete, CannotServe, GetPage;
    GetPageFailsIff(s, p, Pgn(addr));
    GetPageKeepsComplete(Focus(s, p), Pgn(addr));
    AccessesFault(Focus(s, p), addr, value);
  }

  ghost predicate AllComplete(s: Sys) { forall p <- s.mms :: QueueComplete(s.mms[p]) }

  /** While no request for a frame or a slot is refused, every resident page can be chosen for
      eviction and no frame is lost. */
  lemma {:induction false} UnstarvedRun(s: Sys, es: seq<Event>)
    requires SysOk(s) && NoSlotZero(s) && AllComplete(s) && Possible(s, es) && NeverStarved(s, es)
    ensures AllComplete(Run(s, es)) && Run(s, es).hand == s.hand
    decreases |es|
  {
    if es != [] {
      StepKeeps(s, es[0]);
      UnstarvedStep(s, es[0]);
      UnstarvedRun(Step(s, es[0]), es[1..]);
    }
  }

  lemma InitIsComplete()
    ensures QueueComplete(InitMm())
  {
  }

  lemma UnstarvedStep(s: Sys, e: Event)
    requires SysOk(s) && NoSlotZero(s) && AllComplete(s) && Enabled(s, e)
    requires e.Do? ==> !Starved(Focus(s, e.pid), e.op)
    ensures AllComplete(Step(s, e)) && Step(s, e).hand == s.hand
  {
    hide Inv, AreaOk, QueueComplete;
    match e {
      case Spawn(p) =>
        InitIsComplete();
      case Exit(p) =>
      case Do(p, op) =>
        PerformKeepsComplete(s, p, op);
    }
  }

  // ---------------------------------------------------------------- frames lost

  /** Frames an instruction leaves in nobody's hands: all there were, if its growth asks for more. */
  function Lost(m: Machine, op: Op): nat
    requires op.Alloc? ==> op.size < Width(Addr32)
  {
    if PagesAdded(m, op) > Capacity(m) then Capacity(m) else 0
  }

  function RunLost(s: Sys, es: seq<Event>): nat
    requires Possible(s, es)
    decreases |es|
  {
    if es == [] then 0
    else (if es[0].Do? then Lost(Focus(s, es[0].pid), es[0].op) else 0) + RunLost(Step(s, es[0]), es[1..])
  }

  lemma {:induction false} SetOfNoDup(xs: seq<nat>)
    requires NoDup(xs)
    ensures |ToSet(xs)| == |xs|
  {
    if xs != [] {
      var last := |xs| - 1;
      SetOfNoDup(xs[..last]);
      assert xs == xs[..last] + [xs[last]];
      ToSetOfSnoc(xs[..last], xs[last]);
      assert xs[last] !in ToSet(xs[..last]);
    }
  }

  lemma AllocLoses(s: Sys, p: nat, rgid: nat, size: nat)
    requires SysOk(s) && p in s.mms && Legal(s.mms[p], Alloc(rgid, size))
    ensures var dropped := DoAlloc(Focus(s, p), rgid, size).dropped;
            |dropped| == Lost(Focus(s, p), Alloc(rgid, size)) && NoDup(dropped) && forall f <- dropped :: f !in s.hand
  {
    hide Inv, MapRange, AllocPages, AreaOk;
    var m := Focus(s, p);
    var n := PagesAdded(m, Alloc(rgid, size));
    QueueIsSound(s, p);
    AllocPagesExact(m, n);
    AllocPagesKeeps(s, p, n);
  }

  /** The frames in hand are those in hand before and those lost. */
  lemma StepHand(s: Sys, e: Event)
    requires SysOk(s) && Enabled(s, e)
    ensures |Step(s, e).hand| == |s.hand| + if e.Do? then Lost(Focus(s, e.pid), e.op) else 0
  {
    hide Inv, DoAlloc, AreaOk, Capacity;
    if e.Do? {
      var r := Perform(Focus(s, e.pid), e.op);
      if e.op.Alloc? {
        AllocLoses(s, e.pid, e.op.rgid, e.op.size);
      }
      SetOfNoDup(r.dropped);
      assert s.hand !! ToSet(r.dropped);
    }
  }

  lemma {:induction false} RunHand(s: Sys, es: seq<Event>)
    requires SysOk(s) && NoSlotZero(s) && Possible(s, es)
    ensures |Run(s, es).hand| == |s.hand| + RunLost(s, es)
    decreases |es|
  {
    hide SysOk, NoSlotZero, Enabled, Step, Lost;
    if es != [] {
      StepKeeps(s, es[0]);
      StepHand(s, es[0]);
      RunHand(Step(s, es[0]), es[1..]);
    }
  }

  /** A run in which no request is refused loses nothing. */
  lemma {:induction false} UnstarvedLosesNothing(s: Sys, es: seq<Event>)
    requires Possible(s, es) && NeverStarved(s, es)
    ensures RunLost(s, es) == 0
    decreases |es|
  {
    hide Step, Capacity;
    if es != [] {
      UnstarvedLosesNothing(Step(s, es[0]), es[1..]);
    }
  }

  // ---------------------------------------------------------------- the pools at the end

  lemma AllocKeepsRam(m: Machine, rgid: nat, size: nat)
    requires rgid < |m.mm.area.symbols| && size < Width(Addr32)
    ensures DoAlloc(m, rgid, size).m.ram.pages == m.ram.pages
  {
    hide AllocPages, MapRange, Allocate, AlignUp, FitIndex;
    var n := Align(Addr32, size) / PAGE_SIZE;
    AllocPagesKeepsRam(m, n);
    MapRangeKeepsRam(AllocPages(m, n).m, m.mm.area.vmEnd / PAGE_SIZE, AllocPages(m, n).frames);
  }

  lemma AccessKeepsFrameCount(m: Machine, addr: nat, value: bv8)
    ensures |GetVal(m, addr).0.ram.pages| == |m.ram.pages|
    ensures |SetVal(m, addr, value).0.ram.pages| == |m.ram.pages|
  {
  }

  lemma PerformKeepsFrameCount(m: Machine, op: Op)
    requires Legal(m.mm, op)
    ensures |Perform(m, op).m.ram.pages| == |m.ram.pages|
  {
    hide DoAlloc, GetVal, SetVal;
    match op {
      case Alloc(rgid, size) => AllocKeepsRam(m, rgid, size);
      case Free(_) =>
      case Read(rgid, offset) =>
        if SymbolOf(m.mm.area, rgid).Some? {
          AccessKeepsFrameCount(m, Plus(SymbolOf(m.mm.area, rgid).value.start, offset), 0);
        }
      case Write(rgid, offset, value) =>
        if SymbolOf(m.mm.area, rgid).Some? {
          AccessKeepsFrameCount(m, Plus(SymbolOf(m.mm.area, rgid).value.start, offset), value);
        }
    }
  }

  lemma StepKeepsFrameCount(s: Sys, e: Event)
    requires Enabled(s, e)
    ensures |Step(s, e).ram.pages| == |s.ram.pages|
  {
    hide Perform, Legal;
    if e.Do? {
      PerformKeepsFrameCount(Focus(s, e.pid), e.op);
    }
  }

  lemma {:induction false} RunKeepsFrameCount(s: Sys, es: seq<Event>)
    requires Possible(s, es)
    ensures |Run(s, es).ram.pages| == |s.ram.pages|
    decreases |es|
  {
    hide Enabled, Step;
    if es != [] {
      StepKeepsFrameCount(s, es[0]);
      RunKeepsFrameCount(Step(s, es[0]), es[1..]);
    }
  }

  lemma {:induction false} MultisetOfNoDup(xs: seq<nat>)
    requires NoDup(xs)
    ensures multiset(xs) == multiset(ToSet(xs))
  {
    if xs != [] {
      var last := |xs| - 1;
      MultisetOfNoDup(xs[..last]);
      assert xs == xs[..last] + [xs[last]];
      ToSetOfSnoc(xs[..last], xs[last]);
      assert xs[last] !in ToSet(xs[..last]);
    }
  }

  /** Once every process has been collected, the swap pool is a permutation of what it was at boot, and
      the RAM pool lacks exactly the frames lost: it is a permutation of what it was exactly if no
      growth asked for more than its capacity after finding a frame, as when no request was refused. */
  lemma TeardownRestoresPools(frames: nat, slots: nat, es: seq<Event>)
    requires slots > 0 && Possible(Boot(frames, slots), es)
    requires Run(Boot(frames, slots), es).mms == map[]
    ensures var b, s := Boot(frames, slots), Run(Boot(frames, slots), es);
            && multiset(s.swp.free) == multiset(b.swp.free)
            && |s.ram.free| == frames - RunLost(b, es)
            && (multiset(s.ram.free) == multiset(b.ram.free) <==> RunLost(b, es) == 0)
            && (RunLost(b, es) == 0 <==> s.hand == {})
            && (NeverStarved(b, es) ==> RunLost(b, es) == 0)
  {
    var b, s := Boot(frames, slots), Run(Boot(frames, slots), es);
    BootIsSound(frames, slots);
    RunKeeps(b, es);
    RunHand(b, es);
    RunKeepsFrameCount(b, es);
    if NeverStarved(b, es) {
      UnstarvedLosesNothing(b, es);
    }
    PoolsAtRest(s);
    hide SysOk, Inv, RunLost, Run, NeverStarved, Possible;
    PoolWithout(s.ram.free, s.hand, frames);
    SamePool(s.swp.free, b.swp.free);
    assert ToSet(s.swp.free) == ToSet(b.swp.free);
  }

  /** A free list that has every frame but those in hand. */
  lemma PoolWithout(free: seq<nat>, hand: set<nat>, frames: nat)
    requires NoDup(free)
    requires forall f: nat :: f in free <==> f < frames && f !in hand
    requires forall f <- hand :: f < frames
    ensures |free| == frames - |hand|
    ensures multiset(free) == multiset(Range(0, frames)) <==> hand == {}
  {
    var all := Range(0, frames);
    RangeMembers(0, frames);
    SamePool(free, all);
    SetOfNoDup(free);
    SetOfNoDup(all);
    assert ToSet(all) == ToSet(free) + hand && ToSet(free) !! hand;
    if f :| f in hand {
      assert f in ToSet(all) && f !in ToSet(free);
    }
  }

  /** Pools without duplicates are permutations of each other when they have the same members. */
  lemma SamePool(xs: seq<nat>, ys: seq<nat>)
    requires NoDup(xs) && NoDup(ys)
    ensures multiset(xs) == multiset(ys) <==> ToSet(xs) == ToSet(ys)
  {
    MultisetOfNoDup(xs);
    MultisetOfNoDup(ys);
    if multiset(xs) == multiset(ys) {
      assert forall x :: x in ToSet(xs) <==> x in multiset(xs);
      assert forall x :: x in ToSet(ys) <==> x in multiset(ys);
    }
  }

  lemma RangeMembers(lo: nat, hi: nat)
    requires lo <= hi
    ensures forall x: nat :: x in ToSet(Range(lo, hi)) <==> lo <= x < hi
  {
    forall x: nat | lo <= x < hi ensures x in Range(lo, hi) {
      assert Range(lo, hi)[x - lo] == x;
    }
  }

  lemma PoolsAtRest(s: Sys)
    requires Inv(s) && s.mms == map[]
    ensures NoDup(s.swp.free) && NoDup(s.ram.free)
    ensures forall t: nat :: t in s.swp.free <==> t in s.pool
    ensures forall f: nat :: f in s.ram.free <==> f < |s.ram.pages| && f !in s.hand
    ensures forall f <- s.hand :: f < |s.ram.pages|
  {
    assert forall f: nat :: !FrameHeld(s, f);
    assert forall t: nat :: !SlotHeld(s, t);
  }
}
