/** Demand paging of the 32-bit build, on values.  A page table entry is given by what it decodes to;
    the classes in Kernel.dfy hold the packed words and refine the functions of this module. */
module Paging {
  import opened Wrappers
  import opened Regions

  const MAX_PGN: nat := 16384

  /** Contents of a frame or a swap slot. */
  type Page = seq<bv8>

  function ZeroPage(): Page { seq(PAGE_SIZE, i => 0 as bv8) }

  /** A memory device: its frames and its free-frame list, head first. */
  datatype Device = Device(pages: seq<Page>, free: seq<nat>) {
    function Pop(): Device
      requires free != []
    {
      this.(free := free[1..])
    }

    /** memset of one frame, or the last write of a page copy */
    function With(f: nat, page: Page): Device {
      if f < |pages| then this.(pages := pages[f := page]) else this
    }
  }

  datatype Entry = Absent | InRam(fpn: nat) | InSwap(slot: nat)

  /** Memory of one process.  The newest page heads `fifo`.  `enlisted` and `popped` are records beside
      the code's own fields: the pages ever put on the queue and ever taken off it, in order. */
  datatype Mm = Mm(table: seq<Entry>, fifo: seq<nat>, area: Area, enlisted: seq<nat>, popped: seq<nat>) {
    function At(g: nat): Entry { if g < |table| then table[g] else Absent }

    function Set(g: nat, e: Entry): Mm { if g < |table| then this.(table := table[g := e]) else this }
  }

  /** What one kernel call can touch: the two devices and the caller's own memory. */
  datatype Machine = Machine(ram: Device, swp: Device, mm: Mm)

  /** __swap_cp_page, with its bounds guard. */
  function CopyPage(src: Device, f: nat, dst: Device, t: nat): Device {
    if f < |src.pages| then dst.With(t, src.pages[f]) else dst
  }

  /** find_victim_page */
  function Unlink(mm: Mm): Mm
    requires mm.fifo != []
  {
    var last := |mm.fifo| - 1;
    mm.(fifo := mm.fifo[..last], popped := mm.popped + [mm.fifo[last]])
  }

  /** Push the oldest page of the caller out to swap and keep its frame.  The victim is unlinked
      before a slot is known to exist. */
  function Evict(m: Machine): (Machine, Option<nat>) {
    if m.mm.fifo == [] then (m, None)
    else
      var last := |m.mm.fifo| - 1;
      var victim := m.mm.fifo[last];
      var m1 := m.(mm := Unlink(m.mm));
      if m1.swp.free == [] then (m1, None)
      else
        var slot := m1.swp.free[0];
        var m2 := m1.(swp := m1.swp.Pop());
        match m2.mm.At(victim)
        case InRam(f) =>
          (m2.(swp := CopyPage(m2.ram, f, m2.swp, slot), mm := m2.mm.Set(victim, InSwap(slot))), Some(f))
        case _ => (m2, None)
  }

  /** A free frame of RAM, or else one taken from a victim. */
  function GrabFrame(m: Machine): (Machine, Option<nat>) {
    if m.ram.free != [] then (m.(ram := m.ram.Pop()), Some(m.ram.free[0])) else Evict(m)
  }

  /** pte_set_fpn and enlist_pgn_node */
  function Map(m: Machine, g: nat, f: nat): Machine {
    m.(mm := m.mm.Set(g, InRam(f)).(fifo := [g] + m.mm.fifo, enlisted := m.mm.enlisted + [g]))
  }

  /** Bring page g into frame f.  A swap offset of 0 reads as "never swapped". */
  function Fill(m: Machine, g: nat, f: nat): Machine {
    var slot := match m.mm.At(g) case InSwap(t) => t case _ => 0;
    var m1 :=
      if slot != 0 then
        m.(ram := CopyPage(m.swp, slot, m.ram, f), swp := m.swp.(free := [slot] + m.swp.free))
      else
        m.(ram := m.ram.With(f, ZeroPage()));
    Map(m1, g, f)
  }

  /** pg_getpage */
  function GetPage(m: Machine, g: int): (Machine, Option<nat>) {
    if !(0 <= g < MAX_PGN) then (m, None)
    else if m.mm.At(g).InRam? then (m, Some(m.mm.At(g).fpn))
    else
      var (m1, f) := GrabFrame(m);
      match f
      case None => (m1, None)
      case Some(frame) => (Fill(m1, g, frame), Some(frame))
  }

  datatype Grabbed = Grabbed(m: Machine, frames: seq<nat>, ok: bool)

  /** alloc_pages_range: the frames collected so far are simply dropped on failure. */
  function AllocPages(m: Machine, n: nat): (r: Grabbed)
    ensures |r.frames| <= n && (r.ok ==> |r.frames| == n)
  {
    if n == 0 then Grabbed(m, [], true)
    else
      var before := AllocPages(m, n - 1);
      if !before.ok then before
      else
        var (m', f) := GrabFrame(before.m);
        match f
        case None => Grabbed(m', before.frames, false)
        case Some(frame) => Grabbed(m', before.frames + [frame], true)
  }

  /** vmap_page_range from page g on */
  function MapRange(m: Machine, g: nat, frames: seq<nat>): Machine {
    if frames == [] then m
    else
      var last := |frames| - 1;
      Map(MapRange(m, g, frames[..last]), g + last, frames[last])
  }

  // ---------------------------------------------------------------- which frame and which slot

  /** A fault on a page that is not resident, with RAM full: the oldest page moves, with its bytes, to the
      first slot of the list, and its frame is the page's. */
  lemma FaultReplaces(m: Machine, g: nat)
    requires g < MAX_PGN == |m.mm.table| && !m.mm.At(g).InRam? && m.ram.free == [] && m.mm.fifo != [] && m.swp.free != []
    requires var v := m.mm.fifo[|m.mm.fifo|-1]; v < MAX_PGN && m.mm.table[v].InRam? && m.mm.table[v].fpn < |m.ram.pages|
    requires m.swp.free[0] < |m.swp.pages| && (m.mm.At(g).InSwap? ==> m.mm.At(g).slot != m.swp.free[0] && m.mm.At(g).slot < |m.swp.pages|)
    ensures var (m', r) := GetPage(m, g);
            var v, slot := m.mm.fifo[|m.mm.fifo|-1], m.swp.free[0];
            var f, back := m.mm.table[v].fpn, m.mm.At(g).InSwap? && m.mm.At(g).slot != 0;
            && r == Some(f) && m'.mm.table == m.mm.table[v := InSwap(slot)][g := InRam(f)]
            && m'.mm.fifo == [g] + m.mm.fifo[..|m.mm.fifo|-1]
            && m'.swp.pages == m.swp.pages[slot := m.ram.pages[f]]
            && m'.swp.free == (if back then [m.mm.At(g).slot] else []) + m.swp.free[1..]
            && m'.ram.free == [] && m'.ram.pages == m.ram.pages[f := if back then m.swp.pages[m.mm.At(g).slot] else ZeroPage()]
  {
  }

  /** With a frame free the first one of the list is taken, and nothing is moved out. */
  lemma FaultFills(m: Machine, g: nat)
    requires g < MAX_PGN == |m.mm.table| && !m.mm.At(g).InRam? && m.ram.free != [] && m.ram.free[0] < |m.ram.pages|
    requires m.mm.At(g).InSwap? ==> m.mm.At(g).slot < |m.swp.pages|
    ensures var (m', r) := GetPage(m, g);
            var f, back := m.ram.free[0], m.mm.At(g).InSwap? && m.mm.At(g).slot != 0;
            && r == Some(f) && m'.mm.table == m.mm.table[g := InRam(f)] && m'.mm.fifo == [g] + m.mm.fifo
            && m'.swp.pages == m.swp.pages && m'.swp.free == (if back then [m.mm.At(g).slot] else []) + m.swp.free
            && m'.ram.free == m.ram.free[1..]
            && m'.ram.pages == m.ram.pages[f := if back then m.swp.pages[m.mm.At(g).slot] else ZeroPage()]
  {
  }

  // ---------------------------------------------------------------- the whole system

  /** All processes over the shared devices.  `hand` holds the RAM frames that alloc_pages_range took
      off the free list and has not mapped; `pool` the swap slots the system started with. */
  datatype Sys = Sys(ram: Device, swp: Device, mms: map<nat, Mm>, hand: set<nat>, pool: set<nat>) {
    function At(p: nat, g: nat): Entry { if p in mms then mms[p].At(g) else Absent }
  }

  function Focus(s: Sys, p: nat): Machine
    requires p in s.mms
  {
    Machine(s.ram, s.swp, s.mms[p])
  }

  function Put(s: Sys, p: nat, m: Machine, hand: set<nat>): Sys {
    Sys(m.ram, m.swp, s.mms[p := m.mm], hand, s.pool)
  }

  /** The flat memory of a process, page by page. */
  function Bytes(s: Sys, p: nat, g: nat): Page {
    match s.At(p, g)
    case InRam(f) => if f < |s.ram.pages| then s.ram.pages[f] else ZeroPage()
    case InSwap(t) => if t < |s.swp.pages| then s.swp.pages[t] else ZeroPage()
    case Absent => ZeroPage()
  }

  ghost predicate SameBytes(s: Sys, s': Sys) {
    forall p: nat, g: nat :: Bytes(s', p, g) == Bytes(s, p, g)
  }

  predicate NoDup(xs: seq<nat>) { forall i, j :: 0 <= i < j < |xs| ==> xs[i] != xs[j] }

  ghost predicate WellShaped(s: Sys) {
    && (forall f :: 0 <= f < |s.ram.pages| ==> |s.ram.pages[f]| == PAGE_SIZE)
    && (forall t :: 0 <= t < |s.swp.pages| ==> |s.swp.pages[t]| == PAGE_SIZE)
    && (forall p <- s.mms :: |s.mms[p].table| == MAX_PGN)
  }

  /** No two pages of any two processes share a frame or a slot. */
  ghost predicate Unshared(s: Sys) {
    forall p: nat, g: nat, p': nat, g': nat ::
      s.At(p, g) != Absent && s.At(p, g) == s.At(p', g') ==> p == p' && g == g'
  }

  ghost predicate FrameHeld(s: Sys, f: nat) { exists p: nat, g: nat :: s.At(p, g) == InRam(f) }

  ghost predicate SlotHeld(s: Sys, t: nat) { exists p: nat, g: nat :: s.At(p, g) == InSwap(t) }

  /** Every RAM frame is in exactly one place: the free list, a present entry, or in hand. */
  ghost predicate FramesConserved(s: Sys) {
    && NoDup(s.ram.free)
    && (forall f: nat :: f in s.ram.free || f in s.hand || FrameHeld(s, f) <==> f < |s.ram.pages|)
    && (forall f <- s.ram.free :: f !in s.hand && !FrameHeld(s, f))
    && (forall f <- s.hand :: !FrameHeld(s, f))
  }

  /** Every pooled slot is in exactly one place: the free list or a swapped entry. */
  ghost predicate SlotsConserved(s: Sys) {
    && NoDup(s.swp.free)
    && (forall t: nat :: t in s.swp.free || SlotHeld(s, t) <==> t in s.pool)
    && (forall t <- s.pool :: t < |s.swp.pages|)
    && (forall t <- s.swp.free :: !SlotHeld(s, t))
  }

  function Reversed(xs: seq<nat>): (r: seq<nat>)
    ensures |r| == |xs|
  {
    if xs == [] then [] else Reversed(xs[1..]) + [xs[0]]
  }

  lemma {:induction false} ReversedSnoc(xs: seq<nat>, x: nat)
    ensures Reversed(xs + [x]) == [x] + Reversed(xs)
  {
    if xs == [] {
      assert Reversed([x]) == [x];
    } else {
      ReversedSnoc(xs[1..], x);
      assert (xs + [x])[1..] == xs[1..] + [x];
    }
  }

  /** First in, first out: the pages taken off the queue so far, followed by those on it, oldest first,
      are the pages put on it so far. */
  predicate InOrder(mm: Mm) { mm.popped + Reversed(mm.fifo) == mm.enlisted }

  /** The replacement queue holds resident pages, each once, and has kept their order. */
  predicate QueueSound(mm: Mm) { NoDup(mm.fifo) && (forall g <- mm.fifo :: mm.At(g).InRam?) && InOrder(mm) }

  lemma UnlinkInOrder(mm: Mm)
    requires InOrder(mm) && mm.fifo != []
    ensures InOrder(Unlink(mm))
  {
    var last := |mm.fifo| - 1;
    assert mm.fifo == mm.fifo[..last] + [mm.fifo[last]];
    ReversedSnoc(mm.fifo[..last], mm.fifo[last]);
  }

  lemma MapInOrder(m: Machine, g: nat, f: nat)
    requires InOrder(m.mm)
    ensures InOrder(Map(m, g, f).mm)
  {
    var fifo := [g] + m.mm.fifo;
    assert fifo[1..] == m.mm.fifo;
  }

  ghost predicate Inv(s: Sys) {
    && WellShaped(s)
    && Unshared(s)
    && FramesConserved(s)
    && SlotsConserved(s)
    && (forall p <- s.mms :: QueueSound(s.mms[p]))
  }

  /** s' has the entries of s, except that page v of process p decodes to e. */
  ghost predicate EntryChanged(s: Sys, s': Sys, p: nat, v: nat, e: Entry) {
    forall q: nat, g: nat :: s'.At(q, g) == if q == p && g == v then e else s.At(q, g)
  }

  ghost predicate SameEntries(s: Sys, s': Sys) {
    forall q: nat, g: nat :: s'.At(q, g) == s.At(q, g)
  }

  lemma SameEntriesKeepHolders(s: Sys, s': Sys)
    requires SameEntries(s, s') && Unshared(s)
    ensures Unshared(s')
    ensures forall f: nat :: FrameHeld(s', f) == FrameHeld(s, f)
    ensures forall t: nat :: SlotHeld(s', t) == SlotHeld(s, t)
  {
  }

  /** Moving one page to storage nobody uses frees exactly the storage it had. */
  lemma EntryChangeMovesHolder(s: Sys, s': Sys, p: nat, v: nat, e: Entry)
    requires EntryChanged(s, s', p, v, e) && Unshared(s)
    requires e.InRam? ==> !FrameHeld(s, e.fpn)
    requires e.InSwap? ==> !SlotHeld(s, e.slot)
    ensures Unshared(s')
    ensures forall f: nat :: FrameHeld(s', f) <==> (FrameHeld(s, f) && s.At(p, v) != InRam(f)) || e == InRam(f)
    ensures forall t: nat :: SlotHeld(s', t) <==> (SlotHeld(s, t) && s.At(p, v) != InSwap(t)) || e == InSwap(t)
  {
    assert s'.At(p, v) == e;
    forall f: nat | FrameHeld(s, f) && s.At(p, v) != InRam(f) ensures FrameHeld(s', f) {
      var q: nat, g: nat :| s.At(q, g) == InRam(f);
      assert s'.At(q, g) == InRam(f);
    }
    forall t: nat | SlotHeld(s, t) && s.At(p, v) != InSwap(t) ensures SlotHeld(s', t) {
      var q: nat, g: nat :| s.At(q, g) == InSwap(t);
      assert s'.At(q, g) == InSwap(t);
    }
  }

  lemma TakeFreeKeeps(s: Sys, p: nat)
    requires Inv(s) && p in s.mms && s.ram.free != []
    ensures var m := Focus(s, p);
            var s' := Put(s, p, m.(ram := m.ram.Pop()), s.hand + {s.ram.free[0]});
            && Inv(s') && SameBytes(s, s')
            && s.ram.free[0] !in s.hand && s.ram.free[0] < |s.ram.pages|
  {
    var m := Focus(s, p);
    var s' := Put(s, p, m.(ram := m.ram.Pop()), s.hand + {s.ram.free[0]});
    assert SameEntries(s, s');
    SameEntriesKeepHolders(s, s');
    assert forall f: nat :: f in s.ram.free <==> f == s.ram.free[0] || f in s'.ram.free;
  }

  /** The parts of Evict: unlinking the victim, and writing it out to slot t. */
  lemma UnlinkKeeps(s: Sys, p: nat)
    requires Inv(s) && p in s.mms && s.mms[p].fifo != []
    ensures var mm := s.mms[p];
            var s' := s.(mms := s.mms[p := Unlink(mm)]);
            Inv(s') && SameBytes(s, s')
  {
    var mm := s.mms[p];
    var s' := s.(mms := s.mms[p := Unlink(mm)]);
    UnlinkInOrder(mm);
    assert SameEntries(s, s');
    SameEntriesKeepHolders(s, s');
    forall g | g in s'.mms[p].fifo ensures s'.mms[p].At(g).InRam? {
      assert QueueSound(mm) && g in mm.fifo;
    }
  }

  function SwapOut(m: Machine, v: nat, f: nat): Machine
    requires m.swp.free != []
  {
    var t := m.swp.free[0];
    m.(swp := CopyPage(m.ram, f, m.swp.Pop(), t), mm := m.mm.Set(v, InSwap(t)))
  }

  lemma QueueAfterSwapOut(mm: Mm, v: nat, t: nat)
    requires QueueSound(mm) && v !in mm.fifo
    ensures QueueSound(mm.Set(v, InSwap(t)))
  {
  }

  lemma SwapOutHolders(s: Sys, p: nat, v: nat, f: nat)
    requires Inv(s) && p in s.mms && s.swp.free != [] && s.At(p, v) == InRam(f)
    ensures var t := s.swp.free[0];
            var s' := Put(s, p, SwapOut(Focus(s, p), v, f), s.hand + {f});
            && EntryChanged(s, s', p, v, InSwap(t)) && Unshared(s')
            && FrameHeld(s, f) && f !in s.hand && f < |s.ram.pages|
            && t in s.pool && t < |s.swp.pages| && !SlotHeld(s, t)
            && (forall k: nat :: FrameHeld(s', k) <==> FrameHeld(s, k) && k != f)
            && (forall k: nat :: SlotHeld(s', k) <==> SlotHeld(s, k) || k == t)
  {
    var t := s.swp.free[0];
    var s' := Put(s, p, SwapOut(Focus(s, p), v, f), s.hand + {f});
    hide QueueSound;
    assert FrameHeld(s, f) && t in s.pool && !SlotHeld(s, t);
    assert EntryChanged(s, s', p, v, InSwap(t));
    EntryChangeMovesHolder(s, s', p, v, InSwap(t));
  }

  lemma SwapOutConserves(s: Sys, p: nat, v: nat, f: nat)
    requires Inv(s) && p in s.mms && s.swp.free != [] && s.At(p, v) == InRam(f)
    ensures var s' := Put(s, p, SwapOut(Focus(s, p), v, f), s.hand + {f});
            FramesConserved(s') && SlotsConserved(s')
  {
    var t := s.swp.free[0];
    var s' := Put(s, p, SwapOut(Focus(s, p), v, f), s.hand + {f});
    SwapOutHolders(s, p, v, f);
    hide QueueSound, FrameHeld, SlotHeld, Unshared, WellShaped;
    assert forall k: nat :: k in s.swp.free <==> k == t || k in s'.swp.free;
    assert forall k <- s'.swp.free :: k != t;
  }

  lemma SwapOutKeeps(s: Sys, p: nat, v: nat, f: nat)
    requires Inv(s) && p in s.mms && s.swp.free != [] && s.At(p, v) == InRam(f) && v !in s.mms[p].fifo
    ensures var s' := Put(s, p, SwapOut(Focus(s, p), v, f), s.hand + {f});
            && Inv(s') && SameBytes(s, s')
            && f !in s.hand && f < |s.ram.pages|
  {
    var t := s.swp.free[0];
    var s' := Put(s, p, SwapOut(Focus(s, p), v, f), s.hand + {f});
    SwapOutHolders(s, p, v, f);
    SwapOutConserves(s, p, v, f);
    QueueAfterSwapOut(s.mms[p], v, t);
    hide QueueSound, FrameHeld, Unshared, FramesConserved, SlotsConserved;
    assert forall q: nat, g: nat :: s.At(q, g) == InSwap(t) ==> SlotHeld(s, t);
  }

  lemma EvictKeeps(s: Sys, p: nat)
    requires Inv(s) && p in s.mms
    ensures var (m', r) := Evict(Focus(s, p));
            var s' := Put(s, p, m', if r.Some? then s.hand + {r.value} else s.hand);
            && Inv(s') && SameBytes(s, s')
            && |m'.ram.pages| == |s.ram.pages|
            && (r.Some? ==> r.value !in s.hand && r.value < |s.ram.pages|)
  {
    hide Bytes;
    var m := Focus(s, p);
    var (m', r) := Evict(m);
    if m.mm.fifo == [] {
      assert Put(s, p, m', s.hand) == s;
    } else {
      var last := |m.mm.fifo| - 1;
      var v, mm1 := m.mm.fifo[last], Unlink(m.mm);
      var s1 := s.(mms := s.mms[p := mm1]);
      UnlinkKeeps(s, p);
      assert m.mm.At(v).InRam?;
      if m.swp.free == [] {
        assert Put(s, p, m', s.hand) == s1;
      } else {
        assert v !in mm1.fifo;
        SwapOutKeeps(s1, p, v, m.mm.At(v).fpn);
        assert Put(s, p, m', s.hand + {r.value}) == Put(s1, p, SwapOut(Focus(s1, p), v, r.value), s.hand + {r.value});
      }
    }
  }

  lemma GrabKeeps(s: Sys, p: nat)
    requires Inv(s) && p in s.mms
    ensures var (m', r) := GrabFrame(Focus(s, p));
            var s' := Put(s, p, m', if r.Some? then s.hand + {r.value} else s.hand);
            && Inv(s') && SameBytes(s, s')
            && |m'.ram.pages| == |s.ram.pages|
            && (r.Some? ==> r.value !in s.hand && r.value < |s.ram.pages|)
  {
    if s.ram.free != [] {
      TakeFreeKeeps(s, p);
    } else {
      EvictKeeps(s, p);
    }
  }

  /** Eviction moves resident pages of the caller to swap and leaves every other entry alone. */
  lemma GrabMovesOnlyResidentPages(m: Machine, g: nat)
    ensures var m' := GrabFrame(m).0;
            && (!m.mm.At(g).InRam? ==> m'.mm.At(g) == m.mm.At(g))
            && (m'.mm.At(g) != m.mm.At(g) ==> m'.mm.At(g).InSwap?)
            && |m'.mm.table| == |m.mm.table| && m'.mm.area == m.mm.area
  {
  }

  /** A frame in hand becomes page g of p; the bytes of all other pages stay. */
  lemma MapKeeps(s: Sys, p: nat, g: nat, f: nat)
    requires Inv(s) && p in s.mms && f in s.hand && g < MAX_PGN && s.At(p, g) == Absent
    ensures var s' := Put(s, p, Map(Focus(s, p), g, f), s.hand - {f});
            && Inv(s') && s'.At(p, g) == InRam(f)
            && forall q: nat, k: nat :: (q != p || k != g) ==> Bytes(s', q, k) == Bytes(s, q, k)
  {
    var s' := Put(s, p, Map(Focus(s, p), g, f), s.hand - {f});
    assert EntryChanged(s, s', p, g, InRam(f));
    EntryChangeMovesHolder(s, s', p, g, InRam(f));
    QueueAfterMap(Focus(s, p), g, f);
  }

  lemma QueueAfterMap(m: Machine, g: nat, f: nat)
    requires QueueSound(m.mm) && g < |m.mm.table| && !m.mm.At(g).InRam?
    ensures QueueSound(Map(m, g, f).mm)
  {
    assert g !in m.mm.fifo;
    MapInOrder(m, g, f);
  }

  lemma FillHolders(s: Sys, p: nat, g: nat, f: nat)
    requires Inv(s) && p in s.mms && f in s.hand && g < MAX_PGN && !s.At(p, g).InRam?
    ensures var s' := Put(s, p, Fill(Focus(s, p), g, f), s.hand - {f});
            && EntryChanged(s, s', p, g, InRam(f)) && Unshared(s')
            && f < |s.ram.pages| && !FrameHeld(s, f) && f !in s.ram.free
            && (forall k: nat :: FrameHeld(s', k) <==> FrameHeld(s, k) || k == f)
            && (forall k: nat :: SlotHeld(s', k) <==> SlotHeld(s, k) && s.At(p, g) != InSwap(k))
            && (forall k: nat :: s.At(p, g) == InSwap(k) ==> SlotHeld(s, k) && k < |s.swp.pages| && k !in s.swp.free)
  {
    var s' := Put(s, p, Fill(Focus(s, p), g, f), s.hand - {f});
    hide QueueSound;
    assert EntryChanged(s, s', p, g, InRam(f));
    EntryChangeMovesHolder(s, s', p, g, InRam(f));
    assert forall k: nat :: s.At(p, g) == InSwap(k) ==> SlotHeld(s, k);
  }

  lemma FillKeeps(s: Sys, p: nat, g: nat, f: nat)
    requires Inv(s) && p in s.mms && f in s.hand && g < MAX_PGN
    requires !s.At(p, g).InRam? && s.At(p, g) != InSwap(0)
    ensures var s' := Put(s, p, Fill(Focus(s, p), g, f), s.hand - {f});
            && Inv(s') && SameBytes(s, s') && s'.At(p, g) == InRam(f)
  {
    var s' := Put(s, p, Fill(Focus(s, p), g, f), s.hand - {f});
    FillHolders(s, p, g, f);
    FillQueue(Focus(s, p), g, f);
    hide QueueSound, FrameHeld, SlotHeld, Unshared;
    match s.At(p, g) {
      case InSwap(t) =>
        assert s'.swp.free == [t] + s.swp.free;
        assert forall k: nat :: k in s'.swp.free <==> k == t || k in s.swp.free;
      case Absent =>
    }
  }

  lemma FillQueue(m: Machine, g: nat, f: nat)
    requires QueueSound(m.mm) && g < |m.mm.table| && !m.mm.At(g).InRam?
    ensures QueueSound(Fill(m, g, f).mm)
  {
    QueueAfterMap(m, g, f);
  }

  /** Page faults, with the evictions and reloads they cause, leave the flat memory of every process
      as it was, also when they fail.  On success the page is resident. */
  lemma GetPageKeeps(s: Sys, p: nat, g: int)
    requires Inv(s) && p in s.mms && (g >= 0 ==> s.At(p, g) != InSwap(0))
    ensures var (m', r) := GetPage(Focus(s, p), g);
            var s' := Put(s, p, m', s.hand);
            && Inv(s') && SameBytes(s, s')
            && (r.Some? ==> 0 <= g < MAX_PGN && s'.At(p, g) == InRam(r.value))
  {
    hide Inv, GrabFrame, Fill, Bytes;
    var m := Focus(s, p);
    if 0 <= g < MAX_PGN && !m.mm.At(g).InRam? {
      var (m1, f) := GrabFrame(m);
      GrabKeeps(s, p);
      GrabMovesOnlyResidentPages(m, g);
      if f.Some? {
        var s1 := Put(s, p, m1, s.hand + {f.value});
        FillKeeps(s1, p, g, f.value);
        assert s1.hand - {f.value} == s.hand;
        assert Put(s1, p, Fill(m1, g, f.value), s.hand) == Put(s, p, Fill(m1, g, f.value), s.hand);
      }
    } else {
      assert Put(s, p, m, s.hand) == s;
    }
  }

  /** When a fault is not served: exactly when the page is out of range, or it is not resident, RAM is
      full and the caller has no page to give up or swap has no slot to take it. */
  predicate CannotServe(m: Machine, g: int) {
    || !(0 <= g < MAX_PGN)
    || (!m.mm.At(g).InRam? && m.ram.free == [] && (m.mm.fifo == [] || m.swp.free == []))
  }

  lemma GetPageFailsIff(s: Sys, p: nat, g: int)
    requires Inv(s) && p in s.mms
    ensures GetPage(Focus(s, p), g).1.None? <==> CannotServe(Focus(s, p), g)
  {
    var m := Focus(s, p);
    if m.ram.free == [] && m.mm.fifo != [] {
      assert QueueSound(m.mm) && m.mm.fifo[|m.mm.fifo|-1] in m.mm.fifo;
    }
  }

  /** Slot 0 is the reason it has to be kept out of the pool: a page that was written there is taken
      for a fresh one, so its contents are replaced by zeros and the slot is never given back.
      Faults keep the system sound exactly when no such page is brought in. */
  lemma GetPageSoundIff(s: Sys, p: nat, g: int)
    requires Inv(s) && p in s.mms && !CannotServe(Focus(s, p), g)
    ensures var (m', r) := GetPage(Focus(s, p), g);
            var s' := Put(s, p, m', s.hand);
            && (Inv(s') && SameBytes(s, s') <==> s.At(p, g) != InSwap(0))
            && (s.At(p, g) == InSwap(0) ==> Bytes(s', p, g) == ZeroPage() && 0 !in s'.swp.free && !SlotHeld(s', 0))
  {
    var (m', r) := GetPage(Focus(s, p), g);
    var s' := Put(s, p, m', s.hand);
    GetPageFailsIff(s, p, g);
    if s.At(p, g) == InSwap(0) {
      LoadFromSlotZero(s, p, g);
      assert SlotHeld(s, 0);
      assert 0 in s'.pool;
    } else {
      GetPageKeeps(s, p, g);
    }
  }

  lemma LoadFromSlotZero(s: Sys, p: nat, g: nat)
    requires Inv(s) && p in s.mms && s.At(p, g) == InSwap(0) && !CannotServe(Focus(s, p), g)
    ensures var s' := Put(s, p, GetPage(Focus(s, p), g).0, s.hand);
            Bytes(s', p, g) == ZeroPage() && 0 !in s'.swp.free && !SlotHeld(s', 0)
  {
    hide Inv, GrabFrame, CannotServe;
    var m := Focus(s, p);
    var (m1, f) := GrabFrame(m);
    GetPageFailsIff(s, p, g);
    GrabKeeps(s, p);
    GrabMovesOnlyResidentPages(m, g);
    var s1 := Put(s, p, m1, s.hand + {f.value});
    var s2 := Put(s, p, Fill(m1, g, f.value), s.hand);
    SlotZeroFacts(s1, p, g, f.value);
    assert EntryChanged(s1, s2, p, g, InRam(f.value));
    EntryChangeMovesHolder(s1, s2, p, g, InRam(f.value));
  }

  lemma SlotZeroFacts(s: Sys, p: nat, g: nat, f: nat)
    requires Inv(s) && p in s.mms && f in s.hand && s.At(p, g) == InSwap(0)
    ensures Unshared(s) && !FrameHeld(s, f) && SlotHeld(s, 0) && 0 !in s.swp.free
    ensures f < |s.ram.pages| && |s.mms[p].table| == MAX_PGN
  {
    hide QueueSound;
    assert SlotHeld(s, 0);
  }
}
