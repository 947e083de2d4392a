/** An optional value, for the source's -1 and NULL returns. */
module Wrappers {
  datatype Option<+T> = None | Some(value: T)
}

/** One virtual area: the symbol table of live regions, the list of free regions and the break.
    Regions are half-open byte intervals. */
module Regions {
  import opened Wrappers

  const PAGE_SIZE: nat := 256
  const MAX_SYMBOLS: nat := 30

  /** addr_t has 32 bits, or 64 under MM64. */
  datatype Build = Addr32 | Addr64

  function Width(b: Build): nat {
    match b
    case Addr32 => 0x1_0000_0000
    case Addr64 => 0x1_0000_0000_0000_0000
  }

  /** The sum of two addr_t values */
  function Sum(b: Build, x: nat, y: nat): (z: nat)
    ensures z < Width(b)
    ensures x + y < Width(b) ==> z == x + y
  {
    (x + y) % Width(b)
  }

  /** An addr_t after a detour through an int, which keeps 32 bits and extends their sign. */
  function ThroughInt(b: Build, x: nat): nat {
    var low := x % 0x1_0000_0000;
    if b == Addr64 && low >= 0x8000_0000 then low + 0xFFFF_FFFF_0000_0000 else low
  }

  datatype Region = Region(start: nat, end: nat) {
    predicate Covers(x: nat) { start <= x < end }

    function Size(): nat { if start < end then end - start else 0 }
  }

  datatype Area = Area(symbols: seq<Region>, freeList: seq<Region>, sbrk: nat, vmEnd: nat)

  /** PAGING_PAGE_ALIGNSZ on numbers of any size */
  function AlignUp(size: nat): (aligned: nat)
    ensures size <= aligned < size + PAGE_SIZE && aligned % PAGE_SIZE == 0
  {
    (size + PAGE_SIZE - 1) / PAGE_SIZE * PAGE_SIZE
  }

  /** PAGING_PAGE_ALIGNSZ on addr_t values: the last sizes before the width align to 0. */
  function Align(b: Build, size: nat): (aligned: nat)
    requires size < Width(b)
    ensures aligned == if size + PAGE_SIZE <= Width(b) then AlignUp(size) else 0
    ensures aligned <= Width(b) - PAGE_SIZE && aligned % PAGE_SIZE == 0
  {
    Sum(b, size, PAGE_SIZE - 1) / PAGE_SIZE * PAGE_SIZE
  }

  // ---------------------------------------------------------------- first fit

  /** Where a region of `size` bytes from `start` on ends for get_free_vmrg_area, whose size is an int. */
  function FitEnd(b: Build, start: nat, size: nat): nat { Sum(b, start, ThroughInt(b, size)) }

  predicate Fits(b: Build, r: Region, size: nat) { FitEnd(b, r.start, size) <= r.end }

  /** Whether that is the true end. */
  predicate Exact(b: Build, start: nat, size: nat) { ThroughInt(b, size) == size && start + size < Width(b) }

  /** A node that passes the test has the region, of the size asked for, in it exactly if the sum it was
      tested with is exact. */
  lemma FitContainsIff(b: Build, r: Region, size: nat)
    requires Fits(b, r, size) && r.start < Width(b) && size < Width(b)
    ensures var g := Region(r.start, FitEnd(b, r.start, size));
            g.Size() == size && (forall x: nat :: g.Covers(x) ==> r.Covers(x)) <==> Exact(b, r.start, size)
  {
    var g := Region(r.start, FitEnd(b, r.start, size));
    if !Exact(b, r.start, size) && r.start + ThroughInt(b, size) >= Width(b) {
      assert g.Size() == 0;
    }
  }

  /** Position of the first node that fits, or the length of the list. */
  function FitIndex(b: Build, list: seq<Region>, size: nat): (i: nat)
    ensures i <= |list|
    ensures forall k :: 0 <= k < i ==> !Fits(b, list[k], size)
    ensures i < |list| ==> Fits(b, list[i], size)
  {
    if list == [] || Fits(b, list[0], size) then 0 else FitIndex(b, list[1..], size) + 1
  }

  /** The free list once `size` bytes are cut from node i: the node shrinks from its lower end, or is
      unlinked when nothing of it is left. */
  function CutNode(b: Build, list: seq<Region>, i: nat, size: nat): seq<Region>
    requires i < |list|
  {
    var end := FitEnd(b, list[i].start, size);
    if end < list[i].end then list[i := Region(end, list[i].end)] else list[..i] + list[i+1..]
  }

  function FreeBytes(list: seq<Region>): nat {
    if list == [] then 0 else list[0].Size() + FreeBytes(list[1..])
  }

  /** First fit leaves every other node alone and in order, and gives away exactly `size` bytes if and only
      if the sum is exact. */
  lemma {:induction false} CutNodeIsExact(b: Build, list: seq<Region>, i: nat, size: nat)
    requires i < |list| && Fits(b, list[i], size) && list[i].start < Width(b) && size < Width(b)
    ensures FreeBytes(CutNode(b, list, i, size)) + size == FreeBytes(list) <==> Exact(b, list[i].start, size)
    ensures forall k :: 0 <= k < i ==> CutNode(b, list, i, size)[k] == list[k]
    ensures var tail := CutNode(b, list, i, size)[i..];
            tail == list[i+1..] || tail == [Region(FitEnd(b, list[i].start, size), list[i].end)] + list[i+1..]
  {
    hide ThroughInt, Exact, Sum;
    var cut := CutNode(b, list, i, size);
    if i == 0 {
      assert cut == list[1..] || cut[1..] == list[1..];
      CutBytes(b, list[0], size);
    } else {
      CutNodeIsExact(b, list[1..], i - 1, size);
      assert cut[0] == list[0] && cut[1..] == CutNode(b, list[1..], i - 1, size);
      assert list[1..][i..] == list[i+1..];
    }
  }

  lemma CutBytes(b: Build, r: Region, size: nat)
    requires Fits(b, r, size) && r.start < Width(b) && size < Width(b)
    ensures var left := Region(FitEnd(b, r.start, size), r.end);
            left.Size() + size == r.Size() <==> Exact(b, r.start, size)
  {
  }

  // ---------------------------------------------------------------- allocation

  /** Whether inc_vma_limit gets past its overlap test, which an empty or wrapped range fails. */
  predicate Moves(b: Build, a: Area, incSize: nat)
    requires incSize < Width(b)
  {
    Align(b, incSize) != 0 && a.vmEnd + Align(b, incSize) < Width(b)
  }

  /** What inc_vma_limit does to the limits. */
  function Extend(b: Build, a: Area, incSize: nat): Area
    requires incSize < Width(b)
  {
    if Moves(b, a, incSize) then a.(sbrk := Sum(b, a.sbrk, incSize), vmEnd := a.vmEnd + Align(b, incSize)) else a
  }

  /** The amount __alloc passes to the limit call: `size` under MM64, page-aligned otherwise. */
  function Increment(b: Build, size: nat): (inc: nat)
    requires size < Width(b)
    ensures inc < Width(b) && Align(b, inc) == Align(b, size)
  {
    match b
    case Addr32 => Align(b, size)
    case Addr64 => size
  }

  /** __alloc: first fit, else a fresh region at the break, which passes through an int.  The result of
      the limit system call is never looked at. */
  function Allocate(b: Build, a: Area, rgid: nat, size: nat): Area
    requires rgid < |a.symbols| && size < Width(b)
  {
    var i := FitIndex(b, a.freeList, size);
    if i < |a.freeList| then
      var start := a.freeList[i].start;
      a.(symbols := a.symbols[rgid := Region(start, FitEnd(b, start, size))],
         freeList := CutNode(b, a.freeList, i, size))
    else
      var start := ThroughInt(b, a.sbrk);
      Extend(b, a, Increment(b, size)).(symbols := a.symbols[rgid := Region(start, Sum(b, start, size))])
  }

  /** __free; None is its -1. */
  function Release(a: Area, rgid: nat): Option<Area>
    requires rgid < |a.symbols|
  {
    var r := a.symbols[rgid];
    if r == Region(0, 0) then None
    else Some(a.(symbols := a.symbols[rgid := Region(0, 0)],
                 freeList := if r.start >= r.end then a.freeList else [r] + a.freeList))
  }

  // ---------------------------------------------------------------- other areas

  datatype Vma = Vma(id: nat, start: nat, end: nat)

  /** OVERLAP of mm.h */
  predicate Overlap(x1: nat, x2: nat, y1: nat, y2: nat) { y1 < x2 && x1 < y2 }

  /** For areas that hold any byte, the macro tests for a common one. */
  lemma OverlapIsSharing(x1: nat, x2: nat, y1: nat, y2: nat)
    requires x1 < x2 && y1 < y2
    ensures Overlap(x1, x2, y1, y2) <==> exists b: nat :: Region(x1, x2).Covers(b) && Region(y1, y2).Covers(b)
  {
    if Overlap(x1, x2, y1, y2) {
      var b := if x1 <= y1 then y1 else x1;
      assert Region(x1, x2).Covers(b) && Region(y1, y2).Covers(b);
    }
  }

  /** validate_overlap_vm_area */
  method ValidateOverlap(vmas: seq<Vma>, vmaid: nat, start: nat, end: nat) returns (ok: bool)
    ensures ok <==> start < end && forall v <- vmas :: v.id != vmaid ==> !Overlap(start, end, v.start, v.end)
  {
    if start >= end {
      return false;
    }
    for i := 0 to |vmas|
      invariant forall k :: 0 <= k < i && vmas[k].id != vmaid ==> !Overlap(start, end, vmas[k].start, vmas[k].end)
    {
      if vmas[i].id != vmaid && Overlap(start, end, vmas[i].start, vmas[i].end) {
        return false;
      }
    }
    return true;
  }

  // ---------------------------------------------------------------- tiling

  /** Number of regions of the list that contain byte x. */
  function Cover(list: seq<Region>, x: nat): nat {
    if list == [] then 0 else (if list[0].Covers(x) then 1 else 0) + Cover(list[1..], x)
  }

  lemma {:induction false} CoverOfUpdate(list: seq<Region>, k: nat, r: Region, x: nat)
    requires k < |list|
    ensures Cover(list[k := r], x) + (if list[k].Covers(x) then 1 else 0)
         == Cover(list, x) + (if r.Covers(x) then 1 else 0)
  {
    if k == 0 {
      assert list[k := r][1..] == list[1..];
    } else {
      CoverOfUpdate(list[1..], k - 1, r, x);
      assert list[k := r][1..] == list[1..][k - 1 := r];
    }
  }

  lemma {:induction false} CoverOfRemoval(list: seq<Region>, k: nat, x: nat)
    requires k < |list|
    ensures Cover(list[..k] + list[k+1..], x) + (if list[k].Covers(x) then 1 else 0) == Cover(list, x)
  {
    if k == 0 {
      assert list[..k] + list[k+1..] == list[1..];
    } else {
      CoverOfRemoval(list[1..], k - 1, x);
      assert (list[..k] + list[k+1..])[1..] == list[1..][..k-1] + list[1..][k..];
      assert list[1..][k..] == list[k+1..];
    }
  }

  lemma CoverOfCut(b: Build, list: seq<Region>, i: nat, size: nat, x: nat)
    requires i < |list| && Fits(b, list[i], size) && Exact(b, list[i].start, size)
    ensures Cover(CutNode(b, list, i, size), x)
          + (if Region(list[i].start, list[i].start + size).Covers(x) then 1 else 0) == Cover(list, x)
  {
    if list[i].start + size < list[i].end {
      CoverOfUpdate(list, i, Region(list[i].start + size, list[i].end), x);
    } else {
      CoverOfRemoval(list, i, x);
    }
  }

  datatype Request = Take(rgid: nat, size: nat) | Give(rgid: nat)

  /** Symbols of the table, and sizes an addr_t can hold */
  predicate Typed(b: Build, r: Request) { r.rgid < MAX_SYMBOLS && (r.Take? ==> r.size < Width(b)) }

  /** The area plus what has dropped out of its two tables: the page-rounding tails of break
      extensions, and live regions whose symbol was overwritten by a later allocation. */
  datatype History = History(area: Area, tails: seq<Region>, leaked: seq<Region>)

  const EMPTY: Region := Region(0, 0)

  /** The area init_mm builds. */
  function Initial(): History {
    History(Area(seq(MAX_SYMBOLS, _ => EMPTY), [EMPTY], 0, 0), [], [])
  }

  function Serve(h: History, b: Build, r: Request): History
    requires Typed(b, r) && |h.area.symbols| == MAX_SYMBOLS
  {
    match r
    case Take(rgid, size) =>
      var a' := Allocate(b, h.area, rgid, size);
      var tail := if a'.sbrk == h.area.sbrk then [] else [Region(h.area.sbrk + size, a'.sbrk)];
      History(a', tail + h.tails, [h.area.symbols[rgid]] + h.leaked)
    case Give(rgid) =>
      match Release(h.area, rgid)
      case None => h
      case Some(a') => h.(area := a')
  }

  /** A region that was released is the first one tried: the next allocation it is large enough for starts
      where it started. */
  lemma GiveThenTake(h: History, b: Build, i: nat, j: nat, size: nat)
    requires |h.area.symbols| == MAX_SYMBOLS && Typed(b, Give(i)) && Typed(b, Take(j, size))
    requires var r := h.area.symbols[i];
             r.start < r.end && size <= r.Size() && Exact(b, r.start, size)
    ensures var r, h' := h.area.symbols[i], Serve(Serve(h, b, Give(i)), b, Take(j, size));
            && h'.area.symbols[j] == Region(r.start, r.start + size)
            && h'.area.freeList == (if size < r.Size() then [Region(r.start + size, r.end)] else []) + h.area.freeList
            && h'.area.sbrk == h.area.sbrk && h'.area.vmEnd == h.area.vmEnd
            && forall k :: 0 <= k < MAX_SYMBOLS && k != i && k != j ==> h'.area.symbols[k] == h.area.symbols[k]
  {
    var r := h.area.symbols[i];
    var list := Serve(h, b, Give(i)).area.freeList;
    assert list == [r] + h.area.freeList && Fits(b, list[0], size) && FitIndex(b, list, size) == 0;
  }

  predicate Narrow(b: Build, list: seq<Region>) { forall r <- list :: r.start < Width(b) && r.end < Width(b) }

  /** What every request keeps of the limits, exact or not. */
  predicate LimitsOk(b: Build, a: Area) {
    && |a.symbols| == MAX_SYMBOLS && a.sbrk <= a.vmEnd < Width(b)
    && Narrow(b, a.symbols) && Narrow(b, a.freeList)
  }

  lemma CutStaysNarrow(b: Build, list: seq<Region>, i: nat, size: nat)
    requires Narrow(b, list) && i < |list|
    ensures Narrow(b, CutNode(b, list, i, size))
  {
    hide ThroughInt;
    assert list[i] in list;
  }

  lemma ServeKeepsLimits(h: History, b: Build, r: Request)
    requires Typed(b, r) && LimitsOk(b, h.area)
    ensures LimitsOk(b, Serve(h, b, r).area)
  {
    hide FitIndex, AlignUp, CutNode;
    match r {
      case Take(rgid, size) =>
        var i := FitIndex(b, h.area.freeList, size);
        if i < |h.area.freeList| {
          assert h.area.freeList[i] in h.area.freeList;
          CutStaysNarrow(b, h.area.freeList, i, size);
        }
      case Give(rgid) =>
        assert h.area.symbols[rgid] in h.area.symbols;
    }
  }

  /** The limits move only for an allocation that no free node fits, the end by its size in whole pages and
      the break by the size itself under MM64, and by as much as the end otherwise. */
  lemma ExtensionIs(h: History, b: Build, r: Request)
    requires Typed(b, r) && LimitsOk(b, h.area)
    ensures var a, a' := h.area, Serve(h, b, r).area;
            a'.sbrk != a.sbrk || a'.vmEnd != a.vmEnd ==>
              && r.Take? && FitIndex(b, a.freeList, r.size) == |a.freeList|
              && a'.vmEnd == a.vmEnd + AlignUp(r.size)
              && a'.sbrk == a.sbrk + if b == Addr64 then r.size else AlignUp(r.size)
  {
    hide FitIndex, AlignUp, CutNode;
  }

  function ServeAll(b: Build, rs: seq<Request>): (h: History)
    requires forall r <- rs :: Typed(b, r)
    ensures LimitsOk(b, h.area)
  {
    if rs == [] then Initial()
    else
      assert rs[|rs|-1] in rs;
      ServeKeepsLimits(ServeAll(b, rs[..|rs|-1]), b, rs[|rs|-1]);
      Serve(ServeAll(b, rs[..|rs|-1]), b, rs[|rs|-1])
  }

  /** No sum of the request wraps around and no int cuts anything off: a condition on the area before. */
  predicate NoOverflow(b: Build, a: Area, r: Request)
    requires Typed(b, r)
  {
    match r
    case Give(_) => true
    case Take(_, size) =>
      var i := FitIndex(b, a.freeList, size);
      if i < |a.freeList| then Exact(b, a.freeList[i].start, size)
      else size == 0 || (ThroughInt(b, a.sbrk) == a.sbrk && a.vmEnd + AlignUp(size) < Width(b))
  }

  function CoverAll(h: History, x: nat): nat {
    Cover(h.area.symbols, x) + Cover(h.area.freeList, x) + Cover(h.tails, x) + Cover(h.leaked, x)
  }

  /** Byte x lies in exactly one region if it is below the break, and in none otherwise. */
  predicate TiledAt(h: History, x: nat) { CoverAll(h, x) == if x < h.area.sbrk then 1 else 0 }

  ghost predicate Tiled(h: History) { forall x: nat :: TiledAt(h, x) }

  lemma ServeTiles(h: History, b: Build, r: Request, x: nat)
    requires Typed(b, r) && LimitsOk(b, h.area) && TiledAt(h, x) && NoOverflow(b, h.area, r)
    ensures TiledAt(Serve(h, b, r), x)
    ensures r.Take? ==> Serve(h, b, r).area.symbols[r.rgid].Size() == r.size
  {
    hide Cover, AlignUp, ThroughInt;
    var a, h' := h.area, Serve(h, b, r);
    match r {
      case Take(rgid, size) =>
        var i := FitIndex(b, a.freeList, size);
        CoverOfCons(a.symbols[rgid], h.leaked, x);
        if i < |a.freeList| {
          CoverOfUpdate(a.symbols, rgid, Region(a.freeList[i].start, a.freeList[i].start + size), x);
          CoverOfCut(b, a.freeList, i, size, x);
          assert h'.tails == h.tails;
        } else {
          ExtensionCovers(h, b, rgid, size, x);
          CoverOfUpdate(a.symbols, rgid, h'.area.symbols[rgid], x);
        }
      case Give(rgid) =>
        CoverOfUpdate(a.symbols, rgid, EMPTY, x);
        CoverOfCons(a.symbols[rgid], a.freeList, x);
    }
  }

  lemma CoverOfCons(r: Region, list: seq<Region>, x: nat)
    ensures Cover([r] + list, x) == Cover(list, x) + if r.Covers(x) then 1 else 0
  {
    assert ([r] + list)[1..] == list;
  }

  /** The new region and its rounding tail cover exactly the bytes the break moved over. */
  lemma ExtensionCovers(h: History, b: Build, rgid: nat, size: nat, x: nat)
    requires Typed(b, Take(rgid, size)) && LimitsOk(b, h.area) && NoOverflow(b, h.area, Take(rgid, size))
    requires FitIndex(b, h.area.freeList, size) == |h.area.freeList|
    ensures var h', brk := Serve(h, b, Take(rgid, size)), h.area.sbrk;
            && h'.area.symbols[rgid].Size() == size
            && Cover(h'.tails, x) + (if h'.area.symbols[rgid].Covers(x) then 1 else 0)
               == Cover(h.tails, x) + (if brk <= x < h'.area.sbrk then 1 else 0)
  {
    hide Cover, FitIndex, AlignUp, ThroughInt, Sum, Extend, Increment;
    ExactBreak(b, h.area, size);
    var h', brk := Serve(h, b, Take(rgid, size)), h.area.sbrk;
    CoverOfCons(Region(brk + size, h'.area.sbrk), h.tails, x);
    assert [] + h.tails == h.tails;
  }

  /** Without overflow the fresh region ends `size` bytes after it starts, which is at the break, and the new
      break lies at or after its end; an empty one moves nothing. */
  lemma ExactBreak(b: Build, a: Area, size: nat)
    requires size < Width(b) && a.sbrk <= a.vmEnd < Width(b)
    requires size == 0 || (ThroughInt(b, a.sbrk) == a.sbrk && a.vmEnd + AlignUp(size) < Width(b))
    ensures var start, a' := ThroughInt(b, a.sbrk), Extend(b, a, Increment(b, size));
            && a'.symbols == a.symbols && a'.freeList == a.freeList
            && (if size == 0 then a'.sbrk == a.sbrk && Sum(b, start, 0) == start
                else start == a.sbrk && Sum(b, start, size) == start + size <= a'.sbrk)
  {
    ThroughIntIsNarrow(b, a.sbrk);
    hide AlignUp, ThroughInt;
  }

  lemma ThroughIntIsNarrow(b: Build, x: nat)
    ensures ThroughInt(b, x) < Width(b)
  {
  }

  /** A request does what it is for, that is, it gives the symbol `size` bytes and keeps the tiling,
      exactly if its sums do not overflow. */
  lemma ServeIsExactIff(h: History, b: Build, r: Request)
    requires Typed(b, r) && LimitsOk(b, h.area) && Tiled(h)
    ensures var h' := Serve(h, b, r);
            Tiled(h') && (r.Take? ==> h'.area.symbols[r.rgid].Size() == r.size) <==> NoOverflow(b, h.area, r)
  {
    var h' := Serve(h, b, r);
    if NoOverflow(b, h.area, r) {
      forall x: nat ensures TiledAt(h', x) {
        ServeTiles(h, b, r, x);
      }
      ServeTiles(h, b, r, 0);
    } else {
      var i := FitIndex(b, h.area.freeList, r.size);
      if i < |h.area.freeList| {
        assert h.area.freeList[i] in h.area.freeList;
        FitContainsIff(b, h.area.freeList[i], r.size);
      } else {
        OutOfRangeBreaks(h, b, r.rgid, r.size);
      }
    }
  }

  /** An extension out of range gives a region of another size or covers some byte wrongly. */
  lemma OutOfRangeBreaks(h: History, b: Build, rgid: nat, size: nat)
    requires Typed(b, Take(rgid, size)) && LimitsOk(b, h.area) && Tiled(h)
    requires FitIndex(b, h.area.freeList, size) == |h.area.freeList| && !NoOverflow(b, h.area, Take(rgid, size))
    ensures var h' := Serve(h, b, Take(rgid, size));
            h'.area.symbols[rgid].Size() == size ==> !Tiled(h')
  {
    hide Cover, FitIndex, AlignUp;
    var h' := Serve(h, b, Take(rgid, size));
    var g := h'.area.symbols[rgid];
    if g.Size() == size {
      var x := if h'.area.sbrk != h.area.sbrk && g.start > h.area.sbrk then h.area.sbrk else g.start;
      assert TiledAt(h, x);
      CoverOfUpdate(h.area.symbols, rgid, g, x);
      CoverOfCons(h.area.symbols[rgid], h.leaked, x);
      CoverOfCons(Region(h.area.sbrk + size, h'.area.sbrk), h.tails, x);
      assert [] + h.tails == h.tails;
      assert !TiledAt(h', x);
    }
  }

  /** No sum of any request of the run overflows. */
  predicate RunNoOverflow(b: Build, rs: seq<Request>)
    requires forall r <- rs :: Typed(b, r)
  {
    forall n :: 0 <= n < |rs| ==> Typed(b, rs[n]) && NoOverflow(b, ServeAll(b, rs[..n]).area, rs[n])
  }

  lemma RunNoOverflowBefore(b: Build, rs: seq<Request>)
    requires rs != [] && (forall r <- rs :: Typed(b, r)) && RunNoOverflow(b, rs)
    ensures Typed(b, rs[|rs|-1]) && NoOverflow(b, ServeAll(b, rs[..|rs|-1]).area, rs[|rs|-1])
    ensures RunNoOverflow(b, rs[..|rs|-1])
  {
    hide NoOverflow, ServeAll;
    var before := rs[..|rs|-1];
    assert rs[|rs|-1] in rs;
    forall n | 0 <= n < |before| ensures Typed(b, before[n]) && NoOverflow(b, ServeAll(b, before[..n]).area, before[n]) {
      assert before[n] in rs;
      assert before[..n] == rs[..n] && before[n] == rs[n];
    }
  }

  /** Every byte below the break lies in exactly one live region, free region, rounding tail or
      leaked region, and none at or above it does, after any run without overflow. */
  lemma {:induction false} RunTiles(b: Build, rs: seq<Request>, x: nat)
    requires (forall r <- rs :: Typed(b, r)) && RunNoOverflow(b, rs)
    ensures TiledAt(ServeAll(b, rs), x)
  {
    if rs == [] {
      assert ServeAll(b, rs) == Initial();
      CoverOfEmpties(Initial().area.symbols, x);
      CoverOfEmpties(Initial().area.freeList, x);
    } else {
      hide Serve, NoOverflow, TiledAt;
      assert rs[|rs|-1] in rs;
      RunNoOverflowBefore(b, rs);
      RunTiles(b, rs[..|rs|-1], x);
      ServeTiles(ServeAll(b, rs[..|rs|-1]), b, rs[|rs|-1], x);
    }
  }

  lemma {:induction false} CoverOfEmpties(list: seq<Region>, x: nat)
    requires forall r <- list :: r.Size() == 0
    ensures Cover(list, x) == 0
  {
    if list != [] {
      assert list[0].Size() == 0;
      CoverOfEmpties(list[1..], x);
    }
  }

  predicate HoldsNothing(a: Area, rgid: nat) { rgid < |a.symbols| && a.symbols[rgid].Size() == 0 }

  /** Each allocation goes to a symbol that holds no bytes at that time. */
  predicate FreshSymbols(b: Build, rs: seq<Request>)
    requires forall r <- rs :: Typed(b, r)
  {
    forall n :: 0 <= n < |rs| && rs[n].Take? ==> HoldsNothing(ServeAll(b, rs[..n]).area, rs[n].rgid)
  }

  predicate SmallTails(b: Build, tails: seq<Region>) {
    forall t <- tails :: t.Size() < PAGE_SIZE && (b == Addr64 ==> t.Size() == 0)
  }

  lemma {:induction false} TailsAreSmall(b: Build, rs: seq<Request>)
    requires forall r <- rs :: Typed(b, r)
    ensures SmallTails(b, ServeAll(b, rs).tails)
  {
    if rs != [] {
      var h, r := ServeAll(b, rs[..|rs|-1]), rs[|rs|-1];
      assert r in rs;
      TailsAreSmall(b, rs[..|rs|-1]);
      TailIsSmall(h, b, r);
      hide Serve;
      assert ServeAll(b, rs) == Serve(h, b, r);
    }
  }

  lemma TailIsSmall(h: History, b: Build, r: Request)
    requires Typed(b, r) && LimitsOk(b, h.area) && SmallTails(b, h.tails)
    ensures SmallTails(b, Serve(h, b, r).tails)
  {
    hide FitIndex, AlignUp, ThroughInt;
    if r.Take? {
      var brk := Serve(h, b, r).area.sbrk;
      assert brk != h.area.sbrk ==> brk <= h.area.sbrk + r.size + PAGE_SIZE - 1 && (b == Addr64 ==> brk == h.area.sbrk + r.size);
    }
  }

  lemma {:induction false} NothingLeaks(b: Build, rs: seq<Request>)
    requires forall r <- rs :: Typed(b, r)
    requires FreshSymbols(b, rs)
    ensures forall t <- ServeAll(b, rs).leaked :: t.Size() == 0
  {
    if rs != [] {
      var before, r := rs[..|rs|-1], rs[|rs|-1];
      assert forall n :: 0 <= n < |before| ==> before[..n] == rs[..n] && before[n] == rs[n];
      NothingLeaks(b, before);
      assert rs[..|rs|-1] == before && r in rs;
      var h := ServeAll(b, before);
      hide Allocate;
      if r.Take? {
        assert ServeAll(b, rs).leaked == [h.area.symbols[r.rgid]] + h.leaked;
      } else {
        assert ServeAll(b, rs).leaked == h.leaked;
      }
    }
  }

  /** Without overflow and with every allocation going to an empty symbol, live and free regions tile
      [0, sbrk) exactly under MM64; otherwise they stay disjoint and miss only rounding tails shorter
      than a page. */
  lemma LiveAndFreeTile(b: Build, rs: seq<Request>, x: nat)
    requires (forall r <- rs :: Typed(b, r)) && RunNoOverflow(b, rs) && FreshSymbols(b, rs)
    ensures var h := ServeAll(b, rs);
            var inUse := Cover(h.area.symbols, x) + Cover(h.area.freeList, x);
            && inUse <= 1
            && (b == Addr64 ==> (inUse == 1 <==> x < h.area.sbrk))
            && (inUse == 0 && x < h.area.sbrk ==> exists t <- h.tails :: t.Covers(x) && t.Size() < PAGE_SIZE)
  {
    var h := ServeAll(b, rs);
    RunTiles(b, rs, x);
    TailsAreSmall(b, rs);
    NothingLeaks(b, rs);
    CoverOfEmpties(h.leaked, x);
    if b == Addr64 {
      CoverOfEmpties(h.tails, x);
    }
    CoveredByOne(h.tails, x);
  }

  lemma {:induction false} CoveredByOne(list: seq<Region>, x: nat)
    ensures Cover(list, x) > 0 ==> exists r <- list :: r.Covers(x)
  {
    if list != [] && !list[0].Covers(x) {
      CoveredByOne(list[1..], x);
    }
  }
}
