/** The 32-bit memory manager in place: packed page table words, the replacement queue, the region
    tables and the two devices.  Every method is tied to a function of Paging, Growth or Memory. */
module Kernel {
  import opened Wrappers
  import opened Regions
  import opened Paging
  import opened Growth
  import opened Memory
  import opened Memphy
  import opened Processes
  import Pte

  /** What a page table word stands for. */
  function Decode(word: int): Entry {
    if Pte.Present(word) then InRam(Pte.Fpn(word))
    else if Pte.Swapped(word) then InSwap(Pte.SwpOff(word))
    else Absent
  }

  /** A word is a 32-bit value, and one with neither status bit has no swap offset in it. */
  predicate Clean(word: int) {
    0 <= word < Words.WORD && (Decode(word).Absent? ==> Pte.SwpOff(word) == 0)
  }

  lemma WithFpnIs(word: int, fpn: nat)
    requires Clean(word) && fpn < Pte.FPN_SPAN
    ensures Clean(Pte.WithFpn(word, fpn)) && Decode(Pte.WithFpn(word, fpn)) == InRam(fpn)
  {
    hide Pte.WithFpn, Pte.Present, Pte.Swapped, Pte.Fpn, Pte.SwpOff;
    Pte.WithFpnDecodes(word, fpn);
  }

  lemma WithSwapIs(word: int, swptyp: nat, slot: nat)
    requires Clean(word) && swptyp < Pte.SWPTYP_SPAN && slot < Pte.SWPOFF_SPAN
    ensures Clean(Pte.WithSwap(word, swptyp, slot)) && Decode(Pte.WithSwap(word, swptyp, slot)) == InSwap(slot)
  {
    hide Pte.WithSwap, Pte.Present, Pte.Swapped, Pte.Fpn, Pte.SwpOff;
    Pte.WithSwapDecodes(word, swptyp, slot);
  }

  function DecodeAll(words: seq<int>): seq<Entry> {
    seq(|words|, i requires 0 <= i < |words| => Decode(words[i]))
  }

  /** mm_struct with its single area.  `enlisted` and `unlinked` record every page ever put on and
      taken off the replacement queue, in order. */
  class MmStruct {
    const pgd: array<int>
    const symrgtbl: array<Region>
    var fifoPgn: seq<nat>
    var freeRgList: seq<Region>
    var sbrk: nat
    var vmEnd: nat
    ghost var enlisted: seq<nat>
    ghost var unlinked: seq<nat>

    ghost predicate Valid()
      reads this, pgd
    {
      && pgd.Length == MAX_PGN && symrgtbl.Length == MAX_SYMBOLS
      && (forall g :: 0 <= g < MAX_PGN ==> Clean(pgd[g]))
      && unlinked + Reversed(fifoPgn) == enlisted
    }

    ghost function Abs(): Mm
      reads this, pgd, symrgtbl
    {
      Mm(DecodeAll(pgd[..]), fifoPgn, Area(symrgtbl[..], freeRgList, sbrk, vmEnd), enlisted, unlinked)
    }

    /** init_mm */
    constructor ()
      ensures Valid() && fresh(pgd) && fresh(symrgtbl)
      ensures Abs() == InitMm()
    {
      pgd := new int[MAX_PGN](_ => 0);
      symrgtbl := new Region[MAX_SYMBOLS](_ => EMPTY);
      fifoPgn, freeRgList, sbrk, vmEnd := [], [EMPTY], 0, 0;
      enlisted, unlinked := [], [];
      new;
      assert symrgtbl[..] == seq(MAX_SYMBOLS, _ => EMPTY);
      assert DecodeAll(pgd[..]) == seq(MAX_PGN, _ => Absent);
    }

    method PteGetEntry(pgn: nat) returns (pte: int)
      requires Valid()
      ensures pte == if pgn < MAX_PGN then pgd[pgn] else 0
      ensures Clean(pte) && Decode(pte) == Abs().At(pgn)
    {
      if pgn >= MAX_PGN {
        return 0;
      }
      return pgd[pgn];
    }

    method PteSetFpn(pgn: nat, fpn: nat) returns (ok: bool)
      requires Valid() && fpn < Pte.FPN_SPAN
      modifies pgd
      ensures Valid() && Abs() == old(Abs()).Set(pgn, InRam(fpn))
      ensures ok == (pgn < MAX_PGN)
    {
      hide Clean, Decode, Pte.WithFpn, Pte.WithSwap;
      if pgn >= MAX_PGN {
        return false;
      }
      WithFpnIs(pgd[pgn], fpn);
      pgd[pgn] := Pte.WithFpn(pgd[pgn], fpn);
      assert DecodeAll(pgd[..]) == DecodeAll(old(pgd[..]))[pgn := InRam(fpn)];
      return true;
    }

    method PteSetSwap(pgn: nat, swptyp: nat, swpoff: nat) returns (ok: bool)
      requires Valid() && swptyp < Pte.SWPTYP_SPAN && swpoff < Pte.SWPOFF_SPAN
      modifies pgd
      ensures Valid() && Abs() == old(Abs()).Set(pgn, InSwap(swpoff))
      ensures ok == (pgn < MAX_PGN)
    {
      hide Clean, Decode, Pte.WithFpn, Pte.WithSwap;
      if pgn >= MAX_PGN {
        return false;
      }
      WithSwapIs(pgd[pgn], swptyp, swpoff);
      pgd[pgn] := Pte.WithSwap(pgd[pgn], swptyp, swpoff);
      assert DecodeAll(pgd[..]) == DecodeAll(old(pgd[..]))[pgn := InSwap(swpoff)];
      return true;
    }

    method EnlistPgnNode(pgn: nat)
      requires Valid()
      modifies `fifoPgn, `enlisted
      ensures Valid() && fifoPgn == [pgn] + old(fifoPgn) && enlisted == old(enlisted) + [pgn]
    {
      fifoPgn := [pgn] + fifoPgn;
      enlisted := enlisted + [pgn];
      assert fifoPgn[1..] == old(fifoPgn);
    }

    /** find_victim_page: walk to the last node and unlink it. */
    method FindVictimPage() returns (victim: Option<nat>)
      requires Valid()
      modifies `fifoPgn, `unlinked
      ensures Valid()
      ensures old(fifoPgn) == [] ==> victim == None && fifoPgn == [] && unlinked == old(unlinked)
      ensures old(fifoPgn) != [] ==>
                var last := |old(fifoPgn)| - 1;
                && victim == Some(old(fifoPgn)[last]) && fifoPgn == old(fifoPgn)[..last]
                && unlinked == old(unlinked) + [old(fifoPgn)[last]]
    {
      if fifoPgn == [] {
        return None;
      }
      var pg := 0;
      while pg + 1 < |fifoPgn|
        invariant pg < |fifoPgn|
      {
        pg := pg + 1;
      }
      victim := Some(fifoPgn[pg]);
      assert fifoPgn == fifoPgn[..pg] + [fifoPgn[pg]];
      ReversedSnoc(fifoPgn[..pg], fifoPgn[pg]);
      unlinked := unlinked + [fifoPgn[pg]];
      fifoPgn := fifoPgn[..pg];
    }

    /** get_free_vmrg_area: None is its -1. */
    method GetFreeVmrgArea(size: nat) returns (rg: Option<Region>)
      modifies `freeRgList
      ensures var list, i := old(freeRgList), FitIndex(Addr32, old(freeRgList), size);
              if i < |list|
              then rg == Some(Region(list[i].start, FitEnd(Addr32, list[i].start, size))) && freeRgList == CutNode(Addr32, list, i, size)
              else rg == None && freeRgList == list
    {
      rg := None;
      var it := 0;
      while it < |freeRgList|
        invariant 0 <= it <= |freeRgList| && freeRgList == old(freeRgList) && rg == None
        invariant forall k :: 0 <= k < it ==> !Fits(Addr32, freeRgList[k], size)
      {
        var node := freeRgList[it];
        var end := FitEnd(Addr32, node.start, size);
        if end <= node.end {
          rg := Some(Region(node.start, end));
          FirstFitIs(freeRgList, size, it);
          if end < node.end {
            freeRgList := freeRgList[it := Region(end, node.end)];
          } else {
            freeRgList := freeRgList[..it] + freeRgList[it+1..];
          }
          return;
        }
        it := it + 1;
      }
      FirstFitIs(freeRgList, size, it);
    }
  }

  /** The position a scan stops at is FitIndex. */
  lemma FirstFitIs(list: seq<Region>, size: nat, i: nat)
    requires i <= |list| && (forall k :: 0 <= k < i ==> !Fits(Addr32, list[k], size))
    requires i < |list| ==> Fits(Addr32, list[i], size)
    ensures FitIndex(Addr32, list, size) == i
  {
  }

  /** What a kernel call relies on: frame and slot numbers that fit their fields and their devices,
      and a replacement queue of resident pages. */
  ghost predicate Fitting(m: Machine) {
    && |m.mm.table| == MAX_PGN && |m.mm.area.symbols| == MAX_SYMBOLS
    && |m.ram.pages| <= Pte.FPN_SPAN && |m.swp.pages| <= Pte.SWPOFF_SPAN
    && (forall f <- m.ram.free :: f < |m.ram.pages|)
    && (forall t <- m.swp.free :: t < |m.swp.pages|)
    && (forall g :: 0 <= g < MAX_PGN ==> InRange(m, m.mm.table[g]))
    && (forall f :: 0 <= f < |m.ram.pages| ==> |m.ram.pages[f]| == PAGE_SIZE)
    && (forall t :: 0 <= t < |m.swp.pages| ==> |m.swp.pages[t]| == PAGE_SIZE)
    && QueueSound(m.mm)
  }

  predicate InRange(m: Machine, e: Entry) {
    match e
    case InRam(f) => f < |m.ram.pages|
    case InSwap(t) => t < |m.swp.pages|
    case Absent => true
  }

  /** Every process of a sound system, on devices whose numbers fit, can enter the kernel. */
  lemma SoundSystemsFit(s: Sys, p: nat)
    requires SysOk(s) && p in s.mms
    requires |s.ram.pages| <= Pte.FPN_SPAN && |s.swp.pages| <= Pte.SWPOFF_SPAN
    ensures Fitting(Focus(s, p))
  {
    var m := Focus(s, p);
    forall g | 0 <= g < MAX_PGN ensures InRange(m, m.mm.table[g]) {
      match s.At(p, g) {
        case InRam(f) => assert FrameHeld(s, f);
        case InSwap(t) => assert SlotHeld(s, t);
        case Absent =>
      }
    }
  }

  lemma GrabFits(m: Machine)
    requires Fitting(m)
    ensures Fitting(GrabFrame(m).0)
    ensures GrabFrame(m).1.Some? ==> GrabFrame(m).1.value < |m.ram.pages|
    ensures |GrabFrame(m).0.ram.pages| == |m.ram.pages| && |GrabFrame(m).0.swp.pages| == |m.swp.pages|
  {
    var (m', r) := GrabFrame(m);
    if m.ram.free != [] {
      assert m.ram.free[0] in m.ram.free && forall f <- m.ram.Pop().free :: f in m.ram.free;
    } else if m.mm.fifo != [] {
      EvictFits(m);
    }
  }

  lemma FittingSlots(m: Machine)
    requires Fitting(m)
    ensures forall t <- m.swp.free :: t < Pte.SWPOFF_SPAN
    ensures forall f <- m.ram.free :: f < Pte.FPN_SPAN
  {
  }

  lemma EvictFits(m: Machine)
    requires Fitting(m) && m.mm.fifo != []
    ensures Fitting(Evict(m).0)
    ensures Evict(m).1.Some? ==> Evict(m).1.value < |m.ram.pages|
    ensures |Evict(m).0.ram.pages| == |m.ram.pages| && |Evict(m).0.swp.pages| == |m.swp.pages|
  {
    var m' := Evict(m).0;
    var last := |m.mm.fifo| - 1;
    var v := m.mm.fifo[last];
    assert v in m.mm.fifo && m.mm.At(v).InRam? && InRange(m, m.mm.table[v]);
    if m.swp.free != [] {
      assert m.swp.free[0] in m.swp.free && forall t <- m.swp.Pop().free :: t in m.swp.free;
    }
    forall g | g in m'.mm.fifo ensures m'.mm.At(g).InRam? {
      assert g in m.mm.fifo && g != v;
    }
    UnlinkInOrder(m.mm);
  }

  lemma FillFits(m: Machine, g: nat, f: nat)
    requires Fitting(m) && g < MAX_PGN && !m.mm.At(g).InRam? && f < |m.ram.pages|
    ensures Fitting(Fill(m, g, f))
  {
    QueueAfterMap(m, g, f);
  }

  class Krnl {
    const mram: MemPhy
    const activeMswp: MemPhy
    var mm: MmStruct

    ghost predicate Wired()
      reads this, mm, mm.pgd
    {
      && mram != activeMswp && mram.storage != activeMswp.storage
      && mram.storage as object !in {mm.pgd, mm.symrgtbl} && activeMswp.storage as object !in {mm.pgd, mm.symrgtbl}
      && mram.Valid() && activeMswp.Valid() && mm.Valid()
    }

    ghost predicate Valid()
      reads this, mram, mram.storage, activeMswp, activeMswp.storage, mm, mm.pgd, mm.symrgtbl
    {
      Wired() && Fitting(Abs())
    }

    ghost function Abs(): Machine
      requires mram.Valid() && activeMswp.Valid()
      reads this, mram, mram.storage, activeMswp, activeMswp.storage, mm, mm.pgd, mm.symrgtbl
    {
      Machine(mram.Abs(), activeMswp.Abs(), mm.Abs())
    }

    constructor (mram: MemPhy, activeMswp: MemPhy, mm: MmStruct)
      requires mram.Valid() && activeMswp.Valid() && mm.Valid() && Fitting(Machine(mram.Abs(), activeMswp.Abs(), mm.Abs()))
      requires mram != activeMswp && mram.storage != activeMswp.storage
      requires mram.storage as object !in {mm.pgd, mm.symrgtbl} && activeMswp.storage as object !in {mm.pgd, mm.symrgtbl}
      ensures this.mram == mram && this.activeMswp == activeMswp && this.mm == mm && Valid()
    {
      this.mram, this.activeMswp, this.mm := mram, activeMswp, mm;
    }

    /** Copy the victim's frame to its slot and mark its entry. */
    method SwapOutPage(vicpgn: nat, vicfpn: nat, swpfpn: nat)
      requires Wired() && swpfpn < Pte.SWPOFF_SPAN
      modifies activeMswp.storage, mm.pgd
      ensures Wired()
      ensures Abs() == old(Abs()).(swp := CopyPage(old(Abs()).ram, vicfpn, old(Abs()).swp, swpfpn),
                                   mm := old(Abs()).mm.Set(vicpgn, InSwap(swpfpn)))
    {
      var _ := SwapCpPage(mram, vicfpn, activeMswp, swpfpn);
      var _ := mm.PteSetSwap(vicpgn, 0, swpfpn);
    }

    /** The replacement part of pg_getpage. */
    method EvictForFault() returns (frame: Option<nat>)
      requires Valid() && mram.freeFpList == []
      modifies activeMswp`freeFpList, activeMswp.storage, mm`fifoPgn, mm`unlinked, mm.pgd
      ensures Valid() && (Abs(), frame) == GrabFrame(old(Abs()))
    {
      hide Fitting, DecodeAll, PagesOf, Reversed, Pte.Present, Pte.Swapped, Pte.Fpn, Pte.SwpOff, Clean;
      ghost var m0 := Abs();
      GrabFits(m0);
      FittingSlots(m0);
      var victim := mm.FindVictimPage();
      if victim.None? {
        return None;
      }
      var slot := activeMswp.GetFreeFp();
      if slot.None? {
        return None;
      }
      assert slot.value in m0.swp.free;
      var vicpte := mm.PteGetEntry(victim.value);
      if !Pte.Present(vicpte) {
        return None;
      }
      var vicfpn := Pte.Fpn(vicpte);
      ghost var m2 := Abs();
      var _ := SwapCpPage(mram, vicfpn, activeMswp, slot.value);  // made once here and once by the system call
      CopyTwice(m2.ram, vicfpn, m2.swp, slot.value);
      SwapOutPage(victim.value, vicfpn, slot.value);
      return Some(vicfpn);
    }

    /** The second half of pg_getpage: load the target from swap, or clear its new frame. */
    method BringIn(pgn: nat, tgtSwpfpn: nat, frame: nat)
      requires Wired() && frame < mram.maxsz / PAGE_SIZE && frame < Pte.FPN_SPAN
      requires tgtSwpfpn == match Abs().mm.At(pgn) case InSwap(t) => t case _ => 0
      modifies mram.storage, activeMswp`freeFpList, mm`fifoPgn, mm`enlisted, mm.pgd
      ensures Wired() && Abs() == Fill(old(Abs()), pgn, frame)
    {
      hide DecodeAll, PagesOf, Reversed, Clean;
      if tgtSwpfpn != 0 {
        var _ := SwapCpPage(activeMswp, tgtSwpfpn, mram, frame);
        activeMswp.PutFreeFp(tgtSwpfpn);
      } else {
        mram.ClearFrame(frame);
      }
      var _ := mm.PteSetFpn(pgn, frame);
      mm.EnlistPgnNode(pgn);
    }

    /** pg_getpage */
    method PgGetPage(pgn: int) returns (fpn: Option<nat>)
      requires Valid()
      modifies mram`freeFpList, mram.storage, activeMswp`freeFpList, activeMswp.storage,
               mm`fifoPgn, mm`enlisted, mm`unlinked, mm.pgd
      ensures Valid() && (Abs(), fpn) == GetPage(old(Abs()), pgn)
    {
      hide Fitting, DecodeAll, PagesOf, Reversed, Pte.Present, Pte.Swapped, Pte.Fpn, Pte.SwpOff, Evict, Fill;
      if pgn < 0 || pgn >= MAX_PGN {
        return None;
      }
      ghost var m0 := Abs();
      var pte := mm.PteGetEntry(pgn);
      if !Pte.Present(pte) {
        var tgtSwpfpn := Pte.SwpOff(pte);
        GrabFits(m0);
        GrabMovesOnlyResidentPages(m0, pgn);
        var frame := mram.GetFreeFp();
        if frame.None? {
          frame := EvictForFault();
          if frame.None? {
            return None;
          }
        }
        ghost var m1 := Abs();
        assert (m1, frame) == GrabFrame(m0);
        FillFits(m1, pgn, frame.value);
        FittingFrames(m1);
        FillIsResident(m1, pgn, frame.value);
        BringIn(pgn, tgtSwpfpn, frame.value);
      }
      pte := mm.PteGetEntry(pgn);
      return Some(Pte.Fpn(pte));
    }

    /** pg_getval */
    method PgGetVal(addr: nat) returns (data: Option<bv8>)
      requires Valid()
      modifies mram`freeFpList, mram.storage, activeMswp`freeFpList, activeMswp.storage,
               mm`fifoPgn, mm`enlisted, mm`unlinked, mm.pgd
      ensures Valid() && (Abs(), data) == GetVal(old(Abs()), addr)
    {
      hide GetPage, DecodeAll, QueueSound, InRange;
      var pgn, off := Pgn(addr), Offst(addr);
      GetPageFits(Abs(), pgn);
      AddressSplit(addr);
      var fpn := PgGetPage(pgn);
      if fpn.None? {
        return None;
      }
      var phyaddr := fpn.value * PAGE_SIZE + off;
      data := mram.Read(phyaddr);
    }

    /** pg_setval */
    method PgSetVal(addr: nat, value: bv8) returns (ok: bool)
      requires Valid()
      modifies mram`freeFpList, mram.storage, activeMswp`freeFpList, activeMswp.storage,
               mm`fifoPgn, mm`enlisted, mm`unlinked, mm.pgd
      ensures Valid() && (Abs(), ok) == SetVal(old(Abs()), addr, value)
    {
      hide GetPage, DecodeAll, PagesOf, Fitting;
      var pgn, off := Pgn(addr), Offst(addr);
      GetPageFits(Abs(), pgn);
      AddressSplit(addr);
      var fpn := PgGetPage(pgn);
      if fpn.None? {
        return false;
      }
      var phyaddr := fpn.value * PAGE_SIZE + off;
      PagesOfByteChange(mram.storage[..], fpn.value, off, value);
      StoreFits(Abs(), fpn.value, off, value);
      ok := mram.Write(phyaddr, value);
    }

    /** The replacement part of alloc_pages_range. */
    method EvictForAlloc() returns (frame: Option<nat>)
      requires Valid() && mram.freeFpList == []
      modifies activeMswp`freeFpList, activeMswp.storage, mm`fifoPgn, mm`unlinked, mm.pgd
      ensures Valid() && (Abs(), frame) == GrabFrame(old(Abs()))
    {
      hide Fitting, DecodeAll, PagesOf, Reversed, Pte.Present, Pte.Swapped, Pte.Fpn, Pte.SwpOff, Clean;
      ghost var m0 := Abs();
      GrabFits(m0);
      FittingSlots(m0);
      FittingQueue(m0);
      var victim := mm.FindVictimPage();
      if victim.None? {
        return None;
      }
      var slot := activeMswp.GetFreeFp();
      if slot.None? {
        return None;
      }
      assert slot.value in m0.swp.free;
      assert victim.value in m0.mm.fifo && m0.mm.At(victim.value).InRam?;
      var vicpte := mm.PteGetEntry(victim.value);
      var vicfpn := Pte.Fpn(vicpte);
      SwapOutPage(victim.value, vicfpn, slot.value);
      return Some(vicfpn);
    }

    /** alloc_pages_range */
    method AllocPagesRange(reqPgnum: nat) returns (ok: bool, frmLst: seq<nat>)
      requires Valid()
      modifies mram`freeFpList, activeMswp`freeFpList, activeMswp.storage, mm`fifoPgn, mm`unlinked, mm.pgd
      ensures Valid() && Grabbed(Abs(), frmLst, ok) == AllocPages(old(Abs()), reqPgnum)
    {
      hide Fitting, DecodeAll, PagesOf, Reversed, Clean, Evict;
      frmLst := [];
      for pgit := 0 to reqPgnum
        invariant Valid() && Grabbed(Abs(), frmLst, true) == AllocPages(old(Abs()), pgit)
      {
        ghost var m := Abs();
        GrabFits(m);
        var fpn := mram.GetFreeFp();
        if fpn.None? {
          fpn := EvictForAlloc();
          if fpn.None? {
            AllocPagesStops(old(Abs()), pgit + 1, reqPgnum);
            return false, frmLst;
          }
        }
        assert (Abs(), fpn) == GrabFrame(m);
        frmLst := frmLst + [fpn.value];
      }
      return true, frmLst;
    }

    /** vmap_page_range, for as many pages as there are frames */
    method VmapPageRange(addr: nat, pgnum: nat, frames: seq<nat>)
      requires Wired() && forall f <- frames :: f < Pte.FPN_SPAN
      modifies mm`fifoPgn, mm`enlisted, mm.pgd
      ensures Wired()
      ensures Abs() == MapRange(old(Abs()), Pgn(addr), frames[..if pgnum < |frames| then pgnum else |frames|])
    {
      hide DecodeAll, PagesOf, Reversed, Clean;
      var pgn := Pgn(addr);
      var i := 0;
      while i < pgnum
        invariant i <= pgnum && i <= |frames|
        invariant Wired() && Abs() == MapRange(old(Abs()), pgn, frames[..i])
      {
        if i == |frames| {
          break;
        }
        var fpn := frames[i];
        assert fpn in frames;
        var _ := mm.PteSetFpn(pgn + i, fpn);
        mm.EnlistPgnNode(pgn + i);
        assert frames[..i + 1][..i] == frames[..i];
        i := i + 1;
      }
    }

    /** vm_map_ram.  `dropped` are the frames of an unfinished request, which nobody refers to any more. */
    method VmMapRam(mapstart: nat, incpgnum: nat) returns (ok: bool, ghost dropped: seq<nat>)
      requires Valid() && mapstart / PAGE_SIZE + incpgnum <= MAX_PGN
      requires AbsentFrom(Abs().mm, mapstart / PAGE_SIZE, mapstart / PAGE_SIZE + incpgnum)
      modifies mram`freeFpList, activeMswp`freeFpList, activeMswp.storage,
               mm`fifoPgn, mm`enlisted, mm`unlinked, mm.pgd
      ensures Valid() && Grown(Abs(), dropped) == MapRam(old(Abs()), mapstart / PAGE_SIZE, incpgnum)
      ensures ok == AllocPages(old(Abs()), incpgnum).ok
    {
      hide Fitting, DecodeAll, PagesOf, Reversed, Clean, AllocPages;
      MapRamFits(Abs(), mapstart / PAGE_SIZE, incpgnum);
      var frmLst;
      ok, frmLst := AllocPagesRange(incpgnum);
      if !ok {
        return false, frmLst;
      }
      if incpgnum > 0 {
        AddressSplit(mapstart);
      }
      VmapPageRange(mapstart, incpgnum, frmLst);
      assert frmLst[..|frmLst|] == frmLst;
      dropped := [];
    }

    /** inc_vma_limit on the one area a process has */
    method IncVmaLimit(incSz: nat) returns (ok: bool, ghost dropped: seq<nat>)
      requires Valid() && incSz < Width(Addr32) && (Moves(Addr32, Abs().mm.area, incSz) ==> Growable(Abs().mm, Align(Addr32, incSz)))
      modifies mram`freeFpList, activeMswp`freeFpList, activeMswp.storage,
               mm`fifoPgn, mm`enlisted, mm`unlinked, mm`sbrk, mm`vmEnd, mm.pgd
      ensures Valid() && Grown(Abs(), dropped) == Growth.IncVmaLimit(old(Abs()), incSz)
      ensures ok == Moves(Addr32, old(Abs()).mm.area, incSz)
    {
      hide Fitting, DecodeAll, PagesOf, Reversed, Clean, MapRam;
      var incAmt := Align(Addr32, incSz);
      var incnumpage := incAmt / PAGE_SIZE;
      var mapstart := mm.vmEnd;
      var mapend := Sum(Addr32, mapstart, incAmt);
      ok := ValidateOverlap([Vma(0, 0, mm.vmEnd)], 0, mapstart, mapend);
      if !ok {
        return false, [];
      }
      var mapped;
      mapped, dropped := VmMapRam(mapstart, incnumpage);  // a negative result would be unsigned: never less than 0
      FittingIgnoresArea(Abs(), Area(Abs().mm.area.symbols, mm.freeRgList, Sum(Addr32, mm.sbrk, incSz), mapend));
      mm.vmEnd := mapend;
      mm.sbrk := Sum(Addr32, mm.sbrk, incSz);
    }

    /** The part of __alloc for a request that no free node fits */
    method AllocAtBreak(rgid: nat, size: nat) returns (allocAddr: nat, ghost dropped: seq<nat>)
      requires Valid() && rgid < MAX_SYMBOLS && size < Width(Addr32)
      requires FitIndex(Addr32, mm.freeRgList, size) >= |mm.freeRgList|
      requires Moves(Addr32, Abs().mm.area, size) ==> Growable(Abs().mm, Align(Addr32, size))
      modifies mram`freeFpList, activeMswp`freeFpList, activeMswp.storage, mm, mm.pgd, mm.symrgtbl
      ensures mm.pgd == old(mm.pgd) && mm.symrgtbl == old(mm.symrgtbl)
      ensures Valid() && Grown(Abs(), dropped) == DoAlloc(old(Abs()), rgid, size)
      ensures allocAddr == mm.symrgtbl[rgid].start
    {
      hide Fitting, DecodeAll, PagesOf, Reversed, Clean, Growth.IncVmaLimit;
      allocAddr := ThroughInt(Addr32, mm.sbrk);
      IncVmaLimitMovesLimits(old(Abs()), Align(Addr32, size));
      var _, lost := IncVmaLimit(Align(Addr32, size));
      dropped := lost;
      FittingIgnoresArea(Abs(), DoAlloc(old(Abs()), rgid, size).m.mm.area);
      mm.symrgtbl[rgid] := Region(allocAddr, Sum(Addr32, allocAddr, size));
    }

    /** __alloc */
    method Alloc(rgid: nat, size: nat) returns (allocAddr: nat, ghost dropped: seq<nat>)
      requires Valid() && rgid < MAX_SYMBOLS && size < Width(Addr32)
      requires || FitIndex(Addr32, mm.freeRgList, size) < |mm.freeRgList|
               || !Moves(Addr32, Abs().mm.area, size)
               || Growable(Abs().mm, Align(Addr32, size))
      modifies mram`freeFpList, activeMswp`freeFpList, activeMswp.storage, mm, mm.pgd, mm.symrgtbl
      ensures mm.pgd == old(mm.pgd) && mm.symrgtbl == old(mm.symrgtbl)
      ensures Valid() && Grown(Abs(), dropped) == DoAlloc(old(Abs()), rgid, size)
      ensures allocAddr == mm.symrgtbl[rgid].start
    {
      hide Fitting, DecodeAll, PagesOf, Reversed, Clean, Growth.IncVmaLimit;
      var rgnode := mm.GetFreeVmrgArea(size);
      if rgnode.None? {
        allocAddr, dropped := AllocAtBreak(rgid, size);
        return;
      }
      FittingIgnoresArea(old(Abs()), DoAlloc(old(Abs()), rgid, size).m.mm.area);
      mm.symrgtbl[rgid] := Region(rgnode.value.start, rgnode.value.end);
      return rgnode.value.start, [];
    }

    /** __free and enlist_vm_freerg_list */
    method Free(rgid: int) returns (ok: bool)
      requires Valid() && rgid != MAX_SYMBOLS
      modifies mm`freeRgList, mm.symrgtbl
      ensures Valid() && Abs() == DoFree(old(Abs()), rgid)
      ensures ok <==> 0 <= rgid < MAX_SYMBOLS && old(mm.symrgtbl[rgid]) != EMPTY
      ensures ok ==> mm.symrgtbl[..] == old(mm.symrgtbl[..])[rgid := EMPTY]
      ensures ok ==> var r := old(mm.symrgtbl[rgid]);
                     mm.freeRgList == (if r.start < r.end then [r] else []) + old(mm.freeRgList)
      ensures !ok ==> mm.symrgtbl[..] == old(mm.symrgtbl[..]) && mm.freeRgList == old(mm.freeRgList)
    {
      if rgid < 0 || rgid > MAX_SYMBOLS {
        return false;
      }
      var rgnode := mm.symrgtbl[rgid];
      if rgnode.start == 0 && rgnode.end == 0 {
        return false;
      }
      mm.symrgtbl[rgid] := EMPTY;
      if rgnode.start < rgnode.end {
        mm.freeRgList := [rgnode] + mm.freeRgList;
      }
      return true;
    }

    /** __read */
    method Read(rgid: int, offset: nat) returns (data: Option<bv8>)
      requires Valid() && rgid != MAX_SYMBOLS
      modifies mram`freeFpList, mram.storage, activeMswp`freeFpList, activeMswp.storage,
               mm`fifoPgn, mm`enlisted, mm`unlinked, mm.pgd
      ensures Valid() && (Abs(), data) == DoRead(old(Abs()), rgid, offset)
    {
      hide Fitting, DecodeAll, PagesOf, GetVal;
      if rgid < 0 || rgid > MAX_SYMBOLS {
        return None;
      }
      var currg := mm.symrgtbl[rgid];
      var vaddr := Plus(currg.start, offset);
      if vaddr >= currg.end {
        return None;
      }
      data := PgGetVal(vaddr);
    }

    /** __write: what pg_setval returns is dropped. */
    method Write(rgid: int, offset: nat, value: bv8) returns (ok: bool)
      requires Valid() && rgid != MAX_SYMBOLS
      modifies mram`freeFpList, mram.storage, activeMswp`freeFpList, activeMswp.storage,
               mm`fifoPgn, mm`enlisted, mm`unlinked, mm.pgd
      ensures Valid() && (Abs(), ok) == DoWrite(old(Abs()), rgid, offset, value)
      ensures ok <==> 0 <= rgid < MAX_SYMBOLS
    {
      hide Fitting, DecodeAll, PagesOf, SetVal;
      if rgid < 0 || rgid > MAX_SYMBOLS {
        return false;
      }
      var _ := PgSetVal(Plus(mm.symrgtbl[rgid].start, offset), value);
      return true;
    }

    /** What free_pcb_memph does about one page. */
    method GiveBack(pagenum: nat)
      requires Wired()
      modifies mram`freeFpList, activeMswp`freeFpList
      ensures Wired()
      ensures mram.freeFpList == match mm.Abs().At(pagenum)
                                 case InRam(f) => [f] + old(mram.freeFpList)
                                 case _ => old(mram.freeFpList)
      ensures activeMswp.freeFpList == match mm.Abs().At(pagenum)
                                       case InSwap(t) => [t] + old(activeMswp.freeFpList)
                                       case _ => old(activeMswp.freeFpList)
    {
      hide DecodeAll, Clean;
      var pte := mm.PteGetEntry(pagenum);
      if Pte.Present(pte) {
        mram.PutFreeFp(Pte.Fpn(pte));
      } else if Pte.Swapped(pte) {
        activeMswp.PutFreeFp(Pte.SwpOff(pte));
      }
    }

    /** free_pcb_memph */
    method FreePcbMemph()
      requires Valid()
      modifies mram`freeFpList, activeMswp`freeFpList
      ensures Wired() && Abs() == Collect(old(Abs()))
    {
      hide Fitting, DecodeAll, PagesOf, Clean, Decode;
      ghost var was := mm.Abs();
      for pagenum := 0 to MAX_PGN
        invariant Wired() && mm.Abs() == was
        invariant mram.freeFpList == FramesOf(was, pagenum) + old(mram.freeFpList)
        invariant activeMswp.freeFpList == SlotsOf(was, pagenum) + old(activeMswp.freeFpList)
      {
        GiveBack(pagenum);
        NextGiven(was, pagenum, old(mram.freeFpList), old(activeMswp.freeFpList));
      }
    }
  }

  lemma NextGiven(mm: Mm, k: nat, frames: seq<nat>, slots: seq<nat>)
    ensures FramesOf(mm, k + 1) + frames
         == match mm.At(k) case InRam(f) => [f] + (FramesOf(mm, k) + frames) case _ => FramesOf(mm, k) + frames
    ensures SlotsOf(mm, k + 1) + slots
         == match mm.At(k) case InSwap(t) => [t] + (SlotsOf(mm, k) + slots) case _ => SlotsOf(mm, k) + slots
  {
  }

  /** A kernel on fresh devices, as main and the loader set one up, with a process just loaded. */
  method Boot(ramSize: nat, swpSize: nat) returns (k: Krnl)
    requires ramSize >= PAGE_SIZE && swpSize >= PAGE_SIZE
    requires ramSize / PAGE_SIZE <= Pte.FPN_SPAN && swpSize / PAGE_SIZE <= Pte.SWPOFF_SPAN
    ensures fresh(k) && k.Valid()
    ensures var frames, slots := ramSize / PAGE_SIZE, swpSize / PAGE_SIZE;
            k.Abs() == Machine(Device(seq(frames, _ => ZeroPage()), seq(frames, i => i)),
                               Device(seq(slots, _ => ZeroPage()), seq(slots, i => i)), InitMm())
  {
    var mram := new MemPhy(ramSize);
    var mswp := new MemPhy(swpSize);
    var mm := new MmStruct();
    k := new Krnl(mram, mswp, mm);
  }

  /** Room for the area to grow by `amount`. */
  ghost predicate Growable(mm: Mm, amount: nat) {
    var end := mm.area.vmEnd;
    end % PAGE_SIZE == 0 && end + amount <= MAX_PGN * PAGE_SIZE && AbsentFrom(mm, end / PAGE_SIZE, MAX_PGN)
  }

  lemma IncVmaLimitMovesLimits(m: Machine, incSize: nat)
    requires incSize < Width(Addr32)
    ensures Growth.IncVmaLimit(m, incSize).m.mm.area == Extend(Addr32, m.mm.area, incSize)
  {
  }

  lemma FittingIgnoresArea(m: Machine, a: Area)
    requires Fitting(m) && |a.symbols| == MAX_SYMBOLS
    ensures Fitting(m.(mm := m.mm.(area := a)))
  {
    assert forall g :: m.mm.(area := a).At(g) == m.mm.At(g);
  }

  lemma FittingQueue(m: Machine)
    requires Fitting(m)
    ensures forall g <- m.mm.fifo :: m.mm.At(g).InRam?
  {
  }

  /** A request that has failed stays failed. */
  lemma {:induction false} AllocPagesStops(m: Machine, k: nat, n: nat)
    requires k <= n && !AllocPages(m, k).ok
    ensures AllocPages(m, n) == AllocPages(m, k)
  {
    if k < n {
      AllocPagesStops(m, k, n - 1);
    }
  }

  lemma {:induction false} AllocPagesFits(m: Machine, n: nat)
    requires Fitting(m)
    ensures var r := AllocPages(m, n);
            Fitting(r.m) && |r.m.ram.pages| == |m.ram.pages| && forall f <- r.frames :: f < |m.ram.pages|
  {
    hide Fitting, GrabFrame;
    if n > 0 {
      AllocPagesFits(m, n - 1);
      GrabFits(AllocPages(m, n - 1).m);
    }
  }

  lemma {:induction false} MapRangeFits(m: Machine, g: nat, frames: seq<nat>)
    requires Fitting(m) && g + |frames| <= MAX_PGN && AbsentFrom(m.mm, g, g + |frames|)
    requires forall f <- frames :: f < |m.ram.pages|
    ensures var m' := MapRange(m, g, frames);
            && Fitting(m') && |m'.ram.pages| == |m.ram.pages|
            && forall k :: g + |frames| <= k ==> m'.mm.At(k) == m.mm.At(k)
  {
    if frames != [] {
      var last := |frames| - 1;
      assert frames[last] in frames && forall f <- frames[..last] :: f in frames;
      MapRangeFits(m, g, frames[..last]);
      assert m.mm.At(g + last) == Absent;
      MapFits(MapRange(m, g, frames[..last]), g + last, frames[last]);
      MapChangesOneEntry(MapRange(m, g, frames[..last]), g + last, frames[last]);
    }
  }

  lemma MapFits(m: Machine, g: nat, f: nat)
    requires Fitting(m) && g < MAX_PGN && m.mm.At(g) == Absent && f < |m.ram.pages|
    ensures Fitting(Map(m, g, f)) && |Map(m, g, f).ram.pages| == |m.ram.pages|
  {
    QueueAfterMap(m, g, f);
  }

  lemma MapRamFits(m: Machine, g: nat, n: nat)
    requires Fitting(m) && g + n <= MAX_PGN && AbsentFrom(m.mm, g, g + n)
    ensures Fitting(MapRam(m, g, n).m)
    ensures forall f <- AllocPages(m, n).frames :: f < Pte.FPN_SPAN
  {
    hide Fitting;
    var r := AllocPages(m, n);
    AllocPagesFits(m, n);
    FittingFrames(m);
    forall k | g <= k < g + n ensures r.m.mm.At(k) == Absent {
      AllocPagesMovesOnlyResidentPages(m, n, k);
    }
    if r.ok {
      MapRangeFits(r.m, g, r.frames);
    }
  }

  /** The frame a served fault returns exists. */
  lemma GetPageFits(m: Machine, g: int)
    requires Fitting(m)
    ensures var (m', f) := GetPage(m, g);
            Fitting(m') && |m'.ram.pages| == |m.ram.pages| && (f.Some? ==> f.value < |m.ram.pages|)
  {
    hide GrabFrame;
    if 0 <= g < MAX_PGN {
      assert InRange(m, m.mm.table[g]);
      if !m.mm.At(g).InRam? {
        GrabFits(m);
        GrabMovesOnlyResidentPages(m, g);
        var (m1, f) := GrabFrame(m);
        if f.Some? {
          FillFits(m1, g, f.value);
        }
      }
    }
  }

  lemma StoreFits(m: Machine, f: nat, o: nat, value: bv8)
    requires Fitting(m) && f < |m.ram.pages| && o < PAGE_SIZE
    ensures |m.ram.pages[f]| == PAGE_SIZE
    ensures Fitting(m.(ram := m.ram.With(f, m.ram.pages[f][o := value])))
  {
  }

  lemma FillIsResident(m: Machine, g: nat, f: nat)
    requires g < |m.mm.table|
    ensures Fill(m, g, f).mm.At(g) == InRam(f)
  {
  }

  lemma FittingFrames(m: Machine)
    requires Fitting(m)
    ensures |m.ram.pages| <= Pte.FPN_SPAN && |m.mm.table| == MAX_PGN
  {
  }

  lemma CopyTwice(src: Device, f: nat, dst: Device, t: nat)
    ensures CopyPage(src, f, CopyPage(src, f, dst, t), t) == CopyPage(src, f, dst, t)
  {
  }
}
