/** Page replacement over whole runs: pages leave the queue in the order they joined it. */
module Replacement {
  import opened Regions
  import opened Paging
  import opened Growth
  import opened Supply
  import opened Memory
  import opened Processes

  /** A fault pops the oldest page exactly if RAM is full, and enlists the page it serves. */
  lemma GetPageHistory(m: Machine, g: int)
    requires QueueSound(m.mm)
    ensures var (m', r) := GetPage(m, g);
            var fault := 0 <= g < MAX_PGN && !m.mm.At(g).InRam?;
            && m'.mm.popped == m.mm.popped
                 + (if fault && m.ram.free == [] && m.mm.fifo != [] then [Oldest(m.mm, 0)] else [])
            && m'.mm.enlisted == m.mm.enlisted + (if fault && r.Some? then [g] else [])
  {
    hide QueueSound;
    var (m', r) := GetPage(m, g);
    assert m.mm.popped + [] == m.mm.popped && m.mm.enlisted + [] == m.mm.enlisted;
  }

  function PagesFrom(g: nat, n: nat): seq<nat> { seq(n, i => g + i) }

  /** Mapping a range enlists its pages in order. */
  lemma {:induction false} MapRangeHistory(m: Machine, g: nat, frames: seq<nat>)
    ensures var m' := MapRange(m, g, frames);
            && m'.mm.popped == m.mm.popped && m'.mm.enlisted == m.mm.enlisted + PagesFrom(g, |frames|)
  {
    if frames == [] {
      assert m.mm.enlisted + PagesFrom(g, 0) == m.mm.enlisted;
    } else {
      var last := |frames| - 1;
      MapRangeHistory(m, g, frames[..last]);
      assert PagesFrom(g, |frames|) == PagesFrom(g, last) + [g + last];
    }
  }

  /** An allocation that grows the area pops the oldest pages, as many as it needs or as it gets to, and
      enlists its own in order if it succeeds. */
  lemma AllocHistory(m: Machine, rgid: nat, size: nat)
    requires QueueSound(m.mm) && rgid < |m.mm.area.symbols| && size < Width(Addr32)
    ensures var mm', n := DoAlloc(m, rgid, size).m.mm, PagesAdded(m, Alloc(rgid, size));
            && mm'.popped == m.mm.popped + Reversed(m.mm.fifo)[..Pops(m, n)]
            && mm'.enlisted == m.mm.enlisted + (if n <= Capacity(m) then PagesFrom(m.mm.area.vmEnd / PAGE_SIZE, n) else [])
  {
    hide QueueSound, AllocPages, MapRange, Granted, Took;
    var n := PagesAdded(m, Alloc(rgid, size));
    assert m.mm.popped + [] == m.mm.popped && m.mm.enlisted + [] == m.mm.enlisted;
    AllocPagesExact(m, n);
    if n > 0 {
      MapRangeHistory(AllocPages(m, n).m, m.mm.area.vmEnd / PAGE_SIZE, AllocPages(m, n).frames);
    } else {
      assert Reversed(m.mm.fifo)[..Pops(m, 0)] == [];
      assert PagesFrom(m.mm.area.vmEnd / PAGE_SIZE, 0) == [];
    }
  }

  /** No instruction forgets or reorders what was popped or enlisted before it. */
  lemma PerformHistory(m: Machine, op: Op)
    requires QueueSound(m.mm) && Legal(m.mm, op)
    ensures var mm' := Perform(m, op).m.mm; m.mm.popped <= mm'.popped && m.mm.enlisted <= mm'.enlisted
  {
    hide QueueSound, DoAlloc, GetPage, GetVal, SetVal;
    match op {
      case Alloc(rgid, size) => AllocHistory(m, rgid, size);
      case Free(_) =>
      case Read(rgid, offset) =>
        if SymbolOf(m.mm.area, rgid).Some? {
          var addr := Plus(SymbolOf(m.mm.area, rgid).value.start, offset);
          AccessesFault(m, addr, 0);
          GetPageHistory(m, Pgn(addr));
        }
      case Write(rgid, offset, value) =>
        if SymbolOf(m.mm.area, rgid).Some? {
          var addr := Plus(SymbolOf(m.mm.area, rgid).value.start, offset);
          AccessesFault(m, addr, value);
          GetPageHistory(m, Pgn(addr));
        }
    }
  }

  lemma StepHistory(s: Sys, e: Event, p: nat)
    requires SysOk(s) && Enabled(s, e) && p in s.mms && e != Exit(p)
    ensures p in Step(s, e).mms
    ensures var mm, mm' := s.mms[p], Step(s, e).mms[p];
            && mm.popped <= mm'.popped && mm.enlisted <= mm'.enlisted
            && (!(e.Do? && e.pid == p) ==> mm' == mm)
  {
    hide Inv, AreaOk, Perform;
    if e.Do? {
      QueueIsSound(s, e.pid);
      PerformHistory(Focus(s, e.pid), e.op);
    }
  }

  /** First in, first out, over every run: the pages of a process popped so far, followed by those on its
      queue, oldest first, are the pages enlisted so far.  Both records only grow, so the k-th page to
      leave is the k-th that joined, whatever happens meanwhile. */
  lemma {:induction false} ReplacementIsFifo(s: Sys, es: seq<Event>, p: nat)
    requires SysOk(s) && NoSlotZero(s) && Possible(s, es) && p in s.mms && Exit(p) !in es
    ensures p in Run(s, es).mms
    ensures var mm, mm' := s.mms[p], Run(s, es).mms[p];
            && mm.popped <= mm'.popped && mm.enlisted <= mm'.enlisted
            && mm'.popped + Reversed(mm'.fifo) == mm'.enlisted
            && mm'.popped == mm'.enlisted[..|mm'.popped|]
    decreases |es|
  {
    hide SysOk, NoSlotZero, Enabled, Step;
    if es == [] {
      OrderIsKept(s, p);
    } else {
      StepKeeps(s, es[0]);
      StepHistory(s, es[0], p);
      ReplacementIsFifo(Step(s, es[0]), es[1..], p);
    }
  }

  lemma OrderIsKept(s: Sys, p: nat)
    requires SysOk(s) && p in s.mms
    ensures var mm := s.mms[p];
            mm.popped + Reversed(mm.fifo) == mm.enlisted && mm.popped == mm.enlisted[..|mm.popped|]
  {
    hide AreaOk;
    QueueIsSound(s, p);
  }
}
