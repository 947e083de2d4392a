/** Growing an area: alloc_pages_range, vmap_page_range and inc_vma_limit over the whole system. */
module Growth {
  import opened Regions
  import opened Paging

  function ToSet(xs: seq<nat>): set<nat> { set x <- xs }

  lemma ToSetOfSnoc(xs: seq<nat>, x: nat)
    ensures ToSet(xs + [x]) == ToSet(xs) + {x}
  {
  }

  /** The state while alloc_pages_range holds `frames`. */
  function Holding(s: Sys, p: nat, r: Grabbed): Sys {
    Put(s, p, r.m, s.hand + ToSet(r.frames))
  }

  lemma PutAgain(s: Sys, p: nat, m: Machine, hand: set<nat>, m': Machine, hand': set<nat>)
    ensures Put(Put(s, p, m, hand), p, m', hand') == Put(s, p, m', hand')
    ensures Focus(Put(s, p, m, hand), p) == m
  {
  }

  lemma SameBytesChain(s: Sys, t: Sys, u: Sys)
    requires SameBytes(s, t) && SameBytes(t, u)
    ensures SameBytes(s, u)
  {
    hide Bytes;
  }

  /** One more frame for a request that holds some. */
  lemma GrabNext(s: Sys, p: nat, before: Grabbed)
    requires p in s.mms && Inv(Holding(s, p, before))
    ensures var (m', f) := GrabFrame(before.m);
            var r := if f.Some? then Grabbed(m', before.frames + [f.value], true) else Grabbed(m', before.frames, false);
            && Inv(Holding(s, p, r)) && SameBytes(Holding(s, p, before), Holding(s, p, r))
            && |m'.ram.pages| == |before.m.ram.pages|
            && (f.Some? ==> f.value !in s.hand && f.value !in before.frames && f.value < |before.m.ram.pages|)
  {
    hide Inv, GrabFrame, Bytes, SameBytes;
    var s1 := Holding(s, p, before);
    var (m', f) := GrabFrame(before.m);
    PutAgain(s, p, before.m, s1.hand, m', s1.hand);
    GrabKeeps(s1, p);
    if f.Some? {
      PutAgain(s, p, before.m, s1.hand, m', s1.hand + {f.value});
      ToSetOfSnoc(before.frames, f.value);
      assert s.hand + ToSet(before.frames + [f.value]) == s1.hand + {f.value};
      assert forall x <- before.frames :: x in s1.hand;
    }
  }

  /** Frames collected for a request are distinct and were in nobody's hands; collecting them, with
      the evictions this takes, changes no byte of any process, whether or not it succeeds. */
  lemma {:induction false} AllocPagesKeeps(s: Sys, p: nat, n: nat)
    requires Inv(s) && p in s.mms
    ensures var r := AllocPages(Focus(s, p), n);
            && Inv(Holding(s, p, r)) && SameBytes(s, Holding(s, p, r))
            && NoDup(r.frames) && (forall f <- r.frames :: f !in s.hand && f < |s.ram.pages|)
            && |r.m.ram.pages| == |s.ram.pages|
  {
    hide Inv, GrabFrame, Bytes;
    var m := Focus(s, p);
    if n == 0 {
      assert Holding(s, p, AllocPages(m, 0)) == s by {
        assert s.hand + ToSet([]) == s.hand;
      }
    } else {
      AllocPagesKeeps(s, p, n - 1);
      var before := AllocPages(m, n - 1);
      if before.ok {
        hide Holding, SameBytes;
        GrabNext(s, p, before);
        var (m', f) := GrabFrame(before.m);
        assert AllocPages(m, n) == if f.Some? then Grabbed(m', before.frames + [f.value], true) else Grabbed(m', before.frames, false);
        SameBytesChain(s, Holding(s, p, before), Holding(s, p, AllocPages(m, n)));
      }
    }
  }

  lemma {:induction false} AllocPagesMovesOnlyResidentPages(m: Machine, n: nat, g: nat)
    ensures var m' := AllocPages(m, n).m;
            && (!m.mm.At(g).InRam? ==> m'.mm.At(g) == m.mm.At(g))
            && (m'.mm.At(g) != m.mm.At(g) ==> m'.mm.At(g).InSwap?)
            && |m'.mm.table| == |m.mm.table| && m'.mm.area == m.mm.area
  {
    if n > 0 {
      AllocPagesMovesOnlyResidentPages(m, n - 1, g);
      GrabMovesOnlyResidentPages(AllocPages(m, n - 1).m, g);
    }
  }

  lemma {:induction false} AllocPagesKeepsRam(m: Machine, n: nat)
    ensures AllocPages(m, n).m.ram.pages == m.ram.pages
  {
    if n > 0 {
      AllocPagesKeepsRam(m, n - 1);
    }
  }

  lemma {:induction false} MapRangeKeepsRam(m: Machine, g: nat, frames: seq<nat>)
    ensures MapRange(m, g, frames).ram == m.ram
  {
    if frames != [] {
      MapRangeKeepsRam(m, g, frames[..|frames|-1]);
    }
  }

  predicate AbsentFrom(mm: Mm, lo: nat, hi: nat) { forall g :: lo <= g < hi ==> mm.At(g) == Absent }

  /** What mapping `frames` from page g on of process p turns s into. */
  function Mapped(s: Sys, p: nat, g: nat, frames: seq<nat>): Sys
    requires p in s.mms
  {
    Put(s, p, MapRange(Focus(s, p), g, frames), s.hand - ToSet(frames))
  }

  /** The i-th frame becomes page g + i, and nothing else changes. */
  ghost predicate MapsTo(s: Sys, s': Sys, p: nat, g: nat, frames: seq<nat>) {
    && (forall i :: 0 <= i < |frames| ==> s'.At(p, g + i) == InRam(frames[i]))
    && (forall k: nat :: !(g <= k < g + |frames|) ==> s'.At(p, k) == s.At(p, k))
    && (forall q: nat, k: nat :: q != p || !(g <= k < g + |frames|) ==> Bytes(s', q, k) == Bytes(s, q, k))
  }

  lemma {:induction false} MapRangeKeeps(s: Sys, p: nat, g: nat, frames: seq<nat>)
    requires Inv(s) && p in s.mms && g + |frames| <= MAX_PGN && AbsentFrom(s.mms[p], g, g + |frames|)
    requires NoDup(frames) && ToSet(frames) <= s.hand
    ensures var s' := Mapped(s, p, g, frames);
            && Inv(s')
            && MapsTo(s, s', p, g, frames)
            && MapRange(Focus(s, p), g, frames).mm.area == s.mms[p].area
  {
    hide Inv, Bytes;
    if frames == [] {
      assert s.hand - ToSet([]) == s.hand;
      assert Mapped(s, p, g, []) == s;
    } else {
      var last := |frames| - 1;
      var init, f := frames[..last], frames[last];
      assert frames == init + [f];
      ToSetOfSnoc(init, f);
      MapRangeKeeps(s, p, g, init);
      hide MapsTo;
      MapOneMore(s, p, g, init, f);
    }
  }

  lemma MapOneMore(s: Sys, p: nat, g: nat, init: seq<nat>, f: nat)
    requires p in s.mms && g + |init| < MAX_PGN && s.At(p, g + |init|) == Absent
    requires f in s.hand && f !in ToSet(init)
    requires Inv(Mapped(s, p, g, init)) && MapsTo(s, Mapped(s, p, g, init), p, g, init)
    requires MapRange(Focus(s, p), g, init).mm.area == s.mms[p].area
    ensures var frames := init + [f];
            var s' := Mapped(s, p, g, frames);
            && Inv(s') && MapsTo(s, s', p, g, frames)
            && MapRange(Focus(s, p), g, frames).mm.area == s.mms[p].area
  {
    hide Inv, Bytes;
    var frames, last := init + [f], |init|;
    var m1 := MapRange(Focus(s, p), g, init);
    var s1 := Mapped(s, p, g, init);
    assert frames[..last] == init;
    ToSetOfSnoc(init, f);
    assert s1.At(p, g + last) == Absent && f in s1.hand;
    PutAgain(s, p, m1, s1.hand, Map(m1, g + last, f), s1.hand - {f});
    assert s1.hand - {f} == s.hand - ToSet(frames);
    MapKeeps(s1, p, g + last, f);
    MapChangesOneEntry(m1, g + last, f);
    var s' := Mapped(s, p, g, frames);
    assert s' == Put(s1, p, Map(m1, g + last, f), s1.hand - {f});
    hide Map, MapRange, Mapped;
    assert forall k: nat :: k != g + last ==> s'.At(p, k) == s1.At(p, k);
  }

  lemma MapChangesOneEntry(m: Machine, g: nat, f: nat)
    ensures var m' := Map(m, g, f);
            && (forall k: nat :: k != g ==> m'.mm.At(k) == m.mm.At(k)) && m'.mm.area == m.mm.area
  {
  }

  datatype Grown = Grown(m: Machine, dropped: seq<nat>)

  /** vm_map_ram: the frames are lost when not all of them can be had. */
  function MapRam(m: Machine, g: nat, n: nat): Grown {
    var r := AllocPages(m, n);
    if r.ok then Grown(MapRange(r.m, g, r.frames), []) else Grown(r.m, r.frames)
  }

  /** inc_vma_limit.  Its failure test compares an unsigned result with 0, so the limits move even
      when no page was mapped. */
  function IncVmaLimit(m: Machine, incSize: nat): Grown
    requires incSize < Width(Addr32)
  {
    var amount := Align(Addr32, incSize);
    if !Moves(Addr32, m.mm.area, incSize) then Grown(m, [])
    else
      var r := MapRam(m, m.mm.area.vmEnd / PAGE_SIZE, amount / PAGE_SIZE);
      r.(m := r.m.(mm := r.m.mm.(area := Extend(Addr32, m.mm.area, incSize))))
  }

  /** The area of a process in the 32-bit build: the break and the end coincide on a page boundary,
      the regions lie below them, and no page above them has been used. */
  ghost predicate AreaOk(mm: Mm) {
    var a := mm.area;
    && a.sbrk == a.vmEnd && a.vmEnd % PAGE_SIZE == 0 && a.vmEnd <= MAX_PGN * PAGE_SIZE
    && |a.symbols| == MAX_SYMBOLS
    && (forall r <- a.symbols :: r.end <= a.sbrk)
    && (forall r <- a.freeList :: r.end <= a.sbrk)
    && AbsentFrom(mm, a.vmEnd / PAGE_SIZE, MAX_PGN)
  }

  ghost predicate SysOk(s: Sys) { Inv(s) && forall p <- s.mms :: AreaOk(s.mms[p]) }

  /** vm_map_ram keeps every page below the grown range, of every process, and on success gives the
      range distinct frames in order. */
  lemma MapRamKeeps(s: Sys, p: nat, g: nat, n: nat)
    requires Inv(s) && p in s.mms && g + n <= MAX_PGN && AbsentFrom(s.mms[p], g, g + n)
    ensures var r := MapRam(Focus(s, p), g, n);
            var s' := Put(s, p, r.m, s.hand + ToSet(r.dropped));
            var got := AllocPages(Focus(s, p), n);
            && Inv(s')
            && (forall q: nat, k: nat :: q != p || !(g <= k < g + n) ==> Bytes(s', q, k) == Bytes(s, q, k))
            && (forall k: nat :: !(g <= k < g + n) && s.At(p, k) == Absent ==> s'.At(p, k) == Absent)
            && (got.ok ==> r.dropped == [] && NoDup(got.frames) && |got.frames| == n
                           && forall i :: 0 <= i < n ==> s'.At(p, g + i) == InRam(got.frames[i]))
            && (forall f <- got.frames :: f < |s.ram.pages|) && r.m.ram.pages == s.ram.pages
            && (!got.ok ==> SameBytes(s, s') && AbsentFrom(s'.mms[p], g, g + n))
            && r.m.mm.area == s.mms[p].area
  {
    hide Inv, Bytes, AllocPages, MapRange;
    var m := Focus(s, p);
    var got := AllocPages(m, n);
    AllocPagesKeeps(s, p, n);
    AllocPagesKeepsRam(m, n);
    MapRangeKeepsRam(got.m, g, got.frames);
    forall k: nat ensures !m.mm.At(k).InRam? ==> got.m.mm.At(k) == m.mm.At(k) {
      AllocPagesMovesOnlyResidentPages(m, n, k);
    }
    AllocPagesMovesOnlyResidentPages(m, n, 0);
    if got.ok {
      var s1 := Holding(s, p, got);
      MapRangeKeeps(s1, p, g, got.frames);
      assert s1.hand - ToSet(got.frames) == s.hand + ToSet([]);
      assert Put(s1, p, MapRam(m, g, n).m, s.hand + ToSet([])) == Put(s, p, MapRam(m, g, n).m, s.hand + ToSet([]));
    }
  }

  lemma IncVmaLimitKeeps(s: Sys, p: nat, incSize: nat)
    requires SysOk(s) && p in s.mms && incSize % PAGE_SIZE == 0
    requires s.mms[p].area.vmEnd + incSize <= MAX_PGN * PAGE_SIZE
    ensures var r := IncVmaLimit(Focus(s, p), incSize);
            var s' := Put(s, p, r.m, s.hand + ToSet(r.dropped));
            && SysOk(s') && s'.mms[p].area == Extend(Addr32, s.mms[p].area, incSize)
            && (forall q: nat, k: nat :: q != p || k * PAGE_SIZE < s.mms[p].area.vmEnd ==>
                  Bytes(s', q, k) == Bytes(s, q, k))
  {
    hide Inv, Bytes, MapRam;
    var m := Focus(s, p);
    var a := m.mm.area;
    var r := IncVmaLimit(m, incSize);
    var s' := Put(s, p, r.m, s.hand + ToSet(r.dropped));
    assert Align(Addr32, incSize) == incSize;
    if incSize == 0 {
      assert s' == s by { assert s.hand + ToSet([]) == s.hand; }
    } else {
      var g, n := a.vmEnd / PAGE_SIZE, incSize / PAGE_SIZE;
      MapRamKeeps(s, p, g, n);
      var grown := MapRam(m, g, n);
      var s1 := Put(s, p, grown.m, s.hand + ToSet(grown.dropped));
      SameButArea(s1, s', p);
      assert s'.mms[p].area.vmEnd / PAGE_SIZE == g + n;
      forall k: nat | g + n <= k < MAX_PGN ensures s'.mms[p].At(k) == Absent {
        assert s.At(p, k) == Absent && s1.At(p, k) == Absent;
      }
      assert AreaOk(s'.mms[p]);
      forall q: nat, k: nat | q != p || k * PAGE_SIZE < a.vmEnd ensures Bytes(s', q, k) == Bytes(s, q, k) {
        assert Bytes(s', q, k) == Bytes(s1, q, k);
      }
    }
  }

  /** Areas play no part in paging. */
  lemma SameButArea(s: Sys, s': Sys, p: nat)
    requires p in s.mms && p in s'.mms && s' == s.(mms := s.mms[p := s.mms[p].(area := s'.mms[p].area)])
    ensures Inv(s) ==> Inv(s')
    ensures SameEntries(s, s') && SameBytes(s, s')
  {
    assert SameEntries(s, s');
    if Inv(s) {
      SameEntriesKeepHolders(s, s');
    }
  }
}
