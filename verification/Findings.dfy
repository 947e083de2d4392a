/** Where the code does not meet what one would expect of it: exactly when, and on which inputs. */
module Findings {
  import opened Wrappers
  import opened Regions
  import opened Paging
  import opened Growth
  import opened Memory
  import opened Processes
  import Bits

  // ---------------------------------------------------------------- reads outside a region

  /** __read tests a 32-bit sum against the end of the region and nothing against its start.  A read that
      passes stays in its region exactly if the sum does not wrap around. */
  lemma ReadConfinedIff(s: Sys, p: nat, rgid: int, offset: nat)
    requires SysOk(s) && p in s.mms && rgid != MAX_SYMBOLS && offset < Words.WORD
    requires |s.mms[p].area.symbols| == MAX_SYMBOLS && SymbolOf(s.mms[p].area, rgid).Some?
    ensures var r := SymbolOf(s.mms[p].area, rgid).value;
            var addr := Plus(r.start, offset);
            addr < r.end ==> (r.Covers(addr) <==> r.start + offset < Words.WORD)
  {
    hide Inv;
    var r := SymbolOf(s.mms[p].area, rgid).value;
    assert AreaOk(s.mms[p]) && r in s.mms[p].area.symbols;
    assert r.end <= SPACE;
  }

  // ---------------------------------------------------------------- writes outside a region

  /** __write tests nothing.  A store that is served and changes a byte changes one of its own region
      exactly if the low 22 bits of the offset are less than the size of the region. */
  lemma WriteConfinedIff(s: Sys, p: nat, rgid: int, offset: nat, value: bv8)
    requires SysOk(s) && NoSlotZero(s) && p in s.mms && 0 <= rgid < MAX_SYMBOLS && |s.mms[p].area.symbols| == MAX_SYMBOLS
    requires var addr := Plus(s.mms[p].area.symbols[rgid].start, offset);
             !CannotServe(Focus(s, p), Pgn(addr)) && value != ByteAt(s, p, addr % SPACE)
    ensures var r := s.mms[p].area.symbols[rgid];
            var s' := Put(s, p, DoWrite(Focus(s, p), rgid, offset, value).0, s.hand);
            (forall a: nat :: ByteAt(s', p, a) != ByteAt(s, p, a) ==> r.Covers(a)) <==> offset % SPACE < r.Size()
  {
    var r := s.mms[p].area.symbols[rgid];
    var addr := Plus(r.start, offset);
    RegionsEndBelow(s, p, rgid);
    LandsInsideIff(r, offset);
    hide SysOk, Inv, NoSlotZero, ByteAt, Plus, CannotServe, SetVal, Pgn;
    NeverInSlotZero(s, p, Pgn(addr));
    SetValExact(s, p, addr, value);
    var s' := Put(s, p, DoWrite(Focus(s, p), rgid, offset, value).0, s.hand);
    assert ByteAt(s', p, addr % SPACE) == value;
  }

  lemma LandsInsideIff(r: Region, offset: nat)
    requires r.end <= SPACE
    ensures r.Covers(Plus(r.start, offset) % SPACE) <==> offset % SPACE < r.Size()
  {
    var o := offset % SPACE;
    LowBits(r.start + offset);
    DropLap(r.start, offset);
    if r.start < r.end {
      Lap(r.start, o);
    }
  }

  lemma LowBits(x: nat)
    ensures x % Words.WORD % SPACE == x % SPACE
  {
    var q, w := x / Words.WORD, x % Words.WORD;
    Bits.DivMod(x, Words.WORD);
    LowBitsOf(x, q, w);
  }

  lemma LowBitsOf(x: nat, q: nat, w: nat)
    requires x == Words.WORD * q + w
    ensures w % SPACE == x % SPACE
  {
    var a, b := w / SPACE, w % SPACE;
    Bits.DivMod(w, SPACE);
    Bits.DivIs(x, SPACE, 1024 * q + a, b);
  }

  lemma DropLap(start: nat, offset: nat)
    ensures (start + offset) % SPACE == (start + offset % SPACE) % SPACE
  {
    assert start + offset == offset / SPACE * SPACE + (start + offset % SPACE);
  }

  lemma Lap(start: nat, o: nat)
    requires start < SPACE && o < SPACE
    ensures (start + o) % SPACE == if start + o < SPACE then start + o else start + o - SPACE
  {
  }

  /** A store that is served keeps the area as growth expects it, with nothing mapped above its end,
      exactly if the low 22 bits of its address lie below that end. */
  lemma StoreKeepsAreaIff(s: Sys, p: nat, addr: nat, value: bv8)
    requires SysOk(s) && NoSlotZero(s) && p in s.mms && !CannotServe(Focus(s, p), Pgn(addr))
    ensures SysOk(Put(s, p, SetVal(Focus(s, p), addr, value).0, s.hand)) <==> addr % SPACE < s.mms[p].area.vmEnd
  {
    hide Inv, SetVal, GetPage, CannotServe, Pgn;
    var m := Focus(s, p);
    var mm' := SetVal(m, addr, value).0.mm;
    NeverInSlotZero(s, p, Pgn(addr));
    SetValExact(s, p, addr, value);
    AccessesFault(m, addr, value);
    GetPageTouchesOnePage(m, Pgn(addr), 0);
    AddressSplit(addr);
    if addr % SPACE < s.mms[p].area.vmEnd {
      AccessKeepsArea(m, addr);
    } else {
      GetPageKeeps(s, p, Pgn(addr));
      GetPageFailsIff(s, p, Pgn(addr));
      assert mm'.At(Pgn(addr)).InRam?;
      assert !AreaOk(mm');
    }
  }

  // ---------------------------------------------------------------- widths

  /** The element of the symbol table an instruction goes for, after the test its entry point makes:
      none for __alloc, and one that lets 30 pass for the other three. */
  function Indexed(op: Op): Option<int> {
    if op.Alloc? || 0 <= op.rgid <= MAX_SYMBOLS then Some(op.rgid) else None
  }

  /** An instruction reaches outside the table exactly if it is an __alloc with any number that names no
      element, or one of the others with 30; Legal excludes just these symbol numbers. */
  lemma OutsideTableIff(mm: Mm, op: Op)
    ensures Indexed(op).Some? && !(0 <= Indexed(op).value < MAX_SYMBOLS)
            <==> if op.Alloc? then op.rgid < 0 || op.rgid >= MAX_SYMBOLS else op.rgid == MAX_SYMBOLS
    ensures Legal(mm, op) ==> Indexed(op).None? || 0 <= Indexed(op).value < MAX_SYMBOLS
    ensures (op.Free? || op.Read?) && |mm.area.symbols| == MAX_SYMBOLS ==>
              (Legal(mm, op) <==> Indexed(op).None? || 0 <= Indexed(op).value < MAX_SYMBOLS)
  {
  }

  /** __alloc leaves an area that later growth can rely on exactly if a node passes the fit test, the
      grown area still ends at or below 2^22, or the limits stay and the sum of break and size wraps. */
  lemma AllocKeepsAreaIff(s: Sys, p: nat, rgid: nat, size: nat)
    requires SysOk(s) && p in s.mms && rgid < MAX_SYMBOLS && |s.mms[p].area.symbols| == MAX_SYMBOLS && size < Width(Addr32)
    ensures AreaOk(DoAlloc(Focus(s, p), rgid, size).m.mm) <==> Legal(s.mms[p], Alloc(rgid, size))
  {
    if Legal(s.mms[p], Alloc(rgid, size)) {
      hide Legal, Inv, AreaOk, DoAlloc;
      AllocKeeps(s, p, rgid, size);
      assert AreaOk(After(s, p, Alloc(rgid, size)).mms[p]);
    } else {
      AllocTooFar(s.mms[p], Focus(s, p), rgid, size);
    }
  }

  lemma AllocTooFar(mm: Mm, m: Machine, rgid: nat, size: nat)
    requires m.mm == mm && AreaOk(mm) && rgid < MAX_SYMBOLS && size < Width(Addr32) && !Legal(mm, Alloc(rgid, size))
    ensures !AreaOk(DoAlloc(m, rgid, size).m.mm)
  {
    hide FitIndex, AlignUp, IncVmaLimit, AbsentFrom;
    var a := DoAlloc(m, rgid, size).m.mm.area;
    assert a.symbols[rgid] in a.symbols;
  }

  // ---------------------------------------------------------------- inputs

  /** A process that starts on `frames` frames and `slots` swap slots, all storage zero; of the slots those
      in `pooled` are free. */
  function Fresh(frames: nat, slots: nat, pooled: seq<nat>): Machine {
    Machine(Device(seq(frames, _ => ZeroPage()), Range(0, frames)), Device(seq(slots, _ => ZeroPage()), pooled), InitMm())
  }

  /** __alloc of one page into the symbol: on success, and when no frame is to be had. */
  lemma GrowByOnePage(m: Machine, rgid: nat)
    requires rgid < |m.mm.area.symbols| && m.mm.area.freeList == [EMPTY] && m.mm.area.sbrk == m.mm.area.vmEnd <= SPACE
    ensures var (m', f) := GrabFrame(m);
            var a := m.mm.area;
            DoAlloc(m, rgid, PAGE_SIZE).m ==
              var grown := if f.Some? then Map(m', a.vmEnd / PAGE_SIZE, f.value) else m';
              grown.(mm := grown.mm.(area := Area(a.symbols[rgid := Region(a.sbrk, a.sbrk + PAGE_SIZE)], [EMPTY],
                                                  a.sbrk + PAGE_SIZE, a.vmEnd + PAGE_SIZE)))
  {
    var (m', f) := GrabFrame(m);
    hide GrabFrame, Map;
    assert FitIndex(Addr32, [EMPTY], PAGE_SIZE) == 1;
    assert Align(Addr32, PAGE_SIZE) == PAGE_SIZE;
    assert AllocPages(m, 0) == Grabbed(m, [], true);
    var g := m.mm.area.vmEnd / PAGE_SIZE;
    if f.Some? {
      assert AllocPages(m, 1) == Grabbed(m', [f.value], true);
      assert [f.value][..0] == [];
      assert MapRange(m', g, []) == m';
      assert MapRange(m', g, [f.value]) == Map(m', g, f.value);
      assert MapRam(m, g, 1) == Grown(Map(m', g, f.value), []);
    } else {
      assert AllocPages(m, 1) == Grabbed(m', [], false);
      assert MapRam(m, g, 1) == Grown(m', []);
    }
  }

  /** A page of zeros but for its first byte */
  function Byte(value: bv8): (page: Page)
    ensures |page| == PAGE_SIZE && (value == 0 ==> page == ZeroPage())
  {
    ZeroPage()[0 := value]
  }

  /** The area once the first page is the region of symbol 0, and once the second is that of symbol 1. */
  function OneArea(): (a: Area)
    ensures |a.symbols| == MAX_SYMBOLS
  {
    Area(Initial().area.symbols[0 := Region(0, PAGE_SIZE)], [EMPTY], PAGE_SIZE, PAGE_SIZE)
  }

  function TwoArea(): (a: Area)
    ensures |a.symbols| == MAX_SYMBOLS && a.symbols[0] == Region(0, PAGE_SIZE) && a.symbols[1] == Region(PAGE_SIZE, 2 * PAGE_SIZE)
  {
    Area(OneArea().symbols[1 := Region(PAGE_SIZE, 2 * PAGE_SIZE)], [EMPTY], 2 * PAGE_SIZE, 2 * PAGE_SIZE)
  }

  function Table(first: Entry, second: Entry): (table: seq<Entry>)
    ensures |table| == MAX_PGN && table[0] == first && table[1] == second
    ensures forall g :: 2 <= g < MAX_PGN ==> table[g] == Absent
  {
    InitMm().table[0 := first][1 := second]
  }

  /** The first page allocated, in frame 0, with a byte in it. */
  function OnePage(frames: nat, slots: nat, pooled: seq<nat>, value: bv8): (m: Machine)
    requires frames > 0
    ensures m.mm.area == OneArea()
  {
    var m0 := Fresh(frames, slots, pooled);
    Machine(Device(m0.ram.pages[0 := Byte(value)], m0.ram.free[1..]), m0.swp,
            Mm(Table(InRam(0), Absent), [0], OneArea(), [0], []))
  }

  lemma FirstPage(frames: nat, slots: nat, pooled: seq<nat>)
    requires frames > 0
    ensures DoAlloc(Fresh(frames, slots, pooled), 0, PAGE_SIZE).m == OnePage(frames, slots, pooled, 0)
  {
    hide DoAlloc, Fresh, Table;
    var m := Fresh(frames, slots, pooled);
    FreshIs(frames, slots, pooled);
    GrowByOnePage(m, 0);
    assert m.ram.pages[0 := Byte(0)] == m.ram.pages;
    assert GrabFrame(m) == (m.(ram := m.ram.Pop()), Some(0));
    assert Initial().area.symbols[0 := Region(0, PAGE_SIZE)] == OneArea().symbols;
    OnePageIs(m, frames, slots, pooled);
  }

  lemma FreshIs(frames: nat, slots: nat, pooled: seq<nat>)
    requires frames > 0
    ensures var m := Fresh(frames, slots, pooled);
            && |m.ram.pages| == frames && m.ram.pages[0] == ZeroPage() && m.ram.free != [] && m.ram.free[0] == 0
            && m.mm == InitMm() && InitMm().table[0 := InRam(0)] == Table(InRam(0), Absent)
  {
    var first := InitMm().table[0 := InRam(0)];
    assert first[1 := Absent] == first;
  }

  lemma OnePageIs(m: Machine, frames: nat, slots: nat, pooled: seq<nat>)
    requires frames > 0 && m == Fresh(frames, slots, pooled) && m.ram.pages[0 := Byte(0)] == m.ram.pages
    ensures OnePage(frames, slots, pooled, 0)
         == Machine(m.ram.Pop(), m.swp, Mm(Table(InRam(0), Absent), [0], OneArea(), [0], []))
  {
  }

  /** An access to an address on a page that is resident. */
  lemma ResidentAccess(m: Machine, rgid: nat, offset: nat, f: nat, value: bv8)
    requires |m.mm.area.symbols| == MAX_SYMBOLS && rgid < MAX_SYMBOLS && |m.mm.table| == MAX_PGN
    requires var addr := Plus(m.mm.area.symbols[rgid].start, offset);
             && m.mm.At(Pgn(addr)) == InRam(f) && Offst(addr) == 0
             && f < |m.ram.pages| && |m.ram.pages[f]| == PAGE_SIZE
    ensures DoWrite(m, rgid, offset, value) == (m.(ram := m.ram.With(f, m.ram.pages[f][0 := value])), true)
    ensures Plus(m.mm.area.symbols[rgid].start, offset) < m.mm.area.symbols[rgid].end
            ==> DoRead(m, rgid, offset).1 == Some(m.ram.pages[f][0])
  {
    hide Plus, Pgn, Offst;
  }

  lemma Places()
    ensures Pgn(0) == 0 && Offst(0) == 0 && Pgn(PAGE_SIZE) == 1 && Offst(PAGE_SIZE) == 0
    ensures Plus(0, 0) == 0 && Plus(0, PAGE_SIZE) == PAGE_SIZE && Plus(PAGE_SIZE, 0) == PAGE_SIZE
    ensures Plus(PAGE_SIZE, 0xFFFF_FF00) == 0
  {
    assert PAGE_SIZE / PAGE_SIZE == 1 && PAGE_SIZE / 1 % PAGE_SIZE == 0;
  }

  lemma TableChanges(a: Entry, b: Entry, c: Entry)
    ensures Table(a, b)[0 := c] == Table(c, b) && Table(a, b)[1 := c] == Table(a, c)
  {
  }

  /** The second page allocated with frame f, or not at all. */
  lemma SecondPage(m: Machine, m': Machine, f: Option<nat>)
    requires m.mm.area == OneArea() && GrabFrame(m) == (m', f) && |m'.mm.table| == MAX_PGN
    ensures DoAlloc(m, 1, PAGE_SIZE).m
         == Machine(m'.ram, m'.swp,
                    if f.Some? then
                      Mm(m'.mm.table[1 := InRam(f.value)], [1] + m'.mm.fifo, TwoArea(), m'.mm.enlisted + [1], m'.mm.popped)
                    else m'.mm.(area := TwoArea()))
  {
    GrowByOnePage(m, 1);
    hide DoAlloc, GrabFrame;
  }

  lemma FirstByte(frames: nat, slots: nat, pooled: seq<nat>, value: bv8)
    requires frames > 0
    ensures DoWrite(OnePage(frames, slots, pooled, 0), 0, 0, value) == (OnePage(frames, slots, pooled, value), true)
    ensures DoRead(OnePage(frames, slots, pooled, value), 0, 0).1 == Some(value)
  {
    Places();
    hide DoWrite, DoRead, Pgn, Offst, Plus;
    ResidentAccess(OnePage(frames, slots, pooled, 0), 0, 0, 0, value);
    ResidentAccess(OnePage(frames, slots, pooled, value), 0, 0, 0, value);
    assert Byte(0)[0 := value] == Byte(value);
    var pages := Fresh(frames, slots, pooled).ram.pages;
    assert pages[0 := Byte(0)][0 := Byte(value)] == pages[0 := Byte(value)];
  }

  // ---------------------------------------------------------------- runs

  /** Two regions of a page each, in frames 0 and 1, with 7 in the first byte of the first one. */
  function TwoRegions(): Machine {
    Machine(Device([Byte(7), ZeroPage()], []), Device([ZeroPage()], []),
            Mm(Table(InRam(0), InRam(1)), [1, 0], TwoArea(), [0, 1], []))
  }

  lemma SecondRegion()
    ensures DoAlloc(OnePage(2, 1, [], 7), 1, PAGE_SIZE).m == TwoRegions()
  {
    var m := OnePage(2, 1, [], 7);
    OnePageOfTwo();
    hide DoAlloc, Table, TwoArea, OnePage, Fresh;
    TableChanges(InRam(0), Absent, InRam(1));
    var m' := m.(ram := m.ram.Pop());
    assert m'.ram == Device([Byte(7), ZeroPage()], []);
    SecondPage(m, m', Some(1));
  }

  lemma OnePageOfTwo()
    ensures OnePage(2, 1, [], 7) == Machine(Device([Byte(7), ZeroPage()], [1]), Device([ZeroPage()], []),
                                            Mm(Table(InRam(0), Absent), [0], OneArea(), [0], []))
  {
    var m := OnePage(2, 1, [], 7);
    assert m.ram.pages == [Byte(7), ZeroPage()] && m.ram.free == [1] && m.swp.pages == [ZeroPage()];
  }

  /** Reading the second region with an offset that wraps around returns a byte of the first. */
  lemma ReadWrapsAround()
    ensures DoAlloc(Fresh(2, 1, []), 0, PAGE_SIZE).m == OnePage(2, 1, [], 0)
    ensures DoWrite(OnePage(2, 1, [], 0), 0, 0, 7).0 == OnePage(2, 1, [], 7)
    ensures DoAlloc(OnePage(2, 1, [], 7), 1, PAGE_SIZE).m == TwoRegions()
    ensures DoRead(TwoRegions(), 1, 0xFFFF_FF00).1 == Some(7)
    ensures !TwoArea().symbols[1].Covers(Plus(TwoArea().symbols[1].start, 0xFFFF_FF00))
  {
    hide *;
    FirstPage(2, 1, []);
    FirstByte(2, 1, [], 7);
    SecondRegion();
    ReadWraps();
  }

  lemma ReadWraps()
    ensures DoRead(TwoRegions(), 1, 0xFFFF_FF00).1 == Some(7)
    ensures !TwoArea().symbols[1].Covers(Plus(TwoArea().symbols[1].start, 0xFFFF_FF00))
  {
    Places();
    hide DoRead, Plus, Pgn, Offst;
    ResidentAccess(TwoRegions(), 1, 0xFFFF_FF00, 0, 0);
  }

  /** Writing the first region past its end overwrites the second.  TwoRegions is reached as in
      ReadWrapsAround. */
  lemma WriteHitsNeighbour()
    ensures DoAlloc(OnePage(2, 1, [], 7), 1, PAGE_SIZE).m == TwoRegions()
    ensures DoRead(TwoRegions(), 1, 0).1 == Some(0)
    ensures DoRead(DoWrite(TwoRegions(), 0, PAGE_SIZE, 9).0, 1, 0).1 == Some(9)
  {
    hide *;
    SecondRegion();
    WriteOverwrites();
  }

  lemma WriteOverwrites()
    ensures DoRead(TwoRegions(), 1, 0).1 == Some(0)
    ensures DoRead(DoWrite(TwoRegions(), 0, PAGE_SIZE, 9).0, 1, 0).1 == Some(9)
  {
    var m := TwoRegions();
    Places();
    ResidentAccess(m, 1, 0, 1, 9);
    ResidentAccess(m, 0, PAGE_SIZE, 1, 9);
    var m' := DoWrite(m, 0, PAGE_SIZE, 9).0;
    hide DoWrite, DoRead, Plus, Pgn, Offst;
    ResidentAccess(m', 1, 0, 1, 9);
  }

  /** The second page mapped by a store past the end of the first region, which is all of the area. */
  function PastTheEnd(): Machine {
    Machine(Device([ZeroPage(), Byte(7), ZeroPage()], [2]), Device([ZeroPage()], []),
            Mm(Table(InRam(0), InRam(1)), [1, 0], OneArea(), [0, 1], []))
  }

  function Remapped(): Machine {
    Machine(Device([ZeroPage(), Byte(7), ZeroPage()], []), Device([ZeroPage()], []),
            Mm(Table(InRam(0), InRam(2)), [1, 1, 0], TwoArea(), [0, 1, 1], []))
  }

  lemma StoreOnFreshPage()
    ensures DoWrite(OnePage(3, 1, [], 0), 0, PAGE_SIZE, 7).0 == PastTheEnd()
  {
    var m := OnePage(3, 1, [], 0);
    Places();
    var m1 := m.(ram := Device(m.ram.pages, [2]));
    assert m.ram == Device([ZeroPage(), ZeroPage(), ZeroPage()], [1, 2]);
    assert m.ram.Pop() == m1.ram;
    assert GrabFrame(m) == (m1, Some(1));
    var m2 := PastTheEnd().(ram := m1.ram);
    assert m1.mm.table[1 := InRam(1)] == Table(InRam(0), InRam(1));
    assert Fill(m1, 1, 1) == m2;
    hide Fill, GrabFrame, Pgn, Offst, Plus;
    assert GetPage(m, 1) == (m2, Some(1));
    assert SetVal(m, PAGE_SIZE, 7).0 == PastTheEnd();
  }

  /** A store past the end of the area maps a page there; growth maps it again, and the frame it had, with
      the byte stored in it, belongs to nobody any more. */
  lemma RemappingLosesAFrame()
    ensures DoAlloc(Fresh(3, 1, []), 0, PAGE_SIZE).m == OnePage(3, 1, [], 0)
    ensures DoWrite(OnePage(3, 1, [], 0), 0, PAGE_SIZE, 7).0 == PastTheEnd()
    ensures DoAlloc(PastTheEnd(), 1, PAGE_SIZE).m == Remapped()
    ensures 1 !in Remapped().ram.free && forall g: nat :: Remapped().mm.At(g) != InRam(1)
    ensures DoRead(Remapped(), 1, 0).1 == Some(0)
  {
    assert forall g: nat :: Remapped().mm.At(g) != InRam(1);
    hide *;
    FirstPage(3, 1, []);
    StoreOnFreshPage();
    Remap();
    ReadRemapped();
  }

  lemma Remap()
    ensures DoAlloc(PastTheEnd(), 1, PAGE_SIZE).m == Remapped()
  {
    hide DoAlloc, Table, TwoArea;
    TableChanges(InRam(0), InRam(1), InRam(2));
    SecondPage(PastTheEnd(), PastTheEnd().(ram := PastTheEnd().ram.Pop()), Some(2));
  }

  lemma ReadRemapped()
    ensures DoRead(Remapped(), 1, 0).1 == Some(0)
  {
    Places();
    hide DoRead, Plus, Pgn, Offst;
    ResidentAccess(Remapped(), 1, 0, 2, 0);
  }

  /** A request for two pages with one frame and a free slot: a page that is not mapped yet cannot be
      moved out, so the limits move over pages that are not mapped, and the frame is dropped. */
  lemma FailedGrowthLosesAFrame()
    ensures var r := DoAlloc(Fresh(1, 2, [1]), 0, 2 * PAGE_SIZE);
            && r.m.mm.area.vmEnd == r.m.mm.area.sbrk == 2 * PAGE_SIZE
            && r.dropped == [0] && r.m.ram.free == [] && (forall g: nat :: r.m.mm.At(g) == Absent)
  {
    var m := Fresh(1, 2, [1]);
    assert FitIndex(Addr32, [EMPTY], 2 * PAGE_SIZE) == 1;
    assert Align(Addr32, 2 * PAGE_SIZE) == 2 * PAGE_SIZE;
    var m1 := m.(ram := m.ram.Pop());
    assert AllocPages(m, 0) == Grabbed(m, [], true);
    assert AllocPages(m, 1) == Grabbed(m1, [0], true);
    assert AllocPages(m, 2) == Grabbed(m1, [0], false);
    assert MapRam(m, 0, 2) == Grown(m1, [0]);
  }

  /** One frame: the second page took it over, the first one went to the slot. */
  function Moved(pooled: seq<nat>, slots: seq<Page>, slot: nat, value: bv8): (m: Machine)
    ensures m.mm.area == TwoArea()
  {
    Machine(Device([Byte(value)], []), Device(slots, pooled), Mm(Table(InSwap(slot), InRam(0)), [1], TwoArea(), [0, 1], [0]))
  }

  lemma SecondPageEvicts(pooled: seq<nat>, value: bv8)
    requires pooled != [] && pooled[0] < 2
    ensures DoAlloc(OnePage(1, 2, pooled, value), 1, PAGE_SIZE).m
         == Moved(pooled[1..], [ZeroPage(), ZeroPage()][pooled[0] := Byte(value)], pooled[0], value)
  {
    var m := OnePage(1, 2, pooled, value);
    hide DoAlloc, TwoArea, Table;
    assert m.ram == Device([Byte(value)], []) && m.swp == Device([ZeroPage(), ZeroPage()], pooled);
    TableChanges(InRam(0), Absent, InSwap(pooled[0]));
    TableChanges(InSwap(pooled[0]), Absent, InRam(0));
    var m' := Machine(m.ram, Device(m.swp.pages[pooled[0] := Byte(value)], pooled[1..]),
                      Mm(Table(InSwap(pooled[0]), Absent), [], OneArea(), [0], [0]));
    assert [0][..0] == [] && [] + [0] == [0];
    assert Unlink(m.mm) == Mm(m.mm.table, [], OneArea(), [0], [0]);
    assert GrabFrame(m) == (m', Some(0));
    SecondPage(m, m', Some(0));
  }

  function ThreeArea(): (a: Area)
    ensures |a.symbols| == MAX_SYMBOLS && a.symbols[2] == Region(2 * PAGE_SIZE, 3 * PAGE_SIZE)
  {
    Area(TwoArea().symbols[2 := Region(2 * PAGE_SIZE, 3 * PAGE_SIZE)], [EMPTY], 3 * PAGE_SIZE, 3 * PAGE_SIZE)
  }

  /** Three regions on one frame and one pooled slot: the third page could not be mapped, and the page it
      should have taken the place of is off the queue. */
  function Unmapped(): (m: Machine)
    ensures m.mm.area == ThreeArea()
  {
    Machine(Device([Byte(0)], []), Device([ZeroPage(), Byte(0)], []),
            Mm(Table(InSwap(1), InRam(0)), [], ThreeArea(), [0, 1], [0, 1]))
  }

  lemma ThirdRegionFails()
    ensures DoAlloc(Moved([], [ZeroPage(), Byte(0)], 1, 0), 2, PAGE_SIZE).m == Unmapped()
  {
    var m := Moved([], [ZeroPage(), Byte(0)], 1, 0);
    GrowByOnePage(m, 2);
    hide DoAlloc, Table, TwoArea;
    assert [1][..0] == [] && [0] + [1] == [0, 1];
    assert Unlink(m.mm) == Mm(Table(InSwap(1), InRam(0)), [], TwoArea(), [0, 1], [0, 1]);
    assert GrabFrame(m) == (m.(mm := Unlink(m.mm)), None);
  }

  lemma WriteUnmapped()
    ensures DoWrite(Unmapped(), 2, 0, 7) == (Unmapped(), true)
    ensures DoRead(Unmapped(), 2, 0).1 == None
  {
    assert Plus(2 * PAGE_SIZE, 0) == 2 * PAGE_SIZE && Pgn(2 * PAGE_SIZE) == 2;
    hide Plus, Pgn, Offst, Table;
    assert GetPage(Unmapped(), 2) == (Unmapped(), None);
  }

  /** With one frame and one slot a third allocation finds no storage and moves the limits all the same; a
      write to its region reports success and stores nothing. */
  lemma WriteReportsSuccess()
    ensures DoAlloc(Fresh(1, 2, [1]), 0, PAGE_SIZE).m == OnePage(1, 2, [1], 0)
    ensures DoAlloc(OnePage(1, 2, [1], 0), 1, PAGE_SIZE).m == Moved([], [ZeroPage(), Byte(0)], 1, 0)
    ensures DoAlloc(Moved([], [ZeroPage(), Byte(0)], 1, 0), 2, PAGE_SIZE).m == Unmapped()
    ensures DoWrite(Unmapped(), 2, 0, 7) == (Unmapped(), true)
    ensures DoRead(Unmapped(), 2, 0).1 == None
  {
    assert [1][1..] == [] && [ZeroPage(), ZeroPage()][1 := Byte(0)] == [ZeroPage(), Byte(0)];
    hide *;
    FirstPage(1, 2, [1]);
    SecondPageEvicts([1], 0);
    ThirdRegionFails();
    WriteUnmapped();
  }

  /** With slot 0 withheld, the second region starts with what was written to the first. */
  lemma GrownPageIsNotZero()
    ensures DoAlloc(Fresh(1, 2, [1]), 0, PAGE_SIZE).m == OnePage(1, 2, [1], 0)
    ensures DoWrite(OnePage(1, 2, [1], 0), 0, 0, 7).0 == OnePage(1, 2, [1], 7)
    ensures DoRead(DoAlloc(OnePage(1, 2, [1], 7), 1, PAGE_SIZE).m, 1, 0).1 == Some(7)
  {
    hide DoAlloc, DoWrite, DoRead, Plus, Pgn, Offst, OnePage, Fresh;
    FirstPage(1, 2, [1]);
    FirstByte(1, 2, [1], 7);
    SecondPageEvicts([1], 7);
    Places();
    ResidentAccess(DoAlloc(OnePage(1, 2, [1], 7), 1, PAGE_SIZE).m, 1, 0, 0, 0);
  }

  /** With slot 0 in the pool, as MEMPHY_format leaves it, the first page goes there and its byte is lost:
      reading it gives 7 before and 0 afterwards. */
  lemma SlotZeroLosesAByte()
    ensures DoAlloc(Fresh(1, 2, [0, 1]), 0, PAGE_SIZE).m == OnePage(1, 2, [0, 1], 0)
    ensures DoWrite(OnePage(1, 2, [0, 1], 0), 0, 0, 7).0 == OnePage(1, 2, [0, 1], 7)
    ensures DoRead(OnePage(1, 2, [0, 1], 7), 0, 0).1 == Some(7)
    ensures DoRead(DoAlloc(OnePage(1, 2, [0, 1], 7), 1, PAGE_SIZE).m, 0, 0).1 == Some(0)
  {
    FirstPage(1, 2, [0, 1]);
    FirstByte(1, 2, [0, 1], 7);
    SecondPageEvicts([0, 1], 7);
    hide DoAlloc, DoWrite, DoRead;
    ReadFromSlotZero(DoAlloc(OnePage(1, 2, [0, 1], 7), 1, PAGE_SIZE).m);
  }

  lemma ReadFromSlotZero(m: Machine)
    requires |m.ram.pages| == 1 && m.ram.free == [] && m.swp.free == [1] && |m.swp.pages| == 2
    requires |m.mm.table| == MAX_PGN && m.mm.At(0) == InSwap(0) && m.mm.At(1) == InRam(0) && m.mm.fifo == [1]
    requires |m.mm.area.symbols| == MAX_SYMBOLS && m.mm.area.symbols[0] == Region(0, PAGE_SIZE)
    ensures DoRead(m, 0, 0).1 == Some(0)
  {
    var (m1, f) := GrabFrame(m);
    assert f == Some(0) && m1.mm.At(0) == InSwap(0) && |m1.ram.pages| == 1;
    var m2 := Fill(m1, 0, 0);
    assert m2.ram.pages[0] == ZeroPage();
    assert GetPage(m, 0) == (m2, Some(0));
  }

  // ---------------------------------------------------------------- regions

  /** Two regions of a page, the second one released; then an allocation whose fit test wraps around. */
  function Wrapping(): (rs: seq<Request>)
    ensures |rs| == 5
  {
    [Take(0, 256), Take(1, 256), Give(1), Take(2, 0xFFFF_FF10), Take(3, 100)]
  }

  function Symbols(a: Region, b: Region, c: Region, d: Region): (symbols: seq<Region>)
    ensures |symbols| == MAX_SYMBOLS && symbols[0] == a && symbols[1] == b && symbols[2] == c && symbols[3] == d
  {
    seq(MAX_SYMBOLS, i => if i == 0 then a else if i == 1 then b else if i == 2 then c else if i == 3 then d else EMPTY)
  }

  lemma SymbolsChange(a: Region, b: Region, c: Region, d: Region, e: Region)
    ensures Symbols(a, b, c, d)[0 := e] == Symbols(e, b, c, d) && Symbols(a, b, c, d)[1 := e] == Symbols(a, e, c, d)
    ensures Symbols(a, b, c, d)[2 := e] == Symbols(a, b, e, d) && Symbols(a, b, c, d)[3 := e] == Symbols(a, b, c, e)
  {
  }

  /** The areas this run goes through in the 32-bit build. */
  function AreaAfter(n: nat): Area {
    var r0, r1 := Region(0, 256), Region(256, 512);
    match n
    case 0 => Initial().area
    case 1 => Area(Symbols(r0, EMPTY, EMPTY, EMPTY), [EMPTY], 256, 256)
    case 2 => Area(Symbols(r0, r1, EMPTY, EMPTY), [EMPTY], 512, 512)
    case 3 => Area(Symbols(r0, EMPTY, EMPTY, EMPTY), [r1, EMPTY], 512, 512)
    case 4 => Area(Symbols(r0, EMPTY, Region(256, 16), EMPTY), [Region(16, 512), EMPTY], 512, 512)
    case _ => Area(Symbols(r0, EMPTY, Region(256, 16), Region(16, 116)), [Region(116, 512), EMPTY], 512, 512)
  }

  lemma AreaGoesOn(h: History, n: nat)
    requires n < 5 && h.area == AreaAfter(n)
    ensures |h.area.symbols| == MAX_SYMBOLS && Typed(Addr32, Wrapping()[n]) && Serve(h, Addr32, Wrapping()[n]).area == AreaAfter(n + 1)
  {
    hide Serve;
    if n < 2 {
      TakesPage(h, n);
    } else if n == 2 {
      GivesPage(h);
    } else {
      TakesFirst(h, n);
    }
  }

  lemma TakesPage(h: History, n: nat)
    requires n < 2 && h.area == AreaAfter(n)
    ensures |h.area.symbols| == MAX_SYMBOLS && Serve(h, Addr32, Wrapping()[n]).area == AreaAfter(n + 1)
  {
    assert Initial().area.symbols == Symbols(EMPTY, EMPTY, EMPTY, EMPTY);
    hide Allocate, Symbols;
    SymbolsChange(EMPTY, EMPTY, EMPTY, EMPTY, Region(0, 256));
    SymbolsChange(Region(0, 256), EMPTY, EMPTY, EMPTY, Region(256, 512));
    ExtendsByPage(AreaAfter(n), n);
  }

  lemma GivesPage(h: History)
    requires h.area == AreaAfter(2)
    ensures Serve(h, Addr32, Wrapping()[2]).area == AreaAfter(3)
  {
    hide Allocate, Symbols;
    SymbolsChange(Region(0, 256), Region(256, 512), EMPTY, EMPTY, EMPTY);
  }

  lemma TakesFirst(h: History, n: nat)
    requires 3 <= n < 5 && h.area == AreaAfter(n)
    ensures |h.area.symbols| == MAX_SYMBOLS && Typed(Addr32, Wrapping()[n]) && Serve(h, Addr32, Wrapping()[n]).area == AreaAfter(n + 1)
  {
    var r0, w := Region(0, 256), Region(256, 16);
    assert FitEnd(Addr32, 256, 0xFFFF_FF10) == 16 && FitEnd(Addr32, 16, 100) == 116;
    hide Allocate, Symbols, FitEnd;
    SymbolsChange(r0, EMPTY, EMPTY, EMPTY, w);
    SymbolsChange(r0, EMPTY, w, EMPTY, Region(16, 116));
    if n == 3 {
      CutsFirst(AreaAfter(3), 2, 0xFFFF_FF10);
    } else {
      CutsFirst(AreaAfter(4), 3, 100);
    }
  }

  lemma ExtendsByPage(a: Area, rgid: nat)
    requires rgid < |a.symbols| && a.freeList == [EMPTY] && a.sbrk == a.vmEnd <= 256
    ensures Allocate(Addr32, a, rgid, 256)
         == Area(a.symbols[rgid := Region(a.sbrk, a.sbrk + 256)], [EMPTY], a.sbrk + 256, a.vmEnd + 256)
  {
    assert FitIndex(Addr32, [EMPTY], 256) == 1;
    assert Align(Addr32, 256) == 256;
  }

  lemma CutsFirst(a: Area, rgid: nat, size: nat)
    requires rgid < |a.symbols| && |a.freeList| == 2 && size < Width(Addr32)
    requires FitEnd(Addr32, a.freeList[0].start, size) < a.freeList[0].end
    ensures var end := FitEnd(Addr32, a.freeList[0].start, size);
            && Allocate(Addr32, a, rgid, size)
               == Area(a.symbols[rgid := Region(a.freeList[0].start, end)], [Region(end, a.freeList[0].end), a.freeList[1]],
                       a.sbrk, a.vmEnd)
  {
  }

  lemma AreaReached(n: nat)
    requires n < 5 && (forall r <- Wrapping()[..n] :: Typed(Addr32, r))
    requires ServeAll(Addr32, Wrapping()[..n]).area == AreaAfter(n)
    ensures (forall r <- Wrapping()[..n + 1] :: Typed(Addr32, r)) && ServeAll(Addr32, Wrapping()[..n + 1]).area == AreaAfter(n + 1)
  {
    var rs := Wrapping()[..n + 1];
    assert rs[..n] == Wrapping()[..n] && rs[n] == Wrapping()[n];
    hide Serve, AreaAfter, Wrapping, Typed;
    AreaGoesOn(ServeAll(Addr32, Wrapping()[..n]), n);
  }

  lemma SharedByte()
    ensures AreaAfter(5).symbols[0].Covers(16) && AreaAfter(5).symbols[3].Covers(16)
  {
    hide Symbols;
  }

  lemma WrappingStarts()
    ensures Wrapping()[..0] == [] && Wrapping()[..5] == Wrapping()
    ensures ServeAll(Addr32, Wrapping()[..0]).area == AreaAfter(0)
  {
    hide Symbols;
  }

  /** The fit test of the fourth request wraps around, and then two live regions share a byte. */
  lemma FitWrapsAround()
    ensures forall r <- Wrapping() :: Typed(Addr32, r)
    ensures var a := ServeAll(Addr32, Wrapping()).area;
            a.symbols[0].Covers(16) && a.symbols[3].Covers(16)
    ensures !NoOverflow(Addr32, ServeAll(Addr32, Wrapping()[..3]).area, Wrapping()[3])
  {
    hide *;
    WrappingStarts();
    AreaReached(0);
    AreaReached(1);
    AreaReached(2);
    AreaReached(3);
    AreaReached(4);
    ThirdOverflows(ServeAll(Addr32, Wrapping()[..3]).area);
    SharedByte();
  }

  lemma ThirdOverflows(a: Area)
    requires a == AreaAfter(3)
    ensures Typed(Addr32, Wrapping()[3]) && !NoOverflow(Addr32, a, Wrapping()[3])
  {
    assert FitEnd(Addr32, 256, 0xFFFF_FF10) == 16;
    hide Symbols;
    assert Fits(Addr32, a.freeList[0], 0xFFFF_FF10);
    assert FitIndex(Addr32, a.freeList, 0xFFFF_FF10) == 0;
  }
}
