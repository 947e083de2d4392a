/** Byte accesses and the four memory instructions of a process. */
module Memory {
  import opened Wrappers
  import opened Regions
  import opened Paging
  import opened Growth
  import Words

  /** Bytes a 22-bit address bus reaches */
  const SPACE: nat := MAX_PGN * PAGE_SIZE

  /** PAGING_PGN and PAGING_OFFST */
  function Pgn(addr: nat): nat { Words.GetVal(addr, PAGE_SIZE, MAX_PGN) }

  function Offst(addr: nat): nat { Words.GetVal(addr, 1, PAGE_SIZE) }

  /** Page number and offset rejoin to the low 22 bits of an address, so to the address itself exactly
      below 2^22; above, pages alias. */
  lemma AddressSplit(addr: nat)
    ensures Pgn(addr) < MAX_PGN && Offst(addr) < PAGE_SIZE
    ensures Pgn(addr) * PAGE_SIZE + Offst(addr) == addr % SPACE
    ensures Pgn(addr) == addr % SPACE / PAGE_SIZE && Offst(addr) == addr % SPACE % PAGE_SIZE
    ensures addr < SPACE <==> Pgn(addr) * PAGE_SIZE + Offst(addr) == addr
  {
    assert addr / PAGE_SIZE * PAGE_SIZE + addr % PAGE_SIZE == addr;
  }

  /** The byte at address a of process p. */
  function ByteAt(s: Sys, p: nat, a: nat): bv8 {
    var page := Bytes(s, p, a / PAGE_SIZE);
    if a % PAGE_SIZE < |page| then page[a % PAGE_SIZE] else 0
  }

  /** pg_getval */
  function GetVal(m: Machine, addr: nat): (Machine, Option<bv8>) {
    var (m', f) := GetPage(m, Pgn(addr));
    if f.Some? && f.value < |m'.ram.pages| && Offst(addr) < |m'.ram.pages[f.value]|
    then (m', Some(m'.ram.pages[f.value][Offst(addr)]))
    else (m', None)
  }

  /** pg_setval; the flag is false for its -1. */
  function SetVal(m: Machine, addr: nat, value: bv8): (Machine, bool) {
    var (m', f) := GetPage(m, Pgn(addr));
    if f.Some? && f.value < |m'.ram.pages| && Offst(addr) < |m'.ram.pages[f.value]|
    then (m'.(ram := m'.ram.With(f.value, m'.ram.pages[f.value][Offst(addr) := value])), true)
    else (m', false)
  }

  lemma GetPageTouchesOnePage(m: Machine, g: int, k: nat)
    ensures var m' := GetPage(m, g).0;
            && (k != g && !m.mm.At(k).InRam? ==> m'.mm.At(k) == m.mm.At(k))
            && |m'.mm.table| == |m.mm.table| && m'.mm.area == m.mm.area
  {
    GrabMovesOnlyResidentPages(m, k);
  }

  /** A write that lands changes the addressed byte and no other byte of any process; one that does
      not land changes nothing. */
  lemma SetValExact(s: Sys, p: nat, addr: nat, value: bv8)
    requires Inv(s) && p in s.mms && s.At(p, Pgn(addr)) != InSwap(0)
    ensures var (m', landed) := SetVal(Focus(s, p), addr, value);
            var s' := Put(s, p, m', s.hand);
            && Inv(s')
            && (landed <==> !CannotServe(Focus(s, p), Pgn(addr)))
            && forall q: nat, a: nat ::
                 ByteAt(s', q, a) == if landed && q == p && a == addr % SPACE then value else ByteAt(s, q, a)
  {
    hide Inv, GetPage, CannotServe;
    AddressSplit(addr);
    var g := Pgn(addr);
    var (m1, f) := GetPage(Focus(s, p), g);
    var s1 := Put(s, p, m1, s.hand);
    GetPageKeeps(s, p, g);
    GetPageFailsIff(s, p, g);
    if f.Some? {
      StoreByte(s1, p, g, f.value, Offst(addr), value);
    }
    var s' := Put(s, p, SetVal(Focus(s, p), addr, value).0, s.hand);
    hide Bytes, Pgn, Offst;
    forall q: nat, a: nat
      ensures ByteAt(s', q, a) == if f.Some? && q == p && a == addr % SPACE then value else ByteAt(s, q, a)
    {
      assert Bytes(s1, q, a / PAGE_SIZE) == Bytes(s, q, a / PAGE_SIZE);
      SamePlace(a, addr % SPACE);
    }
  }

  lemma SamePlace(a: nat, b: nat)
    ensures a == b <==> a / PAGE_SIZE == b / PAGE_SIZE && a % PAGE_SIZE == b % PAGE_SIZE
  {
    assert a == a / PAGE_SIZE * PAGE_SIZE + a % PAGE_SIZE && b == b / PAGE_SIZE * PAGE_SIZE + b % PAGE_SIZE;
  }

  /** MEMPHY_write to a frame that belongs to page g of p. */
  lemma StoreByte(s: Sys, p: nat, g: nat, f: nat, o: nat, value: bv8)
    requires Inv(s) && p in s.mms && s.At(p, g) == InRam(f) && o < PAGE_SIZE
    ensures f < |s.ram.pages| && |s.ram.pages[f]| == PAGE_SIZE && Bytes(s, p, g) == s.ram.pages[f]
    ensures var s' := s.(ram := s.ram.With(f, s.ram.pages[f][o := value]));
            && Inv(s')
            && Bytes(s', p, g) == Bytes(s, p, g)[o := value]
            && forall q: nat, k: nat :: q != p || k != g ==> Bytes(s', q, k) == Bytes(s, q, k)
  {
    assert FrameHeld(s, f);
    var s' := s.(ram := s.ram.With(f, s.ram.pages[f][o := value]));
    assert SameEntries(s, s');
    SameEntriesKeepHolders(s, s');
  }

  /** A read returns the byte of the flat memory, whatever evictions and reloads came before. */
  lemma GetValExact(s: Sys, p: nat, addr: nat)
    requires Inv(s) && p in s.mms && s.At(p, Pgn(addr)) != InSwap(0)
    ensures var (m', r) := GetVal(Focus(s, p), addr);
            var s' := Put(s, p, m', s.hand);
            && Inv(s') && SameBytes(s, s')
            && r == if CannotServe(Focus(s, p), Pgn(addr)) then None else Some(ByteAt(s, p, addr % SPACE))
  {
    hide Inv, GetPage, CannotServe;
    AddressSplit(addr);
    var g := Pgn(addr);
    GetPageKeeps(s, p, g);
    GetPageFailsIff(s, p, g);
    var (m1, f) := GetPage(Focus(s, p), g);
    if f.Some? {
      StoreByte(Put(s, p, m1, s.hand), p, g, f.value, 0, 0);
    }
  }

  // ---------------------------------------------------------------- instructions

  datatype Op = Alloc(rgid: int, size: nat) | Free(rgid: int) | Read(rgid: int, offset: nat)
              | Write(rgid: int, offset: nat, value: bv8)

  /** get_symrg_byid.  The identifier 30 passes its test but names no element of the table. */
  function SymbolOf(a: Area, rgid: int): Option<Region>
    requires rgid != MAX_SYMBOLS && |a.symbols| == MAX_SYMBOLS
  {
    if 0 <= rgid < MAX_SYMBOLS then Some(a.symbols[rgid]) else None
  }

  /** The sum of a start address and an offset, a 32-bit value. */
  function Plus(start: nat, offset: nat): nat { (start + offset) % Words.WORD }

  /** What the callers of the memory instructions have to see to: known symbols, areas that end at or
      below 2^22, regions that end at or below the break even if it could not be moved, and writes below
      the end of the area, which __write does not test. */
  predicate Legal(mm: Mm, op: Op) {
    && op.rgid != MAX_SYMBOLS && |mm.area.symbols| == MAX_SYMBOLS
    && match op
       case Alloc(rgid, size) =>
         && 0 <= rgid < MAX_SYMBOLS && size < Width(Addr32)
         && (FitIndex(Addr32, mm.area.freeList, size) < |mm.area.freeList|
             || if Moves(Addr32, mm.area, size) then mm.area.vmEnd + Align(Addr32, size) <= SPACE
                else Plus(mm.area.sbrk, size) <= mm.area.sbrk)
       case Write(rgid, offset, _) =>
         var r := SymbolOf(mm.area, rgid);
         r.Some? ==> Plus(r.value.start, offset) % SPACE < mm.area.vmEnd
       case _ => true
  }

  /** __alloc */
  function DoAlloc(m: Machine, rgid: nat, size: nat): Grown
    requires rgid < |m.mm.area.symbols| && size < Width(Addr32)
  {
    var a' := Allocate(Addr32, m.mm.area, rgid, size);
    var r := if FitIndex(Addr32, m.mm.area.freeList, size) < |m.mm.area.freeList| then Grown(m, [])
             else IncVmaLimit(m, Align(Addr32, size));
    r.(m := r.m.(mm := r.m.mm.(area := a')))
  }

  /** __free */
  function DoFree(m: Machine, rgid: int): Machine
    requires rgid != MAX_SYMBOLS && |m.mm.area.symbols| == MAX_SYMBOLS
  {
    if SymbolOf(m.mm.area, rgid).None? then m
    else
      match Release(m.mm.area, rgid)
      case None => m
      case Some(a') => m.(mm := m.mm.(area := a'))
  }

  /** __read; None is its -1. */
  function DoRead(m: Machine, rgid: int, offset: nat): (Machine, Option<bv8>)
    requires rgid != MAX_SYMBOLS && |m.mm.area.symbols| == MAX_SYMBOLS
  {
    match SymbolOf(m.mm.area, rgid)
    case None => (m, None)
    case Some(r) => if Plus(r.start, offset) >= r.end then (m, None) else GetVal(m, Plus(r.start, offset))
  }

  /** __write; the flag is false for its -1.  It says nothing about whether the byte landed. */
  function DoWrite(m: Machine, rgid: int, offset: nat, value: bv8): (Machine, bool)
    requires rgid != MAX_SYMBOLS && |m.mm.area.symbols| == MAX_SYMBOLS
  {
    match SymbolOf(m.mm.area, rgid)
    case None => (m, false)
    case Some(r) => (SetVal(m, Plus(r.start, offset), value).0, true)
  }

  function Perform(m: Machine, op: Op): Grown
    requires Legal(m.mm, op)
  {
    match op
    case Alloc(rgid, size) => DoAlloc(m, rgid, size)
    case Free(rgid) => Grown(DoFree(m, rgid), [])
    case Read(rgid, offset) => Grown(DoRead(m, rgid, offset).0, [])
    case Write(rgid, offset, value) => Grown(DoWrite(m, rgid, offset, value).0, [])
  }

  /** The address a write stores to, if it is served. */
  function Target(m: Machine, op: Op): Option<nat>
    requires Legal(m.mm, op)
  {
    if !op.Write? || SymbolOf(m.mm.area, op.rgid).None? then None
    else
      var addr := Plus(SymbolOf(m.mm.area, op.rgid).value.start, op.offset);
      if CannotServe(m, Pgn(addr)) then None else Some(addr % SPACE)
  }

  ghost predicate NoSlotZero(s: Sys) { 0 !in s.pool }

  lemma NeverInSlotZero(s: Sys, p: nat, g: nat)
    requires Inv(s) && NoSlotZero(s)
    ensures s.At(p, g) != InSwap(0)
  {
    assert SlotHeld(s, 0) ==> 0 in s.pool;
  }

  function After(s: Sys, p: nat, op: Op): Sys
    requires p in s.mms && Legal(s.mms[p], op)
  {
    var r := Perform(Focus(s, p), op);
    Put(s, p, r.m, s.hand + ToSet(r.dropped))
  }

  /** One memory instruction keeps the system sound and, on the memory each process already has,
      acts as the flat store does: it changes the target of a served write and nothing else. */
  lemma PerformKeeps(s: Sys, p: nat, op: Op)
    requires SysOk(s) && NoSlotZero(s) && p in s.mms && Legal(s.mms[p], op)
    ensures var s' := After(s, p, op);
            && SysOk(s') && NoSlotZero(s')
            && s'.mms[p].area.vmEnd >= s.mms[p].area.vmEnd
            && forall q: nat, a: nat :: q != p || a < s.mms[p].area.vmEnd ==>
                 ByteAt(s', q, a) == if q == p && Target(Focus(s, p), op) == Some(a) then op.value else ByteAt(s, q, a)
  {
    hide Inv;
    match op {
      case Alloc(rgid, size) => AllocKeeps(s, p, rgid, size);
      case Free(rgid) => FreeKeeps(s, p, rgid);
      case Read(rgid, offset) => ReadKeeps(s, p, rgid, offset);
      case Write(rgid, offset, value) => WriteKeeps(s, p, rgid, offset, value);
    }
  }

  lemma CutNodeStaysBelow(list: seq<Region>, i: nat, size: nat, brk: nat)
    requires i < |list| && Fits(Addr32, list[i], size) && forall r <- list :: r.end <= brk
    ensures FitEnd(Addr32, list[i].start, size) <= brk
    ensures forall r <- CutNode(Addr32, list, i, size) :: r.end <= brk
  {
  }

  /** Changing the two region tables below the break. */
  lemma RegionsChange(mm: Mm, a': Area)
    requires AreaOk(mm) && a'.sbrk == a'.vmEnd == mm.area.vmEnd && |a'.symbols| == MAX_SYMBOLS
    requires (forall r <- a'.symbols :: r.end <= a'.sbrk) && forall r <- a'.freeList :: r.end <= a'.sbrk
    ensures AreaOk(mm.(area := a'))
  {
    forall g | a'.vmEnd / PAGE_SIZE <= g < MAX_PGN ensures mm.(area := a').At(g) == Absent {
      assert mm.At(g) == Absent;
    }
  }

  /** An allocation a node fits, or one that does not move the limits, touches the region tables only. */
  lemma AllocInPlace(m: Machine, rgid: nat, size: nat)
    requires rgid < |m.mm.area.symbols| && size < Width(Addr32)
    requires FitIndex(Addr32, m.mm.area.freeList, size) < |m.mm.area.freeList| || !Moves(Addr32, m.mm.area, size)
    ensures DoAlloc(m, rgid, size) == Grown(m.(mm := m.mm.(area := Allocate(Addr32, m.mm.area, rgid, size))), [])
  {
    hide FitIndex, AlignUp, CutNode;
  }

  /** Regions that end at or below the break, which is the end of the area */
  predicate Below(a: Area) {
    && |a.symbols| == MAX_SYMBOLS && a.sbrk == a.vmEnd <= SPACE
    && (forall r <- a.symbols :: r.end <= a.sbrk) && forall r <- a.freeList :: r.end <= a.sbrk
  }

  lemma FittedBelow(a: Area, rgid: nat, size: nat)
    requires Below(a) && rgid < MAX_SYMBOLS && size < Width(Addr32)
    requires FitIndex(Addr32, a.freeList, size) < |a.freeList|
    ensures var a' := Allocate(Addr32, a, rgid, size); Below(a') && a'.vmEnd == a.vmEnd
  {
    var i := FitIndex(Addr32, a.freeList, size);
    CutNodeStaysBelow(a.freeList, i, size, a.sbrk);
    hide CutNode, FitIndex, ThroughInt, AlignUp;
  }

  lemma ExtendedBelow(a: Area, rgid: nat, size: nat)
    requires Below(a) && rgid < MAX_SYMBOLS && size < Width(Addr32)
    requires FitIndex(Addr32, a.freeList, size) == |a.freeList|
    requires if Moves(Addr32, a, size) then a.vmEnd + Align(Addr32, size) <= SPACE else Plus(a.sbrk, size) <= a.sbrk
    ensures var a' := Allocate(Addr32, a, rgid, size);
            Below(a') && a'.vmEnd == a.vmEnd + if Moves(Addr32, a, size) then Align(Addr32, size) else 0
  {
    hide FitIndex, AlignUp, Align, Moves, ThroughInt;
    BreakIs(a, size);
  }

  /** Where the fresh region and the limits come to lie */
  lemma BreakIs(a: Area, size: nat)
    requires a.sbrk == a.vmEnd <= SPACE && size < Width(Addr32)
    requires if Moves(Addr32, a, size) then a.vmEnd + Align(Addr32, size) <= SPACE else Plus(a.sbrk, size) <= a.sbrk
    ensures ThroughInt(Addr32, a.sbrk) == a.sbrk
    ensures var a', inc := Extend(Addr32, a, Increment(Addr32, size)), if Moves(Addr32, a, size) then Align(Addr32, size) else 0;
            && a' == a.(sbrk := a.sbrk + inc, vmEnd := a.vmEnd + inc)
            && Sum(Addr32, a.sbrk, size) <= a.sbrk + inc
  {
    hide AlignUp;
  }

  /** Below the end of an area its regions may change. */
  lemma AreaChange(s: Sys, p: nat, a': Area)
    requires SysOk(s) && p in s.mms && Below(a') && a'.vmEnd == s.mms[p].area.vmEnd
    ensures var s' := s.(mms := s.mms[p := s.mms[p].(area := a')]); SysOk(s') && SameBytes(s, s')
  {
    hide Inv;
    var s' := s.(mms := s.mms[p := s.mms[p].(area := a')]);
    SameButArea(s, s', p);
    RegionsChange(s.mms[p], a');
  }

  lemma AllocKeeps(s: Sys, p: nat, rgid: nat, size: nat)
    requires SysOk(s) && p in s.mms && Legal(s.mms[p], Alloc(rgid, size))
    ensures var s' := After(s, p, Alloc(rgid, size));
            && SysOk(s') && s'.mms[p].area.vmEnd >= s.mms[p].area.vmEnd
            && forall q: nat, a: nat :: q != p || a < s.mms[p].area.vmEnd ==> ByteAt(s', q, a) == ByteAt(s, q, a)
  {
    var a := s.mms[p].area;
    if FitIndex(Addr32, a.freeList, size) < |a.freeList| || !Moves(Addr32, a, size) {
      StayingKeeps(s, p, rgid, size);
    } else {
      GrowingKeeps(s, p, rgid, size);
    }
  }

  lemma StayingKeeps(s: Sys, p: nat, rgid: nat, size: nat)
    requires SysOk(s) && p in s.mms && Legal(s.mms[p], Alloc(rgid, size))
    requires var a := s.mms[p].area; FitIndex(Addr32, a.freeList, size) < |a.freeList| || !Moves(Addr32, a, size)
    ensures var s' := After(s, p, Alloc(rgid, size));
            && SysOk(s') && s'.mms[p].area.vmEnd == s.mms[p].area.vmEnd && SameBytes(s, s')
  {
    var a := s.mms[p].area;
    assert AreaOk(s.mms[p]);
    if FitIndex(Addr32, a.freeList, size) < |a.freeList| {
      FittedBelow(a, rgid, size);
    } else {
      ExtendedBelow(a, rgid, size);
    }
    AllocInPlace(Focus(s, p), rgid, size);
    assert s.hand + ToSet([]) == s.hand;
    hide SysOk, DoAlloc, Allocate, Moves, FitIndex, Below;
    AreaChange(s, p, Allocate(Addr32, a, rgid, size));
  }

  /** An allocation that grows the area is the growth, and then the change of the region tables. */
  lemma AllocGrows(s: Sys, p: nat, rgid: nat, size: nat)
    requires p in s.mms && Legal(s.mms[p], Alloc(rgid, size))
    requires FitIndex(Addr32, s.mms[p].area.freeList, size) == |s.mms[p].area.freeList|
    ensures var r := IncVmaLimit(Focus(s, p), Align(Addr32, size));
            var s1 := Put(s, p, r.m, s.hand + ToSet(r.dropped));
            p in s1.mms && After(s, p, Alloc(rgid, size))
            == s1.(mms := s1.mms[p := s1.mms[p].(area := Allocate(Addr32, s.mms[p].area, rgid, size))])
  {
    hide IncVmaLimit, Allocate, FitIndex, AlignUp, Moves;
  }

  lemma GrowingKeeps(s: Sys, p: nat, rgid: nat, size: nat)
    requires SysOk(s) && p in s.mms && Legal(s.mms[p], Alloc(rgid, size))
    requires var a := s.mms[p].area; FitIndex(Addr32, a.freeList, size) == |a.freeList| && Moves(Addr32, a, size)
    ensures var s' := After(s, p, Alloc(rgid, size));
            && SysOk(s') && s'.mms[p].area.vmEnd >= s.mms[p].area.vmEnd
            && forall q: nat, a: nat :: q != p || a < s.mms[p].area.vmEnd ==> ByteAt(s', q, a) == ByteAt(s, q, a)
  {
    var a := s.mms[p].area;
    assert AreaOk(s.mms[p]);
    ExtendedBelow(a, rgid, size);
    AllocGrows(s, p, rgid, size);
    var inc := Align(Addr32, size);
    assert Extend(Addr32, a, inc).vmEnd == a.vmEnd + inc;
    hide SysOk, IncVmaLimit, Allocate, FitIndex, AlignUp, DoAlloc, After, Moves, Below, Bytes;
    IncVmaLimitKeeps(s, p, inc);
    var r := IncVmaLimit(Focus(s, p), inc);
    var s1 := Put(s, p, r.m, s.hand + ToSet(r.dropped));
    AreaChange(s1, p, Allocate(Addr32, a, rgid, size));
    var s' := After(s, p, Alloc(rgid, size));
    forall q: nat, b: nat | q != p || b < a.vmEnd ensures ByteAt(s', q, b) == ByteAt(s, q, b) {
      assert Bytes(s', q, b / PAGE_SIZE) == Bytes(s1, q, b / PAGE_SIZE);
    }
  }

  lemma FreeKeeps(s: Sys, p: nat, rgid: int)
    requires SysOk(s) && p in s.mms && Legal(s.mms[p], Free(rgid))
    ensures var s' := After(s, p, Free(rgid));
            && SysOk(s') && SameBytes(s, s') && s'.mms[p].area.vmEnd == s.mms[p].area.vmEnd
  {
    hide Inv;
    var s' := After(s, p, Free(rgid));
    assert s.hand + ToSet([]) == s.hand;
    SameButArea(s, s', p);
    RegionsChange(s.mms[p], s'.mms[p].area);
  }

  lemma NothingChanges(s: Sys)
    ensures SameBytes(s, s)
  {
  }

  lemma RegionsEndBelow(s: Sys, p: nat, rgid: int)
    requires SysOk(s) && p in s.mms && rgid != MAX_SYMBOLS
    ensures AreaOk(s.mms[p]) && Inv(s) && |s.mms[p].area.symbols| == MAX_SYMBOLS && s.mms[p].area.vmEnd <= SPACE
    ensures var r := SymbolOf(s.mms[p].area, rgid); r.Some? ==> r.value.end <= s.mms[p].area.vmEnd
  {
    hide Inv;
    assert AreaOk(s.mms[p]);
  }

  /** Reading an address below the end of the area. */
  lemma AccessReads(s: Sys, p: nat, addr: nat)
    requires SysOk(s) && NoSlotZero(s) && p in s.mms && addr < s.mms[p].area.vmEnd <= SPACE
    ensures var (m', r) := GetVal(Focus(s, p), addr);
            var s' := Put(s, p, m', s.hand);
            && SysOk(s') && SameBytes(s, s') && m'.mm.area == s.mms[p].area
            && r == if CannotServe(Focus(s, p), Pgn(addr)) then None else Some(ByteAt(s, p, addr))
  {
    hide Inv, GetVal, Bytes, CannotServe, Pgn;
    var m := Focus(s, p);
    NeverInSlotZero(s, p, Pgn(addr));
    GetValExact(s, p, addr);
    AccessesFault(m, addr, 0);
    AccessKeepsArea(m, addr);
  }

  lemma ReadKeeps(s: Sys, p: nat, rgid: int, offset: nat)
    requires SysOk(s) && NoSlotZero(s) && p in s.mms && Legal(s.mms[p], Read(rgid, offset))
    ensures var s' := After(s, p, Read(rgid, offset));
            && SysOk(s') && SameBytes(s, s') && s'.mms[p].area == s.mms[p].area
    ensures var (m', r) := DoRead(Focus(s, p), rgid, offset);
            match SymbolOf(s.mms[p].area, rgid)
            case None => r == None
            case Some(reg) =>
              var addr := Plus(reg.start, offset);
              r == if addr >= reg.end || CannotServe(Focus(s, p), Pgn(addr)) then None else Some(ByteAt(s, p, addr))
  {
    hide SysOk, GetVal, ByteAt, CannotServe, Pgn, Plus, SameBytes;
    var m := Focus(s, p);
    var s' := After(s, p, Read(rgid, offset));
    assert s.hand + ToSet([]) == s.hand;
    RegionsEndBelow(s, p, rgid);
    var sym := SymbolOf(m.mm.area, rgid);
    if sym.Some? && Plus(sym.value.start, offset) < sym.value.end {
      AccessReads(s, p, Plus(sym.value.start, offset));
    } else {
      assert s' == s;
      NothingChanges(s);
    }
  }

  lemma WriteKeeps(s: Sys, p: nat, rgid: int, offset: nat, value: bv8)
    requires SysOk(s) && NoSlotZero(s) && p in s.mms && Legal(s.mms[p], Write(rgid, offset, value))
    ensures var s' := After(s, p, Write(rgid, offset, value));
            && SysOk(s') && s'.mms[p].area == s.mms[p].area
            && forall q: nat, a: nat :: ByteAt(s', q, a)
                 == if q == p && Target(Focus(s, p), Write(rgid, offset, value)) == Some(a) then value else ByteAt(s, q, a)
  {
    hide Inv, SetVal, ByteAt, CannotServe, Pgn, Plus;
    var m := Focus(s, p);
    var s' := After(s, p, Write(rgid, offset, value));
    assert s.hand + ToSet([]) == s.hand;
    var sym := SymbolOf(m.mm.area, rgid);
    if sym.Some? {
      var addr := Plus(sym.value.start, offset);
      NeverInSlotZero(s, p, Pgn(addr));
      SetValExact(s, p, addr, value);
      AccessesFault(m, addr, value);
      AccessKeepsArea(m, addr);
    } else {
      assert s' == s;
    }
  }

  /** Both accesses touch the page table as the page fault alone does. */
  lemma AccessesFault(m: Machine, addr: nat, value: bv8)
    ensures GetVal(m, addr).0.mm == GetPage(m, Pgn(addr)).0.mm
    ensures SetVal(m, addr, value).0.mm == GetPage(m, Pgn(addr)).0.mm
  {
  }

  /** Touching a page below the end of the area leaves the area as AreaOk wants it. */
  lemma AccessKeepsArea(m: Machine, addr: nat)
    requires AreaOk(m.mm) && addr % SPACE < m.mm.area.vmEnd
    ensures AreaOk(GetPage(m, Pgn(addr)).0.mm) && GetPage(m, Pgn(addr)).0.mm.area == m.mm.area
  {
    hide GetPage;
    AddressSplit(addr);
    var mm' := GetPage(m, Pgn(addr)).0.mm;
    GetPageTouchesOnePage(m, Pgn(addr), 0);
    forall k: nat | m.mm.area.vmEnd / PAGE_SIZE <= k < MAX_PGN ensures mm'.At(k) == Absent {
      GetPageTouchesOnePage(m, Pgn(addr), k);
      assert m.mm.At(k) == Absent;
    }
  }
}
