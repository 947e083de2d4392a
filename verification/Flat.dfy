/** The machine without paging: one flat byte array per process.  Every run of the paging machine is a run
    of this one with the same read results. */
module Flat {
  import opened Wrappers
  import opened Regions
  import opened Paging
  import opened Growth
  import opened Memory
  import opened Processes

  /** The regions of a process and the bytes below the end of its area. */
  datatype FlatMm = FlatMm(area: Area, bytes: seq<bv8>)

  /** What a read yields whose address, a 32-bit sum, lies below the end of its region; the region is
      looked up by its symbol. */
  function Lookup(m: FlatMm, rgid: int, offset: nat): Option<bv8> {
    if 0 <= rgid < |m.area.symbols| then
      var r := m.area.symbols[rgid];
      var addr := Plus(r.start, offset);
      if addr < r.end && addr < |m.bytes| then Some(m.bytes[addr]) else None
    else None
  }

  /** The bus keeps 22 bits of the address of a store. */
  function Store(m: FlatMm, rgid: int, offset: nat, value: bv8): FlatMm {
    if 0 <= rgid < |m.area.symbols| then
      var addr := Plus(m.area.symbols[rgid].start, offset) % SPACE;
      if addr < |m.bytes| then m.(bytes := m.bytes[addr := value]) else m
    else m
  }

  /** One instruction with its result, `served` telling whether the machine had the storage it took. New
      bytes have any value.  A refused allocation still moves the limits, a refused store is dropped. */
  ghost predicate Instruction(m: FlatMm, op: Op, served: bool, out: Option<bv8>, m': FlatMm) {
    match op
    case Alloc(rgid, size) =>
      && 0 <= rgid < |m.area.symbols| && out == None
      && size < Width(Addr32) && m'.area == Allocate(Addr32, m.area, rgid, size)
      && m.bytes <= m'.bytes && |m'.bytes| == m'.area.vmEnd
    case Free(rgid) =>
      && out == None && m'.bytes == m.bytes
      && m'.area == if 0 <= rgid < |m.area.symbols| && Release(m.area, rgid).Some? then Release(m.area, rgid).value else m.area
    case Read(rgid, offset) =>
      m' == m && out == if served then Lookup(m, rgid, offset) else None
    case Write(rgid, offset, value) =>
      out == None && m' == if served then Store(m, rgid, offset, value) else m
  }

  ghost predicate Next(f: map<nat, FlatMm>, e: Event, served: bool, out: Option<bv8>, f': map<nat, FlatMm>) {
    match e
    case Spawn(p) => p !in f && out == None && f' == f[p := FlatMm(Initial().area, [])]
    case Exit(p) => p in f && out == None && f' == f - {p}
    case Do(p, op) => p in f && p in f' && f' == f[p := f'[p]] && Instruction(f[p], op, served, out, f'[p])
  }

  ghost predicate Reaches(f: map<nat, FlatMm>, es: seq<Event>, served: seq<bool>, outs: seq<Option<bv8>>, f': map<nat, FlatMm>)
    requires |es| == |served| == |outs|
    decreases |es|
  {
    if es == [] then f' == f
    else exists mid :: Next(f, es[0], served[0], outs[0], mid) && Reaches(mid, es[1..], served[1..], outs[1..], f')
  }

  // ---------------------------------------------------------------- the paging machine seen flat

  function View(s: Sys, p: nat): FlatMm
    requires p in s.mms
  {
    FlatMm(s.mms[p].area, seq(s.mms[p].area.vmEnd, a requires a >= 0 => ByteAt(s, p, a)))
  }

  function ViewAll(s: Sys): map<nat, FlatMm> { map p <- s.mms :: View(s, p) }

  /** The results of the paging machine: what a read returns, and which requests it had storage for. */
  function Out(s: Sys, e: Event): Option<bv8>
    requires Enabled(s, e)
  {
    if e.Do? && e.op.Read? then DoRead(Focus(s, e.pid), e.op.rgid, e.op.offset).1 else None
  }

  predicate Served(s: Sys, e: Event)
    requires Enabled(s, e)
  {
    e.Do? ==> !Starved(Focus(s, e.pid), e.op)
  }

  function Outs(s: Sys, es: seq<Event>): (outs: seq<Option<bv8>>)
    requires Possible(s, es)
    ensures |outs| == |es|
    decreases |es|
  {
    if es == [] then [] else [Out(s, es[0])] + Outs(Step(s, es[0]), es[1..])
  }

  function ServedAll(s: Sys, es: seq<Event>): (served: seq<bool>)
    requires Possible(s, es)
    ensures |served| == |es|
    decreases |es|
  {
    if es == [] then [] else [Served(s, es[0])] + ServedAll(Step(s, es[0]), es[1..])
  }

  // ---------------------------------------------------------------- refinement

  /** What each instruction does to the region tables. */
  lemma AreaAfter(m: Machine, op: Op)
    requires Legal(m.mm, op)
    ensures var a, a' := m.mm.area, Perform(m, op).m.mm.area;
            match op
            case Alloc(rgid, size) => a' == Allocate(Addr32, a, rgid, size)
            case Free(rgid) => a' == if 0 <= rgid < MAX_SYMBOLS && Release(a, rgid).Some? then Release(a, rgid).value else a
            case _ => a' == a
  {
    hide GetPage;
    match op {
      case Read(rgid, offset) =>
        if SymbolOf(m.mm.area, rgid).Some? {
          var addr := Plus(SymbolOf(m.mm.area, rgid).value.start, offset);
          AccessesFault(m, addr, 0);
          GetPageTouchesOnePage(m, Pgn(addr), 0);
        }
      case Write(rgid, offset, value) =>
        if SymbolOf(m.mm.area, rgid).Some? {
          var addr := Plus(SymbolOf(m.mm.area, rgid).value.start, offset);
          AccessesFault(m, addr, value);
          GetPageTouchesOnePage(m, Pgn(addr), 0);
        }
      case _ =>
    }
  }

  lemma OthersUnchanged(s: Sys, p: nat, op: Op, q: nat)
    requires SysOk(s) && NoSlotZero(s) && p in s.mms && Legal(s.mms[p], op) && q in s.mms && q != p
    ensures View(After(s, p, op), q) == View(s, q)
  {
    hide Inv, AreaOk, ByteAt, Perform, Target;
    PerformKeeps(s, p, op);
  }

  lemma ReadRefines(s: Sys, p: nat, rgid: int, offset: nat)
    requires SysOk(s) && NoSlotZero(s) && p in s.mms && Legal(s.mms[p], Read(rgid, offset))
    ensures var op := Read(rgid, offset);
            Instruction(View(s, p), op, Served(s, Do(p, op)), Out(s, Do(p, op)), View(After(s, p, op), p))
  {
    var s' := After(s, p, Read(rgid, offset));
    assert p in s'.mms;
    hide Inv, ByteAt, DoRead, After, CannotServe, Pgn, Plus;
    ReadKeeps(s, p, rgid, offset);
    RegionsEndBelow(s, p, rgid);
    SameBytesSameView(s, s', p);
  }

  ghost predicate SameView(s: Sys, s': Sys, p: nat) { p in s.mms && p in s'.mms && View(s', p) == View(s, p) }

  lemma SameBytesSameView(s: Sys, s': Sys, p: nat)
    requires SameBytes(s, s') && p in s.mms && p in s'.mms && s'.mms[p].area == s.mms[p].area
    ensures SameView(s, s', p)
  {
    hide Bytes;
    assert forall a: nat :: ByteAt(s', p, a) == ByteAt(s, p, a) by {
      forall a: nat ensures ByteAt(s', p, a) == ByteAt(s, p, a) {
        assert Bytes(s', p, a / PAGE_SIZE) == Bytes(s, p, a / PAGE_SIZE);
      }
    }
  }

  lemma WriteRefines(s: Sys, p: nat, rgid: int, offset: nat, value: bv8)
    requires SysOk(s) && NoSlotZero(s) && p in s.mms && Legal(s.mms[p], Write(rgid, offset, value))
    ensures var op := Write(rgid, offset, value);
            Instruction(View(s, p), op, Served(s, Do(p, op)), Out(s, Do(p, op)), View(After(s, p, op), p))
  {
    hide Inv, ByteAt, After, CannotServe, Pgn, Plus;
    WriteKeeps(s, p, rgid, offset, value);
    RegionsEndBelow(s, p, rgid);
  }

  lemma AllocRefines(s: Sys, p: nat, rgid: int, size: nat)
    requires SysOk(s) && p in s.mms && Legal(s.mms[p], Alloc(rgid, size))
    ensures var op := Alloc(rgid, size);
            Instruction(View(s, p), op, Served(s, Do(p, op)), Out(s, Do(p, op)), View(After(s, p, op), p))
  {
    AreaAfter(Focus(s, p), Alloc(rgid, size));
    AllocKeeps(s, p, rgid, size);
    hide Inv, AreaOk, ByteAt, Perform, Allocate, AllocPages, FitIndex, AlignUp, PagesAdded;
  }

  lemma FreeRefines(s: Sys, p: nat, rgid: int)
    requires SysOk(s) && p in s.mms && Legal(s.mms[p], Free(rgid))
    ensures var op := Free(rgid);
            Instruction(View(s, p), op, Served(s, Do(p, op)), Out(s, Do(p, op)), View(After(s, p, op), p))
  {
    AreaAfter(Focus(s, p), Free(rgid));
    FreeKeeps(s, p, rgid);
    hide Inv, AreaOk, Bytes, Perform, Release;
    var s' := After(s, p, Free(rgid));
    forall a: nat ensures ByteAt(s', p, a) == ByteAt(s, p, a) {
      assert Bytes(s', p, a / PAGE_SIZE) == Bytes(s, p, a / PAGE_SIZE);
    }
  }

  lemma DoRefines(s: Sys, p: nat, op: Op)
    requires SysOk(s) && NoSlotZero(s) && p in s.mms && Legal(s.mms[p], op)
    ensures Next(ViewAll(s), Do(p, op), Served(s, Do(p, op)), Out(s, Do(p, op)), ViewAll(After(s, p, op)))
  {
    hide SysOk, NoSlotZero, View, Perform, Instruction, Starved, DoRead, Legal;
    match op {
      case Alloc(rgid, size) => AllocRefines(s, p, rgid, size);
      case Free(rgid) => FreeRefines(s, p, rgid);
      case Read(rgid, offset) => ReadRefines(s, p, rgid, offset);
      case Write(rgid, offset, value) => WriteRefines(s, p, rgid, offset, value);
    }
    forall q | q in s.mms && q != p ensures View(After(s, p, op), q) == View(s, q) {
      OthersUnchanged(s, p, op, q);
    }
    assert ViewAll(After(s, p, op)) == ViewAll(s)[p := View(After(s, p, op), p)];
  }

  lemma StepRefines(s: Sys, e: Event)
    requires SysOk(s) && NoSlotZero(s) && Enabled(s, e)
    ensures Next(ViewAll(s), e, Served(s, e), Out(s, e), ViewAll(Step(s, e)))
  {
    match e {
      case Spawn(p) =>
        SpawnRefines(s, p);
      case Exit(p) =>
        ExitRefines(s, p);
      case Do(p, op) =>
        DoRefines(s, p, op);
    }
  }

  lemma SpawnRefines(s: Sys, p: nat)
    requires SysOk(s) && p !in s.mms
    ensures ViewAll(Step(s, Spawn(p))) == ViewAll(s)[p := FlatMm(Initial().area, [])]
  {
    hide SysOk, Bytes;
    SpawnKeeps(s, p);
    forall q | q in s.mms ensures SameView(s, Step(s, Spawn(p)), q) {
      SameBytesSameView(s, Step(s, Spawn(p)), q);
    }
  }

  lemma ExitRefines(s: Sys, p: nat)
    requires SysOk(s) && p in s.mms
    ensures ViewAll(Step(s, Exit(p))) == ViewAll(s) - {p}
  {
    hide Inv, Bytes, AreaOk;
    ExitKeeps(s, p);
    forall q, a: nat | q in s.mms && q != p ensures ByteAt(Exited(s, p), q, a) == ByteAt(s, q, a) {
      assert Bytes(Exited(s, p), q, a / PAGE_SIZE) == Bytes(s, q, a / PAGE_SIZE);
    }
    assert forall q | q in s.mms && q != p :: View(Exited(s, p), q) == View(s, q);
    assert ViewAll(Exited(s, p)).Keys == ViewAll(s).Keys - {p};
  }

  /** Demand paging, replacement and growth implement flat memory: every interleaving of any processes
      is a run of the flat machine with the same read results. */
  lemma {:induction false} PagingImplementsFlatMemory(s: Sys, es: seq<Event>)
    requires SysOk(s) && NoSlotZero(s) && Possible(s, es)
    ensures Reaches(ViewAll(s), es, ServedAll(s, es), Outs(s, es), ViewAll(Run(s, es)))
    decreases |es|
  {
    hide SysOk, NoSlotZero, Enabled, Step, ViewAll, Next, Starved;
    if es != [] {
      StepKeeps(s, es[0]);
      StepRefines(s, es[0]);
      PagingImplementsFlatMemory(Step(s, es[0]), es[1..]);
      assert ServedAll(s, es)[1..] == ServedAll(Step(s, es[0]), es[1..]) && Outs(s, es)[1..] == Outs(Step(s, es[0]), es[1..]);
      assert ServedAll(s, es)[0] == Served(s, es[0]) && Outs(s, es)[0] == Out(s, es[0]);
    }
  }

  /** If no request for storage is ever refused, it is a run in which every access is served. */
  lemma {:induction false} AllServedIff(s: Sys, es: seq<Event>)
    requires Possible(s, es)
    ensures NeverStarved(s, es) <==> forall k :: 0 <= k < |es| ==> ServedAll(s, es)[k]
    decreases |es|
  {
    hide Enabled, Step, Starved;
    if es != [] {
      var rest := Step(s, es[0]);
      AllServedIff(rest, es[1..]);
      AllOfCons(Served(s, es[0]), ServedAll(rest, es[1..]));
      assert ServedAll(s, es) == [Served(s, es[0])] + ServedAll(rest, es[1..]);
      assert NeverStarved(s, es) <==> Served(s, es[0]) && NeverStarved(rest, es[1..]);
    }
  }

  lemma AllOfCons(b: bool, tail: seq<bool>)
    ensures (forall k :: 0 <= k < |[b] + tail| ==> ([b] + tail)[k]) <==> b && forall k :: 0 <= k < |tail| ==> tail[k]
  {
    var all := [b] + tail;
    assert all[0] == b;
    assert forall k :: 0 <= k < |tail| ==> tail[k] == all[k + 1];
    assert forall k :: 0 < k < |all| ==> all[k] == tail[k - 1];
  }
}
