/** Several processes on one kernel, in place: run() points krnl->mm at the memory of the process it
    executes an instruction of (cpu.c). */
module Cpu {
  import opened Wrappers
  import opened Regions
  import opened Paging
  import opened Growth
  import opened Memory
  import opened Memphy
  import opened Processes
  import opened Kernel
  import Flat

  /** The objects that make up the memory of a process */
  ghost function Own(mm: MmStruct): set<object> { {mm, mm.pgd, mm.symrgtbl} }

  ghost function Devices(k: Krnl): set<object> { {k.mram, k.mram.storage, k.activeMswp, k.activeMswp.storage} }

  ghost predicate Roomy(op: Op, mm: Mm) {
    op.Alloc? ==>
      && op.size < Width(Addr32)
      && (|| FitIndex(Addr32, mm.area.freeList, op.size) < |mm.area.freeList|
          || !Moves(Addr32, mm.area, op.size)
          || Growable(mm, Align(Addr32, op.size)))
  }

  lemma LegalIsRoomy(mm: Mm, op: Op)
    requires AreaOk(mm) && Legal(mm, op)
    ensures Roomy(op, mm)
  {
  }

  /** What every operation can rely on */
  ghost predicate Sound(s: Sys) { SysOk(s) && NoSlotZero(s) }

  predicate Small(s: Sys) { |s.ram.pages| <= Pte.FPN_SPAN && |s.swp.pages| <= Pte.SWPOFF_SPAN }

  lemma StepIsSound(s: Sys, e: Event)
    requires Sound(s) && Processes.Enabled(s, e) && (!e.Spawn? ==> Small(s))
    ensures Sound(Step(s, e))
    ensures !e.Spawn? ==> e.pid in s.mms && Fitting(Focus(s, e.pid))
    ensures e.Do? ==> Legal(s.mms[e.pid], e.op) && Roomy(e.op, s.mms[e.pid])
  {
    hide Inv, Legal, Roomy, Fitting, Perform, InitMm, AreaOk;
    StepKeeps(s, e);
    if !e.Spawn? {
      SoundSystemsFit(s, e.pid);
    }
    if e.Do? {
      LegalIsRoomy(s.mms[e.pid], e.op);
    }
  }

  /** The memory instructions of run(), on the process the kernel points at */
  method Dispatch(k: Krnl, op: Op) returns (out: Option<bv8>, ghost dropped: seq<nat>)
    requires k.Valid() && Legal(k.Abs().mm, op) && Roomy(op, k.Abs().mm)
    modifies Devices(k), Own(k.mm)
    ensures k.Valid() && Grown(k.Abs(), dropped) == Perform(old(k.Abs()), op)
    ensures out == if op.Read? then DoRead(old(k.Abs()), op.rgid, op.offset).1 else None
  {
    hide DoAlloc, DoFree, DoRead, DoWrite, Fitting, FitIndex, Moves, Growable, DecodeAll, PagesOf, Reversed, Clean;
    out, dropped := None, [];
    match op {
      case Alloc(rgid, size) =>
        var _, lost := k.Alloc(rgid, size);
        dropped := lost;
      case Free(rgid) =>
        var _ := k.Free(rgid);
      case Read(rgid, offset) =>
        out := k.Read(rgid, offset);
      case Write(rgid, offset, value) =>
        var _ := k.Write(rgid, offset, value);
    }
  }

  lemma BootFits(frames: nat, slots: nat)
    requires 0 < frames <= Pte.FPN_SPAN && 0 < slots <= Pte.SWPOFF_SPAN
    ensures var b := Processes.Boot(frames, slots);
            && Sound(b) && Fitting(Machine(b.ram, b.swp, InitMm()))
            && b.ram == Device(seq(frames, _ => ZeroPage()), seq(frames, i => i)) && b.mms == map[] && b.hand == {}
            && b.swp == Device(seq(slots, _ => ZeroPage()), seq(slots, i => i)[1..])
  {
    BootIsSound(frames, slots);
    InitIsOk();
    hide Inv;
    var s := Processes.Boot(frames, slots);
    StepKeeps(s, Event.Spawn(0));
    SoundSystemsFit(Step(s, Event.Spawn(0)), 0);
    assert Range(0, frames) == seq(frames, i => i) && Range(1, slots) == seq(slots, i => i)[1..];
  }

  /** The kernel all processes share, and the memory each of them has.  `hand` and `pool` are those of
      Sys, and Repr is every object below the kernel. */
  class Computer {
    const krnl: Krnl
    var mms: map<nat, MmStruct>
    ghost var hand: set<nat>
    ghost const pool: set<nat>
    ghost var Repr: set<object>

    /** No object belongs to two processes, or to a process and a device. */
    ghost predicate Apart()
      reads this
    {
      && krnl.mram != krnl.activeMswp && krnl.mram.storage != krnl.activeMswp.storage
      && krnl.mram.Valid() && krnl.activeMswp.Valid()
      && krnl.mram.maxsz / PAGE_SIZE <= Pte.FPN_SPAN && krnl.activeMswp.maxsz / PAGE_SIZE <= Pte.SWPOFF_SPAN
      && this as object != krnl && this !in Repr && krnl !in Repr && Devices(krnl) <= Repr
      && (forall p <- mms :: Own(mms[p]) <= Repr)
      && (forall p <- mms :: Own(mms[p]) !! Devices(krnl))
      && (forall p, q :: p in mms && q in mms && p != q ==> Own(mms[p]) !! Own(mms[q]))
    }

    ghost function Abs(): Sys
      requires Apart()
      reads this, Repr
    {
      Sys(krnl.mram.Abs(), krnl.activeMswp.Abs(), map p | p in mms :: mms[p].Abs(), hand, pool)
    }

    ghost predicate Valid()
      reads this, Repr
    {
      Intact() && Sound(Abs())
    }

    ghost predicate Intact()
      reads this, Repr
    {
      Apart() && forall p <- mms :: mms[p].Valid()
    }

    /** No process is loaded yet. */
    constructor (k: Krnl, ghost pool: set<nat>)
      requires k.mram != k.activeMswp && k.mram.storage != k.activeMswp.storage
      requires k.mram.Valid() && k.activeMswp.Valid()
      requires k.mram.maxsz / PAGE_SIZE <= Pte.FPN_SPAN && k.activeMswp.maxsz / PAGE_SIZE <= Pte.SWPOFF_SPAN
      requires Sound(Sys(k.mram.Abs(), k.activeMswp.Abs(), map[], {}, pool))
      ensures krnl == k && mms == map[] && Repr == Devices(k) && hand == {} && this.pool == pool
      ensures Intact() && Abs() == Sys(k.mram.Abs(), k.activeMswp.Abs(), map[], {}, pool)
    {
      krnl, mms, hand, this.pool, Repr := k, map[], {}, pool, Devices(k);
    }

    // Where the objects are

    lemma MemoryIsValid(p: nat)
      requires Intact() && p in mms
      ensures Apart() && mms[p].Valid() && this as object != krnl && krnl !in Repr && krnl !in Own(mms[p])
    {
      hide Own, MmStruct.Valid, MmStruct.Abs, MemPhy.Abs;
    }

    /** Every process can have the kernel pointed at it. */
    lemma CanWire(p: nat)
      requires Apart() && p in mms && mms[p].Valid() && krnl.mm == mms[p]
      ensures krnl.Wired() && krnl.Abs() == Focus(Abs(), p)
    {
      hide MmStruct.Valid, MmStruct.Abs, MemPhy.Abs;
      assert krnl.mram.storage in Devices(krnl) && krnl.activeMswp.storage in Devices(krnl);
      assert mms[p].pgd in Own(mms[p]) && mms[p].symrgtbl in Own(mms[p]);
    }

    lemma Facts(p: nat)
      requires Apart() && p in mms
      ensures Small(Abs()) && Abs().mms.Keys == mms.Keys && Abs().mms[p] == mms[p].Abs()
      ensures Abs().hand == hand && Abs().pool == pool
      ensures {this as object, krnl} !! Own(mms[p]) + Devices(krnl)
    {
      hide MmStruct.Valid, MmStruct.Abs;
    }

    lemma OwnsAreApart(p: nat, q: nat)
      requires Apart() && p in mms && q in mms && p != q
      ensures Own(mms[q]) !! Own(mms[p]) + Devices(krnl) + {this as object, krnl}
    {
      hide MmStruct.Valid, MmStruct.Abs, MemPhy.Abs;
    }

    twostate lemma SameMemory(mm: MmStruct)
      requires unchanged(Own(mm))
      ensures mm.Abs() == old(mm.Abs()) && (mm.Valid() <==> old(mm.Valid()))
    {
      hide MmStruct.Valid, MmStruct.Abs;
      assert Own(mm) == {mm, mm.pgd, mm.symrgtbl};
    }

    twostate lemma SameDevices()
      requires old(Apart()) && unchanged(Devices(krnl))
      ensures krnl.mram.Abs() == old(krnl.mram.Abs()) && krnl.activeMswp.Abs() == old(krnl.activeMswp.Abs())
    {
      hide MemPhy.Abs;
      assert krnl.mram in Devices(krnl) && krnl.mram.storage in Devices(krnl);
      assert krnl.activeMswp in Devices(krnl) && krnl.activeMswp.storage in Devices(krnl);
    }

    /** What one process does to its memory leaves that of the others alone. */
    twostate lemma OthersStay(p: nat)
      requires old(Intact()) && p in mms && mms == old(mms) && mms[p].Valid()
      requires Repr == old(Repr) && forall q | q in mms && q != p :: unchanged(Own(mms[q]))
      ensures Intact()
      ensures Abs() == Sys(krnl.mram.Abs(), krnl.activeMswp.Abs(), old(Abs()).mms[p := mms[p].Abs()], hand, pool)
    {
      hide Own, MmStruct.Valid, MmStruct.Abs, MemPhy.Abs;
      forall q | q in mms && q != p ensures mms[q].Abs() == old(mms[q].Abs()) && mms[q].Valid() {
        SameMemory(mms[q]);
      }
    }

    /** Processes leave, and the note of the frames in hand is rewritten. */
    twostate lemma Fewer(gone: set<nat>)
      requires old(Intact()) && mms == old(mms) - gone && Repr == old(Repr)
      requires unchanged(Devices(krnl)) && forall q | q in mms :: unchanged(Own(mms[q]))
      ensures Intact() && Abs() == old(Abs()).(mms := old(Abs()).mms - gone, hand := hand)
    {
      hide Own, Devices, MmStruct.Valid, MmStruct.Abs, MemPhy.Abs;
      assert old(Apart());
      SameDevices();
      forall q | q in mms ensures mms[q].Abs() == old(mms[q].Abs()) && mms[q].Valid() {
        SameMemory(mms[q]);
      }
    }

    // What happens to a process

    /** krnl->mm = proc->mm */
    method Point(p: nat)
      requires Intact() && p in mms && Fitting(Focus(Abs(), p))
      modifies krnl`mm
      ensures krnl.mm == mms[p] && Intact() && Abs() == old(Abs())
      ensures krnl.Valid() && krnl.Abs() == Focus(Abs(), p)
    {
      hide Intact, Apart, Abs, Fitting, MmStruct.Valid, MmStruct.Abs, MemPhy.Abs, Krnl.Wired;
      MemoryIsValid(p);
      krnl.mm := mms[p];
      CanWire(p);
    }

    /** An instruction of the process the kernel points at */
    method Apply(p: nat, op: Op) returns (out: Option<bv8>, ghost dropped: seq<nat>)
      requires Intact() && p in mms && krnl.mm == mms[p] && krnl.Valid()
      requires Legal(krnl.Abs().mm, op) && Roomy(op, krnl.Abs().mm)
      modifies Devices(krnl), Own(mms[p])
      ensures Intact() && mms == old(mms) && Repr == old(Repr) && hand == old(hand)
      ensures Grown(krnl.Abs(), dropped) == Perform(old(krnl.Abs()), op)
      ensures out == if op.Read? then DoRead(old(krnl.Abs()), op.rgid, op.offset).1 else None
      ensures Abs() == Put(old(Abs()), p, krnl.Abs(), hand)
    {
      hide Fitting, Legal, Roomy, Perform, DoRead, Apart, Abs, Devices, MmStruct.Valid, MmStruct.Abs, MemPhy.Abs;
      Facts(p);
      forall q | q in mms && q != p ensures Own(mms[q]) !! Own(mms[p]) + Devices(krnl) + {this as object, krnl} {
        OwnsAreApart(p, q);
      }
      out, dropped := Dispatch(krnl, op);
      OthersStay(p);
    }

    /** run() on a memory instruction of process p */
    method Act(p: nat, op: Op) returns (out: Option<bv8>)
      requires Intact() && p in mms && Abs().mms.Keys == mms.Keys
      requires Fitting(Focus(Abs(), p)) && Legal(Abs().mms[p], op) && Roomy(op, Abs().mms[p])
      modifies krnl`mm, this`hand, Devices(krnl), Own(mms[p])
      ensures Intact() && mms == old(mms) && Repr == old(Repr)
      ensures Abs() == After(old(Abs()), p, op)
      ensures out == if op.Read? then DoRead(old(Focus(Abs(), p)), op.rgid, op.offset).1 else None
    {
      hide Fitting, Legal, Roomy, Perform, DoRead, Apart, Abs, Devices, MmStruct.Valid, MmStruct.Abs, MemPhy.Abs;
      MemoryIsValid(p);
      Facts(p);
      Point(p);
      ghost var dropped;
      out, dropped := Apply(p, op);
      TakeInHand(ToSet(dropped));
    }

    /** A note of the frames that left the lists */
    ghost method TakeInHand(frames: set<nat>)
      requires Intact()
      modifies this`hand
      ensures Intact() && Abs() == old(Abs()).(hand := old(hand) + frames)
    {
      hide MmStruct.Valid, MmStruct.Abs, MemPhy.Abs;
      hand := hand + frames;
      Fewer({});
    }

    method GiveMemory(p: nat)
      requires Intact() && p !in mms
      modifies this`mms, this`Repr
      ensures Intact() && fresh(Repr - old(Repr))
      ensures Abs() == old(Abs()).(mms := old(Abs()).mms[p := InitMm()])
    {
      hide InitMm, MmStruct.Valid, MmStruct.Abs, MemPhy.Abs;
      var mm := new MmStruct();
      mms := mms[p := mm];
      Repr := Repr + Own(mm);
      Gained(p);
    }

    twostate lemma GainedApart(p: nat)
      requires old(Apart()) && p !in old(mms) && p in mms && mms == old(mms)[p := mms[p]] && Repr == old(Repr) + Own(mms[p])
      requires fresh(Own(mms[p]))
      ensures Apart()
    {
      hide Own;
      assert Own(mms[p]) !! old(Repr) + {this as object, krnl};
    }

    twostate lemma Gained(p: nat)
      requires old(Intact()) && p !in old(mms) && p in mms && mms == old(mms)[p := mms[p]] && Repr == old(Repr) + Own(mms[p])
      requires fresh(Own(mms[p])) && mms[p].Valid() && mms[p].Abs() == InitMm()
      requires unchanged(Devices(krnl)) && hand == old(hand) && forall q | q in old(mms) :: unchanged(Own(old(mms)[q]))
      ensures Intact() && Abs() == old(Abs()).(mms := old(Abs()).mms[p := InitMm()])
    {
      hide Apart, Own, Devices, InitMm, MmStruct.Valid, MmStruct.Abs, MemPhy.Abs;
      GainedApart(p);
      SameDevices();
      forall q | q in old(mms) ensures mms[q].Abs() == old(mms[q].Abs()) && mms[q].Valid() {
        SameMemory(old(mms)[q]);
      }
    }

    method DropMemory(p: nat)
      requires Intact() && p in mms
      modifies this`mms
      ensures Intact() && Abs() == old(Abs()).(mms := old(Abs()).mms - {p})
    {
      hide MmStruct.Valid, MmStruct.Abs, MemPhy.Abs;
      mms := mms - {p};
      Fewer({p});
    }

    /** free_pcb_memph for process p */
    method Release(p: nat)
      requires Intact() && p in mms && Fitting(Focus(Abs(), p))
      modifies krnl`mm, Devices(krnl)
      ensures Intact() && mms == old(mms)
      ensures Abs() == Put(old(Abs()), p, Collect(old(Focus(Abs(), p))), old(hand))
    {
      hide Fitting, Collect, Apart, Abs, MmStruct.Valid, MmStruct.Abs, MemPhy.Abs;
      MemoryIsValid(p);
      Facts(p);
      Point(p);
      krnl.FreePcbMemph();
      OthersStay(p);
    }

    // The same, as steps of a sound system

    /** The part of ld_routine that gives a process its memory */
    method Spawn(p: nat)
      requires Valid() && p !in mms
      modifies this`mms, this`Repr
      ensures Valid() && fresh(Repr - old(Repr))
      ensures Abs() == Step(old(Abs()), Event.Spawn(p))
    {
      hide Sound, InitMm, Apart, MmStruct.Valid;
      StepIsSound(Abs(), Event.Spawn(p));
      GiveMemory(p);
    }

    method Exit(p: nat)
      requires Valid() && p in mms
      modifies krnl`mm, this`mms, Devices(krnl)
      ensures Intact() && Abs() == Step(old(Abs()), Event.Exit(p))
      ensures Valid() && Repr == old(Repr)
    {
      hide Sound, Apart, Abs, MmStruct.Valid, MmStruct.Abs, Collect, Fitting;
      Facts(p);
      StepIsSound(Abs(), Event.Exit(p));
      Release(p);
      DropMemory(p);
    }

    method Exec(p: nat, op: Op) returns (out: Option<bv8>)
      requires Valid() && p in mms && Legal(mms[p].Abs(), op)
      modifies krnl`mm, this`hand, Devices(krnl), Own(mms[p])
      ensures Valid() && mms == old(mms) && Repr == old(Repr)
      ensures Abs() == Step(old(Abs()), Do(p, op)) && out == Flat.Out(old(Abs()), Do(p, op))
    {
      hide Sound, Apart, Abs, MmStruct.Valid, MmStruct.Abs, Fitting, Legal, Roomy, Perform, DoRead;
      Facts(p);
      StepIsSound(Abs(), Do(p, op));
      out := Act(p, op);
    }

    method Serve(e: Event) returns (out: Option<bv8>)
      requires Valid() && Processes.Enabled(Abs(), e)
      modifies this, krnl`mm, Repr
      ensures Valid() && fresh(Repr - old(Repr))
      ensures Abs() == Step(old(Abs()), e) && out == Flat.Out(old(Abs()), e)
    {
      hide Valid, Sound, Abs, Apart, Own, Devices, MmStruct.Valid, MmStruct.Abs, Legal, DoRead, Step;
      WhoIsThere();
      out := None;
      match e {
        case Spawn(p) => Spawn(p);
        case Exit(p) => Exit(p);
        case Do(p, op) => out := Exec(p, op);
      }
    }

    lemma WhoIsThere()
      requires Valid()
      ensures Apart() && Abs().mms.Keys == mms.Keys && Devices(krnl) <= Repr
      ensures forall p <- mms :: Abs().mms[p] == mms[p].Abs() && Own(mms[p]) <= Repr
    {
      hide Own, MmStruct.Valid, MmStruct.Abs, MemPhy.Abs;
    }

    /** Any sequence of events, in place, is the same run of the abstract system; and so it is a run of
        the flat machine with the results the reads return. */
    method Run(es: seq<Event>) returns (outs: seq<Option<bv8>>)
      requires Valid() && Processes.Possible(Abs(), es)
      modifies this, krnl`mm, Repr
      ensures Valid() && Abs() == Processes.Run(old(Abs()), es) && outs == Flat.Outs(old(Abs()), es)
      ensures Flat.Reaches(Flat.ViewAll(old(Abs())), es, Flat.ServedAll(old(Abs()), es), outs, Flat.ViewAll(Abs()))
    {
      hide Apart, Abs, MmStruct.Valid, MmStruct.Abs, SysOk, Step, Processes.Enabled, Flat.Out, Flat.ViewAll, Flat.Reaches;
      ghost var s := Abs();
      Flat.PagingImplementsFlatMemory(s, es);
      hide Sound;
      outs := [];
      assert es[0..] == es;
      for n := 0 to |es|
        invariant Valid() && fresh(Repr - old(Repr))
        invariant Processes.Possible(Abs(), es[n..]) && Processes.Run(Abs(), es[n..]) == Processes.Run(s, es)
        invariant outs + Flat.Outs(Abs(), es[n..]) == Flat.Outs(s, es)
      {
        assert es[n..][0] == es[n] && es[n..][1..] == es[n + 1..];
        ghost var before := Abs();
        var out := Serve(es[n]);
        assert Flat.Outs(before, es[n..]) == [out] + Flat.Outs(Abs(), es[n + 1..]);
        outs := outs + [out];
      }
    }
  }

  /** What main sets up, with slot 0 taken out of the swap device's list: the state Processes.Boot
      describes. */
  method Boot(ramSize: nat, swpSize: nat) returns (c: Computer)
    requires ramSize >= PAGE_SIZE && swpSize >= PAGE_SIZE
    requires ramSize / PAGE_SIZE <= Pte.FPN_SPAN && swpSize / PAGE_SIZE <= Pte.SWPOFF_SPAN
    ensures fresh(c) && fresh(c.krnl) && fresh(c.Repr)
    ensures c.Valid() && c.Abs() == Processes.Boot(ramSize / PAGE_SIZE, swpSize / PAGE_SIZE)
  {
    hide Fitting, Sound, InitMm, PagesOf, Processes.Boot, MmStruct.Valid, MmStruct.Abs, Computer.Apart, Computer.Abs;
    var mram := new MemPhy(ramSize);
    var mswp := new MemPhy(swpSize);
    var _ := mswp.GetFreeFp();
    var mm := new MmStruct();
    ghost var b := Processes.Boot(ramSize / PAGE_SIZE, swpSize / PAGE_SIZE);
    BootFits(ramSize / PAGE_SIZE, swpSize / PAGE_SIZE);
    var k := new Krnl(mram, mswp, mm);
    c := new Computer(k, b.pool);
  }
}
