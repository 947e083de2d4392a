/** A memory device and its free-frame list (mm-memphy.c, random-access mode). */
module Memphy {
  import opened Wrappers
  import opened Regions
  import opened Paging

  function PagesOf(bytes: seq<bv8>): (pages: seq<Page>)
    ensures |pages| == |bytes| / PAGE_SIZE && forall f :: 0 <= f < |pages| ==> |pages[f]| == PAGE_SIZE
  {
    seq(|bytes| / PAGE_SIZE, f requires 0 <= f < |bytes| / PAGE_SIZE => bytes[f * PAGE_SIZE..f * PAGE_SIZE + PAGE_SIZE])
  }

  /** `bytes` with the bytes from position `base` on replaced by `part` */
  function Patch(bytes: seq<bv8>, base: nat, part: seq<bv8>): (patched: seq<bv8>)
    requires base + |part| <= |bytes|
    ensures |patched| == |bytes|
  {
    bytes[..base] + part + bytes[base + |part|..]
  }

  /** Replacing the bytes of one frame replaces one page. */
  lemma PagesOfPatch(bytes: seq<bv8>, f: nat, page: Page)
    requires f < |bytes| / PAGE_SIZE && |page| == PAGE_SIZE
    ensures PagesOf(Patch(bytes, f * PAGE_SIZE, page)) == PagesOf(bytes)[f := page]
  {
    var patched := Patch(bytes, f * PAGE_SIZE, page);
    var pages := PagesOf(bytes)[f := page];
    forall k | 0 <= k < |pages| ensures PagesOf(patched)[k] == pages[k] {
      var b := k * PAGE_SIZE;
      assert k < f ==> patched[b..b + PAGE_SIZE] == bytes[b..b + PAGE_SIZE];
      assert k > f ==> patched[b..b + PAGE_SIZE] == bytes[b..b + PAGE_SIZE];
      assert k == f ==> patched[b..b + PAGE_SIZE] == page;
    }
  }

  lemma PagesOfByteChange(bytes: seq<bv8>, f: nat, o: nat, value: bv8)
    requires f < |bytes| / PAGE_SIZE && o < PAGE_SIZE
    ensures PagesOf(bytes[f * PAGE_SIZE + o := value]) == PagesOf(bytes)[f := PagesOf(bytes)[f][o := value]]
  {
    var page := PagesOf(bytes)[f][o := value];
    PagesOfPatch(bytes, f, page);
    assert bytes[f * PAGE_SIZE + o := value] == Patch(bytes, f * PAGE_SIZE, page);
  }

  class MemPhy {
    const maxsz: nat
    const storage: array<bv8>
    var freeFpList: seq<nat>

    ghost predicate Valid() { storage.Length == maxsz }

    ghost function Abs(): Device
      requires Valid()
      reads this, storage
    {
      Device(PagesOf(storage[..]), freeFpList)
    }

    /** init_memphy: zeroed storage, formatted; the list of a device smaller than a page is never set. */
    constructor (maxSize: nat)
      ensures Valid() && fresh(storage) && maxsz == maxSize && forall b <- storage[..] :: b == 0
      ensures maxSize >= PAGE_SIZE ==>
                Abs() == Device(seq(maxSize / PAGE_SIZE, _ => ZeroPage()), seq(maxSize / PAGE_SIZE, i => i))
    {
      maxsz := maxSize;
      storage := new bv8[maxSize](_ => 0);
      freeFpList := *;
      new;
      var _ := Format(PAGE_SIZE);
      forall f | 0 <= f < maxSize / PAGE_SIZE ensures PagesOf(storage[..])[f] == ZeroPage() {
      }
    }

    /** MEMPHY_format: the frames in ascending order, or no change when there is none. */
    method Format(pagesz: nat) returns (ok: bool)
      requires pagesz > 0
      modifies `freeFpList
      ensures ok == (maxsz / pagesz > 0)
      ensures freeFpList == if ok then seq(maxsz / pagesz, i => i) else old(freeFpList)
    {
      var numfp := maxsz / pagesz;
      if numfp <= 0 {
        return false;
      }
      freeFpList := [0];
      for iter := 1 to numfp
        invariant freeFpList == seq(iter, i => i)
      {
        freeFpList := freeFpList + [iter];
      }
      return true;
    }

    method GetFreeFp() returns (fpn: Option<nat>)
      modifies `freeFpList
      ensures old(freeFpList) == [] ==> fpn == None && freeFpList == []
      ensures old(freeFpList) != [] ==> fpn == Some(old(freeFpList)[0]) && freeFpList == old(freeFpList)[1..]
    {
      if freeFpList == [] {
        return None;
      }
      fpn := Some(freeFpList[0]);
      freeFpList := freeFpList[1..];
    }

    method PutFreeFp(fpn: nat)
      modifies `freeFpList
      ensures freeFpList == [fpn] + old(freeFpList)
    {
      freeFpList := [fpn] + freeFpList;
    }

    method Read(addr: nat) returns (value: Option<bv8>)
      requires Valid()
      ensures value == if addr < maxsz then Some(storage[addr]) else None
    {
      if addr >= maxsz {
        return None;
      }
      return Some(storage[addr]);
    }

    method Write(addr: nat, data: bv8) returns (ok: bool)
      requires Valid()
      modifies storage
      ensures ok == (addr < maxsz)
      ensures storage[..] == if ok then old(storage[..])[addr := data] else old(storage[..])
    {
      if addr >= maxsz {
        return false;
      }
      storage[addr] := data;
      return true;
    }

    /** memset of a whole frame to zero */
    method ClearFrame(f: nat)
      requires Valid() && f < maxsz / PAGE_SIZE
      modifies storage
      ensures Abs() == old(Abs()).With(f, ZeroPage())
    {
      var base := f * PAGE_SIZE;
      forall i | 0 <= i < PAGE_SIZE {
        storage[base + i] := 0;
      }
      assert storage[..] == Patch(old(storage[..]), base, ZeroPage());
      PagesOfPatch(old(storage[..]), f, ZeroPage());
    }
  }

  /** __swap_cp_page */
  method SwapCpPage(src: MemPhy, srcfpn: nat, dst: MemPhy, dstfpn: nat) returns (ok: bool)
    requires src.Valid() && dst.Valid() && src.storage != dst.storage
    modifies dst.storage
    ensures dst.Abs() == CopyPage(src.Abs(), srcfpn, old(dst.Abs()), dstfpn)
    ensures ok <==> srcfpn < src.maxsz / PAGE_SIZE && dstfpn < dst.maxsz / PAGE_SIZE
    ensures ok ==> dst.Abs() == old(dst.Abs()).(pages := old(dst.Abs()).pages[dstfpn := src.Abs().pages[srcfpn]])
    ensures !ok ==> dst.storage[..] == old(dst.storage[..])
  {
    var srcBase, dstBase := srcfpn * PAGE_SIZE, dstfpn * PAGE_SIZE;
    if srcBase + PAGE_SIZE > src.maxsz || dstBase + PAGE_SIZE > dst.maxsz {
      return false;
    }
    hide Patch;
    ghost var page := src.storage[srcBase..srcBase + PAGE_SIZE];
    PagesOfPatch(dst.storage[..], dstfpn, page);
    ok := CopyCells(src, srcBase, dst, dstBase);
    assert page == src.Abs().pages[srcfpn];
  }

  /** Its loop over the bytes of the page. */
  method CopyCells(src: MemPhy, srcBase: nat, dst: MemPhy, dstBase: nat) returns (ok: bool)
    requires src.Valid() && dst.Valid() && src.storage != dst.storage
    requires srcBase + PAGE_SIZE <= src.maxsz && dstBase + PAGE_SIZE <= dst.maxsz
    modifies dst.storage
    ensures ok && dst.storage[..] == Patch(old(dst.storage[..]), dstBase, src.storage[srcBase..srcBase + PAGE_SIZE])
  {
    hide Patch;
    ghost var page := src.storage[srcBase..srcBase + PAGE_SIZE];
    PatchStart(dst.storage[..], dstBase);
    for cell := 0 to PAGE_SIZE
      invariant dst.storage[..] == Patch(old(dst.storage[..]), dstBase, page[..cell])
    {
      var data := src.Read(srcBase + cell);
      if data.None? {
        return false;
      }
      var written := dst.Write(dstBase + cell, data.value);
      if !written {
        return false;
      }
      PatchStep(old(dst.storage[..]), dstBase, page, cell);
    }
    assert page[..PAGE_SIZE] == page;
    return true;
  }

  lemma PatchStart(bytes: seq<bv8>, base: nat)
    requires base <= |bytes|
    ensures Patch(bytes, base, []) == bytes
  {
  }

  lemma PatchStep(bytes: seq<bv8>, base: nat, page: Page, cell: nat)
    requires cell < |page| && base + |page| <= |bytes|
    ensures Patch(bytes, base, page[..cell])[base + cell := page[cell]] == Patch(bytes, base, page[..cell + 1])
  {
  }
}
