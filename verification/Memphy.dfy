/** The random-access physical memory device of src/mm-memphy.c. */
module Memphy {
  import opened Words
  import opened Frames

  /** A frame of the used list with its owner. */
  datatype Used = Used(fpn: nat, owner: nat)

  function Fpns(l: seq<Used>): (f: seq<nat>)
    ensures |f| == |l| && forall i :: 0 <= i < |l| ==> f[i] == l[i].fpn
  {
    if l == [] then [] else [l[0].fpn] + Fpns(l[1..])
  }

  /** The frames of both lists together. */
  function AllFrames(free: seq<nat>, used: seq<Used>): (m: multiset<nat>) {
    multiset(free) + multiset(Fpns(used))
  }

  /** A frame that moves from one list to the head of the other is neither lost nor doubled. */
  lemma MovingConserves(free: seq<nat>, used: seq<Used>, k: nat)
    requires k < |used|
    ensures AllFrames([used[k].fpn] + free, used[..k] + used[k + 1..]) == AllFrames(free, used)
  {
    var f := Fpns(used);
    assert f == f[..k] + [f[k]] + f[k + 1..];
    assert Fpns(used[..k] + used[k + 1..]) == f[..k] + f[k + 1..];
  }

  /** The bytes `was` after the first `n` bytes of `page` have been written from `lo` on. */
  function Partly(was: seq<Byte>, lo: nat, page: seq<Byte>, n: nat): (b: seq<Byte>)
    requires n <= |page| && lo + |page| <= |was|
    ensures |b| == |was|
  {
    was[..lo] + page[..n] + was[lo + n..]
  }

  lemma OneByteMore(was: seq<Byte>, lo: nat, page: seq<Byte>, n: nat)
    requires n < |page| && lo + |page| <= |was|
    ensures Partly(was, lo, page, n)[lo + n := page[n]] == Partly(was, lo, page, n + 1)
  {
    assert page[..n + 1] == page[..n] + [page[n]];
  }

  class PhysicalMemory {
    const storage: array<Byte>
    var freeFp: seq<nat>       // free_fp_list, head first
    var usedFp: seq<Used>      // used_fp_list, head first

    ghost function View(): Dev
      reads this, storage
    {
      Dev(storage[..], freeFp)
    }

    /** init_memphy with MEMPHY_format: zeroed bytes, frames 0, 1, ... in order; a device
        without a whole frame gets no free list. The link of a lone frame is never set, so
        anything may follow it. */
    constructor (maxsz: nat)
      ensures fresh(storage) && storage.Length == maxsz
      ensures forall a :: 0 <= a < maxsz ==> storage[a] == 0
      ensures |freeFp| >= maxsz / PAGING_PAGESZ && usedFp == []
      ensures maxsz / PAGING_PAGESZ != 1 ==> |freeFp| == maxsz / PAGING_PAGESZ
      ensures forall f :: 0 <= f < maxsz / PAGING_PAGESZ ==> freeFp[f] == f
    {
      storage := new Byte[maxsz](_ => 0);
      freeFp, usedFp := [], [];
      new;
      var numfp := maxsz / PAGING_PAGESZ;
      if numfp > 0 {
        freeFp := [0];
        for iter := 1 to numfp
          invariant usedFp == [] && forall a :: 0 <= a < maxsz ==> storage[a] == 0
          invariant |freeFp| == iter && forall f :: 0 <= f < |freeFp| ==> freeFp[f] == f
        {
          freeFp := freeFp + [iter];
        }
        if numfp == 1 {
          var unset: seq<nat> := *;
          freeFp := freeFp + unset;
        }
      }
    }

    /** MEMPHY_get_freefp: the head of the free list, or -1. */
    method GetFreeFp() returns (r: int, fpn: nat)
      modifies `freeFp
      ensures r == if old(freeFp) == [] then -1 else 0
      ensures r == 0 ==> old(freeFp) == [fpn] + freeFp
      ensures r == -1 ==> freeFp == old(freeFp)
    {
      if freeFp == [] {
        return -1, 0;
      }
      r, fpn := 0, freeFp[0];
      freeFp := freeFp[1..];
    }

    /** MEMPHY_put_freefp: the frame is handed out next. */
    method PutFreeFp(fpn: nat)
      modifies `freeFp
      ensures freeFp == [fpn] + old(freeFp)
    {
      freeFp := [fpn] + freeFp;
    }

    /** MEMPHY_get_usedfp: moves the head of the free list, whatever frame is asked for. */
    method GetUsedFp(fpn: nat, owner: nat) returns (r: int)
      modifies `freeFp, `usedFp
      ensures r == if old(freeFp) == [] then -1 else 0
      ensures r == -1 ==> freeFp == old(freeFp) && usedFp == old(usedFp)
      ensures r == 0 ==> usedFp == [Used(old(freeFp)[0], owner)] + old(usedFp) && freeFp == old(freeFp)[1..]
      ensures r == 0 ==> (usedFp[0].fpn == fpn <==> old(freeFp)[0] == fpn)
      ensures AllFrames(freeFp, usedFp) == old(AllFrames(freeFp, usedFp))
    {
      var allocatedFpn;
      r, allocatedFpn := GetFreeFp();
      if r < 0 {
        return -1;
      }
      usedFp := [Used(allocatedFpn, owner)] + usedFp;
      MovingConserves(freeFp, usedFp, 0);
      assert usedFp[1..] == old(usedFp) && usedFp[..0] + usedFp[1..] == old(usedFp);
      return 0;
    }

    /** MEMPHY_remove_usedfp: unlinks the first node with the frame. */
    method RemoveUsedFp(fpn: nat) returns (r: int, ghost k: nat)
      modifies `usedFp
      ensures r == if fpn in Fpns(old(usedFp)) then 0 else -1
      ensures r == -1 ==> usedFp == old(usedFp)
      ensures r == 0 ==> k < |old(usedFp)| && old(usedFp)[k].fpn == fpn && fpn !in Fpns(old(usedFp))[..k]
      ensures r == 0 ==> usedFp == old(usedFp)[..k] + old(usedFp)[k + 1..]
    {
      var curr := 0;
      k := 0;
      while curr < |usedFp|
        invariant curr <= |usedFp| && usedFp == old(usedFp) && fpn !in Fpns(usedFp)[..curr]
      {
        if usedFp[curr].fpn == fpn {
          assert Fpns(usedFp)[curr] == fpn;
          k := curr;
          usedFp := usedFp[..curr] + usedFp[curr + 1..];
          return 0, k;
        }
        curr := curr + 1;
      }
      return -1, k;
    }

    /** MEMPHY_free_usedfp. */
    method FreeUsedFp(fpn: nat) returns (r: int)
      modifies `freeFp, `usedFp
      ensures r == if fpn in Fpns(old(usedFp)) then 0 else -1
      ensures r == 0 ==> freeFp == [fpn] + old(freeFp)
      ensures AllFrames(freeFp, usedFp) == old(AllFrames(freeFp, usedFp))
    {
      ghost var k;
      r, k := RemoveUsedFp(fpn);
      if r < 0 {
        return -1;
      }
      MovingConserves(freeFp, old(usedFp), k);
      PutFreeFp(fpn);
      return 0;
    }

    /** MEMPHY_read: nothing is read beyond the end. */
    method Read(addr: nat) returns (r: int, value: Byte)
      ensures r == if addr < storage.Length then 0 else -1
      ensures r == 0 ==> value == storage[addr]
    {
      if addr >= storage.Length {
        return -1, 0;
      }
      return 0, storage[addr];
    }

    /** MEMPHY_write: nothing is written beyond the end. */
    method Write(addr: nat, data: Byte) returns (r: int)
      modifies storage
      ensures r == if addr < storage.Length then 0 else -1
      ensures storage[..] == if addr < storage.Length then old(storage[..])[addr := data] else old(storage[..])
    {
      if addr >= storage.Length {
        return -1;
      }
      storage[addr] := data;
      return 0;
    }

    /** The zero-fill loop of pg_getpage. */
    method ZeroFill(fpn: nat)
      requires fpn < storage.Length / PAGING_PAGESZ
      modifies storage
      ensures View() == PutPage(old(View()), fpn, ZeroPage())
    {
      ghost var was, page := storage[..], ZeroPage();
      var i := 0;
      assert Partly(was, fpn * PAGING_PAGESZ, page, 0) == was;
      while i < PAGING_PAGESZ
        invariant 0 <= i <= PAGING_PAGESZ
        invariant storage[..] == Partly(was, fpn * PAGING_PAGESZ, page, i)
      {
        var _ := Write(fpn * PAGING_PAGESZ + i, 0);
        OneByteMore(was, fpn * PAGING_PAGESZ, page, i);
        i := i + 1;
      }
      assert page[..i] == page;
    }
  }

  /** __swap_cp_page: one frame copied byte by byte to another device. */
  method SwapCpPage(src: PhysicalMemory, srcfpn: nat, dst: PhysicalMemory, dstfpn: nat)
    requires src.storage != dst.storage
    requires srcfpn < src.storage.Length / PAGING_PAGESZ && dstfpn < dst.storage.Length / PAGING_PAGESZ
    modifies dst.storage
    ensures dst.View() == PutPage(old(dst.View()), dstfpn, PageOf(old(src.View()), srcfpn))
  {
    ghost var was, page := dst.storage[..], PageOf(src.View(), srcfpn);
    var cellidx := 0;
    assert Partly(was, dstfpn * PAGING_PAGESZ, page, 0) == was;
    while cellidx < PAGING_PAGESZ
      invariant 0 <= cellidx <= PAGING_PAGESZ
      invariant dst.storage[..] == Partly(was, dstfpn * PAGING_PAGESZ, page, cellidx)
    {
      var addrsrc := srcfpn * PAGING_PAGESZ + cellidx;
      var addrdst := dstfpn * PAGING_PAGESZ + cellidx;
      var _, data := src.Read(addrsrc);
      assert data == page[cellidx];
      var _ := dst.Write(addrdst, data);
      OneByteMore(was, dstfpn * PAGING_PAGESZ, page, cellidx);
      cellidx := cellidx + 1;
    }
    assert page[..cellidx] == page;
  }
}
