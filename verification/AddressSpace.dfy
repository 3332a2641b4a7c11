/** mm_struct with its memory areas: growth and area list of src/mm-vm.c, allocation and
    release of regions of src/libmem.c. */
module AddressSpace {
  import opened Wrappers
  import opened Words
  import opened Regions
  import opened Areas
  import opened FreeList

  class VmArea {
    const vmId: nat
    const vmStart: Word
    var vmEnd: Word
    var sbrk: Word
    const freerg: RegionList

    /** create_vm_area: one region without bytes is listed as free. */
    constructor (vmId: nat, vmStart: Word, vmEnd: Word)
      ensures View() == Area(vmId, vmStart, vmEnd, vmStart)
      ensures fresh(freerg) && freerg.Valid() && freerg.regions == [Rg(vmStart, vmStart)] && fresh(freerg.nodes)
    {
      this.vmId, this.vmStart, this.vmEnd, this.sbrk := vmId, vmStart, vmEnd, vmStart;
      freerg := new RegionList();
      new;
      var node := new RgNode(vmStart, vmStart, null, freerg);
      freerg.head, freerg.nodes, freerg.regions := node, [node], [Rg(vmStart, vmStart)];
    }

    ghost function View(): (a: Area)
      reads this
    {
      Area(vmId, vmStart, vmEnd, sbrk)
    }
  }

  class Mm {
    var mmap: seq<VmArea>       // in list order
    const symrgtbl: array<Rg>

    ghost var pool: set<RgNode>   // covers the free lists of all areas

    /** The areas are separate objects. */
    ghost predicate Distinct()
      reads this
    {
      forall i, j :: 0 <= i < j < |mmap| ==> mmap[i] != mmap[j]
    }

    /** And each has a proper free list of its own. */
    ghost predicate Valid()
      reads this, FreeLists(mmap), pool
    {
      && symrgtbl.Length == SYMTBL_SIZE
      && Distinct() && OwnLists(mmap)
      && forall i :: 0 <= i < |mmap| ==> Proper(mmap[i].freerg)
    }

    ghost predicate Proper(freerg: RegionList)
      reads this, freerg, pool
    {
      (forall n :: n in freerg.nodes ==> n in pool) && freerg.Valid()
    }

    ghost function List(): (l: seq<Area>)
      reads this, mmap
      ensures |l| == |mmap| && forall i :: 0 <= i < |mmap| ==> l[i] == mmap[i].View()
    {
      ViewsOf(mmap)
    }

    ghost function Frees(): (f: seq<seq<Rg>>)
      reads this, FreeLists(mmap)
    {
      FreesOf(mmap)
    }

    /** Area `i` of the list with the symbol table. */
    ghost function Room(i: nat): (sp: Space)
      requires i < |mmap|
      reads this, mmap[i], mmap[i].freerg, symrgtbl
    {
      Space(mmap[i].vmStart, mmap[i].vmEnd, mmap[i].sbrk, mmap[i].freerg.regions, symrgtbl[..])
    }

    /** init_mm, as far as areas and regions go. */
    constructor ()
      ensures Valid() && fresh(mmap) && symrgtbl.Length == 30 && List() == [Area(0, 0, 0, 0)] && Room(0) == InitSpace()
    {
      var vma0 := new VmArea(0, 0, 0);
      mmap := [vma0];
      symrgtbl := new Rg[SYMTBL_SIZE](_ => NO_REGION);
      pool := set n | n in vma0.freerg.nodes;
      new;
      assert symrgtbl[..] == InitSpace().sym;
    }

    /** get_vma_by_num: walks while numbers are smaller; null only for an empty list. Running
        off the end of the list is outside what the source defines. */
    method GetVmaByNum(vmaid: nat) returns (i: Option<nat>)
      requires mmap == [] || Find(List(), vmaid).Some?
      ensures i == Find(List(), vmaid)
    {
      if mmap == [] {
        return None;
      }
      var p := 0;
      while mmap[p].vmId < vmaid
        invariant 0 <= p < |mmap| && forall j :: 0 <= j < p ==> List()[j].id < vmaid
        decreases |mmap| - p
      {
        p := p + 1;
      }
      return Some(p);
    }

    /** validate_overlap_vm_area. */
    method ValidateOverlap(i: nat) returns (r: int)
      requires i < |mmap|
      ensures r == if Clear(List(), i) then 0 else -1
    {
      if mmap[i].vmStart >= mmap[i].vmEnd {
        return -1;
      }
      var j := 0;
      while j < |mmap|
        invariant 0 <= j <= |mmap|
        invariant forall k :: 0 <= k < j && k != i ==> !Overlap(List()[i], List()[k])
      {
        if j != i && mmap[i].vmStart < mmap[j].vmEnd && mmap[j].vmStart < mmap[i].vmEnd {
          assert Overlap(List()[i], List()[j]);
          return -1;
        }
        j := j + 1;
      }
      return 0;
    }

    /** inc_vma_limit; mapping the new pages afterwards maps none and cannot fail. */
    method IncVmaLimit(vmaid: nat, incSz: Word) returns (r: int)
      requires Distinct() && (mmap == [] || Find(List(), vmaid).Some?)
      modifies mmap
      ensures match Find(old(List()), vmaid)
              case None => r == -1 && List() == old(List())
              case Some(i) => (List(), r) == IncLimit(old(List()), i, incSz)
    {
      var found := GetVmaByNum(vmaid);
      if found.None? {
        return -1;
      }
      r := ExtendArea(found.value, incSz);
    }

    /** The area is extended, checked, and put back when it runs into another one. */
    method ExtendArea(i: nat, incSz: Word) returns (r: int)
      requires Distinct() && i < |mmap|
      modifies mmap[i]
      ensures (List(), r) == IncLimit(old(List()), i, incSz)
    {
      ghost var l := List();
      var oldSbrk, oldEnd := mmap[i].sbrk, mmap[i].vmEnd;
      SetLimits(i, Plus(oldEnd, Aligned(incSz)), Plus(oldSbrk, incSz));
      assert List() == l[i := Extended(l[i], incSz)];
      r := ValidateOverlap(i);
      if r < 0 {
        SetLimits(i, oldEnd, oldSbrk);
        assert List() == l;
      }
    }

    method SetLimits(i: nat, vmEnd: Word, sbrk: Word)
      requires Distinct() && i < |mmap|
      modifies mmap[i]
      ensures mmap[i].vmEnd == vmEnd && mmap[i].sbrk == sbrk
      ensures List() == old(List())[i := old(List())[i].(end := vmEnd, sbrk := sbrk)]
    {
      ghost var l := List();
      mmap[i].vmEnd := vmEnd;
      mmap[i].sbrk := sbrk;
      forall j | 0 <= j < |mmap| && j != i
        ensures mmap[j].View() == l[j]
      {
        assert mmap[j] != mmap[i];
      }
    }

    /** add_vm_area: refused when the new area overlaps one of the list, else linked in by
        number. */
    method AddVmArea(newVma: VmArea) returns (r: int)
      requires Valid() && Apart(newVma)
      modifies `mmap, `pool
      ensures Valid()
      ensures r == if OverlapsNone(old(List()), newVma.View()) then 0 else -1
      ensures List() == if r == 0 then Inserted(old(List()), newVma.View()) else old(List())
    {
      ghost var l := List();
      r := CheckNew(newVma);
      if r == 0 {
        var p := Place(newVma.vmId);
        Link(newVma, p);
      }
    }

    /** An area that is not on the list and has a proper free list of its own. */
    ghost predicate Apart(vma: VmArea)
      reads this, vma.freerg, vma.freerg.nodes
    {
      vma.freerg.Valid() && forall i :: 0 <= i < |mmap| ==> mmap[i] != vma && mmap[i].freerg != vma.freerg
    }

    method Link(newVma: VmArea, p: nat)
      requires Valid() && Apart(newVma) && p <= |mmap|
      modifies `mmap, `pool
      ensures Valid()
      ensures List() == old(List())[..p] + [newVma.View()] + old(List())[p..]
    {
      InsertedViews(mmap, p, newVma);
      InsertedApart(mmap, p, newVma);
      mmap := mmap[..p] + [newVma] + mmap[p..];
      pool := pool + set n | n in newVma.freerg.nodes;
    }

    method CheckNew(newVma: VmArea) returns (r: int)
      ensures r == if OverlapsNone(List(), newVma.View()) then 0 else -1
    {
      var cur := 0;
      while cur < |mmap|
        invariant 0 <= cur <= |mmap|
        invariant forall j :: 0 <= j < cur ==> !Overlap(List()[j], newVma.View())
      {
        if mmap[cur].vmStart < newVma.vmEnd && newVma.vmStart < mmap[cur].vmEnd {
          assert Overlap(List()[cur], newVma.View());
          return -1;
        }
        cur := cur + 1;
      }
      return 0;
    }

    /** The insertion point. */
    method Place(vmId: nat) returns (p: nat)
      ensures p == Position(List(), vmId)
    {
      if mmap == [] || mmap[0].vmId > vmId {
        return 0;
      }
      ghost var l := List();
      p := 1;
      while p < |mmap| && mmap[p].vmId < vmId
        invariant 1 <= p <= |mmap|
        invariant forall j :: 1 <= j < p ==> l[j].id < vmId
      {
        p := p + 1;
      }
      SmallerIs(l[1..], vmId, p - 1);
    }

    /** remove_vm_area. */
    method RemoveVmArea(vmaid: nat) returns (r: int)
      requires Valid()
      modifies `mmap
      ensures Valid()
      ensures List() == Removed(old(List()), vmaid)
      ensures r == if exists j :: 0 <= j < |old(mmap)| && old(List())[j].id == vmaid then 0 else -1
    {
      ghost var l := List();
      var cur := 0;
      while cur < |mmap| && mmap[cur].vmId != vmaid
        invariant 0 <= cur <= |mmap|
        invariant forall j :: 0 <= j < cur ==> l[j].id != vmaid
      {
        cur := cur + 1;
      }
      RemovedIs(l, vmaid, cur);
      if cur == |mmap| {
        return -1;
      }
      assert l[cur].id == vmaid;
      Unlink(cur);
      return 0;
    }

    method Unlink(p: nat)
      requires Valid() && p < |mmap|
      modifies `mmap
      ensures Valid()
      ensures List() == old(List())[..p] + old(List())[p + 1..]
    {
      ghost var l, was := List(), mmap;
      mmap := mmap[..p] + mmap[p + 1..];
      forall i | 0 <= i < |mmap|
        ensures List()[i] == (l[..p] + l[p + 1..])[i]
      {
        assert mmap[i] == was[if i < p then i else i + 1];
      }
    }

    /** __alloc on the area that get_vma_by_num finds. `krnlMm` is the mm_struct that the
        kernel grows; `grows` is whether it is this one and growing it succeeded. */
    method Alloc(krnlMm: Mm?, vmaid: nat, rgid: nat, size: Word) returns (r: int, addr: Word, ghost grows: bool)
      requires Valid() && rgid < SYMTBL_SIZE && (mmap == [] || Find(List(), vmaid).Some?)
      requires krnlMm != null ==> Growable(krnlMm, vmaid)
      modifies symrgtbl, mmap, FreeLists(mmap), pool
      modifies if krnlMm == null then [] else krnlMm.mmap
      ensures Valid()
      ensures match Find(old(List()), vmaid)
              case None => r == -1 && symrgtbl[..] == old(symrgtbl[..])
              case Some(i) =>
                && r == 0 && (Room(i), addr) == Regions.Alloc(old(Room(i)), rgid, size, grows)
                && (grows <==> GetFree(old(Room(i)).free, size).1.None?
                               && krnlMm == this && IncLimit(old(List()), i, size).1 == 0)
                && List() == (if grows then IncLimit(old(List()), i, size).0 else old(List()))
                && Frees() == old(Frees())[i := Room(i).free]
    {
      addr, grows := 0, false;
      var found := GetVmaByNum(vmaid);
      if found.None? {
        return -1, addr, grows;
      }
      addr, grows := AllocIn(krnlMm, vmaid, found.value, rgid, size);
      return 0, addr, grows;
    }

    /** The rest of __alloc, once the area is found. */
    method AllocIn(krnlMm: Mm?, vmaid: nat, i: nat, rgid: nat, size: Word) returns (addr: Word, ghost grows: bool)
      requires Valid() && rgid < SYMTBL_SIZE && Find(List(), vmaid) == Some(i)
      requires krnlMm != null ==> Growable(krnlMm, vmaid)
      modifies symrgtbl, mmap[i].freerg, mmap[i].freerg.nodes
      modifies if krnlMm == null then [] else krnlMm.mmap
      ensures Valid()
      ensures (Room(i), addr) == Regions.Alloc(old(Room(i)), rgid, size, grows)
      ensures grows <==> GetFree(old(Room(i)).free, size).1.None?
                         && krnlMm == this && IncLimit(old(List()), i, size).1 == 0
      ensures List() == if grows then IncLimit(old(List()), i, size).0 else old(List())
      ensures Frees() == old(Frees())[i := mmap[i].freerg.regions]
    {
      grows := false;
      var got, rgnode := TakeFree(i, size);
      if got == 0 {
        addr := rgnode.start;
        SetSymbol(rgid, rgnode);
      } else {
        addr, grows := AllocAtBreak(krnlMm, vmaid, i, rgid, size);
      }
    }

    method SetSymbol(rgid: nat, rg: Rg)
      requires Valid() && rgid < SYMTBL_SIZE
      modifies symrgtbl
      ensures Valid() && List() == old(List()) && Frees() == old(Frees())
      ensures symrgtbl[..] == old(symrgtbl[..])[rgid := rg]
    {
      symrgtbl[rgid] := rg;
    }

    /** The areas of the kernel's mm_struct are in order of number and, unless it is this
        very mm_struct, none of this one's. */
    ghost predicate Growable(krnlMm: Mm, vmaid: nat)
      reads this, krnlMm, krnlMm.mmap
    {
      && krnlMm.Distinct() && (krnlMm.mmap == [] || Find(krnlMm.List(), vmaid).Some?)
      && (krnlMm != this ==> forall a :: a in krnlMm.mmap ==> a !in mmap)
    }

    /** get_free_vmrg_area on area `i`; the other areas keep their free lists. */
    method TakeFree(i: nat, size: Word) returns (r: int, rgnode: Rg)
      requires Valid() && i < |mmap|
      modifies mmap[i].freerg, mmap[i].freerg.nodes
      ensures Valid() && List() == old(List()) && (r == 0 || r == -1)
      ensures (mmap[i].freerg.regions, if r == 0 then Some(rgnode) else None)
              == GetFree(old(mmap[i].freerg.regions), size)
      ensures Frees() == old(Frees())[i := mmap[i].freerg.regions]
    {
      r, rgnode := mmap[i].freerg.GetFreeVmrgArea(size);
    }

    /** No free region has room: the region starts at the old break. */
    method AllocAtBreak(krnlMm: Mm?, vmaid: nat, i: nat, rgid: nat, size: Word) returns (addr: Word, ghost grows: bool)
      requires Valid() && rgid < SYMTBL_SIZE && Find(List(), vmaid) == Some(i)
      requires krnlMm != null ==> Growable(krnlMm, vmaid)
      modifies symrgtbl, if krnlMm == null then [] else krnlMm.mmap
      ensures Valid()
      ensures grows <==> krnlMm == this && IncLimit(old(List()), i, size).1 == 0
      ensures List() == if grows then IncLimit(old(List()), i, size).0 else old(List())
      ensures Frees() == old(Frees())
      ensures addr == ThroughInt(old(Room(i)).sbrk)
      ensures var sp := if grows then Grown(old(Room(i)), size) else old(Room(i));
              Room(i) == sp.(sym := sp.sym[rgid := Rg(addr, Plus(addr, size))])
    {
      ghost var l := List();
      addr := ThroughInt(mmap[i].sbrk);
      grows := Grow(krnlMm, vmaid, i, size);
      assert List()[i] == if grows then Extended(l[i], size) else l[i];
      SetSymbol(rgid, Rg(addr, Plus(addr, size)));
    }

    /** The system call in __alloc: inc_vma_limit on the kernel's mm_struct; its result is
        not looked at. */
    method Grow(krnlMm: Mm?, vmaid: nat, ghost i: nat, size: Word) returns (ghost grows: bool)
      requires Valid() && Find(List(), vmaid) == Some(i)
      requires krnlMm != null ==> Growable(krnlMm, vmaid)
      modifies if krnlMm == null then [] else krnlMm.mmap
      ensures Valid() && Frees() == old(Frees())
      ensures grows <==> krnlMm == this && IncLimit(old(List()), i, size).1 == 0
      ensures List() == if grows then IncLimit(old(List()), i, size).0 else old(List())
    {
      grows := false;
      if krnlMm == null {
        return;
      }
      if krnlMm == this {
        var r := IncVmaLimit(vmaid, size);
        grows := r == 0;
      } else {
        GrowOther(krnlMm, vmaid, size);
      }
    }

    method GrowOther(krnlMm: Mm, vmaid: nat, size: Word)
      requires Valid() && Growable(krnlMm, vmaid) && krnlMm != this
      modifies krnlMm.mmap
      ensures Valid() && Frees() == old(Frees()) && List() == old(List())
    {
      ghost var l := List();
      var _ := krnlMm.IncVmaLimit(vmaid, size);
      forall j | 0 <= j < |mmap|
        ensures mmap[j].View() == l[j]
      {
        assert mmap[j] !in krnlMm.mmap;
      }
    }

    /** __free. Symbol 30 is one past the table, which the source does not rule out. */
    method Free(rgid: int) returns (r: int)
      requires Valid() && mmap != [] && rgid != SYMTBL_SIZE
      modifies symrgtbl, mmap[0].freerg, `pool
      ensures Valid()
      ensures if 0 <= rgid < 30 then (Room(0), r) == Regions.Free(old(Room(0)), rgid)
              else r == -1 && Room(0) == old(Room(0))
    {
      if rgid < 0 || rgid > SYMTBL_SIZE {
        return -1;
      }
      var rgnode := symrgtbl[rgid];
      if rgnode.start == 0 && rgnode.end == 0 {
        return -1;
      }
      symrgtbl[rgid] := NO_REGION;
      PutFree(rgnode);
      return 0;
    }

    /** enlist_vm_freerg_list always takes the first area. */
    method PutFree(rgnode: Rg)
      requires Valid() && mmap != []
      modifies mmap[0].freerg, `pool
      ensures Valid()
      ensures var l := old(mmap[0].freerg.regions);
              mmap[0].freerg.regions == if rgnode.start >= rgnode.end then l else [rgnode] + l
    {
      var freerg := mmap[0].freerg;
      var _ := freerg.Enlist(rgnode.start, rgnode.end);
      pool := pool + set n | n in freerg.nodes;
      forall i | 0 <= i < |mmap|
        ensures Proper(mmap[i].freerg)
      {
        if i > 0 {
          assert mmap[0].freerg != mmap[i].freerg;
        }
      }
    }
  }

  lemma {:induction false} SmallerIs(l: seq<Area>, id: nat, n: nat)
    requires n <= |l| && (forall j :: 0 <= j < n ==> l[j].id < id) && (n < |l| ==> l[n].id >= id)
    ensures Smaller(l, id) == n
  {
  }

  lemma InsertedViews(s: seq<VmArea>, p: nat, a: VmArea)
    requires p <= |s|
    ensures ViewsOf(s[..p] + [a] + s[p..]) == ViewsOf(s)[..p] + [a.View()] + ViewsOf(s)[p..]
  {
  }

  ghost function FreesOf(s: seq<VmArea>): (f: seq<seq<Rg>>)
    reads FreeLists(s)
    ensures |f| == |s| && forall i :: 0 <= i < |s| ==> f[i] == s[i].freerg.regions
  {
    seq(|s|, i requires 0 <= i < |s| reads FreeLists(s) => s[i].freerg.regions)
  }

  ghost predicate OwnLists(areas: seq<VmArea>) {
    forall i, j :: 0 <= i < j < |areas| ==> areas[i].freerg != areas[j].freerg
  }

  lemma InsertedApart(s: seq<VmArea>, p: nat, a: VmArea)
    requires p <= |s| && OwnLists(s) && forall i :: 0 <= i < |s| ==> s[i].freerg != a.freerg
    ensures OwnLists(s[..p] + [a] + s[p..])
  {
  }

  ghost function FreeLists(areas: seq<VmArea>): (s: set<RegionList>) {
    set a | a in areas :: a.freerg
  }

  ghost function ViewsOf(s: seq<VmArea>): (l: seq<Area>)
    reads s
    ensures |l| == |s| && forall i :: 0 <= i < |s| ==> l[i] == s[i].View()
  {
    seq(|s|, i requires 0 <= i < |s| reads s => s[i].View())
  }
}
