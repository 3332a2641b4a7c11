/** The demand pager of src/libmem.c as it runs: on a process with its page directory and
    FIFO list, and on the two devices. */
module Pager {
  import opened Words
  import opened Radix
  import opened Frames
  import opened Memphy
  import opened PageTable
  import opened Paging

  /** The paging part of a process: mm->pgd and mm->fifo_pgn. */
  class Process {
    const dir: PageDirectory
    var fifo: seq<Word>        // newest page first

    ghost function View(): Proc
      reads this, dir
    {
      Proc(dir.entries, fifo)
    }

    constructor (mallocs: nat)
      ensures fresh(dir) && dir.Valid() && dir.pgd != 0 && dir.mallocs == mallocs
      ensures View() == Proc(map[], [])
    {
      dir := new PageDirectory(mallocs);
      fifo := [];
    }

    /** enlist_pgn_node. */
    method EnlistPgnNode(pgn: Word)
      modifies `fifo
      ensures fifo == [pgn] + old(fifo)
    {
      fifo := [pgn] + fifo;
    }

    /** find_victim_page: unlinks the last page of the list. Unlinking needs the node before
        it: a list with one element is not a valid argument. */
    method FindVictimPage() returns (r: int, retpgn: Word)
      requires |fifo| != 1
      modifies `fifo
      ensures r == if old(fifo) == [] then -1 else 0
      ensures old(fifo) == if r == -1 then fifo else fifo + [retpgn]
    {
      if fifo == [] {
        return -1, 0;
      }
      var pg := 0;
      while pg + 1 < |fifo|
        invariant 0 <= pg < |fifo|
      {
        pg := pg + 1;
      }
      r, retpgn := 0, fifo[pg];
      fifo := fifo[..pg];
    }
  }

  /** Two devices and a process, as the functions of module Paging see them. */
  ghost function Seen(ram: PhysicalMemory, swp: PhysicalMemory, p: Process): (v: View)
    reads ram, ram.storage, swp, swp.storage, p, p.dir
  {
    View(ram.View(), swp.View(), p.View())
  }

  ghost predicate Apart(ram: PhysicalMemory, swp: PhysicalMemory) {
    ram != swp && ram.storage != swp.storage
    && ram.storage.Length < 0x8000_0000 && swp.storage.Length < 0x8000_0000
  }

  ghost predicate Mapped(p: Process)
    reads p, p.dir
  {
    p.dir.Valid() && p.dir.pgd != 0
  }

  /** The part of pg_getpage that makes room: a free frame, or the frame of a victim. */
  method ObtainFrame(ram: PhysicalMemory, swp: PhysicalMemory, p: Process, ghost pgn: Word)
    returns (r: int, tgtfpn: nat)
    requires Apart(ram, swp) && Mapped(p)
    requires Ready(Seen(ram, swp, p), pgn) && !IsPresent(EntryOf(Seen(ram, swp, p), pgn))
    modifies ram`freeFp, swp`freeFp, swp.storage, p`fifo, p.dir
    ensures Mapped(p) && p.dir.mallocs == old(p.dir.mallocs)
    ensures p.dir.MissingFor(pgn) == old(p.dir.MissingFor(pgn))
    ensures var (v, f) := Obtain(old(Seen(ram, swp, p)));
            && Seen(ram, swp, p) == v
            && r == (if f.None? then -1 else 0)
            && (f.Some? ==> tgtfpn == f.value < ram.storage.Length / PAGING_PAGESZ)
  {
    r, tgtfpn := ram.GetFreeFp();
    if r == -1 {
      var vicpgn;
      r, vicpgn := p.FindVictimPage();
      if r == -1 {
        return;
      }
      var vicpte := p.dir.PteGetEntry(vicpgn);
      var vicfpn := Fpn(vicpte);
      var victimSwpfpn;
      r, victimSwpfpn := swp.GetFreeFp();
      if r == -1 {
        return;
      }
      SwapOut(ram, swp, p, vicpgn, vicfpn, victimSwpfpn, pgn);
      tgtfpn := vicfpn;
    }
  }

  /** The victim's bytes are copied and its entry is marked; no table is allocated for it. */
  method SwapOut(ram: PhysicalMemory, swp: PhysicalMemory, p: Process, vicpgn: Word, vicfpn: nat, out: nat,
                 ghost pgn: Word)
    requires Apart(ram, swp) && Mapped(p) && Online(Look(p.dir.entries, Key(vicpgn)))
    requires vicfpn < ram.storage.Length / PAGING_PAGESZ && out < swp.storage.Length / PAGING_PAGESZ
    modifies swp.storage, p.dir
    ensures Mapped(p) && p.dir.mallocs == old(p.dir.mallocs) && p.dir.MissingFor(pgn) == old(p.dir.MissingFor(pgn))
    ensures swp.View() == PutPage(old(swp.View()), out, PageOf(old(ram.View()), vicfpn))
    ensures p.dir.entries ==
            old(p.dir.entries)[Key(vicpgn) := SwappedOut(Look(old(p.dir.entries), Key(vicpgn)), 0, out)]
  {
    SwapCpPage(ram, vicfpn, swp, out);
    p.dir.NothingMissing(vicpgn);
    var _ := p.dir.PteSetSwap(vicpgn, 0, out);
  }

  /** Table allocation does not fail for page `pgn`: it has an entry, or memory is left. */
  ghost predicate TablesFit(p: Process, pgn: Word)
    reads p, p.dir
  {
    IsPresent(Look(p.dir.entries, Key(pgn))) || p.dir.mallocs >= p.dir.MissingFor(pgn)
  }

  /** pg_getpage. `tabled` is whether the ignored result of pte_set_fpn was 0. */
  method PgGetPage(ram: PhysicalMemory, swp: PhysicalMemory, p: Process, pgn: Word)
    returns (r: int, fpn: nat, ghost tabled: bool)
    requires Apart(ram, swp) && Mapped(p) && Ready(Seen(ram, swp, p), pgn)
    modifies ram`freeFp, ram.storage, swp`freeFp, swp.storage, p`fifo, p.dir
    ensures Mapped(p)
    ensures var (v, f) := GetPage(old(Seen(ram, swp, p)), pgn, tabled);
            && Seen(ram, swp, p) == v
            && r == (if f.None? then -1 else 0)
            && (f.Some? ==> fpn == f.value)
    ensures r == 0 ==> (tabled <==> old(TablesFit(p, pgn)))
    ensures p.dir.mallocs + 4 >= old(p.dir.mallocs)
  {
    tabled := true;
    var pte := p.dir.PteGetEntry(pgn);
    if !IsPresent(pte) {
      var tgtfpn;
      r, tgtfpn := ObtainFrame(ram, swp, p, pgn);
      if r == -1 {
        return -1, 0, tabled;
      }
      if IsSwapped(pte) {
        // Copying a page back from SWAP: no entry is swapped without being present.
        assert false;
      } else {
        ram.ZeroFill(tgtfpn);
      }
      MissingAtMost(p.dir.tables, p.dir.pgd, Indices(pgn)[..4]);
      var rc := p.dir.PteSetFpn(pgn, tgtfpn);
      tabled := rc == 0;
      p.EnlistPgnNode(pgn);
    }
    pte := p.dir.PteGetEntry(pgn);
    return 0, Fpn(pte), tabled;
  }

  /** pg_getval. */
  method PgGetVal(ram: PhysicalMemory, swp: PhysicalMemory, p: Process, addr: Word)
    returns (r: int, data: Byte, ghost tabled: bool)
    requires Apart(ram, swp) && Mapped(p) && Ready(Seen(ram, swp, p), Pgn(addr))
    modifies ram`freeFp, ram.storage, swp`freeFp, swp.storage, p`fifo, p.dir
    ensures Mapped(p)
    ensures var (v, f) := GetPage(old(Seen(ram, swp, p)), Pgn(addr), tabled);
            && Seen(ram, swp, p) == v
            && r == (if f.None? then -1 else 0)
            && (f.Some? && Phys(f.value, addr) < |v.ram.bytes| ==> data == Peek(v, f.value, addr))
    ensures r == 0 ==> (tabled <==> old(TablesFit(p, Pgn(addr))))
    ensures p.dir.mallocs + 4 >= old(p.dir.mallocs)
  {
    var fpn;
    r, fpn, tabled := PgGetPage(ram, swp, p, Pgn(addr));
    if r != 0 {
      return -1, 0, tabled;
    }
    ghost var v := Seen(ram, swp, p);
    var _, value := ram.Read(fpn * PAGING_PAGESZ + Offst(addr));
    assert Phys(fpn, addr) < |v.ram.bytes| ==> value == Peek(v, fpn, addr);
    return 0, value, tabled;
  }

  /** pg_setval. */
  method PgSetVal(ram: PhysicalMemory, swp: PhysicalMemory, p: Process, addr: Word, value: Byte)
    returns (r: int, ghost tabled: bool, ghost dirtied: bool)
    requires Apart(ram, swp) && Mapped(p) && Ready(Seen(ram, swp, p), Pgn(addr))
    modifies ram`freeFp, ram.storage, swp`freeFp, swp.storage, p`fifo, p.dir
    ensures Mapped(p)
    ensures var (v, ok) := SetVal(old(Seen(ram, swp, p)), addr, value, tabled, dirtied);
            Seen(ram, swp, p) == v && r == (if ok then 0 else -1)
    ensures r == 0 ==> (tabled <==> old(TablesFit(p, Pgn(addr)))) && (tabled ==> dirtied)
    ensures p.dir.mallocs + 8 >= old(p.dir.mallocs)
  {
    var fpn;
    dirtied := true;
    r, fpn, tabled := PgGetPage(ram, swp, p, Pgn(addr));
    if r != 0 {
      return -1, tabled, dirtied;
    }
    ghost var u := Seen(ram, swp, p);
    if tabled {
      LoadedIsPresent(old(Seen(ram, swp, p)), Pgn(addr), tabled);
    }
    var _ := ram.Write(fpn * PAGING_PAGESZ + Offst(addr), value);
    assert ram.View() == Poke(u.ram, Phys(fpn, addr), value);
    dirtied := MarkDirty(p, Pgn(addr));
    return 0, tabled, dirtied;
  }

  /** Reads the entry, sets its dirty bit and writes it back; `dirtied` is whether the
      ignored result of pte_set_entry was 0. */
  method MarkDirty(p: Process, pgn: Word) returns (ghost dirtied: bool)
    requires Mapped(p)
    modifies p.dir
    ensures Mapped(p)
    ensures var q := old(p.View());
            p.View() == if dirtied then q.(pt := q.pt[Key(pgn) := SetDirty(Look(q.pt, Key(pgn)))]) else q
    ensures old(Look(p.View().pt, Key(pgn))) != 0 ==> dirtied
    ensures p.dir.mallocs + 4 >= old(p.dir.mallocs)
  {
    var pte := p.dir.PteGetEntry(pgn);
    if Look(p.dir.entries, Key(pgn)) != 0 {
      p.dir.NothingMissing(pgn);
    }
    MissingAtMost(p.dir.tables, p.dir.pgd, Indices(pgn)[..4]);
    pte := SetDirty(pte);
    var rc := p.dir.PteSetEntry(pgn, pte);
    dirtied := rc == 0;
  }

  lemma LoadedIsPresent(v: View, pgn: Word, tabled: bool)
    requires Ready(v, pgn) && GetPage(v, pgn, tabled).1.Some? && tabled
    ensures EntryOf(GetPage(v, pgn, tabled).0, pgn) != 0
  {
  }
}
