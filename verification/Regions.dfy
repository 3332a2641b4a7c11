/** The region allocator of src/libmem.c on values: the free-region list of the first
    memory area, its program break, and the symbol table of live regions. */
module Regions {
  import opened Wrappers
  import opened Words

  /** The bytes from `start` up to `end`. */
  datatype Rg = Rg(start: Word, end: Word)

  const NO_REGION: Rg := Rg(0, 0)
  const MAX_WORD: Word := 0xFFFF_FFFF_FFFF_FFFF
  const SYMTBL_SIZE: int := 30

  /** A 64-bit value passed as an int and widened again. */
  function ThroughInt(w: Word): (v: Word)
    ensures v == w <==> w < 0x8000_0000 || w >= WORD_LIMIT - 0x8000_0000
  {
    var low := w % 0x1_0000_0000;
    if low < 0x8000_0000 then low else low + (WORD_LIMIT - 0x1_0000_0000)
  }

  /** Such a value is the only one of a signed 32-bit range that agrees in the low half. */
  lemma ThroughIntIs(w: Word, v: Word)
    ensures v == ThroughInt(w) <==>
            v % 0x1_0000_0000 == w % 0x1_0000_0000 && (v < 0x8000_0000 || v >= WORD_LIMIT - 0x8000_0000)
  {
  }

  function Plus(a: Word, b: Word): (c: Word) {
    (a + b) % WORD_LIMIT
  }

  // ---------- First fit ----------

  predicate Fits(r: Rg, size: Word) {
    Plus(r.start, ThroughInt(size)) <= r.end
  }

  /** The first region in list order that has room. */
  function FirstFit(l: seq<Rg>, size: Word): (j: Option<nat>)
    ensures j.Some? ==> j.value < |l| && Fits(l[j.value], size)
                        && forall i :: 0 <= i < j.value ==> !Fits(l[i], size)
    ensures j.None? ==> forall i :: 0 <= i < |l| ==> !Fits(l[i], size)
  {
    if l == [] then None
    else if Fits(l[0], size) then Some(0)
    else
      match FirstFit(l[1..], size)
      case None => None
      case Some(j) => Some(j + 1)
  }

  /** The list without the front part of region `j`; a region used up leaves the list, and
      at the end of the list an empty region stays in its place. */
  function Take(l: seq<Rg>, j: nat, size: Word): (m: seq<Rg>)
    requires j < |l|
  {
    var next := Plus(l[j].start, ThroughInt(size));
    if next < l[j].end then l[j := Rg(next, l[j].end)]
    else if j + 1 < |l| then l[..j] + l[j + 1..]
    else l[j := Rg(l[j].end, l[j].end)]
  }

  /** get_free_vmrg_area: the list left and the region found. A region at the very last
      address is taken from the list and still reported as not found. */
  function GetFree(l: seq<Rg>, size: Word): (r: (seq<Rg>, Option<Rg>)) {
    match FirstFit(l, size)
    case None => (l, None)
    case Some(j) =>
      (Take(l, j, size),
       if l[j].start == MAX_WORD then None
       else Some(Rg(l[j].start, Plus(l[j].start, ThroughInt(size)))))
  }

  predicate Holds(r: Rg, a: Word) {
    r.start <= a < r.end
  }

  /** Address `a` is in a region of the list. */
  ghost predicate InList(l: seq<Rg>, a: Word) {
    exists i :: 0 <= i < |l| && Holds(l[i], a)
  }

  /** The regions share no byte. */
  predicate Disjoint(r: Rg, q: Rg) {
    r.start >= r.end || q.start >= q.end || r.end <= q.start || q.end <= r.start
  }

  ghost predicate AllDisjoint(l: seq<Rg>) {
    forall i, j :: 0 <= i < j < |l| ==> Disjoint(l[i], l[j])
  }

  /** A free list whose regions lie below address `top`. */
  ghost predicate ListOk(l: seq<Rg>, bottom: Word, top: Word) {
    && AllDisjoint(l)
    && forall i :: 0 <= i < |l| ==> bottom <= l[i].start <= l[i].end <= top
  }

  /** No region of the list has `size` bytes. */
  ghost predicate NoRoom(l: seq<Rg>, size: Word) {
    forall i :: 0 <= i < |l| ==> l[i].end - l[i].start < size
  }

  /** For small numbers the test of the code means room. */
  lemma FitsIs(r: Rg, size: Word)
    requires r.start <= r.end < 0x8000_0000 && size < 0x8000_0000
    ensures Fits(r, size) <==> r.end - r.start >= size
    ensures Plus(r.start, ThroughInt(size)) == r.start + size
  {
  }

  lemma RoomIsFit(l: seq<Rg>, size: Word, bottom: Word, top: Word)
    requires ListOk(l, bottom, top) && top < 0x8000_0000 && size < 0x8000_0000
    ensures NoRoom(l, size) <==> FirstFit(l, size).None?
    ensures forall i :: 0 <= i < |l| ==> (Fits(l[i], size) <==> l[i].end - l[i].start >= size)
  {
    forall i | 0 <= i < |l|
      ensures Fits(l[i], size) <==> l[i].end - l[i].start >= size
    {
      FitsIs(l[i], size);
    }
  }

  predicate FirstRoom(l: seq<Rg>, i: nat, size: Word) {
    && i < |l| && l[i].end - l[i].start >= size
    && forall k :: 0 <= k < i ==> l[k].end - l[k].start < size
  }

  /** A request is met by the first region with at least that many bytes, from its start on,
      and fails exactly when there is none. */
  lemma FirstWithRoom(l: seq<Rg>, size: Word, bottom: Word, top: Word)
    requires ListOk(l, bottom, top) && top < 0x8000_0000 && size < 0x8000_0000
    ensures var r := GetFree(l, size).1;
            if NoRoom(l, size) then r == None
            else exists i: nat :: FirstRoom(l, i, size) && r == Some(Rg(l[i].start, l[i].start + size))
  {
    RoomIsFit(l, size, bottom, top);
    var f := FirstFit(l, size);
    if f.Some? {
      FitsIs(l[f.value], size);
      assert FirstRoom(l, f.value, size);
    }
  }

  /** Allocation moves exactly the returned bytes out of the free list. */
  lemma GetFreeIsExact(l: seq<Rg>, size: Word, bottom: Word, top: Word)
    requires ListOk(l, bottom, top) && top < 0x8000_0000 && size < 0x8000_0000
    ensures var (m, r) := GetFree(l, size);
            && ListOk(m, bottom, top)
            && (r.None? <==> NoRoom(l, size))
            && (r.None? ==> m == l)
            && (r.Some? ==>
                  && r.value.end == r.value.start + size
                  && bottom <= r.value.start && r.value.end <= top
                  && (forall a: Word :: InList(l, a) <==> InList(m, a) || Holds(r.value, a))
                  && (forall i :: 0 <= i < |m| ==> Disjoint(m[i], r.value)))
  {
    var f := FirstFit(l, size);
    RoomIsFit(l, size, bottom, top);
    if f.Some? {
      var j := f.value;
      var m, r := Take(l, j, size), Rg(l[j].start, l[j].start + size);
      FitsIs(l[j], size);
      assert GetFree(l, size) == (m, Some(r));
      TakeKeepsOk(l, j, size, bottom, top);
      forall a: Word
        ensures InList(l, a) <==> InList(m, a) || Holds(r, a)
      {
        TakeMovesBytes(l, j, size, bottom, top, a);
      }
    }
  }

  /** The region that region `k` of the list left by Take comes from. */
  function Source(l: seq<Rg>, j: nat, size: Word, k: nat): (i: nat)
    requires j < |l|
  {
    if Plus(l[j].start, ThroughInt(size)) >= l[j].end && j + 1 < |l| && k >= j then k + 1 else k
  }

  lemma TakeShrinks(l: seq<Rg>, j: nat, size: Word, k: nat)
    requires j < |l| && l[j].start + size <= l[j].end < 0x8000_0000 && size < 0x8000_0000
    requires k < |Take(l, j, size)|
    ensures var (m, i) := (Take(l, j, size), Source(l, j, size, k));
            && i < |l|
            && (if i == j then m[k].start >= l[j].start + size && m[k].start <= m[k].end == l[j].end else m[k] == l[i])
  {
  }

  /** What is left of region `j` stays in its place, also when nothing is, unless others
      come behind it. */
  lemma TakeLeavesRest(l: seq<Rg>, j: nat, size: Word)
    requires j < |l| && l[j].start + size <= l[j].end < 0x8000_0000 && size < 0x8000_0000
    ensures Take(l, j, size)
            == if l[j].start + size == l[j].end && j < |l| - 1 then l[..j] + l[j + 1..]
               else l[..j] + [Rg(l[j].start + size, l[j].end)] + l[j + 1..]
  {
  }

  lemma TakeKeepsOk(l: seq<Rg>, j: nat, size: Word, bottom: Word, top: Word)
    requires ListOk(l, bottom, top) && top < 0x8000_0000 && size < 0x8000_0000
    requires j < |l| && l[j].start + size <= l[j].end
    ensures ListOk(Take(l, j, size), bottom, top)
    ensures forall i :: 0 <= i < |Take(l, j, size)| ==> Disjoint(Take(l, j, size)[i], Rg(l[j].start, l[j].start + size))
  {
    var m := Take(l, j, size);
    forall k | 0 <= k < |m|
      ensures bottom <= m[k].start <= m[k].end <= top
      ensures Disjoint(m[k], Rg(l[j].start, l[j].start + size))
    {
      TakeShrinks(l, j, size, k);
      var i := Source(l, j, size, k);
      assert i < j ==> Disjoint(l[i], l[j]);
      assert j < i ==> Disjoint(l[j], l[i]);
    }
    forall k, n | 0 <= k < n < |m|
      ensures Disjoint(m[k], m[n])
    {
      TakeShrinks(l, j, size, k);
      TakeShrinks(l, j, size, n);
      assert Disjoint(l[Source(l, j, size, k)], l[Source(l, j, size, n)]);
    }
  }

  lemma TakeMovesBytes(l: seq<Rg>, j: nat, size: Word, bottom: Word, top: Word, a: Word)
    requires ListOk(l, bottom, top) && top < 0x8000_0000 && size < 0x8000_0000
    requires j < |l| && l[j].start + size <= l[j].end
    ensures InList(l, a) <==> InList(Take(l, j, size), a) || Holds(Rg(l[j].start, l[j].start + size), a)
  {
    var m := Take(l, j, size);
    var next := l[j].start + size;
    if next < l[j].end {
      assert forall i :: 0 <= i < |l| && i != j ==> m[i] == l[i];
      assert Holds(l[j], a) <==> Holds(m[j], a) || Holds(Rg(l[j].start, next), a);
    } else if j + 1 < |l| {
      assert forall i :: 0 <= i < j ==> m[i] == l[i];
      assert forall i :: j < i < |l| ==> m[i - 1] == l[i];
      assert forall i :: j <= i < |m| ==> m[i] == l[i + 1];
    } else {
      assert forall i :: 0 <= i < j ==> m[i] == l[i];
      assert !Holds(m[j], a);
    }
  }

  /** A region at the last address of all is taken from the list and lost. */
  lemma LastAddressIsLost(l: seq<Rg>)
    requires l != [] && l[0] == Rg(0xFFFF_FFFF_FFFF_FFFF, 0xFFFF_FFFF_FFFF_FFFF)
    ensures GetFree(l, 0) == (if |l| > 1 then l[1..] else l, None)
  {
    assert FirstFit(l, 0) == Some(0);
    assert l[..0] + l[1..] == l[1..];
    assert l[0 := l[0]] == l;
  }

  // ---------- __alloc and __free ----------

  /** Memory area 0 with its free list, and the symbol table. */
  datatype Space = Space(start: Word, end: Word, sbrk: Word, free: seq<Rg>, sym: seq<Rg>)

  /** PAGING_PAGE_ALIGNSZ. */
  function Aligned(size: Word): (s: Word) {
    Plus(size, PAGING_PAGESZ - 1) / PAGING_PAGESZ * PAGING_PAGESZ
  }

  /** inc_vma_limit when nothing is in the way. */
  function Grown(sp: Space, size: Word): (t: Space) {
    sp.(end := Plus(sp.end, Aligned(size)), sbrk := Plus(sp.sbrk, size))
  }

  /** __alloc: the new state and the address. `grows` says whether inc_vma_limit extended
      this area; __alloc does not look at its result. The old break passes through an int. */
  function Alloc(sp: Space, rgid: nat, size: Word, grows: bool): (r: (Space, Word))
    requires rgid < |sp.sym|
  {
    var (m, found) := GetFree(sp.free, size);
    var rg := if found.Some? then found.value
              else Rg(ThroughInt(sp.sbrk), Plus(ThroughInt(sp.sbrk), size));
    var g := if found.None? && grows then Grown(sp, size) else sp;
    (g.(free := m, sym := sp.sym[rgid := rg]), rg.start)
  }

  /** __free: -1 for a symbol that holds no region. A region without bytes is not listed. */
  function Free(sp: Space, rgid: nat): (r: (Space, int))
    requires rgid < |sp.sym|
  {
    var rg := sp.sym[rgid];
    if rg == NO_REGION then (sp, -1)
    else (sp.(free := if rg.start >= rg.end then sp.free else [rg] + sp.free, sym := sp.sym[rgid := NO_REGION]), 0)
  }

  /** Live and free regions are pairwise disjoint and lie below the break. */
  ghost predicate Safe(sp: Space) {
    && |sp.sym| == SYMTBL_SIZE
    && sp.start <= sp.sbrk <= sp.end
    && ListOk(sp.free, sp.start, sp.sbrk)
    && (forall i :: 0 <= i < |sp.sym| && sp.sym[i] != NO_REGION ==>
          sp.start <= sp.sym[i].start <= sp.sym[i].end <= sp.sbrk)
    && AllDisjoint(sp.sym)
    && forall i, j :: 0 <= i < |sp.sym| && 0 <= j < |sp.free| ==> Disjoint(sp.sym[i], sp.free[j])
  }

  /** What init_mm leaves: an area at address 0 without bytes. */
  function InitSpace(): (sp: Space)
    ensures Safe(sp)
  {
    Space(0, 0, 0, [NO_REGION], seq(SYMTBL_SIZE, _ => NO_REGION))
  }

  /** Requests that the int conversions leave alone. */
  predicate Small(sp: Space, size: Word) {
    size < 0x8000_0000 && sp.sbrk + size < 0x8000_0000 && sp.end < WORD_LIMIT / 2
  }

  /** An allocation gives `size` bytes that were free or are new, and keeps the space safe,
      exactly when the free list has room or the area grows (or no byte is asked for). */
  lemma AllocIsSafe(sp: Space, rgid: nat, size: Word, grows: bool)
    requires Safe(sp) && rgid < SYMTBL_SIZE && Small(sp, size)
    ensures var (t, a) := Alloc(sp, rgid, size, grows);
            && t.sym[rgid] == Rg(a, a + size)
            && (forall i :: 0 <= i < SYMTBL_SIZE && i != rgid ==> t.sym[i] == sp.sym[i])
            && (Safe(t) <==> !NoRoom(sp.free, size) || grows || size == 0)
  {
    GetFreeIsExact(sp.free, size, sp.start, sp.sbrk);
    RoomIsFit(sp.free, size, sp.start, sp.sbrk);
    var (t, a) := Alloc(sp, rgid, size, grows);
    if FirstFit(sp.free, size).Some? {
      FoundIsSafe(sp, rgid, size, grows);
    } else if grows {
      GrownIsSafe(sp, rgid, size);
    } else {
      assert t.sym[rgid] == Rg(sp.sbrk, sp.sbrk + size);
    }
  }

  /** Where the bytes come from: a free region, or the break, which moves by exactly `size`
      when the area grows. */
  lemma AllocPlaces(sp: Space, rgid: nat, size: Word, grows: bool)
    requires Safe(sp) && rgid < SYMTBL_SIZE && Small(sp, size)
    ensures var (t, a) := Alloc(sp, rgid, size, grows);
            && t.start == sp.start
            && if NoRoom(sp.free, size) then
                 a == sp.sbrk && t.free == sp.free
                 && t.sbrk == (if grows then sp.sbrk + size else sp.sbrk)
                 && t.end == (if grows then sp.end + Aligned(size) else sp.end)
               else (t.free, Some(Rg(a, a + size))) == GetFree(sp.free, size) && t.sbrk == sp.sbrk && t.end == sp.end
  {
    RoomIsFit(sp.free, size, sp.start, sp.sbrk);
    NoWrap(sp.sbrk, sp.end, size);
    var f := FirstFit(sp.free, size);
    if f.Some? {
      FitsIs(sp.free[f.value], size);
    }
  }

  /** Nothing wraps around in a small request. */
  lemma NoWrap(sbrk: Word, end: Word, size: Word)
    requires size < 0x8000_0000 && sbrk + size < 0x8000_0000 && end < WORD_LIMIT / 2
    ensures ThroughInt(sbrk) == sbrk && Plus(sbrk, size) == sbrk + size
    ensures Plus(end, Aligned(size)) == end + Aligned(size)
  {
    AlignedCovers(size);
  }

  lemma FoundIsSafe(sp: Space, rgid: nat, size: Word, grows: bool)
    requires Safe(sp) && rgid < SYMTBL_SIZE && Small(sp, size)
    requires FirstFit(sp.free, size).Some?
    ensures Safe(Alloc(sp, rgid, size, grows).0)
  {
    var l := sp.free;
    var j := FirstFit(l, size).value;
    var m, r := Take(l, j, size), Rg(l[j].start, l[j].start + size);
    TakeKeepsOk(l, j, size, sp.start, sp.sbrk);
    forall i, k | 0 <= i < |sp.sym| && 0 <= k < |m|
      ensures Disjoint(sp.sym[i], m[k])
    {
      TakeShrinks(l, j, size, k);
      assert Disjoint(sp.sym[i], l[Source(l, j, size, k)]);
    }
    forall i | 0 <= i < |sp.sym|
      ensures Disjoint(sp.sym[i], r)
    {
      assert Disjoint(sp.sym[i], l[j]);
    }
    FitsIs(l[j], size);
    assert Alloc(sp, rgid, size, grows).0 == sp.(free := m, sym := sp.sym[rgid := r]);
    NewRegionIsSafe(sp, sp.(free := m, sym := sp.sym[rgid := r]), rgid, r);
  }

  lemma GrownIsSafe(sp: Space, rgid: nat, size: Word)
    requires Safe(sp) && rgid < SYMTBL_SIZE && Small(sp, size)
    requires FirstFit(sp.free, size).None?
    ensures Safe(Alloc(sp, rgid, size, true).0)
  {
    AlignedCovers(size);
    var r := Rg(sp.sbrk, sp.sbrk + size);
    var t := Space(sp.start, sp.end + Aligned(size), sp.sbrk + size, sp.free, sp.sym[rgid := r]);
    assert Alloc(sp, rgid, size, true).0 == t;
    NewRegionIsSafe(sp, t, rgid, r);
  }

  /** A region apart from all live and free ones may take the place of symbol `rgid`. */
  lemma NewRegionIsSafe(sp: Space, t: Space, rgid: nat, r: Rg)
    requires Safe(sp) && rgid < SYMTBL_SIZE
    requires t.start == sp.start && sp.sbrk <= t.sbrk <= t.end && t.sym == sp.sym[rgid := r]
    requires ListOk(t.free, sp.start, sp.sbrk)
    requires sp.start <= r.start <= r.end <= t.sbrk
    requires forall i :: 0 <= i < |sp.sym| ==> Disjoint(sp.sym[i], r)
    requires forall i :: 0 <= i < |t.free| ==> Disjoint(t.free[i], r)
    requires forall i, j :: 0 <= i < |sp.sym| && 0 <= j < |t.free| ==> Disjoint(sp.sym[i], t.free[j])
    ensures Safe(t)
  {
    forall i, j | 0 <= i < j < |t.sym|
      ensures Disjoint(t.sym[i], t.sym[j])
    {
      assert Disjoint(sp.sym[i], r) && Disjoint(sp.sym[j], r) && Disjoint(sp.sym[i], sp.sym[j]);
    }
  }

  /** The smallest multiple of the page size that is not below `size`. */
  lemma AlignedCovers(size: Word)
    requires size < 0x8000_0000
    ensures size <= Aligned(size) < size + 4096 && Aligned(size) % 4096 == 0
  {
  }

  /** A free moves exactly one live region to the free list; the next free of the same
      symbol is rejected and changes nothing. */
  lemma FreeIsSafe(sp: Space, rgid: nat)
    requires Safe(sp) && rgid < SYMTBL_SIZE
    ensures var (t, r) := Free(sp, rgid);
            && Safe(t)
            && (r == -1 <==> sp.sym[rgid] == NO_REGION)
            && Free(t, rgid) == (t, -1)
            && (forall a: Word :: InList(t.free, a) <==> InList(sp.free, a) || Holds(sp.sym[rgid], a))
  {
    var (t, r) := Free(sp, rgid);
    var rg := sp.sym[rgid];
    if rg.start < rg.end {
      assert t.free == [rg] + sp.free;
      assert forall i :: 0 < i < |t.free| ==> t.free[i] == sp.free[i - 1];
      forall a: Word
        ensures InList(t.free, a) <==> InList(sp.free, a) || Holds(rg, a)
      {
        if InList(sp.free, a) {
          var i :| 0 <= i < |sp.free| && Holds(sp.free[i], a);
          assert Holds(t.free[i + 1], a);
        }
        if Holds(rg, a) {
          assert Holds(t.free[0], a);
        }
      }
    }
  }

  /** Without growth the first two allocations of a new process get the same bytes. */
  lemma WithoutGrowthRegionsOverlap()
    ensures var t := Alloc(InitSpace(), 0, 8, false).0;
            var u := Alloc(t, 1, 8, false).0;
            u.sym[0] == u.sym[1] == Rg(0, 8) && !Disjoint(u.sym[0], u.sym[1])
  {
  }
}
