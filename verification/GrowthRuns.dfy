/** Runs of allocations and frees with the growth that inc_vma_limit really grants: it looks
    at the areas of the kernel's mm_struct, and __alloc does not look at its answer. */
module GrowthRuns {
  import opened Words
  import opened Regions
  import opened Areas

  datatype Call = AllocCall(rgid: nat, size: Word) | FreeCall(rgid: nat)

  /** Area 0 of the space. */
  function AreaOf(sp: Space): (a: Area) {
    Area(0, sp.start, sp.end, sp.sbrk)
  }

  /** Area 0 grows: the kernel's mm_struct is the one of the process (`own`), which has the
      areas `others` besides, and inc_vma_limit grants the request. */
  ghost predicate Grows(sp: Space, others: seq<Area>, own: bool, size: Word) {
    own && IncLimit([AreaOf(sp)] + others, 0, size).1 == 0
  }

  ghost function After(sp: Space, others: seq<Area>, own: bool, c: Call): (t: Space)
    requires c.rgid < |sp.sym|
    ensures |t.sym| == |sp.sym|
  {
    if c.AllocCall? then Alloc(sp, c.rgid, c.size, Grows(sp, others, own, c.size)).0 else Free(sp, c.rgid).0
  }

  /** Every symbol is in the table and every request is small. */
  ghost predicate SmallRun(sp: Space, others: seq<Area>, own: bool, calls: seq<Call>)
    decreases |calls|
  {
    calls != [] ==>
      && calls[0].rgid < |sp.sym|
      && (calls[0].AllocCall? ==> Small(sp, calls[0].size))
      && SmallRun(After(sp, others, own, calls[0]), others, own, calls[1..])
  }

  /** The space is safe before the run and after every call of it. */
  ghost predicate SafeThroughout(sp: Space, others: seq<Area>, own: bool, calls: seq<Call>)
    requires SmallRun(sp, others, own, calls)
    decreases |calls|
  {
    Safe(sp) && (calls != [] ==> SafeThroughout(After(sp, others, own, calls[0]), others, own, calls[1..]))
  }

  /** Bytes are asked for, no free region has room, and area 0 is not the kernel's to grow
      or would run into another area. */
  ghost predicate Refused(sp: Space, others: seq<Area>, own: bool, c: Call) {
    && c.AllocCall? && c.size > 0 && NoRoom(sp.free, c.size)
    && (own ==> exists j :: 0 <= j < |others| && Overlap(Extended(AreaOf(sp), c.size), others[j]))
  }

  ghost predicate NoneRefused(sp: Space, others: seq<Area>, own: bool, calls: seq<Call>)
    requires SmallRun(sp, others, own, calls)
    decreases |calls|
  {
    calls != [] ==>
      && !Refused(sp, others, own, calls[0])
      && NoneRefused(After(sp, others, own, calls[0]), others, own, calls[1..])
  }

  /** The extended area always has bytes, so only another area can stop it. */
  lemma GrowsUnlessInTheWay(sp: Space, others: seq<Area>, own: bool, size: Word)
    requires sp.start <= sp.end && Small(sp, size) && size > 0
    ensures Grows(sp, others, own, size)
            <==> own && forall j :: 0 <= j < |others| ==> !Overlap(Extended(AreaOf(sp), size), others[j])
  {
    var l, e := [AreaOf(sp)] + others, Extended(AreaOf(sp), size);
    AlignedCovers(size);
    assert e.start < e.end;
    var m := l[0 := e];
    assert forall j :: 0 <= j < |others| ==> m[j + 1] == others[j];
    assert forall j :: 0 < j < |m| ==> m[j] == others[j - 1];
  }

  lemma StepIsSafe(sp: Space, others: seq<Area>, own: bool, c: Call)
    requires Safe(sp) && c.rgid < SYMTBL_SIZE && (c.AllocCall? ==> Small(sp, c.size))
    ensures Safe(After(sp, others, own, c)) <==> !Refused(sp, others, own, c)
  {
    if c.FreeCall? {
      FreeIsSafe(sp, c.rgid);
    } else {
      AllocIsSafe(sp, c.rgid, c.size, Grows(sp, others, own, c.size));
      if c.size > 0 {
        GrowsUnlessInTheWay(sp, others, own, c.size);
      }
    }
  }

  /** A run keeps live and free regions disjoint and below the break all the time exactly
      when none of its calls is refused. */
  lemma {:induction false} SafeIffNoneRefused(sp: Space, others: seq<Area>, own: bool, calls: seq<Call>)
    requires Safe(sp) && SmallRun(sp, others, own, calls)
    ensures SafeThroughout(sp, others, own, calls) <==> NoneRefused(sp, others, own, calls)
    decreases |calls|
  {
    if calls != [] {
      StepIsSafe(sp, others, own, calls[0]);
      if !Refused(sp, others, own, calls[0]) {
        SafeIffNoneRefused(After(sp, others, own, calls[0]), others, own, calls[1..]);
      }
    }
  }

  /** What every call does to area 0: an allocation that the free list cannot serve and that
      is granted moves the break by exactly the bytes asked for and the end by whole pages;
      nothing else moves either. */
  ghost predicate Extends(sp: Space, t: Space, others: seq<Area>, own: bool, c: Call) {
    && t.start == sp.start
    && if c.AllocCall? && NoRoom(sp.free, c.size) && Grows(sp, others, own, c.size) then
         t.sbrk == sp.sbrk + c.size && 0 <= t.end - sp.end - c.size < 4096 && (t.end - sp.end) % 4096 == 0
       else t.sbrk == sp.sbrk && t.end == sp.end
  }

  lemma StepExtends(sp: Space, others: seq<Area>, own: bool, c: Call)
    requires Safe(sp) && c.rgid < SYMTBL_SIZE && (c.AllocCall? ==> Small(sp, c.size))
    ensures Extends(sp, After(sp, others, own, c), others, own, c)
  {
    if c.AllocCall? {
      AllocPlaces(sp, c.rgid, c.size, Grows(sp, others, own, c.size));
      AlignedCovers(c.size);
    }
  }

  ghost function AfterAll(sp: Space, others: seq<Area>, own: bool, calls: seq<Call>): (t: Space)
    requires SmallRun(sp, others, own, calls)
    decreases |calls|
  {
    if calls == [] then sp else AfterAll(After(sp, others, own, calls[0]), others, own, calls[1..])
  }

  lemma PagesAdd(a: int, b: int)
    requires a % 4096 == 0 && b % 4096 == 0
    ensures (a + b) % 4096 == 0
  {
  }

  /** Over every safe run the area keeps its start and consists of whole pages. */
  lemma {:induction false} WholePages(sp: Space, others: seq<Area>, own: bool, calls: seq<Call>)
    requires SmallRun(sp, others, own, calls) && SafeThroughout(sp, others, own, calls)
    requires (sp.end - sp.start) % 4096 == 0
    ensures var t := AfterAll(sp, others, own, calls);
            Safe(t) && t.start == sp.start && (t.end - t.start) % 4096 == 0
    decreases |calls|
  {
    if calls != [] {
      var t := After(sp, others, own, calls[0]);
      StepExtends(sp, others, own, calls[0]);
      PagesAdd(sp.end - sp.start, t.end - sp.end);
      WholePages(t, others, own, calls[1..]);
    }
  }

  /** A process that has only area 0 and whose mm_struct is the kernel's is always safe. */
  lemma {:induction false} AloneIsSafe(sp: Space, calls: seq<Call>)
    requires Safe(sp) && SmallRun(sp, [], true, calls)
    ensures SafeThroughout(sp, [], true, calls)
    decreases |calls|
  {
    if calls != [] {
      StepIsSafe(sp, [], true, calls[0]);
      AloneIsSafe(After(sp, [], true, calls[0]), calls[1..]);
    }
  }

  /** When nothing grows, as with a kernel that has no mm_struct, a process without bytes
      stays safe exactly as long as it asks for none. */
  lemma {:induction false} NeverGrownIsSafeIffNoBytes(sp: Space, others: seq<Area>, calls: seq<Call>)
    requires Safe(sp) && sp.sbrk == sp.start && SmallRun(sp, others, false, calls)
    ensures SafeThroughout(sp, others, false, calls)
            <==> forall i :: 0 <= i < |calls| && calls[i].AllocCall? ==> calls[i].size == 0
    decreases |calls|
  {
    if calls != [] {
      StepIsSafe(sp, others, false, calls[0]);
      var t := After(sp, others, false, calls[0]);
      if !Refused(sp, others, false, calls[0]) {
        NeverGrownIsSafeIffNoBytes(t, others, calls[1..]);
        assert forall i :: 1 <= i < |calls| ==> calls[i] == calls[1..][i - 1];
      }
    }
  }
}
