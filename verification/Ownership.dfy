/** All processes share RAM and SWAP. Which page each frame belongs to, and how one
    pg_getpage call moves frames between pages without moving any byte of memory. */
module Ownership {
  import opened Wrappers
  import opened Words
  import opened Radix
  import opened Frames
  import opened Paging

  datatype Sys = Sys(ram: Dev, swap: Dev, procs: seq<Proc>)

  function ViewOf(s: Sys, i: nat): (v: View)
    requires i < |s.procs|
  {
    View(s.ram, s.swap, s.procs[i])
  }

  /** Process `i` has turned its view into `v`. */
  function With(s: Sys, i: nat, v: View): (t: Sys)
    requires i < |s.procs|
    ensures |t.procs| == |s.procs|
  {
    Sys(v.ram, v.swap, s.procs[i := v.proc])
  }

  /** The page-table entry of process `i` under key `k`. */
  function Entry(s: Sys, i: nat, k: nat): (w: Word) {
    if i < |s.procs| then Look(s.procs[i].pt, k) else 0
  }

  /** A page of a process. */
  type PageId = (nat, nat)

  /** Frame owners, as history. */
  datatype Owners = Owners(ram: map<nat, PageId>, swap: map<nat, PageId>)

  /** Frames of a free list exist and are listed once. */
  ghost predicate FreeOk(d: Dev) {
    && |d.bytes| < 0x8000_0000
    && Distinct(d.free)
    && forall f :: f in d.free ==> f < FrameCount(d)
  }

  /** Every RAM frame is free, or backs exactly one page, or is frame `hand`. */
  ghost predicate RamOwned(s: Sys, o: map<nat, PageId>, hand: Option<nat>) {
    && (forall i: nat, k: nat :: Online(Entry(s, i, k)) ==>
          Fpn(Entry(s, i, k)) in o && o[Fpn(Entry(s, i, k))] == (i, k))
    && (forall f :: f in o ==>
          f < FrameCount(s.ram) && f !in s.ram.free && hand != Some(f)
          && Online(Entry(s, o[f].0, o[f].1)) && Fpn(Entry(s, o[f].0, o[f].1)) == f)
    && (forall f: nat :: f < FrameCount(s.ram) ==> f in o || f in s.ram.free || hand == Some(f))
    && (hand.Some? ==> hand.value < FrameCount(s.ram) && hand.value !in s.ram.free)
  }

  /** Every SWAP frame is free, or holds exactly one evicted page. */
  ghost predicate SwapOwned(s: Sys, o: map<nat, PageId>) {
    && (forall i: nat, k: nat :: IsSwapped(Entry(s, i, k)) ==>
          Swpoff(Entry(s, i, k)) in o && o[Swpoff(Entry(s, i, k))] == (i, k))
    && (forall f :: f in o ==>
          f < FrameCount(s.swap) && f !in s.swap.free
          && IsSwapped(Entry(s, o[f].0, o[f].1)) && Swpoff(Entry(s, o[f].0, o[f].1)) == f)
    && (forall f: nat :: f < FrameCount(s.swap) ==> f in o || f in s.swap.free)
  }

  /** Listed pages are in RAM, and no page is listed twice. */
  ghost predicate ListOk(p: Proc) {
    && (forall j :: 0 <= j < |p.fifo| ==> Online(Look(p.pt, Key(p.fifo[j]))))
    && (forall j, l :: 0 <= j < l < |p.fifo| ==> Key(p.fifo[j]) != Key(p.fifo[l]))
  }

  ghost predicate Owned(s: Sys, o: Owners, hand: Option<nat>) {
    && FreeOk(s.ram) && FreeOk(s.swap)
    && RamOwned(s, o.ram, hand)
    && SwapOwned(s, o.swap)
    && (forall i: nat, k: nat :: IsSwapped(Entry(s, i, k)) ==> IsPresent(Entry(s, i, k)))
    && (forall i :: 0 <= i < |s.procs| ==> ListOk(s.procs[i]))
  }

  /** The bytes of a page: in RAM, in SWAP, or all zero while untouched. */
  ghost function Content(s: Sys, i: nat, k: nat): (p: seq<Byte>) {
    var w := Entry(s, i, k);
    if Online(w) then if Fpn(w) < FrameCount(s.ram) then PageOf(s.ram, Fpn(w)) else []
    else if IsSwapped(w) then if Swpoff(w) < FrameCount(s.swap) then PageOf(s.swap, Swpoff(w)) else []
    else ZeroPage()
  }

  ghost predicate SameContents(s: Sys, t: Sys) {
    forall i: nat, k: nat :: Content(t, i, k) == Content(s, i, k)
  }

  // ---------- Steps ----------

  /** The head leaves a free list. */
  lemma PopFree(d: Dev, e: Dev)
    requires FreeOk(d) && d.free != [] && e.free == d.free[1..] && |e.bytes| == |d.bytes|
    ensures FreeOk(e) && d.free[0] < FrameCount(d) && d.free[0] !in e.free
    ensures forall f :: f in d.free <==> f == d.free[0] || f in e.free
  {
    assert d.free == [d.free[0]] + e.free;
    assert d.free[0] in d.free;
    forall f | f in e.free
      ensures f in d.free && f != d.free[0]
    {
      var x :| 0 <= x < |e.free| && e.free[x] == f;
      assert d.free[x + 1] == f;
    }
    forall x, y | 0 <= x < y < |e.free|
      ensures e.free[x] != e.free[y]
    {
      assert d.free[x + 1] != d.free[y + 1];
    }
  }

  /** A free RAM frame is taken into the hand. */
  lemma TakeFreeKeeps(s: Sys, o: Owners, i: nat)
    requires Owned(s, o, None) && i < |s.procs| && s.ram.free != []
    ensures var t := With(s, i, Obtain(ViewOf(s, i)).0);
            Owned(t, o, Some(s.ram.free[0])) && SameContents(s, t)
  {
    PopFree(s.ram, s.ram.(free := s.ram.free[1..]));
    var t := With(s, i, Obtain(ViewOf(s, i)).0);
    assert s.procs[i := s.procs[i]] == s.procs;
    assert t == s.(ram := s.ram.(free := s.ram.free[1..]));
    assert forall j: nat, k: nat :: Entry(t, j, k) == Entry(s, j, k);
  }

  /** A victim changes places: its bytes go to SWAP and its RAM frame into the hand. */
  lemma EvictKeeps(s: Sys, o: Owners, i: nat) returns (o1: Owners)
    requires Owned(s, o, None) && i < |s.procs|
    requires s.procs[i].fifo != [] && s.swap.free != []
    ensures s.swap.free[0] < FrameCount(s.swap)
    ensures Fpn(EntryOf(ViewOf(s, i), Victim(s.procs[i].fifo))) < FrameCount(s.ram)
    ensures Owned(With(s, i, Evict(ViewOf(s, i))), o1, Some(Fpn(EntryOf(ViewOf(s, i), Victim(s.procs[i].fifo)))))
    ensures SameContents(s, With(s, i, Evict(ViewOf(s, i))))
  {
    var vk := Key(Victim(s.procs[i].fifo));
    var w, out := Entry(s, i, vk), s.swap.free[0];
    assert Online(w) && o.ram[Fpn(w)] == (i, vk);
    o1 := Owners(o.ram - {Fpn(w)}, o.swap[out := (i, vk)]);
    PopFree(s.swap, s.swap.(free := s.swap.free[1..]));
    var t := With(s, i, Evict(ViewOf(s, i)));
    SwapOffsetFits(s.swap, out);
    SwappedOutReads(w, 0, out);
    var e := SwappedOut(w, 0, out);
    assert EntriesAfter(s, t, i, vk, e);
    OwnedAfterEvict(s, t, o, o1, i, vk, e);
    ContentsAfterEvict(s, t, o, i, vk, e);
  }

  lemma OwnedAfterEvict(s: Sys, t: Sys, o: Owners, o1: Owners, i: nat, k: nat, e: Word)
    requires Owned(s, o, None) && EntriesAfter(s, t, i, k, e) && t.ram == s.ram
    requires s.procs[i].fifo != [] && k == Key(Victim(s.procs[i].fifo)) && s.swap.free != []
    requires t.swap.free == s.swap.free[1..] && |t.swap.bytes| == |s.swap.bytes|
    requires t.procs == s.procs[i := t.procs[i]]
    requires t.procs[i].fifo == s.procs[i].fifo[..|s.procs[i].fifo| - 1]
    requires Online(Entry(s, i, k)) && IsPresent(e) && IsSwapped(e) && Swpoff(e) == s.swap.free[0]
    requires o1 == Owners(o.ram - {Fpn(Entry(s, i, k))}, o.swap[s.swap.free[0] := (i, k)])
    ensures Owned(t, o1, Some(Fpn(Entry(s, i, k))))
  {
    PopFree(s.swap, t.swap);
    RamAfterEvict(s, t, o, o1, i, k, e);
    SwapAfterEvict(s, t, o, o1, i, k, e);
    ListsAfterEvict(s, t, i);
  }

  /** Device sizes are C ints: frame numbers fit their bit fields. */
  lemma SwapOffsetFits(d: Dev, f: nat)
    requires |d.bytes| < 0x8000_0000 && f < FrameCount(d)
    ensures f % SWPOFF_SPAN == f && f % FPN_SPAN == f
  {
  }

  lemma ListsAfterEvict(s: Sys, t: Sys, i: nat)
    requires i < |s.procs| && s.procs[i].fifo != []
    requires forall j :: 0 <= j < |s.procs| ==> ListOk(s.procs[j])
    requires |t.procs| == |s.procs| && t.procs == s.procs[i := t.procs[i]]
    requires t.procs[i].fifo == s.procs[i].fifo[..|s.procs[i].fifo| - 1]
    requires forall k: nat :: k != Key(Victim(s.procs[i].fifo)) ==> Entry(t, i, k) == Entry(s, i, k)
    ensures forall j :: 0 <= j < |t.procs| ==> ListOk(t.procs[j])
  {
    assert forall j :: 0 <= j < |t.procs| && j != i ==> t.procs[j] == s.procs[j];
    var p, q := s.procs[i], t.procs[i];
    forall j | 0 <= j < |q.fifo|
      ensures Online(Look(q.pt, Key(q.fifo[j])))
    {
      assert q.fifo[j] == p.fifo[j] && Key(p.fifo[j]) != Key(p.fifo[|p.fifo| - 1]);
      assert Entry(t, i, Key(q.fifo[j])) == Entry(s, i, Key(q.fifo[j]));
    }
  }

  lemma ContentsAfterEvict(s: Sys, t: Sys, o: Owners, i: nat, k: nat, e: Word)
    requires Owned(s, o, None) && EntriesAfter(s, t, i, k, e) && t.ram == s.ram
    requires s.swap.free != [] && s.swap.free[0] < FrameCount(s.swap)
    requires Online(Entry(s, i, k)) && Fpn(Entry(s, i, k)) < FrameCount(s.ram)
    requires IsSwapped(e) && Swpoff(e) == s.swap.free[0]
    requires t.swap == PutPage(s.swap.(free := s.swap.free[1..]), s.swap.free[0], PageOf(s.ram, Fpn(Entry(s, i, k))))
    ensures SameContents(s, t)
  {
    forall j: nat, l: nat
      ensures Content(t, j, l) == Content(s, j, l)
    {
      if IsSwapped(Entry(t, j, l)) {
        assert j != i || l != k ==> Swpoff(Entry(s, j, l)) in o.swap;
        SwappedContent(s, t, i, k, e, j, l);
      }
    }
  }

  lemma SwappedContent(s: Sys, t: Sys, i: nat, k: nat, e: Word, j: nat, l: nat)
    requires s.swap.free != [] && s.swap.free[0] < FrameCount(s.swap)
    requires Online(Entry(s, i, k)) && Fpn(Entry(s, i, k)) < FrameCount(s.ram)
    requires IsSwapped(e) && Swpoff(e) == s.swap.free[0]
    requires t.swap == PutPage(s.swap.(free := s.swap.free[1..]), s.swap.free[0], PageOf(s.ram, Fpn(Entry(s, i, k))))
    requires Entry(t, j, l) == if j == i && l == k then e else Entry(s, j, l)
    requires IsSwapped(Entry(t, j, l))
    requires j != i || l != k ==>
               Swpoff(Entry(s, j, l)) < FrameCount(s.swap) && Swpoff(Entry(s, j, l)) != s.swap.free[0]
    ensures Content(t, j, l) == Content(s, j, l)
  {
  }

  /** One entry has changed. */
  ghost predicate EntriesAfter(s: Sys, t: Sys, i: nat, k: nat, e: Word) {
    && |t.procs| == |s.procs| && i < |s.procs|
    && forall j: nat, l: nat :: Entry(t, j, l) == if j == i && l == k then e else Entry(s, j, l)
  }

  lemma RamAfterEvict(s: Sys, t: Sys, o: Owners, o1: Owners, i: nat, k: nat, e: Word)
    requires Owned(s, o, None) && EntriesAfter(s, t, i, k, e) && t.ram == s.ram
    requires Online(Entry(s, i, k)) && IsSwapped(e) && o1.ram == o.ram - {Fpn(Entry(s, i, k))}
    ensures RamOwned(t, o1.ram, Some(Fpn(Entry(s, i, k))))
  {
  }

  lemma SwapAfterEvict(s: Sys, t: Sys, o: Owners, o1: Owners, i: nat, k: nat, e: Word)
    requires Owned(s, o, None) && EntriesAfter(s, t, i, k, e)
    requires s.swap.free != [] && |t.swap.bytes| == |s.swap.bytes|
    requires s.swap.free[0] !in t.swap.free
    requires forall f :: f in s.swap.free <==> f == s.swap.free[0] || f in t.swap.free
    requires Online(Entry(s, i, k)) && IsSwapped(e) && Swpoff(e) == s.swap.free[0]
    requires o1.swap == o.swap[s.swap.free[0] := (i, k)]
    ensures SwapOwned(t, o1.swap)
  {
  }

  /** A victim that found SWAP full: only the list is shorter. */
  lemma DropVictimKeeps(s: Sys, o: Owners, i: nat)
    requires Owned(s, o, None) && i < |s.procs| && s.procs[i].fifo != []
    ensures var p := s.procs[i].(fifo := s.procs[i].fifo[..|s.procs[i].fifo| - 1]);
            var t := With(s, i, ViewOf(s, i).(proc := p));
            Owned(t, o, None) && SameContents(s, t)
  {
    var p := s.procs[i].(fifo := s.procs[i].fifo[..|s.procs[i].fifo| - 1]);
    var t := With(s, i, ViewOf(s, i).(proc := p));
    assert forall j: nat, k: nat :: Entry(t, j, k) == Entry(s, j, k);
    ListsAfterEvict(s, t, i);
  }

  /** The frame in hand becomes the frame of an untouched page, which was all zero. */
  lemma LoadKeeps(s: Sys, o: Owners, i: nat, pgn: Word, f: nat) returns (o1: Owners)
    requires Owned(s, o, Some(f)) && i < |s.procs|
    requires !IsPresent(Entry(s, i, Key(pgn)))
    ensures Owned(With(s, i, Load(ViewOf(s, i), pgn, f, true)), o1, None)
    ensures SameContents(s, With(s, i, Load(ViewOf(s, i), pgn, f, true)))
    ensures Backs(Load(ViewOf(s, i), pgn, f, true), f, pgn)
  {
    var k := Key(pgn);
    var w := Entry(s, i, k);
    var t := With(s, i, Load(ViewOf(s, i), pgn, f, true));
    o1 := Owners(o.ram[f := (i, k)], o.swap);
    SwapOffsetFits(s.ram, f);
    OnLineReads(w, f);
    var e := OnLine(w, f);
    assert EntriesAfter(s, t, i, k, e);
    RamAfterLoad(s, t, o, o1, i, k, e, f);
    SwapAfterLoad(s, t, o, i, k, e, f);
    ListsAfterLoad(s, t, i, pgn, e);
    ContentsAfterLoad(s, t, o, i, k, e, f);
  }

  lemma RamAfterLoad(s: Sys, t: Sys, o: Owners, o1: Owners, i: nat, k: nat, e: Word, f: nat)
    requires Owned(s, o, Some(f)) && EntriesAfter(s, t, i, k, e)
    requires t.ram.free == s.ram.free && |t.ram.bytes| == |s.ram.bytes|
    requires !IsPresent(Entry(s, i, k)) && Online(e) && Fpn(e) == f && o1.ram == o.ram[f := (i, k)]
    ensures RamOwned(t, o1.ram, None)
  {
  }

  lemma SwapAfterLoad(s: Sys, t: Sys, o: Owners, i: nat, k: nat, e: Word, f: nat)
    requires Owned(s, o, Some(f)) && EntriesAfter(s, t, i, k, e) && t.swap == s.swap
    requires !IsPresent(Entry(s, i, k)) && Online(e)
    ensures SwapOwned(t, o.swap)
  {
  }

  lemma ListsAfterLoad(s: Sys, t: Sys, i: nat, pgn: Word, e: Word)
    requires i < |s.procs|
    requires forall j :: 0 <= j < |s.procs| ==> ListOk(s.procs[j])
    requires |t.procs| == |s.procs| && t.procs == s.procs[i := t.procs[i]]
    requires t.procs[i] == Proc(s.procs[i].pt[Key(pgn) := e], [pgn] + s.procs[i].fifo)
    requires !IsPresent(Entry(s, i, Key(pgn))) && Online(e)
    ensures forall j :: 0 <= j < |t.procs| ==> ListOk(t.procs[j])
  {
  }

  lemma ContentsAfterLoad(s: Sys, t: Sys, o: Owners, i: nat, k: nat, e: Word, f: nat)
    requires Owned(s, o, Some(f)) && EntriesAfter(s, t, i, k, e) && t.swap == s.swap
    requires !IsPresent(Entry(s, i, k)) && Online(e) && Fpn(e) == f
    requires t.ram == PutPage(s.ram, f, ZeroPage())
    ensures SameContents(s, t)
  {
    forall j: nat, l: nat
      ensures Content(t, j, l) == Content(s, j, l)
    {
      var w := Entry(t, j, l);
      if Online(w) && Fpn(w) < FrameCount(s.ram) {
        PutPageReads(s.ram, f, ZeroPage(), Fpn(w));
      }
    }
  }

  // ---------- pg_getpage ----------

  /** The C code is defined for this access: the search for a victim does not find a list
      with a single element. */
  predicate Searchable(s: Sys, i: nat, k: nat)
    requires i < |s.procs|
  {
    !IsPresent(Entry(s, i, k)) && s.ram.free == [] ==> |s.procs[i].fifo| != 1
  }

  lemma OwnedIsReady(s: Sys, o: Owners, i: nat, pgn: Word)
    requires Owned(s, o, None) && i < |s.procs| && Searchable(s, i, Key(pgn))
    ensures Ready(ViewOf(s, i), pgn)
  {
    var v := ViewOf(s, i);
    if v.ram.free != [] {
      assert v.ram.free[0] in v.ram.free;
    }
    if v.swap.free != [] {
      assert v.swap.free[0] in v.swap.free;
    }
    if v.proc.fifo != [] {
      var vk := Key(Victim(v.proc.fifo));
      assert ListOk(s.procs[i]);
      assert Online(Entry(s, i, vk));
    }
    assert IsSwapped(Entry(s, i, Key(pgn))) ==> IsPresent(Entry(s, i, Key(pgn)));
  }

  /** An access to a page that is not out in SWAP keeps every frame owned and every byte of
      every process where the page table finds it; a frame it returns is the page's own. */
  lemma GetPageKeeps(s: Sys, o: Owners, i: nat, pgn: Word) returns (o1: Owners)
    requires Owned(s, o, None) && i < |s.procs| && Searchable(s, i, Key(pgn))
    requires !IsSwapped(Entry(s, i, Key(pgn)))
    ensures Ready(ViewOf(s, i), pgn)
    ensures var (v, f) := GetPage(ViewOf(s, i), pgn, true);
            && Owned(With(s, i, v), o1, None)
            && SameContents(s, With(s, i, v))
            && (f.Some? ==> Backs(v, f.value, pgn))
            && (f.None? <==> !IsPresent(Entry(s, i, Key(pgn))) && s.ram.free == []
                             && (s.procs[i].fifo == [] || s.swap.free == []))
  {
    OwnedIsReady(s, o, i, pgn);
    if !IsPresent(Entry(s, i, Key(pgn))) && s.ram.free != [] {
      o1 := TakeAndLoadKeeps(s, o, i, pgn);
    } else if !IsPresent(Entry(s, i, Key(pgn))) && s.procs[i].fifo != [] && s.swap.free != [] {
      o1 := EvictAndLoadKeeps(s, o, i, pgn);
    } else {
      NoLoadKeeps(s, o, i, pgn);
      o1 := o;
    }
  }

  lemma NoLoadKeeps(s: Sys, o: Owners, i: nat, pgn: Word)
    requires Owned(s, o, None) && i < |s.procs| && Searchable(s, i, Key(pgn)) && Ready(ViewOf(s, i), pgn)
    requires !IsSwapped(Entry(s, i, Key(pgn)))
    requires IsPresent(Entry(s, i, Key(pgn)))
             || (s.ram.free == [] && (s.procs[i].fifo == [] || s.swap.free == []))
    ensures var (v, f) := GetPage(ViewOf(s, i), pgn, true);
            && Owned(With(s, i, v), o, None)
            && SameContents(s, With(s, i, v))
            && (f.Some? ==> Backs(v, f.value, pgn))
            && (f.None? <==> !IsPresent(Entry(s, i, Key(pgn))))
  {
    if IsPresent(Entry(s, i, Key(pgn))) || s.procs[i].fifo == [] {
      assert s.procs[i := s.procs[i]] == s.procs;
      assert With(s, i, ViewOf(s, i)) == s;
    } else {
      DropVictimKeeps(s, o, i);
    }
  }

  lemma TakeAndLoadKeeps(s: Sys, o: Owners, i: nat, pgn: Word) returns (o1: Owners)
    requires Owned(s, o, None) && i < |s.procs| && !IsPresent(Entry(s, i, Key(pgn))) && s.ram.free != []
    ensures var (u, f) := (Obtain(ViewOf(s, i)).0, s.ram.free[0]);
            && f < FrameCount(u.ram)
            && Owned(With(s, i, Load(u, pgn, f, true)), o1, None)
            && SameContents(s, With(s, i, Load(u, pgn, f, true)))
            && Backs(Load(u, pgn, f, true), f, pgn)
  {
    TakeFreeKeeps(s, o, i);
    o1 := LoadAfterObtain(s, o, i, Obtain(ViewOf(s, i)).0, s.ram.free[0], pgn);
  }

  lemma EvictAndLoadKeeps(s: Sys, o: Owners, i: nat, pgn: Word) returns (o1: Owners)
    requires Owned(s, o, None) && i < |s.procs| && !IsPresent(Entry(s, i, Key(pgn)))
    requires s.procs[i].fifo != [] && s.swap.free != []
    ensures s.swap.free[0] < FrameCount(s.swap)
    ensures Fpn(EntryOf(ViewOf(s, i), Victim(s.procs[i].fifo))) < FrameCount(s.ram)
    ensures var (u, f) := (Evict(ViewOf(s, i)), Fpn(EntryOf(ViewOf(s, i), Victim(s.procs[i].fifo))));
            && Owned(With(s, i, Load(u, pgn, f, true)), o1, None)
            && SameContents(s, With(s, i, Load(u, pgn, f, true)))
            && Backs(Load(u, pgn, f, true), f, pgn)
  {
    o1 := EvictKeeps(s, o, i);
    assert ListOk(s.procs[i]) && Key(pgn) != Key(Victim(s.procs[i].fifo));
    o1 := LoadAfterObtain(s, o1, i, Evict(ViewOf(s, i)), Fpn(EntryOf(ViewOf(s, i), Victim(s.procs[i].fifo))), pgn);
  }

  lemma LoadAfterObtain(s: Sys, o: Owners, i: nat, u: View, f: nat, pgn: Word) returns (o1: Owners)
    requires i < |s.procs| && Owned(With(s, i, u), o, Some(f)) && SameContents(s, With(s, i, u))
    requires !IsPresent(EntryOf(u, pgn)) && f < FrameCount(u.ram)
    ensures Owned(With(s, i, Load(u, pgn, f, true)), o1, None)
    ensures SameContents(s, With(s, i, Load(u, pgn, f, true)))
    ensures Backs(Load(u, pgn, f, true), f, pgn)
  {
    var m := With(s, i, u);
    assert ViewOf(m, i) == u;
    var w := Load(u, pgn, f, true);
    assert With(m, i, w) == With(s, i, w);
    o1 := LoadKeeps(m, o, i, pgn, f);
  }

  // ---------- When the tables of the page cannot be allocated ----------

  /** The frame in hand is zeroed and the page listed, but no entry names the frame. */
  lemma UntabledLoad(m: Sys, o: Owners, i: nat, pgn: Word, f: nat)
    requires Owned(m, o, Some(f)) && i < |m.procs| && !IsPresent(Entry(m, i, Key(pgn)))
    ensures var t := With(m, i, Load(ViewOf(m, i), pgn, f, false));
            SameContents(m, t) && !ListOk(t.procs[i])
  {
    var t := With(m, i, Load(ViewOf(m, i), pgn, f, false));
    assert forall j: nat, k: nat :: Entry(t, j, k) == Entry(m, j, k);
    forall j: nat, k: nat
      ensures Content(t, j, k) == Content(m, j, k)
    {
      var w := Entry(m, j, k);
      if Online(w) && Fpn(w) < FrameCount(m.ram) {
        PutPageReads(m.ram, f, ZeroPage(), Fpn(w));
      }
    }
    assert t.procs[i].fifo[0] == pgn && !Online(Look(t.procs[i].pt, Key(pgn)));
  }

  /** An access that loads a page changes no process's memory, whether or not its tables
      could be allocated; frames and lists stay in order exactly when they could. */
  lemma InOrderIffTabled(s: Sys, o: Owners, i: nat, pgn: Word, tabled: bool)
    requires Owned(s, o, None) && i < |s.procs| && Searchable(s, i, Key(pgn))
    requires !IsPresent(Entry(s, i, Key(pgn)))
    requires Ready(ViewOf(s, i), pgn) && GetPage(ViewOf(s, i), pgn, tabled).1.Some?
    ensures var t := With(s, i, GetPage(ViewOf(s, i), pgn, tabled).0);
            && SameContents(s, t)
            && ((exists o1 :: Owned(t, o1, None)) <==> tabled)
  {
    if tabled {
      var o1 := GetPageKeeps(s, o, i, pgn);
    } else {
      var u, f, o1 := InHand(s, o, i, pgn);
      var m := With(s, i, u);
      assert ViewOf(m, i) == u;
      var w := Load(u, pgn, f, false);
      assert With(m, i, w) == With(s, i, w);
      UntabledLoad(m, o1, i, pgn, f);
    }
  }

  /** The state with the frame in hand. */
  lemma InHand(s: Sys, o: Owners, i: nat, pgn: Word) returns (u: View, f: nat, o1: Owners)
    requires Owned(s, o, None) && i < |s.procs| && !IsPresent(Entry(s, i, Key(pgn))) && Ready(ViewOf(s, i), pgn)
    requires Obtain(ViewOf(s, i)).1.Some?
    ensures (u, Some(f)) == Obtain(ViewOf(s, i))
    ensures Owned(With(s, i, u), o1, Some(f)) && SameContents(s, With(s, i, u))
    ensures !IsPresent(EntryOf(u, pgn)) && f < FrameCount(u.ram)
  {
    var v := ViewOf(s, i);
    u, f, o1 := Obtain(v).0, Obtain(v).1.value, o;
    if s.ram.free != [] {
      TakeFreeKeeps(s, o, i);
    } else {
      o1 := EvictKeeps(s, o, i);
      assert ListOk(s.procs[i]) && Key(pgn) != Key(Victim(s.procs[i].fifo));
    }
  }
}
