/** Whole runs of the demand pager, from freshly formatted devices on. */
module PagingRuns {
  import opened Wrappers
  import opened Words
  import opened Radix
  import opened Frames
  import opened Paging
  import opened Ownership
  import opened FlatMemory

  /** Devices as init_memphy leaves them and processes as init_mm leaves them. */
  ghost predicate Initial(s: Sys) {
    && Formatted(s.ram) && Formatted(s.swap)
    && forall i :: 0 <= i < |s.procs| ==> s.procs[i] == Proc(map[], [])
  }

  ghost predicate Formatted(d: Dev) {
    && |d.bytes| < 0x8000_0000
    && |d.free| == FrameCount(d)
    && forall f :: 0 <= f < |d.free| ==> d.free[f] == f
  }

  /** Every access of the run is one that the model speaks of. */
  ghost predicate AllowedRun(s: Sys, ops: seq<Op>)
    decreases |ops|
  {
    ops != [] ==> Allowed(s, ops[0]) && AllowedRun(Apply(s, ops[0]).0, ops[1..])
  }

  ghost function Final(s: Sys, ops: seq<Op>): (t: Sys)
    requires AllowedRun(s, ops)
    decreases |ops|
  {
    if ops == [] then s else Final(Apply(s, ops[0]).0, ops[1..])
  }

  /** The results of the accesses: a byte, or None for -1. */
  ghost function Results(s: Sys, ops: seq<Op>): (r: seq<Option<Byte>>)
    requires AllowedRun(s, ops)
    ensures |r| == |ops|
    decreases |ops|
  {
    if ops == [] then [] else [Apply(s, ops[0]).1] + Results(Apply(s, ops[0]).0, ops[1..])
  }

  // ---------- Frame ownership ----------

  /** Each frame is free or the frame of exactly one page, and is listed free once. */
  ghost predicate FramesOwned(s: Sys) {
    && Distinct(s.ram.free) && Distinct(s.swap.free)
    && (forall f: nat :: f < FrameCount(s.ram) ==> (f in s.ram.free <==> !InRam(s, f)))
    && (forall f: nat :: f < FrameCount(s.swap) ==> (f in s.swap.free <==> !InSwap(s, f)))
    && (forall i: nat, k: nat, j: nat, l: nat ::
          Online(Entry(s, i, k)) && Online(Entry(s, j, l)) && Fpn(Entry(s, i, k)) == Fpn(Entry(s, j, l)) ==>
            i == j && k == l)
    && (forall i: nat, k: nat, j: nat, l: nat ::
          IsSwapped(Entry(s, i, k)) && IsSwapped(Entry(s, j, l)) && Swpoff(Entry(s, i, k)) == Swpoff(Entry(s, j, l)) ==>
            i == j && k == l)
    && (forall i: nat, k: nat :: Online(Entry(s, i, k)) ==> Fpn(Entry(s, i, k)) < FrameCount(s.ram))
    && (forall i: nat, k: nat :: IsSwapped(Entry(s, i, k)) ==> Swpoff(Entry(s, i, k)) < FrameCount(s.swap))
  }

  ghost predicate InRam(s: Sys, f: nat) {
    exists i: nat, k: nat :: Online(Entry(s, i, k)) && Fpn(Entry(s, i, k)) == f
  }

  ghost predicate InSwap(s: Sys, f: nat) {
    exists i: nat, k: nat :: IsSwapped(Entry(s, i, k)) && Swpoff(Entry(s, i, k)) == f
  }

  lemma OwnedMeansFramesOwned(s: Sys, o: Owners)
    requires Owned(s, o, None)
    ensures FramesOwned(s)
  {
  }

  lemma InitialIsOwned(s: Sys)
    requires Initial(s)
    ensures Owned(s, Owners(map[], map[]), None)
    ensures Represents(s, map[])
  {
    assert forall i: nat, k: nat :: Entry(s, i, k) == 0;
    forall f: nat | f < FrameCount(s.ram)
      ensures f in s.ram.free
    {
      assert s.ram.free[f] == f;
    }
    forall f: nat | f < FrameCount(s.swap)
      ensures f in s.swap.free
    {
      assert s.swap.free[f] == f;
    }
  }

  lemma StepRefines(s: Sys, o: Owners, m: Flat, op: Op) returns (o1: Owners)
    requires Owned(s, o, None) && Represents(s, m) && Allowed(s, op)
    ensures var (t, r) := Apply(s, op);
            && Owned(t, o1, None)
            && Represents(t, if r.Some? then FlatApply(m, op).0 else m)
            && (r.Some? ==> r.value == FlatApply(m, op).1)
  {
    if op.Get? {
      o1 := GetRefines(s, o, m, op);
    } else {
      o1 := SetRefines(s, o, m, op);
    }
  }

  // ---------- Refinement ----------

  /** The flat memory under the same accesses; the ones that failed above do nothing. */
  function FlatRun(m: Flat, ops: seq<Op>, done: seq<bool>): (r: (Flat, seq<Option<Byte>>))
    requires |done| == |ops|
    ensures |r.1| == |ops|
    decreases |ops|
  {
    if ops == [] then (m, [])
    else
      var (m1, b) := if done[0] then (FlatApply(m, ops[0]).0, Some(FlatApply(m, ops[0]).1)) else (m, None);
      var (m2, rest) := FlatRun(m1, ops[1..], done[1..]);
      (m2, [b] + rest)
  }

  function Successes(r: seq<Option<Byte>>): (d: seq<bool>)
    ensures |d| == |r|
    ensures forall i :: 0 <= i < |r| ==> d[i] == r[i].Some?
  {
    if r == [] then [] else [r[0].Some?] + Successes(r[1..])
  }

  lemma {:induction false} RunRefinesFrom(s: Sys, o: Owners, m: Flat, ops: seq<Op>) returns (o1: Owners)
    requires Owned(s, o, None) && Represents(s, m) && AllowedRun(s, ops)
    ensures Owned(Final(s, ops), o1, None)
    ensures var flat := FlatRun(m, ops, Successes(Results(s, ops)));
            Represents(Final(s, ops), flat.0) && Results(s, ops) == flat.1
    decreases |ops|
  {
    o1 := o;
    if ops != [] {
      var (t, r) := Apply(s, ops[0]);
      o1 := StepRefines(s, o, m, ops[0]);
      o1 := RunRefinesFrom(t, o1, if r.Some? then FlatApply(m, ops[0]).0 else m, ops[1..]);
      assert Results(s, ops)[1..] == Results(t, ops[1..]);
    }
  }

  /** Virtual memory is one flat byte memory: over every run of accesses by all processes,
      each result is the flat memory's, and at the end RAM, SWAP and untouched pages hold
      the flat memory's bytes; every frame stays free or with one owner. */
  lemma RunRefines(s: Sys, ops: seq<Op>)
    requires Initial(s) && AllowedRun(s, ops)
    ensures var flat := FlatRun(map[], ops, Successes(Results(s, ops)));
            Represents(Final(s, ops), flat.0) && Results(s, ops) == flat.1
    ensures FramesOwned(Final(s, ops))
  {
    InitialIsOwned(s);
    var o := RunRefinesFrom(s, Owners(map[], map[]), map[], ops);
    OwnedMeansFramesOwned(Final(s, ops), o);
  }

  /** After any run, what the next access has to meet is what its caller can look up: the
      process exists, its page is not out in SWAP, and a full RAM does not meet a resident
      list with a single page. */
  lemma WhatIsAllowed(s: Sys, ops: seq<Op>, op: Op)
    requires Initial(s) && AllowedRun(s, ops)
    ensures var t := Final(s, ops);
            Allowed(t, op) <==>
            && op.i < |t.procs| && !IsSwapped(Entry(t, op.i, OpKey(op)))
            && (!IsPresent(Entry(t, op.i, OpKey(op))) && t.ram.free == [] ==> |t.procs[op.i].fifo| != 1)
  {
    var t := Final(s, ops);
    var o := RunIsOwned(s, ops);
    if op.i < |t.procs| && Searchable(t, op.i, OpKey(op)) {
      OwnedIsReady(t, o, op.i, Pgn(op.addr));
    }
  }

  // ---------- Evicted pages ----------

  /** An access can change two entries: the page's own and the victim's. */
  lemma OtherEntriesStay(s: Sys, op: Op, i: nat, k: nat)
    requires Allowed(s, op)
    requires i == op.i ==> k != OpKey(op) && (s.procs[i].fifo == [] || k != Key(Victim(s.procs[i].fifo)))
    ensures Entry(Apply(s, op).0, i, k) == Entry(s, i, k)
  {
  }

  /** An access leaves the entry and the SWAP frame of every evicted page alone. */
  lemma StepKeepsEvicted(s: Sys, o: Owners, m: Flat, op: Op, i: nat, k: nat) returns (o1: Owners)
    requires Owned(s, o, None) && Represents(s, m) && Allowed(s, op) && IsSwapped(Entry(s, i, k))
    ensures var t := Apply(s, op).0;
            && Owned(t, o1, None)
            && Represents(t, if Apply(s, op).1.Some? then FlatApply(m, op).0 else m)
            && Entry(t, i, k) == Entry(s, i, k)
            && Content(t, i, k) == Content(s, i, k)
  {
    o1 := StepRefines(s, o, m, op);
    var t, m1 := Apply(s, op).0, if Apply(s, op).1.Some? then FlatApply(m, op).0 else m;
    var p := s.procs[op.i];
    if p.fifo != [] {
      assert ListOk(p);
      assert Online(Look(p.pt, Key(Victim(p.fifo))));
    }
    OtherEntriesStay(s, op, i, k);
    SamePage(Content(s, i, k), m, Content(t, i, k), m1, i, k);
  }

  lemma SamePage(p: seq<Byte>, m: Flat, p1: seq<Byte>, m1: Flat, i: nat, k: nat)
    requires PageIs(p, m, i, k) && PageIs(p1, m1, i, k)
    requires forall off: nat :: off < PAGING_PAGESZ ==> CellAt(m1, i, k, off) == CellAt(m, i, k, off)
    ensures p == p1
  {
  }

  lemma {:induction false} EvictedStaysFrom(s: Sys, o: Owners, m: Flat, ops: seq<Op>, i: nat, k: nat)
    requires Owned(s, o, None) && Represents(s, m) && AllowedRun(s, ops) && IsSwapped(Entry(s, i, k))
    ensures Entry(Final(s, ops), i, k) == Entry(s, i, k)
    ensures Content(Final(s, ops), i, k) == Content(s, i, k)
    decreases |ops|
  {
    if ops != [] {
      var (t, r) := Apply(s, ops[0]);
      var o1 := StepKeepsEvicted(s, o, m, ops[0], i, k);
      EvictedStaysFrom(t, o1, if r.Some? then FlatApply(m, ops[0]).0 else m, ops[1..], i, k);
    }
  }

  /** Wherever a run has evicted a page, every later state of the run still holds the same
      bytes in the same SWAP frame. */
  lemma EvictionKeepsContents(s: Sys, before: seq<Op>, after: seq<Op>, i: nat, k: nat)
    requires Initial(s) && AllowedRun(s, before) && AllowedRun(Final(s, before), after)
    requires IsSwapped(Entry(Final(s, before), i, k))
    ensures var (t, u) := (Final(s, before), Final(Final(s, before), after));
            && Entry(u, i, k) == Entry(t, i, k)
            && Swpoff(Entry(t, i, k)) < FrameCount(t.swap) && Swpoff(Entry(t, i, k)) < FrameCount(u.swap)
            && PageOf(u.swap, Swpoff(Entry(t, i, k))) == PageOf(t.swap, Swpoff(Entry(t, i, k)))
  {
    InitialIsOwned(s);
    var o := RunRefinesFrom(s, Owners(map[], map[]), map[], before);
    var t, m := Final(s, before), FlatRun(map[], before, Successes(Results(s, before))).0;
    EvictedStaysFrom(t, o, m, after, i, k);
    var o1 := RunRefinesFrom(t, o, m, after);
    OwnedMeansFramesOwned(t, o);
    OwnedMeansFramesOwned(Final(t, after), o1);
    assert IsPresent(Entry(t, i, k));
  }

  // ---------- FIFO replacement ----------

  /** The page that an access of process `i` loads, if any. */
  function Loaded(s: Sys, op: Op, i: nat): (l: seq<Word>)
    requires op.i < |s.procs| && Ready(ViewOf(s, op.i), Pgn(op.addr))
  {
    if op.i == i && !IsPresent(Entry(s, i, OpKey(op))) && Apply(s, op).1.Some? then [Pgn(op.addr)] else []
  }

  /** All pages that process `i` loads in a run, newest first. */
  ghost function LoadHistory(s: Sys, ops: seq<Op>, i: nat): (h: seq<Word>)
    requires AllowedRun(s, ops)
    decreases |ops|
  {
    if ops == [] then [] else LoadHistory(Apply(s, ops[0]).0, ops[1..], i) + Loaded(s, ops[0], i)
  }

  lemma StepIsFifo(s: Sys, op: Op, i: nat)
    requires Allowed(s, op) && i < |s.procs|
    ensures Apply(s, op).0.procs[i].fifo <= Loaded(s, op, i) + s.procs[i].fifo
    ensures |Apply(s, op).0.procs| == |s.procs|
  {
  }

  lemma PrefixGrows(c: seq<Word>, h: seq<Word>, a: seq<Word>, l: seq<Word>, b: seq<Word>)
    requires c <= h + a && a <= l + b
    ensures c <= (h + l) + b
  {
  }

  lemma {:induction false} FifoFrom(s: Sys, ops: seq<Op>, i: nat)
    requires AllowedRun(s, ops) && i < |s.procs|
    ensures |Final(s, ops).procs| == |s.procs|
    ensures Final(s, ops).procs[i].fifo <= LoadHistory(s, ops, i) + s.procs[i].fifo
    decreases |ops|
  {
    if ops != [] {
      var t := Apply(s, ops[0]).0;
      StepIsFifo(s, ops[0], i);
      FifoFrom(t, ops[1..], i);
      PrefixGrows(Final(s, ops).procs[i].fifo, LoadHistory(t, ops[1..], i), t.procs[i].fifo,
                  Loaded(s, ops[0], i), s.procs[i].fifo);
    }
  }

  /** After every run the resident list is the newest part of the load history, without
      duplicates and all in RAM, so that the victim at its end is the page loaded earliest
      among those still listed. */
  lemma ReplacementIsFifo(s: Sys, ops: seq<Op>, i: nat)
    requires Initial(s) && AllowedRun(s, ops) && i < |s.procs|
    ensures var t := Final(s, ops);
            && i < |t.procs| && ListOk(t.procs[i])
            && t.procs[i].fifo <= LoadHistory(s, ops, i)
            && (t.procs[i].fifo != [] ==>
                  Victim(t.procs[i].fifo) == LoadHistory(s, ops, i)[|t.procs[i].fifo| - 1])
  {
    FifoFrom(s, ops, i);
    var h, l, none := LoadHistory(s, ops, i), Final(s, ops).procs[i].fifo, s.procs[i].fifo;
    assert none == [] && h + none == h;
    assert l <= h;
    ListsAreOk(s, ops, i);
  }

  lemma ListsAreOk(s: Sys, ops: seq<Op>, i: nat)
    requires Initial(s) && AllowedRun(s, ops) && i < |Final(s, ops).procs|
    ensures ListOk(Final(s, ops).procs[i])
  {
    var o := RunIsOwned(s, ops);
  }

  lemma RunIsOwned(s: Sys, ops: seq<Op>) returns (o: Owners)
    requires Initial(s) && AllowedRun(s, ops)
    ensures Owned(Final(s, ops), o, None)
  {
    InitialIsOwned(s);
    o := RunRefinesFrom(s, Owners(map[], map[]), map[], ops);
  }
}
