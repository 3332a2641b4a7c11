/** Runs of pg_getval and pg_setval by all processes, and the flat byte memory that RAM,
    SWAP and untouched pages represent together. */
module FlatMemory {
  import opened Wrappers
  import opened Words
  import opened Radix
  import opened Frames
  import opened Paging
  import opened Ownership

  datatype Op = Get(i: nat, addr: Word) | Set(i: nat, addr: Word, b: Byte)

  function OpKey(op: Op): (k: nat) {
    Key(Pgn(op.addr))
  }

  /** Accesses this model speaks of: the page is not out in SWAP, and the search for a
      victim is defined. */
  ghost predicate Allowed(s: Sys, op: Op) {
    && op.i < |s.procs|
    && !IsSwapped(Entry(s, op.i, OpKey(op)))
    && Searchable(s, op.i, OpKey(op))
    && Ready(ViewOf(s, op.i), Pgn(op.addr))
  }

  /** What an access does to its process's view, and its result: the byte read or written,
      or None for -1. (A frame beyond the device would leave the byte unset; owned frames
      exist.) */
  function ApplyTo(v: View, op: Op): (r: (View, Option<Byte>))
    requires Ready(v, Pgn(op.addr))
  {
    match op
    case Get(_, addr) =>
      var (u, f) := GetPage(v, Pgn(addr), true);
      (u,
       if f.None? then None
       else if Phys(f.value, addr) < |u.ram.bytes| then Some(Peek(u, f.value, addr)) else Some(0))
    case Set(_, addr, b) =>
      var (u, ok) := SetVal(v, addr, b, true, true);
      (u, if ok then Some(b) else None)
  }

  /** An access by process `op.i`. */
  function Apply(s: Sys, op: Op): (r: (Sys, Option<Byte>))
    requires op.i < |s.procs| && Ready(ViewOf(s, op.i), Pgn(op.addr))
  {
    var (v, x) := ApplyTo(ViewOf(s, op.i), op);
    (With(s, op.i, v), x)
  }

  // ---------- The flat memory ----------

  /** One byte per process, page key and offset; 0 where nothing was written. */
  type Flat = map<(nat, nat, nat), Byte>

  function CellAt(m: Flat, i: nat, k: nat, off: nat): (b: Byte) {
    if (i, k, off) in m then m[(i, k, off)] else 0
  }

  function FlatApply(m: Flat, op: Op): (r: (Flat, Byte)) {
    match op
    case Get(i, addr) => (m, CellAt(m, i, OpKey(op), Offst(addr)))
    case Set(i, addr, b) => (m[(i, OpKey(op), Offst(addr)) := b], b)
  }

  ghost predicate Represents(s: Sys, m: Flat) {
    forall i: nat, k: nat :: PageIs(Content(s, i, k), m, i, k)
  }

  ghost predicate PageIs(p: seq<Byte>, m: Flat, i: nat, k: nat) {
    |p| == PAGING_PAGESZ && forall off: nat :: off < PAGING_PAGESZ ==> p[off] == CellAt(m, i, k, off)
  }

  // ---------- One access ----------

  /** Process `i` with the dirty bit set on key `k`. */
  function Dirtied(s: Sys, i: nat, k: nat): (t: Sys)
    requires i < |s.procs|
  {
    With(s, i, ViewOf(s, i).(proc := s.procs[i].(pt := s.procs[i].pt[k := SetDirty(Entry(s, i, k))])))
  }

  /** The dirty bit moves nothing. */
  lemma DirtyKeeps(s: Sys, o: Owners, i: nat, k: nat)
    requires Owned(s, o, None) && i < |s.procs|
    ensures Owned(Dirtied(s, i, k), o, None) && SameContents(s, Dirtied(s, i, k))
  {
    var t := Dirtied(s, i, k);
    var p := t.procs[i];
    SetDirtyReads(Entry(s, i, k));
    assert EntriesAfter(s, t, i, k, SetDirty(Entry(s, i, k)));
    forall j | 0 <= j < |t.procs|
      ensures ListOk(t.procs[j])
    {
      assert ListOk(s.procs[j]);
      if j == i {
        forall x | 0 <= x < |p.fifo|
          ensures Online(Look(p.pt, Key(p.fifo[x])))
        {
          assert Online(Entry(s, i, Key(p.fifo[x])));
        }
      }
    }
  }

  /** A byte written to the frame of a page changes that byte of that page only. */
  lemma PokeKeeps(s: Sys, o: Owners, i: nat, k: nat, off: nat, b: Byte)
    requires Owned(s, o, None) && Online(Entry(s, i, k)) && off < PAGING_PAGESZ
    ensures Fpn(Entry(s, i, k)) < FrameCount(s.ram)
    ensures var t := s.(ram := PutByte(s.ram, Fpn(Entry(s, i, k)), off, b));
            && Owned(t, o, None)
            && |Content(s, i, k)| == PAGING_PAGESZ
            && forall j: nat, l: nat :: Content(t, j, l) ==
                 if j == i && l == k then Content(s, i, k)[off := b] else Content(s, j, l)
  {
    var f := Fpn(Entry(s, i, k));
    assert o.ram[f] == (i, k);
    var t := s.(ram := PutByte(s.ram, f, off, b));
    assert forall j: nat, l: nat :: Entry(t, j, l) == Entry(s, j, l);
    assert RamOwned(t, o.ram, None);
    assert SwapOwned(t, o.swap);
    forall j: nat, l: nat
      ensures Content(t, j, l) == if j == i && l == k then Content(s, i, k)[off := b] else Content(s, j, l)
    {
      var w := Entry(s, j, l);
      if Online(w) {
        assert o.ram[Fpn(w)] == (j, l);
        PutByteReads(s.ram, f, off, b, Fpn(w));
      }
    }
  }

  /** The physical address of an owned frame lies in it. */
  lemma PhysIsInFrame(d: Dev, f: nat, addr: Word)
    requires f < FrameCount(d)
    ensures Phys(f, addr) < |d.bytes|
    ensures PageOf(d, f)[Offst(addr)] == d.bytes[Phys(f, addr)]
  {
  }

  lemma GetRefines(s: Sys, o: Owners, m: Flat, op: Op) returns (o1: Owners)
    requires Owned(s, o, None) && Represents(s, m) && op.Get? && Allowed(s, op)
    ensures var (t, r) := Apply(s, op);
            Owned(t, o1, None) && Represents(t, m) && (r.Some? ==> r.value == FlatApply(m, op).1)
  {
    o1 := GetPageKeeps(s, o, op.i, Pgn(op.addr));
    var (v, f) := GetPage(ViewOf(s, op.i), Pgn(op.addr), true);
    var t := With(s, op.i, v);
    if f.Some? {
      assert Online(Entry(t, op.i, OpKey(op)));
      PhysIsInFrame(t.ram, f.value, op.addr);
      assert PageIs(Content(s, op.i, OpKey(op)), m, op.i, OpKey(op));
      assert Content(t, op.i, OpKey(op)) == PageOf(t.ram, f.value);
    }
    assert forall i: nat, k: nat :: PageIs(Content(t, i, k), m, i, k) <== PageIs(Content(s, i, k), m, i, k);
  }

  /** The write of pg_setval once the page is in RAM. */
  lemma WriteRefines(t: Sys, o: Owners, m: Flat, op: Op, f: nat) returns (u: Sys)
    requires Owned(t, o, None) && Represents(t, m) && op.Set? && op.i < |t.procs|
    requires Backs(ViewOf(t, op.i), f, Pgn(op.addr))
    ensures f < FrameCount(t.ram)
    ensures u == t.(ram := PutByte(t.ram, f, Offst(op.addr), op.b))
    ensures u.ram == Poke(t.ram, Phys(f, op.addr), op.b)
    ensures Owned(u, o, None) && Represents(u, FlatApply(m, op).0)
  {
    var i, k, off := op.i, OpKey(op), Offst(op.addr);
    PokeKeeps(t, o, i, k, off, op.b);
    PhysIsInFrame(t.ram, f, op.addr);
    u := t.(ram := PutByte(t.ram, f, off, op.b));
    var m1 := FlatApply(m, op).0;
    forall j: nat, l: nat
      ensures PageIs(Content(u, j, l), m1, j, l)
    {
      assert PageIs(Content(t, j, l), m, j, l);
    }
  }

  lemma SameRepresent(s: Sys, t: Sys, m: Flat)
    requires Represents(s, m) && SameContents(s, t)
    ensures Represents(t, m)
  {
  }

  /** pg_setval is pg_getpage, one byte write and the dirty bit. */
  lemma SetInSteps(s: Sys, op: Op, t: Sys, u: Sys, f: nat)
    requires op.Set? && op.i < |s.procs| && Ready(ViewOf(s, op.i), Pgn(op.addr))
    requires GetPage(ViewOf(s, op.i), Pgn(op.addr), true).1 == Some(f)
    requires t == With(s, op.i, GetPage(ViewOf(s, op.i), Pgn(op.addr), true).0)
    requires u == t.(ram := Poke(t.ram, Phys(f, op.addr), op.b))
    ensures Apply(s, op) == (Dirtied(u, op.i, OpKey(op)), Some(op.b))
  {
    var p := Dirtied(u, op.i, OpKey(op)).procs[op.i];
    assert u.procs[op.i := p] == s.procs[op.i := p];
  }

  lemma SetRefines(s: Sys, o: Owners, m: Flat, op: Op) returns (o1: Owners)
    requires Owned(s, o, None) && Represents(s, m) && op.Set? && Allowed(s, op)
    ensures var (t, r) := Apply(s, op);
            && Owned(t, o1, None)
            && Represents(t, if r.Some? then FlatApply(m, op).0 else m)
            && (r.Some? ==> r.value == FlatApply(m, op).1)
  {
    o1 := GetPageKeeps(s, o, op.i, Pgn(op.addr));
    var (v, f) := GetPage(ViewOf(s, op.i), Pgn(op.addr), true);
    var t := With(s, op.i, v);
    SameRepresent(s, t, m);
    if f.Some? {
      var u := WriteRefines(t, o1, m, op, f.value);
      SetInSteps(s, op, t, u, f.value);
      DirtyKeeps(u, o1, op.i, OpKey(op));
      SameRepresent(u, Dirtied(u, op.i, OpKey(op)), FlatApply(m, op).0);
    }
  }
}
