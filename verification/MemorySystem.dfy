/** All processes of the machine with the two devices they share, and the flat memory that
    they represent. */
module MemorySystem {
  import opened Wrappers
  import opened Words
  import opened Frames
  import opened Memphy
  import opened Paging
  import opened Pager
  import opened Ownership
  import opened FlatMemory
  import opened PagingRuns

  /** A state of the machine, who owns its frames, and the flat memory it represents. */
  datatype Meaning = Meaning(sys: Sys, owners: Owners, flat: Flat)

  type Coherent = c: Meaning | Owned(c.sys, c.owners, None) && Represents(c.sys, c.flat)
    ghost witness Nothing()

  ghost function Nothing(): (c: Meaning)
    ensures Owned(c.sys, c.owners, None) && Represents(c.sys, c.flat)
  {
    var c := Meaning(Sys(Dev([], []), Dev([], []), []), Owners(map[], map[]), map[]);
    InitialIsOwned(c.sys);
    c
  }

  /** The access takes `c` to `d` with result `x`: the flat memory's, or -1 and the flat
      memory stays. */
  ghost predicate Accessed(c: Coherent, op: Op, d: Coherent, x: Option<Byte>)
    requires Allowed(c.sys, op)
  {
    && (d.sys, x) == Apply(c.sys, op)
    && if x.Some? then (d.flat, x.value) == FlatApply(c.flat, op) else d.flat == c.flat
  }

  class Machine {
    const ram: PhysicalMemory
    const swp: PhysicalMemory
    const procs: seq<Process>
    ghost var meaning: Coherent

    constructor (ram: PhysicalMemory, swp: PhysicalMemory, procs: seq<Process>)
      requires Apart(ram, swp) && Separate(procs)
      requires Initial(Sys(ram.View(), swp.View(), Views(procs)))
      requires forall i :: 0 <= i < |procs| ==> Mapped(procs[i])
      ensures this.ram == ram && this.swp == swp && this.procs == procs
      ensures Valid() && meaning.flat == map[]
    {
      this.ram, this.swp, this.procs := ram, swp, procs;
      InitialIsOwned(Sys(ram.View(), swp.View(), Views(procs)));
      meaning := Meaning(Sys(ram.View(), swp.View(), Views(procs)), Owners(map[], map[]), map[]);
    }

    ghost predicate Valid()
      reads this, ram, swp, ram.storage, swp.storage, procs, set p | p in procs :: p.dir
    {
      && Apart(ram, swp) && Separate(procs)
      && InState(meaning.sys)
    }

    ghost function State(): (s: Sys)
      reads ram, swp, ram.storage, swp.storage, procs, set p | p in procs :: p.dir
    {
      Sys(ram.View(), swp.View(), Views(procs))
    }

    /** The objects hold the state `s`. */
    ghost predicate InState(s: Sys)
      reads ram, swp, ram.storage, swp.storage, procs, set p | p in procs :: p.dir
    {
      && (forall i :: 0 <= i < |procs| ==> Mapped(procs[i]))
      && State() == s
    }

    /** One pg_getval or pg_setval whose page has its tables or can get them. */
    method Access(op: Op) returns (x: Option<Byte>)
      requires Valid() && Allowed(meaning.sys, op) && TablesFit(procs[op.i], Pgn(op.addr))
      modifies `meaning, ram, ram.storage, swp, swp.storage, procs[op.i], procs[op.i].dir
      ensures Valid()
      ensures Accessed(old(meaning), op, meaning, x)
    {
      ghost var c, y := AccessRefines(meaning, op);
      x := Step(op, meaning.sys, c.sys, y);
      Record(c);
    }

    ghost method Record(c: Coherent)
      requires Apart(ram, swp) && Separate(procs) && InState(c.sys)
      modifies `meaning
      ensures Valid() && meaning == c
    {
      meaning := c;
    }

    /** The access, and nothing of the other processes. */
    method Step(op: Op, ghost s: Sys, ghost t: Sys, ghost y: Option<Byte>) returns (x: Option<Byte>)
      requires Apart(ram, swp) && Separate(procs) && InState(s)
      requires op.i < |procs| && TablesFit(procs[op.i], Pgn(op.addr))
      requires Ready(ViewOf(s, op.i), Pgn(op.addr)) && FrameExists(ViewOf(s, op.i), op)
      requires (t, y) == Apply(s, op)
      modifies ram, ram.storage, swp, swp.storage, procs[op.i], procs[op.i].dir
      ensures InState(t) && x == y
    {
      var p := procs[op.i];
      assert ViewOf(s, op.i) == Seen(ram, swp, p);
      x := Perform(ram, swp, p, op);
      forall j | 0 <= j < |procs| && j != op.i
        ensures procs[j].View() == s.procs[j] && Mapped(procs[j])
      {
        assert procs[j] != p && procs[j].dir != p.dir;
        assert unchanged(procs[j]) && unchanged(procs[j].dir);
      }
      ViewsAfter(procs, op.i, s.procs);
    }
  }

  lemma AccessRefines(c: Coherent, op: Op) returns (d: Coherent, x: Option<Byte>)
    requires Allowed(c.sys, op)
    ensures (d.sys, x) == Apply(c.sys, op) && Accessed(c, op, d, x)
    ensures FrameExists(ViewOf(c.sys, op.i), op)
  {
    x := Apply(c.sys, op).1;
    var o1 := StepRefines(c.sys, c.owners, c.flat, op);
    d := Meaning(Apply(c.sys, op).0, o1, if x.Some? then FlatApply(c.flat, op).0 else c.flat);
    FrameIsOwned(c.sys, c.owners, op);
  }

  /** The access, on the process and the devices. */
  method Perform(ram: PhysicalMemory, swp: PhysicalMemory, p: Process, op: Op) returns (x: Option<Byte>)
    requires Apart(ram, swp) && Mapped(p) && Ready(Seen(ram, swp, p), Pgn(op.addr))
    requires TablesFit(p, Pgn(op.addr)) && FrameExists(Seen(ram, swp, p), op)
    modifies ram, ram.storage, swp, swp.storage, p, p.dir
    ensures Mapped(p)
    ensures (Seen(ram, swp, p), x) == ApplyTo(old(Seen(ram, swp, p)), op)
  {
    var r;
    match op {
      case Get(_, addr) =>
        var data;
        ghost var tabled;
        r, data, tabled := PgGetVal(ram, swp, p, addr);
        x := if r == 0 then Some(data) else None;
      case Set(_, addr, b) =>
        ghost var tabled, dirtied;
        r, tabled, dirtied := PgSetVal(ram, swp, p, addr, b);
        x := if r == 0 then Some(b) else None;
    }
  }

  /** The other processes are as before. */
  lemma ViewsAfter(procs: seq<Process>, i: nat, was: seq<Proc>)
    requires i < |procs| == |was|
    requires forall j :: 0 <= j < |procs| && j != i ==> procs[j].View() == was[j]
    ensures Views(procs) == was[i := procs[i].View()]
  {
  }

  ghost predicate Separate(procs: seq<Process>) {
    forall i, j :: 0 <= i < j < |procs| ==> procs[i] != procs[j] && procs[i].dir != procs[j].dir
  }

  ghost function Views(procs: seq<Process>): (v: seq<Proc>)
    reads procs, set p | p in procs :: p.dir
    ensures |v| == |procs| && forall i :: 0 <= i < |procs| ==> v[i] == procs[i].View()
  {
    if procs == [] then [] else [procs[0].View()] + Views(procs[1..])
  }

  /** The frame that the access gets lies in RAM. */
  ghost predicate FrameExists(v: View, op: Op)
    requires Ready(v, Pgn(op.addr))
  {
    var (u, f) := GetPage(v, Pgn(op.addr), true);
    f.Some? ==> f.value < FrameCount(u.ram)
  }

  lemma FrameIsOwned(s: Sys, o: Owners, op: Op)
    requires Owned(s, o, None) && Allowed(s, op)
    ensures FrameExists(ViewOf(s, op.i), op)
  {
    var o1 := GetPageKeeps(s, o, op.i, Pgn(op.addr));
    var (v, f) := GetPage(ViewOf(s, op.i), Pgn(op.addr), true);
    var t := With(s, op.i, v);
    if f.Some? {
      assert Online(Entry(t, op.i, OpKey(op)));
    }
  }
}
