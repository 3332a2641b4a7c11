/** Why an evicted page must not be accessed: a run that reads back another page's byte. */
module EvictedAccess {
  import opened Wrappers
  import opened Words
  import opened Frames
  import opened Paging
  import opened Ownership
  import opened FlatMemory
  import opened PagingRuns

  /** Two RAM frames, two SWAP frames, one process. */
  function Small(): (s: Sys)
    ensures |s.procs| == 1
  {
    Sys(Dev(seq(8192, _ => 0), [0, 1]), Dev(seq(8192, _ => 0), [0, 1]), [Proc(map[], [])])
  }

  /** Byte 0 of page 0 is set to 7; then pages 1 and 2 are touched. */
  const WRITE_THEN_TOUCH: seq<Op> := [Set(0, 0, 7), Get(0, 4096), Get(0, 8192)]

  /** An access that loads a page into the free frame `f`. */
  lemma LoadsFree(s: Sys, op: Op, f: nat)
    requires |s.procs| == 1 && op.i == 0 && Entry(s, 0, OpKey(op)) == 0
    requires s.ram.free != [] && s.ram.free[0] == f < FrameCount(s.ram)
    ensures Allowed(s, op)
    ensures var t := Apply(s, op).0;
            && |t.procs| == 1 && t.swap == s.swap
            && t.ram.free == s.ram.free[1..] && |t.ram.bytes| == |s.ram.bytes|
            && t.procs[0].fifo == [Pgn(op.addr)] + s.procs[0].fifo
            && Online(Entry(t, 0, OpKey(op))) && Fpn(Entry(t, 0, OpKey(op))) == f % FPN_SPAN
            && Apply(s, op).1.Some?
            && forall k :: k != OpKey(op) ==> Entry(t, 0, k) == Entry(s, 0, k)
  {
    OnLineReads(0, f);
    SetDirtyReads(OnLine(0, f));
  }

  /** An access that evicts the victim from frame `f` to SWAP frame 0. */
  lemma EvictsToZero(s: Sys, op: Op, f: nat)
    requires |s.procs| == 1 && op.Get? && op.i == 0 && Entry(s, 0, OpKey(op)) == 0
    requires s.ram.free == [] && |s.procs[0].fifo| >= 2 && s.swap.free != [] && s.swap.free[0] == 0 < FrameCount(s.swap)
    requires Key(Victim(s.procs[0].fifo)) != OpKey(op)
    requires Online(Entry(s, 0, Key(Victim(s.procs[0].fifo))))
    requires Fpn(Entry(s, 0, Key(Victim(s.procs[0].fifo)))) == f < FrameCount(s.ram) <= FPN_SPAN
    ensures Allowed(s, op)
    ensures var t := Apply(s, op).0;
            && |t.procs| == 1 && |t.ram.bytes| == |s.ram.bytes| && |t.swap.bytes| == |s.swap.bytes|
            && IsPresent(Entry(t, 0, Key(Victim(s.procs[0].fifo))))
            && IsSwapped(Entry(t, 0, Key(Victim(s.procs[0].fifo))))
            && Swpoff(Entry(t, 0, Key(Victim(s.procs[0].fifo)))) == 0
            && Fpn(Entry(t, 0, Key(Victim(s.procs[0].fifo)))) == 0
            && Apply(s, op).1.Some?
            && Online(Entry(t, 0, OpKey(op))) && Fpn(Entry(t, 0, OpKey(op))) == f
  {
    OnLineReads(0, f);
    SwappedOutReads(Entry(s, 0, Key(Victim(s.procs[0].fifo))), 0, 0);
  }

  lemma ThreeSteps(s: Sys, s1: Sys, s2: Sys, t: Sys, ops: seq<Op>)
    requires |ops| == 3 && Allowed(s, ops[0]) && Allowed(s1, ops[1]) && Allowed(s2, ops[2])
    requires s1 == Apply(s, ops[0]).0 && s2 == Apply(s1, ops[1]).0 && t == Apply(s2, ops[2]).0
    ensures AllowedRun(s, ops) && Final(s, ops) == t
    ensures Results(s, ops)[0] == Apply(s, ops[0]).1
    ensures Results(s, ops)[1] == Apply(s1, ops[1]).1
    ensures Results(s, ops)[2] == Apply(s2, ops[2]).1
  {
    var last, none := ops[1..][1..], ops[1..][1..][1..];
    assert last[0] == ops[2] && ops[1..][0] == ops[1] && none == [];
    assert AllowedRun(t, none) && Final(t, none) == t;
    assert AllowedRun(s2, last) && Final(s2, last) == t;
    assert AllowedRun(s1, ops[1..]) && Final(s1, ops[1..]) == t;
    assert Results(s1, ops[1..])[1] == Results(s2, last)[0];
  }

  lemma FlatOfRun(done: seq<bool>)
    requires done == [true, true, true]
    ensures FlatRun(map[], WRITE_THEN_TOUCH, done).0 == map[(0, 0, 0) := 7]
  {
  }

  lemma TwoLoads(s: Sys, ops: seq<Op>) returns (s1: Sys, s2: Sys)
    requires s == Small() && ops == WRITE_THEN_TOUCH
    ensures Allowed(s, ops[0]) && s1 == Apply(s, ops[0]).0 && Apply(s, ops[0]).1.Some?
    ensures Allowed(s1, ops[1]) && s2 == Apply(s1, ops[1]).0 && Apply(s1, ops[1]).1.Some?
    ensures |s2.procs| == 1 && s2.ram.free == [] && |s2.ram.bytes| == |s2.swap.bytes| == 8192
    ensures s2.swap.free == [0, 1]
    ensures s2.procs[0].fifo == [1, 0] && Key(Victim(s2.procs[0].fifo)) == 0
    ensures Online(Entry(s2, 0, 0)) && Fpn(Entry(s2, 0, 0)) == 0 && Entry(s2, 0, 2) == 0
  {
    LoadsFree(s, ops[0], 0);
    s1 := Apply(s, ops[0]).0;
    LoadsFree(s1, ops[1], 1);
    s2 := Apply(s1, ops[1]).0;
  }

  /** The run, step by step. */
  lemma TheRun(s: Sys, ops: seq<Op>) returns (t: Sys)
    requires s == Small() && ops == WRITE_THEN_TOUCH
    ensures AllowedRun(s, ops) && Final(s, ops) == t
    ensures Successes(Results(s, ops)) == [true, true, true]
    ensures |t.procs| == 1 && |t.ram.bytes| == 8192
    ensures IsPresent(Entry(t, 0, 0)) && IsSwapped(Entry(t, 0, 0)) && Fpn(Entry(t, 0, 0)) == 0
    ensures Online(Entry(t, 0, 2)) && Fpn(Entry(t, 0, 2)) == 0
  {
    var s1, s2 := TwoLoads(s, ops);
    t := ThirdLoad(s2, ops[2]);
    ThreeSteps(s, s1, s2, t, ops);
  }

  lemma ThirdLoad(s: Sys, op: Op) returns (t: Sys)
    requires |s.procs| == 1 && op == Get(0, 8192) && s.ram.free == [] && s.swap.free == [0, 1]
    requires |s.ram.bytes| == |s.swap.bytes| == 8192
    requires s.procs[0].fifo == [1, 0] && Key(Victim(s.procs[0].fifo)) == 0
    requires Online(Entry(s, 0, 0)) && Fpn(Entry(s, 0, 0)) == 0 && Entry(s, 0, 2) == 0
    ensures Allowed(s, op) && t == Apply(s, op).0 && Apply(s, op).1.Some?
    ensures |t.procs| == 1 && |t.ram.bytes| == 8192
    ensures IsPresent(Entry(t, 0, 0)) && IsSwapped(Entry(t, 0, 0)) && Fpn(Entry(t, 0, 0)) == 0
    ensures Online(Entry(t, 0, 2)) && Fpn(Entry(t, 0, 2)) == 0
  {
    EvictsToZero(s, op, 0);
    t := Apply(s, op).0;
  }

  /** After the run page 0 is out in SWAP with its byte 7, and reading the byte gives 0: it
      comes from frame 0, where page 2 is now. */
  lemma EvictedReadIsWrong() returns (t: Sys)
    ensures Initial(Small()) && AllowedRun(Small(), WRITE_THEN_TOUCH)
    ensures t == Final(Small(), WRITE_THEN_TOUCH) && |t.procs| == 1
    ensures IsSwapped(Entry(t, 0, 0))
    ensures Represents(t, map[(0, 0, 0) := 7])
    ensures Ready(ViewOf(t, 0), Pgn(0)) && Apply(t, Get(0, 0)).1 == Some(0)
  {
    var s, ops := Small(), WRITE_THEN_TOUCH;
    t := TheRun(s, ops);
    RunRefines(s, ops);
    FlatOfRun(Successes(Results(s, ops)));
    ReadsPageTwo(t);
  }

  /** Frame 0 is page 2's, and page 2 was never written. */
  lemma ReadsPageTwo(t: Sys)
    requires |t.procs| == 1 && |t.ram.bytes| == 8192 && Represents(t, map[(0, 0, 0) := 7])
    requires IsPresent(Entry(t, 0, 0)) && Fpn(Entry(t, 0, 0)) == 0
    requires Online(Entry(t, 0, 2)) && Fpn(Entry(t, 0, 2)) == 0
    ensures Ready(ViewOf(t, 0), Pgn(0)) && Apply(t, Get(0, 0)).1 == Some(0)
  {
    assert PageIs(Content(t, 0, 2), map[(0, 0, 0) := 7], 0, 2);
    assert Content(t, 0, 2) == PageOf(t.ram, 0);
    assert PageOf(t.ram, 0)[0] == t.ram.bytes[0];
  }
}
