/** A run with RAM and SWAP full after which the resident list misses a page in RAM, although
    the last access succeeds. */
module FullDevices {
  import opened Wrappers
  import opened Words
  import opened Frames
  import opened Paging
  import opened Ownership
  import opened FlatMemory
  import opened PagingRuns
  import opened ResidentList
  import opened EvictedAccess

  /** Two RAM frames, no SWAP, one process. */
  function NoSwap(): (s: Sys)
    ensures |s.procs| == 1
  {
    Sys(Dev(seq(8192, _ => 0), [0, 1]), Dev([], []), [Proc(map[], [])])
  }

  /** Pages 0, 1 and 2 are touched, then page 0 again. */
  const TOUCH_THREE_THEN_FIRST: seq<Op> := [Get(0, 0), Get(0, 4096), Get(0, 8192), Get(0, 0)]

  lemma FillRam(s: Sys, ops: seq<Op>) returns (s1: Sys, s2: Sys)
    requires s == NoSwap() && ops == TOUCH_THREE_THEN_FIRST
    ensures Allowed(s, ops[0]) && s1 == Apply(s, ops[0]).0
    ensures Allowed(s1, ops[1]) && s2 == Apply(s1, ops[1]).0
    ensures |s2.procs| == 1 && s2.ram.free == [] && s2.swap.free == [] && s2.procs[0].fifo == [1, 0]
    ensures Online(Entry(s2, 0, 0)) && Fpn(Entry(s2, 0, 0)) == 0 && Entry(s2, 0, 2) == 0 && |s2.ram.bytes| == 8192
  {
    LoadsFree(s, ops[0], 0);
    s1 := Apply(s, ops[0]).0;
    LoadsFree(s1, ops[1], 1);
    s2 := Apply(s1, ops[1]).0;
  }

  /** Page 2 cannot be loaded, and page 0 is off the list for trying. */
  lemma LoadFails(s: Sys, op: Op) returns (t: Sys)
    requires |s.procs| == 1 && op == Get(0, 8192) && s.ram.free == [] && s.swap.free == []
    requires s.procs[0].fifo == [1, 0] && Online(Entry(s, 0, 0)) && Entry(s, 0, 2) == 0
    requires Fpn(Entry(s, 0, 0)) == 0 && |s.ram.bytes| == 8192
    ensures Allowed(s, op) && Apply(s, op).1 == None && t == Apply(s, op).0
    ensures |t.procs| == 1 && t.procs[0].fifo == [1] && Entry(t, 0, 0) == Entry(s, 0, 0)
  {
    assert Key(Victim(s.procs[0].fifo)) == 0;
    t := Apply(s, op).0;
  }

  lemma TouchAgain(s: Sys, op: Op) returns (t: Sys)
    requires |s.procs| == 1 && op == Get(0, 0) && s.procs[0].fifo == [1] && Online(Entry(s, 0, 0))
    ensures Allowed(s, op) && Apply(s, op).1.Some? && t == Apply(s, op).0
    ensures Online(Entry(t, 0, 0)) && !ListedKey(t, 0, 0)
  {
    t := Apply(s, op).0;
    assert t.procs[0].fifo == [1];
  }

  /** Page 0 is in RAM and its access has just succeeded, and it is not listed. */
  lemma ResidentPageIsUnlisted() returns (t: Sys)
    ensures Initial(NoSwap()) && AllowedRun(NoSwap(), TOUCH_THREE_THEN_FIRST)
    ensures t == Final(NoSwap(), TOUCH_THREE_THEN_FIRST)
    ensures Results(NoSwap(), TOUCH_THREE_THEN_FIRST)[3].Some?
    ensures Online(Entry(t, 0, 0)) && !ListedKey(t, 0, 0)
  {
    var s, ops := NoSwap(), TOUCH_THREE_THEN_FIRST;
    var s1, s2 := FillRam(s, ops);
    var s3 := LoadFails(s2, ops[2]);
    t := TouchAgain(s3, ops[3]);
    FourSteps(s, s1, s2, s3, t, ops);
  }

  lemma FourSteps(s: Sys, s1: Sys, s2: Sys, s3: Sys, t: Sys, ops: seq<Op>)
    requires |ops| == 4
    requires Allowed(s, ops[0]) && s1 == Apply(s, ops[0]).0 && Allowed(s1, ops[1]) && s2 == Apply(s1, ops[1]).0
    requires Allowed(s2, ops[2]) && s3 == Apply(s2, ops[2]).0 && Allowed(s3, ops[3]) && t == Apply(s3, ops[3]).0
    ensures AllowedRun(s, ops) && Final(s, ops) == t
    ensures Results(s, ops)[3] == Apply(s3, ops[3]).1
  {
    var rest := ops[1..];
    assert rest[0] == ops[1] && rest[1] == ops[2] && rest[2] == ops[3];
    ThreeSteps(s1, s2, s3, t, rest);
  }
}
