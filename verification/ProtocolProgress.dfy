/** No slot can stall: from every reachable state that is not finished some thread can
    move, and only a bounded number of steps separate two ticks. */
module ProtocolProgress {
  import opened Wrappers
  import opened Kernel
  import opened Protocol
  import opened ProtocolRuns

  /** Steps a CPU can still take before it blocks. */
  function CpuRank(pc: CpuPc, done: bool): nat {
    match pc
    case Blocked => if done then 0 else 8
    case WaitTurn => 7
    case AtRelease => 6
    case AtFetch(_) => 5
    case AtDecide(_) => 4
    case AtMark => 3
    case AtSignal => 2
    case AtLastSignal => 2
    case AtSetDone => 1
    case AtDetach => 1
    case Gone => 0
  }

  function LoaderRank(pc: LdPc, done: bool): nat {
    match pc
    case LBlocked(_) => if done then 0 else 8
    case LWait(_) => 7
    case LFirstSignal => 6
    case LHead => 5
    case LInnerSignal => 5
    case LCheck => 4
    case LEndSignal => 4
    case LAdd => 3
    case LFinish => 3
    case LOuterSignal => 2
    case LDetach => 2
    case LSetDone(_) => 1
    case LGone => 0
  }

  /** A release gives its device at most 8 steps back, so it counts 9. */
  function TimerRank(f: Config, pc: TimerPc): int {
    match pc
    case TReset(_) => 9 * (f.cpus + 1) + f.cpus + 5
    case TRelease(j, _) => 9 * (f.cpus + 1 - j) + f.cpus + 4
    case TLoop => f.cpus + 3
    case TScan(j, _) => f.cpus + 2 - j
    case TTick(_) => 0
    case TExit => 0
  }

  function CpuRanks(cpu: seq<CpuPc>, done: seq<bool>): nat
    requires |done| == |cpu| + 1
  {
    if cpu == [] then 0
    else CpuRank(cpu[|cpu| - 1], done[|cpu|]) + CpuRanks(cpu[..|cpu| - 1], done[..|cpu|])
  }

  function Measure(f: Config, c: Conc): int {
    if |c.done| != |c.cpu| + 1 then 0
    else CpuRanks(c.cpu, c.done) + LoaderRank(c.ld, c.done[0]) + TimerRank(f, c.timer) + (if c.stop then 0 else 1)
  }

  /** CPU `j` and its flag are the same. */
  predicate Same(cpu: seq<CpuPc>, done: seq<bool>, cpu1: seq<CpuPc>, done1: seq<bool>, j: nat)
    requires j < |cpu| == |cpu1| && |done| == |done1| == |cpu| + 1
  {
    cpu1[j] == cpu[j] && done1[j + 1] == done[j + 1]
  }

  lemma {:induction false} RanksChange(cpu: seq<CpuPc>, done: seq<bool>, cpu1: seq<CpuPc>, done1: seq<bool>, id: nat)
    requires |done| == |cpu| + 1 && |done1| == |done| && |cpu1| == |cpu| && id < |cpu|
    requires forall j :: 0 <= j < |cpu| && j != id ==> Same(cpu, done, cpu1, done1, j)
    ensures CpuRanks(cpu1, done1) - CpuRank(cpu1[id], done1[id + 1]) ==
            CpuRanks(cpu, done) - CpuRank(cpu[id], done[id + 1])
    decreases |cpu|
  {
    var n := |cpu| - 1;
    var a, b, a1, b1 := cpu[..n], done[..n + 1], cpu1[..n], done1[..n + 1];
    forall j | 0 <= j < n && j != id
      ensures Same(a, b, a1, b1, j)
    {
      assert Same(cpu, done, cpu1, done1, j);
    }
    if id == n {
      RanksSame(a, b, a1, b1);
    } else {
      RanksChange(a, b, a1, b1, id);
      assert Same(cpu, done, cpu1, done1, n);
    }
  }

  lemma {:induction false} RanksSame(cpu: seq<CpuPc>, done: seq<bool>, cpu1: seq<CpuPc>, done1: seq<bool>)
    requires |done| == |cpu| + 1 && |done1| == |done|
    requires |cpu1| == |cpu| && forall j :: 0 <= j < |cpu| ==> Same(cpu, done, cpu1, done1, j)
    ensures CpuRanks(cpu1, done1) == CpuRanks(cpu, done)
    decreases |cpu|
  {
    if cpu != [] {
      var n := |cpu| - 1;
      var a, b, a1, b1 := cpu[..n], done[..n + 1], cpu1[..n], done1[..n + 1];
      forall j | 0 <= j < n
        ensures Same(a, b, a1, b1, j)
      {
        assert Same(cpu, done, cpu1, done1, j);
      }
      RanksSame(a, b, a1, b1);
      assert Same(cpu, done, cpu1, done1, n);
    }
  }

  /** A step of CPU `id` changes, of all that the measure counts, only its own rank. */
  ghost predicate CpuRankFalls(c: Conc, r: Conc, id: nat) {
    && |r.cpu| == |c.cpu| && |r.done| == |c.done| == |c.cpu| + 1 && id < |c.cpu|
    && r.ld == c.ld && r.timer == c.timer && r.stop == c.stop && r.time == c.time && r.done[0] == c.done[0]
    && (forall j :: 0 <= j < |c.cpu| && j != id ==> Same(c.cpu, c.done, r.cpu, r.done, j))
    && CpuRank(r.cpu[id], r.done[id + 1]) < CpuRank(c.cpu[id], c.done[id + 1])
  }

  lemma CpuStepRank(f: Config, c: Conc, id: nat, r: Conc)
    requires ConfigOk(f) && Inv(f, c) && id < f.cpus && CpuAct(f, c, id) == Some(r)
    ensures CpuRankFalls(c, r, id)
  {
    assert CpuInv(f, c, id);
    match c.cpu[id]
    case AtRelease => CpuWorkRank(f, c, id, r);
    case AtFetch(_) => CpuWorkRank(f, c, id, r);
    case AtDecide(_) => CpuWorkRank(f, c, id, r);
    case AtSignal => CpuSignalRank(f, c, id, r);
    case AtLastSignal => CpuSignalRank(f, c, id, r);
    case _ => CpuEdgeRank(f, c, id, r);
  }

  lemma CpuWorkRank(f: Config, c: Conc, id: nat, r: Conc)
    requires ConfigOk(f) && Shape(f, c) && id < f.cpus && CpuAct(f, c, id) == Some(r)
    requires c.cpu[id].AtRelease? || c.cpu[id].AtFetch? || c.cpu[id].AtDecide?
    ensures CpuRankFalls(c, r, id)
  {
  }

  lemma CpuSignalRank(f: Config, c: Conc, id: nat, r: Conc)
    requires ConfigOk(f) && Shape(f, c) && id < f.cpus && CpuAct(f, c, id) == Some(r)
    requires c.cpu[id].AtSignal? || c.cpu[id].AtLastSignal?
    ensures CpuRankFalls(c, r, id)
  {
  }

  lemma CpuEdgeRank(f: Config, c: Conc, id: nat, r: Conc)
    requires ConfigOk(f) && Shape(f, c) && id < f.cpus && CpuAct(f, c, id) == Some(r)
    requires !c.cpu[id].AtRelease? && !c.cpu[id].AtFetch? && !c.cpu[id].AtDecide?
    requires !c.cpu[id].AtSignal? && !c.cpu[id].AtLastSignal?
    ensures CpuRankFalls(c, r, id)
  {
  }

  lemma CpuRankCounts(f: Config, c: Conc, id: nat, r: Conc)
    requires CpuRankFalls(c, r, id)
    ensures Measure(f, r) < Measure(f, c)
  {
    RanksChange(c.cpu, c.done, r.cpu, r.done, id);
  }

  ghost predicate LoaderRankFalls(c: Conc, r: Conc) {
    && r.cpu == c.cpu && |r.done| == |c.done| == |c.cpu| + 1
    && r.timer == c.timer && r.stop == c.stop && r.time == c.time
    && (forall j :: 1 <= j < |c.done| ==> r.done[j] == c.done[j])
    && LoaderRank(r.ld, r.done[0]) < LoaderRank(c.ld, c.done[0])
  }

  lemma LoaderStepRank(f: Config, c: Conc, r: Conc)
    requires ConfigOk(f) && Shape(f, c) && LoaderAct(f, c) == Some(r)
    ensures LoaderRankFalls(c, r)
  {
    match c.ld
    case LCheck => LoaderCommitRank(f, c, r);
    case LOuterSignal => LoaderCommitRank(f, c, r);
    case LFinish => LoaderCommitRank(f, c, r);
    case LAdd => LoaderCommitRank(f, c, r);
    case LSetDone(_) => LoaderFlagRank(f, c, r);
    case LBlocked(_) => LoaderFlagRank(f, c, r);
    case LDetach => LoaderFlagRank(f, c, r);
    case _ => LoaderTokenRank(f, c, r);
  }

  lemma LoaderCommitRank(f: Config, c: Conc, r: Conc)
    requires ConfigOk(f) && Shape(f, c) && LoaderAct(f, c) == Some(r)
    requires c.ld.LCheck? || c.ld.LOuterSignal? || c.ld.LFinish? || c.ld.LAdd?
    ensures LoaderRankFalls(c, r)
  {
  }

  lemma LoaderFlagRank(f: Config, c: Conc, r: Conc)
    requires ConfigOk(f) && Shape(f, c) && LoaderAct(f, c) == Some(r)
    requires c.ld.LSetDone? || c.ld.LBlocked? || c.ld.LDetach?
    ensures LoaderRankFalls(c, r)
  {
  }

  lemma LoaderTokenRank(f: Config, c: Conc, r: Conc)
    requires ConfigOk(f) && Shape(f, c) && LoaderAct(f, c) == Some(r)
    requires c.ld.LWait? || c.ld.LFirstSignal? || c.ld.LHead? || c.ld.LInnerSignal? || c.ld.LEndSignal?
    ensures LoaderRankFalls(c, r)
  {
  }

  lemma LoaderRankCounts(f: Config, c: Conc, r: Conc)
    requires LoaderRankFalls(c, r)
    ensures Measure(f, r) < Measure(f, c)
  {
    RanksSame(c.cpu, c.done, r.cpu, r.done);
  }

  lemma ReleaseStepFalls(f: Config, c: Conc, r: Conc)
    requires ConfigOk(f) && Inv(f, c) && c.timer.TRelease? && c.timer.j <= f.cpus && TimerAct(f, c) == Some(r)
    ensures Measure(f, r) < Measure(f, c)
  {
    var d := DevAt(f, c.timer.j);
    assert r.done == c.done[d := false] && r.cpu == c.cpu && r.ld == c.ld;
    assert TimerRank(f, r.timer) == TimerRank(f, c.timer) - 9;
    RanksRise(c.cpu, c.done, d);
    assert LoaderRank(r.ld, r.done[0]) <= LoaderRank(c.ld, c.done[0]) + (if d == 0 then 8 else 0);
  }

  /** Releasing a device gives its CPU, if it is one, at most 8 steps back. */
  lemma RanksRise(cpu: seq<CpuPc>, done: seq<bool>, d: nat)
    requires |done| == |cpu| + 1 && d < |done|
    ensures CpuRanks(cpu, done[d := false]) <= CpuRanks(cpu, done) + (if d == 0 then 0 else 8)
  {
    if d == 0 {
      RanksSame(cpu, done, cpu, done[d := false]);
    } else {
      RanksChange(cpu, done, cpu, done[d := false], d - 1);
    }
  }

  lemma TimerStepFalls(f: Config, c: Conc, r: Conc)
    requires ConfigOk(f) && Inv(f, c) && TimerAct(f, c) == Some(r)
    ensures r.time == c.time ==> Measure(f, r) < Measure(f, c)
  {
    if c.timer.TRelease? && c.timer.j <= f.cpus {
      ReleaseStepFalls(f, c, r);
    }
  }

  /** Every step that does not advance the time lowers a natural number. */
  lemma StepFalls(f: Config, acts: seq<Action>, c: Conc, a: Action, r: Conc)
    requires ConfigOk(f) && RunOf(f, acts) == Some(c) && Act(f, c, a) == Some(r)
    ensures Measure(f, c) >= 0 && (r.time == c.time ==> Measure(f, r) < Measure(f, c))
  {
    RunIsReached(f, acts, c);
    match a
    case CpuMoves(id) =>
      CpuStepRank(f, c, id, r);
      CpuRankCounts(f, c, id, r);
    case LoaderMoves =>
      LoaderStepRank(f, c, r);
      LoaderRankCounts(f, c, r);
    case TimerMoves => TimerStepFalls(f, c, r);
    case MainMoves =>
  }

  /** The simulation is over: every thread has exited and so has the timer. */
  ghost predicate Finished(c: Conc) {
    AllGone(c) && c.stop && c.timer.TExit?
  }

  ghost predicate CanMove(f: Config, c: Conc)
    requires ConfigOk(f) && Shape(f, c)
  {
    exists a :: Act(f, c, a).Some?
  }

  /** While the timer waits for device `j`, someone else can move. */
  lemma WaitingTimerIsServed(f: Config, c: Conc)
    requires ConfigOk(f) && Inv(f, c) && c.timer.TScan? && TimerAct(f, c) == None
    ensures CanMove(f, c)
  {
    var q := c.serial;
    var d := DevAt(f, c.timer.j);
    assert !c.done[d] && !c.fsh[d];
    if q.turn >= 0 {
      assert CpuInv(f, c, q.turn);
      assert Act(f, c, CpuMoves(q.turn)).Some?;
    } else if q.turn == -1 && q.loader {
      assert Act(f, c, LoaderMoves).Some?;
    } else if d == 0 {
      assert Act(f, c, LoaderMoves).Some?;
    } else {
      assert CpuInv(f, c, d - 1);
      assert Act(f, c, CpuMoves(d - 1)).Some?;
    }
  }

  /** No deadlock: in every reachable state that is not finished a step is enabled. */
  lemma NeverStuck(f: Config, acts: seq<Action>, c: Conc)
    requires ConfigOk(f) && RunOf(f, acts) == Some(c) && !Finished(c)
    ensures CanMove(f, c)
  {
    RunIsReached(f, acts, c);
    if TimerAct(f, c).Some? {
      assert Act(f, c, TimerMoves).Some?;
    } else if c.timer.TScan? {
      WaitingTimerIsServed(f, c);
    } else {
      assert c.timer.TExit?;
      forall id | 0 <= id < f.cpus
        ensures c.cpu[id] == Gone
      {
        assert CpuInv(f, c, id) && c.fsh[id + 1];
      }
      assert Act(f, c, MainMoves).Some?;
    }
  }
}
