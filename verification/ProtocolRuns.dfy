/** The main results about whole runs of the protocol, under every interleaving. */
module ProtocolRuns {
  import opened Wrappers
  import opened Kernel
  import opened Serial
  import opened Protocol
  import opened ProtocolProofs

  /** Who is in its turn, if anyone. */
  function Current(c: Conc): seq<Turn> {
    var q := c.serial;
    if 0 <= q.turn < |c.cpu| && CpuInTurn(c.cpu[q.turn]) then [Turn(q.turn, q.slot)]
    else if q.turn == -1 && LoaderInTurn(c.ld) then [Turn(-1, q.slot)]
    else []
  }

  /** The recorded turns are those of the sequential program, the open one included. */
  ghost predicate LogInv(c: Conc) {
    c.log == LogOf(c.serial) + Current(c)
  }

  /** What holds in every reachable state. */
  ghost predicate Reached(f: Config, c: Conc)
    requires ConfigOk(f)
  {
    Inv(f, c) && c.serial == Iterate(f, c.steps) && LogInv(c)
  }

  /** The steps that end a turn or a slot. */
  predicate Commits(f: Config, c: Conc, a: Action)
    requires ConfigOk(f) && Shape(f, c)
  {
    match a
    case CpuMoves(id) => id < f.cpus && (c.cpu[id].AtSignal? || c.cpu[id].AtLastSignal?)
    case LoaderMoves => c.ld.LOuterSignal? || c.ld.LFinish? || (c.ld.LCheck? && c.time < f.start[c.kern.next])
    case TimerMoves => c.timer.TReset?
    case MainMoves => false
  }

  lemma CommitIsStep(f: Config, c: Conc, a: Action)
    requires ConfigOk(f) && Shape(f, c) && Act(f, c, a).Some?
    ensures var r := Act(f, c, a).value;
            if Commits(f, c, a) then r.serial == Step(f, c.serial) && r.steps == c.steps + 1 && r.log == c.log
            else r.serial == c.serial && r.steps == c.steps
  {
  }

  lemma CpuCommitEndsTurn(f: Config, c: Conc, id: nat, r: Conc)
    requires ConfigOk(f) && Inv(f, c) && Commits(f, c, CpuMoves(id)) && CpuAct(f, c, id) == Some(r)
    ensures Current(r) == []
    ensures Current(c) == [Turn(id, c.serial.slot)] && c.serial.turn == id
  {
    InTurnMeansTurn(f, c, id);
    OnlyOneInTurn(f, c, id);
    assert r.ld == c.ld && r.cpu == c.cpu[id := r.cpu[id]] && !CpuInTurn(r.cpu[id]);
  }

  lemma OnlyOneInTurn(f: Config, c: Conc, id: nat)
    requires ConfigOk(f) && Inv(f, c) && id < f.cpus && CpuInTurn(c.cpu[id])
    ensures !LoaderInTurn(c.ld) && forall jd :: 0 <= jd < f.cpus && jd != id ==> !CpuInTurn(c.cpu[jd])
  {
    InTurnMeansTurn(f, c, id);
    forall jd | 0 <= jd < f.cpus && CpuInTurn(c.cpu[jd])
      ensures jd == id
    {
      InTurnMeansTurn(f, c, jd);
    }
  }

  lemma TickEndsTurn(f: Config, c: Conc, r: Conc)
    requires ConfigOk(f) && Inv(f, c) && Commits(f, c, TimerMoves) && TimerAct(f, c) == Some(r)
    ensures Current(r) == [] && Current(c) == [] && SlotOver(c.serial)
  {
    SettledMeansOver(f, c);
    StepMoves(f, c.serial);
    assert r.cpu == c.cpu && r.ld == c.ld;
    if r.serial.turn >= 0 {
      assert c.cpu[r.serial.turn] == Blocked;
    }
  }

  lemma CommitEndsTurn(f: Config, c: Conc, a: Action, r: Conc)
    requires ConfigOk(f) && Inv(f, c) && Commits(f, c, a) && Act(f, c, a) == Some(r)
    ensures Current(r) == []
    ensures Current(c) == if SlotOver(c.serial) then [] else [Turn(c.serial.turn, c.serial.slot)]
  {
    match a
    case CpuMoves(id) => CpuCommitEndsTurn(f, c, id, r);
    case LoaderMoves => LoaderInTurnMeansTurn(f, c);
    case TimerMoves => TickEndsTurn(f, c, r);
  }

  lemma EnteringIsLogged(f: Config, c: Conc, a: Action, r: Conc)
    requires ConfigOk(f) && Inv(f, c) && LogInv(c) && Act(f, c, a) == Some(r)
    requires if a.CpuMoves? then a.id < f.cpus && c.cpu[a.id].WaitTurn? else a.LoaderMoves? && c.ld.LWait?
    ensures LogInv(r)
  {
    if c.timer.TReset? {
      SettledMeansOver(f, c);
    }
    if a.CpuMoves? {
      assert CpuInv(f, c, a.id);
      assert c.serial.turn == a.id && Current(r) == [Turn(a.id, c.time)];
    } else {
      assert c.serial.turn == -1 && Current(r) == [Turn(-1, c.time)];
    }
    assert Current(c) == [];
  }

  lemma CpuQuietKeepsCurrent(f: Config, c: Conc, id: nat, r: Conc)
    requires ConfigOk(f) && Inv(f, c) && id < f.cpus && CpuAct(f, c, id) == Some(r)
    requires !Commits(f, c, CpuMoves(id)) && !c.cpu[id].WaitTurn?
    ensures Current(r) == Current(c) && r.log == c.log
  {
    assert CpuInv(f, c, id);
    if CpuInTurn(c.cpu[id]) {
      InTurnMeansTurn(f, c, id);
      assert CpuInTurn(r.cpu[id]);
    } else {
      assert !CpuInTurn(r.cpu[id]);
    }
  }

  lemma LoaderQuietKeepsCurrent(f: Config, c: Conc, r: Conc)
    requires ConfigOk(f) && Inv(f, c) && LoaderAct(f, c) == Some(r)
    requires !Commits(f, c, LoaderMoves) && !c.ld.LWait?
    ensures Current(r) == Current(c) && r.log == c.log
  {
    if LoaderInTurn(c.ld) {
      LoaderInTurnMeansTurn(f, c);
    }
  }

  lemma TimerQuietKeepsCurrent(f: Config, c: Conc, r: Conc)
    requires ConfigOk(f) && Shape(f, c) && TimerAct(f, c) == Some(r) && !c.timer.TReset?
    ensures Current(r) == Current(c) && r.log == c.log
  {
    assert r.serial == c.serial && r.cpu == c.cpu && r.ld == c.ld;
  }

  lemma QuietKeepsCurrent(f: Config, c: Conc, a: Action, r: Conc)
    requires ConfigOk(f) && Inv(f, c) && !Commits(f, c, a) && Act(f, c, a) == Some(r)
    requires a.CpuMoves? ==> a.id < f.cpus && !c.cpu[a.id].WaitTurn?
    requires a.LoaderMoves? ==> !c.ld.LWait?
    ensures Current(r) == Current(c) && r.log == c.log
  {
    match a
    case CpuMoves(id) => CpuQuietKeepsCurrent(f, c, id, r);
    case LoaderMoves => LoaderQuietKeepsCurrent(f, c, r);
    case TimerMoves => TimerQuietKeepsCurrent(f, c, r);
    case MainMoves =>
  }

  lemma QuietKeepsReached(f: Config, c: Conc, a: Action, r: Conc)
    requires ConfigOk(f) && Reached(f, c) && !Commits(f, c, a) && Act(f, c, a) == Some(r) && Inv(f, r)
    ensures Reached(f, r)
  {
    CommitIsStep(f, c, a);
    if (a.CpuMoves? && c.cpu[a.id].WaitTurn?) || (a.LoaderMoves? && c.ld.LWait?) {
      EnteringIsLogged(f, c, a, r);
    } else {
      QuietKeepsCurrent(f, c, a, r);
    }
  }

  lemma CommitKeepsReached(f: Config, c: Conc, a: Action, r: Conc)
    requires ConfigOk(f) && Reached(f, c) && Commits(f, c, a) && Act(f, c, a) == Some(r) && Inv(f, r)
    ensures Reached(f, r)
  {
    CommitIsStep(f, c, a);
    CommitEndsTurn(f, c, a, r);
    StepExtends(f, c.serial, r.serial, c.steps);
  }

  lemma StepExtends(f: Config, q: State, r: State, n: nat)
    requires ConfigOk(f) && q == Iterate(f, n) && r == Step(f, q)
    ensures r == Iterate(f, n + 1)
    ensures LogOf(r) == LogOf(q) + if SlotOver(q) then [] else [Turn(q.turn, q.slot)]
  {
    AlwaysGood(f, n);
    ForwardOneMore(f, Init(f), n);
    StepMoves(f, q);
    MovesExtendLog(f, q, r);
  }

  lemma ActKeepsReached(f: Config, c: Conc, a: Action, r: Conc)
    requires ConfigOk(f) && Reached(f, c) && Act(f, c, a) == Some(r)
    ensures Reached(f, r)
  {
    ActKeeps(f, c, a);
    if Commits(f, c, a) {
      CommitKeepsReached(f, c, a, r);
    } else {
      QuietKeepsReached(f, c, a, r);
    }
  }

  lemma CpuWorkShape(f: Config, c: Conc, id: nat, r: Conc)
    requires ConfigOk(f) && Shape(f, c) && id < f.cpus && CpuAct(f, c, id) == Some(r)
    requires c.cpu[id].AtRelease? || c.cpu[id].AtFetch? || c.cpu[id].AtDecide?
    ensures Shape(f, r)
  {
    assert r.serial == c.serial;
  }

  lemma CpuSignalShape(f: Config, c: Conc, id: nat, r: Conc)
    requires ConfigOk(f) && Shape(f, c) && id < f.cpus && CpuAct(f, c, id) == Some(r)
    requires c.cpu[id].AtSignal? || c.cpu[id].AtLastSignal?
    ensures Shape(f, r)
  {
    assert r.kern == c.kern && r.serial == Step(f, c.serial);
  }

  lemma CpuEdgeShape(f: Config, c: Conc, id: nat, r: Conc)
    requires ConfigOk(f) && Shape(f, c) && id < f.cpus && CpuAct(f, c, id) == Some(r)
    requires !c.cpu[id].AtRelease? && !c.cpu[id].AtFetch? && !c.cpu[id].AtDecide?
    requires !c.cpu[id].AtSignal? && !c.cpu[id].AtLastSignal?
    ensures Shape(f, r)
  {
    assert r.kern == c.kern && r.serial == c.serial;
  }

  lemma CpuActShape(f: Config, c: Conc, id: nat, r: Conc)
    requires ConfigOk(f) && Shape(f, c) && id < f.cpus && CpuAct(f, c, id) == Some(r)
    ensures Shape(f, r)
  {
    match c.cpu[id]
    case AtRelease => CpuWorkShape(f, c, id, r);
    case AtFetch(_) => CpuWorkShape(f, c, id, r);
    case AtDecide(_) => CpuWorkShape(f, c, id, r);
    case AtSignal => CpuSignalShape(f, c, id, r);
    case AtLastSignal => CpuSignalShape(f, c, id, r);
    case _ => CpuEdgeShape(f, c, id, r);
  }

  lemma LoaderCommitShape(f: Config, c: Conc, r: Conc)
    requires ConfigOk(f) && Shape(f, c) && LoaderAct(f, c) == Some(r)
    requires c.ld.LCheck? || c.ld.LOuterSignal? || c.ld.LFinish?
    ensures Shape(f, r)
  {
    assert r.serial == c.serial || r.serial == Step(f, c.serial);
    assert Shaped(f, r.kern);
  }

  lemma LoaderOtherShape(f: Config, c: Conc, r: Conc)
    requires ConfigOk(f) && Shape(f, c) && LoaderAct(f, c) == Some(r)
    requires !c.ld.LCheck? && !c.ld.LAdd? && !c.ld.LOuterSignal? && !c.ld.LFinish?
    ensures Shape(f, r)
  {
    assert r.serial == c.serial && r.kern == c.kern;
  }

  lemma LoaderAddShape(f: Config, c: Conc, r: Conc)
    requires ConfigOk(f) && Shape(f, c) && LoaderAct(f, c) == Some(r) && c.ld.LAdd?
    ensures Shape(f, r)
  {
    assert r.serial == c.serial;
  }

  lemma LoaderActShape(f: Config, c: Conc, r: Conc)
    requires ConfigOk(f) && Shape(f, c) && LoaderAct(f, c) == Some(r)
    ensures Shape(f, r)
  {
    match c.ld
    case LCheck => LoaderCommitShape(f, c, r);
    case LAdd => LoaderAddShape(f, c, r);
    case LOuterSignal => LoaderCommitShape(f, c, r);
    case LFinish => LoaderCommitShape(f, c, r);
    case _ => LoaderOtherShape(f, c, r);
  }

  /** Steps keep every index in range. */
  lemma ActKeepsShape(f: Config, c: Conc, a: Action, r: Conc)
    requires ConfigOk(f) && Shape(f, c) && Act(f, c, a) == Some(r)
    ensures Shape(f, r)
  {
    match a
    case CpuMoves(id) => CpuActShape(f, c, id, r);
    case LoaderMoves => LoaderActShape(f, c, r);
    case TimerMoves =>
    case MainMoves =>
  }

  /** The state after the actions `acts`; None when one of them is not enabled. */
  ghost function After(f: Config, c: Conc, acts: seq<Action>): (r: Option<Conc>)
    requires ConfigOk(f) && Shape(f, c)
    ensures r.Some? ==> Shape(f, r.value)
    decreases |acts|
  {
    if acts == [] then Some(c)
    else match Act(f, c, acts[0])
         case None => None
         case Some(r) => ActKeepsShape(f, c, acts[0], r); After(f, r, acts[1..])
  }

  /** Any interleaving from the start of the simulator. */
  ghost function RunOf(f: Config, acts: seq<Action>): (r: Option<Conc>)
    requires ConfigOk(f)
    ensures r.Some? ==> Shape(f, r.value)
  {
    After(f, Boot(f), acts)
  }

  lemma BootReached(f: Config)
    requires ConfigOk(f)
    ensures Reached(f, Boot(f))
  {
  }

  lemma {:induction false} AfterIsReached(f: Config, c: Conc, acts: seq<Action>, r: Conc)
    requires ConfigOk(f) && Reached(f, c) && After(f, c, acts) == Some(r)
    ensures Reached(f, r)
    decreases |acts|
  {
    if acts != [] {
      var d := Act(f, c, acts[0]).value;
      ActKeepsReached(f, c, acts[0], d);
      AfterIsReached(f, d, acts[1..], r);
    }
  }

  /** Every state that an interleaving leads to satisfies the invariant, follows the
      sequential program, and has recorded its turns. */
  lemma RunIsReached(f: Config, acts: seq<Action>, c: Conc)
    requires ConfigOk(f) && RunOf(f, acts) == Some(c)
    ensures Reached(f, c)
  {
    BootReached(f);
    AfterIsReached(f, Boot(f), acts, c);
  }

  /** Participant `p` (a CPU, or -1 for the loader) is in its turn. */
  ghost predicate InTurn(c: Conc, p: int) {
    if p == -1 then LoaderInTurn(c.ld) else 0 <= p < |c.cpu| && CpuInTurn(c.cpu[p])
  }

  /** At most one participant is in its turn, the loader included, although the loader
      passes the token on before it publishes a process. */
  lemma MutualExclusion(f: Config, acts: seq<Action>, c: Conc, p: int, r: int)
    requires ConfigOk(f) && RunOf(f, acts) == Some(c)
    requires InTurn(c, p) && InTurn(c, r)
    ensures p == r
  {
    RunIsReached(f, acts, c);
    if p == -1 || r == -1 {
      LoaderInTurnMeansTurn(f, c);
    } else {
      InTurnMeansTurn(f, c, p);
      InTurnMeansTurn(f, c, r);
    }
  }

  /** Whenever nobody is in its turn, the kernel data is that of the sequential program. */
  lemma DataIsSequential(f: Config, acts: seq<Action>, c: Conc)
    requires ConfigOk(f) && RunOf(f, acts) == Some(c)
    requires forall p :: -1 <= p < f.cpus ==> !InTurn(c, p)
    ensures c.kern == Iterate(f, c.steps).kern
  {
    RunIsReached(f, acts, c);
    assert !InTurn(c, -1);
    if c.serial.turn >= 0 {
      assert !InTurn(c, c.serial.turn);
    }
  }

  lemma {:induction false} ForwardSplits(f: Config, q: State, j: nat, k: nat)
    requires ConfigOk(f) && Sane(f, q) && j <= k
    ensures Continues(Forward(f, q, j), Forward(f, q, k))
    decreases j
  {
    if j == 0 {
      ForwardContinues(f, q, k);
    } else {
      ForwardSplits(f, Step(f, q), j - 1, k - 1);
    }
  }

  /** Determinism: of any two runs, the one that has ended fewer turns and slots has
      recorded a prefix of what the other has: the same rounds with the same members,
      the same instructions on the same CPUs in the same slots, the same dispatches. */
  lemma RunsAgree(f: Config, acts1: seq<Action>, acts2: seq<Action>, c1: Conc, c2: Conc)
    requires ConfigOk(f) && RunOf(f, acts1) == Some(c1) && RunOf(f, acts2) == Some(c2)
    requires c1.steps <= c2.steps
    ensures Continues(c1.serial, c2.serial)
    ensures c1.steps == c2.steps ==> c1.serial == c2.serial
  {
    RunIsReached(f, acts1, c1);
    RunIsReached(f, acts2, c2);
    ForwardSplits(f, Init(f), c1.steps, c2.steps);
  }

  /** The turns the threads really took, with the times they read, are those of the
      sequential program: each slot's round in full and in order, and the beginning of
      the current one. */
  lemma LogIsRounds(f: Config, acts: seq<Action>, c: Conc)
    requires ConfigOk(f) && RunOf(f, acts) == Some(c)
    ensures var q := Iterate(f, c.steps);
            && LogOf(q) <= c.log <= LogOf(q) + [Turn(q.turn, q.slot)]
            && |q.hist| == q.slot && |q.starts| == q.slot + 1
            && (forall t :: 0 <= t < q.slot ==> q.hist[t] == Round(q.starts[t]))
            && q.cur <= Round(q.starts[q.slot])
  {
    RunIsReached(f, acts, c);
    RoundsAreComplete(f, c.steps);
  }

  lemma RoundsAreComplete(f: Config, n: nat)
    requires ConfigOk(f)
    ensures var q := Iterate(f, n);
            && |q.hist| == q.slot && |q.starts| == q.slot + 1
            && (forall t :: 0 <= t < q.slot ==> q.hist[t] == Round(q.starts[t]))
            && q.cur <= Round(q.starts[q.slot])
  {
    AlwaysGood(f, n);
    var q := Iterate(f, n);
    var s := q.starts[q.slot];
    if q.turn != -2 {
      assert q.cur <= Turns(s.active, f.cpus - 1);
    }
  }
}
