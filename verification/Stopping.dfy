/** When the simulator stops: a CPU leaves exactly when it holds a process at the moment
    the loader takes its last turn. */
module Stopping {
  import opened Wrappers
  import opened Kernel
  import opened Conservation
  import opened Serial
  import opened Protocol
  import opened ProtocolRuns
  import opened ProtocolProgress
  import opened Work

  /** The turn in which the loader finds nothing more to load and sets `done`. */
  ghost predicate LastLoaderTurn(f: Config, q: State)
  {
    q.turn == -1 && q.loader && q.kern.next == |f.prio|
  }

  // ---------- The loader's last turn comes ----------

  function SlotsToLast(f: Config, q: State): (s: nat)
    requires q.kern.next <= |f.prio| == |f.start|
  {
    if q.kern.next < |f.prio| then SlotsToGo(f, q) else if q.turn == -2 then 1 else 0
  }

  lemma LoaderAdvances(f: Config, q: State)
    requires ConfigOk(f) && Wound(f, q) && q.loader && !LastLoaderTurn(f, q)
    ensures var r := Step(f, q);
            && r.loader && q.kern.next <= r.kern.next <= |f.prio|
            && (r.kern.next > q.kern.next || SlotsToLast(f, r) < SlotsToLast(f, q)
                || (SlotsToLast(f, r) == SlotsToLast(f, q) && -2 <= r.turn < q.turn))
  {
    StepMoves(f, q);
    if q.kern.next < |f.prio| {
      LoaderWaits(f, q);
    } else if !SlotOver(q) {
      OthersUntouched(f, q.kern, q.turn, q.slot);
    }
  }

  lemma LastTurnFrom(f: Config, q: State) returns (n: nat, t: State)
    requires ConfigOk(f) && Wound(f, q) && q.loader
    ensures t == Forward(f, q, n) && LastLoaderTurn(f, t)
    decreases |f.prio| - q.kern.next, SlotsToLast(f, q), q.turn + 2
  {
    n, t := 0, q;
    if !LastLoaderTurn(f, q) {
      StepKeepsWound(f, q);
      LoaderAdvances(f, q);
      n, t := LastTurnFrom(f, Step(f, q));
      n := n + 1;
    }
  }

  /** The loader stops, whatever the start times. */
  lemma LoaderStops(f: Config) returns (m: nat)
    requires ConfigOk(f)
    ensures LastLoaderTurn(f, Iterate(f, m))
  {
    InitWound(f);
    var t;
    m, t := LastTurnFrom(f, Init(f));
  }

  // ---------- An idle CPU finds every level empty ----------

  /** An active CPU that has had its turn in this slot and got no process left all levels
      empty, and they stay so until the loader's turn. */
  ghost predicate IdleMeansEmpty(f: Config, q: State)
    requires Sane(f, q)
  {
    q.turn >= -1 ==>
      forall id :: q.turn < id < f.cpus && q.active[id] && q.kern.cpus[id].proc.None? ==> AllEmpty(q.kern.ready)
  }

  lemma NothingFetched(f: Config, k: Kern, id: nat, slot: nat)
    requires ConfigOk(f) && Shaped(f, k) && id < f.cpus
    requires CpuSection(f, k, id, slot).0.cpus[id].proc.None?
    ensures AllEmpty(CpuSection(f, k, id, slot).0.ready)
  {
  }

  lemma StepKeepsIdle(f: Config, q: State)
    requires ConfigOk(f) && Wound(f, q) && IdleMeansEmpty(f, q)
    ensures IdleMeansEmpty(f, Step(f, q))
  {
    var r := Step(f, q);
    StepMoves(f, q);
    if !SlotOver(q) && q.turn >= 0 {
      OthersUntouched(f, q.kern, q.turn, q.slot);
      if AllEmpty(q.kern.ready) {
        EmptyAfterTurn(f, q.kern, q.turn, q.slot);
      }
      if r.kern.cpus[q.turn].proc.None? {
        NothingFetched(f, q.kern, q.turn, q.slot);
      }
    }
  }

  lemma OneStepOn(f: Config, n: nat, q: State, r: State)
    requires ConfigOk(f) && q == Iterate(f, n) && r == Iterate(f, n + 1)
    ensures r == Step(f, q)
  {
    ForwardOneMore(f, Init(f), n);
  }

  /** What holds from `m` to `n`, step by step. */
  lemma {:induction false} StepByStep(P: nat -> bool, m: nat, n: nat)
    requires m <= n && P(m)
    requires forall k, l :: m <= k && l == k + 1 && P(k) ==> P(l)
    ensures P(n)
    decreases n - m
  {
    if m < n {
      StepByStep(P, m, n - 1);
    }
  }

  /** What every state of the program satisfies beside `Good`. */
  lemma AlwaysWound(f: Config, n: nat)
    requires ConfigOk(f)
    ensures Wound(f, Iterate(f, n)) && IdleMeansEmpty(f, Iterate(f, n))
  {
    var P := (k: nat) => Wound(f, Iterate(f, k)) && IdleMeansEmpty(f, Iterate(f, k));
    InitWound(f);
    forall k: nat, l: nat | l == k + 1 && P(k)
      ensures P(l)
    {
      var q := Iterate(f, k);
      OneStepOn(f, k, q, Iterate(f, l));
      StepKeepsWound(f, q);
      StepKeepsIdle(f, q);
    }
    StepByStep(P, 0, n);
  }

  // ---------- A CPU that is idle then sleeps for ever ----------

  ghost predicate Asleep(f: Config, q: State, x: nat)
    requires ConfigOk(f) && x < f.cpus
  {
    Wound(f, q) && q.kern.done && AllEmpty(q.kern.ready) && q.active[x] && q.kern.cpus[x].proc.None?
  }

  lemma StepKeepsAsleep(f: Config, q: State, x: nat)
    requires ConfigOk(f) && x < f.cpus && Asleep(f, q, x)
    ensures Asleep(f, Step(f, q), x)
  {
    StepKeepsWound(f, q);
    if !SlotOver(q) {
      EmptyAfterTurn(f, q.kern, q.turn, q.slot);
      OthersUntouched(f, q.kern, q.turn, q.slot);
    }
  }

  lemma AsleepForever(f: Config, m: nat, n: nat, x: nat)
    requires ConfigOk(f) && x < f.cpus && m <= n && Asleep(f, Iterate(f, m), x)
    ensures Asleep(f, Iterate(f, n), x)
  {
    var P := (k: nat) => Asleep(f, Iterate(f, k), x);
    forall k: nat, l: nat | l == k + 1 && P(k)
      ensures P(l)
    {
      var q := Iterate(f, k);
      OneStepOn(f, k, q, Iterate(f, l));
      StepKeepsAsleep(f, q, x);
    }
    StepByStep(P, m, n);
  }

  // ---------- A CPU that has a process then leaves ----------

  /** Once the loader has stopped, a CPU with a process keeps having one until it leaves. */
  ghost predicate Busy(f: Config, q: State, x: nat)
    requires ConfigOk(f) && x < f.cpus
  {
    Wound(f, q) && q.kern.done && (q.active[x] ==> q.kern.cpus[x].proc.Some?)
  }

  lemma BusyTurn(f: Config, k: Kern, id: nat, slot: nat)
    requires ConfigOk(f) && Shaped(f, k) && id < f.cpus && k.done && k.cpus[id].proc.Some?
    ensures CpuSection(f, k, id, slot).1 || CpuSection(f, k, id, slot).0.cpus[id].proc.Some?
  {
  }

  lemma StepKeepsBusy(f: Config, q: State, x: nat)
    requires ConfigOk(f) && x < f.cpus && Busy(f, q, x)
    ensures Busy(f, Step(f, q), x)
  {
    StepKeepsWound(f, q);
    if !SlotOver(q) {
      OthersUntouched(f, q.kern, q.turn, q.slot);
      if q.turn == x {
        BusyTurn(f, q.kern, x, q.slot);
      }
    }
  }

  lemma BusyUntilGone(f: Config, m: nat, n: nat, x: nat)
    requires ConfigOk(f) && x < f.cpus && m <= n && Busy(f, Iterate(f, m), x)
    ensures Busy(f, Iterate(f, n), x)
  {
    var P := (k: nat) => Busy(f, Iterate(f, k), x);
    forall k: nat, l: nat | l == k + 1 && P(k)
      ensures P(l)
    {
      var q := Iterate(f, k);
      OneStepOn(f, k, q, Iterate(f, l));
      StepKeepsBusy(f, q, x);
    }
    StepByStep(P, m, n);
  }

  /** CPUs only leave, and processes only finish or get dropped. */
  lemma StepOnlyEnds(f: Config, q: State)
    requires ConfigOk(f) && Sane(f, q)
    ensures var r := Step(f, q);
            && (forall id :: 0 <= id < f.cpus && r.active[id] ==> q.active[id])
            && q.kern.finished <= r.kern.finished && q.kern.lost <= r.kern.lost
  {
    StepMoves(f, q);
    if !SlotOver(q) && q.turn >= 0 {
      TurnOnlyEnds(f, q.kern, q.turn, q.slot);
    }
  }

  lemma TurnOnlyEnds(f: Config, k: Kern, id: nat, slot: nat)
    requires ConfigOk(f) && Shaped(f, k) && id < f.cpus
    ensures k.finished <= CpuSection(f, k, id, slot).0.finished
    ensures k.lost <= CpuSection(f, k, id, slot).0.lost
  {
    var r := Release(f, k, id, slot);
    var d := Fetch(f, r, id);
    assert k.finished <= r.finished && k.lost <= r.lost;
    assert d.finished == r.finished && d.lost == r.lost;
  }

  lemma {:induction false} OnlyEnds(f: Config, m: nat, n: nat)
    requires ConfigOk(f) && m <= n
    ensures forall id :: 0 <= id < f.cpus && Iterate(f, n).active[id] ==> Iterate(f, m).active[id]
    ensures AllOver(f, Iterate(f, m).kern) ==> AllOver(f, Iterate(f, n).kern)
    decreases n - m
  {
    if m < n {
      OnlyEnds(f, m, n - 1);
      var q, r := Iterate(f, n - 1), Iterate(f, n);
      OneStepOn(f, n - 1, q, r);
      StepOnlyEnds(f, q);
    }
  }

  /** When everything is over no CPU has a process. */
  lemma NobodyHolds(f: Config, k: Kern, x: nat)
    requires ConfigOk(f) && Placed(f, k) && AllOver(f, k) && x < f.cpus
    ensures k.cpus[x].proc.None?
  {
    assert k.cpus[x].proc.None? || Pending(k, k.cpus[x].proc.value);
  }

  // ---------- Who stops ----------

  lemma AfterLastTurn(f: Config, m: nat)
    requires ConfigOk(f) && LastLoaderTurn(f, Iterate(f, m))
    ensures Wound(f, Iterate(f, m + 1)) && Iterate(f, m + 1).kern.done
    ensures forall x :: 0 <= x < f.cpus ==> Iterate(f, m).active[x] && Iterate(f, m + 1).active[x]
    ensures Iterate(f, m + 1).kern.cpus == Iterate(f, m).kern.cpus
    ensures Iterate(f, m + 1).kern.ready == Iterate(f, m).kern.ready
  {
    AlwaysWound(f, m);
    AlwaysWound(f, m + 1);
    ForwardOneMore(f, Init(f), m);
  }

  lemma IdleStays(f: Config, m: nat, x: nat, n: nat)
    requires ConfigOk(f) && LastLoaderTurn(f, Iterate(f, m)) && x < f.cpus
    requires Iterate(f, m).kern.cpus[x].proc.None?
    ensures Iterate(f, n).active[x]
  {
    AfterLastTurn(f, m);
    AlwaysWound(f, m);
    assert AllEmpty(Iterate(f, m).kern.ready);
    if n <= m {
      OnlyEnds(f, n, m);
    } else {
      AsleepForever(f, m + 1, n, x);
    }
  }

  lemma HolderLeaves(f: Config, m: nat, x: nat, n: nat)
    requires ConfigOk(f) && LastLoaderTurn(f, Iterate(f, m)) && x < f.cpus
    requires Iterate(f, m).kern.cpus[x].proc.Some?
    requires AllOver(f, Iterate(f, n).kern)
    ensures !Iterate(f, n).active[x]
  {
    AlwaysWound(f, n);
    NobodyHolds(f, Iterate(f, n).kern, x);
    if n <= m {
      OnlyEnds(f, n, m);
      AlwaysWound(f, m);
      NobodyHolds(f, Iterate(f, m).kern, x);
    } else {
      AfterLastTurn(f, m);
      BusyUntilGone(f, m + 1, n, x);
    }
  }

  /** A CPU stops exactly when it has a process at the loader's last turn. */
  lemma StopsIffHolding(f: Config, m: nat, x: nat)
    requires ConfigOk(f) && LastLoaderTurn(f, Iterate(f, m)) && x < f.cpus
    ensures (exists n :: !Iterate(f, n).active[x]) <==> Iterate(f, m).kern.cpus[x].proc.Some?
  {
    if Iterate(f, m).kern.cpus[x].proc.Some? {
      var n := WorkGetsDone(f);
      HolderLeaves(f, m, x, n);
    } else {
      forall n: nat
        ensures Iterate(f, n).active[x]
      {
        IdleStays(f, m, x, n);
      }
    }
  }

  /** All CPUs stop exactly when all have a process at the loader's last turn. */
  lemma AllStopIffAllHold(f: Config, m: nat)
    requires ConfigOk(f) && LastLoaderTurn(f, Iterate(f, m))
    ensures (exists n :: NoneActive(f, Iterate(f, n))) <==>
            forall x :: 0 <= x < f.cpus ==> Iterate(f, m).kern.cpus[x].proc.Some?
  {
    if forall x :: 0 <= x < f.cpus ==> Iterate(f, m).kern.cpus[x].proc.Some? {
      var n := 0;
      if f.cpus >= 1 {
        n := WorkGetsDone(f);
      }
      forall x | 0 <= x < f.cpus
        ensures !Iterate(f, n).active[x]
      {
        HolderLeaves(f, m, x, n);
      }
      assert NoneActive(f, Iterate(f, n));
    } else {
      var x :| 0 <= x < f.cpus && Iterate(f, m).kern.cpus[x].proc.None?;
      forall n: nat
        ensures !NoneActive(f, Iterate(f, n))
      {
        IdleStays(f, m, x, n);
      }
    }
  }

  ghost predicate NoneActive(f: Config, q: State)
    requires Sane(f, q)
  {
    forall x :: 0 <= x < f.cpus ==> !q.active[x]
  }

  // ---------- Fewer processes than CPUs ----------

  lemma {:induction false} HeldAreDistinct(f: Config, k: Kern, n: nat)
    requires ConfigOk(f) && Placed(f, k) && n <= f.cpus
    requires forall x :: 0 <= x < n ==> k.cpus[x].proc.Some?
    ensures n <= |f.prio|
  {
    var q := seq(n, x requires 0 <= x < n => k.cpus[x].proc.value);
    forall i, j | 0 <= i < j < n
      ensures q[i] != q[j]
    {
      assert HeldBy(k, i, q[i]) && HeldBy(k, j, q[j]);
    }
    DistinctFit(q, UpTo(|f.prio|));
  }

  function UpTo(n: nat): (s: set<nat>)
    ensures |s| == n && forall p: nat :: p in s <==> p < n
  {
    if n == 0 then {} else UpTo(n - 1) + {n - 1}
  }

  /** With fewer processes than CPUs some CPU never stops. */
  lemma FewProcessesNeverStop(f: Config) returns (x: nat)
    requires ConfigOk(f) && |f.prio| < f.cpus
    ensures x < f.cpus && forall n :: Iterate(f, n).active[x]
  {
    var m := LoaderStops(f);
    AlwaysWound(f, m);
    var k := Iterate(f, m).kern;
    if forall y :: 0 <= y < f.cpus ==> k.cpus[y].proc.Some? {
      HeldAreDistinct(f, k, f.cpus);
    }
    x :| 0 <= x < f.cpus && k.cpus[x].proc.None?;
    forall n: nat
      ensures Iterate(f, n).active[x]
    {
      IdleStays(f, m, x, n);
    }
  }

  // ---------- Interleavings ----------

  /** No interleaving ends the simulation unless every CPU has a process at the loader's
      last turn. */
  lemma FinishedMeansAllHeld(f: Config, acts: seq<Action>, c: Conc, m: nat)
    requires ConfigOk(f) && RunOf(f, acts) == Some(c) && Finished(c) && LastLoaderTurn(f, Iterate(f, m))
    ensures forall x :: 0 <= x < f.cpus ==> Iterate(f, m).kern.cpus[x].proc.Some?
  {
    RunIsReached(f, acts, c);
    forall x | 0 <= x < f.cpus
      ensures Iterate(f, m).kern.cpus[x].proc.Some?
    {
      assert CpuInv(f, c, x) && c.cpu[x] == Gone;
      assert !Iterate(f, c.steps).active[x];
      StopsIffHolding(f, m, x);
    }
  }

  /** If every CPU has one, then after enough turns of any interleaving every CPU thread
      has left its loop. */
  lemma AllHeldMeansAllLeave(f: Config, m: nat) returns (enough: nat)
    requires ConfigOk(f) && LastLoaderTurn(f, Iterate(f, m)) && f.cpus >= 1
    requires forall x :: 0 <= x < f.cpus ==> Iterate(f, m).kern.cpus[x].proc.Some?
    ensures forall acts: seq<Action>, x: nat ::
              RunOf(f, acts).Some? && RunOf(f, acts).value.steps >= enough && x < f.cpus ==>
              RunOf(f, acts).value.cpu[x] == AtDetach || RunOf(f, acts).value.cpu[x] == Gone
  {
    enough := WorkGetsDone(f);
    forall acts: seq<Action>, x: nat | RunOf(f, acts).Some? && RunOf(f, acts).value.steps >= enough && x < f.cpus
      ensures RunOf(f, acts).value.cpu[x] == AtDetach || RunOf(f, acts).value.cpu[x] == Gone
    {
      ThreadLeaves(f, acts, RunOf(f, acts).value, m, enough, x);
    }
  }

  lemma ThreadLeaves(f: Config, acts: seq<Action>, c: Conc, m: nat, enough: nat, x: nat)
    requires ConfigOk(f) && RunOf(f, acts) == Some(c) && LastLoaderTurn(f, Iterate(f, m)) && x < f.cpus
    requires Iterate(f, m).kern.cpus[x].proc.Some? && AllOver(f, Iterate(f, enough).kern) && c.steps >= enough
    ensures c.cpu[x] == AtDetach || c.cpu[x] == Gone
  {
    RunIsReached(f, acts, c);
    OnlyEnds(f, enough, c.steps);
    HolderLeaves(f, m, x, c.steps);
    assert CpuInv(f, c, x);
  }
}
