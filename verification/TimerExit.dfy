/** When timer_routine ends: by itself after a slot in which it saw every device finished, or
    because it is told to; and soon after all threads have detached. */
module TimerExit {
  import opened Wrappers
  import opened Kernel
  import opened Protocol
  import opened ProtocolRuns

  // ---------- What the scan of a slot saw ----------

  /** The `fsh` flags read so far by the scan in progress, after the timer's next step. */
  function SeenNext(f: Config, c: Conc, seen: seq<bool>): (s: seq<bool>)
    requires Shape(f, c)
  {
    if c.timer.TLoop? then []
    else if c.timer.TScan? && c.timer.j <= f.cpus then seen + [c.fsh[DevAt(f, c.timer.j)]]
    else seen
  }

  /** The same after the actions `acts`. */
  ghost function Seen(f: Config, c: Conc, seen: seq<bool>, acts: seq<Action>): (s: seq<bool>)
    requires ConfigOk(f) && Shape(f, c) && After(f, c, acts).Some?
    decreases |acts|
  {
    if acts == [] then seen
    else
      var r := Act(f, c, acts[0]).value;
      ActKeepsShape(f, c, acts[0], r);
      Seen(f, r, if acts[0] == TimerMoves then SeenNext(f, c, seen) else seen, acts[1..])
  }

  function Trues(s: seq<bool>): (n: nat)
    ensures n <= |s|
  {
    if s == [] then 0 else Trues(s[..|s| - 1]) + if s[|s| - 1] then 1 else 0
  }

  lemma {:induction false} AllTrue(s: seq<bool>)
    ensures Trues(s) == |s| <==> forall i :: 0 <= i < |s| ==> s[i]
  {
    if s != [] {
      AllTrue(s[..|s| - 1]);
    }
  }

  /** The count is of the flags seen, one for each place passed. */
  ghost predicate CountInv(f: Config, c: Conc, seen: seq<bool>) {
    match c.timer
    case TScan(j, fsh) => |seen| == j && fsh == Trues(seen)
    case TTick(fsh) => |seen| == f.cpus + 1 && fsh == Trues(seen)
    case TReset(fsh) => |seen| == f.cpus + 1 && fsh == Trues(seen)
    case TRelease(_, fsh) => |seen| == f.cpus + 1 && fsh == Trues(seen)
    case _ => true
  }

  lemma ActCounts(f: Config, c: Conc, a: Action, r: Conc, seen: seq<bool>)
    requires ConfigOk(f) && Shape(f, c) && Act(f, c, a) == Some(r) && CountInv(f, c, seen)
    ensures CountInv(f, r, if a == TimerMoves then SeenNext(f, c, seen) else seen)
  {
    if a == TimerMoves {
      if c.timer.TScan? && c.timer.j <= f.cpus {
        var b := c.fsh[DevAt(f, c.timer.j)];
        assert (seen + [b])[..|seen|] == seen;
      }
    } else {
      assert r.timer == c.timer;
    }
  }

  lemma {:induction false} CountFrom(f: Config, c: Conc, seen: seq<bool>, acts: seq<Action>, r: Conc)
    requires ConfigOk(f) && Shape(f, c) && CountInv(f, c, seen) && After(f, c, acts) == Some(r)
    ensures CountInv(f, r, Seen(f, c, seen, acts))
    decreases |acts|
  {
    if acts != [] {
      var d := Act(f, c, acts[0]).value;
      ActKeepsShape(f, c, acts[0], d);
      ActCounts(f, c, acts[0], d, seen);
      CountFrom(f, d, if acts[0] == TimerMoves then SeenNext(f, c, seen) else seen, acts[1..], r);
    }
  }

  /** At the end of a slot the timer leaves exactly when every device was finished at its
      place in the scan, else it begins another slot. */
  lemma LeavesIffAllSeenFinished(f: Config, acts: seq<Action>, c: Conc, r: Conc)
    requires ConfigOk(f) && RunOf(f, acts) == Some(c) && TimerAct(f, c) == Some(r)
    requires c.timer.TRelease? && c.timer.j == f.cpus + 1
    ensures var s := Seen(f, Boot(f), [], acts);
            && |s| == f.cpus + 1
            && r.timer == if forall j :: 0 <= j <= f.cpus ==> s[j] then TExit else TLoop
  {
    CountFrom(f, Boot(f), [], acts, c);
    AllTrue(Seen(f, Boot(f), [], acts));
  }

  // ---------- After everyone has detached ----------

  ghost predicate AllFinished(c: Conc) {
    forall d :: 0 <= d < |c.fsh| ==> c.fsh[d]
  }

  /** Slots still to be counted once every device is finished. */
  function SlotsLeft(f: Config, c: Conc): (n: nat)
    ensures n <= 2
  {
    match c.timer
    case TLoop => if c.stop then 0 else 1
    case TScan(j, fsh) => if fsh == j then 1 else 2
    case TTick(fsh) => if fsh == f.cpus + 1 then 1 else 2
    case TReset(fsh) => if fsh == f.cpus + 1 then 0 else 1
    case TRelease(_, fsh) => if fsh == f.cpus + 1 then 0 else 1
    case TExit => 0
  }

  lemma TimerEnds(f: Config, c: Conc, r: Conc)
    requires ConfigOk(f) && Shape(f, c) && AllFinished(c) && TimerAct(f, c) == Some(r)
    ensures AllFinished(r) && r.time + SlotsLeft(f, r) <= c.time + SlotsLeft(f, c)
  {
    assert r.fsh == c.fsh;
  }

  /** The other threads leave the timer alone and only ever finish. */
  ghost predicate OnlyFinishes(c: Conc, r: Conc) {
    && r.timer == c.timer && r.time == c.time && (c.stop ==> r.stop)
    && |r.fsh| == |c.fsh| && forall d :: 0 <= d < |c.fsh| && c.fsh[d] ==> r.fsh[d]
  }

  lemma SignalOnlyFinishes(f: Config, c: Conc, id: nat, r: Conc)
    requires ConfigOk(f) && Shape(f, c) && id < f.cpus && CpuAct(f, c, id) == Some(r)
    requires c.cpu[id].AtSignal? || c.cpu[id].AtLastSignal?
    ensures OnlyFinishes(c, r)
  {
  }

  lemma WorkOnlyFinishes(f: Config, c: Conc, id: nat, r: Conc)
    requires ConfigOk(f) && Shape(f, c) && id < f.cpus && CpuAct(f, c, id) == Some(r)
    requires c.cpu[id].AtRelease? || c.cpu[id].AtFetch? || c.cpu[id].AtDecide?
    ensures OnlyFinishes(c, r)
  {
  }

  lemma CpuOnlyFinishes(f: Config, c: Conc, id: nat, r: Conc)
    requires ConfigOk(f) && Shape(f, c) && id < f.cpus && CpuAct(f, c, id) == Some(r)
    ensures OnlyFinishes(c, r)
  {
    if c.cpu[id].AtSignal? || c.cpu[id].AtLastSignal? {
      SignalOnlyFinishes(f, c, id, r);
    } else if c.cpu[id].AtRelease? || c.cpu[id].AtFetch? || c.cpu[id].AtDecide? {
      WorkOnlyFinishes(f, c, id, r);
    }
  }

  lemma LoaderOnlyFinishes(f: Config, c: Conc, r: Conc)
    requires ConfigOk(f) && Shape(f, c) && LoaderAct(f, c) == Some(r)
    ensures OnlyFinishes(c, r)
  {
  }

  lemma ActEnds(f: Config, c: Conc, a: Action, r: Conc)
    requires ConfigOk(f) && Shape(f, c) && AllFinished(c) && Act(f, c, a) == Some(r)
    ensures AllFinished(r) && r.time + SlotsLeft(f, r) <= c.time + SlotsLeft(f, c)
  {
    match a
    case CpuMoves(id) => CpuOnlyFinishes(f, c, id, r);
    case LoaderMoves => LoaderOnlyFinishes(f, c, r);
    case TimerMoves => TimerEnds(f, c, r);
    case MainMoves =>
  }

  /** Once every device is finished, at most two more slots are counted. */
  lemma {:induction false} TwoMoreSlots(f: Config, c: Conc, more: seq<Action>, r: Conc)
    requires ConfigOk(f) && Shape(f, c) && AllFinished(c) && After(f, c, more) == Some(r)
    ensures AllFinished(r) && r.time + SlotsLeft(f, r) <= c.time + SlotsLeft(f, c)
    decreases |more|
  {
    if more != [] {
      var d := Act(f, c, more[0]).value;
      ActKeepsShape(f, c, more[0], d);
      ActEnds(f, c, more[0], d);
      TwoMoreSlots(f, d, more[1..], r);
    }
  }

  lemma TimeStandsStill(f: Config, acts: seq<Action>, c: Conc, more: seq<Action>, r: Conc)
    requires ConfigOk(f) && RunOf(f, acts) == Some(c) && After(f, c, more) == Some(r)
    requires forall d :: 0 <= d <= f.cpus ==> c.fsh[d]
    ensures r.time <= c.time + 2
  {
    TwoMoreSlots(f, c, more, r);
  }
}
