/** Every step of the protocol keeps its invariant. */
module ProtocolProofs {
  import opened Wrappers
  import opened Kernel
  import opened Serial
  import opened Protocol

  // ---------- What a step of one thread leaves alone ----------

  /** Flags are only ever raised and the slot stays the same. */
  ghost predicate Raises(f: Config, c: Conc, r: Conc)
    requires Shape(f, c) && Shape(f, r)
  {
    && r.timer == c.timer && r.time == c.time && r.stop == c.stop
    && r.serial.slot == c.serial.slot
    && (forall d :: 0 <= d <= f.cpus ==> (c.done[d] ==> r.done[d]) && (c.fsh[d] ==> r.fsh[d]))
  }

  lemma TimerFrame(f: Config, c: Conc, r: Conc)
    requires Shape(f, c) && Shape(f, r) && TimerInv(f, c) && Raises(f, c, r)
    ensures TimerInv(f, r)
  {
  }

  /** Nothing that device `d` and its thread depend on changes. */
  ghost predicate Quiet(f: Config, c: Conc, r: Conc, d: nat)
    requires Shape(f, c) && Shape(f, r) && d <= f.cpus
  {
    r.timer == c.timer && r.serial == c.serial && r.done[d] == c.done[d] && r.fsh[d] == c.fsh[d]
  }

  lemma CpuFrame(f: Config, c: Conc, r: Conc, jd: nat)
    requires Shape(f, c) && Shape(f, r) && jd < f.cpus && CpuInv(f, c, jd)
    requires Quiet(f, c, r, jd + 1) && r.cpu[jd] == c.cpu[jd]
    ensures CpuInv(f, r, jd)
  {
  }

  lemma LoaderFrame(f: Config, c: Conc, r: Conc)
    requires Shape(f, c) && Shape(f, r) && LoaderInv(f, c)
    requires Quiet(f, c, r, 0) && r.ld == c.ld && r.turn == c.turn
    ensures LoaderInv(f, r)
  {
  }

  /** A CPU step inside the turn or at its edges: it commits nothing and touches no
      other thread. */
  ghost predicate CpuLocal(f: Config, c: Conc, r: Conc, id: nat)
    requires Shape(f, c) && Shape(f, r) && id < f.cpus
  {
    && Raises(f, c, r) && r.serial == c.serial && r.steps == c.steps && r.turn == c.turn && r.ld == c.ld
    && (forall d :: 0 <= d <= f.cpus && d != id + 1 ==> r.done[d] == c.done[d] && r.fsh[d] == c.fsh[d])
    && (forall jd :: 0 <= jd < f.cpus && jd != id ==> r.cpu[jd] == c.cpu[jd])
  }

  lemma CpuLocalKeeps(f: Config, c: Conc, r: Conc, id: nat)
    requires ConfigOk(f) && Inv(f, c) && Shape(f, r) && id < f.cpus && CpuLocal(f, c, r, id)
    requires CpuInv(f, r, id) && DataInv(f, r)
    ensures Inv(f, r)
  {
    TimerFrame(f, c, r);
    LoaderFrame(f, c, r);
    forall jd | 0 <= jd < f.cpus
      ensures CpuInv(f, r, jd)
    {
      if jd != id {
        CpuFrame(f, c, r, jd);
      }
    }
  }

  /** Only the CPU whose turn it is holds intermediate data. */
  lemma InTurnMeansTurn(f: Config, c: Conc, id: nat)
    requires ConfigOk(f) && Inv(f, c) && id < f.cpus && CpuInTurn(c.cpu[id])
    ensures c.serial.turn == id && c.turn == id && c.serial.active[id] && CpuData(f, c, id)
    ensures c.time == c.serial.slot
  {
    assert CpuInv(f, c, id);
    assert PosOf(f, id + 1) < f.cpus + 1;
  }

  lemma EnterKeeps(f: Config, c: Conc, id: nat)
    requires ConfigOk(f) && Inv(f, c) && id < f.cpus && c.cpu[id].WaitTurn? && CpuAct(f, c, id).Some?
    ensures Inv(f, CpuAct(f, c, id).value)
  {
    var r := CpuAct(f, c, id).value;
    assert CpuInv(f, c, id);
    assert c.serial.active[id] && id <= c.serial.turn;
    CpuLocalKeeps(f, c, r, id);
  }

  lemma WorkKeeps(f: Config, c: Conc, id: nat, r: Conc)
    requires ConfigOk(f) && Inv(f, c) && id < f.cpus && CpuAct(f, c, id) == Some(r)
    requires c.cpu[id].AtRelease? || c.cpu[id].AtFetch?
    ensures Inv(f, r)
  {
    InTurnMeansTurn(f, c, id);
    assert CpuInv(f, c, id);
    CpuLocalKeeps(f, c, r, id);
  }

  lemma DecideKeeps(f: Config, c: Conc, id: nat, r: Conc)
    requires ConfigOk(f) && Inv(f, c) && id < f.cpus && CpuAct(f, c, id) == Some(r)
    requires c.cpu[id].AtDecide?
    ensures Inv(f, r)
  {
    InTurnMeansTurn(f, c, id);
    assert CpuInv(f, c, id);
    CpuLocalKeeps(f, c, r, id);
  }

  lemma MarkKeeps(f: Config, c: Conc, id: nat)
    requires ConfigOk(f) && Inv(f, c) && id < f.cpus && c.cpu[id].AtMark?
    ensures Inv(f, CpuAct(f, c, id).value)
  {
    var r := CpuAct(f, c, id).value;
    InTurnMeansTurn(f, c, id);
    assert CpuInv(f, c, id);
    CpuLocalKeeps(f, c, r, id);
  }

  lemma SetDoneKeeps(f: Config, c: Conc, id: nat)
    requires ConfigOk(f) && Inv(f, c) && id < f.cpus && c.cpu[id].AtSetDone?
    ensures Inv(f, CpuAct(f, c, id).value)
  {
    var r := CpuAct(f, c, id).value;
    assert CpuInv(f, c, id);
    CpuLocalKeeps(f, c, r, id);
  }

  lemma WakeKeeps(f: Config, c: Conc, id: nat)
    requires ConfigOk(f) && Inv(f, c) && id < f.cpus && c.cpu[id].Blocked? && CpuAct(f, c, id).Some?
    ensures Inv(f, CpuAct(f, c, id).value)
  {
    var r := CpuAct(f, c, id).value;
    assert CpuInv(f, c, id);
    CpuLocalKeeps(f, c, r, id);
  }

  lemma DetachKeeps(f: Config, c: Conc, id: nat)
    requires ConfigOk(f) && Inv(f, c) && id < f.cpus && c.cpu[id].AtDetach?
    ensures Inv(f, CpuAct(f, c, id).value)
  {
    var r := CpuAct(f, c, id).value;
    assert CpuInv(f, c, id);
    assert c.serial.turn != id;
    CpuLocalKeeps(f, c, r, id);
  }

  // ---------- The end of a CPU turn ----------

  /** The step of the sequential program that stands for a whole CPU turn. */
  ghost predicate CpuTurnTaken(f: Config, q: State, s: State)
    requires ConfigOk(f) && Sane(f, q) && q.turn >= 0
  {
    var (k, exits) := CpuSection(f, q.kern, q.turn, q.slot);
    && Sane(f, s) && s.kern == k && s.slot == q.slot && s.loader == q.loader
    && s.active == (if exits then q.active[q.turn := false] else q.active)
    && s.turn == NextActive(s.active, q.turn - 1)
  }

  lemma SignalKeeps(f: Config, c: Conc, r: Conc, id: nat)
    requires ConfigOk(f) && Inv(f, c) && id < f.cpus && (c.cpu[id].AtSignal? || c.cpu[id].AtLastSignal?)
    requires c.serial.turn >= 0 && CpuTurnTaken(f, c.serial, r.serial)
    requires r == c.(serial := r.serial, steps := r.steps, turn := SignalNext(c.active, id),
                     cpu := c.cpu[id := if c.cpu[id].AtSignal? then AtSetDone else AtDetach])
    ensures Inv(f, r)
  {
    InTurnMeansTurn(f, c, id);
    assert CpuInv(f, c, id);
    assert r.turn == r.serial.turn;
    TimerFrame(f, c, r);
    SignalKeepsCpus(f, c, r, id);
    if r.serial.turn >= 0 {
      assert CpuInv(f, c, r.serial.turn);
    }
  }

  lemma SignalKeepsCpus(f: Config, c: Conc, r: Conc, id: nat)
    requires ConfigOk(f) && Inv(f, c) && id < f.cpus && (c.cpu[id].AtSignal? || c.cpu[id].AtLastSignal?)
    requires c.serial.turn == id && CpuTurnTaken(f, c.serial, r.serial) && r.turn == r.serial.turn
    requires r == c.(serial := r.serial, steps := r.steps, turn := r.turn,
                     cpu := c.cpu[id := if c.cpu[id].AtSignal? then AtSetDone else AtDetach])
    ensures forall jd :: 0 <= jd < f.cpus ==> CpuInv(f, r, jd)
  {
    InTurnMeansTurn(f, c, id);
    forall jd | 0 <= jd < f.cpus
      ensures CpuInv(f, r, jd)
    {
      assert CpuInv(f, c, jd);
    }
  }

  lemma EndKeeps(f: Config, c: Conc, id: nat, r: Conc)
    requires ConfigOk(f) && Inv(f, c) && id < f.cpus && CpuAct(f, c, id) == Some(r)
    requires c.cpu[id].AtSignal? || c.cpu[id].AtLastSignal?
    ensures Inv(f, r)
  {
    InTurnMeansTurn(f, c, id);
    SignalKeeps(f, c, r, id);
  }

  /** Every step of a CPU thread. */
  lemma CpuKeeps(f: Config, c: Conc, id: nat, r: Conc)
    requires ConfigOk(f) && Inv(f, c) && id < f.cpus && CpuAct(f, c, id) == Some(r)
    ensures Inv(f, r)
  {
    match c.cpu[id]
    case WaitTurn => EnterKeeps(f, c, id);
    case AtMark => MarkKeeps(f, c, id);
    case AtSetDone => SetDoneKeeps(f, c, id);
    case Blocked => WakeKeeps(f, c, id);
    case AtDetach => DetachKeeps(f, c, id);
    case AtSignal => EndKeeps(f, c, id, r);
    case AtLastSignal => EndKeeps(f, c, id, r);
    case AtRelease => WorkKeeps(f, c, id, r);
    case AtFetch(_) => WorkKeeps(f, c, id, r);
    case AtDecide(_) => DecideKeeps(f, c, id, r);
    case Gone =>
  }

  // ---------- The loader ----------

  ghost predicate LoaderLocal(f: Config, c: Conc, r: Conc)
    requires Shape(f, c) && Shape(f, r)
  {
    && Raises(f, c, r) && r.serial == c.serial && r.steps == c.steps && r.active == c.active && r.cpu == c.cpu
    && (forall d :: 1 <= d <= f.cpus ==> r.done[d] == c.done[d] && r.fsh[d] == c.fsh[d])
  }

  lemma LoaderLocalKeeps(f: Config, c: Conc, r: Conc)
    requires ConfigOk(f) && Inv(f, c) && Shape(f, r) && LoaderLocal(f, c, r)
    requires LoaderInv(f, r) && DataInv(f, r)
    ensures Inv(f, r)
  {
    TimerFrame(f, c, r);
    forall jd | 0 <= jd < f.cpus
      ensures CpuInv(f, r, jd)
    {
      CpuFrame(f, c, r, jd);
    }
  }

  lemma LoaderEnterKeeps(f: Config, c: Conc)
    requires ConfigOk(f) && Inv(f, c) && c.ld.LWait? && LoaderAct(f, c).Some?
    ensures Inv(f, LoaderAct(f, c).value)
  {
    LoaderLocalKeeps(f, c, LoaderAct(f, c).value);
  }

  /** In its turn the loader may pass the token at once: what keeps the others out is
      that every CPU is done with the slot. */
  lemma LoaderInTurnMeansTurn(f: Config, c: Conc)
    requires ConfigOk(f) && Inv(f, c) && LoaderInTurn(c.ld)
    ensures c.serial.turn == -1 && c.serial.loader && LoaderData(f, c)
    ensures c.time == c.serial.slot
    ensures forall id :: 0 <= id < f.cpus ==> !CpuInTurn(c.cpu[id]) && !c.cpu[id].WaitTurn?
  {
    forall id | 0 <= id < f.cpus
      ensures !CpuInTurn(c.cpu[id]) && !c.cpu[id].WaitTurn?
    {
      assert CpuInv(f, c, id);
    }
    assert PosOf(f, 0) < f.cpus + 1;
  }

  lemma LoaderAddKeeps(f: Config, c: Conc, r: Conc)
    requires ConfigOk(f) && Inv(f, c) && LoaderAct(f, c) == Some(r) && c.ld.LAdd?
    ensures Inv(f, r)
  {
    LoaderInTurnMeansTurn(f, c);
    LoaderLocalKeeps(f, c, r);
  }

  lemma LoaderWorkKeeps(f: Config, c: Conc, r: Conc)
    requires ConfigOk(f) && Inv(f, c) && LoaderAct(f, c) == Some(r)
    requires c.ld.LFirstSignal? || c.ld.LHead? || c.ld.LInnerSignal? || c.ld.LEndSignal? ||
             (c.ld.LCheck? && c.time >= f.start[c.kern.next])
    ensures Inv(f, r)
  {
    LoaderInTurnMeansTurn(f, c);
    LoaderLocalKeeps(f, c, r);
  }

  lemma LoaderFlagKeeps(f: Config, c: Conc, r: Conc)
    requires ConfigOk(f) && Inv(f, c) && LoaderAct(f, c) == Some(r)
    requires c.ld.LSetDone? || c.ld.LBlocked? || c.ld.LDetach?
    ensures Inv(f, r)
  {
    LoaderLocalKeeps(f, c, r);
  }

  /** The step of the sequential program that stands for a whole loader turn. */
  ghost predicate LoaderTurnTaken(f: Config, q: State, s: State)
    requires ConfigOk(f) && Sane(f, q)
  {
    var (k, exits) := LoaderSection(f, q.kern, q.slot);
    && Sane(f, s) && s.kern == k && s.slot == q.slot && s.loader == !exits
    && s.active == q.active && s.turn == -2
  }

  lemma LoaderCommitKeeps(f: Config, c: Conc, r: Conc)
    requires ConfigOk(f) && Inv(f, c) && Shape(f, r)
    requires (c.ld.LCheck? && c.time < f.start[c.kern.next]) || c.ld.LOuterSignal? || c.ld.LFinish?
    requires LoaderTurnTaken(f, c.serial, r.serial)
    requires r == c.(serial := r.serial, steps := r.steps, turn := r.turn, kern := r.kern, ld := r.ld)
    requires r.kern == if c.ld.LFinish? then c.kern.(done := true) else c.kern
    requires r.ld == if c.ld.LCheck? then LSetDone(false) else if c.ld.LFinish? then LDetach else LSetDone(true)
    ensures Inv(f, r)
  {
    LoaderInTurnMeansTurn(f, c);
    TimerFrame(f, c, r);
    forall jd | 0 <= jd < f.cpus
      ensures CpuInv(f, r, jd)
    {
      assert CpuInv(f, c, jd);
    }
  }

  /** Every step of the loader thread. */
  lemma LoaderKeeps(f: Config, c: Conc, r: Conc)
    requires ConfigOk(f) && Inv(f, c) && LoaderAct(f, c) == Some(r)
    ensures Inv(f, r)
  {
    if c.ld.LWait? {
      LoaderEnterKeeps(f, c);
    } else if c.ld.LSetDone? || c.ld.LBlocked? || c.ld.LDetach? {
      LoaderFlagKeeps(f, c, r);
    } else {
      LoaderInTurnMeansTurn(f, c);
      if (c.ld.LCheck? && c.time < f.start[c.kern.next]) || c.ld.LOuterSignal? || c.ld.LFinish? {
        LoaderCommitKeeps(f, c, r);
      } else if c.ld.LAdd? {
        LoaderAddKeeps(f, c, r);
      } else {
        LoaderWorkKeeps(f, c, r);
      }
    }
  }

  // ---------- The timer ----------

  /** When every device is settled, everyone has taken the turn of this slot. */
  lemma SettledMeansOver(f: Config, c: Conc)
    requires ConfigOk(f) && Inv(f, c) && Settled(f, c, f.cpus + 1) && (c.timer.TTick? || c.timer.TReset?)
    ensures SlotOver(c.serial) && c.active == c.serial.active && c.kern == c.serial.kern
    ensures forall id :: 0 <= id < f.cpus && c.serial.active[id] ==> c.cpu[id] == Blocked && c.done[id + 1]
    ensures c.serial.loader ==> c.ld.LBlocked? && c.done[0]
  {
    forall d | 0 <= d <= f.cpus
      ensures c.done[d] || c.fsh[d]
    {
      assert PosOf(f, d) < f.cpus + 1;
    }
    var at := if c.serial.turn >= 0 then c.serial.turn else 0;
    assert at < f.cpus ==> CpuInv(f, c, at) && (c.done[at + 1] || c.fsh[at + 1]);
    forall id | 0 <= id < f.cpus && c.serial.active[id]
      ensures c.cpu[id] == Blocked && c.done[id + 1]
    {
      assert CpuInv(f, c, id);
    }
  }

  lemma ScanKeeps(f: Config, c: Conc)
    requires ConfigOk(f) && Inv(f, c) && c.timer.TScan? && TimerAct(f, c).Some?
    ensures Inv(f, TimerAct(f, c).value)
  {
    var r := TimerAct(f, c).value;
    var TScan(j, fsh) := c.timer;
    if j < f.cpus + 1 {
      OneMoreSettled(f, c, r, j);
    }
    TimerOnlyKeeps(f, c, r);
  }

  lemma OneMoreSettled(f: Config, c: Conc, r: Conc, j: nat)
    requires ConfigOk(f) && Inv(f, c) && c.timer.TScan? && j == c.timer.j < f.cpus + 1 && TimerAct(f, c) == Some(r)
    ensures Shape(f, r) && Settled(f, r, j + 1) && Counted(f, r, j + 1, r.timer.fsh)
  {
    forall d | 0 <= d <= f.cpus && PosOf(f, d) < j + 1
      ensures c.done[d] || c.fsh[d]
      ensures PosOf(f, d) < j || d == DevAt(f, j)
    {
    }
  }

  /** The timer moves between places at which no device is asleep. */
  lemma TimerOnlyKeeps(f: Config, c: Conc, r: Conc)
    requires ConfigOk(f) && Inv(f, c) && Shape(f, r) && TimerInv(f, r)
    requires r == c.(timer := r.timer, time := r.time)
    requires !r.timer.TRelease? && (c.timer.TRelease? ==> c.timer.j == f.cpus + 1)
    ensures Inv(f, r)
  {
    forall jd | 0 <= jd < f.cpus
      ensures CpuInv(f, r, jd)
    {
      assert CpuInv(f, c, jd);
    }
  }

  lemma ReleaseKeeps(f: Config, c: Conc)
    requires ConfigOk(f) && Inv(f, c) && c.timer.TRelease? && c.timer.j <= f.cpus
    ensures Inv(f, TimerAct(f, c).value)
  {
    var r := TimerAct(f, c).value;
    var d := DevAt(f, c.timer.j);
    forall e | 0 <= e <= f.cpus
      ensures Asleep(f, r, e) == (Asleep(f, c, e) && e != d)
      ensures e != d ==> r.done[e] == c.done[e]
    {
    }
    forall jd | 0 <= jd < f.cpus
      ensures CpuInv(f, r, jd)
    {
      assert CpuInv(f, c, jd);
    }
  }

  /** The step of the sequential program that stands for the tick. */
  ghost predicate SlotTaken(q: State, s: State) {
    && s.kern == q.kern && s.slot == q.slot + 1 && s.loader == q.loader
    && s.active == q.active && s.turn == Highest(q.active)
  }

  lemma ResetKeeps(f: Config, c: Conc, r: Conc)
    requires ConfigOk(f) && Inv(f, c) && c.timer.TReset? && Shape(f, r)
    requires SlotTaken(c.serial, r.serial)
    requires r == c.(serial := r.serial, steps := r.steps, turn := Highest(c.active), timer := TRelease(0, c.timer.fsh))
    ensures Inv(f, r)
  {
    SettledMeansOver(f, c);
    assert Counted(f, r, f.cpus + 1, c.timer.fsh);
    forall jd | 0 <= jd < f.cpus
      ensures CpuInv(f, r, jd)
    {
      assert CpuInv(f, c, jd);
    }
    if r.serial.turn >= 0 {
      assert c.cpu[r.serial.turn] == Blocked;
    }
  }

  lemma LoopKeeps(f: Config, c: Conc)
    requires ConfigOk(f) && Inv(f, c)
    requires c.timer.TLoop? || c.timer.TTick? || (c.timer.TRelease? && c.timer.j == f.cpus + 1)
    ensures Inv(f, TimerAct(f, c).value)
  {
    var r := TimerAct(f, c).value;
    if c.timer.TLoop? {
      assert Settled(f, r, 0) && Counted(f, r, 0, 0);
    } else if c.timer.TTick? {
      assert Settled(f, r, f.cpus + 1) && Counted(f, r, f.cpus + 1, c.timer.fsh);
    } else {
      assert forall d :: 0 <= d <= f.cpus ==> PosOf(f, d) < f.cpus + 1;
    }
    TimerOnlyKeeps(f, c, r);
  }

  /** Every step of the timer thread. */
  lemma TimerKeeps(f: Config, c: Conc)
    requires ConfigOk(f) && Inv(f, c) && TimerAct(f, c).Some?
    ensures Inv(f, TimerAct(f, c).value)
  {
    match c.timer
    case TScan(_, _) => ScanKeeps(f, c);
    case TReset(_) =>
      SettledMeansOver(f, c);
      ResetKeeps(f, c, TimerAct(f, c).value);
    case TRelease(j, _) =>
      if j <= f.cpus {
        ReleaseKeeps(f, c);
      } else {
        LoopKeeps(f, c);
      }
    case _ => LoopKeeps(f, c);
  }

  lemma MainKeeps(f: Config, c: Conc)
    requires ConfigOk(f) && Inv(f, c) && MainAct(c).Some?
    ensures Inv(f, MainAct(c).value)
  {
    var r := MainAct(c).value;
    forall jd | 0 <= jd < f.cpus
      ensures CpuInv(f, r, jd) && r.fsh[jd + 1]
    {
      assert CpuInv(f, c, jd);
    }
    forall d | 0 <= d <= f.cpus
      ensures r.fsh[d]
    {
      if d > 0 {
        assert CpuInv(f, c, d - 1);
      }
    }
  }

  /** Every step of every thread. */
  lemma ActKeeps(f: Config, c: Conc, a: Action)
    requires ConfigOk(f) && Inv(f, c) && Act(f, c, a).Some?
    ensures Inv(f, Act(f, c, a).value)
  {
    match a
    case CpuMoves(id) => CpuKeeps(f, c, id, CpuAct(f, c, id).value);
    case LoaderMoves => LoaderKeeps(f, c, LoaderAct(f, c).value);
    case TimerMoves => TimerKeeps(f, c);
    case MainMoves => MainKeeps(f, c);
  }
}
