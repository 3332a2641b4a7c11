/** The CPU threads, the loader and the timer of src/os.c and src/timer.c as a step
    system: one program counter per thread, one atomic step per lock-protected block or
    unblocked wait, any interleaving. A condition variable is the condition it guards. */
module Protocol {
  import opened Wrappers
  import opened Kernel
  import opened Serial

  /** cpu_routine. */
  datatype CpuPc =
    | WaitTurn                 // wait_cpu_turn(id)
    | AtRelease                // has the turn: finished or expired process
    | AtFetch(idle: bool)      // get_proc
    | AtDecide(idle: bool)     // leave, skip or run
    | AtSignal                 // signal_next_cpu(id)
    | AtMark                   // mark_cpu_inactive(id)
    | AtLastSignal             // signal_next_cpu(id) of a stopping CPU
    | AtSetDone                // first half of next_slot
    | Blocked                  // second half of next_slot
    | AtDetach                 // detach_event
    | Gone

  /** Where the loader waits for its turn. */
  datatype LoaderWait = First | Inner | Outer

  /** ld_routine. */
  datatype LdPc =
    | LWait(at: LoaderWait)    // wait_cpu_turn(-1)
    | LFirstSignal             // signal_next_cpu(-1) before the loop
    | LHead                    // while (i < num_processes)
    | LCheck                   // while (current_time() < start_time[i])
    | LInnerSignal             // signal_next_cpu(-1) after an early wait
    | LAdd                     // add_proc
    | LOuterSignal             // signal_next_cpu(-1) after add_proc
    | LEndSignal               // signal_next_cpu(-1) after the loop
    | LFinish                  // done = 1
    | LSetDone(outer: bool)    // first half of next_slot
    | LBlocked(outer: bool)    // second half of next_slot
    | LDetach
    | LGone

  /** timer_routine; `fsh` counts the finished devices seen, `j` is the place in dev_list. */
  datatype TimerPc =
    | TLoop                    // while (!timer_stop)
    | TScan(j: nat, fsh: nat)  // wait for device j
    | TTick(fsh: nat)          // _time++
    | TReset(fsh: nat)         // reset_cpu_order
    | TRelease(j: nat, fsh: nat)
    | TExit

  /** Shared variables and program counters, with a history: `serial` and `steps` are the
      sequential program and how many of its steps have been committed, `log` records who
      entered a turn and at what time. Device 0 is the loader's event, device id + 1 that
      of CPU id. */
  datatype Conc = Conc(
    turn: int, active: seq<bool>, time: nat, done: seq<bool>, fsh: seq<bool>, stop: bool,
    cpu: seq<CpuPc>, ld: LdPc, timer: TimerPc, kern: Kern, log: seq<Turn>, serial: State, steps: nat)

  datatype Action = CpuMoves(id: nat) | LoaderMoves | TimerMoves | MainMoves

  function Boot(f: Config): Conc {
    Conc(f.cpus - 1, seq(f.cpus, _ => true), 0,
         seq(f.cpus + 1, _ => false), seq(f.cpus + 1, _ => false), false,
         seq(f.cpus, _ => WaitTurn), LWait(First), TLoop, InitKern(f), [], Init(f), 0)
  }

  /** Loader positions at which a process is still to be loaded. */
  predicate Loading(l: LdPc) {
    match l
    case LWait(at) => at == Inner
    case LSetDone(outer) => !outer
    case LBlocked(outer) => !outer
    case _ => l.LCheck? || l.LInnerSignal? || l.LAdd?
  }

  ghost predicate Shape(f: Config, c: Conc) {
    && |c.active| == |c.cpu| == f.cpus && |c.done| == |c.fsh| == f.cpus + 1
    && -1 <= c.turn < f.cpus
    && Shaped(f, c.kern) && Sane(f, c.serial)
    && (c.timer.TScan? || c.timer.TRelease? ==> c.timer.j <= f.cpus + 1)
    && (Loading(c.ld) ==> c.kern.next < |f.prio|)
  }

  /** Devices are attached in the order of the CPUs, the loader last, each in front. */
  function DevList(f: Config, attached: nat): (l: seq<nat>)
    requires attached <= f.cpus + 1
    ensures |l| == attached && forall j :: 0 <= j < attached ==> l[j] <= f.cpus
  {
    if attached == 0 then []
    else [if attached == f.cpus + 1 then 0 else attached] + DevList(f, attached - 1)
  }

  lemma {:induction false} DevListIs(f: Config, attached: nat, j: nat)
    requires j < attached <= f.cpus + 1
    ensures DevList(f, attached)[j] == if attached == f.cpus + 1 then DevAt(f, j) else attached - j
  {
    if j > 0 {
      DevListIs(f, attached - 1, j - 1);
    }
  }

  /** dev_list holds the loader first, then the CPUs from the highest down. */
  function DevAt(f: Config, j: nat): (d: nat)
    requires j <= f.cpus
    ensures d <= f.cpus && PosOf(f, d) == j
  {
    if j == 0 then 0 else f.cpus + 1 - j
  }

  function PosOf(f: Config, d: nat): (j: nat)
    requires d <= f.cpus
    ensures j <= f.cpus
  {
    if d == 0 then 0 else f.cpus + 1 - d
  }

  /** What signal_next_cpu(id) sets the turn to: the highest active CPU, below `id` if it is
      a CPU that signals. */
  function SignalNext(active: seq<bool>, id: int): (r: int)
    requires -1 <= id < |active|
    ensures -1 <= r < (if id == -1 then |active| else id)
    ensures r >= 0 ==> active[r]
    ensures forall i :: r < i < (if id == -1 then |active| else id) ==> !active[i]
  {
    if id == -1 then Highest(active) else NextActive(active, id - 1)
  }

  /** A turn has ended: the sequential program takes it in one step. */
  function Commit(f: Config, c: Conc): Conc
    requires ConfigOk(f) && Sane(f, c.serial)
  {
    c.(serial := Step(f, c.serial), steps := c.steps + 1)
  }

  /** The next step of CPU `id`; None when it must wait or is gone. */
  function CpuAct(f: Config, c: Conc, id: nat): Option<Conc>
    requires ConfigOk(f) && Shape(f, c) && id < f.cpus
  {
    match c.cpu[id]
    case WaitTurn =>
      if c.turn == id then Some(c.(cpu := c.cpu[id := AtRelease], log := c.log + [Turn(id, c.time)])) else None
    case AtRelease =>
      Some(c.(kern := Release(f, c.kern, id, c.time), cpu := c.cpu[id := AtFetch(c.kern.cpus[id].proc.None?)]))
    case AtFetch(idle) => Some(c.(kern := Fetch(f, c.kern, id), cpu := c.cpu[id := AtDecide(idle)]))
    case AtDecide(idle) =>
      var (k, exits) := Decide(f, c.kern, id, idle, c.time);
      Some(c.(kern := k, cpu := c.cpu[id := if exits then AtMark else AtSignal]))
    case AtMark => Some(c.(active := c.active[id := false], cpu := c.cpu[id := AtLastSignal]))
    case AtSignal => Some(Commit(f, c).(turn := SignalNext(c.active, id), cpu := c.cpu[id := AtSetDone]))
    case AtLastSignal => Some(Commit(f, c).(turn := SignalNext(c.active, id), cpu := c.cpu[id := AtDetach]))
    case AtSetDone => Some(c.(done := c.done[id + 1 := true], cpu := c.cpu[id := Blocked]))
    case Blocked => if c.done[id + 1] then None else Some(c.(cpu := c.cpu[id := WaitTurn]))
    case AtDetach => Some(c.(fsh := c.fsh[id + 1 := true], cpu := c.cpu[id := Gone]))
    case Gone => None
  }

  /** The next step of the loader. */
  function LoaderAct(f: Config, c: Conc): Option<Conc>
    requires ConfigOk(f) && Shape(f, c)
  {
    match c.ld
    case LWait(at) =>
      if c.turn == -1 then
        Some(c.(ld := match at case First => LFirstSignal case Inner => LInnerSignal case Outer => LHead,
                log := c.log + [Turn(-1, c.time)]))
      else None
    case LFirstSignal => Some(c.(turn := SignalNext(c.active, -1), ld := LHead))
    case LHead => Some(c.(ld := if c.kern.next < |f.prio| then LCheck else LEndSignal))
    case LCheck =>
      Some(if c.time < f.start[c.kern.next] then Commit(f, c).(ld := LSetDone(false)) else c.(ld := LAdd))
    case LInnerSignal => Some(c.(turn := SignalNext(c.active, -1), ld := LCheck))
    case LAdd => Some(c.(kern := Publish(f, c.kern), ld := LOuterSignal))
    case LOuterSignal => Some(Commit(f, c).(turn := SignalNext(c.active, -1), ld := LSetDone(true)))
    case LEndSignal => Some(c.(turn := SignalNext(c.active, -1), ld := LFinish))
    case LFinish => Some(Commit(f, c).(kern := c.kern.(done := true), ld := LDetach))
    case LSetDone(outer) => Some(c.(done := c.done[0 := true], ld := LBlocked(outer)))
    case LBlocked(outer) => if c.done[0] then None else Some(c.(ld := LWait(if outer then Outer else Inner)))
    case LDetach => Some(c.(fsh := c.fsh[0 := true], ld := LGone))
    case LGone => None
  }

  /** The next step of the timer. */
  function TimerAct(f: Config, c: Conc): Option<Conc>
    requires ConfigOk(f) && Shape(f, c)
  {
    match c.timer
    case TLoop => Some(c.(timer := if c.stop then TExit else TScan(0, 0)))
    case TScan(j, fsh) =>
      if j == f.cpus + 1 then Some(c.(timer := TTick(fsh)))
      else
        var d := DevAt(f, j);
        if c.done[d] || c.fsh[d] then Some(c.(timer := TScan(j + 1, if c.fsh[d] then fsh + 1 else fsh))) else None
    case TTick(fsh) => Some(c.(time := c.time + 1, timer := TReset(fsh)))
    case TReset(fsh) => Some(Commit(f, c).(turn := Highest(c.active), timer := TRelease(0, fsh)))
    case TRelease(j, fsh) =>
      if j == f.cpus + 1 then Some(c.(timer := if fsh == f.cpus + 1 then TExit else TLoop))
      else Some(c.(done := c.done[DevAt(f, j) := false], timer := TRelease(j + 1, fsh)))
    case TExit => None
  }

  predicate AllGone(c: Conc) {
    c.ld == LGone && forall id :: 0 <= id < |c.cpu| ==> c.cpu[id] == Gone
  }

  /** main joins every thread, then tells the timer to stop. */
  function MainAct(c: Conc): Option<Conc> {
    if AllGone(c) && !c.stop then Some(c.(stop := true)) else None
  }

  function Act(f: Config, c: Conc, a: Action): Option<Conc>
    requires ConfigOk(f) && Shape(f, c)
  {
    match a
    case CpuMoves(id) => if id < f.cpus then CpuAct(f, c, id) else None
    case LoaderMoves => LoaderAct(f, c)
    case TimerMoves => TimerAct(f, c)
    case MainMoves => MainAct(c)
  }

  // ---------- The invariant ----------

  /** The timer has begun a slot but not yet released device `d`. */
  predicate Asleep(f: Config, c: Conc, d: nat)
    requires d <= f.cpus
  {
    c.timer.TRelease? && PosOf(f, d) >= c.timer.j
  }

  predicate CpuInTurn(pc: CpuPc) {
    pc.AtRelease? || pc.AtFetch? || pc.AtDecide? || pc.AtSignal? || pc.AtMark? || pc.AtLastSignal?
  }

  predicate LoaderInTurn(pc: LdPc) {
    || pc.LFirstSignal? || pc.LHead? || pc.LCheck? || pc.LInnerSignal?
    || pc.LAdd? || pc.LOuterSignal? || pc.LEndSignal? || pc.LFinish?
  }

  /** CPU `id` has still to take its turn in this slot. */
  predicate CpuBefore(f: Config, c: Conc, id: nat)
    requires Shape(f, c) && id < f.cpus
  {
    || (c.cpu[id] == WaitTurn && !c.done[id + 1] && !Asleep(f, c, id + 1))
    || (c.cpu[id] == Blocked && c.done[id + 1] == Asleep(f, c, id + 1))
  }

  /** CPU `id` has taken its turn. */
  predicate CpuAfter(f: Config, c: Conc, id: nat)
    requires Shape(f, c) && id < f.cpus
  {
    && !Asleep(f, c, id + 1)
    && ((c.cpu[id] == AtSetDone && !c.done[id + 1]) || (c.cpu[id] == Blocked && c.done[id + 1]))
  }

  ghost predicate CpuInv(f: Config, c: Conc, id: nat)
    requires Shape(f, c) && id < f.cpus
  {
    if !c.serial.active[id] then
      (c.cpu[id] == AtDetach && !c.fsh[id + 1]) || (c.cpu[id] == Gone && c.fsh[id + 1])
    else
      && !c.fsh[id + 1]
      && if id > c.serial.turn then CpuAfter(f, c, id)
         else CpuBefore(f, c, id) ||
              (id == c.serial.turn && CpuInTurn(c.cpu[id]) && !c.done[id + 1] && !Asleep(f, c, id + 1))
  }

  predicate LoaderBefore(f: Config, c: Conc)
    requires Shape(f, c)
  {
    || (c.ld.LWait? && !c.done[0] && !Asleep(f, c, 0))
    || (c.ld.LBlocked? && c.done[0] == Asleep(f, c, 0))
  }

  ghost predicate LoaderInv(f: Config, c: Conc)
    requires Shape(f, c)
  {
    if !c.serial.loader then (c.ld == LDetach && !c.fsh[0]) || (c.ld == LGone && c.fsh[0])
    else
      && !c.fsh[0]
      && if c.serial.turn >= 0 then LoaderBefore(f, c)
         else if c.serial.turn == -1 then
           (LoaderBefore(f, c) && c.turn == -1) || (LoaderInTurn(c.ld) && !c.done[0] && !Asleep(f, c, 0))
         else !Asleep(f, c, 0) && ((c.ld.LSetDone? && !c.done[0]) || (c.ld.LBlocked? && c.done[0]))
  }

  /** Every device in front of place `j` of dev_list is done or finished. */
  ghost predicate Settled(f: Config, c: Conc, j: nat)
    requires Shape(f, c)
  {
    forall d :: 0 <= d <= f.cpus && PosOf(f, d) < j ==> c.done[d] || c.fsh[d]
  }

  /** A full count means that every device in front of place `j` is finished. */
  ghost predicate Counted(f: Config, c: Conc, j: nat, fsh: nat)
    requires Shape(f, c)
  {
    fsh <= j && (fsh == j ==> forall d :: 0 <= d <= f.cpus && PosOf(f, d) < j ==> c.fsh[d])
  }

  ghost predicate TimerInv(f: Config, c: Conc)
    requires Shape(f, c)
  {
    && c.time == c.serial.slot + (if c.timer.TReset? then 1 else 0)
    && (c.stop ==> forall d :: 0 <= d <= f.cpus ==> c.fsh[d])
    && match c.timer
       case TLoop => true
       case TScan(j, fsh) => Settled(f, c, j) && Counted(f, c, j, fsh)
       case TTick(fsh) => Settled(f, c, f.cpus + 1) && Counted(f, c, f.cpus + 1, fsh)
       case TReset(fsh) => Settled(f, c, f.cpus + 1) && Counted(f, c, f.cpus + 1, fsh)
       case TRelease(j, fsh) => Counted(f, c, f.cpus + 1, fsh)
       case TExit => forall d :: 0 <= d <= f.cpus ==> c.fsh[d]
  }

  /** Kernel data of CPU `id` in the middle of its turn, against the sequential program. */
  ghost predicate CpuData(f: Config, c: Conc, id: nat)
    requires ConfigOk(f) && Shape(f, c) && id < f.cpus
  {
    var k, t := c.serial.kern, c.serial.slot;
    var idle := k.cpus[id].proc.None?;
    match c.cpu[id]
    case AtRelease => c.kern == k
    case AtFetch(i) => i == idle && c.kern == Release(f, k, id, t)
    case AtDecide(i) => i == idle && c.kern == Fetch(f, Release(f, k, id, t), id)
    case AtSignal => (c.kern, false) == CpuSection(f, k, id, t)
    case AtMark => (c.kern, true) == CpuSection(f, k, id, t)
    case AtLastSignal => (c.kern, true) == CpuSection(f, k, id, t)
    case _ => c.kern == k
  }

  ghost predicate LoaderData(f: Config, c: Conc)
    requires ConfigOk(f) && Shape(f, c)
  {
    var k, t := c.serial.kern, c.serial.slot;
    match c.ld
    case LAdd => c.kern == k && t >= f.start[k.next]
    case LOuterSignal => (c.kern, false) == LoaderSection(f, k, t)
    case LEndSignal => c.kern == k && k.next == |f.prio|
    case LFinish => c.kern == k && k.next == |f.prio|
    case _ => c.kern == k
  }

  ghost predicate DataInv(f: Config, c: Conc)
    requires ConfigOk(f) && Shape(f, c)
  {
    var q := c.serial;
    if q.turn >= 0 then
      && c.turn == q.turn && CpuData(f, c, q.turn)
      && c.active == if c.cpu[q.turn].AtLastSignal? then q.active[q.turn := false] else q.active
    else
      && c.active == q.active
      && if q.turn == -1 && q.loader then LoaderData(f, c) else c.kern == q.kern
  }

  ghost predicate Inv(f: Config, c: Conc)
    requires ConfigOk(f)
  {
    && Shape(f, c)
    && (forall id :: 0 <= id < f.cpus ==> CpuInv(f, c, id))
    && LoaderInv(f, c) && TimerInv(f, c) && DataInv(f, c)
  }
}
