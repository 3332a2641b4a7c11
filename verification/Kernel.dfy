/** What one CPU thread and the loader do to the shared kernel data inside one turn
    (src/os.c): the bodies between wait_cpu_turn and signal_next_cpu. */
module Kernel {
  import opened Wrappers
  import opened Queues
  import opened Mlq

  /** The configuration file: CPUs, time quantum, and per process its priority, code
      size and start time, in load order. */
  datatype Config = Config(cpus: nat, timeSlot: int, prio: seq<nat>, size: seq<nat>, start: seq<nat>)

  ghost predicate ConfigOk(f: Config) {
    && f.cpus <= 64
    && |f.prio| == |f.size| == |f.start|
    && forall p :: 0 <= p < |f.prio| ==> f.prio[p] < MAX_PRIO
  }

  /** Locals of a CPU thread: `proc` and `time_left`. The rest is history: the program
      counter and slot of the current dispatch, and the slot of the next section. */
  datatype Cpu = Cpu(proc: Option<nat>, timeLeft: int, first: nat, since: nat, nextAt: nat)

  /** Instruction `pc` of process `p` executed by `cpu` in `slot`. */
  datatype Exec = Exec(p: nat, pc: nat, cpu: nat, slot: nat)

  /** A dispatch that has ended: it executed instructions first..last-1. */
  datatype Burst = Burst(p: nat, cpu: nat, first: nat, last: nat, since: nat, until: nat, requeued: bool)

  /** Kernel data. Processes are named by their load order. `finished`, `lost`,
      `execs` and `bursts` are history. */
  datatype Kern = Kern(
    ready: Levels, cpus: seq<Cpu>, next: nat, done: bool, pcs: seq<nat>,
    finished: set<nat>, lost: set<nat>, execs: seq<Exec>, bursts: seq<Burst>)

  /** Every index in the data is in range. */
  ghost predicate Shaped(f: Config, k: Kern) {
    && |k.cpus| == f.cpus && |k.pcs| == |f.prio| && k.next <= |f.prio|
    && (forall id :: 0 <= id < f.cpus && k.cpus[id].proc.Some? ==> k.cpus[id].proc.value < |f.prio|)
    && (forall l, i :: 0 <= l < MAX_PRIO && 0 <= i < |k.ready[l]| ==> k.ready[l][i] < |f.prio|)
  }

  function InitKern(f: Config): (k: Kern)
    ensures Shaped(f, k)
  {
    Kern(seq(MAX_PRIO, _ => []), seq(f.cpus, _ => Cpu(None, 0, 0, 0, 0)), 0, false,
         seq(|f.prio|, _ => 0), {}, {}, [], [])
  }

  /** `enqueue` of process `p` on its own level; a full queue loses the process. */
  function EnqueueProc(f: Config, k: Kern, p: nat): (r: Kern)
    requires ConfigOk(f) && Shaped(f, k) && p < |f.prio|
    ensures Shaped(f, r)
  {
    k.(ready := Enlist(k.ready, f.prio[p], p),
       lost := if |k.ready[f.prio[p]]| >= MAX_QUEUE_SIZE then k.lost + {p} else k.lost)
  }

  /** The dispatch of CPU `id` ends in `slot`. */
  function EndBurst(k: Kern, id: nat, p: nat, slot: nat, requeued: bool): (r: Kern)
    requires id < |k.cpus| && p < |k.pcs|
  {
    var c := k.cpus[id];
    k.(cpus := k.cpus[id := Cpu(None, 0, 0, 0, c.nextAt)],
       bursts := k.bursts + [Burst(p, id, c.first, k.pcs[p], c.since, slot, requeued)])
  }

  /** First third of a CPU turn: a finished process is freed, an expired one is put
      back, any other stays. */
  function Release(f: Config, k: Kern, id: nat, slot: nat): (r: Kern)
    requires ConfigOk(f) && Shaped(f, k) && id < f.cpus
    ensures Shaped(f, r)
  {
    match k.cpus[id].proc
    case None => k
    case Some(p) =>
      if k.pcs[p] == f.size[p] then EndBurst(k, id, p, slot, false).(finished := k.finished + {p})
      else if k.cpus[id].timeLeft == 0 then EnqueueProc(f, EndBurst(k, id, p, slot, true), p)
      else k
  }

  /** Second third: a CPU without a process asks the scheduler for one. */
  function Fetch(f: Config, k: Kern, id: nat): (r: Kern)
    requires ConfigOk(f) && Shaped(f, k) && id < f.cpus
    ensures Shaped(f, r)
  {
    if k.cpus[id].proc.Some? then k
    else k.(ready := TakeRest(k.ready), cpus := k.cpus[id := k.cpus[id].(proc := TakeHead(k.ready))])
  }

  /** Last third: leave, stay idle, or execute one instruction. A CPU that entered
      the turn idle never looks at `done`. */
  function Decide(f: Config, k: Kern, id: nat, idle: bool, slot: nat): (r: (Kern, bool))
    requires ConfigOk(f) && Shaped(f, k) && id < f.cpus
    ensures Shaped(f, r.0)
  {
    var c := k.cpus[id];
    match c.proc
    case None => (k.(cpus := k.cpus[id := c.(nextAt := slot + 1)]), !idle && k.done)
    case Some(p) =>
      var d := if c.timeLeft == 0 then Cpu(c.proc, f.timeSlot, k.pcs[p], slot, c.nextAt) else c;
      var k1 := k.(cpus := k.cpus[id := d.(timeLeft := d.timeLeft - 1, nextAt := slot + 1)]);
      if k.pcs[p] < f.size[p] then
        (k1.(pcs := k.pcs[p := k.pcs[p] + 1], execs := k.execs + [Exec(p, k.pcs[p], id, slot)]), false)
      else (k1, false)
  }

  /** A whole CPU turn; the flag says that the CPU stops. */
  function CpuSection(f: Config, k: Kern, id: nat, slot: nat): (r: (Kern, bool))
    requires ConfigOk(f) && Shaped(f, k) && id < f.cpus
    ensures Shaped(f, r.0)
  {
    Decide(f, Fetch(f, Release(f, k, id, slot), id), id, k.cpus[id].proc.None?, slot)
  }

  /** The loader publishes its next process. */
  function Publish(f: Config, k: Kern): (r: Kern)
    requires ConfigOk(f) && Shaped(f, k) && k.next < |f.prio|
    ensures Shaped(f, r)
  {
    EnqueueProc(f, k, k.next).(next := k.next + 1)
  }

  /** A whole loader turn; the flag says that the loader stops. */
  function LoaderSection(f: Config, k: Kern, slot: nat): (r: (Kern, bool))
    requires ConfigOk(f) && Shaped(f, k)
    ensures Shaped(f, r.0)
  {
    if k.next == |f.prio| then (k.(done := true), true)
    else if slot < f.start[k.next] then (k, false)
    else (Publish(f, k), false)
  }

  // ---------- Conservation of processes ----------

  ghost predicate InQueue(f: Config, k: Kern, p: nat)
    requires ConfigOk(f) && p < |f.prio|
  {
    p in k.ready[f.prio[p]]
  }

  ghost predicate HeldBy(k: Kern, id: nat, p: nat)
    requires id < |k.cpus|
  {
    k.cpus[id].proc == Some(p)
  }

  ghost predicate Held(k: Kern, p: nat) {
    exists id :: 0 <= id < |k.cpus| && HeldBy(k, id, p)
  }

  /** Added processes that no finished CPU turn has freed. */
  ghost predicate Pending(k: Kern, p: nat) {
    p < k.next && p !in k.finished && p !in k.lost
  }

  /** Every process is where conservation says. */
  ghost predicate Placed(f: Config, k: Kern)
    requires ConfigOk(f)
  {
    && Shaped(f, k)
    && (forall l, i :: 0 <= l < MAX_PRIO && 0 <= i < |k.ready[l]| ==>
          Pending(k, k.ready[l][i]) && f.prio[k.ready[l][i]] == l && !Held(k, k.ready[l][i]))
    && (forall l, i, j :: 0 <= l < MAX_PRIO && 0 <= i < j < |k.ready[l]| ==> k.ready[l][i] != k.ready[l][j])
    && (forall id :: 0 <= id < f.cpus && k.cpus[id].proc.Some? ==> Pending(k, k.cpus[id].proc.value))
    && (forall id, jd, p :: 0 <= id < jd < f.cpus && HeldBy(k, id, p) ==> !HeldBy(k, jd, p))
    && (forall p :: p in k.finished || p in k.lost ==> p < k.next)
    && k.finished !! k.lost
    && (forall p :: 0 <= p < |f.prio| && Pending(k, p) ==> InQueue(f, k, p) || Held(k, p))
  }
}
