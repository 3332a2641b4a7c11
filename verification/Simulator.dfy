/** The turns of cpu_routine and ld_routine in src/os.c, carried out on the scheduler and
    on the locals of the threads: each is the section that the protocol takes it to be. */
module Simulator {
  import opened Wrappers
  import opened Scheduler
  import opened Kernel

  class OsState {
    ghost const f: Config
    const timeSlot: int
    const prio: seq<nat>
    const codeSize: seq<nat>
    const startTime: seq<nat>
    const sched: MlqScheduler
    const proc: array<Option<nat>>   // proc of each CPU thread
    const timeLeft: array<int>       // time_left of each CPU thread
    const pc: array<nat>             // program counter of each process
    var next: nat                    // i of the loader
    var done: bool
    ghost var kern: Kern

    ghost predicate Valid()
      reads this, sched, sched.Repr, proc, timeLeft, pc
    {
      && ConfigOk(f) && f == Config(proc.Length, timeSlot, prio, codeSize, startTime)
      && Shaped(f, kern)
      && sched.Valid() && {pc, proc, timeLeft, this} !! sched.Repr
      && sched.levels == kern.ready
      && timeLeft.Length == proc.Length
      && (forall id :: 0 <= id < f.cpus ==> proc[id] == kern.cpus[id].proc && timeLeft[id] == kern.cpus[id].timeLeft)
      && pc[..] == kern.pcs
      && next == kern.next && done == kern.done
    }

    constructor (cpus: nat, timeSlot: int, prio: seq<nat>, codeSize: seq<nat>, startTime: seq<nat>)
      requires ConfigOk(Config(cpus, timeSlot, prio, codeSize, startTime))
      ensures Valid() && f == Config(cpus, timeSlot, prio, codeSize, startTime)
      ensures kern == InitKern(f)
    {
      f := Config(cpus, timeSlot, prio, codeSize, startTime);
      this.timeSlot, this.prio, this.codeSize, this.startTime := timeSlot, prio, codeSize, startTime;
      sched := new MlqScheduler();
      proc := new Option<nat>[cpus](_ => None);
      timeLeft := new int[cpus](_ => 0);
      pc := new nat[|prio|](_ => 0);
      next, done := 0, false;
      kern := InitKern(Config(cpus, timeSlot, prio, codeSize, startTime));
    }

    /** A finished process is freed, an expired one put back. */
    method LetGo(id: nat, ghost slot: nat)
      requires Valid() && id < proc.Length
      modifies `kern, sched, sched.Repr, proc, timeLeft
      ensures Valid() && kern == Release(f, old(kern), id, slot)
    {
      ghost var k := Release(f, kern, id, slot);
      if proc[id].Some? {
        var p := proc[id].value;
        if pc[p] == codeSize[p] {
          proc[id] := None;
          timeLeft[id] := 0;
        } else if timeLeft[id] == 0 {
          sched.PutMlqProc(prio[p], p);
          proc[id] := None;
        }
      }
      kern := k;
    }

    /** `proc = get_proc()`. */
    method LoadProc(id: nat)
      requires Valid() && id < proc.Length && proc[id].None?
      modifies `kern, sched, sched.Repr, proc
      ensures Valid() && kern == Fetch(f, old(kern), id)
    {
      ghost var k := Fetch(f, kern, id);
      var r := sched.GetProc();
      proc[id] := r;
      kern := k;
    }

    /** One turn of CPU `id`, from wait_cpu_turn to signal_next_cpu; `time_left--` that
        follows it touches no shared data. True when the thread stops. */
    method CpuTurn(id: nat, ghost slot: nat) returns (exits: bool)
      requires Valid() && id < proc.Length
      modifies `kern, sched, sched.Repr, proc, timeLeft, pc
      ensures Valid() && (kern, exits) == CpuSection(f, old(kern), id, slot)
    {
      var idle := proc[id].None?;
      LetGo(id, slot);
      if proc[id].None? {
        LoadProc(id);
      }
      exits := RunOrSkip(id, idle, slot);
    }

    /** Without a process the CPU stops or skips the slot; with one it runs an instruction. */
    method RunOrSkip(id: nat, idle: bool, ghost slot: nat) returns (exits: bool)
      requires Valid() && id < proc.Length
      modifies `kern, timeLeft, pc
      ensures Valid() && (kern, exits) == Decide(f, old(kern), id, idle, slot)
    {
      ghost var k := Decide(f, kern, id, idle, slot).0;
      exits := false;
      match proc[id] {
        case None => exits := !idle && done;
        case Some(p) =>
          if timeLeft[id] == 0 {
            timeLeft[id] := timeSlot;
          }
          if pc[p] < codeSize[p] {
            pc[p] := pc[p] + 1;
          }
          timeLeft[id] := timeLeft[id] - 1;
      }
      kern := k;
    }

    /** One turn of the loader. True when it stops. */
    method LoaderTurn(currentTime: nat) returns (exits: bool)
      requires Valid()
      modifies `kern, `next, `done, sched, sched.Repr
      ensures Valid() && (kern, exits) == LoaderSection(f, old(kern), currentTime)
    {
      kern := LoaderSection(f, kern, currentTime).0;
      if next == |prio| {
        done := true;
        return true;
      }
      if currentTime >= startTime[next] {
        sched.AddMlqProc(prio[next], next);
        next := next + 1;
      }
      return false;
    }
  }
}
