# A verified model of the LamiaAtrium OS simulator

The simulator runs n CPU threads, a loader thread and a timer thread. Each time slot passes a
turn token from the highest active CPU down to CPU 0 and then to the loader; a CPU schedules and
runs one instruction of a process inside its turn. Processes come from a multi-level queue, and
their memory accesses go through a five-level page table, a demand pager with FIFO replacement,
two physical devices (RAM and SWAP) and a first-fit region allocator. The model is the 64-bit
build (`MM64`), the one that `run_tests.sh` compiles.

`dafny verify dfyconfig.toml` checks everything. Where the C code changes data in place the
model has a class whose methods do the same and are proved equal to functions on values; the
properties below are proved about those functions over all inputs, runs and interleavings.

## What is proved

**Time slots and turns** (`Protocol*.dfy`, `Serial.dfy`, `Kernel.dfy`, `Conservation.dfy`,
`Execution.dfy`, `Publishing.dfy`, `LoaderSignal.dfy`, `TimerExit.dfy`, `Work.dfy`, `Stopping.dfy`,
`Simulator.dfy`, `CpuOrder.dfy`). The threads form a step system with one program counter each and one atomic
step per lock-protected block or unblocked wait; devices are released by the timer one at a time
while released threads already run. Every interleaving refines a sequential program that runs
whole turns, which gives: mutual exclusion of turns, the loader included although it has passed
the token before it publishes a process; determinism (of two runs one has taken a
prefix of the other's turns and executed a prefix of its instructions); each slot's round in full and in order; no
deadlock, and a natural number that falls with every step that does not advance the time;
conservation of processes; execution of every instruction once and in order; dispatches of
exactly min(quantum, remaining) instructions; the slot in which each process is published; where
the turn token is at every moment; every process comes to its end; exactly which CPU threads
stop, and when the timer does.

**Scheduler** (`Queue.dfy`, `Mlq.dfy`, `Scheduler.dfy`). The stateful selector with its
preemption scan, circular scan, quotas and retry recursion is strict-priority first come first
served, from every quota state and over every run of calls; a process is served after exactly
those ahead of it in its level as long as, and only as long as, no more urgent level has one.

**Memory** (`Words.dfy`, `Bits.dfy`, `BitMacros.dfy`, `Radix.dfy`, `PageTable.dfy`, `Frames.dfy`,
`Memphy.dfy`, `Paging.dfy`, `Ownership.dfy`, `FlatMemory.dfy`, `PagingRuns.dfy`,
`ResidentList.dfy`, `FullDevices.dfy`, `Pager.dfy`, `MemorySystem.dfy`, `EvictedAccess.dfy`). The
shifts and masks of the C macros compute the arithmetic that the rest uses. The radix tree on a heap of tables is a map from page
numbers modulo 2^45 to entries; RAM, SWAP and untouched pages of all processes together are one
flat byte memory under every run of accesses; every frame is free or has exactly one owner;
evicted bytes stay where they are; replacement is FIFO; exactly which runs leave the resident list
complete; the tables are freed exactly once.

**Regions and areas** (`Regions.dfy`, `FreeList.dfy`, `Areas.dfy`, `GrowthRuns.dfy`,
`AddressSpace.dfy`). First fit takes exactly the returned bytes out of the first region that has them, live and
free regions stay disjoint throughout a run of allocations and frees exactly when no call of it is
refused the growth it needs, and areas stay apart and in order.

## Where the code departs from its documents or intentions

- The Markdown files promise that no priority starves (SCHEDULER_SUMMARY.md:217). The scan at
  src/sched.c:69-75 makes the policy strict priority, so a lower level can wait for any number of
  rounds: `Mlq.LaterLevelsStarve`. `Mlq.ServedIffNothingBefore` says exactly when it does not wait.
  The work of a configuration is finite, so in the end everyone is served
  (`Work.WorkGetsDone`).
- `pte_set_swap` leaves an evicted page PRESENT (src/mm64.c:168-169), so nothing is ever swapped
  in. `Paging.ReturnedFrameBacksPage` says exactly when a returned frame is the page's own, and
  `EvictedAccess.EvictedReadIsWrong` is a run in which a process reads another page's byte. All
  run theorems of the pager therefore speak of accesses to pages that are not out in SWAP.
- `pg_getpage` ignores the result of `pte_set_fpn` (src/libmem.c:321); the parameter `tabled`
  says whether the tables could be allocated, and the run theorems take it as true. The classes
  prove that it is, for a page that gets loaded, exactly when as many allocations succeed as
  tables are missing on the page's path (`Pager.TablesFit`); `Ownership.InOrderIffTabled` says
  that memory is right in either case but frames and lists stay in order only when it is.
- `find_victim_page` dereferences NULL on a list of one element (src/libmem.c:552-559). With RAM
  full and one listed page the C code is undefined; `Searchable` excludes this.
- When SWAP is full the victim is already off the list (src/libmem.c:262-275) and stays off it:
  `ResidentList.ListIsResidentSet` says that a run ends with a list of exactly the resident pages
  iff no access of it met full devices with a page listed, and `FullDevices.ResidentPageIsUnlisted`
  is a run that ends otherwise.
- `__alloc` ignores whether the area grew (src/libmem.c:121-127), and src/os.c never sets
  `krnl->mm`. `Regions.AllocIsSafe` says exactly when an allocation is safe,
  `GrowthRuns.SafeIffNoneRefused` when a run is, `GrowthRuns.NeverGrownIsSafeIffNoBytes` what is
  left when nothing grows, and `Regions.WithoutGrowthRegionsOverlap` shows two allocations that
  share their bytes.
- `MEMPHY_get_usedfp` moves the head of the free list whatever frame it is asked for
  (src/mm-memphy.c:290-300), and `get_symrg_byid` accepts index 30 of a table of 30
  (src/libmem.c:56), which the model leaves out as undefined.
- A CPU that is idle before it looks for a process never reaches the stop check
  (src/os.c:74-83). `Stopping.StopsIffHolding` says exactly which CPUs stop: those that have a
  process when the loader takes its last turn. So the program ends only if every CPU has one then
  (`Stopping.FinishedMeansAllHeld`), which takes as many processes as CPUs
  (`Stopping.FewProcessesNeverStop`); `Serial.IdleCpusNeverStop` is the plainest instance.

## Assumptions

At most 64 CPUs, priorities below 140, device sizes below 2^31 bytes (they are C ints). The runs
start from devices with a proper free list, which excludes a device of exactly one frame
(src/mm-memphy.c:144-146 leaves its list unterminated). Queue overflow is
modelled: a full queue drops the process into `lost`, which stays empty while no priority has
more than 50 unfinished processes. Region requests are small enough to survive the `int` copies
in `__alloc` and `get_free_vmrg_area` (predicate `Small`). Addresses whose page numbers agree
modulo 2^45 have the same page-table entry, so in the flat memory they name the same byte.

## Model

| member | source | states |
|---|---|---|
| ProtocolRuns.MutualExclusion | src/os.c:62-191 | in every state that any interleaving reaches, at most one participant is in its turn, the loader until its next_slot included |
| ProtocolRuns.DataIsSequential | src/os.c:62-191 | whenever nobody is in its turn the shared data is that of a sequential program that takes whole turns |
| ProtocolRuns.RunIsReached | src/os.c:62-191 | every state that an interleaving leads to satisfies the invariant, follows the sequential program, and has recorded its turns |
| ProtocolRuns.LogIsRounds | src/timer.c:183-237 | the turns really taken, with the times read, are each slot's round in full and in order and the beginning of the current one |
| ProtocolRuns.RunsAgree | src/timer.c:34-93 | of any two runs the one with fewer ended turns has recorded a prefix of the other's rounds, instructions and dispatches |
| ProtocolDeterminism.LogsAgree | src/timer.c:183-237 | the logs of turns of any two interleavings are prefixes one of the other |
| ProtocolDeterminism.ExecutionsAgree | src/os.c:118-122 | any two interleavings execute the same instructions on the same CPUs in the same slots, as far as both have come |
| ProtocolKernel.ProcessesAreConserved | src/os.c:73-125 | in every reachable state, mid-turn too, each added process is in exactly one place, its instructions ran once each in order, and every ended dispatch had its exact length |
| ProtocolKernel.NoProcessIsDropped | src/queue.c:12-27 | no interleaving drops a process while no priority exceeds 50 unfinished ones |
| ProtocolProgress.NeverStuck | src/timer.c:34-93 | in every reachable state that is not finished some thread, the timer or main can step |
| ProtocolProgress.StepFalls | src/timer.c:77-93 | every step of every run that does not advance the time lowers a natural number, so no slot can stall |
| ProtocolProgress.WaitingTimerIsServed | src/timer.c:42-55 | while the timer waits for a device that is neither done nor finished, some other thread can step |
| TimerExit.LeavesIffAllSeenFinished | src/timer.c:34-75 | after a slot the timer leaves iff it read every device as finished at its place in the scan, else it begins another slot |
| TimerExit.TimeStandsStill | src/timer.c:70-73 | once all devices are finished no interleaving counts more than two further slots |
| Protocol.DevListIs | src/timer.c:111-134 | attaching the CPUs in order and the loader last puts the loader first in dev_list and the CPUs behind it from the highest down |
| LoaderSignal.TokenIsWhereItBelongs | src/os.c:143-188 | in every reachable state the token is at the CPU whose turn it is, then at -1 until the loader signals, then at the highest active CPU or -1 if there is none; and where in its loop the loader has signalled in this slot |
| LoaderSignal.ResetFindsTheSame | src/timer.c:201-230 | the timer's reset sets the token to the first of the next round, which is where the loader's signal, if there was one, had put it |
| Publishing.PublishedOnTime | src/os.c:152-182 | in every interleaving process p enters its queue in slot At(p), its start time or, if later, the slot after its predecessor: not before, and for certain by the end of that slot |
| Publishing.PublishedWhenDue | src/os.c:152-182 | in the sequential program, when the loader is through with a slot, p has been published iff At(p) has come |
| ProtocolProofs.ActKeeps | src/timer.c:34-93 | every step of every thread keeps the invariant that relates flags, turn, slot counters and data |
| ProtocolProofs.LoaderInTurnMeansTurn | src/os.c:143-185 | in the loader's turn every CPU is done with the slot, which is what excludes them after the token has moved on |
| ProtocolProofs.SettledMeansOver | src/timer.c:42-61 | when the timer has seen every device settled, everyone has taken the turn of the slot and sleeps |
| ProtocolProofs.InTurnMeansTurn | src/timer.c:183-190 | a CPU in its turn holds the token, is active, and works on the data of that turn |
| Serial.RoundIsComplete | src/timer.c:160-178 | a round names each active CPU once in strictly descending order, then the loader once while it is alive, and nobody else |
| Serial.StepKeepsOrder | src/timer.c:201-222 | passing the turn on keeps the turns taken and the turns to come together equal to the slot's round |
| Serial.AlwaysGood | src/os.c:62-191 | after any number of turns: order of rounds, placement of processes, execution history and dispatches are as they must be |
| Serial.ForwardContinues | src/os.c:62-191 | nothing recorded is ever revised |
| Serial.NothingIsLost | src/queue.c:18-22 | within capacity the sequential program drops no process |
| Serial.IdleCpusNeverStop | src/os.c:74-83 | an instance: with no processes every CPU stays active for ever |
| Stopping.LoaderStops | src/os.c:152-188 | the loader reaches its last turn, in which it sets done |
| Stopping.StopsIffHolding | src/os.c:74-104 | a CPU leaves at some time iff it has a process at the loader's last turn |
| Stopping.AllStopIffAllHold | src/os.c:74-104 | all CPUs leave iff every CPU has a process at that turn |
| Stopping.FewProcessesNeverStop | src/os.c:74-83 | with fewer processes than CPUs some CPU stays for ever |
| Stopping.FinishedMeansAllHeld | src/os.c:326-340 | an interleaving in which every thread has ended had a process on every CPU at the loader's last turn |
| Stopping.AllHeldMeansAllLeave | src/os.c:100-127 | and if every CPU has one then, there is a number of turns after which in every interleaving every CPU thread is past its loop |
| Work.WorkGetsDone | src/os.c:73-125 | with a CPU there is a time at which every process has finished or been dropped by a full queue, strict priority notwithstanding |
| Work.EveryProcessFinishes | src/os.c:84-90 | within capacity every process finishes |
| Work.CpuTurnWork | src/os.c:73-125 | a turn of a CPU that has or finds a process lowers the work left of some process and raises none |
| Serial.OthersUntouched | src/os.c:73-125 | a CPU turn changes no other CPU's process or time |
| Conservation.PlacedMeansExactlyOne | src/os.c:73-97 | the invariant on queues and CPUs means that an added process is in exactly one place |
| Conservation.CpuSectionPlaced | src/os.c:73-125 | a CPU turn keeps every process in its one place |
| Conservation.LoaderSectionPlaced | src/os.c:147-188 | a loader turn adds at most one process, in its one place |
| Conservation.ReleasePlaced | src/os.c:84-97 | freeing a finished or putting back an expired process keeps the placement |
| Conservation.FetchPlaced | src/os.c:74-97 | fetching from the scheduler keeps the placement |
| Conservation.CpuSectionLosesNothing | src/queue.c:18-22 | with at most 50 unfinished processes per priority a CPU turn drops none |
| Conservation.LoaderSectionLosesNothing | src/queue.c:18-22 | nor does a loader turn |
| Execution.CpuSectionHistory | src/os.c:99-125 | a CPU turn keeps the instruction history in order and every dispatch at its exact length and slots |
| Execution.LoaderSectionHistory | src/os.c:147-188 | a loader turn does not disturb that history |
| Execution.EndedBurstOk | src/os.c:84-97 | a dispatch that ends has run min(quantum, remaining) consecutive instructions in consecutive slots on one CPU |
| Simulator.OsState.CpuTurn | src/os.c:73-124 | the thread's code from wait_cpu_turn to signal_next_cpu is the turn of the protocol |
| Simulator.OsState.LetGo | src/os.c:84-97 | a finished process goes, an expired one is put back on its own level |
| Simulator.OsState.LoadProc | src/os.c:77-96 | a CPU without a process takes the scheduler's choice |
| Simulator.OsState.RunOrSkip | src/os.c:99-124 | the CPU stops, skips the slot, or runs one instruction with a fresh or remaining quantum |
| Simulator.OsState.LoaderTurn | src/os.c:147-188 | the loader waits, publishes its next process, or sets done |
| CpuOrder.TurnOrder.constructor | src/timer.c:151-157 | every CPU active, the turn with the highest |
| CpuOrder.TurnOrder.FindNextActive | src/timer.c:160-167 | the highest active CPU at or below a number, or -1 |
| CpuOrder.TurnOrder.FindHighestActive | src/timer.c:170-177 | the highest active CPU, or -1 |
| CpuOrder.TurnOrder.SignalNextCpu | src/timer.c:201-222 | a CPU passes the turn to the next active one below or to the loader, the loader to the highest active one |
| CpuOrder.TurnOrder.MarkInactive | src/timer.c:192-198 | exactly that CPU becomes inactive; other numbers are ignored |
| CpuOrder.TurnOrder.ResetCpuOrder | src/timer.c:225-230 | a slot begins with the highest active CPU |
| Mlq.GetIsStrict | src/sched.c:59-139 | from every quota state get_mlq_proc hands out the head of the lowest-numbered non-empty level, and NULL iff all are empty |
| Mlq.RunIsStrict | src/sched.c:59-178 | over every run of adds, puts and gets the hand-out sequence does not depend on the quota state |
| Mlq.WaitingBound | src/sched.c:59-178 | a process with k ahead of it in its level is exactly the (k+1)-th handed out while no more urgent level has a process at a get |
| Mlq.CircularFindsLowest | src/sched.c:88-99 | the circular scan finds the most urgent level when those before its start are empty |
| Mlq.ServedIffNothingBefore | src/sched.c:59-178 | over every run of calls the first k+1 gets all serve a level with more than k processes iff no more urgent level has one at those gets |
| Mlq.TurnOfProcess | src/sched.c:59-178 | whatever other levels hold, the get that serves a level for the (k+1)-th time returns the process with k ahead of it there |
| Mlq.LaterLevelsStarve | src/sched.c:69-75 | one process that is put back each time keeps all later levels waiting for any number of rounds |
| Mlq.QuotaIs | src/sched.c:69-135 | a level that is served keeps a quota it has begun, else gets a fresh one of 140 less its number, which counts down with every get; when it is used up the quota state moves to the next level |
| Mlq.NothingToServe | src/sched.c:85-124 | a get from empty levels keeps the level and forgets its quota |
| Scheduler.MlqScheduler.GetMlqProc | src/sched.c:59-139 | the code with its two scans and its retry, which terminates, computes the modelled selector and appends to the running list |
| Scheduler.MlqScheduler.GetProc | src/sched.c:180-182 | what the CPU threads get is the strict-priority choice |
| Scheduler.MlqScheduler.PreemptScan | src/sched.c:69-75 | a more urgent non-empty level takes over and forgets the quota |
| Scheduler.MlqScheduler.CircularScan | src/sched.c:85-107 | a fresh quota starts at the first non-empty level met going around |
| Scheduler.MlqScheduler.Serve | src/sched.c:110-135 | the head leaves its level and uses up one slot |
| Scheduler.MlqScheduler.AddMlqProc | src/sched.c:162-178 | the process is appended to its own level only |
| Scheduler.MlqScheduler.PutMlqProc | src/sched.c:141-160 | the process leaves the running list and is appended to its own level only |
| Scheduler.MlqScheduler.constructor | src/sched.c:37-50 | all queues empty, quota state at level 0 |
| Queues.Queue.Enqueue | src/queue.c:12-27 | appends, or drops silently when 50 are queued already |
| Queues.Queue.Dequeue | src/queue.c:29-53 | removes and returns the head, the rest in order |
| Queues.Queue.Purge | src/queue.c:55-84 | removes the first occurrence, the rest in order |
| Queues.Queue.ShiftOut | src/queue.c:43-50 | the shift loop removes one position |
| Queues.PurgedAt | src/queue.c:61-81 | removing the first occurrence is cutting out its position |
| Queues.FirstFiftyStay | src/queue.c:12-27 | a queue keeps the first 50 arrivals in order and none after them |
| BitMacros.GetValIsField | include/mm.h:154 | GETVAL with a GENMASK mask is the field between the two bits, for every pair of bits |
| BitMacros.SetValIs | include/mm.h:153 | SETVAL replaces exactly that field by the low bits of the value |
| BitMacros.MaskIs | include/bitops.h:32-34 | GENMASK gives ones from bit l to bit h and zeros elsewhere |
| Bits.ShiftsAreArithmetic | include/mm.h:150-154 | shifts and cuts by any number of bits are product, quotient and remainder by a power of two |
| Bits.FlagBits | include/mm.h:150-151 | SETBIT, CLRBIT and a test of one bit add, subtract and read its weight |
| BitMacros.PageBits | include/bitops.h:42-47 | NBITS of the page size is 12 |
| BitMacros.PageSplit | include/mm.h:164-166 | PAGING_OFFST and PAGING_PGN are the offset and page number of the model |
| BitMacros.IndexFields | include/mm64.h:44-62 | the five masked and shifted fields are the indices of the model |
| BitMacros.PageNumberShift | src/mm64.c:94-99 | the shifted page number, cut to 64 bits, has the indices of the model |
| BitMacros.EntryFields | include/mm.h:123-126 | PAGING_PTE_FPN and PAGING_PTE_SWP are frame number and swap offset of the model |
| BitMacros.EntryFlags | include/mm.h:55-58 | the flag masks test, set and clear PRESENT, SWAPPED and DIRTY as in the model |
| BitMacros.EntryUpdates | src/mm64.c:168-172 | the macro sequences of pte_set_fpn and pte_set_swap write the entries of the model |
| Words.IndicesAreDigits | src/mm64.c:71-99 | the five indices of a page number are its base-512 digits modulo 2^45 |
| Words.SameEntry | src/mm64.c:71-99 | two page numbers walk to the same entry iff they agree modulo 2^45 |
| Words.OnLineReads | src/mm64.c:238-242 | pte_set_fpn leaves the entry present, not swapped, with the frame number |
| Words.SwappedOutReads | src/mm64.c:168-172 | pte_set_swap leaves the entry present and swapped, and its frame number field a mixture of offset and type |
| Words.SetDirtyReads | src/libmem.c:392-394 | the dirty bit changes no other field |
| Radix.PathsAreUnique | src/mm64.c:123-158 | no two tables of a directory have the same index path |
| Radix.HangReadsTheSame | src/mm64.c:128-158 | a table allocated on demand changes no entry |
| Radix.HangKeepsTree | src/mm64.c:128-158 | and keeps the tree shape |
| Radix.WriteReads | src/mm64.c:304-361 | writing an entry is seen on exactly its own index path |
| PageTable.LastWriteWins | src/mm64.c:256-361 | over any history of writes the map holds for a page the last value written under the same five indices, 0 if there is none |
| Radix.WriteKeepsMissing | src/mm64.c:304-361 | writing an entry changes for no page how many tables are missing on its path |
| PageTable.PageDirectory.PteGetEntry | src/mm64.c:256-297 | returns the value last written to this directory under the same five indices, 0 where tables are missing, and changes nothing |
| PageTable.PageDirectory.PteSetEntry | src/mm64.c:304-361 | sets exactly one key; -1 exactly when allocations run out on the way, and then no entry has changed |
| PageTable.PageDirectory.PteSetFpn | src/mm64.c:182-247 | updates exactly one entry to online, or fails as above |
| PageTable.PageDirectory.PteSetSwap | src/mm64.c:108-175 | updates exactly one entry to swapped out, or fails as above |
| PageTable.PageDirectory.Navigate | src/mm64.c:123-158 | finds or allocates the four tables on the way and uses exactly the allocations that were missing |
| PageTable.PageDirectory.constructor | src/mm64.c:564-580 | one zeroed top table that reads as 0 everywhere |
| PageTable.PageDirectory.FreeMm | src/mm64.c:797-839 | every table of the directory is freed exactly once and none is left |
| PageTable.PageDirectory.FreeBelow | src/mm64.c:799-836 | the loops over one table free exactly the tables below it |
| Radix.SubtreeOneMore | src/mm64.c:799-836 | one more index covers exactly the child there with all below it, disjoint from what came before |
| Memphy.PhysicalMemory.constructor | src/mm-memphy.c:133-159 | zeroed bytes and the free frames 0, 1, ... in order |
| Memphy.PhysicalMemory.GetFreeFp | src/mm-memphy.c:161-177 | pops the head of the free list, -1 iff it is empty |
| Memphy.PhysicalMemory.PutFreeFp | src/mm-memphy.c:268-280 | pushes a frame |
| Memphy.PhysicalMemory.Read | src/mm-memphy.c:68-83 | reads one byte, -1 beyond the end |
| Memphy.PhysicalMemory.Write | src/mm-memphy.c:112-127 | writes one byte and no other, nothing beyond the end |
| Memphy.PhysicalMemory.GetUsedFp | src/mm-memphy.c:288-306 | moves the head of the free list, not the frame asked for; no frame is lost or doubled |
| Memphy.PhysicalMemory.RemoveUsedFp | src/mm-memphy.c:334-358 | unlinks the first node with the frame, -1 iff there is none |
| Memphy.PhysicalMemory.FreeUsedFp | src/mm-memphy.c:365-373 | moves a used frame to the head of the free list; no frame is lost or doubled |
| Memphy.MovingConserves | src/mm-memphy.c:288-373 | moving a frame between the lists keeps the multiset of all frames |
| Memphy.PhysicalMemory.ZeroFill | src/libmem.c:310-317 | the loop clears exactly one frame |
| Memphy.SwapCpPage | src/mm64.c:532-548 | the loop copies exactly one frame to the other device |
| Frames.PutPageReads | src/mm64.c:538-545 | replacing one frame changes no other |
| Frames.PutByteReads | src/libmem.c:382-389 | one byte write changes one byte of one frame |
| Pager.Process.FindVictimPage | src/libmem.c:543-564 | removes the last page of the list, -1 iff it is empty |
| Pager.Process.EnlistPgnNode | src/mm64.c:640-649 | the new page is the head of the list |
| Pager.ObtainFrame | src/libmem.c:256-290 | a free frame, or the frame of a victim whose bytes and entry moved to SWAP |
| Pager.SwapOut | src/libmem.c:277-286 | the victim's bytes go to SWAP and its entry is marked; no table is allocated for it |
| Pager.PgGetPage | src/libmem.c:234-331 | the code computes the modelled page access; its swap-in branch is never taken; its tables can be allocated iff enough allocations are left for those missing on the page's path |
| Pager.PgGetVal | src/libmem.c:339-363 | returns the byte at the page's frame and offset, -1 iff no frame; the table outcome as for the page access |
| Pager.PgSetVal | src/libmem.c:371-397 | writes that byte and sets the dirty bit, -1 iff no frame; the dirty bit is set whenever the tables could be allocated |
| Paging.ReturnedFrameBacksPage | src/libmem.c:234-331 | a returned frame is the page's own iff the page is not out in SWAP and its tables could be allocated |
| Paging.EvictedPageGetsForeignFrame | src/libmem.c:327-330 | an access to an evicted page changes nothing and gets the frame number 32 times its swap offset |
| Paging.VictimGetsForeignFrame | src/libmem.c:277-330 | the next access to a page just evicted gets the frame number 32 times the SWAP frame it went to |
| EvictedAccess.EvictedReadIsWrong | src/mm64.c:168-169 | a run after which reading an evicted page's byte 7 gives another page's 0 |
| Ownership.GetPageKeeps | src/libmem.c:234-331 | an access to a page not in SWAP keeps every frame owned and every byte of every process; failure iff no frame can be had |
| Ownership.InOrderIffTabled | src/libmem.c:309-324 | loading a page changes no process's memory whether or not its tables could be allocated; ownership and lists stay in order iff they could |
| Ownership.EvictKeeps | src/libmem.c:262-289 | an eviction moves a page's bytes and frame without changing any process's memory |
| Ownership.LoadKeeps | src/libmem.c:309-324 | zero-filling the frame in hand changes no process's memory and makes it the page's own |
| Ownership.DropVictimKeeps | src/libmem.c:262-275 | a victim that finds SWAP full costs only its place in the list |
| FlatMemory.GetRefines | src/libmem.c:339-363 | a read returns the flat memory's byte, or fails and changes nothing |
| FlatMemory.SetRefines | src/libmem.c:371-397 | a write changes exactly that byte of the flat memory, or fails and changes nothing |
| FlatMemory.PokeKeeps | src/libmem.c:382-389 | a byte written to a page's frame changes that byte of that page only |
| FlatMemory.DirtyKeeps | src/libmem.c:391-394 | the dirty bit changes no memory and no ownership |
| PagingRuns.RunRefines | src/libmem.c:234-397 | over every run by all processes results and final contents are those of one flat byte memory, and every frame is free or has one owner |
| PagingRuns.WhatIsAllowed | src/libmem.c:234-290 | after any run the model speaks of exactly those accesses whose page is not in SWAP and whose victim search is defined |
| PagingRuns.OwnedMeansFramesOwned | src/mm-memphy.c:161-177 | the ownership invariant means: free lists without duplicates, each frame free or the frame of exactly one page |
| PagingRuns.EvictionKeepsContents | src/libmem.c:259-290 | at every later state of a run an evicted page's SWAP frame holds the same bytes |
| PagingRuns.ReplacementIsFifo | src/libmem.c:543-564 | after every run the resident list is the newest part of the load history, so the victim is the page loaded earliest among those listed |
| ResidentList.ListIsResidentSet | src/libmem.c:256-275 | from the start over every run, the list names exactly the resident pages iff no access of the run needed a frame while RAM and SWAP were full and a page was listed |
| ResidentList.StepListed | src/libmem.c:256-275 | after an access all resident pages are listed iff they were before and the access was not of that kind |
| FullDevices.ResidentPageIsUnlisted | src/libmem.c:262-275 | with two RAM frames and no SWAP, touching pages 0, 1, 2 and again 0 succeeds at the end with page 0 in RAM and off the list |
| PagingRuns.OtherEntriesStay | src/libmem.c:285-324 | an access changes no entry but the page's and the victim's |
| MemorySystem.Machine.Access | src/libmem.c:339-397 | the classes on the shared devices perform the access of the flat memory and leave other processes alone, whenever the page has its tables or can get them |
| MemorySystem.Perform | src/libmem.c:339-397 | one access on a process and the devices |
| Regions.GetFreeIsExact | src/libmem.c:572-646 | first fit moves exactly the returned bytes out of the free list, which stays disjoint; without a fit the list is unchanged |
| Regions.FirstWithRoom | src/libmem.c:598-612 | a request is met from the start of the first region with at least that many bytes, and fails iff no region has them |
| Regions.TakeLeavesRest | src/libmem.c:605-634 | the rest of the region stays in its place, also without bytes, unless it has none and others come behind it |
| Regions.LastAddressIsLost | src/libmem.c:595-645 | a region at the very last address is taken off the list and reported as not found |
| Regions.AllocIsSafe | src/libmem.c:70-132 | an allocation gives the bytes asked for, leaves other symbols alone, and keeps the space safe iff the free list has room or the area grows |
| Regions.AllocPlaces | src/libmem.c:76-127 | the address is that of the region found or the old break, and the break moves by exactly the bytes asked for iff no region has room and the area grows |
| Regions.AlignedCovers | include/mm.h:21 | PAGING_PAGE_ALIGNSZ is the least multiple of 4096 that is not below its argument |
| Regions.ThroughIntIs | src/libmem.c:107-122 | a 64-bit value stored in an int and read back is sign-extended from its low half |
| Regions.FreeIsSafe | src/libmem.c:141-172 | a free moves exactly one live region to the free list; a repeated free is rejected and changes nothing |
| GrowthRuns.SafeIffNoneRefused | src/libmem.c:70-172 | with the growth that inc_vma_limit really grants, live and free regions stay disjoint and below the break throughout a run iff no call asks for bytes that neither the free list nor the area can give |
| GrowthRuns.AloneIsSafe | src/mm-vm.c:135-189 | for a process with area 0 alone whose mm_struct is the kernel's, every run of small requests is safe throughout |
| GrowthRuns.NeverGrownIsSafeIffNoBytes | src/mm-vm.c:140-145 | without growth a process without bytes stays safe throughout a run iff it never allocates any |
| GrowthRuns.GrowsUnlessInTheWay | src/mm-vm.c:135-189 | area 0 grows iff it is the kernel's and the extended area runs into no other |
| GrowthRuns.StepExtends | src/mm-vm.c:135-189 | a call moves the break by exactly the bytes of a granted request without room and the end by whole pages, and nothing otherwise |
| GrowthRuns.WholePages | src/mm-vm.c:150-160 | over every safe run area 0 keeps its start and consists of whole pages |
| Regions.WithoutGrowthRegionsOverlap | src/libmem.c:121-127 | without growth the first two allocations of a process get the same bytes |
| Regions.TakeMovesBytes | src/libmem.c:605-634 | removal by copying the next node, or by an empty last region, removes exactly the bytes taken |
| FreeList.RegionList.GetFreeVmrgArea | src/libmem.c:592-645 | the walk over linked nodes computes first fit and its list |
| FreeList.RegionList.CloneNext | src/libmem.c:616-626 | copying the next node over this one is removing this region from the sequence |
| FreeList.RegionList.TakeFrom | src/libmem.c:603-634 | shrink, clone or empty last region, as the sequence says |
| FreeList.RegionList.Enlist | src/libmem.c:33-47 | the region becomes the head; one without bytes is refused |
| AddressSpace.Mm.Alloc | src/libmem.c:70-132 | on the area found the code computes the modelled allocation and leaves all others alone; growth counts iff the kernel's mm_struct is this one and inc_vma_limit succeeds |
| AddressSpace.Mm.Free | src/libmem.c:141-172 | the code computes the modelled free; symbols outside the table give -1 |
| AddressSpace.Mm.IncVmaLimit | src/mm-vm.c:135-189 | the area grows, or on overlap the exact prior list is restored and the result is -1 |
| AddressSpace.Mm.ValidateOverlap | src/mm-vm.c:92-127 | 0 iff the area has bytes and overlaps no other |
| AddressSpace.Mm.AddVmArea | src/mm-vm.c:232-271 | refused iff the new area overlaps one of the list, else inserted by number |
| AddressSpace.Mm.RemoveVmArea | src/mm-vm.c:279-314 | the first area with the number leaves the list, -1 iff there is none |
| AddressSpace.Mm.GetVmaByNum | src/mm-vm.c:28-47 | the first area with at least the number |
| AddressSpace.Mm.constructor | src/mm64.c:581-617 | one empty area at 0 with a free region without bytes, and no live region |
| Areas.IncLimitKeeps | src/mm-vm.c:135-189 | growth keeps areas apart and ordered, is refused iff the extended area is empty or runs into another one, and then changes nothing |
| Areas.OverlapIsShared | include/mm.h:178 | for areas with bytes OVERLAP means a shared address |
| Areas.InsertKeeps | src/mm-vm.c:248-268 | inserting an area that overlaps none keeps the list apart and ordered by number |
| Areas.RemoveKeeps | src/mm-vm.c:279-314 | removal keeps the list apart and ordered |
| Areas.FindsTheArea | src/mm-vm.c:28-47 | on an ordered list the lookup of a number in use finds an area with it |

## Left out

- ProtocolRuns.MutualExclusion: condition variables are the conditions they guard, so spurious wake-ups and the signalling order of pthreads are not modelled.
- Pager.PgGetPage: requires that the entry of a FIFO victim is online, so it says nothing once a page whose tables could not be allocated has reached the end of the list.
- Pager.PgGetVal: beyond the end of the device the byte is not specified, as the variable it comes from is not initialised.
- PagingRuns.RunRefines: speaks of runs in which no access goes to a page out in SWAP, because the code never reads such a page back, and in which page tables can be allocated, because frames are lost when they cannot; both conditions are exact for one access (Paging.ReturnedFrameBacksPage, Ownership.InOrderIffTabled).
- Ownership.GetPageKeeps: takes the page-table allocation as successful; Ownership.InOrderIffTabled has the other case.
- Ownership.LoadKeeps: likewise.
- FlatMemory.GetRefines: likewise.
- FlatMemory.SetRefines: likewise.
- AddressSpace.Mm.Alloc: where the lookup of an area runs off the end of the list it says nothing, as the source dereferences NULL there.
- AddressSpace.Mm.RemoveVmArea: that the area and the nodes of its free list are given back to malloc is not modelled.
- AddressSpace.Mm.constructor: the VMA part of free_mm, which frees linked lists node by node, is not modelled.
- Memphy.PhysicalMemory.constructor: after frame 0 of a device of exactly one frame anything may follow in the free list, because its link is never set.
- Simulator.OsState.LoaderTurn: reading the process file, init_mm and the kernel fields set before add_proc are not modelled.
- Simulator.OsState.RunOrSkip: as for CpuTurn, the next line.
- Simulator.OsState.CpuTurn: the instruction run by a CPU is one step of the program counter; what it does to memory is the business of the pager and the allocator.
- MemorySystem.Perform: an access to a page whose tables cannot be allocated; see Ownership.InOrderIffTabled.
- MemorySystem.Machine.Access: likewise; and __read and __write, which add a region's start to an offset without a bound, are not modelled beyond pg_getval and pg_setval.
- A time quantum below 1 never expires in the model as in the code, except that the code's time_left would wrap after 2^31 slots.
- Termination of every interleaving: it depends on the scheduler of the host; Stopping says which CPUs leave after how many turns, ProtocolProgress that turns keep coming.
- Parsing of configuration and process files, printing, dumps and statistics: no logic of interest.
- The second barrier (signal_scheduling_done, wait_scheduling_barrier): never used.
- Sequential-access devices: every call on them returns -1.
- split_vm_area, merge_vm_areas, free_pcb_memph, alloc_pages_range: never called.
- init_pte, vmap_pgd_memset and vmap_page_range with frames: not on the path of any instruction the loader accepts.
- The running list is modelled as the code keeps it, but nothing is claimed of it: finished processes stay in it.
- src/mem.c, src/paging.c and src/mm.c: obsolete twins of the memory system.
- System call dispatch: the memory operations are direct calls.
- Failure of malloc for anything but page tables.
