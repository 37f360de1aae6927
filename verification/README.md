# Verified models of four course systems

A Dafny model of the stateful parts of a computer systems course: the paged virtual memory of Project 4, the
set-associative cache of Project 5, the multi-CPU scheduler and its simulator of Project 6, and the stop-and-wait
transport of Project 7. `dafny verify dfyconfig.toml` checks all of it.

Each system has a specification on values (datatypes and functions), results about every run of that specification,
and, since the programs work by updating arrays, lists and counters in place, classes whose methods have the
source's loops and leave exactly the state that the specification function gives.

**Virtual memory** (`Vm*.dfy`). Flat memory, TLB, page tables, reverse lookup table and swap list. The result is
`TransparentIff`: the five structures imitate one flat byte memory per process exactly when no eviction is lossy.
They do not always: a store that hits, in the TLB or in the page table, sets no dirty bit, although the comments in
`tlb-lookup.c` ask for it, and a restored page loses its swap copy. `LosingRunIsNotFlat` is such a run, and
`TransparentTrace` puts the condition in terms of the commands: what kind of access last faulted the victim in, and
what was last stored in it. The clock sweep, which always starts at frame 0, turns out to be a binary counter
(`EvictionVictim`). `RepeatHits` says when the TLB keeps what it was given (with every entry valid and used a fill
keeps nothing), and `Counters` what each statistic counts.

**Cache** (`Cache*.dfy`). `StackDistance` says exactly when an access hits; inclusion and conservation follow, and
`Counters` reads every statistic off the trace. The header comment of `cache_init` says there are 2^S sets; the code
allocates 2^(C-B-S) sets of 2^S blocks, and the model follows the code.

**Scheduler** (`Sched*.dfy`), three ways. `SchedPlaces` interleaves the handlers lock by lock and shows that every
process is in exactly one place; `SchedHistory` says what brought it there. `SchedState` and `SchedSim` take
handlers as atomic, with idle CPUs dispatching before the next event, and give the priority, termination and
round-robin results; `SchedDispatch` and `SchedOrder` say exactly who is dispatched, who is displaced and in which
order processes are served, in all three modes. A process does not always leave its CPU at the end of its slice: one
that is alone is put back and taken out again (`SliceEnds`, `LoneProcessOutlastsItsSlice`), and `BoundedHold` says
exactly how long it stays. `SchedMachine` and `SchedDriver` run the same handlers and the simulator's loops on
linked process control blocks. `os-sim.h` lets priorities range over 0..10; `gethighestone` starts from level 0 and,
with two or more processes queued that all have priority 0, returns an uninitialised pointer. `FindHighest` says
exactly when its loop finds nothing, and `TwoAtPriorityZero` is such a queue; the other results take priorities
1..10 in static priority mode, and any in the modes that do not read them. `submit_io_request` says it adds at the
head; it adds at the tail.

**Transport** (`Rtp*.dfy`). One message between the C sender and the C receiver with its exact content, and whole
conversations between the C client and the Python server with their phases. It is not true that at most one datagram
is in flight: the server sends its first reply packet right behind the ACK of the last packet, and the client its
next message right behind the ACK of the reply. `PhaseAgreement` says exactly when there are two.

Assumptions taken from the source's setting: the page size divides the 65536-byte address space and there are at
most 65536 frames; each process is forked once, before it is used; C > B + S and C - S <= 63, so that every shift is
below 64, and fewer than 2^64 accesses to a cache; `current[]` starts out NULL (it comes from `malloc`); the
simulator raises an event on a CPU only while that CPU's thread is in its RUNNING wait; programs alternate CPU and
I/O bursts, beginning and ending with CPU; the channel keeps order and loses nothing, and corrupts only checksums of
data packets; a C `char` is signed; the texts of whole conversations are 7-bit, for a packet with any other payload
fails the other side's check every time it is sent (`ClientPacketArrives`, `ServerPacketArrives`).

## Model

| member | source | states |
|---|---|---|
| VmTransparency.TransparentIff | Project-4-Virtual Memory/simulator-src/memory.c:24-63 | The law of the virtual memory: over a run of forks, switches, loads and stores, every load at every moment gives its process's last store to the address (0 if none), if and only if no command evicts a clean page whose bytes `page_from_disk` would not rebuild |
| VmTrace.TransparentTrace | Project-4-Virtual Memory/student-src/page-fault.c:46-91 | The same law with a condition read off the commands: the memory is flat throughout if and only if every page pushed out was last faulted in by a store, or has 0 as its process's last store all over it |
| VmTrace.DirtyIsStoreFaulted | Project-4-Virtual Memory/student-src/page-fault.c:76-79 | In every reachable state a resident page is dirty if and only if its last fault was taken by a store, whatever was stored since |
| VmTrace.SafeIsLossless | Project-4-Virtual Memory/student-src/page-fault.c:46-91 | Once flat, the next command loses nothing if and only if the trace says so |
| VmTransparency.StepBytes | Project-4-Virtual Memory/student-src/page-fault.c:46-91 | What one command does to the byte any process sees anywhere: a store sets its own byte, a lossy eviction zeroes the victim page, all else is unchanged |
| VmCorollaries.FittingRunIsFlat | Project-4-Virtual Memory/student-src/page-replacement.c:17-20 | When the touched pages fit in the frames the memory is flat, unconditionally |
| VmCorollaries.StoresFaultIsFlat | Project-4-Virtual Memory/student-src/page-fault.c:76-79 | When every fault is taken by a store every page is dirty when evicted, and the memory is flat |
| VmCorollaries.LosingRunIsNotFlat | Project-4-Virtual Memory/student-src/tlb-lookup.c:31-38 | A concrete run that loses a store: a store that hits the TLB never sets the dirty bit, so its page is thrown away |
| VmRuns.Run | Project-4-Virtual Memory/student-src/page-fault.c:30-91 | In every reachable state: `rlt` is the exact inverse of the valid entries of all page tables, the swap list has at most one copy of a page and none of a resident one, valid TLB entries are distinct and repeat the current page table, and exactly the first min(faults, frames) frames are in use |
| VmRuns.ExecKeepsInv | Project-4-Virtual Memory/simulator-src/memory.c:24-63 | Every fork, switch, load and store keeps that invariant |
| VmRuns.LoadEffect | Project-4-Virtual Memory/simulator-src/memory.c:24-40 | A load returns the byte its process sees at the address, even when it faults and evicts |
| VmRuns.StoreBytes | Project-4-Virtual Memory/simulator-src/memory.c:49-63 | A store changes the byte it names and no other byte of any process, except those of a page it loses |
| VmRuns.AddressSplits | Project-4-Virtual Memory/student-src/page-splitting.h:19-26 | Page number and offset put the address together, within the table and the page |
| VmRuns.SelectEffect | Project-4-Virtual Memory/simulator-src/process.c:71-77 | A switch changes no byte of any process and keeps the invariant by clearing the TLB |
| VmRuns.ForkEffect | Project-4-Virtual Memory/simulator-src/process.c:37-53 | A fork adds a process whose every page reads as zeros and keeps the invariant |
| VmAccess.TlbLookupEffect | Project-4-Virtual Memory/student-src/tlb-lookup.c:16-92 | The frame returned is the one in the page table, whether the lookup hits, misses or faults, also when the victim is another process's page of the same number; a fault counts once |
| VmAccess.TlbLookupPages | Project-4-Virtual Memory/student-src/tlb-lookup.c:16-92 | A translation keeps the bytes of every page of every process, but for a page it evicts lossily |
| VmAccess.PagetableLookupEffect | Project-4-Virtual Memory/student-src/page-lookup.c:13-32 | Returns the frame of a page that is then resident; changes nothing on a hit, counts one fault otherwise |
| VmAccess.FillKeepsCoherent | Project-4-Virtual Memory/student-src/tlb-lookup.c:50-80 | Filling an invalid or swept slot keeps the TLB entries distinct and in step with the page table |
| VmFault.FaultEffect | Project-4-Virtual Memory/student-src/page-fault.c:21-94 | The fault handler leaves the page resident in the frame it returns, keeps the invariant with one more frame in use, and only invalidates TLB entries |
| VmFault.FaultPages | Project-4-Virtual Memory/student-src/page-fault.c:46-91 | A fault keeps the bytes of every page but those of a victim that is clean and would not be rebuilt |
| VmFault.FaultEntries | Project-4-Virtual Memory/student-src/page-fault.c:54-79 | After a fault the page is resident, its dirty bit is the kind of access, and the victim is not resident |
| VmFault.FreeFrameEffect | Project-4-Virtual Memory/student-src/page-replacement.c:14-41 | With a free frame the lowest one is chosen and nothing changes; otherwise only used bits up to the victim are cleared |
| VmFault.RebuildPush | Project-4-Virtual Memory/simulator-src/swapfile.c:32-52 | A page saved to the swap list is what the next restore of that page gives, and no other page's restore changes |
| VmFault.RebuildRemove | Project-4-Virtual Memory/simulator-src/swapfile.c:64-91 | Unlinking a restored page changes no other page's restore |
| VmReplacement.ReplacementCounts | Project-4-Virtual Memory/student-src/page-replacement.c:26-37 | With all frames in use the used bits, read as a number, count the evictions (modulo the wrap), in every reachable state and whatever the accesses |
| VmReplacement.EvictionVictim | Project-4-Virtual Memory/student-src/page-replacement.c:26-37 | The k-th eviction takes the frame numbered by the trailing zeros of ((k - 1) mod (2^N - 1)) + 1 |
| VmReplacement.EvictionCounts | Project-4-Virtual Memory/student-src/page-replacement.c:26-37 | One sweep and the new page's used bit add one to the counter; the victim is its trailing zeros |
| VmTlb.FillLaw | Project-4-Virtual Memory/student-src/tlb-lookup.c:50-80 | Which slot a fill takes: the lowest invalid one, and no other slot changes; with none invalid the lowest unused one, the used bits before it being cleared; with none unused no slot, all used bits being cleared |
| VmTlb.LookupLaw | Project-4-Virtual Memory/student-src/tlb-lookup.c:16-92 | A lookup hits if and only if a valid entry has the page number, and then changes nothing but the count of hits; a miss counts none, drops the entries of the page number pushed out and fills the TLB with the translation |
| VmTlb.ExecTlb | Project-4-Virtual Memory/simulator-src/memory.c:24-63 | What each command does to the TLB: kept by forks, emptied when another process runs, unchanged by a hit, filled by a miss |
| VmTlb.RepeatHits | Project-4-Virtual Memory/student-src/tlb-lookup.c:31-80 | Repeating an access hits if and only if the first one hit or found a slot invalid or unused |
| VmCounts.SavedPages | Project-4-Virtual Memory/simulator-src/swapfile.c:32-92 | In every reachable state a page has a saved copy if and only if it is not resident and its last fault was taken by a store |
| VmCounts.Counters | Project-4-Virtual Memory/simulator-src/statistics.c:8-28 | After every run the five counters are the numbers of commands that fault, hit, load and store, and of pages pushed out whose last fault was a store plus pages faulted in whose previous fault was |
| VmSwapList.SwapList.Push | Project-4-Virtual Memory/simulator-src/swapfile.c:37-51 | On the linked list: a new node in front of the head |
| VmSwapList.SwapList.Take | Project-4-Virtual Memory/simulator-src/swapfile.c:61-91 | The walk with the node before finds the first saved copy of the page and unlinks it; without one it leaves the list alone |
| VmSwapList.SwapList.Bypass | Project-4-Virtual Memory/simulator-src/swapfile.c:84-89 | The head or the node before is pointed around the node, and the others stay chained in order |
| VmSwapList.SwapList.Unlink | Project-4-Virtual Memory/simulator-src/swapfile.c:84-91 | Exactly that node leaves the list |
| VmMachine.Machine.PageToDisk | Project-4-Virtual Memory/simulator-src/swapfile.c:32-52 | Saves a copy of the frame at the head of the linked swap list; the new state is that of the specification function |
| VmMachine.Machine.CopyIn | Project-4-Virtual Memory/simulator-src/swapfile.c:81 | The copying loop writes exactly the frame's bytes of the flat memory |
| VmMachine.Machine.PageFromDisk | Project-4-Virtual Memory/simulator-src/swapfile.c:61-92 | Restores the first saved copy and takes it off the linked list, or zeroes the frame; the new state is that of the specification function |
| VmMachine.Machine.GetFreeFrame | Project-4-Virtual Memory/student-src/page-replacement.c:14-41 | The two loops: the first free frame, else the sweep; the new state is that of the specification function |
| VmMachine.Machine.TlbClearAll | Project-4-Virtual Memory/simulator-src/tlb.c:17-25 | Invalidates every entry; the new state is that of the specification function |
| VmMachine.Machine.TlbClearOne | Project-4-Virtual Memory/simulator-src/tlb.c:33-43 | Invalidates exactly the entries of the page number; the new state is that of the specification function |
| VmMachine.Machine.Evict | Project-4-Virtual Memory/student-src/page-fault.c:46-57 | Saves a dirty victim, drops its mapping and its TLB entry; the new state is that of the specification function |
| VmMachine.Machine.PagefaultHandler | Project-4-Virtual Memory/student-src/page-fault.c:21-94 | The handler over the arrays; the new state is that of the specification function |
| VmMachine.Machine.PagetableLookup | Project-4-Virtual Memory/student-src/page-lookup.c:13-32 | The lookup over the arrays; the new state is that of the specification function |
| VmMachine.Machine.TlbFill | Project-4-Virtual Memory/student-src/tlb-lookup.c:50-80 | The two replacement loops; the new state is that of the specification function |
| VmMachine.Machine.TlbLookup | Project-4-Virtual Memory/student-src/tlb-lookup.c:16-92 | The search loop, the page-table reader, the fill; the new state is that of the specification function |
| VmMachine.Machine.MemLoad | Project-4-Virtual Memory/simulator-src/memory.c:24-40 | Reads the flat memory at frame times page size plus offset; the new state is that of the specification function |
| VmMachine.Machine.MemStore | Project-4-Virtual Memory/simulator-src/memory.c:49-63 | Writes the flat memory there; the new state is that of the specification function |
| VmMachine.Machine.ProcFork | Project-4-Virtual Memory/simulator-src/process.c:37-53 | Installs a new, all-invalid page table; the new state is that of the specification function |
| VmMachine.Machine.ProcSwitch | Project-4-Virtual Memory/simulator-src/process.c:71-77 | Sets the current process and clears the TLB; the new state is that of the specification function |
| VmMachine.Machine.Execute | Project-4-Virtual Memory/simulator-src/memory.c:24-63 | One command on the arrays: the new state is that of the specification, and a load gives what the process sees |
| VmMachine.Machine.constructor | Project-4-Virtual Memory/simulator-src/process.c:84-90 | Start-up: zeroed memory, empty tables |
| CacheAddress.ShiftsDivide | Project-5-Cache/cachesim.c:83-90 | The 64-bit shifts, with their wrap-around, are a quotient and a remainder |
| CacheAddress.AddressSplit | Project-5-Cache/cachesim.c:63-90 | address = tag * 2^(C-S) + index * 2^B + address mod 2^B, and the index is below the number of allocated sets |
| CacheAddress.SameBlock | Project-5-Cache/cachesim.c:83-90 | Two addresses share tag and index if and only if they lie in the same block |
| CacheLru.LruContents | Project-5-Cache/cachesim.c:94-218 | After every trace each set holds exactly the 2^S most recently used distinct tags of its index |
| CacheLru.StackDistance | Project-5-Cache/cachesim.c:94-218 | An access hits if and only if its block was used before and fewer than 2^S distinct other blocks of its set were used since |
| CacheLru.LruIsLast | Project-5-Cache/cachesim.c:129-144 | In a full set the block with the smallest timestamp holds the least recently used of the resident tags |
| CacheConservation.DirtyIffWritten | Project-5-Cache/cachesim.c:180-215 | A resident block is dirty if and only if it has been written since its last fill |
| CacheConservation.Conservation | Project-5-Cache/cachesim.c:153-218 | After every trace: misses = valid blocks + evictions; write-backs + dirty blocks = clean-to-dirty transitions <= writes; write-backs <= evictions |
| CacheConservation.LinesAreBlocks | Project-5-Cache/cachesim.c:94-110 | No two blocks hold the same line: the resident lines are as many as the valid blocks, and the dirty lines as the dirty blocks |
| CacheConservation.ResidentIsRecent | Project-5-Cache/cachesim.c:94-218 | A block is resident if and only if it is among the 2^S most recently used of its set |
| CacheInclusion.Inclusion | Project-5-Cache/cachesim.c:129-218 | The cache (C+k, S+k, B) always contains everything in (C, S, B) |
| CacheInclusion.DirtyInclusion | Project-5-Cache/cachesim.c:172-215 | It holds dirty everything the smaller one holds dirty |
| CacheInclusion.FewerMisses | Project-5-Cache/cachesim.c:153-218 | Its read misses and its write misses are each no more |
| CacheInclusion.FewerWriteBacks | Project-5-Cache/cachesim.c:172-206 | Its write-backs are no more |
| CacheCounts.Counters | Project-5-Cache/cachesim.c:153-218 | After every trace all six counters are counts of positions of the trace: accesses, reads, writes; read misses and write misses are the reads and the writes of a block not used before or with 2^S others of its set used since; write-backs are the misses whose set's oldest block has been written since it was brought in |
| CacheCounts.EvictsOldest | Project-5-Cache/cachesim.c:129-178 | A miss evicts if and only if some block of its set has exactly 2^S - 1 others used since, and evicts that one |
| CacheMachine.Simulator.GetBlock | Project-5-Cache/cachesim.c:94-110 | The search loop finds the valid block of the tag and stamps it, or finds none |
| CacheMachine.Simulator.FindInvalidBlock | Project-5-Cache/cachesim.c:113-127 | The first invalid block, stamped, or none |
| CacheMachine.Simulator.FindLruBlock | Project-5-Cache/cachesim.c:129-144 | The first block of smallest timestamp, stamped |
| CacheMachine.Simulator.Allocate | Project-5-Cache/cachesim.c:164-178 | The block to fill, with the write-back counted when a dirty block is evicted |
| CacheMachine.Simulator.CacheRead | Project-5-Cache/cachesim.c:155-186 | The read branch is one step of the specification |
| CacheMachine.Simulator.CacheWrite | Project-5-Cache/cachesim.c:188-216 | The write branch is one step of the specification |
| CacheMachine.Simulator.CacheAccess | Project-5-Cache/cachesim.c:153-218 | One access over the two-dimensional array is one step of the specification |
| CacheMachine.Simulator.constructor | Project-5-Cache/cachesim.c:35-60 | Initialisation gives a cache with no valid block |
| SchedState.HighestIsFirstMaximum | Project-6-Scheduling/student.c:84-104 | The process chosen has maximum priority, and every earlier one strictly less |
| SchedState.ScanFinds | Project-6-Scheduling/student.c:283-305 | The scan of `current[]` finds an idle CPU if there is one, else the first CPU that runs a process of the lowest priority below 10 |
| SchedInvariant.PreemptConsistent | Project-6-Scheduling/student.c:208-222 | Preempting keeps the process states, the queue and the CPUs consistent |
| SchedInvariant.WakeUpConsistent | Project-6-Scheduling/student.c:280-318 | So does waking up, with or without a forced preemption |
| SchedInvariant.PreemptOrdered | Project-6-Scheduling/student.c:208-222 | A timer preemption keeps every ready process at or below every running one |
| SchedInvariant.WakeUpOrdered | Project-6-Scheduling/student.c:280-318 | A wake-up keeps that order whenever no CPU is left idle |
| SchedInvariant.ForcePreemptOrdered | Project-6-Scheduling/student.c:308-312 | The woken process displaces the lowest running one and runs in its place, and the order holds |
| SchedSimInvariant.WakeUpOk | Project-6-Scheduling/student.c:280-318 | A wake-up keeps all of it: consistency, the order, the timers, and that no CPU is idle beside a ready process unless the woken one is the only one ready; no other process changes but between ready and running |
| SchedSimInvariant.LeaveOk | Project-6-Scheduling/student.c:232-262 | So do `yield` and `terminate` |
| SchedSimInvariant.RunKeepsInv | Project-6-Scheduling/os-sim.c:445-611 | The whole invariant of the simulation in every run and every mode |
| SchedSimInvariant.StateTellsPlace | Project-6-Scheduling/student.c:145-287 | In every run the state field of each process tells, both ways, where it is: new, queued once, on exactly one CPU, waiting with one I/O request, or at its end |
| SchedSimInvariant.StaticPriorityDispatch | Project-6-Scheduling/student.c:80-318 | In every run in static priority mode: either the last step just woke the only ready process, beside an idle CPU, or no CPU is idle beside a ready process and no ready process outranks a running one |
| SchedSimInvariant.UnsettledIsWoken | Project-6-Scheduling/student.c:280-318 | Only waking a process beside an idle CPU leaves a CPU idle beside a ready process, and that process is then the only one ready |
| SchedTermination.SimulateCpuWork | Project-6-Scheduling/os-sim.c:456-537 | A CPU's turn takes exactly one unit off the sum of (time + 1) still owed when it is busy, and none when it is idle |
| SchedTermination.SimulateIoWork | Project-6-Scheduling/os-sim.c:563-594 | So does the turn of a non-empty I/O queue |
| SchedTermination.AliveMeansWork | Project-6-Scheduling/os-sim.c:445-454 | While a created process has not terminated there is work to do in the tick |
| SchedTermination.SimulationTerminates | Project-6-Scheduling/os-sim.c:170-196 | For all alternating programs, any number of CPUs and any mode: at most the sum of (time + 1) over all bursts plus ten ticks for each process but the first and one; a run stops if and only if it is finished, with every process terminated |
| SchedRoundRobin.BoundedWait | Project-6-Scheduling/student.c:42-78 | Round robin on m CPUs: a ready process with i ahead of it waits at most (i + m) * slice / m ticks, and so at most (i + 1) * slice, whatever arrives or is preempted |
| SchedRoundRobin.LeavesForCpu | Project-6-Scheduling/student.c:145-174 | The step that takes a process out of the queue puts it on a CPU |
| SchedRoundRobin.SliceEnds | Project-6-Scheduling/os-sim.c:464-487 | When a slice ends within a burst the CPU gets a full slice, and its process stays on it if and only if no other is ready |
| SchedRoundRobin.BoundedHold | Project-6-Scheduling/os-sim.c:464-487 | In every run, the turns for which a process keeps a CPU are what its timer showed less what it shows, and a slice for every time it ran out with nothing else ready; it stays within its slice if and only if that never happens |
| SchedRoundRobin.LoneProcessOutlastsItsSlice | Project-6-Scheduling/student.c:208-222 | A run from the start in which a process that is alone keeps the CPU for two ticks with slices of one |
| SchedRoundRobin.WaitingStep | Project-6-Scheduling/student.c:208-222 | With a process ready and no CPU idle, a step changes at most the CPU whose turn it is, which keeps its process with its timer one lower or takes the head of the queue with a full slice; the queue loses only that head and grows at its tail |
| SchedDispatch.ScheduleLaw | Project-6-Scheduling/student.c:145-174 | `schedule` gives the CPU the first process of the queue or, with static priorities, the first of maximum priority, with a full slice, and keeps the order of the others |
| SchedDispatch.WakeUpLaw | Project-6-Scheduling/student.c:280-318 | A wake-up changes the CPUs if and only if priorities are static, all CPUs are busy and some process runs strictly below the woken one; then only the first CPU at the lowest running priority changes: the woken process runs on it and the displaced one is last in the queue; otherwise the woken one is |
| SchedDispatch.TurnLaw | Project-6-Scheduling/os-sim.c:456-537 | A CPU's turn: a tick of the burst, or the process queues up behind the others at the end of its slice, or leaves at the end of its burst; in the last two cases the CPU gets the next in the queue |
| SchedDispatch.LeavesIff | Project-6-Scheduling/os-sim.c:456-611 | Any step takes a process off its CPU if and only if, in its turn, its burst is over or its slice is and one that is ready goes before it, or one that is woken displaces it |
| SchedOrder.FirstComeFirstServed | Project-6-Scheduling/student.c:42-78 | Without static priorities, whatever the time slice: a step puts newcomers behind the queue, and either dispatches nothing or takes off the first process and puts that one on a CPU |
| SchedOrder.ServedInOrder | Project-6-Scheduling/student.c:62-126 | Over every run and in every mode: of two queued processes the one ahead (with static priorities: of higher priority, or of the same and ahead) leaves first |
| SchedOrder.RunsToCompletion | Project-6-Scheduling/os-sim.c:475-487 | Over every run without a time slice, a process leaves its CPU if and only if its burst is over or one that is woken displaces it; in FIFO mode that is the end of its burst |
| SchedOrder.CreatedByTheClock | Project-6-Scheduling/os-sim.c:596-611 | In every run the number of processes created by tick t is the smaller of all of them and t / 10 rounded up |
| SchedOrder.IoInOrder | Project-6-Scheduling/os-sim.c:539-594 | Over every run the I/O queue is served in order and in full: the k-th request is over after as many turns of the queue as it and those before it have ticks and one more for each, and not before |
| SchedOrder.StepIo | Project-6-Scheduling/os-sim.c:489-508 | Requests join at the tail, when a CPU burst that has an I/O burst behind it ends, for that process and that burst |
| SchedHistory.EndedIffTerminated | Project-6-Scheduling/os-sim.c:510-519 | Over every interleaving: a process has ended if and only if a terminate was raised on the CPU that ran it, and no CPU owns a process that has ended |
| SchedHistory.EndedForGood | Project-6-Scheduling/student.c:251-262 | Who has ended stays so in every extension of the run, and no CPU owns it again |
| SchedHistory.WaitingIffYielded | Project-6-Scheduling/os-sim.c:493-508 | A process waits for I/O if and only if the last event raised on it was a yield and it has not been taken from the I/O queue since |
| SchedHistory.BornInOrder | Project-6-Scheduling/os-sim.c:596-611 | Processes come into being in the order of their numbers |
| SchedHistory.IoInOrder | Project-6-Scheduling/os-sim.c:563-594 | However the threads interleave, I/O requests are taken in the order of their yields |
| SchedHistory.QueueKeepsOrder | Project-6-Scheduling/student.c:42-60 | However the threads interleave, processes that stay in the ready queue stay in their order: it grows at its tail only |
| SchedHistory.ToItsWait | Project-6-Scheduling/student.c:145-262 | Whatever the other threads do in between, each step of a thread brings it one nearer to its RUNNING wait or `idle` |
| SchedHistory.TakenRuns | Project-6-Scheduling/student.c:145-174 | What a thread has taken from the queue it runs three of its steps later, named by `current` and by the simulator; with nothing taken it is in `idle` |
| SchedPlaces.OnePlace | Project-6-Scheduling/student.c:42-287 | With the handlers interleaved lock by lock, every process is in exactly one place, once, in every reachable state |
| SchedPlaces.NeverTwice | Project-6-Scheduling/student.c:145-174 | No process is owned by two CPUs, nor by a CPU and by the queue, the I/O queue or the ended |
| SchedPlaces.HandlersFindTheirProcess | Project-6-Scheduling/student.c:208-262 | A handler finds in `current` the process the simulator ran; a thread is held up only in the RUNNING wait and in `idle` with nothing ready |
| SchedPlaces.RequeuedStillNamed | Project-6-Scheduling/student.c:217-218 | A reachable state in which `preempt` has put its process back in the queue and `current` still names it: being named by `current` is not owning |
| SchedPlaces.StepConserves | Project-6-Scheduling/student.c:42-287 | Every step of every thread leaves the number of places of every process as it was |
| SchedMachine.Kernel.AddQueue | Project-6-Scheduling/student.c:42-60 | On the linked list: appends at the tail |
| SchedMachine.Kernel.Get | Project-6-Scheduling/student.c:62-78 | Takes the head, or nothing from an empty list |
| SchedMachine.Kernel.Bypass | Project-6-Scheduling/student.c:109-121 | The head or the next pointer of the block before is pointed around the block, and the others stay linked in order |
| SchedMachine.Kernel.FindHighest | Project-6-Scheduling/student.c:84-105 | The first loop finds the first block of maximum priority; nothing if and only if all priorities are 0 |
| SchedMachine.Kernel.FindBefore | Project-6-Scheduling/student.c:115-119 | The second loop ends at the block before it |
| SchedMachine.Kernel.Unlink | Project-6-Scheduling/student.c:109-121 | Takes that block out and keeps the order of the rest |
| SchedMachine.Kernel.GetHighestOne | Project-6-Scheduling/student.c:80-126 | Removes exactly the first process of maximum priority |
| SchedMachine.Kernel.Schedule | Project-6-Scheduling/student.c:145-174 | Dispatches the picked process or the idle process |
| SchedMachine.Kernel.Preempt | Project-6-Scheduling/student.c:208-222 | Puts the process back, READY, and dispatches |
| SchedMachine.Kernel.Yield | Project-6-Scheduling/student.c:232-243 | Marks WAITING and dispatches |
| SchedMachine.Kernel.Terminate | Project-6-Scheduling/student.c:251-262 | Marks TERMINATED and dispatches |
| SchedMachine.Kernel.ScanCurrent | Project-6-Scheduling/student.c:283-305 | The loop over `current[]` with its early exit |
| SchedMachine.Kernel.ForcePreempt | Project-6-Scheduling/os-sim.c:402-426 | Preempts a CPU only if it runs a process |
| SchedMachine.Kernel.WakeUp | Project-6-Scheduling/student.c:280-318 | Queues the process and preempts the lowest CPU when it outranks it |
| SchedMachine.Kernel.Idle | Project-6-Scheduling/student.c:185-198 | Dispatches on an idle CPU |
| SchedMachine.Kernel.ContextSwitch | Project-6-Scheduling/os-sim.c:385-400 | Sets the simulator's process and timer of the one CPU |
| SchedMachine.Kernel.constructor | Project-6-Scheduling/student.c:362-374 | Empty queue and idle CPUs |
| SchedMachine.TwoAtPriorityZero | Project-6-Scheduling/student.c:84-105 | The failing input: with two processes of priority 0 queued the first loop of `gethighestone` finds none |
| SchedIoQueue.IoQueue.Submit | Project-6-Scheduling/os-sim.c:539-561 | On the linked list with head and tail: a new request behind the tail |
| SchedIoQueue.IoQueue.RunHead | Project-6-Scheduling/os-sim.c:568 | The head request runs for one tick |
| SchedIoQueue.IoQueue.RemoveHead | Project-6-Scheduling/os-sim.c:570-585 | The head request leaves the list, and the tail pointer with it when it was the only one |
| SchedDriver.Simulator.RunBurst | Project-6-Scheduling/os-sim.c:461-487 | One tick of a burst, with preemption when the timer reaches 0 |
| SchedDriver.Simulator.EndProcess | Project-6-Scheduling/os-sim.c:489-519 | The last burst is over: counted and terminated |
| SchedDriver.Simulator.StartIo | Project-6-Scheduling/os-sim.c:489-508 | The burst is over: an I/O request at the tail of the linked list and a yield |
| SchedDriver.Simulator.SimulateProcess | Project-6-Scheduling/os-sim.c:456-537 | A CPU's turn is that of the specification |
| SchedDriver.Simulator.SimulateIo | Project-6-Scheduling/os-sim.c:563-594 | The turn of the linked I/O queue is that of the specification |
| SchedDriver.Simulator.SimulateCreat | Project-6-Scheduling/os-sim.c:596-611 | Creation every tenth tick is that of the specification |
| SchedDriver.Simulator.Tick | Project-6-Scheduling/os-sim.c:187-191 | One pass of the loop is a run of the specification, with the idle CPUs' threads in between |
| SchedDriver.Simulator.Supervise | Project-6-Scheduling/os-sim.c:170-196 | The supervisor's loop ends, with every process terminated, within the bound on ticks |
| SchedDriver.Simulator.constructor | Project-6-Scheduling/os-sim.c:123-162 | The start of the simulation |
| RtpPackets.ChecksumsAgree | Project-7-Transport Layer Protocols/prj7-server.py:42-43 | The C sum of signed characters and the Python sum agree if and only if the text is 7-bit |
| RtpPackets.SumsAdd | Project-7-Transport Layer Protocols/rtp.c:61-78 | Both checksums add over concatenation |
| RtpPackets.SumsFollowBytes | Project-7-Transport Layer Protocols/prj7-server.py:42-43 | Replacing one byte changes the Python sum by the difference, and the C sum too if both bytes are 7-bit |
| RtpPackets.ChecksumGap | Project-7-Transport Layer Protocols/rtp.c:61-78 | The C sum is smaller by 256 for every byte that is not 7-bit |
| RtpPackets.RoundTrip | Project-7-Transport Layer Protocols/rtp.c:85-125 | The payloads put together give the message back, for every message |
| RtpPackets.PayloadsArePrefix | Project-7-Transport Layer Protocols/rtp.c:97-119 | The first k packets carry the first 10k bytes, or all |
| RtpPackets.PacketShape | Project-7-Transport Layer Protocols/rtp.c:85-125 | ceil(length / 10) packets, all but the last full, none empty, exactly the last marked LAST_DATA, lengths and checksums those of the payloads |
| RtpPackets.PacketizersAgree | Project-7-Transport Layer Protocols/prj7-server.py:45-55 | The C and the Python packetizer give the same packets if and only if the message is non-empty and 7-bit |
| RtpPackets.PyPacketShape | Project-7-Transport Layer Protocols/prj7-server.py:45-55 | The Python packets of every non-empty message are the C ones but for the checksums, which are the Python sums; an empty message has one empty packet |
| RtpPackets.Checksum | Project-7-Transport Layer Protocols/rtp.c:61-78 | The loop sums the signed characters of the given length |
| RtpPackets.Packetize | Project-7-Transport Layer Protocols/rtp.c:85-125 | The nested loops fill the packet array as specified |
| RtpPackets.PyPacketizeLoop | Project-7-Transport Layer Protocols/prj7-server.py:45-55 | The appending loop gives the packets as specified |
| RtpTransfer.RunKeepsInv | Project-7-Transport Layer Protocols/rtp.c:131-203 | Every send, receipt and reply of every run keeps the receiver's buffer the concatenation of the accepted packets and only the sender's current packet or its reply in flight |
| RtpTransfer.ExactlyOnce | Project-7-Transport Layer Protocols/rtp.c:131-203 | Under any corruption pattern the buffer is a prefix of the message at the sender's index, one packet ahead while an ACK is in flight; a run with c corruptions stops after exactly 3 * (packets + c) steps, with the exact message and both loops over |
| RtpTransfer.RunLength | Project-7-Transport Layer Protocols/rtp.c:131-203 | Steps so far plus steps still owed are three for every packet and every corruption |
| RtpTransfer.EmptyMessageStalls | Project-7-Transport Layer Protocols/rtp.c:137-147 | A run that can go no further leaves the receiver waiting if and only if the message is empty |
| RtpLink.Link.SendPacket | Project-7-Transport Layer Protocols/rtp.c:139 | The send is a step of the specification |
| RtpLink.Link.Joined | Project-7-Transport Layer Protocols/rtp.c:180-188 | The two copying loops join the buffer and the payload |
| RtpLink.Link.ReceivePacket | Project-7-Transport Layer Protocols/rtp.c:171-200 | One turn of the receiver's loop is a step of the specification |
| RtpLink.Link.TakeReply | Project-7-Transport Layer Protocols/rtp.c:141-147 | The reply and the step of the index are a step of the specification |
| RtpLink.Link.Round | Project-7-Transport Layer Protocols/rtp.c:137-147 | One round moves the index if and only if the packet was not corrupted |
| RtpLink.Link.Transfer | Project-7-Transport Layer Protocols/rtp.c:131-157 | The loop ends after packets + corruptions rounds with the exact message received and the receiver's loop over |
| RtpLink.Link.constructor | Project-7-Transport Layer Protocols/rtp.c:133-135 | The packets of the message, nothing sent |
| RtpPhases.RunKeepsAgree | Project-7-Transport Layer Protocols/prj7-server.py:60-117 | Every step of client or server, in every run, keeps the two sides agreed on phase, message number and packet index |
| RtpPhases.PhaseAgreement | Project-7-Transport Layer Protocols/client.c:37-53 | In every reachable state the sides agree, the server's invalid-type exits are not reached, at most two datagrams are in flight, and two if and only if both sides wait for a reply |
| RtpPhases.TwoInFlight | Project-7-Transport Layer Protocols/prj7-server.py:89-105 | A reachable state with two datagrams in flight |
| RtpPhases.ConversationFinishes | Project-7-Transport Layer Protocols/client.c:37-53 | For any number of messages and any corruptions: no deadlock, exactly three steps for every packet and every corruption, and at the end every message and reply has been transferred |
| RtpPhases.TalkOfMessages | Project-7-Transport Layer Protocols/prj7-server.py:45-55 | Messages and replies make a conversation if and only if none is empty |
| RtpPhases.ClientPacketArrives | Project-7-Transport Layer Protocols/prj7-server.py:42-43 | A client's packet of 7-bit text arrives with the right last mark and fails the server's check if and only if its checksum was changed; any other payload fails it unchanged |
| RtpPhases.ServerPacketArrives | Project-7-Transport Layer Protocols/rtp.c:175 | The same of a server's packet and the client's check |
| RtpPhases.StepTakesOne | Project-7-Transport Layer Protocols/rtp.c:131-203 | Each step takes one off the steps owed, and a corruption adds three |

## Left out

- Circuits, microcode and assembly of Projects 1 to 3: wiring, and per-instruction programs of fixed length.
- Argument parsing, reading of trace and reference files, printing, sockets, memory allocation and freeing: input and output.
- `miss_rate`, `avg_access_time` and the other statistics computed in floating point: quotients of the counters proved here.
- The Gantt chart with its counts of processes by state, and `context_switches`: sums over the states and dispatches modelled here.
- `getoffset`: a stub that returns 1.
- `set_number` and the loop indices of the cache as C `int`, and counters other than the LRU timestamp: taken as unbounded; they stay small for any cache that can be allocated.
- Forking a process that is already live, and access kinds other than 'r' and 'w': the source gives them no meaning.
- The inverted readers-writers lock as mutual exclusion: `idle` unlocks it without having locked it.
- Condition variables: each wait and signal is a rendezvous, spurious wake-ups are not modelled.
- `gethighestone` takes no lock; `SchedPlaces` takes its removal as one step and leaves open which process it takes.
- The `state` field in `SchedPlaces`: followed only with atomic handlers (`SchedSimInvariant.StateTellsPlace`).
- The messages printed when a blocked or terminated process is found on a CPU: `SchedSimInvariant.RunningHasBurst` shows they are not reached.
- The order in which idle CPUs wake up: the specification allows any; `SchedDriver.Simulator.DispatchIdle` takes them by number.
- Pig Latin, and the exact content the Python server receives: it strips NUL, 'x' and '0' from both ends of each payload, so content is proved for the C receiver.
- `runServer` and the client's `main` as loops: each is a step machine over the channel, since they run side by side; a receipt and the reply to it are one step.
- Empty messages in conversations: the C side sends no packet for one (`RtpTransfer.EmptyMessageStalls`) and the Python side sends one.
- RtpPhases.ConversationFinishes: counts packets and does not follow payloads beyond the check each side makes of them (`ClientPacketArrives`), because the reply's text is computed by the server from the message.
