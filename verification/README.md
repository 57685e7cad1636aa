# Xernel, verified

A Dafny model of the Xernel microkernel and of the file system and packet code of
its first user program, with proofs about every run, every input and every failure
the code allows for.

**The kernel** is a state (`Machine.State`) and a step relation
(`Syscalls.Next`). One step is the code that runs between two points at which
another process may run: system calls run with interrupts masked, and a timer
interrupt taken in ring 0 never switches process, so a step is a whole system call,
one turn of a `RECV`, `WAIT` or `WAIT_PID` loop, a timer tick in user mode, or a
fatal exception. Each process carries the place where it resumes (`Resume`). A
history of events (`log`) records what was sent, taken, signalled, reaped and
pinned; nothing in the code reads it. `KernelObjects.Kernel` is the same kernel as
an object with fields that its methods update, one method per function of
`process.rs` and `syscall.rs`; its `Step` is proved to compute `Syscalls.Step` from
every state with sound memory, so every theorem about runs of such states is a theorem
about the object. It also says what becomes of the bytes: of the frames issued before
a step, only the reply buffer of the call changes (`UserMemory`).

**Memory** is the frame allocator (`FrameAllocator.PhysFrameAllocator`), address
spaces drawn from it (`Memory.PhysicalMemory`, specified by `AddressSpace`) and an
array of bytes. A ledger, which the code does not have, records what each issued
frame was issued for; isolation is stated with it.

**The ELF loader** (`ElfLoader`) runs over those frames and bytes; what segments mean
is defined on its own in `ElfMeaning`, and the layout of the file is written down by an
encoder in `ElfFormat` (chapters 4 and 5 of the System V gABI), from which the loader is
proved to read back every field it uses.

**XernelFS** (`XernelFs`, `XernelFsDisk`) runs over a disk of 2048 sectors, any of
whose transfers may fail and any of whose failing writes may leave anything in its
sector.

**Checksums** (`Checksum`, `TcpFrame`) follow section 1 of RFC 1071, section 3.1 of
RFC 791 and section 3.1 of RFC 9293.

**What a call does** is stated in `KernelCalls` from its arguments and the state it
finds, apart from how it is done: its reply, its whole effect, and what the history of
the object it names gains. `KernelDelivery` and `KernelTurns` compose these laws over
whole runs: the receiver is given what the sender named, the waiter the bits signalled,
the collector the code of the exit, also when they had to wait; and whoever is ready
runs before a round of timer ticks is over.

**What a call needs** is stated with guards that can be evaluated before it:
`FrameCost` counts the tables missing on the way to a set of pages, and `KernelSupply`,
`KernelGrowth` and `KernelCreation` say exactly when FRAME_ALLOC, MAP_FRAME, IOMAP,
DMA_ALLOC, SBRK, SPAWN and SPAWN_ENV succeed.

Nine properties one would expect of this code do not hold of all its inputs. Each is
stated with the exact condition under which it does:

- FRAME_ALLOC unwinds by freeing its frames but leaves pages it has already mapped.
  `KernelIsolation.IsolationKeptIff`: a step keeps isolation if and only if it is not
  a FRAME_ALLOC that is refused after its first page went in. `TooLateFreesMappedFrame`
  shows what is left behind, `KernelWitness.TooLateExists` that it happens from a
  concrete initial state. `KernelSupply.TooLateIff` and `GuardsDecideIsolation` put the
  condition in terms of the state before the call: the run can be paid and granted, the
  first page can be mapped, and a later page, a table, the slot or the buffer is bad.
- IOMAP takes a page that is already mapped for success, so after an earlier IOMAP
  that failed half way it may return an address that shows another device's page.
  `KernelSharing.IoMapShowsIff`: it shows the pages asked for if and only if no page
  of its window already led elsewhere. `IoMapMisleads` gives the calls, and
  `KernelWitness.IoMapMisleadsExists` a run from boot that makes them.
- SBRK never unmaps, and a growth needs unmapped pages, so memory given back cannot be
  had again. `KernelGrowth.SbrkSucceedsIff`: it succeeds if and only if the new break is
  in range, the pages passed are unmapped and frames for them and their tables are left.
  `ShrinkSticks` and `HalfwaySticks`: lowering the break across a page, or a growth that
  ran out of memory after its first page, leave a page mapped where the next growth
  starts; `StuckForever`: such a heap never grows beyond that page again. The manual calls
  SBRK Unix `sbrk`. `KernelWitness.HeapStopsExists` is a run from boot.
- A process may be handed a capability that names itself and kill itself, after
  which it goes on running although it is terminated. `KernelLifecycle.LifeKeptIff`
  (`KernelWitness.SelfKillExists` is a run that gets there, `SelfKilledBlocksAgain`
  shows a terminated process become a waiting one).
- A refund goes to the first Untyped slot, not the one charged, and saturates.
  `Capability.ChargeThenRefund`: the total is restored if and only if the refund
  does not saturate. `RefundLosesBudget` is a table where it does; `SmallRefundFits`
  shows it never does in the kernel's own use.
- The loader gives a segment without memory image a page if its address is not page
  aligned. `ElfMeaning.CoversIff`: a page is mapped for a segment if and only if it
  meets the memory image or is the page of such an address (`EmptySegmentMapped`).
- A file whose name is empty or starts with a zero byte is created "successfully"
  and can never be found; its entry goes to the next file, whose name is then mixed
  with its remains. `XernelFsLaws.CreatedIff`, `BadNameNeverFound`, `BadNameRemains`.
- If only the last write of a file creation fails, the file is listed although the
  free pointer may not cover it. `XernelFsLaws.SuperLostIff`
  (`LostCommitOverwrites` shows the next file overwriting it, `LostCommitHappens` when
  this happens, `LostCommitExists` a disk on which it does).
- A memory map that lists a frame twice makes the allocator hand it out twice
  (`FrameAllocator.OverlapGivesTwice`). The constructor's promises hold if and only if no
  two regions overlap once rounded to whole frames.

Where the code and its comments differ the model follows the code: a message popped
by `RECV` is lost when the call then fails; `MAP_FRAME` and `DMA_ALLOC` that fail
half way leave their first pages mapped and their window counter where it was;
`DMA_ALLOC` that fails returns the budget but not the frames; the comment on
`EXIT_FAULT` says a program cannot exit with that code, but `exit` takes any 64-bit
code; the comment on `IOMAP` mappings does not say that mapping an already mapped
page counts as success, which it does.

## Model

| member | source | states |
|---|---|---|
| FramePool.BumpCorrect | Xernel/kernel/src/mm/frame.rs:62-75 | the cursor hands out an aligned run inside one region, none of whose frames was ever issued, freed or stepped over, and fails only when no frame is left ahead |
| FramePool.AllocCorrect | Xernel/kernel/src/mm/frame.rs:57-76 | a frame returned was usable and not issued; None only when free list and cursor are both exhausted |
| FramePool.AllocContiguousCorrect | Xernel/kernel/src/mm/frame.rs:81-99 | n adjacent frames of one region that were never issued before, none from the free list |
| FramePool.FreeCorrect | Xernel/kernel/src/mm/frame.rs:102-105 | freeing an outstanding frame keeps the four-way partition of the usable frames and makes that frame the next one allocated |
| FramePool.AllocConserves | Xernel/kernel/src/mm/frame.rs:57-76 | frames in use, free, skipped and still ahead always add up to all usable frames |
| FramePool.FreeConserves | Xernel/kernel/src/mm/frame.rs:102-105 | the same for free, so `in_use` is exactly the number of outstanding frames |
| FrameAllocator.AlignKeepsWholeFrames | Xernel/kernel/src/mm/frame.rs:38-43 | rounding the memory map keeps exactly the frames that lie wholly inside one of its regions |
| FrameAllocator.PhysFrameAllocator.constructor | Xernel/kernel/src/mm/frame.rs:38-54 | from any memory map: every frame ahead of the cursor, the right total, and all promises of the allocator if and only if no two rounded regions overlap |
| FrameAllocator.OverlapGivesTwice | Xernel/kernel/src/mm/frame.rs:38-75 | a map that lists one frame twice, and two allocations that return it |
| FrameAllocator.DisjointStays | Xernel/kernel/src/mm/frame.rs:38-43 | rounding never makes regions overlap that did not |
| FrameAllocator.PhysFrameAllocator.Alloc | Xernel/kernel/src/mm/frame.rs:57-76 | the object's update is the specified one and keeps conservation |
| FrameAllocator.PhysFrameAllocator.AllocContiguous | Xernel/kernel/src/mm/frame.rs:81-99 | likewise for a contiguous run |
| FrameAllocator.PhysFrameAllocator.Free | Xernel/kernel/src/mm/frame.rs:102-105 | likewise for free |
| AddressSpace.MapPageOk | Xernel/kernel/src/arch/x86_64/vspace.rs:70-91 | mapping adds at most that page to that space, takes table frames from the allocator, refuses an already mapped page, and keeps every space sound |
| AddressSpace.MapRangeOk | Xernel/kernel/src/syscall.rs:577-581 | a range mapping, complete or cut short, adds only pages leading into the given frames, to one space |
| AddressSpace.MapRangeMaps | Xernel/kernel/src/syscall.rs:577-583 | a complete one leads page k to frame k |
| AddressSpace.AllocMapAllOk | Xernel/kernel/src/arch/x86_64/vspace.rs:137-146 | backing pages gives the space frames private to it and changes no other space |
| AddressSpace.AllocMapAllExact | Xernel/kernel/src/arch/x86_64/vspace.rs:137-146 | when all could be backed, the space gained exactly those pages with the permissions asked for |
| AddressSpace.FreeRunSoundIff | Xernel/kernel/src/syscall.rs:601-609 | returning a run keeps the spaces sound if and only if nothing maps it any more |
| Memory.PhysicalMemory.MapPage | Xernel/kernel/src/arch/x86_64/paging.rs:57-70 | the page-table edit is the specified one |
| Memory.PhysicalMemory.MapRange | Xernel/kernel/src/syscall.rs:577-581 | the mapping loop computes the specified result, for cached and device pages |
| Memory.PhysicalMemory.AllocMapAll | Xernel/kernel/src/arch/x86_64/vspace.rs:137-146 | new pages are zero, each in a frame of its own that was not issued before, and no byte of an issued frame changes |
| Memory.PhysicalMemory.AllocRun | Xernel/kernel/src/syscall.rs:406-416 | a granted run is zeroed and recorded, and nothing else changes |
| Memory.PhysicalMemory.FreeRun | Xernel/kernel/src/syscall.rs:601-606 | the unwinding loop returns exactly the frames of the run |
| Memory.PhysicalMemory.UserRangeOk | Xernel/kernel/src/arch/x86_64/paging.rs:158-186 | true if and only if every byte of the range is on a present user page, writable if asked, and the range does not wrap |
| Capability.PortRangeExact | Xernel/kernel/src/cap.rs:41-59 | the packed range authorizes exactly the accesses all of whose port addresses lie in it |
| Capability.MmioRangeExact | Xernel/kernel/src/cap.rs:90-99 | a device memory capability authorizes exactly the non-empty ranges inside its own, and none if its own wraps |
| Capability.ChargeExact | Xernel/kernel/src/cap.rs:240-248 | a charge succeeds if and only if one slot covers it, and then takes exactly that amount from the total |
| Capability.ChargeThenRefund | Xernel/kernel/src/cap.rs:240-262 | for any table, charge then refund restores the total if and only if the refund does not saturate, even across slots |
| Capability.RefundLosesBudget | Xernel/kernel/src/cap.rs:253-262 | a table of two budgets that loses half of the 64-bit range by being charged and refunded |
| Capability.SmallRefundFits | Xernel/kernel/src/cap.rs:253-262 | amounts small against the budgets never saturate |
| CapabilityTable.CNode.Insert | Xernel/kernel/src/cap.rs:196-203 | fills an empty slot, never overwrites, and reports which error |
| CapabilityTable.CNode.Copy | Xernel/kernel/src/cap.rs:206-209 | succeeds exactly when there is something to copy and room for it |
| CapabilityTable.CNode.Delete | Xernel/kernel/src/cap.rs:212-215 | empties exactly that slot |
| CapabilityTable.CNode.AuthorizesPort | Xernel/kernel/src/cap.rs:220-225 | true if and only if some capability held authorizes the access |
| CapabilityTable.CNode.AuthorizesMmio | Xernel/kernel/src/cap.rs:229-234 | true if and only if some capability held authorizes the range |
| CapabilityTable.CNode.ChargeUntyped | Xernel/kernel/src/cap.rs:240-248 | the loop charges the first slot that can pay |
| CapabilityTable.CNode.RefundUntyped | Xernel/kernel/src/cap.rs:253-262 | the loop refunds the first Untyped slot |
| KernelCalls.SendDelivers | Xernel/kernel/src/syscall.rs:478-498 | SEND returns 0 if and only if its slot names an endpoint and the capability slot, if any, holds something; then exactly the word and that capability join the queue and the history of that endpoint, and exactly its blocked receivers become ready |
| KernelCalls.RecvTakes | Xernel/kernel/src/syscall.rs:510-524 | a RECV that finds a message, called or resumed, replies with its word and installs its capability exactly when slot and buffer are good; nothing else changes |
| KernelCalls.RecvParks | Xernel/kernel/src/syscall.rs:525-527 | on an empty queue it is parked with its own buffer and slot, blocked if another process can run, and the nearest ready one runs |
| KernelCalls.RecvRefused | Xernel/kernel/src/syscall.rs:506-509 | without an endpoint capability nothing changes |
| KernelCalls.SignalSets | Xernel/kernel/src/syscall.rs:533-545 | SIGNAL returns 0 if and only if its slot names a notification; then exactly the bits asked for join its word and history |
| KernelCalls.WaitTakes | Xernel/kernel/src/syscall.rs:556-558 | a WAIT that finds bits returns the word and clears it |
| KernelCalls.WaitParks | Xernel/kernel/src/syscall.rs:559-561 | otherwise it is parked on its notification |
| KernelCalls.WaitRefused | Xernel/kernel/src/syscall.rs:551-554 | without a notification capability it returns 0 bits and nothing changes |
| KernelCalls.YieldGivesWay | Xernel/kernel/src/process.rs:527-538 | a yield or timer tick changes no process and makes the nearest other ready process current; it stays exactly when there is none |
| KernelCalls.ExitEnds | Xernel/kernel/src/process.rs:598-642 | EXIT ends its caller with the code given, a fatal exception with 0x100; that code is recorded, and the nearest ready process runs or the machine halts |
| KernelCalls.KillEnds | Xernel/kernel/src/process.rs:696-723 | KILL returns 0 if and only if its handle names a living process other than PID 0; that process has then ended with the signal as its code, and nothing else changes |
| KernelCalls.StatusTells | Xernel/kernel/src/process.rs:500-516 | 0 for a process with no recorded end, 1 for one with, 2 for an unknown PID |
| KernelCalls.WaitPidReplies | Xernel/kernel/src/process.rs:728-756 | a WAIT_PID, called or resumed, replies with the one code recorded for its target if it has ended, is parked and gives way if it lives, and is refused for the caller itself or an unknown PID |
| KernelCalls.WaitPidParks | Xernel/kernel/src/process.rs:752-754 | the waiting turn: only the caller's place to resume changes, and the nearest other ready process runs |
| KernelCalls.WaitPidRefused | Xernel/kernel/src/process.rs:728-731 | without a handle, or for PID 0, nothing changes |
| KernelDelivery.MessageHandedOver | Xernel/kernel/src/syscall.rs:478-528 | in every run from boot: once all earlier messages are taken, the next receive is given the word and the capability that the SEND named |
| KernelDelivery.WaitedReceive | Xernel/kernel/src/syscall.rs:510-527 | a receiver that had to wait, whatever happened meanwhile, receives into the buffer and the slot of its own call, or waits on |
| KernelDelivery.SignalArrives | Xernel/kernel/src/syscall.rs:533-562 | in every run from boot: the next WAIT that looks at the notification returns, and with every bit the SIGNAL named |
| KernelDelivery.WaitedSignal | Xernel/kernel/src/syscall.rs:555-561 | a waiter that had to wait looks at its own notification again |
| KernelDelivery.ExitCodeArrives | Xernel/kernel/src/process.rs:598-756 | in every run from boot without self-kills: whoever waits for a process after it ended is told exactly the code of the EXIT, KILL or exception that ended it |
| KernelDelivery.WaitedCollector | Xernel/kernel/src/process.rs:728-756 | a collector that had to wait asks for the same process again |
| KernelDelivery.OthersKeepResume | Xernel/kernel/src/process.rs:344-356 | no step changes where another process resumes |
| KernelRuns.RunSafe | Xernel/kernel/src/process.rs:527-590 | in every reachable state: no lost wakeup, message order, signal accounting, PIDs equal table indices, and every process has its address space |
| KernelRuns.BlockedMeansNothingThere | Xernel/kernel/src/process.rs:557-590 | a process blocked on an endpoint is parked in RECV on it and its queue is empty; likewise for notifications and zero words |
| KernelRuns.DeliveredInOrder | Xernel/kernel/src/endpoint.rs:40-53 | the k-th message ever popped from an endpoint is the k-th ever sent to it, in every run |
| KernelRuns.RecvHandsOver | Xernel/kernel/src/syscall.rs:505-528 | a receive takes the oldest unpopped message for good and delivers its word and capability exactly when buffer and slot are good |
| KernelRuns.BitsAccounted | Xernel/kernel/src/notification.rs:27-47 | taken bits together with pending bits are exactly the signalled bits |
| KernelRuns.NoBitLost | Xernel/kernel/src/notification.rs:27-47 | the same in every reachable state, pending bits being the word itself |
| KernelRuns.WaitReturnsAllBits | Xernel/kernel/src/syscall.rs:550-562 | a WAIT that returns gives all bits signalled since the last take, never zero, and clears the word |
| KernelLifecycle.LifeKeptIff | Xernel/kernel/src/process.rs:614-755 | a step keeps lives in order (current process ready, codes recorded once, waiters told the truth) if and only if it is not a process killing itself |
| KernelLifecycle.SelfKillLeavesDoneRunning | Xernel/kernel/src/process.rs:696-723 | after killing itself a terminated process is still running in user mode |
| KernelLifecycle.SelfKillReachable | Xernel/kernel/src/syscall.rs:729-743 | spawn, grant the child its own handle, yield: now it can, from every boot state with memory for the child |
| KernelWitness.SelfKillExists | Xernel/kernel/src/syscall.rs:729-743 | such a run from a concrete initial state, without conditions |
| KernelLifecycle.SelfKilledBlocksAgain | Xernel/kernel/src/process.rs:557-574 | and by receiving it stops being terminated |
| KernelLifecycle.CleanRunKeepsLife | Xernel/kernel/src/process.rs:614-755 | without self-kills the life invariant holds throughout the run |
| KernelLifecycle.EndIsFinal | Xernel/kernel/src/process.rs:614-642 | then a terminated process stays terminated with the same code and never runs again |
| KernelLifecycle.WaiterToldTruth | Xernel/kernel/src/process.rs:728-756 | every collection in the history carries the one code recorded when its target ended, which never changes |
| KernelLifecycle.LivesFromBoot | Xernel/kernel/src/process.rs:614-756 | all of this from boot: in every run without self-kills, whoever has ended by any point of it never changes again, and every collection in the history carries the one code recorded |
| KernelLifecycle.PickNextFair | Xernel/kernel/src/process.rs:358-363 | the scheduler picks a process that is no further in the round than any given ready one |
| KernelLifecycle.NextCloser | Xernel/kernel/src/process.rs:527-574 | every switch brings a waiting ready process closer, up to the processes created meanwhile |
| KernelLifecycle.BoundedWaiting | Xernel/kernel/src/process.rs:358-363 | a ready process waits for fewer switches than its distance in the round plus the number of spawns |
| KernelTurns.TickGivesWay | Xernel/kernel/src/process.rs:527-538 | every yield, timer tick in user mode and turn of a WAIT_PID on a living process leaves all states alone and gives way to the nearest other ready process |
| KernelTurns.BoundedTicks | Xernel/kernel/src/process.rs:527-538 | over any run, a process that is ready all along and never current has seen fewer such steps than its distance in the round plus the number of spawns |
| KernelTurns.TickRound | Xernel/kernel/src/process.rs:358-363 | when every step is one, a ready process is current after at most as many steps as its distance |
| KernelAuthority.StepExplained | Xernel/kernel/src/process.rs:302-338 | after any step each capability in a table or queue was there before, is a seed of the process just created, is the handle or the granted run a call of its holder has just produced, or is a copy made by its holder; none is overwritten |
| KernelAuthority.Unforgeable | Xernel/kernel/src/process.rs:189-203 | in every reachable state only seeds, minted Frame and Process capabilities and their copies exist; endpoints and notifications named exist; Process capabilities name PIDs from 1 below the next |
| KernelAuthority.PortsConfined | Xernel/kernel/src/cap.rs:49-59 | every authorized port access lies in [0xc000, 0x10000) |
| KernelAuthority.MmioConfined | Xernel/kernel/src/syscall.rs:342-357 | every range IOMAP may map lies in [0xc0000000, 0x100000000) |
| KernelAuthority.NeverNamed | Xernel/kernel/src/process.rs:425-434 | a process nobody has a handle on never gets one, over any run |
| KernelAuthority.FreshChildUnnamed | Xernel/kernel/src/process.rs:408-434 | a child spawned without a handle slot is such a process |
| KernelAuthority.TargetsConfined | Xernel/kernel/src/syscall.rs:680-743 | cross-process calls never reach PID 0 or a process without a name |
| KernelAuthority.ChildOutOfReach | Xernel/kernel/src/process.rs:408-434 | after a spawn with slot u64::MAX no cross-process call in any continuation of the run is about that child |
| KernelDescent.EveryCapDescends | Xernel/kernel/src/process.rs:302-338 | every capability of every reachable state, in a table or in a queue, goes back through sends, receives and grants made by its holders to a seed of a process that was created or to what a successful SPAWN or FRAME_ALLOC gave its caller, only the amount of a budget changing on the way |
| KernelDescent.DescentIsMade | Xernel/kernel/src/process.rs:189-203 | so it equals, up to that amount, a seed of a process created by then, the capability for exactly the run a successful FRAME_ALLOC was granted, or the handle of a child actually created |
| KernelAuthority.GrantDelivers | Xernel/kernel/src/syscall.rs:729-743 | a grant succeeds if and only if handle, capability and free slot exist, and then changes exactly that slot of the process the handle names |
| KernelBudget.RootAuthorityStays | Xernel/kernel/src/process.rs:189-203 | device authority and budgets stay with the first process as long as nobody delegates them |
| KernelBudget.BudgetLedger | Xernel/kernel/src/syscall.rs:380-400 | remaining budget plus 4096 bytes for each page of a successful DMA_ALLOC or FRAME_ALLOC is the seed, in every run without delegation of budgets |
| KernelBudget.FrameAllocPays | Xernel/kernel/src/syscall.rs:591-633 | FRAME_ALLOC costs its caller 4096 bytes of budget a page if it succeeds and nothing if it is refused |
| KernelBudget.DmaAllocPays | Xernel/kernel/src/syscall.rs:380-435 | likewise DMA_ALLOC for the pages that hold the length asked for |
| KernelMemory.SharedOnlyByFrameCap | Xernel/kernel/src/syscall.rs:570-652 | two processes map one RAM frame only if both hold a Frame capability for a run containing it |
| KernelMemory.NoTableMapped | Xernel/kernel/src/arch/x86_64/paging.rs:36-41 | no user page leads to a page table |
| KernelMemory.FrameCapsApart | Xernel/kernel/src/cap.rs:129-135 | Frame capabilities name the same run or disjoint ones, inside one region; no frame they name is free or can be allocated again |
| KernelMemory.FirstPageDecides | Xernel/kernel/src/syscall.rs:570-584 | a mapping attempt leaves something mapped if and only if its first page went in |
| KernelMemory.FrameAllocIff | Xernel/kernel/src/syscall.rs:591-633 | FRAME_ALLOC keeps isolation if and only if it is not refused after its first page went in |
| KernelIsolation.IsolationKeptIff | Xernel/kernel/src/syscall.rs:591-633 | of all steps of the kernel, exactly those FRAME_ALLOCs break isolation |
| KernelIsolation.RunIsolated | Xernel/kernel/src/syscall.rs:406-435 | isolation in every run without such a failure |
| KernelIsolation.FramesSharedByDelegation | Xernel/kernel/src/syscall.rs:570-652 | in those runs a RAM frame is shared only by two holders of its Frame capability, and no process maps a page table |
| KernelIsolation.TooLateFreesMappedFrame | Xernel/kernel/src/syscall.rs:601-631 | after such a failure a process still maps a frame that is on the free list |
| KernelIsolation.TooLateReachable | Xernel/kernel/src/syscall.rs:626-631 | the first process can cause it at once by naming an occupied slot, from every boot state with a frame to grant and tables for it |
| KernelWitness.TooLateExists | Xernel/kernel/src/syscall.rs:626-631 | it does so in a concrete initial state, without conditions |
| FrameCost.MapRangeIff | Xernel/kernel/src/syscall.rs:570-584 | a range is mapped whole if and only if its pages are unmapped (device ranges skip mapped ones) and there is a frame for every table missing on the way to them; it has then gained exactly those pages and tables |
| FrameCost.AllocMapAllIff | Xernel/kernel/src/arch/x86_64/vspace.rs:137-146 | a plan is backed whole if and only if its pages are unmapped and distinct and there is a frame for each of them and each missing table |
| FrameCost.AllocMapAllExhausts | Xernel/kernel/src/arch/x86_64/vspace.rs:137-146 | unmapped and distinct pages are refused only when no frame is left |
| KernelSupply.RunThereIff | Xernel/kernel/src/mm/frame.rs:81-99 | a run is granted if and only if the cursor's region or a later one still has room for it |
| KernelSupply.FrameAllocSucceedsIff | Xernel/kernel/src/syscall.rs:591-633 | FRAME_ALLOC succeeds if and only if, before the call, it can be paid, a run is there, window and tables are to be had, the slot is free and each byte of the buffer is writable or in the window |
| KernelSupply.TooLateIff | Xernel/kernel/src/syscall.rs:601-631 | it fails too late if and only if all that is there for its first page and something is missing for the whole |
| KernelSupply.BadArgumentIsTooLate | Xernel/kernel/src/syscall.rs:622-631 | in particular whenever the slot or the buffer is bad |
| KernelSupply.GuardsDecideIsolation | Xernel/kernel/src/syscall.rs:591-633 | so these guards decide for every step whether isolation survives it |
| KernelSupply.MapFrameSucceedsIff | Xernel/kernel/src/syscall.rs:639-652 | MAP_FRAME succeeds if and only if slot, window, tables and buffer are good before the call |
| KernelSupply.IoMapSucceedsIff | Xernel/kernel/src/syscall.rs:342-372 | IOMAP succeeds if and only if length, authority, window and tables are good, whatever is mapped in the window |
| KernelSupply.DmaAllocSucceedsIff | Xernel/kernel/src/syscall.rs:380-435 | DMA_ALLOC succeeds if and only if length, budget, run, window, tables and buffer are good before the call |
| KernelCreation.CreateSpaceIff | Xernel/kernel/src/process.rs:151-158 | an address space is made if and only if the image is in order and there is a frame for the top table, each page of image and stack, and each table on the way; it has then exactly those pages and tables |
| KernelCreation.SpawnSucceedsIff | Xernel/kernel/src/process.rs:408-494 | SPAWN and SPAWN_ENV make a process if and only if image, frames, handle slot and environment are good before the call |
| KernelCreation.SpawnCreates | Xernel/kernel/src/process.rs:408-494 | the child has the PID replied, a space of its own, the encoded entry point, three seeds, its break and environment; its parent gets the handle in the slot named; nobody else changes; a refused call adds nobody |
| KernelCreation.BootSeeds | Xernel/kernel/src/process.rs:189-203 | the first process starts with exactly six capabilities |
| KernelCreation.StackIsThere | Xernel/kernel/src/process.rs:154-158 | a new space has sixteen writable, non-executable stack pages at 0x800000 |
| KernelCode.OnlyImageCode | Xernel/kernel/src/arch/x86_64/vspace.rs:70-91 | in every run: whatever page any process can execute, a loadable header of the image marks executable; nothing mapped later ever is |
| KernelWindows.OpensAdvances | Xernel/kernel/src/syscall.rs:570-584 | every successful mapping call reports its window's counter, which then points behind the pages mapped |
| KernelWindows.WindowsApart | Xernel/kernel/src/syscall.rs:570-584 | any two windows opened in a run, by whatever calls of whatever processes, are disjoint |
| KernelSharing.FrameAllocMaps | Xernel/kernel/src/syscall.rs:591-633 | a successful FRAME_ALLOC has mapped its whole run in order at the returned address and filled the slot with the capability for exactly that run |
| KernelSharing.MapFrameMaps | Xernel/kernel/src/syscall.rs:639-652 | a successful MAP_FRAME has mapped the whole run its capability names |
| KernelSharing.DmaAllocMaps | Xernel/kernel/src/syscall.rs:380-435 | a successful DMA_ALLOC has mapped a whole run that was never issued before, in order, at the address it reports with the run's own |
| KernelSharing.IoMapShowsIff | Xernel/kernel/src/syscall.rs:342-372 | a successful IOMAP shows the device pages asked for if and only if no page of its window already led elsewhere |
| KernelSharing.IoMapMisleads | Xernel/kernel/src/syscall.rs:362-372 | an IOMAP of two pages refused at its second, then an IOMAP of another device: accepted, same address, and it shows the first device's page |
| KernelWitness.IoMapMisleadsExists | Xernel/kernel/src/syscall.rs:342-372 | four calls of the first process, from a concrete initial state, that end so |
| KernelSharing.PagesStayMapped | Xernel/kernel/src/arch/x86_64/vspace.rs:70-91 | no step takes a page away from any address space |
| KernelSharing.SharedMemory | Xernel/kernel/src/syscall.rs:564-584 | once two processes have mapped a run, byte k of one window and byte k of the other are the same byte of RAM for ever |
| KernelHeap.SbrkBacks | Xernel/kernel/src/process.rs:759-787 | a successful SBRK returns the old break, moves it by exactly the amount asked and has backed every page below it; a refused one moves nothing |
| KernelHeap.RunHeaps | Xernel/kernel/src/process.rs:759-787 | in every run without a too late failure each process has all its heap backed, spawned environments included |
| KernelHeap.HeapUsable | Xernel/kernel/src/process.rs:759-787 | so every range below the break is mapped and writable, and the kernel accepts it as a buffer if it is at most 1 MiB and ends below the user limit |
| KernelGrowth.SbrkSucceedsIff | Xernel/kernel/src/process.rs:759-787 | SBRK succeeds if and only if it asks for nothing, or the new break is in range and the pages passed are unmapped and can be paid for with their tables |
| KernelGrowth.StuckRefuses | Xernel/kernel/src/process.rs:775-785 | with the first page above the break mapped, every growth to another page is refused, whatever memory is left |
| KernelGrowth.ShrinkSticks | Xernel/kernel/src/process.rs:767-787 | lowering the break succeeds and leaves the heap so if and only if it passes a page boundary (or it was so before) |
| KernelGrowth.HalfwaySticks | Xernel/kernel/src/process.rs:775-785 | a growth refused for want of memory leaves the heap so if and only if there was enough for its first page |
| KernelGrowth.StuckForever | Xernel/kernel/src/process.rs:759-787 | in every run without a too late failure such a heap stays so and its break never passes that page boundary again |
| KernelWitness.HeapStopsExists | Xernel/kernel/src/process.rs:759-787 | from a concrete initial state: a page granted, given back, and refused although memory is left |
| UserMemory.Store | Xernel/kernel/src/syscall.rs:520-526 | the bytes are stored through the mappings of the buffer; no other byte of RAM changes |
| UserMemory.MappedInRam | Xernel/kernel/src/arch/x86_64/paging.rs:158-186 | in sound memory every mapped byte outside device memory is a byte of RAM |
| UserMemory.SoundAligned | Xernel/kernel/src/arch/x86_64/paging.rs:57-70 | and frames are aligned, so that a reply is in its buffer in full |
| UserMemory.WordRoundTrip | Xernel/kernel/src/syscall.rs:520-526 | the eight bytes stored for a word give that word |
| KernelObjects.Kernel.PickNext | Xernel/kernel/src/process.rs:358-363 | the round-robin loop finds the specified process |
| KernelObjects.Kernel.BlockOn | Xernel/kernel/src/process.rs:557-574 | the specified state change, including the case with nobody else to run |
| KernelObjects.Kernel.Wake | Xernel/kernel/src/process.rs:581-590 | makes ready exactly the processes blocked for this reason |
| KernelObjects.Kernel.ExitInner | Xernel/kernel/src/process.rs:614-642 | the specified termination and switch |
| KernelObjects.Kernel.RecvTurn | Xernel/kernel/src/syscall.rs:510-527 | one turn of the receive loop; a message's word is in the buffer, and no other byte of an issued frame changes |
| KernelObjects.Kernel.WaitTurn | Xernel/kernel/src/syscall.rs:555-561 | one turn of the wait loop |
| KernelObjects.Kernel.UserBufferOk | Xernel/kernel/src/syscall.rs:291-310 | a buffer is accepted if and only if it is non-empty, not at 0, at most 1 MiB, below the user limit, mapped and writable |
| KernelObjects.Kernel.SysFrameAlloc | Xernel/kernel/src/syscall.rs:591-633 | charge, run, mapping, reply, capability and unwinding are the specified ones; on success the run named by the new capability is zero but for the reply, and of the frames issued before only the reply buffer changed |
| KernelObjects.Kernel.SysDmaAlloc | Xernel/kernel/src/syscall.rs:380-435 | likewise for DMA buffers, with both addresses in the reply buffer and the buffer zero but for them |
| KernelObjects.Kernel.SysSpawn | Xernel/kernel/src/process.rs:408-434 | a child added to the table holds the bytes of the image in every page of it; no byte of an issued frame changes |
| KernelObjects.Kernel.SysSpawnEnv | Xernel/kernel/src/process.rs:441-494 | on success the child holds the image, reads the parent's bytes at HEAP_START, then zeros up to its break at the next page boundary; no byte of an issued frame changes |
| KernelObjects.Kernel.Step | Xernel/kernel/src/syscall.rs:194-250 | from every state with sound memory the object computes the step relation; of the frames issued before, only the bytes of the caller's reply buffer change, and a reply's words are in it; if all promises about the state held, they survive if and only if the step is not a FRAME_ALLOC failing too late |
| KernelObjects.PromisesMean | Xernel/kernel/src/process.rs:527-590 | in a state in which the promises hold the next step can be taken |
| KernelObjects.StartKernel | Xernel/kernel/src/process.rs:366-396 | starts in a boot state in which all promises hold, the first process holding the bytes of the image, no byte of an issued frame changed |
| ElfFormat.ReadsLayout | Xernel/kernel/src/elf.rs:84-104 | from an image with an encoded file header and program header table the loader reads exactly the PT_LOAD headers, in order, with their fields, PF_W and PF_X, and the entry point |
| ElfFormat.LoadedPages | Xernel/kernel/src/elf.rs:106-142 | after a load of such an image exactly the pages its loadable headers ask for are new, in user mode, writable and executable exactly where such a header has PF_W or PF_X |
| ElfFormat.PresentBytes | Xernel/kernel/src/elf.rs:144-164 | where headers do not overlap, each address holds its header's file byte, or zero beyond the file size |
| ElfFormat.EntryReported | Xernel/kernel/src/elf.rs:84-84 | the entry point reported is the encoded one |
| ElfFormat.OnlyElfLoads | Xernel/kernel/src/elf.rs:73-82 | nothing else than a little-endian ELF64 file is loaded |
| ElfFormat.TableReadable | Xernel/kernel/src/elf.rs:90-104 | the table cannot be read if and only if some header is cut off by the end of the image |
| ElfMeaning.PlanMeaning | Xernel/kernel/src/elf.rs:106-127 | the plan lists each covered page once, in order, with the joined permissions of the segments that cover it |
| ElfMeaning.CoversIff | Xernel/kernel/src/elf.rs:109-117 | for every segment, a page is covered if and only if it meets the memory image, or the image is empty and its unaligned address lies in the page |
| ElfMeaning.EmptySegmentMapped | Xernel/kernel/src/elf.rs:109-126 | such an empty segment gets a page |
| ElfMeaning.LastSegmentWins | Xernel/kernel/src/elf.rs:144-164 | a byte covered by several file ranges comes from the last of them |
| ElfMeaning.ProgramHeaderRule | Xernel/kernel/src/elf.rs:144-164 | with disjoint images and filesz at most memsz, memory is file bytes followed by zeros |
| ElfMeaning.FileFitsCopyable | Xernel/kernel/src/elf.rs:144-164 | such a segment is always copied; only a lack of memory can stop the load |
| ElfLoader.CollectSegments | Xernel/kernel/src/elf.rs:88-104 | exactly the loadable headers, in order, or an error if one is unreadable |
| ElfLoader.PlanPages | Xernel/kernel/src/elf.rs:106-127 | the specified plan, or an error when an address overflows |
| ElfLoader.CopySegment | Xernel/kernel/src/elf.rs:145-164 | succeeds if and only if image and pages hold the whole file range, and then the memory is that of the segments so far |
| ElfLoader.Load | Xernel/kernel/src/elf.rs:72-166 | on success exactly the covered pages were added, with joined permissions, and every byte of them is the flat image's; no other issued frame changed |
| Spawning.CreateSpace | Xernel/kernel/src/process.rs:151-158 | a new space holding the image's bytes and a stack, no issued frame touched |
| Spawning.CopyEnvironment | Xernel/kernel/src/process.rs:459-483 | the page-by-page copy gives the child every byte of the block and zeros after it |
| KernelProgress.AllocProgress | Xernel/kernel/src/mm/frame.rs:57-76 | a frame is granted if and only if one is free or still ahead, and costs exactly one |
| KernelProgress.AllocMapAllProgress | Xernel/kernel/src/arch/x86_64/vspace.rs:137-146 | four frames a page are enough to back any plan of distinct unmapped pages |
| KernelProgress.CreateSucceeds | Xernel/kernel/src/process.rs:151-158 | a process can be created whenever there are that many frames and the image is in order |
| KernelWitness.BootExists | Xernel/kernel/src/process.rs:366-396 | there are states in which the kernel starts |
| XernelFs.Rd32OfLe32 | Xernel/userland/init/src/main.rs:435-441 | reading back a number written to a buffer |
| XernelFsLaws.FormatOk | Xernel/userland/init/src/main.rs:445-453 | a format that reports success leaves a sound, empty file system with version 1, 2048 sectors and free pointer 3 |
| XernelFsLaws.FillEntryEffect | Xernel/userland/init/src/main.rs:492-497 | a free entry takes the padded name, size and start; no other entry changes; it counts as used if and only if the name is findable |
| XernelFsLaws.FailureIsSafe | Xernel/userland/init/src/main.rs:457-500 | a creation that fails before its directory write takes effect leaves every file and the invariant alone |
| XernelFsLaws.CreatedIff | Xernel/userland/init/src/main.rs:457-506 | a successful creation keeps the extents disjoint and lists exactly the one new file if and only if its name is findable |
| XernelFsLaws.SuperLostIff | Xernel/userland/init/src/main.rs:502-505 | when only the last write fails the file is listed, and the invariant holds if and only if the superblock on disk covers it |
| XernelFsLaws.LostCommitOverwrites | Xernel/userland/init/src/main.rs:502-505 | otherwise the next file overwrites its first byte |
| XernelFsLaws.LostCommitHappens | Xernel/userland/init/src/main.rs:457-506 | on every sound disk with room, when the fifth request of a one-sector creation is lost |
| XernelFsLaws.LostCommitExists | Xernel/userland/init/src/main.rs:457-506 | a disk, two names and two contents for which it happens |
| XernelFsLaws.CreatesIfRoom | Xernel/userland/init/src/main.rs:468-475 | without transfer errors a creation succeeds if and only if there is a free entry and enough sectors |
| XernelFsLaws.BadNameNeverFound | Xernel/userland/init/src/main.rs:509-521 | an empty or zero-first name is never found in any directory |
| XernelFsLaws.BadNameRemains | Xernel/userland/init/src/main.rs:468-495 | the entry of such a file goes to the next one, under its name followed by what the old name leaves uncovered |
| XernelFsLaws.ReadIsLookup | Xernel/userland/init/src/main.rs:525-547 | a read reports the size of the first file listed under the padded name, nothing if there is none |
| XernelFsLaws.ReadDelivers | Xernel/userland/init/src/main.rs:531-545 | with room enough the buffer holds exactly the file's bytes and keeps its own after them |
| XernelFsLaws.RoundTrip | Xernel/userland/init/src/main.rs:445-547 | after a format and any creations that succeed with findable names or fail early, a name reads back the first file created under it, its size and exactly its bytes, whatever came later |
| XernelFsLaws.ServeTellsTruth | Xernel/userland/init/src/main.rs:595-640 | the file service reports the number of files, their sizes, names and bytes |
| XernelFsDisk.Blk.Transfer | Xernel/userland/init/src/main.rs:347-410 | one sector moves between disk and buffer, or the transfer fails and a read leaves the buffer alone |
| XernelFsDisk.FsFormat | Xernel/userland/init/src/main.rs:445-453 | the two writes are the specified ones |
| XernelFsDisk.FsCreate | Xernel/userland/init/src/main.rs:457-506 | every stage, success and failure, is the specified one |
| XernelFsDisk.FsFind | Xernel/userland/init/src/main.rs:509-521 | the search finds the first used entry with the padded name |
| XernelFsDisk.FsRead | Xernel/userland/init/src/main.rs:525-547 | every whole chunk that fits the buffer is delivered, and no other byte changes |
| XernelFsDisk.ServeOne | Xernel/userland/init/src/main.rs:595-640 | each request is answered as specified |
| XernelFsDisk.ReadByIndex | Xernel/userland/init/src/main.rs:645-653 | reads the first file with the name of the given entry |
| Checksum.FoldIsResidue | Xernel/userland/init/src/main.rs:1138-1140 | folding is the residue modulo 65535, with 65535 standing for its positive multiples |
| Checksum.AccumulatorBound | Xernel/userland/init/src/main.rs:1129-1137 | no buffer of n words overflows the 32-bit sum if and only if n is at most 65537 |
| Checksum.StoredVerifies | Xernel/userland/init/src/main.rs:1128-1142 | storing the checksum in its zeroed field, at any even offset, makes the checksum zero |
| Checksum.OneWordDetected | Xernel/userland/init/src/main.rs:1128-1142 | a changed word goes unnoticed if and only if the words agree modulo 65535 and the sum is not zero |
| Checksum.InetChecksum | Xernel/userland/init/src/main.rs:1128-1142 | the loops compute it without overflow and terminate |
| TcpFrame.TcpChecksum | Xernel/userland/init/src/main.rs:1322-1332 | the checksum over pseudo-header and segment |
| TcpFrame.Build | Xernel/userland/init/src/main.rs:1337-1384 | a receiver that checks both checksums reads back exactly the addresses, ports, numbers, flags and data given, window 0x4000, identification 0x4200, TTL 64, for any payload of at most 64 bytes |

## Left out

- Process records and their capability tables are values inside `KernelObjects.Kernel`, so sharing between records is not expressed; the table object of `cap.rs` is modelled on its own as `CapabilityTable.CNode`, and the kernel object uses the functions it is proved against.
- KernelObjects.Kernel.Step: is stated for states with sound memory; after a FRAME_ALLOC that fails too late only the value-level step relation describes what follows.
- FrameAllocator.PhysFrameAllocator.constructor: promises nothing more of a memory map with overlapping regions; that the regions a boot loader reports are pairwise disjoint is assumed everywhere else.
- FrameAllocator.PhysFrameAllocator.Free: requires an outstanding frame, as the comment on `free` asks; freeing any other address would break the partition.
- Page-table walks: a space is a map from page to frame and flags plus the intermediate tables drawn from the allocator; huge pages and the bits of an entry are not modelled, nor is the shared kernel half.
- Addresses outside the canonical range, and header arithmetic that overflows 64 bits beyond the checked sum of address and size, where the code panics or wraps, are not modelled.
- Stores made by user programs are not steps: a run is a sequence of system calls, timer ticks and exceptions. As long as isolation holds (in every `NeverTooLate` run) such stores reach no page table and nothing the step relation reads, so the theorems carry over to the machine. After a FRAME_ALLOC that fails too late a process can write a frame that later becomes a page table; from then on `RunSafe`, `Unforgeable` and `BoundedWaiting` are statements about the step relation only.
- Usable RAM is assumed disjoint from the 32-bit PCI memory hole; what device memory holds is a parameter.
- The first process only: `NUM_PROCESSES` is 1 in the code.
- The halt after the last process exits is a flag.
- Registers and kernel stacks: a process carries its entry point and the place where it resumes, not its stack pointers.
- Port input and output: the authority check is modelled, the effect is not. Framebuffer, keyboard, serial console and log calls are not modelled, checks included.
- Capability inspection, PID and memory statistics queries: they only read.
- virtio rings, ARP, DHCP, the TCP handshake and the socket service: they depend on a device or a peer; a sector transfer is one operation that may fail, a sector number beyond the disk always fails.
- `fs_list` and `fs_setup` print and call what is modelled.
- A data buffer of 4 GiB or more, whose size would be truncated, cannot fit the disk.
- `unmap_user`, `frame_ref.rs`, `sched.rs`, `ipc.rs` and the demos are not reached by any modelled call.
