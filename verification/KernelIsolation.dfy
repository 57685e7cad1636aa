// Isolation over whole runs: it lasts exactly as long as no FRAME_ALLOC fails after
// it has mapped a page.
module KernelIsolation {
  import opened Base
  import opened FramePool
  import opened Capability
  import opened AddressSpace
  import opened Machine
  import opened Syscalls
  import opened KernelSafety
  import opened KernelAuthority
  import opened KernelMemory
  import KernelRuns

  // The next step is a FRAME_ALLOC that is refused with pages already mapped.
  ghost predicate FailsTooLate(m: State, a: Action) {
    && Awake(m) && !m.halted && Cur(m).resume == InUser && a.FrameAlloc?
    && FailsAfterMapping(m, a.pages, a.capSlot, a.outPtr)
  }

  // ----- One step -----

  // A step keeps isolation if and only if it is not such a FRAME_ALLOC.
  lemma IsolationKeptIff(m: State, a: Action)
    requires TableOk(m) && AllLegitimate(m) && MemoryOk(m)
    ensures Awake(m) && (MemoryOk(Next(m, a)) <==> !FailsTooLate(m, a))
  {
    hide Syscall, RecvLoop, WaitLoop, WaitPidLoop, VmOk, FrameCapsSound, PagesEntitled, AllLegitimate,
      FailsAfterMapping, Explained;
    LegitimateBudgets(m);
    StepExplained(m, a);
    if !m.halted {
      match Cur(m).resume
      case InRecv(id, out, dst) =>
        KernelRuns.RecvMemory(m, id, out, dst);
        SameVmOk(m, a, Next(m, a));
      case InWait(id) =>
        KernelRuns.LoopMemory(m, id);
        SameVmOk(m, a, Next(m, a));
      case InWaitPid(target) =>
        KernelRuns.LoopMemory(m, target);
        SameVmOk(m, a, Next(m, a));
      case InUser => SyscallIsolationIff(m, a);
      case Abandoned =>
    }
  }

  lemma SyscallIsolationIff(m: State, a: Action)
    requires Awake(m) && TableOk(m) && AllLegitimate(m) && MemoryOk(m) && BudgetsFit(m) && Cur(m).resume == InUser
    requires Explained(m, a, Syscall(m, a).0)
    ensures MemoryOk(Syscall(m, a).0) <==> !(a.FrameAlloc? && FailsAfterMapping(m, a.pages, a.capSlot, a.outPtr))
  {
    hide SysFrameAlloc, SysDmaAlloc, SysMapFrame, SysIoMap, SysSbrk, SysGrant, SysSpawn, SysSpawnEnv, SysSend,
      SysRecv, SysSignal, SysWait,
      SysKill, SysWaitPid, SysGetStatus, Exit, YieldNow, Explained, BudgetsFit, VmOk, FrameCapsSound, PagesEntitled,
      AllLegitimate, FailsAfterMapping;
    match a
    case Spawn(_) => SpawnOk(m, a);
    case SpawnEnv(_, _, _) => SpawnOk(m, a);
    case FrameAlloc(_, _, _) => FrameAllocIff(m, a);
    case DmaAlloc(_, _) => DmaAllocOk(m, a);
    case MapFrame(_, _) => MapFrameOk(m, a);
    case IoMap(_, _) => IoMapOk(m, a);
    case Sbrk(_) => SbrkOk(m, a);
    case _ =>
      KernelRuns.SyscallMemory(m, a);
      SameVmOk(m, a, Syscall(m, a).0);
  }

  // ----- Whole runs -----

  lemma BootIsolated(m: State)
    requires Boot(m)
    ensures MemoryOk(m)
  {
    hide VmOk, CreateSpace, HoldsFrame, Extends;
    var first := m.procs[0];
    var before: Vm :| KernelOnly(before) && CreateSpace(before, m.image) == (m.vm, Some((first.space, first.entry)));
    CreateSpaceOk(before, m.image);
    forall p: nat, k: nat | HasCap(m, p, k)
      ensures FrameCapSound(m.vm, CapAt(m, p, k))
    {
      SeedsHaveNoFrames(0, k);
    }
    assert forall c :: !InFlight(m, c);
  }

  // No step of the run is a FRAME_ALLOC that fails too late.
  ghost predicate NeverTooLate(m: State, actions: seq<Action>) {
    forall k: nat :: k < |actions| ==> !FailsTooLate(After(m, actions[..k]), actions[k])
  }

  lemma NeverTooLateBefore(m: State, actions: seq<Action>)
    requires actions != [] && NeverTooLate(m, actions)
    ensures NeverTooLate(m, actions[..|actions| - 1])
  {
    hide After, FailsTooLate;
    var init := actions[..|actions| - 1];
    forall k: nat | k < |init|
      ensures !FailsTooLate(After(m, init[..k]), init[k])
    {
      assert init[..k] == actions[..k];
    }
  }

  // From boot, whatever the processes do short of that one failure, isolation
  // holds, and the running process always has its address space.
  lemma {:induction false} RunIsolated(m: State, actions: seq<Action>)
    requires Boot(m) && NeverTooLate(m, actions)
    ensures MemoryOk(After(m, actions)) && Awake(After(m, actions))
  {
    hide Next, AllLegitimate, TableOk, Boot, VmOk, FrameCapsSound, PagesEntitled, FailsTooLate;
    if actions == [] {
      BootIsolated(m);
      KernelRuns.RunSafe(m, []);
      Unforgeable(m, []);
      IsolationKeptIff(m, Yield);
    } else {
      var n := |actions| - 1;
      var init := actions[..n];
      NeverTooLateBefore(m, actions);
      RunIsolated(m, init);
      Unforgeable(m, init);
      assert !FailsTooLate(After(m, actions[..n]), actions[n]);
      IsolationKeptIff(After(m, init), actions[n]);
      Unforgeable(m, actions);
      IsolationKeptIff(After(m, actions), Yield);
    }
  }

  // Two processes of a reachable state that map the same RAM frame both hold a
  // Frame capability, which only FRAME_ALLOC mints, for a run containing it; and
  // no process maps a page table.
  lemma FramesSharedByDelegation(m: State, actions: seq<Action>, i: nat, j: nat, va: nat, vb: nat)
    requires Boot(m) && NeverTooLate(m, actions)
    requires var w := After(m, actions);
      && i < |w.procs| && j < |w.procs| && i != j
      && w.procs[i].space in w.vm.spaces && w.procs[j].space in w.vm.spaces
      && va in w.vm.spaces[w.procs[i].space].pages && vb in w.vm.spaces[w.procs[j].space].pages
      && w.vm.spaces[w.procs[i].space].pages[va].frame == w.vm.spaces[w.procs[j].space].pages[vb].frame
      && !InMmio(w.vm.spaces[w.procs[i].space].pages[va].frame)
    ensures var w := After(m, actions);
      var f := w.vm.spaces[w.procs[i].space].pages[va].frame;
      && (exists base, pages :: f in RunFrames(base, pages)
            && HoldsFrame(w.procs[i].caps, base, pages) && HoldsFrame(w.procs[j].caps, base, pages))
      && forall root :: root in w.vm.spaces ==> f != root && f !in w.vm.spaces[root].tables.Values
  {
    var w := After(m, actions);
    RunIsolated(m, actions);
    SharedOnlyByFrameCap(w, i, j, va, vb);
    forall root | root in w.vm.spaces
      ensures var f := w.vm.spaces[w.procs[i].space].pages[va].frame; f != root && f !in w.vm.spaces[root].tables.Values
    {
      NoTableMapped(w, i, va, root);
    }
  }

  // ----- What goes wrong otherwise -----

  lemma {:induction false} FreedIsFree(vm: Vm, base: nat, n: nat, f: nat)
    requires base % PAGE == 0 && (f in vm.pool.free || f in RunFrames(base, n))
    ensures f in FreeRun(vm, base, n).pool.free
    decreases n
  {
    if n > 0 {
      RunHead(base, n);
      var v := vm.(pool := Free(vm.pool, base), ledger := vm.ledger - {base});
      assert v.pool.free[|vm.pool.free|] == base;
      FreedIsFree(v, base + PAGE, n - 1, f);
    } else {
      NoFrames(base);
    }
  }

  // After such a failure some process still maps a frame that is on the free list.
  lemma TooLateFreesMappedFrame(m: State, a: Action)
    requires TableOk(m) && AllLegitimate(m) && MemoryOk(m) && FailsTooLate(m, a)
    ensures var w := Next(m, a);
      exists r, va :: r in w.vm.spaces && va in w.vm.spaces[r].pages && w.vm.spaces[r].pages[va].frame in w.vm.pool.free
  {
    hide VmOk, AllocRun, FreeRun, Charge, Refund, RunOk, RunGranted, SpaceGrown, NewPagesWithin, PagesEntitled,
      FrameCapsSound, FrameAllocMapped, FrameAllocMapOk, FrameAllocAccepted, MapPage, MapWindow, AllLegitimate,
      SysFrameAlloc;
    var base := AllocRun(m.vm, a.pages, None).1.value;
    FrameAllocMapping(m, a.pages);
    FrameAllocOutcome(m, a.pages, a.capSlot, a.outPtr);
    var mapped := FrameAllocMapped(m, a.pages).vm;
    RunIsAligned(mapped, base, a.pages);
    var r, va :| r in mapped.spaces && va in mapped.spaces[r].pages && !mapped.spaces[r].pages[va].device
      && mapped.spaces[r].pages[va].frame in RunFrames(base, a.pages);
    FreedIsFree(mapped, base, a.pages, mapped.spaces[r].pages[va].frame);
    var w := Next(m, a);
    assert w.vm == FreeRun(mapped, base, a.pages);
    assert w.vm.spaces == mapped.spaces;
  }

  // The first process can do it at once, by naming a slot that is already taken.
  lemma TooLateReachable(m: State, out: u64)
    requires Boot(m) && Awake(m) && AllocRun(m.vm, 1, None).1.Some? && Cur(m).space in AllocRun(m.vm, 1, None).0.spaces
    requires var (vm, run) := AllocRun(m.vm, 1, None);
      MapPage(vm, Cur(m).space, m.nextShared, UserPte(run.value, true, false)).1 == Mapped
    ensures FailsTooLate(m, FrameAlloc(1, 3, out))
  {
    hide CreateSpace, KernelOnly, AllocRun, MapPage, FrameAllocMapped, FrameAllocMapOk, UserBuffer;
    var caps := Cur(m).caps;
    assert caps == SeedCaps(0) && caps[3].Some? && caps[2] == Some(UntypedCap(DMA_BUDGET));
    assert !CanInsert(caps, 3);
    assert Charge(caps, 1 * PAGE).1 by { BudgetFound(caps, 2, PAGE); }
  }

  lemma BudgetFound(caps: Slots, k: nat, need: nat)
    requires k < |caps| && caps[k].Some? && caps[k].value.capType == Untyped && need <= caps[k].value.obj
    ensures Charge(caps, need).1
  {
  }
}
