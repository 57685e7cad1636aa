// The heap: every byte below a process's break is on a page it may write.
module KernelHeap {
  import opened Base
  import opened FramePool
  import opened Capability
  import opened AddressSpace
  import opened Machine
  import opened Syscalls
  import opened KernelSafety
  import opened KernelAuthority
  import opened KernelMemory
  import opened KernelIsolation
  import opened KernelSharing
  import KernelRuns

  // No break is ever higher: SBRK stops at HEAP_MAX, and an environment block is a
  // range of user addresses.
  const BREAK_MAX: nat := HEAP_START + USER_ADDR_MAX

  // The pages from HEAP_START up to the one holding the last byte below `brk`.
  ghost predicate HeapBacked(space: Space, brk: nat) {
    && brk <= BREAK_MAX
    && forall page: nat :: page % PAGE == 0 && HEAP_START <= page < PageUp(brk) ==> UserPage(space, page, true)
  }

  ghost predicate HeapsBacked(m: State) {
    forall i :: 0 <= i < |m.procs| ==>
      m.procs[i].space in m.vm.spaces && HeapBacked(m.vm.spaces[m.procs[i].space], m.procs[i].heapBreak)
  }

  // A process may read and write every byte of its heap, and the kernel accepts
  // every range of it that a system call may pass at all.
  lemma HeapUsable(m: State, i: nat, ptr: nat, len: nat)
    requires HeapsBacked(m) && i < |m.procs| && HEAP_START <= ptr && ptr + len <= m.procs[i].heapBreak
    ensures m.procs[i].space in m.vm.spaces && UserRange(m.vm.spaces[m.procs[i].space], ptr, len, true)
    ensures i == m.current && 0 < len <= MAX_WRITE && ptr + len <= USER_ADDR_MAX ==> UserBuffer(m, ptr, len)
  {
    var space := m.vm.spaces[m.procs[i].space];
    forall a: nat | ptr <= a < ptr + len
      ensures UserByte(space, a, true)
    {
      var page := PageDown(a);
      assert page % PAGE == 0 && HEAP_START <= page < PageUp(m.procs[i].heapBreak);
      assert UserPage(space, page, true);
    }
  }

  // ----- Steps -----

  ghost predicate BreaksKept(m: State, w: State) {
    && |m.procs| <= |w.procs|
    && (forall i :: 0 <= i < |m.procs| ==>
            w.procs[i].space == m.procs[i].space && w.procs[i].heapBreak == m.procs[i].heapBreak)
    && (forall i :: |m.procs| <= i < |w.procs| ==>
            w.procs[i].space in w.vm.spaces && HeapBacked(w.vm.spaces[w.procs[i].space], w.procs[i].heapBreak))
  }

  lemma KeptHeaps(m: State, w: State)
    requires HeapsBacked(m) && BreaksKept(m, w) && PagesStay(m.vm, w.vm) && m.vm.spaces.Keys <= w.vm.spaces.Keys
    ensures HeapsBacked(w)
  {
    hide PageUp;
    forall i | 0 <= i < |w.procs|
      ensures w.procs[i].space in w.vm.spaces && HeapBacked(w.vm.spaces[w.procs[i].space], w.procs[i].heapBreak)
    {
      if i < |m.procs| {
        assert m.procs[i].space in m.vm.spaces.Keys;
        HeapLater(m.vm, w.vm, m.procs[i].space, m.procs[i].heapBreak);
      }
    }
  }

  lemma HeapLater(v: Vm, w: Vm, root: nat, brk: nat)
    requires PagesStay(v, w) && root in v.spaces && root in w.spaces && HeapBacked(v.spaces[root], brk)
    ensures HeapBacked(w.spaces[root], brk)
  {
    hide PageUp;
    forall page: nat | page % PAGE == 0 && HEAP_START <= page < PageUp(brk)
      ensures UserPage(w.spaces[root], page, true)
    {
      assert UserPage(v.spaces[root], page, true);
    }
  }

  lemma MappingBreaks(m: State, a: Action)
    requires Awake(m) && (a.MapFrame? || a.IoMap?)
    ensures BreaksKept(m, Syscall(m, a).0)
  {
    hide MapWindow, UserBuffer, PageDown, DivCeil, SlotsAuthorizeMmio, Get, HeapBacked;
  }

  lemma DmaBreaks(m: State, len: nat, outPtr: nat)
    requires Awake(m)
    ensures BreaksKept(m, SysDmaAlloc(m, len, outPtr).0)
  {
    hide AllocContiguous, MapWindow, Charge, Refund, UserBuffer, DivCeil, Record, HeapBacked;
  }

  lemma FrameAllocBreaks(m: State, pages: nat, capSlot: nat, outPtr: nat)
    requires Awake(m)
    ensures BreaksKept(m, SysFrameAlloc(m, pages, capSlot, outPtr).0)
  {
    hide AllocContiguous, MapWindow, Charge, Refund, UserBuffer, Insert, Record, FreeRun, HeapBacked;
  }

  lemma AddChildBreaks(m: State, c: State, child: Proc, capSlot: nat)
    requires Running(m) && c == m.(vm := c.vm) && child.space in c.vm.spaces
    requires HeapBacked(c.vm.spaces[child.space], child.heapBreak)
    ensures BreaksKept(m, AddChild(c, child, capSlot).0)
  {
    hide Insert, HeapBacked;
  }

  lemma EmptyHeap(space: Space)
    ensures HeapBacked(space, HEAP_START)
  {
    assert PageUp(HEAP_START) == HEAP_START;
  }

  lemma VmOnlyBreaks(m: State, v: Vm)
    ensures BreaksKept(m, m.(vm := v))
  {
  }

  lemma SpawnBreaks(m: State, capSlot: nat)
    requires Awake(m)
    ensures BreaksKept(m, SysSpawn(m, capSlot).0)
  {
    hide CreateSpace, SeedCaps, AddChild, BreaksKept, HeapBacked;
    var (vm, made) := CreateSpace(m.vm, m.image);
    VmOnlyBreaks(m, vm);
    if made.Some? {
      EmptyHeap(vm.spaces[made.value.0]);
      AddChildBreaks(m, m.(vm := vm), NewProc(m.nextPid, made.value.0, made.value.1), capSlot);
    }
  }

  // A backed block of whole pages from HEAP_START on is a heap.
  lemma BlockIsHeap(v: Vm, root: nat, pages: nat)
    requires VmOk(v) && root in v.spaces && AllocMapAll(v, root, DataPages(HEAP_START, pages)).1 == Backed
    requires pages * PAGE <= USER_ADDR_MAX
    ensures HeapBacked(AllocMapAll(v, root, DataPages(HEAP_START, pages)).0.spaces[root], HEAP_START + pages * PAGE)
  {
    hide VmOk, AllocMapAll, PlanDone, HeapBacked;
    var plans := DataPages(HEAP_START, pages);
    assert |plans| == pages;
    hide DataPages;
    AllocMapAllExact(v, root, plans);
    PlansAreHeap(AllocMapAll(v, root, plans).0, root, HEAP_START, pages, HEAP_START + pages * PAGE);
  }

  lemma PlansAreHeap(w: Vm, root: nat, from: nat, pages: nat, to: nat)
    requires root in w.spaces && from % PAGE == 0 && to == from + pages * PAGE
    requires forall i :: 0 <= i < pages ==> PlanDone(w, root, DataPages(from, pages)[i])
    ensures forall page: nat :: page % PAGE == 0 && from <= page < to ==> UserPage(w.spaces[root], page, true)
    ensures from == HEAP_START && to <= BREAK_MAX ==> HeapBacked(w.spaces[root], to)
  {
    forall page: nat | page % PAGE == 0 && from <= page < to
      ensures UserPage(w.spaces[root], page, true)
    {
      var i := (page - from) / PAGE;
      assert page == from + i * PAGE && i < pages;
      assert PlanDone(w, root, DataPages(from, pages)[i]);
    }
    assert from == HEAP_START ==> PageUp(to) == to;
  }

  lemma BlockFits(len: nat)
    requires len < USER_ADDR_MAX
    ensures DivCeil(len, PAGE) * PAGE <= USER_ADDR_MAX
  {
  }

  lemma SpawnEnvBreaks(m: State, envp: nat, len: nat, capSlot: nat)
    requires Awake(m) && MemoryOk(m)
    ensures BreaksKept(m, SysSpawnEnv(m, envp, len, capSlot).0)
  {
    hide CreateSpace, AllocMapAll, SeedCaps, AddChild, BreaksKept, HeapBacked, UserRange, DivCeil, DataPages,
      SysSpawn, VmOk, FrameCapsSound,
      PagesEntitled, SpacesOwned, Extends;
    SpawnBreaks(m, capSlot);
    var (vm, made) := CreateSpace(m.vm, m.image);
    CreateSpaceOk(m.vm, m.image);
    VmOnlyBreaks(m, vm);
    if made.Some? {
      var root := made.value.0;
      var pages := DivCeil(len, PAGE);
      var (copied, b) := AllocMapAll(vm, root, DataPages(HEAP_START, pages));
      VmOnlyBreaks(m, copied);
      CreatedOk(m.vm, vm, root);
      if b == Backed && envp + len < USER_ADDR_MAX {
        BlockFits(len);
        BlockIsHeap(vm, root, pages);
        AddChildBreaks(m, m.(vm := copied),
                       NewProc(m.nextPid, root, made.value.1).(
                         heapBreak := HEAP_START + pages * PAGE, envpUser := HEAP_START, envpLen := len),
                       capSlot);
      }
    }
  }

  // A successful SBRK reports the old break, moves it by exactly `delta`, and has
  // backed every page up to the new one.
  lemma SbrkBacks(m: State, delta: int)
    requires Awake(m) && MemoryOk(m) && HeapsBacked(m)
    ensures var (w, r) := SysSbrk(m, delta);
      && HeapsBacked(w) && |w.procs| == |m.procs|
      && (r != Refused() ==>
            && r == Returned(Cur(m).heapBreak, []) && w.procs[m.current].heapBreak == Cur(m).heapBreak + delta
            && (delta == 0 || HEAP_START <= Cur(m).heapBreak + delta <= HEAP_MAX))
      && (r != Returned(Cur(m).heapBreak, []) ==> r == Refused() && w.procs == m.procs)
  {
    hide VmOk, AllocMapAll, FrameCapsSound, PagesEntitled, PageUp, DataPages, HeapBacked, PagesStay;
    var before, after: int := Cur(m).heapBreak, Cur(m).heapBreak + delta;
    var w := SysSbrk(m, delta).0;
    if delta != 0 && HEAP_START <= after <= HEAP_MAX {
      var from, to := PageUp(before), PageUp(after);
      var n := if delta > 0 && from < to then (to - from) / PAGE else 0;
      var (vm, b) := AllocMapAll(m.vm, Cur(m).space, DataPages(from, n));
      AllocMapAllOk(m.vm, Cur(m).space, DataPages(from, n));
      GrownStay(m.vm, vm, Cur(m).space);
      KeptHeaps(m, m.(vm := vm));
      if b == Backed {
        GrownHeap(m.vm, Cur(m).space, before, after, n);
        forall i | 0 <= i < |w.procs|
          ensures w.procs[i].space in w.vm.spaces && HeapBacked(w.vm.spaces[w.procs[i].space], w.procs[i].heapBreak)
        {
          assert m.procs[i].space in vm.spaces && HeapBacked(vm.spaces[m.procs[i].space], m.procs[i].heapBreak);
        }
      }
    }
  }

  lemma GrownHeap(v: Vm, root: nat, before: nat, after: nat, n: nat)
    requires VmOk(v) && root in v.spaces && HeapBacked(v.spaces[root], before) && after <= BREAK_MAX
    requires n == if before < after && PageUp(before) < PageUp(after)
                  then (PageUp(after) - PageUp(before)) / PAGE else 0
    requires AllocMapAll(v, root, DataPages(PageUp(before), n)).1 == Backed
    ensures HeapBacked(AllocMapAll(v, root, DataPages(PageUp(before), n)).0.spaces[root], after)
  {
    hide VmOk, AllocMapAll, PageUp, PlanDone, HeapBacked;
    var from := PageUp(before);
    var plans := DataPages(from, n);
    assert |plans| == n;
    hide DataPages;
    AllocMapAllExact(v, root, plans);
    AllocMapAllOk(v, root, plans);
    var w := AllocMapAll(v, root, plans).0;
    GrownStay(v, w, root);
    HeapLater(v, w, root, before);
    UpMonotone(before, after);
    UpMonotone(after, before);
    PageSpan(from, PageUp(after));
    PlansAreHeap(w, root, from, n, from + n * PAGE);
    JoinHeap(w.spaces[root], before, after);
  }

  lemma PageSpan(a: nat, b: nat)
    requires a % PAGE == 0 && b % PAGE == 0
    ensures a < b ==> a + (b - a) / PAGE * PAGE == b
  {
  }

  lemma JoinHeap(space: Space, before: nat, after: nat)
    requires HeapBacked(space, before) && after <= BREAK_MAX
    requires forall page: nat :: page % PAGE == 0 && PageUp(before) <= page < PageUp(after) ==>
               UserPage(space, page, true)
    ensures HeapBacked(space, after)
  {
    hide PageUp, UserPage;
  }

  lemma UpMonotone(a: nat, b: nat)
    ensures a <= b ==> PageUp(a) <= PageUp(b)
    ensures PageUp(a) % PAGE == 0
  {
  }

  lemma SyscallHeaps(m: State, a: Action)
    requires Awake(m) && MemoryOk(m) && AllLegitimate(m) && HeapsBacked(m)
    ensures HeapsBacked(Syscall(m, a).0)
  {
    hide SysFrameAlloc, SysDmaAlloc, SysSpawn, SysSpawnEnv, SysSbrk, SysMapFrame, SysIoMap, VmOk, FrameCapsSound,
      PagesEntitled, SpacesOwned,
      AllLegitimate, HeapsBacked, BreaksKept, PagesStay;
    SyscallPagesStay(m, a);
    KernelRuns.SyscallSpaces(m, a);
    match a
    case Spawn(capSlot) =>
      SpawnBreaks(m, capSlot);
      KeptHeaps(m, Syscall(m, a).0);
    case SpawnEnv(envp, len, capSlot) =>
      SpawnEnvBreaks(m, envp, len, capSlot);
      KeptHeaps(m, Syscall(m, a).0);
    case FrameAlloc(pages, capSlot, outPtr) =>
      FrameAllocBreaks(m, pages, capSlot, outPtr);
      KeptHeaps(m, Syscall(m, a).0);
    case DmaAlloc(length, outPtr) =>
      DmaBreaks(m, length, outPtr);
      KeptHeaps(m, Syscall(m, a).0);
    case MapFrame(_, _) =>
      MappingBreaks(m, a);
      KeptHeaps(m, Syscall(m, a).0);
    case IoMap(_, _) =>
      MappingBreaks(m, a);
      KeptHeaps(m, Syscall(m, a).0);
    case Sbrk(delta) => SbrkBacks(m, delta);
    case _ =>
      hide Syscall;
      KernelRuns.SyscallMemory(m, a);
      SameHeaps(m, Syscall(m, a).0);
  }

  lemma SameHeaps(m: State, w: State)
    requires HeapsBacked(m) && KernelRuns.SameMemory(m, w)
    ensures HeapsBacked(w)
  {
    hide HeapBacked;
  }

  lemma NextHeaps(m: State, a: Action)
    requires Awake(m) && MemoryOk(m) && AllLegitimate(m) && HeapsBacked(m)
    ensures HeapsBacked(Next(m, a))
  {
    hide Syscall, RecvLoop, WaitLoop, WaitPidLoop, MemoryOk, AllLegitimate, HeapsBacked;
    if !m.halted {
      match Cur(m).resume
      case InRecv(id, out, dst) =>
        KernelRuns.RecvMemory(m, id, out, dst);
        SameHeaps(m, Next(m, a));
      case InWait(id) =>
        KernelRuns.LoopMemory(m, id);
        SameHeaps(m, Next(m, a));
      case InWaitPid(target) =>
        KernelRuns.LoopMemory(m, target);
        SameHeaps(m, Next(m, a));
      case InUser => SyscallHeaps(m, a);
      case Abandoned =>
    }
  }

  // In every run in which no FRAME_ALLOC fails too late, every process may read and
  // write its whole heap.
  lemma {:induction false} RunHeaps(m: State, actions: seq<Action>)
    requires Boot(m) && NeverTooLate(m, actions)
    ensures HeapsBacked(After(m, actions))
  {
    hide Next, AllLegitimate, TableOk, Boot, MemoryOk, FailsTooLate, HeapsBacked;
    if actions == [] {
      BootHeaps(m);
    } else {
      var n := |actions| - 1;
      var init := actions[..n];
      NeverTooLateBefore(m, actions);
      RunHeaps(m, init);
      RunIsolated(m, init);
      Unforgeable(m, init);
      NextHeaps(After(m, init), actions[n]);
    }
  }

  lemma BootHeaps(m: State)
    requires Boot(m)
    ensures HeapsBacked(m)
  {
    hide CreateSpace, KernelOnly, SeedCaps;
    EmptyHeap(m.vm.spaces[m.procs[0].space]);
  }
}
