// SBRK seen from before the call: exactly when it succeeds, and exactly which calls
// leave a heap that can never grow again.
module KernelGrowth {
  import opened Base
  import opened AddressSpace
  import opened Machine
  import opened Syscalls
  import opened KernelAuthority
  import opened KernelMemory
  import opened KernelIsolation
  import opened KernelSharing
  import opened KernelHeap
  import opened KernelProgress
  import opened FrameCost
  import KernelRuns
  import KernelSafety

  // ----- One call -----

  // The pages to back when the break moves up.
  function PagesUp(before: nat, after: nat): nat {
    if PageUp(before) < PageUp(after) then (PageUp(after) - PageUp(before)) / PAGE else 0
  }

  predicate BreakInRange(m: State, delta: int)
    requires Running(m)
  {
    HEAP_START <= Cur(m).heapBreak + delta <= HEAP_MAX
  }

  // These pages are unmapped, and there is a frame for each of them and for each
  // table missing on the way.
  ghost predicate Backable(vm: Vm, root: nat, from: nat, n: nat)
    requires VmOk(vm) && root in vm.spaces
  {
    var window := Window(from, n);
    window !! vm.spaces[root].pages.Keys && Left(vm) >= n + Missing(vm.spaces[root], window)
  }

  // So for the pages the break moves over.
  ghost predicate CanBack(m: State, delta: int)
    requires Awake(m) && VmOk(m.vm) && Cur(m).heapBreak + delta >= 0
  {
    var before := Cur(m).heapBreak;
    Backable(m.vm, Cur(m).space, PageUp(before), PagesUp(before, before + delta))
  }

  // The backing loop of SBRK.
  ghost function Grown(m: State, delta: int): (r: (Vm, Backing))
    requires Awake(m) && Cur(m).heapBreak + delta >= 0
    ensures r.0.spaces.Keys == m.vm.spaces.Keys
  {
    var before := Cur(m).heapBreak;
    AllocMapAll(m.vm, Cur(m).space, DataPages(PageUp(before), PagesUp(before, before + delta)))
  }

  lemma SbrkIs(m: State, delta: int)
    requires Awake(m) && delta != 0 && BreakInRange(m, delta)
    ensures SysSbrk(m, delta)
         == var (vm, b) := Grown(m, delta);
            if b != Backed then (m.(vm := vm), Refused())
            else (SetProc(m.(vm := vm), m.current, Cur(m).(heapBreak := Cur(m).heapBreak + delta)),
                  Returned(Cur(m).heapBreak, []))
  {
    UpMonotone(Cur(m).heapBreak + delta, Cur(m).heapBreak);
    hide AllocMapAll, PageUp;
  }

  // SBRK succeeds exactly when it is a mere question, or the new break is in range and
  // the pages on the way to it can be backed.
  lemma SbrkSucceedsIff(m: State, delta: int)
    requires Awake(m) && MemoryOk(m) && HeapsBacked(m)
    ensures VmOk(m.vm)
    ensures SysSbrk(m, delta).1 != Refused() <==> delta == 0 || (BreakInRange(m, delta) && CanBack(m, delta))
  {
    hide FrameCapsSound, PagesEntitled, SpacesOwned, VmOk, PageUp, AllocMapAll, CanBack, Grown, DataPages;
    if delta != 0 && BreakInRange(m, delta) {
      GrownIff(m, delta);
      SbrkIs(m, delta);
    }
  }

  lemma GrownIff(m: State, delta: int)
    requires Awake(m) && VmOk(m.vm) && Cur(m).heapBreak + delta >= 0
    ensures Grown(m, delta).1 == Backed <==> CanBack(m, delta)
  {
    hide VmOk, PageUp, PageDown, PagesUp, AllocMapAll, DataPages, Backable;
    BackedIff(m.vm, Cur(m).space, PageUp(Cur(m).heapBreak), PagesUp(Cur(m).heapBreak, Cur(m).heapBreak + delta));
  }

  lemma BackedIff(vm: Vm, root: nat, from: nat, n: nat)
    requires VmOk(vm) && root in vm.spaces
    ensures AllocMapAll(vm, root, DataPages(from, n)).1 == Backed <==> Backable(vm, root, from, n)
  {
    HeapPlanPages(vm, root, from, n);
    hide VmOk, AllocMapAll, DataPages, NewAndDistinct, PlanPages, Window, Missing, Left;
    AllocMapAllIff(vm, root, DataPages(from, n));
  }

  lemma TakenIsNotBackable(vm: Vm, root: nat, from: nat, n: nat)
    requires VmOk(vm) && root in vm.spaces && from in vm.spaces[root].pages && n > 0
    ensures !Backable(vm, root, from, n)
  {
    hide VmOk, Missing, Left;
    assert PageAt(from, 0) in Window(from, n);
  }

  lemma HeapPlanPages(vm: Vm, root: nat, from: nat, n: nat)
    requires root in vm.spaces
    ensures |DataPages(from, n)| == n && PlanPages(DataPages(from, n)) == Window(from, n)
    ensures NewAndDistinct(vm, root, DataPages(from, n)) <==> Window(from, n) !! vm.spaces[root].pages.Keys
  {
    var plans := DataPages(from, n);
    assert forall i :: 0 <= i < n ==> plans[i].va == PageAt(from, i);
    forall p
      ensures p in PlanPages(plans) <==> p in Window(from, n)
    {
      if p in PlanPages(plans) {
        var plan :| plan in plans && p == plan.va;
        var i :| 0 <= i < |plans| && plan == plans[i];
        assert p == PageAt(from, i);
      }
      if p in Window(from, n) {
        var k: nat :| k < n && p == PageAt(from, k);
        assert plans[k] in plans;
      }
    }
    if Window(from, n) !! vm.spaces[root].pages.Keys {
      forall i | 0 <= i < |plans|
        ensures plans[i].va !in vm.spaces[root].pages
      {
        assert PageAt(from, i) in Window(from, n);
      }
    }
  }

  // ----- A heap that has stopped growing -----

  // The page that the next growth needs first is mapped already.
  ghost predicate Stuck(m: State, i: nat)
    requires i < |m.procs|
  {
    && m.procs[i].space in m.vm.spaces
    && PageUp(m.procs[i].heapBreak) in m.vm.spaces[m.procs[i].space].pages
  }

  lemma BreakBounded(m: State, i: nat)
    requires HeapsBacked(m) && i < |m.procs|
    ensures m.procs[i].heapBreak < U64_MAX
  {
    hide PageUp;
    assert HeapBacked(m.vm.spaces[m.procs[i].space], m.procs[i].heapBreak);
  }

  // Then every growth to another page is refused, whatever memory there is.
  lemma StuckRefuses(m: State, delta: int)
    requires Awake(m) && MemoryOk(m) && HeapsBacked(m) && Stuck(m, m.current)
    requires Cur(m).heapBreak + delta >= 0 && PageUp(Cur(m).heapBreak) < PageUp(Cur(m).heapBreak + delta)
    ensures SysSbrk(m, delta).1 == Refused()
  {
    hide MemoryOk, HeapsBacked, VmOk, PageUp, PageDown, SysSbrk, Backable;
    var before := Cur(m).heapBreak;
    SbrkSucceedsIff(m, delta);
    UpMonotone(before, before + delta);
    UpMonotone(before + delta, before);
    PageSpan(PageUp(before), PageUp(before + delta));
    TakenIsNotBackable(m.vm, Cur(m).space, PageUp(before), PagesUp(before, before + delta));
  }

  // Lowering the break succeeds, and leaves the heap stuck exactly when it passes a
  // page boundary (or the heap was stuck before).
  lemma ShrinkSticks(m: State, delta: int)
    requires Awake(m) && MemoryOk(m) && HeapsBacked(m) && delta < 0 && BreakInRange(m, delta)
    ensures var (w, r) := SysSbrk(m, delta);
      && r == Returned(Cur(m).heapBreak, []) && |w.procs| == |m.procs|
      && w.procs[m.current].heapBreak == Cur(m).heapBreak + delta
      && (Stuck(w, m.current) <==>
            PageUp(Cur(m).heapBreak + delta) < PageUp(Cur(m).heapBreak) || Stuck(m, m.current))
  {
    hide MemoryOk, HeapsBacked, PageUp, PageDown, Grown, SysSbrk, Stuck;
    var before, after: nat := Cur(m).heapBreak, Cur(m).heapBreak + delta;
    UpMonotone(after, before);
    NothingToBack(m, delta);
    SbrkIs(m, delta);
    MovedBreak(m, m, before);
    MovedBreak(m, SysSbrk(m, delta).0, after);
    if PageUp(after) < PageUp(before) {
      HeapPage(m, m.current, after);
    }
  }

  // With the break at `a`, the page above it decides.
  lemma MovedBreak(m: State, w: State, a: nat)
    requires Awake(m) && w == SetProc(m, m.current, Cur(m).(heapBreak := a))
    ensures Stuck(w, m.current) <==> PageUp(a) in m.vm.spaces[Cur(m).space].pages
  {
    hide PageUp;
  }

  lemma NothingToBack(m: State, delta: int)
    requires Awake(m) && Cur(m).heapBreak + delta >= 0 && PageUp(Cur(m).heapBreak + delta) <= PageUp(Cur(m).heapBreak)
    ensures Grown(m, delta) == (m.vm, Backed)
  {
    hide PageUp, PageDown;
  }

  // The boundary above any lower address is the start of a page of the heap.
  lemma HeapPage(m: State, i: nat, a: nat)
    requires HeapsBacked(m) && i < |m.procs| && HEAP_START <= a && PageUp(a) < PageUp(m.procs[i].heapBreak)
    ensures m.procs[i].space in m.vm.spaces && PageUp(a) in m.vm.spaces[m.procs[i].space].pages
  {
    UpMonotone(HEAP_START, a);
    assert PageUp(HEAP_START) == HEAP_START;
    assert HeapBacked(m.vm.spaces[m.procs[i].space], m.procs[i].heapBreak);
    hide PageUp;
    assert UserPage(m.vm.spaces[m.procs[i].space], PageUp(a), true);
  }

  // A growth refused for want of memory leaves the heap stuck exactly when there was
  // enough for its first page.
  lemma HalfwaySticks(m: State, delta: int)
    requires Awake(m) && MemoryOk(m) && HeapsBacked(m) && BreakInRange(m, delta) && !Stuck(m, m.current)
    requires SysSbrk(m, delta).1 == Refused()
    ensures VmOk(m.vm)
    ensures var w := SysSbrk(m, delta).0;
      && w.procs == m.procs
      && (Stuck(w, m.current) <==>
            Left(m.vm) >= 1 + Missing(m.vm.spaces[Cur(m).space], {PageUp(Cur(m).heapBreak)}))
  {
    hide FrameCapsSound, PagesEntitled, SpacesOwned, VmOk, PageUp, PagesUp, AllocMapAll, DataPages, HeapBacked, Left,
      Missing;
    BreakBounded(m, m.current);
    SbrkIs(m, delta);
    assert delta != 0;
    var from, n := PageUp(Cur(m).heapBreak), PagesUp(Cur(m).heapBreak, Cur(m).heapBreak + delta);
    FirstPageBacked(m.vm, Cur(m).space, from, n);
  }

  lemma FirstPageBacked(vm: Vm, root: nat, from: nat, n: nat)
    requires VmOk(vm) && root in vm.spaces && from !in vm.spaces[root].pages
    requires AllocMapAll(vm, root, DataPages(from, n)).1 != Backed
    ensures var w := AllocMapAll(vm, root, DataPages(from, n)).0;
      && root in w.spaces
      && (from in w.spaces[root].pages <==> Left(vm) >= 1 + Missing(vm.spaces[root], {from}))
  {
    hide VmOk, AllocMap, Left, Reached, Path, Missing;
    var plans := DataPages(from, n);
    assert n > 0 && plans[0].va == from;
    AllocMapCost(vm, root, plans[0]);
    var (w, b) := AllocMap(vm, root, plans[0]);
    if b == Backed {
      assert from in w.spaces[root].pages.Keys;
      AllocMapAllOk(w, root, plans[1..]);
      GrownOnlyAdds(w, AllocMapAll(w, root, plans[1..]).0, root, from);
    }
  }

  lemma GrownOnlyAdds(v: Vm, w: Vm, root: nat, va: nat)
    requires SpaceGrown(v, w, root) && va in v.spaces[root].pages
    ensures va in w.spaces[root].pages
  {
    hide VmOk, Extends;
  }

  // ----- Runs -----

  // A stuck heap's break never passes the page boundary above it.
  ghost predicate NoHigher(m: State, w: State, i: nat)
    requires i < |m.procs|
  {
    i < |w.procs| && Stuck(w, i) && PageUp(w.procs[i].heapBreak) <= PageUp(m.procs[i].heapBreak)
  }

  lemma SbrkNoHigher(m: State, delta: int)
    requires Awake(m) && MemoryOk(m) && HeapsBacked(m) && Stuck(m, m.current)
    ensures NoHigher(m, SysSbrk(m, delta).0, m.current)
  {
    hide MemoryOk, HeapsBacked, PageUp, SysSbrk;
    SbrkCases(m, delta);
    if delta != 0 && BreakInRange(m, delta) {
      var before, after := Cur(m).heapBreak, Cur(m).heapBreak + delta;
      if PageUp(before) < PageUp(after) {
        BreakBounded(m, m.current);
        StuckRefuses(m, delta);
        SbrkStays(m, delta);
        StaysStuck(m, SysSbrk(m, delta).0, m.current);
      } else {
        if PageUp(after) < PageUp(before) {
          HeapPage(m, m.current, after);
        }
        NothingToBack(m, delta);
        SbrkIs(m, delta);
      }
    }
  }

  lemma SbrkCases(m: State, delta: int)
    requires Awake(m)
    ensures delta == 0 || !BreakInRange(m, delta) ==> SysSbrk(m, delta).0 == m
    ensures var (w, r) := SysSbrk(m, delta);
      && |w.procs| == |m.procs| && w.vm.spaces.Keys == m.vm.spaces.Keys
      && (forall i :: 0 <= i < |m.procs| && i != m.current ==> w.procs[i] == m.procs[i])
      && (r == Refused() && Cur(m).heapBreak != U64_MAX ==> w.procs == m.procs)
  {
    hide AllocMapAll, PageUp, DataPages;
  }

  lemma StaysStuck(m: State, w: State, i: nat)
    requires i < |m.procs| && i < |w.procs| && Stuck(m, i) && PagesStay(m.vm, w.vm)
    requires w.procs[i].space == m.procs[i].space && w.procs[i].heapBreak == m.procs[i].heapBreak
    ensures NoHigher(m, w, i)
  {
    hide PageUp;
  }

  ghost predicate BreaksFixed(m: State, w: State) {
    && |m.procs| <= |w.procs|
    && forall i :: 0 <= i < |m.procs| ==>
         w.procs[i].space == m.procs[i].space && w.procs[i].heapBreak == m.procs[i].heapBreak
  }

  lemma SyscallBreaksFixed(m: State, a: Action)
    requires Awake(m) && MemoryOk(m) && !a.Sbrk?
    ensures BreaksFixed(m, Syscall(m, a).0)
  {
    hide SysFrameAlloc, SysDmaAlloc, SysSpawn, SysSpawnEnv, SysSbrk, SysMapFrame, SysIoMap, MemoryOk, HeapBacked;
    match a
    case Spawn(capSlot) => SpawnBreaks(m, capSlot);
    case SpawnEnv(envp, len, capSlot) => SpawnEnvBreaks(m, envp, len, capSlot);
    case FrameAlloc(pages, capSlot, outPtr) => FrameAllocBreaks(m, pages, capSlot, outPtr);
    case DmaAlloc(length, outPtr) => DmaBreaks(m, length, outPtr);
    case MapFrame(_, _) => MappingBreaks(m, a);
    case IoMap(_, _) => MappingBreaks(m, a);
    case _ =>
      hide Syscall;
      KernelRuns.SyscallMemory(m, a);
  }

  lemma NextNoHigher(m: State, a: Action, i: nat)
    requires KernelSafety.TableOk(m) && Awake(m) && MemoryOk(m) && AllLegitimate(m) && HeapsBacked(m)
    requires i < |m.procs| && Stuck(m, i)
    ensures NoHigher(m, Next(m, a), i)
  {
    hide Syscall, RecvLoop, WaitLoop, WaitPidLoop, MemoryOk, AllLegitimate, HeapsBacked, Stuck, NoHigher,
      KernelSafety.TableOk, PagesStay;
    PagesStayMapped(m, a);
    var w := Next(m, a);
    if m.halted || Cur(m).resume == Abandoned {
      StaysStuck(m, w, i);
    } else if Cur(m).resume == InUser {
      SyscallNoHigher(m, a, i);
    } else {
      LoopsFixBreaks(m, a);
      StaysStuck(m, w, i);
    }
  }

  lemma LoopsFixBreaks(m: State, a: Action)
    requires Awake(m) && !m.halted && Cur(m).resume != InUser && Cur(m).resume != Abandoned
    ensures BreaksFixed(m, Next(m, a))
  {
    hide Syscall, RecvLoop, WaitLoop, WaitPidLoop;
    match Cur(m).resume
    case InRecv(id, out, dst) => KernelRuns.RecvMemory(m, id, out, dst);
    case InWait(id) => KernelRuns.LoopMemory(m, id);
    case InWaitPid(target) => KernelRuns.LoopMemory(m, target);
  }

  lemma SyscallNoHigher(m: State, a: Action, i: nat)
    requires Awake(m) && MemoryOk(m) && AllLegitimate(m) && HeapsBacked(m) && i < |m.procs| && Stuck(m, i)
    ensures NoHigher(m, Syscall(m, a).0, i)
  {
    hide MemoryOk, AllLegitimate, HeapsBacked, Stuck, NoHigher, SysSbrk, PagesStay, Syscall;
    var w := Syscall(m, a).0;
    SyscallPagesStay(m, a);
    if !a.Sbrk? {
      SyscallBreaksFixed(m, a);
      StaysStuck(m, w, i);
    } else {
      SbrkCall(m, a.delta);
      SbrkCases(m, a.delta);
      if i == m.current {
        SbrkNoHigher(m, a.delta);
      } else {
        StaysStuck(m, w, i);
      }
    }
  }

  lemma SbrkCall(m: State, delta: int)
    requires Awake(m)
    ensures Syscall(m, Sbrk(delta)) == SysSbrk(m, delta)
  {
    hide SysSbrk;
  }

  // In every run from boot in which no FRAME_ALLOC fails too late: once stuck, a heap
  // never again reaches beyond the page its break was in.
  lemma {:induction false} StuckForever(m: State, actions: seq<Action>, n: nat, i: nat)
    requires Boot(m) && NeverTooLate(m, actions) && n <= |actions|
    requires i < |After(m, actions[..n]).procs| && Stuck(After(m, actions[..n]), i)
    ensures NoHigher(After(m, actions[..n]), After(m, actions), i)
    decreases |actions|
  {
    hide Next, AllLegitimate, KernelSafety.TableOk, Boot, MemoryOk, FailsTooLate, HeapsBacked, NeverTooLate;
    if n == |actions| {
      assert actions[..n] == actions;
    } else {
      var last := |actions| - 1;
      var init := actions[..last];
      assert init[..n] == actions[..n];
      NeverTooLateBefore(m, actions);
      StuckForever(m, init, n, i);
      RunIsolated(m, init);
      RunHeaps(m, init);
      Unforgeable(m, init);
      KernelRuns.RunSafe(m, init);
      NextNoHigher(After(m, init), actions[last], i);
    }
  }
}
