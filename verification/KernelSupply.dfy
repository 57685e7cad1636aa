// Mapping calls seen from before the call: exactly when they succeed, and exactly when
// a FRAME_ALLOC fails too late.
module KernelSupply {
  import opened Base
  import opened FramePool
  import opened Capability
  import opened AddressSpace
  import opened Machine
  import opened Syscalls
  import opened KernelMemory
  import opened KernelSafety
  import opened KernelAuthority
  import opened KernelIsolation
  import opened KernelProgress
  import opened FrameCost

  // ----- Mapping a range -----

  ghost predicate NoPages(space: Space, lo: nat, hi: nat) {
    forall va: nat :: lo <= va < hi ==> va !in space.pages
  }

  // Three frames a page are enough to map any range of unmapped pages.
  lemma {:induction false} MapRangeProgress(vm: Vm, root: nat, va: nat, phys: nat, n: nat, device: bool)
    requires VmOk(vm) && root in vm.spaces && RangeOk(vm.ledger, root, phys, n, device)
    requires Available(vm.pool) >= 3 * n && NoPages(vm.spaces[root], va, va + n * PAGE)
    ensures MapRange(vm, root, va, phys, n, device).1
    ensures Spent(vm, MapRange(vm, root, va, phys, n, device).0, 3 * n)
    decreases n
  {
    hide VmOk, RangeOk, Extends, OnlySpace, MapPage, PteOk, Available, Spent;
    if n == 0 {
      SpentNothing(vm, 0);
    } else {
      RangeOkTail(vm, vm, root, phys, n, device) by { ExtendsSelf(vm); }
      var pte := if device then DevicePte(phys) else UserPte(phys, true, false);
      MapPageProgress(vm, root, va, pte);
      MapPageOk(vm, root, va, pte);
      var w := MapPage(vm, root, va, pte).0;
      SpentEnough(vm, w, 3, 3 * n);
      RangeOkTail(vm, w, root, phys, n, device);
      MapRangeProgress(w, root, va + PAGE, phys + PAGE, n - 1, device);
      SpentTwice(vm, w, MapRange(w, root, va + PAGE, phys + PAGE, n - 1, device).0, 3, 3 * (n - 1));
    }
  }

  // ----- FRAME_ALLOC -----

  // The region that the cursor is in, or a later one, still holds n frames in a row.
  ghost predicate RunThere(p: Pool, n: nat) {
    exists i: nat :: i < |p.regions| && RoomIn(p, i, n)
  }

  predicate RoomIn(p: Pool, i: nat, n: nat)
    requires i < |p.regions|
  {
    && p.regionIdx <= i
    && (if i == p.regionIdx then p.cursor else p.regions[i].start) + n * PAGE <= p.regions[i].end
  }

  lemma {:induction false} RunThereIff(p: Pool, n: nat)
    ensures Bump(p, n).1.Some? <==> RunThere(p, n)
    decreases |p.regions| - p.regionIdx
  {
    if p.regionIdx < |p.regions| && !RoomIn(p, p.regionIdx, n) {
      var q := NextRegion(p);
      RunThereIff(q, n);
      assert forall i: nat :: i < |p.regions| && i != p.regionIdx ==> (RoomIn(p, i, n) <==> RoomIn(q, i, n));
      assert RunThere(p, n) <==> RunThere(q, n);
    } else if p.regionIdx < |p.regions| {
      assert RunThere(p, n);
    }
  }

  // The frames left for tables once n frames in a row are taken.
  ghost function LeftAfterRun(vm: Vm, n: nat): nat
    requires VmOk(vm)
  {
    AllocRunOk(vm, n, None);
    Left(AllocRun(vm, n, None).0)
  }

  // The buffer is a good one for the reply, counting pages of the window itself.
  ghost predicate BufferWith(space: Space, window: set<nat>, ptr: nat, len: nat) {
    && 0 < len <= MAX_WRITE && ptr != 0 && ptr + len <= USER_ADDR_MAX
    && forall a: nat :: ptr <= a < ptr + len ==> PageDown(a) in window || UserByte(space, a, true)
  }

  // The caller can pay for a run that is there, and its window is not used up.
  ghost predicate RunPaid(m: State, pages: nat)
    requires Running(m)
  {
    && 0 < pages <= MAX_SHARED_PAGES && Charge(Cur(m).caps, pages * PAGE).1 && RunThere(m.vm.pool, pages)
    && m.nextShared + pages * PAGE <= SHARED_VA_END
  }

  // These pages are unmapped, and there is a frame for each table on the way to them.
  ghost predicate Mappable(m: State, pages: nat, window: set<nat>)
    requires Awake(m) && VmOk(m.vm)
  {
    var space := m.vm.spaces[Cur(m).space];
    window !! space.pages.Keys && LeftAfterRun(m.vm, pages) >= Missing(space, window)
  }

  // Everything that FRAME_ALLOC needs.
  ghost predicate Accepts(m: State, pages: nat, capSlot: nat, outPtr: nat)
    requires Awake(m) && VmOk(m.vm)
  {
    var window := Window(m.nextShared, pages);
    && RunPaid(m, pages) && Mappable(m, pages, window) && CanInsert(Cur(m).caps, capSlot)
    && BufferWith(m.vm.spaces[Cur(m).space], window, outPtr, 8)
  }

  // The call succeeds exactly when all of that is there before it.
  lemma FrameAllocSucceedsIff(m: State, pages: nat, capSlot: nat, outPtr: nat)
    requires Awake(m) && MemoryOk(m)
    ensures VmOk(m.vm)
    ensures SysFrameAlloc(m, pages, capSlot, outPtr).1 != Refused() <==> Accepts(m, pages, capSlot, outPtr)
  {
    SoundVm(m);
    hide *;
    if RunPaid(m, pages) {
      RunPaidMeans(m, pages);
      AcceptedIff(m, pages, capSlot, outPtr);
      AcceptsIs(m, pages, capSlot, outPtr);
      RepliesWhenAccepted(m, pages, capSlot, outPtr);
    } else {
      NotPaid(m, pages, capSlot, outPtr);
    }
  }

  // It fails too late exactly when its first page can be mapped but something else
  // is missing: a later page, a frame, the slot or the buffer.
  lemma TooLateIff(m: State, pages: nat, capSlot: nat, outPtr: nat)
    requires Awake(m) && MemoryOk(m)
    ensures VmOk(m.vm)
    ensures FailsAfterMapping(m, pages, capSlot, outPtr) <==>
            && RunPaid(m, pages) && Mappable(m, pages, {m.nextShared})
            && !Accepts(m, pages, capSlot, outPtr)
  {
    SoundVm(m);
    hide *;
    if RunPaid(m, pages) {
      RunPaidMeans(m, pages);
      AcceptedIff(m, pages, capSlot, outPtr);
      AcceptsIs(m, pages, capSlot, outPtr);
      FirstPageIff(m, pages);
      LateMeans(m, pages, capSlot, outPtr);
    } else {
      NotPaid(m, pages, capSlot, outPtr);
    }
  }

  // A bad slot or a bad buffer is enough, whenever the first page can be mapped.
  lemma BadArgumentIsTooLate(m: State, pages: nat, capSlot: nat, outPtr: nat)
    requires Awake(m) && MemoryOk(m) && VmOk(m.vm) && RunPaid(m, pages) && Mappable(m, pages, {m.nextShared})
    requires !CanInsert(Cur(m).caps, capSlot)
             || !BufferWith(m.vm.spaces[Cur(m).space], Window(m.nextShared, pages), outPtr, 8)
    ensures FailsAfterMapping(m, pages, capSlot, outPtr)
  {
    hide MemoryOk, VmOk, FailsAfterMapping, RunPaid, Mappable, BufferWith, Window;
    TooLateIff(m, pages, capSlot, outPtr);
  }

  lemma SoundVm(m: State)
    requires MemoryOk(m)
    ensures VmOk(m.vm)
  {
    hide VmOk;
  }

  lemma RunPaidMeans(m: State, pages: nat)
    requires Awake(m) && RunPaid(m, pages)
    ensures AllocRun(m.vm, pages, None).1.Some? && AllocRun(m.vm, pages, None).0.spaces == m.vm.spaces
  {
    RunThereIff(m.vm.pool, pages);
    hide Bump, RunThere;
  }

  lemma NotPaid(m: State, pages: nat, capSlot: nat, outPtr: nat)
    requires Awake(m) && VmOk(m.vm) && !RunPaid(m, pages)
    ensures SysFrameAlloc(m, pages, capSlot, outPtr).1 == Refused()
    ensures !FailsAfterMapping(m, pages, capSlot, outPtr) && !Accepts(m, pages, capSlot, outPtr)
  {
    RunThereIff(m.vm.pool, pages);
    hide VmOk, Bump, RunThere, MapRange, MapPage, Charge, Refund, Insert, UserBuffer, Record, FreeRun;
  }

  lemma AcceptsIs(m: State, pages: nat, capSlot: nat, outPtr: nat)
    requires Awake(m) && VmOk(m.vm) && RunPaid(m, pages)
    ensures var window := Window(m.nextShared, pages);
      Accepts(m, pages, capSlot, outPtr) <==>
      && Mappable(m, pages, window) && CanInsert(Cur(m).caps, capSlot)
      && BufferWith(m.vm.spaces[Cur(m).space], window, outPtr, 8)
  {
    hide VmOk, Mappable, BufferWith, RunPaid;
  }

  lemma RepliesWhenAccepted(m: State, pages: nat, capSlot: nat, outPtr: nat)
    requires Awake(m) && RunPaid(m, pages) && AllocRun(m.vm, pages, None).1.Some?
    requires Cur(m).space in AllocRun(m.vm, pages, None).0.spaces
    ensures SysFrameAlloc(m, pages, capSlot, outPtr).1 != Refused() <==>
            FrameAllocAccepted(m, FrameAllocMapped(m, pages), FrameAllocMapOk(m, pages), capSlot, outPtr)
  {
    hide AllocRun, MapRange, Charge, Refund, Insert, UserBuffer, FreeRun, RunThere;
  }

  // The outcome of the mapping, the reply and the capability, told beforehand.
  lemma AcceptedIff(m: State, pages: nat, capSlot: nat, outPtr: nat)
    requires Awake(m) && MemoryOk(m) && VmOk(m.vm) && RunPaid(m, pages) && AllocRun(m.vm, pages, None).1.Some?
    ensures var window := Window(m.nextShared, pages);
      FrameAllocAccepted(m, FrameAllocMapped(m, pages), FrameAllocMapOk(m, pages), capSlot, outPtr) <==>
      && Mappable(m, pages, window) && CanInsert(Cur(m).caps, capSlot)
      && BufferWith(m.vm.spaces[Cur(m).space], window, outPtr, 8)
  {
    var window := Window(m.nextShared, pages);
    var w := FrameAllocMapped(m, pages);
    RunMappedIff(m, pages);
    if FrameAllocMapOk(m, pages) {
      hide MemoryOk, VmOk, AllocRun, MapWindow, Window, Mappable;
      BufferWithIs(m, w, window, outPtr, 8);
    }
    hide MemoryOk, VmOk, AllocRun, MapWindow, Window, Mappable, UserBuffer, BufferWith;
  }

  // Whether the whole run is mapped, and which pages are writable then.
  lemma RunMappedIff(m: State, pages: nat)
    requires Awake(m) && MemoryOk(m) && VmOk(m.vm) && RunPaid(m, pages) && AllocRun(m.vm, pages, None).1.Some?
    ensures FrameAllocMapOk(m, pages) <==> Mappable(m, pages, Window(m.nextShared, pages))
    ensures FrameAllocMapOk(m, pages) ==>
              WindowAdded(m, FrameAllocMapped(m, pages), Window(m.nextShared, pages))
  {
    hide MemoryOk, VmOk, RunOk, RunGranted, RangeOk, AllocRun, Left, MapRange, Window, RunThere, Missing;
    var root := Cur(m).space;
    AllocRunOk(m.vm, pages, None);
    var (vm, run) := AllocRun(m.vm, pages, None);
    GrantedRunOk(m.vm, vm, run.value, pages);
    RunRangeOk(vm, root, run.value, pages);
    MapRangeIff(vm, root, m.nextShared, run.value, pages, false);
    MappedIs(m, pages);
    if FrameAllocMapOk(m, pages) {
      WindowWritable(vm, root, m.nextShared, run.value, pages);
    }
  }

  // The caller has gained exactly these pages, all writable.
  ghost predicate WindowAdded(m: State, w: State, window: set<nat>)
    requires Running(m) && Running(w)
  {
    && Cur(w).space == Cur(m).space && Cur(m).space in m.vm.spaces && Cur(m).space in w.vm.spaces
    && PagesAdded(m.vm.spaces[Cur(m).space], w.vm.spaces[Cur(m).space], window)
  }

  ghost predicate PagesAdded(s: Space, t: Space, window: set<nat>) {
    && t.pages.Keys == s.pages.Keys + window
    && (forall p :: p in s.pages ==> t.pages[p] == s.pages[p])
    && (forall p :: p in window ==> UserPage(t, p, true))
  }

  lemma WindowWritable(vm: Vm, root: nat, va: nat, phys: nat, n: nat)
    requires VmOk(vm) && root in vm.spaces && RangeOk(vm.ledger, root, phys, n, false)
    requires MapRange(vm, root, va, phys, n, false).1
    ensures var w := MapRange(vm, root, va, phys, n, false).0;
      root in w.spaces && PagesAdded(vm.spaces[root], w.spaces[root], Window(va, n))
  {
    hide VmOk, RangeOk, MapRange, SpaceGrown, NewPagesWithin, Reached, Missing, Left;
    var w := MapRange(vm, root, va, phys, n, false).0;
    MapRangeIff(vm, root, va, phys, n, false);
    MapRangeOk(vm, root, va, phys, n, false);
    PagesKept(vm, w, root);
    forall p | p in Window(va, n)
      ensures UserPage(w.spaces[root], p, true)
    {
      var k: nat :| k < n && p == PageAt(va, k);
      MapRangeMaps(vm, root, va, phys, n, k);
    }
  }

  lemma BufferWithIs(m: State, w: State, window: set<nat>, ptr: nat, len: nat)
    requires Running(m) && Running(w) && WindowAdded(m, w, window)
    ensures UserBuffer(w, ptr, len) <==> BufferWith(m.vm.spaces[Cur(m).space], window, ptr, len)
  {
    var s, t := m.vm.spaces[Cur(m).space], w.vm.spaces[Cur(m).space];
    forall a: nat
      ensures UserByte(t, a, true) <==> PageDown(a) in window || UserByte(s, a, true)
    {
      assert PageDown(a) in t.pages.Keys <==> PageDown(a) in s.pages.Keys || PageDown(a) in window;
    }
  }

  lemma MappedIs(m: State, pages: nat)
    requires Awake(m) && m.nextShared + pages * PAGE <= SHARED_VA_END
    requires AllocRun(m.vm, pages, None).1.Some? && Cur(m).space in AllocRun(m.vm, pages, None).0.spaces
    ensures var (vm, run) := AllocRun(m.vm, pages, None);
      var (v, ok) := MapRange(vm, Cur(m).space, m.nextShared, run.value, pages, false);
      && FrameAllocMapped(m, pages).vm == v && (FrameAllocMapOk(m, pages) <==> ok)
      && Cur(FrameAllocMapped(m, pages)).space == Cur(m).space
  {
    hide AllocRun, MapRange, Charge;
  }

  lemma FirstPageIff(m: State, pages: nat)
    requires Awake(m) && MemoryOk(m) && VmOk(m.vm) && RunPaid(m, pages) && AllocRun(m.vm, pages, None).1.Some?
    ensures var (vm, run) := AllocRun(m.vm, pages, None);
      Cur(m).space in vm.spaces &&
      (MapPage(vm, Cur(m).space, m.nextShared, UserPte(run.value, true, false)).1 == Mapped
       <==> Mappable(m, pages, {m.nextShared}))
  {
    hide MemoryOk, VmOk, RunOk, RunGranted, RangeOk, AllocRun, Left, MapPage, RunThere, Missing, Reached, PteOk;
    var root := Cur(m).space;
    AllocRunOk(m.vm, pages, None);
    var (vm, run) := AllocRun(m.vm, pages, None);
    GrantedRunOk(m.vm, vm, run.value, pages);
    RunRangeOk(vm, root, run.value, pages);
    RangeOkTail(vm, vm, root, run.value, pages, false) by { ExtendsSelf(vm); }
    MapPageCost(vm, root, m.nextShared, UserPte(run.value, true, false));
  }

  lemma LateMeans(m: State, pages: nat, capSlot: nat, outPtr: nat)
    requires Awake(m) && RunPaid(m, pages) && AllocRun(m.vm, pages, None).1.Some?
    requires Cur(m).space in AllocRun(m.vm, pages, None).0.spaces
    ensures var (vm, run) := AllocRun(m.vm, pages, None);
      FailsAfterMapping(m, pages, capSlot, outPtr) <==>
      && MapPage(vm, Cur(m).space, m.nextShared, UserPte(run.value, true, false)).1 == Mapped
      && !FrameAllocAccepted(m, FrameAllocMapped(m, pages), FrameAllocMapOk(m, pages), capSlot, outPtr)
  {
    hide AllocRun, MapPage, FrameAllocAccepted, FrameAllocMapped, FrameAllocMapOk, Charge, RunThere;
  }

  // So a step keeps isolation exactly when these guards, all told before it, do not
  // single it out.
  lemma GuardsDecideIsolation(m: State, a: Action)
    requires TableOk(m) && AllLegitimate(m) && MemoryOk(m)
    ensures Awake(m) && VmOk(m.vm)
    ensures MemoryOk(Next(m, a)) <==>
            !(&& !m.halted && Cur(m).resume == InUser && a.FrameAlloc?
              && RunPaid(m, a.pages) && Mappable(m, a.pages, {m.nextShared})
              && !Accepts(m, a.pages, a.capSlot, a.outPtr))
  {
    hide TableOk, AllLegitimate, MemoryOk, VmOk, Next, FailsAfterMapping, RunPaid, Mappable, Accepts;
    SoundVm(m);
    IsolationKeptIff(m, a);
    if a.FrameAlloc? {
      TooLateIff(m, a.pages, a.capSlot, a.outPtr);
    }
  }

  // ----- MAP_FRAME and IOMAP -----

  // MAP_FRAME succeeds exactly when the slot holds a Frame capability, the window has
  // room, its pages are unmapped, their tables can be paid for, and the reply fits.
  lemma MapFrameSucceedsIff(m: State, capSlot: nat, outPtr: nat)
    requires Awake(m) && MemoryOk(m)
    ensures VmOk(m.vm)
    ensures SysMapFrame(m, capSlot, outPtr).1 != Refused() <==>
            var cap, space := Get(Cur(m).caps, capSlot), m.vm.spaces[Cur(m).space];
            && cap.Some? && cap.value.capType == Frame
            && var window := Window(m.nextShared, cap.value.badge);
               && m.nextShared + cap.value.badge * PAGE <= SHARED_VA_END
               && window !! space.pages.Keys && Left(m.vm) >= Missing(space, window)
               && BufferWith(space, window, outPtr, 8)
  {
    hide MemoryOk, VmOk, MapRange, UserBuffer, BufferWith, Window, Left, Missing, SysMapFrame, Get;
    SoundVm(m);
    var cap := Get(Cur(m).caps, capSlot);
    MapFrameIs(m, capSlot, outPtr);
    if cap.Some? && cap.value.capType == Frame {
      FrameRangeIff(m, capSlot, cap.value, outPtr);
    }
  }

  lemma MapFrameIs(m: State, capSlot: nat, outPtr: nat)
    requires Awake(m)
    ensures SysMapFrame(m, capSlot, outPtr).1 != Refused() <==>
            var cap, next := Get(Cur(m).caps, capSlot), m.nextShared;
            && cap.Some? && cap.value.capType == Frame && next + cap.value.badge * PAGE <= SHARED_VA_END
            && var (vm, ok) := MapRange(m.vm, Cur(m).space, next, cap.value.obj, cap.value.badge, false);
               ok && UserBuffer(m.(vm := vm, nextShared := next + cap.value.badge * PAGE), outPtr, 8)
  {
    hide MapRange, UserBuffer, Get;
  }

  lemma FrameRangeIff(m: State, capSlot: nat, cap: CapEntry, outPtr: nat)
    requires Awake(m) && MemoryOk(m) && VmOk(m.vm) && Get(Cur(m).caps, capSlot) == Some(cap) && cap.capType == Frame
    ensures var space, window := m.vm.spaces[Cur(m).space], Window(m.nextShared, cap.badge);
      var (vm, ok) := MapRange(m.vm, Cur(m).space, m.nextShared, cap.obj, cap.badge, false);
      && (ok <==> window !! space.pages.Keys && Left(m.vm) >= Missing(space, window))
      && (ok ==> (UserBuffer(m.(vm := vm, nextShared := m.nextShared + cap.badge * PAGE), outPtr, 8)
                  <==> BufferWith(space, window, outPtr, 8)))
  {
    hide VmOk, PagesEntitled, RunOk, MapRange, UserBuffer, RangeOk, BufferWith, Window, Left, Missing, Reached,
      PagesAdded;
    var root, next := Cur(m).space, m.nextShared;
    GetHeld(m, capSlot, cap);
    assert FrameCapSound(m.vm, cap);
    RunRangeOk(m.vm, root, cap.obj, cap.badge);
    MapRangeIff(m.vm, root, next, cap.obj, cap.badge, false);
    var (vm, ok) := MapRange(m.vm, root, next, cap.obj, cap.badge, false);
    if ok {
      WindowWritable(m.vm, root, next, cap.obj, cap.badge);
      BufferWithIs(m, m.(vm := vm, nextShared := next + cap.badge * PAGE), Window(next, cap.badge), outPtr, 8);
    }
  }

  // IOMAP succeeds exactly when the length is allowed, a capability covers the pages,
  // the window has room and its tables can be paid for, whatever is mapped there.
  lemma IoMapSucceedsIff(m: State, phys: nat, len: nat)
    requires Awake(m) && MemoryOk(m) && AllLegitimate(m)
    ensures VmOk(m.vm)
    ensures SysIoMap(m, phys, len).1 != Refused() <==>
            var pages := DivCeil(phys % PAGE + len, PAGE);
            && 0 < len <= 0x100_0000 && SlotsAuthorizeMmio(Cur(m).caps, PageDown(phys), pages * PAGE)
            && m.nextMmio + pages * PAGE <= MMIO_VA_END
            && Left(m.vm) >= Missing(m.vm.spaces[Cur(m).space], Window(m.nextMmio, pages))
  {
    hide MemoryOk, VmOk, SlotsAuthorizeMmio, AllLegitimate, MapRange, Window, Left, Missing, DivCeil, PageDown;
    SoundVm(m);
    DownPlusOffset(phys);
    var base, pages := PageDown(phys), DivCeil(phys % PAGE + len, PAGE);
    if SlotsAuthorizeMmio(Cur(m).caps, base, pages * PAGE) {
      DeviceRangeIff(m, base, pages);
    }
  }

  lemma DownPlusOffset(a: nat)
    ensures PageDown(a) + a % PAGE == a && PageDown(a) % PAGE == 0
  {
  }

  lemma DeviceRangeIff(m: State, base: nat, pages: nat)
    requires Awake(m) && MemoryOk(m) && AllLegitimate(m) && VmOk(m.vm)
    requires base % PAGE == 0 && SlotsAuthorizeMmio(Cur(m).caps, base, pages * PAGE)
    ensures MapRange(m.vm, Cur(m).space, m.nextMmio, base, pages, true).1 <==>
            Left(m.vm) >= Missing(m.vm.spaces[Cur(m).space], Window(m.nextMmio, pages))
  {
    hide MemoryOk, VmOk, RangeOk, SlotsAuthorizeMmio, AllLegitimate, MapRange, Window, Left, Missing, Reached;
    MmioConfined(m, m.current, base, pages * PAGE);
    DeviceRangeOk(m.vm.ledger, Cur(m).space, base, pages);
    MapRangeIff(m.vm, Cur(m).space, m.nextMmio, base, pages, true);
  }

  // ----- DMA_ALLOC -----

  // DMA_ALLOC succeeds exactly when the length is allowed and can be paid, a run is
  // there, window and tables are to be had, and the reply fits.
  lemma DmaAllocSucceedsIff(m: State, len: nat, outPtr: nat)
    requires Awake(m) && MemoryOk(m)
    ensures VmOk(m.vm)
    ensures SysDmaAlloc(m, len, outPtr).1 != Refused() <==>
            var pages, space := DivCeil(len, PAGE), m.vm.spaces[Cur(m).space];
            var window := Window(m.nextDma, pages);
            && 0 < len <= 0x10_0000 && Charge(Cur(m).caps, pages * PAGE).1 && RunThere(m.vm.pool, pages)
            && m.nextDma + pages * PAGE <= DMA_VA_END
            && window !! space.pages.Keys && LeftAfterRun(m.vm, pages) >= Missing(space, window)
            && BufferWith(space, window, outPtr, 16)
  {
    hide MemoryOk, VmOk, MapRange, UserBuffer, BufferWith, Window, LeftAfterRun, Missing, SysDmaAlloc, AllocRun, Charge,
      RunThere, DivCeil;
    SoundVm(m);
    var pages := DivCeil(len, PAGE);
    DmaIs(m, len, outPtr);
    if len > 0 {
      SomePages(len);
      PrivateRunThere(m, pages);
      if RunThere(m.vm.pool, pages) {
        DmaRangeIff(m, pages, outPtr);
      }
    }
  }

  lemma SomePages(len: nat)
    requires len > 0
    ensures DivCeil(len, PAGE) > 0
  {
  }

  lemma DmaIs(m: State, len: nat, outPtr: nat)
    requires Awake(m)
    ensures var (vm, run) := AllocRun(m.vm, DivCeil(len, PAGE), Some(Cur(m).space));
      run.Some? ==> Cur(m).space in vm.spaces
    ensures SysDmaAlloc(m, len, outPtr).1 != Refused() <==>
            var pages := DivCeil(len, PAGE);
            var (vm, run) := AllocRun(m.vm, pages, Some(Cur(m).space));
            && 0 < len <= 0x10_0000 && Charge(Cur(m).caps, pages * PAGE).1 && run.Some?
            && m.nextDma + pages * PAGE <= DMA_VA_END
            && var (v, ok) := MapRange(vm, Cur(m).space, m.nextDma, run.value, pages, false);
               ok && UserBuffer(m.(vm := v, nextDma := m.nextDma + pages * PAGE), outPtr, 16)
  {
    hide AllocContiguous, MapRange, UserBuffer, Charge, Refund, DivCeil, Record;
    var pages := DivCeil(len, PAGE);
    var (vm, run) := AllocRun(m.vm, pages, Some(Cur(m).space));
    if run.Some? {
      var v := MapRange(vm, Cur(m).space, m.nextDma, run.value, pages, false).0;
      var plain := m.(vm := v, nextDma := m.nextDma + pages * PAGE);
      SameBuffer(plain, SetCaps(plain, m.current, Charge(Cur(m).caps, pages * PAGE).0), outPtr);
    }
  }

  // Whether a buffer is good does not depend on the caller's capabilities.
  lemma SameBuffer(m: State, w: State, outPtr: nat)
    requires Running(m) && Running(w) && Cur(w).space == Cur(m).space && w.vm == m.vm
    ensures UserBuffer(w, outPtr, 16) <==> UserBuffer(m, outPtr, 16)
  {
    hide UserRange;
  }

  lemma PrivateRunThere(m: State, pages: nat)
    requires Awake(m) && pages > 0
    ensures AllocRun(m.vm, pages, Some(Cur(m).space)).1.Some? <==> RunThere(m.vm.pool, pages)
  {
    RunThereIff(m.vm.pool, pages);
    hide Bump, RunThere;
  }

  lemma DmaRangeIff(m: State, pages: nat, outPtr: nat)
    requires Awake(m) && VmOk(m.vm) && AllocRun(m.vm, pages, Some(Cur(m).space)).1.Some?
    ensures var (vm, run) := AllocRun(m.vm, pages, Some(Cur(m).space));
      var space, window := m.vm.spaces[Cur(m).space], Window(m.nextDma, pages);
      Cur(m).space in vm.spaces &&
      var (v, ok) := MapRange(vm, Cur(m).space, m.nextDma, run.value, pages, false);
      && (ok <==> window !! space.pages.Keys && LeftAfterRun(m.vm, pages) >= Missing(space, window))
      && (ok ==> (UserBuffer(m.(vm := v, nextDma := m.nextDma + pages * PAGE), outPtr, 16)
                  <==> BufferWith(space, window, outPtr, 16)))
  {
    hide VmOk, RunOk, MapRange, UserBuffer, RangeOk, BufferWith, Window, Left, Missing, Reached, PagesAdded, AllocRun,
      RunGranted;
    var root, next := Cur(m).space, m.nextDma;
    var (vm, run) := AllocRun(m.vm, pages, Some(root));
    AllocRunOk(m.vm, pages, Some(root));
    AllocRunOk(m.vm, pages, None);
    SamePools(m.vm, pages, root);
    SamePoolLeft(vm, AllocRun(m.vm, pages, None).0);
    PrivateRangeOk(m.vm, vm, root, run.value, pages);
    MapRangeIff(vm, root, next, run.value, pages, false);
    var (v, ok) := MapRange(vm, root, next, run.value, pages, false);
    if ok {
      WindowWritable(vm, root, next, run.value, pages);
      BufferWithIs(m, m.(vm := v, nextDma := next + pages * PAGE), Window(next, pages), outPtr, 16);
    }
  }

  lemma SamePools(vm: Vm, n: nat, root: nat)
    ensures AllocRun(vm, n, Some(root)).0.pool == AllocRun(vm, n, None).0.pool
  {
    hide AllocContiguous, Record;
  }
}
