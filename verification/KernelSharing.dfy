// Shared memory: what a mapping call maps, that mappings last, and that two
// processes which mapped one run see the same bytes.
module KernelSharing {
  import opened Base
  import opened FramePool
  import opened Capability
  import opened AddressSpace
  import opened Machine
  import opened Syscalls
  import opened KernelSafety
  import opened KernelAuthority
  import opened KernelMemory
  import opened KernelIsolation
  import KernelRuns

  // Process i sees the n pages of the run, in order and writable, from va on.
  ghost predicate MapsRun(m: State, i: nat, va: nat, base: nat, n: nat) {
    && i < |m.procs| && m.procs[i].space in m.vm.spaces
    && forall k: nat :: k < n ==> HasPage(m.vm.spaces[m.procs[i].space], va, base, k)
  }

  predicate HasPage(space: Space, va: nat, base: nat, k: nat) {
    va + k * PAGE in space.pages && space.pages[va + k * PAGE] == UserPte(base + k * PAGE, true, false)
  }

  // ----- What the calls map -----

  lemma WindowMaps(m: State, next: nat, end: nat, base: nat, n: nat)
    requires Awake(m) && VmOk(m.vm) && RangeOk(m.vm.ledger, Cur(m).space, base, n, false)
    requires MapWindow(m, next, end, base, n, false).1
    ensures forall k: nat :: k < n ==>
              HasPage(MapWindow(m, next, end, base, n, false).0.spaces[Cur(m).space], next, base, k)
  {
    hide VmOk, RangeOk, MapRange;
    forall k: nat | k < n
      ensures HasPage(MapWindow(m, next, end, base, n, false).0.spaces[Cur(m).space], next, base, k)
    {
      MapRangeMaps(m.vm, Cur(m).space, next, base, n, k);
    }
  }

  // A MAP_FRAME that returns an address has mapped the whole run named by its
  // capability there.
  lemma MapFrameMaps(m: State, capSlot: nat, outPtr: nat)
    requires Awake(m) && MemoryOk(m)
    ensures var (w, r) := SysMapFrame(m, capSlot, outPtr);
      r != Refused() ==>
        && Get(Cur(m).caps, capSlot).Some? && r == Returned(0, [m.nextShared])
        && var cap := Get(Cur(m).caps, capSlot).value;
           cap.capType == Frame && MapsRun(w, m.current, m.nextShared, cap.obj, cap.badge)
  {
    hide VmOk, PagesEntitled, RunOk, MapWindow, UserBuffer, RangeOk;
    var cap := Get(Cur(m).caps, capSlot);
    if cap.Some? && cap.value.capType == Frame {
      GetHeld(m, capSlot, cap.value);
      assert FrameCapSound(m.vm, cap.value);
      RunRangeOk(m.vm, Cur(m).space, cap.value.obj, cap.value.badge);
      if MapWindow(m, m.nextShared, SHARED_VA_END, cap.value.obj, cap.value.badge, false).1 {
        WindowMaps(m, m.nextShared, SHARED_VA_END, cap.value.obj, cap.value.badge);
      }
    }
  }

  // A FRAME_ALLOC that returns an address has mapped its whole run there and put
  // the capability for exactly that run into the slot.
  lemma FrameAllocMaps(m: State, pages: nat, capSlot: nat, outPtr: nat)
    requires Awake(m) && MemoryOk(m)
    ensures var (w, r) := SysFrameAlloc(m, pages, capSlot, outPtr);
      r != Refused() ==>
        && r == Returned(0, [m.nextShared]) && AllocRun(m.vm, pages, None).1.Some?
        && var base := AllocRun(m.vm, pages, None).1.value;
           && MapsRun(w, m.current, m.nextShared, base, pages)
           && Get(w.procs[m.current].caps, capSlot) == Some(FrameCap(base, pages))
  {
    hide VmOk, PagesEntitled, FrameCapsSound, RunOk, RunGranted, MapWindow, UserBuffer, RangeOk, AllocRun, FreeRun,
      Charge, Refund;
    var (vm, run) := AllocRun(m.vm, pages, None);
    AllocRunOk(m.vm, pages, None);
    if SysFrameAlloc(m, pages, capSlot, outPtr).1 != Refused() && run.Some? {
      GrantedRunOk(m.vm, vm, run.value, pages);
      RunRangeOk(vm, Cur(m).space, run.value, pages);
      var granted := SetCaps(m, m.current, Charge(Cur(m).caps, pages * PAGE).0).(vm := vm);
      WindowMaps(granted, m.nextShared, SHARED_VA_END, run.value, pages);
      ChargeKeepsRoom(Cur(m).caps, pages * PAGE, capSlot);
    }
  }

  // A DMA_ALLOC that returns has mapped its whole run, in order, at the address it
  // reports, and reports where the run is.
  lemma DmaAllocMaps(m: State, len: nat, outPtr: nat)
    requires Awake(m) && MemoryOk(m)
    ensures var (w, r) := SysDmaAlloc(m, len, outPtr);
      var pages, run := DivCeil(len, PAGE), AllocRun(m.vm, DivCeil(len, PAGE), Some(Cur(m).space)).1;
      r != Refused() ==>
        && run.Some? && r == Returned(0, [m.nextDma, run.value])
        && MapsRun(w, m.current, m.nextDma, run.value, pages)
        && forall f :: f in RunFrames(run.value, pages) ==> f !in m.vm.ledger
  {
    hide VmOk, PagesEntitled, FrameCapsSound, MapWindow, UserBuffer, RangeOk, AllocRun, Charge, Refund, DivCeil,
      RunFrames;
    var pages, root := DivCeil(len, PAGE), Cur(m).space;
    var (vm, run) := AllocRun(m.vm, pages, Some(root));
    AllocRunOk(m.vm, pages, Some(root));
    if SysDmaAlloc(m, len, outPtr).1 != Refused() && run.Some? {
      PrivateRangeOk(m.vm, vm, root, run.value, pages);
      var granted := SetCaps(m, m.current, Charge(Cur(m).caps, pages * PAGE).0).(vm := vm);
      WindowMaps(granted, m.nextDma, DMA_VA_END, run.value, pages);
    }
  }

  predicate LeadsToDevice(space: Space, va: nat, base: nat, k: nat) {
    va + k * PAGE in space.pages && space.pages[va + k * PAGE] == DevicePte(base + k * PAGE)
  }

  // An IOMAP that returns an address shows the caller the device pages it asked for
  // if and only if no page of the window already led elsewhere: an already mapped
  // page, left by an earlier call that failed half way, counts as success.
  lemma IoMapShowsIff(m: State, phys: nat, len: nat)
    requires Awake(m) && MemoryOk(m) && AllLegitimate(m)
    ensures var (w, r) := SysIoMap(m, phys, len);
      var base := PageDown(phys);
      var pages := DivCeil(phys % PAGE + len, PAGE);
      var before, va := m.vm.spaces[Cur(m).space], m.nextMmio;
      r != Refused() ==>
        && r == Returned(va + phys % PAGE, []) && Cur(m).space in w.vm.spaces
        && ((forall k: nat :: k < pages ==> LeadsToDevice(w.vm.spaces[Cur(m).space], va, base, k))
            <==> (forall k: nat :: k < pages && va + k * PAGE in before.pages ==> LeadsToDevice(before, va, base, k)))
  {
    hide VmOk, PagesEntitled, FrameCapsSound, SpacesOwned, RangeOk, SlotsAuthorizeMmio, DivCeil, AllLegitimate,
      MapRange;
    var base := PageDown(phys);
    DownIsBelow(phys);
    var pages := DivCeil(phys - base + len, PAGE);
    var root := Cur(m).space;
    if SysIoMap(m, phys, len).1 != Refused() {
      MmioConfined(m, m.current, base, pages * PAGE);
      DeviceRangeOk(m.vm.ledger, root, base, pages);
      var w := MapRange(m.vm, root, m.nextMmio, base, pages, true).0;
      forall k: nat | k < pages
        ensures LeadsToDevice(w.spaces[root], m.nextMmio, base, k)
           <==> (m.nextMmio + k * PAGE in m.vm.spaces[root].pages ==>
                   LeadsToDevice(m.vm.spaces[root], m.nextMmio, base, k))
      {
        DeviceRangeMaps(m.vm, root, m.nextMmio, base, pages, k);
      }
    }
  }

  // It can happen: an IOMAP of two pages finds no table for the second and is
  // refused with the first mapped; the next IOMAP of one page, of another device,
  // succeeds at the same address and shows the first device's page.
  lemma IoMapMisleads(m: State, phys: nat, phys2: nat)
    requires Awake(m) && MemoryOk(m) && AllLegitimate(m)
    requires phys != phys2 && phys % PAGE == 0 && phys2 % PAGE == 0
    requires SlotsAuthorizeMmio(Cur(m).caps, phys, 2 * PAGE) && SlotsAuthorizeMmio(Cur(m).caps, phys2, PAGE)
    requires m.nextMmio + 2 * PAGE <= MMIO_VA_END
    requires var (v, o) := MapPage(m.vm, Cur(m).space, m.nextMmio, DevicePte(phys));
      o == Mapped && MapPage(v, Cur(m).space, m.nextMmio + PAGE, DevicePte(phys + PAGE)).1 == NoTableFrame
    ensures var (w, r) := SysIoMap(m, phys, 2 * PAGE);
      && r == Refused() && w.nextMmio == m.nextMmio && w.procs == m.procs && w.current == m.current
      && Cur(m).space in w.vm.spaces
      && var (x, r2) := SysIoMap(w, phys2, PAGE);
         && r2 == Returned(m.nextMmio, []) && Cur(m).space in x.vm.spaces
         && m.nextMmio in x.vm.spaces[Cur(m).space].pages
         && x.vm.spaces[Cur(m).space].pages[m.nextMmio] == DevicePte(phys) != DevicePte(phys2)
  {
    hide VmOk, PagesEntitled, FrameCapsSound, SpacesOwned, SlotsAuthorizeMmio, AllLegitimate, MapPage, PteOk, Extends,
      OnlySpace, TablesFor;
    var root, va := Cur(m).space, m.nextMmio;
    var v := MapPage(m.vm, root, va, DevicePte(phys)).0;
    var u := MapPage(v, root, va + PAGE, DevicePte(phys + PAGE)).0;
    assert PageDown(phys) == phys && PageDown(phys2) == phys2;
    assert DivCeil(2 * PAGE, PAGE) == 2 && DivCeil(PAGE, PAGE) == 1;
    MmioConfined(m, m.current, phys, 2 * PAGE);
    DevicePagesMap(m.vm, root, phys);
    MapPageOk(m.vm, root, va, DevicePte(phys));
    MapPageTables(m.vm, root, va, DevicePte(phys));
    DevicePagesMap(v, root, phys + PAGE);
    MapPageOk(v, root, va + PAGE, DevicePte(phys + PAGE));
    MapPageTables(v, root, va + PAGE, DevicePte(phys + PAGE));
    assert TablesFor(u.spaces[root], va) by { TablesStay(v.spaces[root], u.spaces[root], va); }
    MapPageTables(u, root, va, DevicePte(phys2));
    TwoPagesStop(m.vm, root, va, phys);
    OnePage(u, root, va, phys2);
  }

  lemma DevicePagesMap(vm: Vm, root: nat, frame: nat)
    requires InMmio(frame)
    ensures PteOk(vm.ledger, root, DevicePte(frame))
  {
  }

  lemma TablesStay(s: Space, t: Space, va: nat)
    requires TablesFor(s, va) && forall k :: k in s.tables ==> k in t.tables
    ensures TablesFor(t, va)
  {
  }

  lemma TwoPagesStop(vm: Vm, root: nat, va: nat, phys: nat)
    requires root in vm.spaces && MapPage(vm, root, va, DevicePte(phys)).1 == Mapped
    requires MapPage(MapPage(vm, root, va, DevicePte(phys)).0, root, va + PAGE, DevicePte(phys + PAGE)).1
             == NoTableFrame
    ensures MapRange(vm, root, va, phys, 2, true)
         == (MapPage(MapPage(vm, root, va, DevicePte(phys)).0, root, va + PAGE, DevicePte(phys + PAGE)).0, false)
  {
    hide MapPage;
  }

  lemma OnePage(vm: Vm, root: nat, va: nat, phys: nat)
    requires root in vm.spaces
    ensures var (w, o) := MapPage(vm, root, va, DevicePte(phys));
      MapRange(vm, root, va, phys, 1, true) == (w, o == Mapped || o == AlreadyMapped)
  {
    hide MapPage;
    var (w, o) := MapPage(vm, root, va, DevicePte(phys));
    if o == Mapped || o == AlreadyMapped {
      assert MapRange(w, root, va + PAGE, phys + PAGE, 0, true) == (w, true);
    }
  }

  // ----- Mappings last -----

  ghost predicate PagesStay(v: Vm, w: Vm) {
    forall r, va :: r in v.spaces && va in v.spaces[r].pages ==>
      r in w.spaces && va in w.spaces[r].pages && w.spaces[r].pages[va] == v.spaces[r].pages[va]
  }

  lemma GrownStay(v: Vm, w: Vm, root: nat)
    requires SpaceGrown(v, w, root)
    ensures PagesStay(v, w)
  {
    hide VmOk;
  }

  lemma MapFrameStays(m: State, capSlot: nat, outPtr: nat)
    requires Awake(m) && MemoryOk(m)
    ensures PagesStay(m.vm, SysMapFrame(m, capSlot, outPtr).0.vm)
  {
    hide MapWindow, VmOk, UserBuffer, RunOk, PagesEntitled, RangeOk, SpaceGrown, NewPagesWithin, SpacesOwned;
    var cap := Get(Cur(m).caps, capSlot);
    if cap.Some? && cap.value.capType == Frame {
      GetHeld(m, capSlot, cap.value);
      assert FrameCapSound(m.vm, cap.value);
      RunRangeOk(m.vm, Cur(m).space, cap.value.obj, cap.value.badge);
      MapWindowOk(m, m.nextShared, SHARED_VA_END, cap.value.obj, cap.value.badge, false);
      GrownStay(m.vm, MapWindow(m, m.nextShared, SHARED_VA_END, cap.value.obj, cap.value.badge, false).0, Cur(m).space);
    }
  }

  lemma IoMapStays(m: State, phys: nat, length: nat)
    requires Awake(m) && MemoryOk(m) && AllLegitimate(m)
    ensures PagesStay(m.vm, SysIoMap(m, phys, length).0.vm)
  {
    hide MapWindow, VmOk, PagesEntitled, FrameCapsSound, SpacesOwned, RangeOk, SlotsAuthorizeMmio, PageDown, DivCeil,
      SpaceGrown, AllLegitimate,
      NewPagesWithin;
    var base := PageDown(phys);
    DownIsBelow(phys);
    var pages := DivCeil(phys - base + length, PAGE);
    if SlotsAuthorizeMmio(Cur(m).caps, base, pages * PAGE) {
      MmioConfined(m, m.current, base, pages * PAGE);
      DeviceRangeOk(m.vm.ledger, Cur(m).space, base, pages);
      MapWindowOk(m, m.nextMmio, MMIO_VA_END, base, pages, true);
      GrownStay(m.vm, MapWindow(m, m.nextMmio, MMIO_VA_END, base, pages, true).0, Cur(m).space);
    }
  }

  lemma SbrkStays(m: State, delta: int)
    requires Awake(m) && MemoryOk(m)
    ensures PagesStay(m.vm, SysSbrk(m, delta).0.vm)
  {
    hide VmOk, PagesEntitled, FrameCapsSound, SpacesOwned, PageUp, AllocMapAll, DataPages, SpaceGrown, NewPagesPrivate;
    var before, after: int := Cur(m).heapBreak, Cur(m).heapBreak + delta;
    if HEAP_START <= after <= HEAP_MAX {
      var from, to := PageUp(before), PageUp(after);
      var n := if delta > 0 && from < to then (to - from) / PAGE else 0;
      AllocMapAllOk(m.vm, Cur(m).space, DataPages(from, n));
      GrownStay(m.vm, AllocMapAll(m.vm, Cur(m).space, DataPages(from, n)).0, Cur(m).space);
    }
  }

  lemma FrameAllocStays(m: State, a: Action)
    requires Awake(m) && MemoryOk(m) && a.FrameAlloc?
    ensures PagesStay(m.vm, SysFrameAlloc(m, a.pages, a.capSlot, a.outPtr).0.vm)
  {
    hide VmOk, AllocRun, Charge, Refund, RunOk, RunGranted, SpaceGrown, NewPagesWithin, RunStillMapped, PagesEntitled,
      FrameCapsSound, FrameAllocMapped, FrameAllocMapOk, FrameAllocAccepted, MapPage, MapWindow, FreeRun;
    AllocRunOk(m.vm, a.pages, None);
    var (vm, run) := AllocRun(m.vm, a.pages, None);
    if 0 < a.pages <= MAX_SHARED_PAGES && Charge(Cur(m).caps, a.pages * PAGE).1 && run.Some? {
      FrameAllocMapping(m, a.pages);
      FrameAllocOutcome(m, a.pages, a.capSlot, a.outPtr);
      GrownStay(vm, FrameAllocMapped(m, a.pages).vm, Cur(m).space);
    }
  }

  lemma DmaAllocStays(m: State, a: Action)
    requires Awake(m) && MemoryOk(m) && a.DmaAlloc?
    ensures PagesStay(m.vm, SysDmaAlloc(m, a.length, a.outPtr).0.vm)
  {
    hide VmOk, AllocRun, Charge, Refund, RunGranted, SpaceGrown, NewPagesWithin, PagesEntitled, FrameCapsSound,
      MapWindow, UserBuffer,
      RangeOk, DivCeil;
    var pages, root := DivCeil(a.length, PAGE), Cur(m).space;
    var (vm, run) := AllocRun(m.vm, pages, Some(root));
    AllocRunOk(m.vm, pages, Some(root));
    if run.Some? {
      var granted := SetCaps(m, m.current, Charge(Cur(m).caps, pages * PAGE).0).(vm := vm);
      PrivateRangeOk(m.vm, vm, root, run.value, pages);
      MapWindowOk(granted, m.nextDma, DMA_VA_END, run.value, pages, false);
      GrownStay(vm, MapWindow(granted, m.nextDma, DMA_VA_END, run.value, pages, false).0, root);
    }
  }

  lemma AddChildVm(c: State, child: Proc, k: nat)
    requires Running(c)
    ensures AddChild(c, child, k).0.vm == c.vm
  {
    hide Insert;
  }

  lemma SpawnStays(m: State, capSlot: nat)
    requires Awake(m) && MemoryOk(m)
    ensures PagesStay(m.vm, SysSpawn(m, capSlot).0.vm)
  {
    hide VmOk, FrameCapsSound, PagesEntitled, SpacesOwned, CreateSpace, SeedCaps, AddChild, Extends;
    var (vm, made) := CreateSpace(m.vm, m.image);
    CreateSpaceOk(m.vm, m.image);
    if made.Some? {
      AddChildVm(m.(vm := vm), NewProc(m.nextPid, made.value.0, made.value.1), capSlot);
    }
  }

  lemma SpawnEnvStays(m: State, envp: nat, len: nat, capSlot: nat)
    requires Awake(m) && MemoryOk(m)
    ensures PagesStay(m.vm, SysSpawnEnv(m, envp, len, capSlot).0.vm)
  {
    hide VmOk, FrameCapsSound, PagesEntitled, SpacesOwned, CreateSpace, AllocMapAll, DataPages, UserRange, DivCeil,
      SeedCaps, SpaceGrown,
      NewPagesPrivate, AddChild, Extends, SysSpawn;
    SpawnStays(m, capSlot);
    var (vm, made) := CreateSpace(m.vm, m.image);
    CreateSpaceOk(m.vm, m.image);
    if made.Some? {
      var root := made.value.0;
      var pages := DivCeil(len, PAGE);
      var copied := AllocMapAll(vm, root, DataPages(HEAP_START, pages)).0;
      CreatedOk(m.vm, vm, root);
      AllocMapAllOk(vm, root, DataPages(HEAP_START, pages));
      GrownStay(vm, copied, root);
      AddChildVm(m.(vm := copied),
                 NewProc(m.nextPid, root, made.value.1).(
                   heapBreak := HEAP_START + pages * PAGE, envpUser := HEAP_START, envpLen := len),
                 capSlot);
    }
  }

  lemma SyscallPagesStay(m: State, a: Action)
    requires Awake(m) && MemoryOk(m) && AllLegitimate(m)
    ensures PagesStay(m.vm, Syscall(m, a).0.vm)
  {
    hide SysFrameAlloc, SysDmaAlloc, SysMapFrame, SysIoMap, SysSbrk, SysSpawn, SysSpawnEnv, VmOk, FrameCapsSound,
      PagesEntitled,
      SpacesOwned, AllLegitimate;
    match a
    case Spawn(capSlot) => SpawnStays(m, capSlot);
    case SpawnEnv(envp, len, capSlot) => SpawnEnvStays(m, envp, len, capSlot);
    case FrameAlloc(_, _, _) => FrameAllocStays(m, a);
    case DmaAlloc(_, _) => DmaAllocStays(m, a);
    case MapFrame(capSlot, outPtr) => MapFrameStays(m, capSlot, outPtr);
    case IoMap(phys, length) => IoMapStays(m, phys, length);
    case Sbrk(delta) => SbrkStays(m, delta);
    case _ =>
      hide Syscall;
      KernelRuns.SyscallMemory(m, a);
  }

  // No step of the kernel takes a page away from any address space.
  lemma PagesStayMapped(m: State, a: Action)
    requires TableOk(m) && MemoryOk(m) && AllLegitimate(m)
    ensures PagesStay(m.vm, Next(m, a).vm)
  {
    hide Syscall, RecvLoop, WaitLoop, WaitPidLoop, MemoryOk, AllLegitimate;
    if Awake(m) && !m.halted {
      match Cur(m).resume
      case InRecv(id, out, dst) => KernelRuns.RecvMemory(m, id, out, dst);
      case InWait(id) => KernelRuns.LoopMemory(m, id);
      case InWaitPid(target) => KernelRuns.LoopMemory(m, target);
      case Abandoned =>
      case InUser => SyscallPagesStay(m, a);
    }
  }

  lemma MapsRunStays(m: State, w: State, i: nat, va: nat, base: nat, n: nat)
    requires MapsRun(m, i, va, base, n) && PagesStay(m.vm, w.vm) && KernelRuns.SpacesKept(m, w)
    ensures MapsRun(w, i, va, base, n)
  {
    var space := m.procs[i].space;
    assert w.procs[i].space == space && space in w.vm.spaces.Keys;
    forall k: nat | k < n
      ensures HasPage(w.vm.spaces[space], va, base, k)
    {
      assert HasPage(m.vm.spaces[space], va, base, k);
    }
  }

  lemma {:induction false} MappingsLast(m: State, earlier: seq<Action>, later: seq<Action>, i: nat, va: nat,
                                        base: nat, n: nat)
    requires Boot(m) && NeverTooLate(m, earlier + later) && MapsRun(After(m, earlier), i, va, base, n)
    ensures MapsRun(After(m, earlier + later), i, va, base, n)
    decreases |later|
  {
    hide Boot, Next, FailsTooLate, MapsRun, MemoryOk, AllLegitimate, TableOk, PagesStay, KernelRuns.SpacesKept;
    if later == [] {
      assert earlier + later == earlier;
    } else {
      var all := earlier + later;
      var init, a := earlier + later[..|later| - 1], later[|later| - 1];
      assert all[..|all| - 1] == init && all[|all| - 1] == a;
      NeverTooLateBefore(m, all);
      MappingsLast(m, earlier, later[..|later| - 1], i, va, base, n);
      RunIsolated(m, init);
      Unforgeable(m, init);
      var v := After(m, init);
      PagesStayMapped(v, a);
      NextSpaces(v, a);
      MapsRunStays(v, Next(v, a), i, va, base, n);
    }
  }

  lemma NextSpaces(m: State, a: Action)
    requires Awake(m)
    ensures KernelRuns.SpacesKept(m, Next(m, a))
  {
    hide Syscall, RecvLoop, WaitLoop, WaitPidLoop;
    if !m.halted {
      match Cur(m).resume
      case InRecv(id, out, dst) => KernelRuns.RecvMemory(m, id, out, dst);
      case InWait(id) => KernelRuns.LoopMemory(m, id);
      case InWaitPid(target) => KernelRuns.LoopMemory(m, target);
      case Abandoned =>
      case InUser => KernelRuns.SyscallSpaces(m, a);
    }
  }

  // ----- Shared memory -----

  lemma RunTranslates(m: State, i: nat, va: nat, base: nat, n: nat, k: nat)
    requires MapsRun(m, i, va, base, n) && k < n * PAGE && va % PAGE == 0
    ensures Translate(m.vm.spaces[m.procs[i].space], va + k) == Some(base + k)
  {
    var q := k / PAGE;
    assert HasPage(m.vm.spaces[m.procs[i].space], va, base, q);
    assert PageDown(va + k) == va + q * PAGE && (va + k) % PAGE == k - q * PAGE;
  }

  // Once one process holds a run mapped at va, and another has mapped the same run
  // at vb, whatever the kernel does between and after, byte k of the one window is
  // byte k of the other.
  lemma SharedMemory(m: State, first: seq<Action>, second: seq<Action>, third: seq<Action>,
                     i: nat, va: nat, j: nat, vb: nat, base: nat, n: nat, k: nat)
    requires Boot(m) && NeverTooLate(m, first + second + third)
    requires MapsRun(After(m, first), i, va, base, n) && MapsRun(After(m, first + second), j, vb, base, n)
    requires va % PAGE == 0 && vb % PAGE == 0 && k < n * PAGE
    ensures var w := After(m, first + second + third);
      && i < |w.procs| && j < |w.procs| && w.procs[i].space in w.vm.spaces && w.procs[j].space in w.vm.spaces
      && Translate(w.vm.spaces[w.procs[i].space], va + k) == Some(base + k)
      && Translate(w.vm.spaces[w.procs[j].space], vb + k) == Some(base + k)
  {
    hide Boot, After, FailsTooLate, Translate;
    assert first + second + third == first + (second + third);
    MappingsLast(m, first, second + third, i, va, base, n);
    MappingsLast(m, first + second, third, j, vb, base, n);
    var w := After(m, first + second + third);
    RunTranslates(w, i, va, base, n, k);
    RunTranslates(w, j, vb, base, n, k);
  }
}
