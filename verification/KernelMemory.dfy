// Isolation of address spaces: which frames processes share, and why.
module KernelMemory {
  import opened Base
  import opened FramePool
  import opened Capability
  import opened AddressSpace
  import ElfImage
  import opened Machine
  import opened Syscalls
  import opened KernelSafety
  import opened KernelAuthority

  // ----- What is to be kept -----

  ghost predicate HoldsFrame(slots: Slots, base: nat, pages: nat) {
    exists k :: 0 <= k < |slots| && slots[k] == Some(FrameCap(base, pages))
  }

  // A Frame capability names a whole run of issued frames.
  ghost predicate FrameCapSound(vm: Vm, c: CapEntry) {
    c.capType == Frame ==> c == FrameCap(c.obj, c.badge) && RunOk(vm.pool, vm.ledger, c.obj, c.badge)
  }

  ghost predicate FrameCapsSound(m: State) {
    && (forall p: nat, k: nat :: HasCap(m, p, k) ==> FrameCapSound(m.vm, CapAt(m, p, k)))
    && (forall c :: InFlight(m, c) ==> FrameCapSound(m.vm, c))
  }

  ghost predicate SpacesOwned(m: State) {
    && (forall i :: 0 <= i < |m.procs| ==> m.procs[i].space in m.vm.spaces)
    && (forall i, j :: 0 <= i < j < |m.procs| ==> m.procs[i].space != m.procs[j].space)
  }

  // A page of process i leads to a shareable run only if i holds its Frame cap.
  ghost predicate PageEntitled(m: State, i: nat, va: nat)
    requires i < |m.procs| && m.procs[i].space in m.vm.spaces && va in m.vm.spaces[m.procs[i].space].pages
  {
    var pte := m.vm.spaces[m.procs[i].space].pages[va];
    !pte.device && pte.frame in m.vm.ledger && m.vm.ledger[pte.frame].Run? ==>
      HoldsFrame(m.procs[i].caps, m.vm.ledger[pte.frame].base, m.vm.ledger[pte.frame].pages)
  }

  ghost predicate PagesEntitled(m: State)
    requires SpacesOwned(m)
  {
    forall i: nat, va: nat :: i < |m.procs| && va in m.vm.spaces[m.procs[i].space].pages ==> PageEntitled(m, i, va)
  }

  ghost predicate MemoryOk(m: State) {
    VmOk(m.vm) && FrameCapsSound(m) && SpacesOwned(m) && PagesEntitled(m)
  }

  // ----- What it means -----

  // Two processes map the same frame of RAM only if both hold a Frame capability
  // for a run that contains it.
  lemma SharedOnlyByFrameCap(m: State, i: nat, j: nat, va: nat, vb: nat)
    requires MemoryOk(m) && i < |m.procs| && j < |m.procs| && i != j
    requires va in m.vm.spaces[m.procs[i].space].pages && vb in m.vm.spaces[m.procs[j].space].pages
    requires var f := m.vm.spaces[m.procs[i].space].pages[va].frame;
      f == m.vm.spaces[m.procs[j].space].pages[vb].frame && !InMmio(f)
    ensures var f := m.vm.spaces[m.procs[i].space].pages[va].frame;
      exists base, pages :: f in RunFrames(base, pages)
                            && HoldsFrame(m.procs[i].caps, base, pages) && HoldsFrame(m.procs[j].caps, base, pages)
  {
    hide Valid, HoldsFrame, FrameCapsSound;
    var si, sj := m.procs[i].space, m.procs[j].space;
    var f := m.vm.spaces[si].pages[va].frame;
    assert SpaceOk(m.vm.ledger, si, m.vm.spaces[si]) && SpaceOk(m.vm.ledger, sj, m.vm.spaces[sj]);
    assert PteOk(m.vm.ledger, si, m.vm.spaces[si].pages[va]) && PteOk(m.vm.ledger, sj, m.vm.spaces[sj].pages[vb]);
    assert si != sj;
    assert m.vm.ledger[f].Run?;
    assert PageEntitled(m, i, va) && PageEntitled(m, j, vb);
    assert f in RunFrames(m.vm.ledger[f].base, m.vm.ledger[f].pages);
  }

  // No mapping of any process leads to a page table of any address space.
  lemma NoTableMapped(m: State, i: nat, va: nat, root: nat)
    requires MemoryOk(m) && i < |m.procs| && va in m.vm.spaces[m.procs[i].space].pages && root in m.vm.spaces
    ensures var f := m.vm.spaces[m.procs[i].space].pages[va].frame;
      f != root && forall k :: k in m.vm.spaces[root].tables ==> m.vm.spaces[root].tables[k] != f
  {
    hide HoldsFrame, FrameCapsSound, RunsOk, PagesEntitled, Ahead;
    var space := m.procs[i].space;
    var pte := m.vm.spaces[space].pages[va];
    assert SpaceOk(m.vm.ledger, space, m.vm.spaces[space]) && SpaceOk(m.vm.ledger, root, m.vm.spaces[root]);
    assert PteOk(m.vm.ledger, space, pte);
    IssuedNotMmio(m.vm, root);
    forall k | k in m.vm.spaces[root].tables
      ensures m.vm.spaces[root].tables[k] != pte.frame
    {
      IssuedNotMmio(m.vm, m.vm.spaces[root].tables[k]);
    }
  }

  lemma IssuedNotMmio(vm: Vm, f: nat)
    requires VmOk(vm) && f in vm.ledger
    ensures !InMmio(f)
  {
    hide RunsOk, SpaceOk;
    assert f in vm.pool.issued;
    assert Usable(vm.pool, f);
    var i: nat :| i < |vm.pool.regions| && InRegion(vm.pool, i, f);
  }

  // Frame capabilities, held or in flight, name the same run or disjoint runs, and
  // no frame they name is free, or can be handed out again.
  lemma FrameCapsApart(m: State, c: CapEntry, d: CapEntry, f: nat)
    requires MemoryOk(m) && c.capType == Frame && d.capType == Frame
    requires (Held(m, c) || InFlight(m, c)) && (Held(m, d) || InFlight(m, d))
    requires f in RunFrames(c.obj, c.badge)
    ensures f in RunFrames(d.obj, d.badge) ==> c == d
    ensures f !in m.vm.pool.free && InOneRegion(m.vm.pool, c.obj, c.badge)
    ensures forall n: nat :: var (q, r) := AllocContiguous(m.vm.pool, n); r.Some? ==> f !in RunFrames(r.value, n)
    ensures var (q, r) := Alloc(m.vm.pool); r != Some(f)
  {
    hide Ahead, HoldsFrame, PagesEntitled, SpacesOwned, SpaceOk, RunFrames, InOneRegion, AllocContiguous, Alloc;
    assert FrameCapSound(m.vm, c) && FrameCapSound(m.vm, d);
    assert f in m.vm.pool.issued;
    AllocCorrect(m.vm.pool);
    forall n: nat
      ensures var (q, r) := AllocContiguous(m.vm.pool, n); r.Some? ==> f !in RunFrames(r.value, n)
    {
      AllocContiguousCorrect(m.vm.pool, n);
    }
  }

  // ----- Steps that leave the address spaces alone -----

  lemma FrameCapLater(v: Vm, w: Vm, c: CapEntry)
    requires FrameCapSound(v, c) && Extends(v, w)
    ensures FrameCapSound(w, c)
  {
  }

  // No step but FRAME_ALLOC makes a new Frame capability.
  lemma FrameCapsFollow(m: State, a: Action, w: State)
    requires Running(m) && FrameCapsSound(m) && Explained(m, a, w) && Extends(m.vm, w.vm)
    requires !(a.FrameAlloc? && Cur(m).resume == InUser)
    ensures FrameCapsSound(w)
  {
    hide FrameCapSound, Get;
    forall p: nat, k: nat | HasCap(w, p, k)
      ensures FrameCapSound(w.vm, CapAt(w, p, k))
    {
      FrameCapFollows(m, a, w, p, k);
    }
    forall c | InFlight(w, c)
      ensures FrameCapSound(w.vm, c)
    {
      if !InFlight(m, c) {
        assert HasCap(m, m.current, a.capSlot) && CapAt(m, m.current, a.capSlot) == c by { GetHeld(m, a.capSlot, c); }
      }
      FrameCapLater(m.vm, w.vm, c);
    }
  }

  lemma GetHeld(m: State, k: nat, c: CapEntry)
    requires Running(m) && Get(Cur(m).caps, k) == Some(c)
    ensures HasCap(m, m.current, k) && CapAt(m, m.current, k) == c
  {
  }

  lemma FrameCapFollows(m: State, a: Action, w: State, p: nat, k: nat)
    requires Running(m) && FrameCapsSound(m) && HasCap(w, p, k) && Origin(m, a, w, p, k) && Extends(m.vm, w.vm)
    requires !(a.FrameAlloc? && Cur(m).resume == InUser)
    ensures FrameCapSound(w.vm, CapAt(w, p, k))
  {
    hide Get;
    var c := CapAt(w, p, k);
    if HasCap(m, p, k) {
      assert FrameCapSound(m.vm, CapAt(m, p, k));
      FrameCapLater(m.vm, w.vm, CapAt(m, p, k));
    } else if p >= |m.procs| {
      SeedsHaveNoFrames(m.nextPid, k);
    } else if a.Grant? && Get(Cur(m).caps, a.src) == Some(c) {
      GetHeld(m, a.src, c);
      FrameCapLater(m.vm, w.vm, c);
    } else if e: nat :| Receives(m, a, e) && m.queues[e][0].cap == Some(c) {
      assert InFlight(m, c);
      FrameCapLater(m.vm, w.vm, c);
    }
  }

  lemma SeedsHaveNoFrames(pid: nat, k: nat)
    ensures k < |SeedCaps(pid)| && SeedCaps(pid)[k].Some? ==> SeedCaps(pid)[k].value.capType != Frame
  {
  }

  // Tables that never lose anything keep every entitlement.
  ghost predicate EntitlementsKept(m: State, w: State) {
    |w.procs| >= |m.procs| &&
    forall i: nat, base, pages :: i < |m.procs| && HoldsFrame(m.procs[i].caps, base, pages) ==>
      HoldsFrame(w.procs[i].caps, base, pages)
  }

  lemma ExplainedEntitlements(m: State, a: Action, w: State)
    requires Running(m) && Explained(m, a, w)
    ensures EntitlementsKept(m, w)
  {
    hide Get, Receives, FlightExplained;
    forall i: nat, base, pages | i < |m.procs| && HoldsFrame(m.procs[i].caps, base, pages)
      ensures HoldsFrame(w.procs[i].caps, base, pages)
    {
      var k: nat :| k < |m.procs[i].caps| && m.procs[i].caps[k] == Some(FrameCap(base, pages));
      assert HasCap(m, i, k);
      assert Origin(m, a, w, i, k);
      assert w.procs[i].caps[k] == Some(FrameCap(base, pages));
    }
  }

  // What a step may do to the address spaces: those of other processes are
  // untouched, and the caller's gains only pages it is entitled to.
  ghost predicate CallerGrown(m: State, w: State)
    requires Running(m)
  {
    && VmOk(w.vm) && Extends(m.vm, w.vm)
    && (forall r :: r in m.vm.spaces && r != Cur(m).space ==> w.vm.spaces[r] == m.vm.spaces[r])
    && Cur(m).space in m.vm.spaces
    && (forall va :: va in m.vm.spaces[Cur(m).space].pages ==>
          && va in w.vm.spaces[Cur(m).space].pages
          && w.vm.spaces[Cur(m).space].pages[va] == m.vm.spaces[Cur(m).space].pages[va])
  }

  ghost predicate NewPagesEntitled(m: State, w: State)
    requires Running(m) && Cur(m).space in m.vm.spaces && Cur(m).space in w.vm.spaces && m.current < |w.procs|
  {
    forall va :: va in w.vm.spaces[Cur(m).space].pages && va !in m.vm.spaces[Cur(m).space].pages ==>
      var pte := w.vm.spaces[Cur(m).space].pages[va];
      !pte.device && pte.frame in w.vm.ledger && w.vm.ledger[pte.frame].Run? ==>
        HoldsFrame(w.procs[m.current].caps, w.vm.ledger[pte.frame].base, w.vm.ledger[pte.frame].pages)
  }

  lemma CallerGrownOk(m: State, w: State)
    requires Running(m) && MemoryOk(m) && CallerGrown(m, w) && EntitlementsKept(m, w)
    requires |w.procs| == |m.procs| && (forall i :: 0 <= i < |m.procs| ==> w.procs[i].space == m.procs[i].space)
    requires NewPagesEntitled(m, w) && FrameCapsSound(w)
    ensures MemoryOk(w)
  {
    hide Valid, RunsOk, HoldsFrame, FrameCapsSound;
    assert SpacesOwned(w);
    forall i: nat, va: nat | i < |w.procs| && va in w.vm.spaces[w.procs[i].space].pages
      ensures PageEntitled(w, i, va)
    {
      EntitledLater(m, w, i, va);
    }
  }

  lemma EntitledLater(m: State, w: State, i: nat, va: nat)
    requires Running(m) && MemoryOk(m) && CallerGrown(m, w) && EntitlementsKept(m, w)
    requires |w.procs| == |m.procs| && (forall j :: 0 <= j < |m.procs| ==> w.procs[j].space == m.procs[j].space)
    requires NewPagesEntitled(m, w)
    requires i < |w.procs| && w.procs[i].space in w.vm.spaces && va in w.vm.spaces[w.procs[i].space].pages
    ensures PageEntitled(w, i, va)
  {
    hide Valid, RunsOk, HoldsFrame, FrameCapsSound;
    var space := m.procs[i].space;
    if i != m.current {
      assert space != Cur(m).space;
    }
    if va in m.vm.spaces[space].pages {
      assert PageEntitled(m, i, va);
      assert SpaceOk(m.vm.ledger, space, m.vm.spaces[space]);
      assert PteOk(m.vm.ledger, space, m.vm.spaces[space].pages[va]);
    }
  }

  lemma SameVmOk(m: State, a: Action, w: State)
    requires Running(m) && MemoryOk(m) && w.vm == m.vm && Explained(m, a, w)
    requires |w.procs| == |m.procs| && (forall i :: 0 <= i < |m.procs| ==> w.procs[i].space == m.procs[i].space)
    requires !(a.FrameAlloc? && Cur(m).resume == InUser)
    ensures MemoryOk(w)
  {
    hide Explained, VmOk, FrameCapsSound, HoldsFrame;
    ExplainedEntitlements(m, a, w);
    FrameCapsFollow(m, a, w);
    CallerGrownOk(m, w) by {
      assert Cur(m).space in m.vm.spaces;
    }
  }

  // ----- Mapping calls -----

  lemma MapWindowOk(m: State, next: nat, end: nat, phys: nat, pages: nat, device: bool)
    requires Awake(m) && VmOk(m.vm) && RangeOk(m.vm.ledger, Cur(m).space, phys, pages, device)
    ensures var v := MapWindow(m, next, end, phys, pages, device).0;
      SpaceGrown(m.vm, v, Cur(m).space) && NewPagesWithin(m.vm, v, Cur(m).space, phys, pages, device)
  {
    hide VmOk, RangeOk, MapRange;
    if next + pages * PAGE <= end {
      MapRangeOk(m.vm, Cur(m).space, next, phys, pages, device);
    } else {
      SpaceGrownSelf(m.vm, Cur(m).space);
    }
  }

  lemma GrownIsCallerGrown(m: State, w: State)
    requires Running(m) && SpaceGrown(m.vm, w.vm, Cur(m).space)
    ensures CallerGrown(m, w)
  {
    hide VmOk;
  }

  lemma RunRangeOk(vm: Vm, root: nat, base: nat, n: nat)
    requires RunOk(vm.pool, vm.ledger, base, n)
    ensures RangeOk(vm.ledger, root, base, n, false)
  {
    forall i: nat | i < n
      ensures PteOk(vm.ledger, root, UserPte(base + i * PAGE, true, false))
    {
      PageMultiple(base, i);
      assert base + i * PAGE in RunFrames(base, n);
    }
  }

  lemma NewPagesInRun(v: Vm, w: Vm, root: nat, base: nat, n: nat)
    requires root in v.spaces && root in w.spaces && NewPagesWithin(v, w, root, base, n, false) && base % PAGE == 0
    ensures forall va :: va in w.spaces[root].pages && va !in v.spaces[root].pages ==>
              !w.spaces[root].pages[va].device && w.spaces[root].pages[va].frame in RunFrames(base, n)
  {
  }

  lemma MapFrameOk(m: State, a: Action)
    requires Awake(m) && MemoryOk(m) && a.MapFrame? && Cur(m).resume == InUser
    ensures MemoryOk(SysMapFrame(m, a.capSlot, a.outPtr).0)
  {
    hide MapWindow, VmOk, UserBuffer, RunOk, Explained, HoldsFrame, PagesEntitled, RangeOk, NewPagesWithin, RunFrames;
    var w := SysMapFrame(m, a.capSlot, a.outPtr).0;
    MappingTables(m, a);
    var cap := Get(Cur(m).caps, a.capSlot);
    if cap.Some? && cap.value.capType == Frame {
      GetHeld(m, a.capSlot, cap.value);
      var base, n := cap.value.obj, cap.value.badge;
      assert FrameCapSound(m.vm, cap.value);
      assert HoldsFrame(Cur(m).caps, base, n) by { HeldFrame(m, a.capSlot, base, n); }
      RunRangeOk(m.vm, Cur(m).space, base, n);
      MapWindowOk(m, m.nextShared, SHARED_VA_END, base, n, false);
      SharedPagesOk(m, a, w, base, n);
    }
  }

  lemma HeldFrame(m: State, k: nat, base: nat, n: nat)
    requires Running(m) && Get(Cur(m).caps, k) == Some(FrameCap(base, n))
    ensures HoldsFrame(Cur(m).caps, base, n)
  {
  }

  // The caller mapped some pages of a run whose capability it holds.
  lemma SharedPagesOk(m: State, a: Action, w: State, base: nat, n: nat)
    requires Running(m) && MemoryOk(m) && RunOk(m.vm.pool, m.vm.ledger, base, n) && SpaceGrown(m.vm, w.vm, Cur(m).space)
    requires NewPagesWithin(m.vm, w.vm, Cur(m).space, base, n, false) && w.procs == m.procs
    requires Explained(m, a, w) && !a.FrameAlloc? && HoldsFrame(Cur(m).caps, base, n)
    ensures MemoryOk(w)
  {
    hide VmOk, Explained, FrameCapsSound, HoldsFrame, NewPagesWithin, SpaceGrown;
    GrownIsCallerGrown(m, w);
    ExplainedEntitlements(m, a, w);
    FrameCapsFollow(m, a, w);
    NewPagesInRun(m.vm, w.vm, Cur(m).space, base, n);
    CallerGrownOk(m, w);
  }

  lemma IoMapOk(m: State, a: Action)
    requires Awake(m) && MemoryOk(m) && AllLegitimate(m) && a.IoMap? && Cur(m).resume == InUser
    ensures MemoryOk(SysIoMap(m, a.phys, a.length).0)
  {
    hide MapWindow, VmOk, Explained, HoldsFrame, PagesEntitled, SlotsAuthorizeMmio, RangeOk, PageDown, DivCeil;
    var w := SysIoMap(m, a.phys, a.length).0;
    MappingTables(m, a);
    var base := PageDown(a.phys);
    DownIsBelow(a.phys);
    var pages := DivCeil(a.phys - base + a.length, PAGE);
    if a.length != 0 && a.length <= 0x100_0000 && SlotsAuthorizeMmio(Cur(m).caps, base, pages * PAGE) {
      MmioConfined(m, m.current, base, pages * PAGE);
      DeviceRangeOk(m.vm.ledger, Cur(m).space, base, pages);
      MapWindowOk(m, m.nextMmio, MMIO_VA_END, base, pages, true);
      DevicePagesOk(m, a, w, base, pages);
    }
  }

  lemma DownIsBelow(a: nat)
    ensures PageDown(a) <= a && PageDown(a) % PAGE == 0
  {
  }

  lemma DeviceRangeOk(ledger: map<nat, Use>, root: nat, base: nat, n: nat)
    requires MMIO_BASE <= base && base + n * PAGE <= MMIO_END
    ensures RangeOk(ledger, root, base, n, true)
  {
    forall i: nat | i < n
      ensures PteOk(ledger, root, DevicePte(base + i * PAGE))
    {
      assert i * PAGE + PAGE <= n * PAGE;
    }
  }

  lemma DevicePagesOk(m: State, a: Action, w: State, base: nat, n: nat)
    requires Running(m) && MemoryOk(m) && SpaceGrown(m.vm, w.vm, Cur(m).space)
    requires NewPagesWithin(m.vm, w.vm, Cur(m).space, base, n, true) && w.procs == m.procs
    requires Explained(m, a, w) && !a.FrameAlloc?
    ensures MemoryOk(w)
  {
    hide VmOk, Explained, FrameCapsSound, HoldsFrame, SpaceGrown;
    GrownIsCallerGrown(m, w);
    ExplainedEntitlements(m, a, w);
    FrameCapsFollow(m, a, w);
    CallerGrownOk(m, w);
  }

  // The caller gained only private pages.
  lemma PrivatePagesOk(m: State, a: Action, w: State)
    requires Running(m) && MemoryOk(m) && SpaceGrown(m.vm, w.vm, Cur(m).space)
    requires NewPagesPrivate(m.vm, w.vm, Cur(m).space)
    requires |w.procs| == |m.procs| && (forall i :: 0 <= i < |m.procs| ==> w.procs[i].space == m.procs[i].space)
    requires Explained(m, a, w) && !a.FrameAlloc?
    ensures MemoryOk(w)
  {
    hide VmOk, Explained, FrameCapsSound, HoldsFrame, SpaceGrown;
    GrownIsCallerGrown(m, w);
    ExplainedEntitlements(m, a, w);
    FrameCapsFollow(m, a, w);
    CallerGrownOk(m, w);
  }

  lemma SbrkOk(m: State, a: Action)
    requires Awake(m) && MemoryOk(m) && a.Sbrk? && Cur(m).resume == InUser
    ensures MemoryOk(SysSbrk(m, a.delta).0)
  {
    hide VmOk, Explained, AllocMapAll, DataPages, PageUp, FrameCapsSound, PagesEntitled, NewPagesPrivate, SpaceGrown;
    var w := SysSbrk(m, a.delta).0;
    MappingTables(m, a);
    if w != m {
      var before, after: int := Cur(m).heapBreak, Cur(m).heapBreak + a.delta;
      var from, to := PageUp(before), PageUp(after);
      var n := if a.delta > 0 && from < to then (to - from) / PAGE else 0;
      AllocMapAllOk(m.vm, Cur(m).space, DataPages(from, n));
      PrivatePagesOk(m, a, w);
    }
  }

  lemma DmaAllocOk(m: State, a: Action)
    requires Awake(m) && MemoryOk(m) && BudgetsFit(m) && a.DmaAlloc? && Cur(m).resume == InUser
    ensures MemoryOk(SysDmaAlloc(m, a.length, a.outPtr).0)
  {
    hide VmOk, Explained, AllocRun, MapWindow, UserBuffer, Charge, Refund, PagesEntitled, FrameCapsSound, BudgetsFit,
      NewPagesPrivate, SpaceGrown, RangeOk, NewPagesWithin, DivCeil;
    var w := SysDmaAlloc(m, a.length, a.outPtr).0;
    DmaAllocTables(m, a);
    var pages := DivCeil(a.length, PAGE);
    var (charged, paid) := Charge(Cur(m).caps, pages * PAGE);
    if 0 < a.length <= 0x10_0000 && paid {
      var root := Cur(m).space;
      var (vm, run) := AllocRun(m.vm, pages, Some(root));
      AllocRunOk(m.vm, pages, Some(root));
      if run.Some? {
        var granted := SetCaps(m, m.current, charged).(vm := vm);
        PrivateRangeOk(m.vm, vm, root, run.value, pages);
        MapWindowOk(granted, m.nextDma, DMA_VA_END, run.value, pages, false);
        var mapped := MapWindow(granted, m.nextDma, DMA_VA_END, run.value, pages, false).0;
        DmaPages(m.vm, vm, mapped, root, run.value, pages);
        PrivatePagesOk(m, a, w);
      } else {
        AllocOnlyGrown(m.vm, vm, root);
        PrivatePagesOk(m, a, w);
      }
    }
  }

  lemma AllocOnlyGrown(v: Vm, w: Vm, root: nat)
    requires VmOk(w) && Extends(v, w) && w.spaces == v.spaces && w.ledger == v.ledger && root in v.spaces
    ensures SpaceGrown(v, w, root) && NewPagesPrivate(v, w, root)
  {
  }

  lemma PrivateRangeOk(v: Vm, w: Vm, root: nat, base: nat, n: nat)
    requires RunGranted(v, w, base, n, Some(root))
    ensures RangeOk(w.ledger, root, base, n, false)
  {
    forall i: nat | i < n
      ensures PteOk(w.ledger, root, UserPte(base + i * PAGE, true, false))
    {
      PageMultiple(base, i);
      assert base + i * PAGE in RunFrames(base, n);
    }
  }

  lemma DmaPages(u: Vm, v: Vm, w: Vm, root: nat, base: nat, n: nat)
    requires RunGranted(u, v, base, n, Some(root)) && Extends(u, v) && v.spaces == u.spaces
    requires SpaceGrown(v, w, root) && NewPagesWithin(v, w, root, base, n, false)
    ensures SpaceGrown(u, w, root) && NewPagesPrivate(u, w, root)
  {
    hide VmOk;
    NewPagesInRun(v, w, root, base, n) by { assert base % PAGE == 0; }
  }

  // ----- Creating processes -----

  // Old spaces are untouched; a new one, if made, has private pages only.
  ghost predicate SpaceCreated(v: Vm, w: Vm, root: nat) {
    && VmOk(w) && Extends(v, w)
    && (forall r :: r in v.spaces ==> w.spaces[r] == v.spaces[r])
    && root !in v.spaces && root in w.spaces
    && (forall va :: va in w.spaces[root].pages ==>
          var pte := w.spaces[root].pages[va];
          !pte.device && pte.frame in w.ledger && w.ledger[pte.frame] == Private(root))
  }

  ghost predicate OldSpacesKept(v: Vm, w: Vm) {
    VmOk(w) && Extends(v, w) && forall r :: r in v.spaces ==> w.spaces[r] == v.spaces[r]
  }

  lemma CreatedGrows(u: Vm, v: Vm, w: Vm, root: nat)
    requires SpaceCreated(u, v, root) && SpaceGrown(v, w, root) && NewPagesPrivate(v, w, root)
    ensures SpaceCreated(u, w, root)
  {
    hide VmOk;
    forall va | va in w.spaces[root].pages
      ensures var pte := w.spaces[root].pages[va];
        !pte.device && pte.frame in w.ledger && w.ledger[pte.frame] == Private(root)
    {
      if va in v.spaces[root].pages {
        assert w.spaces[root].pages[va] == v.spaces[root].pages[va];
      }
    }
  }

  lemma CreatedKeeps(v: Vm, w: Vm, root: nat)
    requires SpaceCreated(v, w, root)
    ensures OldSpacesKept(v, w)
  {
    hide VmOk;
  }

  lemma LoadIntoOk(vm: Vm, root: nat, image: seq<byte>)
    requires VmOk(vm) && root in vm.spaces
    ensures var w := ElfImage.LoadInto(vm, root, image).0; SpaceGrown(vm, w, root) && NewPagesPrivate(vm, w, root)
  {
    hide VmOk, AllocMapAll, ElfImage.PlanOf, ElfImage.AllCopyable, ElfImage.ImageSegments, ElfImage.CheckIdent,
      SpaceGrown, NewPagesPrivate;
    var w := ElfImage.LoadInto(vm, root, image).0;
    SpaceGrownSelf(vm, root);
    assert NewPagesPrivate(vm, vm, root) by { NothingNew(vm, root); }
    if ElfImage.CheckIdent(image).None? && ElfImage.ImageSegments(image).Some? {
      AllocMapAllOk(vm, root, ElfImage.PlanOf(ElfImage.ImageSegments(image).value));
    }
  }

  lemma NothingNew(vm: Vm, root: nat)
    requires root in vm.spaces
    ensures NewPagesPrivate(vm, vm, root)
  {
  }

  lemma CreateSpaceOk(vm: Vm, image: seq<byte>)
    requires VmOk(vm)
    ensures var (w, made) := CreateSpace(vm, image);
      OldSpacesKept(vm, w) && (made.Some? ==> SpaceCreated(vm, w, made.value.0))
  {
    hide VmOk, NewSpace, ElfImage.LoadInto, AllocMapAll, SpaceGrown, NewPagesPrivate, DataPages;
    NewSpaceOk(vm);
    var (v1, root) := NewSpace(vm);
    if root.Some? {
      CreatedEmpty(vm, v1, root.value);
      CreatedKeeps(vm, v1, root.value);
      LoadIntoOk(v1, root.value, image);
      var (v2, loaded) := ElfImage.LoadInto(v1, root.value, image);
      CreatedGrows(vm, v1, v2, root.value);
      CreatedKeeps(vm, v2, root.value);
      if loaded.Entry? {
        var stack := DataPages(USER_STACK_VA, USER_STACK_PAGES);
        CreatedOk(vm, v2, root.value);
        AllocMapAllOk(v2, root.value, stack);
        CreatedGrows(vm, v2, AllocMapAll(v2, root.value, stack).0, root.value);
        CreatedKeeps(vm, AllocMapAll(v2, root.value, stack).0, root.value);
      }
    }
  }

  lemma OldExtends(v: Vm, w: Vm)
    requires OldSpacesKept(v, w)
    ensures VmOk(w) && Extends(v, w)
  {
    hide VmOk, Extends;
  }

  lemma CreatedOk(v: Vm, w: Vm, root: nat)
    requires SpaceCreated(v, w, root)
    ensures VmOk(w) && root in w.spaces
  {
  }

  lemma CreatedEmpty(v: Vm, w: Vm, root: nat)
    requires VmOk(w) && Extends(v, w) && root !in v.spaces && w.spaces == v.spaces[root := Space(map[], map[])]
    ensures SpaceCreated(v, w, root)
  {
    hide VmOk;
  }

  lemma OldKeptOk(m: State, a: Action, w: State)
    requires Running(m) && MemoryOk(m) && OldSpacesKept(m.vm, w.vm) && w == m.(vm := w.vm) && !a.FrameAlloc?
    ensures MemoryOk(w)
  {
    hide VmOk, FrameCapsSound, HoldsFrame, Explained;
    OnlyVmExplained(m, a, w);
    ExplainedEntitlements(m, a, w);
    FrameCapsFollow(m, a, w);
    CallerGrownOk(m, w);
  }

  lemma AddChildOk(m: State, a: Action, c: State, child: Proc, capSlot: nat)
    requires Awake(m) && TableOk(m) && MemoryOk(m) && (a.Spawn? || a.SpawnEnv?) && Cur(m).resume == InUser
    requires c == m.(vm := c.vm) && SpaceCreated(m.vm, c.vm, child.space)
    requires child.pid == m.nextPid && child.caps == SeedCaps(m.nextPid)
    ensures MemoryOk(AddChild(c, child, capSlot).0)
  {
    hide VmOk, FrameCapsSound, HoldsFrame, Explained, SeedCaps, Insert, TableOk;
    var w := AddChild(c, child, capSlot).0;
    CreatedKeeps(m.vm, c.vm, child.space);
    AddChildTables(m, a, c, child, capSlot);
    ExplainedEntitlements(m, a, w);
    FrameCapsFollow(m, a, w);
    if |w.procs| == |m.procs| {
      CallerGrownOk(m, w);
    } else {
      assert w.procs[|m.procs|] == child;
      assert forall i :: 0 <= i < |m.procs| ==> w.procs[i].space == m.procs[i].space;
      NewcomerOk(m, w);
    }
  }

  lemma NewcomerOk(m: State, w: State)
    requires Running(m) && MemoryOk(m) && |w.procs| == |m.procs| + 1 && EntitlementsKept(m, w) && FrameCapsSound(w)
    requires forall i :: 0 <= i < |m.procs| ==> w.procs[i].space == m.procs[i].space
    requires SpaceCreated(m.vm, w.vm, w.procs[|m.procs|].space)
    ensures MemoryOk(w)
  {
    hide Valid, RunsOk, HoldsFrame, FrameCapsSound;
    assert SpacesOwned(w);
    forall i: nat, va: nat | i < |w.procs| && va in w.vm.spaces[w.procs[i].space].pages
      ensures PageEntitled(w, i, va)
    {
      if i < |m.procs| {
        var space := m.procs[i].space;
        assert PageEntitled(m, i, va);
        assert SpaceOk(m.vm.ledger, space, m.vm.spaces[space]);
        assert PteOk(m.vm.ledger, space, m.vm.spaces[space].pages[va]);
      }
    }
  }

  lemma SpawnOk(m: State, a: Action)
    requires Awake(m) && TableOk(m) && MemoryOk(m) && (a.Spawn? || a.SpawnEnv?) && Cur(m).resume == InUser
    ensures MemoryOk(Syscall(m, a).0)
  {
    hide VmOk, FrameCapsSound, Explained, SeedCaps, TableOk, AddChild, CreateSpace, AllocMapAll, DataPages, UserRange,
      DivCeil,
      PagesEntitled, SpaceGrown, NewPagesPrivate;
    var (vm, made) := CreateSpace(m.vm, m.image);
    CreateSpaceOk(m.vm, m.image);
    OldKeptOk(m, a, m.(vm := vm));
    if made.Some? {
      var root := made.value.0;
      var child := NewProc(m.nextPid, root, made.value.1);
      AddChildOk(m, a, m.(vm := vm), child, a.capSlot);
      if a.SpawnEnv? {
        var pages := DivCeil(a.len, PAGE);
        var copied := AllocMapAll(vm, root, DataPages(HEAP_START, pages)).0;
        CreatedOk(m.vm, vm, root);
        AllocMapAllOk(vm, root, DataPages(HEAP_START, pages));
        CreatedGrows(m.vm, vm, copied, root);
        CreatedKeeps(m.vm, copied, root);
        OldKeptOk(m, a, m.(vm := copied));
        AddChildOk(m, a, m.(vm := copied),
                   child.(heapBreak := HEAP_START + pages * PAGE, envpUser := HEAP_START, envpLen := a.len), a.capSlot);
      }
    }
  }

  // ----- FRAME_ALLOC -----

  // The guards of a FRAME_ALLOC that fails too late: it could pay, it got its run,
  // its window had room and its first page was mapped, yet the call is refused
  // (a later page, the out pointer or the destination slot is bad).
  ghost predicate FailsAfterMapping(m: State, pages: nat, capSlot: nat, outPtr: nat)
    requires Awake(m)
  {
    var (charged, paid) := Charge(Cur(m).caps, pages * PAGE);
    var (vm, run) := AllocRun(m.vm, pages, None);
    && 0 < pages <= MAX_SHARED_PAGES && paid && run.Some?
    && Cur(m).space in vm.spaces
    && m.nextShared + pages * PAGE <= SHARED_VA_END
    && MapPage(vm, Cur(m).space, m.nextShared, UserPte(run.value, true, false)).1 == Mapped
    && !FrameAllocAccepted(m, FrameAllocMapped(m, pages), FrameAllocMapOk(m, pages), capSlot, outPtr)
  }

  // The state after FRAME_ALLOC's mapping attempt, and whether it succeeded.
  ghost function FrameAllocMapped(m: State, pages: nat): (w: State)
    requires Awake(m)
    ensures Running(w)
  {
    var (vm, run) := AllocRun(m.vm, pages, None);
    var granted := SetCaps(m, m.current, Charge(Cur(m).caps, pages * PAGE).0).(vm := vm);
    if run.None? || Cur(m).space !in vm.spaces then granted
    else
      var (mapped, ok) := MapWindow(granted, m.nextShared, SHARED_VA_END, run.value, pages, false);
      granted.(vm := mapped, nextShared := if ok then m.nextShared + pages * PAGE else m.nextShared)
  }

  ghost predicate FrameAllocMapOk(m: State, pages: nat)
    requires Awake(m)
  {
    var (vm, run) := AllocRun(m.vm, pages, None);
    && run.Some? && Cur(m).space in vm.spaces
    && MapWindow(m.(vm := vm), m.nextShared, SHARED_VA_END, run.value, pages, false).1
  }

  lemma MappedWitness(vm: Vm, root: nat, va: nat, base: nat, n: nat)
    requires root in vm.spaces && va in vm.spaces[root].pages && n > 0 && base % PAGE == 0
    requires vm.spaces[root].pages[va] == UserPte(base, true, false)
    ensures RunStillMapped(vm, base, n)
  {
    assert base in RunFrames(base, n);
  }

  lemma NotMappedKeepsRuns(v: Vm, w: Vm, root: nat, va: nat, pte: Pte, o: MapOutcome, base: nat, n: nat)
    requires PageAdded(v, w, root, va, pte, o) && o != Mapped && !RunStillMapped(v, base, n)
    ensures !RunStillMapped(w, base, n)
  {
    hide VmOk, Extends, RunFrames;
    forall r, a | r in w.spaces && a in w.spaces[r].pages && !w.spaces[r].pages[a].device
      ensures w.spaces[r].pages[a].frame !in RunFrames(base, n)
    {
      assert w.spaces[r].pages == v.spaces[r].pages;
    }
  }

  lemma FirstPageStays(vm: Vm, root: nat, va: nat, phys: nat, n: nat)
    requires VmOk(vm) && root in vm.spaces && RangeOk(vm.ledger, root, phys, n, false) && n > 0
    requires MapPage(vm, root, va, UserPte(phys, true, false)).1 == Mapped
    ensures var w := MapRange(vm, root, va, phys, n, false).0;
      va in w.spaces[root].pages && w.spaces[root].pages[va] == UserPte(phys, true, false)
  {
    hide VmOk, RangeOk, Extends, MapPage, OnlySpace, NewPagesWithin, PteOk;
    RangeOkTail(vm, vm, root, phys, n, false) by { ExtendsSelf(vm); }
    var pte := UserPte(phys, true, false);
    MapPageOk(vm, root, va, pte);
    var v := MapPage(vm, root, va, pte).0;
    RangeOkTail(vm, v, root, phys, n, false);
    MapRangeOk(v, root, va + PAGE, phys + PAGE, n - 1, false);
    PagesKept(v, MapRange(v, root, va + PAGE, phys + PAGE, n - 1, false).0, root);
  }

  lemma RangeStops(vm: Vm, root: nat, va: nat, phys: nat, n: nat)
    requires root in vm.spaces && n > 0 && MapPage(vm, root, va, UserPte(phys, true, false)).1 != Mapped
    ensures MapRange(vm, root, va, phys, n, false).0 == MapPage(vm, root, va, UserPte(phys, true, false)).0
  {
    hide MapPage;
  }

  lemma RunIsAligned(vm: Vm, base: nat, n: nat)
    requires RunOk(vm.pool, vm.ledger, base, n)
    ensures n > 0 && base % PAGE == 0
  {
    hide RunFrames;
  }

  // A range mapping leaves something mapped exactly when its first page went in.
  lemma FirstPageDecides(vm: Vm, root: nat, va: nat, phys: nat, n: nat)
    requires VmOk(vm) && root in vm.spaces && RunOk(vm.pool, vm.ledger, phys, n)
    requires !RunStillMapped(vm, phys, n)
    ensures RunStillMapped(MapRange(vm, root, va, phys, n, false).0, phys, n)
       <==> MapPage(vm, root, va, UserPte(phys, true, false)).1 == Mapped
  {
    hide VmOk, RangeOk, RunOk, Extends, PageAdded, MapPage, MapRange, PteOk, RunStillMapped;
    RunIsAligned(vm, phys, n);
    RunRangeOk(vm, root, phys, n);
    RangeOkTail(vm, vm, root, phys, n, false) by { ExtendsSelf(vm); }
    var pte := UserPte(phys, true, false);
    MapPageOk(vm, root, va, pte);
    var (v, o) := MapPage(vm, root, va, pte);
    if o == Mapped {
      FirstPageStays(vm, root, va, phys, n);
      MappedWitness(MapRange(vm, root, va, phys, n, false).0, root, va, phys, n);
    } else {
      RangeStops(vm, root, va, phys, n);
      NotMappedKeepsRuns(vm, v, root, va, pte, o, phys, n);
    }
  }

  lemma FreshRunUnmapped(v: Vm, w: Vm, base: nat, n: nat)
    requires VmOk(v) && RunGranted(v, w, base, n, None) && w.spaces == v.spaces
    ensures !RunStillMapped(w, base, n)
  {
    hide Valid, RunsOk;
    forall r, va | r in w.spaces && va in w.spaces[r].pages && !w.spaces[r].pages[va].device
      ensures w.spaces[r].pages[va].frame !in RunFrames(base, n)
    {
      assert SpaceOk(v.ledger, r, v.spaces[r]);
      assert PteOk(v.ledger, r, v.spaces[r].pages[va]);
    }
  }

  lemma GrantedRunOk(v: Vm, w: Vm, base: nat, n: nat)
    requires RunGranted(v, w, base, n, None) && w.pool.regions == v.pool.regions
    ensures RunOk(w.pool, w.ledger, base, n)
  {
    hide RunFrames;
  }

  // The accepted outcome: the caller maps the run and holds its capability.
  lemma AcceptedOk(m: State, w: State, budgets: Slots, capSlot: nat, base: nat, n: nat)
    requires Running(m) && MemoryOk(m) && CallerGrown(m, w) && |w.procs| == |m.procs|
    requires forall j :: 0 <= j < |m.procs| && j != m.current ==> w.procs[j] == m.procs[j]
    requires w.procs[m.current].space == Cur(m).space && w.queues == m.queues
    requires CanInsert(Cur(m).caps, capSlot) && BudgetOnly(Cur(m).caps, budgets)
    requires w.procs[m.current].caps == budgets[capSlot := Some(FrameCap(base, n))]
    requires RunOk(w.vm.pool, w.vm.ledger, base, n) && NewPagesShared(m, w, base, n)
    ensures MemoryOk(w)
  {
    hide VmOk, RunFrames, PagesEntitled, FrameCapsSound, HoldsFrame, BudgetOnly, RunOk, Extends, CallerGrown,
      NewPagesShared;
    assert CallerGrown(m, w) ==> Extends(m.vm, w.vm) by { GrownExtends(m, w); }
    ChargeKeepsEntitlements(m, w, budgets, capSlot, base, n);
    AcceptedCaps(m, w, budgets, capSlot, base, n);
    AcceptedPages(m, w, base, n);
    CallerGrownOk(m, w);
  }

  lemma GrownExtends(m: State, w: State)
    requires Running(m)
    ensures CallerGrown(m, w) ==> Extends(m.vm, w.vm) && Cur(m).space in m.vm.spaces && Cur(m).space in w.vm.spaces
  {
    hide VmOk;
  }

  // Every page the caller gained leads into the run.
  ghost predicate NewPagesShared(m: State, w: State, base: nat, n: nat)
    requires Running(m)
  {
    && Cur(m).space in m.vm.spaces && Cur(m).space in w.vm.spaces
    && forall va :: va in w.vm.spaces[Cur(m).space].pages && va !in m.vm.spaces[Cur(m).space].pages ==>
         !w.vm.spaces[Cur(m).space].pages[va].device && w.vm.spaces[Cur(m).space].pages[va].frame in RunFrames(base, n)
  }

  lemma AcceptedPages(m: State, w: State, base: nat, n: nat)
    requires Running(m) && |w.procs| == |m.procs| && HoldsFrame(w.procs[m.current].caps, base, n)
    requires RunOk(w.vm.pool, w.vm.ledger, base, n) && NewPagesShared(m, w, base, n)
    ensures NewPagesEntitled(m, w)
  {
    hide VmOk, RunFrames, HoldsFrame, InOneRegion;
  }

  lemma ChargeKeepsEntitlements(m: State, w: State, budgets: Slots, capSlot: nat, base: nat, n: nat)
    requires Running(m) && |w.procs| == |m.procs| && CanInsert(Cur(m).caps, capSlot)
    requires forall j :: 0 <= j < |m.procs| && j != m.current ==> w.procs[j] == m.procs[j]
    requires BudgetOnly(Cur(m).caps, budgets) && w.procs[m.current].caps == budgets[capSlot := Some(FrameCap(base, n))]
    ensures EntitlementsKept(m, w) && HoldsFrame(w.procs[m.current].caps, base, n)
  {
    assert w.procs[m.current].caps[capSlot] == Some(FrameCap(base, n));
    forall i: nat, b, k | i < |m.procs| && HoldsFrame(m.procs[i].caps, b, k)
      ensures HoldsFrame(w.procs[i].caps, b, k)
    {
      var x :| 0 <= x < |m.procs[i].caps| && m.procs[i].caps[x] == Some(FrameCap(b, k));
      assert w.procs[i].caps[x] == Some(FrameCap(b, k));
    }
  }

  lemma AcceptedCaps(m: State, w: State, budgets: Slots, capSlot: nat, base: nat, n: nat)
    requires Running(m) && FrameCapsSound(m) && Extends(m.vm, w.vm) && |w.procs| == |m.procs|
    requires CanInsert(Cur(m).caps, capSlot)
    requires forall j :: 0 <= j < |m.procs| && j != m.current ==> w.procs[j] == m.procs[j]
    requires BudgetOnly(Cur(m).caps, budgets) && w.procs[m.current].caps == budgets[capSlot := Some(FrameCap(base, n))]
    requires w.queues == m.queues && RunOk(w.vm.pool, w.vm.ledger, base, n)
    ensures FrameCapsSound(w)
  {
    hide RunOk, Extends;
    forall p: nat, k: nat | HasCap(w, p, k)
      ensures FrameCapSound(w.vm, CapAt(w, p, k))
    {
      if p != m.current || k != capSlot {
        assert HasCap(m, p, k);
        assert FrameCapSound(m.vm, CapAt(m, p, k));
        FrameCapLater(m.vm, w.vm, CapAt(m, p, k));
      }
    }
    forall c | InFlight(w, c)
      ensures FrameCapSound(w.vm, c)
    {
      assert InFlight(m, c) by { SameFlight(m, w, c); }
      FrameCapLater(m.vm, w.vm, c);
    }
  }

  lemma SameFlight(m: State, w: State, c: CapEntry)
    requires w.queues == m.queues && InFlight(w, c)
    ensures InFlight(m, c)
  {
    var e, j :| 0 <= e < |w.queues| && 0 <= j < |w.queues[e]| && w.queues[e][j].cap == Some(c);
    assert m.queues[e][j].cap == Some(c);
  }

  // A refused call that mapped nothing has no effect but on the pool and budgets.
  lemma RefusedOk(m: State, w: State, budgets: Slots)
    requires Running(m) && MemoryOk(m) && |w.procs| == |m.procs| && BudgetOnly(Cur(m).caps, budgets)
    requires forall j :: 0 <= j < |m.procs| && j != m.current ==> w.procs[j] == m.procs[j]
    requires w.procs[m.current].space == Cur(m).space && w.procs[m.current].caps == budgets && w.queues == m.queues
    requires CallerGrown(m, w) && w.vm.spaces[Cur(m).space].pages == m.vm.spaces[Cur(m).space].pages
    ensures MemoryOk(w)
  {
    hide VmOk, PagesEntitled;
    forall i: nat, b, k | i < |m.procs| && HoldsFrame(m.procs[i].caps, b, k)
      ensures HoldsFrame(w.procs[i].caps, b, k)
    {
      var x :| 0 <= x < |m.procs[i].caps| && m.procs[i].caps[x] == Some(FrameCap(b, k));
      assert w.procs[i].caps[x] == Some(FrameCap(b, k));
    }
    RefusedCaps(m, w, budgets);
    CallerGrownOk(m, w);
  }

  lemma RefusedCaps(m: State, w: State, budgets: Slots)
    requires Running(m) && FrameCapsSound(m) && Extends(m.vm, w.vm) && |w.procs| == |m.procs|
    requires BudgetOnly(Cur(m).caps, budgets)
    requires forall j :: 0 <= j < |m.procs| && j != m.current ==> w.procs[j] == m.procs[j]
    requires w.procs[m.current].caps == budgets && w.queues == m.queues
    ensures FrameCapsSound(w)
  {
    hide RunOk, Extends;
    forall p: nat, k: nat | HasCap(w, p, k)
      ensures FrameCapSound(w.vm, CapAt(w, p, k))
    {
      assert HasCap(m, p, k);
      assert FrameCapSound(m.vm, CapAt(m, p, k));
      FrameCapLater(m.vm, w.vm, CapAt(m, p, k));
    }
    forall c | InFlight(w, c)
      ensures FrameCapSound(w.vm, c)
    {
      assert InFlight(m, c) by { SameFlight(m, w, c); }
      FrameCapLater(m.vm, w.vm, c);
    }
  }

  // What FRAME_ALLOC has done to the address spaces when it decides.
  lemma FrameAllocMapping(m: State, pages: nat)
    requires Awake(m) && MemoryOk(m) && AllocRun(m.vm, pages, None).1.Some?
    ensures var (vm, run) := AllocRun(m.vm, pages, None);
      var mapped := FrameAllocMapped(m, pages).vm;
      && Cur(m).space in vm.spaces
      && SpaceGrown(vm, mapped, Cur(m).space) && Extends(m.vm, vm) && vm.spaces == m.vm.spaces
      && RunGranted(m.vm, vm, run.value, pages, None)
      && RunOk(mapped.pool, mapped.ledger, run.value, pages)
      && NewPagesWithin(vm, mapped, Cur(m).space, run.value, pages, false)
      && (RunStillMapped(mapped, run.value, pages) <==>
            m.nextShared + pages * PAGE <= SHARED_VA_END
            && MapPage(vm, Cur(m).space, m.nextShared, UserPte(run.value, true, false)).1 == Mapped)
  {
    hide VmOk, AllocRun, MapRange, MapPage, RunOk, RunGranted, Charge, RangeOk, NewPagesWithin, RunStillMapped,
      FrameCapsSound, PagesEntitled;
    AllocRunOk(m.vm, pages, None);
    var (vm, run) := AllocRun(m.vm, pages, None);
    GrantedRunOk(m.vm, vm, run.value, pages);
    FreshRunUnmapped(m.vm, vm, run.value, pages);
    RunRangeOk(vm, Cur(m).space, run.value, pages);
    var granted := SetCaps(m, m.current, Charge(Cur(m).caps, pages * PAGE).0).(vm := vm);
    MapWindowOk(granted, m.nextShared, SHARED_VA_END, run.value, pages, false);
    var mapped := MapWindow(granted, m.nextShared, SHARED_VA_END, run.value, pages, false).0;
    RunOkLater(vm, mapped, run.value, pages);
    if m.nextShared + pages * PAGE <= SHARED_VA_END {
      FirstPageDecides(vm, Cur(m).space, m.nextShared, run.value, pages);
    }
  }

  lemma RunOkLater(v: Vm, w: Vm, base: nat, n: nat)
    requires RunOk(v.pool, v.ledger, base, n) && Extends(v, w)
    ensures RunOk(w.pool, w.ledger, base, n)
  {
    hide VmOk;
  }

  // The caller's table and the address spaces after FRAME_ALLOC got its run.
  lemma FrameAllocOutcome(m: State, pages: nat, capSlot: nat, outPtr: nat)
    requires Awake(m) && 0 < pages <= MAX_SHARED_PAGES && Charge(Cur(m).caps, pages * PAGE).1
    requires AllocRun(m.vm, pages, None).1.Some? && Cur(m).space in AllocRun(m.vm, pages, None).0.spaces
    ensures var w := SysFrameAlloc(m, pages, capSlot, outPtr).0;
      var charged := Charge(Cur(m).caps, pages * PAGE).0;
      var base := AllocRun(m.vm, pages, None).1.value;
      && |w.procs| == |m.procs| && w.queues == m.queues
      && (forall j :: 0 <= j < |m.procs| && j != m.current ==> w.procs[j] == m.procs[j])
      && w.procs[m.current].space == Cur(m).space
      && (FrameAllocAccepted(m, FrameAllocMapped(m, pages), FrameAllocMapOk(m, pages), capSlot, outPtr) ==>
            && CanInsert(Cur(m).caps, capSlot) && CanInsert(charged, capSlot)
            && w.vm == FrameAllocMapped(m, pages).vm
            && w.procs[m.current].caps == charged[capSlot := Some(FrameCap(base, pages))])
      && (!FrameAllocAccepted(m, FrameAllocMapped(m, pages), FrameAllocMapOk(m, pages), capSlot, outPtr) ==>
            && w.vm == FreeRun(FrameAllocMapped(m, pages).vm, base, pages)
            && w.procs[m.current].caps == Refund(charged, pages * PAGE))
  {
    hide AllocRun, FreeRun, MapRange, UserBuffer, Refund;
  }

  // Handing back an unmapped run leaves exactly what was there before.
  lemma FreedKeeps(u: Vm, v: Vm, w: Vm, root: nat, base: nat, n: nat)
    requires VmOk(u) && RunGranted(u, v, base, n, None) && Extends(u, v) && v.spaces == u.spaces
    requires SpaceGrown(v, w, root) && NewPagesWithin(v, w, root, base, n, false) && RunOk(w.pool, w.ledger, base, n)
    requires !RunStillMapped(w, base, n)
    ensures var f := FreeRun(w, base, n);
      && VmOk(f) && Extends(u, f) && root in u.spaces && root in f.spaces
      && f.spaces[root].pages == u.spaces[root].pages
      && (forall r :: r in u.spaces && r != root ==> f.spaces[r] == u.spaces[r])
  {
    hide Valid, RunsOk, FreeRun, RunFrames, NewPagesWithin, SpaceOk, InOneRegion;
    FreeRunSoundIff(w, base, n);
    RunIsAligned(w, base, n);
    NewPagesInRun(v, w, root, base, n);
    assert forall va :: va in w.spaces[root].pages ==> va in v.spaces[root].pages;
    assert w.spaces[root].pages == v.spaces[root].pages;
  }

  lemma FreedRefusedOk(m: State, w: State, mapped: Vm, budgets: Slots, base: nat, n: nat)
    requires Awake(m) && MemoryOk(m) && |w.procs| == |m.procs| && BudgetOnly(Cur(m).caps, budgets)
    requires forall j :: 0 <= j < |m.procs| && j != m.current ==> w.procs[j] == m.procs[j]
    requires w.procs[m.current].space == Cur(m).space && w.procs[m.current].caps == budgets && w.queues == m.queues
    requires var v := AllocRun(m.vm, n, None).0;
      && RunGranted(m.vm, v, base, n, None) && Extends(m.vm, v) && v.spaces == m.vm.spaces
      && SpaceGrown(v, mapped, Cur(m).space) && NewPagesWithin(v, mapped, Cur(m).space, base, n, false)
    requires RunOk(mapped.pool, mapped.ledger, base, n) && !RunStillMapped(mapped, base, n)
    requires w.vm == FreeRun(mapped, base, n)
    ensures MemoryOk(w)
  {
    hide VmOk, AllocRun, FreeRun, RunGranted, SpaceGrown, NewPagesWithin, RunOk, RunStillMapped, PagesEntitled,
      FrameCapsSound, BudgetOnly;
    FreedKeeps(m.vm, AllocRun(m.vm, n, None).0, mapped, Cur(m).space, base, n);
    assert CallerGrown(m, w);
    RefusedOk(m, w, budgets);
  }

  // FRAME_ALLOC keeps the address spaces isolated exactly when it does not fail
  // after its first page went in: its unwinding frees frames it leaves mapped.
  lemma FrameAllocIff(m: State, a: Action)
    requires Awake(m) && MemoryOk(m) && BudgetsFit(m) && a.FrameAlloc?
    ensures MemoryOk(SysFrameAlloc(m, a.pages, a.capSlot, a.outPtr).0)
       <==> !FailsAfterMapping(m, a.pages, a.capSlot, a.outPtr)
  {
    hide VmOk, AllocRun, FreeRun, Charge, Refund, RunOk, RunGranted, SpaceGrown, NewPagesWithin, RunStillMapped,
      PagesEntitled,
      FrameCapsSound, SpacesOwned, BudgetOnly, FrameAllocMapped, FrameAllocMapOk, FrameAllocAccepted, MapPage,
      BudgetsFit, MapWindow;
    var caps := Cur(m).caps;
    OwnBudgetsFit(m);
    ChargedSlots(caps, a.pages * PAGE);
    var (charged, paid) := Charge(caps, a.pages * PAGE);
    if 0 < a.pages <= MAX_SHARED_PAGES && paid {
      var (vm, run) := AllocRun(m.vm, a.pages, None);
      if run.Some? {
        var base := run.value;
        var w := SysFrameAlloc(m, a.pages, a.capSlot, a.outPtr).0;
        FrameAllocMapping(m, a.pages);
        hide SysFrameAlloc;
        FrameAllocOutcome(m, a.pages, a.capSlot, a.outPtr);
        var mapped := FrameAllocMapped(m, a.pages).vm;
        if FrameAllocAccepted(m, FrameAllocMapped(m, a.pages), FrameAllocMapOk(m, a.pages), a.capSlot, a.outPtr) {
          GrantedAcceptedOk(m, w, charged, a.capSlot, base, a.pages);
        } else if RunStillMapped(mapped, base, a.pages) {
          FreeRunSoundIff(mapped, base, a.pages) by { GrownOk(vm, mapped, Cur(m).space); }
        } else {
          FreedRefusedOk(m, w, mapped, Refund(charged, a.pages * PAGE), base, a.pages);
        }
      } else {
        NoRunOk(m, SysFrameAlloc(m, a.pages, a.capSlot, a.outPtr).0, Refund(charged, a.pages * PAGE), a.pages);
      }
    }
  }

  lemma NoRunOk(m: State, w: State, budgets: Slots, n: nat)
    requires Awake(m) && MemoryOk(m) && BudgetOnly(Cur(m).caps, budgets) && AllocRun(m.vm, n, None).1.None?
    requires w == SetCaps(m.(vm := AllocRun(m.vm, n, None).0), m.current, budgets)
    ensures MemoryOk(w)
  {
    hide VmOk, AllocRun, PagesEntitled, FrameCapsSound, BudgetOnly;
    AllocRunOk(m.vm, n, None);
    RefusedOk(m, w, budgets);
  }

  lemma GrantedAcceptedOk(m: State, w: State, budgets: Slots, capSlot: nat, base: nat, n: nat)
    requires Awake(m) && MemoryOk(m) && |w.procs| == |m.procs| && BudgetOnly(Cur(m).caps, budgets)
    requires forall j :: 0 <= j < |m.procs| && j != m.current ==> w.procs[j] == m.procs[j]
    requires w.procs[m.current].space == Cur(m).space && w.queues == m.queues
    requires CanInsert(Cur(m).caps, capSlot) && CanInsert(budgets, capSlot)
    requires w.procs[m.current].caps == budgets[capSlot := Some(FrameCap(base, n))]
    requires var v := AllocRun(m.vm, n, None).0;
      && RunGranted(m.vm, v, base, n, None) && Extends(m.vm, v) && v.spaces == m.vm.spaces
      && SpaceGrown(v, w.vm, Cur(m).space) && NewPagesWithin(v, w.vm, Cur(m).space, base, n, false)
    requires RunOk(w.vm.pool, w.vm.ledger, base, n)
    ensures MemoryOk(w)
  {
    hide VmOk, AllocRun, RunGranted, NewPagesWithin, RunOk, PagesEntitled, FrameCapsSound, BudgetOnly, RunFrames,
      SpacesOwned;
    RunIsAligned(w.vm, base, n);
    NewPagesInRun(AllocRun(m.vm, n, None).0, w.vm, Cur(m).space, base, n);
    assert NewPagesShared(m, w, base, n);
    assert CallerGrown(m, w);
    AcceptedOk(m, w, budgets, capSlot, base, n);
  }
}
