// Consumable authority: what a process may pin is what it was given minus what it
// has pinned, and device authority stays where it was put unless it is delegated.
module KernelBudget {
  import opened Base
  import opened Capability
  import opened AddressSpace
  import opened Machine
  import opened Syscalls
  import opened KernelSafety
  import opened KernelAuthority

  // ----- Authority that only moves by delegation -----

  // The kinds the kernel seeds the root with and mints nowhere else.
  predicate RootOnly(kind: CapType) {
    kind == IoPort || kind == IoMem || kind == Untyped
  }

  ghost predicate HoldsKind(m: State, p: nat, kind: CapType) {
    exists k: nat :: HasCap(m, p, k) && CapAt(m, p, k).capType == kind
  }

  ghost predicate KindInFlight(m: State, kind: CapType) {
    exists c :: InFlight(m, c) && c.capType == kind
  }

  // Does this action copy a capability of the kind to somebody?
  ghost predicate Delegates(m: State, a: Action, kind: CapType) {
    && Running(m)
    && ((a.Send? && Get(Cur(m).caps, a.capSlot).Some? && Get(Cur(m).caps, a.capSlot).value.capType == kind)
        || (a.Grant? && Get(Cur(m).caps, a.src).Some? && Get(Cur(m).caps, a.src).value.capType == kind))
  }

  // Only process `p0` has the kind, and none of it is under way.
  ghost predicate OnlyHolder(m: State, p0: nat, kind: CapType) {
    !KindInFlight(m, kind) && forall p: nat :: HoldsKind(m, p, kind) ==> p == p0
  }

  lemma OnlyHolderStep(m: State, a: Action, p0: nat, kind: CapType)
    requires TableOk(m) && AllLegitimate(m) && m.nextPid >= 1 && RootOnly(kind)
    requires OnlyHolder(m, p0, kind) && !Delegates(m, a, kind)
    ensures OnlyHolder(Next(m, a), p0, kind)
  {
    hide Step, Legitimate, Origin, Receives, Get;
    if Awake(m) {
      LegitimateBudgets(m);
      StepExplained(m, a);
      var w := Next(m, a);
      forall c | InFlight(w, c)
        ensures c.capType != kind
      {
      }
      forall p: nat | HoldsKind(w, p, kind)
        ensures p == p0
      {
        var k: nat :| HasCap(w, p, k) && CapAt(w, p, k).capType == kind;
        KindComesFromHolder(m, a, w, p, k, kind);
      }
    }
  }

  lemma KindComesFromHolder(m: State, a: Action, w: State, p: nat, k: nat, kind: CapType)
    requires TableOk(m) && RootOnly(kind) && HasCap(w, p, k) && Origin(m, a, w, p, k) && CapAt(w, p, k).capType == kind
    ensures HoldsKind(m, p, kind) || KindInFlight(m, kind) || Delegates(m, a, kind)
  {
    hide Get;
    if HasCap(m, p, k) {
      assert CapAt(m, p, k).capType == kind;
    } else if p >= |m.procs| {
      assert m.nextPid != 0;
      SeedsHaveNone(m.nextPid, k);
    } else if e: nat :| Receives(m, a, e) && m.queues[e][0].cap == Some(CapAt(w, p, k)) {
      assert InFlight(m, CapAt(w, p, k));
    }
  }

  lemma SeedsHaveNone(pid: nat, k: nat)
    ensures pid != 0 && k < |SeedCaps(pid)| && SeedCaps(pid)[k].Some? ==> !RootOnly(SeedCaps(pid)[k].value.capType)
  {
  }

  ghost predicate NeverDelegated(m: State, actions: seq<Action>, kind: CapType) {
    forall k :: 0 <= k < |actions| ==> !Delegates(After(m, actions[..k]), actions[k], kind)
  }

  // Device authority and memory budgets stay with the root for as long as nobody
  // delegates them, whatever else any process does.
  lemma {:induction false} RootAuthorityStays(m: State, actions: seq<Action>, kind: CapType)
    requires Boot(m) && RootOnly(kind) && NeverDelegated(m, actions, kind)
    ensures OnlyHolder(After(m, actions), 0, kind)
  {
    hide Next, AllLegitimate, OnlyHolder, Delegates, TableOk, Boot;
    Unforgeable(m, actions);
    if actions == [] {
      BootOnlyHolder(m, kind);
    } else {
      var init, a := actions[..|actions| - 1], actions[|actions| - 1];
      assert forall k :: 0 <= k <= |init| ==> init[..k] == actions[..k];
      assert actions[..|init|] == init;
      RootAuthorityStays(m, init, kind);
      Unforgeable(m, init);
      SomebodyExists(After(m, init));
      OnlyHolderStep(After(m, init), a, 0, kind);
    }
  }

  lemma SomebodyExists(m: State)
    requires TableOk(m)
    ensures m.nextPid >= 1
  {
  }

  lemma BootOnlyHolder(m: State, kind: CapType)
    requires Boot(m)
    ensures OnlyHolder(m, 0, kind)
  {
    hide CreateSpace, KernelOnly, SeedCaps;
    forall c
      ensures !InFlight(m, c)
    {
    }
  }

  // ----- The budget ledger -----

  function SeedBudget(pid: nat): nat {
    if pid == 0 then DMA_BUDGET else 0
  }

  // Remaining budget plus pinned bytes is what the process started with.
  // What a process has pinned and what it has left; one not yet created has its seed.
  function Accounted(m: State, i: nat): nat {
    PinnedBy(m.log, i) * PAGE + if i < |m.procs| then TotalBudget(m.procs[i].caps) else SeedBudget(i)
  }

  ghost predicate Balanced(m: State) {
    forall i: nat :: Accounted(m, i) == SeedBudget(i)
  }

  ghost predicate NoNewPins(m: State, w: State) {
    forall i: nat :: PinnedBy(w.log, i) == PinnedBy(m.log, i)
  }

  // Every old process keeps its total, and a newcomer has what it is seeded with.
  ghost predicate SameTotals(m: State, w: State) {
    && |m.procs| <= |w.procs|
    && (forall i :: 0 <= i < |m.procs| ==> TotalBudget(w.procs[i].caps) == TotalBudget(m.procs[i].caps))
    && (forall i :: |m.procs| <= i < |w.procs| ==> TotalBudget(w.procs[i].caps) == SeedBudget(i))
  }

  lemma TotalsBalanced(m: State, w: State)
    requires Balanced(m) && SameTotals(m, w) && NoNewPins(m, w)
    ensures Balanced(w)
  {
    forall i: nat
      ensures Accounted(w, i) == SeedBudget(i)
    {
      assert Accounted(m, i) == SeedBudget(i);
    }
  }

  lemma UnpinnedEvent(m: State, w: State, e: Event)
    requires w.log == m.log + [e] && !e.Pinned?
    ensures NoNewPins(m, w)
  {
    forall i: nat
      ensures PinnedBy(w.log, i) == PinnedBy(m.log, i)
    {
      LogPinned(m.log, e, i);
    }
  }

  lemma SameTablesTotals(m: State, w: State)
    requires SameTables(m, w)
    ensures SameTotals(m, w)
  {
  }

  // Filling an empty slot with anything but a budget leaves the total alone.
  lemma FilledTotals(m: State, w: State, i: nat, k: nat, c: CapEntry)
    requires i < |m.procs| && CanInsert(m.procs[i].caps, k) && c.capType != Untyped
    requires |w.procs| == |m.procs| && w.procs[i].caps == m.procs[i].caps[k := Some(c)]
    requires forall j :: 0 <= j < |m.procs| && j != i ==> w.procs[j].caps == m.procs[j].caps
    ensures SameTotals(m, w)
  {
    InsertTotal(m.procs[i].caps, k, c);
  }

  lemma RecvLoopBalanced(m: State, ep: nat, out: u64, dst: u64)
    requires Running(m) && Balanced(m) && !KindInFlight(m, Untyped)
    ensures Balanced(RecvLoop(m, ep, out, dst).0)
  {
    hide UserBuffer, BlockOn, Balanced, TotalBudget, PinnedBy;
    var w := RecvLoop(m, ep, out, dst).0;
    if ep < |m.queues| && m.queues[ep] != [] {
      var msg := m.queues[ep][0];
      UnpinnedEvent(m, w, Popped(ep, msg));
      if msg.cap.Some? && dst != U64_MAX && CanInsert(Cur(m).caps, dst) {
        assert InFlight(m, msg.cap.value);
        FilledTotals(m, w, m.current, dst, msg.cap.value);
      } else {
        SameTablesTotals(m, w) by { PopTables(m, w); }
      }
      TotalsBalanced(m, w);
    } else {
      BlockBalanced(m, InRecv(ep, out, dst), OnEndpoint(ep));
    }
  }

  lemma BlockBalanced(m: State, resume: Resume, reason: BlockReason)
    requires Running(m) && Balanced(m)
    ensures Balanced(BlockOn(SetProc(m, m.current, Cur(m).(resume := resume)), reason))
  {
    hide Balanced, TotalBudget, PinnedBy, PickNext;
    var parked := SetProc(m, m.current, Cur(m).(resume := resume));
    var w := BlockOn(parked, reason);
    var blocked := SetProc(parked, m.current, Cur(parked).(state := Blocked(reason)));
    if PickNext(blocked).Some? {
      UnpinnedEvent(m, w, Switched(PickNext(blocked).value));
    }
    SameTablesTotals(m, w) by { BlockSameTables(m, w); }
    TotalsBalanced(m, w);
  }

  lemma BlockSameTables(m: State, w: State)
    requires Running(m) && |w.procs| == |m.procs| && w.nextPid == m.nextPid
    requires forall i :: 0 <= i < |m.procs| ==> w.procs[i].caps == m.procs[i].caps && w.procs[i].pid == m.procs[i].pid
    ensures SameTables(m, w)
  {
  }

  lemma QuietEventBalanced(m: State, w: State)
    requires Balanced(m) && SameTables(m, w)
    requires w.log == m.log || exists e :: w.log == m.log + [e] && !e.Pinned?
    ensures Balanced(w)
  {
    hide Balanced, TotalBudget, PinnedBy;
    if w.log != m.log {
      var e :| w.log == m.log + [e] && !e.Pinned?;
      UnpinnedEvent(m, w, e);
    }
    SameTablesTotals(m, w);
    TotalsBalanced(m, w);
  }

  lemma WaitLoopBalanced(m: State, id: nat)
    requires Running(m) && Balanced(m)
    ensures Balanced(WaitLoop(m, id).0)
  {
    hide BlockOn, Balanced;
    if id < |m.words| && m.words[id] != 0 {
      QuietEventBalanced(m, WaitLoop(m, id).0);
    } else {
      BlockBalanced(m, InWait(id), OnNotification(id));
    }
  }

  lemma WaitPidBalanced(m: State, target: nat)
    requires Running(m) && Balanced(m)
    ensures Balanced(WaitPidLoop(m, target).0)
  {
    hide PickNext, FindPid, Balanced;
    QuietEventBalanced(m, WaitPidLoop(m, target).0);
  }

  lemma ExitBalanced(m: State, code: u64)
    requires Running(m) && Balanced(m)
    ensures Balanced(Exit(m, code))
  {
    hide PickNext, Balanced;
    var ended := Logged(SetProc(m, m.current, Cur(m).(exitCode := code, state := Done, resume := Abandoned)),
                        Ended(Cur(m).pid, code));
    QuietEventBalanced(m, ended);
    QuietEventBalanced(ended, Exit(m, code));
  }

  // The three outcomes of an allocation that charges the caller's budget.
  lemma PinBalanced(m: State, w: State, pages: nat, after: Slots)
    requires TableOk(m) && BudgetsFit(m) && Balanced(m) && pages <= 0x1_0000
    requires |w.procs| == |m.procs| && w.procs[m.current].caps == after
    requires forall j :: 0 <= j < |m.procs| && j != m.current ==> w.procs[j].caps == m.procs[j].caps
    requires Charge(Cur(m).caps, pages * PAGE).1
    requires (w.log == m.log && after == Refund(Charge(Cur(m).caps, pages * PAGE).0, pages * PAGE))
          || (w.log == m.log + [Pinned(m.current, pages)]
              && TotalBudget(after) == TotalBudget(Charge(Cur(m).caps, pages * PAGE).0))
    ensures Balanced(w)
  {
    var caps, need := Cur(m).caps, pages * PAGE;
    OwnBudgetsFit(m);
    ChargeExact(caps, need);
    ChargeThenRefund(caps, need);
    SmallRefundFits(caps, need);
    forall i: nat
      ensures Accounted(w, i) == SeedBudget(i)
    {
      assert Accounted(m, i) == SeedBudget(i);
      if w.log != m.log {
        LogPinned(m.log, Pinned(m.current, pages), i);
      }
    }
  }

  // What an allocation does to the caller's budget: it pays for the pages it gets, and
  // pays nothing when refused.
  ghost predicate Pays(m: State, w: State, r: Reply, pages: nat)
    requires Running(m)
  {
    && Running(w) && w.current == m.current
    && TotalBudget(Cur(w).caps) + (if r == Refused() then 0 else pages * PAGE) == TotalBudget(Cur(m).caps)
  }

  lemma PaysOrRefunds(m: State, w: State, r: Reply, pages: nat)
    requires Running(m) && BudgetsFit(m) && pages <= 0x1_0000 && Charge(Cur(m).caps, pages * PAGE).1
    requires Running(w) && w.current == m.current
    requires if r == Refused() then Cur(w).caps == Refund(Charge(Cur(m).caps, pages * PAGE).0, pages * PAGE)
             else TotalBudget(Cur(w).caps) == TotalBudget(Charge(Cur(m).caps, pages * PAGE).0)
    ensures Pays(m, w, r, pages)
  {
    hide Charge, Refund, TotalBudget, RefundFits;
    OwnBudgetsFit(m);
    ChargeExact(Cur(m).caps, pages * PAGE);
    ChargeThenRefund(Cur(m).caps, pages * PAGE);
    SmallRefundFits(Cur(m).caps, pages * PAGE);
  }

  // FRAME_ALLOC costs 4096 bytes of budget a page, exactly when it succeeds.
  lemma FrameAllocPays(m: State, pages: nat, capSlot: nat, outPtr: nat)
    requires Awake(m) && BudgetsFit(m)
    ensures Pays(m, SysFrameAlloc(m, pages, capSlot, outPtr).0, SysFrameAlloc(m, pages, capSlot, outPtr).1, pages)
  {
    hide AllocRun, FreeRun, MapRange, UserBuffer, Charge, Refund, BudgetsFit, TotalBudget;
    var (w, r) := SysFrameAlloc(m, pages, capSlot, outPtr);
    var (charged, paid) := Charge(Cur(m).caps, pages * PAGE);
    if 0 < pages <= MAX_SHARED_PAGES && paid {
      ChargeKeepsRoom(Cur(m).caps, pages * PAGE, capSlot);
      if r != Refused() {
        InsertTotal(charged, capSlot, FrameCap(AllocRun(m.vm, pages, None).1.value, pages));
      }
      PaysOrRefunds(m, w, r, pages);
    }
  }

  // So does DMA_ALLOC for the pages that hold the length asked for.
  lemma DmaAllocPays(m: State, len: nat, outPtr: nat)
    requires Awake(m) && BudgetsFit(m)
    ensures Pays(m, SysDmaAlloc(m, len, outPtr).0, SysDmaAlloc(m, len, outPtr).1, DivCeil(len, PAGE))
  {
    hide AllocRun, MapRange, UserBuffer, Charge, Refund, BudgetsFit, TotalBudget;
    var (w, r) := SysDmaAlloc(m, len, outPtr);
    var pages := DivCeil(len, PAGE);
    if 0 < len <= 0x10_0000 && Charge(Cur(m).caps, pages * PAGE).1 {
      PaysOrRefunds(m, w, r, pages);
    }
  }

  lemma FrameAllocBalanced(m: State, pages: nat, capSlot: nat, outPtr: nat)
    requires Awake(m) && TableOk(m) && BudgetsFit(m) && Balanced(m)
    ensures Balanced(SysFrameAlloc(m, pages, capSlot, outPtr).0)
  {
    hide AllocRun, FreeRun, MapRange, UserBuffer, Charge, Refund, Balanced, BudgetsFit, TotalBudget;
    var w := SysFrameAlloc(m, pages, capSlot, outPtr).0;
    var (charged, paid) := Charge(Cur(m).caps, pages * PAGE);
    if 0 < pages <= MAX_SHARED_PAGES && paid {
      ChargeKeepsRoom(Cur(m).caps, pages * PAGE, capSlot);
      if w.log != m.log {
        var phys := AllocRun(m.vm, pages, None).1.value;
        InsertTotal(charged, capSlot, FrameCap(phys, pages));
        assert w.log == m.log + [Pinned(m.current, pages)];
      }
      PinBalanced(m, w, pages, w.procs[m.current].caps);
    }
  }

  lemma DmaAllocBalanced(m: State, len: nat, outPtr: nat)
    requires Awake(m) && TableOk(m) && BudgetsFit(m) && Balanced(m)
    ensures Balanced(SysDmaAlloc(m, len, outPtr).0)
  {
    hide AllocRun, MapRange, UserBuffer, Charge, Refund, Balanced, BudgetsFit, TotalBudget;
    var w := SysDmaAlloc(m, len, outPtr).0;
    var pages := DivCeil(len, PAGE);
    if 0 < len <= 0x10_0000 && Charge(Cur(m).caps, pages * PAGE).1 {
      PinBalanced(m, w, pages, w.procs[m.current].caps);
    }
  }

  lemma GrantBalanced(m: State, a: Action)
    requires Running(m) && a.Grant? && Balanced(m) && !Delegates(m, a, Untyped)
    ensures Balanced(SysGrant(m, a.procSlot, a.src, a.dstSlot).0)
  {
    hide Balanced, TotalBudget, FindPid;
    var w := SysGrant(m, a.procSlot, a.src, a.dstSlot).0;
    if w != m {
      var i := FindPid(m.procs, CurObject(m, a.procSlot, Process).value, 0).value;
      FilledTotals(m, w, i, a.dstSlot, Get(Cur(m).caps, a.src).value);
      TotalsBalanced(m, w);
    }
  }

  lemma AddChildBalanced(m: State, c: State, child: Proc, capSlot: nat)
    requires Running(m) && c == m.(vm := c.vm) && Balanced(m) && m.nextPid == |m.procs| && |m.procs| >= 1
    requires child.pid == m.nextPid && child.caps == SeedCaps(m.nextPid)
    ensures Balanced(AddChild(c, child, capSlot).0)
  {
    hide Balanced, TotalBudget, SeedCaps;
    var w := AddChild(c, child, capSlot).0;
    if w.log == m.log {
      QuietEventBalanced(m, w);
    } else {
      var handed := if capSlot == U64_MAX then c
                  else SetCaps(c, c.current, Insert(Cur(c).caps, capSlot, ProcessCap(child.pid)));
      if capSlot != U64_MAX {
        FilledTotals(m, handed, m.current, capSlot, ProcessCap(child.pid));
      } else {
        SameTablesTotals(m, handed);
      }
      SeedTotal(m.nextPid);
      UnpinnedEvent(m, w, Spawned(child.pid));
      TotalsBalanced(m, w);
    }
  }

  lemma SeedTotal(pid: nat)
    requires pid != 0
    ensures TotalBudget(SeedCaps(pid)) == 0
  {
    NoBudget(SeedCaps(pid));
  }

  lemma {:induction false} NoBudget(slots: Slots)
    requires forall k :: 0 <= k < |slots| ==> !IsUntyped(slots[k])
    ensures TotalBudget(slots) == 0
  {
    if slots != [] {
      NoBudget(slots[1..]);
    }
  }

  lemma SpawnBalanced(m: State, a: Action)
    requires Awake(m) && TableOk(m) && Balanced(m) && (a.Spawn? || a.SpawnEnv?)
    ensures Balanced(Syscall(m, a).0)
  {
    hide AddChild, CreateSpace, SeedCaps, AllocMapAll, DataPages, UserRange, DivCeil, Balanced;
    var (vm, made) := CreateSpace(m.vm, m.image);
    QuietEventBalanced(m, m.(vm := vm));
    if made.Some? {
      var child := NewProc(m.nextPid, made.value.0, made.value.1);
      AddChildBalanced(m, m.(vm := vm), child, a.capSlot);
      if a.SpawnEnv? {
        var pages := DivCeil(a.len, PAGE);
        var copied := AllocMapAll(vm, made.value.0, DataPages(HEAP_START, pages)).0;
        QuietEventBalanced(m, m.(vm := copied));
        AddChildBalanced(m, m.(vm := copied),
                         child.(heapBreak := HEAP_START + pages * PAGE, envpUser := HEAP_START, envpLen := a.len),
                         a.capSlot);
      }
    }
  }

  lemma SendBalanced(m: State, epSlot: nat, word: u64, capSlot: nat, slot: nat, bits: bv64)
    requires Running(m) && Balanced(m)
    ensures Balanced(SysSend(m, epSlot, word, capSlot).0) && Balanced(SysSignal(m, slot, bits).0)
  {
    hide Get, Or, Balanced;
    QuietEventBalanced(m, SysSend(m, epSlot, word, capSlot).0);
    QuietEventBalanced(m, SysSignal(m, slot, bits).0);
  }

  lemma YieldBalanced(m: State, pid: nat, signal: u64)
    requires Running(m) && Balanced(m)
    ensures Balanced(YieldNow(m)) && Balanced(KillPid(m, pid, signal).0)
  {
    hide PickNext, FindPid, Balanced;
    QuietEventBalanced(m, YieldNow(m));
    QuietEventBalanced(m, KillPid(m, pid, signal).0);
  }

  lemma MappingBalanced(m: State, x: nat, y: nat, delta: int)
    requires Awake(m) && Balanced(m)
    ensures Balanced(SysMapFrame(m, x, y).0) && Balanced(SysIoMap(m, x, y).0) && Balanced(SysSbrk(m, delta).0)
  {
    hide Balanced, MapRange, AllocMapAll, UserBuffer, DataPages, PageUp, PageDown, DivCeil, SlotsAuthorizeMmio, Get;
    QuietEventBalanced(m, SysMapFrame(m, x, y).0);
    QuietEventBalanced(m, SysIoMap(m, x, y).0);
    QuietEventBalanced(m, SysSbrk(m, delta).0);
  }

  lemma SyscallBalanced(m: State, a: Action)
    requires Awake(m) && TableOk(m) && BudgetsFit(m) && Balanced(m) && !KindInFlight(m, Untyped)
    requires !Delegates(m, a, Untyped)
    ensures Balanced(Syscall(m, a).0)
  {
    hide SysFrameAlloc, SysDmaAlloc, SysMapFrame, SysIoMap, SysSbrk, SysGrant, SysSpawn, SysSpawnEnv, RecvLoop,
      WaitLoop,
      WaitPidLoop, Get, Exit, YieldNow, SysSend, SysSignal, KillPid, SysGetStatus, BudgetsFit, Balanced, KindInFlight,
      Delegates;
    match a
    case Recv(epSlot, out, dst) =>
      if CurObject(m, epSlot, Endpoint).Some? {
        RecvLoopBalanced(m, CurObject(m, epSlot, Endpoint).value, out, dst);
      }
    case Wait(slot) =>
      if CurObject(m, slot, Notification).Some? {
        WaitLoopBalanced(m, CurObject(m, slot, Notification).value);
      }
    case WaitPid(procSlot) =>
      if CurObject(m, procSlot, Process).Some? {
        WaitPidBalanced(m, CurObject(m, procSlot, Process).value);
      }
    case Quit(code) => ExitBalanced(m, code);
    case Fault => ExitBalanced(m, EXIT_FAULT);
    case Grant(_, _, _) => GrantBalanced(m, a);
    case Spawn(_) => SpawnBalanced(m, a);
    case SpawnEnv(_, _, _) => SpawnBalanced(m, a);
    case FrameAlloc(pages, capSlot, outPtr) => FrameAllocBalanced(m, pages, capSlot, outPtr);
    case DmaAlloc(length, outPtr) => DmaAllocBalanced(m, length, outPtr);
    case Send(epSlot, word, capSlot) => SendBalanced(m, epSlot, word, capSlot, 0, 0);
    case Signal(slot, bits) => SendBalanced(m, 0, 0, 0, slot, bits);
    case Yield => YieldBalanced(m, 0, 0);
    case Kill(procSlot, signal) =>
      if CurObject(m, procSlot, Process).Some? {
        YieldBalanced(m, CurObject(m, procSlot, Process).value, signal);
      }
    case MapFrame(capSlot, outPtr) => MappingBalanced(m, capSlot, outPtr, 0);
    case IoMap(phys, length) => MappingBalanced(m, phys, length, 0);
    case Sbrk(delta) => MappingBalanced(m, 0, 0, delta);
    case GetStatus(_) =>
  }

  lemma NextBalanced(m: State, a: Action)
    requires TableOk(m) && BudgetsFit(m) && Balanced(m) && !KindInFlight(m, Untyped) && !Delegates(m, a, Untyped)
    ensures Balanced(Next(m, a))
  {
    hide RecvLoop, WaitLoop, WaitPidLoop, Syscall, BudgetsFit, Balanced, KindInFlight, Delegates;
    if Awake(m) && !m.halted {
      match Cur(m).resume
      case InRecv(id, out, dst) => RecvLoopBalanced(m, id, out, dst);
      case InWait(id) => WaitLoopBalanced(m, id);
      case InWaitPid(target) => WaitPidBalanced(m, target);
      case InUser => SyscallBalanced(m, a);
      case Abandoned =>
    }
  }

  // In every run in which no budget is handed on, each process's remaining budget
  // plus the bytes of its successful allocations equals what it was seeded with;
  // in particular every failing path restores what it charged.
  lemma {:induction false} BudgetLedger(m: State, actions: seq<Action>)
    requires Boot(m) && NeverDelegated(m, actions, Untyped)
    ensures Balanced(After(m, actions))
  {
    hide Next, AllLegitimate, OnlyHolder, Delegates, TableOk, Boot, Balanced;
    if actions == [] {
      BootBalanced(m);
    } else {
      var init, a := actions[..|actions| - 1], actions[|actions| - 1];
      assert forall k :: 0 <= k <= |init| ==> init[..k] == actions[..k];
      assert actions[..|init|] == init;
      BudgetLedger(m, init);
      Unforgeable(m, init);
      RootAuthorityStays(m, init, Untyped);
      var v := After(m, init);
      assert !KindInFlight(v, Untyped) by { OnlyHolderFlight(v); }
      LegitimateBudgets(v);
      NextBalanced(v, a);
    }
  }

  lemma OnlyHolderFlight(m: State)
    requires OnlyHolder(m, 0, Untyped)
    ensures !KindInFlight(m, Untyped)
  {
  }

  lemma BootBalanced(m: State)
    requires Boot(m)
    ensures Balanced(m)
  {
    hide CreateSpace, KernelOnly;
    var slots := SeedCaps(0);
    var empty := slots[2 := None];
    NoBudget(empty);
    TotalBudgetUpdate(empty, 2, slots[2]);
    assert empty[2 := slots[2]] == slots;
  }
}
