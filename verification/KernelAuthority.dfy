// Where capabilities come from: each one in a table or in flight is a seed, a
// kernel mint, or a copy made by a holder; so authority stays confined.
module KernelAuthority {
  import opened Base
  import opened Capability
  import opened AddressSpace
  import opened Machine
  import opened Syscalls
  import opened KernelSafety
  import KernelRuns

  predicate HasCap(m: State, p: nat, k: nat) {
    p < |m.procs| && k < |m.procs[p].caps| && m.procs[p].caps[k].Some?
  }

  function CapAt(m: State, p: nat, k: nat): CapEntry
    requires HasCap(m, p, k)
  {
    m.procs[p].caps[k].value
  }

  ghost predicate InFlight(m: State, c: CapEntry) {
    exists e, j :: 0 <= e < |m.queues| && 0 <= j < |m.queues[e]| && m.queues[e][j].cap == Some(c)
  }

  ghost predicate Held(m: State, c: CapEntry) {
    exists p: nat, k: nat :: HasCap(m, p, k) && CapAt(m, p, k) == c
  }

  // Same authority up to the amount left in a budget.
  predicate SameCap(c: CapEntry, d: CapEntry) {
    c == d || (c.capType == Untyped && d.capType == Untyped && c == d.(obj := c.obj) && c.obj <= U64_MAX)
  }

  // ----- One step -----

  // The running process is receiving from endpoint e, which has a message.
  ghost predicate Receives(m: State, a: Action, e: nat)
    requires Running(m)
  {
    && e < |m.queues| && m.queues[e] != []
    && match Cur(m).resume
       case InRecv(id, _, _) => id == e
       case _ => a.Recv? && CurObject(m, a.epSlot, Endpoint) == Some(e)
  }

  // The step is a FRAME_ALLOC that succeeds, and this names the run it was granted.
  ghost predicate MintsRun(m: State, a: Action, c: CapEntry)
    requires Running(m)
  {
    && a.FrameAlloc? && Cur(m).space in m.vm.spaces
    && SysFrameAlloc(m, a.pages, a.capSlot, a.outPtr).1 != Refused()
    && var run := AllocRun(m.vm, a.pages, None).1;
       run.Some? && c == FrameCap(run.value, a.pages)
  }

  // The capability in slot k of process p after the step, by how it got there.
  ghost predicate Origin(m: State, a: Action, w: State, p: nat, k: nat)
    requires Running(m) && HasCap(w, p, k)
  {
    var c := CapAt(w, p, k);
    if HasCap(m, p, k) then
      // Nothing is ever overwritten; only the owner's own budget changes amount.
      c == CapAt(m, p, k) || (p == m.current && SameCap(c, CapAt(m, p, k)))
    else if p >= |m.procs| then
      p == |m.procs| && (a.Spawn? || a.SpawnEnv?) && SeedCaps(m.nextPid) == w.procs[p].caps
    else
      || (p == m.current && exists e: nat :: Receives(m, a, e) && m.queues[e][0].cap == Some(c))
      || (Cur(m).resume == InUser && p == m.current && a.FrameAlloc? && k == a.capSlot
          && c.capType == Frame && c.badge == a.pages && 0 < a.pages <= MAX_SHARED_PAGES && MintsRun(m, a, c))
      || (Cur(m).resume == InUser && p == m.current && (a.Spawn? || a.SpawnEnv?)
          && c == ProcessCap(m.nextPid) && w.nextPid == m.nextPid + 1)
      || (Cur(m).resume == InUser && a.Grant? && k == a.dstSlot && Get(Cur(m).caps, a.src) == Some(c)
          && CurObject(m, a.procSlot, Process) == Some(m.procs[p].pid))
  }

  ghost predicate TablesExplained(m: State, a: Action, w: State)
    requires Running(m)
  {
    forall p: nat, k: nat :: HasCap(w, p, k) ==> Origin(m, a, w, p, k)
  }

  // Tables keep their size and never lose a capability.
  ghost predicate TablesKept(m: State, w: State) {
    && |m.procs| <= |w.procs| && m.nextPid <= w.nextPid
    && (forall p :: 0 <= p < |m.procs| ==> |w.procs[p].caps| == |m.procs[p].caps| && w.procs[p].pid == m.procs[p].pid)
    && (forall p: nat, k: nat :: HasCap(m, p, k) ==> HasCap(w, p, k))
  }

  // A capability in flight was in flight already or is the one just sent.
  ghost predicate FlightExplained(m: State, a: Action, w: State)
    requires Running(m)
  {
    forall c :: InFlight(w, c) ==>
      InFlight(m, c) || (Cur(m).resume == InUser && a.Send? && Get(Cur(m).caps, a.capSlot) == Some(c))
  }

  ghost predicate Explained(m: State, a: Action, w: State)
    requires Running(m)
  {
    TablesExplained(m, a, w) && TablesKept(m, w) && FlightExplained(m, a, w)
  }

  // Steps that change no table and no queue.
  ghost predicate SameTables(m: State, w: State) {
    && |w.procs| == |m.procs| && w.nextPid == m.nextPid
    && (forall i :: 0 <= i < |m.procs| ==> w.procs[i].caps == m.procs[i].caps && w.procs[i].pid == m.procs[i].pid)
  }

  lemma SameTablesExplained(m: State, a: Action, w: State)
    requires Running(m) && SameTables(m, w)
    ensures TablesExplained(m, a, w) && TablesKept(m, w)
  {
  }

  lemma SameQueuesExplained(m: State, a: Action, w: State)
    requires Running(m) && w.queues == m.queues
    ensures FlightExplained(m, a, w)
  {
    hide Get;
    forall c | InFlight(w, c)
      ensures InFlight(m, c)
    {
      var e, j :| 0 <= e < |w.queues| && 0 <= j < |w.queues[e]| && w.queues[e][j].cap == Some(c);
      assert m.queues[e][j].cap == Some(c);
    }
  }

  // One table changes, in one slot.
  lemma OneSlotExplained(m: State, a: Action, w: State, i: nat, k: nat)
    requires Running(m) && i < |m.procs| && k < |m.procs[i].caps| && w.nextPid == m.nextPid
    requires |w.procs| == |m.procs| && |w.procs[i].caps| == |m.procs[i].caps| && w.procs[i].pid == m.procs[i].pid
    requires forall j :: 0 <= j < |m.procs| && j != i ==>
               w.procs[j].caps == m.procs[j].caps && w.procs[j].pid == m.procs[j].pid
    requires forall x :: 0 <= x < |m.procs[i].caps| && x != k ==> w.procs[i].caps[x] == m.procs[i].caps[x]
    requires w.procs[i].caps[k].Some? && Origin(m, a, w, i, k)
    ensures TablesExplained(m, a, w) && TablesKept(m, w)
  {
    hide Get;
    forall p: nat, x: nat | HasCap(w, p, x)
      ensures Origin(m, a, w, p, x)
    {
      if p != i || x != k {
        assert w.procs[p].caps[x] == m.procs[p].caps[x];
      }
    }
    forall p: nat, x: nat | HasCap(m, p, x)
      ensures HasCap(w, p, x)
    {
    }
  }

  lemma RecvLoopTables(m: State, a: Action, ep: nat, out: u64, dst: u64)
    requires Running(m) && (ep < |m.queues| && m.queues[ep] != [] ==> Receives(m, a, ep))
    ensures Explained(m, a, RecvLoop(m, ep, out, dst).0)
  {
    hide Get, UserBuffer, BlockOn, Origin, SameTables, FlightExplained, TablesExplained, TablesKept, Receives;
    var w := RecvLoop(m, ep, out, dst).0;
    if ep < |m.queues| && m.queues[ep] != [] {
      PoppedFlight(m, a, w, ep);
      var msg := m.queues[ep][0];
      if msg.cap.Some? && dst != U64_MAX && CanInsert(Cur(m).caps, dst) {
        ReceivedSlot(m, a, w, ep, dst, msg.cap.value);
      } else {
        SameTablesExplained(m, a, w) by { PopTables(m, w); }
      }
    } else {
      ParkedTables(m, a, InRecv(ep, out, dst), OnEndpoint(ep));
    }
  }

  lemma ParkedTables(m: State, a: Action, resume: Resume, reason: BlockReason)
    requires Running(m)
    ensures Explained(m, a, BlockOn(SetProc(m, m.current, Cur(m).(resume := resume)), reason))
  {
    hide Get, BlockOn, Origin, SameTables, FlightExplained, TablesExplained, TablesKept;
    var parked := SetProc(m, m.current, Cur(m).(resume := resume));
    var w := BlockOn(parked, reason);
    PopTables(m, parked);
    BlockTables(m, parked, reason);
    SameTablesExplained(m, a, w);
    SameQueuesExplained(m, a, w);
  }

  lemma ReceivedSlot(m: State, a: Action, w: State, ep: nat, dst: nat, c: CapEntry)
    requires Running(m) && Running(w) && CanInsert(Cur(m).caps, dst) && Receives(m, a, ep)
    requires m.queues[ep][0].cap == Some(c)
    requires m.current < |w.procs| && w.procs == m.procs[m.current := w.procs[m.current]] && w.nextPid == m.nextPid
    requires w.procs[m.current].pid == Cur(m).pid && w.procs[m.current].caps == Cur(m).caps[dst := Some(c)]
    ensures TablesExplained(m, a, w) && TablesKept(m, w)
  {
    hide InFlight, Get, Receives;
    OneSlotExplained(m, a, w, m.current, dst);
  }

  lemma PopTables(m: State, w: State)
    requires Running(m) && Running(w) && w.nextPid == m.nextPid
    requires m.current < |w.procs| && w.procs == m.procs[m.current := w.procs[m.current]]
    requires w.procs[m.current].caps == Cur(m).caps && w.procs[m.current].pid == Cur(m).pid
    ensures SameTables(m, w)
  {
  }

  lemma PoppedFlight(m: State, a: Action, w: State, ep: nat)
    requires Running(m) && ep < |m.queues| && m.queues[ep] != [] && w.queues == m.queues[ep := m.queues[ep][1..]]
    ensures FlightExplained(m, a, w)
  {
    hide Get;
    forall c | InFlight(w, c)
      ensures InFlight(m, c)
    {
      var e, j :| 0 <= e < |w.queues| && 0 <= j < |w.queues[e]| && w.queues[e][j].cap == Some(c);
      if e == ep {
        assert m.queues[e][j + 1].cap == Some(c);
      } else {
        assert m.queues[e][j].cap == Some(c);
      }
    }
  }

  lemma BlockTables(m: State, parked: State, reason: BlockReason)
    requires Running(m) && Running(parked) && SameTables(m, parked)
    requires parked.queues == m.queues
    ensures SameTables(m, BlockOn(parked, reason)) && BlockOn(parked, reason).queues == m.queues
  {
  }

  lemma SendTables(m: State, a: Action)
    requires Running(m) && a.Send? && Cur(m).resume == InUser
    ensures Explained(m, a, SysSend(m, a.epSlot, a.word, a.capSlot).0)
  {
    hide Get, Origin;
    var w := SysSend(m, a.epSlot, a.word, a.capSlot).0;
    SameTablesExplained(m, a, w);
    if w.queues != m.queues {
      var ep := CurObject(m, a.epSlot, Endpoint).value;
      var cap := if a.capSlot == U64_MAX then None else Get(Cur(m).caps, a.capSlot);
      assert w.queues == m.queues[ep := m.queues[ep] + [Message(a.word, cap)]];
      forall c | InFlight(w, c)
        ensures InFlight(m, c) || Get(Cur(m).caps, a.capSlot) == Some(c)
      {
        var e, j :| 0 <= e < |w.queues| && 0 <= j < |w.queues[e]| && w.queues[e][j].cap == Some(c);
        if e != ep || j < |m.queues[e]| {
          assert m.queues[e][j].cap == Some(c);
        }
      }
    } else {
      SameQueuesExplained(m, a, w);
    }
  }

  lemma GrantTables(m: State, a: Action)
    requires Running(m) && a.Grant? && Cur(m).resume == InUser
    ensures Explained(m, a, SysGrant(m, a.procSlot, a.src, a.dstSlot).0)
  {
    hide InFlight;
    var w := SysGrant(m, a.procSlot, a.src, a.dstSlot).0;
    SameQueuesExplained(m, a, w);
    if w == m {
      SameTablesExplained(m, a, w);
    } else {
      var i := FindPid(m.procs, CurObject(m, a.procSlot, Process).value, 0).value;
      OneSlotExplained(m, a, w, i, a.dstSlot);
    }
  }

  // A charge, a refund or both leave every slot but budgets as it was.
  lemma ChargedSlots(slots: Slots, amount: nat)
    requires forall k :: 0 <= k < |slots| && slots[k].Some? ==>
               slots[k].value.obj <= U64_MAX || slots[k].value.capType != Untyped
    ensures var c := Charge(slots, amount).0; BudgetOnly(slots, c) && BudgetOnly(slots, Refund(c, amount))
  {
  }

  ghost predicate BudgetOnly(slots: Slots, after: Slots) {
    && |after| == |slots|
    && forall k :: 0 <= k < |slots| ==>
         (slots[k].Some? <==> after[k].Some?)
         && (slots[k].Some? ==> after[k] == slots[k] || SameCap(after[k].value, slots[k].value))
  }

  ghost predicate BudgetsFit(m: State) {
    forall p: nat, k: nat :: HasCap(m, p, k) && CapAt(m, p, k).capType == Untyped ==> CapAt(m, p, k).obj <= U64_MAX
  }

  // The running process's budgets change and, if `extra` is given, one empty slot
  // of it is filled.
  lemma OwnTableExplained(m: State, a: Action, w: State, budgets: Slots)
    requires Running(m) && w.nextPid == m.nextPid && |w.procs| == |m.procs|
    requires forall j :: 0 <= j < |m.procs| && j != m.current ==>
               w.procs[j].caps == m.procs[j].caps && w.procs[j].pid == m.procs[j].pid
    requires w.procs[m.current].pid == Cur(m).pid
    requires BudgetOnly(Cur(m).caps, budgets)
    requires w.procs[m.current].caps == budgets
          || (Cur(m).resume == InUser && a.FrameAlloc? && 0 < a.pages <= MAX_SHARED_PAGES
              && CanInsert(Cur(m).caps, a.capSlot)
              && exists phys :: MintsRun(m, a, FrameCap(phys, a.pages))
                                && w.procs[m.current].caps == budgets[a.capSlot := Some(FrameCap(phys, a.pages))])
    ensures TablesExplained(m, a, w) && TablesKept(m, w)
  {
    hide InFlight, Get, MintsRun;
    forall p: nat, k: nat | HasCap(w, p, k)
      ensures Origin(m, a, w, p, k)
    {
      if p != m.current {
        assert w.procs[p].caps[k] == m.procs[p].caps[k];
      }
    }
    forall p: nat, k: nat | HasCap(m, p, k)
      ensures HasCap(w, p, k)
    {
    }
  }

  lemma FrameAllocTables(m: State, a: Action)
    requires Awake(m) && a.FrameAlloc? && BudgetsFit(m) && Cur(m).resume == InUser
    ensures Explained(m, a, SysFrameAlloc(m, a.pages, a.capSlot, a.outPtr).0)
  {
    hide AllocRun, FreeRun, MapRange, UserBuffer, Charge, Refund, Get, Origin, TablesExplained, TablesKept, InFlight,
      BudgetOnly, MintsRun;
    var w := SysFrameAlloc(m, a.pages, a.capSlot, a.outPtr).0;
    SameQueuesExplained(m, a, w);
    FrameAllocCaps(m, a);
    var caps := Cur(m).caps;
    OwnBudgetsFit(m);
    var charged := Charge(caps, a.pages * PAGE).0;
    ChargedSlots(caps, a.pages * PAGE);
    if w.procs[m.current].caps == caps {
      BudgetOnlySelf(caps);
      OwnTableExplained(m, a, w, caps);
    } else if w.procs[m.current].caps == Refund(charged, a.pages * PAGE) {
      OwnTableExplained(m, a, w, Refund(charged, a.pages * PAGE));
    } else {
      OwnTableExplained(m, a, w, charged);
    }
  }

  lemma OwnBudgetsFit(m: State)
    requires Running(m) && BudgetsFit(m)
    ensures forall k :: 0 <= k < |Cur(m).caps| && Cur(m).caps[k].Some? ==>
              Cur(m).caps[k].value.obj <= U64_MAX || Cur(m).caps[k].value.capType != Untyped
  {
    forall k: nat | k < |Cur(m).caps| && Cur(m).caps[k].Some?
      ensures Cur(m).caps[k].value.obj <= U64_MAX || Cur(m).caps[k].value.capType != Untyped
    {
      assert HasCap(m, m.current, k);
    }
  }

  lemma BudgetOnlySelf(slots: Slots)
    ensures BudgetOnly(slots, slots)
  {
  }

  // The table of the caller after FRAME_ALLOC, in each outcome.
  lemma FrameAllocCaps(m: State, a: Action)
    requires Awake(m) && a.FrameAlloc?
    ensures var w := SysFrameAlloc(m, a.pages, a.capSlot, a.outPtr).0;
      var charged := Charge(Cur(m).caps, a.pages * PAGE).0;
      && |w.procs| == |m.procs| && w.nextPid == m.nextPid && w.queues == m.queues
      && (forall j :: 0 <= j < |m.procs| && j != m.current ==> w.procs[j] == m.procs[j])
      && w.procs[m.current].pid == Cur(m).pid
      && (|| w.procs[m.current].caps == Cur(m).caps
          || w.procs[m.current].caps == Refund(charged, a.pages * PAGE)
          || (0 < a.pages <= MAX_SHARED_PAGES && CanInsert(Cur(m).caps, a.capSlot) && CanInsert(charged, a.capSlot)
              && exists phys :: MintsRun(m, a, FrameCap(phys, a.pages))
                                && w.procs[m.current].caps == charged[a.capSlot := Some(FrameCap(phys, a.pages))]))
  {
    hide AllocRun, FreeRun, MapRange, UserBuffer, Refund;
    var run := AllocRun(m.vm, a.pages, None).1;
    if SysFrameAlloc(m, a.pages, a.capSlot, a.outPtr).1 != Refused() && run.Some? {
      assert MintsRun(m, a, FrameCap(run.value, a.pages));
    }
  }

  lemma DmaAllocTables(m: State, a: Action)
    requires Awake(m) && a.DmaAlloc? && BudgetsFit(m) && Cur(m).resume == InUser
    ensures Explained(m, a, SysDmaAlloc(m, a.length, a.outPtr).0)
  {
    hide AllocRun, MapRange, UserBuffer, Charge, Refund, Get, Origin, TablesExplained, TablesKept, InFlight, BudgetOnly;
    var w := SysDmaAlloc(m, a.length, a.outPtr).0;
    SameQueuesExplained(m, a, w);
    var caps, need := Cur(m).caps, DivCeil(a.length, PAGE) * PAGE;
    OwnBudgetsFit(m);
    ChargedSlots(caps, need);
    BudgetOnlySelf(caps);
    OwnTableExplained(m, a, w, w.procs[m.current].caps);
  }

  lemma MappingTables(m: State, a: Action)
    requires Awake(m) && (a.MapFrame? || a.IoMap? || a.Sbrk?)
    ensures Explained(m, a, Syscall(m, a).0)
  {
    hide MapRange, AllocMapAll, UserBuffer, DataPages, PageUp, PageDown, DivCeil, Get, Origin, SlotsAuthorizeMmio,
      InFlight;
    var w := Syscall(m, a).0;
    SameTablesExplained(m, a, w);
    SameQueuesExplained(m, a, w);
  }

  lemma AddChildTables(m: State, a: Action, c: State, child: Proc, capSlot: nat)
    requires Running(m) && c == m.(vm := c.vm) && (a.Spawn? || a.SpawnEnv?) && Cur(m).resume == InUser
    requires child.pid == m.nextPid && child.caps == SeedCaps(m.nextPid)
    ensures Explained(m, a, AddChild(c, child, capSlot).0)
  {
    hide InFlight, Get, SeedCaps;
    var w := AddChild(c, child, capSlot).0;
    SameQueuesExplained(m, a, w);
    forall p: nat, k: nat | HasCap(w, p, k)
      ensures Origin(m, a, w, p, k)
    {
    }
  }

  lemma SpawnTables(m: State, a: Action)
    requires Awake(m) && (a.Spawn? || a.SpawnEnv?) && Cur(m).resume == InUser
    ensures Explained(m, a, Syscall(m, a).0)
  {
    hide AddChild, CreateSpace, SeedCaps, AllocMapAll, DataPages, UserRange, DivCeil, Explained;
    var (vm, made) := CreateSpace(m.vm, m.image);
    OnlyVmExplained(m, a, m.(vm := vm));
    if made.Some? {
      var child := NewProc(m.nextPid, made.value.0, made.value.1);
      AddChildTables(m, a, m.(vm := vm), child, a.capSlot);
      if a.SpawnEnv? {
        var pages := DivCeil(a.len, PAGE);
        var copied := AllocMapAll(vm, made.value.0, DataPages(HEAP_START, pages)).0;
        OnlyVmExplained(m, a, m.(vm := copied));
        AddChildTables(m, a, m.(vm := copied),
                       child.(heapBreak := HEAP_START + pages * PAGE, envpUser := HEAP_START, envpLen := a.len),
                       a.capSlot);
      }
    }
  }

  lemma OnlyVmExplained(m: State, a: Action, w: State)
    requires Running(m) && w == m.(vm := w.vm)
    ensures Explained(m, a, w)
  {
    hide Origin, InFlight, Get, FlightExplained, TablesExplained, TablesKept;
    SameTablesExplained(m, a, w);
    SameQueuesExplained(m, a, w);
  }

  lemma OtherTables(m: State, a: Action)
    requires Awake(m) && TableOk(m)
    requires a.Signal? || a.Yield? || a.Quit? || a.Fault? || a.Kill? || a.GetStatus?
    ensures Explained(m, a, Syscall(m, a).0)
  {
    hide SysSignal, SysKill, YieldNow, Exit, SysGetStatus, TablesExplained, TablesKept, FlightExplained;
    var w := Syscall(m, a).0;
    match a {
      case Signal(slot, bits) => SignalTables(m, slot, bits);
      case Kill(procSlot, signal) => KillTables(m, procSlot, signal);
      case Yield => SwitchTables(m, 0);
      case Quit(code) => SwitchTables(m, code);
      case Fault => SwitchTables(m, EXIT_FAULT);
      case _ =>
    }
    SameTablesExplained(m, a, w);
    SameQueuesExplained(m, a, w);
  }

  lemma SignalTables(m: State, slot: nat, bits: bv64)
    requires Running(m)
    ensures var w := SysSignal(m, slot, bits).0; SameTables(m, w) && w.queues == m.queues
  {
    hide Get, Or;
  }

  lemma KillTables(m: State, procSlot: nat, signal: u64)
    requires Running(m)
    ensures var w := SysKill(m, procSlot, signal).0; SameTables(m, w) && w.queues == m.queues
  {
    hide Get, FindPid;
  }

  lemma SwitchTables(m: State, code: u64)
    requires Running(m)
    ensures SameTables(m, YieldNow(m)) && YieldNow(m).queues == m.queues
    ensures SameTables(m, Exit(m, code)) && Exit(m, code).queues == m.queues
  {
    hide PickNext;
  }

  lemma WaitTables(m: State, a: Action, id: nat)
    requires Running(m)
    ensures Explained(m, a, WaitLoop(m, id).0)
  {
    hide PickNext, Get, Origin, InFlight, TablesExplained, TablesKept, FlightExplained;
    SameTablesExplained(m, a, WaitLoop(m, id).0);
    SameQueuesExplained(m, a, WaitLoop(m, id).0);
  }

  lemma WaitPidTables(m: State, a: Action, id: nat)
    requires Running(m)
    ensures Explained(m, a, WaitPidLoop(m, id).0)
  {
    hide PickNext, Get, Origin, InFlight, FindPid, TablesExplained, TablesKept, FlightExplained;
    SameTablesExplained(m, a, WaitPidLoop(m, id).0);
    SameQueuesExplained(m, a, WaitPidLoop(m, id).0);
  }

  lemma SelfExplained(m: State, a: Action)
    requires Running(m)
    ensures Explained(m, a, m)
  {
    OnlyVmExplained(m, a, m);
  }

  lemma SyscallExplained(m: State, a: Action)
    requires Awake(m) && TableOk(m) && BudgetsFit(m) && Cur(m).resume == InUser
    ensures Explained(m, a, Syscall(m, a).0)
  {
    hide SysFrameAlloc, SysDmaAlloc, SysMapFrame, SysIoMap, SysSbrk, SysGrant, SysSpawn, SysSpawnEnv, RecvLoop,
      WaitLoop,
      WaitPidLoop, Get, Or, Exit, YieldNow, Explained, SysSend, SysSignal, KillPid, SysGetStatus, BudgetsFit;
    SelfExplained(m, a);
    match a
    case Send(_, _, _) => SendTables(m, a);
    case Recv(epSlot, out, dst) =>
      if CurObject(m, epSlot, Endpoint).Some? {
        RecvLoopTables(m, a, CurObject(m, epSlot, Endpoint).value, out, dst);
      }
    case Wait(slot) =>
      if CurObject(m, slot, Notification).Some? {
        WaitTables(m, a, CurObject(m, slot, Notification).value);
      }
    case WaitPid(procSlot) =>
      if CurObject(m, procSlot, Process).Some? {
        WaitPidTables(m, a, CurObject(m, procSlot, Process).value);
      }
    case Grant(_, _, _) => GrantTables(m, a);
    case Spawn(_) => SpawnTables(m, a);
    case SpawnEnv(_, _, _) => SpawnTables(m, a);
    case FrameAlloc(_, _, _) => FrameAllocTables(m, a);
    case DmaAlloc(_, _) => DmaAllocTables(m, a);
    case MapFrame(_, _) => MappingTables(m, a);
    case IoMap(_, _) => MappingTables(m, a);
    case Sbrk(_) => MappingTables(m, a);
    case _ => OtherTables(m, a);
  }

  // The provenance of every capability, step by step.
  lemma StepExplained(m: State, a: Action)
    requires Awake(m) && TableOk(m) && BudgetsFit(m)
    ensures Explained(m, a, Next(m, a))
  {
    hide RecvLoop, WaitLoop, WaitPidLoop, Syscall, Explained, BudgetsFit;
    SelfExplained(m, a);
    if !m.halted {
      match Cur(m).resume
      case InRecv(id, out, dst) => RecvLoopTables(m, a, id, out, dst);
      case InWait(id) => WaitTables(m, a, id);
      case InWaitPid(target) => WaitPidTables(m, a, target);
      case InUser => SyscallExplained(m, a);
      case Abandoned =>
    }
  }

  // ----- Every capability that can exist -----

  // The capabilities a run can ever contain: the seeds, frame runs of a size the
  // kernel mints, and handles on processes that were created.
  predicate Legitimate(nextPid: nat, c: CapEntry) {
    match c.capType
    case Endpoint => c == EndpointCap(0) || c == EndpointCap(1)
    case Notification => c == NotificationCap(0)
    case IoPort => c == IoPortCap(PCI_IO_BASE, PCI_IO_COUNT)
    case IoMem => c == IoMemCap(MMIO_BASE, MMIO_END - MMIO_BASE)
    case Untyped => c == UntypedCap(c.obj) && c.obj <= U64_MAX
    case Frame => 0 < c.badge <= MAX_SHARED_PAGES
    case Process => c == ProcessCap(c.obj) && 1 <= c.obj < nextPid
    case _ => false
  }

  ghost predicate AllLegitimate(m: State) {
    && (forall p: nat, k: nat :: HasCap(m, p, k) ==> Legitimate(m.nextPid, CapAt(m, p, k)))
    && (forall c :: InFlight(m, c) ==> Legitimate(m.nextPid, c))
  }

  lemma GetIsHeld(m: State, k: nat, c: CapEntry)
    requires Running(m) && AllLegitimate(m) && Get(Cur(m).caps, k) == Some(c)
    ensures Legitimate(m.nextPid, c)
  {
    assert HasCap(m, m.current, k);
  }

  lemma LegitimateLater(nextPid: nat, later: nat, c: CapEntry)
    requires Legitimate(nextPid, c) && nextPid <= later
    ensures Legitimate(later, c)
  {
  }

  lemma ExplainedLegitimate(m: State, a: Action, w: State)
    requires TableOk(m) && AllLegitimate(m) && Explained(m, a, w)
    ensures AllLegitimate(w)
  {
    hide Legitimate, Receives, Get;
    forall p: nat, k: nat | HasCap(w, p, k)
      ensures Legitimate(w.nextPid, CapAt(w, p, k))
    {
      OneLegitimate(m, a, w, p, k);
    }
    forall c | InFlight(w, c)
      ensures Legitimate(w.nextPid, c)
    {
      if InFlight(m, c) {
        LegitimateLater(m.nextPid, w.nextPid, c);
      } else {
        GetIsHeld(m, a.capSlot, c);
        LegitimateLater(m.nextPid, w.nextPid, c);
      }
    }
  }

  lemma OneLegitimate(m: State, a: Action, w: State, p: nat, k: nat)
    requires TableOk(m) && AllLegitimate(m) && m.nextPid <= w.nextPid && HasCap(w, p, k) && Origin(m, a, w, p, k)
    ensures Legitimate(w.nextPid, CapAt(w, p, k))
  {
    hide Get;
    var c := CapAt(w, p, k);
    if HasCap(m, p, k) {
      assert Legitimate(m.nextPid, CapAt(m, p, k));
    } else if p < |m.procs| {
      if e: nat :| Receives(m, a, e) && m.queues[e][0].cap == Some(c) {
        assert InFlight(m, c);
      } else if a.Grant? && Get(Cur(m).caps, a.src) == Some(c) {
        GetIsHeld(m, a.src, c);
      }
    }
  }

  // Unforgeability in every reachable state.
  lemma {:induction false} Unforgeable(m: State, actions: seq<Action>)
    requires Boot(m)
    ensures var w := After(m, actions); TableOk(w) && AllLegitimate(w)
  {
    hide Next, AllLegitimate, Explained, TableOk, Boot, Awake;
    KernelRuns.RunSafe(m, actions);
    if actions == [] {
      BootLegitimate(m);
    } else {
      var init, a := actions[..|actions| - 1], actions[|actions| - 1];
      Unforgeable(m, init);
      NextLegitimate(After(m, init), a);
    }
  }

  lemma NextLegitimate(m: State, a: Action)
    requires TableOk(m) && AllLegitimate(m)
    ensures AllLegitimate(Next(m, a))
  {
    hide Step, Explained;
    if Awake(m) {
      assert BudgetsFit(m) by {
        forall p: nat, k: nat | HasCap(m, p, k) && CapAt(m, p, k).capType == Untyped
          ensures CapAt(m, p, k).obj <= U64_MAX
        {
          assert Legitimate(m.nextPid, CapAt(m, p, k));
        }
      }
      StepExplained(m, a);
      ExplainedLegitimate(m, a, Next(m, a));
    }
  }

  lemma BootLegitimate(m: State)
    requires Boot(m)
    ensures AllLegitimate(m)
  {
    hide CreateSpace, KernelOnly;
    forall p: nat, k: nat | HasCap(m, p, k)
      ensures Legitimate(m.nextPid, CapAt(m, p, k))
    {
    }
    forall c
      ensures !InFlight(m, c)
    {
    }
  }

  // ----- What unforgeability confines -----

  // Port accesses stay inside the PCI I/O window, whoever makes them.
  lemma PortsConfined(m: State, p: nat, port: nat, size: nat)
    requires AllLegitimate(m) && p < |m.procs| && SlotsAuthorizePort(m.procs[p].caps, port, size)
    ensures 0xc000 <= port && port + (if size < 1 then 1 else size) <= 0x1_0000
  {
    var slots := m.procs[p].caps;
    var i :| 0 <= i < |slots| && slots[i].Some? && AuthorizesPort(slots[i].value, port, size);
    assert HasCap(m, p, i) && CapAt(m, p, i) == slots[i].value;
    assert slots[i].value == IoPortCap(PCI_IO_BASE, PCI_IO_COUNT);
    var width := if size < 1 then 1 else size;
    PortRangeExact(PCI_IO_BASE, PCI_IO_COUNT, port, size);
    assert InRange(port, port, width) && InRange(port + width - 1, port, width);
    assert InRange(port, PCI_IO_BASE, PCI_IO_COUNT) && InRange(port + width - 1, PCI_IO_BASE, PCI_IO_COUNT);
  }

  // Device memory that may be mapped stays inside the PCI memory hole.
  lemma MmioConfined(m: State, p: nat, phys: nat, len: nat)
    requires AllLegitimate(m) && p < |m.procs| && SlotsAuthorizeMmio(m.procs[p].caps, phys, len)
    ensures MMIO_BASE <= phys && phys + len <= MMIO_END
  {
    var slots := m.procs[p].caps;
    var i :| 0 <= i < |slots| && slots[i].Some? && AuthorizesMmio(slots[i].value, phys, len);
    assert HasCap(m, p, i) && CapAt(m, p, i) == slots[i].value;
  }

  // A grant goes to exactly the process its handle names, into exactly the slot asked
  // for, if that slot is free; nothing else changes.
  lemma GrantDelivers(m: State, procSlot: nat, src: nat, dst: nat)
    requires TableOk(m) && AllLegitimate(m)
    ensures var (w, r) := SysGrant(m, procSlot, src, dst);
      var target, cap := CurObject(m, procSlot, Process), Get(Cur(m).caps, src);
      && (target.Some? ==> target.value < |m.procs|)
      && (r == Returned(0, []) <==> target.Some? && cap.Some? && CanInsert(m.procs[target.value].caps, dst))
      && w == if r == Returned(0, []) then SetCaps(m, target.value, m.procs[target.value].caps[dst := cap]) else m
  {
    var target := CurObject(m, procSlot, Process);
    if target.Some? {
      TargetsConfined(m, procSlot);
      assert m.procs[target.value].pid == target.value;
      var i := FindPid(m.procs, target.value, 0);
      assert i == Some(target.value);
    }
  }

  // ----- Authority over processes -----

  // Does any capability, held or in flight, name process `q`?
  ghost predicate Named(m: State, q: nat) {
    Held(m, ProcessCap(q)) || InFlight(m, ProcessCap(q))
  }

  lemma LegitimateBudgets(m: State)
    requires AllLegitimate(m)
    ensures BudgetsFit(m)
  {
    forall p: nat, k: nat | HasCap(m, p, k) && CapAt(m, p, k).capType == Untyped
      ensures CapAt(m, p, k).obj <= U64_MAX
    {
      assert Legitimate(m.nextPid, CapAt(m, p, k));
    }
  }

  lemma HeldIfMine(m: State, k: nat, c: CapEntry)
    requires Running(m) && Get(Cur(m).caps, k) == Some(c)
    ensures Held(m, c)
  {
    assert HasCap(m, m.current, k) && CapAt(m, m.current, k) == c;
  }

  // A handle on an existing process can only come from an older handle on it.
  lemma NameComesFromName(m: State, a: Action, w: State, p: nat, k: nat, q: nat)
    requires TableOk(m) && q < m.nextPid && HasCap(w, p, k) && Origin(m, a, w, p, k)
    requires CapAt(w, p, k) == ProcessCap(q)
    ensures Named(m, q)
  {
    hide Get;
    var c := ProcessCap(q);
    if HasCap(m, p, k) {
      assert CapAt(m, p, k) == c;
    } else if p >= |m.procs| {
      SeedsNameNobody(m.nextPid, k);
    } else if a.Grant? && Get(Cur(m).caps, a.src) == Some(c) {
      HeldIfMine(m, a.src, c);
    } else {
      var e: nat :| Receives(m, a, e) && m.queues[e][0].cap == Some(c);
      assert InFlight(m, c);
    }
  }

  lemma SeedsNameNobody(pid: nat, k: nat)
    ensures k < |SeedCaps(pid)| && SeedCaps(pid)[k].Some? ==> SeedCaps(pid)[k].value.capType != Process
  {
  }

  // A process that exists and that nobody has a handle on never gets one.
  lemma UnnamedStep(m: State, a: Action, q: nat)
    requires TableOk(m) && AllLegitimate(m) && q < m.nextPid
    ensures Named(Next(m, a), q) ==> Named(m, q)
  {
    hide Step, Legitimate, Receives, Get, Origin;
    var w, c := Next(m, a), ProcessCap(q);
    if Awake(m) && Named(w, q) {
      LegitimateBudgets(m);
      StepExplained(m, a);
      if Held(w, c) {
        var p: nat, k: nat :| HasCap(w, p, k) && CapAt(w, p, k) == c;
        NameComesFromName(m, a, w, p, k, q);
      } else if !InFlight(m, c) {
        HeldIfMine(m, a.capSlot, c);
      }
    }
  }

  // A child spawned without a handle, like the root itself, can never be named in
  // any later state, whatever anybody does.
  lemma {:induction false} NeverNamed(m: State, later: seq<Action>, q: nat)
    requires TableOk(m) && NoLostWakeup(m) && MessagesConserved(m) && SignalsConserved(m) && CurrentUnblocked(m)
    requires AllLegitimate(m) && q < m.nextPid && !Named(m, q)
    ensures var w := After(m, later);
      Safe(w) && CurrentUnblocked(w) && AllLegitimate(w) && q < w.nextPid && !Named(w, q)
  {
    hide Next, AllLegitimate, Named, NoLostWakeup, MessagesConserved, SignalsConserved, CurrentUnblocked;
    if later != [] {
      var init, a := later[..|later| - 1], later[|later| - 1];
      NeverNamed(m, init, q);
      var v := After(m, init);
      UnnamedStep(v, a, q);
      NextLegitimate(v, a);
      KernelRuns.NextSafe(v, a);
      PidsGrow(v, a);
    }
  }

  lemma PidsGrow(m: State, a: Action)
    requires TableOk(m) && AllLegitimate(m)
    ensures m.nextPid <= Next(m, a).nextPid
  {
    hide Step, TablesExplained, FlightExplained;
    if Awake(m) {
      LegitimateBudgets(m);
      StepExplained(m, a);
    }
  }

  // Whom a system call can reach: the target of every cross-process call is named
  // by a Process capability of the caller, exists, and is not the root.
  lemma TargetsConfined(m: State, slot: nat)
    requires TableOk(m) && AllLegitimate(m) && CurObject(m, slot, Process).Some?
    ensures var pid := CurObject(m, slot, Process).value; 1 <= pid < |m.procs| && Held(m, ProcessCap(pid))
  {
    assert HasCap(m, m.current, slot);
    assert CapAt(m, m.current, slot) == ProcessCap(CapAt(m, m.current, slot).obj);
  }

  lemma FreshChildUnnamed(m: State, a: Action)
    requires Awake(m) && TableOk(m) && AllLegitimate(m) && Cur(m).resume == InUser && !m.halted
    requires (a.Spawn? || a.SpawnEnv?) && a.capSlot == U64_MAX
    ensures Next(m, a).nextPid == m.nextPid + 1 ==> !Named(Next(m, a), m.nextPid)
  {
    hide CreateSpace, SeedCaps, Legitimate, AllocMapAll, DataPages, UserRange, DivCeil;
    var w, c := Next(m, a), ProcessCap(m.nextPid);
    if w.nextPid == m.nextPid + 1 {
      forall p: nat, k: nat | HasCap(w, p, k)
        ensures CapAt(w, p, k) != c
      {
        if p < |m.procs| {
          assert HasCap(m, p, k) && CapAt(m, p, k) == CapAt(w, p, k);
          LegitimateIsOlder(m.nextPid, CapAt(m, p, k));
        } else {
          SeedsNameNobody(m.nextPid, k);
        }
      }
      forall d | InFlight(w, d)
        ensures d != c
      {
        SameQueuesExplained(m, a, w);
        LegitimateIsOlder(m.nextPid, d);
      }
    }
  }

  lemma LegitimateIsOlder(nextPid: nat, c: CapEntry)
    requires Legitimate(nextPid, c)
    ensures c != ProcessCap(nextPid)
  {
  }

  // A child spawned without a handle slot stays out of reach: in no continuation of
  // the run does any slot of any process that is running name it, so no call on
  // another process is ever about it.
  lemma ChildOutOfReach(m: State, earlier: seq<Action>, a: Action, later: seq<Action>, slot: nat)
    requires Boot(m) && (a.Spawn? || a.SpawnEnv?) && a.capSlot == U64_MAX
    requires var v := After(m, earlier);
      Running(v) && !v.halted && Cur(v).resume == InUser && Next(v, a).nextPid == v.nextPid + 1
    ensures var v, w := After(m, earlier), After(m, earlier + [a] + later);
      Running(w) && CurObject(w, slot, Process) != Some(v.nextPid)
  {
    hide Boot, Next, AllLegitimate, NoLostWakeup, MessagesConserved, SignalsConserved, KernelRuns.Sound;
    var v := After(m, earlier);
    var u := Next(v, a);
    assert (earlier + [a])[..|earlier|] == earlier;
    assert After(m, earlier + [a]) == u;
    KernelRuns.AfterTwice(m, earlier + [a], later);
    hide After;
    KernelRuns.RunSafe(m, earlier);
    Unforgeable(m, earlier);
    FreshChildUnnamed(v, a);
    KernelRuns.RunSafe(m, earlier + [a]);
    Unforgeable(m, earlier + [a]);
    SoundParts(u);
    NeverNamed(u, later, v.nextPid);
    var w := After(u, later);
    if CurObject(w, slot, Process) == Some(v.nextPid) {
      TargetsConfined(w, slot);
    }
  }

  lemma SoundParts(m: State)
    requires KernelRuns.Sound(m)
    ensures TableOk(m) && NoLostWakeup(m) && MessagesConserved(m) && SignalsConserved(m) && CurrentUnblocked(m)
  {
  }
}
