// Whole runs of the kernel from boot: the safety invariant holds throughout, and
// what it says about messages and signals.
module KernelRuns {
  import opened Base
  import opened Capability
  import opened FramePool
  import opened AddressSpace
  import opened Machine
  import opened Syscalls
  import opened KernelSafety

  // ----- The running process is never a blocked one -----

  lemma BlockOnUnblocked(m: State, reason: BlockReason)
    requires Running(m)
    ensures CurrentUnblocked(BlockOn(m, reason))
  {
  }

  lemma SyscallUnblocked(m: State, a: Action)
    requires Awake(m) && TableOk(m) && CurrentUnblocked(m)
    ensures CurrentUnblocked(Syscall(m, a).0)
  {
    hide SysFrameAlloc, SysDmaAlloc, SysMapFrame, SysIoMap, SysSbrk, SysGrant, SysSpawn, SysSpawnEnv, SysSend,
      SysSignal, SysKill,
      RecvLoop, WaitLoop, WaitPidLoop, YieldNow, Exit, Get;
    match a
    case Recv(epSlot, out, dst) =>
      if CurObject(m, epSlot, Endpoint).Some? {
        RecvLoopUnblocked(m, CurObject(m, epSlot, Endpoint).value, out, dst);
      }
    case Wait(slot) =>
      if CurObject(m, slot, Notification).Some? {
        WaitLoopUnblocked(m, CurObject(m, slot, Notification).value);
      }
    case WaitPid(procSlot) =>
      if CurObject(m, procSlot, Process).Some? {
        SwitchUnblocked(m, 0, CurObject(m, procSlot, Process).value);
      }
    case Spawn(capSlot) => SpawnGrows(m, capSlot);
    case SpawnEnv(envp, len, capSlot) => SpawnEnvGrows(m, envp, len, capSlot);
    case Send(epSlot, word, capSlot) => SendNudges(m, epSlot, word, capSlot);
    case Signal(slot, bits) => SignalNudges(m, slot, bits);
    case Kill(procSlot, signal) => KillNudges(m, procSlot, signal);
    case Yield => SwitchUnblocked(m, 0, 0);
    case Quit(code) => SwitchUnblocked(m, code, 0);
    case Fault => SwitchUnblocked(m, EXIT_FAULT, 0);
    case _ => QuietCalls(m, a);
  }

  lemma SwitchUnblocked(m: State, code: u64, target: nat)
    requires CurrentUnblocked(m)
    ensures CurrentUnblocked(YieldNow(m)) && CurrentUnblocked(Exit(m, code))
    ensures CurrentUnblocked(WaitPidLoop(m, target).0)
  {
    hide PickNext, FindPid;
  }

  lemma RecvLoopUnblocked(m: State, ep: nat, out: u64, dst: u64)
    requires CurrentUnblocked(m)
    ensures CurrentUnblocked(RecvLoop(m, ep, out, dst).0)
  {
    hide UserBuffer, BlockOn, Insert;
    BlockOnUnblocked(SetProc(m, m.current, Cur(m).(resume := InRecv(ep, out, dst))), OnEndpoint(ep));
  }

  lemma WaitLoopUnblocked(m: State, id: nat)
    requires CurrentUnblocked(m)
    ensures CurrentUnblocked(WaitLoop(m, id).0)
  {
    hide BlockOn;
    BlockOnUnblocked(SetProc(m, m.current, Cur(m).(resume := InWait(id))), OnNotification(id));
  }

  lemma NextSafe(m: State, a: Action)
    requires Safe(m) && CurrentUnblocked(m)
    ensures Safe(Next(m, a)) && CurrentUnblocked(Next(m, a))
  {
    if Awake(m) {
      hide RecvLoop, WaitLoop, Syscall, MessagesConserved, SignalsConserved, NoLostWakeup;
      StepSafe(m, a);
      if !m.halted {
        match Cur(m).resume
        case InRecv(id, out, dst) => RecvLoopUnblocked(m, id, out, dst);
        case InWait(id) => WaitLoopUnblocked(m, id);
        case InUser => SyscallUnblocked(m, a);
        case _ =>
      }
    }
  }

  // ----- Every process has its address space -----

  ghost predicate SpacesPresent(m: State) {
    forall i :: 0 <= i < |m.procs| ==> m.procs[i].space in m.vm.spaces
  }

  // No address space is lost, and whoever is new has one.
  ghost predicate SpacesKept(m: State, w: State) {
    && m.vm.spaces.Keys <= w.vm.spaces.Keys && |m.procs| <= |w.procs|
    && (forall i :: 0 <= i < |m.procs| ==> w.procs[i].space == m.procs[i].space)
    && (forall i :: |m.procs| <= i < |w.procs| ==> w.procs[i].space in w.vm.spaces)
  }

  // Steps that touch no address space.
  predicate SameMemory(m: State, w: State) {
    && w.vm == m.vm && |w.procs| == |m.procs|
    && forall i :: 0 <= i < |m.procs| ==>
            w.procs[i].space == m.procs[i].space && w.procs[i].heapBreak == m.procs[i].heapBreak
  }

  lemma RecvMemory(m: State, ep: nat, out: u64, dst: u64)
    requires Running(m)
    ensures SameMemory(m, RecvLoop(m, ep, out, dst).0)
  {
    hide PickNext, UserBuffer;
  }

  lemma LoopMemory(m: State, id: nat)
    requires Running(m)
    ensures SameMemory(m, WaitLoop(m, id).0) && SameMemory(m, WaitPidLoop(m, id).0)
  {
    hide PickNext, FindPid;
  }

  predicate LeavesMemory(a: Action) {
    || a.Send? || a.Recv? || a.Signal? || a.Wait? || a.Yield? || a.Quit? || a.Fault?
    || a.Kill? || a.WaitPid? || a.GetStatus? || a.Grant?
  }

  lemma SyscallMemory(m: State, a: Action)
    requires Awake(m) && LeavesMemory(a)
    ensures SameMemory(m, Syscall(m, a).0)
  {
    hide SysSend, SysSignal, SysKill, SysGrant, YieldNow, Exit, Get, RecvLoop, WaitLoop, WaitPidLoop, SysGetStatus;
    match a
    case Recv(epSlot, out, dst) =>
      if CurObject(m, epSlot, Endpoint).Some? {
        RecvMemory(m, CurObject(m, epSlot, Endpoint).value, out, dst);
      }
    case Wait(slot) =>
      if CurObject(m, slot, Notification).Some? {
        LoopMemory(m, CurObject(m, slot, Notification).value);
      }
    case WaitPid(procSlot) =>
      if CurObject(m, procSlot, Process).Some? {
        LoopMemory(m, CurObject(m, procSlot, Process).value);
      }
    case Send(epSlot, word, capSlot) => SendNudges(m, epSlot, word, capSlot);
    case Signal(slot, bits) => SignalNudges(m, slot, bits);
    case Kill(procSlot, signal) => KillNudges(m, procSlot, signal);
    case Grant(procSlot, src, dstSlot) => GrantMemory(m, procSlot, src, dstSlot);
    case Yield => SwitchMemory(m, 0);
    case Quit(code) => SwitchMemory(m, code);
    case Fault => SwitchMemory(m, EXIT_FAULT);
    case _ =>
  }

  lemma SwitchMemory(m: State, code: u64)
    requires Running(m)
    ensures SameMemory(m, YieldNow(m)) && SameMemory(m, Exit(m, code))
  {
    hide PickNext;
  }

  lemma GrantMemory(m: State, procSlot: nat, src: nat, dst: nat)
    requires Running(m)
    ensures SameMemory(m, SysGrant(m, procSlot, src, dst).0)
  {
    hide FindPid, Get;
  }

  lemma MappingSpaces(m: State, a: Action)
    requires Awake(m) && (a.MapFrame? || a.IoMap? || a.Sbrk?)
    ensures SpacesKept(m, Syscall(m, a).0)
  {
    hide MapRange, AllocMapAll, UserBuffer, DataPages, PageUp, PageDown, DivCeil, SlotsAuthorizeMmio, Get;
  }

  lemma DmaSpaces(m: State, a: Action)
    requires Awake(m) && a.DmaAlloc?
    ensures SpacesKept(m, Syscall(m, a).0)
  {
    hide AllocContiguous, MapRange, Charge, Refund, UserBuffer, DivCeil, Record;
  }

  lemma FrameAllocSpaces(m: State, a: Action)
    requires Awake(m) && a.FrameAlloc?
    ensures SpacesKept(m, Syscall(m, a).0)
  {
    hide AllocContiguous, MapRange, Charge, Refund, UserBuffer, Insert, Record, FreeRun;
  }

  lemma AddChildSpaces(m: State, c: State, child: Proc, capSlot: nat)
    requires Running(m) && c == m.(vm := c.vm) && m.vm.spaces.Keys <= c.vm.spaces.Keys && child.space in c.vm.spaces
    ensures SpacesKept(m, AddChild(c, child, capSlot).0)
  {
    hide Insert;
  }

  lemma SpawnSpaces(m: State, a: Action)
    requires Awake(m) && (a.Spawn? || a.SpawnEnv?)
    ensures SpacesKept(m, Syscall(m, a).0)
  {
    hide CreateSpace, SeedCaps, AllocMapAll, DataPages, UserRange, DivCeil, AddChild;
    var (vm, made) := CreateSpace(m.vm, m.image);
    if made.Some? {
      var child := NewProc(m.nextPid, made.value.0, made.value.1);
      AddChildSpaces(m, m.(vm := vm), child, a.capSlot);
      if a.SpawnEnv? {
        var pages := DivCeil(a.len, PAGE);
        var copied := AllocMapAll(vm, made.value.0, DataPages(HEAP_START, pages)).0;
        AddChildSpaces(m, m.(vm := copied),
                       child.(heapBreak := HEAP_START + pages * PAGE, envpUser := HEAP_START, envpLen := a.len),
                       a.capSlot);
      }
    }
  }

  lemma SyscallSpaces(m: State, a: Action)
    requires Awake(m)
    ensures SpacesKept(m, Syscall(m, a).0)
  {
    hide Syscall;
    match a
    case Spawn(_) => SpawnSpaces(m, a);
    case SpawnEnv(_, _, _) => SpawnSpaces(m, a);
    case FrameAlloc(_, _, _) => FrameAllocSpaces(m, a);
    case DmaAlloc(_, _) => DmaSpaces(m, a);
    case MapFrame(_, _) => MappingSpaces(m, a);
    case IoMap(_, _) => MappingSpaces(m, a);
    case Sbrk(_) => MappingSpaces(m, a);
    case _ => SyscallMemory(m, a);
  }

  lemma NextPresent(m: State, a: Action)
    requires SpacesPresent(m)
    ensures SpacesPresent(Next(m, a))
  {
    hide RecvLoop, WaitLoop, WaitPidLoop, Syscall;
    if Awake(m) && !m.halted {
      match Cur(m).resume
      case InRecv(id, out, dst) => RecvMemory(m, id, out, dst);
      case InWait(id) => LoopMemory(m, id);
      case InWaitPid(target) => LoopMemory(m, target);
      case InUser => SyscallSpaces(m, a);
      case Abandoned =>
    }
  }

  // A state in which the kernel can go on, and everything it promises holds.
  ghost predicate Sound(m: State) {
    Safe(m) && CurrentUnblocked(m) && SpacesPresent(m)
  }

  lemma NextSound(m: State, a: Action)
    requires Sound(m)
    ensures Sound(Next(m, a)) && Awake(m)
  {
    hide Next;
    NextSafe(m, a);
    NextPresent(m, a);
  }

  lemma BootSafe(m: State)
    requires Boot(m)
    ensures Sound(m)
  {
    hide CreateSpace, SeedCaps, KernelOnly;
    forall e: nat
      ensures SentTo(m.log, e) == [] && PoppedFrom(m.log, e) == [] && Pending(m.log, e) == 0
    {
    }
  }

  // Every interleaving from boot stays safe: no lost wakeup, FIFO conservation and
  // exact signal accounting in every reachable state.
  lemma {:induction false} RunSafe(m: State, actions: seq<Action>)
    requires Boot(m)
    ensures Sound(After(m, actions)) && Awake(After(m, actions))
  {
    if actions == [] {
      BootSafe(m);
      NextSound(m, Yield);
    } else {
      var init := actions[..|actions| - 1];
      RunSafe(m, init);
      NextSound(After(m, init), actions[|actions| - 1]);
      NextSound(After(m, actions), Yield);
    }
  }

  // A run continued.
  lemma {:induction false} AfterTwice(m: State, first: seq<Action>, second: seq<Action>)
    ensures After(m, first + second) == After(After(m, first), second)
    decreases |second|
  {
    hide Next;
    if second == [] {
      assert first + second == first;
    } else {
      var all := first + second;
      assert all[..|all| - 1] == first + second[..|second| - 1];
      AfterTwice(m, first, second[..|second| - 1]);
    }
  }

  // ----- What it means for users -----

  // A process blocked on an endpoint or notification can never be missing a
  // message or a signal that is already there.
  lemma BlockedMeansNothingThere(m: State, actions: seq<Action>, i: nat)
    requires Boot(m)
    ensures var w := After(m, actions);
      |w.queues| == NUM_ENDPOINTS && |w.words| == NUM_NOTIFICATIONS
      && (i < |w.procs| ==>
        match w.procs[i].state
        case Blocked(OnEndpoint(e)) =>
          w.procs[i].resume.InRecv? && w.procs[i].resume.id == e && (e < NUM_ENDPOINTS ==> w.queues[e] == [])
        case Blocked(OnNotification(n)) => w.procs[i].resume == InWait(n) && (n < NUM_NOTIFICATIONS ==> w.words[n] == 0)
        case _ => true)
  {
    hide Boot, After, MessagesConserved, SignalsConserved;
    RunSafe(m, actions);
    var w := After(m, actions);
    if i < |w.procs| {
      assert WaitsRightly(w.procs[i], w.queues, w.words);
    }
  }

  // The k-th message ever popped from an endpoint is the k-th ever sent to it.
  lemma DeliveredInOrder(m: State, actions: seq<Action>, ep: nat, k: nat)
    requires Boot(m) && ep < NUM_ENDPOINTS
    ensures var w := After(m, actions);
      |PoppedFrom(w.log, ep)| <= |SentTo(w.log, ep)|
      && (k < |PoppedFrom(w.log, ep)| ==> PoppedFrom(w.log, ep)[k] == SentTo(w.log, ep)[k])
  {
    RunSafe(m, actions);
    var w := After(m, actions);
    assert SentTo(w.log, ep) == PoppedFrom(w.log, ep) + w.queues[ep];
  }

  // A receive that finds a message takes the oldest, and it is gone from the queue
  // whether or not the call succeeds; the caller gets its word and its capability
  // exactly when its buffer is writable and its slot can take the capability.
  lemma RecvHandsOver(m: State, ep: nat, out: u64, dst: u64)
    requires Safe(m) && ep < |m.queues| && m.queues[ep] != []
    ensures var (w, r) := RecvLoop(m, ep, out, dst);
      var k := |PoppedFrom(m.log, ep)|;
      && k < |SentTo(m.log, ep)| && PoppedFrom(w.log, ep) == SentTo(m.log, ep)[..k + 1]
      && var msg := SentTo(m.log, ep)[k];
         var fits := msg.cap.None? || dst == U64_MAX || CanInsert(Cur(m).caps, dst);
         && (r == Returned(0, [msg.word]) <==> fits && UserBuffer(m, out, 8))
         && (r != Returned(0, [msg.word]) ==> r == Refused())
         && Running(w) && w.current == m.current
         && Cur(w).caps == if msg.cap.Some? && dst != U64_MAX && fits then Cur(m).caps[dst := msg.cap] else Cur(m).caps
  {
    hide UserBuffer;
    var w := RecvLoop(m, ep, out, dst).0;
    assert SentTo(m.log, ep) == PoppedFrom(m.log, ep) + m.queues[ep];
    LogMessages(m.log, Popped(ep, m.queues[ep][0]), ep);
  }

  // Taken and pending bits together are exactly the signalled bits.
  lemma {:induction false} BitsAccounted(log: seq<Event>, id: nat)
    requires TakesExact(log)
    ensures AllSignalled(log, id) == Or(AllTaken(log, id), Pending(log, id))
  {
    if log != [] {
      var init, e := log[..|log| - 1], log[|log| - 1];
      TakesExactInit(log);
      BitsAccounted(init, id);
      assert log == init + [e];
      AccountsStep(init, e, id);
    }
  }

  lemma AccountsStep(log: seq<Event>, e: Event, id: nat)
    requires AllSignalled(log, id) == Or(AllTaken(log, id), Pending(log, id))
    requires e.Took? ==> e.bits == Pending(log, e.id)
    ensures AllSignalled(log + [e], id) == Or(AllTaken(log + [e], id), Pending(log + [e], id))
  {
    hide Or;
    LogSignalled(log, e, id);
    LogTaken(log, e, id);
    LogPending(log, e, id);
    var taken, pending := AllTaken(log, id), Pending(log, id);
    if e.Signalled? && e.id == id {
      OrLaws(taken, pending, e.bits);
    } else if e.Took? && e.id == id {
      OrLaws(Or(taken, pending), pending, 0);
    }
  }

  lemma LogSignalled(log: seq<Event>, e: Event, id: nat)
    ensures AllSignalled(log + [e], id)
              == if e.Signalled? && e.id == id then Or(AllSignalled(log, id), e.bits) else AllSignalled(log, id)
  {
    assert (log + [e])[..|log|] == log;
  }

  lemma LogTaken(log: seq<Event>, e: Event, id: nat)
    ensures AllTaken(log + [e], id)
              == if e.Took? && e.id == id then Or(AllTaken(log, id), e.bits) else AllTaken(log, id)
  {
    assert (log + [e])[..|log|] == log;
  }

  lemma TakesExactInit(log: seq<Event>)
    requires TakesExact(log) && log != []
    ensures TakesExact(log[..|log| - 1])
  {
    var init := log[..|log| - 1];
    forall k | 0 <= k < |init| && init[k].Took?
      ensures init[k].bits != 0 && init[k].bits == Pending(init[..k], init[k].id)
    {
      assert log[k] == init[k] && log[..k] == init[..k];
    }
  }

  lemma OrLaws(a: bv64, b: bv64, c: bv64)
    ensures Or(Or(a, b), c) == Or(a, Or(b, c))
    ensures Or(a, 0) == a
  {
  }

  lemma NoBitLost(m: State, actions: seq<Action>, id: nat)
    requires Boot(m) && id < NUM_NOTIFICATIONS
    ensures var w := After(m, actions);
      id < |w.words| && AllSignalled(w.log, id) == Or(AllTaken(w.log, id), w.words[id])
  {
    hide Boot, After, MessagesConserved, NoLostWakeup, AllSignalled, AllTaken, Pending;
    RunSafe(m, actions);
    BitsAccounted(After(m, actions).log, id);
  }

  // A wait that finds its notification returns a non-zero word, the whole of it,
  // and leaves the word empty.
  lemma WaitReturnsAllBits(m: State, id: nat)
    requires Safe(m) && id < |m.words|
    ensures var (w, r) := WaitLoop(m, id);
      (r.Signals? <==> m.words[id] != 0)
      && (r.Signals? ==> r.bits == Pending(m.log, id) && Pending(w.log, id) == 0 && w.words[id] == 0)
  {
    hide BlockOn;
    if m.words[id] != 0 {
      LogPending(m.log, Took(id, m.words[id]), id);
    }
  }
}
