// What every step of the kernel keeps, whatever the interleaving: the process
// table stays well formed, no wakeup is lost, messages are delivered in order and
// at most once, and no signal bit is lost.
module KernelSafety {
  import opened Base
  import opened Capability
  import opened AddressSpace
  import opened Machine
  import opened Syscalls

  // ----- The process table -----

  // PIDs are table indices and are handed out in order.
  ghost predicate TableOk(m: State) {
    && Running(m) && m.nextPid == |m.procs|
    && (forall i :: 0 <= i < |m.procs| ==> m.procs[i].pid == i)
    && |m.queues| == NUM_ENDPOINTS && |m.words| == NUM_NOTIFICATIONS
  }

  // ----- No lost wakeup -----

  // A blocked process is parked in the call that waits for exactly the resource it
  // is blocked on, and that resource has nothing to offer.
  ghost predicate WaitsRightly(p: Proc, queues: seq<seq<Message>>, words: seq<bv64>) {
    match p.state
    case Blocked(OnEndpoint(e)) => p.resume.InRecv? && p.resume.id == e && (e < |queues| ==> queues[e] == [])
    case Blocked(OnNotification(n)) => p.resume.InWait? && p.resume.id == n && (n < |words| ==> words[n] == 0)
    case _ => true
  }

  ghost predicate NoLostWakeup(m: State) {
    forall i :: 0 <= i < |m.procs| ==> WaitsRightly(m.procs[i], m.queues, m.words)
  }

  // ----- Message and signal history -----

  // Everything ever sent is everything ever popped followed by what is queued.
  ghost predicate MessagesConserved(m: State) {
    forall e :: 0 <= e < |m.queues| ==> SentTo(m.log, e) == PoppedFrom(m.log, e) + m.queues[e]
  }

  // Each take returned exactly the bits signalled since the take before it.
  ghost predicate TakesExact(log: seq<Event>) {
    forall k :: 0 <= k < |log| && log[k].Took? ==> log[k].bits != 0 && log[k].bits == Pending(log[..k], log[k].id)
  }

  ghost predicate SignalsConserved(m: State) {
    TakesExact(m.log) && forall n :: 0 <= n < |m.words| ==> m.words[n] == Pending(m.log, n)
  }

  ghost predicate Safe(m: State) {
    TableOk(m) && NoLostWakeup(m) && MessagesConserved(m) && SignalsConserved(m)
  }

  // ----- Effects -----

  // Same scheduling-relevant parts: what a system call that only handles memory
  // or capabilities leaves alone.
  ghost predicate SameShape(p: Proc, q: Proc) {
    p.pid == q.pid && p.space == q.space && p.state == q.state && p.resume == q.resume && p.exitCode == q.exitCode
  }

  ghost predicate Quiet(m: State, w: State) {
    && |w.procs| == |m.procs| && (forall i :: 0 <= i < |m.procs| ==> SameShape(m.procs[i], w.procs[i]))
    && w.current == m.current && w.nextPid == m.nextPid && w.queues == m.queues && w.words == m.words
    && w.halted == m.halted
    && (w.log == m.log || exists who, pages :: w.log == m.log + [Pinned(who, pages)])
  }

  // A successful creation appends one ready process in user mode.
  ghost predicate Grown(m: State, w: State) {
    && |w.procs| == |m.procs| + 1 && (forall i :: 0 <= i < |m.procs| ==> SameShape(m.procs[i], w.procs[i]))
    && w.procs[|m.procs|].pid == m.nextPid && w.procs[|m.procs|].state == Ready && w.procs[|m.procs|].resume == InUser
    && w.current == m.current && w.nextPid == m.nextPid + 1 && w.queues == m.queues && w.words == m.words
    && w.halted == m.halted && w.log == m.log + [Spawned(m.nextPid)]
  }

  ghost predicate IsMemoryCall(a: Action) {
    a.FrameAlloc? || a.MapFrame? || a.DmaAlloc? || a.IoMap? || a.Sbrk?
  }

  lemma FrameAllocQuiet(m: State, pages: nat, capSlot: nat, outPtr: nat)
    requires Awake(m)
    ensures Quiet(m, SysFrameAlloc(m, pages, capSlot, outPtr).0)
  {
    hide AllocRun, FreeRun, MapRange, UserBuffer, Charge, Refund, Insert;
  }

  lemma DmaAllocQuiet(m: State, len: nat, outPtr: nat)
    requires Awake(m)
    ensures Quiet(m, SysDmaAlloc(m, len, outPtr).0)
  {
    hide AllocRun, MapRange, UserBuffer, Charge, Refund;
  }

  lemma MappingCallsQuiet(m: State, x: nat, y: nat, delta: int)
    requires Awake(m)
    ensures Quiet(m, SysMapFrame(m, x, y).0) && Quiet(m, SysIoMap(m, x, y).0) && Quiet(m, SysSbrk(m, delta).0)
  {
    hide MapRange, AllocMapAll, UserBuffer, DataPages, PageUp, PageDown, DivCeil;
  }

  lemma GrantQuiet(m: State, procSlot: nat, src: nat, dst: nat)
    requires Awake(m)
    ensures Quiet(m, SysGrant(m, procSlot, src, dst).0)
  {
    hide Insert;
  }

  lemma QuietCalls(m: State, a: Action)
    requires Awake(m) && (IsMemoryCall(a) || a.Grant? || a.GetStatus?)
    ensures Quiet(m, Syscall(m, a).0)
  {
    hide SysFrameAlloc, SysDmaAlloc, SysMapFrame, SysIoMap, SysSbrk, SysGrant, Quiet;
    match a
    case FrameAlloc(pages, capSlot, outPtr) => FrameAllocQuiet(m, pages, capSlot, outPtr);
    case DmaAlloc(length, outPtr) => DmaAllocQuiet(m, length, outPtr);
    case MapFrame(capSlot, outPtr) => MappingCallsQuiet(m, capSlot, outPtr, 0);
    case IoMap(phys, length) => MappingCallsQuiet(m, phys, length, 0);
    case Sbrk(delta) => MappingCallsQuiet(m, 0, 0, delta);
    case Grant(procSlot, src, dstSlot) => GrantQuiet(m, procSlot, src, dstSlot);
    case GetStatus(_) => QuietSelf(m);
  }

  lemma QuietSelf(m: State)
    ensures Quiet(m, m)
  {
  }

  lemma AddChildGrows(m: State, c: State, child: Proc, capSlot: nat)
    requires Running(m) && m.nextPid == |m.procs| && c == m.(vm := c.vm)
    requires child.pid == m.nextPid && child.state == Ready && child.resume == InUser
    ensures var w := AddChild(c, child, capSlot).0; Quiet(m, w) || Grown(m, w)
  {
    hide Insert;
  }

  lemma SpawnGrows(m: State, capSlot: nat)
    requires Awake(m) && m.nextPid == |m.procs|
    ensures var w := SysSpawn(m, capSlot).0; Quiet(m, w) || Grown(m, w)
  {
    hide AddChild, CreateSpace, SeedCaps;
    var (vm, made) := CreateSpace(m.vm, m.image);
    if made.Some? {
      AddChildGrows(m, m.(vm := vm), NewProc(m.nextPid, made.value.0, made.value.1), capSlot);
    }
  }

  lemma SpawnEnvGrows(m: State, envp: nat, len: nat, capSlot: nat)
    requires Awake(m) && m.nextPid == |m.procs|
    ensures var w := SysSpawnEnv(m, envp, len, capSlot).0; Quiet(m, w) || Grown(m, w)
  {
    hide AddChild, CreateSpace, SeedCaps, SysSpawn, AllocMapAll, DataPages, UserRange, DivCeil;
    SpawnGrows(m, capSlot);
    var (vm, made) := CreateSpace(m.vm, m.image);
    if made.Some? {
      var pages := DivCeil(len, PAGE);
      var copied := AllocMapAll(vm, made.value.0, DataPages(HEAP_START, pages)).0;
      AddChildGrows(m, m.(vm := copied),
                    NewProc(m.nextPid, made.value.0, made.value.1).(
                      heapBreak := HEAP_START + pages * PAGE, envpUser := HEAP_START, envpLen := len),
                    capSlot);
    }
  }

  // ----- Histories grow at their end -----

  lemma LogMessages(log: seq<Event>, e: Event, id: nat)
    ensures SentTo(log + [e], id) == if e.Sent? && e.ep == id then SentTo(log, id) + [e.msg] else SentTo(log, id)
    ensures PoppedFrom(log + [e], id)
              == if e.Popped? && e.ep == id then PoppedFrom(log, id) + [e.msg] else PoppedFrom(log, id)
  {
    assert (log + [e])[..|log|] == log;
  }

  lemma LogPending(log: seq<Event>, e: Event, id: nat)
    ensures Pending(log + [e], id) ==
            if e.Signalled? && e.id == id then Or(Pending(log, id), e.bits)
            else if e.Took? && e.id == id then 0 else Pending(log, id)
  {
    assert (log + [e])[..|log|] == log;
  }

  lemma LogPinned(log: seq<Event>, e: Event, id: nat)
    ensures PinnedBy(log + [e], id) == PinnedBy(log, id) + if e.Pinned? && e.owner == id then e.pages else 0
  {
    assert (log + [e])[..|log|] == log;
  }

  lemma TakesStep(log: seq<Event>, e: Event)
    requires TakesExact(log)
    requires e.Took? ==> e.bits != 0 && e.bits == Pending(log, e.id)
    ensures TakesExact(log + [e])
  {
    forall k | 0 <= k < |log + [e]| && (log + [e])[k].Took?
      ensures (log + [e])[k].bits != 0 && (log + [e])[k].bits == Pending((log + [e])[..k], (log + [e])[k].id)
    {
      if k < |log| {
        assert (log + [e])[..k] == log[..k];
      } else {
        assert (log + [e])[..k] == log;
      }
    }
  }

  // An event that concerns no queue and no word leaves both histories in step.
  lemma UnrelatedEvent(m: State, w: State, e: Event)
    requires MessagesConserved(m) && SignalsConserved(m)
    requires w.queues == m.queues && w.words == m.words && w.log == m.log + [e]
    requires !e.Sent? && !e.Popped? && !e.Signalled? && !e.Took?
    ensures MessagesConserved(w) && SignalsConserved(w)
  {
    forall id: nat
      ensures SentTo(w.log, id) == SentTo(m.log, id) && PoppedFrom(w.log, id) == PoppedFrom(m.log, id)
      ensures Pending(w.log, id) == Pending(m.log, id)
    {
      LogMessages(m.log, e, id);
      LogPending(m.log, e, id);
    }
    TakesStep(m.log, e);
  }

  lemma QuietSafe(m: State, w: State)
    requires Safe(m) && (Quiet(m, w) || Grown(m, w))
    ensures Safe(w)
  {
    assert TableOk(w);
    assert NoLostWakeup(w) by {
      forall i | 0 <= i < |w.procs|
        ensures WaitsRightly(w.procs[i], w.queues, w.words)
      {
        if i < |m.procs| {
          assert WaitsRightly(m.procs[i], m.queues, m.words);
        }
      }
    }
    if w.log != m.log {
      var e := w.log[|m.log|];
      assert w.log == m.log + [e];
      UnrelatedEvent(m, w, e);
    }
  }

  // ----- Scheduling steps -----

  // Changing one process only, to one that waits rightly, then switching to a
  // process that exists.
  lemma OneProcSafe(m: State, w: State, i: nat, p: Proc)
    requires Safe(m) && i < |m.procs| && p.pid == m.procs[i].pid && WaitsRightly(p, m.queues, m.words)
    requires w == SetProc(m, i, p)
    ensures Safe(w)
  {
    hide MessagesConserved, SignalsConserved;
    HistoryDepends(m, w);
  }

  lemma HistoryDepends(m: State, w: State)
    requires w.queues == m.queues && w.words == m.words && w.log == m.log
    ensures MessagesConserved(w) == MessagesConserved(m) && SignalsConserved(w) == SignalsConserved(m)
  {
  }

  lemma UnrelatedSafe(m: State, w: State, e: Event)
    requires Safe(m) && Running(w) && w == m.(current := w.current, halted := w.halted, log := m.log + [e])
    requires !e.Sent? && !e.Popped? && !e.Signalled? && !e.Took?
    ensures Safe(w)
  {
    hide MessagesConserved, SignalsConserved;
    UnrelatedEvent(m, w, e);
  }

  lemma YieldSafe(m: State)
    requires Safe(m)
    ensures Safe(YieldNow(m))
  {
    hide MessagesConserved, SignalsConserved, NoLostWakeup;
    var next := PickNext(m);
    if next.Some? && next.value != m.current {
      UnrelatedSafe(m, Activate(m, next.value), Switched(next.value));
    }
  }

  // Giving up the processor keeps the table sound when the blocked process waits
  // rightly for a resource that has nothing to offer.
  lemma BlockOnSafe(m: State, reason: BlockReason)
    requires Safe(m) && WaitsRightly(Cur(m).(state := Blocked(reason)), m.queues, m.words)
    ensures Safe(BlockOn(m, reason))
  {
    hide MessagesConserved, SignalsConserved, NoLostWakeup;
    var blocked := SetProc(m, m.current, Cur(m).(state := Blocked(reason)));
    OneProcSafe(m, blocked, m.current, Cur(m).(state := Blocked(reason)));
    var next := PickNext(blocked);
    if next.Some? {
      UnrelatedSafe(blocked, Activate(blocked, next.value), Switched(next.value));
    } else {
      OneProcSafe(m, SetProc(m, m.current, Cur(m).(state := Ready)), m.current, Cur(m).(state := Ready));
    }
  }

  lemma ExitSafe(m: State, code: u64)
    requires Safe(m)
    ensures Safe(Exit(m, code))
  {
    hide MessagesConserved, SignalsConserved, NoLostWakeup;
    var p := Cur(m).(exitCode := code, state := Done, resume := Abandoned);
    var marked := SetProc(m, m.current, p);
    OneProcSafe(m, marked, m.current, p);
    var ended := Logged(marked, Ended(Cur(m).pid, code));
    UnrelatedSafe(marked, ended, Ended(Cur(m).pid, code));
    var next := PickNext(ended);
    if next.Some? {
      UnrelatedSafe(ended, Activate(ended, next.value), Switched(next.value));
    } else {
      SafeDepends(ended, ended.(halted := true));
    }
  }

  lemma SafeDepends(m: State, w: State)
    requires Safe(m) && w == m.(halted := w.halted)
    ensures Safe(w)
  {
    hide MessagesConserved, SignalsConserved;
    HistoryDepends(m, w);
  }

  lemma KillSafe(m: State, pid: nat, signal: u64)
    requires Safe(m)
    ensures Safe(KillPid(m, pid, signal).0)
  {
    hide MessagesConserved, SignalsConserved, NoLostWakeup;
    var found := FindPid(m.procs, pid, 0);
    if pid != 0 && found.Some? && m.procs[found.value].state != Done {
      var p := m.procs[found.value].(exitCode := signal, state := Done);
      var marked := SetProc(m, found.value, p);
      OneProcSafe(m, marked, found.value, p);
      UnrelatedSafe(marked, Logged(marked, Ended(pid, signal)), Ended(pid, signal));
    }
  }

  lemma WaitPidSafe(m: State, target: nat)
    requires Safe(m) && Cur(m).state.Blocked? == false
    ensures Safe(WaitPidLoop(m, target).0)
  {
    hide MessagesConserved, SignalsConserved, NoLostWakeup, YieldNow;
    var back := SetProc(m, m.current, Cur(m).(resume := InUser));
    OneProcSafe(m, back, m.current, Cur(m).(resume := InUser));
    var found := FindPid(m.procs, target, 0);
    if Cur(m).pid != target && found.Some? {
      if m.procs[found.value].state == Done {
        var e := Reaped(Cur(m).pid, target, m.procs[found.value].exitCode);
        UnrelatedSafe(back, Logged(back, e), e);
      } else {
        var parked := SetProc(m, m.current, Cur(m).(resume := InWaitPid(target)));
        OneProcSafe(m, parked, m.current, Cur(m).(resume := InWaitPid(target)));
        YieldSafe(parked);
      }
    }
  }

  // ----- Messages -----

  lemma WokenWaitsRightly(p: Proc, reason: BlockReason, queues: seq<seq<Message>>, words: seq<bv64>,
                          queues': seq<seq<Message>>, words': seq<bv64>)
    requires WaitsRightly(p, queues, words) && |queues'| == |queues| && |words'| == |words|
    requires forall e :: 0 <= e < |queues| && reason != OnEndpoint(e) ==> queues'[e] == queues[e]
    requires forall n :: 0 <= n < |words| && reason != OnNotification(n) ==> words'[n] == words[n]
    ensures WaitsRightly(Woken(p, reason), queues', words')
  {
  }

  lemma SendSafe(m: State, epSlot: nat, word: u64, capSlot: nat)
    requires Safe(m)
    ensures Safe(SysSend(m, epSlot, word, capSlot).0)
  {
    hide Get, MessagesConserved, SignalsConserved, NoLostWakeup;
    if SysSend(m, epSlot, word, capSlot).0 != m {
      var ep := CurObject(m, epSlot, Endpoint).value;
      var cap := if capSlot == U64_MAX then None else Get(Cur(m).caps, capSlot);
      var e := Sent(ep, Message(word, cap));
      var queued := Logged(m.(queues := m.queues[ep := m.queues[ep] + [e.msg]]), e);
      SentConserves(m, queued, e);
      WokenSafe(m, queued, OnEndpoint(ep));
    }
  }

  lemma SentConserves(m: State, w: State, e: Event)
    requires MessagesConserved(m) && SignalsConserved(m)
    requires e.Sent? && e.ep < |m.queues|
    requires w.log == m.log + [e] && w.queues == m.queues[e.ep := m.queues[e.ep] + [e.msg]] && w.words == m.words
    ensures MessagesConserved(w) && SignalsConserved(w)
  {
    forall id: nat
      ensures SentTo(w.log, id) == if e.ep == id then SentTo(m.log, id) + [e.msg] else SentTo(m.log, id)
      ensures PoppedFrom(w.log, id) == PoppedFrom(m.log, id)
      ensures Pending(w.log, id) == Pending(m.log, id)
    {
      LogMessages(m.log, e, id);
      LogPending(m.log, e, id);
    }
    TakesStep(m.log, e);
  }

  lemma WakeTableOk(m: State, w: State, reason: BlockReason)
    requires TableOk(m) && NoLostWakeup(m)
    requires |w.procs| == |m.procs| && forall i :: 0 <= i < |m.procs| ==> w.procs[i] == Woken(m.procs[i], reason)
    requires w.current == m.current && w.nextPid == m.nextPid && |w.queues| == |m.queues| && |w.words| == |m.words|
    requires forall e :: 0 <= e < |m.queues| && reason != OnEndpoint(e) ==> w.queues[e] == m.queues[e]
    requires forall n :: 0 <= n < |m.words| && reason != OnNotification(n) ==> w.words[n] == m.words[n]
    ensures TableOk(w) && NoLostWakeup(w)
  {
    forall i | 0 <= i < |w.procs|
      ensures WaitsRightly(w.procs[i], w.queues, w.words)
    {
      assert WaitsRightly(m.procs[i], m.queues, m.words);
      WokenWaitsRightly(m.procs[i], reason, m.queues, m.words, w.queues, w.words);
    }
  }

  lemma PopSafe(m: State, ep: nat)
    requires Safe(m) && ep < |m.queues| && m.queues[ep] != [] && !Cur(m).state.Blocked?
    ensures Safe(Pop(m, ep))
  {
    var w, e := Pop(m, ep), Popped(ep, m.queues[ep][0]);
    forall id: nat
      ensures SentTo(w.log, id) == SentTo(m.log, id)
      ensures PoppedFrom(w.log, id) == if id == ep then PoppedFrom(m.log, id) + [e.msg] else PoppedFrom(m.log, id)
      ensures Pending(w.log, id) == Pending(m.log, id)
    {
      LogMessages(m.log, e, id);
      LogPending(m.log, e, id);
    }
    TakesStep(m.log, e);
    assert m.queues[ep] == [e.msg] + m.queues[ep][1..];
    forall i | 0 <= i < |w.procs|
      ensures WaitsRightly(w.procs[i], w.queues, w.words)
    {
      assert WaitsRightly(m.procs[i], m.queues, m.words);
    }
  }

  lemma RecvLoopSafe(m: State, ep: nat, out: u64, dst: u64)
    requires Safe(m) && !Cur(m).state.Blocked?
    ensures Safe(RecvLoop(m, ep, out, dst).0)
  {
    hide UserBuffer, BlockOn, Insert;
    if ep < |m.queues| && m.queues[ep] != [] {
      PopSafe(m, ep);
      var msg, popped := m.queues[ep][0], Pop(m, ep);
      if msg.cap.Some? && dst != U64_MAX {
        var caps := Insert(Cur(m).caps, dst, msg.cap.value);
        SetCapsSafe(popped, caps);
      }
    } else {
      var p := Cur(m).(resume := InRecv(ep, out, dst));
      OneProcSafe(m, SetProc(m, m.current, p), m.current, p);
      BlockOnSafe(SetProc(m, m.current, p), OnEndpoint(ep));
    }
  }

  lemma SetCapsSafe(m: State, caps: Slots)
    requires Safe(m)
    ensures Safe(SetCaps(m, m.current, caps))
  {
    assert WaitsRightly(Cur(m), m.queues, m.words);
    OneProcSafe(m, SetCaps(m, m.current, caps), m.current, Cur(m).(caps := caps));
  }

  // ----- Signals -----

  lemma SignalSafe(m: State, slot: nat, bits: bv64)
    requires Safe(m)
    ensures Safe(SysSignal(m, slot, bits).0)
  {
    hide Get, MessagesConserved, SignalsConserved, NoLostWakeup;
    var found := CurObject(m, slot, Notification);
    if found.Some? && found.value < |m.words| {
      var id := found.value;
      var words := m.words[id := Or(m.words[id], bits)];
      var signalled := Logged(m.(words := words), Signalled(id, bits));
      SignalConserves(m, signalled, id, bits);
      WokenSafe(m, signalled, OnNotification(id));
    }
  }

  // Waking everyone who waits for the one resource that changed.
  lemma WokenSafe(m: State, changed: State, reason: BlockReason)
    requires TableOk(m) && NoLostWakeup(m) && MessagesConserved(changed) && SignalsConserved(changed)
    requires changed.procs == m.procs && changed.current == m.current && changed.nextPid == m.nextPid
    requires |changed.queues| == |m.queues| && |changed.words| == |m.words|
    requires forall e :: 0 <= e < |m.queues| && reason != OnEndpoint(e) ==> changed.queues[e] == m.queues[e]
    requires forall n :: 0 <= n < |m.words| && reason != OnNotification(n) ==> changed.words[n] == m.words[n]
    ensures Safe(Wake(changed, reason))
  {
    hide MessagesConserved, SignalsConserved;
    var w := Wake(changed, reason);
    WakeTableOk(m, w, reason);
    HistoryDepends(changed, w);
  }

  lemma SignalConserves(m: State, w: State, id: nat, bits: bv64)
    requires MessagesConserved(m) && SignalsConserved(m) && id < |m.words|
    requires w.queues == m.queues && w.words == m.words[id := Or(m.words[id], bits)]
    requires w.log == m.log + [Signalled(id, bits)]
    ensures MessagesConserved(w) && SignalsConserved(w)
  {
    forall k: nat
      ensures SentTo(w.log, k) == SentTo(m.log, k) && PoppedFrom(w.log, k) == PoppedFrom(m.log, k)
      ensures Pending(w.log, k) == if k == id then Or(Pending(m.log, k), bits) else Pending(m.log, k)
    {
      LogMessages(m.log, Signalled(id, bits), k);
      LogPending(m.log, Signalled(id, bits), k);
    }
    TakesStep(m.log, Signalled(id, bits));
  }

  lemma WaitLoopSafe(m: State, id: nat)
    requires Safe(m) && !Cur(m).state.Blocked?
    ensures Safe(WaitLoop(m, id).0)
  {
    hide BlockOn;
    if id < |m.words| && m.words[id] != 0 {
      TakeSafe(m, id);
    } else {
      var p := Cur(m).(resume := InWait(id));
      OneProcSafe(m, SetProc(m, m.current, p), m.current, p);
      BlockOnSafe(SetProc(m, m.current, p), OnNotification(id));
    }
  }

  function Taken(m: State, id: nat): State
    requires Running(m) && id < |m.words|
  {
    var back := SetProc(m, m.current, Cur(m).(resume := InUser));
    Logged(back.(words := m.words[id := 0]), Took(id, m.words[id]))
  }

  lemma TakeSafe(m: State, id: nat)
    requires Safe(m) && !Cur(m).state.Blocked? && id < |m.words| && m.words[id] != 0
    ensures Safe(WaitLoop(m, id).0)
  {
    var w, e := WaitLoop(m, id).0, Took(id, m.words[id]);
    hide BlockOn, Or, SentTo, PoppedFrom, Pending, WaitLoop;
    assert w == Taken(m, id) by { TakenState(m, id); }
    TakesStep(m.log, e);
    forall k: nat
      ensures SentTo(w.log, k) == SentTo(m.log, k) && PoppedFrom(w.log, k) == PoppedFrom(m.log, k)
      ensures Pending(w.log, k) == if k == id then 0 else Pending(m.log, k)
    {
      LogMessages(m.log, e, k);
      LogPending(m.log, e, k);
    }
    hide TakesExact;
    forall i | 0 <= i < |w.procs|
      ensures WaitsRightly(w.procs[i], w.queues, w.words)
    {
      assert WaitsRightly(m.procs[i], m.queues, m.words);
    }
  }

  lemma TakenState(m: State, id: nat)
    requires Running(m) && id < |m.words| && m.words[id] != 0
    ensures WaitLoop(m, id).0 == Taken(m, id)
  {
  }

  // ----- Every step, every run -----

  // What SEND, SIGNAL and KILL may do besides queues and words: wake processes,
  // end one, and record one event.
  ghost predicate Nudged(m: State, w: State) {
    && w.current == m.current && |w.procs| == |m.procs| && w.vm == m.vm
    && (forall i :: 0 <= i < |m.procs| ==>
          && w.procs[i].space == m.procs[i].space && w.procs[i].heapBreak == m.procs[i].heapBreak
          && w.procs[i].resume == m.procs[i].resume
          && (w.procs[i].state == m.procs[i].state || w.procs[i].state == Ready || w.procs[i].state == Done))
    && (w.log == m.log || exists e :: w.log == m.log + [e] && !e.Switched?)
  }

  lemma SendNudges(m: State, epSlot: nat, word: u64, capSlot: nat)
    requires Running(m)
    ensures Nudged(m, SysSend(m, epSlot, word, capSlot).0)
  {
    hide Get;
  }

  lemma SignalNudges(m: State, slot: nat, bits: bv64)
    requires Running(m)
    ensures Nudged(m, SysSignal(m, slot, bits).0)
  {
    hide Get, Or;
  }

  lemma KillNudges(m: State, procSlot: nat, signal: u64)
    requires Running(m)
    ensures Nudged(m, SysKill(m, procSlot, signal).0)
  {
    hide Get, FindPid;
  }

  // The running process is never one that is still blocked.
  ghost predicate CurrentUnblocked(m: State) {
    Running(m) && !Cur(m).state.Blocked?
  }

  lemma SyscallSafe(m: State, a: Action)
    requires Awake(m) && Safe(m) && CurrentUnblocked(m)
    ensures Safe(Syscall(m, a).0)
  {
    hide Quiet, Grown, SysSend, RecvLoop, SysSignal, WaitLoop, WaitPidLoop, KillPid, YieldNow, Exit, SysFrameAlloc,
      SysDmaAlloc, SysMapFrame, SysIoMap, SysSbrk, SysGrant, SysSpawn, SysSpawnEnv, MessagesConserved, SignalsConserved,
      NoLostWakeup;
    match a
    case Send(epSlot, word, capSlot) => SendSafe(m, epSlot, word, capSlot);
    case Recv(epSlot, out, dst) =>
      if CurObject(m, epSlot, Endpoint).Some? {
        RecvLoopSafe(m, CurObject(m, epSlot, Endpoint).value, out, dst);
      }
    case Signal(slot, bits) => SignalSafe(m, slot, bits);
    case Wait(slot) =>
      if CurObject(m, slot, Notification).Some? {
        WaitLoopSafe(m, CurObject(m, slot, Notification).value);
      }
    case Yield => YieldSafe(m);
    case Quit(code) => ExitSafe(m, code);
    case Fault => ExitSafe(m, EXIT_FAULT);
    case Kill(procSlot, signal) =>
      if CurObject(m, procSlot, Process).Some? {
        KillSafe(m, CurObject(m, procSlot, Process).value, signal);
      }
    case WaitPid(procSlot) =>
      if CurObject(m, procSlot, Process).Some? {
        WaitPidSafe(m, CurObject(m, procSlot, Process).value);
      }
    case Spawn(capSlot) =>
      SpawnGrows(m, capSlot);
      QuietSafe(m, Syscall(m, a).0);
    case SpawnEnv(envp, len, capSlot) =>
      SpawnEnvGrows(m, envp, len, capSlot);
      QuietSafe(m, Syscall(m, a).0);
    case _ =>
      QuietCalls(m, a);
      QuietSafe(m, Syscall(m, a).0);
  }

  lemma StepSafe(m: State, a: Action)
    requires Awake(m) && Safe(m) && CurrentUnblocked(m)
    ensures Safe(Step(m, a).0)
  {
    hide RecvLoop, WaitLoop, WaitPidLoop, Syscall, MessagesConserved, SignalsConserved, NoLostWakeup;
    if !m.halted {
      match Cur(m).resume
      case InRecv(id, out, dst) => RecvLoopSafe(m, id, out, dst);
      case InWait(id) => WaitLoopSafe(m, id);
      case InWaitPid(target) => WaitPidSafe(m, target);
      case InUser => SyscallSafe(m, a);
      case Abandoned =>
    }
  }
}
