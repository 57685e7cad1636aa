// The life of a process: who may run, that the end is final, that exit codes are
// recorded once and reported truthfully, and that nobody who is ready waits
// forever.
module KernelLifecycle {
  import opened Base
  import opened Capability
  import opened Machine
  import opened Syscalls
  import opened KernelSafety
  import opened KernelRuns

  // The codes recorded for terminations of `pid`.
  function EndedCodes(log: seq<Event>, pid: nat): seq<u64> {
    if log == [] then []
    else
      var init, e := EndedCodes(log[..|log| - 1], pid), log[|log| - 1];
      if e.Ended? && e.who == pid then init + [e.code] else init
  }

  // A process uses a Process capability that names itself to kill itself: it is
  // marked terminated but keeps running until it next gives up the processor.
  ghost predicate SelfKill(m: State, a: Action) {
    && Running(m) && !m.halted && Cur(m).resume == InUser && a.Kill?
    && CurObject(m, a.procSlot, Process) == Some(Cur(m).pid) && Cur(m).pid != 0
  }

  ghost predicate CurrentReady(m: State) {
    Running(m) && (m.halted || Cur(m).state == Ready)
  }

  // Each process ended at most once, and its exit code is the one recorded then.
  ghost predicate CodesRecorded(m: State) {
    forall i: nat :: EndedCodes(m.log, i) ==
      if i < |m.procs| && m.procs[i].state == Done then [m.procs[i].exitCode] else []
  }

  // Every exit code handed to a waiter is the code of a process that has ended.
  ghost predicate ReapsTrue(m: State) {
    forall k :: 0 <= k < |m.log| && m.log[k].Reaped? ==>
      && m.log[k].target < |m.procs| && m.procs[m.log[k].target].state == Done
      && m.procs[m.log[k].target].exitCode == m.log[k].code
  }

  ghost predicate LifeOk(m: State) {
    && TableOk(m) && CurrentReady(m) && CodesRecorded(m) && ReapsTrue(m)
    && (forall i :: 0 <= i < |m.procs| && m.procs[i].resume == Abandoned ==> m.procs[i].state == Done)
  }

  // Nobody terminated: the only news are new processes and unrelated events.
  ghost predicate Continues(m: State, w: State) {
    && TableOk(w) && CurrentReady(w) && |w.procs| >= |m.procs|
    && (forall i :: 0 <= i < |m.procs| ==>
          && (w.procs[i].state == Done <==> m.procs[i].state == Done)
          && w.procs[i].exitCode == m.procs[i].exitCode
          && (w.procs[i].resume == Abandoned ==> m.procs[i].resume == Abandoned))
    && (forall i :: |m.procs| <= i < |w.procs| ==> w.procs[i].state == Ready && w.procs[i].resume == InUser)
    && (w.log == m.log || exists e :: w.log == m.log + [e] && !e.Ended? && !e.Reaped?)
  }

  lemma LogEnded(log: seq<Event>, e: Event, pid: nat)
    ensures EndedCodes(log + [e], pid)
              == if e.Ended? && e.who == pid then EndedCodes(log, pid) + [e.code] else EndedCodes(log, pid)
  {
    assert (log + [e])[..|log|] == log;
  }

  lemma ContinuesKeepsLife(m: State, w: State)
    requires LifeOk(m) && Continues(m, w)
    ensures LifeOk(w)
  {
    if w.log != m.log {
      var e :| w.log == m.log + [e] && !e.Ended? && !e.Reaped?;
      forall i: nat
        ensures EndedCodes(w.log, i) == EndedCodes(m.log, i)
      {
        LogEnded(m.log, e, i);
      }
      forall k | 0 <= k < |w.log| && w.log[k].Reaped?
        ensures w.log[k] == m.log[k]
      {
      }
    }
  }

  // ----- Steps that end nobody -----

  lemma QuietContinues(m: State, w: State)
    requires LifeOk(m) && (Quiet(m, w) || Grown(m, w))
    ensures Continues(m, w)
  {
    hide CodesRecorded, ReapsTrue;
    if w.log != m.log {
      var e := w.log[|m.log|];
      assert w.log == m.log + [e];
    }
  }

  lemma SwitchContinues(m: State, w: State, i: nat)
    requires LifeOk(m) && i < |m.procs| && m.procs[i].state == Ready && w == Activate(m, i)
    ensures Continues(m, w)
  {
    hide CodesRecorded, ReapsTrue;
    assert w.log == m.log + [Switched(i)];
  }

  lemma YieldContinues(m: State)
    requires LifeOk(m)
    ensures Continues(m, YieldNow(m))
  {
    hide CodesRecorded, ReapsTrue;
    var next := PickNext(m);
    if next.Some? && next.value != m.current {
      SwitchContinues(m, Activate(m, next.value), next.value);
    }
  }

  // Blocking keeps a process alive only if it was alive.
  lemma BlockContinues(m: State, resume: Resume, reason: BlockReason)
    requires LifeOk(m) && !m.halted && resume != Abandoned
    ensures Continues(m, BlockOn(SetProc(m, m.current, Cur(m).(resume := resume)), reason))
  {
    hide CodesRecorded, ReapsTrue;
    var parked := SetProc(m, m.current, Cur(m).(resume := resume));
    var blocked := SetProc(parked, m.current, Cur(parked).(state := Blocked(reason)));
    var next := PickNext(blocked);
    if next.Some? {
      assert BlockOn(parked, reason).log == m.log + [Switched(next.value)];
    }
  }

  lemma WakeContinues(m: State, queued: State, e: Event, reason: BlockReason)
    requires LifeOk(m) && !e.Ended? && !e.Reaped?
    requires queued == m.(queues := queued.queues, words := queued.words, log := m.log + [e])
    requires |queued.queues| == |m.queues| && |queued.words| == |m.words|
    ensures Continues(m, Wake(queued, reason))
  {
    hide CodesRecorded, ReapsTrue;
    var w := Wake(queued, reason);
    assert w.log == m.log + [e];
    assert forall i :: 0 <= i < |m.procs| ==> w.procs[i] == Woken(m.procs[i], reason);
  }

  lemma RecvLoopContinues(m: State, ep: nat, out: u64, dst: u64)
    requires LifeOk(m) && !m.halted
    ensures Continues(m, RecvLoop(m, ep, out, dst).0)
  {
    hide CodesRecorded, ReapsTrue, UserBuffer, Insert, BlockOn;
    if ep < |m.queues| && m.queues[ep] != [] {
      var w := RecvLoop(m, ep, out, dst).0;
      assert w.log == m.log + [Popped(ep, m.queues[ep][0])];
    } else {
      BlockContinues(m, InRecv(ep, out, dst), OnEndpoint(ep));
    }
  }

  lemma WaitLoopContinues(m: State, id: nat)
    requires LifeOk(m) && !m.halted
    ensures Continues(m, WaitLoop(m, id).0)
  {
    hide CodesRecorded, ReapsTrue, BlockOn;
    if id < |m.words| && m.words[id] != 0 {
      assert WaitLoop(m, id).0.log == m.log + [Took(id, m.words[id])];
    } else {
      BlockContinues(m, InWait(id), OnNotification(id));
    }
  }

  // ----- Steps that end or reap somebody -----

  // Marking one living process as ended and recording its code.
  lemma EndKeepsLife(m: State, w: State, i: nat, p: Proc)
    requires LifeOk(m) && i < |m.procs| && m.procs[i].state != Done && p.pid == i && p.state == Done
    requires w.procs == m.procs[i := p] && w.nextPid == m.nextPid && w.queues == m.queues && w.words == m.words
    requires w.log == m.log + [Ended(i, p.exitCode)]
    requires CurrentReady(w)
    ensures LifeOk(w)
  {
    forall k: nat
      ensures EndedCodes(w.log, k) == if k == i then EndedCodes(m.log, k) + [p.exitCode] else EndedCodes(m.log, k)
    {
      LogEnded(m.log, Ended(i, p.exitCode), k);
    }
    forall k | 0 <= k < |w.log| && w.log[k].Reaped?
      ensures w.log[k] == m.log[k] && k < |m.log|
    {
    }
  }

  lemma ExitKeepsLife(m: State, code: u64)
    requires LifeOk(m) && !m.halted
    ensures LifeOk(Exit(m, code))
  {
    hide CodesRecorded, ReapsTrue;
    var p := Cur(m).(exitCode := code, state := Done, resume := Abandoned);
    var ended := Logged(SetProc(m, m.current, p), Ended(Cur(m).pid, code));
    var next := PickNext(ended);
    if next.Some? {
      var w := Exit(m, code);
      var direct := ended.(current := next.value);
      EndKeepsLife(m, direct, m.current, p);
      assert w == Activate(direct, next.value);
      SwitchContinues(direct, w, next.value);
      ContinuesKeepsLife(direct, w);
    } else {
      EndKeepsLife(m, ended.(halted := true), m.current, p);
    }
  }

  lemma KillKeepsLife(m: State, pid: nat, signal: u64)
    requires LifeOk(m) && pid != m.current
    ensures LifeOk(KillPid(m, pid, signal).0)
  {
    hide CodesRecorded, ReapsTrue;
    var found := FindPid(m.procs, pid, 0);
    if pid != 0 && found.Some? && m.procs[found.value].state != Done {
      EndKeepsLife(m, KillPid(m, pid, signal).0, pid, m.procs[pid].(exitCode := signal, state := Done));
    }
  }

  lemma WaitPidKeepsLife(m: State, target: nat)
    requires LifeOk(m) && !m.halted
    ensures LifeOk(WaitPidLoop(m, target).0)
  {
    hide CodesRecorded, ReapsTrue, YieldNow;
    var back := SetProc(m, m.current, Cur(m).(resume := InUser));
    ContinuesKeepsLife(m, back);
    var found := FindPid(m.procs, target, 0);
    if Cur(m).pid != target && found.Some? {
      if m.procs[found.value].state == Done {
        ReapKeepsLife(back, target);
      } else {
        var parked := SetProc(m, m.current, Cur(m).(resume := InWaitPid(target)));
        ContinuesKeepsLife(m, parked);
        YieldContinues(parked);
        ContinuesKeepsLife(parked, YieldNow(parked));
      }
    }
  }

  lemma ReapKeepsLife(m: State, target: nat)
    requires LifeOk(m) && target < |m.procs| && m.procs[target].state == Done
    ensures LifeOk(Logged(m, Reaped(Cur(m).pid, target, m.procs[target].exitCode)))
  {
    var e := Reaped(Cur(m).pid, target, m.procs[target].exitCode);
    forall k: nat
      ensures EndedCodes(m.log + [e], k) == EndedCodes(m.log, k)
    {
      LogEnded(m.log, e, k);
    }
  }

  // ----- Every step -----

  lemma SyscallKeepsLife(m: State, a: Action)
    requires Awake(m) && LifeOk(m) && !m.halted && Cur(m).resume == InUser && !SelfKill(m, a)
    ensures LifeOk(Syscall(m, a).0)
  {
    hide Quiet, Grown, RecvLoop, WaitLoop, WaitPidLoop, KillPid, YieldNow, Exit, SysFrameAlloc, SysDmaAlloc,
      SysMapFrame,
      SysIoMap, SysSbrk, SysGrant, SysSpawn, SysSpawnEnv, CodesRecorded, ReapsTrue, Continues, Wake, Get;
    match a
    case Send(epSlot, word, capSlot) =>
      if SysSend(m, epSlot, word, capSlot).0 != m {
        var ep := CurObject(m, epSlot, Endpoint).value;
        var msg := Message(word, if capSlot == U64_MAX then None else Get(Cur(m).caps, capSlot));
        var queued := Logged(m.(queues := m.queues[ep := m.queues[ep] + [msg]]), Sent(ep, msg));
        WakeContinues(m, queued, Sent(ep, msg), OnEndpoint(ep));
        ContinuesKeepsLife(m, Wake(queued, OnEndpoint(ep)));
      }
    case Recv(epSlot, out, dst) =>
      if CurObject(m, epSlot, Endpoint).Some? {
        RecvLoopContinues(m, CurObject(m, epSlot, Endpoint).value, out, dst);
        ContinuesKeepsLife(m, Syscall(m, a).0);
      }
    case Signal(slot, bits) =>
      if SysSignal(m, slot, bits).0 != m {
        SignalContinues(m, slot, bits);
        ContinuesKeepsLife(m, Syscall(m, a).0);
      }
    case Wait(slot) =>
      if CurObject(m, slot, Notification).Some? {
        WaitLoopContinues(m, CurObject(m, slot, Notification).value);
        ContinuesKeepsLife(m, Syscall(m, a).0);
      }
    case Yield =>
      YieldContinues(m);
      ContinuesKeepsLife(m, YieldNow(m));
    case Quit(code) => ExitKeepsLife(m, code);
    case Fault => ExitKeepsLife(m, EXIT_FAULT);
    case Kill(procSlot, signal) =>
      if CurObject(m, procSlot, Process).Some? {
        if CurObject(m, procSlot, Process).value == 0 {
          assert KillPid(m, 0, signal).0 == m by { KillRootRefused(m, signal); }
        } else {
          KillKeepsLife(m, CurObject(m, procSlot, Process).value, signal);
        }
      }
    case WaitPid(procSlot) =>
      if CurObject(m, procSlot, Process).Some? {
        WaitPidKeepsLife(m, CurObject(m, procSlot, Process).value);
      }
    case Spawn(capSlot) =>
      SpawnGrows(m, capSlot);
      QuietContinues(m, Syscall(m, a).0);
      ContinuesKeepsLife(m, Syscall(m, a).0);
    case SpawnEnv(envp, len, capSlot) =>
      SpawnEnvGrows(m, envp, len, capSlot);
      QuietContinues(m, Syscall(m, a).0);
      ContinuesKeepsLife(m, Syscall(m, a).0);
    case _ =>
      QuietCalls(m, a);
      QuietContinues(m, Syscall(m, a).0);
      ContinuesKeepsLife(m, Syscall(m, a).0);
  }

  lemma KillRootRefused(m: State, signal: u64)
    ensures KillPid(m, 0, signal).0 == m
  {
  }

  lemma SignalContinues(m: State, slot: nat, bits: bv64)
    requires LifeOk(m) && SysSignal(m, slot, bits).0 != m
    ensures Continues(m, SysSignal(m, slot, bits).0)
  {
    hide CodesRecorded, ReapsTrue, Wake, Continues, Get, Or;
    var id := CurObject(m, slot, Notification).value;
    var e := Signalled(id, bits);
    var signalled := Logged(m.(words := m.words[id := Or(m.words[id], bits)]), e);
    WakeContinues(m, signalled, e, OnNotification(id));
  }

  // A step keeps the life of every process in order exactly when it is not a
  // process killing itself.
  lemma LifeKeptIff(m: State, a: Action)
    requires Awake(m) && LifeOk(m)
    ensures LifeOk(Next(m, a)) <==> !SelfKill(m, a)
  {
    hide RecvLoop, WaitLoop, WaitPidLoop, Syscall, CodesRecorded, ReapsTrue, Continues;
    if SelfKill(m, a) {
      SelfKillLeavesDoneRunning(m, a);
    } else if !m.halted {
      match Cur(m).resume
      case InRecv(id, out, dst) =>
        RecvLoopContinues(m, id, out, dst);
        ContinuesKeepsLife(m, Step(m, a).0);
      case InWait(id) =>
        WaitLoopContinues(m, id);
        ContinuesKeepsLife(m, Step(m, a).0);
      case InWaitPid(target) => WaitPidKeepsLife(m, target);
      case InUser => SyscallKeepsLife(m, a);
      case Abandoned =>
    }
  }

  lemma SelfKillLeavesDoneRunning(m: State, a: Action)
    requires Awake(m) && LifeOk(m) && SelfKill(m, a)
    ensures Next(m, a).current == m.current && !Next(m, a).halted && Running(Next(m, a))
    ensures Cur(Next(m, a)).state == Done && Cur(Next(m, a)).resume == InUser
  {
    hide CodesRecorded, ReapsTrue;
  }

  // It can happen: a parent may hand its child the handle on that very child.
  lemma SelfKillReachable(m: State, signal: u64)
    requires Boot(m) && CreateSpace(m.vm, m.image).1.Some?
    ensures var handed := Next(Next(m, Spawn(10)), Grant(10, 10, 10));
      var running := Next(handed, Yield);
      SelfKill(running, Kill(10, signal))
  {
    hide Next, Boot, PickNext;
    var spawned := Next(m, Spawn(10));
    SpawnedChild(m);
    HandleGranted(spawned);
    ChildRuns(Next(spawned, Grant(10, 10, 10)));
  }

  // The root holds, in slot 10, a handle on its one child, which is ready.
  ghost predicate ParentAndChild(m: State) {
    && Awake(m) && |m.procs| == 2 && m.current == 0 && !m.halted
    && m.procs[0].resume == InUser && m.procs[0].pid == 0 && Get(m.procs[0].caps, 10) == Some(ProcessCap(1))
    && m.procs[1].pid == 1 && m.procs[1].state == Ready && m.procs[1].resume == InUser
    && m.procs[1].space in m.vm.spaces
  }

  lemma SpawnedChild(m: State)
    requires Boot(m) && CreateSpace(m.vm, m.image).1.Some?
    ensures var w := Next(m, Spawn(10)); ParentAndChild(w) && CanInsert(w.procs[1].caps, 10)
  {
    hide CreateSpace, KernelOnly, SeedCaps;
    SeedShape(0);
    SeedShape(1);
  }

  lemma HandleGranted(m: State)
    requires ParentAndChild(m) && CanInsert(m.procs[1].caps, 10)
    ensures var w := Next(m, Grant(10, 10, 10)); ParentAndChild(w) && Get(w.procs[1].caps, 10) == Some(ProcessCap(1))
  {
    assert FindPid(m.procs, 1, 0) == Some(1);
  }

  lemma ChildRuns(m: State)
    requires ParentAndChild(m) && Get(m.procs[1].caps, 10) == Some(ProcessCap(1))
    ensures forall signal :: SelfKill(Next(m, Yield), Kill(10, signal))
  {
    assert Slot(m, 1) == 1;
    assert PickNext(m) == Some(1);
  }

  lemma SeedShape(pid: nat)
    ensures |SeedCaps(pid)| == CAP_SLOTS && SeedCaps(pid)[10] == None
  {
  }

  // And then its end is undone: as soon as it receives on an empty endpoint the
  // terminated process is waiting like any other.
  lemma SelfKilledBlocksAgain(m: State, a: Action)
    requires Awake(m) && !m.halted && Cur(m).state == Done && Cur(m).resume == InUser && a.Recv?
    requires CurObject(m, a.epSlot, Endpoint).Some? && CurObject(m, a.epSlot, Endpoint).value < |m.queues|
    requires m.queues[CurObject(m, a.epSlot, Endpoint).value] == []
    ensures m.current < |Next(m, a).procs| && Next(m, a).procs[m.current].state != Done
  {
    hide Machine.PickNext;
  }

  // ----- Runs in which nobody kills itself -----

  ghost predicate CleanRun(m: State, actions: seq<Action>) {
    forall k :: 0 <= k < |actions| ==> !SelfKill(After(m, actions[..k]), actions[k])
  }

  // A terminated process stays terminated with the same exit code and is never
  // the running process again.
  ghost predicate StaysEnded(m: State, w: State) {
    forall i :: 0 <= i < |m.procs| && m.procs[i].state == Done ==>
      && i < |w.procs| && w.procs[i].state == Done && w.procs[i].exitCode == m.procs[i].exitCode
      && (!w.halted ==> w.current != i)
  }

  lemma {:induction false} CleanRunKeepsLife(m: State, actions: seq<Action>)
    requires LifeOk(m) && SpacesPresent(m) && CleanRun(m, actions)
    ensures var w := After(m, actions); LifeOk(w) && SpacesPresent(w) && m.log <= w.log && |m.procs| <= |w.procs|
  {
    hide LifeOk, TableOk, Awake, SelfKill, Next, SpacesPresent;
    if actions != [] {
      var init, a := actions[..|actions| - 1], actions[|actions| - 1];
      PrefixClean(m, actions);
      CleanRunKeepsLife(m, init);
      LifeRuns(After(m, init));
      NextPresent(After(m, init), a);
      LifeKeptIff(After(m, init), a);
      LogGrows(After(m, init), a);
    }
  }

  lemma LifeRuns(m: State)
    requires LifeOk(m) && SpacesPresent(m)
    ensures Awake(m) && TableOk(m)
  {
  }

  lemma PrefixClean(m: State, actions: seq<Action>)
    requires actions != [] && CleanRun(m, actions)
    ensures var init := actions[..|actions| - 1];
      CleanRun(m, init) && !SelfKill(After(m, init), actions[|actions| - 1])
  {
    hide Awake, SelfKill, Next;
    var init := actions[..|actions| - 1];
    assert forall k :: 0 <= k <= |init| ==> init[..k] == actions[..k];
    assert actions[..|init|] == init;
  }

  lemma EndIsFinal(m: State, actions: seq<Action>)
    requires LifeOk(m) && SpacesPresent(m) && CleanRun(m, actions)
    ensures StaysEnded(m, After(m, actions))
  {
    hide LifeOk, After;
    CleanRunKeepsLife(m, actions);
    RecordedStays(m, After(m, actions));
  }

  lemma LogGrows(m: State, a: Action)
    requires Awake(m) && TableOk(m)
    ensures m.log <= Next(m, a).log && |Next(m, a).procs| >= |m.procs|
  {
    hide RecvLoop, WaitLoop, WaitPidLoop, Syscall;
    if !m.halted {
      match Cur(m).resume
      case InRecv(id, out, dst) => RecvGrows(m, id, out, dst);
      case InWait(id) => LoopsGrow(m, id);
      case InWaitPid(target) => LoopsGrow(m, target);
      case InUser => SyscallGrows(m, a);
      case Abandoned =>
    }
  }

  lemma RecvGrows(m: State, id: nat, out: u64, dst: u64)
    requires Running(m)
    ensures var w := RecvLoop(m, id, out, dst).0; m.log <= w.log && |w.procs| >= |m.procs|
  {
    hide UserBuffer, Insert, PickNext;
  }

  lemma LoopsGrow(m: State, id: nat)
    requires Running(m)
    ensures var w := WaitLoop(m, id).0; m.log <= w.log && |w.procs| >= |m.procs|
    ensures var w := WaitPidLoop(m, id).0; m.log <= w.log && |w.procs| >= |m.procs|
  {
    hide PickNext, FindPid;
  }

  lemma SwitchGrows(m: State, code: u64)
    requires Running(m)
    ensures m.log <= YieldNow(m).log && |YieldNow(m).procs| >= |m.procs|
    ensures m.log <= Exit(m, code).log && |Exit(m, code).procs| >= |m.procs|
  {
    hide PickNext;
  }

  lemma SyscallGrows(m: State, a: Action)
    requires Awake(m) && TableOk(m)
    ensures var w := Syscall(m, a).0; m.log <= w.log && |w.procs| >= |m.procs|
  {
    hide SysFrameAlloc, SysDmaAlloc, SysMapFrame, SysIoMap, SysSbrk, SysGrant, SysSpawn, SysSpawnEnv, RecvLoop,
      WaitLoop,
      WaitPidLoop, Get, SysSend, SysSignal, SysKill, YieldNow, Exit;
    match a
    case Recv(epSlot, out, dst) =>
      if CurObject(m, epSlot, Endpoint).Some? {
        RecvGrows(m, CurObject(m, epSlot, Endpoint).value, out, dst);
      }
    case Wait(slot) =>
      if CurObject(m, slot, Notification).Some? {
        LoopsGrow(m, CurObject(m, slot, Notification).value);
      }
    case WaitPid(procSlot) =>
      if CurObject(m, procSlot, Process).Some? {
        LoopsGrow(m, CurObject(m, procSlot, Process).value);
      }
    case Spawn(capSlot) => SpawnGrows(m, capSlot);
    case SpawnEnv(envp, len, capSlot) => SpawnEnvGrows(m, envp, len, capSlot);
    case Send(epSlot, word, capSlot) => SendNudges(m, epSlot, word, capSlot);
    case Signal(slot, bits) => SignalNudges(m, slot, bits);
    case Kill(procSlot, signal) => KillNudges(m, procSlot, signal);
    case Yield => SwitchGrows(m, 0);
    case Quit(code) => SwitchGrows(m, code);
    case Fault => SwitchGrows(m, EXIT_FAULT);
    case _ => QuietCalls(m, a);
  }

  lemma {:induction false} EndedCodesPrefix(log: seq<Event>, log': seq<Event>, pid: nat)
    requires log <= log'
    ensures EndedCodes(log, pid) <= EndedCodes(log', pid)
    decreases |log'|
  {
    if log != log' {
      var init := log'[..|log'| - 1];
      EndedCodesPrefix(log, init, pid);
    } else {
      assert log == log';
    }
  }

  lemma RecordedStays(m: State, w: State)
    requires LifeOk(m) && LifeOk(w) && m.log <= w.log && |m.procs| <= |w.procs|
    ensures StaysEnded(m, w)
  {
    hide ReapsTrue;
    forall i | 0 <= i < |m.procs| && m.procs[i].state == Done
      ensures w.procs[i].state == Done && w.procs[i].exitCode == m.procs[i].exitCode && (!w.halted ==> w.current != i)
    {
      EndedCodesPrefix(m.log, w.log, i);
      assert EndedCodes(m.log, i) == [m.procs[i].exitCode];
      assert EndedCodes(w.log, i)[0] == m.procs[i].exitCode;
    }
  }

  // What a waiter is told is what was recorded when its target ended, once, and it
  // is still the target's exit code at the end of the run.
  lemma WaiterToldTruth(m: State, actions: seq<Action>, k: nat)
    requires LifeOk(m) && SpacesPresent(m) && CleanRun(m, actions)
    ensures var w := After(m, actions);
      k < |w.log| && w.log[k].Reaped? ==>
        && EndedCodes(w.log, w.log[k].target) == [w.log[k].code]
        && w.log[k].target < |w.procs|
        && w.procs[w.log[k].target].state == Done && w.procs[w.log[k].target].exitCode == w.log[k].code
  {
    hide After;
    CleanRunKeepsLife(m, actions);
  }

  lemma BootLife(m: State)
    requires Boot(m)
    ensures LifeOk(m) && SpacesPresent(m)
  {
    hide CreateSpace, SeedCaps, KernelOnly;
  }

  lemma CleanTail(m: State, first: seq<Action>, second: seq<Action>)
    requires CleanRun(m, first + second)
    ensures CleanRun(m, first) && CleanRun(After(m, first), second)
  {
    hide After, SelfKill;
    var all := first + second;
    forall k | 0 <= k < |first|
      ensures !SelfKill(After(m, first[..k]), first[k])
    {
      assert first[..k] == all[..k] && first[k] == all[k];
    }
    forall k | 0 <= k < |second|
      ensures !SelfKill(After(After(m, first), second[..k]), second[k])
    {
      AfterTwice(m, first, second[..k]);
      assert all[..|first| + k] == first + second[..k] && all[|first| + k] == second[k];
    }
  }

  // All of this from boot: in a run in which nobody kills itself every life is in
  // order, whoever has ended by some point never runs or changes again, and every
  // waiter was told the one code recorded.
  lemma LivesFromBoot(m: State, earlier: seq<Action>, later: seq<Action>)
    requires Boot(m) && CleanRun(m, earlier + later)
    ensures var v, w := After(m, earlier), After(m, earlier + later);
      && LifeOk(v) && LifeOk(w) && StaysEnded(v, w)
      && forall k :: 0 <= k < |w.log| && w.log[k].Reaped? ==> EndedCodes(w.log, w.log[k].target) == [w.log[k].code]
  {
    hide LifeOk, Boot, CleanRun, After, StaysEnded;
    BootLife(m);
    CleanTail(m, earlier, later);
    CleanRunKeepsLife(m, earlier);
    AfterTwice(m, earlier, later);
    CleanRunKeepsLife(After(m, earlier), later);
    EndIsFinal(After(m, earlier), later);
    var w := After(m, earlier + later);
    forall k | 0 <= k < |w.log| && w.log[k].Reaped?
      ensures EndedCodes(w.log, w.log[k].target) == [w.log[k].code]
    {
      WaiterToldTruth(m, earlier + later, k);
    }
  }

  // ----- Bounded waiting -----

  // How many places after the running process `p` comes in the round.
  function Distance(m: State, p: nat): nat
    requires Running(m) && p < |m.procs|
  {
    if p > m.current then p - m.current else p + |m.procs| - m.current
  }

  function Switches(log: seq<Event>): nat {
    if log == [] then 0
    else Switches(log[..|log| - 1]) + if log[|log| - 1].Switched? then 1 else 0
  }

  lemma LogSwitches(log: seq<Event>, e: Event)
    ensures Switches(log + [e]) == Switches(log) + if e.Switched? then 1 else 0
  {
    assert (log + [e])[..|log|] == log;
  }

  lemma SlotDistance(m: State, off: nat)
    requires Running(m) && 1 <= off <= |m.procs|
    ensures Slot(m, off) < |m.procs| && Distance(m, Slot(m, off)) == off
  {
    Wraps(m.current + off, |m.procs|);
  }

  lemma Wraps(a: nat, n: nat)
    requires a < 2 * n
    ensures a % n == if a < n then a else a - n
  {
  }

  // The scheduler never passes over a ready process: the one it picks comes no
  // later in the round.
  lemma {:induction false} FindReadyFair(m: State, off: nat, p: nat)
    requires Running(m) && p < |m.procs| && m.procs[p].state == Ready && 1 <= off <= Distance(m, p)
    ensures FindReady(m, off).Some? && off <= Distance(m, FindReady(m, off).value) <= Distance(m, p)
    decreases |m.procs| + 1 - off
  {
    SlotDistance(m, off);
    if m.procs[Slot(m, off)].state != Ready {
      assert Slot(m, off) != p;
      if off == Distance(m, p) {
        DistanceInjective(m, Slot(m, off), p);
      }
      FindReadyFair(m, off + 1, p);
    }
  }

  lemma DistanceInjective(m: State, p: nat, q: nat)
    requires Running(m) && p < |m.procs| && q < |m.procs| && Distance(m, p) == Distance(m, q)
    ensures p == q
  {
  }

  lemma PickNextFair(m: State, p: nat)
    requires Running(m) && p < |m.procs| && m.procs[p].state == Ready
    ensures PickNext(m).Some? && 1 <= Distance(m, PickNext(m).value) <= Distance(m, p)
  {
    FindReadyFair(m, 1, p);
  }

  // Progress of `p` from m to w: every switch brings it closer, every newcomer may
  // put it back by one.
  ghost predicate Closer(m: State, w: State, p: nat)
    requires Running(m) && Running(w) && p < |m.procs| && p < |w.procs|
  {
    Switches(w.log) + Distance(w, p) + |m.procs| <= Switches(m.log) + Distance(m, p) + |w.procs|
  }

  lemma SwitchCloser(m: State, w: State, p: nat)
    requires Running(m) && p < |m.procs| && m.procs[p].state == Ready
    requires PickNext(m).Some? && PickNext(m).value != p && w == Activate(m, PickNext(m).value)
    ensures Running(w) && Closer(m, w, p)
  {
    PickNextFair(m, p);
    LogSwitches(m.log, Switched(PickNext(m).value));
  }

  // A step that leaves the running process running brings nobody further away
  // than the number of newcomers.
  lemma StayCloser(m: State, w: State, p: nat)
    requires Running(m) && p < |m.procs| && w.current == m.current && |w.procs| >= |m.procs|
    requires w.log == m.log || exists e :: w.log == m.log + [e] && !e.Switched?
    ensures Running(w) && Closer(m, w, p)
  {
    if w.log != m.log {
      var e :| w.log == m.log + [e] && !e.Switched?;
      LogSwitches(m.log, e);
    }
  }

  lemma CloserTwice(m: State, v: State, w: State, p: nat)
    requires Running(m) && Running(v) && Running(w) && p < |m.procs| && p < |v.procs| && p < |w.procs|
    requires Closer(m, v, p) && Closer(v, w, p)
    ensures Closer(m, w, p)
  {
  }

  lemma YieldCloser(m: State, p: nat)
    requires Running(m) && p < |m.procs| && m.procs[p].state == Ready
    ensures var w := YieldNow(m); Running(w) && (w.current != p ==> Closer(m, w, p))
  {
    hide PickNext;
    PickNextFair(m, p);
    var next := PickNext(m).value;
    if next != m.current && next != p {
      SwitchCloser(m, YieldNow(m), p);
    } else if next == m.current {
      StayCloser(m, YieldNow(m), p);
    }
  }

  lemma BlockCloser(m: State, resume: Resume, reason: BlockReason, p: nat)
    requires Running(m) && p < |m.procs| && m.procs[p].state == Ready
    ensures var w := BlockOn(SetProc(m, m.current, Cur(m).(resume := resume)), reason);
      Running(w) && (w.current != p && w.procs[p].state == Ready ==> Closer(m, w, p))
  {
    hide PickNext;
    var parked := SetProc(m, m.current, Cur(m).(resume := resume));
    var blocked := SetProc(parked, m.current, Cur(parked).(state := Blocked(reason)));
    var w := BlockOn(parked, reason);
    StayCloser(m, blocked, p);
    if PickNext(blocked).Some? {
      if w.current != p && w.procs[p].state == Ready {
        SwitchCloser(blocked, w, p);
      }
    } else {
      StayCloser(m, w, p);
    }
  }

  lemma ExitCloser(m: State, code: u64, p: nat)
    requires Running(m) && p < |m.procs| && m.procs[p].state == Ready
    ensures var w := Exit(m, code);
      Running(w) && (w.current != p && w.procs[p].state == Ready ==> Closer(m, w, p))
  {
    hide PickNext;
    var ended := Logged(SetProc(m, m.current, Cur(m).(exitCode := code, state := Done, resume := Abandoned)),
                        Ended(Cur(m).pid, code));
    var w := Exit(m, code);
    StayCloser(m, ended, p);
    if PickNext(ended).Some? {
      if w.current != p && w.procs[p].state == Ready {
        SwitchCloser(ended, w, p);
        CloserTwice(m, ended, w, p);
      }
    } else {
      StayCloser(m, w, p);
    }
  }

  lemma RecvLoopCloser(m: State, ep: nat, out: u64, dst: u64, p: nat)
    requires Running(m) && p < |m.procs| && m.procs[p].state == Ready
    ensures var w := RecvLoop(m, ep, out, dst).0;
      Running(w) && |w.procs| == |m.procs| && (w.current != p && w.procs[p].state == Ready ==> Closer(m, w, p))
  {
    hide BlockOn, UserBuffer, Insert;
    if ep < |m.queues| && m.queues[ep] != [] {
      var w := RecvLoop(m, ep, out, dst).0;
      assert w.log == m.log + [Popped(ep, m.queues[ep][0])];
      StayCloser(m, w, p);
    } else {
      BlockCloser(m, InRecv(ep, out, dst), OnEndpoint(ep), p);
      BlockSameSize(SetProc(m, m.current, Cur(m).(resume := InRecv(ep, out, dst))), OnEndpoint(ep));
    }
  }

  lemma BlockSameSize(m: State, reason: BlockReason)
    requires Running(m)
    ensures |BlockOn(m, reason).procs| == |m.procs|
  {
  }

  lemma WaitLoopCloser(m: State, id: nat, p: nat)
    requires Running(m) && p < |m.procs| && m.procs[p].state == Ready
    ensures var w := WaitLoop(m, id).0;
      Running(w) && |w.procs| == |m.procs| && (w.current != p && w.procs[p].state == Ready ==> Closer(m, w, p))
  {
    hide BlockOn;
    if id < |m.words| && m.words[id] != 0 {
      var w := WaitLoop(m, id).0;
      assert w.log == m.log + [Took(id, m.words[id])];
      StayCloser(m, w, p);
    } else {
      BlockCloser(m, InWait(id), OnNotification(id), p);
      BlockSameSize(SetProc(m, m.current, Cur(m).(resume := InWait(id))), OnNotification(id));
    }
  }

  lemma WaitPidCloser(m: State, target: nat, p: nat)
    requires Running(m) && p < |m.procs| && m.procs[p].state == Ready
    ensures var w := WaitPidLoop(m, target).0;
      Running(w) && |w.procs| == |m.procs| && (w.current != p ==> Closer(m, w, p))
  {
    hide PickNext, FindPid;
    var w := WaitPidLoop(m, target).0;
    var found := FindPid(m.procs, target, 0);
    if Cur(m).pid != target && found.Some? && m.procs[found.value].state != Done {
      var parked := SetProc(m, m.current, Cur(m).(resume := InWaitPid(target)));
      StayCloser(m, parked, p);
      YieldCloser(parked, p);
    } else {
      StayCloser(m, w, p);
    }
  }

  lemma SyscallCloser(m: State, a: Action, p: nat)
    requires Awake(m) && TableOk(m) && p < |m.procs| && m.procs[p].state == Ready
    ensures var w := Syscall(m, a).0;
      Running(w) && p < |w.procs| && (w.current != p && w.procs[p].state == Ready ==> Closer(m, w, p))
  {
    hide SysFrameAlloc, SysDmaAlloc, SysMapFrame, SysIoMap, SysSbrk, SysGrant, SysSpawn, SysSpawnEnv, RecvLoop,
      WaitLoop,
      WaitPidLoop, Get, Exit, YieldNow, Distance, Switches, SysSend, SysSignal, SysKill, Closer;
    StayCloser(m, m, p);
    match a
    case Recv(epSlot, out, dst) =>
      if CurObject(m, epSlot, Endpoint).Some? {
        RecvLoopCloser(m, CurObject(m, epSlot, Endpoint).value, out, dst, p);
      }
    case Wait(slot) =>
      if CurObject(m, slot, Notification).Some? {
        WaitLoopCloser(m, CurObject(m, slot, Notification).value, p);
      }
    case WaitPid(procSlot) =>
      if CurObject(m, procSlot, Process).Some? {
        WaitPidCloser(m, CurObject(m, procSlot, Process).value, p);
      }
    case Spawn(capSlot) =>
      SpawnGrows(m, capSlot);
      QuietCloser(m, Syscall(m, a).0, p);
    case SpawnEnv(envp, len, capSlot) =>
      SpawnEnvGrows(m, envp, len, capSlot);
      QuietCloser(m, Syscall(m, a).0, p);
    case Send(epSlot, word, capSlot) =>
      SendNudges(m, epSlot, word, capSlot);
      StayCloser(m, Syscall(m, a).0, p);
    case Signal(slot, bits) =>
      SignalNudges(m, slot, bits);
      StayCloser(m, Syscall(m, a).0, p);
    case Yield =>
      YieldCloser(m, p);
      YieldSameSize(m);
    case Quit(code) =>
      ExitCloser(m, code, p);
      ExitSameSize(m, code);
    case Fault =>
      ExitCloser(m, EXIT_FAULT, p);
      ExitSameSize(m, EXIT_FAULT);
    case Kill(procSlot, signal) =>
      KillNudges(m, procSlot, signal);
      StayCloser(m, Syscall(m, a).0, p);
    case _ =>
      QuietCalls(m, a);
      QuietCloser(m, Syscall(m, a).0, p);
  }

  lemma YieldSameSize(m: State)
    requires Running(m)
    ensures |YieldNow(m).procs| == |m.procs|
  {
  }

  lemma ExitSameSize(m: State, code: u64)
    requires Running(m)
    ensures |Exit(m, code).procs| == |m.procs|
  {
  }

  lemma QuietCloser(m: State, w: State, p: nat)
    requires Running(m) && p < |m.procs| && (Quiet(m, w) || Grown(m, w))
    ensures Running(w) && p < |w.procs| && Closer(m, w, p)
  {
    if w.log != m.log {
      var e := w.log[|m.log|];
      assert w.log == m.log + [e];
    }
    StayCloser(m, w, p);
  }

  // Each step in which a ready process stays ready and is not chosen brings it
  // closer by one for every switch, and further by at most one for every newcomer.
  lemma NextCloser(m: State, a: Action, p: nat)
    requires Awake(m) && TableOk(m) && p < |m.procs| && m.procs[p].state == Ready
    ensures var w := Next(m, a);
      Running(w) && p < |w.procs| && (w.current != p && w.procs[p].state == Ready ==> Closer(m, w, p))
  {
    hide RecvLoop, WaitLoop, WaitPidLoop, Syscall, Closer;
    if !m.halted {
      match Cur(m).resume
      case InRecv(id, out, dst) => RecvLoopCloser(m, id, out, dst, p);
      case InWait(id) => WaitLoopCloser(m, id, p);
      case InWaitPid(target) => WaitPidCloser(m, target, p);
      case InUser => SyscallCloser(m, a, p);
      case Abandoned => StayCloser(m, m, p);
    } else {
      StayCloser(m, m, p);
    }
  }

  // `p` is ready all along the run and is never made current in it.
  ghost predicate KeptWaiting(m: State, actions: seq<Action>, p: nat) {
    && p < |m.procs|
    && (forall k :: 0 <= k <= |actions| ==>
          var w := After(m, actions[..k]);
          p < |w.procs| && w.procs[p].state == Ready && (k > 0 ==> w.current != p))
  }

  // A process can be kept waiting, while ready, for fewer context switches than
  // its initial distance in the round plus the number of processes created
  // meanwhile.
  lemma {:induction false} BoundedWaiting(m: State, actions: seq<Action>, p: nat)
    requires Sound(m) && KeptWaiting(m, actions, p)
    ensures var w := After(m, actions);
      && Sound(w) && Running(m) && Running(w) && p < |w.procs| && Closer(m, w, p)
      && Switches(w.log) - Switches(m.log) < Distance(m, p) + (|w.procs| - |m.procs|)
  {
    hide Awake, Sound, Next;
    assert actions[..|actions|] == actions;
    if actions == [] {
      NextSound(m, Yield);
      AwakeRuns(m);
      assert After(m, actions[..0]) == m;
    } else {
      var init, a := actions[..|actions| - 1], actions[|actions| - 1];
      assert forall k :: 0 <= k <= |init| ==> init[..k] == actions[..k];
      BoundedWaiting(m, init, p);
      var v := After(m, init);
      assert actions[..|init|] == init;
      NextSound(v, a);
      NextSound(Next(v, a), a);
      SoundTable(v);
      AwakeRuns(v);
      AwakeRuns(Next(v, a));
      NextCloser(v, a, p);
      CloserTwice(m, v, Next(v, a), p);
    }
  }

  lemma SoundTable(m: State)
    requires Sound(m)
    ensures TableOk(m)
  {
  }

  lemma AwakeRuns(m: State)
    requires Awake(m)
    ensures Running(m)
  {
  }
}
