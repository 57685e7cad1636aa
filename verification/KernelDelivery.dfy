// From one call to another over whole runs: what one process asks the kernel to hand
// over is what another is given, however long it takes and whatever happens meanwhile.
module KernelDelivery {
  import opened Base
  import opened Capability
  import opened Machine
  import opened Syscalls
  import opened KernelSafety
  import opened KernelRuns
  import opened KernelLifecycle
  import opened KernelCalls

  // ----- History only grows -----

  lemma {:induction false} RunGrows(m: State, actions: seq<Action>)
    requires Sound(m)
    ensures var w := After(m, actions); Sound(w) && m.log <= w.log && |m.procs| <= |w.procs|
  {
    hide Awake, Sound, Next;
    if actions != [] {
      var init, a := actions[..|actions| - 1], actions[|actions| - 1];
      RunGrows(m, init);
      NextSound(After(m, init), a);
      SoundTable(After(m, init));
      LogGrows(After(m, init), a);
    }
  }

  lemma {:induction false} SentPrefix(log: seq<Event>, log': seq<Event>, ep: nat)
    requires log <= log'
    ensures SentTo(log, ep) <= SentTo(log', ep)
    decreases |log'|
  {
    if log != log' {
      SentPrefix(log, log'[..|log'| - 1], ep);
    } else {
      assert log == log';
    }
  }

  // A run from boot that makes the call `a` after `before` and then goes on.
  ghost function Continued(m: State, before: seq<Action>, a: Action, later: seq<Action>): State {
    After(Next(After(m, before), a), later)
  }

  lemma ContinuedIs(m: State, before: seq<Action>, a: Action, later: seq<Action>)
    ensures Continued(m, before, a, later) == After(m, before + [a] + later)
  {
    hide Next;
    AfterTwice(m, before + [a], later);
    assert (before + [a])[..|before|] == before;
  }

  lemma ContinuedGrows(m: State, before: seq<Action>, a: Action, later: seq<Action>)
    requires Boot(m)
    ensures var v := After(m, before); var y := Next(v, a);
      var x := Continued(m, before, a, later);
      Sound(v) && Sound(y) && Sound(x) && Awake(v) && y.log <= x.log
  {
    hide Boot, Next, After, Sound, Awake;
    RunSafe(m, before);
    NextSound(After(m, before), a);
    RunGrows(Next(After(m, before), a), later);
  }

  // ----- A message and its receiver -----

  // In every run from boot: when all earlier messages have been taken, the next
  // receive is given the word and the capability the SEND named.
  lemma MessageHandedOver(m: State, before: seq<Action>, epSlot: u64, word: u64, capSlot: u64, later: seq<Action>,
                          a: Action, ep: nat, out: u64, dst: u64)
    requires Boot(m)
    requires var v := After(m, before);
      && User(v) && Named(v, epSlot, Endpoint, NUM_ENDPOINTS) == Some(ep)
      && (capSlot == U64_MAX || Get(Cur(v).caps, capSlot).Some?)
      && var x := Continued(m, before, Send(epSlot, word, capSlot), later);
         ReceiveTurn(x, a, ep, out, dst) && |PoppedFrom(x.log, ep)| == |SentTo(v.log, ep)|
    ensures var v := After(m, before);
      var x := Continued(m, before, Send(epSlot, word, capSlot), later);
      && ep < |x.queues| && x.queues[ep] != [] && x.queues[ep][0] == AskedToSend(v, word, capSlot)
      && Received(x, Step(x, a).0, Step(x, a).1, ep, out, dst)
  {
    hide Boot, Step, After, Received, ReceiveTurn, Get;
    var call := Send(epSlot, word, capSlot);
    var v, x := After(m, before), Continued(m, before, call, later);
    ContinuedGrows(m, before, call, later);
    hide Continued, Sound;
    SoundMessages(x, ep);
    SoundTable(v);
    SendDelivers(v, epSlot, word, capSlot);
    SentPrefix(Next(v, call).log, x.log, ep);
    NextMessage(v, Next(v, call), x, ep, AskedToSend(v, word, capSlot));
    RecvTakes(x, a, ep, out, dst);
  }

  lemma SoundMessages(m: State, ep: nat)
    requires Sound(m) && ep < NUM_ENDPOINTS
    ensures ep < |m.queues| && SentTo(m.log, ep) == PoppedFrom(m.log, ep) + m.queues[ep]
  {
    hide NoLostWakeup, SignalsConserved;
  }

  lemma NextMessage(v: State, y: State, x: State, ep: nat, msg: Message)
    requires SentTo(y.log, ep) == SentTo(v.log, ep) + [msg] && SentTo(y.log, ep) <= SentTo(x.log, ep)
    requires ep < |x.queues| && SentTo(x.log, ep) == PoppedFrom(x.log, ep) + x.queues[ep]
    requires |PoppedFrom(x.log, ep)| == |SentTo(v.log, ep)|
    ensures x.queues[ep] != [] && x.queues[ep][0] == msg
  {
    var k := |SentTo(v.log, ep)|;
    assert SentTo(y.log, ep)[k] == msg && SentTo(x.log, ep)[k] == msg;
    assert SentTo(x.log, ep)[k] == x.queues[ep][0];
  }

  // ----- A call that has to wait -----

  // Nobody but the running process changes where it resumes.
  lemma OthersKeepResume(m: State, a: Action, i: nat)
    requires Awake(m) && TableOk(m) && i < |m.procs| && i != m.current
    ensures i < |Next(m, a).procs| && Next(m, a).procs[i].resume == m.procs[i].resume
  {
    hide Syscall, RecvLoop, WaitLoop, WaitPidLoop;
    if !m.halted {
      match Cur(m).resume
      case InRecv(id, out, dst) => RecvKeepsResume(m, id, out, dst, i);
      case InWait(id) => LoopsKeepResume(m, id, i);
      case InWaitPid(target) => LoopsKeepResume(m, target, i);
      case InUser => CallsKeepResume(m, a, i);
      case Abandoned =>
    }
  }

  lemma RecvKeepsResume(m: State, id: nat, out: u64, dst: u64, i: nat)
    requires Running(m) && i < |m.procs| && i != m.current
    ensures var w := RecvLoop(m, id, out, dst).0; i < |w.procs| && w.procs[i].resume == m.procs[i].resume
  {
    hide PickNext, UserBuffer, Insert;
  }

  lemma LoopsKeepResume(m: State, id: nat, i: nat)
    requires Running(m) && i < |m.procs| && i != m.current
    ensures var w := WaitLoop(m, id).0; i < |w.procs| && w.procs[i].resume == m.procs[i].resume
    ensures var w := WaitPidLoop(m, id).0; i < |w.procs| && w.procs[i].resume == m.procs[i].resume
  {
    hide PickNext, FindPid;
  }

  lemma CallsKeepResume(m: State, a: Action, i: nat)
    requires Awake(m) && TableOk(m) && i < |m.procs| && i != m.current
    ensures var w := Syscall(m, a).0; i < |w.procs| && w.procs[i].resume == m.procs[i].resume
  {
    hide SysFrameAlloc, SysDmaAlloc, SysMapFrame, SysIoMap, SysSbrk, SysGrant, SysSpawn, SysSpawnEnv, RecvLoop,
      WaitLoop, WaitPidLoop, Get, SysSend, SysSignal, SysKill, YieldNow, Exit;
    match a
    case Recv(epSlot, out, dst) =>
      if CurObject(m, epSlot, Endpoint).Some? {
        RecvKeepsResume(m, CurObject(m, epSlot, Endpoint).value, out, dst, i);
      }
    case Wait(slot) =>
      if CurObject(m, slot, Notification).Some? {
        LoopsKeepResume(m, CurObject(m, slot, Notification).value, i);
      }
    case WaitPid(procSlot) =>
      if CurObject(m, procSlot, Process).Some? {
        LoopsKeepResume(m, CurObject(m, procSlot, Process).value, i);
      }
    case Spawn(capSlot) => SpawnGrows(m, capSlot);
    case SpawnEnv(envp, len, capSlot) => SpawnEnvGrows(m, envp, len, capSlot);
    case Send(epSlot, word, capSlot) => SendNudges(m, epSlot, word, capSlot);
    case Signal(slot, bits) => SignalNudges(m, slot, bits);
    case Kill(procSlot, signal) => KillNudges(m, procSlot, signal);
    case Yield => SwitchKeepsResume(m, 0, i);
    case Quit(code) => SwitchKeepsResume(m, code, i);
    case Fault => SwitchKeepsResume(m, EXIT_FAULT, i);
    case _ => QuietCalls(m, a);
  }

  lemma SwitchKeepsResume(m: State, code: u64, i: nat)
    requires Running(m) && i < |m.procs| && i != m.current
    ensures i < |YieldNow(m).procs| && YieldNow(m).procs[i].resume == m.procs[i].resume
    ensures i < |Exit(m, code).procs| && Exit(m, code).procs[i].resume == m.procs[i].resume
  {
    hide PickNext;
  }

  // Process i is not made to run before the end of the run.
  ghost predicate NotRun(m: State, actions: seq<Action>, i: nat) {
    forall k :: 0 <= k < |actions| ==> After(m, actions[..k]).current != i
  }

  lemma {:induction false} ResumeStays(m: State, actions: seq<Action>, i: nat)
    requires Sound(m) && i < |m.procs| && NotRun(m, actions, i)
    ensures var w := After(m, actions); Sound(w) && i < |w.procs| && w.procs[i].resume == m.procs[i].resume
  {
    hide Awake, Sound, Next;
    if actions != [] {
      var init, a := actions[..|actions| - 1], actions[|actions| - 1];
      assert forall k :: 0 <= k <= |init| ==> init[..k] == actions[..k];
      assert actions[..|init|] == init;
      ResumeStays(m, init, i);
      NextSound(After(m, init), a);
      SoundTable(After(m, init));
      OthersKeepResume(After(m, init), a, i);
    }
  }

  // Process i was left waiting in some call at `m`; it runs again at the end.
  ghost predicate RunsAgain(m: State, a: Action, actions: seq<Action>) {
    var v := Next(m, a);
    var x := After(v, actions);
    NotRun(v, actions, m.current) && x.current == m.current && !x.halted
  }

  lemma ResumesWhereParked(m: State, a: Action, actions: seq<Action>)
    requires Sound(m) && Running(m) && RunsAgain(m, a, actions) && m.current < |Next(m, a).procs|
    ensures var x := After(Next(m, a), actions);
      Sound(x) && Awake(x) && Cur(x).resume == Next(m, a).procs[m.current].resume
  {
    hide Awake, Sound, Next, After;
    NextSound(m, a);
    ResumeStays(Next(m, a), actions, m.current);
    NextSound(After(Next(m, a), actions), a);
    AwakeRuns(After(Next(m, a), actions));
  }

  // A receiver that had to wait receives as its own call asked: into its buffer and
  // its slot, or waits on.
  lemma WaitedReceive(m: State, a: Action, ep: nat, out: u64, dst: u64, actions: seq<Action>, b: Action)
    requires Sound(m) && ReceiveTurn(m, a, ep, out, dst) && ep < |m.queues| && m.queues[ep] == []
    requires RunsAgain(m, a, actions)
    ensures var x := After(Next(m, a), actions);
      && Awake(x) && ep < |x.queues|
      && if x.queues[ep] == []
         then Step(x, b).1 == Parked && Parks(x, Step(x, b).0, InRecv(ep, out, dst), OnEndpoint(ep))
         else Received(x, Step(x, b).0, Step(x, b).1, ep, out, dst)
  {
    hide Sound, Step, After, Received;
    RecvParks(m, a, ep, out, dst);
    ResumesWhereParked(m, a, actions);
    var x := After(Next(m, a), actions);
    SoundTable(m);
    SoundTable(x);
    if x.queues[ep] == [] {
      RecvParks(x, b, ep, out, dst);
    } else {
      RecvTakes(x, b, ep, out, dst);
    }
  }

  // ----- A signal and its waiter -----

  // All of these bits are set in the word.
  predicate Contains(word: bv64, bits: bv64) {
    word & bits == bits
  }

  lemma OrContains(a: bv64, b: bv64, c: bv64)
    ensures Contains(Or(a, b), b) && (Contains(a, c) ==> Contains(Or(a, b), c))
    ensures Contains(0, b) ==> b == 0
  {
  }

  // Nobody has taken the notification's word in between.
  ghost predicate NotTaken(log: seq<Event>, log': seq<Event>, id: nat) {
    log <= log' && forall k :: |log| <= k < |log'| && log'[k].Took? ==> log'[k].id != id
  }

  lemma {:induction false} PendingStays(log: seq<Event>, log': seq<Event>, id: nat, bits: bv64)
    requires NotTaken(log, log', id) && Contains(Pending(log, id), bits)
    ensures Contains(Pending(log', id), bits)
    decreases |log'|
  {
    hide Or, Contains;
    if log == log' {
    } else {
      var init, e := log'[..|log'| - 1], log'[|log'| - 1];
      assert forall k :: 0 <= k < |init| ==> init[k] == log'[k];
      PendingStays(log, init, id, bits);
      if e.Signalled? {
        OrContains(Pending(init, id), e.bits, bits);
      }
    }
  }

  // In every run from boot: the next WAIT that looks at the notification returns, and
  // with every bit the SIGNAL named.
  lemma SignalArrives(m: State, before: seq<Action>, slot: u64, bits: bv64, later: seq<Action>, a: Action, id: nat)
    requires Boot(m) && bits != 0
    requires var v := After(m, before);
      && User(v) && Named(v, slot, Notification, NUM_NOTIFICATIONS) == Some(id)
      && var x := Continued(m, before, Signal(slot, bits), later);
         WaitTurn(x, a, id) && NotTaken(Next(v, Signal(slot, bits)).log, x.log, id)
    ensures var x := Continued(m, before, Signal(slot, bits), later);
      Awake(x) && Step(x, a).1.Signals? && Contains(Step(x, a).1.bits, bits)
  {
    hide Boot, Step, After, WaitTurn, Get, Or, Contains;
    var call := Signal(slot, bits);
    var v, x := After(m, before), Continued(m, before, call, later);
    ContinuedGrows(m, before, call, later);
    hide Continued, Sound;
    SoundSignals(x, id);
    SoundTable(v);
    SignalSets(v, slot, bits);
    OrContains(Pending(v.log, id), bits, 0);
    PendingStays(Next(v, call).log, x.log, id, bits);
    OrContains(0, bits, 0);
    TurnAwake(x, a, id);
    WaitTakes(x, a, id);
  }

  lemma TurnAwake(m: State, a: Action, id: nat)
    requires WaitTurn(m, a, id)
    ensures Awake(m)
  {
  }

  lemma SoundSignals(m: State, id: nat)
    requires Sound(m) && id < NUM_NOTIFICATIONS
    ensures id < |m.words| && m.words[id] == Pending(m.log, id)
  {
    hide NoLostWakeup, MessagesConserved;
  }

  // A waiter that had to wait looks at its own notification again.
  lemma WaitedSignal(m: State, a: Action, id: nat, actions: seq<Action>, b: Action)
    requires Sound(m) && WaitTurn(m, a, id) && id < |m.words| && m.words[id] == 0 && RunsAgain(m, a, actions)
    ensures WaitTurn(After(Next(m, a), actions), b, id)
  {
    hide Sound, Step, After;
    WaitParks(m, a, id);
    ResumesWhereParked(m, a, actions);
  }

  // ----- An exit code and its collector -----

  // This step ends process `target` with this code: its own EXIT or fatal exception,
  // or a KILL by somebody else.
  ghost predicate Ends(m: State, a: Action, target: nat, code: u64) {
    && User(m)
    && (|| (target == m.current && (a == Quit(code) || (a == Fault && code == 0x100)))
        || (&& a.Kill? && a.signal == code && target != m.current && target != 0
            && Named(m, a.procSlot, Process, |m.procs|) == Some(target) && m.procs[target].state != Done))
  }

  lemma EndsRecords(m: State, a: Action, target: nat, code: u64)
    requires LifeOk(m) && Ends(m, a, target, code) && m.procs[target].state != Done
    ensures EndedCodes(Next(m, a).log, target) == [code]
  {
    hide Step, Get, ReapsTrue;
    if a.Kill? {
      KillEnds(m, a.procSlot, a.signal);
    } else {
      ExitEnds(m, a, code);
    }
  }

  lemma EndsLiving(m: State, a: Action, target: nat, code: u64)
    requires LifeOk(m) && Ends(m, a, target, code)
    ensures target < |m.procs| && m.procs[target].state != Done
  {
    hide ReapsTrue, CodesRecorded, Get;
  }

  // In every run from boot without self-kills: whoever waits for that process after
  // it has ended is told exactly the code the ending call named.
  lemma ExitCodeArrives(m: State, before: seq<Action>, e: Action, later: seq<Action>, a: Action, target: nat, code: u64)
    requires Boot(m) && CleanRun(m, before + [e] + later)
    requires Ends(After(m, before), e, target, code)
    requires var x := Continued(m, before, e, later); WaitPidTurn(x, a, target) && target != x.current
    ensures var x := Continued(m, before, e, later); Step(x, a).1 == Returned(code, [])
  {
    hide Boot, Step, After, Next, LifeOk, Ends, CleanRun, WaitPidTurn;
    var v, x := After(m, before), Continued(m, before, e, later);
    ContinuedIs(m, before, e, later);
    ContinuedGrows(m, before, e, later);
    hide Continued, Sound;
    BootLife(m);
    CleanRunKeepsLife(m, before + [e] + later);
    assert before + [e] + later == before + ([e] + later);
    CleanTail(m, before, [e] + later);
    CleanRunKeepsLife(m, before);
    EndsLiving(v, e, target, code);
    EndsRecords(v, e, target, code);
    EndedCodesPrefix(Next(v, e).log, x.log, target);
    LifeCodes(x, target);
    LifeRuns(x);
    CollectorTold(x, a, target, code);
  }

  lemma LifeCodes(m: State, target: nat)
    requires LifeOk(m)
    ensures |EndedCodes(m.log, target)| <= 1 && (EndedCodes(m.log, target) != [] ==> target < |m.procs|)
  {
    hide ReapsTrue;
  }

  lemma CollectorTold(m: State, a: Action, target: nat, code: u64)
    requires LifeOk(m) && WaitPidTurn(m, a, target) && target != m.current
    requires |EndedCodes(m.log, target)| == 1 && EndedCodes(m.log, target)[0] == code && target < |m.procs|
    ensures Step(m, a).1 == Returned(code, [])
  {
    hide LifeOk, Step, WaitPidTurn;
    WaitPidReplies(m, a, target);
  }

  // A collector that had to wait asks for the same process again.
  lemma WaitedCollector(m: State, a: Action, target: nat, actions: seq<Action>, b: Action)
    requires Sound(m) && WaitPidTurn(m, a, target) && RunsAgain(m, a, actions)
    requires target < |m.procs| && target != m.current && m.procs[target].state != Done
    ensures WaitPidTurn(After(Next(m, a), actions), b, target)
  {
    hide Sound, Step, After;
    SoundTable(m);
    WaitPidParks(m, a, target);
    ResumesWhereParked(m, a, actions);
  }
}
