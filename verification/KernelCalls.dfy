// What each call does, told from its arguments and the state it finds: its reply, the
// whole new state, and what the history of the object it names gains.
module KernelCalls {
  import opened Base
  import opened Capability
  import opened Machine
  import opened Syscalls
  import opened KernelSafety
  import opened KernelLifecycle
  import KernelRuns

  // The running process is in user mode and may make a call.
  ghost predicate User(m: State) {
    Awake(m) && !m.halted && Cur(m).resume == InUser
  }

  // The object of this kind, among the first `limit`, that a slot of the caller names.
  function Named(m: State, slot: nat, kind: CapType, limit: nat): (id: Option<nat>)
    requires Running(m)
    ensures id.Some? ==> id.value < limit
  {
    var cap := Get(Cur(m).caps, slot);
    if cap.Some? && cap.value.capType == kind && cap.value.obj < limit then Some(cap.value.obj) else None
  }

  // ----- Giving the processor away -----

  // Somebody other than the running process could run.
  ghost predicate OthersReady(m: State) {
    exists p: nat :: p < |m.procs| && p != m.current && m.procs[p].state == Ready
  }

  // Of those, the one that comes first in the round.
  ghost predicate Nearest(m: State, i: nat)
    requires Running(m)
  {
    && i < |m.procs| && i != m.current && m.procs[i].state == Ready
    && forall p: nat :: p < |m.procs| && p != m.current && m.procs[p].state == Ready ==>
         Distance(m, i) <= Distance(m, p)
  }

  // The nearest other ready process is made current, if there is one.
  ghost predicate GivesWay(m: State, w: State)
    requires Running(m)
  {
    if OthersReady(m) then Nearest(m, w.current) && w.log == m.log + [Switched(w.current)]
    else w.current == m.current && w.log == m.log
  }

  // Whatever becomes of the running process, the choice is among the others first.
  lemma PicksNearest(m: State, b: State)
    requires Running(m) && b.current == m.current && |b.procs| == |m.procs|
    requires forall p: nat :: p < |m.procs| && p != m.current ==> b.procs[p].state == m.procs[p].state
    ensures OthersReady(m) ==> PickNext(b).Some? && Nearest(m, PickNext(b).value)
    ensures !OthersReady(m) ==> PickNext(b) == if b.procs[m.current].state == Ready then Some(m.current) else None
  {
    hide PickNext;
    if OthersReady(m) {
      forall p: nat | p < |m.procs| && p != m.current && m.procs[p].state == Ready
        ensures PickNext(b).Some? && Distance(m, PickNext(b).value) <= Distance(m, p)
      {
        PickNextFair(b, p);
      }
    } else if b.procs[m.current].state == Ready {
      PickNextFair(b, m.current);
    }
  }

  // A yield, or a timer tick in user mode, changes no process and hands the processor
  // to the nearest other ready one; it stays only where there is none.
  lemma YieldGivesWay(m: State)
    requires User(m)
    ensures var (w, r) := Step(m, Yield);
      w == m.(current := w.current, log := w.log) && r == Returned(0, []) && GivesWay(m, w)
  {
    hide PickNext;
    PicksNearest(m, m);
  }

  // The running process is parked in its call, and blocked if another can run.
  ghost predicate Parks(m: State, w: State, resume: Resume, reason: BlockReason)
    requires Running(m)
  {
    && w == m.(procs := w.procs, current := w.current, log := w.log) && GivesWay(m, w)
    && w.procs == m.procs[m.current :=
                    Cur(m).(resume := resume, state := if OthersReady(m) then Blocked(reason) else Ready)]
  }

  lemma BlockParks(m: State, resume: Resume, reason: BlockReason)
    requires Running(m)
    ensures Parks(m, BlockOn(SetProc(m, m.current, Cur(m).(resume := resume)), reason), resume, reason)
  {
    hide PickNext;
    var parked := SetProc(m, m.current, Cur(m).(resume := resume));
    PicksNearest(m, SetProc(parked, m.current, Cur(parked).(state := Blocked(reason))));
  }

  // ----- Messages -----

  // Exactly the processes blocked for this reason became ready.
  ghost predicate OnlyWoken(m: State, w: State, reason: BlockReason) {
    && |w.procs| == |m.procs|
    && forall i :: 0 <= i < |m.procs| ==>
         w.procs[i] == if m.procs[i].state == Blocked(reason) then m.procs[i].(state := Ready) else m.procs[i]
  }

  // One message was added behind all others sent to this endpoint.
  ghost predicate Queued(m: State, w: State, ep: nat, msg: Message) {
    && w == m.(procs := w.procs, queues := w.queues, log := w.log) && OnlyWoken(m, w, OnEndpoint(ep))
    && ep < |m.queues| && w.queues == m.queues[ep := m.queues[ep] + [msg]]
    && (forall e: nat :: SentTo(w.log, e) == if e == ep then SentTo(m.log, e) + [msg] else SentTo(m.log, e))
    && (forall e: nat :: PoppedFrom(w.log, e) == PoppedFrom(m.log, e))
  }

  // The message a SEND asks for: its word, and the capability in the slot it names.
  function AskedToSend(m: State, word: u64, capSlot: nat): Message
    requires Running(m)
  {
    Message(word, if capSlot == U64_MAX then None else Get(Cur(m).caps, capSlot))
  }

  // A SEND returns 0 exactly when it names an endpoint and, if it names a capability
  // slot at all, one that holds something; then that message is queued. Otherwise
  // nothing changes.
  lemma SendDelivers(m: State, epSlot: u64, word: u64, capSlot: u64)
    requires User(m) && TableOk(m)
    ensures var (w, r) := Step(m, Send(epSlot, word, capSlot));
      var ep := Named(m, epSlot, Endpoint, NUM_ENDPOINTS);
      var granted := ep.Some? && (capSlot == U64_MAX || Get(Cur(m).caps, capSlot).Some?);
      && r == (if granted then Returned(0, []) else Refused())
      && if granted then Queued(m, w, ep.value, AskedToSend(m, word, capSlot)) else w == m
  {
    hide Get;
    var ep := Named(m, epSlot, Endpoint, NUM_ENDPOINTS);
    var msg := AskedToSend(m, word, capSlot);
    if ep.Some? {
      EveryLogMessages(m.log, Sent(ep.value, msg));
    }
  }

  lemma EveryLogMessages(log: seq<Event>, e: Event)
    ensures forall id: nat ::
              SentTo(log + [e], id) == if e.Sent? && e.ep == id then SentTo(log, id) + [e.msg] else SentTo(log, id)
    ensures forall id: nat ::
              PoppedFrom(log + [e], id)
              == if e.Popped? && e.ep == id then PoppedFrom(log, id) + [e.msg] else PoppedFrom(log, id)
  {
    forall id: nat
      ensures SentTo(log + [e], id) == if e.Sent? && e.ep == id then SentTo(log, id) + [e.msg] else SentTo(log, id)
      ensures PoppedFrom(log + [e], id)
           == if e.Popped? && e.ep == id then PoppedFrom(log, id) + [e.msg] else PoppedFrom(log, id)
    {
      LogMessages(log, e, id);
    }
  }

  // The running process takes a turn of a RECV with these arguments: it makes the call,
  // or goes on with the one it is parked in.
  ghost predicate ReceiveTurn(m: State, a: Action, ep: nat, out: u64, dst: u64) {
    && Awake(m) && !m.halted
    && (|| Cur(m).resume == InRecv(ep, out, dst)
        || (&& Cur(m).resume == InUser && a.Recv? && a.out == out && a.dst == dst
            && Named(m, a.epSlot, Endpoint, ep + 1) == Some(ep)))
  }

  // The message at the head of a queue is taken; capability and word are handed over
  // where slot and buffer are good, the capability first.
  ghost predicate Received(m: State, w: State, r: Reply, ep: nat, out: u64, dst: u64)
    requires Running(m) && ep < |m.queues| && m.queues[ep] != []
  {
    var msg := m.queues[ep][0];
    var fits := msg.cap.None? || dst == U64_MAX || CanInsert(Cur(m).caps, dst);
    var kept := msg.cap.Some? && dst != U64_MAX && fits;
    && r == (if fits && UserBuffer(m, out, 8) then Returned(0, [msg.word]) else Refused())
    && w == m.(procs := w.procs, queues := m.queues[ep := m.queues[ep][1..]], log := m.log + [Popped(ep, msg)])
    && w.procs == m.procs[m.current :=
         Cur(m).(resume := InUser, caps := if kept then Cur(m).caps[dst := msg.cap] else Cur(m).caps)]
  }

  lemma RecvTakes(m: State, a: Action, ep: nat, out: u64, dst: u64)
    requires ReceiveTurn(m, a, ep, out, dst) && ep < |m.queues| && m.queues[ep] != []
    ensures Received(m, Step(m, a).0, Step(m, a).1, ep, out, dst)
  {
    hide UserBuffer, Get;
  }

  // On an empty queue the call is parked with its own arguments.
  lemma RecvParks(m: State, a: Action, ep: nat, out: u64, dst: u64)
    requires ReceiveTurn(m, a, ep, out, dst) && (ep < |m.queues| ==> m.queues[ep] == [])
    ensures Step(m, a).1 == Parked && Parks(m, Step(m, a).0, InRecv(ep, out, dst), OnEndpoint(ep))
  {
    hide UserBuffer, Get, BlockOn, Parks;
    BlockParks(m, InRecv(ep, out, dst), OnEndpoint(ep));
  }

  lemma RecvRefused(m: State, a: Action)
    requires User(m) && a.Recv?
    requires Get(Cur(m).caps, a.epSlot).Some? ==> Get(Cur(m).caps, a.epSlot).value.capType != Endpoint
    ensures Step(m, a) == (m, Refused())
  {
    hide Get, UserBuffer, BlockOn;
  }

  // ----- Notifications -----

  // These bits joined the word and the history of one notification.
  ghost predicate BitsSet(m: State, w: State, id: nat, bits: bv64) {
    && w == m.(procs := w.procs, words := w.words, log := w.log) && OnlyWoken(m, w, OnNotification(id))
    && id < |m.words| && w.words == m.words[id := Or(m.words[id], bits)]
    && (forall n: nat ::
            AllSignalled(w.log, n) == if n == id then Or(AllSignalled(m.log, n), bits) else AllSignalled(m.log, n))
    && (forall n: nat :: Pending(w.log, n) == if n == id then Or(Pending(m.log, n), bits) else Pending(m.log, n))
  }

  // A SIGNAL returns 0 exactly when it names a notification, and then the bits asked
  // for are set; otherwise nothing changes.
  lemma SignalSets(m: State, slot: u64, bits: bv64)
    requires User(m) && TableOk(m)
    ensures var (w, r) := Step(m, Signal(slot, bits));
      var id := Named(m, slot, Notification, NUM_NOTIFICATIONS);
      && r == (if id.Some? then Returned(0, []) else Refused())
      && if id.Some? then BitsSet(m, w, id.value, bits) else w == m
  {
    hide Get, Or;
    var id := Named(m, slot, Notification, NUM_NOTIFICATIONS);
    if id.Some? {
      EveryLogSignalled(m.log, id.value, bits);
    }
  }

  lemma EveryLogSignalled(log: seq<Event>, id: nat, bits: bv64)
    ensures forall n: nat :: AllSignalled(log + [Signalled(id, bits)], n)
              == if n == id then Or(AllSignalled(log, n), bits) else AllSignalled(log, n)
    ensures forall n: nat :: Pending(log + [Signalled(id, bits)], n)
              == if n == id then Or(Pending(log, n), bits) else Pending(log, n)
  {
    hide Or;
    forall n: nat
      ensures AllSignalled(log + [Signalled(id, bits)], n)
           == if n == id then Or(AllSignalled(log, n), bits) else AllSignalled(log, n)
      ensures Pending(log + [Signalled(id, bits)], n) == if n == id then Or(Pending(log, n), bits) else Pending(log, n)
    {
      KernelRuns.LogSignalled(log, Signalled(id, bits), n);
      LogPending(log, Signalled(id, bits), n);
    }
  }

  // A turn of a WAIT on this notification.
  ghost predicate WaitTurn(m: State, a: Action, id: nat) {
    && Awake(m) && !m.halted
    && (|| Cur(m).resume == InWait(id)
        || (Cur(m).resume == InUser && a.Wait? && Named(m, a.slot, Notification, id + 1) == Some(id)))
  }

  // A non-zero word is returned and cleared; on zero the call is parked.
  lemma WaitTakes(m: State, a: Action, id: nat)
    requires WaitTurn(m, a, id) && id < |m.words| && m.words[id] != 0
    ensures var (w, r) := Step(m, a);
      && r == Signals(m.words[id])
      && w == m.(procs := m.procs[m.current := Cur(m).(resume := InUser)], words := m.words[id := 0],
                 log := m.log + [Took(id, m.words[id])])
  {
    hide Get, BlockOn;
  }

  lemma WaitParks(m: State, a: Action, id: nat)
    requires WaitTurn(m, a, id) && (id < |m.words| ==> m.words[id] == 0)
    ensures Step(m, a).1 == Parked && Parks(m, Step(m, a).0, InWait(id), OnNotification(id))
  {
    hide Get, BlockOn, Parks;
    BlockParks(m, InWait(id), OnNotification(id));
  }

  lemma WaitRefused(m: State, a: Action)
    requires User(m) && a.Wait?
    requires Get(Cur(m).caps, a.slot).Some? ==> Get(Cur(m).caps, a.slot).value.capType != Notification
    ensures Step(m, a) == (m, Signals(0))
  {
    hide Get, BlockOn;
  }

  // ----- The end of a process -----

  // Process i has ended with this code, and the history says so.
  ghost predicate EndedWith(m: State, w: State, i: nat, code: u64, p: Proc) {
    && i < |m.procs| && w.procs == m.procs[i := p]
    && p == m.procs[i].(state := Done, exitCode := code, resume := p.resume)
    && (forall k: nat :: EndedCodes(w.log, k) == if k == i then EndedCodes(m.log, k) + [code] else EndedCodes(m.log, k))
  }

  // EXIT ends its caller with the code it names, a fatal exception with 0x100; the
  // nearest ready process goes on, or the machine stops.
  lemma ExitEnds(m: State, a: Action, code: u64)
    requires User(m) && TableOk(m) && (a == Quit(code) || (a == Fault && code == 0x100))
    ensures var (w, r) := Step(m, a);
      && r == Gone && EndedWith(m, w, m.current, code, Cur(m).(state := Done, exitCode := code, resume := Abandoned))
      && w == m.(procs := w.procs, current := w.current, log := w.log, halted := w.halted)
      && if OthersReady(m) then Nearest(m, w.current) && !w.halted else w.current == m.current && w.halted
  {
    hide PickNext;
    var p := Cur(m).(state := Done, exitCode := code, resume := Abandoned);
    var ended := Logged(SetProc(m, m.current, p), Ended(m.current, code));
    PicksNearest(m, ended);
    EveryLogEnded(m.log, Ended(m.current, code));
    if OthersReady(m) {
      EveryLogEnded(ended.log, Switched(PickNext(ended).value));
    }
  }

  lemma EveryLogEnded(log: seq<Event>, e: Event)
    ensures forall k: nat :: EndedCodes(log + [e], k)
              == if e.Ended? && e.who == k then EndedCodes(log, k) + [e.code] else EndedCodes(log, k)
  {
    forall k: nat
      ensures EndedCodes(log + [e], k)
           == if e.Ended? && e.who == k then EndedCodes(log, k) + [e.code] else EndedCodes(log, k)
    {
      LogEnded(log, e, k);
    }
  }

  // KILL returns 0 exactly when its handle names a living process other than the
  // root, which then has ended with the signal for a code; it does not switch.
  lemma KillEnds(m: State, slot: u64, signal: u64)
    requires User(m) && TableOk(m)
    ensures var (w, r) := Step(m, Kill(slot, signal));
      var pid := Named(m, slot, Process, |m.procs|);
      var granted := pid.Some? && pid.value != 0 && m.procs[pid.value].state != Done;
      && r == (if granted then Returned(0, []) else Refused())
      && (!granted ==> w == m)
      && (granted ==>
            && w == m.(procs := w.procs, log := w.log)
            && EndedWith(m, w, pid.value, signal, m.procs[pid.value].(state := Done, exitCode := signal)))
  {
    hide Get;
    var pid := Named(m, slot, Process, |m.procs|);
    FindByPid(m, slot);
    if pid.Some? {
      EveryLogEnded(m.log, Ended(pid.value, signal));
    }
  }

  // PIDs being table indices, a search finds the process with that index.
  lemma FindByPid(m: State, slot: nat)
    requires TableOk(m)
    ensures var cap := Get(Cur(m).caps, slot);
      cap.Some? ==>
        FindPid(m.procs, cap.value.obj, 0) == if cap.value.obj < |m.procs| then Some(cap.value.obj) else None
  {
    hide Get;
    var cap := Get(Cur(m).caps, slot);
    if cap.Some? {
      FindIndex(m, cap.value.obj);
    }
  }

  lemma FindIndex(m: State, pid: nat)
    requires TableOk(m)
    ensures FindPid(m.procs, pid, 0) == if pid < |m.procs| then Some(pid) else None
  {
    if pid < |m.procs| {
      assert m.procs[pid].pid == pid;
    }
  }

  // GET_STATUS says 0 of a living process, 1 of one that has ended, 2 of none, and
  // changes nothing.
  lemma StatusTells(m: State, slot: u64)
    requires User(m) && LifeOk(m)
    ensures var (w, r) := Step(m, GetStatus(slot));
      var cap := Get(Cur(m).caps, slot);
      && w == m
      && r == if cap.None? || cap.value.capType != Process then Refused()
              else Returned(if cap.value.obj >= |m.procs| then 2
                            else if EndedCodes(m.log, cap.value.obj) == [] then 0 else 1, [])
  {
    hide Get, ReapsTrue;
    FindByPid(m, slot);
  }

  // ----- Waiting for a process -----

  // A turn of a WAIT_PID for this process.
  ghost predicate WaitPidTurn(m: State, a: Action, target: nat) {
    && Awake(m) && !m.halted
    && (|| Cur(m).resume == InWaitPid(target)
        || (&& Cur(m).resume == InUser && a.WaitPid?
            && target != 0 && Named(m, a.procSlot, Process, target + 1) == Some(target)))
  }

  // While the target lives, the call is parked and the processor given away.
  ghost predicate KeepsWaiting(m: State, w: State, target: nat)
    requires Running(m)
  {
    && GivesWay(m, w)
    && w == m.(procs := m.procs[m.current := Cur(m).(resume := InWaitPid(target))], current := w.current, log := w.log)
  }

  lemma WaitPidParks(m: State, a: Action, target: nat)
    requires TableOk(m) && WaitPidTurn(m, a, target)
    requires target < |m.procs| && target != m.current && m.procs[target].state != Done
    ensures Step(m, a).1 == Parked && KeepsWaiting(m, Step(m, a).0, target)
  {
    hide Get, PickNext;
    FindIndex(m, target);
    PicksNearest(m, SetProc(m, m.current, Cur(m).(resume := InWaitPid(target))));
  }

  // Of a target that has ended the reply is its one code; a living one is waited for;
  // with none, or the caller itself, the call is refused.
  lemma WaitPidReplies(m: State, a: Action, target: nat)
    requires LifeOk(m) && WaitPidTurn(m, a, target)
    ensures var (w, r) := Step(m, a);
      var back := m.(procs := m.procs[m.current := Cur(m).(resume := InUser)]);
      if target == m.current || target >= |m.procs| then r == Refused() && w == back
      else if EndedCodes(m.log, target) == [] then r == Parked && KeepsWaiting(m, w, target)
      else r.Returned? && EndedCodes(m.log, target) == [r.rax] && r.out == [] && w == back.(log := w.log)
  {
    hide Get, YieldNow, ReapsTrue, KeepsWaiting;
    FindIndex(m, target);
    if target < |m.procs| && target != m.current && m.procs[target].state != Done {
      WaitPidParks(m, a, target);
    }
  }

  lemma WaitPidRefused(m: State, a: Action)
    requires User(m) && a.WaitPid?
    requires Get(Cur(m).caps, a.procSlot).Some? ==>
               Get(Cur(m).caps, a.procSlot).value.capType != Process || Get(Cur(m).caps, a.procSlot).value.obj == 0
    ensures Step(m, a) == (m, Refused())
  {
    hide Get, PickNext;
  }
}
