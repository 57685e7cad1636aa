// Where every capability of a run comes from: a chain of copies, each made by a
// holder, that starts at a seed or at something the kernel minted.
module KernelDescent {
  import opened Base
  import opened Capability
  import opened Machine
  import opened Syscalls
  import opened KernelSafety
  import opened KernelAuthority
  import KernelRuns

  // Who has a capability: a process, or a message that nobody has received yet.
  datatype Holder = OfProcess(p: nat) | OnTheWay

  ghost predicate Has(m: State, h: Holder, c: CapEntry) {
    match h
    case OfProcess(p) => exists k: nat :: HasCap(m, p, k) && CapAt(m, p, k) == c
    case OnTheWay => InFlight(m, c)
  }

  predicate IsSeed(pid: nat, c: CapEntry) {
    Some(c) in SeedCaps(pid)
  }

  predicate CallsFromUser(m: State) {
    Running(m) && Cur(m).resume == InUser
  }

  // The step creates a process.
  ghost predicate Creates(m: State, a: Action) {
    CallsFromUser(m) && (a.Spawn? || a.SpawnEnv?) && Next(m, a).nextPid == m.nextPid + 1
  }

  // The step makes this capability for its caller: the run that a FRAME_ALLOC which
  // succeeds was granted, or the handle on the child just created.
  ghost predicate Mints(m: State, a: Action, c: CapEntry) {
    (CallsFromUser(m) && MintsRun(m, a, c)) || (Creates(m, a) && c == ProcessCap(m.nextPid))
  }

  // The step takes this capability off the queue it is waiting in.
  ghost predicate Delivers(m: State, a: Action, c: CapEntry) {
    Running(m) && exists e: nat :: Receives(m, a, e) && m.queues[e][0].cap == Some(c)
  }

  // The step copies this capability from its caller to process `p`, or into a queue.
  predicate Grants(m: State, a: Action, p: nat, c: CapEntry) {
    CallsFromUser(m) && a.Grant? && Get(Cur(m).caps, a.src) == Some(c) && CurObject(m, a.procSlot, Process) == Some(p)
  }

  predicate Sends(m: State, a: Action, c: CapEntry) {
    CallsFromUser(m) && a.Send? && Get(Cur(m).caps, a.capSlot) == Some(c)
  }

  // The capability that `h` has after the run goes back, copy by copy, to a seed or
  // a mint. Only the amount of a budget may change on the way, and only in the
  // hands of its owner.
  ghost predicate Descends(m: State, actions: seq<Action>, h: Holder, c: CapEntry)
    decreases |actions|
  {
    && Has(After(m, actions), h, c)
    && if actions == [] then h.OfProcess? && IsSeed(h.p, c)
       else
         var init, a := actions[..|actions| - 1], actions[|actions| - 1];
         var v := After(m, init);
         || (exists d :: (d == c || (SameCap(c, d) && h == OfProcess(v.current))) && Descends(m, init, h, d))
         || (h == OfProcess(|v.procs|) && Creates(v, a) && IsSeed(v.nextPid, c))
         || (h == OfProcess(v.current) && Mints(v, a, c))
         || (h == OfProcess(v.current) && Delivers(v, a, c) && Descends(m, init, OnTheWay, c))
         || (h.OfProcess? && Grants(v, a, h.p, c) && Descends(m, init, OfProcess(v.current), c))
         || (h == OnTheWay && Sends(v, a, c) && Descends(m, init, OfProcess(v.current), c))
  }

  // One step back.
  ghost predicate CameFrom(v: State, a: Action, h: Holder, c: CapEntry) {
    || (exists d :: (d == c || (SameCap(c, d) && h == OfProcess(v.current))) && Has(v, h, d))
    || (h == OfProcess(|v.procs|) && Creates(v, a) && IsSeed(v.nextPid, c))
    || (h == OfProcess(v.current) && Mints(v, a, c))
    || (h == OfProcess(v.current) && Delivers(v, a, c) && Has(v, OnTheWay, c))
    || (h.OfProcess? && Grants(v, a, h.p, c) && Has(v, OfProcess(v.current), c))
    || (h == OnTheWay && Sends(v, a, c) && Has(v, OfProcess(v.current), c))
  }

  lemma GotIsHad(m: State, k: nat, c: CapEntry)
    requires Running(m) && Get(Cur(m).caps, k) == Some(c)
    ensures Has(m, OfProcess(m.current), c)
  {
    assert HasCap(m, m.current, k) && CapAt(m, m.current, k) == c;
  }

  lemma TableCameFrom(v: State, a: Action, w: State, p: nat, k: nat)
    requires TableOk(v) && TableOk(w) && w == Next(v, a) && HasCap(w, p, k) && Origin(v, a, w, p, k)
    requires p >= |v.procs| ==> CallsFromUser(v) && |w.procs| == |v.procs| + 1
    ensures CameFrom(v, a, OfProcess(p), CapAt(w, p, k))
  {
    hide Get, MintsRun, Next;
    var h, c := OfProcess(p), CapAt(w, p, k);
    if HasCap(v, p, k) {
      assert Has(v, h, CapAt(v, p, k));
    } else if p >= |v.procs| {
      assert w.procs[p].caps[k] == Some(c);
      assert Creates(v, a);
    } else if Mints(v, a, c) && p == v.current {
    } else if a.Grant? && Get(Cur(v).caps, a.src) == Some(c) && Cur(v).resume == InUser
              && CurObject(v, a.procSlot, Process) == Some(v.procs[p].pid) {
      GotIsHad(v, a.src, c);
    } else {
      var e: nat :| Receives(v, a, e) && v.queues[e][0].cap == Some(c);
      assert InFlight(v, c);
    }
  }

  // The process table grows only by a call from user mode, and by one.
  lemma OnlyCallsGrow(v: State, a: Action)
    requires Awake(v) && TableOk(v)
    ensures |Next(v, a).procs| > |v.procs| ==> CallsFromUser(v)
    ensures (a.Spawn? || a.SpawnEnv?) && Cur(v).resume == InUser ==> |Next(v, a).procs| <= |v.procs| + 1
  {
    hide SysSpawn, SysSpawnEnv, RecvLoop, WaitLoop, WaitPidLoop;
    if a.Spawn? {
      SpawnGrows(v, a.capSlot);
    } else if a.SpawnEnv? {
      SpawnEnvGrows(v, a.envp, a.len, a.capSlot);
    }
    hide Syscall;
    if !v.halted {
      match Cur(v).resume
      case InRecv(id, out, dst) => KernelRuns.RecvMemory(v, id, out, dst);
      case InWait(id) => KernelRuns.LoopMemory(v, id);
      case InWaitPid(target) => KernelRuns.LoopMemory(v, target);
      case _ =>
    }
  }

  lemma StepCameFrom(v: State, a: Action, h: Holder, c: CapEntry)
    requires Awake(v) && TableOk(v) && BudgetsFit(v) && TableOk(Next(v, a)) && Has(Next(v, a), h, c)
    ensures CameFrom(v, a, h, c)
  {
    hide Next, Get, BudgetsFit, TableOk, MintsRun;
    StepExplained(v, a);
    OnlyCallsGrow(v, a);
    var w := Next(v, a);
    match h
    case OfProcess(p) =>
      hide CameFrom;
      var k: nat :| HasCap(w, p, k) && CapAt(w, p, k) == c;
      assert Origin(v, a, w, p, k);
      TableCameFrom(v, a, w, p, k);
    case OnTheWay =>
      if InFlight(v, c) {
        assert Has(v, h, c);
      } else {
        GotIsHad(v, a.capSlot, c);
      }
  }

  lemma BootDescent(m: State, h: Holder, c: CapEntry)
    requires Boot(m) && Has(m, h, c)
    ensures h.OfProcess? && IsSeed(h.p, c)
  {
    hide CreateSpace, KernelOnly, SeedCaps;
    assert forall d :: !InFlight(m, d);
  }

  // Every capability of every reachable state descends from a seed or a mint.
  lemma {:induction false} EveryCapDescends(m: State, actions: seq<Action>, h: Holder, c: CapEntry)
    requires Boot(m) && Has(After(m, actions), h, c)
    ensures Descends(m, actions, h, c)
    decreases |actions|
  {
    hide Boot, Next, Has, SameCap, IsSeed, Mints, Creates, Delivers, Grants, Sends, AllLegitimate;
    if actions == [] {
      BootDescent(m, h, c);
    } else {
      var init, a := actions[..|actions| - 1], actions[|actions| - 1];
      var v := After(m, init);
      KernelRuns.RunSafe(m, init);
      KernelRuns.RunSafe(m, actions);
      Unforgeable(m, init);
      LegitimateBudgets(v);
      StepCameFrom(v, a, h, c);
      if d :| (d == c || (SameCap(c, d) && h == OfProcess(v.current))) && Has(v, h, d) {
        EveryCapDescends(m, init, h, d);
      } else if Has(v, OnTheWay, c) && h == OfProcess(v.current) && Delivers(v, a, c) {
        EveryCapDescends(m, init, OnTheWay, c);
      } else if Has(v, OfProcess(v.current), c) {
        EveryCapDescends(m, init, OfProcess(v.current), c);
      }
    }
  }

  // Step k of the run creates a process, and the capability is one of its seeds.
  ghost predicate SeedsAt(m: State, actions: seq<Action>, k: nat, c: CapEntry)
    requires k < |actions|
  {
    Creates(After(m, actions[..k]), actions[k]) && IsSeed(After(m, actions[..k]).nextPid, c)
  }

  // What descent means for the capability itself: some seed of a process that
  // exists by then, or some earlier mint, is the same up to the amount of a budget.
  ghost predicate MadeDuring(m: State, actions: seq<Action>, c: CapEntry) {
    exists d :: SameKind(c, d) &&
      (|| IsSeed(0, d)
       || (exists k: nat :: k < |actions| && SeedsAt(m, actions, k, d))
       || (exists k: nat :: k < |actions| && Mints(After(m, actions[..k]), actions[k], d)))
  }

  // Equal but for the amount of a budget.
  predicate SameKind(c: CapEntry, d: CapEntry) {
    c == d || (c.capType == Untyped && d.capType == Untyped && c == d.(obj := c.obj))
  }

  lemma {:induction false} DescentIsMade(m: State, actions: seq<Action>, h: Holder, c: CapEntry)
    requires Boot(m) && Descends(m, actions, h, c)
    ensures MadeDuring(m, actions, c)
    decreases |actions|
  {
    hide Boot, Next, Has, IsSeed, Mints, Creates, Delivers, Grants, Sends, After;
    if actions == [] {
      OnlyRoot(m, h, c);
      assert SameKind(c, c);
    } else {
      var n := |actions| - 1;
      var init, a := actions[..n], actions[n];
      var v := After(m, init);
      if d :| (d == c || (SameCap(c, d) && h == OfProcess(v.current))) && Descends(m, init, h, d) {
        DescentIsMade(m, init, h, d);
        MadeLater(m, actions, c, d);
      } else if Descends(m, init, OnTheWay, c) {
        DescentIsMade(m, init, OnTheWay, c);
        MadeLater(m, actions, c, c);
      } else if Descends(m, init, OfProcess(v.current), c) {
        DescentIsMade(m, init, OfProcess(v.current), c);
        MadeLater(m, actions, c, c);
      } else {
        assert SameKind(c, c) && actions[..n] == init;
        assert SeedsAt(m, actions, n, c) || Mints(After(m, actions[..n]), actions[n], c);
      }
    }
  }

  lemma OnlyRoot(m: State, h: Holder, c: CapEntry)
    requires Boot(m) && Has(After(m, []), h, c) && h.OfProcess?
    ensures h.p == 0
  {
    hide CreateSpace, KernelOnly, SeedCaps;
  }

  lemma MadeLater(m: State, actions: seq<Action>, c: CapEntry, d: CapEntry)
    requires actions != [] && MadeDuring(m, actions[..|actions| - 1], d) && (c == d || SameCap(c, d))
    ensures MadeDuring(m, actions, c)
  {
    hide After, IsSeed, Mints, Creates;
    var init := actions[..|actions| - 1];
    var e :| SameKind(d, e) &&
      (|| IsSeed(0, e)
       || (exists k: nat :: k < |init| && SeedsAt(m, init, k, e))
       || (exists k: nat :: k < |init| && Mints(After(m, init[..k]), init[k], e)));
    assert forall k: nat :: k < |init| ==> init[k] == actions[k] && init[..k] == actions[..k];
    assert forall k: nat :: k < |init| && SeedsAt(m, init, k, e) ==> SeedsAt(m, actions, k, e);
    assert SameKind(c, e);
  }
}
