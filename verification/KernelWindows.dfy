// The address windows that mapping calls hand out, of whatever kind and to whatever
// process, never overlap.
module KernelWindows {
  import opened Base
  import opened Capability
  import opened AddressSpace
  import opened Machine
  import opened Syscalls
  import opened KernelCalls
  import opened KernelDelivery
  import KernelRuns

  datatype Kind = Mmio | Dma | Shared

  function NextOf(m: State, k: Kind): nat {
    match k
    case Mmio => m.nextMmio
    case Dma => m.nextDma
    case Shared => m.nextShared
  }

  function StartOf(k: Kind): nat {
    match k
    case Mmio => 0x5000_0000
    case Dma => 0x6000_0000
    case Shared => 0x7000_0000
  }

  function EndOf(k: Kind): nat {
    match k
    case Mmio => 0x6000_0000
    case Dma => 0x7000_0000
    case Shared => 0x8000_0000
  }

  // The call succeeds and reports n pages mapped at this address.
  ghost predicate Opens(m: State, a: Action, k: Kind, at: nat, n: nat) {
    User(m) &&
    var r := Step(m, a).1;
    match a
    case FrameAlloc(pages, _, _) => k == Shared && n == pages && r == Returned(0, [at])
    case MapFrame(capSlot, _) =>
      && k == Shared && r == Returned(0, [at])
      && Get(Cur(m).caps, capSlot).Some? && n == Get(Cur(m).caps, capSlot).value.badge
    case DmaAlloc(length, _) =>
      k == Dma && n == DivCeil(length, PAGE) && r.Returned? && r.rax == 0 && |r.out| == 2 && r.out[0] == at
    case IoMap(phys, length) =>
      k == Mmio && n == DivCeil(phys % PAGE + length, PAGE) && r != Refused() && r == Returned(at + phys % PAGE, [])
    case _ => false
  }

  // Each window starts at its counter, which then points just behind it.
  lemma OpensAdvances(m: State, a: Action, k: Kind, at: nat, n: nat)
    requires Opens(m, a, k, at, n)
    ensures at == NextOf(m, k) && NextOf(Next(m, a), k) == at + n * PAGE <= EndOf(k)
  {
    hide AllocRun, FreeRun, MapRange, UserBuffer, Charge, Refund, DivCeil, Insert, Get, SlotsAuthorizeMmio, PageDown;
    if a.IoMap? {
      DownOffset(a.phys);
    }
  }

  lemma DownOffset(a: nat)
    ensures a - PageDown(a) == a % PAGE
  {
  }

  // ----- The counters -----

  ghost predicate CountersIn(m: State) {
    forall k: Kind :: StartOf(k) <= NextOf(m, k) <= EndOf(k)
  }

  ghost predicate CountersGrow(m: State, w: State) {
    && (forall k: Kind :: NextOf(m, k) <= NextOf(w, k))
    && (CountersIn(m) ==> CountersIn(w))
  }

  lemma SameCounters(m: State, w: State)
    requires w.nextMmio == m.nextMmio && w.nextDma == m.nextDma && w.nextShared == m.nextShared
    ensures CountersGrow(m, w)
  {
  }

  lemma FrameAllocCounters(m: State, a: Action)
    requires Awake(m) && a.FrameAlloc?
    ensures CountersGrow(m, Syscall(m, a).0)
  {
    hide AllocRun, FreeRun, MapRange, UserBuffer, Charge, Refund, Insert;
  }

  lemma DmaCounters(m: State, a: Action)
    requires Awake(m) && a.DmaAlloc?
    ensures CountersGrow(m, Syscall(m, a).0)
  {
    hide AllocRun, MapRange, UserBuffer, Charge, Refund, DivCeil;
  }

  lemma MappingCounters(m: State, a: Action)
    requires Awake(m) && (a.MapFrame? || a.IoMap?)
    ensures CountersGrow(m, Syscall(m, a).0)
  {
    hide MapRange, UserBuffer, DivCeil, Get, SlotsAuthorizeMmio, PageDown;
  }

  lemma CreationCounters(m: State, a: Action)
    requires Awake(m) && (a.Spawn? || a.SpawnEnv? || a.Sbrk?)
    ensures CountersGrow(m, Syscall(m, a).0)
  {
    hide CreateSpace, AllocMapAll, UserRange, DivCeil, DataPages, SeedCaps, Insert, PageUp;
    SameCounters(m, Syscall(m, a).0);
  }

  lemma PlainCounters(m: State, a: Action)
    requires Awake(m) && KernelRuns.LeavesMemory(a)
    ensures CountersGrow(m, Syscall(m, a).0)
  {
    hide PickNext, FindPid, UserBuffer, Insert, Get, Or, CountersGrow;
    SameCounters(m, Syscall(m, a).0);
  }

  lemma LoopCounters(m: State, id: nat, out: u64, dst: u64)
    requires Running(m)
    ensures CountersGrow(m, RecvLoop(m, id, out, dst).0)
    ensures CountersGrow(m, WaitLoop(m, id).0) && CountersGrow(m, WaitPidLoop(m, id).0)
  {
    hide PickNext, FindPid, UserBuffer, Insert, CountersGrow;
    SameCounters(m, RecvLoop(m, id, out, dst).0);
    SameCounters(m, WaitLoop(m, id).0);
    SameCounters(m, WaitPidLoop(m, id).0);
  }

  lemma NextCounters(m: State, a: Action)
    requires Awake(m)
    ensures CountersGrow(m, Next(m, a))
  {
    hide Syscall, RecvLoop, WaitLoop, WaitPidLoop, CountersGrow;
    if m.halted {
      SameCounters(m, m);
    } else {
      match Cur(m).resume
      case InRecv(id, out, dst) => LoopCounters(m, id, out, dst);
      case InWait(id) => LoopCounters(m, id, 0, 0);
      case InWaitPid(target) => LoopCounters(m, target, 0, 0);
      case Abandoned => SameCounters(m, m);
      case InUser =>
        match a
        case FrameAlloc(_, _, _) => FrameAllocCounters(m, a);
        case MapFrame(_, _) => MappingCounters(m, a);
        case DmaAlloc(_, _) => DmaCounters(m, a);
        case IoMap(_, _) => MappingCounters(m, a);
        case Spawn(_) => CreationCounters(m, a);
        case SpawnEnv(_, _, _) => CreationCounters(m, a);
        case Sbrk(_) => CreationCounters(m, a);
        case _ => PlainCounters(m, a);
    }
  }

  lemma {:induction false} RunCounters(m: State, actions: seq<Action>)
    requires KernelRuns.Sound(m)
    ensures KernelRuns.Sound(After(m, actions)) && CountersGrow(m, After(m, actions))
  {
    hide Awake, KernelRuns.Sound, Next;
    if actions == [] {
      SameCounters(m, m);
    } else {
      var init, a := actions[..|actions| - 1], actions[|actions| - 1];
      RunCounters(m, init);
      KernelRuns.NextSound(After(m, init), a);
      NextCounters(After(m, init), a);
    }
  }

  lemma BootCounters(m: State)
    requires Boot(m)
    ensures CountersIn(m)
  {
    hide CreateSpace, SeedCaps, KernelOnly;
  }

  // ----- Any two windows of a run -----

  // Two windows opened anywhere in a run from boot, whoever asked for them, have no
  // address in common; of one kind, the later lies behind the earlier.
  lemma WindowsApart(m: State, before: seq<Action>, a: Action, later: seq<Action>, b: Action, k1: Kind, at1: nat,
                     n1: nat, k2: Kind, at2: nat, n2: nat)
    requires Boot(m) && Opens(After(m, before), a, k1, at1, n1)
    requires Opens(Continued(m, before, a, later), b, k2, at2, n2)
    ensures at1 + n1 * PAGE <= at2 || at2 + n2 * PAGE <= at1
    ensures k1 == k2 ==> at1 + n1 * PAGE <= at2
  {
    hide Boot, Opens, After, Next, KernelRuns.Sound;
    var v := After(m, before);
    var y := Next(v, a);
    KernelRuns.BootSafe(m);
    BootCounters(m);
    RunCounters(m, before);
    KernelRuns.NextSound(v, a);
    NextCounters(v, a);
    RunCounters(y, later);
    OpensAdvances(v, a, k1, at1, n1);
    OpensAdvances(After(y, later), b, k2, at2, n2);
    assert NextOf(y, k1) <= NextOf(After(y, later), k1);
    assert StartOf(k1) <= NextOf(v, k1) && StartOf(k2) <= NextOf(After(y, later), k2);
  }
}
