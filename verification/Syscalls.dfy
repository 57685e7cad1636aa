// What each system call does to the kernel state, and the step relation built
// from them. One step is the code that runs between two points at which another
// process may run.
module Syscalls {
  import opened Base
  import opened Capability
  import opened AddressSpace
  import ElfImage
  import opened Machine

  datatype Action =
    | Send(epSlot: u64, word: u64, capSlot: u64)
    | Recv(epSlot: u64, out: u64, dst: u64)
    | Signal(slot: u64, bits: bv64)
    | Wait(slot: u64)
    | Yield
    | Quit(code: u64)
    | Fault
    | Kill(procSlot: u64, signal: u64)
    | WaitPid(procSlot: u64)
    | GetStatus(procSlot: u64)
    | Grant(procSlot: u64, src: u64, dstSlot: u64)
    | Spawn(capSlot: u64)
    | SpawnEnv(envp: u64, len: u64, capSlot: u64)
    | FrameAlloc(pages: u64, capSlot: u64, outPtr: u64)
    | MapFrame(capSlot: u64, outPtr: u64)
    | DmaAlloc(length: u64, outPtr: u64)
    | IoMap(phys: u64, length: u64)
    | Sbrk(delta: int)

  // ----- Capability lookups -----

  function CurObject(m: State, slot: nat, kind: CapType): Option<nat>
    requires Running(m)
  {
    match Get(Cur(m).caps, slot)
    case Some(c) => if c.capType == kind then Some(c.obj) else None
    case None => None
  }

  // ----- Messages -----

  function SysSend(m: State, epSlot: nat, word: u64, capSlot: nat): (State, Reply)
    requires Running(m)
  {
    match CurObject(m, epSlot, Endpoint)
    case None => (m, Refused())
    case Some(ep) =>
      var cap := if capSlot == U64_MAX then None else Get(Cur(m).caps, capSlot);
      if capSlot != U64_MAX && cap.None? then (m, Refused())
      else if ep >= |m.queues| then (m, Refused())
      else
        var msg := Message(word, cap);
        var queued := Logged(m.(queues := m.queues[ep := m.queues[ep] + [msg]]), Sent(ep, msg));
        (Wake(queued, OnEndpoint(ep)), Returned(0, []))
  }

  ghost function SysRecv(m: State, epSlot: nat, out: u64, dst: u64): (State, Reply)
    requires Running(m)
  {
    match CurObject(m, epSlot, Endpoint)
    case None => (m, Refused())
    case Some(ep) => RecvLoop(m, ep, out, dst)
  }

  function Pop(m: State, ep: nat): State
    requires Running(m) && ep < |m.queues| && m.queues[ep] != []
  {
    Logged(SetProc(m, m.current, Cur(m).(resume := InUser)).(queues := m.queues[ep := m.queues[ep][1..]]),
           Popped(ep, m.queues[ep][0]))
  }

  // One turn of the receive loop: take the head message, or block.
  ghost function RecvLoop(m: State, ep: nat, out: u64, dst: u64): (State, Reply)
    requires Running(m)
  {
    if ep < |m.queues| && m.queues[ep] != [] then
      var msg := m.queues[ep][0];
      var popped := Pop(m, ep);
      if msg.cap.Some? && dst != U64_MAX && !CanInsert(Cur(m).caps, dst) then (popped, Refused())
      else
        var got := if msg.cap.Some? && dst != U64_MAX
                   then SetCaps(popped, m.current, Insert(Cur(m).caps, dst, msg.cap.value))
                   else popped;
        if UserBuffer(m, out, 8) then (got, Returned(0, [msg.word])) else (got, Refused())
    else (BlockOn(SetProc(m, m.current, Cur(m).(resume := InRecv(ep, out, dst))), OnEndpoint(ep)), Parked)
  }

  // ----- Notifications -----

  function SysSignal(m: State, slot: nat, bits: bv64): (State, Reply)
    requires Running(m)
  {
    match CurObject(m, slot, Notification)
    case None => (m, Refused())
    case Some(id) =>
      if id >= |m.words| then (m, Refused())
      else
        var signalled := Logged(m.(words := m.words[id := Or(m.words[id], bits)]), Signalled(id, bits));
        (Wake(signalled, OnNotification(id)), Returned(0, []))
  }

  function SysWait(m: State, slot: nat): (State, Reply)
    requires Running(m)
  {
    match CurObject(m, slot, Notification)
    case None => (m, Signals(0))
    case Some(id) => WaitLoop(m, id)
  }

  function WaitLoop(m: State, id: nat): (State, Reply)
    requires Running(m)
  {
    if id < |m.words| && m.words[id] != 0 then
      (Logged(SetProc(m, m.current, Cur(m).(resume := InUser)).(words := m.words[id := 0]), Took(id, m.words[id])),
       Signals(m.words[id]))
    else (BlockOn(SetProc(m, m.current, Cur(m).(resume := InWait(id))), OnNotification(id)), Parked)
  }

  // ----- Processes -----

  function KillPid(m: State, pid: nat, signal: u64): (State, Reply) {
    if pid == 0 then (m, Refused())
    else
      match FindPid(m.procs, pid, 0)
      case None => (m, Refused())
      case Some(i) =>
        if m.procs[i].state == Done then (m, Refused())
        else
          (Logged(SetProc(m, i, m.procs[i].(exitCode := signal, state := Done)), Ended(pid, signal)), Returned(0, []))
  }

  function SysKill(m: State, procSlot: nat, signal: u64): (State, Reply)
    requires Running(m)
  {
    match CurObject(m, procSlot, Process)
    case None => (m, Refused())
    case Some(pid) => KillPid(m, pid, signal)
  }

  function SysWaitPid(m: State, procSlot: nat): (State, Reply)
    requires Running(m)
  {
    match CurObject(m, procSlot, Process)
    case None => (m, Refused())
    case Some(pid) => if pid == 0 then (m, Refused()) else WaitPidLoop(m, pid)
  }

  // One turn of the wait loop: collect the exit code, or yield and look again.
  function WaitPidLoop(m: State, target: nat): (State, Reply)
    requires Running(m)
  {
    var back := SetProc(m, m.current, Cur(m).(resume := InUser));
    if Cur(m).pid == target then (back, Refused())
    else
      match FindPid(m.procs, target, 0)
      case None => (back, Refused())
      case Some(i) =>
        if m.procs[i].state == Done then
          (Logged(back, Reaped(Cur(m).pid, target, m.procs[i].exitCode)), Returned(m.procs[i].exitCode, []))
        else (YieldNow(SetProc(m, m.current, Cur(m).(resume := InWaitPid(target)))), Parked)
  }

  function SysGetStatus(m: State, procSlot: nat): Reply
    requires Running(m)
  {
    match CurObject(m, procSlot, Process)
    case None => Refused()
    case Some(pid) =>
      match FindPid(m.procs, pid, 0)
      case None => Returned(2, [])
      case Some(i) => Returned(if m.procs[i].state == Done then 1 else 0, [])
  }

  function SysGrant(m: State, procSlot: nat, src: nat, dst: nat): (State, Reply)
    requires Running(m)
  {
    match CurObject(m, procSlot, Process)
    case None => (m, Refused())
    case Some(pid) =>
      match Get(Cur(m).caps, src)
      case None => (m, Refused())
      case Some(cap) =>
        match FindPid(m.procs, pid, 0)
        case None => (m, Refused())
        case Some(i) =>
          if CanInsert(m.procs[i].caps, dst)
          then (SetCaps(m, i, Insert(m.procs[i].caps, dst, cap)), Returned(0, []))
          else (m, Refused())
  }

  // ----- Process creation -----

  function SeedCaps(pid: nat): Slots {
    var base := seq(CAP_SLOTS, _ => None)
        [3 := Some(EndpointCap(0))][4 := Some(EndpointCap(1))][5 := Some(NotificationCap(0))];
    if pid != 0 then base
    else
      base[0 := Some(IoPortCap(PCI_IO_BASE, PCI_IO_COUNT))]
          [1 := Some(IoMemCap(MMIO_BASE, MMIO_END - MMIO_BASE))]
          [2 := Some(UntypedCap(DMA_BUDGET))]
  }

  // Read-write, non-executable pages from `va` on.
  function DataPages(va: nat, n: nat): seq<PagePlan> {
    seq(n, i requires 0 <= i < n => PagePlan(va + i * PAGE, true, false))
  }

  // A new address space holding the image and a user stack.
  ghost function CreateSpace(vm: Vm, image: seq<byte>): (r: (Vm, Option<(nat, nat)>))
    ensures r.1.Some? ==> r.1.value.0 in r.0.spaces
    ensures vm.spaces.Keys <= r.0.spaces.Keys
  {
    var (v1, root) := NewSpace(vm);
    match root
    case None => (v1, None)
    case Some(space) =>
      var (v2, loaded) := ElfImage.LoadInto(v1, space, image);
      match loaded
      case Failed(_) => (v2, None)
      case Entry(entry) =>
        var (v3, b) := AllocMapAll(v2, space, DataPages(USER_STACK_VA, USER_STACK_PAGES));
        if b == Backed then (v3, Some((space, entry))) else (v3, None)
  }

  function NewProc(pid: nat, space: nat, entry: nat): Proc {
    Proc(pid, space, entry, Ready, InUser, 0, SeedCaps(pid), HEAP_START, 0, 0)
  }

  // Give the parent its handle and add the child, or leave the table alone.
  function AddChild(m: State, child: Proc, capSlot: nat): (State, Reply)
    requires Running(m)
  {
    if capSlot != U64_MAX && !CanInsert(Cur(m).caps, capSlot) then (m, Refused())
    else
      var handed := if capSlot == U64_MAX then m
                    else SetCaps(m, m.current, Insert(Cur(m).caps, capSlot, ProcessCap(child.pid)));
      (Logged(handed.(procs := handed.procs + [child], nextPid := m.nextPid + 1), Spawned(child.pid)),
       Returned(child.pid, []))
  }

  ghost function SysSpawn(m: State, capSlot: nat): (State, Reply)
    requires Running(m)
  {
    var (vm, made) := CreateSpace(m.vm, m.image);
    match made
    case None => (m.(vm := vm), Refused())
    case Some((space, entry)) => AddChild(m.(vm := vm), NewProc(m.nextPid, space, entry), capSlot)
  }

  ghost function SysSpawnEnv(m: State, envp: nat, len: nat, capSlot: nat): (State, Reply)
    requires Running(m)
  {
    if len == 0 || envp == 0 then SysSpawn(m, capSlot)
    else
      var (vm, made) := CreateSpace(m.vm, m.image);
      match made
      case None => (m.(vm := vm), Refused())
      case Some((space, entry)) =>
        if envp + len >= USER_ADDR_MAX || Cur(m).space !in vm.spaces
           || !UserRange(vm.spaces[Cur(m).space], envp, len, false)
        then (m.(vm := vm), Refused())
        else
          var pages := DivCeil(len, PAGE);
          var (copied, b) := AllocMapAll(vm, space, DataPages(HEAP_START, pages));
          if b != Backed then (m.(vm := copied), Refused())
          else
            AddChild(m.(vm := copied),
                     NewProc(m.nextPid, space, entry).(
                       heapBreak := HEAP_START + pages * PAGE, envpUser := HEAP_START, envpLen := len),
                     capSlot)
  }

  // ----- Memory -----

  // Take the next part of a mapping window and map physical pages there.
  function MapWindow(m: State, next: nat, end: nat, phys: nat, pages: nat, device: bool): (r: (Vm, bool))
    requires Running(m) && Cur(m).space in m.vm.spaces
    ensures r.0.spaces.Keys == m.vm.spaces.Keys
  {
    if next + pages * PAGE > end then (m.vm, false)
    else MapRange(m.vm, Cur(m).space, next, phys, pages, device)
  }

  // FRAME_ALLOC between its charge and its reply: the run, whether it was mapped,
  // and whether the whole call succeeds.
  ghost predicate FrameAllocAccepted(m: State, mapped: State, ok: bool, capSlot: nat, outPtr: nat)
    requires Running(m) && Running(mapped)
  {
    ok && UserBuffer(mapped, outPtr, 8) && CanInsert(Cur(m).caps, capSlot)
  }

  ghost function SysFrameAlloc(m: State, pages: nat, capSlot: nat, outPtr: nat): (State, Reply)
    requires Running(m) && Cur(m).space in m.vm.spaces
  {
    if pages == 0 || pages > MAX_SHARED_PAGES then (m, Refused())
    else
      var need := pages * PAGE;
      var (charged, paid) := Charge(Cur(m).caps, need);
      if !paid then (m, Refused())
      else
        var c := SetCaps(m, m.current, charged);
        var (vm, run) := AllocRun(m.vm, pages, None);
        match run
        case None => (SetCaps(m.(vm := vm), m.current, Refund(charged, need)), Refused())
        case Some(phys) =>
          var granted := c.(vm := vm);
          var (mapped, ok) := MapWindow(granted, m.nextShared, SHARED_VA_END, phys, pages, false);
          var after := granted.(vm := mapped, nextShared := if ok then m.nextShared + pages * PAGE else m.nextShared);
          if FrameAllocAccepted(m, after, ok, capSlot, outPtr) then
            (Logged(SetCaps(after, m.current, Insert(charged, capSlot, FrameCap(phys, pages))),
                    Pinned(Cur(m).pid, pages)),
             Returned(0, [m.nextShared]))
          else
            (SetCaps(after.(vm := FreeRun(mapped, phys, pages)), m.current, Refund(charged, need)), Refused())
  }

  ghost function SysMapFrame(m: State, capSlot: nat, outPtr: nat): (State, Reply)
    requires Running(m) && Cur(m).space in m.vm.spaces
  {
    match Get(Cur(m).caps, capSlot)
    case None => (m, Refused())
    case Some(cap) =>
      if cap.capType != Frame then (m, Refused())
      else
        var (vm, ok) := MapWindow(m, m.nextShared, SHARED_VA_END, cap.obj, cap.badge, false);
        if !ok then (m.(vm := vm), Refused())
        else
          var after := m.(vm := vm, nextShared := m.nextShared + cap.badge * PAGE);
          if UserBuffer(after, outPtr, 8) then (after, Returned(0, [m.nextShared])) else (after, Refused())
  }

  ghost function SysDmaAlloc(m: State, len: nat, outPtr: nat): (State, Reply)
    requires Running(m) && Cur(m).space in m.vm.spaces
  {
    if len == 0 || len > 0x10_0000 then (m, Refused())
    else
      var pages := DivCeil(len, PAGE);
      var need := pages * PAGE;
      var (charged, paid) := Charge(Cur(m).caps, need);
      if !paid then (m, Refused())
      else
        var c := SetCaps(m, m.current, charged);
        var (vm, run) := AllocRun(m.vm, pages, Some(Cur(m).space));
        match run
        case None => (SetCaps(m.(vm := vm), m.current, Refund(charged, need)), Refused())
        case Some(phys) =>
          var granted := c.(vm := vm);
          var (mapped, ok) := MapWindow(granted, m.nextDma, DMA_VA_END, phys, pages, false);
          var after := granted.(vm := mapped, nextDma := if ok then m.nextDma + pages * PAGE else m.nextDma);
          if ok && UserBuffer(after, outPtr, 16) then
            (Logged(after, Pinned(Cur(m).pid, pages)), Returned(0, [m.nextDma, phys]))
          else (SetCaps(after, m.current, Refund(charged, need)), Refused())
  }

  function SysIoMap(m: State, phys: nat, len: nat): (State, Reply)
    requires Running(m) && Cur(m).space in m.vm.spaces
  {
    if len == 0 || len > 0x100_0000 then (m, Refused())
    else
      var base := PageDown(phys);
      var pages := DivCeil(phys - base + len, PAGE);
      if !SlotsAuthorizeMmio(Cur(m).caps, base, pages * PAGE) then (m, Refused())
      else
        var (vm, ok) := MapWindow(m, m.nextMmio, MMIO_VA_END, base, pages, true);
        if !ok then (m.(vm := vm), Refused())
        else
          (m.(vm := vm, nextMmio := m.nextMmio + pages * PAGE),
           Returned(m.nextMmio + (phys - base), []))
  }

  ghost function SysSbrk(m: State, delta: int): (State, Reply)
    requires Running(m) && Cur(m).space in m.vm.spaces
  {
    var before := Cur(m).heapBreak;
    var after := before + delta;
    if delta == 0 then (m, Returned(before, []))
    else if after < HEAP_START || after > HEAP_MAX then (m, Refused())
    else
      var from, to := PageUp(before), PageUp(after);
      var n := if delta > 0 && from < to then (to - from) / PAGE else 0;
      var (vm, b) := AllocMapAll(m.vm, Cur(m).space, DataPages(from, n));
      if b != Backed then (m.(vm := vm), Refused())
      else (SetProc(m.(vm := vm), m.current, Cur(m).(heapBreak := after)), Returned(before, []))
  }

  // ----- Steps -----

  ghost predicate Awake(m: State) {
    Running(m) && Cur(m).space in m.vm.spaces
  }

  ghost function Syscall(m: State, a: Action): (State, Reply)
    requires Awake(m)
  {
    match a
    case Send(epSlot, word, capSlot) => SysSend(m, epSlot, word, capSlot)
    case Recv(epSlot, out, dst) => SysRecv(m, epSlot, out, dst)
    case Signal(slot, bits) => SysSignal(m, slot, bits)
    case Wait(slot) => SysWait(m, slot)
    case Yield => (YieldNow(m), Returned(0, []))
    case Quit(code) => (Exit(m, code), Gone)
    case Fault => (Exit(m, EXIT_FAULT), Gone)
    case Kill(procSlot, signal) => SysKill(m, procSlot, signal)
    case WaitPid(procSlot) => SysWaitPid(m, procSlot)
    case GetStatus(procSlot) => (m, SysGetStatus(m, procSlot))
    case Grant(procSlot, src, dstSlot) => SysGrant(m, procSlot, src, dstSlot)
    case Spawn(capSlot) => SysSpawn(m, capSlot)
    case SpawnEnv(envp, len, capSlot) => SysSpawnEnv(m, envp, len, capSlot)
    case FrameAlloc(pages, capSlot, outPtr) => SysFrameAlloc(m, pages, capSlot, outPtr)
    case MapFrame(capSlot, outPtr) => SysMapFrame(m, capSlot, outPtr)
    case DmaAlloc(length, outPtr) => SysDmaAlloc(m, length, outPtr)
    case IoMap(phys, length) => SysIoMap(m, phys, length)
    case Sbrk(delta) => SysSbrk(m, delta)
  }

  // The current process either continues the loop it gave up the processor in, or
  // runs in user mode and makes the system call `a` (or takes a timer tick, which
  // is `Yield`, or a fatal exception).
  ghost function Step(m: State, a: Action): (State, Reply)
    requires Awake(m)
  {
    if m.halted then (m, Gone)
    else
      match Cur(m).resume
      case InRecv(id, out, dst) => RecvLoop(m, id, out, dst)
      case InWait(id) => WaitLoop(m, id)
      case InWaitPid(target) => WaitPidLoop(m, target)
      case InUser => Syscall(m, a)
      case Abandoned => (m, Gone)
  }

  ghost function Next(m: State, a: Action): State {
    if Awake(m) then Step(m, a).0 else m
  }

  // The state after a whole run.
  ghost function After(m: State, actions: seq<Action>): State {
    if actions == [] then m else Next(After(m, actions[..|actions| - 1]), actions[|actions| - 1])
  }

  // The state in which the kernel starts its one root process: some frames may
  // already hold kernel page tables, and one address space has been created.
  ghost predicate Boot(m: State) {
    && |m.procs| == 1 && m.procs[0] == NewProc(0, m.procs[0].space, m.procs[0].entry)
    && m.current == 0 && m.nextPid == 1 && !m.halted && m.log == []
    && m.queues == [[], [], [], []] && m.words == [0, 0, 0, 0]
    && m.nextMmio == MMIO_VA_START && m.nextDma == MMIO_VA_END && m.nextShared == DMA_VA_END
    && exists before: Vm ::
         KernelOnly(before) && CreateSpace(before, m.image) == (m.vm, Some((m.procs[0].space, m.procs[0].entry)))
  }

  // Before the first process only the kernel itself holds frames.
  ghost predicate KernelOnly(vm: Vm) {
    VmOk(vm) && vm.spaces == map[] && forall f :: f in vm.ledger ==> vm.ledger[f] == Kernel
  }
}
