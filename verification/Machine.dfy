// The kernel as one state: processes, scheduler, endpoints, notifications and
// address spaces, together with the history of what happened.
module Machine {
  import opened Base
  import opened Capability
  import opened AddressSpace

  const CAP_SLOTS: nat := 64
  const NUM_ENDPOINTS: nat := 4
  const NUM_NOTIFICATIONS: nat := 4
  const EXIT_FAULT: u64 := 0x100

  const USER_STACK_VA: nat := 0x80_0000
  const USER_STACK_PAGES: nat := 16
  const HEAP_START: nat := 0x1000_0000
  const HEAP_MAX: nat := 0x2000_0000

  const MMIO_VA_START: nat := 0x5000_0000
  const MMIO_VA_END: nat := 0x6000_0000
  const DMA_VA_END: nat := 0x7000_0000
  const SHARED_VA_END: nat := 0x8000_0000
  const MAX_SHARED_PAGES: nat := 64
  const MAX_WRITE: nat := 0x10_0000

  const PCI_IO_BASE: nat := 0xc000
  const PCI_IO_COUNT: nat := 0x4000
  const DMA_BUDGET: nat := 256 * 1024

  datatype BlockReason = OnEndpoint(id: nat) | OnNotification(id: nat)

  datatype RunState = Ready | Blocked(reason: BlockReason) | Done

  // Where a process resumes when it is next made current: in user mode, or inside
  // the retry loop of a system call that gave up the processor.
  datatype Resume =
    | InUser
    | InRecv(id: nat, out: u64, dst: u64)
    | InWait(id: nat)
    | InWaitPid(target: nat)
    | Abandoned

  datatype Proc = Proc(
    pid: nat,
    space: nat,
    entry: nat,
    state: RunState,
    resume: Resume,
    exitCode: u64,
    caps: Slots,
    heapBreak: nat,
    envpUser: nat,
    envpLen: nat)

  datatype Message = Message(word: u64, cap: Option<CapEntry>)

  // History, in the order things happened.
  datatype Event =
    | Sent(ep: nat, msg: Message)
    | Popped(ep: nat, msg: Message)
    | Signalled(id: nat, bits: bv64)
    | Took(id: nat, bits: bv64)
    | Switched(to: nat)
    | Spawned(child: nat)
    | Ended(who: nat, code: u64)
    | Reaped(waiter: nat, target: nat, code: u64)
    | Pinned(owner: nat, pages: nat)

  datatype State = State(
    procs: seq<Proc>,
    current: nat,
    nextPid: nat,
    queues: seq<seq<Message>>,
    words: seq<bv64>,
    vm: Vm,
    nextMmio: nat,
    nextDma: nat,
    nextShared: nat,
    halted: bool,
    image: seq<byte>,
    log: seq<Event>)

  // What the running process sees: a return value with the words written to its
  // out pointer, taken signal bits, or nothing because it did not return.
  datatype Reply = Returned(rax: nat, out: seq<nat>) | Signals(bits: bv64) | Parked | Gone

  function Refused(): Reply {
    Returned(U64_MAX, [])
  }

  // ----- The running process -----

  predicate Running(m: State) {
    m.current < |m.procs|
  }

  function Cur(m: State): Proc
    requires Running(m)
  {
    m.procs[m.current]
  }

  function SetProc(m: State, i: nat, p: Proc): State
    requires i < |m.procs|
  {
    m.(procs := m.procs[i := p])
  }

  function SetCaps(m: State, i: nat, caps: Slots): State
    requires i < |m.procs|
  {
    SetProc(m, i, m.procs[i].(caps := caps))
  }

  function Logged(m: State, e: Event): State {
    m.(log := m.log + [e])
  }

  // ----- Scheduling -----

  function Slot(m: State, off: nat): nat
    requires |m.procs| > 0
  {
    (m.current + off) % |m.procs|
  }

  // The first ready process at cyclic offset `off` or later.
  function FindReady(m: State, off: nat): (r: Option<nat>)
    requires |m.procs| > 0 && off <= |m.procs| + 1
    ensures r.Some? ==> r.value < |m.procs| && m.procs[r.value].state == Ready
    decreases |m.procs| + 1 - off
  {
    if off > |m.procs| then None
    else if m.procs[Slot(m, off)].state == Ready then Some(Slot(m, off))
    else FindReady(m, off + 1)
  }

  function PickNext(m: State): (r: Option<nat>)
    requires |m.procs| > 0
    ensures r.Some? ==> r.value < |m.procs| && m.procs[r.value].state == Ready
  {
    FindReady(m, 1)
  }

  function Activate(m: State, i: nat): State {
    Logged(m.(current := i), Switched(i))
  }

  function YieldNow(m: State): State
    requires Running(m)
  {
    match PickNext(m)
    case None => m
    case Some(i) => if i == m.current then m else Activate(m, i)
  }

  function BlockOn(m: State, reason: BlockReason): State
    requires Running(m)
  {
    var blocked := SetProc(m, m.current, Cur(m).(state := Blocked(reason)));
    match PickNext(blocked)
    case None => SetProc(m, m.current, Cur(m).(state := Ready))
    case Some(i) => Activate(blocked, i)
  }

  function Woken(p: Proc, reason: BlockReason): Proc {
    if p.state == Blocked(reason) then p.(state := Ready) else p
  }

  function Wake(m: State, reason: BlockReason): State {
    m.(procs := seq(|m.procs|, i requires 0 <= i < |m.procs| => Woken(m.procs[i], reason)))
  }

  function Exit(m: State, code: u64): State
    requires Running(m)
  {
    var ended := Logged(SetProc(m, m.current, Cur(m).(exitCode := code, state := Done, resume := Abandoned)),
                        Ended(Cur(m).pid, code));
    match PickNext(ended)
    case None => ended.(halted := true)
    case Some(i) => Activate(ended, i)
  }

  // The first process with this PID, at or after index `i`.
  function FindPid(procs: seq<Proc>, pid: nat, i: nat): (r: Option<nat>)
    requires i <= |procs|
    ensures r.Some? ==> i <= r.value < |procs| && procs[r.value].pid == pid
    ensures r.None? ==> forall j :: i <= j < |procs| ==> procs[j].pid != pid
    decreases |procs| - i
  {
    if i == |procs| then None
    else if procs[i].pid == pid then Some(i)
    else FindPid(procs, pid, i + 1)
  }

  // ----- User buffers -----

  ghost predicate UserBuffer(m: State, ptr: nat, len: nat)
    requires Running(m)
  {
    && 0 < len <= MAX_WRITE && ptr != 0
    && ptr < USER_ADDR_MAX && ptr + len <= USER_ADDR_MAX
    && Cur(m).space in m.vm.spaces && UserRange(m.vm.spaces[Cur(m).space], ptr, len, true)
  }

  // ----- The histories of one endpoint and one notification -----

  function SentTo(log: seq<Event>, ep: nat): seq<Message> {
    if log == [] then []
    else
      var init, e := SentTo(log[..|log| - 1], ep), log[|log| - 1];
      if e.Sent? && e.ep == ep then init + [e.msg] else init
  }

  function PoppedFrom(log: seq<Event>, ep: nat): seq<Message> {
    if log == [] then []
    else
      var init, e := PoppedFrom(log[..|log| - 1], ep), log[|log| - 1];
      if e.Popped? && e.ep == ep then init + [e.msg] else init
  }

  function Or(a: bv64, b: bv64): bv64 {
    a | b
  }

  // The bits signalled since the last take.
  function Pending(log: seq<Event>, id: nat): bv64 {
    if log == [] then 0
    else
      var init, e := Pending(log[..|log| - 1], id), log[|log| - 1];
      if e.Signalled? && e.id == id then Or(init, e.bits)
      else if e.Took? && e.id == id then 0
      else init
  }

  function AllSignalled(log: seq<Event>, id: nat): bv64 {
    if log == [] then 0
    else
      var init, e := AllSignalled(log[..|log| - 1], id), log[|log| - 1];
      if e.Signalled? && e.id == id then Or(init, e.bits) else init
  }

  function AllTaken(log: seq<Event>, id: nat): bv64 {
    if log == [] then 0
    else
      var init, e := AllTaken(log[..|log| - 1], id), log[|log| - 1];
      if e.Took? && e.id == id then Or(init, e.bits) else init
  }

  // The pages a process has pinned by DMA_ALLOC and FRAME_ALLOC.
  function PinnedBy(log: seq<Event>, pid: nat): nat {
    if log == [] then 0
    else
      var init, e := PinnedBy(log[..|log| - 1], pid), log[|log| - 1];
      if e.Pinned? && e.owner == pid then init + e.pages else init
  }
}
