// The kernel as it runs: the process table, the scheduler, endpoints,
// notifications and memory, updated in place by each system call.
module KernelObjects {
  import opened Base
  import FramePool
  import opened Capability
  import opened AddressSpace
  import opened Memory
  import opened UserMemory
  import ElfImage
  import ElfLoader
  import opened Machine
  import Syscalls
  import Spawning
  import KernelMemory
  import KernelRuns
  import KernelAuthority
  import KernelIsolation

  class Kernel {
    const memory: PhysicalMemory
    const image: seq<byte>
    const device: nat -> byte
    var procs: seq<Proc>
    var current: nat
    var nextPid: nat
    var queues: seq<seq<Message>>
    var words: seq<bv64>
    var nextMmio: nat
    var nextDma: nat
    var nextShared: nat
    var halted: bool
    ghost var log: seq<Event>

    ghost function View(): State
      reads this, memory, memory.frames
    {
      State(procs, current, nextPid, queues, words, memory.View(), nextMmio, nextDma, nextShared, halted, image, log)
    }

    ghost predicate Ok()
      reads this, memory, memory.frames
    {
      current < |procs| && memory.Ok()
    }

    constructor (memory: PhysicalMemory, image: seq<byte>, device: nat -> byte, first: Proc)
      ensures this.memory == memory && this.device == device && this.image == image
      ensures View() == State([first], 0, 1, [[], [], [], []], [0, 0, 0, 0], memory.View(),
                              MMIO_VA_START, MMIO_VA_END, DMA_VA_END, false, image, [])
    {
      this.memory, this.image, this.device := memory, image, device;
      procs, current, nextPid := [first], 0, 1;
      queues, words := [[], [], [], []], [0, 0, 0, 0];
      nextMmio, nextDma, nextShared := MMIO_VA_START, MMIO_VA_END, DMA_VA_END;
      halted, log := false, [];
    }

    // ----- Scheduling -----

    // The next ready process after the current one, in round-robin order.
    method PickNext() returns (r: Option<nat>)
      requires Ok()
      ensures r == Machine.PickNext(View())
    {
      hide PhysicalMemory.Ok;
      var n := |procs|;
      var off := 1;
      while off <= n
        invariant 1 <= off <= n + 1 && FindReady(View(), 1) == FindReady(View(), off)
      {
        var i := (current + off) % n;
        if procs[i].state == Ready {
          return Some(i);
        }
        off := off + 1;
      }
      r := None;
    }

    method Activate(i: nat)
      requires Ok() && i < |procs|
      modifies this
      ensures Ok() && View() == Machine.Activate(old(View()), i)
    {
      hide PhysicalMemory.Ok;
      current := i;
      log := log + [Switched(i)];
    }

    method YieldNow()
      requires Ok()
      modifies this
      ensures Ok() && View() == Machine.YieldNow(old(View()))
    {
      hide PhysicalMemory.Ok, Machine.PickNext;
      var next := PickNext();
      if next.Some? && next.value != current {
        Activate(next.value);
      }
    }

    method BlockOn(reason: BlockReason)
      requires Ok()
      modifies this
      ensures Ok() && View() == Machine.BlockOn(old(View()), reason)
    {
      hide PhysicalMemory.Ok, Machine.PickNext;
      var cur := current;
      procs := procs[cur := procs[cur].(state := Blocked(reason))];
      var next := PickNext();
      if next.None? {
        procs := procs[cur := procs[cur].(state := Ready)];
        return;
      }
      Activate(next.value);
    }

    // Every process blocked for this reason becomes ready.
    method Wake(reason: BlockReason)
      requires Ok()
      modifies this
      ensures Ok() && View() == Machine.Wake(old(View()), reason)
    {
      hide PhysicalMemory.Ok;
      for i := 0 to |procs|
        invariant View() == old(View()).(procs := procs) && |procs| == |old(procs)| && Ok()
        invariant forall j :: 0 <= j < |procs| ==>
                    procs[j] == if j < i then Woken(old(procs)[j], reason) else old(procs)[j]
      {
        if procs[i].state == Blocked(reason) {
          procs := procs[i := procs[i].(state := Ready)];
        }
      }
    }

    method ExitInner(code: u64)
      requires Ok()
      modifies this
      ensures Ok() && View() == Machine.Exit(old(View()), code)
    {
      hide PhysicalMemory.Ok, Machine.PickNext;
      procs := procs[current := procs[current].(exitCode := code, state := Done, resume := Abandoned)];
      log := log + [Ended(procs[current].pid, code)];
      var next := PickNext();
      if next.Some? {
        Activate(next.value);
      } else {
        halted := true;
      }
    }

    method Find(pid: nat) returns (r: Option<nat>)
      ensures r == FindPid(procs, pid, 0)
    {
      for i := 0 to |procs|
        invariant FindPid(procs, pid, 0) == FindPid(procs, pid, i)
      {
        if procs[i].pid == pid {
          return Some(i);
        }
      }
      r := None;
    }

    // The object named by a capability of this kind in a slot of the running process.
    method ObjectOf(slot: nat, kind: CapType) returns (r: Option<nat>)
      requires Ok()
      ensures r == Syscalls.CurObject(View(), slot, kind)
    {
      hide PhysicalMemory.Ok;
      match Get(procs[current].caps, slot) {
        case Some(c) => r := if c.capType == kind then Some(c.obj) else None;
        case None => r := None;
      }
    }

    // ----- Messages -----

    method SysSend(epSlot: nat, word: u64, capSlot: nat) returns (r: Reply)
      requires Ok()
      modifies this
      ensures Ok() && (View(), r) == Syscalls.SysSend(old(View()), epSlot, word, capSlot)
    {
      hide PhysicalMemory.Ok, Machine.Wake;
      var id := ObjectOf(epSlot, Endpoint);
      if id.None? {
        return Refused();
      }
      var cap := None;
      if capSlot != U64_MAX {
        cap := Get(procs[current].caps, capSlot);
        if cap.None? {
          return Refused();
        }
      }
      var ep := id.value;
      if ep >= |queues| {
        return Refused();
      }
      queues := queues[ep := queues[ep] + [Message(word, cap)]];
      log := log + [Sent(ep, Message(word, cap))];
      Wake(OnEndpoint(ep));
      r := Returned(0, []);
    }

    // ----- Replies -----

    // Among the frames that were issued before the call, only bytes of the caller's
    // reply buffer have changed, and the words of the reply are in it.
    ghost predicate Replied(v: Vm, before: seq<byte>, root: nat, ptr: nat, len: nat, r: Reply)
      reads memory, memory.ram
    {
      root in memory.spaces && RepliedIn(v, memory.spaces[root], before, memory.ram[..], ptr, len, r)
    }

    lemma NothingReplied(v: Vm, before: seq<byte>, root: nat, ptr: nat, len: nat, r: Reply)
      requires root in memory.spaces && KeepsBytes(v, before, memory.ram[..]) && (r.Returned? ==> r.out == [])
      ensures Replied(v, before, root, ptr, len, r)
    {
      KeptIsKeptBut(v, memory.spaces[root], before, memory.ram[..], ptr, len);
    }

    // Write the words of a reply to the running process's buffer.
    method StoreReply(ptr: nat, words: seq<nat>)
      requires Ok() && Syscalls.Awake(View()) && |words| <= 2
      modifies memory.ram
      ensures Ok()
      ensures OnlyAt(memory.spaces[procs[current].space], old(memory.ram[..]), memory.ram[..], ptr, 8 * |words|)
      ensures FramesAligned(memory.spaces[procs[current].space]) ==>
                Holds(memory.spaces[procs[current].space], memory.ram[..], ptr, WordBytes(words))
    {
      hide PhysicalMemory.Ok;
      Store(memory, procs[current].space, ptr, WordBytes(words));
    }

    method SysRecv(epSlot: nat, out: u64, dst: u64) returns (r: Reply)
      requires Ok() && Syscalls.Awake(View())
      modifies this, memory.ram
      ensures Ok() && (View(), r) == Syscalls.SysRecv(old(View()), epSlot, out, dst)
      ensures Replied(memory.View(), old(memory.ram[..]), old(procs[current].space), out, 8, r)
    {
      hide PhysicalMemory.Ok, Syscalls.RecvLoop, Replied, KeepsBytes;
      var id := ObjectOf(epSlot, Endpoint);
      if id.None? {
        Spawning.NoChange(memory.View(), memory.ram[..]);
        NothingReplied(memory.View(), memory.ram[..], procs[current].space, out, 8, Refused());
        return Refused();
      }
      r := RecvTurn(id.value, out, dst);
    }

    // One turn of the receive loop.
    method RecvTurn(ep: nat, out: u64, dst: u64) returns (r: Reply)
      requires Ok() && Syscalls.Awake(View())
      modifies this, memory.ram
      ensures Ok() && (View(), r) == Syscalls.RecvLoop(old(View()), ep, out, dst)
      ensures Replied(memory.View(), old(memory.ram[..]), old(procs[current].space), out, 8, r)
    {
      hide PhysicalMemory.Ok, Machine.BlockOn, UserBuffer, Replied, KeepsBytes, KeepsBut, OnlyAt, Holds;
      ghost var v, first, root := memory.View(), memory.ram[..], procs[current].space;
      Spawning.NoChange(v, first);
      NothingReplied(v, first, root, out, 8, Refused());
      NothingReplied(v, first, root, out, 8, Parked);
      if ep < |queues| && queues[ep] != [] {
        var writable := UserBufferOk(out, 8);
        var msg := queues[ep][0];
        queues := queues[ep := queues[ep][1..]];
        log := log + [Popped(ep, msg)];
        procs := procs[current := procs[current].(resume := InUser)];
        if msg.cap.Some? && dst != U64_MAX {
          if !CanInsert(procs[current].caps, dst) {
            return Refused();
          }
          procs := procs[current := procs[current].(caps := Insert(procs[current].caps, dst, msg.cap.value))];
        }
        if !writable {
          return Refused();
        }
        StoreReply(out, [msg.word]);
        WordsReplied(v, first, first, root, out, [msg.word]);
        return Returned(0, [msg.word]);
      }
      procs := procs[current := procs[current].(resume := InRecv(ep, out, dst))];
      BlockOn(OnEndpoint(ep));
      r := Parked;
    }

    lemma WordsReplied(v: Vm, before: seq<byte>, now: seq<byte>, root: nat, ptr: nat, words: seq<nat>)
      requires root in memory.spaces && KeepsBytes(v, before, now)
      requires OnlyAt(memory.spaces[root], now, memory.ram[..], ptr, 8 * |words|)
      requires FramesAligned(memory.spaces[root]) ==> Holds(memory.spaces[root], memory.ram[..], ptr, WordBytes(words))
      ensures Replied(v, before, root, ptr, 8 * |words|, Returned(0, words))
      ensures Replied(v, before, root, ptr, 8 * |words|, Refused())
    {
      KeptThenStored(v, memory.spaces[root], before, now, memory.ram[..], ptr, 8 * |words|);
    }

    // May the kernel write `len` bytes at user address `ptr` of the running process?
    method UserBufferOk(ptr: nat, len: nat) returns (ok: bool)
      requires Ok() && Syscalls.Awake(View())
      ensures ok <==> UserBuffer(View(), ptr, len)
    {
      hide PhysicalMemory.Ok, UserRange;
      if len == 0 || ptr == 0 || len > MAX_WRITE || ptr >= USER_ADDR_MAX || ptr + len > USER_ADDR_MAX {
        return false;
      }
      ok := memory.UserRangeOk(procs[current].space, ptr, len, true);
    }

    // ----- Notifications -----

    method SysSignal(slot: nat, bits: bv64) returns (r: Reply)
      requires Ok()
      modifies this
      ensures Ok() && (View(), r) == Syscalls.SysSignal(old(View()), slot, bits)
    {
      hide PhysicalMemory.Ok, Machine.Wake, Or;
      var id := ObjectOf(slot, Notification);
      if id.None? || id.value >= |words| {
        return Refused();
      }
      words := words[id.value := Or(words[id.value], bits)];
      log := log + [Signalled(id.value, bits)];
      Wake(OnNotification(id.value));
      r := Returned(0, []);
    }

    method SysWait(slot: nat) returns (r: Reply)
      requires Ok()
      modifies this
      ensures Ok() && (View(), r) == Syscalls.SysWait(old(View()), slot)
    {
      hide PhysicalMemory.Ok, Syscalls.WaitLoop;
      var id := ObjectOf(slot, Notification);
      if id.None? {
        return Signals(0);
      }
      r := WaitTurn(id.value);
    }

    // One turn of the wait loop.
    method WaitTurn(id: nat) returns (r: Reply)
      requires Ok()
      modifies this
      ensures Ok() && (View(), r) == Syscalls.WaitLoop(old(View()), id)
    {
      hide PhysicalMemory.Ok, Machine.BlockOn;
      if id < |words| && words[id] != 0 {
        var bits := words[id];
        words := words[id := 0];
        log := log + [Took(id, bits)];
        procs := procs[current := procs[current].(resume := InUser)];
        return Signals(bits);
      }
      procs := procs[current := procs[current].(resume := InWait(id))];
      BlockOn(OnNotification(id));
      r := Parked;
    }

    // ----- Processes -----

    method SysKill(procSlot: nat, signal: u64) returns (r: Reply)
      requires Ok()
      modifies this
      ensures Ok() && (View(), r) == Syscalls.SysKill(old(View()), procSlot, signal)
    {
      hide PhysicalMemory.Ok, FindPid;
      var pid := ObjectOf(procSlot, Process);
      if pid.None? || pid.value == 0 {
        return Refused();
      }
      var i := Find(pid.value);
      if i.None? || procs[i.value].state == Done {
        return Refused();
      }
      procs := procs[i.value := procs[i.value].(exitCode := signal, state := Done)];
      log := log + [Ended(pid.value, signal)];
      r := Returned(0, []);
    }

    method SysWaitPid(procSlot: nat) returns (r: Reply)
      requires Ok()
      modifies this
      ensures Ok() && (View(), r) == Syscalls.SysWaitPid(old(View()), procSlot)
    {
      hide PhysicalMemory.Ok, Syscalls.WaitPidLoop;
      var pid := ObjectOf(procSlot, Process);
      if pid.None? || pid.value == 0 {
        return Refused();
      }
      r := WaitPidTurn(pid.value);
    }

    // One turn of the loop that waits for a process to end.
    method WaitPidTurn(target: nat) returns (r: Reply)
      requires Ok()
      modifies this
      ensures Ok() && (View(), r) == Syscalls.WaitPidLoop(old(View()), target)
    {
      hide PhysicalMemory.Ok, FindPid, Machine.YieldNow;
      var i := Find(target);
      var p := procs[current];
      if p.pid == target || i.None? {
        procs := procs[current := p.(resume := InUser)];
        return Refused();
      }
      if procs[i.value].state == Done {
        var code := procs[i.value].exitCode;
        procs := procs[current := p.(resume := InUser)];
        log := log + [Reaped(p.pid, target, code)];
        return Returned(code, []);
      }
      procs := procs[current := p.(resume := InWaitPid(target))];
      YieldNow();
      r := Parked;
    }

    method SysGetStatus(procSlot: nat) returns (r: Reply)
      requires Ok()
      ensures r == Syscalls.SysGetStatus(View(), procSlot)
    {
      hide PhysicalMemory.Ok, FindPid;
      var pid := ObjectOf(procSlot, Process);
      if pid.None? {
        return Refused();
      }
      var i := Find(pid.value);
      r := if i.None? then Returned(2, []) else Returned(if procs[i.value].state == Done then 1 else 0, []);
    }

    method SysGrant(procSlot: nat, src: nat, dst: nat) returns (r: Reply)
      requires Ok()
      modifies this
      ensures Ok() && (View(), r) == Syscalls.SysGrant(old(View()), procSlot, src, dst)
    {
      hide PhysicalMemory.Ok, FindPid;
      var pid := ObjectOf(procSlot, Process);
      if pid.None? {
        return Refused();
      }
      var cap := Get(procs[current].caps, src);
      if cap.None? {
        return Refused();
      }
      var i := Find(pid.value);
      if i.None? || !CanInsert(procs[i.value].caps, dst) {
        return Refused();
      }
      procs := procs[i.value := procs[i.value].(caps := Insert(procs[i.value].caps, dst, cap.value))];
      r := Returned(0, []);
    }

    // ----- Process creation -----

    // Give the parent its handle and add the child to the table.
    method AddChild(child: Proc, capSlot: nat) returns (r: Reply)
      requires Ok()
      modifies this
      ensures Ok() && (View(), r) == Syscalls.AddChild(old(View()), child, capSlot)
      ensures |procs| > |old(procs)| ==> procs[|procs| - 1] == child
    {
      hide PhysicalMemory.Ok;
      if capSlot != U64_MAX {
        if !CanInsert(procs[current].caps, capSlot) {
          return Refused();
        }
        procs := procs[current := procs[current].(caps := Insert(procs[current].caps, capSlot, ProcessCap(child.pid)))];
      }
      procs := procs + [child];
      nextPid := nextPid + 1;
      log := log + [Spawned(child.pid)];
      r := Returned(child.pid, []);
    }

    // The space holds the image: each of its pages mapped, with the image's bytes.
    ghost predicate ImageLoaded(root: nat)
      reads memory, memory.frames, memory.ram
    {
      && ElfImage.CheckIdent(image).None? && ElfImage.ImageSegments(image).Some?
      && ElfLoader.ImagePresent(memory.View(), root, memory.ram[..], image, ElfImage.ImageSegments(image).value)
    }

    method SysSpawn(capSlot: nat) returns (r: Reply)
      requires Ok() && VmOk(memory.View())
      modifies this, memory, memory.frames, memory.ram
      ensures Ok() && (View(), r) == Syscalls.SysSpawn(old(View()), capSlot)
      ensures KeepsBytes(old(memory.View()), old(memory.ram[..]), memory.ram[..])
      ensures |procs| > |old(procs)| ==> ImageLoaded(procs[|procs| - 1].space)
    {
      hide PhysicalMemory.Ok, VmOk, Syscalls.CreateSpace, Syscalls.AddChild, Syscalls.SeedCaps, KeepsBytes,
        ElfLoader.ImagePresent, ElfImage.ImageSegments;
      var made := Spawning.CreateSpace(memory, image);
      if made.None? {
        return Refused();
      }
      r := AddChild(Syscalls.NewProc(nextPid, made.value.0, made.value.1), capSlot);
    }

    method SysSpawnEnv(envp: nat, len: nat, capSlot: nat) returns (r: Reply)
      requires Ok() && Syscalls.Awake(View()) && VmOk(memory.View())
      modifies this, memory, memory.frames, memory.ram
      ensures Ok() && (View(), r) == Syscalls.SysSpawnEnv(old(View()), envp, len, capSlot)
      ensures len > 0 && envp > 0 && |procs| > |old(procs)| ==>
                EnvironmentCopied(old(memory.spaces[procs[current].space]), old(memory.ram[..]), envp, len)
      ensures KeepsBytes(old(memory.View()), old(memory.ram[..]), memory.ram[..])
      ensures |procs| > |old(procs)| ==> ImageLoaded(procs[|procs| - 1].space)
    {
      hide PhysicalMemory.Ok, VmOk, Syscalls.CreateSpace, Syscalls.AddChild, Syscalls.SeedCaps, AllocMapAll,
        UserRange, DivCeil, Syscalls.DataPages, KeepsBytes, Spawning.UserReadFrom, Spawning.EnvByte,
        Syscalls.SysSpawn, ElfLoader.ImagePresent, ElfImage.ImageSegments, SpaceGrown, Extends;
      if len == 0 || envp == 0 {
        r := SysSpawn(capSlot);
        return;
      }
      ghost var v, first := memory.View(), memory.ram[..];
      var parent := procs[current].space;
      var made := Spawning.CreateSpace(memory, image);
      KernelMemory.CreateSpaceOk(v, image);
      if made.None? {
        return Refused();
      }
      var root := made.value.0;
      if envp + len >= USER_ADDR_MAX {
        return Refused();
      }
      var readable := memory.UserRangeOk(parent, envp, len, false);
      if !readable {
        return Refused();
      }
      ghost var u, bytes := memory.View(), memory.ram[..];
      var pages := DivCeil(len, PAGE);
      var b := Spawning.CopyEnvironment(memory, parent, root, device, envp, len);
      KernelMemory.OldExtends(v, u);
      KeepsBytesTwice(v, u, first, bytes, memory.ram[..]);
      ElfLoader.PresentLater(u, memory.View(), root, bytes, memory.ram[..], image, ElfImage.ImageSegments(image).value);
      if b != Backed {
        return Refused();
      }
      Spawning.SameEnvironment(v, parent, first, bytes, device, envp, len);
      r := AddChild(Syscalls.NewProc(nextPid, root, made.value.1).(
                      heapBreak := HEAP_START + pages * PAGE, envpUser := HEAP_START, envpLen := len), capSlot);
    }

    // The newest process finds the block at HEAP_START, then zeros up to its break.
    ghost predicate EnvironmentCopied(parent: Space, ram: seq<byte>, envp: nat, len: nat)
      reads this, memory, memory.ram
    {
      |procs| > 0 &&
      var child := procs[|procs| - 1];
      && child.envpUser == HEAP_START && child.envpLen == len
      && child.heapBreak == HEAP_START + DivCeil(len, PAGE) * PAGE
      && child.space in memory.spaces
      && forall k: nat :: k < DivCeil(len, PAGE) * PAGE ==>
                            Spawning.UserReadFrom(memory.spaces[child.space], memory.ram[..], device, HEAP_START, k)
                            == Spawning.EnvByte(parent, ram, device, envp, len, k)
    }

    // ----- Memory -----

    // Take the next part of a mapping window and map physical pages there.
    method MapWindow(next: nat, end: nat, phys: nat, pages: nat, uncached: bool) returns (ok: bool)
      requires Ok() && Syscalls.Awake(View())
      modifies memory, memory.frames
      ensures Ok() && (memory.View(), ok) == Syscalls.MapWindow(old(View()), next, end, phys, pages, uncached)
    {
      hide PhysicalMemory.Ok, MapRange;
      if next + pages * PAGE > end {
        return false;
      }
      ok := memory.MapRange(procs[current].space, next, phys, pages, uncached);
    }

    method ChargeUntyped(amount: nat) returns (ok: bool)
      requires Ok()
      modifies this
      ensures Ok() && ok == Charge(old(procs[current].caps), amount).1
      ensures View() == SetCaps(old(View()), old(current), Charge(old(procs[current].caps), amount).0)
      ensures !ok ==> View() == old(View())
    {
      hide PhysicalMemory.Ok, FindBudget;
      var (caps, paid) := Charge(procs[current].caps, amount);
      procs := procs[current := procs[current].(caps := caps)];
      ok := paid;
    }

    method RefundUntyped(amount: nat)
      requires Ok()
      modifies this
      ensures Ok() && View() == SetCaps(old(View()), old(current), Refund(old(procs[current].caps), amount))
    {
      hide PhysicalMemory.Ok, Refund;
      procs := procs[current := procs[current].(caps := Refund(procs[current].caps, amount))];
    }

    // The run behind a capability that FRAME_ALLOC has just installed is zero, but
    // for what the reply wrote into it.
    ghost predicate FreshRunZero(slot: nat, pages: nat, root: nat, ptr: nat, len: nat)
      reads this, memory, memory.ram
    {
      && current < |procs| && root in memory.spaces
      && var cap := Get(procs[current].caps, slot);
         && cap.Some? && cap.value.capType == Frame && cap.value.badge == pages
         && ZeroBut(cap.value.obj, pages, memory.spaces[root], memory.ram[..], ptr, len)
    }

    method SysFrameAlloc(pages: nat, capSlot: nat, outPtr: nat) returns (r: Reply)
      requires Ok() && Syscalls.Awake(View()) && VmOk(memory.View())
      modifies this, memory, memory.frames, memory.ram
      ensures Ok() && (View(), r) == Syscalls.SysFrameAlloc(old(View()), pages, capSlot, outPtr)
      ensures Replied(old(memory.View()), old(memory.ram[..]), old(procs[current].space), outPtr, 8, r)
      ensures r != Refused() ==> FreshRunZero(capSlot, pages, old(procs[current].space), outPtr, 8)
    {
      hide PhysicalMemory.Ok, VmOk, AllocRun, FreeRun, Syscalls.MapWindow, Charge, Refund, UserBuffer,
        FramePool.RunFrames, Replied, KeepsBytes, FreshRunZero;
      ghost var m, v, first, root := View(), memory.View(), memory.ram[..], procs[current].space;
      Spawning.NoChange(v, first);
      NothingReplied(v, first, root, outPtr, 8, Refused());
      if pages == 0 || pages > MAX_SHARED_PAGES {
        return Refused();
      }
      var need := pages * PAGE;
      var paid := ChargeUntyped(need);
      if !paid {
        return Refused();
      }
      var run := memory.AllocRun(pages, None);
      RunBytesKept(v, pages, None, run, first, memory.ram[..]);
      if run.None? {
        NothingReplied(v, first, root, outPtr, 8, Refused());
        RefundUntyped(need);
        assert View().procs == Syscalls.SysFrameAlloc(m, pages, capSlot, outPtr).0.procs;
        return Refused();
      }
      r := FrameAllocGranted(m, first, run.value, pages, capSlot, outPtr);
    }

    // The rest of FRAME_ALLOC once its run is granted: map it, hand out the
    // address and the capability, or unwind.
    method FrameAllocGranted(ghost m: State, ghost first: seq<byte>, phys: nat, pages: nat, capSlot: nat,
                             outPtr: nat) returns (r: Reply)
      requires Ok() && Syscalls.Awake(View()) && Syscalls.Awake(m) && VmOk(m.vm)
      requires 0 < pages <= MAX_SHARED_PAGES && Charge(Cur(m).caps, pages * PAGE).1
      requires AllocRun(m.vm, pages, None) == (memory.View(), Some(phys))
      requires View() == SetCaps(m, m.current, Charge(Cur(m).caps, pages * PAGE).0).(vm := memory.View())
      requires KeepsBytes(m.vm, first, memory.ram[..]) && ZeroRun(phys, pages, memory.ram[..])
      modifies this, memory, memory.frames, memory.ram
      ensures Ok() && (View(), r) == Syscalls.SysFrameAlloc(m, pages, capSlot, outPtr)
      ensures Replied(m.vm, first, Cur(m).space, outPtr, 8, r)
      ensures r != Refused() ==> FreshRunZero(capSlot, pages, Cur(m).space, outPtr, 8)
    {
      hide PhysicalMemory.Ok, VmOk, AllocRun, FreeRun, Syscalls.MapWindow, Charge, Refund, UserBuffer,
        FramePool.RunFrames, RepliedIn, KeepsBytes, ZeroRun, ZeroBut;
      var va := nextShared;
      ghost var granted := View();
      var mapped, writable := MapAndReply(m.vm, first, phys, pages, outPtr);
      RunStaysIssued(m.vm, granted, va, phys, pages);
      ChargeKeepsRoom(Cur(m).caps, pages * PAGE, capSlot);
      var accepted := writable && CanInsert(procs[current].caps, capSlot);
      assert accepted == Syscalls.FrameAllocAccepted(m, View(), mapped, capSlot, outPtr);
      if accepted {
        procs := procs[current := procs[current].(caps := Insert(procs[current].caps, capSlot, FrameCap(phys, pages)))];
        log := log + [Pinned(procs[current].pid, pages)];
        return Returned(0, [va]);
      }
      memory.FreeRun(phys, pages);
      RefundUntyped(pages * PAGE);
      r := Refused();
    }

    // Write a reply; a fresh run stays zero but for the reply's own bytes.
    method StoreFreshReply(ghost v: Vm, ghost first: seq<byte>, ghost phys: nat, ghost pages: nat, ptr: nat,
                           words: seq<nat>)
      requires Ok() && Syscalls.Awake(View()) && |words| <= 2
      requires KeepsBytes(v, first, memory.ram[..]) && ZeroRun(phys, pages, memory.ram[..])
      modifies memory.ram
      ensures Ok()
      ensures Replied(v, first, procs[current].space, ptr, 8 * |words|, Returned(0, words))
      ensures Replied(v, first, procs[current].space, ptr, 8 * |words|, Refused())
      ensures ZeroBut(phys, pages, memory.spaces[procs[current].space], memory.ram[..], ptr, 8 * |words|)
    {
      hide PhysicalMemory.Ok, Replied, KeepsBytes, ZeroRun, ZeroBut, OnlyAt, Holds;
      ghost var now, root := memory.ram[..], procs[current].space;
      StoreReply(ptr, words);
      WordsReplied(v, first, now, root, ptr, words);
      ZeroThenStored(phys, pages, memory.spaces[root], now, memory.ram[..], ptr, 8 * |words|) by {
        ZeroRunMeans(phys, pages, now);
      }
    }

    // Map a fresh run at the next shared address and, where the buffer can be written,
    // tell the caller that address.
    method MapAndReply(ghost v: Vm, ghost first: seq<byte>, phys: nat, pages: nat, outPtr: nat)
      returns (mapped: bool, writable: bool)
      requires Ok() && Syscalls.Awake(View())
      requires KeepsBytes(v, first, memory.ram[..]) && ZeroRun(phys, pages, memory.ram[..])
      modifies this, memory, memory.frames, memory.ram
      ensures Ok() && Syscalls.Awake(View())
      ensures var (vm, ok) := Syscalls.MapWindow(old(View()), old(nextShared), SHARED_VA_END, phys, pages, false);
        && mapped == ok
        && View() == old(View()).(vm := vm, nextShared := old(nextShared) + if ok then pages * PAGE else 0)
      ensures writable == (mapped && UserBuffer(View(), outPtr, 8))
      ensures Replied(v, first, old(procs[current].space), outPtr, 8, Refused())
      ensures writable ==>
                var root := old(procs[current].space);
                && Replied(v, first, root, outPtr, 8, Returned(0, [old(nextShared)]))
                && ZeroBut(phys, pages, memory.spaces[root], memory.ram[..], outPtr, 8)
    {
      hide PhysicalMemory.Ok, Syscalls.MapWindow, UserBuffer, RepliedIn, KeepsBytes, ZeroRun, ZeroBut;
      var va := nextShared;
      ghost var root := procs[current].space;
      mapped := MapWindow(va, SHARED_VA_END, phys, pages, false);
      NothingReplied(v, first, root, outPtr, 8, Refused());
      writable := false;
      if mapped {
        nextShared := va + pages * PAGE;
        writable := UserBufferOk(outPtr, 8);
        if writable {
          StoreFreshReply(v, first, phys, pages, outPtr, [va]);
        }
      }
    }

    method SysMapFrame(capSlot: nat, outPtr: nat) returns (r: Reply)
      requires Ok() && Syscalls.Awake(View())
      modifies this, memory, memory.frames, memory.ram
      ensures Ok() && (View(), r) == Syscalls.SysMapFrame(old(View()), capSlot, outPtr)
      ensures Replied(old(memory.View()), old(memory.ram[..]), old(procs[current].space), outPtr, 8, r)
    {
      hide PhysicalMemory.Ok, MapRange, UserBuffer, Replied, KeepsBytes, OnlyAt, Holds;
      ghost var v, first, root := memory.View(), memory.ram[..], procs[current].space;
      Spawning.NoChange(v, first);
      NothingReplied(v, first, root, outPtr, 8, Refused());
      var cap := Get(procs[current].caps, capSlot);
      if cap.None? || cap.value.capType != Frame {
        return Refused();
      }
      var va := nextShared;
      var mapped := MapWindow(va, SHARED_VA_END, cap.value.obj, cap.value.badge, false);
      NothingReplied(v, first, root, outPtr, 8, Refused());
      if !mapped {
        return Refused();
      }
      nextShared := va + cap.value.badge * PAGE;
      var writable := UserBufferOk(outPtr, 8);
      if !writable {
        return Refused();
      }
      StoreReply(outPtr, [va]);
      WordsReplied(v, first, first, root, outPtr, [va]);
      r := Returned(0, [va]);
    }

    // The buffer DMA_ALLOC reports is zero, but for what the reply wrote into it.
    ghost predicate DmaBufferZero(r: Reply, pages: nat, root: nat, ptr: nat)
      reads memory, memory.ram
    {
      && r.Returned? && |r.out| == 2 && root in memory.spaces
      && ZeroBut(r.out[1], pages, memory.spaces[root], memory.ram[..], ptr, 16)
    }

    method SysDmaAlloc(len: nat, outPtr: nat) returns (r: Reply)
      requires Ok() && Syscalls.Awake(View()) && VmOk(memory.View())
      modifies this, memory, memory.frames, memory.ram
      ensures Ok() && (View(), r) == Syscalls.SysDmaAlloc(old(View()), len, outPtr)
      ensures Replied(old(memory.View()), old(memory.ram[..]), old(procs[current].space), outPtr, 16, r)
      ensures r != Refused() ==> DmaBufferZero(r, DivCeil(len, PAGE), old(procs[current].space), outPtr)
    {
      hide PhysicalMemory.Ok, VmOk, AllocRun, Syscalls.MapWindow, Charge, Refund, UserBuffer, DivCeil, Replied,
        KeepsBytes, DmaBufferZero;
      ghost var m, v, first, root := View(), memory.View(), memory.ram[..], procs[current].space;
      Spawning.NoChange(v, first);
      NothingReplied(v, first, root, outPtr, 16, Refused());
      if len == 0 || len > 0x10_0000 {
        return Refused();
      }
      var pages := DivCeil(len, PAGE);
      var need := pages * PAGE;
      var paid := ChargeUntyped(need);
      if !paid {
        return Refused();
      }
      var run := memory.AllocRun(pages, Some(procs[current].space));
      RunBytesKept(v, pages, Some(root), run, first, memory.ram[..]);
      if run.None? {
        NothingReplied(v, first, root, outPtr, 16, Refused());
        RefundUntyped(need);
        assert View().procs == Syscalls.SysDmaAlloc(m, len, outPtr).0.procs;
        return Refused();
      }
      r := DmaGranted(m, first, run.value, len, outPtr);
    }

    // The rest of DMA_ALLOC once its run is granted: map it and report both addresses,
    // or give the budget back.
    method DmaGranted(ghost m: State, ghost first: seq<byte>, phys: nat, len: nat, outPtr: nat) returns (r: Reply)
      requires Ok() && Syscalls.Awake(View()) && Syscalls.Awake(m)
      requires 0 < len <= 0x10_0000 && Charge(Cur(m).caps, DivCeil(len, PAGE) * PAGE).1
      requires AllocRun(m.vm, DivCeil(len, PAGE), Some(Cur(m).space)) == (memory.View(), Some(phys))
      requires View()
            == SetCaps(m, m.current, Charge(Cur(m).caps, DivCeil(len, PAGE) * PAGE).0).(vm := memory.View())
      requires KeepsBytes(m.vm, first, memory.ram[..]) && ZeroRun(phys, DivCeil(len, PAGE), memory.ram[..])
      modifies this, memory, memory.frames, memory.ram
      ensures Ok() && (View(), r) == Syscalls.SysDmaAlloc(m, len, outPtr)
      ensures Replied(m.vm, first, Cur(m).space, outPtr, 16, r)
      ensures r != Refused() ==> DmaBufferZero(r, DivCeil(len, PAGE), Cur(m).space, outPtr)
    {
      hide PhysicalMemory.Ok, AllocRun, Syscalls.MapWindow, Charge, Refund, UserBuffer, DivCeil, RepliedIn, KeepsBytes,
        ZeroRun, ZeroBut;
      var pages := DivCeil(len, PAGE);
      var va := nextDma;
      ghost var root := Cur(m).space;
      var mapped := MapWindow(va, DMA_VA_END, phys, pages, false);
      if mapped {
        nextDma := va + pages * PAGE;
        var writable := UserBufferOk(outPtr, 16);
        if writable {
          StoreFreshReply(m.vm, first, phys, pages, outPtr, [va, phys]);
          log := log + [Pinned(procs[current].pid, pages)];
          return Returned(0, [va, phys]);
        }
      }
      NothingReplied(m.vm, first, root, outPtr, 16, Refused());
      RefundUntyped(pages * PAGE);
      r := Refused();
    }

    method SysIoMap(phys: nat, len: nat) returns (r: Reply)
      requires Ok() && Syscalls.Awake(View())
      modifies this, memory, memory.frames
      ensures Ok() && (View(), r) == Syscalls.SysIoMap(old(View()), phys, len)
    {
      hide PhysicalMemory.Ok, MapRange, SlotsAuthorizeMmio, DivCeil;
      if len == 0 || len > 0x100_0000 {
        return Refused();
      }
      var base := PageDown(phys);
      var pages := DivCeil(phys - base + len, PAGE);
      if !SlotsAuthorizeMmio(procs[current].caps, base, pages * PAGE) {
        return Refused();
      }
      var va := nextMmio;
      var mapped := MapWindow(va, MMIO_VA_END, base, pages, true);
      if !mapped {
        return Refused();
      }
      nextMmio := va + pages * PAGE;
      r := Returned(va + (phys - base), []);
    }

    method SysSbrk(delta: int) returns (r: Reply)
      requires Ok() && Syscalls.Awake(View()) && VmOk(memory.View())
      modifies this, memory, memory.frames, memory.ram
      ensures Ok() && (View(), r) == Syscalls.SysSbrk(old(View()), delta)
      ensures KeepsBytes(old(memory.View()), old(memory.ram[..]), memory.ram[..])
    {
      hide PhysicalMemory.Ok, AllocMapAll, VmOk, PageUp, FreshPages, KeepsBytes;
      ghost var v, first := memory.View(), memory.ram[..];
      Spawning.NoChange(v, first);
      var before: int := procs[current].heapBreak;
      var after := before + delta;
      if delta == 0 {
        return Returned(before, []);
      }
      if after < HEAP_START || after > HEAP_MAX {
        return Refused();
      }
      var from, to := PageUp(before), PageUp(after);
      var n := if delta > 0 && from < to then (to - from) / PAGE else 0;
      var b := memory.AllocMapAll(procs[current].space, Syscalls.DataPages(from, n));
      Spawning.FreshKeeps(v, memory.View(), procs[current].space, first, memory.ram[..]);
      if b != Backed {
        return Refused();
      }
      procs := procs[current := procs[current].(heapBreak := after)];
      r := Returned(before, []);
    }

    // ----- Steps -----

    method Syscall(a: Syscalls.Action) returns (r: Reply)
      requires Ok() && Syscalls.Awake(View()) && VmOk(memory.View())
      modifies this, memory, memory.frames, memory.ram
      ensures Ok() && (View(), r) == Syscalls.Syscall(old(View()), a)
      ensures var (ptr, len) := CallBuffer(a);
        Replied(old(memory.View()), old(memory.ram[..]), old(procs[current].space), ptr, len, r)
    {
      hide PhysicalMemory.Ok, VmOk, Syscalls.Syscall, Syscalls.SysRecv, Replied, KeepsBytes;
      ghost var m, v, first, root := View(), memory.View(), memory.ram[..], procs[current].space;
      if a.Recv? {
        RecvIs(m, a);
        r := SysRecv(a.epSlot, a.out, a.dst);
      } else if IsMemorySyscall(a) {
        r := MemorySyscall(a);
      } else {
        r := PlainSyscall(a);
        Spawning.NoChange(v, first);
        OtherReplies(m, a);
        NothingReplied(v, first, root, 0, 0, r);
      }
    }

    // The calls that touch neither address spaces nor user memory.
    method PlainSyscall(a: Syscalls.Action) returns (r: Reply)
      requires Ok() && Syscalls.Awake(View()) && !a.Recv? && !IsMemorySyscall(a)
      modifies this
      ensures Ok() && (View(), r) == Syscalls.Syscall(old(View()), a)
    {
      hide PhysicalMemory.Ok, Machine.Exit, Machine.YieldNow, Syscalls.SysSend, Syscalls.SysSignal, Syscalls.SysWait,
        Syscalls.SysKill, Syscalls.SysWaitPid, Syscalls.SysGetStatus, Syscalls.SysGrant;
      match a {
        case Send(epSlot, word, capSlot) => r := SysSend(epSlot, word, capSlot);
        case Signal(slot, bits) => r := SysSignal(slot, bits);
        case Wait(slot) => r := SysWait(slot);
        case Yield =>
          YieldNow();
          r := Returned(0, []);
        case Quit(code) =>
          ExitInner(code);
          r := Gone;
        case Fault =>
          ExitInner(EXIT_FAULT);
          r := Gone;
        case Kill(procSlot, signal) => r := SysKill(procSlot, signal);
        case WaitPid(procSlot) => r := SysWaitPid(procSlot);
        case GetStatus(procSlot) => r := SysGetStatus(procSlot);
        case Grant(procSlot, src, dstSlot) => r := SysGrant(procSlot, src, dstSlot);
      }
    }

    // The calls that may give an address space pages.
    method MemorySyscall(a: Syscalls.Action) returns (r: Reply)
      requires Ok() && Syscalls.Awake(View()) && VmOk(memory.View())
      requires IsMemorySyscall(a)
      modifies this, memory, memory.frames, memory.ram
      ensures Ok() && (View(), r) == Syscalls.Syscall(old(View()), a)
      ensures var (ptr, len) := CallBuffer(a);
        Replied(old(memory.View()), old(memory.ram[..]), old(procs[current].space), ptr, len, r)
    {
      hide PhysicalMemory.Ok, VmOk, Syscalls.SysSpawn, Syscalls.SysSpawnEnv, Syscalls.SysFrameAlloc,
        Syscalls.SysMapFrame, Syscalls.SysDmaAlloc, Syscalls.SysIoMap, Syscalls.SysSbrk, Replied, KeepsBytes,
        FreshRunZero, ZeroBut;
      ghost var m, v, first, root := View(), memory.View(), memory.ram[..], procs[current].space;
      if a.FrameAlloc? {
        r := SysFrameAlloc(a.pages, a.capSlot, a.outPtr);
      } else if a.MapFrame? {
        r := SysMapFrame(a.capSlot, a.outPtr);
      } else if a.DmaAlloc? {
        r := SysDmaAlloc(a.length, a.outPtr);
      } else {
        r := GrowingSyscall(a);
        OtherReplies(m, a);
        CallerKeepsSpace(m, a);
        NothingReplied(v, first, root, 0, 0, r);
      }
    }

    // Those of them that reply without a buffer.
    method GrowingSyscall(a: Syscalls.Action) returns (r: Reply)
      requires Ok() && Syscalls.Awake(View()) && VmOk(memory.View())
      requires a.Spawn? || a.SpawnEnv? || a.IoMap? || a.Sbrk?
      modifies this, memory, memory.frames, memory.ram
      ensures Ok() && (View(), r) == Syscalls.Syscall(old(View()), a)
      ensures KeepsBytes(old(memory.View()), old(memory.ram[..]), memory.ram[..])
    {
      hide PhysicalMemory.Ok, VmOk, Syscalls.SysSpawn, Syscalls.SysSpawnEnv, Syscalls.SysIoMap, Syscalls.SysSbrk,
        EnvironmentCopied, ImageLoaded, KeepsBytes;
      Spawning.NoChange(memory.View(), memory.ram[..]);
      match a {
        case Spawn(capSlot) => r := SysSpawn(capSlot);
        case SpawnEnv(envp, len, capSlot) => r := SysSpawnEnv(envp, len, capSlot);
        case IoMap(phys, length) => r := SysIoMap(phys, length);
        case Sbrk(delta) => r := SysSbrk(delta);
      }
    }

    // The code that runs between two points at which another process may run.
    method Step(a: Syscalls.Action) returns (r: Reply)
      requires Ok() && Syscalls.Awake(View()) && VmOk(memory.View())
      modifies this, memory, memory.frames, memory.ram
      ensures Ok() && (View(), r) == Syscalls.Step(old(View()), a)
      ensures Promises(old(View())) ==> (Promises(View()) <==> !KernelIsolation.FailsTooLate(old(View()), a))
      ensures var (ptr, len) := ReplyBuffer(old(View()), a);
        Replied(old(memory.View()), old(memory.ram[..]), old(procs[current].space), ptr, len, r)
    {
      hide PhysicalMemory.Ok, VmOk, Promises, Syscalls.Syscall, Syscalls.RecvLoop, Syscalls.WaitLoop,
        Syscalls.WaitPidLoop, KernelIsolation.FailsTooLate, Replied, KeepsBytes;
      ghost var v, first, root := memory.View(), memory.ram[..], procs[current].space;
      Spawning.NoChange(v, first);
      ghost var m := View();
      if Promises(m) {
        PromisesKeptIff(m, a);
      }
      assert Syscalls.Next(m, a) == Syscalls.Step(m, a).0;
      if halted {
        NothingReplied(v, first, root, ReplyBuffer(m, a).0, ReplyBuffer(m, a).1, Gone);
        return Gone;
      }
      match procs[current].resume {
        case InRecv(id, out, dst) => r := RecvTurn(id, out, dst);
        case InWait(id) =>
          r := WaitTurn(id);
          LoopReplies(m, id);
          NothingReplied(v, first, root, 0, 0, r);
        case InWaitPid(target) =>
          r := WaitPidTurn(target);
          LoopReplies(m, target);
          NothingReplied(v, first, root, 0, 0, r);
        case InUser => r := Syscall(a);
        case Abandoned =>
          r := Gone;
          NothingReplied(v, first, root, 0, 0, r);
      }
    }
  }

  // ----- Which buffer a step may write -----

  ghost predicate RepliedIn(v: Vm, space: Space, before: seq<byte>, after: seq<byte>, ptr: nat, len: nat, r: Reply) {
    && KeepsBut(v, space, before, after, ptr, len)
    && (r.Returned? && FramesAligned(space) ==> 8 * |r.out| <= len && Holds(space, after, ptr, WordBytes(r.out)))
  }

  predicate IsMemorySyscall(a: Syscalls.Action) {
    a.Spawn? || a.SpawnEnv? || a.FrameAlloc? || a.MapFrame? || a.DmaAlloc? || a.IoMap? || a.Sbrk?
  }

  // Address and length of the buffer that a system call replies into.
  function CallBuffer(a: Syscalls.Action): (nat, nat) {
    match a
    case Recv(_, out, _) => (out, 8)
    case FrameAlloc(_, _, outPtr) => (outPtr, 8)
    case MapFrame(_, outPtr) => (outPtr, 8)
    case DmaAlloc(_, outPtr) => (outPtr, 16)
    case _ => (0, 0)
  }

  function ReplyBuffer(m: State, a: Syscalls.Action): (nat, nat)
    requires Running(m)
  {
    match Cur(m).resume
    case InRecv(_, out, _) => (out, 8)
    case InUser => CallBuffer(a)
    case _ => (0, 0)
  }

  // Calls without a reply buffer return no words.
  lemma OtherReplies(m: State, a: Syscalls.Action)
    requires Syscalls.Awake(m) && CallBuffer(a) == (0, 0) && !a.Recv? && !a.FrameAlloc? && !a.MapFrame? && !a.DmaAlloc?
    ensures var r := Syscalls.Syscall(m, a).1; r.Returned? ==> r.out == []
  {
    hide MapRange, AllocMapAll, Syscalls.CreateSpace, Machine.PickNext, FindPid, UserRange, SlotsAuthorizeMmio, Get, Or;
  }

  lemma RecvIs(m: State, a: Syscalls.Action)
    requires Syscalls.Awake(m) && a.Recv?
    ensures Syscalls.Syscall(m, a) == Syscalls.SysRecv(m, a.epSlot, a.out, a.dst)
  {
    hide Syscalls.SysRecv;
  }

  lemma LoopReplies(m: State, id: nat)
    requires Running(m)
    ensures !Syscalls.WaitLoop(m, id).1.Returned?
    ensures Syscalls.WaitPidLoop(m, id).1.Returned? ==> Syscalls.WaitPidLoop(m, id).1.out == []
  {
    hide Machine.PickNext, FindPid;
  }

  lemma CallerKeepsSpace(m: State, a: Syscalls.Action)
    requires Syscalls.Awake(m)
    ensures Cur(m).space in Syscalls.Syscall(m, a).0.vm.spaces
  {
    hide Syscalls.Syscall;
    KernelRuns.SyscallSpaces(m, a);
    assert Cur(m).space in m.vm.spaces.Keys;
  }

  // ----- The whole kernel -----

  // Everything the kernel promises about its state between two steps.
  ghost predicate Promises(m: State) {
    KernelRuns.Sound(m) && KernelAuthority.AllLegitimate(m) && KernelMemory.MemoryOk(m)
  }

  // With the promises kept, the next step can be taken.
  lemma PromisesMean(m: State)
    requires Promises(m)
    ensures Syscalls.Awake(m) && VmOk(m.vm) && KernelAuthority.BudgetsFit(m)
  {
    hide KernelMemory.FrameCapsSound, KernelMemory.PagesEntitled;
    KernelRuns.NextSound(m, Syscalls.Yield);
    KernelAuthority.LegitimateBudgets(m);
  }

  // They all survive a step exactly when it is not a FRAME_ALLOC failing too late.
  lemma PromisesKeptIff(m: State, a: Syscalls.Action)
    requires Promises(m)
    ensures Promises(Syscalls.Next(m, a)) <==> !KernelIsolation.FailsTooLate(m, a)
  {
    hide Syscalls.Next, KernelMemory.MemoryOk, KernelAuthority.AllLegitimate;
    KernelRuns.NextSound(m, a);
    KernelAuthority.NextLegitimate(m, a);
    KernelIsolation.IsolationKeptIff(m, a);
  }

  lemma BootPromises(m: State)
    requires Syscalls.Boot(m)
    ensures Promises(m)
  {
    hide Syscalls.Boot, KernelMemory.MemoryOk, KernelAuthority.AllLegitimate, KernelRuns.Sound;
    KernelRuns.BootSafe(m);
    KernelAuthority.BootLegitimate(m);
    KernelIsolation.BootIsolated(m);
  }

  // Start the one root process, or fail for want of memory or on a bad image.
  method StartKernel(memory: PhysicalMemory, image: seq<byte>, device: nat -> byte) returns (r: Option<Kernel>)
    requires memory.Ok() && Syscalls.KernelOnly(memory.View())
    modifies memory, memory.frames, memory.ram
    ensures r.Some? <==> Syscalls.CreateSpace(old(memory.View()), image).1.Some?
    ensures r.Some? ==> fresh(r.value) && r.value.memory == memory && r.value.Ok()
    ensures r.Some? ==> Syscalls.Boot(r.value.View()) && Promises(r.value.View())
    ensures r.Some? ==> |r.value.procs| == 1 && r.value.ImageLoaded(r.value.procs[0].space)
    ensures KeepsBytes(old(memory.View()), old(memory.ram[..]), memory.ram[..])
  {
    hide PhysicalMemory.Ok, VmOk, Syscalls.CreateSpace, Syscalls.SeedCaps, Promises, KeepsBytes, ElfLoader.ImagePresent,
      ElfImage.ImageSegments;
    ghost var before := memory.View();
    var made := Spawning.CreateSpace(memory, image);
    if made.None? {
      return None;
    }
    var k := new Kernel(memory, image, device, Syscalls.NewProc(0, made.value.0, made.value.1));
    ghost var m := k.View();
    assert Syscalls.CreateSpace(before, m.image) == (m.vm, Some((m.procs[0].space, m.procs[0].entry)));
    BootPromises(k.View());
    r := Some(k);
  }

  ghost predicate ZeroRun(base: nat, n: nat, ram: seq<byte>) {
    forall x: nat :: base <= x < base + n * PAGE && x < |ram| ==> ram[x] == 0
  }

  lemma ZeroRunMeans(base: nat, n: nat, ram: seq<byte>)
    requires ZeroRun(base, n, ram)
    ensures forall x: nat :: base <= x < base + n * PAGE && x < |ram| ==> ram[x] == 0
  {
  }

  // Granting a run zeroes it and touches no frame issued before.
  lemma RunBytesKept(v: Vm, n: nat, privateTo: Option<nat>, run: Option<nat>, before: seq<byte>, after: seq<byte>)
    requires VmOk(v) && run == AllocRun(v, n, privateTo).1 && |after| == |before|
    requires forall x :: 0 <= x < |before| ==>
               after[x] == if run.Some? && run.value <= x < run.value + n * PAGE then 0 else before[x]
    ensures KeepsBytes(v, before, after) && (run.Some? ==> ZeroRun(run.value, n, after))
  {
    hide VmOk, AllocRun, FramePool.RunFrames;
    AllocRunOk(v, n, privateTo);
    if run.Some? {
      ZeroRunKeeps(v, run.value, n, before, after);
    }
  }

  // The frames of a run just granted are still issued when it comes to unwinding.
  lemma RunStaysIssued(v: Vm, m: State, va: nat, base: nat, n: nat)
    requires VmOk(v) && Syscalls.Awake(m) && AllocRun(v, n, None) == (m.vm, Some(base))
    ensures base % PAGE == 0
    ensures FramePool.RunFrames(base, n) <= Syscalls.MapWindow(m, va, SHARED_VA_END, base, n, false).0.pool.issued
  {
    hide VmOk, AllocRun, MapRange, RunOk, RunGranted, RangeOk, NewPagesWithin, FramePool.RunFrames;
    AllocRunOk(v, n, None);
    KernelMemory.GrantedRunOk(v, m.vm, base, n);
    KernelMemory.RunIsAligned(m.vm, base, n);
    KernelMemory.RunRangeOk(m.vm, Cur(m).space, base, n);
    KernelMemory.MapWindowOk(m, va, SHARED_VA_END, base, n, false);
    var w := Syscalls.MapWindow(m, va, SHARED_VA_END, base, n, false).0;
    KernelMemory.RunOkLater(m.vm, w, base, n);
    RunIssued(w, base, n);
  }

  lemma RunIssued(w: Vm, base: nat, n: nat)
    requires VmOk(w) && RunOk(w.pool, w.ledger, base, n)
    ensures FramePool.RunFrames(base, n) <= w.pool.issued
  {
    hide FramePool.Valid, RunsOk, FramePool.RunFrames;
    assert forall f :: f in w.ledger <==> f in w.ledger.Keys;
  }
}
