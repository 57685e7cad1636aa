// Building a new process's memory: its address space, and the environment block
// copied out of its parent's memory while the child is not yet running.
module Spawning {
  import opened Base
  import FramePool
  import opened AddressSpace
  import opened ElfImage
  import opened Memory
  import ElfLoader
  import opened Machine
  import Syscalls
  import KernelMemory

  // What a load from user address `va` returns; `device` says what device memory holds.
  function UserRead(space: Space, ram: seq<byte>, device: nat -> byte, va: nat): byte {
    if PageDown(va) !in space.pages then 0
    else
      var pte := space.pages[PageDown(va)];
      var pa := pte.frame + va % PAGE;
      if pte.device || pa >= |ram| then device(pa) else ram[pa]
  }

  method ReadUser(mem: PhysicalMemory, root: nat, device: nat -> byte, va: nat) returns (b: byte)
    requires root in mem.spaces
    ensures b == UserRead(mem.spaces[root], mem.ram[..], device, va)
  {
    var page := PageDown(va);
    if page !in mem.spaces[root].pages {
      return 0;
    }
    var pte := mem.spaces[root].pages[page];
    var pa := pte.frame + va % PAGE;
    b := if pte.device || pa >= mem.ram.Length then device(pa) else mem.ram[pa];
  }

  method CreateSpace(mem: PhysicalMemory, image: seq<byte>) returns (r: Option<(nat, nat)>)
    requires mem.Ok() && VmOk(mem.View())
    modifies mem, mem.frames, mem.ram
    ensures mem.Ok() && (mem.View(), r) == Syscalls.CreateSpace(old(mem.View()), image)
    ensures KeepsBytes(old(mem.View()), old(mem.ram[..]), mem.ram[..])
    ensures r.Some? ==> CheckIdent(image).None? && ImageSegments(image).Some?
    ensures r.Some? ==> ElfLoader.ImagePresent(mem.View(), r.value.0, mem.ram[..], image, ImageSegments(image).value)
  {
    hide VmOk, LoadInto, ImageSegments, ElfLoader.ImagePresent, SpaceGrown, AddressSpace.NewSpace, AllocMapAll,
      KeepsBytes, FramePool.Conserved, ElfLoader.Loads, Syscalls.DataPages, Extends;
    ghost var v, first := mem.View(), mem.ram[..];
    NewSpaceOk(v);
    var root := mem.NewSpace();
    NoChange(v, first);
    if root.None? {
      return None;
    }
    ghost var v1 := mem.View();
    KernelMemory.LoadIntoOk(v1, root.value, image);
    var loaded := ElfLoader.Load(mem, root.value, image);
    KeepsBytesTwice(v, v1, first, first, mem.ram[..]);
    if loaded.Failed? {
      return None;
    }
    ghost var v2, bytes := mem.View(), mem.ram[..];
    GrownOk(v1, v2, root.value);
    ExtendsTwice(v, v1, v2);
    var b := mem.AllocMapAll(root.value, Syscalls.DataPages(USER_STACK_VA, USER_STACK_PAGES));
    FreshKeeps(v2, mem.View(), root.value, bytes, mem.ram[..]);
    LoadedStays(v1, v2, mem.View(), root.value, first, bytes, mem.ram[..], image);
    KeepsBytesTwice(v, v2, first, bytes, mem.ram[..]);
    r := if b == Backed then Some((root.value, loaded.va)) else None;
  }

  lemma LoadedStays(v: Vm, w: Vm, x: Vm, root: nat, first: seq<byte>, before: seq<byte>, after: seq<byte>,
                    image: seq<byte>)
    requires VmOk(w) && CheckIdent(image).None? && ImageSegments(image).Some?
    requires ElfLoader.Loads(v, w, root, first, before, image, ImageSegments(image).value)
    requires FreshPages(w, x, root, before, after)
    ensures ElfLoader.ImagePresent(x, root, after, image, ImageSegments(image).value)
  {
    hide VmOk, ElfLoader.Loads, ElfLoader.ImagePresent, ImageSegments, KeepsBytes;
    ElfLoader.LoadsPresent(v, w, root, first, before, image, ImageSegments(image).value);
    ElfLoader.PresentLater(w, x, root, before, after, image, ImageSegments(image).value);
  }

  lemma NoChange(v: Vm, bytes: seq<byte>)
    ensures KeepsBytes(v, bytes, bytes)
  {
  }

  lemma ExtendsTwice(u: Vm, v: Vm, w: Vm)
    requires Extends(u, v) && Extends(v, w)
    ensures Extends(u, w)
  {
  }

  lemma FreshKeeps(v: Vm, w: Vm, root: nat, before: seq<byte>, after: seq<byte>)
    requires FreshPages(v, w, root, before, after)
    ensures KeepsBytes(v, before, after)
  {
    hide VmOk, KeepsBytes;
  }

  // ----- The environment block -----

  // The byte at offset k from a base address.
  function UserReadFrom(space: Space, ram: seq<byte>, device: nat -> byte, base: nat, k: nat): byte {
    UserRead(space, ram, device, base + k)
  }

  // The byte at offset k of the child's copy: the parent's, then zeros.
  function EnvByte(space: Space, ram: seq<byte>, device: nat -> byte, envp: nat, len: nat, k: nat): byte {
    if k < len then UserRead(space, ram, device, envp + k) else 0
  }

  // A frame holding page i of the block.
  ghost predicate EnvPage(bytes: seq<byte>, frame: nat, i: nat, space: Space, ram: seq<byte>, device: nat -> byte,
                          envp: nat, len: nat) {
    && frame % PAGE == 0 && frame + PAGE <= |bytes|
    && forall k: nat :: i * PAGE <= k < (i + 1) * PAGE ==>
            bytes[frame + (k - i * PAGE)] == EnvByte(space, ram, device, envp, len, k)
  }

  ghost predicate EnvPages(w: Vm, child: nat, bytes: seq<byte>, n: nat, space: Space, ram: seq<byte>,
                           device: nat -> byte, envp: nat, len: nat)
    requires child in w.spaces
  {
    forall i: nat :: i < n ==>
      && HEAP_START + i * PAGE in w.spaces[child].pages
      && var pte := w.spaces[child].pages[HEAP_START + i * PAGE];
         !pte.device && pte.frame in w.ledger && EnvPage(bytes, pte.frame, i, space, ram, device, envp, len)
  }

  // What the child will read: the parent's bytes, then zeros to the end of the page.
  lemma ChildReads(w: Vm, child: nat, bytes: seq<byte>, space: Space, ram: seq<byte>, device: nat -> byte, envp: nat,
                   len: nat, k: nat)
    requires child in w.spaces && EnvPages(w, child, bytes, DivCeil(len, PAGE), space, ram, device, envp, len)
    requires k < DivCeil(len, PAGE) * PAGE
    ensures UserReadFrom(w.spaces[child], bytes, device, HEAP_START, k)
              == if k < len then UserRead(space, ram, device, envp + k) else 0
  {
    var i := k / PAGE;
    var page := HEAP_START + i * PAGE;
    assert PageDown(HEAP_START + k) == page && (HEAP_START + k) % PAGE == k - i * PAGE;
    var pte := w.spaces[child].pages[page];
    assert EnvPage(bytes, pte.frame, i, space, ram, device, envp, len);
    assert bytes[pte.frame + (k - i * PAGE)] == EnvByte(space, ram, device, envp, len, k);
  }

  // Frames issued by then keep their bytes, so earlier pages of the copy stay put.
  lemma EnvPagesKept(v: Vm, w: Vm, child: nat, before: seq<byte>, after: seq<byte>, n: nat, space: Space,
                     ram: seq<byte>, device: nat -> byte, envp: nat, len: nat)
    requires SpaceGrown(v, w, child) && KeepsBytes(v, before, after)
    requires EnvPages(v, child, before, n, space, ram, device, envp, len)
    ensures EnvPages(w, child, after, n, space, ram, device, envp, len)
  {
    hide VmOk, EnvByte;
    forall i: nat | i < n
      ensures HEAP_START + i * PAGE in w.spaces[child].pages
      ensures var pte := w.spaces[child].pages[HEAP_START + i * PAGE];
         !pte.device && pte.frame in w.ledger && EnvPage(after, pte.frame, i, space, ram, device, envp, len)
    {
      var pte := v.spaces[child].pages[HEAP_START + i * PAGE];
      assert EnvPage(before, pte.frame, i, space, ram, device, envp, len);
      assert w.spaces[child].pages[HEAP_START + i * PAGE] == pte;
    }
  }

  lemma NextEnvPage(w: Vm, child: nat, bytes: seq<byte>, n: nat, space: Space, ram: seq<byte>, device: nat -> byte,
                    envp: nat, len: nat)
    requires child in w.spaces && EnvPages(w, child, bytes, n, space, ram, device, envp, len)
    requires HEAP_START + n * PAGE in w.spaces[child].pages
    requires var pte := w.spaces[child].pages[HEAP_START + n * PAGE];
         !pte.device && pte.frame in w.ledger && EnvPage(bytes, pte.frame, n, space, ram, device, envp, len)
    ensures EnvPages(w, child, bytes, n + 1, space, ram, device, envp, len)
  {
    hide EnvPage;
  }

  // The parent's readable bytes are in frames issued before the child's were, or in
  // device memory, so they still read the same.
  lemma ParentUnchanged(v: Vm, parent: nat, va: nat, first: seq<byte>, bytes: seq<byte>, device: nat -> byte)
    requires VmOk(v) && parent in v.spaces && KeepsBytes(v, first, bytes)
    ensures UserRead(v.spaces[parent], bytes, device, va) == UserRead(v.spaces[parent], first, device, va)
  {
    hide FramePool.Valid, RunsOk;
    if PageDown(va) in v.spaces[parent].pages {
      var pte := v.spaces[parent].pages[PageDown(va)];
      assert SpaceOk(v.ledger, parent, v.spaces[parent]);
      assert PteOk(v.ledger, parent, pte);
    }
  }

  // Bytes dst.. written from the block, offset k0 on; nothing else changed.
  ghost predicate EnvWritten(before: seq<byte>, after: seq<byte>, dst: nat, n: nat, k0: nat, space: Space,
                             ram: seq<byte>, device: nat -> byte, envp: nat) {
    && |after| == |before|
    && forall a: nat :: a < |before| ==>
         after[a] == if dst <= a < dst + n then UserRead(space, ram, device, envp + k0 + (a - dst)) else before[a]
  }

  // Copy one page's worth of the parent's bytes into a zeroed frame.
  method CopyPage(mem: PhysicalMemory, parent: nat, device: nat -> byte, envp: nat, k0: nat, n: nat, dst: nat,
                  ghost v: Vm, ghost first: seq<byte>)
    requires VmOk(v) && parent in v.spaces && parent in mem.spaces && mem.spaces[parent] == v.spaces[parent]
    requires n <= PAGE && dst % PAGE == 0 && dst + PAGE <= mem.ram.Length && dst !in v.ledger
    requires KeepsBytes(v, first, mem.ram[..])
    modifies mem.ram
    ensures EnvWritten(old(mem.ram[..]), mem.ram[..], dst, n, k0, v.spaces[parent], first, device, envp)
  {
    hide VmOk, UserRead, KeepsBytes;
    ghost var before := mem.ram[..];
    var off := 0;
    while off < n
      invariant 0 <= off <= n && KeepsBytes(v, first, mem.ram[..])
      invariant EnvWritten(before, mem.ram[..], dst, off, k0, v.spaces[parent], first, device, envp)
    {
      var b := ReadUser(mem, parent, device, envp + k0 + off);
      ParentUnchanged(v, parent, envp + k0 + off, first, mem.ram[..], device);
      ghost var bytes := mem.ram[..];
      mem.ram[dst + off] := b;
      OneByteKeeps(v, first, bytes, mem.ram[..], dst, off);
      off := off + 1;
    }
  }

  lemma OneByteKeeps(v: Vm, first: seq<byte>, before: seq<byte>, after: seq<byte>, frame: nat, off: nat)
    requires VmOk(v) && KeepsBytes(v, first, before) && frame !in v.ledger && frame % PAGE == 0 && off < PAGE
    requires |after| == |before| && forall a :: 0 <= a < |before| && a != frame + off ==> after[a] == before[a]
    ensures KeepsBytes(v, first, after)
  {
    hide VmOk;
    forall f, k | f in v.ledger && 0 <= k < |first| && f <= k < f + PAGE
      ensures after[k] == first[k]
    {
      IssuedAligned(v, f);
      assert before[k] == first[k];
    }
  }

  // What one filled page adds.
  lemma PageCopied(v: Vm, before: seq<byte>, zeroed: seq<byte>, after: seq<byte>, frame: nat, i: nat, n: nat,
                   space: Space, ram: seq<byte>, device: nat -> byte, envp: nat, len: nat)
    requires VmOk(v) && frame !in v.ledger && frame % PAGE == 0 && frame + PAGE <= |before|
    requires FrameZeroed(before, zeroed, Some(frame)) && i * PAGE < len && n == Min(len - i * PAGE, PAGE)
    requires EnvWritten(zeroed, after, frame, n, i * PAGE, space, ram, device, envp)
    ensures EnvPage(after, frame, i, space, ram, device, envp, len) && KeepsBytes(v, before, after)
  {
    hide VmOk, UserRead;
    forall k: nat | i * PAGE <= k < (i + 1) * PAGE
      ensures after[frame + (k - i * PAGE)] == EnvByte(space, ram, device, envp, len, k)
    {
      var a: nat := frame + (k - i * PAGE);
      assert after[a] ==
             if frame <= a < frame + n then UserRead(space, ram, device, envp + i * PAGE + (a - frame)) else zeroed[a];
    }
    forall f, k | f in v.ledger && 0 <= k < |before| && f <= k < f + PAGE
      ensures after[k] == before[k]
    {
      IssuedAligned(v, f);
    }
  }

  // One turn of the copy loop: back page i of the block and fill it.
  method CopyOnePage(mem: PhysicalMemory, parent: nat, child: nat, device: nat -> byte, envp: nat, len: nat, i: nat,
                     ghost v: Vm, ghost first: seq<byte>) returns (b: Backing)
    requires mem.Ok() && VmOk(v) && parent in v.spaces && child in mem.spaces && parent != child
    requires SpaceGrown(v, mem.View(), child) && KeepsBytes(v, first, mem.ram[..]) && i * PAGE < len
    requires EnvPages(mem.View(), child, mem.ram[..], i, v.spaces[parent], first, device, envp, len)
    modifies mem, mem.frames, mem.ram
    ensures mem.Ok() && child in mem.spaces
    ensures (mem.View(), b) == AllocMap(old(mem.View()), child, PagePlan(HEAP_START + i * PAGE, true, false))
    ensures SpaceGrown(v, mem.View(), child) && KeepsBytes(v, first, mem.ram[..])
    ensures b == Backed ==>
              EnvPages(mem.View(), child, mem.ram[..], i + 1, v.spaces[parent], first, device, envp, len)
  {
    hide VmOk, AllocMap, KeepsBytes, EnvPages, EnvPage, FrameZeroed, FramePool.Conserved, FramePool.Alloc, EnvWritten,
      SpaceGrown;
    ghost var u, before := mem.View(), mem.ram[..];
    var plan := PagePlan(HEAP_START + i * PAGE, true, false);
    GrownOk(v, u, child);
    b := mem.AllocMap(child, plan);
    ghost var zeroed := mem.ram[..];
    EnvPageReady(v, u, parent, child, plan, first, before, zeroed);
    if b != Backed {
      return;
    }
    var dst := mem.spaces[child].pages[plan.va].frame;
    var n := Min(len - i * PAGE, PAGE);
    CopyPage(mem, parent, device, envp, i * PAGE, n, dst, v, first);
    EnvPageDone(v, u, mem.View(), child, dst, first, before, zeroed, mem.ram[..], i, n, v.spaces[parent], device, envp,
                len);
  }

  // SPAWN_ENV's copy loop: each page of the block gets a fresh frame in the child,
  // filled from the parent, which is the space the system call runs in.
  method CopyEnvironment(mem: PhysicalMemory, parent: nat, child: nat, device: nat -> byte, envp: nat,
                         len: nat) returns (b: Backing)
    requires mem.Ok() && VmOk(mem.View()) && parent in mem.spaces && child in mem.spaces && parent != child
    requires UserRange(mem.spaces[parent], envp, len, false)
    modifies mem, mem.frames, mem.ram
    ensures mem.Ok()
    ensures (mem.View(), b) == AllocMapAll(old(mem.View()), child, Syscalls.DataPages(HEAP_START, DivCeil(len, PAGE)))
    ensures KeepsBytes(old(mem.View()), old(mem.ram[..]), mem.ram[..])
    ensures SpaceGrown(old(mem.View()), mem.View(), child)
    ensures b == Backed && child in mem.spaces ==>
              forall k: nat :: k < DivCeil(len, PAGE) * PAGE ==>
                                 UserReadFrom(mem.spaces[child], mem.ram[..], device, HEAP_START, k)
                                 == EnvByte(old(mem.spaces[parent]), old(mem.ram[..]), device, envp, len, k)
  {
    hide VmOk, AllocMap, KeepsBytes, EnvPages, EnvPage, UserRead, UserReadFrom, FrameZeroed, FramePool.Conserved,
      FramePool.Alloc, EnvWritten,
      SpaceGrown;
    ghost var v, first := mem.View(), mem.ram[..];
    var pages := DivCeil(len, PAGE);
    ghost var plans := Syscalls.DataPages(HEAP_START, pages);
    assert plans[0..] == plans;
    SpaceGrownSelf(v, child);
    NoChange(v, first);
    NoEnvPages(v, child, first, v.spaces[parent], device, envp, len);
    var i := 0;
    while i < pages
      invariant 0 <= i <= pages && mem.Ok() && child in mem.spaces
      invariant AllocMapAll(mem.View(), child, plans[i..]) == AllocMapAll(v, child, plans)
      invariant SpaceGrown(v, mem.View(), child) && KeepsBytes(v, first, mem.ram[..])
      invariant EnvPages(mem.View(), child, mem.ram[..], i, v.spaces[parent], first, device, envp, len)
    {
      assert plans[i..][0] == PagePlan(HEAP_START + i * PAGE, true, false) && plans[i..][1..] == plans[i + 1..];
      b := CopyOnePage(mem, parent, child, device, envp, len, i, v, first);
      if b != Backed {
        return;
      }
      i := i + 1;
    }
    b := Backed;
    forall k: nat | k < pages * PAGE
      ensures UserReadFrom(mem.spaces[child], mem.ram[..], device, HEAP_START, k)
              == EnvByte(v.spaces[parent], first, device, envp, len, k)
    {
      ChildReads(mem.View(), child, mem.ram[..], v.spaces[parent], first, device, envp, len, k);
    }
  }

  // What backing the next page of the block gives.
  lemma EnvPageReady(v: Vm, u: Vm, parent: nat, child: nat, plan: PagePlan, first: seq<byte>, before: seq<byte>,
                     zeroed: seq<byte>)
    requires VmOk(v) && VmOk(u) && SpaceGrown(v, u, child) && parent in v.spaces && parent != child
    requires forall i :: 0 <= i < |u.pool.regions| ==> u.pool.regions[i].end <= |before|
    requires KeepsBytes(v, first, before) && FrameZeroed(before, zeroed, FramePool.Alloc(u.pool).1)
    ensures var (w, b) := AllocMap(u, child, plan);
      && SpaceGrown(v, w, child) && SpaceGrown(u, w, child)
      && KeepsBytes(v, first, zeroed)
      && parent in w.spaces && w.spaces[parent] == v.spaces[parent]
      && (b == Backed ==>
            && plan.va in w.spaces[child].pages && !w.spaces[child].pages[plan.va].device
            && var dst := w.spaces[child].pages[plan.va].frame;
               && dst % PAGE == 0 && dst + PAGE <= |before| && dst !in u.ledger && dst !in v.ledger && dst in w.ledger
               && FrameZeroed(before, zeroed, Some(dst)))
  {
    hide VmOk, AllocMap, KeepsBytes, FrameZeroed, FramePool.Alloc, OnlySpace, Extends;
    var (w, b) := AllocMap(u, child, plan);
    OneFreshPage(u, child, plan, |before|);
    AllocMapExact(u, child, plan);
    SpaceGrownTwice(v, u, w, child);
    ZeroingKeeps(u, before, zeroed, FramePool.Alloc(u.pool).1);
    GrownOk(v, u, child);
    KeepsBytesTwice(v, u, first, before, zeroed);
    ParentSame(v, w, parent, child);
    if b == Backed {
      NotIssuedBefore(v, u, child, w.spaces[child].pages[plan.va].frame);
      PrivateIssued(u, w, child, plan.va);
    }
  }

  lemma EnvPageDone(v: Vm, u: Vm, w: Vm, child: nat, dst: nat, first: seq<byte>, before: seq<byte>, zeroed: seq<byte>,
                    after: seq<byte>,
                    i: nat, n: nat, space: Space, device: nat -> byte, envp: nat, len: nat)
    requires VmOk(v) && VmOk(u) && SpaceGrown(v, u, child) && SpaceGrown(u, w, child)
    requires KeepsBytes(v, first, before) && EnvPages(u, child, before, i, space, first, device, envp, len)
    requires HEAP_START + i * PAGE in w.spaces[child].pages
    requires var pte := w.spaces[child].pages[HEAP_START + i * PAGE]; pte.frame == dst && !pte.device
    requires dst % PAGE == 0 && dst + PAGE <= |before| && dst !in u.ledger && dst in w.ledger
    requires FrameZeroed(before, zeroed, Some(dst)) && i * PAGE < len && n == Min(len - i * PAGE, PAGE)
    requires EnvWritten(zeroed, after, dst, n, i * PAGE, space, first, device, envp)
    ensures KeepsBytes(v, first, after) && EnvPages(w, child, after, i + 1, space, first, device, envp, len)
  {
    hide VmOk, EnvPage, EnvPages, EnvWritten, FrameZeroed, KeepsBytes, Extends, OnlySpace;
    PageCopied(u, before, zeroed, after, dst, i, n, space, first, device, envp, len);
    GrownOk(v, u, child);
    KeepsBytesTwice(v, u, first, before, after);
    EnvPagesKept(u, w, child, before, after, i, space, first, device, envp, len);
    NextEnvPage(w, child, after, i, space, first, device, envp, len);
  }

  lemma NoEnvPages(w: Vm, child: nat, bytes: seq<byte>, space: Space, device: nat -> byte, envp: nat, len: nat)
    requires child in w.spaces
    ensures EnvPages(w, child, bytes, 0, space, bytes, device, envp, len)
  {
  }

  lemma ParentSame(v: Vm, w: Vm, parent: nat, child: nat)
    requires SpaceGrown(v, w, child) && parent in v.spaces && parent != child
    ensures parent in w.spaces && w.spaces[parent] == v.spaces[parent]
  {
    hide VmOk;
  }

  lemma NotIssuedBefore(v: Vm, u: Vm, root: nat, f: nat)
    requires SpaceGrown(v, u, root) && f !in u.ledger
    ensures f !in v.ledger
  {
    hide VmOk;
  }

  lemma PrivateIssued(v: Vm, w: Vm, root: nat, va: nat)
    requires SpaceGrown(v, w, root) && NewPagesPrivate(v, w, root) && va in w.spaces[root].pages
    requires va !in v.spaces[root].pages
    ensures !w.spaces[root].pages[va].device && w.spaces[root].pages[va].frame in w.ledger
  {
    hide VmOk;
  }

  // Making the child's address space changes nothing the parent reads.
  lemma SameEnvironment(v: Vm, parent: nat, first: seq<byte>, bytes: seq<byte>, device: nat -> byte, envp: nat,
                        len: nat)
    requires VmOk(v) && parent in v.spaces && KeepsBytes(v, first, bytes)
    ensures var space := v.spaces[parent];
      forall k: nat :: EnvByte(space, bytes, device, envp, len, k) == EnvByte(space, first, device, envp, len, k)
  {
    hide VmOk, KeepsBytes, UserRead;
    forall k: nat
      ensures EnvByte(v.spaces[parent], bytes, device, envp, len, k)
              == EnvByte(v.spaces[parent], first, device, envp, len, k)
    {
      ParentUnchanged(v, parent, envp + k, first, bytes, device);
    }
  }
}
