// Runs that exist: a machine on which the kernel starts, and on it the runs in
// which the properties that do not always hold fail.
module KernelWitness {
  import opened Base
  import opened FramePool
  import opened Capability
  import opened AddressSpace
  import opened ElfImage
  import opened Machine
  import opened Syscalls
  import opened KernelAuthority
  import opened KernelMemory
  import opened KernelIsolation
  import opened KernelSharing
  import opened KernelProgress
  import opened KernelSupply
  import opened FrameCost
  import opened KernelHeap
  import opened KernelGrowth
  import KernelLifecycle

  const LEAF_SPAN: nat := 0x20_0000

  // No leaf table covers the addresses with this prefix.
  predicate NoLeaf(space: Space, prefix: nat) {
    TableKey(1, prefix) !in space.tables
  }

  // ----- What mapping elsewhere leaves alone -----

  ghost predicate TablesKeptIn(s: Space, t: Space) {
    forall k :: k in s.tables ==> k in t.tables
  }

  lemma LeafKey(va: nat)
    ensures Key(1, va) == TableKey(1, va / LEAF_SPAN) && Key(2, va).level == 2 && Key(3, va).level == 3
  {
  }

  lemma {:induction false} RangeKeeps(vm: Vm, root: nat, va: nat, phys: nat, n: nat, device: bool, lo: nat, hi: nat,
                                      prefix: nat)
    requires root in vm.spaces
    requires forall k: nat :: k < n ==> !(lo <= va + k * PAGE < hi) && (va + k * PAGE) / LEAF_SPAN != prefix
    requires NoPages(vm.spaces[root], lo, hi) && NoLeaf(vm.spaces[root], prefix)
    ensures var (w, ok) := MapRange(vm, root, va, phys, n, device);
      && root in w.spaces && TablesKeptIn(vm.spaces[root], w.spaces[root])
      && NoPages(w.spaces[root], lo, hi) && NoLeaf(w.spaces[root], prefix)
      && (ok && n > 0 ==> TablesFor(w.spaces[root], va))
    decreases n
  {
    hide MapPage;
    if n > 0 {
      var pte := if device then DevicePte(phys) else UserPte(phys, true, false);
      MapPageTables(vm, root, va, pte);
      LeafKey(va);
      var z: nat := 0;
      assert va + z * PAGE == va;
      var (w, o) := MapPage(vm, root, va, pte);
      assert NoPages(w.spaces[root], lo, hi);
      if o == Mapped || (device && o == AlreadyMapped) {
        forall k: nat | k < n - 1
          ensures !(lo <= va + PAGE + k * PAGE < hi) && (va + PAGE + k * PAGE) / LEAF_SPAN != prefix
        {
          assert va + PAGE + k * PAGE == va + (k + 1) * PAGE;
        }
        RangeKeeps(w, root, va + PAGE, phys + PAGE, n - 1, device, lo, hi, prefix);
      }
    }
  }

  lemma {:induction false} PlansKeep(vm: Vm, root: nat, plans: seq<PagePlan>, lo: nat, hi: nat, prefix: nat)
    requires root in vm.spaces
    requires forall i :: 0 <= i < |plans| ==> !(lo <= plans[i].va < hi) && plans[i].va / LEAF_SPAN != prefix
    requires NoPages(vm.spaces[root], lo, hi) && NoLeaf(vm.spaces[root], prefix)
    ensures var w := AllocMapAll(vm, root, plans).0;
      && root in w.spaces && TablesKeptIn(vm.spaces[root], w.spaces[root])
      && NoPages(w.spaces[root], lo, hi) && NoLeaf(w.spaces[root], prefix)
    decreases |plans|
  {
    hide MapPage, Alloc;
    if plans != [] {
      var (x, got) := AllocFor(vm, Private(root));
      assert x.spaces == vm.spaces;
      if got.Some? {
        var pte := UserPte(got.value, plans[0].writable, plans[0].executable);
        MapPageTables(x, root, plans[0].va, pte);
        LeafKey(plans[0].va);
        var (w, o) := MapPage(x, root, plans[0].va, pte);
        assert NoPages(w.spaces[root], lo, hi);
        if o == Mapped {
          PlansKeep(w, root, plans[1..], lo, hi, prefix);
        }
      }
    }
  }

  // ----- The first state -----

  // The smallest image the loader takes: a header without segments.
  function BareImage(): seq<byte> {
    [0x7f, 0x45, 0x4c, 0x46, 2, 1] + seq(58, _ => 0)
  }

  lemma ZeroField()
    ensures LeValue([0, 0]) == 0
  {
    assert [0, 0][1..] == [0];
    assert [0][1..] == [];
  }

  // A machine with 255 MiB of memory above the first, all of it free.
  function EmptyMachine(): Vm {
    Vm(Pool([Region(0x10_0000, 0x1000_0000)], 0, 0x10_0000, [], 0, {}, {}), map[], map[])
  }

  const MACHINE_FRAMES: nat := 65280

  lemma EmptyMachineOk()
    ensures KernelOnly(EmptyMachine()) && Available(EmptyMachine().pool) == MACHINE_FRAMES
  {
    var p := EmptyMachine().pool;
    forall f: nat
      ensures Usable(p, f) <==> Ahead(p, f)
    {
      if Usable(p, f) {
        var i: nat :| i < |p.regions| && InRegion(p, i, f);
      }
    }
    assert p.regions[1..] == [];
  }

  lemma KernelOnlyOk(vm: Vm)
    requires KernelOnly(vm)
    ensures VmOk(vm)
  {
  }

  const MISLED_PREFIX: nat := 641

  // Nothing of the space is in use but the stack: not the heap, not the windows.
  ghost predicate OnlyStack(space: Space) {
    && NoPages(space, HEAP_START, HEAP_MAX) && NoPages(space, MMIO_VA_START, SHARED_VA_END)
    && NoLeaf(space, MISLED_PREFIX)
  }

  lemma BareLoad(vm: Vm, root: nat)
    requires root in vm.spaces
    ensures var (w, r) := LoadInto(vm, root, BareImage()); r.Entry? && w == vm
  {
    var image := BareImage();
    assert ImageSegments(image) == Some([]) by { BareSegments(); }
    hide ImageSegments, CheckIdent;
    assert PlanOf([]) == [];
    assert AllocMapAll(vm, root, []) == (vm, Backed);
    assert AddressesFit([]) && AllCopyable(image, [], []);
  }

  lemma BareSegments()
    ensures CheckIdent(BareImage()).None? && ImageSegments(BareImage()) == Some([])
  {
    var image := BareImage();
    assert image[0..4] == [0x7f, 0x45, 0x4c, 0x46];
    assert image[56..58] == [0, 0];
    assert LeValue(image[56..58]) == 0 by { ZeroField(); }
  }

  lemma StackElsewhere(i: nat)
    requires i < USER_STACK_PAGES
    ensures var va := USER_STACK_VA + i * PAGE; va < HEAP_START && va / LEAF_SPAN != MISLED_PREFIX
  {
  }

  function Stack(): seq<PagePlan> {
    DataPages(USER_STACK_VA, USER_STACK_PAGES)
  }

  lemma StackPlans()
    ensures |Stack()| == USER_STACK_PAGES
    ensures forall i :: 0 <= i < |Stack()| ==> Stack()[i].va < HEAP_START && Stack()[i].va / LEAF_SPAN != MISLED_PREFIX
    ensures forall i, j :: 0 <= i < j < |Stack()| ==> Stack()[i].va != Stack()[j].va
  {
    forall i | 0 <= i < |Stack()|
      ensures Stack()[i].va < HEAP_START && Stack()[i].va / LEAF_SPAN != MISLED_PREFIX
    {
      StackElsewhere(i);
    }
  }

  lemma BareCreateIs(vm: Vm)
    requires NewSpace(vm).1.Some? && NewSpace(vm).1.value in NewSpace(vm).0.spaces
    requires AllocMapAll(NewSpace(vm).0, NewSpace(vm).1.value, Stack()).1 == Backed
    ensures var (v, root) := NewSpace(vm);
      var (w, made) := CreateSpace(vm, BareImage());
      made.Some? && made.value.0 == root.value && w == AllocMapAll(v, root.value, Stack()).0
  {
    var (v, root) := NewSpace(vm);
    BareLoad(v, root.value);
    hide NewSpace, LoadInto, AllocMapAll, DataPages;
  }

  lemma StackOnly(v: Vm, root: nat)
    requires root in v.spaces && v.spaces[root] == Space(map[], map[])
    ensures var w := AllocMapAll(v, root, Stack()).0; root in w.spaces && OnlyStack(w.spaces[root])
  {
    StackPlans();
    hide AllocMapAll, Stack;
    PlansKeep(v, root, Stack(), HEAP_START, HEAP_MAX, MISLED_PREFIX);
    PlansKeep(v, root, Stack(), MMIO_VA_START, SHARED_VA_END, MISLED_PREFIX);
  }

  lemma StackIsFree(v: Vm, root: nat)
    requires root in v.spaces && v.spaces[root].pages == map[]
    ensures NewAndDistinct(v, root, Stack())
  {
    StackPlans();
    hide Stack;
  }

  lemma BareSpace(vm: Vm)
    requires VmOk(vm) && Available(vm.pool) >= 65
    ensures var (w, made) := CreateSpace(vm, BareImage());
      made.Some? && made.value.0 in w.spaces && Spent(vm, w, 65) && OnlyStack(w.spaces[made.value.0])
  {
    NewSpaceProgress(vm);
    NewSpaceOk(vm);
    var (v, root) := NewSpace(vm);
    hide *;
    SpentOk(vm, v, 1);
    SpentEnough(vm, v, 1, 65);
    StackPlans();
    StackIsFree(v, root.value);
    AllocMapAllProgress(v, root.value, Stack());
    BareCreateIs(vm);
    StackOnly(v, root.value);
    SpentTwice(vm, v, AllocMapAll(v, root.value, Stack()).0, 1, 64);
  }

  // The kernel started on the empty machine with the smallest image.
  ghost predicate FirstState(m: State) {
    && Boot(m) && Awake(m) && m.image == BareImage() && VmOk(m.vm) && m.vm.pool.free == []
    && MACHINE_FRAMES - 65 <= Available(m.vm.pool) <= MACHINE_FRAMES
    && OnlyStack(m.vm.spaces[Cur(m).space])
  }

  lemma MachineLeft(vm: Vm)
    requires Spent(EmptyMachine(), vm, 65)
    ensures VmOk(vm) && vm.pool.free == [] && MACHINE_FRAMES - 65 <= Available(vm.pool) <= MACHINE_FRAMES
  {
    EmptyMachineOk();
    hide VmOk, Available;
  }

  function FirstOf(vm: Vm, root: nat, entry: nat): State {
    State([NewProc(0, root, entry)], 0, 1, [[], [], [], []], [0, 0, 0, 0], vm,
          MMIO_VA_START, MMIO_VA_END, DMA_VA_END, false, BareImage(), [])
  }

  lemma FirstOfBoots(before: Vm, vm: Vm, root: nat, entry: nat)
    requires KernelOnly(before) && CreateSpace(before, BareImage()) == (vm, Some((root, entry)))
    ensures Boot(FirstOf(vm, root, entry))
  {
    hide CreateSpace, KernelOnly, SeedCaps, BareImage;
    var m := FirstOf(vm, root, entry);
    assert CreateSpace(before, m.image) == (m.vm, Some((m.procs[0].space, m.procs[0].entry)));
  }

  lemma StartState() returns (m: State)
    ensures FirstState(m)
  {
    var before := EmptyMachine();
    EmptyMachineOk();
    KernelOnlyOk(before);
    hide *;
    BareSpace(before);
    var (vm, made) := CreateSpace(before, BareImage());
    MachineLeft(vm);
    m := FirstOf(vm, made.value.0, made.value.1);
    FirstOfBoots(before, vm, made.value.0, made.value.1);
    FirstOfIs(vm, made.value.0, made.value.1);
  }

  lemma FirstOfIs(vm: Vm, root: nat, entry: nat)
    requires VmOk(vm) && vm.pool.free == [] && MACHINE_FRAMES - 65 <= Available(vm.pool) <= MACHINE_FRAMES
    requires root in vm.spaces && OnlyStack(vm.spaces[root]) && Boot(FirstOf(vm, root, entry))
    ensures FirstState(FirstOf(vm, root, entry))
  {
    hide VmOk, Available, OnlyStack, Boot, BareImage, SeedCaps;
  }

  // The kernel can start: boot states exist, so what is proved of all runs from
  // boot is proved of something.
  lemma BootExists()
    ensures exists m: State :: Boot(m)
  {
    var m := StartState();
  }

  // ----- A FRAME_ALLOC that fails too late -----

  lemma TooLateExists(out: u64)
    ensures exists m: State :: Boot(m) && FailsTooLate(m, FrameAlloc(1, 3, out))
  {
    var m := StartState();
    hide FailsTooLate, Boot;
    FirstRun(m);
    assert FailsTooLate(m, FrameAlloc(1, 3, out)) by {
      TooLateReachable(m, out);
    }
  }

  lemma FirstRun(m: State)
    requires FirstState(m)
    ensures var (vm, run) := AllocRun(m.vm, 1, None);
      && run.Some? && Cur(m).space in vm.spaces
      && MapPage(vm, Cur(m).space, m.nextShared, UserPte(run.value, true, false)).1 == Mapped
  {
    BumpProgress(m.vm.pool);
    hide VmOk, Bump, CreateSpace, SeedCaps, KernelOnly, MapPage, Available;
    AllocRunOk(m.vm, 1, None);
    var (vm, run) := AllocRun(m.vm, 1, None);
    RunLeaves(m.vm);
    GrantedRunOk(m.vm, vm, run.value, 1);
    RunRangeOk(vm, Cur(m).space, run.value, 1);
    RangeOkTail(vm, vm, Cur(m).space, run.value, 1, false) by { ExtendsSelf(vm); }
    MapPageProgress(vm, Cur(m).space, m.nextShared, UserPte(run.value, true, false));
  }

  lemma RunLeaves(vm: Vm)
    requires VmOk(vm) && vm.pool.free == [] && Available(vm.pool) >= 4
    ensures var (w, run) := AllocRun(vm, 1, None); run.Some? && VmOk(w) && Available(w.pool) >= 3
  {
    BumpProgress(vm.pool);
    AllocRunOk(vm, 1, None);
    hide Bump, VmOk, RunGranted;
  }

  // ----- A process that kills itself -----

  lemma SelfKillExists(signal: u64)
    ensures exists m: State ::
              Boot(m) && KernelLifecycle.SelfKill(After(m, [Spawn(10), Grant(10, 10, 10), Yield]), Kill(10, signal))
  {
    var m := StartState();
    BareSpace(m.vm);
    KernelLifecycle.SelfKillReachable(m, signal);
    hide Next, Boot, CreateSpace, OnlyStack;
    AfterThree(m, Spawn(10), Grant(10, 10, 10), Yield);
    assert Boot(m);
  }

  lemma AfterThree(m: State, a: Action, b: Action, c: Action)
    ensures After(m, [a]) == Next(m, a)
    ensures After(m, [a, b]) == Next(Next(m, a), b)
    ensures After(m, [a, b, c]) == Next(Next(Next(m, a), b), c)
  {
    hide Next;
    assert [a, b, c][..2] == [a, b] && [a, b][..1] == [a] && [a][..0] == [];
  }

  // ----- A heap that can never grow again -----

  const ONE_PAGE: int := PAGE

  function Take(): Action {
    Sbrk(ONE_PAGE)
  }

  function Give(): Action {
    Sbrk(-ONE_PAGE)
  }

  ghost predicate OneProcess(m: State) {
    Awake(m) && !m.halted && m.current == 0 && |m.procs| == 1 && Cur(m).resume == InUser
  }

  // The first process is given a page; once it has given it back, it has the break it
  // started with, but the page is refused.
  ghost predicate HeapStops(m: State) {
    var w := After(m, [Take(), Give()]);
    && OneProcess(m) && Step(m, Take()).1 == Returned(HEAP_START, [])
    && OneProcess(w) && Stuck(w, 0) && w.procs[0].heapBreak == m.procs[0].heapBreak
    && Step(w, Take()).1 == Refused()
  }

  lemma HeapStopsExists()
    ensures exists m: State :: Boot(m) && HeapStops(m)
  {
    var m := StartState();
    FirstIsOne(m);
    FirstPageBackable(m);
    hide *;
    HeapStopsFrom(m);
  }

  lemma FirstIsOne(m: State)
    requires FirstState(m)
    ensures Boot(m) && OneProcess(m) && Cur(m).heapBreak == HEAP_START && VmOk(m.vm)
  {
    FirstProc(m);
    hide Boot, VmOk, Available, OnlyStack;
  }

  lemma HeapStopsFrom(m: State)
    requires Boot(m) && OneProcess(m) && Cur(m).heapBreak == HEAP_START && VmOk(m.vm) && CanBack(m, ONE_PAGE)
    ensures HeapStops(m)
  {
    hide Boot, Next, Step, MemoryOk, HeapsBacked, VmOk, Stuck, CanBack, After, SysSbrk;
    AfterThree(m, Take(), Give(), Take());
    BootSound(m, []);
    assert After(m, []) == m by { NoStep(m); }
    SbrkStep(m, ONE_PAGE);
    FirstTake(m);
    var v := Next(m, Take());
    BootSound(m, [Take()]);
    SbrkStep(v, -ONE_PAGE);
    GiveBack(v);
    var w := Next(v, Give());
    BootSound(m, [Take(), Give()]);
    SbrkStep(w, ONE_PAGE);
    TakeAgain(w);
  }

  lemma NoStep(m: State)
    ensures After(m, []) == m
  {
  }

  lemma BootSound(m: State, actions: seq<Action>)
    requires Boot(m) && forall k :: 0 <= k < |actions| ==> actions[k].Sbrk?
    ensures MemoryOk(After(m, actions)) && HeapsBacked(After(m, actions))
  {
    hide Boot, After, MemoryOk, HeapsBacked;
    NoFrameAllocs(m, actions);
    RunIsolated(m, actions);
    RunHeaps(m, actions);
  }

  lemma SbrkStep(m: State, delta: int)
    requires OneProcess(m)
    ensures Step(m, Sbrk(delta)) == SysSbrk(m, delta) && Next(m, Sbrk(delta)) == SysSbrk(m, delta).0
    ensures Awake(SysSbrk(m, delta).0) && OneProcess(SysSbrk(m, delta).0)
  {
    hide AllocMapAll, PageUp, DataPages;
  }

  lemma FirstPageBackable(m: State)
    requires FirstState(m) && Cur(m).heapBreak == HEAP_START && VmOk(m.vm)
    ensures CanBack(m, ONE_PAGE)
  {
    hide Boot, VmOk, Available, OnlyStack, Backable, PageUp, PagesUp;
    var root := Cur(m).space;
    NoHeapYet(m.vm.spaces[root]);
    assert Left(m.vm) >= 4;
    OnePageBackable(m.vm, root);
    OnePageUp();
  }

  lemma NoHeapYet(space: Space)
    requires OnlyStack(space)
    ensures HEAP_START !in space.pages
  {
  }

  lemma OnePageUp()
    ensures PageUp(HEAP_START) == HEAP_START && PagesUp(HEAP_START, HEAP_START + PAGE) == 1
  {
  }

  lemma OnePageBackable(vm: Vm, root: nat)
    requires VmOk(vm) && root in vm.spaces && HEAP_START !in vm.spaces[root].pages && Left(vm) >= 4
    ensures Backable(vm, root, HEAP_START, 1)
  {
    hide VmOk, Left, Window, Path, Lacking, Missing;
    NothingReached(vm, root, HEAP_START + PAGE);
    WindowHead(HEAP_START, 1);
    assert Window(HEAP_START, 1) == {HEAP_START};
    AtMostThree(vm.spaces[root], HEAP_START);
  }

  lemma AtMostThree(space: Space, va: nat)
    ensures Missing(space, {va}) <= 3
  {
    PathOne(va);
    hide Key, Path;
    var lacking := Path({va}) - space.tables.Keys;
    assert lacking <= {Key(3, va), Key(2, va), Key(1, va)};
    FewKeys(lacking, Key(3, va), Key(2, va), Key(1, va));
  }

  lemma FewKeys(s: set<TableKey>, a: TableKey, b: TableKey, c: TableKey)
    requires s <= {a, b, c}
    ensures |s| <= 3
  {
    var all := {a} + {b} + {c};
    assert all == s + (all - s);
  }

  lemma FirstTake(m: State)
    requires OneProcess(m) && MemoryOk(m) && HeapsBacked(m) && Cur(m).heapBreak == HEAP_START
    requires VmOk(m.vm) && CanBack(m, ONE_PAGE)
    ensures var (w, r) := SysSbrk(m, ONE_PAGE);
      r == Returned(HEAP_START, []) && |w.procs| == 1 && w.procs[0].heapBreak == HEAP_START + PAGE
  {
    hide SysSbrk, MemoryOk, HeapsBacked, VmOk, CanBack;
    SbrkSucceedsIff(m, ONE_PAGE);
    SbrkBacks(m, ONE_PAGE);
  }

  lemma GiveBack(m: State)
    requires OneProcess(m) && MemoryOk(m) && HeapsBacked(m) && Cur(m).heapBreak == HEAP_START + PAGE
    ensures var w := SysSbrk(m, -ONE_PAGE).0;
      |w.procs| == 1 && Stuck(w, 0) && w.procs[0].heapBreak == HEAP_START
  {
    assert PageUp(HEAP_START) < PageUp(HEAP_START + PAGE);
    hide SysSbrk, MemoryOk, HeapsBacked, PageUp, Stuck;
    ShrinkSticks(m, -ONE_PAGE);
  }

  lemma TakeAgain(m: State)
    requires OneProcess(m) && MemoryOk(m) && HeapsBacked(m) && Stuck(m, 0) && Cur(m).heapBreak == HEAP_START
    ensures SysSbrk(m, ONE_PAGE).1 == Refused()
  {
    assert PageUp(HEAP_START) < PageUp(HEAP_START + PAGE);
    hide SysSbrk, MemoryOk, HeapsBacked, PageUp, Stuck;
    StuckRefuses(m, ONE_PAGE);
  }

  // ----- An IOMAP that shows another device -----

  // The call returns an address at which some page does not lead to the device
  // memory asked for.
  ghost predicate ShowsOtherDevice(m: State, phys: nat, len: nat) {
    && Awake(m)
    && var (w, r) := SysIoMap(m, phys, len);
       && r != Refused() && Cur(m).space in w.vm.spaces
       && exists k: nat :: k < DivCeil(phys % PAGE + len, PAGE)
            && !LeadsToDevice(w.vm.spaces[Cur(m).space], m.nextMmio, PageDown(phys), k)
  }

  const WINDOW_PAGES: nat := 511
  const FIRST_DEVICE: nat := 0xc000_0000
  const OTHER_DEVICE: nat := 0xd000_0000

  // Fill the window up to the last page of its first leaf table.
  function FillWindow(): Action {
    IoMap(FIRST_DEVICE, WINDOW_PAGES * PAGE)
  }

  // Ask for more heap than there is memory.
  function EatMemory(): Action {
    Sbrk(HEAP_MAX - HEAP_START)
  }

  lemma RootMayMap(m: State, phys: nat, len: nat)
    requires Running(m) && Cur(m).caps == SeedCaps(0) && MMIO_BASE <= phys && phys + len <= MMIO_END
    ensures SlotsAuthorizeMmio(Cur(m).caps, phys, len)
  {
    var caps := Cur(m).caps;
    assert caps[1] == Some(IoMemCap(MMIO_BASE, MMIO_END - MMIO_BASE));
    assert AuthorizesMmio(caps[1].value, phys, len);
  }

  const LAST_OF_TABLE: nat := MMIO_VA_START + WINDOW_PAGES * PAGE

  // After the window has been filled that far.
  ghost predicate WindowFilled(m: State) {
    && Awake(m) && VmOk(m.vm) && !m.halted && m.current == 0 && |m.procs| == 1
    && Cur(m).resume == InUser && Cur(m).caps == SeedCaps(0) && Cur(m).heapBreak == HEAP_START
    && m.nextMmio == LAST_OF_TABLE
    && var space := m.vm.spaces[Cur(m).space];
       && TablesFor(space, LAST_OF_TABLE)
       && NoPages(space, LAST_OF_TABLE, LAST_OF_TABLE + 2 * PAGE) && NoLeaf(space, MISLED_PREFIX)
  }

  lemma WindowElsewhere(k: nat)
    requires k < WINDOW_PAGES
    ensures var va := MMIO_VA_START + k * PAGE;
      va < LAST_OF_TABLE && va >= HEAP_MAX && va / LEAF_SPAN != MISLED_PREFIX
  {
  }

  lemma SameTables(space: Space)
    requires TablesFor(space, MMIO_VA_START)
    ensures TablesFor(space, LAST_OF_TABLE)
  {
  }

  ghost function Filled(vm: Vm, root: nat): (Vm, bool)
    requires root in vm.spaces
  {
    MapRange(vm, root, MMIO_VA_START, FIRST_DEVICE, WINDOW_PAGES, true)
  }

  // What filling the window does to the space.
  lemma FillEffect(vm: Vm, root: nat)
    requires VmOk(vm) && root in vm.spaces && OnlyStack(vm.spaces[root]) && Available(vm.pool) >= 3 * WINDOW_PAGES
    ensures var (v, ok) := Filled(vm, root);
      && ok && VmOk(v) && root in v.spaces && Available(v.pool) <= Available(vm.pool)
      && TablesFor(v.spaces[root], LAST_OF_TABLE) && NoPages(v.spaces[root], HEAP_START, HEAP_MAX)
      && NoPages(v.spaces[root], LAST_OF_TABLE, LAST_OF_TABLE + 2 * PAGE) && NoLeaf(v.spaces[root], MISLED_PREFIX)
  {
    var space := vm.spaces[root];
    assert NoPages(space, MMIO_VA_START, MMIO_VA_START + WINDOW_PAGES * PAGE);
    assert NoPages(space, LAST_OF_TABLE, LAST_OF_TABLE + 2 * PAGE);
    hide VmOk, Available, NoPages, MapRange, RangeOk, NoLeaf, TablesFor, Spent, OnlyStack;
    DeviceRangeOk(vm.ledger, root, FIRST_DEVICE, WINDOW_PAGES);
    MapRangeProgress(vm, root, MMIO_VA_START, FIRST_DEVICE, WINDOW_PAGES, true);
    forall k: nat | k < WINDOW_PAGES
      ensures var va := MMIO_VA_START + k * PAGE;
        va < LAST_OF_TABLE && va >= HEAP_MAX && va / LEAF_SPAN != MISLED_PREFIX
    {
      WindowElsewhere(k);
    }
    RangeKeeps(vm, root, MMIO_VA_START, FIRST_DEVICE, WINDOW_PAGES, true, HEAP_START, HEAP_MAX, MISLED_PREFIX);
    RangeKeeps(vm, root, MMIO_VA_START, FIRST_DEVICE, WINDOW_PAGES, true, LAST_OF_TABLE, LAST_OF_TABLE + 2 * PAGE,
               MISLED_PREFIX);
    SpentAtMost(vm, Filled(vm, root).0, 3 * WINDOW_PAGES);
    SameTables(Filled(vm, root).0.spaces[root]);
  }

  lemma WindowGetsFilled(m: State)
    requires FirstState(m)
    ensures var w := Next(m, FillWindow());
      && WindowFilled(w) && NoPages(w.vm.spaces[Cur(w).space], HEAP_START, HEAP_MAX)
      && Available(w.vm.pool) <= MACHINE_FRAMES
  {
    FirstProc(m);
    RootMayMap(m, FIRST_DEVICE, WINDOW_PAGES * PAGE);
    FillEffect(m.vm, Cur(m).space);
    FillIs(m);
    var w := Next(m, FillWindow());
    hide *;
    FilledIs(m, w);
  }

  lemma FilledIs(m: State, w: State)
    requires FirstState(m) && m.current == 0 && |m.procs| == 1 && !m.halted && m.procs[0].caps == SeedCaps(0)
    requires m.procs[0].heapBreak == HEAP_START && m.procs[0].resume == InUser
    requires w == m.(vm := w.vm, nextMmio := LAST_OF_TABLE) && VmOk(w.vm) && m.procs[0].space in w.vm.spaces
    requires var space := w.vm.spaces[m.procs[0].space];
      && TablesFor(space, LAST_OF_TABLE)
       && NoPages(space, LAST_OF_TABLE, LAST_OF_TABLE + 2 * PAGE) && NoLeaf(space, MISLED_PREFIX)
    ensures WindowFilled(w)
  {
    hide VmOk, Available, NoPages, SeedCaps, Boot, NoLeaf, TablesFor, OnlyStack;
  }

  lemma FirstProc(m: State)
    requires Boot(m)
    ensures m.current == 0 && |m.procs| == 1 && !m.halted
    ensures m.procs[0].caps == SeedCaps(0) && m.procs[0].heapBreak == HEAP_START && m.procs[0].resume == InUser
    ensures m.nextMmio == MMIO_VA_START && m.nextShared == DMA_VA_END
  {
    hide CreateSpace, SeedCaps, KernelOnly;
  }

  lemma SpentAtMost(v: Vm, w: Vm, k: nat)
    requires Spent(v, w, k)
    ensures VmOk(v) && VmOk(w) && Available(w.pool) <= Available(v.pool)
  {
    hide VmOk, Available;
  }

  lemma FillIs(m: State)
    requires Awake(m) && !m.halted && Cur(m).resume == InUser && m.nextMmio == MMIO_VA_START
    requires SlotsAuthorizeMmio(Cur(m).caps, FIRST_DEVICE, WINDOW_PAGES * PAGE)
    requires Filled(m.vm, Cur(m).space).1
    ensures Next(m, FillWindow())
         == m.(vm := Filled(m.vm, Cur(m).space).0, nextMmio := LAST_OF_TABLE)
  {
    hide MapRange, SlotsAuthorizeMmio;
    assert PageDown(FIRST_DEVICE) == FIRST_DEVICE && DivCeil(WINDOW_PAGES * PAGE, PAGE) == WINDOW_PAGES;
  }

  const HEAP_PAGES: nat := 65536

  lemma EatIs(m: State)
    requires Awake(m) && !m.halted && Cur(m).resume == InUser && Cur(m).heapBreak == HEAP_START
    requires AllocMapAll(m.vm, Cur(m).space, HeapPlans()).1 != Backed
    ensures Next(m, EatMemory()) == m.(vm := AllocMapAll(m.vm, Cur(m).space, HeapPlans()).0)
  {
    hide AllocMapAll, DataPages;
    assert PageUp(HEAP_START) == HEAP_START && PageUp(HEAP_MAX) == HEAP_MAX;
    assert (HEAP_MAX - HEAP_START) / PAGE == HEAP_PAGES;
  }

  lemma HeapElsewhere(i: nat)
    requires i < HEAP_PAGES
    ensures var va := HEAP_START + i * PAGE; HEAP_START <= va < HEAP_MAX && va / LEAF_SPAN != MISLED_PREFIX
  {
  }

  function HeapPlans(): seq<PagePlan> {
    DataPages(HEAP_START, HEAP_PAGES)
  }

  lemma HeapPlansElsewhere()
    ensures |HeapPlans()| == HEAP_PAGES
    ensures forall i :: 0 <= i < |HeapPlans()| ==>
              HEAP_START <= HeapPlans()[i].va < HEAP_MAX && HeapPlans()[i].va / LEAF_SPAN != MISLED_PREFIX
    ensures forall i, j :: 0 <= i < j < |HeapPlans()| ==> HeapPlans()[i].va != HeapPlans()[j].va
  {
    forall i | 0 <= i < |HeapPlans()|
      ensures HEAP_START <= HeapPlans()[i].va < HEAP_MAX && HeapPlans()[i].va / LEAF_SPAN != MISLED_PREFIX
    {
      HeapElsewhere(i);
    }
  }

  lemma HeapIsNew(vm: Vm, root: nat)
    requires root in vm.spaces && NoPages(vm.spaces[root], HEAP_START, HEAP_MAX)
    ensures NewAndDistinct(vm, root, HeapPlans())
  {
    HeapPlansElsewhere();
    hide HeapPlans;
  }

  lemma EatingFails(vm: Vm, root: nat)
    requires VmOk(vm) && root in vm.spaces && NewAndDistinct(vm, root, HeapPlans())
    requires Available(vm.pool) < HEAP_PAGES
    ensures var (w, b) := AllocMapAll(vm, root, HeapPlans());
      b != Backed && VmOk(w) && Available(w.pool) == 0
  {
    HeapPlansElsewhere();
    hide VmOk, AllocMapAll, HeapPlans, NewAndDistinct, Available, Missing;
    AllocMapAllIff(vm, root, HeapPlans());
    AllocMapAllExhausts(vm, root, HeapPlans());
    assert Left(vm) < HEAP_PAGES;
    assert Left(AllocMapAll(vm, root, HeapPlans()).0) == 0;
  }

  // Then memory runs out, and nothing else about the window changes.
  lemma MemoryGetsEaten(m: State)
    requires WindowFilled(m) && NoPages(m.vm.spaces[Cur(m).space], HEAP_START, HEAP_MAX)
    requires Available(m.vm.pool) <= MACHINE_FRAMES
    ensures var w := Next(m, EatMemory()); WindowFilled(w) && Available(w.vm.pool) == 0
  {
    var root := Cur(m).space;
    HeapIsNew(m.vm, root);
    HeapPlansElsewhere();
    var v := AllocMapAll(m.vm, root, HeapPlans()).0;
    EatingFails(m.vm, root);
    EatIs(m);
    HeapPlansKeep(m.vm, root);
    var w := Next(m, EatMemory());
    hide *;
    TablesStay(m.vm.spaces[root], v.spaces[root], LAST_OF_TABLE);
    EatenIs(m, w);
  }

  lemma EatenIs(m: State, w: State)
    requires WindowFilled(m) && w == m.(vm := w.vm) && VmOk(w.vm) && Cur(m).space in w.vm.spaces
    requires var space := w.vm.spaces[Cur(m).space];
      && TablesFor(space, LAST_OF_TABLE)
       && NoPages(space, LAST_OF_TABLE, LAST_OF_TABLE + 2 * PAGE) && NoLeaf(space, MISLED_PREFIX)
    ensures WindowFilled(w)
  {
    hide VmOk, NoPages, SeedCaps, NoLeaf, TablesFor;
  }

  lemma HeapPlansKeep(vm: Vm, root: nat)
    requires root in vm.spaces
    requires NoPages(vm.spaces[root], LAST_OF_TABLE, LAST_OF_TABLE + 2 * PAGE) && NoLeaf(vm.spaces[root], MISLED_PREFIX)
    ensures var w := AllocMapAll(vm, root, HeapPlans()).0;
      && root in w.spaces && (forall k :: k in vm.spaces[root].tables ==> k in w.spaces[root].tables)
      && NoPages(w.spaces[root], LAST_OF_TABLE, LAST_OF_TABLE + 2 * PAGE) && NoLeaf(w.spaces[root], MISLED_PREFIX)
  {
    HeapPlansElsewhere();
    hide HeapPlans, AllocMapAll, NoPages, NoLeaf;
    PlansKeep(vm, root, HeapPlans(), LAST_OF_TABLE, LAST_OF_TABLE + 2 * PAGE, MISLED_PREFIX);
  }

  lemma StarvedPage(vm: Vm, root: nat, va: nat, pte: Pte)
    requires VmOk(vm) && root in vm.spaces && PteOk(vm.ledger, root, pte) && Available(vm.pool) == 0
    ensures var (w, o) := MapPage(vm, root, va, pte);
      && VmOk(w) && Available(w.pool) == 0 && (o == NoTableFrame <==> !TablesFor(vm.spaces[root], va))
  {
    NoneMissing(vm.spaces[root], va);
    MapPageCost(vm, root, va, pte);
    hide VmOk, PteOk, MapPage, Missing, TablesFor, Available, Lacking;
    assert Left(vm) == 0;
    assert Left(MapPage(vm, root, va, pte).0) == 0;
  }

  // With no frame left the last page of the table can be mapped, the next cannot.
  lemma SecondPageStarves(m: State)
    requires WindowFilled(m) && Available(m.vm.pool) == 0
    ensures var root := Cur(m).space;
      var (v, o) := MapPage(m.vm, root, m.nextMmio, DevicePte(FIRST_DEVICE));
      o == Mapped && MapPage(v, root, m.nextMmio + PAGE, DevicePte(FIRST_DEVICE + PAGE)).1 == NoTableFrame
  {
    var root := Cur(m).space;
    var space := m.vm.spaces[root];
    var next := LAST_OF_TABLE + PAGE;
    assert LAST_OF_TABLE !in space.pages;
    assert Key(1, next) == TableKey(1, MISLED_PREFIX) && Key(1, LAST_OF_TABLE) != TableKey(1, MISLED_PREFIX);
    LeafKey(LAST_OF_TABLE);
    hide VmOk, Available, MapPage, Key, NoPages, Extends, OnlySpace, SeedCaps;
    DevicePagesMap(m.vm, root, FIRST_DEVICE);
    MapPageTables(m.vm, root, LAST_OF_TABLE, DevicePte(FIRST_DEVICE));
    MapPageOk(m.vm, root, LAST_OF_TABLE, DevicePte(FIRST_DEVICE));
    StarvedPage(m.vm, root, LAST_OF_TABLE, DevicePte(FIRST_DEVICE));
    var v := MapPage(m.vm, root, LAST_OF_TABLE, DevicePte(FIRST_DEVICE)).0;
    DevicePagesMap(v, root, FIRST_DEVICE + PAGE);
    StarvedPage(v, root, next, DevicePte(FIRST_DEVICE + PAGE));
  }

  // Four calls of the first process on its own: fill the window to the end of a
  // table, use up memory, ask for two pages of one device, ask for another device.
  lemma IoMapMisleadsExists()
    ensures exists m: State ::
              Boot(m) && ShowsOtherDevice(
                           After(m, [FillWindow(), EatMemory(), IoMap(FIRST_DEVICE, 2 * PAGE)]), OTHER_DEVICE, PAGE)
  {
    var m := StartState();
    var again := IoMap(FIRST_DEVICE, 2 * PAGE);
    WindowGetsFilled(m);
    MemoryGetsEaten(Next(m, FillWindow()));
    hide Next, Boot, OnlyStack, WindowFilled, After;
    AfterThree(m, FillWindow(), EatMemory(), again);
    MisledFrom(m, After(m, EatingRun()));
    assert Boot(m);
  }

  function EatingRun(): seq<Action> {
    [FillWindow(), EatMemory()]
  }

  lemma EatingIsClean()
    ensures forall k :: 0 <= k < |EatingRun()| ==> !EatingRun()[k].FrameAlloc?
  {
  }

  lemma MisledFrom(m: State, w: State)
    requires Boot(m) && w == After(m, EatingRun()) && WindowFilled(w) && Available(w.vm.pool) == 0
    ensures ShowsOtherDevice(Next(w, IoMap(FIRST_DEVICE, 2 * PAGE)), OTHER_DEVICE, PAGE)
  {
    hide *;
    var actions := EatingRun();
    NoFrameAllocs(m, actions) by { EatingIsClean(); }
    RunIsolated(m, actions);
    Unforgeable(m, actions);
    SecondPageStarves(w);
    MisledNext(w);
  }

  lemma MisledNext(w: State)
    requires WindowFilled(w) && MemoryOk(w) && AllLegitimate(w)
    requires var (v, o) := MapPage(w.vm, Cur(w).space, w.nextMmio, DevicePte(FIRST_DEVICE));
      o == Mapped && MapPage(v, Cur(w).space, w.nextMmio + PAGE, DevicePte(FIRST_DEVICE + PAGE)).1 == NoTableFrame
    ensures ShowsOtherDevice(Next(w, IoMap(FIRST_DEVICE, 2 * PAGE)), OTHER_DEVICE, PAGE)
  {
    hide VmOk, MapPage, SlotsAuthorizeMmio, SeedCaps, MemoryOk, AllLegitimate, SysIoMap, TablesFor, NoPages, NoLeaf,
      Next;
    RootMayMap(w, FIRST_DEVICE, 2 * PAGE);
    RootMayMap(w, OTHER_DEVICE, PAGE);
    IoMapMisleads(w, FIRST_DEVICE, OTHER_DEVICE);
    IoMapIs(w, FIRST_DEVICE, 2 * PAGE);
    var x := SysIoMap(w, FIRST_DEVICE, 2 * PAGE).0;
    assert x.procs == w.procs && x.current == w.current;
    var z: nat := 0;
    var y := SysIoMap(x, OTHER_DEVICE, PAGE).0;
    assert DevicePte(OTHER_DEVICE + z * PAGE) == DevicePte(OTHER_DEVICE);
    assert !LeadsToDevice(y.vm.spaces[Cur(x).space], x.nextMmio, OTHER_DEVICE, z);
    assert PageDown(OTHER_DEVICE) == OTHER_DEVICE && z < DivCeil(OTHER_DEVICE % PAGE + PAGE, PAGE);
  }

  lemma IoMapIs(m: State, phys: u64, len: u64)
    requires Awake(m) && !m.halted && Cur(m).resume == InUser
    ensures Next(m, IoMap(phys, len)) == SysIoMap(m, phys, len).0
  {
    hide SysIoMap;
  }

  lemma NoFrameAllocs(m: State, actions: seq<Action>)
    requires forall k :: 0 <= k < |actions| ==> !actions[k].FrameAlloc?
    ensures NeverTooLate(m, actions)
  {
    hide After;
  }
}
