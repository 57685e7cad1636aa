// SPAWN and SPAWN_ENV seen from before the call: exactly when they make a process, and
// what that process is.
module KernelCreation {
  import opened Base
  import opened FramePool
  import opened Capability
  import opened AddressSpace
  import opened ElfImage
  import opened ElfMeaning
  import opened Machine
  import opened Syscalls
  import opened KernelSafety
  import opened KernelMemory
  import opened KernelProgress
  import opened FrameCost
  import opened KernelCalls
  import ElfFormat
  import KernelGrowth

  // ----- The cost of an address space -----

  function ImagePlan(image: seq<byte>): seq<PagePlan> {
    if CheckIdent(image).None? && ImageSegments(image).Some? then PlanOf(ImageSegments(image).value) else []
  }

  function Stack(): seq<PagePlan> {
    DataPages(USER_STACK_VA, USER_STACK_PAGES)
  }

  // The pages a new space starts with.
  function FirstPages(image: seq<byte>): set<nat> {
    PlanPages(ImagePlan(image)) + PlanPages(Stack())
  }

  // One frame for the top table, one for each page, one for each table on the way.
  function CreationCost(image: seq<byte>): nat {
    1 + |ImagePlan(image)| + USER_STACK_PAGES + |Path(FirstPages(image))|
  }

  // The new space has exactly those pages and tables, for exactly that cost, and all
  // other spaces are as they were.
  ghost predicate CreatedFor(v: Vm, w: Vm, root: nat, image: seq<byte>) {
    && VmOk(v) && VmOk(w) && root in w.spaces && root !in v.spaces
    && w.spaces[root].pages.Keys == FirstPages(image) && w.spaces[root].tables.Keys == Path(FirstPages(image))
    && Left(w) + CreationCost(image) == Left(v)
  }

  // A new address space is made exactly when the image is in order and there are that
  // many frames.
  lemma CreateSpaceIff(vm: Vm, image: seq<byte>)
    requires VmOk(vm)
    ensures var (w, made) := CreateSpace(vm, image);
      && (made.Some? <==> ImageInOrder(image) && Left(vm) >= CreationCost(image))
      && (made.Some? ==> CreatedFor(vm, w, made.value.0, image))
  {
    hide VmOk, LoadInto, AllocMapAll, ImageInOrder, CreationCost, NewSpace, CreatedFor, Left, DataPages;
    NewSpaceCost(vm);
    var (v, root) := NewSpace(vm);
    if root.Some? {
      LoadIff(v, root.value, image);
      StackIff(vm, v, root.value, image);
    } else {
      CostIsPositive(image);
    }
  }

  lemma CostIsPositive(image: seq<byte>)
    ensures CreationCost(image) > 0
  {
    hide Path, FirstPages, ImagePlan;
  }

  // A top table costs one frame.
  ghost predicate SpaceMade(v: Vm, w: Vm, r: Option<nat>) {
    && VmOk(v) && VmOk(w) && (r.Some? <==> Left(v) > 0)
    && (r.Some? ==> r.value !in v.spaces && Fresh(w, r.value) && Left(w) + 1 == Left(v))
  }

  lemma NewSpaceCost(vm: Vm)
    requires VmOk(vm)
    ensures SpaceMade(vm, NewSpace(vm).0, NewSpace(vm).1)
  {
    NewSpaceOk(vm);
    PoolCost(vm);
    hide VmOk, NewSpace, Left, Extends;
  }

  lemma PoolCost(vm: Vm)
    requires VmOk(vm) && VmOk(NewSpace(vm).0)
    ensures var (w, r) := NewSpace(vm); (r.Some? <==> Left(vm) > 0) && (r.Some? ==> Left(w) + 1 == Left(vm))
  {
    AllocProgress(vm.pool);
    hide SpaceOk, RunsOk, Alloc, Available, Valid;
    var (q, got) := Alloc(vm.pool);
    assert NewSpace(vm).0.pool == q && (NewSpace(vm).1.Some? <==> got.Some?);
  }

  ghost predicate Fresh(v: Vm, root: nat) {
    root in v.spaces && v.spaces[root] == Space(map[], map[])
  }

  // Can the segments be loaded into an empty space, apart from frames?
  ghost predicate Loadable(image: seq<byte>) {
    && CheckIdent(image).None? && ImageSegments(image).Some?
    && AddressesFit(ImageSegments(image).value)
    && AllCopyable(image, ImageSegments(image).value, ImagePlan(image))
  }

  lemma LoadIff(vm: Vm, root: nat, image: seq<byte>)
    requires VmOk(vm) && Fresh(vm, root)
    ensures var (w, r) := LoadInto(vm, root, image);
      && (r.Entry? <==> Loadable(image) && AllocMapAll(vm, root, ImagePlan(image)).1 == Backed)
      && (r.Entry? ==> w == AllocMapAll(vm, root, ImagePlan(image)).0)
  {
    hide VmOk, AllocMapAll, ImageSegments, PlanOf, AllCopyable, AddressesFit, CheckIdent;
  }

  lemma PlanIsNew(vm: Vm, root: nat, segs: seq<Segment>)
    requires Fresh(vm, root)
    ensures NewAndDistinct(vm, root, PlanOf(segs))
  {
    hide PlanOf;
    PlanMeaning(segs, 0);
  }

  lemma ImagePlanIsNew(vm: Vm, root: nat, image: seq<byte>)
    requires Fresh(vm, root)
    ensures NewAndDistinct(vm, root, ImagePlan(image))
  {
    hide ImageSegments, PlanOf, CheckIdent;
    if CheckIdent(image).None? && ImageSegments(image).Some? {
      PlanIsNew(vm, root, ImageSegments(image).value);
    }
  }

  // The image's pages first, then the stack.
  lemma StackIff(u: Vm, vm: Vm, root: nat, image: seq<byte>)
    requires VmOk(u) && VmOk(vm) && Fresh(vm, root) && root !in u.spaces && Left(vm) + 1 == Left(u)
    ensures var (w, b) := AllocMapAll(vm, root, ImagePlan(image));
      var (x, c) := AllocMapAll(w, root, Stack());
      && (Loadable(image) && b == Backed && c == Backed <==> ImageInOrder(image) && Left(u) >= CreationCost(image))
      && (b == Backed && c == Backed ==> CreatedFor(u, x, root, image))
  {
    hide VmOk, AllocMapAll, Left, Path, PlanPages, NewAndDistinct, ImagePlan, Stack, Loadable, ImageInOrder, Reached,
      CreatedFor, FirstPages, CreationCost, Missing;
    var plan, stack := ImagePlan(image), Stack();
    var (w, b) := AllocMapAll(vm, root, plan);
    ImagePlanIsNew(vm, root, image);
    AllocMapAllIff(vm, root, plan);
    if b == Backed {
      AllocMapAllCost(vm, root, plan);
      AllocMapAllOk(vm, root, plan);
      PlanBackedOk(vm, w, root, PlanPages(plan), |plan|);
      AllocMapAllIff(w, root, stack);
      StackCost(u, vm, w, root, image);
      var (x, c) := AllocMapAll(w, root, stack);
      if c == Backed {
        AllocMapAllCost(w, root, stack);
        BothBacked(u, vm, w, x, root, image);
      }
    } else {
      ImageTooDear(u, vm, root, image);
    }
  }

  lemma EmptyLacksAll(space: Space, tables: set<TableKey>)
    requires space.tables == map[]
    ensures Lacking(space, tables) == |tables|
  {
    assert tables - space.tables.Keys == tables;
  }

  lemma ImageTooDear(u: Vm, vm: Vm, root: nat, image: seq<byte>)
    requires VmOk(u) && VmOk(vm) && Fresh(vm, root) && Left(vm) + 1 == Left(u)
    requires Left(vm) < |ImagePlan(image)| + Missing(vm.spaces[root], PlanPages(ImagePlan(image)))
    ensures Left(u) < CreationCost(image)
  {
    hide VmOk, Left, Path, PlanPages, ImagePlan, Stack, Lacking;
    var space := vm.spaces[root];
    var a, b := PlanPages(ImagePlan(image)), PlanPages(Stack());
    PathSplit(a, b);
    MoreMissing(space, Path(a), Path(b));
    EmptyLacksAll(space, Path(a) + Path(b));
  }

  // In order means loadable, and nothing of the stack is taken by the image.
  lemma InOrderMeans(w: Vm, root: nat, image: seq<byte>)
    requires root in w.spaces && w.spaces[root].pages.Keys == PlanPages(ImagePlan(image))
    ensures Loadable(image) && NewAndDistinct(w, root, Stack()) <==> ImageInOrder(image)
  {
    hide ImageSegments, PlanOf, AllCopyable, AddressesFit, CheckIdent;
    var plan := ImagePlan(image);
    forall i: nat | i < USER_STACK_PAGES
      ensures Stack()[i].va == USER_STACK_VA + i * PAGE
      ensures USER_STACK_VA + i * PAGE in w.spaces[root].pages.Keys <==> InPlan(plan, USER_STACK_VA + i * PAGE)
    {
      PlannedPages(plan, USER_STACK_VA + i * PAGE);
    }
  }

  lemma PlannedPages(plan: seq<PagePlan>, va: nat)
    ensures va in PlanPages(plan) <==> InPlan(plan, va)
  {
    if InPlan(plan, va) {
      var i :| 0 <= i < |plan| && plan[i].va == va;
      assert plan[i] in plan;
    }
  }

  lemma StackCost(u: Vm, vm: Vm, w: Vm, root: nat, image: seq<byte>)
    requires VmOk(u) && VmOk(vm) && VmOk(w) && Fresh(vm, root) && root in w.spaces && Left(vm) + 1 == Left(u)
    requires PlanBacked(vm, w, root, PlanPages(ImagePlan(image)), |ImagePlan(image)|)
    ensures Loadable(image) && NewAndDistinct(w, root, Stack())
            && Left(w) >= |Stack()| + Missing(w.spaces[root], PlanPages(Stack()))
            <==> ImageInOrder(image) && Left(u) >= CreationCost(image)
  {
    hide VmOk, Left, Path, PlanPages, ImagePlan, Loadable, NewAndDistinct, ImageInOrder, Lacking, Reached;
    var a, b := PlanPages(ImagePlan(image)), PlanPages(Stack());
    assert w.spaces[root].pages.Keys == a;
    InOrderMeans(w, root, image);
    PathSplit(a, b);
    LeftSplit(vm, w, root, Path(a), Path(b), |ImagePlan(image)|, |Stack()|);
    EmptyLacksAll(vm.spaces[root], Path(a) + Path(b));
  }

  lemma BothBacked(u: Vm, vm: Vm, w: Vm, x: Vm, root: nat, image: seq<byte>)
    requires VmOk(u) && VmOk(vm) && Fresh(vm, root) && root !in u.spaces && Left(vm) + 1 == Left(u)
    requires PlanBacked(vm, w, root, PlanPages(ImagePlan(image)), |ImagePlan(image)|)
    requires PlanBacked(w, x, root, PlanPages(Stack()), |Stack()|)
    ensures CreatedFor(u, x, root, image)
  {
    hide VmOk, Left, Path, PlanPages, ImagePlan, Lacking;
    var a, b := PlanPages(ImagePlan(image)), PlanPages(Stack());
    PathSplit(a, b);
    ReachedTwice(vm, w, x, root, Path(a), Path(b), |ImagePlan(image)|, |Stack()|);
    EmptyLacksAll(vm.spaces[root], Path(a) + Path(b));
    assert {} + (Path(a) + Path(b)) == Path(a) + Path(b);
  }

  // ----- The calls -----

  predicate IsCreation(a: Action) {
    a.Spawn? || a.SpawnEnv?
  }

  // Does the call hand an environment block to the child?
  predicate HasEnv(a: Action) {
    a.SpawnEnv? && a.len > 0 && a.envp > 0
  }

  function EnvPages(a: Action): nat {
    if HasEnv(a) then DivCeil(a.len, PAGE) else 0
  }

  ghost predicate EnvReadable(m: State, a: Action)
    requires Awake(m)
  {
    HasEnv(a) ==> a.envp + a.len < USER_ADDR_MAX && UserRange(m.vm.spaces[Cur(m).space], a.envp, a.len, false)
  }

  // What creation costs with n pages of environment.
  function CostWith(image: seq<byte>, n: nat): nat {
    1 + |ImagePlan(image)| + USER_STACK_PAGES + n + |Path(FirstPages(image) + Window(HEAP_START, n))|
  }

  // The handle is not wanted, or the slot named for it is empty.
  predicate HandleFits(m: State, capSlot: nat)
    requires Running(m)
  {
    capSlot == U64_MAX || (capSlot < |Cur(m).caps| && Cur(m).caps[capSlot] == None)
  }

  // SPAWN and SPAWN_ENV make a process exactly when all of this is there before.
  lemma SpawnSucceedsIff(m: State, a: Action)
    requires User(m) && MemoryOk(m) && IsCreation(a)
    ensures VmOk(m.vm)
    ensures |Next(m, a).procs| > |m.procs| <==>
            && ImageInOrder(m.image) && EnvReadable(m, a) && HandleFits(m, a.capSlot)
            && Window(HEAP_START, EnvPages(a)) !! FirstPages(m.image)
            && Left(m.vm) >= CostWith(m.image, EnvPages(a))
  {
    hide FrameCapsSound, PagesEntitled, SpacesOwned, VmOk, CreateSpace, ImageInOrder, CreatedFor, Left, UserRange,
      DataPages, AllocMapAll, DivCeil, CreationCost, CostWith, FirstPages, Window, SeedCaps;
    CreateSpaceIff(m.vm, m.image);
    CostOfNone(m.image);
    var (vm, made) := CreateSpace(m.vm, m.image);
    if made.Some? && HasEnv(a) {
      CreateSpaceOk(m.vm, m.image);
      ParentUnchanged(m.vm, vm, Cur(m).space);
      EnvIff(m.vm, vm, made.value.0, m.image, EnvPages(a));
    } else if made.None? {
      CostGrows(m.image, EnvPages(a));
    }
  }

  lemma CostOfNone(image: seq<byte>)
    ensures Window(HEAP_START, 0) == {} && CostWith(image, 0) == CreationCost(image)
  {
    hide Path;
    assert FirstPages(image) + Window(HEAP_START, 0) == FirstPages(image);
  }

  lemma CostGrows(image: seq<byte>, n: nat)
    ensures CreationCost(image) <= CostWith(image, n)
  {
    hide Path, FirstPages, ImagePlan, Window;
    PathSplit(FirstPages(image), Window(HEAP_START, n));
    MoreTables(Path(FirstPages(image)), Path(Window(HEAP_START, n)));
  }

  lemma MoreTables(a: set<TableKey>, b: set<TableKey>)
    ensures |a + b| == |a| + |b - a|
  {
    assert a + b == a + (b - a);
  }

  lemma ParentUnchanged(v: Vm, w: Vm, root: nat)
    requires OldSpacesKept(v, w) && root in v.spaces
    ensures root in w.spaces && w.spaces[root] == v.spaces[root]
  {
    hide VmOk;
  }

  // The pages for the environment come after those of the image and the stack.
  lemma EnvIff(v: Vm, w: Vm, root: nat, image: seq<byte>, n: nat)
    requires CreatedFor(v, w, root, image)
    ensures VmOk(v) && root in w.spaces
    ensures AllocMapAll(w, root, DataPages(HEAP_START, n)).1 == Backed <==>
            Window(HEAP_START, n) !! FirstPages(image) && Left(v) >= CostWith(image, n)
  {
    hide VmOk, Left, Path, FirstPages, ImagePlan, Window, AllocMapAll, DataPages;
    KernelGrowth.BackedIff(w, root, HEAP_START, n);
    PathSplit(FirstPages(image), Window(HEAP_START, n));
    MoreTables(Path(FirstPages(image)), Path(Window(HEAP_START, n)));
  }

  // ----- The child -----

  // A child's table: two endpoints and a notification, nothing else.
  ghost predicate ChildSeeds(caps: Slots) {
    && |caps| == 64
    && forall k :: 0 <= k < 64 ==>
         caps[k] == if k == 3 then Some(EndpointCap(0)) else if k == 4 then Some(EndpointCap(1))
                    else if k == 5 then Some(NotificationCap(0)) else None
  }

  // Ready to start at the entry point of its image, in a space of its own.
  ghost predicate IsChild(m: State, child: Proc, w: Vm, a: Action, entry: nat) {
    && child.pid == |m.procs| && child.state == Ready && child.resume == InUser && child.entry == entry
    && ChildSeeds(child.caps) && child.space in w.spaces && child.space !in m.vm.spaces
    && child.heapBreak == HEAP_START + EnvPages(a) * PAGE
    && (child.envpUser, child.envpLen) == if HasEnv(a) then (HEAP_START, a.len) else (0, 0)
  }

  // One process was added; its parent was told its PID and given the handle where it
  // asked for it.
  ghost predicate ChildAdded(m: State, w: State, r: Reply, a: Action, entry: nat)
    requires Running(m) && IsCreation(a)
  {
    && HandleFits(m, a.capSlot)
    && |w.procs| == |m.procs| + 1 && w.nextPid == m.nextPid + 1 && r == Returned(|m.procs|, [])
    && IsChild(m, w.procs[|m.procs|], w.vm, a, entry)
    && (forall i :: 0 <= i < |m.procs| && i != m.current ==> w.procs[i] == m.procs[i])
    && w.procs[m.current] == if a.capSlot == U64_MAX then Cur(m)
                             else Cur(m).(caps := Cur(m).caps[a.capSlot := Some(ProcessCap(|m.procs|))])
  }

  ghost predicate NobodyAdded(m: State, w: State, r: Reply) {
    r == Refused() && w.procs == m.procs && w.nextPid == m.nextPid
  }

  // A process was added or nobody; but for the table of processes, the memory and the
  // history everything stays.
  ghost predicate Creates(m: State, w: State, r: Reply, a: Action, entry: nat)
    requires Running(m) && IsCreation(a)
  {
    && w == m.(procs := w.procs, nextPid := w.nextPid, vm := w.vm, log := w.log)
    && if |w.procs| > |m.procs| then ChildAdded(m, w, r, a, entry) else NobodyAdded(m, w, r)
  }

  lemma SpawnCreates(m: State, a: Action, e: ElfFormat.FileHeader, table: seq<ElfFormat.ProgramHeader>)
    requires User(m) && TableOk(m) && MemoryOk(m) && IsCreation(a) && ElfFormat.Describes(m.image, e, table)
    ensures Creates(m, Step(m, a).0, Step(m, a).1, a, e.entry)
  {
    hide MemoryOk, VmOk, ElfFormat.Describes, Creates, SysSpawn, SysSpawnEnv, TableOk;
    CreationIs(m, a);
    if HasEnv(a) {
      SpawnWithEnv(m, a, e, table);
    } else {
      SpawnWithout(m, a, e, table);
    }
  }

  lemma CreationIs(m: State, a: Action)
    requires User(m) && IsCreation(a)
    ensures Step(m, a) == if HasEnv(a) then SysSpawnEnv(m, a.envp, a.len, a.capSlot) else SysSpawn(m, a.capSlot)
  {
    hide SysSpawn, CreateSpace, UserRange, DataPages, AllocMapAll, DivCeil, SeedCaps, AddChild;
  }

  lemma NobodyCreated(m: State, v: Vm, a: Action, entry: nat)
    requires Running(m) && IsCreation(a)
    ensures Creates(m, m.(vm := v), Refused(), a, entry)
  {
  }

  lemma SpawnWithout(m: State, a: Action, e: ElfFormat.FileHeader, table: seq<ElfFormat.ProgramHeader>)
    requires Awake(m) && TableOk(m) && MemoryOk(m) && IsCreation(a) && !HasEnv(a)
    requires ElfFormat.Describes(m.image, e, table)
    ensures Creates(m, SysSpawn(m, a.capSlot).0, SysSpawn(m, a.capSlot).1, a, e.entry)
  {
    hide FrameCapsSound, PagesEntitled, SpacesOwned, VmOk, CreateSpace, SeedCaps, ElfFormat.Describes, CreatedFor,
      AddChild, Creates, IsChild, TableOk;
    CreateSpaceIff(m.vm, m.image);
    CreatedEntry(m.vm, m.image, e, table);
    var (vm, made) := CreateSpace(m.vm, m.image);
    NobodyCreated(m, vm, a, e.entry);
    if made.Some? {
      var (root, entry) := made.value;
      CreatedNew(m.vm, vm, root, m.image);
      ChildIs(m, NewProc(m.nextPid, root, entry), vm, a, e.entry);
      AddChildAdds(m, m.(vm := vm), NewProc(m.nextPid, root, entry), a, e.entry);
    }
  }

  lemma SpawnWithEnv(m: State, a: Action, e: ElfFormat.FileHeader, table: seq<ElfFormat.ProgramHeader>)
    requires Awake(m) && TableOk(m) && MemoryOk(m) && HasEnv(a) && ElfFormat.Describes(m.image, e, table)
    ensures var (w, r) := SysSpawnEnv(m, a.envp, a.len, a.capSlot); Creates(m, w, r, a, e.entry)
  {
    hide FrameCapsSound, PagesEntitled, SpacesOwned, VmOk, CreateSpace, DataPages, AllocMapAll, DivCeil, SeedCaps,
      ElfFormat.Describes, CreatedFor, AddChild, Creates, IsChild, TableOk, SysSpawnEnv;
    CreateSpaceIff(m.vm, m.image);
    CreatedEntry(m.vm, m.image, e, table);
    SpawnEnvCases(m, a);
    var (vm, made) := CreateSpace(m.vm, m.image);
    NobodyCreated(m, vm, a, e.entry);
    if made.Some? {
      var (root, entry) := made.value;
      var copied := AllocMapAll(vm, root, DataPages(HEAP_START, DivCeil(a.len, PAGE))).0;
      CreatedNew(m.vm, vm, root, m.image);
      NobodyCreated(m, copied, a, e.entry);
      assert root in copied.spaces.Keys;
      ChildIs(m, EnvChild(m, a, root, entry), copied, a, e.entry);
      AddChildAdds(m, m.(vm := copied), EnvChild(m, a, root, entry), a, e.entry);
    }
  }

  function EnvChild(m: State, a: Action, root: nat, entry: nat): Proc
    requires a.SpawnEnv?
  {
    NewProc(m.nextPid, root, entry).(
      heapBreak := HEAP_START + DivCeil(a.len, PAGE) * PAGE, envpUser := HEAP_START, envpLen := a.len)
  }

  // The ways a SPAWN_ENV can go once it has tried to make the space.
  lemma SpawnEnvCases(m: State, a: Action)
    requires Awake(m) && HasEnv(a)
    ensures var (vm, made) := CreateSpace(m.vm, m.image);
      var got := SysSpawnEnv(m, a.envp, a.len, a.capSlot);
      || got == (m.(vm := vm), Refused())
      || (made.Some? &&
          var copied := AllocMapAll(vm, made.value.0, DataPages(HEAP_START, DivCeil(a.len, PAGE))).0;
          || got == (m.(vm := copied), Refused())
          || got == AddChild(m.(vm := copied), EnvChild(m, a, made.value.0, made.value.1), a.capSlot))
  {
    hide CreateSpace, UserRange, DataPages, AllocMapAll, DivCeil, SeedCaps, AddChild, SysSpawn;
  }

  lemma ChildIs(m: State, child: Proc, w: Vm, a: Action, entry: nat)
    requires TableOk(m) && child.space in w.spaces && child.space !in m.vm.spaces
    requires child == NewProc(m.nextPid, child.space, entry).(
                        heapBreak := HEAP_START + EnvPages(a) * PAGE,
                        envpUser := if HasEnv(a) then HEAP_START else 0, envpLen := if HasEnv(a) then a.len else 0)
    ensures IsChild(m, child, w, a, entry)
  {
    hide SeedCaps, ChildSeeds;
    ChildSeeded(m.nextPid);
  }

  lemma AddChildAdds(m: State, c: State, child: Proc, a: Action, entry: nat)
    requires TableOk(m) && IsCreation(a) && c == m.(vm := c.vm)
    requires IsChild(m, child, c.vm, a, entry)
    ensures Creates(m, AddChild(c, child, a.capSlot).0, AddChild(c, child, a.capSlot).1, a, entry)
  {
    hide ChildSeeds, EnvPages;
  }

  lemma CreatedNew(v: Vm, w: Vm, root: nat, image: seq<byte>)
    requires CreatedFor(v, w, root, image)
    ensures root in w.spaces && root !in v.spaces
  {
  }

  // The first process starts with three more: all PCI ports, the PCI memory hole, and
  // 256 KiB of budget.
  ghost predicate RootSeeds(caps: Slots) {
    && |caps| == 64
    && forall k :: 0 <= k < 64 ==>
         caps[k] == if k == 0 then Some(IoPortCap(0xc000, 0x4000))
                    else if k == 1 then Some(IoMemCap(0xc000_0000, 0x4000_0000))
                    else if k == 2 then Some(UntypedCap(0x4_0000))
                    else if k == 3 then Some(EndpointCap(0)) else if k == 4 then Some(EndpointCap(1))
                    else if k == 5 then Some(NotificationCap(0)) else None
  }

  lemma BootSeeds(m: State)
    requires Boot(m)
    ensures |m.procs| == 1 && RootSeeds(m.procs[0].caps)
  {
    hide CreateSpace, KernelOnly;
  }

  // A new space has its stack: sixteen pages, writable and not executable.
  lemma StackIsThere(vm: Vm, image: seq<byte>, a: nat)
    requires VmOk(vm) && CreateSpace(vm, image).1.Some? && 0x80_0000 <= a < 0x81_0000
    ensures var (w, made) := CreateSpace(vm, image);
      var space := w.spaces[made.value.0];
      UserByte(space, a, true) && !space.pages[PageDown(a)].executable
  {
    hide VmOk, LoadInto, AllocMapAll, NewSpace, Extends, SpaceGrown, NewPagesPrivate;
    NewSpaceOk(vm);
    var (v1, root) := NewSpace(vm);
    LoadIntoOk(v1, root.value, image);
    var v2 := LoadInto(v1, root.value, image).0;
    GrownVm(v1, v2, root.value);
    AllocMapAllExact(v2, root.value, Stack());
    var i := (a - USER_STACK_VA) / PAGE;
    assert Stack()[i].va == PageDown(a);
  }

  lemma GrownVm(v: Vm, w: Vm, root: nat)
    requires SpaceGrown(v, w, root)
    ensures VmOk(w) && root in w.spaces
  {
    hide VmOk, Extends;
  }

  lemma ChildSeeded(pid: nat)
    requires pid != 0
    ensures ChildSeeds(SeedCaps(pid))
  {
  }

  lemma CreatedEntry(vm: Vm, image: seq<byte>, e: ElfFormat.FileHeader, table: seq<ElfFormat.ProgramHeader>)
    requires VmOk(vm) && ElfFormat.Describes(image, e, table)
    ensures CreateSpace(vm, image).1.Some? ==> CreateSpace(vm, image).1.value.1 == e.entry
  {
    hide VmOk, LoadInto, AllocMapAll, DataPages, ElfFormat.Describes;
    NewSpaceOk(vm);
    var (v, root) := NewSpace(vm);
    if root.Some? {
      ElfFormat.EntryReported(v, root.value, image, e, table);
    }
  }
}
