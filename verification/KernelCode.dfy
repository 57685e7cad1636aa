// What can be executed: in every address space only pages that the program image asks
// to be executable, in every run.
module KernelCode {
  import opened Base
  import opened FramePool
  import opened Capability
  import opened AddressSpace
  import opened ElfImage
  import opened ElfMeaning
  import opened Machine
  import opened Syscalls
  import ElfFormat
  import KernelRuns

  // Some segment of the image that covers the page is executable.
  ghost predicate CodePage(image: seq<byte>, va: nat) {
    && CheckIdent(image).None? && ImageSegments(image).Some?
    && var wanted := Wanted(ImageSegments(image).value, va);
       wanted.Some? && wanted.value.executable
  }

  ghost predicate OnlyCode(vm: Vm, image: seq<byte>) {
    forall r, va :: r in vm.spaces && va in vm.spaces[r].pages && vm.spaces[r].pages[va].executable ==>
      CodePage(image, va)
  }

  // ----- Mapping -----

  lemma EnsureTableCode(vm: Vm, root: nat, key: TableKey, image: seq<byte>)
    requires root in vm.spaces && OnlyCode(vm, image)
    ensures OnlyCode(EnsureTable(vm, root, key).0, image)
  {
    hide Alloc, CodePage;
  }

  lemma MapPageCode(vm: Vm, root: nat, va: nat, pte: Pte, image: seq<byte>)
    requires root in vm.spaces && OnlyCode(vm, image) && (pte.executable ==> CodePage(image, va))
    ensures OnlyCode(MapPage(vm, root, va, pte).0, image)
  {
    hide EnsureTable, CodePage, Key;
    EnsureTableCode(vm, root, Key(3, va), image);
    var (v3, ok3) := EnsureTable(vm, root, Key(3, va));
    if ok3 {
      EnsureTableCode(v3, root, Key(2, va), image);
      var (v2, ok2) := EnsureTable(v3, root, Key(2, va));
      if ok2 {
        EnsureTableCode(v2, root, Key(1, va), image);
      }
    }
  }

  lemma {:induction false} MapRangeCode(vm: Vm, root: nat, va: nat, phys: nat, n: nat, device: bool, image: seq<byte>)
    requires root in vm.spaces && OnlyCode(vm, image)
    ensures OnlyCode(MapRange(vm, root, va, phys, n, device).0, image)
    decreases n
  {
    hide MapPage, OnlyCode;
    if n > 0 {
      var pte := if device then DevicePte(phys) else UserPte(phys, true, false);
      MapPageCode(vm, root, va, pte, image);
      MapRangeCode(MapPage(vm, root, va, pte).0, root, va + PAGE, phys + PAGE, n - 1, device, image);
    }
  }

  // A plan asks for execution only on code pages.
  ghost predicate PlansCode(plans: seq<PagePlan>, image: seq<byte>) {
    forall i :: 0 <= i < |plans| && plans[i].executable ==> CodePage(image, plans[i].va)
  }

  lemma {:induction false} AllocMapAllCode(vm: Vm, root: nat, plans: seq<PagePlan>, image: seq<byte>)
    requires root in vm.spaces && OnlyCode(vm, image) && PlansCode(plans, image)
    ensures OnlyCode(AllocMapAll(vm, root, plans).0, image)
    decreases |plans|
  {
    hide MapPage, CodePage, Alloc;
    if plans != [] {
      var (w, got) := AllocFor(vm, Private(root));
      if got.Some? {
        MapPageCode(w, root, plans[0].va, UserPte(got.value, plans[0].writable, plans[0].executable), image);
      }
      AllocMapAllCode(AllocMap(vm, root, plans[0]).0, root, plans[1..], image);
    }
  }

  lemma DataCode(va: nat, n: nat, image: seq<byte>)
    ensures PlansCode(DataPages(va, n), image)
  {
  }

  lemma ImagePlanCode(image: seq<byte>)
    requires CheckIdent(image).None? && ImageSegments(image).Some?
    ensures PlansCode(PlanOf(ImageSegments(image).value), image)
  {
    hide ImageSegments, PlanOf, Wanted, CheckIdent;
    var segs := ImageSegments(image).value;
    var plan := PlanOf(segs);
    forall i | 0 <= i < |plan| && plan[i].executable
      ensures CodePage(image, plan[i].va)
    {
      PlanMeaning(segs, plan[i].va);
      FindIt(plan, i);
    }
  }

  lemma {:induction false} FindIt(plan: seq<PagePlan>, i: nat)
    requires i < |plan| && Sorted(plan)
    ensures Find(plan, plan[i].va) == Some(plan[i])
  {
    if i > 0 {
      FindIt(plan[1..], i - 1);
    }
  }

  lemma CreateSpaceCode(vm: Vm, image: seq<byte>)
    requires OnlyCode(vm, image)
    ensures OnlyCode(CreateSpace(vm, image).0, image)
  {
    hide Alloc, AllocMapAll, ImageSegments, PlanOf, CheckIdent, AllCopyable, AddressesFit, LeValue, CodePage, DataPages,
      PlansCode;
    var (v1, root) := NewSpace(vm);
    if root.Some? {
      NewSpaceCode(vm, image);
      LoadCode(v1, root.value, image);
      DataCode(USER_STACK_VA, USER_STACK_PAGES, image);
      hide LoadInto, NewSpace, OnlyCode;
      var v2 := LoadInto(v1, root.value, image).0;
      AllocMapAllCode(v2, root.value, DataPages(USER_STACK_VA, USER_STACK_PAGES), image);
    }
  }

  lemma NewSpaceCode(vm: Vm, image: seq<byte>)
    requires OnlyCode(vm, image)
    ensures OnlyCode(NewSpace(vm).0, image)
  {
    hide Alloc, CodePage;
  }

  lemma LoadCode(vm: Vm, root: nat, image: seq<byte>)
    requires root in vm.spaces && OnlyCode(vm, image)
    ensures OnlyCode(LoadInto(vm, root, image).0, image)
  {
    hide AllocMapAll, ImageSegments, PlanOf, CheckIdent, AllCopyable, AddressesFit, LeValue, OnlyCode, PlansCode;
    if CheckIdent(image).None? && ImageSegments(image).Some? {
      ImagePlanCode(image);
      AllocMapAllCode(vm, root, PlanOf(ImageSegments(image).value), image);
    }
  }

  // ----- Steps -----

  ghost predicate CodeKept(m: State, w: State) {
    w.image == m.image && (OnlyCode(m.vm, m.image) ==> OnlyCode(w.vm, m.image))
  }

  lemma FrameAllocCode(m: State, a: Action)
    requires Awake(m) && a.FrameAlloc?
    ensures CodeKept(m, Syscall(m, a).0)
  {
    hide AllocContiguous, FreeRun, MapRange, UserBuffer, Charge, Refund, Insert, Record, CodePage;
    var (vm, run) := AllocRun(m.vm, a.pages, None);
    if run.Some? && OnlyCode(m.vm, m.image) {
      MapRangeCode(vm, Cur(m).space, m.nextShared, run.value, a.pages, false, m.image);
    }
  }

  lemma DmaAllocCode(m: State, a: Action)
    requires Awake(m) && a.DmaAlloc?
    ensures CodeKept(m, Syscall(m, a).0)
  {
    hide AllocContiguous, MapRange, UserBuffer, Charge, Refund, DivCeil, Record, CodePage;
    var pages := DivCeil(a.length, PAGE);
    var (vm, run) := AllocRun(m.vm, pages, Some(Cur(m).space));
    if run.Some? && OnlyCode(m.vm, m.image) {
      MapRangeCode(vm, Cur(m).space, m.nextDma, run.value, pages, false, m.image);
    }
  }

  lemma MappingCode(m: State, a: Action)
    requires Awake(m) && (a.MapFrame? || a.IoMap?)
    ensures CodeKept(m, Syscall(m, a).0)
  {
    hide MapRange, UserBuffer, DivCeil, Get, SlotsAuthorizeMmio, OnlyCode;
    if OnlyCode(m.vm, m.image) {
      var root := Cur(m).space;
      if a.MapFrame? {
        if Get(Cur(m).caps, a.capSlot).Some? {
          var cap := Get(Cur(m).caps, a.capSlot).value;
          MapRangeCode(m.vm, root, m.nextShared, cap.obj, cap.badge, false, m.image);
        }
      } else {
        var base := PageDown(a.phys);
        MapRangeCode(m.vm, root, m.nextMmio, base, DivCeil(a.phys - base + a.length, PAGE), true, m.image);
      }
    }
  }

  lemma SbrkCode(m: State, a: Action)
    requires Awake(m) && a.Sbrk?
    ensures CodeKept(m, Syscall(m, a).0)
  {
    hide AllocMapAll, PageUp, DataPages, OnlyCode;
    var before, after: int := Cur(m).heapBreak, Cur(m).heapBreak + a.delta;
    if OnlyCode(m.vm, m.image) && after >= 0 {
      var from, to := PageUp(before), PageUp(after);
      var n := if a.delta > 0 && from < to then (to - from) / PAGE else 0;
      DataCode(from, n, m.image);
      AllocMapAllCode(m.vm, Cur(m).space, DataPages(from, n), m.image);
    }
  }

  lemma CreationCode(m: State, a: Action)
    requires Awake(m) && (a.Spawn? || a.SpawnEnv?)
    ensures CodeKept(m, Syscall(m, a).0)
  {
    hide CreateSpace, AllocMapAll, UserRange, DivCeil, DataPages, SeedCaps, Insert, OnlyCode;
    if OnlyCode(m.vm, m.image) {
      CreateSpaceCode(m.vm, m.image);
      var (vm, made) := CreateSpace(m.vm, m.image);
      if made.Some? && a.SpawnEnv? {
        var pages := DivCeil(a.len, PAGE);
        DataCode(HEAP_START, pages, m.image);
        AllocMapAllCode(vm, made.value.0, DataPages(HEAP_START, pages), m.image);
      }
    }
  }

  lemma PlainCode(m: State, a: Action)
    requires Awake(m) && KernelRuns.LeavesMemory(a)
    ensures CodeKept(m, Syscall(m, a).0)
  {
    hide PickNext, FindPid, UserBuffer, Insert, Get, Or, OnlyCode;
  }

  lemma LoopCode(m: State, id: nat, out: u64, dst: u64)
    requires Running(m)
    ensures CodeKept(m, RecvLoop(m, id, out, dst).0)
    ensures CodeKept(m, WaitLoop(m, id).0) && CodeKept(m, WaitPidLoop(m, id).0)
  {
    hide PickNext, FindPid, UserBuffer, Insert, OnlyCode;
  }

  lemma NextCode(m: State, a: Action)
    requires Awake(m)
    ensures CodeKept(m, Next(m, a))
  {
    hide Syscall, RecvLoop, WaitLoop, WaitPidLoop, OnlyCode;
    if !m.halted {
      match Cur(m).resume
      case InRecv(id, out, dst) => LoopCode(m, id, out, dst);
      case InWait(id) => LoopCode(m, id, 0, 0);
      case InWaitPid(target) => LoopCode(m, target, 0, 0);
      case Abandoned =>
      case InUser =>
        match a
        case FrameAlloc(_, _, _) => FrameAllocCode(m, a);
        case DmaAlloc(_, _) => DmaAllocCode(m, a);
        case MapFrame(_, _) => MappingCode(m, a);
        case IoMap(_, _) => MappingCode(m, a);
        case Sbrk(_) => SbrkCode(m, a);
        case Spawn(_) => CreationCode(m, a);
        case SpawnEnv(_, _, _) => CreationCode(m, a);
        case _ => PlainCode(m, a);
    }
  }

  lemma BootCode(m: State)
    requires Boot(m)
    ensures OnlyCode(m.vm, m.image)
  {
    hide CreateSpace, SeedCaps, VmOk, CodePage;
    var before: Vm :|
      KernelOnly(before) && CreateSpace(before, m.image) == (m.vm, Some((m.procs[0].space, m.procs[0].entry)));
    CreateSpaceCode(before, m.image);
  }

  lemma {:induction false} RunCode(m: State, actions: seq<Action>)
    requires Boot(m)
    ensures var w := After(m, actions); w.image == m.image && OnlyCode(w.vm, m.image)
  {
    hide Awake, Boot, Next, OnlyCode;
    if actions == [] {
      BootCode(m);
    } else {
      var init, a := actions[..|actions| - 1], actions[|actions| - 1];
      RunCode(m, init);
      KernelRuns.RunSafe(m, init);
      NextCode(After(m, init), a);
    }
  }

  // In every run from boot: what any process can execute is a page that a loadable
  // header of the image marks executable. Stack, heap, environment, shared, DMA and
  // device memory never are.
  lemma OnlyImageCode(m: State, actions: seq<Action>, e: ElfFormat.FileHeader, table: seq<ElfFormat.ProgramHeader>,
                      root: nat, va: nat)
    requires Boot(m) && ElfFormat.Describes(m.image, e, table)
    ensures var spaces := After(m, actions).vm.spaces;
      root in spaces && va in spaces[root].pages && spaces[root].pages[va].executable ==>
        ElfFormat.AskedExecutable(table, va)
  {
    hide Boot, After, ElfFormat.Describes, ImageSegments, Wanted, ElfFormat.Loadable, ElfFormat.AskedExecutable,
      CheckIdent;
    RunCode(m, actions);
    ElfFormat.ReadsLayout(m.image, e, table);
    ElfFormat.WantedByTable(table, va);
    var spaces := After(m, actions).vm.spaces;
    if root in spaces && va in spaces[root].pages && spaces[root].pages[va].executable {
      assert CodePage(m.image, va);
    }
  }
}
