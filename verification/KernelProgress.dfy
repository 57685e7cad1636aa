// Process creation succeeds whenever there is memory for it and the image is in
// order; in particular there are states in which the kernel can start.
module KernelProgress {
  import opened Base
  import opened FramePool
  import opened AddressSpace
  import opened ElfImage
  import opened ElfMeaning
  import opened Machine
  import opened Syscalls

  // ----- Frames -----

  // The frames a single-frame request can still be given.
  ghost function Available(p: Pool): nat
    requires Valid(p)
  {
    |p.free| + Remaining(p)
  }

  lemma {:induction false} BumpProgress(p: Pool)
    requires Valid(p)
    ensures var (q, r) := Bump(p, 1);
      && Valid(q) && q.free == p.free
      && (r.Some? <==> Remaining(p) > 0) && (r.Some? ==> Remaining(q) + 1 == Remaining(p))
      && (r.None? ==> Remaining(q) == 0)
    decreases |p.regions| - p.regionIdx
  {
    hide Partition, Ahead, FrameCount, RunFrames;
    if p.regionIdx < |p.regions| {
      if p.cursor + PAGE <= p.regions[p.regionIdx].end {
        TakeValid(p, 1);
        TakeCounts(p, 1);
      } else {
        NextRegionValid(p);
        SkipCounts(p);
        NothingToSkip(p.cursor, p.regions[p.regionIdx].end);
        BumpProgress(NextRegion(p));
      }
    }
  }

  lemma NothingToSkip(lo: nat, hi: nat)
    requires lo % PAGE == 0 && hi % PAGE == 0 && lo <= hi < lo + PAGE
    ensures FramesIn(lo, hi) == {}
  {
  }

  // A frame is granted if and only if one is available, and costs exactly one.
  lemma AllocProgress(p: Pool)
    requires Valid(p)
    ensures var (q, r) := Alloc(p);
      && Valid(q) && |q.free| <= |p.free|
      && (r.Some? <==> Available(p) > 0) && (r.Some? ==> Available(q) + 1 == Available(p))
      && (r.None? ==> Available(q) == 0)
  {
    hide Partition, FrameCount;
    AllocCorrect(p);
    if |p.free| == 0 {
      BumpProgress(p);
    }
  }

  // ----- Mapping -----

  // `w` has used up at most k of the frames available in `v`, and freed none.
  ghost predicate Spent(v: Vm, w: Vm, k: nat) {
    && VmOk(v) && VmOk(w) && |w.pool.free| <= |v.pool.free|
    && Available(w.pool) <= Available(v.pool) <= Available(w.pool) + k
  }

  lemma AllocForProgress(vm: Vm, use: Use)
    requires VmOk(vm) && !use.Run? && Available(vm.pool) > 0
    ensures AllocFor(vm, use).1.Some? && Spent(vm, AllocFor(vm, use).0, 1)
  {
    hide Valid, SpaceOk, RunsOk, Available, Alloc;
    AllocProgress(vm.pool);
    AllocForOk(vm, use);
  }

  lemma EnsureTableProgress(vm: Vm, root: nat, key: TableKey)
    requires VmOk(vm) && root in vm.spaces && Available(vm.pool) > 0
    ensures var (w, ok) := EnsureTable(vm, root, key);
      ok && Spent(vm, w, 1) && root in w.spaces && w.spaces[root].pages == vm.spaces[root].pages
  {
    hide VmOk, AllocFor, Available, Spent, Extends, OnlySpace;
    EnsureTableOk(vm, root, key);
    if key !in vm.spaces[root].tables {
      AllocForProgress(vm, Table(root));
      SamePoolSpent(vm, AllocFor(vm, Table(root)).0, EnsureTable(vm, root, key).0, 1);
    } else {
      SpentNothing(vm, 1);
    }
  }

  lemma SpentNothing(vm: Vm, k: nat)
    requires VmOk(vm)
    ensures Spent(vm, vm, k)
  {
    hide Available;
  }

  lemma SamePoolSpent(u: Vm, v: Vm, w: Vm, k: nat)
    requires Spent(u, v, k) && VmOk(w) && w.pool == v.pool
    ensures Spent(u, w, k)
  {
    hide Available, Valid;
  }

  lemma SpentTwice(u: Vm, v: Vm, w: Vm, j: nat, k: nat)
    requires Spent(u, v, j) && Spent(v, w, k)
    ensures Spent(u, w, j + k)
  {
    hide Available, VmOk;
  }

  lemma SpentEnough(v: Vm, w: Vm, k: nat, n: nat)
    requires Spent(v, w, k) && Available(v.pool) >= n
    ensures Available(w.pool) >= n - k
  {
    hide Available, VmOk;
  }

  // Three frames are always enough to map one page.
  lemma MapPageProgress(vm: Vm, root: nat, va: nat, pte: Pte)
    requires VmOk(vm) && root in vm.spaces && PteOk(vm.ledger, root, pte)
    requires Available(vm.pool) >= 3 && va !in vm.spaces[root].pages
    ensures MapPage(vm, root, va, pte).1 == Mapped && Spent(vm, MapPage(vm, root, va, pte).0, 3)
  {
    MapPageOk(vm, root, va, pte);
    hide VmOk, EnsureTable, Available, Spent, PteOk, Extends, OnlySpace;
    EnsureTableProgress(vm, root, Key(3, va));
    var v3 := EnsureTable(vm, root, Key(3, va)).0;
    SpentOk(vm, v3, 1);
    SpentEnough(vm, v3, 1, 3);
    EnsureTableProgress(v3, root, Key(2, va));
    var v2 := EnsureTable(v3, root, Key(2, va)).0;
    SpentTwice(vm, v3, v2, 1, 1);
    SpentOk(vm, v2, 2);
    SpentEnough(vm, v2, 2, 3);
    EnsureTableProgress(v2, root, Key(1, va));
    var v1 := EnsureTable(v2, root, Key(1, va)).0;
    SpentTwice(vm, v2, v1, 2, 1);
    SamePoolSpent(vm, v1, MapPage(vm, root, va, pte).0, 3);
  }

  lemma SpentOk(v: Vm, w: Vm, k: nat)
    requires Spent(v, w, k)
    ensures VmOk(v) && VmOk(w)
  {
    hide VmOk, Available;
  }

  lemma AllocMapProgress(vm: Vm, root: nat, plan: PagePlan)
    requires VmOk(vm) && root in vm.spaces && Available(vm.pool) >= 4 && plan.va !in vm.spaces[root].pages
    ensures AllocMap(vm, root, plan).1 == Backed && Spent(vm, AllocMap(vm, root, plan).0, 4)
  {
    hide VmOk, AllocFor, MapPage, Available, Spent;
    AllocForProgress(vm, Private(root));
    AllocForOk(vm, Private(root));
    var (w, r) := AllocFor(vm, Private(root));
    SpentEnough(vm, w, 1, 4);
    var pte := UserPte(r.value, plan.writable, plan.executable);
    MapPageProgress(w, root, plan.va, pte);
    SpentTwice(vm, w, MapPage(w, root, plan.va, pte).0, 1, 3);
  }

  ghost predicate NewAndDistinct(vm: Vm, root: nat, plans: seq<PagePlan>)
    requires root in vm.spaces
  {
    && (forall i :: 0 <= i < |plans| ==> plans[i].va !in vm.spaces[root].pages)
    && (forall i, j :: 0 <= i < j < |plans| ==> plans[i].va != plans[j].va)
  }

  lemma FirstIsNew(vm: Vm, root: nat, plans: seq<PagePlan>)
    requires root in vm.spaces && NewAndDistinct(vm, root, plans) && plans != []
    ensures plans[0].va !in vm.spaces[root].pages
  {
  }

  lemma RestIsNew(v: Vm, w: Vm, root: nat, plans: seq<PagePlan>)
    requires root in v.spaces && root in w.spaces && plans != [] && NewAndDistinct(v, root, plans)
    requires plans[0].va in w.spaces[root].pages
    requires w.spaces[root].pages == v.spaces[root].pages[plans[0].va := w.spaces[root].pages[plans[0].va]]
    ensures NewAndDistinct(w, root, plans[1..])
  {
    forall i | 0 <= i < |plans| - 1
      ensures plans[1..][i].va !in w.spaces[root].pages
    {
      assert plans[1..][i] == plans[i + 1];
    }
  }

  // Four frames a page back any plan of distinct, unmapped pages.
  lemma {:induction false} AllocMapAllProgress(vm: Vm, root: nat, plans: seq<PagePlan>)
    requires VmOk(vm) && root in vm.spaces && NewAndDistinct(vm, root, plans) && Available(vm.pool) >= 4 * |plans|
    ensures AllocMapAll(vm, root, plans).1 == Backed && Spent(vm, AllocMapAll(vm, root, plans).0, 4 * |plans|)
    decreases |plans|
  {
    hide VmOk, AllocMap, Available, Spent, NewAndDistinct;
    if plans == [] {
      SpentNothing(vm, 0);
    } else {
      FirstIsNew(vm, root, plans);
      AllocMapProgress(vm, root, plans[0]);
      AllocMapExact(vm, root, plans[0]);
      var w := AllocMap(vm, root, plans[0]).0;
      SpentOk(vm, w, 4);
      SpentEnough(vm, w, 4, 4 * |plans|);
      RestIsNew(vm, w, root, plans);
      AllocMapAllProgress(w, root, plans[1..]);
      SpentTwice(vm, w, AllocMapAll(w, root, plans[1..]).0, 4, 4 * |plans[1..]|);
    }
  }

  // ----- Creating a process -----

  // The image is a readable ELF file whose segments can be loaded, and none of
  // their pages is wanted for the stack.
  ghost predicate ImageInOrder(image: seq<byte>) {
    && CheckIdent(image).None? && ImageSegments(image).Some?
    && var segs := ImageSegments(image).value;
       && AddressesFit(segs)
       && AllCopyable(image, segs, PlanOf(segs))
       && forall i: nat :: i < USER_STACK_PAGES ==> !InPlan(PlanOf(segs), USER_STACK_VA + i * PAGE)
  }

  // With one frame for the top table and four for each page of image and stack, a
  // new address space is always made.
  lemma CreateSucceeds(vm: Vm, image: seq<byte>)
    requires VmOk(vm) && ImageInOrder(image)
    requires Available(vm.pool) >= 1 + 4 * |PlanOf(ImageSegments(image).value)| + 4 * USER_STACK_PAGES
    ensures CreateSpace(vm, image).1.Some?
  {
    var segs := ImageSegments(image).value;
    NewSpaceProgress(vm);
    var (v1, root) := NewSpace(vm);
    hide VmOk, NewSpace, AllocMapAll, ImageSegments, PlanOf, LoadSegments, AllCopyable, Available, Spent,
      AddressesFit, Valid, InPlan;
    SpentOk(vm, v1, 1);
    SpentEnough(vm, v1, 1, 1 + 4 * |PlanOf(segs)| + 4 * USER_STACK_PAGES);
    LoadThenStack(v1, root.value, image, segs);
  }

  lemma LoadThenStack(vm: Vm, root: nat, image: seq<byte>, segs: seq<Segment>)
    requires VmOk(vm) && root in vm.spaces && vm.spaces[root].pages == map[] && |image| >= 64
    requires AddressesFit(segs) && AllCopyable(image, segs, PlanOf(segs))
    requires forall i: nat :: i < USER_STACK_PAGES ==> !InPlan(PlanOf(segs), USER_STACK_VA + i * PAGE)
    requires Available(vm.pool) >= 4 * |PlanOf(segs)| + 4 * USER_STACK_PAGES
    ensures var (w, loaded) := LoadSegments(vm, root, image, segs);
      loaded.Entry? && AllocMapAll(w, root, DataPages(USER_STACK_VA, USER_STACK_PAGES)).1 == Backed
  {
    hide VmOk, AllocMapAll, PlanOf, LoadSegments, AllCopyable, Available, Spent, AddressesFit, Valid, Find;
    var plan := PlanOf(segs);
    PlanMeaning(segs, 0);
    AllocMapAllProgress(vm, root, plan);
    AllocMapAllExact(vm, root, plan);
    LoadSucceeds(vm, root, image, segs);
    var w := AllocMapAll(vm, root, plan).0;
    SpentOk(vm, w, 4 * |plan|);
    SpentEnough(vm, w, 4 * |plan|, 4 * |plan| + 4 * USER_STACK_PAGES);
    StackIsNew(w, root, plan);
    AllocMapAllProgress(w, root, DataPages(USER_STACK_VA, USER_STACK_PAGES));
  }

  lemma NewSpaceProgress(vm: Vm)
    requires VmOk(vm) && Available(vm.pool) > 0
    ensures var (w, r) := NewSpace(vm);
      r.Some? && Spent(vm, w, 1) && r.value in w.spaces && w.spaces[r.value].pages == map[]
  {
    hide SpaceOk, RunsOk, Alloc, Available;
    AllocProgress(vm.pool);
    NewSpaceOk(vm);
  }

  lemma StackIsNew(w: Vm, root: nat, plan: seq<PagePlan>)
    requires root in w.spaces && forall va :: va in w.spaces[root].pages ==> InPlan(plan, va)
    requires forall i: nat :: i < USER_STACK_PAGES ==> !InPlan(plan, USER_STACK_VA + i * PAGE)
    ensures NewAndDistinct(w, root, DataPages(USER_STACK_VA, USER_STACK_PAGES))
  {
    hide InPlan;
  }
}
