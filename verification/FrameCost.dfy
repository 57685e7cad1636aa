// Exactly when mappings succeed: the pages must be unmapped, and there must be a frame
// for each table still missing on the way to them (and for each page to be backed).
module FrameCost {
  import opened Base
  import opened FramePool
  import opened AddressSpace
  import opened KernelProgress

  function PageAt(va: nat, k: nat): nat {
    va + k * PAGE
  }

  // The n pages from `va` on.
  function Window(va: nat, n: nat): set<nat> {
    set k: nat | k < n :: PageAt(va, k)
  }

  // The three tables on the way to each of these pages.
  function Path(pages: set<nat>): set<TableKey> {
    (set p | p in pages :: Key(3, p)) + (set p | p in pages :: Key(2, p)) + (set p | p in pages :: Key(1, p))
  }

  // How many of these tables the space lacks.
  function Lacking(space: Space, tables: set<TableKey>): nat {
    |tables - space.tables.Keys|
  }

  // How many tables are missing on the way to these pages.
  function Missing(space: Space, pages: set<nat>): nat {
    Lacking(space, Path(pages))
  }

  // The frames left to give out one by one.
  ghost function Left(vm: Vm): nat
    requires VmOk(vm)
  {
    Available(vm.pool)
  }

  // From `v` to `w` the space gained these tables, each new one for one frame, and
  // `more` frames went elsewhere.
  ghost predicate Reached(v: Vm, w: Vm, root: nat, tables: set<TableKey>, more: nat) {
    && VmOk(v) && VmOk(w) && root in v.spaces && root in w.spaces
    && w.spaces[root].tables.Keys == v.spaces[root].tables.Keys + tables
    && Left(w) + Lacking(v.spaces[root], tables) + more == Left(v)
  }

  lemma ReachedTwice(u: Vm, v: Vm, w: Vm, root: nat, a: set<TableKey>, b: set<TableKey>, j: nat, k: nat)
    requires Reached(u, v, root, a, j) && Reached(v, w, root, b, k)
    ensures Reached(u, w, root, a + b, j + k)
  {
    hide VmOk, Left;
    MissingSplit(u.spaces[root], v.spaces[root], a, b);
  }

  // What is missing for a and b is what is missing for a, then for b.
  lemma MissingSplit(s: Space, t: Space, a: set<TableKey>, b: set<TableKey>)
    requires t.tables.Keys == s.tables.Keys + a
    ensures Lacking(s, a + b) == Lacking(s, a) + Lacking(t, b)
  {
    var x, y := a - s.tables.Keys, b - t.tables.Keys;
    assert a + b - s.tables.Keys == x + y;
    assert x !! y;
  }

  lemma PathSplit(a: set<nat>, b: set<nat>)
    ensures Path(a + b) == Path(a) + Path(b)
  {
    hide Key;
  }

  lemma PathOne(va: nat)
    ensures Path({va}) == {Key(3, va)} + {Key(2, va)} + {Key(1, va)}
  {
    hide Key;
  }

  lemma WindowHead(va: nat, n: nat)
    requires n > 0
    ensures Window(va, n) == {va} + Window(va + PAGE, n - 1) && va !in Window(va + PAGE, n - 1)
  {
    forall p
      ensures p in Window(va, n) <==> p == va || p in Window(va + PAGE, n - 1)
    {
      if p in Window(va, n) {
        var k: nat :| k < n && p == PageAt(va, k);
        assert k > 0 ==> p == PageAt(va + PAGE, k - 1);
      }
      if p in Window(va + PAGE, n - 1) {
        var k: nat :| k < n - 1 && p == PageAt(va + PAGE, k);
        assert p == PageAt(va, k + 1);
      }
      assert PageAt(va, 0) == va;
    }
  }

  // ----- One table, one page -----

  lemma AllocForCost(vm: Vm, use: Use)
    requires VmOk(vm) && !use.Run?
    ensures var (w, r) := AllocFor(vm, use);
      && VmOk(w) && w.spaces == vm.spaces
      && (r.Some? <==> Left(vm) > 0) && (r.Some? ==> Left(w) + 1 == Left(vm)) && (r.None? ==> Left(w) == 0)
  {
    AllocForOk(vm, use);
    AllocProgress(vm.pool);
    hide Valid, SpaceOk, RunsOk, Available, Alloc;
    var (q, got) := Alloc(vm.pool);
    assert AllocFor(vm, use).0.pool == q && AllocFor(vm, use).1 == got;
  }

  lemma EnsureTableStays(vm: Vm, root: nat, key: TableKey)
    requires VmOk(vm) && root in vm.spaces
    ensures var w := EnsureTable(vm, root, key).0;
      VmOk(w) && root in w.spaces && w.spaces[root].pages == vm.spaces[root].pages
  {
    hide VmOk, EnsureTable, Extends, OnlySpace;
    EnsureTableOk(vm, root, key);
  }

  lemma MapPageStays(vm: Vm, root: nat, va: nat, pte: Pte)
    requires VmOk(vm) && root in vm.spaces && PteOk(vm.ledger, root, pte)
    ensures VmOk(MapPage(vm, root, va, pte).0)
  {
    hide VmOk, MapPage, Extends, OnlySpace;
    MapPageOk(vm, root, va, pte);
  }

  // An attempt to have these tables works just when the missing ones can be paid for;
  // otherwise it has used up every frame.
  ghost predicate TablesMade(v: Vm, w: Vm, root: nat, tables: set<TableKey>, ok: bool) {
    && VmOk(v) && VmOk(w) && root in v.spaces && root in w.spaces && w.spaces[root].pages == v.spaces[root].pages
    && (ok <==> Left(v) >= Lacking(v.spaces[root], tables))
    && (ok ==> Reached(v, w, root, tables, 0)) && (!ok ==> Left(w) == 0)
  }

  lemma EnsureTableCost(vm: Vm, root: nat, key: TableKey)
    requires VmOk(vm) && root in vm.spaces
    ensures TablesMade(vm, EnsureTable(vm, root, key).0, root, {key}, EnsureTable(vm, root, key).1)
  {
    EnsureTableStays(vm, root, key);
    AllocForCost(vm, Table(root));
    hide VmOk, AllocFor, Left, TablesMade;
    var (u, got) := AllocFor(vm, Table(root));
    if key in vm.spaces[root].tables {
      TableThere(vm, root, key);
    } else if got.Some? {
      TableNew(vm, u, EnsureTable(vm, root, key).0, root, key, got.value);
    } else {
      TableDenied(vm, u, root, key);
    }
  }

  lemma LacksOne(space: Space, key: TableKey)
    ensures Lacking(space, {key}) == if key in space.tables then 0 else 1
  {
    assert {key} - space.tables.Keys == if key in space.tables then {} else {key};
  }

  lemma TableThere(vm: Vm, root: nat, key: TableKey)
    requires VmOk(vm) && root in vm.spaces && key in vm.spaces[root].tables
    ensures TablesMade(vm, vm, root, {key}, true)
  {
    hide VmOk, Left, Lacking;
    LacksOne(vm.spaces[root], key);
  }

  lemma TableNew(v: Vm, u: Vm, w: Vm, root: nat, key: TableKey, pa: nat)
    requires VmOk(v) && VmOk(u) && VmOk(w) && root in v.spaces && key !in v.spaces[root].tables
    requires u.spaces == v.spaces && Left(u) + 1 == Left(v)
    requires w == u.(spaces := u.spaces[root := v.spaces[root].(tables := v.spaces[root].tables[key := pa])])
    ensures TablesMade(v, w, root, {key}, true)
  {
    SamePoolLeft(u, w);
    hide VmOk, Left, Lacking, Reached;
    LacksOne(v.spaces[root], key);
    assert w.spaces[root] == v.spaces[root].(tables := v.spaces[root].tables[key := pa]);
    OneTableMore(v, w, root, key, pa);
  }

  lemma OneTableMore(v: Vm, w: Vm, root: nat, key: TableKey, pa: nat)
    requires VmOk(v) && VmOk(w) && root in v.spaces && root in w.spaces && Left(w) + 1 == Left(v)
    requires key !in v.spaces[root].tables && w.spaces[root].tables == v.spaces[root].tables[key := pa]
    ensures Reached(v, w, root, {key}, 0)
  {
    hide VmOk, Left, Lacking;
    LacksOne(v.spaces[root], key);
  }

  lemma TableDenied(v: Vm, w: Vm, root: nat, key: TableKey)
    requires VmOk(v) && VmOk(w) && root in v.spaces && key !in v.spaces[root].tables
    requires w.spaces == v.spaces && Left(v) == 0 && Left(w) == 0
    ensures TablesMade(v, w, root, {key}, false)
  {
    hide VmOk, Left, Lacking;
    LacksOne(v.spaces[root], key);
  }

  lemma SamePoolLeft(v: Vm, w: Vm)
    requires VmOk(v) && VmOk(w) && w.pool == v.pool
    ensures Left(w) == Left(v)
  {
  }

  // The way down to a page, creating what is missing.
  function Walk(vm: Vm, root: nat, va: nat): (r: (Vm, bool))
    requires root in vm.spaces
    ensures r.0.spaces.Keys == vm.spaces.Keys
  {
    var (v3, ok3) := EnsureTable(vm, root, Key(3, va));
    if !ok3 then (v3, false) else
    var (v2, ok2) := EnsureTable(v3, root, Key(2, va));
    if !ok2 then (v2, false) else EnsureTable(v2, root, Key(1, va))
  }

  lemma WalkCost(vm: Vm, root: nat, va: nat)
    requires VmOk(vm) && root in vm.spaces
    ensures TablesMade(vm, Walk(vm, root, va).0, root, Path({va}), Walk(vm, root, va).1)
  {
    hide VmOk, EnsureTable, Left, Reached, Path, Key, Lacking;
    var space := vm.spaces[root];
    var a, b, c := {Key(3, va)}, {Key(2, va)}, {Key(1, va)};
    PathOne(va);
    MoreMissing(space, a, b);
    MoreMissing(space, a + b, c);
    EnsureTableCost(vm, root, Key(3, va));
    var (v3, ok3) := EnsureTable(vm, root, Key(3, va));
    if ok3 {
      StillShort(vm, v3, root, a, b, 0);
      EnsureTableCost(v3, root, Key(2, va));
      var (v2, ok2) := EnsureTable(v3, root, Key(2, va));
      if ok2 {
        ReachedTwice(vm, v3, v2, root, a, b, 0, 0);
        StillShort(vm, v2, root, a + b, c, 0);
        EnsureTableCost(v2, root, Key(1, va));
        var (v1, ok1) := EnsureTable(v2, root, Key(1, va));
        if ok1 {
          ReachedTwice(vm, v2, v1, root, a + b, c, 0, 0);
        }
      }
    }
  }

  // Mapping one page takes exactly the tables missing on the way, mapped already or not.
  ghost predicate PageMade(v: Vm, w: Vm, root: nat, va: nat, pte: Pte, o: MapOutcome) {
    && VmOk(v) && VmOk(w) && root in v.spaces && root in w.spaces
    && (o == NoTableFrame <==> Left(v) < Missing(v.spaces[root], {va}))
    && (o == Mapped ==> va !in v.spaces[root].pages) && (o == AlreadyMapped ==> va in v.spaces[root].pages)
    && w.spaces[root].pages == (if o == Mapped then v.spaces[root].pages[va := pte] else v.spaces[root].pages)
    && (o != NoTableFrame ==> Reached(v, w, root, Path({va}), 0)) && (o == NoTableFrame ==> Left(w) == 0)
  }

  lemma MapPageCost(vm: Vm, root: nat, va: nat, pte: Pte)
    requires VmOk(vm) && root in vm.spaces && PteOk(vm.ledger, root, pte)
    ensures PageMade(vm, MapPage(vm, root, va, pte).0, root, va, pte, MapPage(vm, root, va, pte).1)
  {
    WalkCost(vm, root, va);
    MapPageStays(vm, root, va, pte);
    MapPageIsWalk(vm, root, va, pte);
    hide *;
    var (v, ok) := Walk(vm, root, va);
    LeafMade(vm, v, MapPage(vm, root, va, pte).0, root, va, pte, ok);
  }

  lemma MapPageIsWalk(vm: Vm, root: nat, va: nat, pte: Pte)
    requires root in vm.spaces
    ensures var (v, ok) := Walk(vm, root, va);
      root in v.spaces &&
      var taken := va in v.spaces[root].pages;
      MapPage(vm, root, va, pte) ==
      (if !ok || taken then v
       else v.(spaces := v.spaces[root := v.spaces[root].(pages := v.spaces[root].pages[va := pte])]),
       if !ok then NoTableFrame else if taken then AlreadyMapped else Mapped)
  {
    hide EnsureTable, Key;
  }

  lemma LeafMade(u: Vm, v: Vm, w: Vm, root: nat, va: nat, pte: Pte, ok: bool)
    requires TablesMade(u, v, root, Path({va}), ok) && VmOk(w) && root in v.spaces
    requires w == if !ok || va in v.spaces[root].pages then v
                  else v.(spaces := v.spaces[root := v.spaces[root].(pages := v.spaces[root].pages[va := pte])])
    ensures PageMade(u, w, root, va, pte,
                     if !ok then NoTableFrame else if va in v.spaces[root].pages then AlreadyMapped else Mapped)
  {
    hide VmOk, Left, Path, Lacking, Reached;
    if ok {
      LeafKeepsTables(u, v, w, root, Path({va}));
    }
  }

  // With the first tables there, the rest can be afforded just when all can.
  lemma StillShort(v: Vm, w: Vm, root: nat, a: set<TableKey>, b: set<TableKey>, more: nat)
    requires Reached(v, w, root, a, more)
    ensures Left(w) >= Lacking(w.spaces[root], b) <==> Left(v) >= Lacking(v.spaces[root], a + b) + more
    ensures Left(v) == Left(w) + Lacking(v.spaces[root], a) + more
  {
    hide VmOk, Left;
    MissingSplit(v.spaces[root], w.spaces[root], a, b);
  }

  lemma MoreMissing(s: Space, a: set<TableKey>, b: set<TableKey>)
    ensures Lacking(s, a) <= Lacking(s, a + b)
  {
    var x, y := a - s.tables.Keys, a + b - s.tables.Keys;
    assert y == x + (y - x);
    assert |y| == |x| + |y - x|;
  }

  lemma LeafKeepsTables(u: Vm, v: Vm, w: Vm, root: nat, tables: set<TableKey>)
    requires Reached(u, v, root, tables, 0) && VmOk(w) && w.pool == v.pool && root in w.spaces
    requires w.spaces[root].tables == v.spaces[root].tables
    ensures Reached(u, w, root, tables, 0)
  {
    hide VmOk;
    SamePoolLeft(v, w);
  }

  // ----- A range -----

  // A range is mapped whole just when its pages are free and its tables affordable
  // (device ranges skip the pages already there); it has then gained its pages.
  lemma {:induction false} MapRangeIff(vm: Vm, root: nat, va: nat, phys: nat, n: nat, device: bool)
    requires VmOk(vm) && root in vm.spaces && RangeOk(vm.ledger, root, phys, n, device)
    ensures var (w, ok) := MapRange(vm, root, va, phys, n, device);
      var space, pages := vm.spaces[root], Window(va, n);
      && root in w.spaces
      && (ok <==> (device || pages !! space.pages.Keys) && Left(vm) >= Missing(space, pages))
      && (ok ==> Reached(vm, w, root, Path(pages), 0) && w.spaces[root].pages.Keys == space.pages.Keys + pages)
    decreases n
  {
    hide VmOk, RangeOk, Extends, OnlySpace, MapPage, PteOk, Reached, Left, Path, Window, Lacking;
    var space, pages := vm.spaces[root], Window(va, n);
    if n == 0 {
      NothingReached(vm, root, va);
    } else {
      var pte := if device then DevicePte(phys) else UserPte(phys, true, false);
      var rest := Window(va + PAGE, n - 1);
      RangeOkTail(vm, vm, root, phys, n, device) by { ExtendsSelf(vm); }
      MapPageOk(vm, root, va, pte);
      MapPageCost(vm, root, va, pte);
      var (w, o) := MapPage(vm, root, va, pte);
      RangeOkTail(vm, w, root, phys, n, device);
      WindowHead(va, n);
      PathSplit({va}, rest);
      if o == NoTableFrame {
        MoreMissing(space, Path({va}), Path(rest));
      } else {
        StillShort(vm, w, root, Path({va}), Path(rest), 0);
        if o == Mapped || device {
          MapRangeIff(w, root, va + PAGE, phys + PAGE, n - 1, device);
          var (x, ok) := MapRange(w, root, va + PAGE, phys + PAGE, n - 1, device);
          if ok {
            ReachedTwice(vm, w, x, root, Path({va}), Path(rest), 0, 0);
          }
        }
      }
    }
  }

  lemma NothingReached(vm: Vm, root: nat, va: nat)
    requires VmOk(vm) && root in vm.spaces
    ensures Window(va, 0) == {} && Path({}) == {} && Reached(vm, vm, root, {}, 0)
    ensures Missing(vm.spaces[root], {}) == 0
  {
    hide VmOk, Left;
    assert Path({}) == {};
    assert Path({}) - vm.spaces[root].tables.Keys == {};
  }

  // ----- Backing pages -----

  // One page is backed just when it is free and its frame and tables can be paid for.
  ghost predicate PageBacked(v: Vm, w: Vm, root: nat, va: nat, b: Backing) {
    && VmOk(v) && VmOk(w) && root in v.spaces && root in w.spaces
    && (b == Backed <==> va !in v.spaces[root].pages && Left(v) >= 1 + Missing(v.spaces[root], {va}))
    && (b == Backed ==> Reached(v, w, root, Path({va}), 1)
                        && w.spaces[root].pages.Keys == v.spaces[root].pages.Keys + {va})
    && (b != Backed ==> w.spaces[root].pages == v.spaces[root].pages)
    && (b != Backed && va !in v.spaces[root].pages ==> Left(w) == 0)
  }

  lemma AllocMapCost(vm: Vm, root: nat, plan: PagePlan)
    requires VmOk(vm) && root in vm.spaces
    ensures PageBacked(vm, AllocMap(vm, root, plan).0, root, plan.va, AllocMap(vm, root, plan).1)
  {
    AllocForCost(vm, Private(root));
    hide VmOk, AllocFor, MapPage, Left, PageBacked, PageMade, PteOk;
    var (w, r) := AllocFor(vm, Private(root));
    if r.Some? {
      var pte := UserPte(r.value, plan.writable, plan.executable);
      FreshPteOk(vm, root, plan.writable, plan.executable);
      MapPageCost(w, root, plan.va, pte);
      var (x, o) := MapPage(w, root, plan.va, pte);
      FrameThenPage(vm, w, x, root, plan.va, pte, o);
    } else {
      NotBacked(vm, w, root, plan.va);
    }
  }

  lemma FreshPteOk(vm: Vm, root: nat, writable: bool, executable: bool)
    requires VmOk(vm)
    ensures var (w, r) := AllocFor(vm, Private(root));
      r.Some? ==> PteOk(w.ledger, root, UserPte(r.value, writable, executable))
  {
    hide VmOk, AllocFor;
    AllocForOk(vm, Private(root));
  }

  lemma NotBacked(v: Vm, w: Vm, root: nat, va: nat)
    requires VmOk(v) && VmOk(w) && root in v.spaces && w.spaces == v.spaces && Left(v) == 0 && Left(w) == 0
    ensures PageBacked(v, w, root, va, NoFrame)
  {
    hide VmOk, Left, Lacking, Path, Reached;
  }

  lemma FrameThenPage(u: Vm, v: Vm, w: Vm, root: nat, va: nat, pte: Pte, o: MapOutcome)
    requires VmOk(u) && VmOk(v) && v.spaces == u.spaces && Left(v) + 1 == Left(u)
    requires PageMade(v, w, root, va, pte, o)
    ensures PageBacked(u, w, root, va, if o == Mapped then Backed else MapFailed)
  {
    hide VmOk, Left, Lacking, Path, Reached;
    OneSpent(u, v, root);
    if o == Mapped {
      ReachedTwice(u, v, w, root, {}, Path({va}), 1, 0);
      assert {} + Path({va}) == Path({va});
    }
  }

  lemma OneSpent(v: Vm, w: Vm, root: nat)
    requires VmOk(v) && VmOk(w) && w.spaces == v.spaces && root in v.spaces && Left(w) + 1 == Left(v)
    ensures Reached(v, w, root, {}, 1)
  {
    hide VmOk, Left;
    assert {} - v.spaces[root].tables.Keys == {};
  }

  function PlanPages(plans: seq<PagePlan>): set<nat> {
    set p | p in plans :: p.va
  }

  // A plan is backed whole just when its pages are free and distinct and there is a
  // frame for each of them and for each missing table.
  lemma {:induction false} AllocMapAllIff(vm: Vm, root: nat, plans: seq<PagePlan>)
    requires VmOk(vm) && root in vm.spaces
    ensures AllocMapAll(vm, root, plans).1 == Backed <==>
            NewAndDistinct(vm, root, plans)
            && Left(vm) >= |plans| + Missing(vm.spaces[root], PlanPages(plans))
    decreases |plans|
  {
    hide VmOk, AllocMap, Left, Reached, Path, NewAndDistinct, PlanPages;
    var space := vm.spaces[root];
    if plans == [] {
      NoPlans(vm, root);
    } else {
      var first, rest := plans[0].va, PlanPages(plans[1..]);
      AllocMapCost(vm, root, plans[0]);
      PlanHead(plans);
      PathSplit({first}, rest);
      MoreMissing(space, Path({first}), Path(rest));
      var (w, b) := AllocMap(vm, root, plans[0]);
      if b == Backed {
        StillShort(vm, w, root, Path({first}), Path(rest), 1);
        AllocMapAllIff(w, root, plans[1..]);
        AllocMapExact(vm, root, plans[0]);
        NewSplit(vm, w, root, plans);
        LeftSplit(vm, w, root, Path({first}), Path(rest), 1, |plans| - 1);
      } else if NewAndDistinct(vm, root, plans) {
        FirstIsNew(vm, root, plans);
      }
    }
  }

  // And then it has taken exactly those frames and gained exactly those pages.
  ghost predicate PlanBacked(v: Vm, w: Vm, root: nat, pages: set<nat>, n: nat) {
    Reached(v, w, root, Path(pages), n) && w.spaces[root].pages.Keys == v.spaces[root].pages.Keys + pages
  }

  lemma PlanBackedTwice(u: Vm, v: Vm, w: Vm, root: nat, a: set<nat>, b: set<nat>, j: nat, k: nat)
    requires PlanBacked(u, v, root, a, j) && PlanBacked(v, w, root, b, k)
    ensures PlanBacked(u, w, root, a + b, j + k)
  {
    hide VmOk, Left, Path;
    PathSplit(a, b);
    ReachedTwice(u, v, w, root, Path(a), Path(b), j, k);
  }

  lemma OneBacked(v: Vm, w: Vm, root: nat, va: nat)
    requires PageBacked(v, w, root, va, Backed)
    ensures PlanBacked(v, w, root, {va}, 1)
  {
    hide VmOk, Left, Path, Reached, Missing;
  }

  lemma NoneBacked(vm: Vm, root: nat)
    requires VmOk(vm) && root in vm.spaces
    ensures PlanBacked(vm, vm, root, PlanPages([]), 0)
  {
    hide VmOk, Left, Path, Reached;
    EmptyPlanPages();
    NothingReached(vm, root, 0);
  }

  lemma {:induction false} AllocMapAllCost(vm: Vm, root: nat, plans: seq<PagePlan>)
    requires VmOk(vm) && root in vm.spaces && AllocMapAll(vm, root, plans).1 == Backed
    ensures PlanBacked(vm, AllocMapAll(vm, root, plans).0, root, PlanPages(plans), |plans|)
    decreases |plans|
  {
    hide VmOk, AllocMap, PlanBacked, PageBacked, PlanPages;
    if plans == [] {
      NoneBacked(vm, root);
    } else {
      AllocMapCost(vm, root, plans[0]);
      PlanHead(plans);
      var w := AllocMap(vm, root, plans[0]).0;
      OneBacked(vm, w, root, plans[0].va);
      PlanBackedOk(vm, w, root, {plans[0].va}, 1);
      AllocMapAllCost(w, root, plans[1..]);
      PlanBackedTwice(vm, w, AllocMapAll(w, root, plans[1..]).0, root, {plans[0].va}, PlanPages(plans[1..]), 1,
                      |plans| - 1);
    }
  }

  lemma PlanBackedOk(v: Vm, w: Vm, root: nat, pages: set<nat>, n: nat)
    requires PlanBacked(v, w, root, pages, n)
    ensures VmOk(w) && root in w.spaces
  {
    hide VmOk;
  }

  lemma EmptyPlanPages()
    ensures PlanPages([]) == {}
  {
  }

  lemma LeftSplit(v: Vm, w: Vm, root: nat, a: set<TableKey>, b: set<TableKey>, more: nat, rest: nat)
    requires Reached(v, w, root, a, more)
    ensures Left(w) >= rest + Lacking(w.spaces[root], b) <==>
            Left(v) >= more + rest + Lacking(v.spaces[root], a + b)
  {
    hide VmOk, Left;
    MissingSplit(v.spaces[root], w.spaces[root], a, b);
  }

  lemma NoPlans(vm: Vm, root: nat)
    requires root in vm.spaces
    ensures NewAndDistinct(vm, root, []) && Missing(vm.spaces[root], PlanPages([])) == 0
  {
    assert Path(PlanPages([])) - vm.spaces[root].tables.Keys == {};
  }

  lemma PlanHead(plans: seq<PagePlan>)
    requires plans != []
    ensures PlanPages(plans) == {plans[0].va} + PlanPages(plans[1..])
  {
    assert plans == [plans[0]] + plans[1..];
  }

  lemma NewSplit(v: Vm, w: Vm, root: nat, plans: seq<PagePlan>)
    requires root in v.spaces && root in w.spaces && plans != [] && plans[0].va !in v.spaces[root].pages
    requires w.spaces[root].pages.Keys == v.spaces[root].pages.Keys + {plans[0].va}
    ensures NewAndDistinct(v, root, plans) <==> NewAndDistinct(w, root, plans[1..])
  {
    var rest := plans[1..];
    assert forall a :: a in w.spaces[root].pages.Keys <==> a in v.spaces[root].pages.Keys || a == plans[0].va;
    if NewAndDistinct(v, root, plans) {
      assert forall i :: 0 <= i < |rest| ==> rest[i] == plans[i + 1];
    }
    if NewAndDistinct(w, root, rest) {
      forall i | 0 <= i < |plans|
        ensures plans[i].va !in v.spaces[root].pages
      {
        assert i > 0 ==> plans[i] == rest[i - 1];
      }
      forall i, j | 0 <= i < j < |plans|
        ensures plans[i].va != plans[j].va
      {
        assert plans[j] == rest[j - 1] && (i > 0 ==> plans[i] == rest[i - 1]);
      }
    }
  }

  // Free and distinct pages are refused only once every frame has been handed out.
  lemma {:induction false} AllocMapAllExhausts(vm: Vm, root: nat, plans: seq<PagePlan>)
    requires VmOk(vm) && root in vm.spaces && NewAndDistinct(vm, root, plans)
    ensures var (w, b) := AllocMapAll(vm, root, plans); b != Backed ==> VmOk(w) && Left(w) == 0
    decreases |plans|
  {
    hide VmOk, AllocMap, Left, Reached, Path, NewAndDistinct;
    if plans != [] {
      FirstIsNew(vm, root, plans);
      AllocMapCost(vm, root, plans[0]);
      var (w, b) := AllocMap(vm, root, plans[0]);
      if b == Backed {
        AllocMapExact(vm, root, plans[0]);
        RestIsNew(vm, w, root, plans);
        AllocMapAllExhausts(w, root, plans[1..]);
      }
    }
  }

  lemma NoneMissing(space: Space, va: nat)
    ensures Missing(space, {va}) == 0 <==> TablesFor(space, va)
  {
    PathOne(va);
    hide Key, Path;
    var lacking := Path({va}) - space.tables.Keys;
    assert lacking == {} <==> TablesFor(space, va);
  }
}
