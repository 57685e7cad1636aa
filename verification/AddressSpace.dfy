// Address spaces over the frame pool: page tables whose intermediate levels come
// from the same pool, user mappings, and who owns which physical frame.
module AddressSpace {
  import opened Base
  import opened FramePool

  // The 32-bit PCI memory hole, where device registers live.
  const MMIO_BASE: nat := 0xc000_0000
  const MMIO_END: nat := 0x1_0000_0000

  // What an issued frame was issued for. Nothing in the code stores this; it is
  // history, recorded so that sharing can be stated.
  datatype Use = Kernel | Table(root: nat) | Private(root: nat) | Run(base: nat, pages: nat)

  datatype Pte = Pte(frame: nat, user: bool, writable: bool, executable: bool, device: bool)

  // An intermediate table, named by its level and the address prefix it covers.
  datatype TableKey = TableKey(level: nat, prefix: nat)

  datatype Space = Space(tables: map<TableKey, nat>, pages: map<nat, Pte>)

  // `spaces` is keyed by the physical address of the top-level table.
  datatype Vm = Vm(pool: Pool, spaces: map<nat, Space>, ledger: map<nat, Use>)

  datatype MapOutcome = Mapped | AlreadyMapped | NoTableFrame

  datatype Backing = Backed | NoFrame | MapFailed

  // A page to be backed by a fresh zeroed frame.
  datatype PagePlan = PagePlan(va: nat, writable: bool, executable: bool)

  // ----- What the operations do -----

  function AllocFor(vm: Vm, use: Use): (Vm, Option<nat>) {
    var (pool, r) := Alloc(vm.pool);
    match r
    case None => (vm.(pool := pool), None)
    case Some(pa) => (vm.(pool := pool, ledger := vm.ledger[pa := use]), Some(pa))
  }

  function NewSpace(vm: Vm): (Vm, Option<nat>) {
    var (pool, r) := Alloc(vm.pool);
    match r
    case None => (vm.(pool := pool), None)
    case Some(pa) =>
      (Vm(pool, vm.spaces[pa := Space(map[], map[])], vm.ledger[pa := Table(pa)]), Some(pa))
  }

  function Key(level: nat, va: nat): TableKey {
    TableKey(level, va / (if level == 3 then 0x80_0000_0000 else if level == 2 then 0x4000_0000 else 0x20_0000))
  }

  function EnsureTable(vm: Vm, root: nat, key: TableKey): (r: (Vm, bool))
    requires root in vm.spaces
    ensures r.0.spaces.Keys == vm.spaces.Keys
  {
    var space := vm.spaces[root];
    if key in space.tables then (vm, true)
    else
      var (w, got) := AllocFor(vm, Table(root));
      match got
      case None => (w, false)
      case Some(pa) => (w.(spaces := w.spaces[root := space.(tables := space.tables[key := pa])]), true)
  }

  // Walk down the three intermediate levels, creating what is missing, then fill
  // the leaf entry unless it is already in use.
  function MapPage(vm: Vm, root: nat, va: nat, pte: Pte): (r: (Vm, MapOutcome))
    requires root in vm.spaces
    ensures r.0.spaces.Keys == vm.spaces.Keys
  {
    var (v3, ok3) := EnsureTable(vm, root, Key(3, va));
    if !ok3 then (v3, NoTableFrame) else
    var (v2, ok2) := EnsureTable(v3, root, Key(2, va));
    if !ok2 then (v2, NoTableFrame) else
    var (v1, ok1) := EnsureTable(v2, root, Key(1, va));
    if !ok1 then (v1, NoTableFrame) else
    var space := v1.spaces[root];
    if va in space.pages then (v1, AlreadyMapped)
    else (v1.(spaces := v1.spaces[root := space.(pages := space.pages[va := pte])]), Mapped)
  }

  function UserPte(frame: nat, writable: bool, executable: bool): Pte {
    Pte(frame, true, writable, executable, false)
  }

  function DevicePte(frame: nat): Pte {
    Pte(frame, true, true, false, true)
  }

  // Map `n` consecutive pages to `n` consecutive frames, stopping at the first
  // failure. Device mappings accept a page that is already mapped.
  function MapRange(vm: Vm, root: nat, va: nat, phys: nat, n: nat, device: bool): (r: (Vm, bool))
    requires root in vm.spaces
    ensures r.0.spaces.Keys == vm.spaces.Keys
    decreases n
  {
    if n == 0 then (vm, true)
    else
      var (w, o) := MapPage(vm, root, va, if device then DevicePte(phys) else UserPte(phys, true, false));
      if o == Mapped || (device && o == AlreadyMapped) then
        MapRange(w, root, va + PAGE, phys + PAGE, n - 1, device)
      else (w, false)
  }

  // Back one page with a fresh frame; the frame is not returned if mapping fails.
  function AllocMap(vm: Vm, root: nat, plan: PagePlan): (r: (Vm, Backing))
    requires root in vm.spaces
    ensures r.0.spaces.Keys == vm.spaces.Keys
  {
    var (w, got) := AllocFor(vm, Private(root));
    match got
    case None => (w, NoFrame)
    case Some(pa) =>
      var (x, o) := MapPage(w, root, plan.va, UserPte(pa, plan.writable, plan.executable));
      (x, if o == Mapped then Backed else MapFailed)
  }

  function AllocMapAll(vm: Vm, root: nat, plans: seq<PagePlan>): (r: (Vm, Backing))
    requires root in vm.spaces
    ensures r.0.spaces.Keys == vm.spaces.Keys
    decreases |plans|
  {
    if plans == [] then (vm, Backed)
    else
      var (w, b) := AllocMap(vm, root, plans[0]);
      if b == Backed then AllocMapAll(w, root, plans[1..]) else (w, b)
  }

  function Record(ledger: map<nat, Use>, frames: set<nat>, use: Use): map<nat, Use> {
    ledger + map f | f in frames :: use
  }

  // A contiguous run, recorded as private to one space or as a shareable run.
  function AllocRun(vm: Vm, n: nat, privateTo: Option<nat>): (Vm, Option<nat>) {
    var (pool, r) := AllocContiguous(vm.pool, n);
    match r
    case None => (vm.(pool := pool), None)
    case Some(base) =>
      var use := if privateTo.Some? then Private(privateTo.value) else Run(base, n);
      (vm.(pool := pool, ledger := Record(vm.ledger, RunFrames(base, n), use)), Some(base))
  }

  function FreeRun(vm: Vm, base: nat, n: nat): (r: Vm)
    ensures r.spaces == vm.spaces
    decreases n
  {
    if n == 0 then vm
    else FreeRun(vm.(pool := Free(vm.pool, base), ledger := vm.ledger - {base}), base + PAGE, n - 1)
  }

  // Is every byte of [ptr, ptr + len) on a present user page (writable if asked),
  // without the range wrapping round?
  ghost predicate UserRange(space: Space, ptr: nat, len: nat, writable: bool) {
    len == 0 ||
    (ptr + len - 1 < U64_LIMIT && forall a: nat :: ptr <= a < ptr + len ==> UserByte(space, a, writable))
  }

  predicate UserByte(space: Space, a: nat, writable: bool) {
    UserPage(space, PageDown(a), writable)
  }

  predicate UserPage(space: Space, page: nat, writable: bool) {
    page in space.pages && space.pages[page].user && (writable ==> space.pages[page].writable)
  }

  function Translate(space: Space, va: nat): Option<nat> {
    if PageDown(va) in space.pages then Some(space.pages[PageDown(va)].frame + va % PAGE) else None
  }

  // ----- What must always hold -----

  predicate InMmio(frame: nat) {
    MMIO_BASE <= frame < MMIO_END
  }

  ghost predicate RamAvoidsMmio(rs: seq<Region>) {
    forall i :: 0 <= i < |rs| ==> rs[i].end <= MMIO_BASE || MMIO_END <= rs[i].start
  }

  // A user mapping leads to device memory, to a frame private to this space, or
  // to a frame of a shareable run; never to a page table.
  predicate PteOk(ledger: map<nat, Use>, root: nat, pte: Pte) {
    if pte.device then InMmio(pte.frame)
    else pte.frame in ledger && (ledger[pte.frame] == Private(root) || ledger[pte.frame].Run?)
  }

  ghost predicate SpaceOk(ledger: map<nat, Use>, root: nat, space: Space) {
    && root in ledger && ledger[root] == Table(root)
    && (forall k :: k in space.tables ==> space.tables[k] in ledger && ledger[space.tables[k]] == Table(root))
    && (forall va :: va in space.pages ==> PteOk(ledger, root, space.pages[va]))
  }

  // The recorded runs are whole: all their frames are issued to the same run.
  ghost predicate RunsOk(pool: Pool, ledger: map<nat, Use>) {
    forall f :: f in ledger && ledger[f].Run? ==>
      && RunOk(pool, ledger, ledger[f].base, ledger[f].pages)
      && f in RunFrames(ledger[f].base, ledger[f].pages)
  }

  ghost predicate RunOk(pool: Pool, ledger: map<nat, Use>, base: nat, n: nat) {
    && n > 0 && InOneRegion(pool, base, n)
    && forall f :: f in RunFrames(base, n) ==> f in ledger && ledger[f] == Run(base, n)
  }

  ghost predicate VmOk(vm: Vm) {
    && Valid(vm.pool) && RamAvoidsMmio(vm.pool.regions)
    && vm.ledger.Keys == vm.pool.issued
    && (forall r :: r in vm.spaces ==> SpaceOk(vm.ledger, r, vm.spaces[r]))
    && RunsOk(vm.pool, vm.ledger)
  }

  // Nothing already recorded is changed: spaces, pages and ownership only grow.
  ghost predicate Extends(v: Vm, w: Vm) {
    && w.pool.regions == v.pool.regions
    && (forall f :: f in v.ledger ==> f in w.ledger && w.ledger[f] == v.ledger[f])
    && (forall r :: r in v.spaces ==> r in w.spaces)
  }

  // Only the space `root` may differ, and it keeps every mapping it had.
  ghost predicate OnlySpace(v: Vm, w: Vm, root: nat) {
    && v.spaces.Keys == w.spaces.Keys
    && (forall r :: r in v.spaces && r != root ==> w.spaces[r] == v.spaces[r])
    && (root in v.spaces ==>
          forall va :: va in v.spaces[root].pages ==>
            va in w.spaces[root].pages && w.spaces[root].pages[va] == v.spaces[root].pages[va])
  }

  // ----- Every operation keeps the address spaces sound -----

  lemma AllocForOk(vm: Vm, use: Use)
    requires VmOk(vm) && !use.Run?
    ensures var (w, r) := AllocFor(vm, use);
      && VmOk(w) && Extends(vm, w) && w.spaces == vm.spaces
      && (r.Some? ==>
            r.value !in vm.ledger && w.ledger == vm.ledger[r.value := use] && InOneRegion(vm.pool, r.value, 1))
      && (r.None? ==> w.ledger == vm.ledger)
  {
    hide Valid, InOneRegion, Alloc;
    AllocCorrect(vm.pool);
    var (pool, got) := Alloc(vm.pool);
    assert got.Some? ==> got.value !in vm.ledger.Keys;
    LedgerGrows(vm, AllocFor(vm, use).0);
  }

  // Ownership that only gains entries, none of them part of a run, leaves every
  // space and every run sound.
  lemma LedgerGrows(v: Vm, w: Vm)
    requires VmOk(v) && Extends(v, w) && w.spaces == v.spaces
    requires forall f :: f in w.ledger && f !in v.ledger ==> !w.ledger[f].Run?
    ensures forall r :: r in w.spaces ==> SpaceOk(w.ledger, r, w.spaces[r])
    ensures RunsOk(w.pool, w.ledger)
  {
    hide Valid;
    forall f | f in w.ledger && w.ledger[f].Run?
      ensures RunOk(w.pool, w.ledger, w.ledger[f].base, w.ledger[f].pages)
      ensures f in RunFrames(w.ledger[f].base, w.ledger[f].pages)
    {
      assert f in v.ledger;
      assert RunOk(v.pool, v.ledger, v.ledger[f].base, v.ledger[f].pages);
    }
  }

  lemma NewSpaceOk(vm: Vm)
    requires VmOk(vm)
    ensures var (w, r) := NewSpace(vm);
      && VmOk(w) && Extends(vm, w)
      && (r.None? ==> w.spaces == vm.spaces && w.ledger == vm.ledger)
      && (r.Some? ==>
            && r.value !in vm.ledger && r.value !in vm.spaces
            && w.spaces == vm.spaces[r.value := Space(map[], map[])]
            && w.ledger == vm.ledger[r.value := Table(r.value)])
  {
    hide Valid, InOneRegion, Alloc;
    AllocCorrect(vm.pool);
    var (pool, got) := Alloc(vm.pool);
    assert got.Some? ==> got.value !in vm.ledger.Keys;
    var (w, r) := NewSpace(vm);
    LedgerGrows(vm, w.(spaces := vm.spaces));
    assert forall q :: q in vm.spaces ==> SpaceOk(vm.ledger, q, vm.spaces[q]);
  }

  // The effect of creating intermediate tables: no mapping changes.
  ghost predicate TablesAdded(v: Vm, w: Vm, root: nat) {
    && VmOk(w) && Extends(v, w) && OnlySpace(v, w, root)
    && root in v.spaces && root in w.spaces && w.spaces[root].pages == v.spaces[root].pages
    && (forall f :: f in w.ledger && f !in v.ledger ==> w.ledger[f] == Table(root))
  }

  lemma TablesAddedTwice(u: Vm, v: Vm, w: Vm, root: nat)
    requires TablesAdded(u, v, root) && TablesAdded(v, w, root)
    ensures TablesAdded(u, w, root)
  {
    hide VmOk;
  }

  lemma EnsureTableOk(vm: Vm, root: nat, key: TableKey)
    requires VmOk(vm) && root in vm.spaces
    ensures TablesAdded(vm, EnsureTable(vm, root, key).0, root)
  {
    hide Valid, AllocFor, RunsOk, InOneRegion;
    if key !in vm.spaces[root].tables {
      AllocForOk(vm, Table(root));
      var (w, r) := AllocFor(vm, Table(root));
      if r.Some? {
        assert SpaceOk(w.ledger, root, vm.spaces[root]);
      }
    }
  }

  // Mapping a page adds at most that page, to that space, and says which.
  ghost predicate PageAdded(v: Vm, w: Vm, root: nat, va: nat, pte: Pte, o: MapOutcome) {
    && VmOk(w) && Extends(v, w) && OnlySpace(v, w, root) && root in v.spaces && root in w.spaces
    && (o == Mapped ==> va !in v.spaces[root].pages && w.spaces[root].pages == v.spaces[root].pages[va := pte])
    && (o != Mapped ==> w.spaces[root].pages == v.spaces[root].pages)
    && (o == AlreadyMapped ==> va in v.spaces[root].pages)
    && (forall f :: f in w.ledger && f !in v.ledger ==> w.ledger[f] == Table(root))
  }

  lemma LeafOk(u: Vm, v: Vm, root: nat, va: nat, pte: Pte)
    requires TablesAdded(u, v, root) && PteOk(u.ledger, root, pte)
    ensures va !in v.spaces[root].pages ==>
              PageAdded(u, v.(spaces := v.spaces[root := v.spaces[root].(pages := v.spaces[root].pages[va := pte])]),
                        root, va, pte, Mapped)
  {
    hide Valid, RunsOk, RamAvoidsMmio;
  }

  lemma MapPageOk(vm: Vm, root: nat, va: nat, pte: Pte)
    requires VmOk(vm) && root in vm.spaces && PteOk(vm.ledger, root, pte)
    ensures PageAdded(vm, MapPage(vm, root, va, pte).0, root, va, pte, MapPage(vm, root, va, pte).1)
  {
    hide VmOk, EnsureTable, Extends, OnlySpace;
    EnsureTableOk(vm, root, Key(3, va));
    var (v3, ok3) := EnsureTable(vm, root, Key(3, va));
    if ok3 {
      EnsureTableOk(v3, root, Key(2, va));
      var (v2, ok2) := EnsureTable(v3, root, Key(2, va));
      TablesAddedTwice(vm, v3, v2, root);
      if ok2 {
        EnsureTableOk(v2, root, Key(1, va));
        var (v1, ok1) := EnsureTable(v2, root, Key(1, va));
        TablesAddedTwice(vm, v2, v1, root);
        LeafOk(vm, v1, root, va, pte);
      }
    }
  }

  // The tables that mapping a page needs; mapping creates those and no others, and
  // never takes one away.
  predicate TablesFor(space: Space, va: nat) {
    Key(3, va) in space.tables && Key(2, va) in space.tables && Key(1, va) in space.tables
  }

  lemma EnsureTableTables(vm: Vm, root: nat, key: TableKey)
    requires root in vm.spaces
    ensures var (w, ok) := EnsureTable(vm, root, key);
      && root in w.spaces && w.spaces[root].pages == vm.spaces[root].pages
      && (forall k :: k in w.spaces[root].tables <==> k in vm.spaces[root].tables || (k == key && ok))
      && (key in vm.spaces[root].tables ==> ok && w == vm)
  {
    hide Alloc;
  }

  lemma MapPageTables(vm: Vm, root: nat, va: nat, pte: Pte)
    requires root in vm.spaces
    ensures var (w, o) := MapPage(vm, root, va, pte);
      && root in w.spaces
      && w.spaces[root].pages == (if o == Mapped then vm.spaces[root].pages[va := pte] else vm.spaces[root].pages)
      && (forall k :: k in vm.spaces[root].tables ==> k in w.spaces[root].tables)
      && (forall k :: k in w.spaces[root].tables ==>
            k in vm.spaces[root].tables || k == Key(3, va) || k == Key(2, va) || k == Key(1, va))
      && (o != NoTableFrame ==> TablesFor(w.spaces[root], va))
      && (TablesFor(vm.spaces[root], va) ==>
            && w.pool == vm.pool
            && o == (if va in vm.spaces[root].pages then AlreadyMapped else Mapped)
            && (o == AlreadyMapped ==> w == vm))
  {
    hide EnsureTable, Key;
    EnsureTableTables(vm, root, Key(3, va));
    var (v3, ok3) := EnsureTable(vm, root, Key(3, va));
    if ok3 {
      EnsureTableTables(v3, root, Key(2, va));
      var (v2, ok2) := EnsureTable(v3, root, Key(2, va));
      if ok2 {
        EnsureTableTables(v2, root, Key(1, va));
      }
    }
  }

  // What any sequence of mappings into one space may do: that space only gains
  // pages, new frames belong to it, and no other space changes.
  ghost predicate SpaceGrown(v: Vm, w: Vm, root: nat) {
    && VmOk(w) && Extends(v, w) && OnlySpace(v, w, root) && root in v.spaces && root in w.spaces
    && (forall f :: f in w.ledger && f !in v.ledger ==> w.ledger[f] == Table(root) || w.ledger[f] == Private(root))
  }

  lemma GrownOk(v: Vm, w: Vm, root: nat)
    requires SpaceGrown(v, w, root)
    ensures VmOk(w) && Extends(v, w)
  {
    hide VmOk, Extends, OnlySpace;
  }

  // Every mapping that `w` has beyond `v` leads into the n frames from `phys`.
  ghost predicate NewPagesWithin(v: Vm, w: Vm, root: nat, phys: nat, n: nat, device: bool)
    requires root in v.spaces && root in w.spaces
  {
    forall va :: va in w.spaces[root].pages && va !in v.spaces[root].pages ==>
      && w.spaces[root].pages[va].device == device
      && phys <= w.spaces[root].pages[va].frame < phys + n * PAGE
      && w.spaces[root].pages[va].frame % PAGE == phys % PAGE
  }

  lemma SpaceGrownTwice(u: Vm, v: Vm, w: Vm, root: nat)
    requires SpaceGrown(u, v, root) && SpaceGrown(v, w, root)
    ensures SpaceGrown(u, w, root)
  {
    hide VmOk;
  }

  // The frames a range mapping may be asked to map into space `root`.
  ghost predicate RangeOk(ledger: map<nat, Use>, root: nat, phys: nat, n: nat, device: bool) {
    forall i: nat :: i < n ==>
      PteOk(ledger, root, if device then DevicePte(phys + i * PAGE) else UserPte(phys + i * PAGE, true, false))
  }

  lemma RangeOkTail(v: Vm, w: Vm, root: nat, phys: nat, n: nat, device: bool)
    requires n > 0 && RangeOk(v.ledger, root, phys, n, device) && Extends(v, w)
    ensures RangeOk(w.ledger, root, phys + PAGE, n - 1, device)
    ensures PteOk(v.ledger, root, if device then DevicePte(phys) else UserPte(phys, true, false))
  {
    forall i: nat | i < n - 1
      ensures PteOk(w.ledger, root,
                    if device then DevicePte(phys + PAGE + i * PAGE) else UserPte(phys + PAGE + i * PAGE, true, false))
    {
      var j := i + 1;
      assert phys + j * PAGE == phys + PAGE + i * PAGE;
    }
    var z: nat := 0;
    assert phys + z * PAGE == phys;
  }

  lemma {:induction false} MapRangeOk(vm: Vm, root: nat, va: nat, phys: nat, n: nat, device: bool)
    requires VmOk(vm) && root in vm.spaces && RangeOk(vm.ledger, root, phys, n, device)
    ensures SpaceGrown(vm, MapRange(vm, root, va, phys, n, device).0, root)
    ensures NewPagesWithin(vm, MapRange(vm, root, va, phys, n, device).0, root, phys, n, device)
    decreases n
  {
    hide VmOk, RangeOk, Extends, OnlySpace, MapPage;
    if n > 0 {
      RangeOkTail(vm, vm, root, phys, n, device) by { ExtendsSelf(vm); }
      var pte := if device then DevicePte(phys) else UserPte(phys, true, false);
      MapPageOk(vm, root, va, pte);
      var (w, o) := MapPage(vm, root, va, pte);
      PageIsGrowth(vm, w, root, va, pte, o);
      if o == Mapped || (device && o == AlreadyMapped) {
        RangeOkTail(vm, w, root, phys, n, device);
        MapRangeOk(w, root, va + PAGE, phys + PAGE, n - 1, device);
        var x := MapRange(w, root, va + PAGE, phys + PAGE, n - 1, device).0;
        SpaceGrownTwice(vm, w, x, root);
        PagesKept(w, x, root);
        NewPagesTwice(vm, w, x, root, va, pte, o, n, device);
      } else {
        NewPagesTwice(vm, w, w, root, va, pte, o, n, device);
      }
    } else {
      SpaceGrownSelf(vm, root);
    }
  }

  lemma NewPagesTwice(u: Vm, v: Vm, w: Vm, root: nat, va: nat, pte: Pte, o: MapOutcome, n: nat, device: bool)
    requires PageAdded(u, v, root, va, pte, o) && n > 0
    requires pte.device == device
    requires root in w.spaces && NewPagesWithin(v, w, root, pte.frame + PAGE, n - 1, device)
    requires forall a :: a in v.spaces[root].pages ==>
               a in w.spaces[root].pages && w.spaces[root].pages[a] == v.spaces[root].pages[a]
    ensures NewPagesWithin(u, w, root, pte.frame, n, device)
  {
    hide VmOk, Extends;
  }

  lemma PagesKept(v: Vm, w: Vm, root: nat)
    requires SpaceGrown(v, w, root)
    ensures forall a :: a in v.spaces[root].pages ==>
              a in w.spaces[root].pages && w.spaces[root].pages[a] == v.spaces[root].pages[a]
  {
    hide VmOk;
  }

  lemma ExtendsSelf(v: Vm)
    ensures Extends(v, v)
  {
  }

  lemma SpaceGrownSelf(v: Vm, root: nat)
    requires VmOk(v) && root in v.spaces
    ensures SpaceGrown(v, v, root)
  {
  }

  lemma PageIsGrowth(v: Vm, w: Vm, root: nat, va: nat, pte: Pte, o: MapOutcome)
    requires PageAdded(v, w, root, va, pte, o)
    ensures SpaceGrown(v, w, root)
  {
    hide VmOk;
  }

  // When the whole range could be mapped, each page leads to its frame.
  lemma {:induction false} MapRangeMaps(vm: Vm, root: nat, va: nat, phys: nat, n: nat, k: nat)
    requires VmOk(vm) && root in vm.spaces && RangeOk(vm.ledger, root, phys, n, false)
    requires MapRange(vm, root, va, phys, n, false).1 && k < n
    ensures var w := MapRange(vm, root, va, phys, n, false).0;
      && va + k * PAGE in w.spaces[root].pages
      && w.spaces[root].pages[va + k * PAGE] == UserPte(phys + k * PAGE, true, false)
    decreases n
  {
    hide VmOk, RangeOk, Extends, MapPage, PteOk, SpaceGrown, NewPagesWithin, OnlySpace;
    RangeOkTail(vm, vm, root, phys, n, false) by { ExtendsSelf(vm); }
    var pte := UserPte(phys, true, false);
    MapPageOk(vm, root, va, pte);
    var w := MapPage(vm, root, va, pte).0;
    RangeOkTail(vm, w, root, phys, n, false);
    if k > 0 {
      assert va + k * PAGE == va + PAGE + (k - 1) * PAGE && phys + k * PAGE == phys + PAGE + (k - 1) * PAGE;
      MapRangeMaps(w, root, va + PAGE, phys + PAGE, n - 1, k - 1);
    } else {
      MapRangeOk(w, root, va + PAGE, phys + PAGE, n - 1, false);
      PagesKept(w, MapRange(w, root, va + PAGE, phys + PAGE, n - 1, false).0, root);
    }
  }

  // A complete device mapping leaves each page where it already led, or leads it to
  // its device page.
  lemma {:induction false} DeviceRangeMaps(vm: Vm, root: nat, va: nat, phys: nat, n: nat, k: nat)
    requires VmOk(vm) && root in vm.spaces && RangeOk(vm.ledger, root, phys, n, true)
    requires MapRange(vm, root, va, phys, n, true).1 && k < n
    ensures var w := MapRange(vm, root, va, phys, n, true).0;
      && va + k * PAGE in w.spaces[root].pages
      && w.spaces[root].pages[va + k * PAGE]
         == if va + k * PAGE in vm.spaces[root].pages then vm.spaces[root].pages[va + k * PAGE]
            else DevicePte(phys + k * PAGE)
    decreases n
  {
    hide VmOk, RangeOk, Extends, MapPage, PteOk, SpaceGrown, NewPagesWithin, OnlySpace;
    RangeOkTail(vm, vm, root, phys, n, true) by { ExtendsSelf(vm); }
    var pte := DevicePte(phys);
    MapPageOk(vm, root, va, pte);
    var w := MapPage(vm, root, va, pte).0;
    RangeOkTail(vm, w, root, phys, n, true);
    if k > 0 {
      assert va + k * PAGE == va + PAGE + (k - 1) * PAGE && phys + k * PAGE == phys + PAGE + (k - 1) * PAGE;
      DeviceRangeMaps(w, root, va + PAGE, phys + PAGE, n - 1, k - 1);
    } else {
      MapRangeOk(w, root, va + PAGE, phys + PAGE, n - 1, true);
      PagesKept(w, MapRange(w, root, va + PAGE, phys + PAGE, n - 1, true).0, root);
    }
  }

  // Every mapping `w` has beyond `v` in `root` leads to a frame private to it.
  ghost predicate NewPagesPrivate(v: Vm, w: Vm, root: nat)
    requires root in v.spaces && root in w.spaces
  {
    forall va :: va in w.spaces[root].pages && va !in v.spaces[root].pages ==>
      var pte := w.spaces[root].pages[va];
      !pte.device && pte.frame in w.ledger && w.ledger[pte.frame] == Private(root)
  }

  lemma NewPagesPrivateTwice(u: Vm, v: Vm, w: Vm, root: nat)
    requires SpaceGrown(u, v, root) && SpaceGrown(v, w, root)
    requires NewPagesPrivate(u, v, root) && NewPagesPrivate(v, w, root)
    ensures NewPagesPrivate(u, w, root)
  {
    hide VmOk;
  }

  lemma AllocMapOk(vm: Vm, root: nat, plan: PagePlan)
    requires VmOk(vm) && root in vm.spaces
    ensures var (w, b) := AllocMap(vm, root, plan);
      && SpaceGrown(vm, w, root) && NewPagesPrivate(vm, w, root)
      && (forall va :: va in w.spaces[root].pages && va !in vm.spaces[root].pages ==> va == plan.va)
      && (b == Backed ==> plan.va !in vm.spaces[root].pages && plan.va in w.spaces[root].pages)
  {
    hide VmOk, AllocFor, MapPage;
    AllocForOk(vm, Private(root));
    var (w, r) := AllocFor(vm, Private(root));
    if r.Some? {
      MapPageOk(w, root, plan.va, UserPte(r.value, plan.writable, plan.executable));
    }
  }

  lemma {:induction false} AllocMapAllOk(vm: Vm, root: nat, plans: seq<PagePlan>)
    requires VmOk(vm) && root in vm.spaces
    ensures var w := AllocMapAll(vm, root, plans).0; SpaceGrown(vm, w, root) && NewPagesPrivate(vm, w, root)
    decreases |plans|
  {
    hide VmOk, AllocMap, Extends, OnlySpace;
    if plans == [] {
      SpaceGrownSelf(vm, root);
    } else {
      AllocMapOk(vm, root, plans[0]);
      var (w, b) := AllocMap(vm, root, plans[0]);
      if b == Backed {
        AllocMapAllOk(w, root, plans[1..]);
        var x := AllocMapAll(w, root, plans[1..]).0;
        SpaceGrownTwice(vm, w, x, root);
        NewPagesPrivateTwice(vm, w, x, root);
      }
    }
  }

  // A page of `w` that carries out the plan.
  ghost predicate PlanDone(w: Vm, root: nat, plan: PagePlan)
    requires root in w.spaces
  {
    plan.va in w.spaces[root].pages
    && w.spaces[root].pages[plan.va] == UserPte(w.spaces[root].pages[plan.va].frame, plan.writable, plan.executable)
  }

  lemma AllocMapExact(vm: Vm, root: nat, plan: PagePlan)
    requires VmOk(vm) && root in vm.spaces
    ensures var (w, b) := AllocMap(vm, root, plan);
      && root in w.spaces
      && (b == Backed ==>
            && plan.va !in vm.spaces[root].pages && PlanDone(w, root, plan)
            && w.spaces[root].pages == vm.spaces[root].pages[plan.va := w.spaces[root].pages[plan.va]])
  {
    hide VmOk, AllocFor, MapPage;
    AllocForOk(vm, Private(root));
    var (w, r) := AllocFor(vm, Private(root));
    if r.Some? {
      MapPageOk(w, root, plan.va, UserPte(r.value, plan.writable, plan.executable));
    }
  }

  // When a whole plan could be backed, the space has gained exactly its pages.
  lemma {:induction false} AllocMapAllExact(vm: Vm, root: nat, plans: seq<PagePlan>)
    requires VmOk(vm) && root in vm.spaces && AllocMapAll(vm, root, plans).1 == Backed
    ensures var w := AllocMapAll(vm, root, plans).0;
      && root in w.spaces
      && (forall i :: 0 <= i < |plans| ==> plans[i].va !in vm.spaces[root].pages && PlanDone(w, root, plans[i]))
      && (forall va :: va in w.spaces[root].pages <==>
            va in vm.spaces[root].pages || exists i :: 0 <= i < |plans| && plans[i].va == va)
    decreases |plans|
  {
    hide VmOk, AllocMap, Extends, OnlySpace;
    if plans != [] {
      AllocMapExact(vm, root, plans[0]);
      AllocMapOk(vm, root, plans[0]);
      var (w, b) := AllocMap(vm, root, plans[0]);
      AllocMapAllExact(w, root, plans[1..]);
      AllocMapAllOk(w, root, plans[1..]);
      var x := AllocMapAll(w, root, plans[1..]).0;
      PagesKept(w, x, root);
      assert forall i :: 1 <= i < |plans| ==> plans[i] == plans[1..][i - 1];
    }
  }

  // A granted run: fresh frames only, all recorded alike, nothing else changed.
  ghost predicate RunGranted(v: Vm, w: Vm, base: nat, n: nat, privateTo: Option<nat>) {
    && n > 0 && InOneRegion(v.pool, base, n)
    && (forall f :: f in RunFrames(base, n) ==> f !in v.ledger)
    && (forall f :: f in w.ledger <==> f in v.ledger || f in RunFrames(base, n))
    && (forall f :: f in v.ledger ==> w.ledger[f] == v.ledger[f])
    && (forall f :: f in RunFrames(base, n) ==>
          w.ledger[f] == if privateTo.Some? then Private(privateTo.value) else Run(base, n))
  }

  lemma AllocRunOk(vm: Vm, n: nat, privateTo: Option<nat>)
    requires VmOk(vm)
    ensures var (w, r) := AllocRun(vm, n, privateTo);
      && VmOk(w) && Extends(vm, w) && w.spaces == vm.spaces
      && (r.None? ==> w.ledger == vm.ledger)
      && (r.Some? ==> RunGranted(vm, w, r.value, n, privateTo))
  {
    hide Valid, AllocContiguous, InOneRegion, Ahead, RunFrames, RunOk, SpaceOk;
    AllocContiguousCorrect(vm.pool, n);
    var got := AllocContiguous(vm.pool, n).1;
    var w := AllocRun(vm, n, privateTo).0;
    if got.Some? {
      FreshNotInLedger(vm, RunFrames(got.value, n));
      hide VmOk;
      RunRecorded(vm, w, got.value, n, privateTo);
      RecordedOk(vm, w, got.value, n, privateTo);
    } else {
      hide RunsOk;
      LedgerGrows(vm, w);
    }
  }

  lemma FreshNotInLedger(vm: Vm, run: set<nat>)
    requires vm.ledger.Keys == vm.pool.issued && forall f :: f in run ==> f !in vm.pool.issued
    ensures forall f :: f in run ==> f !in vm.ledger
  {
    forall f | f in run
      ensures f !in vm.ledger.Keys
    {
    }
  }

  lemma RecordedOk(v: Vm, w: Vm, base: nat, n: nat, privateTo: Option<nat>)
    requires VmOk(v) && Valid(w.pool) && w.pool.regions == v.pool.regions
    requires w.pool.issued == v.pool.issued + RunFrames(base, n)
    requires w.ledger == Record(v.ledger, RunFrames(base, n),
                                if privateTo.Some? then Private(privateTo.value) else Run(base, n))
    requires (forall r :: r in w.spaces ==> SpaceOk(w.ledger, r, w.spaces[r])) && RunsOk(w.pool, w.ledger)
    ensures VmOk(w)
  {
    hide Valid, RunFrames, SpaceOk, RunsOk;
    assert w.ledger.Keys == w.pool.issued;
  }

  lemma RunRecorded(v: Vm, w: Vm, base: nat, n: nat, privateTo: Option<nat>)
    requires VmOk(v) && n > 0 && InOneRegion(v.pool, base, n)
    requires forall f :: f in RunFrames(base, n) ==> f !in v.ledger
    requires w.pool.regions == v.pool.regions && w.spaces == v.spaces
    requires w.ledger == Record(v.ledger, RunFrames(base, n),
                                if privateTo.Some? then Private(privateTo.value) else Run(base, n))
    ensures forall r :: r in w.spaces ==> SpaceOk(w.ledger, r, w.spaces[r])
    ensures RunsOk(w.pool, w.ledger) && RunGranted(v, w, base, n, privateTo) && Extends(v, w)
  {
    hide Valid;
    forall f | f in w.ledger && w.ledger[f].Run?
      ensures RunOk(w.pool, w.ledger, w.ledger[f].base, w.ledger[f].pages)
      ensures f in RunFrames(w.ledger[f].base, w.ledger[f].pages)
    {
      if f in v.ledger {
        assert RunOk(v.pool, v.ledger, v.ledger[f].base, v.ledger[f].pages);
      }
    }
  }

  lemma {:induction false} FreeRunLedger(vm: Vm, base: nat, n: nat)
    requires base % PAGE == 0
    ensures FreeRun(vm, base, n).ledger == vm.ledger - RunFrames(base, n)
    ensures FreeRun(vm, base, n).pool.issued == vm.pool.issued - RunFrames(base, n)
    ensures FreeRun(vm, base, n).pool.regions == vm.pool.regions
    decreases n
  {
    hide RunFrames;
    if n == 0 {
      NoFrames(base);
    } else {
      RunHead(base, n);
      FreeRunLedger(vm.(pool := Free(vm.pool, base), ledger := vm.ledger - {base}), base + PAGE, n - 1);
      TwoRemovals(vm.ledger, base, RunFrames(base + PAGE, n - 1));
    }
  }

  lemma {:induction false} FreeRunValid(vm: Vm, base: nat, n: nat)
    requires Valid(vm.pool) && base % PAGE == 0 && RunFrames(base, n) <= vm.pool.issued
    ensures Valid(FreeRun(vm, base, n).pool)
    decreases n
  {
    hide Valid, Alloc, RunFrames;
    if n > 0 {
      RunHead(base, n);
      var rest := RunFrames(base + PAGE, n - 1);
      FreeCorrect(vm.pool, base);
      var v := vm.(pool := Free(vm.pool, base), ledger := vm.ledger - {base});
      assert rest <= v.pool.issued;
      FreeRunValid(v, base + PAGE, n - 1);
    }
  }

  // Returning a run gives back exactly its frames and touches nothing else.
  lemma FreeRunEffect(vm: Vm, base: nat, n: nat)
    requires Valid(vm.pool) && vm.ledger.Keys == vm.pool.issued
    requires base % PAGE == 0 && RunFrames(base, n) <= vm.ledger.Keys
    ensures var w := FreeRun(vm, base, n);
      && Valid(w.pool) && w.ledger.Keys == w.pool.issued
      && w.pool.regions == vm.pool.regions && w.spaces == vm.spaces
      && w.ledger == vm.ledger - RunFrames(base, n)
  {
    hide Valid, FreeRun, RunFrames;
    FreeRunLedger(vm, base, n);
    FreeRunValid(vm, base, n);
  }

  lemma TwoRemovals(ledger: map<nat, Use>, base: nat, rest: set<nat>)
    ensures ledger - {base} - rest == ledger - ({base} + rest)
  {
  }

  lemma NoFrames(base: nat)
    ensures RunFrames(base, 0) == {}
  {
  }

  lemma RunHead(base: nat, n: nat)
    requires n > 0 && base % PAGE == 0
    ensures RunFrames(base, n) == {base} + RunFrames(base + PAGE, n - 1)
    ensures base !in RunFrames(base + PAGE, n - 1)
  {
  }

  // Does some space still map a frame of the run?
  ghost predicate RunStillMapped(vm: Vm, base: nat, n: nat) {
    exists r, va :: r in vm.spaces && va in vm.spaces[r].pages && !vm.spaces[r].pages[va].device
      && vm.spaces[r].pages[va].frame in RunFrames(base, n)
  }

  // Returning a run is sound exactly when nothing maps it any more.
  lemma FreeRunSoundIff(vm: Vm, base: nat, n: nat)
    requires VmOk(vm) && RunOk(vm.pool, vm.ledger, base, n)
    ensures VmOk(FreeRun(vm, base, n)) <==> !RunStillMapped(vm, base, n)
    ensures FreeRun(vm, base, n).spaces == vm.spaces
    ensures FreeRun(vm, base, n).pool.regions == vm.pool.regions
    ensures FreeRun(vm, base, n).ledger == vm.ledger - RunFrames(base, n)
  {
    hide Valid, FreeRun;
    var run := RunFrames(base, n);
    FreeRunEffect(vm, base, n);
    var w := FreeRun(vm, base, n);
    if RunStillMapped(vm, base, n) {
      var r, va :| r in vm.spaces && va in vm.spaces[r].pages && !vm.spaces[r].pages[va].device
        && vm.spaces[r].pages[va].frame in run;
      assert !SpaceOk(w.ledger, r, w.spaces[r]);
    } else {
      forall r | r in w.spaces
        ensures SpaceOk(w.ledger, r, w.spaces[r])
      {
        assert SpaceOk(vm.ledger, r, vm.spaces[r]);
      }
      forall f | f in w.ledger && w.ledger[f].Run?
        ensures RunOk(w.pool, w.ledger, w.ledger[f].base, w.ledger[f].pages)
        ensures f in RunFrames(w.ledger[f].base, w.ledger[f].pages)
      {
        assert RunOk(vm.pool, vm.ledger, vm.ledger[f].base, vm.ledger[f].pages);
      }
    }
  }
}
