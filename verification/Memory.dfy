// Physical memory and the address spaces built on it, updated in place: frames
// come from the allocator, page tables are edited, and page contents are bytes.
module Memory {
  import opened Base
  import FramePool
  import opened FrameAllocator
  import opened AddressSpace

  class PhysicalMemory {
    const frames: PhysFrameAllocator
    const ram: array<byte>
    var spaces: map<nat, Space>
    ghost var ledger: map<nat, Use>

    ghost function View(): Vm
      reads this, frames
    {
      Vm(frames.View(), spaces, ledger)
    }

    // All usable frames exist, and the allocator's counters are in order.
    ghost predicate Ok()
      reads this, frames
    {
      frames.Ok() && forall i :: 0 <= i < |frames.regions| ==> frames.regions[i].end <= ram.Length
    }

    constructor (frames: PhysFrameAllocator, ram: array<byte>)
      ensures this.frames == frames && this.ram == ram && View() == Vm(frames.View(), map[], map[])
    {
      this.frames, this.ram := frames, ram;
      spaces, ledger := map[], map[];
    }

    // ----- Frames -----

    method AllocFrame(ghost use: Use) returns (r: Option<nat>)
      requires Ok()
      modifies this, frames
      ensures Ok() && (View(), r) == AllocFor(old(View()), use)
      ensures r.Some? ==> r.value + PAGE <= ram.Length
    {
      ghost var before := frames.View();
      r := frames.Alloc();
      SingleInRam(before, r, ram.Length);
      if r.Some? {
        ledger := ledger[r.value := use];
      }
    }

    method Zero(base: nat, len: nat)
      requires base + len <= ram.Length
      modifies ram
      ensures forall a :: 0 <= a < ram.Length ==> ram[a] == if base <= a < base + len then 0 else old(ram[a])
    {
      for i := 0 to len
        invariant forall a :: 0 <= a < ram.Length ==> ram[a] == if base <= a < base + i then 0 else old(ram[a])
      {
        ram[base + i] := 0;
      }
    }

    method NewSpace() returns (r: Option<nat>)
      requires Ok()
      modifies this, frames
      ensures Ok() && (View(), r) == AddressSpace.NewSpace(old(View()))
    {
      ghost var before := frames.View();
      r := frames.Alloc();
      SingleInRam(before, r, ram.Length);
      if r.Some? {
        ledger := ledger[r.value := Table(r.value)];
        spaces := spaces[r.value := Space(map[], map[])];
      }
    }

    // ----- Page tables -----

    method EnsureTable(root: nat, key: TableKey) returns (ok: bool)
      requires Ok() && root in spaces
      modifies this, frames
      ensures Ok() && (View(), ok) == AddressSpace.EnsureTable(old(View()), root, key)
    {
      if key in spaces[root].tables {
        return true;
      }
      var got := AllocFrame(Table(root));
      if got.None? {
        return false;
      }
      var space := spaces[root];
      spaces := spaces[root := space.(tables := space.tables[key := got.value])];
      ok := true;
    }

    method MapPage(root: nat, va: nat, pte: Pte) returns (o: MapOutcome)
      requires Ok() && root in spaces
      modifies this, frames
      ensures Ok() && (View(), o) == AddressSpace.MapPage(old(View()), root, va, pte)
    {
      hide AddressSpace.EnsureTable;
      var ok := EnsureTable(root, Key(3, va));
      if !ok {
        return NoTableFrame;
      }
      ok := EnsureTable(root, Key(2, va));
      if !ok {
        return NoTableFrame;
      }
      ok := EnsureTable(root, Key(1, va));
      if !ok {
        return NoTableFrame;
      }
      var space := spaces[root];
      if va in space.pages {
        return AlreadyMapped;
      }
      spaces := spaces[root := space.(pages := space.pages[va := pte])];
      o := Mapped;
    }

    // Map consecutive pages to consecutive frames until one fails.
    method MapRange(root: nat, va: nat, phys: nat, n: nat, device: bool) returns (ok: bool)
      requires Ok() && root in spaces
      modifies this, frames
      ensures Ok() && (View(), ok) == AddressSpace.MapRange(old(View()), root, va, phys, n, device)
    {
      hide AddressSpace.MapPage, FramePool.Conserved;
      var i := 0;
      while i < n
        invariant 0 <= i <= n && Ok() && root in spaces
        invariant AddressSpace.MapRange(View(), root, va + i * PAGE, phys + i * PAGE, n - i, device)
               == AddressSpace.MapRange(old(View()), root, va, phys, n, device)
      {
        var frame := phys + i * PAGE;
        var o := MapPage(root, va + i * PAGE, if device then DevicePte(frame) else UserPte(frame, true, false));
        if o != Mapped && !(device && o == AlreadyMapped) {
          return false;
        }
        assert va + (i + 1) * PAGE == va + i * PAGE + PAGE && phys + (i + 1) * PAGE == phys + i * PAGE + PAGE;
        i := i + 1;
      }
      ok := true;
    }

    // Back one page with a fresh zeroed frame.
    method AllocMap(root: nat, plan: PagePlan) returns (b: Backing)
      requires Ok() && root in spaces
      modifies this, frames, ram
      ensures Ok() && (View(), b) == AddressSpace.AllocMap(old(View()), root, plan)
      ensures FrameZeroed(old(ram[..]), ram[..], FramePool.Alloc(old(frames.View())).1)
    {
      hide AddressSpace.MapPage, FramePool.Alloc, FramePool.Conserved;
      var got := AllocFrame(Private(root));
      if got.None? {
        return NoFrame;
      }
      Zero(got.value, PAGE);
      var o := MapPage(root, plan.va, UserPte(got.value, plan.writable, plan.executable));
      b := if o == Mapped then Backed else MapFailed;
    }

    method AllocMapAll(root: nat, plans: seq<PagePlan>) returns (b: Backing)
      requires Ok() && root in spaces
      modifies this, frames, ram
      ensures Ok() && (View(), b) == AddressSpace.AllocMapAll(old(View()), root, plans)
      ensures VmOk(old(View())) ==> FreshPages(old(View()), View(), root, old(ram[..]), ram[..])
    {
      hide AddressSpace.AllocMap, VmOk, FreshPages, FrameZeroed, FramePool.Conserved, FramePool.Alloc;
      var i := 0;
      assert plans[0..] == plans;
      if VmOk(View()) {
        NoFreshPages(View(), root, ram[..]);
      }
      while i < |plans|
        invariant 0 <= i <= |plans| && Ok() && root in spaces
        invariant AddressSpace.AllocMapAll(View(), root, plans[i..])
                  == AddressSpace.AllocMapAll(old(View()), root, plans)
        invariant VmOk(old(View())) ==> FreshPages(old(View()), View(), root, old(ram[..]), ram[..])
      {
        ghost var v, bytes := View(), ram[..];
        b := AllocMap(root, plans[i]);
        if VmOk(old(View())) {
          FreshPageAdded(old(View()), v, root, old(ram[..]), bytes, ram[..], plans[i]);
        }
        if b != Backed {
          return;
        }
        assert plans[i..][1..] == plans[i + 1..];
        i := i + 1;
      }
      b := Backed;
    }

    // ----- Contiguous runs -----

    method AllocRun(n: nat, ghost privateTo: Option<nat>) returns (r: Option<nat>)
      requires Ok()
      modifies this, frames, ram
      ensures Ok() && (View(), r) == AddressSpace.AllocRun(old(View()), n, privateTo)
      ensures r.Some? ==> FramePool.RunFrames(r.value, n) <= frames.issued && r.value % PAGE == 0
      ensures spaces == old(spaces)
      ensures forall a :: 0 <= a < ram.Length ==>
                ram[a] == if r.Some? && r.value <= a < r.value + n * PAGE then 0 else old(ram[a])
    {
      ghost var before := frames.View();
      r := frames.AllocContiguous(n);
      RunInRam(before, n, r, ram.Length);
      if r.Some? {
        ghost var use := if privateTo.Some? then Private(privateTo.value) else Run(r.value, n);
        ledger := Record(ledger, FramePool.RunFrames(r.value, n), use);
        Zero(r.value, n * PAGE);
      }
    }

    method FreeRun(base: nat, n: nat)
      requires Ok() && base % PAGE == 0 && FramePool.RunFrames(base, n) <= frames.issued
      modifies this, frames
      ensures Ok() && View() == AddressSpace.FreeRun(old(View()), base, n)
    {
      hide FramePool.Conserved, FramePool.RunFrames;
      var i := 0;
      while i < n
        invariant 0 <= i <= n && Ok() && FramePool.RunFrames(base + i * PAGE, n - i) <= frames.issued
        invariant AddressSpace.FreeRun(View(), base + i * PAGE, n - i) == AddressSpace.FreeRun(old(View()), base, n)
      {
        var pa := base + i * PAGE;
        FramePool.PageMultiple(base, i);
        RunHead(pa, n - i);
        assert pa in FramePool.RunFrames(pa, n - i);
        frames.Free(pa);
        ledger := ledger - {pa};
        i := i + 1;
      }
    }

    // ----- User memory -----

    method UserRangeOk(root: nat, ptr: nat, len: nat, writable: bool) returns (ok: bool)
      requires root in spaces
      ensures ok <==> UserRange(spaces[root], ptr, len, writable)
    {
      if len == 0 {
        return true;
      }
      var last := ptr + len - 1;
      if last >= U64_LIMIT {
        return false;
      }
      var lastPage := PageDown(last);
      var page := PageDown(ptr);
      while true
        invariant PageDown(ptr) <= page <= lastPage && page % PAGE == 0
        invariant forall a: nat :: ptr <= a <= last && a < page ==> UserByte(spaces[root], a, writable)
        decreases lastPage - page
      {
        var pages := spaces[root].pages;
        if page !in pages || !pages[page].user || (writable && !pages[page].writable) {
          ghost var a := if page < ptr then ptr else page;
          assert PageDown(a) == page && !UserByte(spaces[root], a, writable);
          return false;
        }
        PageBytes(spaces[root], page, writable);
        if page >= lastPage {
          return true;
        }
        page := page + PAGE;
      }
    }
  }

  lemma PageBytes(space: Space, page: nat, writable: bool)
    requires page % PAGE == 0 && UserPage(space, page, writable)
    ensures forall a: nat :: page <= a < page + PAGE ==> UserByte(space, a, writable)
  {
    forall a: nat | page <= a < page + PAGE
      ensures UserByte(space, a, writable)
    {
      assert PageDown(a) == page;
    }
  }

  lemma RunInRam(p: FramePool.Pool, n: nat, r: Option<nat>, size: nat)
    requires FramePool.Valid(p) && r == FramePool.AllocContiguous(p, n).1
    requires forall i :: 0 <= i < |p.regions| ==> p.regions[i].end <= size
    ensures FramePool.AllocContiguous(p, n).0.regions == p.regions
    ensures r.Some? ==> r.value % PAGE == 0 && r.value + n * PAGE <= size
    ensures r.Some? ==> FramePool.RunFrames(r.value, n) <= FramePool.AllocContiguous(p, n).0.issued
  {
    FramePool.AllocContiguousCorrect(p, n);
  }

  // One frame's bytes become zero and no other byte changes.
  ghost predicate FrameZeroed(before: seq<byte>, after: seq<byte>, r: Option<nat>) {
    && |after| == |before|
    && forall a :: 0 <= a < |before| ==> after[a] == if r.Some? && r.value <= a < r.value + PAGE then 0 else before[a]
  }

  // The bytes of a frame.
  ghost predicate ZeroFrame(bytes: seq<byte>, frame: nat) {
    frame % PAGE == 0 && frame + PAGE <= |bytes| && forall k :: frame <= k < frame + PAGE ==> bytes[k] == 0
  }

  // No byte of a frame that was already issued has changed.
  ghost predicate KeepsBytes(v: Vm, before: seq<byte>, after: seq<byte>) {
    && |after| == |before|
    && forall f, k :: f in v.ledger && 0 <= k < |before| && f <= k < f + PAGE ==> after[k] == before[k]
  }

  predicate NewPage(v: Vm, w: Vm, root: nat, va: nat)
    requires root in v.spaces && root in w.spaces
  {
    va in w.spaces[root].pages && va !in v.spaces[root].pages
  }

  // The space `root` only gained pages, each backed by its own zeroed frame that
  // was not issued before; no byte of any issued frame changed.
  ghost predicate FreshPages(v: Vm, w: Vm, root: nat, before: seq<byte>, after: seq<byte>) {
    && SpaceGrown(v, w, root) && NewPagesPrivate(v, w, root) && KeepsBytes(v, before, after)
    && ZeroPages(v, w, root, after) && ApartPages(v, w, root)
  }

  ghost predicate ZeroPages(v: Vm, w: Vm, root: nat, bytes: seq<byte>)
    requires root in v.spaces && root in w.spaces
  {
    forall va :: NewPage(v, w, root, va) ==>
      w.spaces[root].pages[va].frame !in v.ledger && ZeroFrame(bytes, w.spaces[root].pages[va].frame)
  }

  ghost predicate ApartPages(v: Vm, w: Vm, root: nat)
    requires root in v.spaces && root in w.spaces
  {
    forall va, vb :: NewPage(v, w, root, va) && NewPage(v, w, root, vb) && va != vb ==>
      w.spaces[root].pages[va].frame != w.spaces[root].pages[vb].frame
  }

  lemma NoFreshPages(v: Vm, root: nat, bytes: seq<byte>)
    requires VmOk(v) && root in v.spaces
    ensures FreshPages(v, v, root, bytes, bytes)
  {
    hide VmOk;
    SpaceGrownSelf(v, root);
  }

  // What backing one page adds.
  lemma OneFreshPage(v: Vm, root: nat, plan: PagePlan, size: nat)
    requires VmOk(v) && root in v.spaces && forall i :: 0 <= i < |v.pool.regions| ==> v.pool.regions[i].end <= size
    ensures var (w, b) := AllocMap(v, root, plan);
      var got := FramePool.Alloc(v.pool).1;
      && SpaceGrown(v, w, root) && NewPagesPrivate(v, w, root)
      && (got.Some? ==> got.value !in v.ledger && got.value % PAGE == 0 && got.value + PAGE <= size)
      && (forall va :: va in w.spaces[root].pages && va !in v.spaces[root].pages ==>
            va == plan.va && got.Some? && w.spaces[root].pages[va].frame == got.value)
  {
    hide FramePool.Alloc, FramePool.Valid, RunsOk, SpaceOk, MapPage;
    AllocMapOk(v, root, plan);
    FramePool.AllocCorrect(v.pool);
    assert v.ledger.Keys == v.pool.issued;
    AllocForOk(v, Private(root));
    var (w, r) := AllocFor(v, Private(root));
    if r.Some? {
      hide VmOk;
      MapPageOk(w, root, plan.va, UserPte(r.value, plan.writable, plan.executable));
    }
  }

  lemma IssuedAligned(v: Vm, f: nat)
    requires VmOk(v) && f in v.ledger
    ensures f % PAGE == 0
  {
    hide RunsOk, SpaceOk, FramePool.Ahead;
    assert f in v.pool.issued;
    assert FramePool.Usable(v.pool, f);
  }

  // Zeroing a frame that was not issued leaves every issued frame alone.
  lemma ZeroingKeeps(v: Vm, before: seq<byte>, after: seq<byte>, r: Option<nat>)
    requires VmOk(v) && FrameZeroed(before, after, r)
    requires r.Some? ==> r.value !in v.ledger && r.value % PAGE == 0
    ensures KeepsBytes(v, before, after)
  {
    hide VmOk;
    forall f, k | f in v.ledger && 0 <= k < |before| && f <= k < f + PAGE
      ensures after[k] == before[k]
    {
      IssuedAligned(v, f);
    }
  }

  lemma KeepsBytesTwice(u: Vm, v: Vm, a: seq<byte>, b: seq<byte>, c: seq<byte>)
    requires KeepsBytes(u, a, b) && KeepsBytes(v, b, c) && Extends(u, v)
    ensures KeepsBytes(u, a, c)
  {
  }

  lemma FreshPageAdded(u: Vm, v: Vm, root: nat, first: seq<byte>, before: seq<byte>, after: seq<byte>, plan: PagePlan)
    requires VmOk(u) && FreshPages(u, v, root, first, before)
    requires forall i :: 0 <= i < |v.pool.regions| ==> v.pool.regions[i].end <= |before|
    requires FrameZeroed(before, after, FramePool.Alloc(v.pool).1)
    ensures FreshPages(u, AllocMap(v, root, plan).0, root, first, after)
  {
    assert VmOk(v);
    hide VmOk, FramePool.Alloc, AllocMap, FrameZeroed, Extends, OnlySpace, ZeroPages, ApartPages, KeepsBytes;
    OneFreshPage(v, root, plan, |before|);
    GrownOk(u, v, root);
    var w := AllocMap(v, root, plan).0;
    var got := FramePool.Alloc(v.pool).1;
    NewPagesPrivateTwice(u, v, w, root);
    SpaceGrownTwice(u, v, w, root);
    ZeroingKeeps(v, before, after, got);
    KeepsBytesTwice(u, v, first, before, after);
    MorePages(u, v, w, root, before, after, plan.va, got);
  }

  // Adding one page in a zeroed frame of its own.
  lemma MorePages(u: Vm, v: Vm, w: Vm, root: nat, before: seq<byte>, after: seq<byte>, va: nat, got: Option<nat>)
    requires SpaceGrown(u, v, root) && SpaceGrown(v, w, root) && NewPagesPrivate(u, v, root)
    requires ZeroPages(u, v, root, before) && ApartPages(u, v, root)
    requires KeepsBytes(v, before, after) && FrameZeroed(before, after, got)
    requires got.Some? ==> got.value !in v.ledger && got.value % PAGE == 0 && got.value + PAGE <= |before|
    requires forall a :: NewPage(v, w, root, a) ==> a == va && got.Some? && w.spaces[root].pages[a].frame == got.value
    ensures ZeroPages(u, w, root, after) && ApartPages(u, w, root)
  {
    hide VmOk, FrameZeroed, KeepsBytes, ZeroFrame;
    forall a | NewPage(u, w, root, a)
      ensures w.spaces[root].pages[a].frame !in u.ledger && ZeroFrame(after, w.spaces[root].pages[a].frame)
    {
      var f := w.spaces[root].pages[a].frame;
      if a in v.spaces[root].pages {
        assert NewPage(u, v, root, a) && f in v.ledger;
        KeptZero(v, before, after, f);
      } else {
        assert NewPage(v, w, root, a);
        ZeroedIsZero(before, after, f);
      }
    }
    forall a, b | NewPage(u, w, root, a) && NewPage(u, w, root, b) && a != b
      ensures w.spaces[root].pages[a].frame != w.spaces[root].pages[b].frame
    {
      assert NewPage(u, v, root, a) || NewPage(v, w, root, a);
      assert NewPage(u, v, root, b) || NewPage(v, w, root, b);
    }
  }

  lemma KeptZero(v: Vm, before: seq<byte>, after: seq<byte>, f: nat)
    requires KeepsBytes(v, before, after) && f in v.ledger && ZeroFrame(before, f)
    ensures ZeroFrame(after, f)
  {
  }

  lemma ZeroedIsZero(before: seq<byte>, after: seq<byte>, f: nat)
    requires FrameZeroed(before, after, Some(f)) && f % PAGE == 0 && f + PAGE <= |before|
    ensures ZeroFrame(after, f)
  {
  }

  lemma SingleInRam(p: FramePool.Pool, r: Option<nat>, size: nat)
    requires FramePool.Valid(p) && r == FramePool.Alloc(p).1
    requires forall i :: 0 <= i < |p.regions| ==> p.regions[i].end <= size
    ensures FramePool.Alloc(p).0.regions == p.regions
    ensures r.Some? ==> r.value + PAGE <= size
  {
    FramePool.AllocCorrect(p);
  }
}
