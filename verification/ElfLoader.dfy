// The ELF loader as it runs: collect the segments, plan the pages, map them, and
// copy the file bytes page by page into physical memory.
module ElfLoader {
  import opened Base
  import FramePool
  import opened AddressSpace
  import opened ElfImage
  import opened ElfMeaning
  import opened Memory

  // ----- What the copying has achieved -----

  // The frame holds, for every address of the page, the byte that the segments put there.
  ghost predicate PageFilled(bytes: seq<byte>, frame: nat, va: nat, image: seq<byte>, segs: seq<Segment>) {
    && frame % PAGE == 0 && frame + PAGE <= |bytes|
    && forall a: nat :: va <= a < va + PAGE ==> bytes[frame + (a - va)] == FlatByte(image, segs, a)
  }

  // Every page that `w` has beyond `v` is filled.
  ghost predicate Filled(v: Vm, w: Vm, root: nat, bytes: seq<byte>, image: seq<byte>, segs: seq<Segment>)
    requires root in v.spaces && root in w.spaces
  {
    forall va :: NewPage(v, w, root, va) ==> PageFilled(bytes, w.spaces[root].pages[va].frame, va, image, segs)
  }

  // The pages to copy into: new, aligned, each with a frame of its own.
  ghost predicate Target(v: Vm, w: Vm, root: nat, plan: seq<PagePlan>) {
    && root in v.spaces && root in w.spaces && ApartPages(v, w, root)
    && (forall page: nat :: InPlan(plan, page) ==> NewPage(v, w, root, page))
    && (forall page: nat :: NewPage(v, w, root, page) ==>
            page % PAGE == 0 && w.spaces[root].pages[page].frame !in v.ledger)
  }

  // The first `n` file bytes of a segment.
  function Part(seg: Segment, n: nat): Segment {
    seg.(filesz := n)
  }

  lemma NothingCopied(v: Vm, w: Vm, root: nat, first: seq<byte>, bytes: seq<byte>, plan: seq<PagePlan>,
                      image: seq<byte>)
    requires FreshPages(v, w, root, first, bytes) && Target(v, w, root, plan)
    ensures Filled(v, w, root, bytes, image, [])
  {
    forall va | NewPage(v, w, root, va)
      ensures PageFilled(bytes, w.spaces[root].pages[va].frame, va, image, [])
    {
      assert ZeroFrame(bytes, w.spaces[root].pages[va].frame);
    }
  }

  lemma PartOfNothing(v: Vm, w: Vm, root: nat, bytes: seq<byte>, image: seq<byte>, done: seq<Segment>, seg: Segment)
    requires root in v.spaces && root in w.spaces && Filled(v, w, root, bytes, image, done)
    ensures Filled(v, w, root, bytes, image, done + [Part(seg, 0)])
  {
    assert (done + [Part(seg, 0)])[..|done|] == done;
    forall va | NewPage(v, w, root, va)
      ensures PageFilled(bytes, w.spaces[root].pages[va].frame, va, image, done + [Part(seg, 0)])
    {
      assert PageFilled(bytes, w.spaces[root].pages[va].frame, va, image, done);
    }
  }

  // `n` bytes of `src` written at `at`, nothing else changed.
  ghost predicate Written(before: seq<byte>, after: seq<byte>, at: nat, src: seq<byte>) {
    && |after| == |before|
    && forall i :: 0 <= i < |before| ==> after[i] == if at <= i < at + |src| then src[i - at] else before[i]
  }

  // One chunk lies within one page and extends the copied part by `n` bytes.
  lemma ChunkCopied(v: Vm, w: Vm, root: nat, plan: seq<PagePlan>, before: seq<byte>, after: seq<byte>, image: seq<byte>,
                    done: seq<Segment>, seg: Segment, copied: nat, n: nat)
    requires Target(v, w, root, plan) && Filled(v, w, root, before, image, done + [Part(seg, copied)])
    requires var va := seg.vaddr + copied;
      && InPlan(plan, PageDown(va)) && va + n <= PageDown(va) + PAGE
      && seg.offset + copied + n <= |image|
      && Written(before, after, w.spaces[root].pages[PageDown(va)].frame + va % PAGE,
                 image[seg.offset + copied..seg.offset + copied + n])
    ensures Filled(v, w, root, after, image, done + [Part(seg, copied + n)])
  {
    var page := PageDown(seg.vaddr + copied);
    assert NewPage(v, w, root, page);
    forall va | NewPage(v, w, root, va)
      ensures PageFilled(after, w.spaces[root].pages[va].frame, va, image, done + [Part(seg, copied + n)])
    {
      var f := w.spaces[root].pages[va].frame;
      assert PageFilled(before, f, va, image, done + [Part(seg, copied)]);
      assert PageFilled(before, w.spaces[root].pages[page].frame, page, image, done + [Part(seg, copied)]);
      if va == page {
        ChunkInPage(before, after, f, page, image, done, seg, copied, n);
      } else {
        ChunkElsewhere(before, after, f, va, w.spaces[root].pages[page].frame, page, image, done, seg, copied, n);
      }
    }
  }

  lemma FlatLast(image: seq<byte>, done: seq<Segment>, seg: Segment, a: nat)
    ensures FlatByte(image, done + [seg], a) ==
              if InFile(seg, a) && seg.offset + (a - seg.vaddr) < |image| then image[seg.offset + (a - seg.vaddr)]
              else FlatByte(image, done, a)
  {
    assert (done + [seg])[..|done|] == done;
  }

  lemma ChunkInPage(before: seq<byte>, after: seq<byte>, f: nat, page: nat, image: seq<byte>, done: seq<Segment>,
                    seg: Segment, copied: nat, n: nat)
    requires PageFilled(before, f, page, image, done + [Part(seg, copied)])
    requires var va := seg.vaddr + copied;
      && page == PageDown(va) && va + n <= page + PAGE && seg.offset + copied + n <= |image|
      && Written(before, after, f + va % PAGE, image[seg.offset + copied..seg.offset + copied + n])
    ensures PageFilled(after, f, page, image, done + [Part(seg, copied + n)])
  {
    var more := done + [Part(seg, copied + n)];
    forall a: nat | page <= a < page + PAGE
      ensures after[f + (a - page)] == FlatByte(image, more, a)
    {
      FlatLast(image, done, Part(seg, copied), a);
      FlatLast(image, done, Part(seg, copied + n), a);
      assert before[f + (a - page)] == FlatByte(image, done + [Part(seg, copied)], a);
    }
  }

  lemma ChunkElsewhere(before: seq<byte>, after: seq<byte>, f: nat, va: nat, g: nat, page: nat, image: seq<byte>,
                       done: seq<Segment>, seg: Segment, copied: nat, n: nat)
    requires PageFilled(before, f, va, image, done + [Part(seg, copied)]) && f != g && g % PAGE == 0 && va % PAGE == 0
    requires va != page
    requires var b := seg.vaddr + copied;
      && page == PageDown(b) && b + n <= page + PAGE && seg.offset + copied + n <= |image|
      && Written(before, after, g + b % PAGE, image[seg.offset + copied..seg.offset + copied + n])
    ensures PageFilled(after, f, va, image, done + [Part(seg, copied + n)])
  {
    var more := done + [Part(seg, copied + n)];
    forall a: nat | va <= a < va + PAGE
      ensures after[f + (a - va)] == FlatByte(image, more, a)
    {
      FlatLast(image, done, Part(seg, copied), a);
      FlatLast(image, done, Part(seg, copied + n), a);
      assert before[f + (a - va)] == FlatByte(image, done + [Part(seg, copied)], a);
      assert !(page <= a < page + PAGE);
    }
  }

  // Writing into a frame that was not issued keeps the bytes of those that were.
  lemma WriteKeeps(v: Vm, first: seq<byte>, before: seq<byte>, after: seq<byte>, frame: nat, at: nat, src: seq<byte>)
    requires VmOk(v) && KeepsBytes(v, first, before) && Written(before, after, at, src)
    requires frame !in v.ledger && frame % PAGE == 0 && frame <= at && at + |src| <= frame + PAGE
    ensures KeepsBytes(v, first, after)
  {
    hide VmOk;
    forall f, k | f in v.ledger && 0 <= k < |first| && f <= k < f + PAGE
      ensures after[k] == first[k]
    {
      IssuedAligned(v, f);
      assert before[k] == first[k];
    }
  }

  // ----- The loader -----

  lemma SpliceWritten(before: seq<byte>, at: nat, src: seq<byte>)
    requires at + |src| <= |before|
    ensures Written(before, Splice(before, at, src), at, src)
  {
  }

  // Copy one segment's file bytes, page by page; give up when a page is missing or
  // the image is too short.
  method CopySegment(mem: PhysicalMemory, root: nat, plan: seq<PagePlan>, image: seq<byte>, seg: Segment,
                     ghost v: Vm, ghost first: seq<byte>, ghost done: seq<Segment>) returns (ok: bool)
    requires VmOk(v) && Target(v, mem.View(), root, plan)
    requires KeepsBytes(v, first, mem.ram[..]) && Filled(v, mem.View(), root, mem.ram[..], image, done)
    modifies mem.ram
    ensures ok <==> Copyable(image, seg, plan)
    ensures KeepsBytes(v, first, mem.ram[..])
    ensures ok ==> Filled(v, mem.View(), root, mem.ram[..], image, done + [seg])
  {
    hide VmOk, Target, Filled, KeepsBytes, Written, InPlan, Find;
    var copied := 0;
    ghost var w := mem.View();
    TargetRoots(v, w, root, plan);
    PartOfNothing(v, w, root, mem.ram[..], image, done, seg);
    while copied < seg.filesz
      invariant 0 <= copied <= seg.filesz && mem.View() == w
      invariant KeepsBytes(v, first, mem.ram[..]) && Filled(v, w, root, mem.ram[..], image, done + [Part(seg, copied)])
      invariant copied > 0 ==> seg.offset + copied <= |image|
      invariant forall a: nat :: seg.vaddr <= a < seg.vaddr + copied ==> InPlan(plan, PageDown(a))
    {
      var va := seg.vaddr + copied;
      var page := PageDown(va);
      var n := Min(PAGE - (va - page), seg.filesz - copied);
      if Find(plan, page).None? {
        assert !Copyable(image, seg, plan);
        return false;
      }
      if seg.offset + copied + n > |image| {
        return false;
      }
      PlannedIsNew(v, w, root, plan, page);
      var frame := mem.spaces[root].pages[page].frame;
      TargetInRam(v, w, root, plan, mem.ram[..], image, done + [Part(seg, copied)], page);
      ghost var before := mem.ram[..];
      CopyInto(mem.ram, frame + (va - page), image[seg.offset + copied..seg.offset + copied + n]);
      SpliceWritten(before, frame + (va - page), image[seg.offset + copied..seg.offset + copied + n]);
      WriteKeeps(v, first, before, mem.ram[..], frame, frame + (va - page),
                 image[seg.offset + copied..seg.offset + copied + n]);
      ChunkCopied(v, w, root, plan, before, mem.ram[..], image, done, seg, copied, n);
      ChunkPages(plan, va, n);
      copied := copied + n;
    }
    assert Part(seg, copied) == seg;
    ok := true;
  }

  lemma TargetRoots(v: Vm, w: Vm, root: nat, plan: seq<PagePlan>)
    requires Target(v, w, root, plan)
    ensures root in v.spaces && root in w.spaces
  {
    hide ApartPages, InPlan;
  }

  lemma PlannedIsNew(v: Vm, w: Vm, root: nat, plan: seq<PagePlan>, page: nat)
    requires Target(v, w, root, plan) && InPlan(plan, page)
    ensures root in w.spaces && NewPage(v, w, root, page)
  {
    hide ApartPages, InPlan;
  }

  lemma ChunkPages(plan: seq<PagePlan>, va: nat, n: nat)
    requires InPlan(plan, PageDown(va)) && va + n <= PageDown(va) + PAGE
    ensures forall a: nat :: va <= a < va + n ==> InPlan(plan, PageDown(a))
  {
    forall a: nat | va <= a < va + n
      ensures InPlan(plan, PageDown(a))
    {
      assert PageDown(a) == PageDown(va);
    }
  }

  lemma TargetInRam(v: Vm, w: Vm, root: nat, plan: seq<PagePlan>, bytes: seq<byte>, image: seq<byte>,
                    segs: seq<Segment>, page: nat)
    requires Target(v, w, root, plan) && Filled(v, w, root, bytes, image, segs) && NewPage(v, w, root, page)
    ensures var f := w.spaces[root].pages[page].frame;
      f % PAGE == 0 && f + PAGE <= |bytes| && f !in v.ledger
  {
    assert PageFilled(bytes, w.spaces[root].pages[page].frame, page, image, segs);
  }

  method CollectSegments(image: seq<byte>) returns (r: Option<seq<Segment>>)
    requires CheckIdent(image).None?
    ensures r == ImageSegments(image)
  {
    hide LeValue;
    var phoff, phentsize, phnum := LeValue(image[32..40]), LeValue(image[54..56]), LeValue(image[56..58]);
    var found := [];
    for i := 0 to phnum
      invariant Segments(image, phoff, phentsize, i) == Some(found)
    {
      match ReadHeader(image, phoff + i * phentsize) {
        case Unreadable =>
          Unreadables(image, phoff, phentsize, i, phnum);
          return None;
        case Skipped =>
        case Load(segment) => found := found + [segment];
      }
    }
    r := Some(found);
  }

  lemma {:induction false} Unreadables(image: seq<byte>, phoff: nat, phentsize: nat, i: nat, n: nat)
    requires i < n && ReadHeader(image, phoff + i * phentsize).Unreadable?
    ensures Segments(image, phoff, phentsize, n).None?
  {
    if i < n - 1 {
      Unreadables(image, phoff, phentsize, i, n - 1);
    }
  }

  method PlanPages(segs: seq<Segment>) returns (r: Option<seq<PagePlan>>)
    ensures r == if AddressesFit(segs) then Some(PlanOf(segs)) else None
  {
    hide Touch, PagesEnd;
    var plan := [];
    for i := 0 to |segs|
      invariant plan == PlanOf(segs[..i])
      invariant forall j :: 0 <= j < i ==> segs[j].vaddr + segs[j].memsz < U64_LIMIT
    {
      var seg := segs[i];
      if seg.vaddr + seg.memsz >= U64_LIMIT {
        return None;
      }
      var page := PageDown(seg.vaddr);
      ghost var start := plan;
      while page < PagesEnd(seg)
        invariant TouchRange(plan, page, PagesEnd(seg), seg.writable, seg.executable)
               == TouchRange(start, PageDown(seg.vaddr), PagesEnd(seg), seg.writable, seg.executable)
        decreases PagesEnd(seg) - page
      {
        plan := Touch(plan, page, seg.writable, seg.executable);
        page := page + PAGE;
      }
      assert segs[..i + 1][..i] == segs[..i];
    }
    assert segs[..|segs|] == segs;
    r := Some(plan);
  }

  // The page is mapped for user access with the permissions of the plan.
  ghost predicate MappedAs(w: Vm, root: nat, page: nat, plan: PagePlan)
    requires root in w.spaces && page in w.spaces[root].pages
  {
    w.spaces[root].pages[page] == UserPte(w.spaces[root].pages[page].frame, plan.writable, plan.executable)
  }

  // The space holds exactly the image: besides what it had, exactly the covered
  // pages, with the joined permissions, and in each the bytes of the image.
  ghost predicate Loads(v: Vm, w: Vm, root: nat, before: seq<byte>, after: seq<byte>, image: seq<byte>,
                        segs: seq<Segment>) {
    && root in v.spaces && root in w.spaces && KeepsBytes(v, before, after) && ApartPages(v, w, root)
    && (forall page: nat :: NewPage(v, w, root, page) <==> Wanted(segs, page).Some?)
    && (forall page: nat :: NewPage(v, w, root, page) && Wanted(segs, page).Some? ==>
          && MappedAs(w, root, page, Wanted(segs, page).value)
          && PageFilled(after, w.spaces[root].pages[page].frame, page, image, segs))
  }

  lemma MappedTarget(v: Vm, w: Vm, root: nat, plan: seq<PagePlan>, segs: seq<Segment>, before: seq<byte>,
                     after: seq<byte>)
    requires VmOk(v) && root in v.spaces && plan == PlanOf(segs) && AllocMapAll(v, root, plan) == (w, Backed)
    requires FreshPages(v, w, root, before, after)
    ensures Target(v, w, root, plan)
    ensures forall page: nat :: NewPage(v, w, root, page) <==> Wanted(segs, page).Some?
    ensures forall page: nat :: NewPage(v, w, root, page) && Wanted(segs, page).Some? ==>
              MappedAs(w, root, page, Wanted(segs, page).value)
  {
    hide VmOk, AllocMapAll, PlanOf, Wanted, ApartPages, KeepsBytes, SpaceGrown, NewPagesPrivate, Find;
    AllocMapAllExact(v, root, plan);
    forall page: nat
      ensures NewPage(v, w, root, page) <==> Wanted(segs, page).Some?
      ensures NewPage(v, w, root, page) <==> InPlan(plan, page)
      ensures NewPage(v, w, root, page) ==> page % PAGE == 0
      ensures NewPage(v, w, root, page) && Wanted(segs, page).Some? ==>
                MappedAs(w, root, page, Wanted(segs, page).value)
    {
      PlanMeaning(segs, page);
      WantedAligned(segs, page);
      if Find(plan, page).Some? {
        var i :| 0 <= i < |plan| && plan[i] == Find(plan, page).value;
        assert PlanDone(w, root, plan[i]);
      }
    }
  }

  lemma WantedAligned(segs: seq<Segment>, page: nat)
    ensures Wanted(segs, page).Some? ==> page % PAGE == 0
  {
  }

  method Load(mem: PhysicalMemory, root: nat, image: seq<byte>) returns (r: Loaded)
    requires mem.Ok() && VmOk(mem.View()) && root in mem.spaces
    modifies mem, mem.frames, mem.ram
    ensures mem.Ok() && (mem.View(), r) == LoadInto(old(mem.View()), root, image)
    ensures KeepsBytes(old(mem.View()), old(mem.ram[..]), mem.ram[..])
    ensures r.Entry? ==> CheckIdent(image).None? && ImageSegments(image).Some?
    ensures r.Entry? ==>
              Loads(old(mem.View()), mem.View(), root, old(mem.ram[..]), mem.ram[..], image, ImageSegments(image).value)
  {
    hide VmOk, ImageSegments, LoadSegments, KeepsBytes, Loads, FramePool.Conserved;
    SameBytes(mem.View(), mem.ram[..]);
    var bad := CheckIdent(image);
    if bad.Some? {
      return Failed(bad.value);
    }
    var found := CollectSegments(image);
    if found.None? {
      return Failed(Malformed);
    }
    r := LoadCollected(mem, root, image, found.value);
  }

  lemma SameBytes(v: Vm, bytes: seq<byte>)
    ensures KeepsBytes(v, bytes, bytes)
  {
  }

  // The three passes over the collected segments.
  method LoadCollected(mem: PhysicalMemory, root: nat, image: seq<byte>, segs: seq<Segment>) returns (r: Loaded)
    requires mem.Ok() && VmOk(mem.View()) && root in mem.spaces && |image| >= 64
    modifies mem, mem.frames, mem.ram
    ensures mem.Ok() && (mem.View(), r) == LoadSegments(old(mem.View()), root, image, segs)
    ensures KeepsBytes(old(mem.View()), old(mem.ram[..]), mem.ram[..])
    ensures r.Entry? ==> Loads(old(mem.View()), mem.View(), root, old(mem.ram[..]), mem.ram[..], image, segs)
  {
    hide VmOk, LeValue, PlanOf, AllocMapAll, AllCopyable, Filled, KeepsBytes, Loads, Target, SpaceGrown,
      NewPagesPrivate, ZeroPages,
      ApartPages, FramePool.Conserved, AddressesFit, Wanted;
    ghost var v, first := mem.View(), mem.ram[..];
    SameBytes(v, first);
    var planned := PlanPages(segs);
    if planned.None? {
      return Failed(Malformed);
    }
    var plan := planned.value;
    var b := mem.AllocMapAll(root, plan);
    if b != Backed {
      return Failed(if b == NoFrame then NoFrameLeft else MapRefused);
    }
    ghost var w := mem.View();
    MappedTarget(v, w, root, plan, segs, first, mem.ram[..]);
    NothingCopied(v, w, root, first, mem.ram[..], plan, image);
    var copied := CopySegments(mem, root, plan, image, segs, v, first);
    if !copied {
      return Failed(Malformed);
    }
    FilledLoads(v, w, root, first, mem.ram[..], image, segs, plan);
    r := Entry(LeValue(image[24..32]));
  }

  // Pass 3: every segment's file bytes, in header order.
  method CopySegments(mem: PhysicalMemory, root: nat, plan: seq<PagePlan>, image: seq<byte>, segs: seq<Segment>,
                      ghost v: Vm, ghost first: seq<byte>) returns (ok: bool)
    requires VmOk(v) && Target(v, mem.View(), root, plan)
    requires KeepsBytes(v, first, mem.ram[..]) && Filled(v, mem.View(), root, mem.ram[..], image, [])
    modifies mem.ram
    ensures ok <==> AllCopyable(image, segs, plan)
    ensures KeepsBytes(v, first, mem.ram[..])
    ensures ok ==> Filled(v, mem.View(), root, mem.ram[..], image, segs)
  {
    hide VmOk, Filled, KeepsBytes, ApartPages, Copyable;
    ghost var w := mem.View();
    for i := 0 to |segs|
      invariant mem.View() == w
      invariant KeepsBytes(v, first, mem.ram[..]) && Filled(v, w, root, mem.ram[..], image, segs[..i])
      invariant forall j :: 0 <= j < i ==> Copyable(image, segs[j], plan)
    {
      ok := CopySegment(mem, root, plan, image, segs[i], v, first, segs[..i]);
      if !ok {
        return;
      }
      assert segs[..i] + [segs[i]] == segs[..i + 1];
    }
    assert segs[..|segs|] == segs;
    ok := true;
  }

  lemma FilledLoads(v: Vm, w: Vm, root: nat, before: seq<byte>, after: seq<byte>, image: seq<byte>,
                    segs: seq<Segment>, plan: seq<PagePlan>)
    requires Target(v, w, root, plan) && KeepsBytes(v, before, after) && Filled(v, w, root, after, image, segs)
    requires forall page: nat :: NewPage(v, w, root, page) <==> Wanted(segs, page).Some?
    requires forall page: nat :: NewPage(v, w, root, page) && Wanted(segs, page).Some? ==>
              MappedAs(w, root, page, Wanted(segs, page).value)
    ensures Loads(v, w, root, before, after, image, segs)
  {
    hide Wanted, KeepsBytes, ApartPages;
  }

  // ----- Afterwards -----

  // Every page of the image is mapped and holds the image's bytes.
  ghost predicate ImagePresent(w: Vm, root: nat, bytes: seq<byte>, image: seq<byte>, segs: seq<Segment>) {
    root in w.spaces
    && forall page: nat :: Wanted(segs, page).Some? ==>
         && page in w.spaces[root].pages && !w.spaces[root].pages[page].device
         && PageFilled(bytes, w.spaces[root].pages[page].frame, page, image, segs)
  }

  lemma LoadsPresent(v: Vm, w: Vm, root: nat, before: seq<byte>, after: seq<byte>, image: seq<byte>, segs: seq<Segment>)
    requires Loads(v, w, root, before, after, image, segs)
    ensures ImagePresent(w, root, after, image, segs)
  {
    hide Wanted, KeepsBytes, ApartPages, PageFilled;
    forall page: nat | Wanted(segs, page).Some?
      ensures page in w.spaces[root].pages && !w.spaces[root].pages[page].device
      ensures PageFilled(after, w.spaces[root].pages[page].frame, page, image, segs)
    {
      assert NewPage(v, w, root, page);
    }
  }

  // What is mapped later, or written to frames issued later, leaves it in place.
  lemma PresentLater(v: Vm, w: Vm, root: nat, before: seq<byte>, after: seq<byte>, image: seq<byte>, segs: seq<Segment>)
    requires VmOk(v) && SpaceGrown(v, w, root) && KeepsBytes(v, before, after)
    requires ImagePresent(v, root, before, image, segs)
    ensures ImagePresent(w, root, after, image, segs)
  {
    hide Wanted, FramePool.Valid, RunsOk, FlatByte;
    PagesKept(v, w, root);
    forall page: nat | Wanted(segs, page).Some?
      ensures page in w.spaces[root].pages && !w.spaces[root].pages[page].device
      ensures PageFilled(after, w.spaces[root].pages[page].frame, page, image, segs)
    {
      var pte := v.spaces[root].pages[page];
      assert SpaceOk(v.ledger, root, v.spaces[root]);
      assert PteOk(v.ledger, root, pte);
      assert PageFilled(before, pte.frame, page, image, segs);
    }
  }
}
