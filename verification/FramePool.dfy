// The bookkeeping of the physical frame allocator: a bump cursor over the usable
// regions plus a free list of returned frames.
module FramePool {
  import opened Base

  // A half-open range of physical bytes.
  datatype Region = Region(start: nat, end: nat)

  // The allocator's fields, followed by two history variables the code does not
  // store: the frames handed out and not yet returned, and the frames of region
  // tails that a contiguous request stepped over.
  datatype Pool = Pool(
    regions: seq<Region>,
    regionIdx: nat,
    cursor: nat,
    free: seq<nat>,
    inUse: nat,
    issued: set<nat>,
    skipped: set<nat>)

  function FramesIn(lo: nat, hi: nat): set<nat> {
    set f | lo <= f < hi && f % PAGE == 0
  }

  // The frames of a run of n pages.
  function RunFrames(base: nat, n: nat): set<nat> {
    FramesIn(base, base + n * PAGE)
  }

  // ----- What the operations do -----

  function NextRegion(p: Pool): Pool
    requires p.regionIdx < |p.regions|
  {
    p.(regionIdx := p.regionIdx + 1,
       cursor := if p.regionIdx + 1 < |p.regions| then p.regions[p.regionIdx + 1].start else p.cursor,
       skipped := p.skipped + FramesIn(p.cursor, p.regions[p.regionIdx].end))
  }

  function Take(p: Pool, n: nat): Pool {
    p.(cursor := p.cursor + n * PAGE,
       inUse := p.inUse + n,
       issued := p.issued + RunFrames(p.cursor, n))
  }

  function Bump(p: Pool, n: nat): (Pool, Option<nat>)
    decreases |p.regions| - p.regionIdx
  {
    if p.regionIdx >= |p.regions| then (p, None)
    else if p.cursor + n * PAGE <= p.regions[p.regionIdx].end then (Take(p, n), Some(p.cursor))
    else Bump(NextRegion(p), n)
  }

  function Alloc(p: Pool): (Pool, Option<nat>) {
    if |p.free| > 0 then
      var pa := p.free[|p.free| - 1];
      (p.(free := p.free[..|p.free| - 1], inUse := p.inUse + 1, issued := p.issued + {pa}), Some(pa))
    else Bump(p, 1)
  }

  function AllocContiguous(p: Pool, n: nat): (Pool, Option<nat>) {
    if n == 0 then (p, None) else Bump(p, n)
  }

  function Free(p: Pool, pa: nat): Pool {
    p.(free := p.free + [pa],
       inUse := if p.inUse == 0 then 0 else p.inUse - 1,
       issued := p.issued - {pa})
  }

  // ----- What must always hold -----

  ghost predicate InRegion(p: Pool, i: nat, f: nat)
    requires i < |p.regions|
  {
    p.regions[i].start <= f < p.regions[i].end && f % PAGE == 0
  }

  ghost predicate Usable(p: Pool, f: nat) {
    exists i: nat :: i < |p.regions| && InRegion(p, i, f)
  }

  // The frames the bump cursor has still to pass.
  ghost predicate Ahead(p: Pool, f: nat) {
    exists i: nat :: p.regionIdx <= i < |p.regions| && InRegion(p, i, f) && (i == p.regionIdx ==> p.cursor <= f)
  }

  ghost predicate RegionsOk(rs: seq<Region>) {
    && (forall i :: 0 <= i < |rs| ==> rs[i].start % PAGE == 0 && rs[i].end % PAGE == 0 && rs[i].start < rs[i].end)
    && (forall i, j :: 0 <= i < j < |rs| ==> rs[i].end <= rs[j].start || rs[j].end <= rs[i].start)
  }

  ghost predicate CursorOk(p: Pool) {
    && p.regionIdx <= |p.regions|
    && (p.regionIdx < |p.regions| ==>
          p.regions[p.regionIdx].start <= p.cursor <= p.regions[p.regionIdx].end && p.cursor % PAGE == 0)
  }

  ghost predicate Distinct(s: seq<nat>) {
    forall i, j :: 0 <= i < j < |s| ==> s[i] != s[j]
  }

  // Every usable frame is in exactly one of four places, and nothing else is in any.
  ghost predicate Partition(p: Pool) {
    && (forall f: nat :: Usable(p, f) <==> f in p.issued || f in p.free || f in p.skipped || Ahead(p, f))
    && (forall f: nat :: f in p.issued ==> f !in p.free && f !in p.skipped && !Ahead(p, f))
    && (forall f: nat :: f in p.free ==> f !in p.skipped && !Ahead(p, f))
    && (forall f: nat :: f in p.skipped ==> !Ahead(p, f))
  }

  ghost predicate Valid(p: Pool) {
    RegionsOk(p.regions) && CursorOk(p) && Distinct(p.free) && Partition(p) && p.inUse == |p.issued|
  }

  // ----- Lemmas -----

  lemma {:induction false} FramesInCount(lo: nat, n: nat)
    requires lo % PAGE == 0
    ensures |RunFrames(lo, n)| == n
  {
    if n == 0 {
      assert FramesIn(lo, lo) == {};
    } else {
      FramesInCount(lo, n - 1);
      var last := lo + (n - 1) * PAGE;
      PageMultiple(lo, n - 1);
      LastFrame(lo, last);
    }
  }

  lemma LastFrame(lo: nat, last: nat)
    requires lo <= last && last % PAGE == 0
    ensures FramesIn(lo, last + PAGE) == FramesIn(lo, last) + {last}
  {
    forall f: nat | last <= f < last + PAGE && f % PAGE == 0
      ensures f == last
    {
    }
  }

  lemma UnionCount(a: set<nat>, b: set<nat>)
    requires a !! b
    ensures |a + b| == |a| + |b|
  {
  }

  lemma PageMultiple(a: nat, n: nat)
    requires a % PAGE == 0
    ensures (a + n * PAGE) % PAGE == 0
  {
  }

  // Whatever the cursor passes moves, as a set, into another part of the partition.
  lemma AheadSplit(p: Pool, q: Pool, gone: set<nat>)
    requires q.regions == p.regions && p.regionIdx <= q.regionIdx && q.free == p.free
    requires forall f: nat :: Ahead(p, f) <==> f in gone || Ahead(q, f)
    requires forall f: nat :: f in gone ==> !Ahead(q, f)
    requires Partition(p)
    requires (q.issued == p.issued + gone && q.skipped == p.skipped)
          || (q.issued == p.issued && q.skipped == p.skipped + gone)
    ensures Partition(q)
  {
    forall f: nat
      ensures Usable(q, f) == Usable(p, f)
    {
      SameUsable(p, q, f);
    }
  }

  lemma SameUsable(p: Pool, q: Pool, f: nat)
    requires q.regions == p.regions
    ensures Usable(q, f) == Usable(p, f)
  {
    if Usable(p, f) {
      var i: nat :| i < |p.regions| && InRegion(p, i, f);
      assert InRegion(q, i, f);
    }
    if Usable(q, f) {
      var i: nat :| i < |q.regions| && InRegion(q, i, f);
      assert InRegion(p, i, f);
    }
  }

  lemma NextRegionAhead(p: Pool)
    requires RegionsOk(p.regions) && CursorOk(p) && p.regionIdx < |p.regions|
    ensures var cut := FramesIn(p.cursor, p.regions[p.regionIdx].end);
      forall f: nat :: (Ahead(p, f) <==> f in cut || Ahead(NextRegion(p), f)) && (f in cut ==> !Ahead(NextRegion(p), f))
  {
    var q, cut := NextRegion(p), FramesIn(p.cursor, p.regions[p.regionIdx].end);
    forall f: nat
      ensures (Ahead(p, f) <==> f in cut || Ahead(q, f)) && (f in cut ==> !Ahead(q, f))
    {
      if f in cut {
        assert InRegion(p, p.regionIdx, f);
      }
      if Ahead(q, f) {
        var i: nat :| q.regionIdx <= i < |q.regions| && InRegion(q, i, f);
        assert InRegion(p, i, f);
      }
      if Ahead(p, f) {
        var i: nat :| p.regionIdx <= i < |p.regions| && InRegion(p, i, f) && (i == p.regionIdx ==> p.cursor <= f);
        assert InRegion(q, i, f);
      }
    }
  }

  lemma TakeAhead(p: Pool, n: nat)
    requires RegionsOk(p.regions) && CursorOk(p)
    requires p.regionIdx < |p.regions| && p.cursor + n * PAGE <= p.regions[p.regionIdx].end
    ensures var run := RunFrames(p.cursor, n);
      forall f: nat :: (Ahead(p, f) <==> f in run || Ahead(Take(p, n), f)) && (f in run ==> !Ahead(Take(p, n), f))
  {
    var q, stop := Take(p, n), p.cursor + n * PAGE;
    var run := FramesIn(p.cursor, stop);
    assert q.cursor == stop;
    forall f: nat
      ensures (Ahead(p, f) <==> f in run || Ahead(q, f)) && (f in run ==> !Ahead(q, f))
    {
      if f in run {
        assert InRegion(p, p.regionIdx, f);
      }
      if Ahead(q, f) {
        var i: nat :| q.regionIdx <= i < |q.regions| && InRegion(q, i, f) && (i == q.regionIdx ==> q.cursor <= f);
        assert InRegion(p, i, f);
      }
      if Ahead(p, f) {
        var i: nat :| p.regionIdx <= i < |p.regions| && InRegion(p, i, f) && (i == p.regionIdx ==> p.cursor <= f);
        assert InRegion(q, i, f);
      }
    }
  }

  // Stepping to the next region only moves the current tail to `skipped`.
  lemma NextRegionValid(p: Pool)
    requires Valid(p) && p.regionIdx < |p.regions|
    ensures Valid(NextRegion(p))
  {
    NextRegionAhead(p);
    AheadSplit(p, NextRegion(p), FramesIn(p.cursor, p.regions[p.regionIdx].end));
  }

  lemma TakeValid(p: Pool, n: nat)
    requires Valid(p) && p.regionIdx < |p.regions| && p.cursor + n * PAGE <= p.regions[p.regionIdx].end
    ensures Valid(Take(p, n))
  {
    hide Ahead, Partition;
    var run := RunFrames(p.cursor, n);
    TakeAhead(p, n);
    AheadSplit(p, Take(p, n), run);
    PageMultiple(p.cursor, n);
    IssuedNotAhead(p);
    FramesInCount(p.cursor, n);
    UnionCount(p.issued, run);
  }

  lemma IssuedNotAhead(p: Pool)
    requires Partition(p)
    ensures forall f: nat :: f in p.issued ==> !Ahead(p, f)
  {
  }

  // The run [base, base + n pages) lies inside one region.
  ghost predicate InOneRegion(p: Pool, base: nat, n: nat) {
    base % PAGE == 0
    && exists i: nat :: i < |p.regions| && p.regions[i].start <= base && base + n * PAGE <= p.regions[i].end
  }

  // A bump allocation hands out an aligned run of one region, none of whose
  // frames was ever issued, freed or stepped over; or it leaves no room anywhere.
  ghost predicate Bumped(p: Pool, n: nat, q: Pool, r: Option<nat>) {
    && Valid(q) && q.regions == p.regions && q.free == p.free && p.skipped <= q.skipped
    && (forall f: nat :: Ahead(q, f) ==> Ahead(p, f))
    && match r
       case Some(base) =>
         && InOneRegion(p, base, n)
         && q.issued == p.issued + RunFrames(base, n)
         && forall f :: f in RunFrames(base, n) ==> Ahead(p, f)
       case None =>
         q.issued == p.issued && forall f: nat :: !Ahead(q, f)
  }

  lemma {:induction false} BumpCorrect(p: Pool, n: nat)
    requires Valid(p)
    ensures Bumped(p, n, Bump(p, n).0, Bump(p, n).1)
    decreases |p.regions| - p.regionIdx
  {
    hide Ahead, Partition;
    if p.regionIdx >= |p.regions| {
      NothingAhead(p);
    } else if p.cursor + n * PAGE <= p.regions[p.regionIdx].end {
      TakeValid(p, n);
      TakeAhead(p, n);
      assert p.regions[p.regionIdx].start <= p.cursor;
    } else {
      NextRegionValid(p);
      NextRegionAhead(p);
      BumpCorrect(NextRegion(p), n);
    }
  }

  lemma NothingAhead(p: Pool)
    requires p.regionIdx >= |p.regions|
    ensures forall f: nat :: !Ahead(p, f)
  {
  }

  // A single frame comes back from the free list or freshly from the cursor; in
  // both cases it is usable, aligned and not already issued, and the allocator
  // gives up only when the free list and the cursor are both exhausted.
  lemma AllocCorrect(p: Pool)
    requires Valid(p)
    ensures var (q, r) := Alloc(p);
      && Valid(q) && q.regions == p.regions && p.skipped <= q.skipped
      && (r.Some? ==> r.value !in p.issued && InOneRegion(p, r.value, 1) && q.issued == p.issued + {r.value})
      && (r.None? ==> q.issued == p.issued && p.free == [] && forall f: nat :: !Ahead(q, f))
  {
    hide Partition, Ahead, InOneRegion;
    var (q, r) := Alloc(p);
    if |p.free| > 0 {
      FreeListFrameUsable(p, |p.free| - 1);
      PopFreePartition(p);
      UnionCount(p.issued, {r.value});
    } else {
      BumpCorrect(p, 1);
      IssuedNotAhead(p);
      if r.Some? {
        OnePageRun(p, r.value);
      }
    }
  }

  lemma OnePageRun(p: Pool, base: nat)
    requires InOneRegion(p, base, 1)
    ensures RunFrames(base, 1) == {base}
  {
  }

  lemma FreeListFrameUsable(p: Pool, k: nat)
    requires Valid(p) && k < |p.free|
    ensures p.free[k] !in p.issued && InOneRegion(p, p.free[k], 1)
  {
    var f := p.free[k];
    assert f in p.free;
    var i: nat :| i < |p.regions| && InRegion(p, i, f);
    assert f + PAGE <= p.regions[i].end;
  }

  lemma PopFreePartition(p: Pool)
    requires Valid(p) && |p.free| > 0
    ensures Partition(Alloc(p).0)
  {
    var q, pa := Alloc(p).0, p.free[|p.free| - 1];
    assert p.free == q.free + [pa];
    forall f: nat
      ensures Usable(q, f) == Usable(p, f) && Ahead(q, f) == Ahead(p, f)
      ensures f in p.free <==> f in q.free || f == pa
    {
      SameUsable(p, q, f);
      SameAhead(p, q, f);
    }
    assert pa in p.free && pa !in q.free;
  }

  lemma SameAhead(p: Pool, q: Pool, f: nat)
    requires q.regions == p.regions && q.regionIdx == p.regionIdx && q.cursor == p.cursor
    ensures Ahead(q, f) == Ahead(p, f)
  {
    if Ahead(p, f) {
      var i: nat :| p.regionIdx <= i < |p.regions| && InRegion(p, i, f) && (i == p.regionIdx ==> p.cursor <= f);
      assert InRegion(q, i, f);
    }
    if Ahead(q, f) {
      var i: nat :| q.regionIdx <= i < |q.regions| && InRegion(q, i, f) && (i == q.regionIdx ==> q.cursor <= f);
      assert InRegion(p, i, f);
    }
  }

  // A contiguous request yields adjacent frames of one region, none of them ever
  // issued before (so none recycled through the free list).
  lemma AllocContiguousCorrect(p: Pool, n: nat)
    requires Valid(p)
    ensures var (q, r) := AllocContiguous(p, n);
      && Valid(q) && q.regions == p.regions && q.free == p.free && p.skipped <= q.skipped
      && (r.None? ==> q.issued == p.issued)
      && (r.Some? ==>
            && n > 0 && InOneRegion(p, r.value, n)
            && q.issued == p.issued + RunFrames(r.value, n)
            && forall f :: f in RunFrames(r.value, n) ==> Ahead(p, f) && f !in p.issued && f !in p.free)
  {
    BumpCorrect(p, n);
  }

  // Returning an outstanding frame makes it available again and nothing else.
  lemma FreeCorrect(p: Pool, pa: nat)
    requires Valid(p) && pa in p.issued
    ensures Valid(Free(p, pa))
    ensures Alloc(Free(p, pa)).1 == Some(pa)
  {
    var q := Free(p, pa);
    forall f: nat
      ensures Usable(q, f) == Usable(p, f) && Ahead(q, f) == Ahead(p, f)
      ensures f in q.free <==> f in p.free || f == pa
    {
      SameUsable(p, q, f);
      SameAhead(p, q, f);
    }
    assert |p.issued| == |q.issued| + 1 by {
      assert p.issued == q.issued + {pa};
      UnionCount(q.issued, {pa});
    }
  }

  // ----- Counting -----

  function FrameCount(rs: seq<Region>): nat
    requires forall i :: 0 <= i < |rs| ==> rs[i].start <= rs[i].end
  {
    if rs == [] then 0 else (rs[0].end - rs[0].start) / PAGE + FrameCount(rs[1..])
  }

  // The frames still ahead of the cursor.
  function Remaining(p: Pool): nat
    requires forall i :: 0 <= i < |p.regions| ==> p.regions[i].start <= p.regions[i].end
    requires p.regionIdx < |p.regions| ==> p.cursor <= p.regions[p.regionIdx].end
  {
    if p.regionIdx >= |p.regions| then 0
    else (p.regions[p.regionIdx].end - p.cursor) / PAGE + FrameCount(p.regions[p.regionIdx + 1..])
  }

  ghost predicate Conserved(p: Pool) {
    Valid(p) && FrameCount(p.regions) == p.inUse + |p.free| + |p.skipped| + Remaining(p)
  }

  lemma {:induction false} FrameCountSplit(rs: seq<Region>, i: nat)
    requires forall k :: 0 <= k < |rs| ==> rs[k].start <= rs[k].end
    requires i < |rs|
    ensures FrameCount(rs[i..]) == (rs[i].end - rs[i].start) / PAGE + FrameCount(rs[i + 1..])
  {
    assert rs[i..][1..] == rs[i + 1..];
  }

  lemma TailCount(lo: nat, hi: nat)
    requires lo <= hi && lo % PAGE == 0 && hi % PAGE == 0
    ensures |FramesIn(lo, hi)| == (hi - lo) / PAGE
  {
    var n := (hi - lo) / PAGE;
    assert hi == lo + n * PAGE;
    FramesInCount(lo, n);
  }

  lemma DivLess(a: nat, n: nat)
    requires n * PAGE <= a
    ensures a / PAGE == n + (a - n * PAGE) / PAGE
  {
  }

  predicate CursorInRegion(p: Pool) {
    && (forall i :: 0 <= i < |p.regions| ==> p.regions[i].start <= p.regions[i].end)
    && p.regionIdx < |p.regions| && p.cursor <= p.regions[p.regionIdx].end
  }

  lemma TakeCounts(p: Pool, n: nat)
    requires CursorInRegion(p) && p.cursor + n * PAGE <= p.regions[p.regionIdx].end
    ensures CursorInRegion(Take(p, n)) && Remaining(p) == n + Remaining(Take(p, n))
  {
    hide FrameCount, RunFrames;
    DivLess(p.regions[p.regionIdx].end - p.cursor, n);
  }

  lemma TakeConserves(p: Pool, n: nat)
    requires Conserved(p) && p.regionIdx < |p.regions| && p.cursor + n * PAGE <= p.regions[p.regionIdx].end
    ensures Conserved(Take(p, n))
  {
    hide Valid, RunFrames, Remaining, FrameCount;
    TakeValid(p, n);
    ValidCursor(p);
    TakeCounts(p, n);
  }

  lemma ValidCursor(p: Pool)
    requires Valid(p) && p.regionIdx < |p.regions|
    ensures CursorInRegion(p)
  {
    hide Partition, Distinct;
  }

  // No operation creates or loses a frame: the total is always what is in use,
  // what is free, what was stepped over and what the cursor has still to reach.
  lemma {:induction false} BumpConserves(p: Pool, n: nat)
    requires Conserved(p)
    ensures Conserved(Bump(p, n).0)
    decreases |p.regions| - p.regionIdx
  {
    hide Conserved;
    if p.regionIdx < |p.regions| {
      if p.cursor + n * PAGE <= p.regions[p.regionIdx].end {
        TakeConserves(p, n);
      } else {
        NextRegionConserves(p);
        BumpConserves(NextRegion(p), n);
      }
    }
  }

  lemma SkippedNotAhead(p: Pool)
    requires Partition(p)
    ensures forall f: nat :: f in p.skipped ==> !Ahead(p, f)
  {
  }

  lemma AllocConserves(p: Pool)
    requires Conserved(p)
    ensures Conserved(Alloc(p).0)
  {
    hide Ahead, Partition, InOneRegion, Usable;
    if |p.free| > 0 {
      AllocCorrect(p);
      hide Valid;
    } else {
      BumpConserves(p, 1);
    }
  }

  lemma FreeConserves(p: Pool, pa: nat)
    requires Conserved(p) && pa in p.issued
    ensures Conserved(Free(p, pa))
  {
    hide Ahead, Partition, Usable, Alloc;
    FreeCorrect(p, pa);
    assert p.issued == (p.issued - {pa}) + {pa};
    UnionCount(p.issued - {pa}, {pa});
  }

  lemma NextRegionConserves(p: Pool)
    requires Conserved(p) && p.regionIdx < |p.regions|
    ensures Conserved(NextRegion(p))
  {
    hide Valid, Remaining, FrameCount, FramesIn;
    NextRegionValid(p);
    SkipDisjoint(p);
    SkipCounts(p);
    UnionCount(p.skipped, FramesIn(p.cursor, p.regions[p.regionIdx].end));
  }

  lemma SkipDisjoint(p: Pool)
    requires Valid(p) && p.regionIdx < |p.regions|
    ensures p.skipped !! FramesIn(p.cursor, p.regions[p.regionIdx].end)
  {
    hide Ahead;
    SkippedNotAhead(p);
    NextRegionAhead(p);
  }

  lemma SkipCounts(p: Pool)
    requires Valid(p) && p.regionIdx < |p.regions|
    ensures CursorInRegion(p) && (forall i :: 0 <= i < |p.regions| ==> p.regions[i].start <= p.regions[i].end)
    ensures Remaining(p) == |FramesIn(p.cursor, p.regions[p.regionIdx].end)| + Remaining(NextRegion(p))
  {
    hide Partition, Distinct, FrameCount, FramesIn;
    TailCount(p.cursor, p.regions[p.regionIdx].end);
    if p.regionIdx + 1 < |p.regions| {
      FrameCountSplit(p.regions, p.regionIdx + 1);
    } else {
      NoRegions(p.regions);
    }
  }

  lemma NoRegions(rs: seq<Region>)
    requires forall i :: 0 <= i < |rs| ==> rs[i].start <= rs[i].end
    ensures FrameCount(rs[|rs|..]) == 0
  {
  }
}
