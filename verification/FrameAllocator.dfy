// The physical frame allocator object, which updates its bookkeeping in place.
module FrameAllocator {
  import opened Base
  import opened FramePool

  function AlignRegion(r: Region): Region {
    Region(PageUp(r.start), PageDown(r.end))
  }

  // Rounds every region inwards to whole frames and drops the empty ones.
  function AlignRegions(rs: seq<Region>): (kept: seq<Region>)
    ensures forall k :: 0 <= k < |kept| ==> kept[k].start < kept[k].end
  {
    if rs == [] then []
    else
      var rest, r := AlignRegions(rs[..|rs| - 1]), AlignRegion(rs[|rs| - 1]);
      if r.end > r.start then rest + [r] else rest
  }

  ghost predicate RegionsDisjoint(rs: seq<Region>) {
    forall i, j :: 0 <= i < j < |rs| ==> rs[i].end <= rs[j].start || rs[j].end <= rs[i].start
  }

  // A frame is usable after rounding exactly when it lay wholly inside an input region.
  ghost predicate WholeFrameOf(rs: seq<Region>, f: nat) {
    f % PAGE == 0 && exists i :: 0 <= i < |rs| && rs[i].start <= f && f + PAGE <= rs[i].end
  }

  class PhysFrameAllocator {
    var regions: seq<Region>
    var regionIdx: nat
    var cursor: nat
    var free: seq<nat>
    var totalFrames: nat
    var inUse: nat
    ghost var issued: set<nat>
    ghost var skipped: set<nat>

    ghost function View(): Pool
      reads this
    {
      Pool(regions, regionIdx, cursor, free, inUse, issued, skipped)
    }

    ghost predicate Ok()
      reads this
    {
      Conserved(View()) && totalFrames == FrameCount(regions)
    }

    // Any memory map is taken; the promises hold exactly when no two of its regions,
    // rounded, overlap.
    constructor (rs: seq<Region>)
      ensures Ok() <==> RegionsDisjoint(AlignRegions(rs))
      ensures regions == AlignRegions(rs) && totalFrames == FrameCount(regions)
      ensures View() == Pool(regions, 0, if regions == [] then 0 else regions[0].start, [], 0, {}, {})
    {
      hide AlignRegion;
      var kept: seq<Region> := [];
      var total := 0;
      for i := 0 to |rs|
        invariant kept == AlignRegions(rs[..i])
        invariant forall k :: 0 <= k < |kept| ==> kept[k].start <= kept[k].end
        invariant total == FrameCount(kept)
      {
        assert rs[..i + 1][..i] == rs[..i];
        var start := (rs[i].start + PAGE - 1) / PAGE * PAGE;
        var end := rs[i].end / PAGE * PAGE;
        AlignByDivision(rs[i]);
        if end > start {
          FrameCountAppend(kept, Region(start, end));
          kept := kept + [Region(start, end)];
          total := total + (end - start) / PAGE;
        }
      }
      assert rs[..|rs|] == rs;
      AlignedRegionsOkIff(rs);
      this.regions := kept;
      this.regionIdx := 0;
      this.cursor := if |kept| > 0 then kept[0].start else 0;
      this.free := [];
      this.totalFrames := total;
      this.inUse := 0;
      this.issued := {};
      this.skipped := {};
      new;
      if RegionsDisjoint(AlignRegions(rs)) {
        FreshPoolConserved(View());
      }
    }

    method Alloc() returns (r: Option<nat>)
      requires Ok()
      modifies this
      ensures View() == FramePool.Alloc(old(View())).0 && r == FramePool.Alloc(old(View())).1
      ensures Ok() && totalFrames == old(totalFrames)
    {
      hide Valid, Bump, FrameCount, Remaining;
      AllocConserves(View());
      if |free| > 0 {
        var pa := free[|free| - 1];
        free := free[..|free| - 1];
        inUse := inUse + 1;
        issued := issued + {pa};
        return Some(pa);
      }
      r := Advance(1);
    }

    method AllocContiguous(n: nat) returns (r: Option<nat>)
      requires Ok()
      modifies this
      ensures View() == FramePool.AllocContiguous(old(View()), n).0
      ensures r == FramePool.AllocContiguous(old(View()), n).1
      ensures Ok() && totalFrames == old(totalFrames)
    {
      if n == 0 {
        return None;
      }
      r := Advance(n);
    }

    // The bump loop shared by both allocation calls.
    method Advance(n: nat) returns (r: Option<nat>)
      requires Ok()
      modifies this
      ensures View() == Bump(old(View()), n).0 && r == Bump(old(View()), n).1
      ensures Ok() && totalFrames == old(totalFrames)
    {
      hide Conserved, FrameCount, FramesIn;
      PoolShape(View());
      while regionIdx < |regions|
        invariant Ok() && totalFrames == old(totalFrames)
        invariant Bump(View(), n) == Bump(old(View()), n)
        decreases |regions| - regionIdx
      {
        var region := regions[regionIdx];
        if cursor + n * PAGE <= region.end {
          BumpConserves(View(), n);
          issued := issued + RunFrames(cursor, n);
          r := Some(cursor);
          cursor := cursor + n * PAGE;
          inUse := inUse + n;
          return;
        }
        NextRegionConserves(View());
        PoolShape(View());
        skipped := skipped + FramesIn(cursor, region.end);
        regionIdx := regionIdx + 1;
        if regionIdx < |regions| {
          cursor := regions[regionIdx].start;
        }
      }
      r := None;
    }

    method Free(pa: nat)
      requires Ok() && pa in issued
      modifies this
      ensures View() == FramePool.Free(old(View()), pa)
      ensures Ok() && totalFrames == old(totalFrames)
    {
      hide Valid, FrameCount, Remaining;
      FreeConserves(View(), pa);
      free := free + [pa];
      inUse := if inUse == 0 then 0 else inUse - 1;
      issued := issued - {pa};
    }
  }

  lemma PoolShape(p: Pool)
    requires Conserved(p)
    ensures p.regionIdx <= |p.regions|
  {
  }

  lemma {:induction false} FrameCountAppend(rs: seq<Region>, r: Region)
    requires forall k :: 0 <= k < |rs| ==> rs[k].start <= rs[k].end
    requires r.start <= r.end
    ensures FrameCount(rs + [r]) == FrameCount(rs) + (r.end - r.start) / PAGE
  {
    if rs == [] {
      assert [r][1..] == [];
    } else {
      assert (rs + [r])[1..] == rs[1..] + [r];
      FrameCountAppend(rs[1..], r);
    }
  }

  lemma AlignByDivision(r: Region)
    ensures AlignRegion(r) == Region((r.start + PAGE - 1) / PAGE * PAGE, r.end / PAGE * PAGE)
  {
  }

  lemma AlignInwards(r: Region)
    ensures var a := AlignRegion(r);
      a.start % PAGE == 0 && a.end % PAGE == 0 && r.start <= a.start && a.end <= r.end
  {
  }

  // Every kept region lies inside an input region.
  lemma {:induction false} AlignedInside(rs: seq<Region>, k: nat)
    requires k < |AlignRegions(rs)|
    ensures exists i :: 0 <= i < |rs| &&
                        rs[i].start <= AlignRegions(rs)[k].start && AlignRegions(rs)[k].end <= rs[i].end
    ensures var a := AlignRegions(rs)[k]; a.start % PAGE == 0 && a.end % PAGE == 0 && a.start < a.end
  {
    var n := |rs| - 1;
    AlignInwards(rs[n]);
    hide AlignRegion;
    if k < |AlignRegions(rs[..n])| {
      AlignedInside(rs[..n], k);
      var i :| 0 <= i < n && rs[..n][i].start <= AlignRegions(rs)[k].start && AlignRegions(rs)[k].end <= rs[..n][i].end;
      assert rs[i] == rs[..n][i];
    }
  }

  lemma AlignedRegionsOkIff(rs: seq<Region>)
    ensures RegionsOk(AlignRegions(rs)) <==> RegionsDisjoint(AlignRegions(rs))
  {
    hide AlignRegions;
    forall k: nat | k < |AlignRegions(rs)|
      ensures var a := AlignRegions(rs)[k]; a.start % PAGE == 0 && a.end % PAGE == 0 && a.start < a.end
    {
      AlignedInside(rs, k);
    }
  }

  // Regions that do not overlap before rounding do not overlap after it.
  lemma {:induction false} DisjointStays(rs: seq<Region>)
    requires RegionsDisjoint(rs)
    ensures RegionsDisjoint(AlignRegions(rs))
  {
    if rs != [] {
      var n := |rs| - 1;
      var init, all := AlignRegions(rs[..n]), AlignRegions(rs);
      DisjointStays(rs[..n]);
      AlignInwards(rs[n]);
      hide AlignRegion;
      forall k: nat | k < |init|
        ensures init[k].end <= AlignRegion(rs[n]).start || AlignRegion(rs[n]).end <= init[k].start
      {
        AlignedInside(rs[..n], k);
        var i :| 0 <= i < n && rs[..n][i].start <= init[k].start && init[k].end <= rs[..n][i].end;
        assert rs[i] == rs[..n][i];
      }
    }
  }

  // A map that lists one frame twice: the allocator hands it out twice.
  lemma OverlapGivesTwice()
    ensures var rs := [Region(0, PAGE), Region(0, PAGE)];
      var p := Pool(AlignRegions(rs), 0, 0, [], 0, {}, {});
      var (q, first) := FramePool.Alloc(p);
      first == Some(0) && FramePool.Alloc(q).1 == Some(0)
  {
    var r := Region(0, PAGE);
    assert AlignRegion(r) == r;
    assert [r, r][..1] == [r] && [r][..0] == [];
    assert AlignRegions([]) == [];
    assert AlignRegions([r]) == [r];
    assert AlignRegions([r, r]) == [r, r];
    var p := Pool([r, r], 0, 0, [], 0, {}, {});
    var q := FramePool.Alloc(p).0;
    assert q == Take(p, 1);
    assert Bump(q, 1) == Bump(NextRegion(q), 1);
  }

  lemma FreshPoolConserved(p: Pool)
    requires RegionsOk(p.regions) && p.regionIdx == 0 && p.free == [] && p.inUse == 0
    requires p.cursor == if p.regions == [] then 0 else p.regions[0].start
    requires p.issued == {} && p.skipped == {}
    ensures Conserved(p)
  {
    forall f: nat
      ensures Usable(p, f) <==> Ahead(p, f)
    {
      if Usable(p, f) {
        var i: nat :| i < |p.regions| && InRegion(p, i, f);
      }
    }
  }

  // Rounding one region keeps exactly its whole frames.
  lemma AlignKeeps(r: Region, f: nat)
    requires f % PAGE == 0
    ensures r.start <= f && f + PAGE <= r.end <==> AlignRegion(r).start <= f < AlignRegion(r).end
  {
  }

  lemma AlignRegionsLast(rs: seq<Region>, p: Pool, f: nat)
    requires rs != [] && p.regions == AlignRegions(rs)
    ensures var q := p.(regions := AlignRegions(rs[..|rs| - 1]));
      var r := AlignRegion(rs[|rs| - 1]);
      Usable(p, f) <==> Usable(q, f) || (f % PAGE == 0 && r.start <= f < r.end)
  {
    var q := p.(regions := AlignRegions(rs[..|rs| - 1]));
    var r := AlignRegion(rs[|rs| - 1]);
    hide AlignRegion, Usable;
    if r.end > r.start {
      UsableAppend(q, p, r, f);
    } else {
      assert p == q;
    }
  }

  lemma UsableAppend(q: Pool, p: Pool, r: Region, f: nat)
    requires p.regions == q.regions + [r]
    ensures Usable(p, f) <==> Usable(q, f) || (f % PAGE == 0 && r.start <= f < r.end)
  {
    if Usable(q, f) {
      var i: nat :| i < |q.regions| && InRegion(q, i, f);
      assert InRegion(p, i, f);
    }
    if f % PAGE == 0 && r.start <= f < r.end {
      assert InRegion(p, |q.regions|, f);
    }
    if Usable(p, f) {
      var i: nat :| i < |p.regions| && InRegion(p, i, f);
      assert i < |q.regions| ==> InRegion(q, i, f);
    }
  }

  lemma WholeFrameLast(rs: seq<Region>, f: nat)
    requires rs != []
    ensures var last := rs[|rs| - 1];
      WholeFrameOf(rs, f) <==>
      WholeFrameOf(rs[..|rs| - 1], f) || (f % PAGE == 0 && last.start <= f && f + PAGE <= last.end)
  {
    var n := |rs| - 1;
    assert forall i :: 0 <= i < n ==> rs[i] == rs[..n][i];
    if f % PAGE == 0 && rs[n].start <= f && f + PAGE <= rs[n].end {
      assert WholeFrameOf(rs, f);
    }
  }

  // Rounding keeps exactly the frames that lie wholly inside one input region.
  lemma {:induction false} AlignKeepsWholeFrames(rs: seq<Region>, p: Pool, f: nat)
    requires p.regions == AlignRegions(rs)
    ensures Usable(p, f) <==> WholeFrameOf(rs, f)
  {
    hide AlignRegion;
    if rs != [] {
      var init, last := rs[..|rs| - 1], rs[|rs| - 1];
      AlignKeepsWholeFrames(init, p.(regions := AlignRegions(init)), f);
      hide AlignRegions, WholeFrameOf, Usable;
      WholeFrameLast(rs, f);
      AlignRegionsLast(rs, p, f);
      if f % PAGE == 0 {
        AlignKeeps(last, f);
      }
    }
  }
}
