// What an ELF image means: which pages it covers, with which permissions, and the
// byte every address must hold (chapter 5, 'Program Header', of the System V gABI).
module ElfMeaning {
  import opened Base
  import opened AddressSpace
  import opened ElfImage

  // ----- The page plan is the union of the covered pages -----

  ghost predicate Sorted(plan: seq<PagePlan>) {
    forall i, j :: 0 <= i < j < |plan| ==> plan[i].va < plan[j].va
  }

  function Find(plan: seq<PagePlan>, page: nat): (r: Option<PagePlan>)
    ensures r.Some? <==> InPlan(plan, page)
    ensures r.Some? ==> r.value in plan && r.value.va == page
  {
    if plan == [] then None else if plan[0].va == page then Some(plan[0]) else Find(plan[1..], page)
  }

  ghost predicate Covers(seg: Segment, page: nat) {
    page % PAGE == 0 && PageDown(seg.vaddr) <= page < PagesEnd(seg)
  }

  // A page asked for by some segment, with the permissions of all that ask for it.
  ghost function Wanted(segs: seq<Segment>, page: nat): Option<PagePlan> {
    if exists i :: 0 <= i < |segs| && Covers(segs[i], page) then
      Some(PagePlan(page,
                    exists i :: 0 <= i < |segs| && Covers(segs[i], page) && segs[i].writable,
                    exists i :: 0 <= i < |segs| && Covers(segs[i], page) && segs[i].executable))
    else None
  }

  function Joined(entry: Option<PagePlan>, page: nat, w: bool, x: bool): Option<PagePlan> {
    match entry
    case None => Some(PagePlan(page, w, x))
    case Some(p) => Some(PagePlan(page, p.writable || w, p.executable || x))
  }

  lemma {:induction false} TouchEffect(plan: seq<PagePlan>, page: nat, w: bool, x: bool, a: nat)
    requires Sorted(plan)
    ensures Find(Touch(plan, page, w, x), a)
              == if a == page then Joined(Find(plan, page), page, w, x) else Find(plan, a)
  {
    if plan != [] && page > plan[0].va {
      TouchEffect(plan[1..], page, w, x, a);
      assert ([plan[0]] + Touch(plan[1..], page, w, x))[1..] == Touch(plan[1..], page, w, x);
    } else if plan == [] || page < plan[0].va {
      assert ([PagePlan(page, w, x)] + plan)[1..] == plan;
      assert !InPlan(plan, page);
    }
  }

  lemma {:induction false} TouchSorted(plan: seq<PagePlan>, page: nat, w: bool, x: bool)
    requires Sorted(plan)
    ensures Sorted(Touch(plan, page, w, x))
    ensures forall p :: p in Touch(plan, page, w, x) ==> p.va == page || exists q :: q in plan && q.va == p.va
  {
    if plan != [] && page > plan[0].va {
      var rest := Touch(plan[1..], page, w, x);
      TouchSorted(plan[1..], page, w, x);
      hide Touch;
      forall p | p in rest
        ensures p.va > plan[0].va
        ensures p.va == page || exists q :: q in plan && q.va == p.va
      {
        if p.va != page {
          var q :| q in plan[1..] && q.va == p.va;
          assert q in plan;
        }
      }
      ConsSorted(plan[0], rest);
    }
  }

  lemma ConsSorted(head: PagePlan, rest: seq<PagePlan>)
    requires Sorted(rest) && forall p :: p in rest ==> p.va > head.va
    ensures Sorted([head] + rest)
  {
  }

  lemma {:induction false} TouchRangeEffect(plan: seq<PagePlan>, page: nat, end: nat, w: bool, x: bool, a: nat)
    requires Sorted(plan) && page % PAGE == 0
    ensures Sorted(TouchRange(plan, page, end, w, x))
    ensures Find(TouchRange(plan, page, end, w, x), a) ==
              if a % PAGE == 0 && page <= a < end then Joined(Find(plan, a), a, w, x) else Find(plan, a)
    decreases end - page
  {
    hide Touch, Find;
    if page < end {
      TouchSorted(plan, page, w, x);
      TouchEffect(plan, page, w, x, a);
      TouchRangeEffect(Touch(plan, page, w, x), page + PAGE, end, w, x, a);
    }
  }

  lemma WantedLast(segs: seq<Segment>, page: nat)
    requires segs != []
    ensures var init, seg := segs[..|segs| - 1], segs[|segs| - 1];
      Wanted(segs, page) ==
      if Covers(seg, page) then Joined(Wanted(init, page), page, seg.writable, seg.executable) else Wanted(init, page)
  {
    hide Covers;
    var init, n := segs[..|segs| - 1], |segs| - 1;
    assert forall i :: 0 <= i < n ==> init[i] == segs[i];
    if Covers(segs[n], page) {
      assert segs[n].writable ==> exists i :: 0 <= i < |segs| && Covers(segs[i], page) && segs[i].writable;
      assert segs[n].executable ==> exists i :: 0 <= i < |segs| && Covers(segs[i], page) && segs[i].executable;
    }
  }

  // The plan lists each covered page once, in ascending order, with the joined
  // permissions of the segments that cover it, and no other page.
  lemma {:induction false} PlanMeaning(segs: seq<Segment>, page: nat)
    ensures Sorted(PlanOf(segs))
    ensures Find(PlanOf(segs), page) == Wanted(segs, page)
  {
    if segs != [] {
      hide Wanted, Find, TouchRange, PagesEnd;
      var init, seg := segs[..|segs| - 1], segs[|segs| - 1];
      PlanMeaning(init, page);
      assert PageDown(seg.vaddr) % PAGE == 0;
      TouchRangeEffect(PlanOf(init), PageDown(seg.vaddr), PagesEnd(seg), seg.writable, seg.executable, page);
      WantedLast(segs, page);
    }
  }

  lemma LastPage(last: nat)
    ensures DivCeil(last + 1, PAGE) * PAGE == PageDown(last) + PAGE
  {
  }

  // A page is covered exactly when it meets the memory image of the segment, or
  // when the image is empty and its address lies inside the page: a segment of no
  // size at an unaligned address gets a page all the same.
  lemma CoversIff(seg: Segment, page: nat)
    ensures Covers(seg, page) <==>
              || (exists a: nat :: seg.vaddr <= a < seg.vaddr + seg.memsz && PageDown(a) == page)
              || (seg.memsz == 0 && seg.vaddr % PAGE != 0 && page == PageDown(seg.vaddr))
  {
    if seg.memsz > 0 {
      CoversSized(seg, page);
    } else {
      EmptyEnd(seg.vaddr);
    }
  }

  lemma EmptyEnd(vaddr: nat)
    ensures DivCeil(vaddr, PAGE) * PAGE == if vaddr % PAGE == 0 then PageDown(vaddr) else PageDown(vaddr) + PAGE
    ensures vaddr % PAGE == 0 ==> PageDown(vaddr) == vaddr
  {
  }

  lemma CoversSized(seg: Segment, page: nat)
    requires seg.memsz > 0
    ensures Covers(seg, page) <==> exists a: nat :: seg.vaddr <= a < seg.vaddr + seg.memsz && PageDown(a) == page
  {
    var last := seg.vaddr + seg.memsz - 1;
    LastPage(last);
    assert PagesEnd(seg) == PageDown(last) + PAGE;
    hide PagesEnd;
    if Covers(seg, page) {
      var a := if page < seg.vaddr then seg.vaddr else page;
      assert PageDown(a) == page;
    }
  }

  // Such a segment: no memory image, and one page is mapped for it.
  lemma EmptySegmentMapped(seg: Segment)
    requires seg.memsz == 0 && seg.vaddr % PAGE != 0
    ensures Find(PlanOf([seg]), PageDown(seg.vaddr))
            == Some(PagePlan(PageDown(seg.vaddr), seg.writable, seg.executable))
  {
    var page := PageDown(seg.vaddr);
    CoversIff(seg, page);
    PlanMeaning([seg], page);
    assert [seg][0] == seg;
  }

  // ----- The byte at every address -----

  predicate InFile(seg: Segment, a: nat) {
    seg.vaddr <= a < seg.vaddr + seg.filesz
  }

  // The file byte of the last segment, in header order, whose file range covers the
  // address; zero if there is none.
  function FlatByte(image: seq<byte>, segs: seq<Segment>, a: nat): byte {
    if segs == [] then 0
    else
      var seg := segs[|segs| - 1];
      if InFile(seg, a) && seg.offset + (a - seg.vaddr) < |image| then image[seg.offset + (a - seg.vaddr)]
      else FlatByte(image, segs[..|segs| - 1], a)
  }

  lemma {:induction false} LastSegmentWins(image: seq<byte>, segs: seq<Segment>, i: nat, a: nat)
    requires i < |segs| && InFile(segs[i], a) && segs[i].offset + segs[i].filesz <= |image|
    requires forall j :: i < j < |segs| ==> !InFile(segs[j], a)
    ensures FlatByte(image, segs, a) == image[segs[i].offset + (a - segs[i].vaddr)]
    decreases |segs|
  {
    if i < |segs| - 1 {
      LastSegmentWins(image, segs[..|segs| - 1], i, a);
    }
  }

  lemma {:induction false} UncoveredIsZero(image: seq<byte>, segs: seq<Segment>, a: nat)
    requires forall j :: 0 <= j < |segs| ==> !InFile(segs[j], a)
    ensures FlatByte(image, segs, a) == 0
  {
    if segs != [] {
      UncoveredIsZero(image, segs[..|segs| - 1], a);
    }
  }

  // The rule for program headers: where memory images do not overlap and no file
  // part is longer than its memory image, a segment's memory is its file bytes
  // followed by zeros.
  lemma ProgramHeaderRule(image: seq<byte>, segs: seq<Segment>, i: nat, a: nat)
    requires i < |segs| && segs[i].vaddr <= a < segs[i].vaddr + segs[i].memsz
    requires forall j :: 0 <= j < |segs| ==>
               segs[j].filesz <= segs[j].memsz && segs[j].offset + segs[j].filesz <= |image|
    requires forall j :: 0 <= j < |segs| && j != i ==>
               segs[j].vaddr + segs[j].memsz <= segs[i].vaddr || segs[i].vaddr + segs[i].memsz <= segs[j].vaddr
    ensures FlatByte(image, segs, a) ==
              if a < segs[i].vaddr + segs[i].filesz then image[segs[i].offset + (a - segs[i].vaddr)] else 0
  {
    if InFile(segs[i], a) {
      LastSegmentWins(image, segs, i, a);
    } else {
      UncoveredIsZero(image, segs, a);
    }
  }

  // With such headers every file byte has a page to go to: loading can fail only
  // for want of memory or on a bad image.
  lemma FileFitsCopyable(image: seq<byte>, segs: seq<Segment>, i: nat)
    requires i < |segs| && segs[i].filesz <= segs[i].memsz && segs[i].offset + segs[i].filesz <= |image|
    ensures Copyable(image, segs[i], PlanOf(segs))
  {
    var seg := segs[i];
    forall a: nat | seg.vaddr <= a < seg.vaddr + seg.filesz
      ensures InPlan(PlanOf(segs), PageDown(a))
    {
      CoversIff(seg, PageDown(a));
      PlanMeaning(segs, PageDown(a));
    }
  }
}
