// What an ELF64 image asks for: its loadable segments, the pages they cover and
// the byte each address must hold.
module ElfImage {
  import opened Base
  import opened AddressSpace

  datatype ElfError = TooSmall | BadMagic | NotElf64Le | NoFrameLeft | MapRefused | Malformed

  datatype Loaded = Entry(va: nat) | Failed(error: ElfError)

  datatype Segment = Segment(offset: nat, vaddr: nat, filesz: nat, memsz: nat, writable: bool, executable: bool)

  // One program header: unreadable, of another kind, or loadable.
  datatype Header = Unreadable | Skipped | Load(segment: Segment)

  const PT_LOAD: nat := 1

  // ----- Little-endian fields -----

  function Field(image: seq<byte>, off: nat, width: nat): Option<nat> {
    if off + width <= |image| then Some(LeValue(image[off..off + width])) else None
  }

  // ----- Headers -----

  function CheckIdent(image: seq<byte>): Option<ElfError> {
    if |image| < 64 then Some(TooSmall)
    else if image[0..4] != [0x7f, 0x45, 0x4c, 0x46] then Some(BadMagic)
    else if image[4] != 2 || image[5] != 1 then Some(NotElf64Le)
    else None
  }

  function ReadHeader(image: seq<byte>, ph: nat): Header {
    match Field(image, ph, 4)
    case None => Unreadable
    case Some(kind) =>
      if kind != PT_LOAD then Skipped
      else if ph + 48 > |image| then Unreadable
      else
        var flags := LeValue(image[ph + 4..ph + 8]);
        Load(Segment(
               LeValue(image[ph + 8..ph + 16]),
               LeValue(image[ph + 16..ph + 24]),
               LeValue(image[ph + 32..ph + 40]),
               LeValue(image[ph + 40..ph + 48]),
               flags / 2 % 2 == 1,
               flags % 2 == 1))
  }

  // The loadable segments among the first `n` headers, in header order.
  function Segments(image: seq<byte>, phoff: nat, phentsize: nat, n: nat): Option<seq<Segment>> {
    if n == 0 then Some([])
    else
      match Segments(image, phoff, phentsize, n - 1)
      case None => None
      case Some(found) =>
        match ReadHeader(image, phoff + (n - 1) * phentsize)
        case Unreadable => None
        case Skipped => Some(found)
        case Load(segment) => Some(found + [segment])
  }

  function ImageSegments(image: seq<byte>): Option<seq<Segment>>
    requires CheckIdent(image).None?
  {
    Segments(image, LeValue(image[32..40]), LeValue(image[54..56]), LeValue(image[56..58]))
  }

  // ----- The page plan -----

  // Add one page to a plan kept in ascending order, joining permissions if the
  // page is already there.
  function Touch(plan: seq<PagePlan>, page: nat, w: bool, x: bool): seq<PagePlan> {
    if plan == [] || page < plan[0].va then [PagePlan(page, w, x)] + plan
    else if page == plan[0].va then [PagePlan(page, plan[0].writable || w, plan[0].executable || x)] + plan[1..]
    else [plan[0]] + Touch(plan[1..], page, w, x)
  }

  function TouchRange(plan: seq<PagePlan>, page: nat, end: nat, w: bool, x: bool): seq<PagePlan>
    decreases end - page
  {
    if page >= end then plan else TouchRange(Touch(plan, page, w, x), page + PAGE, end, w, x)
  }

  function PagesEnd(seg: Segment): nat {
    DivCeil(seg.vaddr + seg.memsz, PAGE) * PAGE
  }

  function PlanOf(segs: seq<Segment>): seq<PagePlan> {
    if segs == [] then []
    else
      var seg := segs[|segs| - 1];
      TouchRange(PlanOf(segs[..|segs| - 1]), PageDown(seg.vaddr), PagesEnd(seg), seg.writable, seg.executable)
  }

  predicate AddressesFit(segs: seq<Segment>) {
    forall i :: 0 <= i < |segs| ==> segs[i].vaddr + segs[i].memsz < U64_LIMIT
  }

  predicate InPlan(plan: seq<PagePlan>, page: nat) {
    exists i :: 0 <= i < |plan| && plan[i].va == page
  }

  // Can the file bytes of a segment be copied: do they exist in the image, and is
  // every page they go to in the plan?
  ghost predicate Copyable(image: seq<byte>, seg: Segment, plan: seq<PagePlan>) {
    seg.filesz > 0 ==>
      && seg.offset + seg.filesz <= |image|
      && forall a: nat :: seg.vaddr <= a < seg.vaddr + seg.filesz ==> InPlan(plan, PageDown(a))
  }

  ghost predicate AllCopyable(image: seq<byte>, segs: seq<Segment>, plan: seq<PagePlan>) {
    forall i :: 0 <= i < |segs| ==> Copyable(image, segs[i], plan)
  }

  // ----- What loading does to the address spaces -----

  ghost function LoadSegments(vm: Vm, root: nat, image: seq<byte>, segs: seq<Segment>): (r: (Vm, Loaded))
    requires root in vm.spaces && |image| >= 64
    ensures r.0.spaces.Keys == vm.spaces.Keys
  {
    if !AddressesFit(segs) then (vm, Failed(Malformed))
    else
      var plan := PlanOf(segs);
      var (w, b) := AllocMapAll(vm, root, plan);
      if b == NoFrame then (w, Failed(NoFrameLeft))
      else if b == MapFailed then (w, Failed(MapRefused))
      else if !AllCopyable(image, segs, plan) then (w, Failed(Malformed))
      else (w, Entry(LeValue(image[24..32])))
  }

  ghost function LoadInto(vm: Vm, root: nat, image: seq<byte>): (r: (Vm, Loaded))
    requires root in vm.spaces
    ensures r.0.spaces.Keys == vm.spaces.Keys
  {
    match CheckIdent(image)
    case Some(error) => (vm, Failed(error))
    case None =>
      match ImageSegments(image)
      case None => (vm, Failed(Malformed))
      case Some(segs) => LoadSegments(vm, root, image, segs)
  }

  // Segments in order whose pages could all be backed are loaded.
  lemma LoadSucceeds(vm: Vm, root: nat, image: seq<byte>, segs: seq<Segment>)
    requires root in vm.spaces && |image| >= 64
    requires AddressesFit(segs) && AllCopyable(image, segs, PlanOf(segs))
    requires AllocMapAll(vm, root, PlanOf(segs)).1 == Backed
    ensures LoadSegments(vm, root, image, segs).1.Entry?
    ensures LoadSegments(vm, root, image, segs).0 == AllocMapAll(vm, root, PlanOf(segs)).0
  {
    hide AllCopyable, AddressesFit, TouchRange, AllocMap, LeValue;
  }
}
