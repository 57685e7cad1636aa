// The ELF64 layout, written down by an encoder (chapters 4, 'ELF Header', and 5,
// 'Program Header', of the System V gABI), and what the loader reads back from it.
module ElfFormat {
  import opened Base
  import opened AddressSpace
  import opened Memory
  import opened ElfImage
  import opened ElfMeaning
  import opened ElfLoader

  type u16 = x: int | 0 <= x < 0x1_0000

  // e_ident beyond its first six bytes, the fields the loader does not use, and those
  // it does.
  datatype FileHeader = FileHeader(
    identRest: seq<byte>,
    kind: u16,
    machine: u16,
    version: u32,
    entry: u64,
    phoff: u64,
    shoff: u64,
    flags: u32,
    ehsize: u16,
    phentsize: u16,
    phnum: u16,
    shentsize: u16,
    shnum: u16,
    shstrndx: u16)

  // p_flags is spelled out: PF_X is 1, PF_W is 2, PF_R is 4.
  datatype ProgramHeader = ProgramHeader(
    kind: u32,
    executable: bool,
    writable: bool,
    readable: bool,
    otherFlags: nat,
    offset: u64,
    vaddr: u64,
    paddr: u64,
    filesz: u64,
    memsz: u64,
    align: u64)

  // ----- The encoder -----

  predicate Encodable(e: FileHeader) {
    |e.identRest| == 10
  }

  function EncodedFile(e: FileHeader): (r: seq<byte>)
    requires Encodable(e)
    ensures |r| == 64
  {
    [0x7f, 0x45, 0x4c, 0x46, 2, 1] + e.identRest
    + LeBytes(e.kind, 2) + LeBytes(e.machine, 2) + LeBytes(e.version, 4)
    + LeBytes(e.entry, 8) + LeBytes(e.phoff, 8) + LeBytes(e.shoff, 8) + LeBytes(e.flags, 4)
    + LeBytes(e.ehsize, 2) + LeBytes(e.phentsize, 2) + LeBytes(e.phnum, 2)
    + LeBytes(e.shentsize, 2) + LeBytes(e.shnum, 2) + LeBytes(e.shstrndx, 2)
  }

  function Flags(h: ProgramHeader): nat {
    (if h.executable then 1 else 0) + (if h.writable then 2 else 0) + (if h.readable then 4 else 0) + 8 * h.otherFlags
  }

  function Encoded(h: ProgramHeader): (r: seq<byte>)
    ensures |r| == 56
  {
    LeBytes(h.kind, 4) + LeBytes(Flags(h), 4) + LeBytes(h.offset, 8) + LeBytes(h.vaddr, 8) + LeBytes(h.paddr, 8)
    + LeBytes(h.filesz, 8) + LeBytes(h.memsz, 8) + LeBytes(h.align, 8)
  }

  predicate HeaderAt(image: seq<byte>, at: nat, h: ProgramHeader) {
    at + 56 <= |image| && image[at..at + 56] == Encoded(h) && Flags(h) < U32_LIMIT
  }

  // The image starts with this file header, and its program header table holds these.
  ghost predicate Describes(image: seq<byte>, e: FileHeader, table: seq<ProgramHeader>) {
    && Encodable(e) && |image| >= 64 && image[..64] == EncodedFile(e) && e.phnum == |table|
    && forall i :: 0 <= i < |table| ==> HeaderAt(image, e.phoff + i * e.phentsize, table[i])
  }

  // ----- Reading it back -----

  function SegmentOf(h: ProgramHeader): Segment {
    Segment(h.offset, h.vaddr, h.filesz, h.memsz, h.writable, h.executable)
  }

  // The loadable ones, in order.
  function Loadable(table: seq<ProgramHeader>): seq<Segment> {
    if table == [] then []
    else
      var last := table[|table| - 1];
      Loadable(table[..|table| - 1]) + if last.kind == 1 then [SegmentOf(last)] else []
  }

  lemma Powers()
    ensures Power256(2) == 0x1_0000 && Power256(4) == U32_LIMIT && Power256(8) == U64_LIMIT
  {
    assert Power256(2) == 0x1_0000;
    assert Power256(4) == 0x1_0000_0000;
    assert Power256(6) == 0x1_0000_0000_0000;
  }

  lemma ProgramHeaderFields(h: ProgramHeader)
    ensures var s := Encoded(h);
      && s[0..4] == LeBytes(h.kind, 4) && s[4..8] == LeBytes(Flags(h), 4)
      && s[8..16] == LeBytes(h.offset, 8) && s[16..24] == LeBytes(h.vaddr, 8)
      && s[32..40] == LeBytes(h.filesz, 8) && s[40..48] == LeBytes(h.memsz, 8)
  {
    hide LeBytes;
  }

  lemma FlagsRead(h: ProgramHeader)
    ensures (Flags(h) % 2 == 1 <==> h.executable) && (Flags(h) / 2 % 2 == 1 <==> h.writable)
  {
    LowBits(if h.executable then 1 else 0, if h.writable then 1 else 0,
            (if h.readable then 1 else 0) + 2 * h.otherFlags);
  }

  lemma LowBits(a: nat, b: nat, rest: nat)
    requires a < 2 && b < 2
    ensures (a + 2 * b + 4 * rest) % 2 == a && (a + 2 * b + 4 * rest) / 2 % 2 == b
  {
    assert (a + 2 * b + 4 * rest) / 2 == b + 2 * rest;
  }

  lemma HeaderBack(image: seq<byte>, at: nat, h: ProgramHeader)
    requires HeaderAt(image, at, h)
    ensures ReadHeader(image, at) == if h.kind == 1 then Load(SegmentOf(h)) else Skipped
  {
    hide LeBytes, LeValue, Encoded, Flags, Power256;
    var s := Encoded(h);
    ProgramHeaderFields(h);
    FlagsRead(h);
    Powers();
    PartBack(image, at, s, 0, 4, h.kind);
    PartBack(image, at, s, 4, 8, Flags(h));
    PartBack(image, at, s, 8, 16, h.offset);
    PartBack(image, at, s, 16, 24, h.vaddr);
    PartBack(image, at, s, 32, 40, h.filesz);
    PartBack(image, at, s, 40, 48, h.memsz);
  }

  // A field of a record that lies in the image is read back.
  lemma PartBack(image: seq<byte>, at: nat, record: seq<byte>, lo: nat, hi: nat, v: nat)
    requires at + |record| <= |image| && image[at..at + |record|] == record && lo <= hi <= |record|
    requires record[lo..hi] == LeBytes(v, hi - lo) && v < Power256(hi - lo)
    ensures LeValue(image[at + lo..at + hi]) == v
  {
    SliceOfSlice(image, at, at + |record|, lo, hi);
    LeRoundTrip(v, hi - lo);
  }

  lemma FileHeaderFields(e: FileHeader)
    requires Encodable(e)
    ensures var s := EncodedFile(e);
      && s[0..4] == [0x7f, 0x45, 0x4c, 0x46] && s[4] == 2 && s[5] == 1
      && s[24..32] == LeBytes(e.entry, 8) && s[32..40] == LeBytes(e.phoff, 8)
      && s[54..56] == LeBytes(e.phentsize, 2) && s[56..58] == LeBytes(e.phnum, 2)
  {
    hide LeBytes;
  }

  lemma FileHeaderBack(image: seq<byte>, e: FileHeader)
    requires Encodable(e) && |image| >= 64 && image[..64] == EncodedFile(e)
    ensures CheckIdent(image).None? && LeValue(image[24..32]) == e.entry
    ensures LeValue(image[32..40]) == e.phoff && LeValue(image[54..56]) == e.phentsize
    ensures LeValue(image[56..58]) == e.phnum
  {
    hide LeBytes, LeValue, EncodedFile, Power256, CheckIdent;
    var s := EncodedFile(e);
    FileHeaderFields(e);
    Powers();
    assert image[0..64] == s;
    IdentBack(image, s);
    PartBack(image, 0, s, 24, 32, e.entry);
    PartBack(image, 0, s, 32, 40, e.phoff);
    PartBack(image, 0, s, 54, 56, e.phentsize);
    PartBack(image, 0, s, 56, 58, e.phnum);
  }

  lemma IdentBack(image: seq<byte>, s: seq<byte>)
    requires |image| >= 64 && image[0..64] == s && s[0..4] == [0x7f, 0x45, 0x4c, 0x46] && s[4] == 2 && s[5] == 1
    ensures CheckIdent(image).None?
  {
    SliceOfSlice(image, 0, 64, 0, 4);
    assert image[4] == s[4] && image[5] == s[5];
  }

  lemma {:induction false} TableBack(image: seq<byte>, phoff: nat, phentsize: nat, table: seq<ProgramHeader>)
    requires forall i :: 0 <= i < |table| ==> HeaderAt(image, phoff + i * phentsize, table[i])
    ensures Segments(image, phoff, phentsize, |table|) == Some(Loadable(table))
  {
    hide HeaderAt, ReadHeader;
    if table != [] {
      var n := |table| - 1;
      TableBack(image, phoff, phentsize, table[..n]);
      HeaderBack(image, phoff + n * phentsize, table[n]);
      var found := Loadable(table[..n]);
      assert found + [] == found;
      assert |table[..n]| == n;
    }
  }

  // The loader reads from such an image exactly its loadable headers, in order, with
  // their fields and permissions, and its entry point.
  lemma ReadsLayout(image: seq<byte>, e: FileHeader, table: seq<ProgramHeader>)
    requires Describes(image, e, table)
    ensures CheckIdent(image).None? && ImageSegments(image) == Some(Loadable(table))
    ensures LeValue(image[24..32]) == e.entry
  {
    hide HeaderAt, EncodedFile, LeValue, Segments, Loadable;
    FileHeaderBack(image, e);
    TableBack(image, e.phoff, e.phentsize, table);
  }

  // ----- What is refused -----

  // Nothing loads that is shorter than a file header or is not marked as a
  // little-endian ELF64 file.
  lemma OnlyElfLoads(vm: Vm, root: nat, image: seq<byte>)
    requires root in vm.spaces && LoadInto(vm, root, image).1.Entry?
    ensures |image| >= 64 && image[..6] == [0x7f, 0x45, 0x4c, 0x46, 2, 1]
  {
    hide ImageSegments, AllocMapAll, PlanOf, AllCopyable, AddressesFit, LeValue;
    assert image[..6] == image[0..4] + [image[4], image[5]];
  }

  // A header that lies beyond the image, as far as the loader reads it: the kind of
  // all, the first 48 bytes of loadable ones.
  predicate CutOff(image: seq<byte>, at: nat) {
    at + 4 > |image| || (LeValue(image[at..at + 4]) == 1 && at + 48 > |image|)
  }

  lemma {:induction false} TableReadable(image: seq<byte>, phoff: nat, phentsize: nat, n: nat)
    ensures Segments(image, phoff, phentsize, n).None? <==>
            exists i :: 0 <= i < n && CutOff(image, phoff + i * phentsize)
  {
    hide LeValue;
    if n > 0 {
      TableReadable(image, phoff, phentsize, n - 1);
      assert CutOff(image, phoff + (n - 1) * phentsize) <==> ReadHeader(image, phoff + (n - 1) * phentsize).Unreadable?;
      hide CutOff, ReadHeader;
    }
  }

  // ----- What is loaded -----

  // Must this page be there for the header: does it meet its memory image, or is the
  // image empty and its unaligned address in the page?
  ghost predicate Meets(h: ProgramHeader, page: nat) {
    || (exists a: nat :: h.vaddr <= a < h.vaddr + h.memsz && PageDown(a) == page)
    || (h.memsz == 0 && h.vaddr % PAGE != 0 && page == PageDown(h.vaddr))
  }

  ghost predicate LoadsPage(table: seq<ProgramHeader>, i: nat, page: nat) {
    i < |table| && table[i].kind == 1 && Meets(table[i], page)
  }

  // Some loadable header asks for the page; one with PF_W does; one with PF_X does.
  ghost predicate Asked(table: seq<ProgramHeader>, page: nat) {
    exists i: nat :: LoadsPage(table, i, page)
  }

  ghost predicate AskedWritable(table: seq<ProgramHeader>, page: nat) {
    exists i: nat :: LoadsPage(table, i, page) && table[i].writable
  }

  ghost predicate AskedExecutable(table: seq<ProgramHeader>, page: nat) {
    exists i: nat :: LoadsPage(table, i, page) && table[i].executable
  }

  lemma AskedLast(table: seq<ProgramHeader>, page: nat)
    requires table != []
    ensures var init, n := table[..|table| - 1], |table| - 1;
      var last := LoadsPage(table, n, page);
      && (Asked(table, page) <==> Asked(init, page) || last)
      && (AskedWritable(table, page) <==> AskedWritable(init, page) || (last && table[n].writable))
      && (AskedExecutable(table, page) <==> AskedExecutable(init, page) || (last && table[n].executable))
  {
    var init := table[..|table| - 1];
    assert forall i: nat :: LoadsPage(init, i, page) <==> i < |init| && LoadsPage(table, i, page);
    hide Meets;
  }

  lemma {:induction false} WantedByTable(table: seq<ProgramHeader>, page: nat)
    ensures Wanted(Loadable(table), page)
         == if Asked(table, page) then Some(PagePlan(page, AskedWritable(table, page), AskedExecutable(table, page)))
            else None
  {
    if table == [] {
      assert !Asked(table, page);
    } else {
      var n := |table| - 1;
      var init, last, segs := table[..n], table[n], Loadable(table);
      WantedByTable(init, page);
      AskedLast(table, page);
      hide Wanted, Meets, Asked, AskedWritable, AskedExecutable;
      if last.kind == 1 {
        assert segs[..|segs| - 1] == Loadable(init) && segs[|segs| - 1] == SegmentOf(last);
        WantedLast(segs, page);
        MeetsIsCovers(last, page);
      } else {
        assert segs == Loadable(init);
      }
    }
  }

  lemma MeetsIsCovers(h: ProgramHeader, page: nat)
    ensures Meets(h, page) <==> Covers(SegmentOf(h), page)
  {
    hide Covers;
    CoversIff(SegmentOf(h), page);
  }

  // After a load exactly the pages that loadable headers ask for are new, in user mode,
  // writable and executable exactly where such a header has PF_W or PF_X.
  lemma LoadedPages(v: Vm, w: Vm, root: nat, before: seq<byte>, after: seq<byte>, image: seq<byte>, e: FileHeader,
                    table: seq<ProgramHeader>, page: nat)
    requires Describes(image, e, table) && CheckIdent(image).None? && ImageSegments(image).Some?
    requires Loads(v, w, root, before, after, image, ImageSegments(image).value)
    ensures NewPage(v, w, root, page) <==> Asked(table, page)
    ensures NewPage(v, w, root, page) ==>
              root in w.spaces && page in w.spaces[root].pages &&
              var pte := w.spaces[root].pages[page];
              && pte.user && !pte.device
              && (pte.writable <==> AskedWritable(table, page))
              && (pte.executable <==> AskedExecutable(table, page))
  {
    hide Describes, ImageSegments, Wanted, Loadable, Asked, AskedWritable, AskedExecutable, Loads, CheckIdent;
    ReadsLayout(image, e, table);
    WantedByTable(table, page);
    LoadsPlan(v, w, root, before, after, image, Loadable(table), page);
  }

  lemma LoadsPlan(v: Vm, w: Vm, root: nat, before: seq<byte>, after: seq<byte>, image: seq<byte>, segs: seq<Segment>,
                  page: nat)
    requires Loads(v, w, root, before, after, image, segs)
    ensures NewPage(v, w, root, page) <==> Wanted(segs, page).Some?
    ensures NewPage(v, w, root, page) && Wanted(segs, page).Some? ==>
              root in w.spaces && page in w.spaces[root].pages &&
              MappedAs(w, root, page, Wanted(segs, page).value)
  {
    hide Wanted, KeepsBytes, ApartPages, PageFilled;
  }

  // No loadable header overlaps header i, and each has its file bytes in the image.
  ghost predicate Separate(image: seq<byte>, table: seq<ProgramHeader>, i: nat) {
    && i < |table| && table[i].kind == 1
    && forall j :: 0 <= j < |table| && table[j].kind == 1 ==>
         && table[j].filesz <= table[j].memsz && table[j].offset + table[j].filesz <= |image|
         && (j != i ==>
               || table[j].vaddr + table[j].memsz <= table[i].vaddr
               || table[i].vaddr + table[i].memsz <= table[j].vaddr)
  }

  lemma {:induction false} NoFileByte(image: seq<byte>, table: seq<ProgramHeader>, a: nat)
    requires forall j :: 0 <= j < |table| && table[j].kind == 1 ==> !InFile(SegmentOf(table[j]), a)
    ensures FlatByte(image, Loadable(table), a) == 0
  {
    if table != [] {
      var init := table[..|table| - 1];
      NoFileByte(image, init, a);
      LastHeader(image, table, a);
    }
  }

  lemma LastHeader(image: seq<byte>, table: seq<ProgramHeader>, a: nat)
    requires table != []
    ensures var init, seg := Loadable(table[..|table| - 1]), SegmentOf(table[|table| - 1]);
      FlatByte(image, Loadable(table), a)
      == if table[|table| - 1].kind == 1 && InFile(seg, a) && seg.offset + (a - seg.vaddr) < |image|
         then image[seg.offset + (a - seg.vaddr)] else FlatByte(image, init, a)
  {
    var segs, init := Loadable(table), Loadable(table[..|table| - 1]);
    if table[|table| - 1].kind == 1 {
      assert segs[..|segs| - 1] == init;
    } else {
      assert segs == init;
    }
  }

  lemma {:induction false} TableByte(image: seq<byte>, table: seq<ProgramHeader>, i: nat, a: nat)
    requires Separate(image, table, i) && table[i].vaddr <= a < table[i].vaddr + table[i].memsz
    ensures FlatByte(image, Loadable(table), a)
         == if a < table[i].vaddr + table[i].filesz then image[table[i].offset + (a - table[i].vaddr)] else 0
  {
    var n := |table| - 1;
    LastHeader(image, table, a);
    hide Loadable, FlatByte;
    if i < n {
      TableByte(image, table[..n], i, a);
    } else if !InFile(SegmentOf(table[n]), a) {
      NoFileByte(image, table[..n], a);
    }
  }

  // Where the image is present in a space, each address of a loadable header that
  // overlaps no other holds its file byte, or zero beyond the file bytes.
  lemma PresentBytes(w: Vm, root: nat, bytes: seq<byte>, image: seq<byte>, e: FileHeader, table: seq<ProgramHeader>,
                     i: nat, a: nat)
    requires Describes(image, e, table) && CheckIdent(image).None? && ImageSegments(image).Some?
    requires ImagePresent(w, root, bytes, image, ImageSegments(image).value)
    requires Separate(image, table, i) && table[i].vaddr <= a < table[i].vaddr + table[i].memsz
    ensures root in w.spaces && Translate(w.spaces[root], a).Some?
    ensures var pa := Translate(w.spaces[root], a).value;
      && pa < |bytes|
      && bytes[pa] == if a < table[i].vaddr + table[i].filesz then image[table[i].offset + (a - table[i].vaddr)] else 0
  {
    hide Describes, ImageSegments, Wanted, Loadable, FlatByte, CheckIdent;
    var page := PageDown(a);
    ReadsLayout(image, e, table);
    WantedByTable(table, page);
    assert Meets(table[i], page);
    assert LoadsPage(table, i, page);
    TableByte(image, table, i, a);
    assert page <= a < page + PAGE;
    assert PageFilled(bytes, w.spaces[root].pages[page].frame, page, image, Loadable(table));
  }

  // A load that reports an entry point reports the encoded one.
  lemma EntryReported(vm: Vm, root: nat, image: seq<byte>, e: FileHeader, table: seq<ProgramHeader>)
    requires Describes(image, e, table) && root in vm.spaces
    ensures var r := LoadInto(vm, root, image).1; r.Entry? ==> r.va == e.entry
  {
    hide Describes, ImageSegments, AllocMapAll, PlanOf, AllCopyable, AddressesFit, LeValue;
    ReadsLayout(image, e, table);
  }
}
