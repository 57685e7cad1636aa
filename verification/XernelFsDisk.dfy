// XernelFS as it runs: one block device, sector buffers filled in place, and the
// loops over them.
module XernelFsDisk {
  import opened Base
  import opened XernelFs

  class Blk {
    var sectors: seq<Sector>
    var clock: nat
    const script: nat -> Fate

    constructor (sectors: seq<Sector>, script: nat -> Fate)
      ensures View() == Disk(sectors, 0, script)
    {
      this.sectors, this.clock, this.script := sectors, 0, script;
    }

    ghost function View(): Disk
      reads this
    {
      Disk(sectors, clock, script)
    }

    // One transfer between a sector and a 512-byte buffer.
    method Transfer(sector: nat, write: bool, buf: array<byte>) returns (ok: bool)
      requires buf.Length == 512
      modifies this, buf
      ensures write ==> (View(), ok) == WriteSector(old(View()), sector, old(buf[..])) && buf[..] == old(buf[..])
      ensures !write ==> var (d, got) := ReadSector(old(View()), sector);
                View() == d && ok == got.Some? && buf[..] == if ok then got.value else old(buf[..])
    {
      var fate := script(clock);
      clock := clock + 1;
      if sector >= |sectors| {
        return false;
      }
      if write {
        match fate {
          case Fine => sectors := sectors[sector := buf[..]];
          case Fails(None) =>
          case Fails(Some(torn)) => sectors := sectors[sector := torn];
        }
      } else if fate.Fine? {
        var from := sectors[sector];
        for i := 0 to 512
          invariant sectors == old(sectors) && clock == old(clock) + 1
          invariant buf[..i] == from[..i]
        {
          buf[i] := from[i];
        }
        assert buf[..] == from;
      }
      return fate.Fine?;
    }
  }

  // ----- Byte buffers -----

  method WriteU32(a: array<byte>, at: nat, v: u32)
    requires at + 4 <= a.Length
    modifies a
    ensures a[..] == Splice(old(a[..]), at, Le32(v))
  {
    CopyInto(a, at, Le32(v));
  }

  method ZeroBuffer() returns (a: array<byte>)
    ensures fresh(a) && a.Length == 512 && a[..] == ZeroSector()
  {
    a := new byte[512](_ => 0);
  }

  // ----- The file system calls -----

  method FsFormat(b: Blk) returns (ok: bool)
    modifies b
    ensures (b.View(), ok) == Format(old(b.View()))
  {
    var sb := ZeroBuffer();
    CopyInto(sb, 0, MAGIC);
    WriteU32(sb, 8, 1);
    WriteU32(sb, 12, TOTAL_SECTORS);
    WriteU32(sb, 16, DATA_START);
    var dir := ZeroBuffer();
    ok := b.Transfer(SB_SECTOR, true, sb);
    if ok {
      ok := b.Transfer(DIR_SECTOR, true, dir);
    }
  }

  method FirstFreeEntry(dir: array<byte>) returns (slot: nat)
    requires dir.Length == 512
    ensures slot == FirstFree(dir[..], 0)
  {
    slot := 0;
    while slot < DIR_ENTRIES && dir[slot * ENT_SIZE] != 0
      invariant slot <= DIR_ENTRIES && FirstFree(dir[..], 0) == FirstFree(dir[..], slot)
    {
      slot := slot + 1;
    }
  }

  // One sector per turn; what the last one has beyond the data is zero.
  method StoreData(b: Blk, start: nat, data: seq<byte>) returns (ok: bool)
    modifies b
    ensures (b.View(), ok) == WriteData(old(b.View()), start, data)
  {
    var off := 0;
    var s := start;
    assert data[0..] == data;
    while off < |data|
      invariant 0 <= off <= |data|
      invariant WriteData(b.View(), s, data[off..]) == WriteData(old(b.View()), start, data)
    {
      var n := Min(SECTOR, |data| - off);
      var buf := ZeroBuffer();
      CopyInto(buf, 0, data[off..off + n]);
      assert buf[..] == Chunk(data[off..]);
      var written := b.Transfer(s, true, buf);
      if !written {
        return false;
      }
      assert data[off..][n..] == data[off + n..];
      off := off + n;
      s := s + 1;
    }
    ok := true;
  }

  method FsCreate(b: Blk, name: seq<byte>, data: seq<byte>) returns (ok: bool)
    modifies b
    ensures b.View() == Create(old(b.View()), name, data).0
    ensures ok <==> Create(old(b.View()), name, data).1 == Created
  {
    hide FirstFree, WriteData, WriteSector, FillEntry, Enter, Rd32;
    var sb := ZeroBuffer();
    var got := b.Transfer(SB_SECTOR, false, sb);
    if !got || sb[..8] != MAGIC {
      return false;
    }
    var next := NextFree(sb[..]);
    var dir := ZeroBuffer();
    got := b.Transfer(DIR_SECTOR, false, dir);
    if !got {
      return false;
    }
    var slot := FirstFreeEntry(dir);
    if slot == DIR_ENTRIES {
      return false;
    }
    var sectors := DivCeil(|data|, SECTOR);
    if next + sectors > TOTAL_SECTORS {
      return false;
    }
    ok := EnterAndCommit(b, sb, dir, slot, name, data);
  }

  method EnterAndCommit(b: Blk, sb: array<byte>, dir: array<byte>, slot: nat, name: seq<byte>,
                        data: seq<byte>) returns (ok: bool)
    requires sb.Length == 512 && dir.Length == 512 && sb != dir && slot < DIR_ENTRIES
    requires NextFree(sb[..]) + DivCeil(|data|, SECTOR) <= TOTAL_SECTORS
    modifies b, sb, dir
    ensures b.View() == Enter(old(b.View()), old(sb[..]), old(dir[..]), slot, name, data).0
    ensures ok <==> Enter(old(b.View()), old(sb[..]), old(dir[..]), slot, name, data).1 == Created
  {
    hide WriteData, WriteSector, FillEntry, Rd32;
    var start := NextFree(sb[..]);
    var written := StoreData(b, start, data);
    if !written {
      return false;
    }
    EnterFile(dir, slot, name, |data|, start);
    written := b.Transfer(DIR_SECTOR, true, dir);
    if !written {
      return false;
    }
    WriteU32(sb, 16, start + DivCeil(|data|, SECTOR));
    ok := b.Transfer(SB_SECTOR, true, sb);
  }

  method EnterFile(dir: array<byte>, slot: nat, name: seq<byte>, size: u32, start: u32)
    requires dir.Length == 512 && slot < DIR_ENTRIES
    modifies dir
    ensures dir[..] == FillEntry(old(dir[..]), slot, name, size, start)
  {
    var base := slot * ENT_SIZE;
    CopyInto(dir, base, name[..Min(NAME_LEN, |name|)]);
    WriteU32(dir, base + 24, size);
    WriteU32(dir, base + 28, start);
  }

  method FsFind(dir: array<byte>, name: seq<byte>) returns (found: Option<(u32, u32)>)
    requires dir.Length == 512
    ensures match FindEntry(dir[..], name, 0)
            case None => found.None?
            case Some(i) => found == Some((SizeAt(dir[..], i), StartAt(dir[..], i)))
  {
    hide Rd32, Padded;
    var i := 0;
    while i < DIR_ENTRIES
      invariant 0 <= i <= DIR_ENTRIES && FindEntry(dir[..], name, 0) == FindEntry(dir[..], name, i)
    {
      if dir[i * ENT_SIZE] != 0 {
        var matches := EntryNamed(dir, i, name);
        if matches {
          return Some((SizeAt(dir[..], i), StartAt(dir[..], i)));
        }
      }
      i := i + 1;
    }
    found := None;
  }

  method EntryNamed(dir: array<byte>, i: nat, name: seq<byte>) returns (matches: bool)
    requires dir.Length == 512 && i < DIR_ENTRIES
    ensures matches <==> NameAt(dir[..], i) == Padded(name)
  {
    var base := i * ENT_SIZE;
    matches := true;
    ghost var padded := Padded(name);
    for x := 0 to NAME_LEN
      invariant matches <==> forall y :: 0 <= y < x ==> dir[base + y] == padded[y]
    {
      var want := if x < |name| then name[x] else 0;
      assert want == padded[x];
      matches := matches && dir[base + x] == want;
    }
    NameMatches(dir[..], i, padded);
  }

  lemma NameMatches(dir: Sector, i: nat, name: seq<byte>)
    requires i < DIR_ENTRIES && |name| == NAME_LEN
    ensures NameAt(dir, i) == name <==> forall y :: 0 <= y < NAME_LEN ==> dir[i * ENT_SIZE + y] == name[y]
  {
    var at := NameAt(dir, i);
    assert forall y :: 0 <= y < NAME_LEN ==> at[y] == dir[i * ENT_SIZE + y];
  }

  method FsRead(b: Blk, name: seq<byte>, out: array<byte>) returns (r: Option<nat>)
    modifies b, out
    ensures (b.View(), r) == Read(old(b.View()), name)
    ensures r.Some? ==> |b.sectors| > DIR_SECTOR && FindEntry(b.sectors[DIR_SECTOR], name, 0).Some?
    ensures r.Some? ==>
              var i := FindEntry(b.sectors[DIR_SECTOR], name, 0).value;
              out[..] == Output(b.sectors, StartAt(b.sectors[DIR_SECTOR], i), SizeAt(b.sectors[DIR_SECTOR], i),
                                old(out[..]))
  {
    hide FindEntry, ReadData, Output, Rd32;
    var dir := ZeroBuffer();
    var got := b.Transfer(DIR_SECTOR, false, dir);
    if !got {
      return None;
    }
    var found := FsFind(dir, name);
    if found.None? {
      return None;
    }
    var (size, start) := found.value;
    var ok := FetchData(b, start, size, out);
    r := if ok then Some(size) else None;
  }

  // The output buffer when the first `off` bytes of the file have been dealt with.
  ghost function Partial(sectors: seq<Sector>, start: nat, size: nat, before: seq<byte>, off: nat): (r: seq<byte>)
    ensures |r| == |before|
  {
    seq(|before|, k requires 0 <= k < |before| =>
      if k < off && Delivered(k, size, |before|) then ByteAt(sectors, start, k) else before[k])
  }

  lemma PartialStep(sectors: seq<Sector>, start: nat, size: nat, before: seq<byte>, off: nat, n: nat)
    requires off % SECTOR == 0 && off < size && n == Min(SECTOR, size - off) && start + off / SECTOR < |sectors|
    ensures Partial(sectors, start, size, before, off + n)
         == if off + n <= |before|
            then Splice(Partial(sectors, start, size, before, off), off, sectors[start + off / SECTOR][..n])
            else Partial(sectors, start, size, before, off)
  {
    var q := off / SECTOR;
    forall k: nat | off <= k < off + n
      ensures k / SECTOR == q && k % SECTOR == k - off && (Delivered(k, size, |before|) <==> off + n <= |before|)
    {
    }
    var next := Partial(sectors, start, size, before, off + n);
    var now := Partial(sectors, start, size, before, off);
    if off + n <= |before| {
      var spliced := Splice(now, off, sectors[start + q][..n]);
      assert forall k :: 0 <= k < |before| ==> next[k] == spliced[k];
    } else {
      assert forall k :: 0 <= k < |before| ==> next[k] == now[k];
    }
  }

  method FetchData(b: Blk, start: nat, size: nat, out: array<byte>) returns (ok: bool)
    modifies b, out
    ensures (b.View(), ok) == ReadData(old(b.View()), start, size)
    ensures ok ==> out[..] == Output(b.sectors, start, size, old(out[..]))
  {
    hide Partial, Output;
    var off := 0;
    var s := start;
    PartialEnds(b.sectors, start, size, out[..]);
    while off < size
      invariant off <= size && b.sectors == old(b.sectors) && (off < size ==> s == start + off / SECTOR)
      invariant off == size || off % SECTOR == 0
      invariant ReadData(b.View(), s, size - off) == ReadData(old(b.View()), start, size)
      invariant out[..] == Partial(b.sectors, start, size, old(out[..]), off)
    {
      var buf := ZeroBuffer();
      var got := b.Transfer(s, false, buf);
      if !got {
        return false;
      }
      var n := Min(SECTOR, size - off);
      CopyChunk(out, buf, start, size, off, n, b.sectors, old(out[..]));
      NextSector(off, n, size);
      off := off + n;
      s := s + 1;
    }
    ok := true;
  }

  // Copy one sector's share into the output if the whole of it fits.
  method CopyChunk(out: array<byte>, buf: array<byte>, ghost start: nat, size: nat, off: nat, n: nat,
                   ghost sectors: seq<Sector>, ghost before: seq<byte>)
    requires buf.Length == 512 && out != buf && off % SECTOR == 0 && off < size && n == Min(SECTOR, size - off)
    requires start + off / SECTOR < |sectors| && buf[..] == sectors[start + off / SECTOR]
    requires out[..] == Partial(sectors, start, size, before, off)
    modifies out
    ensures out[..] == Partial(sectors, start, size, before, off + n)
  {
    hide Partial;
    PartialStep(sectors, start, size, before, off, n);
    if off + n <= out.Length {
      CopyInto(out, off, buf[..n]);
    }
  }

  lemma NextSector(off: nat, n: nat, size: nat)
    requires off % SECTOR == 0 && off < size && n == Min(SECTOR, size - off)
    ensures off + n == size || ((off + n) % SECTOR == 0 && (off + n) / SECTOR == off / SECTOR + 1)
  {
  }

  lemma PartialEnds(sectors: seq<Sector>, start: nat, size: nat, before: seq<byte>)
    ensures Partial(sectors, start, size, before, 0) == before
    ensures Partial(sectors, start, size, before, size) == Output(sectors, start, size, before)
  {
  }

  // ----- The file service -----

  method ServeOne(b: Blk, op: u64, arg: u64) returns (r: nat)
    modifies b
    ensures (b.View(), r) == Serve(old(b.View()), op, arg)
  {
    hide FindEntry, Read, Rd32;
    var dir := ZeroBuffer();
    var got := b.Transfer(DIR_SECTOR, false, dir);
    if !got {
      return U64_MAX;
    }
    if op == OP_NFILES {
      r := CountUsed(dir);
    } else if op == OP_FSIZE {
      r := if arg >= DIR_ENTRIES || dir[arg * ENT_SIZE] == 0 then U64_MAX else SizeAt(dir[..], arg);
    } else if op == OP_NAMECH {
      var i, pos := arg / 0x100, arg % 0x100;
      r := if i >= DIR_ENTRIES || pos >= NAME_LEN || dir[i * ENT_SIZE] == 0 then 0 else dir[i * ENT_SIZE + pos];
    } else if op == OP_DATACH {
      var i, off := arg / 0x1_0000, arg % 0x1_0000;
      if i >= DIR_ENTRIES || dir[i * ENT_SIZE] == 0 {
        return 0;
      }
      assert dir[i * ENT_SIZE..i * ENT_SIZE + NAME_LEN] == NameAt(dir[..], i) by { SliceOfAll(dir[..], i); }
      r := ByteByName(b, dir[i * ENT_SIZE..i * ENT_SIZE + NAME_LEN], off);
    } else {
      r := U64_MAX;
    }
  }

  lemma SliceOfAll(dir: Sector, i: nat)
    requires i < DIR_ENTRIES
    ensures dir[i * ENT_SIZE..i * ENT_SIZE + NAME_LEN] == NameAt(dir, i)
  {
  }

  method CountUsed(dir: array<byte>) returns (n: nat)
    requires dir.Length == 512
    ensures n == UsedFrom(dir[..], 0)
  {
    n := 0;
    for i := 0 to DIR_ENTRIES
      invariant n + UsedFrom(dir[..], i) == UsedFrom(dir[..], 0)
    {
      if dir[i * ENT_SIZE] != 0 {
        n := n + 1;
      }
    }
  }

  method ByteByName(b: Blk, name: seq<byte>, off: nat) returns (r: nat)
    modifies b
    ensures (b.View(), r) == ServeByte(old(b.View()), name, off)
  {
    var buf := ZeroBuffer();
    var size := FsRead(b, name, buf);
    if size.Some? && off < size.value && off < buf.Length {
      r := buf[off];
    } else {
      r := 0;
    }
  }

  // The file whose name entry `i` carries, into `out`; nothing if the entry is free.
  method ReadByIndex(b: Blk, i: nat, out: array<byte>) returns (r: Option<nat>)
    modifies b, out
    ensures var (d, dir) := ReadSector(old(b.View()), DIR_SECTOR);
      if dir.None? || i >= DIR_ENTRIES || !Used(dir.value, i) then (b.View(), r) == (d, None)
      else (b.View(), r) == Read(d, NameAt(dir.value, i))
    ensures r.Some? ==> |b.sectors| > DIR_SECTOR && i < DIR_ENTRIES
    ensures r.Some? ==> FindEntry(b.sectors[DIR_SECTOR], NameAt(b.sectors[DIR_SECTOR], i), 0).Some?
    ensures r.Some? ==>
      var dir := b.sectors[DIR_SECTOR];
      var k := FindEntry(dir, NameAt(dir, i), 0).value;
      out[..] == Output(b.sectors, StartAt(dir, k), SizeAt(dir, k), old(out[..]))
  {
    hide FindEntry, Read, Rd32, Output;
    var dir := ZeroBuffer();
    var got := b.Transfer(DIR_SECTOR, false, dir);
    if !got || i >= DIR_ENTRIES || dir[i * ENT_SIZE] == 0 {
      return None;
    }
    assert dir[i * ENT_SIZE..i * ENT_SIZE + NAME_LEN] == NameAt(dir[..], i) by { SliceOfAll(dir[..], i); }
    r := FsRead(b, dir[i * ENT_SIZE..i * ENT_SIZE + NAME_LEN], out);
  }
}
