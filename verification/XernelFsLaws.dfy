// What XernelFS keeps: disjoint extents, untouched earlier files, and reading back
// what was created, over any history and any failures.
module XernelFsLaws {
  import opened Base
  import opened XernelFs

  // ----- Formatting -----

  lemma FormatOk(d: Disk)
    requires |d.sectors| == TOTAL_SECTORS
    ensures var (w, ok) := Format(d); ok ==> FsOk(w.sectors) && Files(w.sectors) == []
    ensures var (w, ok) := Format(d);
      ok ==> var sb := w.sectors[SB_SECTOR]; Rd32(sb, 8) == 1 && Rd32(sb, 12) == 2048 && Rd32(sb, 16) == 3
  {
    FreshSuperOk();
    SuperLayout();
    ZeroDirOk(DATA_START);
  }

  // Version, size and free pointer of a fresh superblock.
  lemma SuperLayout()
    ensures var sb := FreshSuper(); Rd32(sb, 8) == 1 && Rd32(sb, 12) == TOTAL_SECTORS && Rd32(sb, 16) == DATA_START
  {
    var s0 := Splice(ZeroSector(), 0, MAGIC);
    var s1 := Splice(s0, 8, Le32(1));
    var s2 := Splice(s1, 12, Le32(TOTAL_SECTORS));
    var s3 := Splice(s2, 16, Le32(DATA_START));
    Rd32OfLe32(s0, 8, 1);
    Rd32OfLe32(s1, 12, TOTAL_SECTORS);
    Rd32OfLe32(s2, 16, DATA_START);
    hide Word32, Le32;
    assert Rd32(s3, 8) == Rd32(s1, 8) && Rd32(s3, 12) == Rd32(s2, 12);
  }

  lemma FreshSuperOk()
    ensures FreshSuper()[..8] == MAGIC && NextFree(FreshSuper()) == DATA_START
  {
    var s := Splice(Splice(Splice(ZeroSector(), 0, MAGIC), 8, Le32(1)), 12, Le32(TOTAL_SECTORS));
    Rd32OfLe32(s, 16, DATA_START);
    assert forall i :: 0 <= i < 8 ==> FreshSuper()[i] == MAGIC[i];
  }

  lemma ZeroDirOk(next: nat)
    ensures DirOk(ZeroSector(), next) && FirstFree(ZeroSector(), 0) == 0
  {
    assert !Used(ZeroSector(), 0);
  }

  // ----- Writing the data -----

  lemma {:induction false} WriteDataFrame(d: Disk, s: nat, data: seq<byte>)
    ensures var (w, ok) := WriteData(d, s, data);
      && |w.sectors| == |d.sectors| && w.script == d.script && w.clock >= d.clock
      && (forall t :: 0 <= t < |d.sectors| && !(s <= t < s + DivCeil(|data|, SECTOR)) ==> w.sectors[t] == d.sectors[t])
    decreases |data|
  {
    hide Chunk;
    if data != [] {
      var (d1, ok) := WriteSector(d, s, Chunk(data));
      ChunkCount(|data|);
      if ok {
        WriteDataFrame(d1, s + 1, data[Min(SECTOR, |data|)..]);
      }
    }
  }

  lemma ChunkCount(size: nat)
    requires size > 0
    ensures DivCeil(size, SECTOR) == 1 + DivCeil(size - Min(SECTOR, size), SECTOR)
  {
  }

  lemma {:induction false} WriteDataContents(d: Disk, s: nat, data: seq<byte>)
    requires WriteData(d, s, data).1
    ensures ContentsAt(WriteData(d, s, data).0.sectors, s, |data|) == data
    decreases |data|
  {
    if data != [] {
      hide DivCeil;
      var d1 := WriteSector(d, s, Chunk(data)).0;
      var n := Min(SECTOR, |data|);
      WriteDataContents(d1, s + 1, data[n..]);
      WriteDataFrame(d1, s + 1, data[n..]);
      var w := WriteData(d1, s + 1, data[n..]).0;
      assert w.sectors[s] == Chunk(data);
      hide WriteData, WriteSector, Chunk;
      assert forall k :: 0 <= k < n ==> Chunk(data)[k] == data[k] by { ChunkHolds(data); }
      NextChunk(w.sectors, s, data);
    }
  }

  lemma ChunkHolds(data: seq<byte>)
    ensures forall k :: 0 <= k < Min(SECTOR, |data|) ==> Chunk(data)[k] == data[k]
  {
  }

  lemma NextChunk(sectors: seq<Sector>, s: nat, data: seq<byte>)
    requires s < |sectors| && data != [] && forall k :: 0 <= k < Min(SECTOR, |data|) ==> sectors[s][k] == data[k]
    requires ContentsAt(sectors, s + 1, |data| - Min(SECTOR, |data|)) == data[Min(SECTOR, |data|)..]
    ensures ContentsAt(sectors, s, |data|) == data
  {
    var rest := ContentsAt(sectors, s + 1, |data| - Min(SECTOR, |data|));
    forall k | 0 <= k < |data|
      ensures ByteAt(sectors, s, k) == data[k]
    {
      if k >= SECTOR {
        assert rest[k - SECTOR] == data[SECTOR..][k - SECTOR];
        assert ByteAt(sectors, s + 1, k - SECTOR) == rest[k - SECTOR];
        assert (k - SECTOR) / SECTOR + 1 == k / SECTOR && (k - SECTOR) % SECTOR == k % SECTOR;
      }
    }
  }

  lemma {:induction false} WriteDataWorks(d: Disk, s: nat, data: seq<byte>)
    requires s + DivCeil(|data|, SECTOR) <= |d.sectors| && forall n :: n >= d.clock ==> d.script(n) == Fine
    ensures WriteData(d, s, data).1
    decreases |data|
  {
    hide Chunk;
    if data != [] {
      ChunkCount(|data|);
      WriteDataWorks(WriteSector(d, s, Chunk(data)).0, s + 1, data[Min(SECTOR, |data|)..]);
    }
  }

  // ----- Filling an entry -----

  predicate SameEntry(a: Sector, b: Sector, i: nat)
    requires i < DIR_ENTRIES
  {
    && NameAt(a, i) == NameAt(b, i) && SizeAt(a, i) == SizeAt(b, i) && StartAt(a, i) == StartAt(b, i)
    && (Used(a, i) <==> Used(b, i))
  }

  // A free entry, all zero, takes the padded name and the two numbers; no other
  // entry changes, and the entry counts as used exactly when the name is findable.
  lemma FillEntryEffect(dir: Sector, slot: nat, name: seq<byte>, size: u32, start: u32)
    requires slot < DIR_ENTRIES && forall i :: slot * ENT_SIZE <= i < (slot + 1) * ENT_SIZE ==> dir[i] == 0
    ensures var w := FillEntry(dir, slot, name, size, start);
      && NameAt(w, slot) == Padded(name) && SizeAt(w, slot) == size && StartAt(w, slot) == start
      && (Used(w, slot) <==> NameOk(name))
      && (forall i: nat :: i < DIR_ENTRIES && i != slot ==> SameEntry(w, dir, i))
      && (forall i :: 0 <= i < |dir| && !(slot * ENT_SIZE <= i < (slot + 1) * ENT_SIZE) ==> w[i] == dir[i])
  {
    var base := slot * ENT_SIZE;
    var w := FillEntry(dir, slot, name, size, start);
    FilledNumbers(dir, slot, name, size, start);
    FilledBytes(dir, slot, name, size, start);
    FilledName(dir, w, slot, name);
    hide FillEntry, Padded, Rd32;
    forall i: nat | i < DIR_ENTRIES && i != slot
      ensures SameEntry(w, dir, i)
    {
      EntryByBytes(w, dir, i);
    }
  }

  lemma FilledBytes(dir: Sector, slot: nat, name: seq<byte>, size: u32, start: u32)
    requires slot < DIR_ENTRIES
    ensures var w := FillEntry(dir, slot, name, size, start);
      && (forall i :: 0 <= i < |dir| && !(slot * ENT_SIZE <= i < (slot + 1) * ENT_SIZE) ==> w[i] == dir[i])
      && (forall j :: slot * ENT_SIZE <= j < slot * ENT_SIZE + NAME_LEN ==>
            w[j] == if j - slot * ENT_SIZE < |name| then name[j - slot * ENT_SIZE] else dir[j])
  {
    hide Le32;
  }

  lemma FilledNumbers(dir: Sector, slot: nat, name: seq<byte>, size: u32, start: u32)
    requires slot < DIR_ENTRIES
    ensures var w := FillEntry(dir, slot, name, size, start); SizeAt(w, slot) == size && StartAt(w, slot) == start
  {
    hide Le32;
    var base := slot * ENT_SIZE;
    var named := Splice(dir, base, name[..Min(NAME_LEN, |name|)]);
    var sized := Splice(named, base + 24, Le32(size));
    Rd32OfLe32(named, base + 24, size);
    Rd32OfLe32(sized, base + 28, start);
  }

  lemma FilledName(dir: Sector, w: Sector, slot: nat, name: seq<byte>)
    requires slot < DIR_ENTRIES && forall i :: slot * ENT_SIZE <= i < (slot + 1) * ENT_SIZE ==> dir[i] == 0
    requires forall j :: slot * ENT_SIZE <= j < slot * ENT_SIZE + NAME_LEN ==>
               w[j] == if j - slot * ENT_SIZE < |name| then name[j - slot * ENT_SIZE] else dir[j]
    ensures NameAt(w, slot) == Padded(name) && (Used(w, slot) <==> NameOk(name))
  {
    var base := slot * ENT_SIZE;
    forall i | 0 <= i < NAME_LEN
      ensures NameAt(w, slot)[i] == Padded(name)[i]
    {
      assert w[base + i] == if i < |name| then name[i] else dir[base + i];
    }
    assert w[base] == if 0 < |name| then name[0] else dir[base];
  }

  lemma EntryByBytes(a: Sector, b: Sector, i: nat)
    requires i < DIR_ENTRIES && forall k :: i * ENT_SIZE <= k < (i + 1) * ENT_SIZE ==> a[k] == b[k]
    ensures SameEntry(a, b, i)
  {
    assert NameAt(a, i) == NameAt(b, i);
  }

  // ----- Creating -----

  // The creation failed and the directory does not show it.
  predicate NotEntered(d: Disk, w: Disk, stage: Stage) {
    && stage != SuperLost && stage != Created && |d.sectors| == |w.sectors| == TOTAL_SECTORS
    && w.sectors[DIR_SECTOR] == d.sectors[DIR_SECTOR]
  }

  lemma SameFiles(u: seq<Sector>, v: seq<Sector>)
    requires FsOk(u) && |v| == TOTAL_SECTORS && v[SB_SECTOR] == u[SB_SECTOR] && v[DIR_SECTOR] == u[DIR_SECTOR]
    requires forall t: nat :: DATA_START <= t < NextFree(u[SB_SECTOR]) ==> v[t] == u[t]
    ensures FsOk(v) && Files(v) == Files(u)
  {
    var dir := u[DIR_SECTOR];
    forall i: nat | i < FirstFree(dir, 0)
      ensures Files(v)[i] == Files(u)[i]
    {
      SameContents(u, v, StartAt(dir, i), SizeAt(dir, i), NextFree(u[SB_SECTOR]));
    }
  }

  lemma SameContents(u: seq<Sector>, v: seq<Sector>, start: nat, size: nat, next: nat)
    requires |u| == |v| && DATA_START <= start && start + DivCeil(size, SECTOR) <= next <= |u|
    requires forall t: nat :: DATA_START <= t < next ==> v[t] == u[t]
    ensures ContentsAt(v, start, size) == ContentsAt(u, start, size)
  {
    forall k | 0 <= k < size
      ensures ByteAt(v, start, k) == ByteAt(u, start, k)
    {
    }
  }

  // What a creation does to the sectors, by how far it got.
  lemma CreateSectors(d: Disk, name: seq<byte>, data: seq<byte>)
    requires |d.sectors| == TOTAL_SECTORS && DATA_START <= NextFree(d.sectors[SB_SECTOR]) <= TOTAL_SECTORS
    ensures var (w, stage) := Create(d, name, data);
      var next := NextFree(d.sectors[SB_SECTOR]);
      var dir := d.sectors[DIR_SECTOR];
      && |w.sectors| == TOTAL_SECTORS && w.script == d.script && w.clock >= d.clock
      && (forall t: nat :: DATA_START <= t < next ==> w.sectors[t] == d.sectors[t])
      && (stage != SuperLost && stage != Created ==> w.sectors[SB_SECTOR] == d.sectors[SB_SECTOR])
      && (stage != SuperLost && stage != Created && stage != DirectoryLost ==> w.sectors[DIR_SECTOR] == dir)
      && (stage == SuperLost || stage == Created ==>
            && FirstFree(dir, 0) < DIR_ENTRIES && next + DivCeil(|data|, SECTOR) <= TOTAL_SECTORS
            && w.sectors[DIR_SECTOR] == FillEntry(dir, FirstFree(dir, 0), name, |data|, next)
            && ContentsAt(w.sectors, next, |data|) == data)
      && (stage == Created ==>
            w.sectors[SB_SECTOR] == Splice(d.sectors[SB_SECTOR], 16, Le32(next + DivCeil(|data|, SECTOR))))
  {
    hide FillEntry, FirstFree, DirOk, WriteData;
    var sb, dir := d.sectors[SB_SECTOR], d.sectors[DIR_SECTOR];
    var next := NextFree(sb);
    var d2 := ReadSector(ReadSector(d, SB_SECTOR).0, DIR_SECTOR).0;
    if next + DivCeil(|data|, SECTOR) <= TOTAL_SECTORS {
      WriteDataFrame(d2, next, data);
      var w := Create(d, name, data).0;
      if Create(d, name, data).1 == SuperLost || Create(d, name, data).1 == Created {
        var d3 := WriteData(d2, next, data).0;
        WriteDataContents(d2, next, data);
        SameContents(d3.sectors, w.sectors, next, |data|, TOTAL_SECTORS);
      }
    }
  }

  // A creation that fails because the directory or the disk is full, or on any
  // transfer before the directory write takes effect, leaves every file alone.
  lemma FailureIsSafe(d: Disk, name: seq<byte>, data: seq<byte>)
    requires FsOk(d.sectors)
    ensures var (w, stage) := Create(d, name, data);
      && (stage != SuperLost && stage != Created && stage != DirectoryLost ==> NotEntered(d, w, stage))
      && (NotEntered(d, w, stage) ==> FsOk(w.sectors) && Files(w.sectors) == Files(d.sectors))
  {
    FilesLength(d);
    hide Create, FsOk;
    CreateSectors(d, name, data);
    var (w, stage) := Create(d, name, data);
    if NotEntered(d, w, stage) {
      SameFiles(d.sectors, w.sectors);
    }
  }

  // The new entry in a sound directory.
  lemma NewEntryOk(u: seq<Sector>, v: seq<Sector>, name: seq<byte>, data: seq<byte>)
    requires FsOk(u) && |v| == TOTAL_SECTORS && FirstFree(u[DIR_SECTOR], 0) < DIR_ENTRIES
    requires NextFree(u[SB_SECTOR]) + DivCeil(|data|, SECTOR) <= TOTAL_SECTORS
    requires v[DIR_SECTOR]
             == FillEntry(u[DIR_SECTOR], FirstFree(u[DIR_SECTOR], 0), name, |data|, NextFree(u[SB_SECTOR]))
    requires forall t: nat :: DATA_START <= t < NextFree(u[SB_SECTOR]) ==> v[t] == u[t]
    requires ContentsAt(v, NextFree(u[SB_SECTOR]), |data|) == data
    ensures Files(v) == if NameOk(name) then Files(u) + [File(Padded(name), data)] else Files(u)
    ensures forall next: nat ::
              DirOk(v[DIR_SECTOR], next) <==> NameOk(name) && NextFree(u[SB_SECTOR]) + DivCeil(|data|, SECTOR) <= next
  {
    hide FillEntry;
    var dir, w := u[DIR_SECTOR], v[DIR_SECTOR];
    var n := FirstFree(dir, 0);
    FillEntryEffect(dir, n, name, |data|, NextFree(u[SB_SECTOR]));
    assert forall i: nat :: i < n ==> SameEntry(w, dir, i);
    NewFirstFree(dir, w, n, name, |data|, NextFree(u[SB_SECTOR]));
    NewDirOk(dir, w, n, name, |data|, NextFree(u[SB_SECTOR]));
    forall i: nat | i < n
      ensures Files(v)[i] == Files(u)[i]
    {
      assert SameEntry(w, dir, i);
      SameContents(u, v, StartAt(dir, i), SizeAt(dir, i), NextFree(u[SB_SECTOR]));
    }
  }

  // `w` differs from `dir` in entry n, which was free and now holds this name, size and start.
  ghost predicate EntryAdded(dir: Sector, w: Sector, n: nat, name: seq<byte>, size: u32, start: u32) {
    && n == FirstFree(dir, 0) < DIR_ENTRIES
    && SizeAt(w, n) == size && StartAt(w, n) == start && (Used(w, n) <==> NameOk(name))
    && (forall i: nat :: i < DIR_ENTRIES && i != n ==> SameEntry(w, dir, i))
    && (forall i :: 0 <= i < |dir| && !(n * ENT_SIZE <= i < (n + 1) * ENT_SIZE) ==> w[i] == dir[i])
  }

  lemma NewFirstFree(dir: Sector, w: Sector, n: nat, name: seq<byte>, size: u32, start: u32)
    requires EntryAdded(dir, w, n, name, size, start) && forall i :: n * ENT_SIZE <= i < |dir| ==> dir[i] == 0
    ensures FirstFree(w, 0) == if NameOk(name) then n + 1 else n
  {
    forall i: nat | i < n
      ensures Used(w, i)
    {
      assert SameEntry(w, dir, i);
    }
    if n + 1 < DIR_ENTRIES {
      assert dir[(n + 1) * ENT_SIZE] == 0;
      assert SameEntry(w, dir, n + 1);
      assert !Used(w, n + 1);
    }
    assert NameOk(name) <==> Used(w, n);
  }

  lemma NewDirOk(dir: Sector, w: Sector, n: nat, name: seq<byte>, size: u32, start: u32)
    requires DirOk(dir, start) && EntryAdded(dir, w, n, name, size, start) && start >= DATA_START
    ensures forall next: nat :: DirOk(w, next) <==> NameOk(name) && start + DivCeil(size, SECTOR) <= next
  {
    NewFirstFree(dir, w, n, name, size, start);
    hide FirstFree, NameAt;
    if NameOk(name) {
      forall next: nat
        ensures DirOk(w, next) <==> start + DivCeil(size, SECTOR) <= next
      {
        NamedDirOk(dir, w, n, name, size, start, next);
      }
    } else {
      var base := n * ENT_SIZE + 28;
      assert w[base] != 0 || w[base + 1] != 0 || w[base + 2] != 0 || w[base + 3] != 0;
    }
  }

  lemma NamedDirOk(dir: Sector, w: Sector, n: nat, name: seq<byte>, size: u32, start: u32, next: nat)
    requires DirOk(dir, start) && EntryAdded(dir, w, n, name, size, start) && start >= DATA_START
    requires NameOk(name) && FirstFree(w, 0) == n + 1
    ensures DirOk(w, next) <==> start + DivCeil(size, SECTOR) <= next
  {
    hide NameAt, Rd32, DivCeil;
    assert EndAt(w, n) == start + DivCeil(size, SECTOR);
    assert forall i: nat :: i < n ==> SameEntry(w, dir, i);
    forall i: nat | i < n
      ensures EndAt(w, i) == EndAt(dir, i) && StartAt(w, i) == StartAt(dir, i)
    {
      assert SameEntry(w, dir, i);
    }
    if start + DivCeil(size, SECTOR) <= next {
      assert forall i: nat :: i < n + 1 ==> DATA_START <= StartAt(w, i) && EndAt(w, i) <= next;
      assert forall i: nat, j: nat :: i < j < n + 1 ==> EndAt(w, i) <= StartAt(w, j);
      assert forall i :: (n + 1) * ENT_SIZE <= i < |w| ==> w[i] == dir[i];
    }
  }

  // A creation that reports success keeps the file system sound, and its file
  // listed, exactly when its name is findable.
  lemma CreatedIff(d: Disk, name: seq<byte>, data: seq<byte>)
    requires FsOk(d.sectors) && Create(d, name, data).1 == Created
    ensures var w := Create(d, name, data).0;
      && |w.sectors| == TOTAL_SECTORS
      && (FsOk(w.sectors) <==> NameOk(name))
      && Files(w.sectors) == if NameOk(name) then Files(d.sectors) + [File(Padded(name), data)] else Files(d.sectors)
  {
    hide Create, FillEntry, DirOk;
    CreateSectors(d, name, data);
    var w := Create(d, name, data).0;
    var sb, next := d.sectors[SB_SECTOR], NextFree(d.sectors[SB_SECTOR]) + DivCeil(|data|, SECTOR);
    NewEntryOk(d.sectors, w.sectors, name, data);
    Rd32OfLe32(sb, 16, next);
    assert w.sectors[SB_SECTOR][..8] == sb[..8];
  }

  // When only the last write fails, the file is listed but the free pointer may
  // not cover it: the file system is sound exactly when the superblock says so.
  lemma SuperLostIff(d: Disk, name: seq<byte>, data: seq<byte>)
    requires FsOk(d.sectors) && Create(d, name, data).1 == SuperLost && NameOk(name)
    ensures var w := Create(d, name, data).0;
      && |w.sectors| == TOTAL_SECTORS
      && Files(w.sectors) == Files(d.sectors) + [File(Padded(name), data)]
      && (FsOk(w.sectors) <==>
            && w.sectors[SB_SECTOR][..8] == MAGIC
            && NextFree(d.sectors[SB_SECTOR]) + DivCeil(|data|, SECTOR) <= NextFree(w.sectors[SB_SECTOR])
            && NextFree(w.sectors[SB_SECTOR]) <= TOTAL_SECTORS)
      && (w.sectors[SB_SECTOR] == d.sectors[SB_SECTOR] ==> (FsOk(w.sectors) <==> data == []))
  {
    hide Create, FillEntry, DirOk;
    CreateSectors(d, name, data);
    NewEntryOk(d.sectors, Create(d, name, data).0.sectors, name, data);
  }

  // A creation whose last write is lost without a trace, followed by one that works.
  ghost predicate LostCommit(d: Disk, name: seq<byte>, data: seq<byte>, name2: seq<byte>, data2: seq<byte>) {
    && FsOk(d.sectors) && NameOk(name) && NameOk(name2) && data != [] && data2 != []
    && var (w, stage) := Create(d, name, data);
       && stage == SuperLost && |w.sectors| == TOTAL_SECTORS && w.sectors[SB_SECTOR] == d.sectors[SB_SECTOR]
       && Create(w, name2, data2).1 == Created
  }

  // With the old free pointer still in force, the next file overwrites the first
  // byte of the one whose commit was lost.
  lemma LostCommitOverwrites(d: Disk, name: seq<byte>, data: seq<byte>, name2: seq<byte>, data2: seq<byte>)
    requires LostCommit(d, name, data, name2, data2)
    ensures var w2 := Create(Create(d, name, data).0, name2, data2).0;
      var lost := |Files(d.sectors)|;
      && |w2.sectors| == TOTAL_SECTORS
      && lost < |Files(w2.sectors)|
      && Files(w2.sectors)[lost].name == Padded(name) && |Files(w2.sectors)[lost].data| == |data|
      && Files(w2.sectors)[lost].data[0] == data2[0]
  {
    hide Create, FillEntry, DirOk, Rd32;
    var w := Create(d, name, data).0;
    var w2 := Create(w, name2, data2).0;
    var next := NextFree(d.sectors[SB_SECTOR]);
    var dir := w.sectors[DIR_SECTOR];
    CreateSectors(d, name, data);
    CreateSectors(w, name2, data2);
    SuperLostIff(d, name, data);
    SecondEntry(d.sectors[DIR_SECTOR], dir, w2.sectors[DIR_SECTOR], next, name, |data|, name2, |data2|);
    assert ContentsAt(w2.sectors, next, |data2|)[0] == data2[0];
    assert ByteAt(w2.sectors, next, 0) == data2[0];
  }

  lemma SecondEntry(dir: Sector, dir1: Sector, dir2: Sector, next: u32, name: seq<byte>, size: u32, name2: seq<byte>,
                    size2: u32)
    requires DirOk(dir, next) && next >= DATA_START && NameOk(name) && NameOk(name2)
    requires FirstFree(dir, 0) < DIR_ENTRIES && dir1 == FillEntry(dir, FirstFree(dir, 0), name, size, next)
    requires FirstFree(dir1, 0) < DIR_ENTRIES && dir2 == FillEntry(dir1, FirstFree(dir1, 0), name2, size2, next)
    ensures var n := FirstFree(dir, 0);
      && FirstFree(dir2, 0) == n + 2
      && NameAt(dir2, n) == Padded(name) && SizeAt(dir2, n) == size && StartAt(dir2, n) == next
  {
    hide FillEntry;
    var n := FirstFree(dir, 0);
    FillEntryEffect(dir, n, name, size, next);
    NewFirstFree(dir, dir1, n, name, size, next);
    FillEntryEffect(dir1, n + 1, name2, size2, next);
    NewDirOk(dir, dir1, n, name, size, next);
    assert DirOk(dir1, next + DivCeil(size, SECTOR));
    NewFirstFree(dir1, dir2, n + 1, name2, size2, next);
    assert SameEntry(dir2, dir1, n);
  }

  // A name without a findable first byte is never found, whatever the directory.
  lemma {:induction false} BadNameNeverFound(dir: Sector, name: seq<byte>, i: nat)
    requires i <= DIR_ENTRIES && !NameOk(name)
    ensures FindEntry(dir, name, i).None?
    decreases DIR_ENTRIES - i
  {
    if i < DIR_ENTRIES {
      assert NameAt(dir, i)[0] == dir[i * ENT_SIZE] && Padded(name)[0] == 0;
      BadNameNeverFound(dir, name, i + 1);
    }
  }

  // The entry such a file was given counts as free, so the next file gets it, but
  // what the new name does not cover of the old one stays in it.
  lemma BadNameRemains(d: Disk, bad: seq<byte>, data: seq<byte>, name: seq<byte>, data2: seq<byte>)
    requires FsOk(d.sectors) && !NameOk(bad) && NameOk(name)
    requires Create(d, bad, data).1 == Created && Create(Create(d, bad, data).0, name, data2).1 == Created
    ensures var w := Create(Create(d, bad, data).0, name, data2).0;
      var n := |Files(d.sectors)|;
      && |w.sectors| == TOTAL_SECTORS && n < DIR_ENTRIES
      && NameAt(w.sectors[DIR_SECTOR], n) == MixedName(name, bad)
  {
    hide Create, FillEntry, DirOk, Rd32;
    var v := Create(d, bad, data).0;
    var w := Create(v, name, data2).0;
    CreateSectors(d, bad, data);
    var dir, dir1 := d.sectors[DIR_SECTOR], v.sectors[DIR_SECTOR];
    var n := FirstFree(dir, 0);
    FreePointerMoves(d, bad, data);
    CreateSectors(v, name, data2);
    SlotStaysFree(dir, n, bad, |data|, NextFree(d.sectors[SB_SECTOR]));
    FilledBytes(dir1, n, name, |data2|, NextFree(v.sectors[SB_SECTOR]));
    hide MixedName, NameAt;
    RemainsInName(dir1, w.sectors[DIR_SECTOR], n, name, bad);
  }

  lemma RemainsInName(dir: Sector, w: Sector, n: nat, name: seq<byte>, bad: seq<byte>)
    requires n < DIR_ENTRIES && NameAt(dir, n) == Padded(bad)
    requires forall j :: n * ENT_SIZE <= j < n * ENT_SIZE + NAME_LEN ==>
               w[j] == if j - n * ENT_SIZE < |name| then name[j - n * ENT_SIZE] else dir[j]
    ensures NameAt(w, n) == MixedName(name, bad)
  {
    hide Padded;
    var named := NameAt(w, n);
    forall k: nat | k < NAME_LEN
      ensures named[k] == MixedName(name, bad)[k]
    {
      assert NameAt(dir, n)[k] == dir[n * ENT_SIZE + k];
    }
  }

  // A name written over the remains of another.
  function MixedName(name: seq<byte>, left: seq<byte>): (r: seq<byte>)
    ensures |r| == NAME_LEN
  {
    seq(NAME_LEN, k requires 0 <= k < NAME_LEN => if k < |name| then name[k] else Padded(left)[k])
  }

  lemma FreePointerMoves(d: Disk, name: seq<byte>, data: seq<byte>)
    requires FsOk(d.sectors) && Create(d, name, data).1 == Created
    ensures var w := Create(d, name, data).0;
      && |w.sectors| == TOTAL_SECTORS
      && NextFree(w.sectors[SB_SECTOR]) == NextFree(d.sectors[SB_SECTOR]) + DivCeil(|data|, SECTOR) <= TOTAL_SECTORS
  {
    hide Create, FillEntry, DirOk;
    CreateSectors(d, name, data);
    Rd32OfLe32(d.sectors[SB_SECTOR], 16, NextFree(d.sectors[SB_SECTOR]) + DivCeil(|data|, SECTOR));
  }

  lemma SlotStaysFree(dir: Sector, n: nat, bad: seq<byte>, size: u32, start: u32)
    requires DirOk(dir, start) && n == FirstFree(dir, 0) < DIR_ENTRIES && !NameOk(bad)
    ensures var w := FillEntry(dir, n, bad, size, start);
      FirstFree(w, 0) == n && NameAt(w, n) == Padded(bad)
  {
    hide FillEntry;
    FillEntryEffect(dir, n, bad, size, start);
    NewFirstFree(dir, FillEntry(dir, n, bad, size, start), n, bad, size, start);
  }

  // It does happen: on any sound disk with room for two more files, when the fifth
  // request of a one-sector creation is lost and all later ones are good.
  lemma LostCommitHappens(d: Disk, name: seq<byte>, data: seq<byte>, name2: seq<byte>, data2: seq<byte>)
    requires FsOk(d.sectors) && |Files(d.sectors)| + 1 < DIR_ENTRIES
    requires NameOk(name) && NameOk(name2) && 0 < |data| <= SECTOR && data2 != []
    requires NextFree(d.sectors[SB_SECTOR]) + 1 <= TOTAL_SECTORS
    requires NextFree(d.sectors[SB_SECTOR]) + DivCeil(|data2|, SECTOR) <= TOTAL_SECTORS
    requires forall n :: n >= d.clock ==> d.script(n) == if n == d.clock + 4 then Fails(None) else Fine
    ensures LostCommit(d, name, data, name2, data2)
  {
    CommitIsLost(d, name, data);
    hide Create, FillEntry, DirOk, Rd32;
    var w := Create(d, name, data).0;
    var dir, next := d.sectors[DIR_SECTOR], NextFree(d.sectors[SB_SECTOR]);
    CreateSectors(d, name, data);
    FillEntryEffect(dir, FirstFree(dir, 0), name, |data|, next);
    NewFirstFree(dir, w.sectors[DIR_SECTOR], FirstFree(dir, 0), name, |data|, next);
    CreatedOnFineDisk(w, name2, data2);
  }

  lemma CommitIsLost(d: Disk, name: seq<byte>, data: seq<byte>)
    requires FsOk(d.sectors) && 0 < |data| <= SECTOR && |Files(d.sectors)| < DIR_ENTRIES
    requires NextFree(d.sectors[SB_SECTOR]) + 1 <= TOTAL_SECTORS
    requires forall n :: n >= d.clock ==> d.script(n) == if n == d.clock + 4 then Fails(None) else Fine
    ensures var (w, stage) := Create(d, name, data);
      && stage == SuperLost && |w.sectors| == TOTAL_SECTORS && w.sectors[SB_SECTOR] == d.sectors[SB_SECTOR]
      && w.clock == d.clock + 5 && w.script == d.script
  {
    hide FillEntry, DirOk, Chunk;
    var next := NextFree(d.sectors[SB_SECTOR]);
    var d2 := ReadSector(ReadSector(d, SB_SECTOR).0, DIR_SECTOR).0;
    assert DivCeil(|data|, SECTOR) == 1;
    assert WriteData(d2, next, data) == WriteSector(d2, next, Chunk(data)) by { OneChunk(d2, next, data); }
    hide WriteData;
  }

  lemma OneChunk(d: Disk, s: nat, data: seq<byte>)
    requires 0 < |data| <= SECTOR
    ensures WriteData(d, s, data) == WriteSector(d, s, Chunk(data))
  {
    hide Chunk, WriteSector;
    assert data[Min(SECTOR, |data|)..] == [];
  }

  // Such a disk: freshly formatted, its fifth request from now lost.
  lemma LostCommitExists()
    ensures exists d, name, data, name2, data2 :: LostCommit(d, name, data, name2, data2)
  {
    var blank: seq<Sector> := seq(TOTAL_SECTORS, _ => ZeroSector());
    var d := Disk(blank[SB_SECTOR := FreshSuper()], 0, n => if n == 4 then Fails(None) else Fine);
    FreshSuperOk();
    ZeroDirOk(DATA_START);
    hide Create, FreshSuper, ZeroSector, DirOk;
    LostCommitHappens(d, [1], [1], [2], [2]);
  }

  // With all requests good, an open disk with a free entry and room takes the file.
  lemma CreatedOnFineDisk(d: Disk, name: seq<byte>, data: seq<byte>)
    requires |d.sectors| == TOTAL_SECTORS && d.sectors[SB_SECTOR][..8] == MAGIC
    requires FirstFree(d.sectors[DIR_SECTOR], 0) < DIR_ENTRIES
    requires NextFree(d.sectors[SB_SECTOR]) + DivCeil(|data|, SECTOR) <= TOTAL_SECTORS
    requires forall n :: n >= d.clock ==> d.script(n) == Fine
    ensures Create(d, name, data).1 == Created
  {
    hide FillEntry, WriteData;
    var next := NextFree(d.sectors[SB_SECTOR]);
    var d2 := ReadSector(ReadSector(d, SB_SECTOR).0, DIR_SECTOR).0;
    WriteDataWorks(d2, next, data);
    WriteDataFrame(d2, next, data);
  }

  // Without transfer errors a creation succeeds exactly when there is room.
  lemma CreatesIfRoom(d: Disk, name: seq<byte>, data: seq<byte>)
    requires FsOk(d.sectors) && forall n :: n >= d.clock ==> d.script(n) == Fine
    ensures Create(d, name, data).1 == Created <==>
              && |Files(d.sectors)| < DIR_ENTRIES
              && NextFree(d.sectors[SB_SECTOR]) + DivCeil(|data|, SECTOR) <= TOTAL_SECTORS
  {
    hide FillEntry, DirOk, WriteData;
    if FirstFree(d.sectors[DIR_SECTOR], 0) < DIR_ENTRIES
       && NextFree(d.sectors[SB_SECTOR]) + DivCeil(|data|, SECTOR) <= TOTAL_SECTORS {
      CreatedOnFineDisk(d, name, data);
    }
  }

  // ----- Reading -----

  // `files` are named after the used entries, which come first.
  ghost predicate Lists(dir: Sector, files: seq<File>) {
    && |files| <= DIR_ENTRIES
    && (forall k: nat :: k < |files| ==> Used(dir, k) && files[k].name == NameAt(dir, k))
    && (forall k :: |files| * ENT_SIZE <= k < |dir| ==> dir[k] == 0)
  }

  lemma {:induction false} FindListed(dir: Sector, files: seq<File>, name: seq<byte>, i: nat)
    requires Lists(dir, files) && i <= |files|
    ensures var found := FindEntry(dir, name, i);
      && (found.None? <==> Lookup(files[i..], name).None?)
      && (found.Some? ==> found.value < |files| && Lookup(files[i..], name) == Some(files[found.value]))
    decreases DIR_ENTRIES - i
  {
    if i < |files| {
      FindListed(dir, files, name, i + 1);
      assert files[i..][0] == files[i] && files[i..][1..] == files[i + 1..];
      assert Used(dir, i) && files[i].name == NameAt(dir, i);
      hide Lists, Padded, NameAt, Used;
    } else {
      NothingBeyond(dir, name, i);
    }
  }

  lemma FilesListed(sectors: seq<Sector>)
    requires FsOk(sectors)
    ensures Lists(sectors[DIR_SECTOR], Files(sectors))
  {
    hide ContentsAt, Rd32;
  }

  lemma FindIsLookup(sectors: seq<Sector>, name: seq<byte>)
    requires FsOk(sectors)
    ensures var found := FindEntry(sectors[DIR_SECTOR], name, 0);
      var files := Files(sectors);
      && (found.None? <==> Lookup(files, name).None?)
      && (found.Some? ==> found.value < |files| && Lookup(files, name) == Some(files[found.value]))
  {
    FilesListed(sectors);
    hide Files, Lists, FindEntry, Lookup;
    FindListed(sectors[DIR_SECTOR], Files(sectors), name, 0);
    assert Files(sectors)[0..] == Files(sectors);
  }

  lemma {:induction false} NothingBeyond(dir: Sector, name: seq<byte>, i: nat)
    requires i <= DIR_ENTRIES && forall k :: i * ENT_SIZE <= k < |dir| ==> dir[k] == 0
    ensures FindEntry(dir, name, i).None?
    decreases DIR_ENTRIES - i
  {
    if i < DIR_ENTRIES {
      assert !Used(dir, i);
      NothingBeyond(dir, name, i + 1);
    }
  }

  lemma {:induction false} ReadDataWorks(d: Disk, s: nat, size: nat)
    requires s + DivCeil(size, SECTOR) <= |d.sectors| && forall n :: n >= d.clock ==> d.script(n) == Fine
    ensures ReadData(d, s, size).1
    decreases size
  {
    if size > 0 {
      ReadDataWorks(ReadSector(d, s).0, s + 1, size - Min(SECTOR, size));
    }
  }

  // A read reports the first file listed under the name; it reports nothing when
  // there is none, and otherwise fails only on a transfer error.
  lemma ReadIsLookup(d: Disk, name: seq<byte>)
    requires FsOk(d.sectors)
    ensures var r := Read(d, name).1;
      var found := Lookup(Files(d.sectors), name);
      && (r.Some? ==> found.Some? && r.value == |found.value.data|)
      && ((forall n :: n >= d.clock ==> d.script(n) == Fine) ==> (r.Some? <==> found.Some?))
  {
    var files := Files(d.sectors);
    FindIsLookup(d.sectors, name);
    var dir := d.sectors[DIR_SECTOR];
    var found := FindEntry(dir, name, 0);
    if found.Some? && forall n :: n >= d.clock ==> d.script(n) == Fine {
      var d1 := ReadSector(d, DIR_SECTOR).0;
      assert EndAt(dir, found.value) <= NextFree(d.sectors[SB_SECTOR]);
      ReadDataWorks(d1, StartAt(dir, found.value), SizeAt(dir, found.value));
    }
  }

  // With enough room a read delivers exactly the file's bytes and nothing else.
  lemma ReadDelivers(d: Disk, name: seq<byte>, before: seq<byte>)
    requires FsOk(d.sectors) && Lookup(Files(d.sectors), name).Some?
    requires |Lookup(Files(d.sectors), name).value.data| <= |before|
    ensures var data := Lookup(Files(d.sectors), name).value.data;
      var dir := d.sectors[DIR_SECTOR];
      var i := FindEntry(dir, name, 0);
      i.Some? && Output(d.sectors, StartAt(dir, i.value), SizeAt(dir, i.value), before) == data + before[|data|..]
  {
    LookupIsEntry(d, name);
    hide Lookup, FindEntry, FsOk, Files;
    var dir := d.sectors[DIR_SECTOR];
    var i := FindEntry(dir, name, 0).value;
    OutputIsContents(d.sectors, StartAt(dir, i), SizeAt(dir, i), before);
  }

  lemma LookupIsEntry(d: Disk, name: seq<byte>)
    requires FsOk(d.sectors)
    ensures var dir := d.sectors[DIR_SECTOR];
      var i, found := FindEntry(dir, name, 0), Lookup(Files(d.sectors), name);
      && (i.Some? <==> found.Some?)
      && (i.Some? ==> found.value.data == ContentsAt(d.sectors, StartAt(dir, i.value), SizeAt(dir, i.value)))
  {
    hide FindEntry, Lookup;
    FindIsLookup(d.sectors, name);
  }

  lemma OutputIsContents(sectors: seq<Sector>, start: nat, size: nat, before: seq<byte>)
    ensures size <= |before| ==>
              Output(sectors, start, size, before) == ContentsAt(sectors, start, size) + before[size..]
    ensures forall k :: 0 <= k < size && k < SECTOR && |before| == SECTOR ==>
              Output(sectors, start, size, before)[k] == ContentsAt(sectors, start, size)[k]
  {
    var out := Output(sectors, start, size, before);
    if size <= |before| {
      assert forall k :: 0 <= k < |before| ==> out[k] == (ContentsAt(sectors, start, size) + before[size..])[k];
    }
  }

  // What a client of the file service is told about a sound file system: the
  // number of files, and each file's size, name and first sector of contents,
  // the contents being those of the first file with the same name.
  lemma ServeTellsTruth(d: Disk, op: u64, arg: u64)
    requires FsOk(d.sectors) && forall n :: n >= d.clock ==> d.script(n) == Fine
    ensures var files := Files(d.sectors);
      var r := Serve(d, op, arg).1;
      && Serve(d, op, arg).0.sectors == d.sectors
      && (op == OP_NFILES ==> r == |files|)
      && (op == OP_FSIZE ==> r == if arg < |files| then |files[arg].data| else U64_MAX)
      && (op == OP_NAMECH ==>
            r == if arg / 0x100 < |files| && arg % 0x100 < NAME_LEN && arg % 0x100 < |files[arg / 0x100].name|
                 then files[arg / 0x100].name[arg % 0x100] else 0)
      && (op == OP_DATACH ==>
            var i, off := arg / 0x1_0000, arg % 0x1_0000;
            if i >= |files| || Lookup(files, files[i].name).None? then r == 0 && i >= |files|
            else
              var data := Lookup(files, files[i].name).value.data;
              r == if off < |data| && off < SECTOR then data[off] else 0)
  {
    var i := arg / 0x1_0000;
    if op == OP_NFILES {
      CountTruth(d, arg);
    } else if op == OP_FSIZE {
      SizeTruth(d, arg);
    } else if op == OP_NAMECH {
      NameTruth(d, arg);
    } else if op == OP_DATACH {
      DataTruth(d, arg);
    } else {
      hide ServeByte, UsedFrom;
      assert Serve(d, op, arg).0.sectors == d.sectors;
    }
  }

  lemma UsedIffListed(d: Disk, i: nat)
    requires FsOk(d.sectors) && i < DIR_ENTRIES
    ensures Used(d.sectors[DIR_SECTOR], i) <==> i < |Files(d.sectors)|
  {
    var dir := d.sectors[DIR_SECTOR];
    assert FirstFree(dir, 0) <= i ==> dir[i * ENT_SIZE] == 0;
  }

  lemma CountTruth(d: Disk, arg: u64)
    requires FsOk(d.sectors) && forall n :: n >= d.clock ==> d.script(n) == Fine
    ensures Serve(d, OP_NFILES, arg).0.sectors == d.sectors && Serve(d, OP_NFILES, arg).1 == |Files(d.sectors)|
  {
    hide UsedFrom, ServeByte;
    forall j: nat | j < DIR_ENTRIES
      ensures Used(d.sectors[DIR_SECTOR], j) <==> j < |Files(d.sectors)|
    {
      UsedIffListed(d, j);
    }
    UsedIsCount(d.sectors[DIR_SECTOR], 0, |Files(d.sectors)|);
  }

  lemma SizeTruth(d: Disk, arg: u64)
    requires FsOk(d.sectors) && forall n :: n >= d.clock ==> d.script(n) == Fine
    ensures Serve(d, OP_FSIZE, arg).0.sectors == d.sectors
    ensures Serve(d, OP_FSIZE, arg).1 == if arg < |Files(d.sectors)| then |Files(d.sectors)[arg].data| else U64_MAX
  {
    hide UsedFrom, ServeByte, Rd32;
    if arg < DIR_ENTRIES {
      UsedIffListed(d, arg);
    }
  }

  lemma NameTruth(d: Disk, arg: u64)
    requires FsOk(d.sectors) && forall n :: n >= d.clock ==> d.script(n) == Fine
    ensures var files := Files(d.sectors);
      var i, pos := arg / 0x100, arg % 0x100;
      && Serve(d, OP_NAMECH, arg).0.sectors == d.sectors
      && Serve(d, OP_NAMECH, arg).1
         == if i < |files| && pos < NAME_LEN && pos < |files[i].name| then files[i].name[pos] else 0
  {
    hide UsedFrom, ServeByte, Rd32;
    if arg / 0x100 < DIR_ENTRIES {
      UsedIffListed(d, arg / 0x100);
    }
  }

  lemma DataTruth(d: Disk, arg: u64)
    requires FsOk(d.sectors) && forall n :: n >= d.clock ==> d.script(n) == Fine
    ensures var files := Files(d.sectors);
      var r := Serve(d, OP_DATACH, arg).1;
      var i, off := arg / 0x1_0000, arg % 0x1_0000;
      && Serve(d, OP_DATACH, arg).0.sectors == d.sectors
      && if i >= |files| || Lookup(files, files[i].name).None? then r == 0 && i >= |files|
         else
           var data := Lookup(files, files[i].name).value.data;
           r == if off < |data| && off < SECTOR then data[off] else 0
  {
    hide UsedFrom, ServeByte, Rd32, Lookup;
    var i := arg / 0x1_0000;
    if i < DIR_ENTRIES {
      UsedIffListed(d, i);
    }
    if i < |Files(d.sectors)| {
      ServeByteTruth(ReadSector(d, DIR_SECTOR).0, i, arg % 0x1_0000);
    }
  }

  lemma ServeByteTruth(d: Disk, i: nat, off: nat)
    requires FsOk(d.sectors) && i < |Files(d.sectors)| && forall n :: n >= d.clock ==> d.script(n) == Fine
    ensures var files := Files(d.sectors);
      var name := NameAt(d.sectors[DIR_SECTOR], i);
      && name == files[i].name && Lookup(files, name).Some?
      && var data := Lookup(files, name).value.data;
         ServeByte(d, name, off).0.sectors == d.sectors
         && ServeByte(d, name, off).1 == if off < |data| && off < SECTOR then data[off] else 0
  {
    var files := Files(d.sectors);
    var dir := d.sectors[DIR_SECTOR];
    var name := NameAt(dir, i);
    ListedIsFound(files, i);
    ReadIsLookup(d, name);
    LookupIsEntry(d, name);
    hide Read, FindEntry, Lookup, FsOk, Files;
    var k := FindEntry(dir, name, 0).value;
    OutputIsContents(d.sectors, StartAt(dir, k), SizeAt(dir, k), ZeroSector());
  }

  lemma {:induction false} ListedIsFound(files: seq<File>, i: nat)
    requires i < |files| && |files[i].name| == NAME_LEN
    ensures Lookup(files, files[i].name).Some?
  {
    if i > 0 {
      ListedIsFound(files[1..], i - 1);
    }
  }

  lemma {:induction false} UsedIsCount(dir: Sector, i: nat, n: nat)
    requires i <= n <= DIR_ENTRIES && forall j: nat :: i <= j < DIR_ENTRIES ==> (Used(dir, j) <==> j < n)
    ensures UsedFrom(dir, i) == n - i
    decreases DIR_ENTRIES - i
  {
    if i < n {
      UsedIsCount(dir, i + 1, n);
    } else if i < DIR_ENTRIES {
      NoneUsed(dir, i);
    }
  }

  lemma {:induction false} NoneUsed(dir: Sector, i: nat)
    requires i <= DIR_ENTRIES && forall j: nat :: i <= j < DIR_ENTRIES ==> !Used(dir, j)
    ensures UsedFrom(dir, i) == 0
    decreases DIR_ENTRIES - i
  {
    if i < DIR_ENTRIES {
      NoneUsed(dir, i + 1);
    }
  }

  // ----- Histories -----

  datatype Op = Op(name: seq<byte>, data: seq<byte>)

  function AfterOps(d: Disk, ops: seq<Op>): Disk {
    if ops == [] then d
    else Create(AfterOps(d, ops[..|ops| - 1]), ops[|ops| - 1].name, ops[|ops| - 1].data).0
  }

  // The files whose creation reported success, in order.
  function Made(d: Disk, ops: seq<Op>): seq<File> {
    if ops == [] then []
    else
      var op := ops[|ops| - 1];
      var before := AfterOps(d, ops[..|ops| - 1]);
      Made(d, ops[..|ops| - 1])
      + if Create(before, op.name, op.data).1 == Created then [File(Padded(op.name), op.data)] else []
  }

  // Every creation used a findable name and either succeeded or failed before its
  // directory write took effect.
  ghost predicate CleanOps(d: Disk, ops: seq<Op>) {
    forall k :: 0 <= k < |ops| ==>
      var before := AfterOps(d, ops[..k]);
      var (w, stage) := Create(before, ops[k].name, ops[k].data);
      (stage == Created && NameOk(ops[k].name)) || NotEntered(before, w, stage)
  }

  lemma {:induction false} HistoryKept(d: Disk, ops: seq<Op>)
    requires FsOk(d.sectors) && CleanOps(d, ops)
    ensures FsOk(AfterOps(d, ops).sectors)
    ensures Files(AfterOps(d, ops).sectors) == Files(d.sectors) + Made(d, ops)
  {
    hide FsOk, Create, Files, NotEntered;
    if ops != [] {
      var n := |ops| - 1;
      var init, op := ops[..n], ops[n];
      forall k | 0 <= k < n
        ensures init[..k] == ops[..k]
      {
      }
      HistoryKept(d, init);
      var before := AfterOps(d, init);
      assert ops[..n] == init;
      if Create(before, op.name, op.data).1 == Created {
        CreatedIff(before, op.name, op.data);
        assert NameOk(op.name) by { CreatedIsEntered(before, op); }
      } else {
        FailureIsSafe(before, op.name, op.data);
      }
    } else {
      FilesLength(d);
    }
  }

  lemma FilesLength(d: Disk)
    requires FsOk(d.sectors)
    ensures |d.sectors| == TOTAL_SECTORS
  {
  }

  lemma CreatedIsEntered(d: Disk, op: Op)
    ensures var (w, stage) := Create(d, op.name, op.data); stage == Created ==> !NotEntered(d, w, stage)
  {
  }

  lemma {:induction false} LookupAppend(a: seq<File>, b: seq<File>, name: seq<byte>)
    ensures Lookup(a + b, name) == if Lookup(a, name).Some? then Lookup(a, name) else Lookup(b, name)
  {
    if a == [] {
      assert a + b == b;
    } else {
      assert (a + b)[1..] == a[1..] + b;
      LookupAppend(a[1..], b, name);
    }
  }

  // From a fresh format, after any such history, reading a name finds the first
  // file created under its padded form, whatever was created later, and a buffer
  // with room holds exactly that file's bytes followed by what it held before.
  lemma RoundTrip(d: Disk, earlier: seq<Op>, later: seq<Op>, name: seq<byte>, before: seq<byte>)
    requires |d.sectors| == TOTAL_SECTORS && Format(d).1
    requires CleanOps(Format(d).0, earlier + later)
    requires Lookup(Made(Format(d).0, earlier), name).Some?
    requires |Lookup(Made(Format(d).0, earlier), name).value.data| <= |before|
    ensures var w := AfterOps(Format(d).0, earlier + later);
      var data := Lookup(Made(Format(d).0, earlier), name).value.data;
      && FsOk(w.sectors)
      && Lookup(Files(w.sectors), name) == Lookup(Made(Format(d).0, earlier), name)
      && (Read(w, name).1.Some? ==> Read(w, name).1.value == |data|)
      && ((forall n :: n >= w.clock ==> w.script(n) == Fine) ==> Read(w, name).1.Some?)
      && var dir := w.sectors[DIR_SECTOR];
         var i := FindEntry(dir, name, 0);
         && i.Some?
         && Output(w.sectors, StartAt(dir, i.value), SizeAt(dir, i.value), before) == data + before[|data|..]
  {
    hide FsOk, Create, Files, Format, Read;
    var f := Format(d).0;
    FormatOk(d);
    HistoryKept(f, earlier + later);
    MadePrefix(f, earlier, later);
    var rest := Made(f, earlier + later)[|Made(f, earlier)|..];
    assert Made(f, earlier + later) == Made(f, earlier) + rest;
    assert Files(f.sectors) + Made(f, earlier + later) == Made(f, earlier + later);
    LookupAppend(Made(f, earlier), rest, name);
    var w := AfterOps(f, earlier + later);
    FilesLength(w);
    ReadIsLookup(w, name);
    ReadDelivers(w, name, before);
  }

  lemma {:induction false} MadePrefix(d: Disk, earlier: seq<Op>, later: seq<Op>)
    ensures Made(d, earlier) <= Made(d, earlier + later)
  {
    hide Create, AfterOps, Padded;
    if later == [] {
      assert earlier + later == earlier;
    } else {
      var all := earlier + later;
      assert all[..|all| - 1] == earlier + later[..|later| - 1];
      MadePrefix(d, earlier, later[..|later| - 1]);
    }
  }
}
