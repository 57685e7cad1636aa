// XernelFS: a flat directory and contiguous files on a disk of 512-byte sectors
// any of whose transfers may fail.
module XernelFs {
  import opened Base

  const SECTOR: nat := 512
  const TOTAL_SECTORS: nat := 2048
  const SB_SECTOR: nat := 1
  const DIR_SECTOR: nat := 2
  const DATA_START: nat := 3
  const DIR_ENTRIES: nat := 16
  const ENT_SIZE: nat := 32
  const NAME_LEN: nat := 24
  const MAGIC: seq<byte> := [0x58, 0x45, 0x52, 0x4e, 0x46, 0x53, 0x30, 0x31]

  type Sector = s: seq<byte> | |s| == 512 witness seq(512, _ => 0)

  // How the device answers one request. A write that fails may leave anything, or
  // nothing, in its sector.
  datatype Fate = Fine | Fails(left: Option<Sector>)

  // The disk, the number of requests made so far, and the fate of each request.
  datatype Disk = Disk(sectors: seq<Sector>, clock: nat, script: nat -> Fate)

  // ----- Transfers -----

  function ReadSector(d: Disk, s: nat): (r: (Disk, Option<Sector>))
    ensures r.0.sectors == d.sectors && r.0.script == d.script && r.0.clock == d.clock + 1
  {
    (d.(clock := d.clock + 1),
     if s < |d.sectors| && d.script(d.clock) == Fine then Some(d.sectors[s]) else None)
  }

  function WriteSector(d: Disk, s: nat, data: Sector): (r: (Disk, bool))
    ensures |r.0.sectors| == |d.sectors| && r.0.script == d.script && r.0.clock == d.clock + 1
    ensures forall t :: 0 <= t < |d.sectors| && t != s ==> r.0.sectors[t] == d.sectors[t]
    ensures r.1 ==> s < |d.sectors| && r.0.sectors[s] == data
  {
    var later := d.(clock := d.clock + 1);
    if s >= |d.sectors| then (later, false)
    else
      match d.script(d.clock)
      case Fine => (later.(sectors := d.sectors[s := data]), true)
      case Fails(None) => (later, false)
      case Fails(Some(torn)) => (later.(sectors := d.sectors[s := torn]), false)
  }

  // ----- Encoding -----

  function Le32(v: u32): (r: seq<byte>)
    ensures |r| == 4
  {
    [v % 256, v / 256 % 256, v / 0x1_0000 % 256, v / 0x100_0000]
  }

  function Rd32(s: seq<byte>, off: nat): (r: u32)
    requires off + 4 <= |s|
  {
    Word32(s[off], s[off + 1], s[off + 2], s[off + 3])
  }

  function Word32(a: byte, b: byte, c: byte, d: byte): u32 {
    a + 256 * (b + 256 * (c + 256 * d))
  }

  lemma Rd32OfLe32(s: seq<byte>, off: nat, v: u32)
    requires off + 4 <= |s|
    ensures Rd32(Splice(s, off, Le32(v)), off) == v
  {
    WordOfBytes(v);
    var t, bytes := Splice(s, off, Le32(v)), Le32(v);
    assert t[off] == bytes[0] && t[off + 1] == bytes[1] && t[off + 2] == bytes[2] && t[off + 3] == bytes[3];
    hide Word32;
  }

  lemma WordOfBytes(v: u32)
    ensures Word32(v % 256, v / 256 % 256, v / 0x1_0000 % 256, v / 0x100_0000) == v
  {
    assert v / 0x1_0000 == v / 256 / 256 && v / 0x100_0000 == v / 256 / 256 / 256;
  }

  // ----- Directory entries -----

  function NameAt(dir: Sector, i: nat): seq<byte>
    requires i < DIR_ENTRIES
  {
    dir[i * ENT_SIZE..i * ENT_SIZE + NAME_LEN]
  }

  function SizeAt(dir: Sector, i: nat): u32
    requires i < DIR_ENTRIES
  {
    Rd32(dir, i * ENT_SIZE + 24)
  }

  function StartAt(dir: Sector, i: nat): u32
    requires i < DIR_ENTRIES
  {
    Rd32(dir, i * ENT_SIZE + 28)
  }

  predicate Used(dir: Sector, i: nat)
    requires i < DIR_ENTRIES
  {
    dir[i * ENT_SIZE] != 0
  }

  // The first free entry at or after entry `i`.
  function FirstFree(dir: Sector, i: nat): (r: nat)
    requires i <= DIR_ENTRIES
    ensures i <= r <= DIR_ENTRIES
    ensures r < DIR_ENTRIES ==> !Used(dir, r)
    ensures forall j :: i <= j < r ==> Used(dir, j)
    decreases DIR_ENTRIES - i
  {
    if i == DIR_ENTRIES || !Used(dir, i) then i else FirstFree(dir, i + 1)
  }

  function Padded(name: seq<byte>): (r: seq<byte>)
    ensures |r| == NAME_LEN
    ensures forall i :: 0 <= i < NAME_LEN ==> r[i] == if i < |name| then name[i] else 0
  {
    if |name| >= NAME_LEN then name[..NAME_LEN] else name + seq(NAME_LEN - |name|, _ => 0)
  }

  // The first used entry with this padded name, at or after entry `i`.
  function FindEntry(dir: Sector, name: seq<byte>, i: nat): (r: Option<nat>)
    requires i <= DIR_ENTRIES
    ensures r.Some? ==> i <= r.value < DIR_ENTRIES
    decreases DIR_ENTRIES - i
  {
    if i == DIR_ENTRIES then None
    else if Used(dir, i) && NameAt(dir, i) == Padded(name) then Some(i)
    else FindEntry(dir, name, i + 1)
  }

  // ----- What the operations do -----

  function ZeroSector(): Sector {
    seq(512, _ => 0)
  }

  function FreshSuper(): Sector {
    Splice(Splice(Splice(Splice(ZeroSector(), 0, MAGIC), 8, Le32(1)), 12, Le32(TOTAL_SECTORS)), 16, Le32(DATA_START))
  }

  function Format(d: Disk): (Disk, bool) {
    var (d1, ok) := WriteSector(d, SB_SECTOR, FreshSuper());
    if ok then WriteSector(d1, DIR_SECTOR, ZeroSector()) else (d1, false)
  }

  function Chunk(data: seq<byte>): Sector {
    if |data| >= 512 then data[..512] else data + seq(512 - |data|, _ => 0)
  }

  // Write `data` to consecutive sectors from `s` on, stopping at the first failure.
  function WriteData(d: Disk, s: nat, data: seq<byte>): (Disk, bool)
    decreases |data|
  {
    if data == [] then (d, true)
    else
      var (d1, ok) := WriteSector(d, s, Chunk(data));
      if ok then WriteData(d1, s + 1, data[Min(SECTOR, |data|)..]) else (d1, false)
  }

  // How far a creation got.
  datatype Stage = NoSuper | NoDirectory | DirectoryFull | DiskFull | DataLost | DirectoryLost | SuperLost | Created

  function NextFree(sb: Sector): u32 {
    Rd32(sb, 16)
  }

  function FillEntry(dir: Sector, slot: nat, name: seq<byte>, size: u32, start: u32): Sector
    requires slot < DIR_ENTRIES
  {
    var base := slot * ENT_SIZE;
    Splice(Splice(Splice(dir, base, name[..Min(NAME_LEN, |name|)]), base + 24, Le32(size)), base + 28, Le32(start))
  }

  // Store the data, then its directory entry, then the moved free pointer.
  function Enter(d: Disk, sb: Sector, dir: Sector, slot: nat, name: seq<byte>, data: seq<byte>): (Disk, Stage)
    requires slot < DIR_ENTRIES && NextFree(sb) + DivCeil(|data|, SECTOR) <= TOTAL_SECTORS
  {
    var next := NextFree(sb);
    var (d1, written) := WriteData(d, next, data);
    if !written then (d1, DataLost) else
    var (d2, entered) := WriteSector(d1, DIR_SECTOR, FillEntry(dir, slot, name, |data|, next));
    if !entered then (d2, DirectoryLost) else
    var (d3, committed) := WriteSector(d2, SB_SECTOR, Splice(sb, 16, Le32(next + DivCeil(|data|, SECTOR))));
    (d3, if committed then Created else SuperLost)
  }

  function Create(d: Disk, name: seq<byte>, data: seq<byte>): (Disk, Stage) {
    var (d1, sb) := ReadSector(d, SB_SECTOR);
    if sb.None? || sb.value[..8] != MAGIC then (d1, NoSuper) else
    var (d2, dir) := ReadSector(d1, DIR_SECTOR);
    if dir.None? then (d2, NoDirectory) else
    var slot := FirstFree(dir.value, 0);
    if slot == DIR_ENTRIES then (d2, DirectoryFull)
    else if NextFree(sb.value) + DivCeil(|data|, SECTOR) > TOTAL_SECTORS then (d2, DiskFull)
    else Enter(d2, sb.value, dir.value, slot, name, data)
  }

  // Fetch the sectors of a file of `size` bytes that starts at sector `s`.
  function ReadData(d: Disk, s: nat, size: nat): (r: (Disk, bool))
    ensures r.0.sectors == d.sectors && r.0.script == d.script
    decreases size
  {
    if size == 0 then (d, true)
    else
      var (d1, got) := ReadSector(d, s);
      if got.None? then (d1, false) else ReadData(d1, s + 1, size - Min(SECTOR, size))
  }

  function Read(d: Disk, name: seq<byte>): (r: (Disk, Option<nat>))
    ensures r.0.sectors == d.sectors && r.0.script == d.script
  {
    var (d1, dir) := ReadSector(d, DIR_SECTOR);
    if dir.None? then (d1, None) else
    match FindEntry(dir.value, name, 0)
    case None => (d1, None)
    case Some(i) =>
      var (d2, ok) := ReadData(d1, StartAt(dir.value, i), SizeAt(dir.value, i));
      (d2, if ok then Some(SizeAt(dir.value, i)) else None)
  }

  function ByteAt(sectors: seq<Sector>, start: nat, k: nat): byte {
    if start + k / SECTOR < |sectors| then sectors[start + k / SECTOR][k % SECTOR] else 0
  }

  // A read delivers each whole chunk of the file that fits in the output buffer.
  predicate Delivered(k: nat, size: nat, room: nat) {
    k < size && Min((k / SECTOR + 1) * SECTOR, size) <= room
  }

  // What an output buffer holds after a read that reported `size`.
  function Output(sectors: seq<Sector>, start: nat, size: nat, before: seq<byte>): (r: seq<byte>)
    ensures |r| == |before|
  {
    seq(|before|, k requires 0 <= k < |before| =>
      if Delivered(k, size, |before|) then ByteAt(sectors, start, k) else before[k])
  }

  // ----- The file service -----

  const OP_NFILES: nat := 1
  const OP_FSIZE: nat := 2
  const OP_NAMECH: nat := 3
  const OP_DATACH: nat := 4

  function UsedFrom(dir: Sector, i: nat): nat
    requires i <= DIR_ENTRIES
    decreases DIR_ENTRIES - i
  {
    if i == DIR_ENTRIES then 0 else (if Used(dir, i) then 1 else 0) + UsedFrom(dir, i + 1)
  }

  // One byte of a file, read by name through a sector-sized buffer.
  function ServeByte(d: Disk, name: seq<byte>, off: nat): (Disk, nat) {
    var (w, r) := Read(d, name);
    if r.None? || off >= r.value || off >= SECTOR || |w.sectors| <= DIR_SECTOR then (w, 0)
    else
      match FindEntry(w.sectors[DIR_SECTOR], name, 0)
      case None => (w, 0)
      case Some(i) =>
        (w, Output(w.sectors, StartAt(w.sectors[DIR_SECTOR], i), r.value, ZeroSector())[off])
  }

  function Serve(d: Disk, op: u64, arg: u64): (Disk, nat) {
    var (d1, dir) := ReadSector(d, DIR_SECTOR);
    if dir.None? then (d1, U64_MAX)
    else if op == OP_NFILES then (d1, UsedFrom(dir.value, 0))
    else if op == OP_FSIZE then
      (d1, if arg >= DIR_ENTRIES || !Used(dir.value, arg) then U64_MAX else SizeAt(dir.value, arg))
    else if op == OP_NAMECH then
      var i, pos := arg / 0x100, arg % 0x100;
      (d1, if i >= DIR_ENTRIES || pos >= NAME_LEN || !Used(dir.value, i) then 0 else dir.value[i * ENT_SIZE + pos])
    else if op == OP_DATACH then
      var i, off := arg / 0x1_0000, arg % 0x1_0000;
      if i >= DIR_ENTRIES || !Used(dir.value, i) then (d1, 0) else ServeByte(d1, NameAt(dir.value, i), off)
    else (d1, U64_MAX)
  }

  // ----- What the disk holds -----

  datatype File = File(name: seq<byte>, data: seq<byte>)

  function ContentsAt(sectors: seq<Sector>, start: nat, size: nat): (r: seq<byte>)
    ensures |r| == size
  {
    seq(size, k requires 0 <= k < size => ByteAt(sectors, start, k))
  }

  function Files(sectors: seq<Sector>): (r: seq<File>)
    requires |sectors| == TOTAL_SECTORS
    ensures |r| == FirstFree(sectors[DIR_SECTOR], 0)
  {
    var dir := sectors[DIR_SECTOR];
    seq(FirstFree(dir, 0), i requires 0 <= i < FirstFree(dir, 0) =>
      File(NameAt(dir, i), ContentsAt(sectors, StartAt(dir, i), SizeAt(dir, i))))
  }

  function EndAt(dir: Sector, i: nat): nat
    requires i < DIR_ENTRIES
  {
    StartAt(dir, i) + DivCeil(SizeAt(dir, i), SECTOR)
  }

  // Free entries follow the used ones and are all zero; used entries own disjoint
  // extents of the data region, below the free pointer.
  ghost predicate DirOk(dir: Sector, next: nat) {
    var n := FirstFree(dir, 0);
    && (forall i :: n * ENT_SIZE <= i < |dir| ==> dir[i] == 0)
    && (forall i: nat :: i < n ==> DATA_START <= StartAt(dir, i) && EndAt(dir, i) <= next)
    && (forall i: nat, j: nat :: i < j < n ==> EndAt(dir, i) <= StartAt(dir, j))
  }

  ghost predicate FsOk(sectors: seq<Sector>) {
    && |sectors| == TOTAL_SECTORS && sectors[SB_SECTOR][..8] == MAGIC
    && DATA_START <= NextFree(sectors[SB_SECTOR]) <= TOTAL_SECTORS
    && DirOk(sectors[DIR_SECTOR], NextFree(sectors[SB_SECTOR]))
  }

  // A name that can be found again.
  predicate NameOk(name: seq<byte>) {
    |name| > 0 && name[0] != 0
  }

  function Lookup(files: seq<File>, name: seq<byte>): Option<File> {
    if files == [] then None
    else if files[0].name == Padded(name) then Some(files[0])
    else Lookup(files[1..], name)
  }
}
