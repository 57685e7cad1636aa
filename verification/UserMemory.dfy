// The bytes of user buffers: where they live in RAM, and writing words into them.
module UserMemory {
  import opened Base
  import FramePool
  import opened AddressSpace
  import opened Memory

  // The byte at user address `a` is a byte of RAM (not of device memory).
  predicate InRam(space: Space, size: nat, a: nat) {
    && PageDown(a) in space.pages && !space.pages[PageDown(a)].device
    && space.pages[PageDown(a)].frame + a % PAGE < size
  }

  function PhysOf(space: Space, a: nat): nat
    requires PageDown(a) in space.pages
  {
    space.pages[PageDown(a)].frame + a % PAGE
  }

  // Byte k of a buffer at `ptr` is at physical address `x`.
  predicate ByteAt(space: Space, size: nat, ptr: nat, k: nat, x: nat) {
    InRam(space, size, ptr + k) && PhysOf(space, ptr + k) == x
  }

  // Is `x` the physical address of one of `len` user bytes from `ptr` on?
  ghost predicate Touched(space: Space, size: nat, ptr: nat, len: nat, x: nat) {
    exists k: nat :: k < len && ByteAt(space, size, ptr, k, x)
  }

  // ----- Words -----

  function WordBytes(words: seq<nat>): (r: seq<byte>)
    ensures |r| == 8 * |words|
  {
    if words == [] then [] else LeBytes(words[0], 8) + WordBytes(words[1..])
  }

  // The eight bytes written for a word give it back.
  lemma WordRoundTrip(v: u64)
    ensures LeValue(LeBytes(v, 8)) == v
  {
    assert Power256(4) == 0x1_0000_0000;
    assert Power256(8) == U64_LIMIT;
    LeRoundTrip(v, 8);
  }

  // ----- Writing -----

  // Only bytes of the buffer changed.
  ghost predicate OnlyAt(space: Space, before: seq<byte>, after: seq<byte>, ptr: nat, len: nat) {
    && |after| == |before|
    && forall x: nat :: x < |before| && after[x] != before[x] ==> Touched(space, |before|, ptr, len, x)
  }

  // The buffer holds these bytes.
  ghost predicate Holds(space: Space, ram: seq<byte>, ptr: nat, bytes: seq<byte>) {
    forall k: nat, x: nat :: k < |bytes| && ByteAt(space, |ram|, ptr, k, x) ==> ram[x] == bytes[k]
  }

  ghost predicate FramesAligned(space: Space) {
    forall va :: va in space.pages && !space.pages[va].device ==> space.pages[va].frame % PAGE == 0
  }

  lemma SoundAligned(vm: Vm, root: nat)
    requires VmOk(vm) && root in vm.spaces
    ensures FramesAligned(vm.spaces[root])
  {
    hide FramePool.Valid, RunsOk;
    var space := vm.spaces[root];
    forall va | va in space.pages && !space.pages[va].device
      ensures space.pages[va].frame % PAGE == 0
    {
      assert SpaceOk(vm.ledger, root, space);
      assert PteOk(vm.ledger, root, space.pages[va]);
      IssuedAligned(vm, space.pages[va].frame);
    }
  }

  // In sound memory every mapped byte that is not device memory is a byte of RAM.
  lemma MappedInRam(vm: Vm, size: nat, root: nat, a: nat)
    requires VmOk(vm) && root in vm.spaces && PageDown(a) in vm.spaces[root].pages
    requires forall i :: 0 <= i < |vm.pool.regions| ==> vm.pool.regions[i].end <= size
    ensures vm.spaces[root].pages[PageDown(a)].device || InRam(vm.spaces[root], size, a)
  {
    hide FramePool.Valid, RunsOk;
    var pte := vm.spaces[root].pages[PageDown(a)];
    assert SpaceOk(vm.ledger, root, vm.spaces[root]);
    assert PteOk(vm.ledger, root, pte);
    if !pte.device {
      hide SpaceOk, PteOk;
      IssuedInRam(vm, size, pte.frame);
    }
  }

  lemma IssuedInRam(vm: Vm, size: nat, f: nat)
    requires VmOk(vm) && f in vm.ledger && forall i :: 0 <= i < |vm.pool.regions| ==> vm.pool.regions[i].end <= size
    ensures f + PAGE <= size
  {
    hide RunsOk, SpaceOk, FramePool.Ahead, FramePool.CursorOk;
    assert f in vm.pool.issued;
    assert FramePool.Usable(vm.pool, f);
    var i: nat :| i < |vm.pool.regions| && FramePool.InRegion(vm.pool, i, f);
    WholeFrame(f, vm.pool.regions[i].end);
  }

  lemma WholeFrame(f: nat, end: nat)
    requires f % PAGE == 0 && end % PAGE == 0 && f < end
    ensures f + PAGE <= end
  {
  }

  lemma OffsetsApart(space: Space, size: nat, ptr: nat, j: nat, k: nat, x: nat, y: nat)
    requires FramesAligned(space) && j < k < PAGE && ByteAt(space, size, ptr, j, x) && ByteAt(space, size, ptr, k, y)
    ensures x != y
  {
    var f, g := space.pages[PageDown(ptr + j)].frame, space.pages[PageDown(ptr + k)].frame;
    AlignedOffset(f, ptr + j);
    AlignedOffset(g, ptr + k);
    NearApart(ptr, j, k);
  }

  lemma AlignedOffset(f: nat, a: nat)
    requires f % PAGE == 0
    ensures (f + a % PAGE) % PAGE == a % PAGE
  {
  }

  lemma NearApart(ptr: nat, j: nat, k: nat)
    requires j < k < PAGE
    ensures (ptr + j) % PAGE != (ptr + k) % PAGE
  {
  }

  // Write bytes through the user mappings of a space.
  method Store(mem: PhysicalMemory, root: nat, ptr: nat, bytes: seq<byte>)
    requires root in mem.spaces && |bytes| <= PAGE
    modifies mem.ram
    ensures OnlyAt(mem.spaces[root], old(mem.ram[..]), mem.ram[..], ptr, |bytes|)
    ensures FramesAligned(mem.spaces[root]) ==> Holds(mem.spaces[root], mem.ram[..], ptr, bytes)
  {
    ghost var before := mem.ram[..];
    var space := mem.spaces[root];
    var i := 0;
    while i < |bytes|
      invariant 0 <= i <= |bytes| && mem.spaces[root] == space
      invariant OnlyAt(space, before, mem.ram[..], ptr, i)
      invariant FramesAligned(space) ==> Holds(space, mem.ram[..], ptr, bytes[..i])
    {
      var page := PageDown(ptr + i);
      ghost var now := mem.ram[..];
      if page in space.pages && !space.pages[page].device {
        var pa := space.pages[page].frame + (ptr + i) % PAGE;
        if pa < mem.ram.Length {
          mem.ram[pa] := bytes[i];
        }
      }
      StoreStep(space, before, now, mem.ram[..], ptr, bytes, i);
      i := i + 1;
    }
    assert bytes[..|bytes|] == bytes;
  }

  lemma StoreStep(space: Space, before: seq<byte>, now: seq<byte>, after: seq<byte>, ptr: nat, bytes: seq<byte>, i: nat)
    requires i < |bytes| <= PAGE && OnlyAt(space, before, now, ptr, i) && |after| == |now|
    requires after == if InRam(space, |now|, ptr + i) then now[PhysOf(space, ptr + i) := bytes[i]] else now
    ensures OnlyAt(space, before, after, ptr, i + 1)
    ensures FramesAligned(space) && Holds(space, now, ptr, bytes[..i]) ==> Holds(space, after, ptr, bytes[..i + 1])
  {
    forall x: nat | x < |before| && after[x] != before[x]
      ensures Touched(space, |before|, ptr, i + 1, x)
    {
      if now[x] != before[x] {
        assert Touched(space, |before|, ptr, i, x);
      } else {
        assert ByteAt(space, |before|, ptr, i, x);
      }
    }
    if FramesAligned(space) && Holds(space, now, ptr, bytes[..i]) {
      forall k: nat, x: nat | k < i + 1 && ByteAt(space, |after|, ptr, k, x)
        ensures after[x] == bytes[..i + 1][k]
      {
        if k < i {
          assert now[x] == bytes[..i][k];
          if InRam(space, |now|, ptr + i) {
            OffsetsApart(space, |now|, ptr, k, i, x, PhysOf(space, ptr + i));
          }
        }
      }
    }
  }

  // ----- What a system call may change -----

  // No byte of a frame issued before changed, but for those of the reply buffer.
  ghost predicate KeepsBut(v: Vm, space: Space, before: seq<byte>, after: seq<byte>, ptr: nat, len: nat) {
    && |after| == |before|
    && forall f, x: nat :: f in v.ledger && f <= x < f + PAGE && x < |before| && after[x] != before[x] ==>
         Touched(space, |before|, ptr, len, x)
  }

  lemma KeptThenStored(v: Vm, space: Space, before: seq<byte>, now: seq<byte>, after: seq<byte>, ptr: nat, len: nat)
    requires KeepsBytes(v, before, now) && OnlyAt(space, now, after, ptr, len)
    ensures KeepsBut(v, space, before, after, ptr, len)
  {
    forall f, x: nat | f in v.ledger && f <= x < f + PAGE && x < |before| && after[x] != before[x]
      ensures Touched(space, |before|, ptr, len, x)
    {
      assert now[x] == before[x];
    }
  }

  lemma KeptIsKeptBut(v: Vm, space: Space, before: seq<byte>, after: seq<byte>, ptr: nat, len: nat)
    requires KeepsBytes(v, before, after)
    ensures KeepsBut(v, space, before, after, ptr, len)
  {
  }

  // Zeroing a run that was not issued keeps the bytes of all issued frames.
  lemma ZeroRunKeeps(v: Vm, base: nat, n: nat, before: seq<byte>, after: seq<byte>)
    requires VmOk(v) && base % PAGE == 0 && |after| == |before|
    requires forall f :: f in FramePool.RunFrames(base, n) ==> f !in v.ledger
    requires forall x :: 0 <= x < |before| ==> after[x] == if base <= x < base + n * PAGE then 0 else before[x]
    ensures KeepsBytes(v, before, after)
  {
    hide VmOk;
    forall f, k | f in v.ledger && 0 <= k < |before| && f <= k < f + PAGE
      ensures after[k] == before[k]
    {
      IssuedAligned(v, f);
      OutsideRun(f, base, n, k);
    }
  }

  lemma OutsideRun(f: nat, base: nat, n: nat, k: nat)
    requires f % PAGE == 0 && base % PAGE == 0 && f <= k < f + PAGE && f !in FramePool.RunFrames(base, n)
    ensures !(base <= k < base + n * PAGE)
  {
  }

  // The run is zero, but for bytes of the reply buffer that lie in it.
  ghost predicate ZeroBut(base: nat, n: nat, space: Space, ram: seq<byte>, ptr: nat, len: nat) {
    forall x: nat :: base <= x < base + n * PAGE && x < |ram| && ram[x] != 0 ==> Touched(space, |ram|, ptr, len, x)
  }

  lemma ZeroThenStored(base: nat, n: nat, space: Space, now: seq<byte>, after: seq<byte>, ptr: nat, len: nat)
    requires OnlyAt(space, now, after, ptr, len)
    requires forall x: nat :: base <= x < base + n * PAGE && x < |now| ==> now[x] == 0
    ensures ZeroBut(base, n, space, after, ptr, len)
  {
  }
}
