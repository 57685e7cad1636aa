// Words, pages and optional values shared by every component of the model.
module Base {
  const U64_LIMIT: nat := 0x1_0000_0000_0000_0000
  const U64_MAX: nat := 0xffff_ffff_ffff_ffff
  const PAGE: nat := 4096

  // Highest user virtual address, exclusive.
  const USER_ADDR_MAX: nat := 0x8000_0000_0000

  const U32_LIMIT: nat := 0x1_0000_0000

  type u64 = x: int | 0 <= x < U64_LIMIT
  type u32 = x: int | 0 <= x < U32_LIMIT
  type byte = x: int | 0 <= x < 256

  datatype Option<+T> = None | Some(value: T)

  function PageDown(a: nat): nat {
    a - a % PAGE
  }

  function PageUp(a: nat): nat {
    PageDown(a + PAGE - 1)
  }

  function Min(a: nat, b: nat): nat {
    if a < b then a else b
  }

  // How many `unit`-sized blocks hold `n` items (Rust's `div_ceil`).
  function DivCeil(n: nat, unit: nat): nat
    requires unit > 0
  {
    (n + unit - 1) / unit
  }

  // ----- Little-endian numbers -----

  // The low `n` bytes of a number, least significant first.
  function LeBytes(v: nat, n: nat): (r: seq<byte>)
    ensures |r| == n
  {
    if n == 0 then [] else [v % 256] + LeBytes(v / 256, n - 1)
  }

  function LeValue(bytes: seq<byte>): nat {
    if bytes == [] then 0 else bytes[0] + 256 * LeValue(bytes[1..])
  }

  function Power256(n: nat): nat {
    if n == 0 then 1 else 256 * Power256(n - 1)
  }

  lemma {:induction false} LeRoundTrip(v: nat, n: nat)
    requires v < Power256(n)
    ensures LeValue(LeBytes(v, n)) == v
  {
    if n > 0 {
      LeRoundTrip(v / 256, n - 1);
      assert LeBytes(v, n)[1..] == LeBytes(v / 256, n - 1);
    }
  }

  // ----- Byte sequences -----

  // The sequence with `bytes` in place of what was at `at`.
  function Splice(s: seq<byte>, at: nat, bytes: seq<byte>): (r: seq<byte>)
    requires at + |bytes| <= |s|
    ensures |r| == |s|
    ensures forall i :: 0 <= i < |s| ==> r[i] == if at <= i < at + |bytes| then bytes[i - at] else s[i]
  {
    s[..at] + bytes + s[at + |bytes|..]
  }

  lemma SliceOfSlice(s: seq<byte>, lo: nat, hi: nat, a: nat, b: nat)
    requires lo <= hi <= |s| && a <= b <= hi - lo
    ensures s[lo..hi][a..b] == s[lo + a..lo + b]
  {
    var t := s[lo..hi];
    assert forall i :: 0 <= i < b - a ==> t[a..b][i] == t[a + i] == s[lo + a + i];
  }

  method CopyInto(a: array<byte>, at: nat, bytes: seq<byte>)
    requires at + |bytes| <= a.Length
    modifies a
    ensures a[..] == Splice(old(a[..]), at, bytes)
    ensures forall j :: 0 <= j < a.Length ==> a[j] == if at <= j < at + |bytes| then bytes[j - at] else old(a[j])
  {
    for i := 0 to |bytes|
      invariant forall j :: 0 <= j < a.Length ==> a[j] == if at <= j < at + i then bytes[j - at] else old(a[j])
    {
      a[at + i] := bytes[i];
    }
    assert a[..] == Splice(old(a[..]), at, bytes);
  }
}
