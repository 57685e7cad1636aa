// The Internet checksum of section 1 of RFC 1071: the sum of big-endian 16-bit
// words, folded and complemented.
module Checksum {
  import opened Base

  const MAX_WORDS: nat := 65537

  // ----- What is computed -----

  function Word(hi: byte, lo: byte): nat {
    hi * 256 + lo
  }

  // The sum of the words of `s`, an odd last byte being a word's high half.
  function WordSum(s: seq<byte>): nat {
    if |s| == 0 then 0
    else if |s| == 1 then Word(s[0], 0)
    else Word(s[0], s[1]) + WordSum(s[2..])
  }

  // Fold carries back in until 16 bits are left.
  function Fold(sum: nat): (r: nat)
    ensures r < 0x1_0000
    decreases sum
  {
    if sum / 0x1_0000 == 0 then sum else Fold(sum % 0x1_0000 + sum / 0x1_0000)
  }

  function Sum(s: seq<byte>): (r: nat)
    ensures r < 0x1_0000
  {
    0xffff - Fold(WordSum(s))
  }

  // ----- Folding is arithmetic modulo 65535 -----

  // The fold of x is its remainder modulo 65535, with 65535 itself standing for
  // the multiples of 65535 other than zero.
  lemma {:induction false} FoldIsResidue(x: nat)
    ensures Fold(x) == if x == 0 then 0 else (x - 1) % 0xffff + 1
    decreases x
  {
    if x / 0x1_0000 != 0 {
      var y := x % 0x1_0000 + x / 0x1_0000;
      FoldIsResidue(y);
      assert x - 1 == (y - 1) + (x / 0x1_0000) * 0xffff;
      ModShift(y - 1, x / 0x1_0000);
    }
  }

  lemma ModShift(a: nat, k: nat)
    ensures (a + k * 0xffff) % 0xffff == a % 0xffff
  {
  }

  // A sum folds to all ones exactly when it is a positive multiple of 65535.
  lemma FoldsToOnes(x: nat)
    ensures Fold(x) == 0xffff <==> x > 0 && x % 0xffff == 0
  {
    FoldIsResidue(x);
  }

  // ----- Sums of buffers -----

  lemma {:induction false} SumUpdate(s: seq<byte>, k: nat, hi: byte, lo: byte)
    requires k % 2 == 0 && k + 1 < |s|
    ensures WordSum(s[k := hi][k + 1 := lo]) + Word(s[k], s[k + 1]) == WordSum(s) + Word(hi, lo)
  {
    var t := s[k := hi][k + 1 := lo];
    if k == 0 {
      assert t[2..] == s[2..];
    } else {
      assert t[2..] == s[2..][k - 2 := hi][k - 1 := lo];
      SumUpdate(s[2..], k - 2, hi, lo);
    }
  }

  lemma {:induction false} SumAppend(s: seq<byte>, t: seq<byte>)
    requires |s| % 2 == 0
    ensures WordSum(s + t) == WordSum(s) + WordSum(t)
  {
    if s == [] {
      assert s + t == t;
    } else {
      assert (s + t)[2..] == s[2..] + t;
      SumAppend(s[2..], t);
    }
  }

  lemma {:induction false} SumBound(s: seq<byte>)
    ensures WordSum(s) <= (|s| + 1) / 2 * 0xffff
  {
    if |s| >= 2 {
      SumBound(s[2..]);
    }
  }

  // ----- The 32-bit accumulator -----

  // No buffer of up to 65537 words overflows the accumulator; with one word more,
  // some buffer does.
  lemma AccumulatorBound(n: nat)
    ensures (forall s: seq<byte> :: (|s| + 1) / 2 == n ==> WordSum(s) < U32_LIMIT) <==> n <= MAX_WORDS
  {
    if n <= MAX_WORDS {
      forall s: seq<byte> | (|s| + 1) / 2 == n
        ensures WordSum(s) < U32_LIMIT
      {
        SumBound(s);
      }
    } else {
      var ones: seq<byte> := seq(2 * n, _ => 255);
      AllOnes(ones, n);
      assert (|ones| + 1) / 2 == n;
    }
  }

  lemma {:induction false} AllOnes(s: seq<byte>, n: nat)
    requires |s| == 2 * n && forall i :: 0 <= i < |s| ==> s[i] == 255
    ensures WordSum(s) == n * 0xffff
  {
    if n > 0 {
      AllOnes(s[2..], n - 1);
    }
  }

  // ----- Checking what was stored -----

  function Stored(s: seq<byte>, k: nat): seq<byte>
    requires k + 1 < |s|
  {
    s[k := Sum(s) / 256][k + 1 := Sum(s) % 256]
  }

  // Storing the checksum of a buffer in its own zeroed field, at any even offset,
  // gives a buffer whose checksum is zero.
  lemma StoredVerifies(s: seq<byte>, k: nat)
    requires k % 2 == 0 && k + 1 < |s| && s[k] == 0 && s[k + 1] == 0
    ensures Sum(Stored(s, k)) == 0
  {
    var c := Sum(s);
    SumUpdate(s, k, c / 256, c % 256);
    var x := WordSum(s);
    hide Fold, WordSum;
    assert WordSum(Stored(s, k)) == x + c;
    Complement(x, c);
    FoldsToOnes(x + c);
  }

  lemma Complement(x: nat, c: nat)
    requires c == 0xffff - Fold(x)
    ensures x + c > 0 && (x + c) % 0xffff == 0
  {
    FoldIsResidue(x);
    hide Fold;
    if x > 0 {
      var q := (x - 1) / 0xffff;
      assert x + c == (q + 1) * 0xffff;
    }
  }

  // What a receiver can tell: replacing one word of a buffer that verifies goes
  // unnoticed exactly when the words agree modulo 65535 and not all words vanish.
  lemma OneWordDetected(s: seq<byte>, k: nat, hi: byte, lo: byte)
    requires Sum(s) == 0 && k % 2 == 0 && k + 1 < |s|
    ensures var t := s[k := hi][k + 1 := lo];
      Sum(t) == 0 <==> Word(hi, lo) % 0xffff == Word(s[k], s[k + 1]) % 0xffff && WordSum(t) > 0
  {
    var t := s[k := hi][k + 1 := lo];
    SumUpdate(s, k, hi, lo);
    FoldsToOnes(WordSum(s));
    FoldsToOnes(WordSum(t));
    var a, b := Word(hi, lo), Word(s[k], s[k + 1]);
    assert WordSum(t) + b == WordSum(s) + a;
    SameResidue(WordSum(s), WordSum(t), a, b);
  }

  lemma SameResidue(x: nat, y: nat, a: nat, b: nat)
    requires y + b == x + a && x % 0xffff == 0
    ensures y % 0xffff == 0 <==> a % 0xffff == b % 0xffff
  {
    var q := x / 0xffff;
    assert x == q * 0xffff;
    ModShift(a, q);
    if y % 0xffff == 0 {
      var p := y / 0xffff;
      assert y == p * 0xffff;
      ModShift(b, p);
    }
    if a % 0xffff == b % 0xffff {
      var i, j := a / 0xffff, b / 0xffff;
      assert y == (q + i - j) * 0xffff;
    }
  }

  // ----- The loop -----

  method InetChecksum(buf: seq<byte>) returns (r: nat)
    requires (|buf| + 1) / 2 <= MAX_WORDS
    ensures r == Sum(buf)
  {
    SumBound(buf);
    var sum: u32 := 0;
    var i := 0;
    while i + 1 < |buf|
      invariant 0 <= i <= |buf| && i % 2 == 0
      invariant sum + WordSum(buf[i..]) == WordSum(buf)
    {
      assert buf[i..][2..] == buf[i + 2..];
      sum := sum + Word(buf[i], buf[i + 1]);
      i := i + 2;
    }
    if i < |buf| {
      assert buf[i..] == [buf[i]];
      sum := sum + Word(buf[i], 0);
    }
    assert sum == WordSum(buf);
    while sum / 0x1_0000 != 0
      invariant Fold(sum) == Fold(WordSum(buf))
      decreases sum
    {
      sum := sum % 0x1_0000 + sum / 0x1_0000;
    }
    r := 0xffff - sum;
  }
}
