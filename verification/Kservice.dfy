/** rt_memmove and the aligned allocation of rt-thread/src/kservice.c. */
module Kservice {
  import Bits
  import opened Masks

  /** n bytes at src, as they were, now stand at dest; nothing else changes. */
  ghost function Moved(m: seq<int>, dest: nat, src: nat, n: nat): seq<int>
    requires dest + n <= |m| && src + n <= |m|
  {
    m[..dest] + m[src..src + n] + m[dest + n..]
  }

  /** rt_memmove, for areas that may overlap in either direction. */
  method MemMove(mem: array<int>, dest: nat, src: nat, n: nat)
    requires dest + n <= mem.Length && src + n <= mem.Length
    modifies mem
    ensures mem[..] == Moved(old(mem[..]), dest, src, n)
    ensures mem[dest..dest + n] == old(mem[src..src + n])
    ensures mem[..dest] == old(mem[..dest]) && mem[dest + n..] == old(mem[dest + n..])
  {
    ghost var m := mem[..];
    MovedNone(m, dest + n, src + n);
    MovedNone(m, dest, src);
    hide Moved;
    if src < dest && dest < src + n {
      var k := n;
      while k > 0
        invariant 0 <= k <= n && mem[..] == Moved(m, dest + k, src + k, n - k)
      {
        k := k - 1;
        LastByte(m, dest, src, n, k);
        ghost var was := mem[..];
        mem[dest + k] := mem[src + k];
        assert mem[..] == was[dest + k := was[src + k]];
      }
    } else {
      var k := 0;
      while k < n
        invariant 0 <= k <= n && mem[..] == Moved(m, dest, src, k)
      {
        NextByte(m, dest, src, n, k);
        ghost var was := mem[..];
        mem[dest + k] := mem[src + k];
        assert mem[..] == was[dest + k := was[src + k]];
        k := k + 1;
      }
    }
    MovedParts(m, mem[..], dest, src, n);
  }

  lemma MovedParts(m: seq<int>, r: seq<int>, dest: nat, src: nat, n: nat)
    requires dest + n <= |m| && src + n <= |m| && r == Moved(m, dest, src, n)
    ensures |r| == |m| && r[dest..dest + n] == m[src..src + n] && r[..dest] == m[..dest] && r[dest + n..] == m[dest + n..]
  {
  }

  lemma MovedNone(m: seq<int>, dest: nat, src: nat)
    requires dest <= |m| && src <= |m|
    ensures Moved(m, dest, src, 0) == m
  {
  }

  /** Going up, the next source byte has not been written yet. */
  lemma NextByte(m: seq<int>, dest: nat, src: nat, n: nat, k: nat)
    requires dest + n <= |m| && src + n <= |m| && k < n && !(src < dest < src + n)
    ensures var r := Moved(m, dest, src, k);
      |r| == |m| && r[src + k] == m[src + k] && Moved(m, dest, src, k + 1) == r[dest + k := m[src + k]]
  {
  }

  /** Going down, the same. */
  lemma LastByte(m: seq<int>, dest: nat, src: nat, n: nat, k: nat)
    requires dest + n <= |m| && src + n <= |m| && k < n && src < dest < src + n
    ensures var r := Moved(m, dest + k + 1, src + k + 1, n - k - 1);
      |r| == |m| && r[src + k] == m[src + k] && Moved(m, dest + k, src + k, n - k) == r[dest + k := m[src + k]]
  {
  }

  /** A multiple of the word size. */
  predicate Aligned(n: int) { n % 4 == 0 }

  function UpTo4(n: nat): nat { (n + 3) / 4 * 4 }

  /** The byte count rt_malloc_align asks rt_malloc for. */
  function AlignedRequest(size: nat, align: nat): nat { UpTo4(size) + UpTo4(align) }

  /** Where the user's bytes start in the block at ptr. */
  function AlignedPtr(ptr: nat, align: nat): nat
    requires align > 0
  {
    var a := UpTo4(align);
    if And(ptr, a - 1) == 0 then ptr + a else Masked(ptr + (a - 1), a - 1)
  }

  /** Whatever the alignment, the word in front of the pointer, where the real pointer is kept for
      rt_free_align, lies inside the block, and so do all size bytes. */
  lemma AlignedFits(ptr: nat, size: nat, align: nat)
    requires align > 0 && Aligned(ptr)
    ensures var p := AlignedPtr(ptr, align);
      Aligned(p) && ptr <= p - 4 && p + size <= ptr + AlignedRequest(size, align) < ptr + size + align + 7
  {
    Rounded(size);
    Rounded(align);
    var a := UpTo4(align);
    hide And, UpTo4;
    if And(ptr, a - 1) != 0 {
      if And(ptr + (a - 1), a - 1) == a - 1 { NoCarry(ptr, a - 1); }
      LowTwo(ptr + (a - 1), a - 1);
      assert ptr < AlignedPtr(ptr, align);
    }
  }

  /** Adding m can set all bits of m only where they were clear. */
  lemma {:induction false} NoCarry(x: nat, m: nat)
    requires And(x + m, m) == m
    ensures And(x, m) == 0
  {
    if x > 0 && m > 0 {
      assert (x + m) % 2 == 1 || m % 2 == 0;
      assert (x + m) / 2 == x / 2 + m / 2;
      NoCarry(x / 2, m / 2);
    }
  }

  ghost predicate IsPow2(a: nat) { exists k: nat {:trigger Bits.Pow2(k)} :: a == Bits.Pow2(k) }

  /** Every block's pointer is a multiple of the alignment if and only if the alignment, rounded up to words, is
      a power of two. */
  lemma AlignedIff(align: nat)
    requires align > 0
    ensures IsPow2(UpTo4(align)) <==>
            forall ptr: nat {:trigger AlignedPtr(ptr, align)} :: Aligned(ptr) ==> AlignedPtr(ptr, align) % UpTo4(align) == 0
  {
    var a := UpTo4(align);
    Rounded(align);
    if k: nat :| a == Bits.Pow2(k) {
      forall ptr: nat | Aligned(ptr) ensures AlignedPtr(ptr, align) % a == 0 { PowerAligns(ptr, align, k); }
    } else {
      var ptr := OthersMisalign(align);
    }
  }

  lemma PowerAligns(ptr: nat, align: nat, k: nat)
    requires align > 0 && UpTo4(align) == Bits.Pow2(k)
    ensures AlignedPtr(ptr, align) % UpTo4(align) == 0
  {
    hide And, UpTo4;
    var a := UpTo4(align);
    AndBelow(ptr, k);
    MaskedMultiple(ptr + (a - 1), k);
    if And(ptr, a - 1) == 0 { NextMultiple(ptr, a); }
  }

  lemma NextMultiple(x: nat, a: nat)
    requires a > 0 && x % a == 0
    ensures (x + a) % a == 0
  {
    Bits.DivUnique(x + a, a, x / a + 1, 0);
  }

  /** For any other alignment some block below twice the alignment shows it. */
  lemma OthersMisalign(align: nat) returns (ptr: nat)
    requires align > 0 && !IsPow2(UpTo4(align))
    ensures Aligned(ptr) && ptr < 2 * UpTo4(align) && AlignedPtr(ptr, align) % UpTo4(align) != 0
  {
    hide And, UpTo4, IsPow2, Bits.Pow2;
    Rounded(align);
    var a := UpTo4(align);
    ptr := FreeOfMask(a);
    if (ptr + a) % a == 0 { PreviousMultiple(ptr, a); }
  }

  /** The next power of two has no bit in common with the mask. */
  lemma FreeOfMask(a: nat) returns (ptr: nat)
    requires a > 0 && Aligned(a)
    ensures Aligned(ptr) && ptr < 2 * a && And(ptr, a - 1) == 0 && (ptr % a == 0 ==> IsPow2(a))
  {
    hide And, IsPow2;
    var k := PowAbove(a);
    ptr := Bits.Pow2(k);
    PowerApart(k, a - 1);
    assert k >= 2 by { assert a >= 4 && Bits.Pow2(1) == 2; }
    assert ptr == 4 * Bits.Pow2(k - 2);
    if ptr % a == 0 { PowDivides(k, a); }
  }

  lemma PreviousMultiple(x: nat, a: nat)
    requires a > 0 && (x + a) % a == 0
    ensures x % a == 0
  {
    Bits.DivUnique(x, a, (x + a) / a - 1, 0);
  }

  lemma {:induction false} PowAbove(a: nat) returns (k: nat)
    requires a > 0
    ensures a <= Bits.Pow2(k) < 2 * a
  {
    if a == 1 { k := 0; } else {
      k := PowAbove((a + 1) / 2);
      k := k + 1;
    }
  }

  lemma {:induction false} PowDivides(k: nat, a: nat)
    requires a > 0 && Bits.Pow2(k) % a == 0
    ensures IsPow2(a)
  {
    var p := Bits.Pow2(k);
    var q := p / a;
    assert p == a * q;
    if a == 1 {
      assert a == Bits.Pow2(0);
    } else if a % 2 == 0 {
      var b := a / 2;
      assert p == 2 * (b * q);
      assert k > 0;
      Bits.DivUnique(Bits.Pow2(k - 1), b, q, 0);
      PowDivides(k - 1, b);
      var j: nat :| b == Bits.Pow2(j);
      assert a == Bits.Pow2(j + 1);
    } else {
      assert k > 0;
      OddFactor(a, q, Bits.Pow2(k - 1));
      Bits.DivUnique(Bits.Pow2(k - 1), a, q / 2, 0);
      PowDivides(k - 1, a);
    }
  }

  lemma OddFactor(a: nat, q: nat, p: nat)
    requires a % 2 == 1 && a * q == 2 * p
    ensures a * (q / 2) == p
  {
    var b := a / 2;
    assert a * q == 2 * (b * q) + q;
    assert q % 2 == 0;
    assert a * q == 2 * (a * (q / 2));
  }

  /** Alignment 12 on a word-aligned block: the pointer is no multiple of 12. */
  lemma TwelveMisaligned()
    ensures AlignedPtr(0x2000_0000, 12) == 0x2000_000C && 0x2000_000C % 12 != 0
  {
    assert Bits.Pow2(5) == 32;
    Shifted(0x100_0000, 11);
  }

  /** A multiple of 32 has no bit in common with a smaller mask. */
  lemma Shifted(q: nat, m: nat)
    requires m < 32
    ensures And(32 * q, m) == 0
  {
    assert And(2 * q, m / 16) == 0 by { assert m / 16 < 2; }
    assert And(4 * q, m / 8) == 0;
    assert And(8 * q, m / 4) == 0;
    assert And(16 * q, m / 2) == 0;
  }

  lemma Rounded(n: nat)
    ensures Aligned(UpTo4(n)) && n <= UpTo4(n) < n + 4
  {
  }
}
