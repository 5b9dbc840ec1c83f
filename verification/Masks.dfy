/** Bitwise and on unsigned numbers. */
module Masks {
  import Bits

  /** Bitwise and. */
  function And(x: nat, m: nat): (r: nat)
    ensures r <= x && r <= m
  {
    if x == 0 || m == 0 then 0 else (if x % 2 == 1 && m % 2 == 1 then 1 else 0) + 2 * And(x / 2, m / 2)
  }

  /** x & ~m. */
  function Masked(x: nat, m: nat): nat { x - And(x, m) }

  /** x | y */
  function Or(x: nat, y: nat): nat { x + y - And(x, y) }

  lemma {:induction false} AndBelow(x: nat, k: nat)
    ensures And(x, Bits.Pow2(k) - 1) == x % Bits.Pow2(k)
  {
    if k > 0 {
      var p := Bits.Pow2(k - 1);
      AndBelow(x / 2, k - 1);
      Bits.HalveMod(x, p);
      assert (2 * p - 1) / 2 == p - 1 && (2 * p - 1) % 2 == 1;
    }
  }

  lemma {:induction false} PowerApart(k: nat, m: nat)
    requires m < Bits.Pow2(k)
    ensures And(Bits.Pow2(k), m) == 0
  {
    if k > 0 { PowerApart(k - 1, m / 2); }
  }

  lemma MaskedMultiple(x: nat, k: nat)
    ensures Masked(x, Bits.Pow2(k) - 1) % Bits.Pow2(k) == 0
  {
    AndBelow(x, k);
    hide And, Bits.Pow2;
    var a := Bits.Pow2(k);
    Bits.DivUnique(a * (x / a), a, x / a, 0);
  }

  /** A mask with its two lowest bits set clears those of x. */
  lemma LowTwo(x: nat, m: nat)
    requires m % 4 == 3
    ensures Masked(x, m) % 4 == 0
  {
    var x1, m1 := x / 2, m / 2;
    assert m1 % 2 == 1;
    assert x == 4 * (x1 / 2) + 2 * (x1 % 2) + x % 2;
    assert x1 > 0 ==> And(x1, m1) == x1 % 2 + 2 * And(x1 / 2, m1 / 2);
    if x > 0 { assert And(x, m) == x % 2 + 2 * And(x1, m1); }
  }

  /** With its three lowest bits set, it clears three. */
  lemma LowThree(x: nat, m: nat)
    requires m % 8 == 7
    ensures Masked(x, m) % 8 == 0
  {
    hide And;
    var x1, m1 := x / 2, m / 2;
    LowTwo(x1, m1);
    AndStep(x, m);
    assert x == 2 * x1 + x % 2 && Masked(x, m) == 2 * Masked(x1, m1);
    Doubled(Masked(x1, m1));
  }

  lemma AndStep(x: nat, m: nat)
    requires m % 2 == 1
    ensures And(x, m) == x % 2 + 2 * And(x / 2, m / 2)
  {
  }

  lemma Doubled(x: nat)
    requires x % 4 == 0
    ensures 2 * x % 8 == 0
  {
  }
}
