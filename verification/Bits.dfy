/** Bitwise OR on natural numbers, as the bisection and the decoders use it. */
module Bits {

  function Pow2(k: nat): (p: nat)
    ensures p > 0
  {
    if k == 0 then 1 else 2 * Pow2(k - 1)
  }

  /** `a | b`, bit by bit. */
  function BitOr(a: nat, b: nat): nat
  {
    if a == 0 && b == 0 then 0
    else 2 * BitOr(a / 2, b / 2) + (if a % 2 == 1 || b % 2 == 1 then 1 else 0)
  }

  lemma {:induction false} OrZero(a: nat)
    ensures BitOr(a, 0) == a
  {
    if a != 0 {
      OrZero(a / 2);
    }
  }

  /** OR of numbers without a common bit is addition: `m` counts blocks of 2^k, `b` fits below. */
  lemma {:induction false} OrOfDisjoint(m: nat, k: nat, b: nat)
    requires b < Pow2(k)
    ensures BitOr(m * Pow2(k), b) == m * Pow2(k) + b
  {
    if k == 0 {
      OrZero(m);
    } else {
      var p := Pow2(k - 1);
      assert m * Pow2(k) == 2 * (m * p);
      assert (2 * (m * p)) / 2 == m * p && (2 * (m * p)) % 2 == 0;
      OrOfDisjoint(m, k - 1, b / 2);
    }
  }
}
