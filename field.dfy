/** The base field the arithmetization works over: integers modulo a constant prime P.
    Only addition, subtraction and the constants zero and one occur in the Padovan
    arithmetization, so no property proved here depends on the value of P beyond P > 1. */
module Field {

  /** The modulus of winterfell's 128-bit field f128: 2^128 - 45 * 2^40 + 1. */
  const P: nat := 340282366920938463463374557953744961537

  /** A canonical field element. */
  type Felt = x: int | 0 <= x < P

  const Zero: Felt := 0
  const One: Felt := 1

  /** Field addition: (a + b) mod P, reducing by at most one subtraction of P. */
  function Add(a: Felt, b: Felt): Felt
  {
    if a + b < P then a + b else a + b - P
  }

  /** Field subtraction, adding P back when the difference is negative. */
  function Sub(a: Felt, b: Felt): (r: Felt)
    ensures r == (a - b) % P
  {
    if a >= b then a - b else a - b + P
  }

  /** The residual of a constraint "a must equal b": a - b, zero exactly when the sides agree. */
  function AreEqual(a: Felt, b: Felt): (r: Felt)
    ensures r == Zero <==> a == b
  {
    Sub(a, b)
  }

  /** Adding one always changes an element, because P > 1. */
  lemma AddOneDiffers(x: Felt)
    ensures Add(x, One) != x
  {
  }

  /** Reducing the summands before adding gives the same element as reducing the sum. */
  lemma AddOfReduced(a: nat, b: nat)
    ensures Add(a % P, b % P) == (a + b) % P
  {
  }
}
