/** Definitions shared by the Padovan prover, AIR and example: the trace width and the
    validity rule for a requested sequence length. */
module Pado {

  /** Registers per trace row; the prover's table and the AIR both use it. */
  const TraceWidth: nat := 3

  /** Rust's `usize::is_power_of_two`: exactly one bit set (so 0 is not a power of two). */
  predicate IsPowerOfTwo(m: nat)
    decreases m
  {
    m == 1 || (m >= 2 && m % 2 == 0 && IsPowerOfTwo(m / 2))
  }

  /** 2^k. */
  function Pow2(k: nat): (r: nat)
    ensures r >= 1
  {
    if k == 0 then 1 else 2 * Pow2(k - 1)
  }

  /** `IsPowerOfTwo` holds exactly of the numbers 2^k. */
  lemma {:induction false} IsPowerOfTwoIff(m: nat)
    ensures IsPowerOfTwo(m) <==> exists k: nat :: Pow2(k) == m
  {
    if IsPowerOfTwo(m) {
      PowerOfTwoHasExponent(m);
    }
    if exists k: nat :: Pow2(k) == m {
      var k: nat :| Pow2(k) == m;
      ExponentGivesPowerOfTwo(k);
    }
  }

  lemma {:induction false} PowerOfTwoHasExponent(m: nat)
    requires IsPowerOfTwo(m)
    ensures exists k: nat :: Pow2(k) == m
    decreases m
  {
    if m == 1 {
      assert Pow2(0) == 1;
    } else {
      PowerOfTwoHasExponent(m / 2);
      var k: nat :| Pow2(k) == m / 2;
      assert Pow2(k + 1) == m;
    }
  }

  lemma {:induction false} ExponentGivesPowerOfTwo(k: nat)
    ensures IsPowerOfTwo(Pow2(k))
  {
    if k > 0 {
      ExponentGivesPowerOfTwo(k - 1);
      assert Pow2(k) / 2 == Pow2(k - 1);
    }
  }

  /** The rule both the trace builder and the example constructor enforce on a sequence
      length: a multiple of 3 whose third is a power of two. */
  predicate ValidSequenceLength(n: nat) {
    n % 3 == 0 && IsPowerOfTwo(n / 3)
  }

  /** A valid sequence length is at least 3, and the trace it asks for has at least one row. */
  lemma ValidSequenceLengthBounds(n: nat)
    requires ValidSequenceLength(n)
    ensures n >= 3 && n / 3 >= 1 && n == 3 * (n / 3)
  {
  }
}
