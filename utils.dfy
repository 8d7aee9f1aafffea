/** The direct computation of a Padovan term, used to cross-check the public input
    read off the execution trace. */
module Utils {
  import opened Field

  /** The Padovan sequence over the integers, indexed so that terms 1, 2 and 3 are 1
      (term 0 is 0, which keeps the recurrence valid from k = 3 on). */
  function Padovan(k: nat): nat
  {
    if k == 0 then 0 else if k <= 2 then 1 else Padovan(k - 2) + Padovan(k - 3)
  }

  /** The same sequence computed in the field: the value `compute_pado_term(k)` must return. */
  function Term(k: nat): Felt
  {
    if k == 0 then Zero else if k <= 2 then One else Add(Term(k - 2), Term(k - 3))
  }

  /** The field term is the integer term reduced mod P, whatever the modulus is. */
  lemma {:induction false} TermIsPadovanModP(k: nat)
    ensures Term(k) == Padovan(k) % P
  {
    if k > 2 {
      TermIsPadovanModP(k - 2);
      TermIsPadovanModP(k - 3);
      AddOfReduced(Padovan(k - 2), Padovan(k - 3));
    }
  }

  /** `compute_pado_term`: runs t3 = t0 + t1 with a three-register shift n - 3 times from
      (1, 1, 1) and returns t2. The source subtracts 3 from an unsigned n, hence n >= 3. */
  method ComputePadoTerm(n: nat) returns (t: Felt)
    requires n >= 3
    ensures t == Term(n)
  {
    var t0, t1, t2 := One, One, One;
    for i := 0 to n - 3
      invariant t0 == Term(i + 1) && t1 == Term(i + 2) && t2 == Term(i + 3)
    {
      var t3 := Add(t0, t1);
      t0 := t1;
      t1 := t2;
      t2 := t3;
    }
    t := t2;
  }

  /** The first terms, as the shift produces them. */
  lemma FirstTerms()
    ensures Term(3) == One
    ensures Term(4) == 2 && Term(5) == 2 && Term(6) == 3
    ensures Term(7) == 4 && Term(8) == 5 && Term(9) == 7
  {
  }
}
