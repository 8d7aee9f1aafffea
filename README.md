# Padovan arithmetization, modelled in Dafny

This project models the Padovan example of the winterfell STARK examples crate: the
arithmetization that lets the proof engine prove that a three-register Padovan recurrence
was run to a given length. It has four parts:

- the direct computation of the n-th term (`compute_pado_term`);
- the execution-trace builder (`PadoProver::build_trace`, `get_pub_inputs`), which fills a
  table of width 3 with one row per three terms, updating a state buffer in place;
- the constraint system (`PadoAir`): three degree-1 transition residuals and four boundary
  assertions;
- the example wiring (`get_example`, `PadoExample::new`, `prove`, `verify`,
  `verify_with_wrong_inputs`).

Field elements are integers modulo the constant `Field.P` (the f128 modulus); only
addition and subtraction occur, so nothing proved depends on the value of P beyond P > 1.
A failed `assert!`/`assert_eq!` is modelled as `Outcome.Panicked(message)`, the `String`
error of `get_example` as `Result.Err`. The proof engine is idealised (module `Engine`):
a proof is the trace it commits to, with its shape and options, and verification is the
predicate `Air.Accepts`: every transition residual vanishes on every consecutive pair of
rows and every boundary assertion holds.

The central theorem is `Example.AirCharacterisation`: for a trace shape of width 3 and
L >= 1 rows, the AIR accepts exactly one trace and one public input, the rows the prover
builds (row i holds terms 3i+1, 3i+2, 3i+3, `Prover.RowTerms`) and term 3L, which is what
`compute_pado_term` returns (`Utils.ComputePadoTerm`). Completeness (`ProveThenVerify`) and
the failure of verification with the result plus one (`VerifyWithWrongInputs`) follow.

Files: `field.dfy` (base field), `outcomes.dfy` (Result/Outcome), `engine.dfy` (engine
types and the trace table), `pado.dfy` (trace width, sequence-length rule), `utils.dfy`,
`prover.dfy`, `air.dfy`, `example.dfy` (one module per source file; `Example` also holds
the theorems that connect the parts).

Sequence length 9 is sometimes given as a three-row example, but the code rejects it:
9 / 3 = 3 is not a power of two (`Example.ScenarioNine`). Likewise the code does not check
n >= 3 in `compute_pado_term` explicitly; `n - 3` on an unsigned integer fails for smaller
n, which the model states as a precondition.

## Model

| member | source | states |
|---|---|---|
| `Field.AreEqual` | examples/src/padovan/pado/air.rs:60-62 | the residual of "a equals b" is zero exactly when a == b |
| `Field.AddOneDiffers` | examples/src/padovan/pado/mod.rs:126-128 | result + ONE never equals result |
| `Pado.IsPowerOfTwoIff` | examples/src/padovan/pado/prover.rs:34-37 | the power-of-two check holds exactly of the numbers 2^k (so 0 is rejected) |
| `Pado.ValidSequenceLengthBounds` | examples/src/padovan/pado/prover.rs:30-39 | an accepted sequence length is at least 3, a multiple of 3, and asks for at least one row |
| `Utils.TermIsPadovanModP` | examples/src/padovan/utils.rs:3-16 | the computed term is the integer Padovan term reduced mod P, whatever the modulus |
| `Utils.ComputePadoTerm` | examples/src/padovan/utils.rs:3-17 | for n >= 3, the shift loop run n - 3 times from (1,1,1) returns term n of the sequence with terms 1..3 equal to one and T(k) = T(k-2) + T(k-3); after i iterations the registers hold terms i+1, i+2, i+3 |
| `Utils.FirstTerms` | examples/src/padovan/utils.rs:4-16 | terms 3..9 are 1, 2, 2, 3, 4, 5, 7 |
| `Prover.NewProver` | examples/src/padovan/pado/prover.rs:20-25 | the prover keeps the options unchanged and `options()` returns them |
| `Prover.RowTerms` | examples/src/padovan/pado/prover.rs:27-28 | row i of the trace holds terms 3i+1, 3i+2 and 3i+3: each row advances the sequence by three terms |
| `Prover.LastRowHoldsTerm` | examples/src/padovan/pado/prover.rs:39-51 | for a valid length n, register 2 of the last of the n/3 rows is term n |
| `Prover.BuildTrace` | examples/src/padovan/pado/prover.rs:29-54 | a length that is not a multiple of 3, or whose third is not a power of two (including 0), panics with the source's message; otherwise a fresh table of width 3 and n/3 rows holding exactly the Padovan rows |
| `Prover.FillTrace` | examples/src/padovan/pado/prover.rs:39-51 | row 0 is (1,1,1) and row i+1 is the step of row i, for every row of the table |
| `Prover.StepInPlace` | examples/src/padovan/pado/prover.rs:46-50 | the buffer becomes (s0+s1, s1+s2, s2+(s0+s1)): the third update reads the updated s0 |
| `Prover.GetPubInputs` | examples/src/padovan/pado/prover.rs:68-71 | register 2 of the last row; on a trace built for length 3L it equals term 3L, the directly computed value |
| `Air.NewAir` | examples/src/padovan/pado/air.rs:26-38 | a width other than 3 panics; otherwise three degree-1 constraints, the trace shape, options and public input as given, and a declared assertion count equal to the length of the assertion list |
| `Air.EvaluateTransition` | examples/src/padovan/pado/air.rs:44-63 | three residuals; residual k is zero exactly when next[0] = cur[0]+cur[1], next[1] = cur[1]+cur[2], next[2] = cur[2]+next[0] respectively |
| `Air.GetAssertions` | examples/src/padovan/pado/air.rs:65-75 | four assertions, every one inside the trace (register < 3, step < trace length) |
| `Air.AssertionsPin` | examples/src/padovan/pado/air.rs:68-74 | the assertions hold exactly when registers 0, 1, 2 of row 0 are one and register 2 of the last row is the public input |
| `Air.EngineVerify` | examples/src/padovan/pado/mod.rs:122-124 | verification panics exactly on a proof of width other than 3 and succeeds exactly when the committed trace satisfies the AIR for the public input |
| `Example.NewExample` | examples/src/padovan/pado/mod.rs:60-85 | the two length checks with their messages; otherwise the options, length and hash stored unchanged and the result equal to term n |
| `Example.GetExample` | examples/src/padovan/pado/mod.rs:29-50 | Blake3-192, Blake3-256 and SHA3-256 give Ok of the example for the same length and options (or its panic); any other hash gives Err with the fixed message |
| `Example.Prove` | examples/src/padovan/pado/mod.rs:95-120 | panics exactly on an invalid length; otherwise the proof commits to the Padovan rows of width 3 and n/3 rows with the example's options |
| `Example.Verify` | examples/src/padovan/pado/mod.rs:122-124 | whenever verification succeeds, the committed trace is the prover's rows and the example's result is term 3L of their row count L |
| `Example.VerifyWithWrongInputs` | examples/src/padovan/pado/mod.rs:126-128 | whenever `verify` accepts a proof, verifying it against result + ONE fails |
| `Example.TransitionIffStep` | examples/src/padovan/pado/air.rs:56-62 | all three residuals vanish exactly when the next row is the prover's in-place step applied to the current row |
| `Example.PadoRowsSatisfyTransitions` | examples/src/padovan/pado/air.rs:56-62 | every consecutive pair of the built rows passes all three transition constraints |
| `Example.TransitionsDetermineRows` | examples/src/padovan/pado/air.rs:56-62 | rows starting with three ones that pass every transition constraint are the prover's rows |
| `Example.AirCharacterisation` | examples/src/padovan/pado/air.rs:56-74 | the AIR for L >= 1 rows accepts a trace and public input if and only if they are the prover's rows and term 3L |
| `Example.ProveThenVerify` | examples/src/padovan/pado/tests.rs:3-10 | for every constructed example, the proof of it verifies against its cached result |
| `Example.ScenarioNine` | examples/src/padovan/pado/prover.rs:34-37 | rows 0..2 are (1,1,1), (2,2,3), (4,5,7) and term 9 is 7, but length 9 is rejected |
| `Example.ScenarioTwelve` | examples/src/padovan/pado/prover.rs:39-51 | length 12 is accepted; its last row is (9,12,16) and term 12 is 16 |
| `Example.ScenarioLengths` | examples/src/padovan/pado/tests.rs:5-8 | length 48 (16 rows) is accepted; 47 and 0 are rejected |

## Left out

- Proving and verification inside the engine (commitments, low-degree testing, random
  coins, `DefaultTraceLde`): a proof is idealised as the trace it commits to, and
  verification as AIR satisfaction (`Air.Accepts`), so the model assumes a perfectly sound
  and complete engine; the failure of `prover.prove(..).unwrap()` is not modelled.
- Hash functions and the `PhantomData` hasher tag: the hash choice is an enumeration field;
  the crate's hash variants other than the three accepted ones are collapsed into `OtherHash`.
- `ExampleOptions::to_proof_options(28, 8)` and `build_proof_options`: `GetExample` takes the
  resulting `ProofOptions` and hash function directly; proof options are never interpreted.
- Logging and timing (`debug!`, `Instant`, `ilog2`).
- Checks made inside winterfell's `TraceTable::new` and `AirContext::new` (for example a
  minimum trace length of 8 rows), which are not part of this model.
- The extension-field type parameter of `evaluate_transition`: residuals are evaluated over
  the base field only.
- `usize` width: sequence lengths are unbounded naturals; the only place the width matters,
  `n - 3` in `compute_pado_term`, is a precondition of `Utils.ComputePadoTerm`.
- `crate::utils::are_equal` is not part of this model; `Field.AreEqual` is its subtraction
  `a - b`.
