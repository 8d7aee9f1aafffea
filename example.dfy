/** The Padovan example: construction and dispatch on the hash function, proving and
    verification through the engine, and the theorems tying the trace builder, the AIR
    and the direct term computation together. */
module Example {
  import opened Field
  import opened Outcomes
  import opened Engine
  import opened Pado
  import opened Utils
  import opened Prover
  import opened Air

  /** An example instance: options, sequence length, the expected result computed
      directly, and the hash function it proves and verifies with. */
  datatype PadoExample = PadoExample(
    options: ProofOptions,
    sequenceLength: nat,
    result: Felt,
    hash: HashFunction)

  /** What every constructed example satisfies. */
  predicate Consistent(e: PadoExample)
  {
    ValidSequenceLength(e.sequenceLength) && e.result == Term(e.sequenceLength)
  }

  const UnsupportedHashMessage: string := "The specified hash function cannot be used with this example."

  /** `PadoExample::new`: checks the sequence length, then caches the directly computed
      term as the expected result. */
  method NewExample(sequenceLength: nat, options: ProofOptions, hash: HashFunction)
    returns (r: Outcome<PadoExample>)
    ensures sequenceLength % 3 != 0 ==> r == Panicked("sequence length must multiple of 3")
    ensures sequenceLength % 3 == 0 && !IsPowerOfTwo(sequenceLength / 3) ==>
      r == Panicked("sequence length / 3 must be a power of 2")
    ensures r.Returned? <==> ValidSequenceLength(sequenceLength)
    ensures r.Returned? ==> r.value == PadoExample(options, sequenceLength, Term(sequenceLength), hash)
    ensures r.Returned? ==> Consistent(r.value)
  {
    if sequenceLength % 3 != 0 {
      return Panicked("sequence length must multiple of 3");
    }
    if !IsPowerOfTwo(sequenceLength / 3) {
      return Panicked("sequence length / 3 must be a power of 2");
    }
    ValidSequenceLengthBounds(sequenceLength);
    var result := ComputePadoTerm(sequenceLength);
    return Returned(PadoExample(options, sequenceLength, result, hash));
  }

  /** `get_example`: Blake3-192, Blake3-256 and SHA3-256 build an example with the same
      sequence length and options; any other hash function is an error. */
  method GetExample(options: ProofOptions, hash: HashFunction, sequenceLength: nat)
    returns (r: Outcome<Result<PadoExample, string>>)
    ensures hash == OtherHash ==> r == Returned(Err(UnsupportedHashMessage))
    ensures hash != OtherHash ==> (r.Panicked? <==> !ValidSequenceLength(sequenceLength))
    ensures hash != OtherHash && r.Returned? ==>
      r.value == Ok(PadoExample(options, sequenceLength, Term(sequenceLength), hash))
  {
    match hash {
      case Blake3_192 | Blake3_256 | Sha3_256 =>
        var e := NewExample(sequenceLength, options, hash);
        match e {
          case Panicked(message) => return Panicked(message);
          case Returned(example) => return Returned(Ok(example));
        }
      case OtherHash =>
        return Returned(Err(UnsupportedHashMessage));
    }
  }

  /** The proof the idealised engine produces for an example: the trace for its sequence
      length with its shape and options. */
  function HonestProof(e: PadoExample): StarkProof
  {
    StarkProof(TraceInfo(TraceWidth, e.sequenceLength / 3), e.options, PadoRows(e.sequenceLength / 3))
  }

  /** `prove`: builds the trace with a prover holding the example's options and hands it
      to the engine, which commits to it. */
  method Prove(e: PadoExample) returns (r: Outcome<StarkProof>)
    ensures r.Returned? <==> ValidSequenceLength(e.sequenceLength)
    ensures r.Returned? ==> r.value == HonestProof(e)
  {
    var prover := NewProver(e.options, e.hash);
    var built := BuildTrace(prover, e.sequenceLength);
    match built {
      case Panicked(message) =>
        return Panicked(message);
      case Returned(trace) =>
        var info := TraceInfo(trace.width, trace.length);
        return Returned(StarkProof(info, Options(prover), trace.Rows()));
    }
  }

  /** `verify`: the engine's verification against the cached result. A proof it accepts
      commits to the prover's rows, and the result is the term those rows end with. */
  function Verify(e: PadoExample, proof: StarkProof): (r: Outcome<Result<(), VerifierError>>)
    ensures r == Returned(Ok(())) ==>
      proof.traceInfo.length >= 1 &&
      proof.trace == PadoRows(proof.traceInfo.length) && e.result == Term(3 * proof.traceInfo.length)
  {
    var r := EngineVerify(proof, e.result);
    if r == Returned(Ok(())) then
      AirCharacterisation(NewAir(proof.traceInfo, e.result, proof.options).value, proof.trace);
      r
    else
      r
  }

  /** `verify_with_wrong_inputs`: the same verification against the result plus one. No
      proof passes both, so whenever `verify` accepts, this rejects. */
  function VerifyWithWrongInputs(e: PadoExample, proof: StarkProof): (r: Outcome<Result<(), VerifierError>>)
    ensures Verify(e, proof) == Returned(Ok(())) ==> r == Returned(Err(VerificationFailed))
  {
    var r := EngineVerify(proof, Add(e.result, One));
    if Verify(e, proof) == Returned(Ok(())) then
      var good := NewAir(proof.traceInfo, e.result, proof.options).value;
      var bad := NewAir(proof.traceInfo, Add(e.result, One), proof.options).value;
      AssertionsPin(good, proof.trace);
      AssertionsPin(bad, proof.trace);
      AddOneDiffers(e.result);
      r
    else
      r
  }

  /** All three residuals vanish exactly when the next row is the prover's step applied
      to the current one. */
  lemma TransitionIffStep(current: seq<Felt>, next: seq<Felt>)
    requires |current| == TraceWidth && |next| == TraceWidth
    ensures EvaluateTransition(current, next) == [Zero, Zero, Zero] <==> next == Step(current)
  {
  }

  /** The trace the prover builds satisfies every transition constraint. */
  lemma PadoRowsSatisfyTransitions(length: nat)
    ensures TransitionsHold(PadoRows(length))
  {
    var rows := PadoRows(length);
    forall i | 0 <= i < length - 1
      ensures EvaluateTransition(rows[i], rows[i + 1]) == [Zero, Zero, Zero]
    {
      TransitionIffStep(rows[i], rows[i + 1]);
    }
  }

  /** Rows that satisfy every transition constraint and start with three ones are the
      prover's rows. */
  lemma {:induction false} TransitionsDetermineRows(rows: seq<seq<Felt>>, k: nat)
    requires forall i :: 0 <= i < |rows| ==> |rows[i]| == TraceWidth
    requires TransitionsHold(rows)
    requires |rows| >= 1 && rows[0] == InitialRow
    requires k < |rows|
    ensures rows[k] == PadoRow(k)
  {
    if k > 0 {
      TransitionsDetermineRows(rows, k - 1);
      TransitionIffStep(rows[k - 1], rows[k]);
    }
  }

  /** The AIR for a trace of `length` rows accepts exactly one trace and one public input:
      the prover's rows, with term 3 * length. */
  lemma AirCharacterisation(air: PadoAir, rows: seq<seq<Felt>>)
    requires air.context.traceInfo.width == TraceWidth && TraceLength(air) >= 1
    ensures Accepts(air, rows) <==>
      rows == PadoRows(TraceLength(air)) && air.result == Term(3 * TraceLength(air))
  {
    var length := TraceLength(air);
    RowTerms(length - 1);
    RowTerms(0);
    if Accepts(air, rows) {
      AssertionsPin(air, rows);
      assert rows[0] == InitialRow;
      forall k | 0 <= k < length
        ensures rows[k] == PadoRow(k)
      {
        TransitionsDetermineRows(rows, k);
      }
    }
    if rows == PadoRows(length) && air.result == Term(3 * length) {
      PadoRowsSatisfyTransitions(length);
      AssertionsPin(air, rows);
    }
  }

  /** Completeness (the basic proof-verification scenario): the proof of a constructed
      example verifies against its cached result. */
  lemma ProveThenVerify(e: PadoExample)
    requires Consistent(e)
    ensures Verify(e, HonestProof(e)) == Returned(Ok(()))
  {
    var n := e.sequenceLength;
    ValidSequenceLengthBounds(n);
    var proof := HonestProof(e);
    var air := NewAir(proof.traceInfo, e.result, proof.options).value;
    AirCharacterisation(air, proof.trace);
  }

  /** The first three rows are (1, 1, 1), (2, 2, 3), (4, 5, 7), and term 9 is 7; but 9 itself
      is not a valid sequence length, since 9 / 3 = 3 is not a power of two. */
  lemma ScenarioNine()
    ensures !ValidSequenceLength(9)
    ensures PadoRows(3) == [[1, 1, 1], [2, 2, 3], [4, 5, 7]]
    ensures Term(9) == 7
  {
    assert PadoRow(1) == [2, 2, 3];
    assert PadoRow(2) == [4, 5, 7];
  }

  /** Sequence length 12 is valid: four rows, the last (9, 12, 16), and term 12 is 16. */
  lemma ScenarioTwelve()
    ensures ValidSequenceLength(12)
    ensures PadoRows(4)[3] == [9, 12, 16] && Term(12) == 16
  {
    assert IsPowerOfTwo(4) by { assert IsPowerOfTwo(2); }
    assert PadoRow(1) == [2, 2, 3];
    assert PadoRow(2) == [4, 5, 7];
    assert PadoRow(3) == [9, 12, 16];
  }

  /** Sequence length 48 (sixteen rows) is accepted; 47 and 0 are rejected. */
  lemma ScenarioLengths()
    ensures ValidSequenceLength(48) && 48 / 3 == 16
    ensures !ValidSequenceLength(47) && !ValidSequenceLength(0)
  {
    assert IsPowerOfTwo(16) by {
      assert IsPowerOfTwo(2) && IsPowerOfTwo(4) && IsPowerOfTwo(8);
    }
  }
}
