/** The Padovan AIR: three degree-1 transition constraints between consecutive rows and
    four boundary assertions, together with the engine's acceptance condition for it. */
module Air {
  import opened Field
  import opened Outcomes
  import opened Engine
  import opened Pado

  /** The AIR: its context (trace shape, degrees, assertion count, options) and the public input. */
  datatype PadoAir = PadoAir(context: AirContext, result: Felt)

  /** Number of rows of the trace the AIR describes. */
  function TraceLength(air: PadoAir): nat
  {
    air.context.traceInfo.length
  }

  /** `PadoAir::new`: declares three degree-1 transition constraints and four assertions;
      a trace whose width is not `TraceWidth` is a fatal configuration error. */
  function NewAir(info: TraceInfo, pubInputs: Felt, options: ProofOptions): (r: Outcome<PadoAir>)
    ensures r.Returned? <==> info.width == TraceWidth
    ensures r.Returned? ==>
      r.value.context.traceInfo == info && r.value.context.options == options && r.value.result == pubInputs
    ensures r.Returned? ==>
      |r.value.context.degrees| == 3 && forall d :: d in r.value.context.degrees ==> d == 1
    ensures r.Returned? && info.length >= 1 ==> r.value.context.numAssertions == |GetAssertions(r.value)|
  {
    var degrees := [1, 1, 1];
    if TraceWidth != info.width then
      Panicked("assertion `left == right` failed")
    else
      Returned(PadoAir(AirContext(info, degrees, 4, options), pubInputs))
  }

  /** `evaluate_transition`: the three residuals over a (current, next) frame. Each is zero
      exactly when the corresponding Padovan relation holds:
      next[0] = current[0] + current[1], next[1] = current[1] + current[2] and
      next[2] = current[2] + next[0]. */
  function EvaluateTransition(current: seq<Felt>, next: seq<Felt>): (result: seq<Felt>)
    requires |current| == TraceWidth && |next| == TraceWidth
    ensures |result| == TraceWidth
    ensures result[0] == Zero <==> next[0] == Add(current[0], current[1])
    ensures result[1] == Zero <==> next[1] == Add(current[1], current[2])
    ensures result[2] == Zero <==> next[2] == Add(current[2], next[0])
  {
    [ AreEqual(next[0], Add(current[0], current[1])),
      AreEqual(next[1], Add(current[1], current[2])),
      AreEqual(next[2], Add(current[2], next[0])) ]
  }

  /** `get_assertions`: registers 0, 1 and 2 of the first row are one, register 2 of the
      last row is the public input. */
  function GetAssertions(air: PadoAir): (r: seq<Assertion>)
    requires TraceLength(air) >= 1
    ensures |r| == 4
    ensures forall a :: a in r ==> a.register < TraceWidth && a.step < TraceLength(air)
  {
    var lastStep := TraceLength(air) - 1;
    [ Assertion(0, 0, One),
      Assertion(1, 0, One),
      Assertion(2, 0, One),
      Assertion(2, lastStep, air.result) ]
  }

  /** The rows have the shape the AIR describes. */
  predicate WellShaped(air: PadoAir, rows: seq<seq<Felt>>)
  {
    air.context.traceInfo.width == TraceWidth && TraceLength(air) >= 1 &&
    |rows| == TraceLength(air) && forall i :: 0 <= i < |rows| ==> |rows[i]| == TraceWidth
  }

  /** Every boundary assertion holds on the rows. */
  predicate AssertionsHold(air: PadoAir, rows: seq<seq<Felt>>)
    requires WellShaped(air, rows)
  {
    forall a :: a in GetAssertions(air) ==> rows[a.step][a.register] == a.value
  }

  /** Every transition residual vanishes on every consecutive pair of rows. */
  predicate TransitionsHold(rows: seq<seq<Felt>>)
    requires forall i :: 0 <= i < |rows| ==> |rows[i]| == TraceWidth
  {
    forall i :: 0 <= i < |rows| - 1 ==> EvaluateTransition(rows[i], rows[i + 1]) == [Zero, Zero, Zero]
  }

  /** What the engine's verifier establishes about a trace for this AIR. */
  predicate Accepts(air: PadoAir, rows: seq<seq<Felt>>)
  {
    WellShaped(air, rows) && TransitionsHold(rows) && AssertionsHold(air, rows)
  }

  /** The four assertions pin exactly the first row to ones and register 2 of the last
      row to the public input. */
  lemma AssertionsPin(air: PadoAir, rows: seq<seq<Felt>>)
    requires WellShaped(air, rows)
    ensures AssertionsHold(air, rows) <==>
      rows[0][0] == One && rows[0][1] == One && rows[0][2] == One &&
      rows[TraceLength(air) - 1][2] == air.result
  {
  }

  /** The engine's verification of a proof against a public input: build the AIR for the
      proof's trace shape and options, then check that the committed trace satisfies it. */
  function EngineVerify(proof: StarkProof, pubInputs: Felt): (r: Outcome<Result<(), VerifierError>>)
    ensures r.Panicked? <==> proof.traceInfo.width != TraceWidth
    ensures r == Returned(Ok(())) <==>
      NewAir(proof.traceInfo, pubInputs, proof.options).Returned? &&
      Accepts(NewAir(proof.traceInfo, pubInputs, proof.options).value, proof.trace)
  {
    match NewAir(proof.traceInfo, pubInputs, proof.options)
    case Panicked(message) => Panicked(message)
    case Returned(air) =>
      if Accepts(air, proof.trace) then Returned(Ok(())) else Returned(Err(VerificationFailed))
  }
}
