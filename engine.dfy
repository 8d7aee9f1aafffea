/** The boundary of the external proof engine (winterfell) as far as the Padovan
    arithmetization uses it. Proving and verification themselves are not modelled:
    a proof is idealised as the trace it commits to, together with the shape and options
    it was made for, and verification as the predicate that this trace satisfies the AIR. */
module Engine {
  import opened Field

  /** The field-extension choice carried by the proof options. */
  datatype FieldExtension = NoExtension | Quadratic | Cubic

  /** Proof options: passed through to the engine unchanged and never interpreted here. */
  datatype ProofOptions = ProofOptions(
    numQueries: nat,
    blowupFactor: nat,
    grindingFactor: nat,
    fieldExtension: FieldExtension,
    friFoldingFactor: nat,
    friMaxRemainderSize: nat)

  /** The hash functions an example can be asked to use; the variants this
      arithmetization does not accept are collapsed into `OtherHash`. */
  datatype HashFunction = Blake3_192 | Blake3_256 | Sha3_256 | OtherHash

  /** The shape of an execution trace: registers per row and number of rows. */
  datatype TraceInfo = TraceInfo(width: nat, length: nat)

  /** Transition-constraint degrees, declared assertion count and options of an AIR. */
  datatype AirContext = AirContext(
    traceInfo: TraceInfo,
    degrees: seq<nat>,
    numAssertions: nat,
    options: ProofOptions)

  /** A boundary assertion: register `register` at row `step` must hold `value`. */
  datatype Assertion = Assertion(register: nat, step: nat, value: Felt)

  /** The engine's verification failure, for every reason it can reject. */
  datatype VerifierError = VerificationFailed

  /** A proof, idealised: the trace shape and options it was made for and the rows it commits to. */
  datatype StarkProof = StarkProof(traceInfo: TraceInfo, options: ProofOptions, trace: seq<seq<Felt>>)

  /** An execution trace table of `length` rows of `width` registers, filled in place. */
  class TraceTable {
    const width: nat
    const length: nat
    const cells: array2<Felt>

    ghost predicate Valid() {
      cells.Length0 == length && cells.Length1 == width
    }

    constructor (width: nat, length: nat)
      ensures this.width == width && this.length == length
      ensures Valid() && fresh(cells)
    {
      this.width := width;
      this.length := length;
      cells := new Felt[length, width];
    }

    /** The value of register `register` at row `step`. */
    function Get(register: nat, step: nat): (v: Felt)
      reads cells
      requires Valid() && register < width && step < length
      ensures v == Rows()[step][register]
    {
      cells[step, register]
    }

    /** The table as a sequence of rows. */
    function Rows(): (rows: seq<seq<Felt>>)
      reads cells
      requires Valid()
      ensures |rows| == length
      ensures forall i :: 0 <= i < length ==> |rows[i]| == width
    {
      seq(length, i requires 0 <= i < length reads cells =>
        seq(width, j requires 0 <= j < width reads cells => cells[i, j]))
    }

    /** Copies the state buffer into row `step`; no other row changes. */
    method UpdateRow(step: nat, state: array<Felt>)
      requires Valid() && step < length && state.Length == width
      modifies cells
      ensures forall j :: 0 <= j < width ==> cells[step, j] == state[j]
      ensures forall i, j :: 0 <= i < length && i != step && 0 <= j < width ==> cells[i, j] == old(cells[i, j])
    {
      for j := 0 to width
        invariant forall i, k :: 0 <= i < length && 0 <= k < width ==>
          cells[i, k] == if i == step && k < j then state[k] else old(cells[i, k])
      {
        cells[step, j] := state[j];
      }
    }
  }
}
