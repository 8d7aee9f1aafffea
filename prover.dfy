/** The Padovan prover: builds the execution trace (three terms of the sequence per row)
    and reads the public input off it. */
module Prover {
  import opened Field
  import opened Outcomes
  import opened Engine
  import opened Pado
  import opened Utils

  /** The prover: the proof options and the hash function it is parameterised by. */
  datatype PadoProver = PadoProver(options: ProofOptions, hash: HashFunction)

  /** `PadoProver::new`: keeps the options as given. */
  function NewProver(options: ProofOptions, hash: HashFunction): (p: PadoProver)
    ensures Options(p) == options && p.hash == hash
  {
    PadoProver(options, hash)
  }

  /** `options()`: the options the prover was created with. */
  function Options(p: PadoProver): ProofOptions
  {
    p.options
  }

  /** Row 0 of every trace: three ones. */
  const InitialRow: seq<Felt> := [One, One, One]

  /** The in-place row update s0 += s1; s1 += s2; s2 += s0, where the last addition
      reads the already-updated s0. */
  function Step(s: seq<Felt>): (r: seq<Felt>)
    requires |s| == TraceWidth
    ensures |r| == TraceWidth
  {
    var s0 := Add(s[0], s[1]);
    var s1 := Add(s[1], s[2]);
    [s0, s1, Add(s[2], s0)]
  }

  /** Row i of the trace: the step applied i times to the initial row. */
  function PadoRow(i: nat): (r: seq<Felt>)
    ensures |r| == TraceWidth
  {
    if i == 0 then InitialRow else Step(PadoRow(i - 1))
  }

  /** The first `length` rows of the trace. */
  function PadoRows(length: nat): (rows: seq<seq<Felt>>)
    ensures |rows| == length
    ensures forall i :: 0 <= i < length ==> rows[i] == PadoRow(i)
  {
    seq(length, i requires 0 <= i < length => PadoRow(i))
  }

  /** Each row advances the sequence by three terms: row i holds terms 3i+1, 3i+2, 3i+3. */
  lemma {:induction false} RowTerms(i: nat)
    ensures PadoRow(i) == [Term(3 * i + 1), Term(3 * i + 2), Term(3 * i + 3)]
  {
    if i > 0 {
      RowTerms(i - 1);
      var k := 3 * i;
      var a, b, c := Term(k - 2), Term(k - 1), Term(k);
      assert PadoRow(i) == Step([a, b, c]);
      assert Term(k + 1) == Add(a, b);
      assert Term(k + 2) == Add(b, c);
      assert Term(k + 3) == Add(c, Term(k + 1));
    }
  }

  /** The last row of the trace for a valid sequence length n holds term n in register 2. */
  lemma LastRowHoldsTerm(n: nat)
    requires ValidSequenceLength(n)
    ensures n / 3 >= 1 && PadoRow(n / 3 - 1)[2] == Term(n)
  {
    ValidSequenceLengthBounds(n);
    RowTerms(n / 3 - 1);
  }

  /** `build_trace`: checks the sequence length, then fills a table of width 3 and
      n / 3 rows. */
  method BuildTrace(p: PadoProver, sequenceLength: nat) returns (r: Outcome<TraceTable>)
    ensures sequenceLength % 3 != 0 ==> r == Panicked("sequence length must multiple of 3")
    ensures sequenceLength % 3 == 0 && !IsPowerOfTwo(sequenceLength / 3) ==>
      r == Panicked("sequence length / 3 must be a power of 2")
    ensures r.Returned? <==> ValidSequenceLength(sequenceLength)
    ensures r.Returned? ==> fresh(r.value.cells) && r.value.Valid()
    ensures r.Returned? ==> r.value.width == TraceWidth && r.value.length == sequenceLength / 3
    ensures r.Returned? ==> r.value.Rows() == PadoRows(sequenceLength / 3)
  {
    if sequenceLength % 3 != 0 {
      return Panicked("sequence length must multiple of 3");
    }
    if !IsPowerOfTwo(sequenceLength / 3) {
      return Panicked("sequence length / 3 must be a power of 2");
    }
    var trace := new TraceTable(TraceWidth, sequenceLength / 3);
    FillTrace(trace);
    return Returned(trace);
  }

  /** The table fill of `build_trace`: a state buffer set to ones is written to row 0, then
      updated in place by the step and written to each following row. */
  method FillTrace(trace: TraceTable)
    requires trace.Valid() && trace.width == TraceWidth && trace.length >= 1
    modifies trace.cells
    ensures trace.Rows() == PadoRows(trace.length)
  {
    var state := new Felt[TraceWidth];
    state[0], state[1], state[2] := One, One, One;
    trace.UpdateRow(0, state);
    var i := 0;
    while i < trace.length - 1
      invariant 0 <= i < trace.length
      invariant state[..] == PadoRow(i)
      invariant FilledUpTo(trace, i)
    {
      StepInPlace(state);
      trace.UpdateRow(i + 1, state);
      i := i + 1;
    }
    RowsOfFilledTable(trace);
  }

  /** Rows 0 to `last` of the table hold the Padovan rows. */
  ghost predicate FilledUpTo(trace: TraceTable, last: nat)
    reads trace.cells
    requires trace.Valid() && trace.width == TraceWidth && last < trace.length
  {
    forall k, j :: 0 <= k <= last && 0 <= j < TraceWidth ==> trace.cells[k, j] == PadoRow(k)[j]
  }

  /** The update closure of `build_trace`: `s0 += s1; s1 += s2; s2 += s0` on the state buffer. */
  method StepInPlace(state: array<Felt>)
    requires state.Length == TraceWidth
    modifies state
    ensures state[..] == Step(old(state[..]))
  {
    state[0] := Add(state[0], state[1]);
    state[1] := Add(state[1], state[2]);
    state[2] := Add(state[2], state[0]);
  }

  /** A table whose every cell agrees with the Padovan rows is, row by row, those rows. */
  lemma RowsOfFilledTable(trace: TraceTable)
    requires trace.Valid() && trace.width == TraceWidth
    requires trace.length >= 1 && FilledUpTo(trace, trace.length - 1)
    ensures trace.Rows() == PadoRows(trace.length)
  {
    forall k | 0 <= k < trace.length
      ensures trace.Rows()[k] == PadoRow(k)
    {
    }
  }

  /** `get_pub_inputs`: register 2 of the last row. On a trace built for sequence length n
      this is term n, the value the direct computation gives. */
  function GetPubInputs(p: PadoProver, trace: TraceTable): (v: Felt)
    reads trace.cells
    requires trace.Valid() && trace.width == TraceWidth && trace.length >= 1
    ensures trace.Rows() == PadoRows(trace.length) ==> v == Term(3 * trace.length)
  {
    var last := trace.length - 1;
    RowTerms(last);
    trace.Get(2, last)
  }
}
