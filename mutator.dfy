/** `FandangoPseudoMutator`: "mutates" an input by replacing it with the
    next grammar input, whatever it held before. */
module Mutator {
  import opened Common
  import opened Fandango

  const MUTATOR_NAME: string := "FandangoPseudoMutator"

  /** `BytesInput`: the owned bytes of one input. */
  class BytesInput {
    var bytes: Bytes

    constructor (bytes: Bytes)
      ensures this.bytes == bytes
    {
      this.bytes := bytes;
    }
  }

  /** What the `k`-th call through the handle makes of an input: the new
      content and `Mutated`, or the bridge error. */
  function MutateAt(unit: PyUnit, session: Session, k: nat, before: Bytes): (r: Result<(MutationResult, Bytes), Error>)
    // never skips
    ensures r.Ok? ==> r.value.0 == Mutated
    // succeeds exactly when the bridge call does, with its output
    ensures r.Ok? <==> NextInputAt(unit, session, k).Ok?
    ensures r.Ok? ==> r.value.1 == NextInputAt(unit, session, k).value
    ensures r.Err? ==> r.error == BridgeError(NextInputAt(unit, session, k).error)
  {
    match NextInputAt(unit, session, k)
    case Err(e) => Err(BridgeError(e))
    case Ok(b) => Ok((Mutated, b))
  }

  /** The old content of the input plays no part. */
  lemma MutationIgnoresInput(unit: PyUnit, session: Session, k: nat, a: Bytes, b: Bytes)
    ensures MutateAt(unit, session, k, a) == MutateAt(unit, session, k, b)
  {
  }

  class PseudoMutator {
    const fandango: FandangoPythonModule

    constructor (fandango: FandangoPythonModule)
      ensures this.fandango == fandango
    {
      this.fandango := fandango;
    }

    function Name(): (r: string)
      ensures r == MUTATOR_NAME
    {
      MUTATOR_NAME
    }

    /** `mutate`: one `next_input` call; on success the input is overwritten,
        on failure it is left as it was. */
    method Mutate(input: BytesInput) returns (r: Result<MutationResult, Error>)
      modifies input, fandango`calls
      ensures fandango.calls == old(fandango.calls) + 1
      ensures var m := MutateAt(fandango.unit, fandango.generator, old(fandango.calls), old(input.bytes));
              && (m.Ok? ==> r == Ok(m.value.0) && input.bytes == m.value.1)
              && (m.Err? ==> r == Err(m.error) && input.bytes == old(input.bytes))
    {
      var next := fandango.NextInput();
      if next.Err? {
        return Err(BridgeError(next.error));
      }
      input.bytes := next.value;
      r := Ok(Mutated);
    }

    /** `post_exec`: nothing to do, whatever became of the input. */
    function PostExec(newCorpusId: Option<nat>): (r: Outcome<Error>)
      ensures r.Pass?
    {
      Pass
    }
  }
}
