/** `FandangoGenerator`: every generated input is the next grammar input. */
module Generator {
  import opened Common
  import opened Fandango
  import Mutator

  /** What the `k`-th call through the handle generates. */
  function GenerateAt(unit: PyUnit, session: Session, k: nat): (r: Result<Bytes, Error>)
    ensures r.Ok? <==> NextInputAt(unit, session, k).Ok?
    ensures r.Ok? ==> r.value == NextInputAt(unit, session, k).value
    ensures r.Err? ==> r.error.IllegalState? && r.error == BridgeError(NextInputAt(unit, session, k).error)
  {
    match NextInputAt(unit, session, k)
    case Err(e) => Err(BridgeError(e))
    case Ok(b) => Ok(b)
  }

  class FandangoGenerator {
    const fandango: FandangoPythonModule

    constructor (fandango: FandangoPythonModule)
      ensures this.fandango == fandango
    {
      this.fandango := fandango;
    }

    /** `generate`: exactly one `next_input` call. */
    method Generate() returns (r: Result<Bytes, Error>)
      modifies fandango`calls
      ensures fandango.calls == old(fandango.calls) + 1
      ensures r == GenerateAt(fandango.unit, fandango.generator, old(fandango.calls))
    {
      var next := fandango.NextInput();
      if next.Err? {
        return Err(BridgeError(next.error));
      }
      r := Ok(next.value);
    }
  }

  /** A generator and a pseudo-mutator over the same handle draw from one
      stream: at the same call count both yield the same input or the same
      error. */
  lemma SameStream(unit: PyUnit, session: Session, k: nat, before: Bytes)
    ensures GenerateAt(unit, session, k).Ok? <==> Mutator.MutateAt(unit, session, k, before).Ok?
    ensures GenerateAt(unit, session, k).Ok? ==>
              Mutator.MutateAt(unit, session, k, before).value == (Mutated, GenerateAt(unit, session, k).value)
    ensures GenerateAt(unit, session, k).Err? ==>
              Mutator.MutateAt(unit, session, k, before).error == GenerateAt(unit, session, k).error
  {
  }
}
