/** `FandangoParseExecutor`: "runs" an input by asking the grammar how many
    ways it parses and records that count in a `u32` observer. */
module Executor {
  import opened Common
  import opened Fandango
  import opened Observers

  const OBSERVER_MISSING: string := "num_parses_observer not found"

  /** What one `run_target` on `input` returns and leaves in the observers,
      given what the `k`-th bridge call answers. */
  function RunOutcome(parsed: Result<nat, PyErr>, numParses: Handle, obs: seq<Observer>)
    : (out: (Result<ExitKind, Error>, seq<Observer>))
    requires numParses.kind == U32Kind
    // a bridge failure comes first and leaves every observer as it was
    ensures parsed.Err? ==> out == (Err(BridgeError(parsed.error)), obs)
    // a missing observer is an illegal state, again with nothing written
    ensures parsed.Ok? && Find(obs, numParses).None? ==> out == (Err(IllegalState(OBSERVER_MISSING)), obs)
    // otherwise the count is what the handle reads afterwards, and the run is `Ok`
    ensures parsed.Ok? && Find(obs, numParses).Some? ==>
              && out.0 == Ok(ExitOk)
              && GetU32(out.1, numParses) == Some(parsed.value)
              && out.1 == SetU32(obs, numParses, parsed.value).value
    ensures out.0.Ok? ==> out.0.value == ExitOk
  {
    if parsed.Err? then (Err(BridgeError(parsed.error)), obs)
    else match SetU32(obs, numParses, parsed.value)
      case None => (Err(IllegalState(OBSERVER_MISSING)), obs)
      case Some(after) => (Ok(ExitOk), after)
  }

  class ParseExecutor {
    const fandango: FandangoPythonModule
    const numParsesObserver: Handle
    var observers: seq<Observer>

    constructor (fandango: FandangoPythonModule, numParsesObserver: Handle, observers: seq<Observer>)
      requires numParsesObserver.kind == U32Kind
      ensures this.fandango == fandango && this.numParsesObserver == numParsesObserver
      ensures this.observers == observers
    {
      this.fandango := fandango;
      this.numParsesObserver := numParsesObserver;
      this.observers := observers;
    }

    /** The handle names a `u32` observer, as its type says. */
    ghost predicate Valid()
      reads this
    {
      numParsesObserver.kind == U32Kind
    }

    /** `run_target`: exactly one `parse_input` call, then the observer update. */
    method RunTarget(input: Bytes) returns (r: Result<ExitKind, Error>)
      requires Valid()
      modifies this, fandango`calls
      ensures fandango.calls == old(fandango.calls) + 1
      ensures (r, observers) == RunOutcome(ParseInputAt(fandango.unit, fandango.generator, old(fandango.calls), input),
                                           numParsesObserver, old(observers))
    {
      var parsed := fandango.ParseInput(input);
      if parsed.Err? {
        return Err(BridgeError(parsed.error));
      }
      var updated := SetU32(observers, numParsesObserver, parsed.value);
      if updated.None? {
        return Err(IllegalState(OBSERVER_MISSING));
      }
      observers := updated.value;
      r := Ok(ExitOk);
    }
  }

  /** Running an input leaves every other observer of the tuple where it
      was and with the value it had. */
  lemma RunKeepsOthers(parsed: Result<nat, PyErr>, numParses: Handle, other: Handle, obs: seq<Observer>)
    requires numParses.kind == U32Kind && other != numParses
    ensures Find(RunOutcome(parsed, numParses, obs).1, other) == Find(obs, other)
    ensures other.kind == BoolKind ==> GetBool(RunOutcome(parsed, numParses, obs).1, other) == GetBool(obs, other)
    ensures other.kind == U32Kind ==> GetU32(RunOutcome(parsed, numParses, obs).1, other) == GetU32(obs, other)
  {
    if parsed.Ok? && Find(obs, numParses).Some? {
      SetLeavesOthers(obs, numParses, U32Cell(parsed.value), other);
    }
  }
}
