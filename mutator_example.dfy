/** `baby_fuzzer_mutator`: the pseudo-mutator under a mutational stage that
    runs once per `fuzz_one`, with a parity harness that panics on input it
    cannot read. */
module MutatorExample {
  import opened Common
  import opened Fandango
  import opened Harness
  import Mutator

  const VIOLENT_CRASH: bool := true

  /** `crash()` of this example. */
  function CrashNow(): (r: Exit)
    ensures r.Panicked?
  {
    CrashExit(VIOLENT_CRASH)
  }

  /** The harness closure of this example: malformed input never returns. */
  function RunHarness(input: Bytes): (r: Exit)
    ensures r == Returned(ExitOk) <==> EvenNumber(input)
    ensures r.Panicked? <==> !Classify(input).Number?
    ensures Classify(input).Number? && !EvenNumber(input) ==> r == Returned(Crash)
  {
    ParityHarness(input, VIOLENT_CRASH)
  }

  /** One round of the stage with a single iteration: the corpus entry is
      "mutated" once, which costs exactly one call into the runtime, and the
      harness then runs on what the grammar produced. */
  method Round(mutator: Mutator.PseudoMutator, input: Mutator.BytesInput) returns (r: Result<Exit, Error>)
    modifies input, mutator.fandango`calls
    ensures mutator.fandango.calls == old(mutator.fandango.calls) + 1
    ensures var next := NextInputAt(mutator.fandango.unit, mutator.fandango.generator, old(mutator.fandango.calls));
            && (next.Err? ==> r == Err(BridgeError(next.error)) && input.bytes == old(input.bytes))
            && (next.Ok? ==> input.bytes == next.value && r == Ok(RunHarness(next.value)))
  {
    var mutated := mutator.Mutate(input);
    if mutated.Err? {
      return Err(mutated.error);
    }
    r := Ok(RunHarness(input.bytes));
  }
}
