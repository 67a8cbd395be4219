/** `baby_fuzzer_stage`: the post-mutational stage over an even-number
    grammar, with a parity harness, an optional bound on the number of
    `fuzz_one` calls and a monitor that can be silenced. */
module StageExample {
  import opened Common
  import opened Fandango
  import opened Harness
  import opened Stage

  /** Each grammar input is cloned and mutated between these many times
      (both inclusive), plus one. */
  const MIN_ITERATIONS: nat := 25
  const MAX_ITERATIONS: nat := 50

  /** The command-line switches the model keeps. */
  datatype Args = Args(printInputs: bool, quiet: bool, iters: Option<nat>, violentCrash: bool)

  /** The monitor prints its status line unless inputs are printed or
      quiet mode is on. */
  function MonitorPrints(args: Args): (r: bool)
    ensures r <==> !args.printInputs && !args.quiet
  {
    if args.printInputs || args.quiet then false else true
  }

  /** The harness closure of this example. */
  function RunHarness(args: Args, input: Bytes): (r: Exit)
    ensures r == Returned(ExitOk) <==> EvenNumber(input)
    ensures !Classify(input).Number? ==> (r.Panicked? <==> args.violentCrash)
  {
    ParityHarness(input, args.violentCrash)
  }

  /** The stage's share of one `fuzz_one`: one `perform` of the client's
      only stage, a `FandangoPostMutationalStage` with the example's bounds.
      The scheduler's `next` and the `should_restart`/`clear_progress`
      calls around the stage are not part of this method. */
  method FuzzOne(fandango: FandangoPythonModule, draw: nat,
                 mutate: Mutator, evaluate: Evaluator, postExec: PostExecHook)
    returns (r: Outcome<Error>, ghost trace: seq<Event>)
    requires MIN_ITERATIONS <= draw <= MAX_ITERATIONS
    modifies fandango`calls
    ensures fandango.calls == old(fandango.calls) + 1
    ensures var gen := NextInputAt(fandango.unit, fandango.generator, old(fandango.calls));
            && (gen.Err? ==> r == Fail(BridgeError(gen.error)) && trace == [])
            && (gen.Ok? && r.Pass? ==>
                  && 26 <= CountMutates(trace) <= 51
                  && 1 <= CountEvaluations(trace) <= 52
                  && CountEvaluations(trace) == 1 + NotSkipped(mutate, gen.value, CountMutates(trace)))
            && (gen.Ok? && r.Fail? ==> CountMutates(trace) <= 51)
  {
    var stage := new PostMutationalStage(fandango, MIN_ITERATIONS, MAX_ITERATIONS);
    r, trace := stage.Perform(draw, mutate, evaluate, postExec);
  }

  /** A cycle in which no mutation is skipped evaluates the seed and every
      clone: with the largest draw that is 52 evaluations, one more than the
      number of loop iterations. */
  lemma FullCycleEvaluations(seed: Bytes, draw: nat, trace: seq<Event>,
                             mutate: Mutator, evaluate: Evaluator, postExec: PostExecHook)
    requires CycleDone(seed, draw, MIN_ITERATIONS, MAX_ITERATIONS, Pass, trace, mutate, evaluate, postExec)
    requires forall i :: 0 <= i <= draw ==> mutate(i, seed).Ok? && mutate(i, seed).value.0 == Mutated
    ensures CountEvaluations(trace) == CountMutates(trace) + 1 == draw + 2
    ensures draw == MAX_ITERATIONS ==> CountEvaluations(trace) == 52
  {
    NoSkipsCountsAll(mutate, seed, 1 + draw);
  }

  /** The first of the first `n` `fuzz_one` calls that fails, if any. */
  function FirstFailure(fuzzOne: nat -> Outcome<Error>, n: nat): (k: Option<nat>)
    ensures k.Some? ==> k.value < n && fuzzOne(k.value).Fail?
                        && forall j :: 0 <= j < k.value ==> fuzzOne(j).Pass?
    ensures k.None? <==> forall j :: 0 <= j < n ==> fuzzOne(j).Pass?
  {
    if n == 0 then None
    else match FirstFailure(fuzzOne, n - 1)
      case Some(k) => Some(k)
      case None => if fuzzOne(n - 1).Fail? then Some(n - 1) else None
  }

  /** With `--iters n`: `n` calls of `fuzz_one`, stopping at the first error,
      then the event manager's shutdown. `fuzzOne(i)` is the `i`-th call's
      result and `shutdown` that of `on_shutdown`. Without `--iters` the
      client enters `fuzz_loop`, whose result is `fuzzLoop`. */
  method Drive(iters: Option<nat>, fuzzOne: nat -> Outcome<Error>, shutdown: Outcome<Error>,
               fuzzLoop: Outcome<Error>)
    returns (r: Outcome<Error>, calls: nat)
    ensures iters.None? ==> r == fuzzLoop && calls == 0
    ensures iters.Some? && FirstFailure(fuzzOne, iters.value).Some? ==>
              calls == FirstFailure(fuzzOne, iters.value).value + 1
              && r == fuzzOne(FirstFailure(fuzzOne, iters.value).value)
    ensures iters.Some? && FirstFailure(fuzzOne, iters.value).None? ==>
              calls == iters.value && r == shutdown
  {
    if iters.None? {
      return fuzzLoop, 0;
    }
    calls := 0;
    for i := 0 to iters.value
      invariant calls == i
      invariant forall j :: 0 <= j < i ==> fuzzOne(j).Pass?
    {
      var step := fuzzOne(i);
      calls := calls + 1;
      if step.Fail? {
        FirstFailureAt(fuzzOne, iters.value, i);
        return step, calls;
      }
    }
    r := shutdown;
  }

  /** A failure with only successes before it is the first failure. */
  lemma {:induction false} FirstFailureAt(fuzzOne: nat -> Outcome<Error>, n: nat, k: nat)
    requires k < n && fuzzOne(k).Fail? && forall j :: 0 <= j < k ==> fuzzOne(j).Pass?
    ensures FirstFailure(fuzzOne, n) == Some(k)
    decreases n
  {
    if n - 1 > k {
      FirstFailureAt(fuzzOne, n - 1, k);
    }
  }
}
