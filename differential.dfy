/** `baby_fuzzer_differential`: an in-process harness that decides whether
    an input is an even decimal number, run side by side with
    `FandangoParseExecutor`; the two verdicts are compared through their
    value observers. */
module Differential {
  import opened Common
  import opened Observers
  import opened Harness
  import Fandango
  import Executor
  import U128
  import Utf8

  const COVERAGE_SIZE: nat := 9

  /** The handles of the two value observers. */
  const FANDANGO_OBSERVER: Handle := Handle("is_divisible_by_2_fandango", U32Kind)
  const HARNESS_OBSERVER: Handle := Handle("is_divisible_by_2_harness", BoolKind)

  /** The initial corpus entry, `b"42"`. */
  const INITIAL_SEED: Bytes := [0x34, 0x32]

  /** The coverage slots the harness bumps on an input it reads as
      `reading`, in order: 0 on entry; 1 or 2 after UTF-8 decoding; 3, then
      4 or 5 after parsing; 6, then 7 or 8 by parity. A failed step returns
      at once. */
  function TraceOf(reading: Reading): (t: seq<nat>)
    ensures |t| >= 2 && t[0] == 0
    ensures forall i :: 0 <= i < |t| ==> t[i] < COVERAGE_SIZE
    // slots are passed in increasing order, so none twice
    ensures forall j, k :: 0 <= j < k < |t| ==> t[j] < t[k]
  {
    match reading
    case NotUtf8 => [0, 2]
    case NotNumber(_) => [0, 1, 3, 5]
    case Number(n) => if n % 2 == 0 then [0, 1, 3, 4, 6, 7] else [0, 1, 3, 4, 6, 8]
  }

  function CoverageTrace(input: Bytes): seq<nat> {
    TraceOf(Classify(input))
  }

  /** The tuple handed to `FandangoParseExecutor`: the fandango observer,
      then the harness observer, over a count of 0 and `false`. */
  const INITIAL_OBSERVERS: seq<Observer> :=
    [Observer(FANDANGO_OBSERVER.name, U32Cell(0)), Observer(HARNESS_OBSERVER.name, BoolCell(false))]

  lemma InitialObserversRead()
    ensures GetU32(INITIAL_OBSERVERS, FANDANGO_OBSERVER) == Some(0)
    ensures GetBool(INITIAL_OBSERVERS, HARNESS_OBSERVER) == Some(false)
  {
    assert Matches(INITIAL_OBSERVERS[0], FANDANGO_OBSERVER);
    assert !Matches(INITIAL_OBSERVERS[0], HARNESS_OBSERVER) && Matches(INITIAL_OBSERVERS[1], HARNESS_OBSERVER);
    FindIs(INITIAL_OBSERVERS, HARNESS_OBSERVER, 1);
  }

  /** The closure with the state it captures: the pseudo coverage map and
      the `RefCell<bool>` of the harness observer. That observer sits in the
      parse executor's tuple, so the cell is written where the executor's
      observers live. */
  class DifferentialHarness {
    const coverage: array<nat>

    constructor ()
      ensures coverage.Length == COVERAGE_SIZE && fresh(coverage)
      ensures forall i :: 0 <= i < COVERAGE_SIZE ==> coverage[i] == 0
    {
      coverage := new nat[COVERAGE_SIZE](_ => 0);
    }

    /** `update_coverage(index)`. */
    method UpdateCoverage(index: nat)
      requires index < coverage.Length
      modifies coverage
      ensures forall i :: 0 <= i < coverage.Length ==>
                coverage[i] == old(coverage[i]) + (if i == index then 1 else 0)
    {
      coverage[index] := coverage[index] + 1;
    }

    /** `*is_divisible_by_2_harness.borrow_mut() = b`. */
    method SetVerdict(executor: Executor.ParseExecutor, b: bool)
      requires Find(executor.observers, HARNESS_OBSERVER).Some?
      modifies executor`observers
      ensures executor.observers == SetBool(old(executor.observers), HARNESS_OBSERVER, b).value
      ensures GetBool(executor.observers, HARNESS_OBSERVER) == Some(b)
    {
      executor.observers := SetBool(executor.observers, HARNESS_OBSERVER, b).value;
    }

    /** One call of the harness closure. */
    method Run(input: Bytes, executor: Executor.ParseExecutor) returns (r: ExitKind)
      requires coverage.Length == COVERAGE_SIZE
      requires Find(executor.observers, HARNESS_OBSERVER).Some?
      modifies coverage, executor`observers
      ensures r == ExitOk
      ensures executor.observers == SetBool(old(executor.observers), HARNESS_OBSERVER, EvenNumber(input)).value
      ensures forall i :: 0 <= i < COVERAGE_SIZE ==>
                coverage[i] == old(coverage[i]) + (if i in CoverageTrace(input) then 1 else 0)
    {
      ghost var reading := Classify(input);
      UpdateCoverage(0);
      if !Utf8.Valid(input) {
        assert reading == NotUtf8;
        UpdateCoverage(2);
        SetVerdict(executor, false);
        return ExitOk;
      }
      UpdateCoverage(1);
      UpdateCoverage(3);
      var parsed := U128.FromStr(input);
      if parsed.Err? {
        assert reading == NotNumber(parsed.error);
        UpdateCoverage(5);
        SetVerdict(executor, false);
        return ExitOk;
      }
      assert reading == Number(parsed.value);
      UpdateCoverage(4);
      var number := parsed.value;
      UpdateCoverage(6);
      if number % 2 == 0 {
        UpdateCoverage(7);
        SetVerdict(executor, true);
        r := ExitOk;
      } else {
        UpdateCoverage(8);
        SetVerdict(executor, false);
        r := ExitOk;
      }
    }
  }

  /** Every run passes slot 0 and ends in exactly one of the slots 2, 5, 7
      and 8, the one of the step that decided; slots 1 and 3 are passed iff
      the input is UTF-8, slots 4 and 6 iff it is a number. */
  lemma TraceShape(reading: Reading)
    ensures var t := TraceOf(reading);
            && 0 in t
            && (2 in t) == reading.NotUtf8?
            && (5 in t) == reading.NotNumber?
            && (7 in t) == (reading.Number? && reading.n % 2 == 0)
            && (8 in t) == (reading.Number? && reading.n % 2 != 0)
            && (1 in t) == !reading.NotUtf8? && (3 in t) == !reading.NotUtf8?
            && (4 in t) == reading.Number? && (6 in t) == reading.Number?
  {
    match reading
    case NotUtf8 =>
    case NotNumber(_) =>
    case Number(n) =>
  }

  /** The same in terms of the input: slot 7 is passed iff the verdict is
      "even", slot 1 iff the input is UTF-8. */
  lemma CoverageShape(input: Bytes)
    ensures var t := CoverageTrace(input);
            && (2 in t) == !Utf8.Valid(input)
            && (1 in t) == Utf8.Valid(input)
            && (5 in t) == Classify(input).NotNumber?
            && (7 in t) == EvenNumber(input)
            && (8 in t) == (Classify(input).Number? && !EvenNumber(input))
  {
    TraceShape(Classify(input));
  }

  lemma InitialSeedIsEven()
    ensures Classify(INITIAL_SEED) == Number(42) && EvenNumber(INITIAL_SEED)
    ensures CoverageTrace(INITIAL_SEED) == [0, 1, 3, 4, 6, 7]
  {
    NumbersAreDecimal(INITIAL_SEED);
    var d := INITIAL_SEED;
    assert d[..1] == [0x34] && [0x34][..0] == [];
    assert U128.Value(d) == 42;
  }

  // ---------------------------------------------------------------------
  // Comparing the two executors

  datatype DiffResult = Equal | Diff

  /** The comparison given to `DiffFeedback`: the harness's `bool` against
      "the grammar found at least one parse". */
  function DiffVerdict(harness: bool, numParses: nat): (r: DiffResult)
    ensures r == Equal <==> harness == (numParses != 0)
  {
    if harness == (numParses != 0) then Equal else Diff
  }

  /** The two observers as the harness and then the parse executor leave
      them: the harness's verdict, and the parse count if parsing worked. */
  lemma ObservedDisagreement(obs: seq<Observer>, input: Bytes, numParses: nat)
    requires Find(obs, HARNESS_OBSERVER).Some? && Find(obs, FANDANGO_OBSERVER).Some?
    ensures var harnessed := SetBool(obs, HARNESS_OBSERVER, EvenNumber(input)).value;
            var out := Executor.RunOutcome(Ok(numParses), FANDANGO_OBSERVER, harnessed);
            && out.0 == Ok(ExitOk)
            && GetU32(out.1, FANDANGO_OBSERVER) == Some(numParses)
            && GetBool(out.1, HARNESS_OBSERVER) == Some(EvenNumber(input))
            && (DiffVerdict(GetBool(out.1, HARNESS_OBSERVER).value, GetU32(out.1, FANDANGO_OBSERVER).value) == Diff
                <==> EvenNumber(input) != (numParses != 0))
  {
    var harnessed := SetBool(obs, HARNESS_OBSERVER, EvenNumber(input)).value;
    SetLeavesOthers(obs, HARNESS_OBSERVER, BoolCell(EvenNumber(input)), FANDANGO_OBSERVER);
    Executor.RunKeepsOthers(Ok(numParses), FANDANGO_OBSERVER, HARNESS_OBSERVER, harnessed);
  }

  /** One run of `DiffExecutor` (the harness first, then the parse
      executor) followed by `DiffFeedback`'s comparison of the two
      observers. */
  method DiffRound(input: Bytes, harness: DifferentialHarness, executor: Executor.ParseExecutor)
    returns (r: Result<DiffResult, Error>)
    requires harness.coverage.Length == COVERAGE_SIZE
    requires executor.Valid() && executor.numParsesObserver == FANDANGO_OBSERVER
    requires Find(executor.observers, HARNESS_OBSERVER).Some? && Find(executor.observers, FANDANGO_OBSERVER).Some?
    modifies harness.coverage, executor, executor.fandango`calls
    ensures var parsed := Fandango.ParseInputAt(executor.fandango.unit, executor.fandango.generator,
                                                old(executor.fandango.calls), input);
            && (parsed.Err? ==> r == Err(Fandango.BridgeError(parsed.error)))
            && (parsed.Ok? ==> r.Ok? && (r.value == Diff <==> EvenNumber(input) != (parsed.value != 0)))
    ensures var parsed := Fandango.ParseInputAt(executor.fandango.unit, executor.fandango.generator,
                                                old(executor.fandango.calls), input);
            parsed.Ok? ==> GetU32(executor.observers, FANDANGO_OBSERVER) == Some(parsed.value)
    ensures GetBool(executor.observers, HARNESS_OBSERVER) == Some(EvenNumber(input))
    ensures Find(executor.observers, HARNESS_OBSERVER).Some? && Find(executor.observers, FANDANGO_OBSERVER).Some?
    ensures executor.fandango.calls == old(executor.fandango.calls) + 1
    ensures forall i :: 0 <= i < COVERAGE_SIZE ==>
              harness.coverage[i] == old(harness.coverage[i]) + (if i in CoverageTrace(input) then 1 else 0)
  {
    ghost var before := executor.observers;
    var harnessExit := harness.Run(input, executor);
    ghost var harnessed := executor.observers;
    SetLeavesOthers(before, HARNESS_OBSERVER, BoolCell(EvenNumber(input)), FANDANGO_OBSERVER);
    ghost var parsed := Fandango.ParseInputAt(executor.fandango.unit, executor.fandango.generator,
                                              executor.fandango.calls, input);
    var fandangoExit := executor.RunTarget(input);
    Executor.RunKeepsOthers(parsed, FANDANGO_OBSERVER, HARNESS_OBSERVER, harnessed);
    if fandangoExit.Err? {
      return Err(fandangoExit.error);
    }
    ObservedDisagreement(before, input, parsed.value);
    var verdict := GetBool(executor.observers, HARNESS_OBSERVER).value;
    var count := GetU32(executor.observers, FANDANGO_OBSERVER).value;
    r := Ok(DiffVerdict(verdict, count));
  }

  /** The seed `42` with a grammar that finds no parse is a disagreement. */
  lemma SeedWithoutParseDiffers()
    ensures DiffVerdict(EvenNumber(INITIAL_SEED), 0) == Diff
    ensures DiffVerdict(EvenNumber(INITIAL_SEED), 1) == Equal
  {
    InitialSeedIsEven();
  }

  // ---------------------------------------------------------------------
  // `LogFeedback`

  datatype LogMetadata = LogMetadata(fan: nat, harness: bool)

  /** The metadata slot of a `Testcase` that `add_metadata` fills (one
      entry per metadata type, so a second add replaces the first). */
  class Testcase {
    const input: Bytes
    var log: Option<LogMetadata>

    constructor (input: Bytes)
      ensures this.input == input && log.None?
    {
      this.input := input;
      log := None;
    }
  }

  /** What `append_metadata` records from the observers: the fandango
      observer is looked up first, then the harness observer. */
  function LogRecord(obs: seq<Observer>, fandango: Handle, harness: Handle): (r: Result<LogMetadata, Error>)
    requires fandango.kind == U32Kind && harness.kind == BoolKind
    ensures GetU32(obs, fandango).None? ==> r == Err(IllegalState("is_divisible_by_2_observer_fandango not found"))
    ensures GetU32(obs, fandango).Some? && GetBool(obs, harness).None? ==>
              r == Err(IllegalState("is_divisible_by_2_observer_harness not found"))
    ensures r.Ok? <==> GetU32(obs, fandango).Some? && GetBool(obs, harness).Some?
    ensures r.Ok? ==> r.value == LogMetadata(GetU32(obs, fandango).value, GetBool(obs, harness).value)
  {
    match GetU32(obs, fandango)
    case None => Err(IllegalState("is_divisible_by_2_observer_fandango not found"))
    case Some(fan) =>
      match GetBool(obs, harness)
      case None => Err(IllegalState("is_divisible_by_2_observer_harness not found"))
      case Some(h) => Ok(LogMetadata(fan, h))
  }

  class LogFeedback {
    const fandangoObserver: Handle
    const harnessObserver: Handle

    constructor (fandangoObserver: Handle, harnessObserver: Handle)
      requires fandangoObserver.kind == U32Kind && harnessObserver.kind == BoolKind
      ensures this.fandangoObserver == fandangoObserver && this.harnessObserver == harnessObserver
    {
      this.fandangoObserver := fandangoObserver;
      this.harnessObserver := harnessObserver;
    }

    /** `is_interesting`: never, so it only ever logs. */
    function IsInteresting(input: Bytes, obs: seq<Observer>, exit: ExitKind): (r: Result<bool, Error>)
      ensures r == Ok(false)
    {
      Ok(false)
    }

    /** `append_metadata` on a test case that the objective kept. */
    method AppendMetadata(obs: seq<Observer>, testcase: Testcase) returns (r: Outcome<Error>)
      requires fandangoObserver.kind == U32Kind && harnessObserver.kind == BoolKind
      modifies testcase
      ensures var rec := LogRecord(obs, fandangoObserver, harnessObserver);
              && (rec.Err? ==> r == Fail(rec.error) && testcase.log == old(testcase.log))
              && (rec.Ok? ==> r == Pass && testcase.log == Some(rec.value))
    {
      var rec := LogRecord(obs, fandangoObserver, harnessObserver);
      if rec.Err? {
        return Fail(rec.error);
      }
      testcase.log := Some(rec.value);
      r := Pass;
    }
  }

  /** `feedback_or_fast!(LogFeedback, DiffExitKindFeedback, CrashFeedback,
      DiffFeedback)` on one run: the first three look at the exit kinds of the
      two executors, the last at the observers. */
  function Objective(harnessExit: ExitKind, fandangoExit: ExitKind, diff: DiffResult): bool {
    false || harnessExit != fandangoExit || harnessExit == Crash || diff == Diff
  }

  /** Both executors exit `Ok` whenever parsing works, so a test case is an
      objective exactly when the two verdicts disagree. */
  lemma ObjectiveIsDisagreement(input: Bytes, numParses: nat)
    ensures Objective(ExitOk, ExitOk, DiffVerdict(EvenNumber(input), numParses))
            <==> EvenNumber(input) != (numParses != 0)
  {
  }
}
