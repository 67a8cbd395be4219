# libafl-fandango-pyo3 in Dafny

This project models the crate that connects the LibAFL fuzzing library to the
Fandango grammar runtime, which is hosted in an embedded Python interpreter
through pyo3. It also models the three example fuzzers shipped with the crate.

- **The bridge** (`FandangoPythonModule`).
  - Construction first derives a file name and a module name from the
    interface path and reads the interface code. Then it compiles the code,
    calls `setup(fandango_file, kwargs)` with a dictionary built from the
    kwargs, and checks that `next_input` and `parse_input` exist.
  - The handle keeps the compiled unit and the session returned by `setup`.
    Every call goes back into the runtime with that same session.
  - Python is modelled as an abstract record (`PyUnit`): a set of attribute
    names plus oracle functions. The `k`-th call through a handle is answered
    by `nextInput(session, k)` or `parseInput(session, k, input)`. The handle
    counts its calls in the field `calls`.
- **`FandangoPostMutationalStage`**.
  - `perform` draws one grammar seed and evaluates it unchanged.
  - It then mutates `1 + between(min, max)` fresh clones of the seed.
    Each clone is evaluated and passed to `post_exec`, unless the mutator
    skipped it.
  - The random draw, the mutator chain, `evaluate_filtered` and `post_exec`
    are parameters. A ghost trace records every call in order.
  - `should_restart` and `clear_progress` delegate to a retry counter kept
    under the stage's name, with a cap of 3.
- **The adapters**.
  - `FandangoParseExecutor` writes the parse count into a `u32` observer that
    it finds by handle.
  - `FandangoPseudoMutator` overwrites its input with the next grammar input.
  - `FandangoGenerator` returns the next grammar input.
- **The examples**. Each harness reads an input as UTF-8 (section 4 of
  RFC 3629), then as a decimal `u128` (`str::parse::<u128>`), then tests its
  parity.
  - The differential example records a 9-slot coverage trace and compares the
    harness verdict with "the grammar found a parse".
  - The stage example drives `fuzz_one` a bounded number of times.
  - The mutator example runs one pseudo-mutation per round.

A stage with minimum 25 and maximum 50 makes 26 to 51 loop iterations per
cycle (`src/libafl/stage.rs:65-83`). It evaluates the seed once, plus every
clone that was not skipped: 1 to 52 evaluations per cycle, 52 when the
largest draw meets no skip (`StageExample.FuzzOne`,
`StageExample.FullCycleEvaluations`).

Construction checks happen in this order, and each piece gets its NUL check
as soon as it is produced:

1. read error
2. NUL in the code
3. file name
4. NUL in the file name
5. module name
6. NUL in the module name
7. the runtime steps

This order comes from the `?` chain in `src/fandango.rs:45-47` and `77-134`.

## Model

| member | source | states |
|---|---|---|
| Fandango.JoinSegments | src/fandango.rs:85-87 | splitting a path at `/` and joining the pieces again gives the path back |
| Fandango.Components | src/fandango.rs:85-87 | no component of a path is empty, `.` or contains `/` |
| Fandango.KeepNormal | src/fandango.rs:85-87 | the components are exactly the pieces that are neither empty nor `.`, with nothing else added |
| Fandango.KeepNormalConcat | src/fandango.rs:85-87 | dropping empty and `.` pieces is an order-preserving filter: it distributes over concatenation and keeps or drops each single piece |
| Fandango.FileName | src/fandango.rs:86-91 | there is a file name iff the path has a last component other than `..`, and then it is that last component; it is never empty, `.` or `..` |
| Fandango.ParentName | src/fandango.rs:109-119 | the parent's name exists iff there is a component before the last one and it is not `..`, and then it is that component |
| Fandango.SegmentsSplit | src/fandango.rs:85-87 | a plain name followed by `/` splits off as the first segment |
| Fandango.ComponentsOfPair | src/fandango.rs:26-31 | `dir/file` (the shape of `examples/run_fandango.py`) has exactly the components `dir` and `file` |
| Fandango.FirstNul | src/fandango.rs:81 | the position of the first NUL: it holds NUL and nothing before it does |
| Fandango.ToCString | src/fandango.rs:81 | `CString::new` succeeds iff there is no NUL; the error carries the text and the first NUL position |
| Fandango.ReadCode | src/fandango.rs:77-82 | an unreadable file gives `ReadFileError`; otherwise the contents pass or fail the NUL check |
| Fandango.SanitizeFileName | src/fandango.rs:84-101 | no file name gives a `FilePathError`; a file name with NUL gives `EncodingError`; a file name without NUL is returned as it is |
| Fandango.SanitizeModuleName | src/fandango.rs:103-134 | for `__init__.py` the parent directory's name, or a `FilePathError` if there is none; otherwise the file name minus one `.py`, or a `FilePathError` iff it does not end in `.py`; the chosen name then goes through the NUL check, whose `EncodingError` is the result if it fails |
| Fandango.Prepare | src/fandango.rs:45-47 | on success the code is the file's contents, the file name is the path's, the module name is the one derived from that file name, and none of the three strings holds NUL |
| Fandango.PrepareOrder | src/fandango.rs:45-47 | the reported error is the first failing step of read, code NUL, file name, file-name NUL, module name (with its NUL check); when every step passes, preparation succeeds with the code and both names |
| Fandango.PyFile | src/fandango.rs:125-131 | `stem.py` ends in `.py`, strips back to `stem`, and is `__init__.py` only for the stem `__init__` |
| Fandango.PyFileSanitized | src/fandango.rs:84-134 | a path whose file name is `stem.py` gives file name `stem.py` and module name `stem` |
| Fandango.PyFileNames | src/fandango.rs:26-47 | a readable interface at `dir/stem.py` is prepared with its contents, file `stem.py` and module `stem` |
| Fandango.InitFile | src/fandango.rs:108 | `__init__.py` is a single plain component without NUL |
| Fandango.InitFileSanitized | src/fandango.rs:84-124 | a path ending in `dir/__init__.py` gives file name `__init__.py` and module name `dir` |
| Fandango.InitFileNames | src/fandango.rs:45-47 | a readable interface at `dir/__init__.py` is prepared with its contents, file `__init__.py` and module `dir` |
| Fandango.SetItem | src/fandango.rs:56 | `set_item` binds the key to the value, changes no other key, and appends the key only when it is new |
| Fandango.DictOfLookup | src/fandango.rs:54-57 | the dictionary maps each key to the last value supplied for it |
| Fandango.DictOfKeys | src/fandango.rs:54-57 | keys appear once each, in the order of their first occurrence |
| Fandango.BuildKwargs | src/fandango.rs:54-57 | the loop builds the dictionary of the whole kwargs slice |
| Fandango.ReadErrorFirst | src/fandango.rs:45-47 | an unreadable interface path yields `ReadFileError`, never a Python error |
| Fandango.InitOrder | src/fandango.rs:45-71 | a preparation error is reported as it is; after that every failure is a `PyErr`, that of the first failing step among compilation, the `setup` lookup, the `setup` call, the `next_input` lookup and the `parse_input` lookup |
| Fandango.InitSucceeds | src/fandango.rs:49-73 | construction succeeds iff preparation, compilation, `setup` with the kwargs dictionary and the `next_input`/`parse_input` checks all succeed, in that order |
| Fandango.NextInputAt | src/fandango.rs:136-146 | a missing `next_input` is an `AttributeError`; otherwise the oracle's answer for the stored session |
| Fandango.ParseInputAt | src/fandango.rs:148-156 | succeeds iff `parse_input` exists and answers a value that fits a `u32`; the count is that value; otherwise the error is an `AttributeError` for a missing `parse_input`, the Python exception of the call, or an `OverflowError` for a value outside `u32` |
| Fandango.BridgeError | src/libafl/stage.rs:59-63 | every bridge failure becomes an `IllegalState` error |
| Fandango.FandangoPythonModule.constructor | src/fandango.rs:73 | the handle holds the unit and the session and has made no call yet |
| Fandango.FandangoPythonModule.NextInput | src/fandango.rs:136-146 | one call with the stored session, answered as the `k`-th call |
| Fandango.FandangoPythonModule.ParseInput | src/fandango.rs:148-156 | one call with the same stored session; a success is below 2^32 |
| Fandango.WithCustomPythonInterface | src/fandango.rs:40-75 | returns the first error of the construction sequence, or a fresh handle that has made no call and whose unit has both capabilities |
| Fandango.New | src/fandango.rs:22-38 | construction with the interface `examples/run_fandango.py` |
| Stage.NotSkippedBound | src/libafl/stage.rs:76-78 | at most as many mutations are evaluated as were made |
| Stage.NoSkipsCountsAll | src/libafl/stage.rs:76-82 | with no skip, every mutation is evaluated |
| Stage.FollowsAt | src/libafl/stage.rs:69-83 | every two consecutive calls of a trace are linked: an evaluation by its `post_exec`, a mutation by the evaluation of its result or, if skipped, by the next mutation; nothing follows a failed `post_exec` |
| Stage.NoLongerCycle | src/libafl/stage.rs:65-85 | a finished cycle can only be extended by a mutation beyond the `1 + draw` iterations, and only if it passed |
| Stage.CycleUnique | src/libafl/stage.rs:52-86 | the cycle is a function of its inputs: the same seed, draw and oracles give the same calls and the same result |
| Stage.NumberedAt | src/libafl/stage.rs:70-81 | the `j`-th mutation is the mutator's call `j` and the `j`-th evaluation the evaluator's call `j` |
| Stage.CycleCalls | src/libafl/stage.rs:69-83 | in a cycle every `post_exec` but the last passed, and all of them did if the cycle passed; calls are numbered in order |
| Stage.ClonesAt | src/libafl/stage.rs:74-75 | every input handed to the mutator equals the seed |
| Stage.SeedPostExec | src/libafl/stage.rs:69-71 | after the draw and the unchanged seed's evaluation, a failing `post_exec` ends the cycle with its error and a passing one lets the loop begin |
| Stage.LoopFinished | src/libafl/stage.rs:65-67 | after `1 + draw` iterations the cycle is done, with mutations in `[min+1, max+1]` and evaluations in `[1, max+2]` |
| Stage.PostMutationalStage.constructor | src/libafl/stage.rs:31-43 | keeps the handle and both bounds |
| Stage.PostMutationalStage.Name | src/libafl/stage.rs:89-93 | the name is `FandangoPostMutationalStage` |
| Stage.PostMutationalStage.Perform | src/libafl/stage.rs:52-86 | one grammar call; if it fails, the error is returned with no draw, evaluation or mutation; otherwise the cycle on the seed is done |
| Stage.PostMutationalStage.Cycle | src/libafl/stage.rs:65-85 | the draw comes first and only once, then the seed is evaluated unchanged as call 0 and passed to `post_exec`; then the loop runs; a failing evaluation, mutation or `post_exec` within the `1 + draw` iterations ends the cycle with its error; `Pass` means every `post_exec` passed; by `CycleUnique` the result is the only one the inputs allow |
| Stage.PostMutationalStage.Iterate | src/libafl/stage.rs:73-83 | exactly `1 + draw` iterations on clones of the seed, mutation `i` being the mutator's call `i`; a skipped mutation is not evaluated; every evaluation is followed by one `post_exec` with the same call number, and a failing one stops the loop |
| Stage.PostMutationalStage.ShouldRestart | src/libafl/stage.rs:99-101 | asks the retry helper under the stage's name with cap 3 |
| Stage.PostMutationalStage.ClearProgress | src/libafl/stage.rs:103-105 | resets the retry counter under the same name |
| Stage.RetryCheck | src/libafl/stage.rs:99-101 | no current corpus id is an error; a `true` answer lowers the tries left; other stages' records are untouched |
| Stage.ClearRecord | src/libafl/stage.rs:103-105 | the counter of the name is reset; its given-up entries and all other names are kept |
| Stage.RetryBook.ShouldRestart | src/libafl/stage.rs:99-101 | answers and updates the records as `RetryCheck` says |
| Stage.RetryBook.ClearProgress | src/libafl/stage.rs:103-105 | updates the records as `ClearRecord` says |
| Stage.CountdownAnswers | src/libafl/stage.rs:99-101 | with `n` tries left, the next `n - 1` answers are `true` and the `n`-th is `false` |
| Stage.RetriesCapped | src/libafl/stage.rs:99-105 | from a fresh or cleared counter, `maxRetries` restarts are allowed and the next is refused |
| Stage.StageRetriesCapped | src/libafl/stage.rs:99-101 | the stage itself is restarted three times and refused the fourth time |
| Observers.Find | src/libafl/executor.rs:47-48 | the lookup finds the first observer with the handle's name and type, or none iff there is no such observer |
| Observers.FindIs | src/libafl/executor.rs:47-48 | the first matching position is what the lookup returns |
| Observers.FindSame | src/libafl/executor.rs:47-48 | tuples that agree on which positions match give the same lookup |
| Observers.GetU32 | examples/baby_fuzzer_differential.rs:266-272 | a `u32` is read iff the observer is found, and it is that observer's value |
| Observers.GetBool | examples/baby_fuzzer_differential.rs:273-279 | a `bool` is read iff the observer is found, and it is that observer's value |
| Observers.SetCell | src/libafl/executor.rs:47-52 | setting succeeds iff the observer is found, puts the new cell at the found position, keeps the tuple's length and lookup, and changes no other position |
| Observers.SetU32 | src/libafl/executor.rs:47-52 | a `u32` that was set is read back through the same handle |
| Observers.SetBool | examples/baby_fuzzer_differential.rs:81-85 | a `bool` written to the observer's cell is read back through the observer's handle |
| Observers.SetLeavesOthers | src/libafl/executor.rs:47-52 | setting through one handle changes neither the lookup nor the `u32` or `bool` read of any other handle |
| Executor.RunOutcome | src/libafl/executor.rs:42-53 | a parse failure is an `IllegalState` error and writes nothing; a missing observer is "num_parses_observer not found" and writes nothing; otherwise the count is read back and the exit kind is `Ok` |
| Executor.ParseExecutor.constructor | src/libafl/executor.rs:18-28 | keeps the handle, the observer handle and the tuple |
| Executor.ParseExecutor.RunTarget | src/libafl/executor.rs:35-54 | exactly one parse call; the result and the new tuple are `RunOutcome` |
| Executor.RunKeepsOthers | src/libafl/executor.rs:47-52 | a run leaves the lookup and the value of every other observer in the tuple unchanged |
| Mutator.MutateAt | src/libafl/mutator.rs:24-31 | never `Skipped`; succeeds iff the grammar call does, with its bytes; a failure is the bridge error |
| Mutator.MutationIgnoresInput | src/libafl/mutator.rs:29 | the old content of the input plays no part in the result |
| Mutator.PseudoMutator.constructor | src/libafl/mutator.rs:18-20 | keeps the handle |
| Mutator.PseudoMutator.Name | src/libafl/mutator.rs:38-42 | the name is `FandangoPseudoMutator` |
| Mutator.PseudoMutator.Mutate | src/libafl/mutator.rs:24-31 | one grammar call; on success the input becomes the new bytes, on failure the input is unchanged |
| Mutator.PseudoMutator.PostExec | src/libafl/mutator.rs:33-35 | always `Ok` |
| Generator.GenerateAt | src/libafl/generator.rs:16-22 | succeeds iff the grammar call does, with its bytes; a failure is an `IllegalState` error |
| Generator.FandangoGenerator.constructor | src/libafl/generator.rs:10-12 | keeps the handle |
| Generator.FandangoGenerator.Generate | src/libafl/generator.rs:16-22 | exactly one grammar call, answered as `GenerateAt` |
| Generator.SameStream | src/libafl/generator.rs:17-20 | the generator and the pseudo-mutator yield the same input or error at the same call count |
| Utf8.FirstLength | examples/baby_fuzzer_differential.rs:139 | the length of the leading well-formed sequence is at most 4 and at most the input's length |
| Utf8.EncodeFirst | examples/baby_fuzzer_differential.rs:139 | the encoding of a scalar value is one well-formed sequence, whatever follows, and decodes to the value |
| Utf8.DecodeFirstEncodes | examples/baby_fuzzer_differential.rs:139 | every well-formed sequence is the encoding of the value it decodes to |
| Utf8.EncodeAllValid | examples/baby_fuzzer_differential.rs:139 | every encoding of scalar values is accepted and decodes back to the values |
| Utf8.DecodeAllEncodes | examples/baby_fuzzer_differential.rs:139 | every accepted byte string is the encoding of its decoding, so the validator accepts exactly the encodings |
| Utf8.AsciiValid | examples/baby_fuzzer_differential.rs:139 | ASCII bytes are always accepted |
| U128.FromStr | examples/baby_fuzzer_differential.rs:152 | a parsed value is below 2^128 |
| U128.Accumulate | examples/baby_fuzzer_differential.rs:152 | the digit loop never reports `Empty` and stays below 2^128 |
| U128.ValueGrows | examples/baby_fuzzer_differential.rs:152 | a prefix of a digit string never denotes more than the whole |
| U128.AccumulateMeaning | examples/baby_fuzzer_differential.rs:152 | the loop succeeds iff all bytes are digits and the value fits, with that value; it reports `InvalidDigit` iff a non-digit comes before any overflow |
| U128.FromStrMeaning | examples/baby_fuzzer_differential.rs:152 | `Empty` iff the input is empty; success iff an optional `+` is followed by at least one digit and the value fits, with that value; `InvalidDigit` iff the input is a lone sign or a non-digit comes first |
| U128.ToDecimal | examples/baby_fuzzer_differential.rs:152 | the decimal digits of `n`, which denote `n` |
| U128.RoundTrip | examples/baby_fuzzer_differential.rs:152 | formatting a `u128` and parsing it gives the number back |
| U128.ParityOfLastDigit | examples/baby_fuzzer_differential.rs:165 | a decimal number is even iff its last digit is |
| Harness.Classify | examples/baby_fuzzer_differential.rs:138-162 | non-UTF-8 input, an input that does not parse, or a number below 2^128 |
| Harness.NumbersAreDecimal | examples/baby_fuzzer_differential.rs:139-162 | an input is read as a number iff it is an optional `+` and decimal digits that fit a `u128`, and then it is read as their value |
| Harness.EvenNumberMeaning | examples/baby_fuzzer_differential.rs:165 | the verdict "even" holds iff the input is such a number whose last digit is even |
| Harness.DecimalRead | examples/baby_fuzzer_differential.rs:139-162 | every `u128` written in decimal is read as itself |
| Harness.CrashExit | examples/baby_fuzzer_stage.rs:51-57 | `crash()` panics iff violent crashes are asked for, and otherwise returns `Crash` |
| Harness.ParityHarness | examples/baby_fuzzer_stage.rs:98-118 | `Ok` iff the input is an even number; an odd number gives `Crash`; malformed input goes to `crash()` |
| Harness.Precheck | examples/baby_fuzzer_stage.rs:69-76 | only a Python error stops the program, and its message starts with the `PYTHONPATH` hint |
| Differential.TraceOf | examples/baby_fuzzer_differential.rs:134-174 | the slots bumped start at 0, are all below 9, and increase strictly, so none is bumped twice |
| Differential.TraceShape | examples/baby_fuzzer_differential.rs:136-174 | 0 is always bumped; 2, 5, 7 or 8 marks the step that decided; 1 and 3 iff UTF-8; 4 and 6 iff a number |
| Differential.CoverageShape | examples/baby_fuzzer_differential.rs:136-174 | slot 7 is bumped iff the verdict is "even", slot 1 iff the input is UTF-8, slot 2 iff it is not |
| Differential.InitialObserversRead | examples/baby_fuzzer_differential.rs:81-90 | the two observers of the parse executor's tuple start at a count of 0 and `false` |
| Differential.DifferentialHarness.constructor | examples/baby_fuzzer_differential.rs:70 | a fresh 9-slot map of zeros |
| Differential.DifferentialHarness.UpdateCoverage | examples/baby_fuzzer_differential.rs:134 | bumps exactly one slot by one |
| Differential.DifferentialHarness.SetVerdict | examples/baby_fuzzer_differential.rs:146 | writing the harness cell sets the harness observer in the parse executor's tuple and nothing else |
| Differential.DifferentialHarness.Run | examples/baby_fuzzer_differential.rs:136-174 | always `Ok`; the harness observer of the parse executor's tuple holds "even number" afterwards; each slot on the input's trace goes up by one and no other slot changes |
| Differential.InitialSeedIsEven | examples/baby_fuzzer_differential.rs:201-203 | the seed `42` reads as 42, is even, and passes slots 0, 1, 3, 4, 6 and 7 |
| Differential.DiffVerdict | examples/baby_fuzzer_differential.rs:96-106 | `Equal` iff the harness verdict equals "at least one parse" |
| Differential.ObservedDisagreement | examples/baby_fuzzer_differential.rs:185-192 | after the harness writes its verdict and the parse executor runs on the same tuple, the comparison sees the parse count and that verdict, and reports `Diff` iff they disagree |
| Differential.DiffRound | examples/baby_fuzzer_differential.rs:96-106 | the harness runs, then the parse executor; a parse failure is the executor's error; otherwise the fandango observer holds the parse count and the comparison is `Diff` iff "even number" differs from "at least one parse"; the harness observer holds "even number", one call goes into Python, and each coverage slot on the input's trace goes up by one |
| Differential.SeedWithoutParseDiffers | examples/baby_fuzzer_differential.rs:96-106 | the seed with no parse is a disagreement; with one parse it is not |
| Differential.ObjectiveIsDisagreement | examples/baby_fuzzer_differential.rs:111-119 | with both executors exiting `Ok`, a test case is an objective iff the verdicts disagree |
| Differential.LogRecord | examples/baby_fuzzer_differential.rs:266-280 | the fandango observer is looked up first; either one missing is its `IllegalState` error; otherwise both raw values |
| Differential.LogFeedback.constructor | examples/baby_fuzzer_differential.rs:233-241 | keeps both handles |
| Differential.LogFeedback.IsInteresting | examples/baby_fuzzer_differential.rs:248-257 | never interesting |
| Differential.LogFeedback.AppendMetadata | examples/baby_fuzzer_differential.rs:259-282 | on success the test case's metadata is the record; on error it is unchanged |
| StageExample.MonitorPrints | examples/baby_fuzzer_stage.rs:59-64 | the monitor prints iff neither `print_inputs` nor `quiet` is set |
| StageExample.RunHarness | examples/baby_fuzzer_stage.rs:98-118 | `Ok` iff an even number; malformed input panics iff `violent_crash` is set |
| StageExample.FuzzOne | examples/baby_fuzzer_stage.rs:129-144 | one `perform` of the 25/50 stage: a failing grammar call is returned as its bridge error before any other call; a passing cycle makes 26 to 51 mutations and 1 to 52 evaluations, one more than the non-skipped mutations; a failing one stops within 51 mutations |
| StageExample.FullCycleEvaluations | examples/baby_fuzzer_stage.rs:132-144 | without skips a cycle makes one more evaluation than mutations, 52 for the largest draw |
| StageExample.FirstFailure | examples/baby_fuzzer_stage.rs:152-156 | the first failing call among the first `n`, or none iff all of them pass |
| StageExample.FirstFailureAt | examples/baby_fuzzer_stage.rs:152-156 | a failure with only passes before it is the first failure |
| StageExample.Drive | examples/baby_fuzzer_stage.rs:152-159 | with `iters = n`, `fuzz_one` is called `n` times before the shutdown result, or stops after the first failure with its error; without `iters` the result is `fuzz_loop`'s |
| MutatorExample.CrashNow | examples/baby_fuzzer_mutator.rs:40-48 | with `VIOLENT_CRASH` set, `crash()` always panics |
| MutatorExample.RunHarness | examples/baby_fuzzer_mutator.rs:87-105 | `Ok` iff an even number; an odd number gives `Crash`, not a panic; malformed input always panics |
| MutatorExample.Round | examples/baby_fuzzer_mutator.rs:116-123 | one stage iteration makes exactly one grammar call before the harness runs on what it produced; a grammar failure leaves the input unchanged |

## Left out

- The Python runtime is left out: the GIL, `PyModule::from_code`, and
  `getattr`/`call1`/`extract`/`clone_ref`. Compilation, `setup`, `next_input`
  and `parse_input` are oracle functions of the abstract unit. A value that
  `extract::<u32>` cannot convert is modelled as an `OverflowError`.
- Reading the file system is the oracle `fs`. The `io::Error` text inside
  `ReadFileError` is not kept.
- `NulError` positions are counted in characters of a `string`, not in
  UTF-8 bytes.
- The `FilePathError` texts are reduced to the three reachable reasons.
  - The branches "could not convert … to string" cannot happen for a
    `&str` path.
  - "Could not extract parent directory" and "No parent directory" are both
    `NoParentDirectory`.
- `std::path::Path` is simplified to POSIX pieces between `/`. Empty and `.`
  pieces are dropped. The file name is the last piece unless it is `..`.
  Windows prefixes and a root-only path's special cases are not modelled.
- Fandango.New: `file!()`'s location is not modelled. The default interface
  path is the constant `examples/run_fandango.py`.
- The random draw `between(min, max)` is a parameter with
  `min <= draw <= max`. `min > max` is left to the library.
- `HavocScheduledMutator`, `evaluate_filtered` and `post_exec` of the
  mutator chain are parameters indexed by call number. What they do to the
  fuzzer state is not modelled.
- `RetryCountRestartHelper` is library code and not part of this model.
  `Stage.RetryCheck` is a reference model of its documented behaviour:
  tries left per name, and the corpus entries on which the stage was given
  up.
- Stage.RetryCheck: it looks at the given-up entries before it lowers the
  counter, and an exhausted counter goes back to "unset" so the next entry
  starts afresh. The library may instead lower first, keep a counter of 0
  and report an error on a further call; those details are not modelled.
- Stage.ClearRecord: clearing a name that has no record leaves the records
  as they are. The library may report an error there instead.
- Executor: `observers()` and `observers_mut()` are modelled as the field
  `observers` itself, because both expose the same stored tuple.
- The coverage map's counters are unbounded, and the per-run reset of the
  map is not modelled.
- `DiffExecutor` is reduced to one harness run followed by one parse run
  (`Differential.DiffRound`). Its exit-kind comparison, `MaxMapFeedback`,
  `DiffExitKindFeedback`, `CrashFeedback` and `feedback_or_fast!` are
  reduced to the boolean `Objective`.
- The `RefCell<bool>` the harness writes is the cell of the harness
  observer in the parse executor's tuple. `Differential.DifferentialHarness.Run`
  therefore asks that this observer be in the tuple, as the example builds
  it (`Differential.INITIAL_OBSERVERS`). The `RefCell<u32>` of the fandango
  observer is likewise that observer's cell.
- `StdMutationalStage` is reduced to its single iteration per round
  (`MutatorExample.Round`). The corpus scheduler is not modelled.
- `StageExample.FuzzOne` models one `perform` of the only stage. The
  scheduler's `next` and the `should_restart`/`clear_progress` calls that
  `fuzz_one` makes around the stage are not part of it.
- `fuzz_loop`, `fuzz_one` and `on_shutdown` are parameters of
  `StageExample.Drive`. The `iters` count is a `nat`, not a `u64`.
- Left out as input/output or process management:
  - the `Launcher`;
  - shared memory;
  - the restarting event manager;
  - `MultiMonitor`'s output;
  - `hexdump` of inputs;
  - `env_logger`/`log` messages;
  - `clap` parsing;
  - the crash directory.
- Fandango.BridgeError: the message texts only stand in for pyo3's
  `to_string()` of the exception (Python's own message for an
  `AttributeError`, for instance); only the `IllegalState` kind is kept.
- `Harness.Describe` renders a Python error only roughly. It is not the
  `{:?}` output of pyo3.
- `examples/run_fandango.py` and `examples/run_fandango.rs` depend on the
  Fandango library and on grammar files; they are not part of this model.
  `src/libafl/mod.rs` only re-exports.
