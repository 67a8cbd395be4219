/** What the example harnesses share: reading an input as a UTF-8 decimal
    `u128`, and the interpreter check `main` makes before launching. */
module Harness {
  import opened Common
  import opened Fandango
  import Utf8
  import U128

  /** How far an input gets through `String::from_utf8` and `parse::<u128>`. */
  datatype Reading = NotUtf8 | NotNumber(error: U128.ParseIntError) | Number(n: nat)

  function Classify(input: Bytes): (r: Reading)
    ensures r.NotUtf8? <==> !Utf8.Valid(input)
    ensures r.NotNumber? <==> Utf8.Valid(input) && U128.FromStr(input).Err?
    ensures r.Number? ==> Utf8.Valid(input) && U128.FromStr(input) == Ok(r.n) && r.n < U128.U128_LIMIT
  {
    if !Utf8.Valid(input) then NotUtf8
    else match U128.FromStr(input)
      case Err(e) => NotNumber(e)
      case Ok(n) => Number(n)
  }

  /** The inputs read as a number are exactly an optional `+` followed by
      decimal digits denoting less than 2^128. */
  lemma NumbersAreDecimal(input: Bytes)
    ensures Classify(input).Number? <==>
              && input != [] && input != [U128.PLUS]
              && U128.AllDigits(U128.Body(input)) && U128.Value(U128.Body(input)) < U128.U128_LIMIT
    ensures Classify(input).Number? ==> Classify(input).n == U128.Value(U128.Body(input))
  {
    U128.FromStrMeaning(input);
    if U128.FromStr(input).Ok? {
      Utf8.AsciiValid(input);
    }
  }

  /** The verdict of every example harness: an even `u128` in decimal. */
  predicate EvenNumber(input: Bytes) {
    Classify(input).Number? && Classify(input).n % 2 == 0
  }

  /** The verdict "even" holds exactly for an optional `+` and decimal
      digits that fit in a `u128` and end in an even digit. */
  lemma EvenNumberMeaning(input: Bytes)
    ensures EvenNumber(input) <==>
              && input != [] && input != [U128.PLUS]
              && U128.AllDigits(U128.Body(input)) && U128.Value(U128.Body(input)) < U128.U128_LIMIT
              && U128.DigitValue(input[|input| - 1]) % 2 == 0
  {
    NumbersAreDecimal(input);
    var d := U128.Body(input);
    if input != [] && input != [U128.PLUS] && U128.AllDigits(d) {
      assert |d| > 0 && d[|d| - 1] == input[|input| - 1];
      U128.ParityOfLastDigit(d);
    }
  }

  /** How a call of a harness closure ends: it returns an exit kind, or it
      panics, which the in-process executor reports as a crash. */
  datatype Exit = Returned(kind: ExitKind) | Panicked(message: string)

  /** `crash()`: a panic when violent crashes are asked for, else `Crash`. */
  function CrashExit(violentCrash: bool): (r: Exit)
    ensures violentCrash <==> r.Panicked?
    ensures !violentCrash ==> r == Returned(Crash)
  {
    if violentCrash then Panicked("Violent crash") else Returned(Crash)
  }

  /** The harness of the stage and mutator examples: malformed input and
      odd numbers are failures, even numbers pass. */
  function ParityHarness(input: Bytes, violentCrash: bool): (r: Exit)
    ensures r == Returned(ExitOk) <==> EvenNumber(input)
    ensures Classify(input).Number? && !EvenNumber(input) ==> r == Returned(Crash)
    ensures !Classify(input).Number? ==> r == CrashExit(violentCrash)
  {
    match Classify(input)
    case NotUtf8 => CrashExit(violentCrash)
    case NotNumber(_) => CrashExit(violentCrash)
    case Number(n) => if n % 2 == 0 then Returned(ExitOk) else Returned(Crash)
  }

  /** Every `u128` written in decimal is read back as itself. */
  lemma DecimalRead(n: nat)
    requires n < U128.U128_LIMIT
    ensures Classify(U128.ToDecimal(n)) == Number(n)
  {
    var d := U128.ToDecimal(n);
    U128.RoundTrip(n);
    Utf8.AsciiValid(d);
  }

  const PYTHONPATH_HINT: string :=
    "You may need to set the PYTHONPATH environment variable to the path of the Python interpreter, "
    + "e.g. `export PYTHONPATH=$(echo .venv/lib/python*/site-packages)`. Underlying error: "

  /** The check `main` makes by building one handle before launching: only
      a Python error stops the program, with a hint about `PYTHONPATH`; any
      other failure, and success, let it go on. */
  function Precheck<T>(init: Result<T, InitError>): (r: Option<string>)
    ensures r.Some? <==> init.Err? && init.error.PyErr?
    ensures r.Some? ==> PYTHONPATH_HINT <= r.value
  {
    if init.Err? && init.error.PyErr? then Some(PYTHONPATH_HINT + Describe(init.error.cause)) else None
  }

  /** The `{:?}` rendering of a Python error. */
  function Describe(e: PyErr): string {
    match e
    case AttributeError(a) => "AttributeError(" + a + ")"
    case OverflowError => "OverflowError"
    case Raised(m) => m
  }
}
