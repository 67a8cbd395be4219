/** The bridge to the embedded Python grammar runtime (`FandangoPythonModule`).

    Construction reads the interface file, derives the file and module names
    from its path, compiles the unit, calls its `setup(fandango_file, kwargs)`
    and checks that `next_input` and `parse_input` exist. The Python side is
    an abstract record: a set of attribute names and oracle functions. */
module Fandango {
  import opened Common

  // ---------------------------------------------------------------------
  // The Python side, as seen from Rust

  /** A Python exception surfaced as a `PyErr`. */
  datatype PyErr =
    | AttributeError(attribute: string)  // `getattr` on a missing attribute
    | OverflowError                      // `extract::<u32>` of an int out of range
    | Raised(message: string)            // any exception raised by Python code

  /** The opaque session object returned by `setup` (the `generator` field). */
  type Session = nat

  /** The `**kwargs` dictionary: (key, value) pairs in insertion order. */
  type Dict = seq<(string, string)>

  /** A compiled interface unit. `nextInput(s, k)` and `parseInput(s, k, b)`
      are what the Python functions return when handed session `s` as the
      `k`-th call made through one handle; the index stands for the hidden
      state of the Python generator. */
  datatype PyUnit = PyUnit(
    attributes: set<string>,
    setup: (string, Dict) -> Result<Session, PyErr>,
    nextInput: (Session, nat) -> Result<Bytes, PyErr>,
    parseInput: (Session, nat, Bytes) -> Result<int, PyErr>)

  // ---------------------------------------------------------------------
  // Errors of construction

  /** Which path-derived name could not be obtained. */
  datatype PathFailure =
    | NoFileName          // "Could not extract file name from path"
    | NoParentDirectory   // "No parent directory in path"
    | NoPySuffix          // "File name does not end with .py"

  /** `FandangoPythonModuleInitError`. `EncodingError` carries what a
      `NulError` carries: the position of the first NUL and the text. */
  datatype InitError =
    | PyErr(cause: PyErr)
    | FilePathError(reason: PathFailure)
    | ReadFileError
    | EncodingError(position: nat, text: string)

  // ---------------------------------------------------------------------
  // Paths (a simplified POSIX form of `std::path::Path`)

  /** The pieces of `p` between `/` separators, empty pieces included. */
  function Segments(p: string): (segs: seq<string>)
    ensures |segs| >= 1
    ensures forall i :: 0 <= i < |segs| ==> '/' !in segs[i]
  {
    if p == [] then [[]]
    else
      var rest := Segments(p[1..]);
      if p[0] == '/' then [[]] + rest
      else [[p[0]] + rest[0]] + rest[1..]
  }

  /** Rejoins segments with `/`; the inverse of `Segments`. */
  function Join(segs: seq<string>): string
    requires |segs| >= 1
  {
    if |segs| == 1 then segs[0] else segs[0] + "/" + Join(segs[1..])
  }

  lemma {:induction false} JoinSegments(p: string)
    ensures Join(Segments(p)) == p
  {
    if p != [] {
      JoinSegments(p[1..]);
      var rest := Segments(p[1..]);
      if p[0] == '/' {
        assert Join(Segments(p)) == [] + "/" + Join(rest);
      } else if |rest| == 1 {
        assert Join(Segments(p)) == [p[0]] + rest[0];
      } else {
        assert Join(rest) == rest[0] + "/" + Join(rest[1..]);
        assert Segments(p)[1..] == rest[1..];
        assert Join(Segments(p)) == ([p[0]] + rest[0]) + "/" + Join(rest[1..]);
      }
    }
  }

  /** The normal components of a path: empty pieces (repeated, leading or
      trailing `/`) and `.` pieces are dropped, as `Path::components` does. */
  function Components(p: string): (c: seq<string>)
    ensures forall i :: 0 <= i < |c| ==> c[i] != "" && c[i] != "." && '/' !in c[i]
  {
    KeepNormal(Segments(p))
  }

  function KeepNormal(segs: seq<string>): (c: seq<string>)
    requires forall i :: 0 <= i < |segs| ==> '/' !in segs[i]
    ensures |c| <= |segs|
    ensures forall i :: 0 <= i < |c| ==> c[i] != "" && c[i] != "." && '/' !in c[i]
    ensures forall x :: x in c <==> x in segs && x != "" && x != "."
  {
    if segs == [] then []
    else
      var rest := KeepNormal(segs[1..]);
      if segs[0] == "" || segs[0] == "." then rest else [segs[0]] + rest
  }

  /** Dropping the empty and `.` pieces is a filter: it works piece by piece
      and keeps the order of what it keeps. */
  lemma {:induction false} KeepNormalConcat(a: seq<string>, b: seq<string>)
    requires forall i :: 0 <= i < |a| ==> '/' !in a[i]
    requires forall i :: 0 <= i < |b| ==> '/' !in b[i]
    ensures KeepNormal(a + b) == KeepNormal(a) + KeepNormal(b)
    ensures |a| == 1 ==> KeepNormal(a) == (if a[0] == "" || a[0] == "." then [] else a)
    decreases |a|
  {
    if a == [] {
      assert a + b == b;
    } else {
      assert (a + b)[0] == a[0] && (a + b)[1..] == a[1..] + b;
      KeepNormalConcat(a[1..], b);
      var rest := KeepNormal(a[1..]) + KeepNormal(b);
      assert KeepNormal(a + b) == if a[0] == "" || a[0] == "." then rest else [a[0]] + rest;
    }
    if |a| == 1 {
      assert a[1..] == [];
    }
  }

  /** `Path::file_name`: the last component, unless it is `..` or there is none. */
  function FileName(p: string): (r: Option<string>)
    ensures r.Some? ==> r.value != "" && r.value != "." && r.value != ".." && '/' !in r.value
    ensures r.Some? <==> |Components(p)| > 0 && Components(p)[|Components(p)| - 1] != ".."
    ensures r.Some? ==> r.value == Components(p)[|Components(p)| - 1]
  {
    var c := Components(p);
    if |c| == 0 || c[|c| - 1] == ".." then None else Some(c[|c| - 1])
  }

  /** `Path::parent` followed by `file_name`: the component before the last,
      unless it is `..` or there is none. */
  function ParentName(p: string): (r: Option<string>)
    ensures r.Some? ==> r.value != "" && r.value != "." && r.value != ".." && '/' !in r.value
    ensures r.Some? <==> |Components(p)| > 1 && Components(p)[|Components(p)| - 2] != ".."
    ensures r.Some? ==> r.value == Components(p)[|Components(p)| - 2]
  {
    var c := Components(p);
    if |c| < 2 || c[|c| - 2] == ".." then None else Some(c[|c| - 2])
  }

  /** A path without separators is a single segment. */
  lemma {:induction false} SegmentsPlain(a: string)
    requires '/' !in a
    ensures Segments(a) == [a]
  {
    if a != [] {
      SegmentsPlain(a[1..]);
      assert a[0] != '/' && a == [a[0]] + a[1..];
    }
  }

  /** A separator after a plain name splits off that name. */
  lemma {:induction false} SegmentsSplit(a: string, b: string)
    requires '/' !in a
    ensures Segments(a + "/" + b) == [a] + Segments(b)
  {
    if a == [] {
      assert a + "/" + b == ['/'] + b;
    } else {
      SegmentsSplit(a[1..], b);
      var p := a + "/" + b;
      assert p[0] == a[0] && a[0] != '/' && p[1..] == a[1..] + "/" + b;
      assert a == [a[0]] + a[1..];
    }
  }

  // ---------------------------------------------------------------------
  // NUL-terminated strings

  /** Index of the first NUL character of `s`. */
  function FirstNul(s: string): (i: nat)
    requires '\0' in s
    ensures i < |s| && s[i] == '\0' && '\0' !in s[..i]
  {
    if s[0] == '\0' then 0
    else
      assert s == [s[0]] + s[1..];
      var j := FirstNul(s[1..]);
      assert s[..j + 1] == [s[0]] + s[1..][..j];
      j + 1
  }

  /** `CString::new`: fails with the `NulError` of the first interior NUL. */
  function ToCString(s: string): (r: Result<string, InitError>)
    ensures r.Ok? <==> '\0' !in s
    ensures r.Ok? ==> r.value == s
    ensures r.Err? ==> (r.error.EncodingError? && r.error.text == s
                        && r.error.position < |s| && s[r.error.position] == '\0'
                        && '\0' !in s[..r.error.position])
  {
    if '\0' in s then Err(EncodingError(FirstNul(s), s)) else Ok(s)
  }

  // ---------------------------------------------------------------------
  // The three `?`-chained steps before the runtime is entered

  /** `read_code`: the file system is the oracle `fs` (`None` = unreadable). */
  function ReadCode(fs: string -> Option<string>, path: string): (r: Result<string, InitError>)
    ensures fs(path).None? ==> r == Err(ReadFileError)
    ensures fs(path).Some? ==> r == ToCString(fs(path).value)
  {
    match fs(path)
    case None => Err(ReadFileError)
    case Some(code) => ToCString(code)
  }

  /** `sanitize_file_name`: the file-name component, NUL-checked. */
  function SanitizeFileName(path: string): (r: Result<string, InitError>)
    ensures FileName(path).None? ==> r == Err(FilePathError(NoFileName))
    ensures r.Ok? ==> FileName(path) == Some(r.value) && '\0' !in r.value
    ensures FileName(path).Some? && '\0' in FileName(path).value ==> r.Err? && r.error.EncodingError?
    ensures FileName(path).Some? && '\0' !in FileName(path).value ==> r == Ok(FileName(path).value)
  {
    match FileName(path)
    case None => Err(FilePathError(NoFileName))
    case Some(name) =>
      match ToCString(name)
      case Err(e) => Err(e)
      case Ok(_) => Ok(name)
  }

  /** `sanitize_module_name`: for `__init__.py` the parent directory's name,
      otherwise the file name with one trailing `.py` removed. */
  function SanitizeModuleName(path: string, fileName: string): (r: Result<string, InitError>)
    ensures fileName == "__init__.py" && ParentName(path).None? ==> r == Err(FilePathError(NoParentDirectory))
    ensures fileName == "__init__.py" && r.Ok? ==> ParentName(path) == Some(r.value)
    ensures fileName == "__init__.py" && ParentName(path).Some? ==> r == ToCString(ParentName(path).value)
    ensures fileName != "__init__.py" && |fileName| >= 3 && fileName[|fileName| - 3..] == ".py" ==>
              r == ToCString(fileName[..|fileName| - 3])
    ensures fileName != "__init__.py" ==>
              (r == Err(FilePathError(NoPySuffix)) <==> !(|fileName| >= 3 && fileName[|fileName| - 3..] == ".py"))
    ensures fileName != "__init__.py" && r.Ok? ==> r.value + ".py" == fileName
    ensures r.Ok? ==> '\0' !in r.value
  {
    if fileName == "__init__.py" then
      match ParentName(path)
      case None => Err(FilePathError(NoParentDirectory))
      case Some(dir) => ToCString(dir)
    else if |fileName| >= 3 && fileName[|fileName| - 3..] == ".py" then
      var stem := fileName[..|fileName| - 3];
      assert stem + ".py" == fileName;
      ToCString(stem)
    else Err(FilePathError(NoPySuffix))
  }

  /** What `with_custom_python_interface` has in hand before taking the GIL. */
  datatype Prepared = Prepared(code: string, fileName: string, moduleName: string)

  function Prepare(fs: string -> Option<string>, path: string): (r: Result<Prepared, InitError>)
    ensures r.Ok? ==> fs(path) == Some(r.value.code) && FileName(path) == Some(r.value.fileName)
    ensures r.Ok? ==> '\0' !in r.value.code && '\0' !in r.value.fileName && '\0' !in r.value.moduleName
    ensures r.Ok? ==> SanitizeModuleName(path, r.value.fileName) == Ok(r.value.moduleName)
  {
    match ReadCode(fs, path)
    case Err(e) => Err(e)
    case Ok(code) =>
      match SanitizeFileName(path)
      case Err(e) => Err(e)
      case Ok(fileName) =>
        match SanitizeModuleName(path, fileName)
        case Err(e) => Err(e)
        case Ok(moduleName) => Ok(Prepared(code, fileName, moduleName))
  }

  // ---------------------------------------------------------------------
  // The kwargs dictionary

  function Lookup(d: Dict, k: string): Option<string> {
    if d == [] then None else if d[0].0 == k then Some(d[0].1) else Lookup(d[1..], k)
  }

  function Keys(d: Dict): (ks: seq<string>)
    ensures |ks| == |d|
    ensures forall i :: 0 <= i < |d| ==> ks[i] == d[i].0
  {
    if d == [] then [] else [d[0].0] + Keys(d[1..])
  }

  predicate Distinct(ks: seq<string>) {
    forall i, j :: 0 <= i < j < |ks| ==> ks[i] != ks[j]
  }

  /** `PyDict::set_item`: overwrite the value of an existing key in place,
      otherwise append the new key. */
  function SetItem(d: Dict, k: string, v: string): (r: Dict)
    ensures Lookup(r, k) == Some(v)
    ensures forall j :: j != k ==> Lookup(r, j) == Lookup(d, j)
    ensures Keys(r) == if k in Keys(d) then Keys(d) else Keys(d) + [k]
  {
    if d == [] then [(k, v)]
    else if d[0].0 == k then [(k, v)] + d[1..]
    else
      var rest := SetItem(d[1..], k, v);
      assert Keys(d) == [d[0].0] + Keys(d[1..]);
      assert Keys([d[0]] + rest) == [d[0].0] + Keys(rest);
      [d[0]] + rest
  }

  /** The dictionary after inserting `kwargs` from left to right. */
  function DictOf(kwargs: seq<(string, string)>): Dict {
    if kwargs == [] then []
    else
      var last := kwargs[|kwargs| - 1];
      SetItem(DictOf(kwargs[..|kwargs| - 1]), last.0, last.1)
  }

  /** The value last supplied for `k` in `kwargs`, if any. */
  function LastValue(kwargs: seq<(string, string)>, k: string): Option<string> {
    if kwargs == [] then None
    else if kwargs[|kwargs| - 1].0 == k then Some(kwargs[|kwargs| - 1].1)
    else LastValue(kwargs[..|kwargs| - 1], k)
  }

  /** Keys in the order of their first occurrence, each once. */
  function FirstOccurrences(ks: seq<string>): seq<string> {
    if ks == [] then []
    else
      var prior := FirstOccurrences(ks[..|ks| - 1]);
      if ks[|ks| - 1] in prior then prior else prior + [ks[|ks| - 1]]
  }

  function KeysOf(kwargs: seq<(string, string)>): (ks: seq<string>)
    ensures |ks| == |kwargs| && forall i :: 0 <= i < |kwargs| ==> ks[i] == kwargs[i].0
  {
    seq(|kwargs|, i requires 0 <= i < |kwargs| => kwargs[i].0)
  }

  /** Every key maps to the last value supplied for it. */
  lemma {:induction false} DictOfLookup(kwargs: seq<(string, string)>, k: string)
    ensures Lookup(DictOf(kwargs), k) == LastValue(kwargs, k)
  {
    if kwargs != [] {
      DictOfLookup(kwargs[..|kwargs| - 1], k);
    }
  }

  /** Keys are inserted in the order of their first occurrence, once each. */
  lemma {:induction false} DictOfKeys(kwargs: seq<(string, string)>)
    ensures Keys(DictOf(kwargs)) == FirstOccurrences(KeysOf(kwargs))
    ensures Distinct(Keys(DictOf(kwargs)))
  {
    if kwargs != [] {
      var init := kwargs[..|kwargs| - 1];
      DictOfKeys(init);
      assert KeysOf(kwargs)[..|kwargs| - 1] == KeysOf(init);
      var ks := Keys(DictOf(init));
      var k := kwargs[|kwargs| - 1].0;
      if k !in ks {
        forall i, j | 0 <= i < j < |ks + [k]| ensures (ks + [k])[i] != (ks + [k])[j] {
          if j < |ks| {
          } else {
            assert (ks + [k])[i] == ks[i];
          }
        }
      }
    }
  }

  /** The loop of `with_custom_python_interface` that fills `wrapped_kwargs`. */
  method BuildKwargs(kwargs: seq<(string, string)>) returns (d: Dict)
    ensures d == DictOf(kwargs)
  {
    d := [];
    for i := 0 to |kwargs|
      invariant d == DictOf(kwargs[..i])
    {
      assert kwargs[..i + 1][..i] == kwargs[..i];
      d := SetItem(d, kwargs[i].0, kwargs[i].1);
    }
    assert kwargs[..|kwargs|] == kwargs;
  }

  // ---------------------------------------------------------------------
  // Construction

  /** What construction produces, step by step: the unit and the session,
      or the first error met. */
  function InitOutcome(fs: string -> Option<string>,
                       fromCode: (string, string, string) -> Result<PyUnit, PyErr>,
                       interfacePath: string, fandangoFile: string,
                       kwargs: seq<(string, string)>): Result<(PyUnit, Session), InitError>
  {
    match Prepare(fs, interfacePath)
    case Err(e) => Err(e)
    case Ok(p) =>
      match fromCode(p.code, p.fileName, p.moduleName)
      case Err(e) => Err(PyErr(e))
      case Ok(unit) =>
        if "setup" !in unit.attributes then Err(PyErr(AttributeError("setup")))
        else
          match unit.setup(fandangoFile, DictOf(kwargs))
          case Err(e) => Err(PyErr(e))
          case Ok(session) =>
            if "next_input" !in unit.attributes then Err(PyErr(AttributeError("next_input")))
            else if "parse_input" !in unit.attributes then Err(PyErr(AttributeError("parse_input")))
            else Ok((unit, session))
  }

  /** An unreadable interface file is reported before anything else is
      looked at, and never as a Python error. */
  lemma ReadErrorFirst(fs: string -> Option<string>,
                       fromCode: (string, string, string) -> Result<PyUnit, PyErr>,
                       interfacePath: string, fandangoFile: string, kwargs: seq<(string, string)>)
    requires fs(interfacePath).None?
    ensures InitOutcome(fs, fromCode, interfacePath, fandangoFile, kwargs) == Err(ReadFileError)
  {
  }

  /** The error reported when construction fails before Python is entered,
      in the order: read error, code NUL, file name, file-name NUL, module
      name, module-name NUL. */
  lemma {:induction false} PrepareOrder(fs: string -> Option<string>, path: string)
    ensures fs(path).Some? && '\0' in fs(path).value ==>
              Prepare(fs, path) == Err(EncodingError(FirstNul(fs(path).value), fs(path).value))
    ensures fs(path).Some? && '\0' !in fs(path).value && FileName(path).None? ==>
              Prepare(fs, path) == Err(FilePathError(NoFileName))
    ensures fs(path).Some? && '\0' !in fs(path).value && FileName(path).Some? && '\0' in FileName(path).value ==>
              Prepare(fs, path).Err? && Prepare(fs, path).error.EncodingError?
              && Prepare(fs, path).error.text == FileName(path).value
    ensures Prepare(fs, path).Err? && Prepare(fs, path).error.FilePathError?
              && Prepare(fs, path).error.reason == NoPySuffix ==>
              FileName(path).Some? && FileName(path).value != "__init__.py"
    ensures fs(path).Some? && '\0' !in fs(path).value && SanitizeFileName(path).Ok?
              && SanitizeModuleName(path, SanitizeFileName(path).value).Err? ==>
              Prepare(fs, path) == Err(SanitizeModuleName(path, SanitizeFileName(path).value).error)
    ensures fs(path).Some? && '\0' !in fs(path).value && SanitizeFileName(path).Ok?
              && SanitizeModuleName(path, SanitizeFileName(path).value).Ok? ==>
              Prepare(fs, path) == Ok(Prepared(fs(path).value, SanitizeFileName(path).value,
                                               SanitizeModuleName(path, SanitizeFileName(path).value).value))
  {
  }

  /** Once Python is entered, every failure is a `PyErr`, and it is the
      first failing step's: compilation, the `setup` lookup, the `setup`
      call, then the `next_input` and `parse_input` lookups. */
  lemma InitOrder(fs: string -> Option<string>,
                  fromCode: (string, string, string) -> Result<PyUnit, PyErr>,
                  interfacePath: string, fandangoFile: string, kwargs: seq<(string, string)>)
    ensures var r := InitOutcome(fs, fromCode, interfacePath, fandangoFile, kwargs);
            Prepare(fs, interfacePath).Err? ==> r == Err(Prepare(fs, interfacePath).error)
    ensures var r := InitOutcome(fs, fromCode, interfacePath, fandangoFile, kwargs);
            Prepare(fs, interfacePath).Ok? ==>
              && (r.Err? ==> r.error.PyErr?)
              && var p := Prepare(fs, interfacePath).value;
              && var compiled := fromCode(p.code, p.fileName, p.moduleName);
              && (compiled.Err? ==> r == Err(PyErr(compiled.error)))
              && (compiled.Ok? ==>
                    && var unit := compiled.value;
                    && ("setup" !in unit.attributes ==> r == Err(PyErr(AttributeError("setup"))))
                    && ("setup" in unit.attributes ==>
                          && var session := unit.setup(fandangoFile, DictOf(kwargs));
                          && (session.Err? ==> r == Err(PyErr(session.error)))
                          && (session.Ok? && "next_input" !in unit.attributes ==>
                                r == Err(PyErr(AttributeError("next_input"))))
                          && (session.Ok? && "next_input" in unit.attributes
                              && "parse_input" !in unit.attributes ==>
                                r == Err(PyErr(AttributeError("parse_input"))))))
  {
  }

  /** A successful construction went through every runtime step, in order:
      compile, `setup` called with the kwargs dictionary, then the two
      capability checks. Any missing attribute is a `PyErr`. */
  lemma InitSucceeds(fs: string -> Option<string>,
                     fromCode: (string, string, string) -> Result<PyUnit, PyErr>,
                     interfacePath: string, fandangoFile: string, kwargs: seq<(string, string)>)
    ensures var r := InitOutcome(fs, fromCode, interfacePath, fandangoFile, kwargs);
            r.Ok? <==>
              && Prepare(fs, interfacePath).Ok?
              && var p := Prepare(fs, interfacePath).value;
              && fromCode(p.code, p.fileName, p.moduleName).Ok?
              && var unit := fromCode(p.code, p.fileName, p.moduleName).value;
              && {"setup", "next_input", "parse_input"} <= unit.attributes
              && unit.setup(fandangoFile, DictOf(kwargs)).Ok?
              && r == Ok((unit, unit.setup(fandangoFile, DictOf(kwargs)).value))
  {
  }

  // ---------------------------------------------------------------------
  // The handle

  /** `next_input(session)` as the `k`-th call: the attribute is looked up
      again on every call. */
  function NextInputAt(unit: PyUnit, session: Session, k: nat): (r: Result<Bytes, PyErr>)
    ensures "next_input" !in unit.attributes ==> r == Err(AttributeError("next_input"))
    ensures "next_input" in unit.attributes ==> r == unit.nextInput(session, k)
  {
    if "next_input" !in unit.attributes then Err(AttributeError("next_input"))
    else unit.nextInput(session, k)
  }

  /** `parse_input(session, input)` as the `k`-th call, extracted as a `u32`. */
  function ParseInputAt(unit: PyUnit, session: Session, k: nat, input: Bytes): (r: Result<nat, PyErr>)
    ensures r.Ok? ==> r.value < U32_LIMIT
    ensures r.Ok? <==> "parse_input" in unit.attributes && unit.parseInput(session, k, input).Ok?
                       && 0 <= unit.parseInput(session, k, input).value < U32_LIMIT
    ensures r.Ok? ==> r.value == unit.parseInput(session, k, input).value
    ensures "parse_input" !in unit.attributes ==> r == Err(AttributeError("parse_input"))
    ensures "parse_input" in unit.attributes && unit.parseInput(session, k, input).Err? ==>
              r == Err(unit.parseInput(session, k, input).error)
    ensures "parse_input" in unit.attributes && unit.parseInput(session, k, input).Ok?
              && !(0 <= unit.parseInput(session, k, input).value < U32_LIMIT) ==>
              r == Err(OverflowError)
  {
    if "parse_input" !in unit.attributes then Err(AttributeError("parse_input"))
    else
      match unit.parseInput(session, k, input)
      case Err(e) => Err(e)
      case Ok(n) => if 0 <= n < U32_LIMIT then Ok(n) else Err(OverflowError)
  }

  /** The `illegal_state` error a failed bridge call becomes in the LibAFL
      adapters (`Error::illegal_state(e.to_string())`). The message texts
      stand in for pyo3's rendering of the exception. */
  function BridgeError(e: PyErr): (r: Error)
    ensures r.IllegalState?
  {
    match e
    case AttributeError(a) => IllegalState("AttributeError: " + a)
    case OverflowError => IllegalState("OverflowError")
    case Raised(m) => IllegalState(m)
  }

  /** `FandangoPythonModule`: the compiled unit and the session from `setup`.
      `calls` counts the calls made into the runtime through this handle. */
  class FandangoPythonModule {
    const unit: PyUnit
    const generator: Session
    var calls: nat

    /** Both capabilities were checked at construction. */
    ghost predicate Valid()
    {
      "next_input" in unit.attributes && "parse_input" in unit.attributes
    }

    constructor (unit: PyUnit, generator: Session)
      ensures this.unit == unit && this.generator == generator && calls == 0
    {
      this.unit := unit;
      this.generator := generator;
      calls := 0;
    }

    /** `next_input`: one call into the runtime with the stored session. */
    method NextInput() returns (r: Result<Bytes, PyErr>)
      modifies this`calls
      ensures calls == old(calls) + 1
      ensures r == NextInputAt(unit, generator, old(calls))
      ensures Valid() ==> r == unit.nextInput(generator, old(calls))
    {
      r := NextInputAt(unit, generator, calls);
      calls := calls + 1;
    }

    /** `parse_input`: one call into the runtime with the same stored session. */
    method ParseInput(input: Bytes) returns (r: Result<nat, PyErr>)
      modifies this`calls
      ensures calls == old(calls) + 1
      ensures r == ParseInputAt(unit, generator, old(calls), input)
      ensures r.Ok? ==> r.value < U32_LIMIT
    {
      r := ParseInputAt(unit, generator, calls, input);
      calls := calls + 1;
    }
  }

  /** `with_custom_python_interface`: the three name checks, then the
      runtime calls, with the kwargs dictionary built by a loop. */
  method WithCustomPythonInterface(fs: string -> Option<string>,
                                   fromCode: (string, string, string) -> Result<PyUnit, PyErr>,
                                   interfacePath: string, fandangoFile: string,
                                   kwargs: seq<(string, string)>)
    returns (r: Result<FandangoPythonModule, InitError>)
    ensures var o := InitOutcome(fs, fromCode, interfacePath, fandangoFile, kwargs);
            && r.Ok? == o.Ok?
            && (r.Err? ==> r.error == o.error)
            && (r.Ok? ==> fresh(r.value) && r.value.Valid() && r.value.calls == 0
                          && r.value.unit == o.value.0 && r.value.generator == o.value.1)
  {
    var p := Prepare(fs, interfacePath);
    if p.Err? {
      return Err(p.error);
    }
    var compiled := fromCode(p.value.code, p.value.fileName, p.value.moduleName);
    if compiled.Err? {
      return Err(PyErr(compiled.error));
    }
    var unit := compiled.value;
    var wrappedKwargs := BuildKwargs(kwargs);
    if "setup" !in unit.attributes {
      return Err(PyErr(AttributeError("setup")));
    }
    var session := unit.setup(fandangoFile, wrappedKwargs);
    if session.Err? {
      return Err(PyErr(session.error));
    }
    if "next_input" !in unit.attributes {
      return Err(PyErr(AttributeError("next_input")));
    }
    if "parse_input" !in unit.attributes {
      return Err(PyErr(AttributeError("parse_input")));
    }
    var handle := new FandangoPythonModule(unit, session.value);
    r := Ok(handle);
  }

  /** The interface file `new` uses: `examples/run_fandango.py`, found from
      this source file's own path (`src/fandango.rs`, two levels up). */
  const DEFAULT_INTERFACE: string := "examples/run_fandango.py"

  /** Two plain names joined by one separator are the two components. */
  lemma ComponentsOfPair(dir: string, file: string)
    requires '/' !in dir && dir != "" && dir != "."
    requires '/' !in file && file != "" && file != "."
    ensures Components(dir + "/" + file) == [dir, file]
  {
    SegmentsSplit(dir, file);
    SegmentsPlain(file);
    var segs := [dir, file];
    assert Segments(dir + "/" + file) == segs;
    assert segs[1..] == [file] && [file][1..] == [];
    assert KeepNormal([file]) == [file] + KeepNormal([]);
    assert KeepNormal(segs) == [dir] + KeepNormal([file]);
  }

  /** The file name `stem.py` ends in `.py`, strips back to `stem`, and is
      `__init__.py` only for the stem `__init__`. */
  lemma PyFile(stem: string)
    ensures var file := stem + ".py";
            && |file| >= 3 && file[|file| - 3..] == ".py" && file[..|file| - 3] == stem
            && file != "" && file != "." && file != ".."
            && ('/' !in stem ==> '/' !in file)
            && (file == "__init__.py" ==> stem == "__init__")
  {
    var file := stem + ".py";
    assert file[|file| - 3..] == ".py" && file[..|file| - 3] == stem;
    assert file[|file| - 1] == 'y';
  }

  /** The names taken from a path whose components end in `stem.py`. */
  lemma PyFileSanitized(path: string, stem: string)
    requires FileName(path) == Some(stem + ".py")
    requires '\0' !in stem && stem != "__init__"
    ensures SanitizeFileName(path) == Ok(stem + ".py")
    ensures SanitizeModuleName(path, stem + ".py") == Ok(stem)
  {
    var file := stem + ".py";
    PyFile(stem);
    assert '\0' !in file by {
      assert file == stem + ".py";
      forall i | 0 <= i < |file| ensures file[i] != '\0' {
        if i >= |stem| {
          assert file[i] == ".py"[i - |stem|];
        } else {
          assert file[i] == stem[i];
        }
      }
    }
  }

  /** A readable interface at `dir/stem.py` (the shape of the default
      interface) is compiled as file `stem.py` of module `stem`. */
  lemma PyFileNames(fs: string -> Option<string>, dir: string, stem: string)
    requires '/' !in dir && dir != "" && dir != "."
    requires '/' !in stem && '\0' !in stem && stem != "__init__"
    requires fs(dir + "/" + (stem + ".py")).Some? && '\0' !in fs(dir + "/" + (stem + ".py")).value
    ensures var path := dir + "/" + (stem + ".py");
            Prepare(fs, path) == Ok(Prepared(fs(path).value, stem + ".py", stem))
  {
    var file := stem + ".py";
    var path := dir + "/" + file;
    PyFile(stem);
    ComponentsOfPair(dir, file);
    assert FileName(path) == Some(file);
    PyFileSanitized(path, stem);
  }

  /** The name `__init__.py` is one plain path component without NUL. */
  lemma InitFile()
    ensures var file := "__init__.py";
            && '/' !in file && '\0' !in file && file != "" && file != "." && file != ".."
  {
    var file := "__init__.py";
    forall i | 0 <= i < |file| ensures file[i] != '/' && file[i] != '\0' {
    }
  }

  /** The names taken from a path whose last two components are `dir` and
      `__init__.py`. */
  lemma InitFileSanitized(path: string, dir: string)
    requires FileName(path) == Some("__init__.py") && ParentName(path) == Some(dir) && '\0' !in dir
    ensures SanitizeFileName(path) == Ok("__init__.py")
    ensures SanitizeModuleName(path, "__init__.py") == Ok(dir)
  {
    InitFile();
  }

  /** An interface named `__init__.py` directly inside a plain directory
      `dir` takes its module name from the directory. */
  lemma InitFileNames(fs: string -> Option<string>, dir: string)
    requires '/' !in dir && '\0' !in dir && dir != "" && dir != "." && dir != ".."
    requires fs(dir + "/" + "__init__.py").Some? && '\0' !in fs(dir + "/" + "__init__.py").value
    ensures var path := dir + "/" + "__init__.py";
            Prepare(fs, path) == Ok(Prepared(fs(path).value, "__init__.py", dir))
  {
    var path := dir + "/" + "__init__.py";
    InitFile();
    ComponentsOfPair(dir, "__init__.py");
    InitFileSanitized(path, dir);
  }

  /** `new`: construction with the default interface file. */
  method New(fs: string -> Option<string>,
             fromCode: (string, string, string) -> Result<PyUnit, PyErr>,
             fandangoFile: string, kwargs: seq<(string, string)>)
    returns (r: Result<FandangoPythonModule, InitError>)
    ensures var o := InitOutcome(fs, fromCode, DEFAULT_INTERFACE, fandangoFile, kwargs);
            && r.Ok? == o.Ok?
            && (r.Err? ==> r.error == o.error)
            && (r.Ok? ==> fresh(r.value) && r.value.Valid() && r.value.calls == 0
                          && r.value.unit == o.value.0 && r.value.generator == o.value.1)
  {
    r := WithCustomPythonInterface(fs, fromCode, DEFAULT_INTERFACE, fandangoFile, kwargs);
  }
}
