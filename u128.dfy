/** `str::parse::<u128>()` (`u128::from_str_radix(s, 10)`) over the bytes
    of a string: an optional leading `+`, then decimal digits, accumulated
    from the left with checked multiplication and addition. */
module U128 {
  import opened Common

  const U128_LIMIT: nat := 0x1_0000_0000_0000_0000_0000_0000_0000_0000

  /** `IntErrorKind`, restricted to what an unsigned parse can report. */
  datatype ParseIntError = Empty | InvalidDigit | PosOverflow

  const PLUS: byte := 0x2B
  const MINUS: byte := 0x2D

  predicate IsDigit(c: byte) {
    0x30 <= c <= 0x39
  }

  function DigitValue(c: byte): nat
    requires IsDigit(c)
  {
    (c - 0x30) as nat
  }

  predicate AllDigits(d: Bytes) {
    forall i :: 0 <= i < |d| ==> IsDigit(d[i])
  }

  /** The number a string of decimal digits denotes, most significant first. */
  function Value(d: Bytes): nat
    requires AllDigits(d)
  {
    if d == [] then 0 else Value(d[..|d| - 1]) * 10 + DigitValue(d[|d| - 1])
  }

  /** What follows the sign: the `+` is dropped; a `-` is kept and, for an
      unsigned type, is then an invalid digit. */
  function Body(s: Bytes): Bytes {
    if |s| > 0 && s[0] == PLUS then s[1..] else s
  }

  /** `from_str_radix`: empty input and a lone sign are rejected first; then
      per byte the digit check comes before the overflow checks. */
  function FromStr(s: Bytes): (r: Result<nat, ParseIntError>)
    ensures r.Ok? ==> r.value < U128_LIMIT
  {
    if s == [] then Err(Empty)
    else if s == [PLUS] || s == [MINUS] then Err(InvalidDigit)
    else Accumulate(Body(s), 0, 0)
  }

  /** The loop of `from_str_radix` from position `i` with `acc` so far. */
  function Accumulate(d: Bytes, i: nat, acc: nat): (r: Result<nat, ParseIntError>)
    requires i <= |d| && acc < U128_LIMIT
    ensures r.Ok? ==> r.value < U128_LIMIT
    ensures r != Err(Empty)
    decreases |d| - i
  {
    if i == |d| then Ok(acc)
    else
      var mul := acc * 10;
      if !IsDigit(d[i]) then Err(InvalidDigit)
      else if mul >= U128_LIMIT then Err(PosOverflow)
      else if mul + DigitValue(d[i]) >= U128_LIMIT then Err(PosOverflow)
      else Accumulate(d, i + 1, mul + DigitValue(d[i]))
  }

  lemma ValueAppend(d: Bytes, c: byte)
    requires AllDigits(d) && IsDigit(c)
    ensures AllDigits(d + [c]) && Value(d + [c]) == Value(d) * 10 + DigitValue(c)
  {
    assert (d + [c])[..|d|] == d;
  }

  /** A longer prefix never denotes less. */
  lemma {:induction false} ValueGrows(d: Bytes, i: nat)
    requires AllDigits(d) && i <= |d|
    ensures AllDigits(d[..i]) && Value(d[..i]) <= Value(d)
    decreases |d|
  {
    if i < |d| {
      var init := d[..|d| - 1];
      ValueGrows(init, i);
      assert init[..i] == d[..i];
      assert Value(d) == Value(init) * 10 + DigitValue(d[|d| - 1]);
    } else {
      assert d[..i] == d;
    }
  }

  /** What the loop answers from position `i`: the value of the digits if
      they are all digits and fit, otherwise the error at the first position
      where a byte is not a digit or the prefix up to it overflows. */
  lemma {:induction false} AccumulateMeaning(d: Bytes, i: nat, acc: nat)
    requires i <= |d| && AllDigits(d[..i]) && acc == Value(d[..i]) && acc < U128_LIMIT
    ensures var r := Accumulate(d, i, acc);
            && (r.Ok? <==> AllDigits(d) && Value(d) < U128_LIMIT)
            && (r.Ok? ==> r.value == Value(d))
            && (r == Err(InvalidDigit) <==> exists j :: i <= j < |d| && FirstBad(d, j))
    decreases |d| - i
  {
    var r := Accumulate(d, i, acc);
    if i == |d| {
      assert d[..i] == d;
    } else if !IsDigit(d[i]) {
      assert FirstBad(d, i);
      assert !AllDigits(d);
    } else {
      ValueAppend(d[..i], d[i]);
      assert d[..i] + [d[i]] == d[..i + 1];
      var next := acc * 10 + DigitValue(d[i]);
      if next >= U128_LIMIT {
        assert r == Err(PosOverflow);
        forall j | i <= j < |d| ensures !FirstBad(d, j) {
          if j > i && AllDigits(d[..j]) {
            ValueGrows(d[..j], i + 1);
            assert d[..j][..i + 1] == d[..i + 1];
          }
        }
        if AllDigits(d) {
          ValueGrows(d, i + 1);
        }
      } else {
        AccumulateMeaning(d, i + 1, next);
        assert !FirstBad(d, i);
        if AllDigits(d) && Value(d) < U128_LIMIT {
          assert r.Ok?;
        }
      }
    }
  }

  /** Position `j` holds the first non-digit and the digits before it fit. */
  predicate FirstBad(d: Bytes, j: nat)
    requires j < |d|
  {
    !IsDigit(d[j]) && AllDigits(d[..j]) && Value(d[..j]) < U128_LIMIT
  }

  /** What `parse::<u128>` accepts and what it rejects, and why. */
  lemma FromStrMeaning(s: Bytes)
    ensures FromStr(s) == Err(Empty) <==> s == []
    ensures FromStr(s).Ok? <==>
              && s != [] && s != [PLUS]
              && AllDigits(Body(s)) && Value(Body(s)) < U128_LIMIT
    ensures FromStr(s).Ok? ==> FromStr(s).value == Value(Body(s))
    ensures FromStr(s) == Err(InvalidDigit) <==>
              (s == [PLUS] || s == [MINUS] || exists j :: 0 <= j < |Body(s)| && FirstBad(Body(s), j))
  {
    if s != [] && s != [PLUS] && s != [MINUS] {
      var d := Body(s);
      assert d[..0] == [];
      AccumulateMeaning(d, 0, 0);
      if s[0] == PLUS {
        assert |d| > 0;
      }
    } else if s == [MINUS] {
      assert FirstBad(Body(s), 0);
    }
  }

  /** The decimal digits of `n`, without leading zeros. */
  function ToDecimal(n: nat): (d: Bytes)
    ensures |d| > 0 && AllDigits(d) && Value(d) == n
    ensures d[0] != PLUS && d[0] != MINUS
  {
    if n < 10 then [(0x30 + n) as byte]
    else
      var init := ToDecimal(n / 10);
      var last := (0x30 + n % 10) as byte;
      ValueAppend(init, last);
      init + [last]
  }

  /** Formatting a `u128` and parsing it back gives the same number. */
  lemma RoundTrip(n: nat)
    requires n < U128_LIMIT
    ensures FromStr(ToDecimal(n)) == Ok(n)
  {
    var d := ToDecimal(n);
    FromStrMeaning(d);
    assert Body(d) == d;
  }

  /** The parity of a decimal number is that of its last digit. */
  lemma {:induction false} ParityOfLastDigit(d: Bytes)
    requires |d| > 0 && AllDigits(d)
    ensures Value(d) % 2 == DigitValue(d[|d| - 1]) % 2
  {
    var v := Value(d[..|d| - 1]);
    assert Value(d) == v * 10 + DigitValue(d[|d| - 1]);
    TenKeepsParity(v, DigitValue(d[|d| - 1]));
  }

  lemma TenKeepsParity(v: nat, x: nat)
    ensures (v * 10 + x) % 2 == x % 2
  {
    var q := v * 5;
    assert v * 10 + x == 2 * q + x;
  }
}
