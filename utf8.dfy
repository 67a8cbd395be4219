/** UTF-8 well-formedness as `String::from_utf8` checks it: the byte
    sequences of section 4 of RFC 3629, with their encoder and decoder. */
module Utf8 {
  import opened Common

  /** A Unicode scalar value: a code point that is not a surrogate. */
  type Scalar = n: nat | n < 0xD800 || 0xE000 <= n < 0x11_0000

  predicate Tail(x: byte) {
    0x80 <= x <= 0xBF
  }

  /** The length of the well-formed sequence at the start of `b`
      (`UTF8-1` … `UTF8-4` of RFC 3629, section 4), or 0 if there is none. */
  function FirstLength(b: Bytes): (n: nat)
    ensures n <= 4 && n <= |b|
  {
    if |b| == 0 then 0
    else if b[0] <= 0x7F then 1
    else if 0xC2 <= b[0] <= 0xDF then
      if |b| >= 2 && Tail(b[1]) then 2 else 0
    else if 0xE0 <= b[0] <= 0xEF then
      var lo: byte := if b[0] == 0xE0 then 0xA0 else 0x80;
      var hi: byte := if b[0] == 0xED then 0x9F else 0xBF;
      if |b| >= 3 && lo <= b[1] <= hi && Tail(b[2]) then 3 else 0
    else if 0xF0 <= b[0] <= 0xF4 then
      var lo: byte := if b[0] == 0xF0 then 0x90 else 0x80;
      var hi: byte := if b[0] == 0xF4 then 0x8F else 0xBF;
      if |b| >= 4 && lo <= b[1] <= hi && Tail(b[2]) && Tail(b[3]) then 4 else 0
    else 0
  }

  /** `String::from_utf8(b).is_ok()`: `b` is a run of well-formed sequences. */
  predicate Valid(b: Bytes)
    decreases |b|
  {
    |b| == 0 || (FirstLength(b) > 0 && Valid(b[FirstLength(b)..]))
  }

  /** The bytes RFC 3629 assigns to one scalar value: the bits of `c`,
      six at a time from the low end, behind the lead byte's marker. */
  function Encode(c: Scalar): (b: Bytes)
    ensures 1 <= |b| <= 4
  {
    var t := c / 64;
    var u := t / 64;
    if c < 0x80 then [c as byte]
    else if c < 0x800 then [(0xC0 + t) as byte, (0x80 + c % 64) as byte]
    else if c < 0x1_0000 then [(0xE0 + u) as byte, (0x80 + t % 64) as byte, (0x80 + c % 64) as byte]
    else [(0xF0 + u / 64) as byte, (0x80 + u % 64) as byte, (0x80 + t % 64) as byte, (0x80 + c % 64) as byte]
  }

  /** The scalar value of the well-formed sequence at the start of `b`. */
  function DecodeFirst(b: Bytes): (c: Scalar)
    requires FirstLength(b) > 0
  {
    var n := FirstLength(b);
    if n == 1 then b[0] as nat
    else if n == 2 then Join6(b[0] as nat - 0xC0, b[1] as nat - 0x80)
    else if n == 3 then Join6(Join6(b[0] as nat - 0xE0, b[1] as nat - 0x80), b[2] as nat - 0x80)
    else Join6(Join6(Join6(b[0] as nat - 0xF0, b[1] as nat - 0x80), b[2] as nat - 0x80), b[3] as nat - 0x80)
  }

  /** Six more low bits. */
  function Join6(high: nat, low: nat): nat {
    high * 64 + low
  }

  lemma Split6(high: nat, low: nat)
    requires low < 64
    ensures Join6(high, low) / 64 == high && Join6(high, low) % 64 == low
  {
  }

  function EncodeAll(cs: seq<Scalar>): (b: Bytes)
    decreases |cs|
  {
    if cs == [] then [] else Encode(cs[0]) + EncodeAll(cs[1..])
  }

  /** The scalar values of a well-formed byte string. */
  function DecodeAll(b: Bytes): (cs: seq<Scalar>)
    requires Valid(b)
    decreases |b|
  {
    if |b| == 0 then [] else [DecodeFirst(b)] + DecodeAll(b[FirstLength(b)..])
  }

  /** The encoding of a scalar value is one well-formed sequence, whatever
      follows it, and decodes back to the value. */
  lemma EncodeFirst(c: Scalar, rest: Bytes)
    ensures FirstLength(Encode(c) + rest) == |Encode(c)|
    ensures DecodeFirst(Encode(c) + rest) == c
  {
    var b := Encode(c) + rest;
    var t := c / 64;
    var u := t / 64;
    assert c == Join6(t, c % 64) && t == Join6(u, t % 64) && u == Join6(u / 64, u % 64);
    if c < 0x80 {
    } else if c < 0x800 {
      assert b[..2] == Encode(c);
    } else if c < 0x1_0000 {
      assert b[..3] == Encode(c);
      assert u == 0xD ==> t % 64 < 0x20;
    } else {
      assert b[..4] == Encode(c);
    }
  }

  /** A well-formed sequence is the encoding of the value it decodes to. */
  lemma DecodeFirstEncodes(b: Bytes)
    requires FirstLength(b) > 0
    ensures Encode(DecodeFirst(b)) == b[..FirstLength(b)]
  {
    var n := FirstLength(b);
    var c := DecodeFirst(b);
    if n == 2 {
      Split6(b[0] as nat - 0xC0, b[1] as nat - 0x80);
    } else if n == 3 {
      var u := b[0] as nat - 0xE0;
      var t := Join6(u, b[1] as nat - 0x80);
      Split6(t, b[2] as nat - 0x80);
      Split6(u, b[1] as nat - 0x80);
    } else if n == 4 {
      var v := b[0] as nat - 0xF0;
      var u := Join6(v, b[1] as nat - 0x80);
      var t := Join6(u, b[2] as nat - 0x80);
      Split6(t, b[3] as nat - 0x80);
      Split6(u, b[2] as nat - 0x80);
      Split6(v, b[1] as nat - 0x80);
    }
  }

  /** Every encoding of scalar values is accepted, and decodes back. */
  lemma {:induction false} EncodeAllValid(cs: seq<Scalar>)
    ensures Valid(EncodeAll(cs)) && DecodeAll(EncodeAll(cs)) == cs
    decreases |cs|
  {
    if cs != [] {
      var rest := EncodeAll(cs[1..]);
      EncodeAllValid(cs[1..]);
      EncodeFirst(cs[0], rest);
      assert (Encode(cs[0]) + rest)[|Encode(cs[0])|..] == rest;
    }
  }

  /** Every accepted byte string is the encoding of what it decodes to:
      with `EncodeAllValid`, the validator accepts exactly the encodings. */
  lemma {:induction false} DecodeAllEncodes(b: Bytes)
    requires Valid(b)
    ensures EncodeAll(DecodeAll(b)) == b
    decreases |b|
  {
    if |b| > 0 {
      var n := FirstLength(b);
      var cs := DecodeAll(b);
      assert cs[0] == DecodeFirst(b) && cs[1..] == DecodeAll(b[n..]);
      assert EncodeAll(cs) == Encode(cs[0]) + EncodeAll(cs[1..]);
      DecodeAllEncodes(b[n..]);
      DecodeFirstEncodes(b);
      assert b == b[..n] + b[n..];
    }
  }

  /** ASCII bytes are each a sequence of their own. */
  lemma {:induction false} AsciiValid(b: Bytes)
    requires forall i :: 0 <= i < |b| ==> b[i] <= 0x7F
    ensures Valid(b)
    decreases |b|
  {
    if |b| > 0 {
      AsciiValid(b[1..]);
    }
  }
}
