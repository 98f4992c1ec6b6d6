/**
 * The two encodings a string passes through: UTF-16 code units in memory, and
 * UTF-8 bytes (RFC 3629) in a Buffer. Unpaired surrogates and malformed bytes
 * become U+FFFD, one for each maximal malformed prefix.
 */
module Utf {
  import opened Base64Url

  type CodeUnit = n: nat | n < 0x10000

  type Scalar = n: nat | n < 0xD800 || 0xE000 <= n < 0x110000

  const REPLACEMENT: Scalar := 0xFFFD

  predicate High(u: CodeUnit) {
    0xD800 <= u < 0xDC00
  }

  predicate Low(u: CodeUnit) {
    0xDC00 <= u < 0xE000
  }

  predicate StartsWithPair(u: seq<CodeUnit>) {
    |u| >= 2 && High(u[0]) && Low(u[1])
  }

  /** No unpaired surrogate. */
  predicate WellFormed(u: seq<CodeUnit>) {
    if u == [] then true
    else if StartsWithPair(u) then WellFormed(u[2..])
    else !High(u[0]) && !Low(u[0]) && WellFormed(u[1..])
  }

  function ToScalars(u: seq<CodeUnit>): seq<Scalar> {
    if u == [] then []
    else if StartsWithPair(u) then [0x10000 + (u[0] - 0xD800) * 0x400 + (u[1] - 0xDC00)] + ToScalars(u[2..])
    else [if High(u[0]) || Low(u[0]) then REPLACEMENT else u[0]] + ToScalars(u[1..])
  }

  function UnitsOf(c: Scalar): seq<CodeUnit> {
    if c < 0x10000 then [c]
    else
      var n: int := c - 0x10000;
      [0xD800 + n / 0x400, 0xDC00 + n % 0x400]
  }

  function ToUnits(s: seq<Scalar>): seq<CodeUnit> {
    if s == [] then [] else UnitsOf(s[0]) + ToUnits(s[1..])
  }

  lemma {:induction false} ScalarsKeepWellFormedText(u: seq<CodeUnit>)
    requires WellFormed(u)
    ensures ToUnits(ToScalars(u)) == u
  {
    if u != [] {
      var c := ToScalars(u)[0];
      var width := if StartsWithPair(u) then 2 else 1;
      assert ToScalars(u)[1..] == ToScalars(u[width..]);
      assert UnitsOf(c) == u[..width];
      ScalarsKeepWellFormedText(u[width..]);
      assert u == u[..width] + u[width..];
    }
  }

  lemma {:induction false} WellFormedConcat(a: seq<CodeUnit>, b: seq<CodeUnit>)
    requires WellFormed(a) && WellFormed(b)
    ensures WellFormed(a + b)
  {
    if a == [] {
      assert a + b == b;
    } else {
      var width := if StartsWithPair(a) then 2 else 1;
      assert (a + b)[width..] == a[width..] + b;
      WellFormedConcat(a[width..], b);
    }
  }

  // --- UTF-8 ---

  function BytesOf(scalar: Scalar): seq<Byte> {
    var c: int := scalar;
    if c < 0x80 then [c]
    else if c < 0x800 then [0xC0 + c / 0x40, 0x80 + c % 0x40]
    else if c < 0x10000 then [0xE0 + c / 0x1000, 0x80 + c / 0x40 % 0x40, 0x80 + c % 0x40]
    else [0xF0 + c / 0x40000, 0x80 + c / 0x1000 % 0x40, 0x80 + c / 0x40 % 0x40, 0x80 + c % 0x40]
  }

  function Encode(s: seq<Scalar>): seq<Byte> {
    if s == [] then [] else BytesOf(s[0]) + Encode(s[1..])
  }

  /** How many continuation bytes a lead byte calls for; none for a byte that cannot lead. */
  function Needed(lead: Byte): nat {
    if 0xC2 <= lead < 0xE0 then 1 else if 0xE0 <= lead < 0xF0 then 2 else if 0xF0 <= lead < 0xF5 then 3 else 0
  }

  /** Second bytes that would make an overlong form, a surrogate or a value past U+10FFFF are malformed. */
  predicate Follows(lead: Byte, b: Byte) {
    && (if lead == 0xE0 then 0xA0 else if lead == 0xF0 then 0x90 else 0x80) <= b
    && b <= (if lead == 0xED then 0x9F else if lead == 0xF4 then 0x8F else 0xBF)
  }

  /** How many of the continuation bytes called for are there. */
  function Present(b: seq<Byte>): (n: nat)
    requires b != []
    ensures n <= Needed(b[0]) && n < |b|
    ensures n >= 1 ==> Follows(b[0], b[1])
    ensures forall i :: 2 <= i <= n ==> 0x80 <= b[i] < 0xC0
  {
    if Needed(b[0]) == 0 || |b| < 2 || !Follows(b[0], b[1]) then 0
    else if Needed(b[0]) == 1 || |b| < 3 || b[2] / 0x40 != 2 then 1
    else if Needed(b[0]) == 2 || |b| < 4 || b[3] / 0x40 != 2 then 2
    else 3
  }

  function First(b: seq<Byte>): Scalar
    requires b != []
  {
    var n := Present(b);
    if b[0] < 0x80 then b[0]
    else if n == 0 || n < Needed(b[0]) then REPLACEMENT
    else
      var lead: int, b1: int := b[0], b[1];
      if n == 1 then (lead - 0xC0) * 0x40 + (b1 - 0x80)
      else
        var b2: int := b[2];
        if n == 2 then (lead - 0xE0) * 0x1000 + (b1 - 0x80) * 0x40 + (b2 - 0x80)
        else (lead - 0xF0) * 0x40000 + (b1 - 0x80) * 0x1000 + (b2 - 0x80) * 0x40 + (b[3] - 0x80)
  }

  function Decode(b: seq<Byte>): seq<Scalar> {
    if b == [] then [] else [First(b)] + Decode(b[1 + Present(b)..])
  }

  lemma SixBitGroups(c: int)
    requires 0 <= c < 0x110000
    ensures c == c / 0x40 * 0x40 + c % 0x40
    ensures c / 0x40 == c / 0x1000 * 0x40 + c / 0x40 % 0x40
    ensures c / 0x1000 == c / 0x40000 * 0x40 + c / 0x1000 % 0x40
  {
  }

  lemma FirstIsDecoded(c: Scalar, rest: seq<Byte>)
    ensures var b := BytesOf(c) + rest; First(b) == c && 1 + Present(b) == |BytesOf(c)|
  {
    var b := BytesOf(c) + rest;
    if 0x80 <= c {
      SixBitGroups(c);
      assert 0x80 <= b[1] < 0xC0 && Needed(b[0]) == |BytesOf(c)| - 1;
      if 0x800 <= c { assert b[2] / 0x40 == 2 && Follows(b[0], b[1]); }
      if 0x10000 <= c { assert b[3] / 0x40 == 2; }
    }
  }

  lemma {:induction false} DecodeUndoesEncode(s: seq<Scalar>)
    ensures Decode(Encode(s)) == s
  {
    if s != [] {
      var rest := Encode(s[1..]);
      FirstIsDecoded(s[0], rest);
      assert Encode(s)[|BytesOf(s[0])|..] == rest;
      DecodeUndoesEncode(s[1..]);
      assert s == [s[0]] + s[1..];
    }
  }

  /** A Buffer made from well-formed text reads back as that text. */
  lemma BufferKeepsWellFormedText(u: seq<CodeUnit>)
    requires WellFormed(u)
    ensures ToUnits(Decode(Encode(ToScalars(u)))) == u
  {
    DecodeUndoesEncode(ToScalars(u));
    ScalarsKeepWellFormedText(u);
  }
}
