/**
 * Unpadded base64url, section 5 of RFC 4648, as a Buffer prints and reads it:
 * the reader also takes the standard alphabet, skips foreign characters and
 * stops at padding.
 */
module Base64Url {
  type Byte = n: nat | n < 256
  type Sextet = n: nat | n < 64

  datatype Reading = Padding | Foreign | Digit(value: Sextet)

  function Letter(n: Sextet): char {
    if n < 26 then ('A' as int + n) as char
    else if n < 52 then ('a' as int + n - 26) as char
    else if n < 62 then ('0' as int + n - 52) as char
    else if n == 62 then '-'
    else '_'
  }

  function Read(c: char): Reading {
    if 'A' <= c <= 'Z' then Digit(c as int - 'A' as int)
    else if 'a' <= c <= 'z' then Digit(c as int - 'a' as int + 26)
    else if '0' <= c <= '9' then Digit(c as int - '0' as int + 52)
    else if c == '-' || c == '+' then Digit(62)
    else if c == '_' || c == '/' then Digit(63)
    else if c == '=' then Padding
    else Foreign
  }

  function Pack(b: seq<Byte>): seq<Sextet> {
    if |b| == 0 then []
    else if |b| == 1 then [b[0] / 4, b[0] % 4 * 16]
    else if |b| == 2 then [b[0] / 4, b[0] % 4 * 16 + b[1] / 16, b[1] % 16 * 4]
    else [b[0] / 4, b[0] % 4 * 16 + b[1] / 16, b[1] % 16 * 4 + b[2] / 64, b[2] % 64] + Pack(b[3..])
  }

  function Unpack(v: seq<Sextet>): seq<Byte> {
    if |v| < 2 then []
    else
      var a: int, b: int := v[0], v[1];
      if |v| == 2 then [a * 4 + b / 16]
      else
        var c: int := v[2];
        if |v| == 3 then [a * 4 + b / 16, b % 16 * 16 + c / 4]
        else [a * 4 + b / 16, b % 16 * 16 + c / 4, c % 4 * 64 + v[3]] + Unpack(v[4..])
  }

  function Print(v: seq<Sextet>): string {
    seq(|v|, i requires 0 <= i < |v| => Letter(v[i]))
  }

  function Scan(text: string): seq<Sextet> {
    if text == "" then []
    else
      match Read(text[0])
      case Padding => []
      case Foreign => Scan(text[1..])
      case Digit(value) => [value] + Scan(text[1..])
  }

  function Encode(b: seq<Byte>): string {
    Print(Pack(b))
  }

  function Decode(text: string): seq<Byte> {
    Unpack(Scan(text))
  }

  lemma {:induction false} UnpackUndoesPack(b: seq<Byte>)
    ensures Unpack(Pack(b)) == b
  {
    if |b| >= 3 {
      var v := Pack(b);
      assert v[4..] == Pack(b[3..]);
      UnpackUndoesPack(b[3..]);
      assert b == b[..3] + b[3..];
    }
  }

  /** Scanning printed sextets gives them back, and padding or its absence after them makes no difference. */
  lemma {:induction false} ScanUndoesPrint(v: seq<Sextet>, after: string)
    requires after == "" || after[0] == '='
    ensures Scan(Print(v) + after) == v
  {
    var text := Print(v) + after;
    if v == [] {
      assert text == after;
    } else {
      assert text[0] == Letter(v[0]);
      assert text[1..] == Print(v[1..]) + after;
      ScanUndoesPrint(v[1..], after);
      assert v == [v[0]] + v[1..];
    }
  }

  /** Any bytes come back from their text, whether or not padding follows it. */
  lemma DecodeUndoesEncode(b: seq<Byte>, after: string)
    requires after == "" || after[0] == '='
    ensures Decode(Encode(b) + after) == b
  {
    ScanUndoesPrint(Pack(b), after);
    UnpackUndoesPack(b);
  }

  /** No text is one character longer than a multiple of four. */
  lemma {:induction false} LengthIsNeverOneMore(b: seq<Byte>)
    ensures |Encode(b)| % 4 != 1
  {
    if |b| >= 3 { LengthIsNeverOneMore(b[3..]); }
  }
}
