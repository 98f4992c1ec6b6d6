/**
 * The texts themselves, as other programs see them: the base64url alphabet,
 * the JSON of a cursor, and records that are no cursor.
 */
module CursorFormats {
  import opened Domain
  import opened Utf
  import opened Json
  import opened CursorCodec
  import Base64Url

  /** Table 2 of RFC 4648, in its four parts. */
  const UPPER := "ABCDEFGHIJKLMNOPQRSTUVWXYZ"
  const LOWER := "abcdefghijklmnopqrstuvwxyz"
  const DIGITS := "0123456789"
  const ALPHABET := UPPER + LOWER + DIGITS + "-_"

  lemma UpperLetters(n: nat)
    requires n < 26
    ensures Base64Url.Letter(n) == UPPER[n]
  {
  }

  lemma LowerLetters(n: nat)
    requires n < 26
    ensures Base64Url.Letter(26 + n) == LOWER[n]
  {
  }

  lemma DigitLetters(n: nat)
    requires n < 10
    ensures Base64Url.Letter(52 + n) == DIGITS[n]
  {
  }

  lemma LettersAreTheAlphabet(n: Base64Url.Sextet)
    ensures |ALPHABET| == 64 && Base64Url.Letter(n) == ALPHABET[n]
  {
    if n < 26 {
      UpperLetters(n);
    } else if n < 52 {
      LowerLetters(n - 26);
    } else if n < 62 {
      DigitLetters(n - 52);
    }
  }

  /** The test vectors of section 10 of RFC 4648, without their padding. */
  lemma TestVectors()
    ensures Base64Url.Encode([]) == "" && Base64Url.Encode([102]) == "Zg"
    ensures Base64Url.Encode([102, 111]) == "Zm8" && Base64Url.Encode([102, 111, 111]) == "Zm9v"
  {
    assert Base64Url.Pack([102]) == [25, 32];
    assert Base64Url.Pack([102, 111]) == [25, 38, 60];
    assert Base64Url.Pack([102, 111, 111]) == [25, 38, 61, 47];
  }

  // --- The JSON of a cursor ---

  /** Printable ASCII without quotes and backslashes, as timestamps and ids are. */
  predicate Plain(s: string) {
    forall i :: 0 <= i < |s| ==> ' ' <= s[i] <= '~' && s[i] != '"' && s[i] != '\\'
  }

  lemma {:induction false} PlainIsNotEscaped(s: string)
    requires Plain(s)
    ensures Escape(Ascii(s)) == Ascii(s)
  {
    if s != "" {
      var u := Ascii(s);
      assert u[1..] == Ascii(s[1..]);
      PlainIsNotEscaped(s[1..]);
      assert EscapeUnit(u[0]) == [u[0]] && u == [u[0]] + u[1..];
    }
  }

  lemma QuoteIsPlain(s: string)
    requires Plain(s)
    ensures Quote(Ascii(s)) == Ascii("\"" + s + "\"")
  {
    PlainIsNotEscaped(s);
  }

  function FieldText(key: string, text: string): string {
    "\"" + key + "\":\"" + text + "\""
  }

  /** For instance {"createdAt":"2024-01-01T00:00:00.000Z","id":"65a"}: no spaces, and the parts in this order. */
  function CursorJson(createdAt: string, id: string): string {
    "{" + (FieldText("createdAt", createdAt) + ("," + (FieldText("id", id) + "}")))
  }

  lemma AsciiConcat(a: string, b: string)
    ensures Ascii(a + b) == Ascii(a) + Ascii(b)
  {
  }

  lemma FieldIsPlain(key: string, text: string, tail: string)
    requires Plain(key) && Plain(text)
    ensures Quote(Ascii(key)) + ([COLON] + (Quote(Ascii(text)) + Ascii(tail))) == Ascii(FieldText(key, text) + tail)
  {
    QuoteIsPlain(key);
    QuoteIsPlain(text);
    var head, last := "\"" + key + "\"", "\"" + text + "\"";
    AsciiConcat(last, tail);
    PrependAscii(':', last + tail);
    AsciiConcat(head, ":" + (last + tail));
    assert head + (":" + (last + tail)) == FieldText(key, text) + tail;
  }

  lemma PrependAscii(c: char, s: string)
    requires c <= '~'
    ensures Ascii([c] + s) == [c as int] + Ascii(s)
  {
  }

  lemma NamesArePlain()
    ensures Plain("createdAt") && Plain("id")
  {
  }

  lemma PrintsLastField(key: string, text: string)
    requires Plain(key) && Plain(text)
    ensures PrintFields([Field(Ascii(key), Ascii(text))]) == Ascii(FieldText(key, text) + "}")
  {
    FieldIsPlain(key, text, "}");
    assert Ascii("}") == [CLOSE];
  }

  /** The JSON both files print for a cursor. */
  lemma CursorIsJson(createdAt: string, id: string)
    requires Plain(createdAt) && Plain(id)
    ensures Stringify(Fields(TextCursor(Ascii(createdAt), Ascii(id)))) == Ascii(CursorJson(createdAt, id))
  {
    var fields := Fields(TextCursor(Ascii(createdAt), Ascii(id)));
    var second := FieldText("id", id) + "}";
    NamesArePlain();
    PrintsLastField("id", id);
    assert fields[1..] == [Field(Ascii("id"), Ascii(id))];
    PrependAscii(',', second);
    FieldIsPlain("createdAt", createdAt, "," + second);
    PrependAscii('{', FieldText("createdAt", createdAt) + ("," + second));
  }

  predicate InAscii(s: string) {
    forall i :: 0 <= i < |s| ==> s[i] <= '~'
  }

  /** The bytes of ASCII text are its character codes. */
  lemma {:induction false} AsciiIsItsBytes(s: string)
    requires InAscii(s)
    ensures Utf.Encode(ToScalars(Ascii(s))) == Codes(s)
  {
    if s != "" {
      var u := Ascii(s);
      assert u[1..] == Ascii(s[1..]) && ToScalars(u)[1..] == ToScalars(u[1..]);
      AsciiIsItsBytes(s[1..]);
      assert Codes(s) == [s[0] as int] + Codes(s[1..]);
    }
  }

  function Codes(s: string): seq<Base64Url.Byte>
    requires InAscii(s)
  {
    seq(|s|, i requires 0 <= i < |s| => s[i] as int)
  }

  lemma JsonIsAscii(createdAt: string, id: string)
    requires Plain(createdAt) && Plain(id)
    ensures InAscii(CursorJson(createdAt, id))
  {
    NamesArePlain();
    FieldTextIsAscii("createdAt", createdAt);
    FieldTextIsAscii("id", id);
  }

  lemma FieldTextIsAscii(key: string, text: string)
    requires Plain(key) && Plain(text)
    ensures InAscii(FieldText(key, text))
  {
  }

  /** The text of a cursor is the base64url of the codes of its JSON. */
  lemma CursorTextIsItsJson(createdAt: string, id: string)
    requires Plain(createdAt) && Plain(id)
    ensures InAscii(CursorJson(createdAt, id)) &&
      EncodeCursor(TextCursor(Ascii(createdAt), Ascii(id))) == Base64Url.Encode(Codes(CursorJson(createdAt, id)))
  {
    CursorIsJson(createdAt, id);
    JsonIsAscii(createdAt, id);
    AsciiIsItsBytes(CursorJson(createdAt, id));
  }

  // --- Records that are no cursor ---

  lemma {:induction false} AbsentKeyIsNotFound(fields: seq<Field>, key: Units)
    requires forall i :: 0 <= i < |fields| ==> fields[i].key != key
    ensures Lookup(Members(fields), key) == None
  {
    if fields != [] {
      AbsentKeyIsNotFound(fields[1..], key);
      PrependKeepsAbsent(Member(fields[0].key, Text(fields[0].text)), Members(fields[1..]), key);
    }
  }

  lemma {:induction false} PrependKeepsAbsent(m: Member, members: seq<Member>, key: Units)
    requires m.key != key && Lookup(members, key).None?
    ensures Lookup([m] + members, key) == None
  {
    if members != [] {
      var n := |members| - 1;
      assert ([m] + members)[..n + 1] == [m] + members[..n];
      PrependKeepsAbsent(m, members[..n], key);
    }
  }

  /** A record that lacks either part, however it was printed, is read as no cursor at all. */
  lemma IncompleteRecordsAreNoCursor(fields: seq<Field>)
    requires (forall i :: 0 <= i < |fields| ==> fields[i].key != Ascii("createdAt")) ||
      (forall i :: 0 <= i < |fields| ==> fields[i].key != Ascii("id"))
    ensures DecodeCursor(Some(Base64Url.Encode(Utf.Encode(ToScalars(Stringify(fields)))))) == None
  {
    var text := Stringify(fields);
    var bytes := Utf.Encode(ToScalars(text));
    StringifyIsWellFormed(fields);
    BufferKeepsWellFormedText(text);
    Base64Url.DecodeUndoesEncode(bytes, "");
    assert Base64Url.Encode(bytes) + "" == Base64Url.Encode(bytes);
    ParseUndoesStringify(fields);
    if forall i :: 0 <= i < |fields| ==> fields[i].key != Ascii("createdAt") {
      AbsentKeyIsNotFound(fields, Ascii("createdAt"));
    } else {
      AbsentKeyIsNotFound(fields, Ascii("id"));
    }
  }
}
