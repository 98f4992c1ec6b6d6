/**
 * JSON.stringify on records of strings and JSON.parse on any text, over UTF-16
 * code units (section 25.5 of ECMA-262; the grammar is RFC 8259).
 */
module Json {
  import opened Domain
  import opened Utf

  type Units = seq<CodeUnit>

  const QUOTE: CodeUnit := 0x22
  const BACKSLASH: CodeUnit := 0x5C
  const OPEN: CodeUnit := 0x7B
  const CLOSE: CodeUnit := 0x7D
  const COLON: CodeUnit := 0x3A
  const COMMA: CodeUnit := 0x2C

  datatype Value =
    | Null | Bool(flag: bool) | Number(digits: Units) | Text(units: Units)
    | Array(items: seq<Value>) | Object(members: seq<Member>)

  datatype Member = Member(key: Units, value: Value)

  /** A text of ASCII characters as code units. */
  function Ascii(s: string): Units {
    seq(|s|, i requires 0 <= i < |s| => if s[i] as int < 0x80 then s[i] as int else REPLACEMENT)
  }

  // --- Printing ---

  function HexDigit(n: nat): CodeUnit
    requires n < 16
  {
    if n < 10 then 0x30 + n else 0x61 + n - 10
  }

  function Hex4(u: CodeUnit): Units {
    [HexDigit(u / 0x1000), HexDigit(u / 0x100 % 16), HexDigit(u / 16 % 16), HexDigit(u % 16)]
  }

  /** The letter of a two-character escape. */
  function ShortEscape(u: CodeUnit): Option<CodeUnit> {
    if u == 0x08 then Some(0x62)
    else if u == 0x09 then Some(0x74)
    else if u == 0x0A then Some(0x6E)
    else if u == 0x0C then Some(0x66)
    else if u == 0x0D then Some(0x72)
    else if u == QUOTE || u == BACKSLASH then Some(u)
    else None
  }

  function EscapeUnit(u: CodeUnit): Units {
    if ShortEscape(u).Some? then [BACKSLASH, ShortEscape(u).value]
    else if u < 0x20 || High(u) || Low(u) then [BACKSLASH, 0x75] + Hex4(u)
    else [u]
  }

  /** Surrogate pairs stand for themselves, unpaired surrogates are escaped. */
  function Escape(s: Units): Units {
    if s == [] then []
    else if StartsWithPair(s) then s[..2] + Escape(s[2..])
    else EscapeUnit(s[0]) + Escape(s[1..])
  }

  function Quote(s: Units): Units {
    [QUOTE] + (Escape(s) + [QUOTE])
  }

  /** A field of a record of strings. */
  datatype Field = Field(key: Units, text: Units)

  function PrintFields(fields: seq<Field>): Units
    requires fields != []
  {
    var tail := if |fields| == 1 then [CLOSE] else [COMMA] + PrintFields(fields[1..]);
    Quote(fields[0].key) + ([COLON] + (Quote(fields[0].text) + tail))
  }

  function Stringify(fields: seq<Field>): Units {
    [OPEN] + if fields == [] then [CLOSE] else PrintFields(fields)
  }

  function Record(fields: seq<Field>): Value {
    Object(Members(fields))
  }

  function Members(fields: seq<Field>): seq<Member> {
    if fields == [] then [] else [Member(fields[0].key, Text(fields[0].text))] + Members(fields[1..])
  }

  // --- Parsing: each reader returns what it read and what is left ---

  datatype Parsed<T> = Failed | Read(value: T, rest: Units)

  predicate Space(u: CodeUnit) {
    u == 0x20 || u == 0x09 || u == 0x0A || u == 0x0D
  }

  function SkipSpace(t: Units): (rest: Units)
    ensures |rest| <= |t|
  {
    if t != [] && Space(t[0]) then SkipSpace(t[1..]) else t
  }

  function HexValue(u: CodeUnit): Option<nat> {
    if 0x30 <= u <= 0x39 then Some(u - 0x30)
    else if 0x61 <= u <= 0x66 then Some(u - 0x61 + 10)
    else if 0x41 <= u <= 0x46 then Some(u - 0x41 + 10)
    else None
  }

  function ReadHex4(t: Units): Option<nat>
    requires |t| == 4
  {
    var a, b, c, d := HexValue(t[0]), HexValue(t[1]), HexValue(t[2]), HexValue(t[3]);
    if a.None? || b.None? || c.None? || d.None? then None
    else Some(a.value * 0x1000 + b.value * 0x100 + c.value * 16 + d.value)
  }

  function UnescapeShort(letter: CodeUnit): Option<CodeUnit> {
    if letter == QUOTE || letter == BACKSLASH || letter == 0x2F then Some(letter)
    else if letter == 0x62 then Some(0x08)
    else if letter == 0x66 then Some(0x0C)
    else if letter == 0x6E then Some(0x0A)
    else if letter == 0x72 then Some(0x0D)
    else if letter == 0x74 then Some(0x09)
    else None
  }

  /** One code unit of a string literal, escaped or not. */
  function ReadUnit(t: Units): (r: Parsed<CodeUnit>)
    requires t != []
    ensures r.Read? ==> |r.rest| < |t|
  {
    if t[0] < 0x20 || t[0] == QUOTE then Failed
    else if t[0] != BACKSLASH then Read(t[0], t[1..])
    else if |t| >= 2 && UnescapeShort(t[1]).Some? then Read(UnescapeShort(t[1]).value, t[2..])
    else if |t| >= 6 && t[1] == 0x75 && ReadHex4(t[2..6]).Some? && ReadHex4(t[2..6]).value < 0x10000
    then Read(ReadHex4(t[2..6]).value, t[6..])
    else Failed
  }

  /** The rest of a string literal after its opening quote. */
  function ReadChars(t: Units): (r: Parsed<Units>)
    ensures r.Read? ==> |r.rest| < |t|
    decreases |t|
  {
    if t == [] then Failed
    else if t[0] == QUOTE then Read([], t[1..])
    else
      match ReadUnit(t)
      case Failed => Failed
      case Read(u, t1) =>
        match ReadChars(t1)
        case Failed => Failed
        case Read(more, t2) => Read([u] + more, t2)
  }

  function SkipDigits(t: Units): (rest: Units)
    ensures |rest| <= |t|
    ensures t != [] && 0x30 <= t[0] <= 0x39 ==> |rest| < |t|
  {
    if t != [] && 0x30 <= t[0] <= 0x39 then SkipDigits(t[1..]) else t
  }

  /** A number literal: sign, integer part without leading zeros, fraction, exponent. */
  function ReadNumber(t: Units): (r: Parsed<Units>)
    ensures r.Read? ==> |r.rest| < |t|
  {
    var t1 := if t != [] && t[0] == 0x2D then t[1..] else t;
    if t1 == [] || !(0x30 <= t1[0] <= 0x39) then Failed
    else
      var t2 := if t1[0] == 0x30 then t1[1..] else SkipDigits(t1);
      if t2 != [] && t2[0] == 0x2E && SkipDigits(t2[1..]) == t2[1..] then Failed
      else
        var t3 := if t2 != [] && t2[0] == 0x2E then SkipDigits(t2[1..]) else t2;
        if t3 != [] && (t3[0] == 0x45 || t3[0] == 0x65) then
          var t4 := if |t3| >= 2 && (t3[1] == 0x2B || t3[1] == 0x2D) then t3[2..] else t3[1..];
          if SkipDigits(t4) == t4 then Failed else Read(t[..|t| - |SkipDigits(t4)|], SkipDigits(t4))
        else Read(t[..|t| - |t3|], t3)
  }

  function ReadWord(t: Units, word: Units, value: Value): (r: Parsed<Value>)
    requires word != []
    ensures r.Read? ==> |r.rest| < |t|
  {
    if word <= t then Read(value, t[|word|..]) else Failed
  }

  function ReadValue(t: Units): (r: Parsed<Value>)
    ensures r.Read? ==> |r.rest| < |t|
    decreases |t|, 0
  {
    var t1 := SkipSpace(t);
    if t1 == [] then Failed
    else if t1[0] == QUOTE then
      (match ReadChars(t1[1..])
       case Failed => Failed
       case Read(units, rest) => Read(Text(units), rest))
    else if t1[0] == OPEN then
      var t2 := SkipSpace(t1[1..]);
      if t2 != [] && t2[0] == CLOSE then Read(Object([]), t2[1..])
      else
        (match ReadMembers(t2)
         case Failed => Failed
         case Read(members, rest) => Read(Object(members), rest))
    else if t1[0] == 0x5B then
      var t2 := SkipSpace(t1[1..]);
      if t2 != [] && t2[0] == 0x5D then Read(Array([]), t2[1..])
      else
        (match ReadItems(t2)
         case Failed => Failed
         case Read(items, rest) => Read(Array(items), rest))
    else if t1[0] == 0x6E then ReadWord(t1, Ascii("null"), Null)
    else if t1[0] == 0x74 then ReadWord(t1, Ascii("true"), Bool(true))
    else if t1[0] == 0x66 then ReadWord(t1, Ascii("false"), Bool(false))
    else
      match ReadNumber(t1)
      case Failed => Failed
      case Read(digits, rest) => Read(Number(digits), rest)
  }

  /** Members up to and including the closing brace; at least one. */
  function ReadMembers(t: Units): (r: Parsed<seq<Member>>)
    ensures r.Read? ==> |r.rest| < |t|
    decreases |t|, 1
  {
    var t1 := SkipSpace(t);
    if t1 == [] || t1[0] != QUOTE then Failed
    else
      match ReadChars(t1[1..])
      case Failed => Failed
      case Read(key, t2) =>
        var t3 := SkipSpace(t2);
        if t3 == [] || t3[0] != COLON then Failed
        else
          match ReadValue(t3[1..])
          case Failed => Failed
          case Read(value, t4) =>
            var t5 := SkipSpace(t4);
            if t5 != [] && t5[0] == CLOSE then Read([Member(key, value)], t5[1..])
            else if t5 != [] && t5[0] == COMMA then
              (match ReadMembers(t5[1..])
               case Failed => Failed
               case Read(more, rest) => Read([Member(key, value)] + more, rest))
            else Failed
  }

  /** Array items up to and including the closing bracket; at least one. */
  function ReadItems(t: Units): (r: Parsed<seq<Value>>)
    ensures r.Read? ==> |r.rest| < |t|
    decreases |t|, 1
  {
    match ReadValue(t)
    case Failed => Failed
    case Read(value, t1) =>
      var t2 := SkipSpace(t1);
      if t2 != [] && t2[0] == 0x5D then Read([value], t2[1..])
      else if t2 != [] && t2[0] == COMMA then
        (match ReadItems(t2[1..])
         case Failed => Failed
         case Read(more, rest) => Read([value] + more, rest))
      else Failed
  }

  /** JSON.parse; None stands for the SyntaxError. */
  function Parse(t: Units): Option<Value> {
    match ReadValue(t)
    case Failed => None
    case Read(value, rest) => if SkipSpace(rest) == [] then Some(value) else None
  }

  // --- Parsing undoes printing ---

  lemma DigitRoundTrip(n: nat)
    requires n < 16
    ensures HexValue(HexDigit(n)) == Some(n)
  {
  }

  lemma FourBitGroups(u: int)
    requires 0 <= u < 0x10000
    ensures u / 0x1000 < 16
    ensures u == u / 0x1000 * 0x1000 + u / 0x100 % 16 * 0x100 + u / 16 % 16 * 16 + u % 16
  {
    assert u / 16 == u / 0x100 * 16 + u / 16 % 16;
    assert u / 0x100 == u / 0x1000 * 16 + u / 0x100 % 16;
  }

  lemma HexRoundTrip(u: CodeUnit)
    ensures ReadHex4(Hex4(u)) == Some(u)
  {
    DigitRoundTrip(u / 0x1000);
    DigitRoundTrip(u / 0x100 % 16);
    DigitRoundTrip(u / 16 % 16);
    DigitRoundTrip(u % 16);
    FourBitGroups(u);
  }

  lemma UnitRoundTrip(u: CodeUnit, rest: Units)
    ensures EscapeUnit(u) != [] && EscapeUnit(u)[0] != QUOTE
    ensures ReadUnit(EscapeUnit(u) + rest) == Read(u, rest)
  {
    var t := EscapeUnit(u) + rest;
    assert t[|EscapeUnit(u)|..] == rest;
    if ShortEscape(u).None? && (u < 0x20 || High(u) || Low(u)) {
      HexRoundTrip(u);
      assert t[2..6] == Hex4(u);
    }
  }

  lemma OneMoreChar(t: Units, u: CodeUnit, after: Units, s: Units, rest: Units)
    requires t != [] && t[0] != QUOTE && ReadUnit(t) == Read(u, after) && ReadChars(after) == Read(s, rest)
    ensures ReadChars(t) == Read([u] + s, rest)
  {
  }

  lemma Associate<T>(a: seq<T>, b: seq<T>, c: seq<T>)
    ensures (a + b) + c == a + (b + c)
  {
  }

  lemma PairRoundTrip(s: Units, after: Units, rest: Units)
    requires StartsWithPair(s) && ReadChars(after) == Read(s[2..], rest)
    ensures ReadChars(s[..2] + after) == Read(s, rest)
  {
    assert s[..2] == [s[0]] + [s[1]];
    Associate([s[0]], [s[1]], after);
    PlainUnitRoundTrip(s[1], after);
    OneMoreChar([s[1]] + after, s[1], after, s[2..], rest);
    PlainUnitRoundTrip(s[0], [s[1]] + after);
    OneMoreChar([s[0]] + ([s[1]] + after), s[0], [s[1]] + after, [s[1]] + s[2..], rest);
    assert s == [s[0]] + ([s[1]] + s[2..]);
  }

  lemma {:induction false} CharsRoundTrip(s: Units, rest: Units)
    ensures ReadChars(Escape(s) + ([QUOTE] + rest)) == Read(s, rest)
  {
    if s == [] {
      assert Escape(s) + ([QUOTE] + rest) == [QUOTE] + rest;
      assert ([QUOTE] + rest)[1..] == rest;
    } else {
      var width := if StartsWithPair(s) then 2 else 1;
      var after := Escape(s[width..]) + ([QUOTE] + rest);
      CharsRoundTrip(s[width..], rest);
      Associate(if StartsWithPair(s) then s[..2] else EscapeUnit(s[0]), Escape(s[width..]), [QUOTE] + rest);
      if StartsWithPair(s) {
        PairRoundTrip(s, after, rest);
      } else {
        UnitRoundTrip(s[0], after);
        OneMoreChar(EscapeUnit(s[0]) + after, s[0], after, s[1..], rest);
        assert s == [s[0]] + s[1..];
      }
    }
  }

  lemma PlainUnitRoundTrip(u: CodeUnit, rest: Units)
    requires u >= 0x20 && u != QUOTE && u != BACKSLASH
    ensures ReadUnit([u] + rest) == Read(u, rest)
  {
    assert ([u] + rest)[1..] == rest;
  }

  /** A printed string is one token, wherever it stands. */
  lemma QuoteRoundTrip(s: Units, rest: Units)
    ensures var t := Quote(s) + rest; t[0] == QUOTE && ReadChars(t[1..]) == Read(s, rest)
    ensures ReadValue(Quote(s) + rest) == Read(Text(s), rest)
  {
    var chars := Escape(s) + ([QUOTE] + rest);
    Associate([QUOTE], Escape(s) + [QUOTE], rest);
    Associate(Escape(s), [QUOTE], rest);
    CharsRoundTrip(s, rest);
    ReadText(chars, s, rest);
  }

  lemma ReadText(chars: Units, s: Units, rest: Units)
    requires ReadChars(chars) == Read(s, rest)
    ensures ([QUOTE] + chars)[1..] == chars && ReadValue([QUOTE] + chars) == Read(Text(s), rest)
  {
    assert ([QUOTE] + chars)[1..] == chars;
    assert SkipSpace([QUOTE] + chars) == [QUOTE] + chars;
  }

  /** Reading the first printed member leaves what follows its value. */
  lemma FirstMember(f: Field, tail: Units)
    ensures var t := Quote(f.key) + ([COLON] + (Quote(f.text) + tail));
      && t[0] == QUOTE && SkipSpace(t) == t
      && ReadChars(t[1..]) == Read(f.key, [COLON] + (Quote(f.text) + tail))
    ensures ReadValue(([COLON] + (Quote(f.text) + tail))[1..]) == Read(Text(f.text), tail)
  {
    QuoteRoundTrip(f.key, [COLON] + (Quote(f.text) + tail));
    QuoteRoundTrip(f.text, tail);
    assert ([COLON] + (Quote(f.text) + tail))[1..] == Quote(f.text) + tail;
  }

  lemma LastMember(f: Field, rest: Units)
    ensures ReadMembers(Quote(f.key) + ([COLON] + (Quote(f.text) + ([CLOSE] + rest)))) ==
            Read([Member(f.key, Text(f.text))], rest)
  {
    var tail := [CLOSE] + rest;
    FirstMember(f, tail);
    assert tail[1..] == rest && SkipSpace(tail) == tail;
  }

  lemma OneMoreMember(f: Field, t: Units, members: seq<Member>, rest: Units)
    requires ReadMembers(t) == Read(members, rest)
    ensures ReadMembers(Quote(f.key) + ([COLON] + (Quote(f.text) + ([COMMA] + t)))) ==
            Read([Member(f.key, Text(f.text))] + members, rest)
  {
    var tail := [COMMA] + t;
    FirstMember(f, tail);
    assert tail[1..] == t && SkipSpace(tail) == tail;
  }

  lemma {:induction false} FieldsRoundTrip(fields: seq<Field>, rest: Units)
    requires fields != []
    ensures ReadMembers(PrintFields(fields) + rest) == Read(Members(fields), rest)
  {
    var f := fields[0];
    var tail := if |fields| == 1 then [CLOSE] else [COMMA] + PrintFields(fields[1..]);
    Associate(Quote(f.key), [COLON] + (Quote(f.text) + tail), rest);
    Associate([COLON], Quote(f.text) + tail, rest);
    Associate(Quote(f.text), tail, rest);
    if |fields| == 1 {
      LastMember(f, rest);
      assert Members(fields) == [Member(f.key, Text(f.text))];
    } else {
      Associate([COMMA], PrintFields(fields[1..]), rest);
      FieldsRoundTrip(fields[1..], rest);
      OneMoreMember(f, PrintFields(fields[1..]) + rest, Members(fields[1..]), rest);
    }
  }

  lemma ObjectRoundTrip(t: Units, members: seq<Member>, rest: Units)
    requires t != [] && t[0] == QUOTE && ReadMembers(t) == Read(members, rest)
    ensures ReadValue([OPEN] + t) == Read(Object(members), rest)
  {
    var whole := [OPEN] + t;
    assert SkipSpace(whole) == whole && whole[1..] == t && SkipSpace(t) == t;
  }

  /** JSON.parse undoes JSON.stringify on every record of strings, unpaired surrogates included. */
  lemma ParseUndoesStringify(fields: seq<Field>)
    ensures Parse(Stringify(fields)) == Some(Record(fields))
  {
    if fields == [] {
      var t := Stringify(fields);
      assert SkipSpace(t) == t && t[1..] == [CLOSE] && SkipSpace([CLOSE]) == [CLOSE];
    } else {
      FieldsRoundTrip(fields, []);
      assert PrintFields(fields) + [] == PrintFields(fields);
      ObjectRoundTrip(PrintFields(fields), Members(fields), []);
    }
  }

  // --- Printed text survives a Buffer ---

  lemma {:induction false} PlainIsWellFormed(s: Units)
    requires forall u :: u in s ==> !High(u) && !Low(u)
    ensures WellFormed(s)
  {
    if s != [] { PlainIsWellFormed(s[1..]); }
  }

  lemma {:induction false} EscapeIsWellFormed(s: Units)
    ensures WellFormed(Escape(s))
  {
    if s != [] {
      if StartsWithPair(s) {
        EscapeIsWellFormed(s[2..]);
        assert Escape(s)[2..] == Escape(s[2..]);
      } else {
        EscapeIsWellFormed(s[1..]);
        PlainIsWellFormed(EscapeUnit(s[0]));
        WellFormedConcat(EscapeUnit(s[0]), Escape(s[1..]));
      }
    }
  }

  lemma QuoteIsWellFormed(s: Units)
    ensures WellFormed(Quote(s))
  {
    EscapeIsWellFormed(s);
    PlainIsWellFormed([QUOTE]);
    WellFormedConcat(Escape(s), [QUOTE]);
    WellFormedConcat([QUOTE], Escape(s) + [QUOTE]);
  }

  lemma {:induction false} PrintedFieldsAreWellFormed(fields: seq<Field>)
    requires fields != []
    ensures WellFormed(PrintFields(fields))
  {
    var f := fields[0];
    var tail := if |fields| == 1 then [CLOSE] else [COMMA] + PrintFields(fields[1..]);
    QuoteIsWellFormed(f.key);
    QuoteIsWellFormed(f.text);
    PlainIsWellFormed([COLON]);
    PlainIsWellFormed([COMMA]);
    PlainIsWellFormed([CLOSE]);
    if |fields| > 1 {
      PrintedFieldsAreWellFormed(fields[1..]);
      WellFormedConcat([COMMA], PrintFields(fields[1..]));
    }
    WellFormedConcat(Quote(f.text), tail);
    WellFormedConcat([COLON], Quote(f.text) + tail);
    WellFormedConcat(Quote(f.key), [COLON] + (Quote(f.text) + tail));
  }

  lemma StringifyIsWellFormed(fields: seq<Field>)
    ensures WellFormed(Stringify(fields))
  {
    PlainIsWellFormed([OPEN]);
    PlainIsWellFormed([CLOSE]);
    if fields != [] { PrintedFieldsAreWellFormed(fields); }
    WellFormedConcat([OPEN], if fields == [] then [CLOSE] else PrintFields(fields));
  }
}
