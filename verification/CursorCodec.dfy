/**
 * The feed cursor as text: printed by the post repository, read and printed
 * again by the feed service, and part of the cache key.
 */
module CursorCodec {
  import opened Domain
  import opened Utf
  import opened Json
  import Base64Url
  import Keys

  /** A position as the service holds it: two JavaScript strings, whatever they contain. */
  datatype TextCursor = TextCursor(createdAt: Units, id: Units)

  function Fields(c: TextCursor): seq<Field> {
    [Field(Ascii("createdAt"), c.createdAt), Field(Ascii("id"), c.id)]
  }

  /** Buffer.from(JSON.stringify(cursor)).toString("base64url"), in either file. */
  function EncodeCursor(c: TextCursor): string {
    Base64Url.Encode(Utf.Encode(ToScalars(Stringify(Fields(c)))))
  }

  /** The last member of that name, as JSON.parse keeps it. */
  function Lookup(members: seq<Member>, key: Units): Option<Value> {
    if members == [] then None
    else if members[|members| - 1].key == key then Some(members[|members| - 1].value)
    else Lookup(members[..|members| - 1], key)
  }

  /** None for an absent or empty cursor, for anything unreadable, and unless both parts are strings. */
  function DecodeCursor(cursor: Option<string>): Option<TextCursor> {
    if cursor.None? || cursor.value == "" then None
    else
      match Parse(ToUnits(Utf.Decode(Base64Url.Decode(cursor.value))))
      case Some(Object(members)) =>
        var createdAt, id := Lookup(members, Ascii("createdAt")), Lookup(members, Ascii("id"));
        if createdAt.Some? && createdAt.value.Text? && id.Some? && id.value.Text?
        then Some(TextCursor(createdAt.value.units, id.value.units))
        else None
      case _ => None
  }

  lemma KeysDiffer()
    ensures Ascii("createdAt") != Ascii("id")
  {
    assert |Ascii("createdAt")| == 9 && |Ascii("id")| == 2;
  }

  /**
   * A printed cursor reads back as the same two strings, whatever they hold,
   * and printing it again gives the identical text; padding that a client adds
   * makes no difference.
   */
  lemma CursorRoundTrips(c: TextCursor, after: string)
    requires after == "" || after[0] == '='
    ensures DecodeCursor(Some(EncodeCursor(c) + after)) == Some(c)
    ensures EncodeCursor(DecodeCursor(Some(EncodeCursor(c) + after)).value) == EncodeCursor(c)
  {
    var text := Stringify(Fields(c));
    var bytes := Utf.Encode(ToScalars(text));
    StringifyIsWellFormed(Fields(c));
    BufferKeepsWellFormedText(text);
    Base64Url.DecodeUndoesEncode(bytes, after);
    ParseUndoesStringify(Fields(c));
    EncodedIsNotEmpty(c);
    FieldsAreFound(c);
  }

  lemma FieldsAreFound(c: TextCursor)
    ensures Lookup(Members(Fields(c)), Ascii("createdAt")) == Some(Text(c.createdAt))
    ensures Lookup(Members(Fields(c)), Ascii("id")) == Some(Text(c.id))
  {
    var a, b := Member(Ascii("createdAt"), Text(c.createdAt)), Member(Ascii("id"), Text(c.id));
    assert Fields(c)[1..] == [Field(Ascii("id"), c.id)];
    assert Members(Fields(c)[1..]) == [b];
    assert Members(Fields(c)) == [a, b];
    assert [a, b][..1] == [a] && [a][..0] == [];
    KeysDiffer();
  }

  lemma EncodedIsNotEmpty(c: TextCursor)
    ensures EncodeCursor(c) != ""
  {
    var scalars := ToScalars(Stringify(Fields(c)));
    assert Stringify(Fields(c))[0] == OPEN;
    assert |Utf.Encode(scalars)| >= 1;
  }

  /** Different positions print differently. */
  lemma CursorTextsAreDistinct(c: TextCursor, d: TextCursor)
    ensures EncodeCursor(c) == EncodeCursor(d) <==> c == d
  {
    CursorRoundTrips(c, "");
    CursorRoundTrips(d, "");
    assert EncodeCursor(c) + "" == EncodeCursor(c) && EncodeCursor(d) + "" == EncodeCursor(d);
  }

  // --- Cache keys ---

  function PositionText(after: Option<TextCursor>): string {
    if after.Some? then EncodeCursor(after.value) else "start"
  }

  /** feed:cache:user:version:size:position, numbers in decimal. */
  function CacheKey(user: string, version: nat, pageSize: nat, after: Option<TextCursor>): string {
    Keys.Join("feed", Keys.Join("cache", Keys.Join(user, Keys.Join(Keys.Decimal(version),
      Keys.Join(Keys.Decimal(pageSize), PositionText(after))))))
  }

  lemma BytesAreNotStart(b: seq<Base64Url.Byte>)
    ensures Base64Url.Encode(b) != "start"
  {
    Base64Url.LengthIsNeverOneMore(b);
    assert |"start"| == 5;
  }

  /** No cursor prints as the word that stands for the first page: its length is not that of base64 text. */
  lemma StartIsNoCursor(c: TextCursor)
    ensures EncodeCursor(c) != "start"
  {
    BytesAreNotStart(Utf.Encode(ToScalars(Stringify(Fields(c)))));
  }

  /** Users whose ids hold no colon never share a cache key, nor do two versions, page sizes or positions. */
  lemma CacheKeysAreSeparate(user: string, version: nat, pageSize: nat, after: Option<TextCursor>, user': string,
                             version': nat, pageSize': nat, after': Option<TextCursor>)
    requires Keys.NoColon(user) && Keys.NoColon(user')
    ensures CacheKey(user, version, pageSize, after) == CacheKey(user', version', pageSize', after')
      <==> user == user' && version == version' && pageSize == pageSize' && after == after'
  {
    if CacheKey(user, version, pageSize, after) == CacheKey(user', version', pageSize', after') {
      EqualKeysAgree(user, version, pageSize, after, user', version', pageSize', after');
    }
  }

  lemma EqualKeysAgree(user: string, version: nat, pageSize: nat, after: Option<TextCursor>, user': string,
                       version': nat, pageSize': nat, after': Option<TextCursor>)
    requires Keys.NoColon(user) && Keys.NoColon(user')
    requires CacheKey(user, version, pageSize, after) == CacheKey(user', version', pageSize', after')
    ensures user == user' && version == version' && pageSize == pageSize' && after == after'
  {
    var tail := Keys.Join(Keys.Decimal(pageSize), PositionText(after));
    var tail' := Keys.Join(Keys.Decimal(pageSize'), PositionText(after'));
    var mid, mid' := Keys.Join(Keys.Decimal(version), tail), Keys.Join(Keys.Decimal(version'), tail');
    var rest, rest' := Keys.Join("cache", Keys.Join(user, mid)), Keys.Join("cache", Keys.Join(user', mid'));
    Keys.JoinIsInjective("feed", rest, "feed", rest');
    Keys.JoinIsInjective("cache", Keys.Join(user, mid), "cache", Keys.Join(user', mid'));
    Keys.JoinIsInjective(user, mid, user', mid');
    Keys.DecimalHasNoColon(version);
    Keys.DecimalHasNoColon(version');
    Keys.JoinIsInjective(Keys.Decimal(version), tail, Keys.Decimal(version'), tail');
    Keys.DecimalHasNoColon(pageSize);
    Keys.DecimalHasNoColon(pageSize');
    Keys.JoinIsInjective(Keys.Decimal(pageSize), PositionText(after), Keys.Decimal(pageSize'), PositionText(after'));
    Keys.DecimalIsInjective(version, version');
    Keys.DecimalIsInjective(pageSize, pageSize');
    PositionsPrintApart(after, after');
  }

  lemma PositionsPrintApart(after: Option<TextCursor>, after': Option<TextCursor>)
    requires PositionText(after) == PositionText(after')
    ensures after == after'
  {
    if after.Some? { StartIsNoCursor(after.value); }
    if after'.Some? { StartIsNoCursor(after'.value); }
    if after.Some? && after'.Some? { CursorTextsAreDistinct(after.value, after'.value); }
  }
}
