/**
 * Transfer-list cursors (`src/lib/pagination.ts`): a cursor is the id and the block
 * time (milliseconds) of the last row of a page, written as base64 of the UTF-8 bytes
 * of its JSON text.
 */
module Pagination {
  import opened Wrappers
  import Text
  import Json
  import Base64
  import Utf8

  datatype Cursor = Cursor(id: string, ts: int)

  /** The members `JSON.stringify` writes for a cursor object, in declaration order. */
  function CursorMembers(c: Cursor): Json.Members {
    [("id", Json.JString(c.id)), ("ts", Json.JNumber(c.ts))]
  }

  /** `encodeCursor`. */
  function EncodeCursor(c: Cursor): (raw: string)
    ensures raw != [] && |raw| % 4 == 0
  {
    Base64.Encode(Utf8.Encode(Json.Stringify(CursorMembers(c))))
  }

  /** `decodeCursor(raw)`: `None` for a missing or empty parameter, for text that does
      not decode to a JSON object, for a falsy `id` and for a `ts` that is not a number. */
  function DecodeCursor(raw: Option<string>): (r: Option<Cursor>)
    ensures raw.None? || raw.value == [] ==> r.None?
    ensures r.Some? ==> r.value.id != []
  {
    if raw.None? || raw.value == [] then None
    else
      match Base64.Decode(raw.value)
      case None => None
      case Some(bytes) =>
        match Utf8.Decode(bytes)
        case None => None
        case Some(text) =>
          match Json.Parse(text)
          case None => None
          case Some(members) => CursorOf(members)
  }

  /** The cursor a parsed object denotes, if its `id` is truthy and its `ts` a number. */
  function CursorOf(members: Json.Members): (r: Option<Cursor>)
    ensures r.Some? ==> r.value.id != []
  {
    match (Json.Lookup(members, "id"), Json.Lookup(members, "ts"))
    case (Some(id), Some(ts)) =>
      if Json.Truthy(id) && ts.JNumber? then Some(Cursor(Json.ToText(id), ts.n)) else None
    case _ => None
  }

  lemma CursorMembersLookup(c: Cursor)
    ensures Json.Lookup(CursorMembers(c), "id") == Some(Json.JString(c.id))
    ensures Json.Lookup(CursorMembers(c), "ts") == Some(Json.JNumber(c.ts))
  {
    var m := CursorMembers(c);
    assert "ts" != "id" by { assert "ts"[0] != "id"[0]; }
    assert m[..1] == [("id", Json.JString(c.id))];
  }

  lemma CursorOfMembers(c: Cursor)
    requires c.id != []
    ensures CursorOf(CursorMembers(c)) == Some(c)
  {
    CursorMembersLookup(c);
  }

  /** Decoding passes each layer's output to the next. */
  lemma DecodeLayers(raw: string, bytes: seq<Base64.Byte>, text: string, members: Json.Members)
    requires raw != []
    requires Base64.Decode(raw) == Some(bytes)
    requires Utf8.Decode(bytes) == Some(text)
    requires Json.Parse(text) == Some(members)
    ensures DecodeCursor(Some(raw)) == CursorOf(members)
  {
  }

  /** The layers of an encoded cursor decode back to its members. */
  lemma EncodeLayers(c: Cursor)
    ensures var text := Json.Stringify(CursorMembers(c));
      var bytes := Utf8.Encode(text);
      && EncodeCursor(c) == Base64.Encode(bytes)
      && Base64.Decode(Base64.Encode(bytes)) == Some(bytes)
      && Utf8.Decode(bytes) == Some(text)
      && Json.Parse(text) == Some(CursorMembers(c))
  {
    var text := Json.Stringify(CursorMembers(c));
    Base64.DecodeEncode(Utf8.Encode(text));
    Utf8.DecodeEncode(text);
    Json.ParseStringify(CursorMembers(c));
  }

  /** A cursor with a non-empty id survives encoding and decoding. */
  lemma DecodeEncode(c: Cursor)
    requires c.id != []
    ensures DecodeCursor(Some(EncodeCursor(c))) == Some(c)
  {
    var text := Json.Stringify(CursorMembers(c));
    var bytes := Utf8.Encode(text);
    EncodeLayers(c);
    DecodeLayers(EncodeCursor(c), bytes, text, CursorMembers(c));
    CursorOfMembers(c);
  }

  /** A cursor with an empty id does not survive: its `id` reads back as falsy. */
  lemma EmptyIdLost(ts: int)
    ensures DecodeCursor(Some(EncodeCursor(Cursor("", ts)))) == None
  {
    var c := Cursor("", ts);
    var text := Json.Stringify(CursorMembers(c));
    EncodeLayers(c);
    DecodeLayers(EncodeCursor(c), Utf8.Encode(text), text, CursorMembers(c));
    CursorMembersLookup(c);
  }

  /** A numeric `id` comes back as its decimal text. */
  lemma NumericIdStringified(id: int, ts: int)
    requires id != 0
    ensures CursorOf([("id", Json.JNumber(id)), ("ts", Json.JNumber(ts))])
      == Some(Cursor(Json.NumberText(id), ts))
  {
    var m := [("id", Json.JNumber(id)), ("ts", Json.JNumber(ts))];
    assert "ts" != "id" by { assert "ts"[0] != "id"[0]; }
    assert m[..1] == [("id", Json.JNumber(id))];
    assert Json.Lookup(m, "id") == Some(Json.JNumber(id));
    assert Json.Lookup(m, "ts") == Some(Json.JNumber(ts));
  }

  /** The cursor `{ id: "t1", ts: 123 }` comes back unchanged. */
  lemma RoundTripExample()
    ensures DecodeCursor(Some(EncodeCursor(Cursor("t1", 123)))) == Some(Cursor("t1", 123))
  {
    DecodeEncode(Cursor("t1", 123));
  }
}
