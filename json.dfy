/**
 * The part of JSON (RFC 8259) that cursors use: a single object whose member values
 * are null, booleans, integers or strings. `Stringify` writes such an object as
 * `JSON.stringify` does; `Parse` reads a text the way `JSON.parse` does when that text
 * holds such an object, and gives `None` for anything else.
 */
module Json {
  import opened Wrappers
  import opened Text

  datatype Value = JNull | JBool(b: bool) | JNumber(n: int) | JString(s: string)

  /** An object's members in text order. */
  type Members = seq<(string, Value)>

  // ---- writing ----

  function HexDigit(d: nat): (c: char)
    requires d < 16
  {
    if d < 10 then DigitChar(d) else ('a' as int + d - 10) as char
  }

  /** One character inside a string literal: the two-character escapes for quote,
      backslash and the five named controls, `\u00xx` for the other controls. */
  function EscapeChar(c: char): (e: string)
    ensures 1 <= |e| <= 6
    ensures |e| == 1 <==> (c != '"' && c != '\\' && c >= ' ')
    ensures |e| == 1 ==> e[0] == c
    ensures |e| > 1 ==> e[0] == '\\'
  {
    if c == '"' then "\\\""
    else if c == '\\' then "\\\\"
    else if c == '\U{8}' then "\\b"
    else if c == '\U{C}' then "\\f"
    else if c == '\n' then "\\n"
    else if c == '\r' then "\\r"
    else if c == '\t' then "\\t"
    else if c < ' ' then "\\u00" + [HexDigit(c as int / 16), HexDigit(c as int % 16)]
    else [c]
  }

  function EscapeAll(s: string): string {
    if s == [] then [] else EscapeChar(s[0]) + EscapeAll(s[1..])
  }

  function Quote(s: string): string {
    "\"" + EscapeAll(s) + "\""
  }

  /** `String(n)` for an integer below 10^21 in magnitude. */
  function NumberText(n: int): (t: string)
    ensures t != [] && (t[0] == '-' || IsDigit(t[0]))
  {
    if n < 0 then "-" + NatToDigits(-n) else NatToDigits(n)
  }

  function ValueText(v: Value): (t: string)
    ensures t != []
  {
    match v
    case JNull => "null"
    case JBool(b) => if b then "true" else "false"
    case JNumber(n) => NumberText(n)
    case JString(s) => Quote(s)
  }

  function MemberText(m: (string, Value)): string {
    Quote(m.0) + ":" + ValueText(m.1)
  }

  function MembersText(m: Members): string {
    if m == [] then ""
    else if |m| == 1 then MemberText(m[0])
    else MemberText(m[0]) + "," + MembersText(m[1..])
  }

  /** `JSON.stringify` of an object with these members, without indentation. */
  function Stringify(m: Members): string {
    "{" + MembersText(m) + "}"
  }

  /** JavaScript truthiness of a parsed member value. */
  predicate Truthy(v: Value) {
    match v
    case JNull => false
    case JBool(b) => b
    case JNumber(n) => n != 0
    case JString(s) => s != []
  }

  /** `String(v)`. */
  function ToText(v: Value): (s: string)
    ensures Truthy(v) ==> s != []
  {
    match v
    case JNull => "null"
    case JBool(b) => if b then "true" else "false"
    case JNumber(n) => NumberText(n)
    case JString(s) => s
  }

  // ---- reading ----

  predicate IsJsonWs(c: char) {
    c == ' ' || c == '\t' || c == '\n' || c == '\r'
  }

  function SkipWs(s: string): (r: string)
    ensures |r| <= |s| && r == s[|s| - |r|..]
    ensures r == [] || !IsJsonWs(r[0])
  {
    if s != [] && IsJsonWs(s[0]) then SkipWs(s[1..]) else s
  }

  function HexValue(c: char): Option<nat> {
    if '0' <= c <= '9' then Some(c as int - '0' as int)
    else if 'a' <= c <= 'f' then Some(c as int - 'a' as int + 10)
    else if 'A' <= c <= 'F' then Some(c as int - 'A' as int + 10)
    else None
  }

  /** `\u` and four hex digits, as a character; `None` for bad digits and for a surrogate. */
  function UnicodeEscape(t: string): (r: Option<char>)
    requires |t| >= 4
  {
    match (HexValue(t[0]), HexValue(t[1]), HexValue(t[2]), HexValue(t[3]))
    case (Some(h0), Some(h1), Some(h2), Some(h3)) =>
      var n := ((h0 * 16 + h1) * 16 + h2) * 16 + h3;
      if n < 0xD800 || 0xE000 <= n then Some(n as char) else None
    case _ => None
  }

  /** The escape that follows a backslash: the character it stands for and the text
      after it. */
  function Unescape(t: string): (r: Option<(char, string)>)
    ensures r.Some? ==> |r.value.1| < |t|
  {
    if t == [] then None
    else if t[0] == '"' || t[0] == '\\' || t[0] == '/' then Some((t[0], t[1..]))
    else if t[0] == 'b' then Some(('\U{8}', t[1..]))
    else if t[0] == 'f' then Some(('\U{C}', t[1..]))
    else if t[0] == 'n' then Some(('\n', t[1..]))
    else if t[0] == 'r' then Some(('\r', t[1..]))
    else if t[0] == 't' then Some(('\t', t[1..]))
    else if t[0] == 'u' && |t| >= 5 then
      match UnicodeEscape(t[1..5])
      case Some(c) => Some((c, t[5..]))
      case None => None
    else None
  }

  /** The body of a string literal up to its closing quote: the string and the text
      after the quote. Raw control characters are not allowed. */
  function ParseChars(s: string): (r: Option<(string, string)>)
    ensures r.Some? ==> |r.value.1| < |s|
    decreases |s|
  {
    if s == [] || s[0] < ' ' then None
    else if s[0] == '"' then Some(([], s[1..]))
    else
      var step := if s[0] == '\\' then Unescape(s[1..]) else Some((s[0], s[1..]));
      match step
      case None => None
      case Some((c, t)) =>
        match ParseChars(t)
        case None => None
        case Some((body, rest)) => Some(([c] + body, rest))
  }

  function ParseString(s: string): (r: Option<(string, string)>)
    ensures r.Some? ==> |r.value.1| < |s|
  {
    if s != [] && s[0] == '"' then ParseChars(s[1..]) else None
  }

  /** An integer: an optional minus, then `0` or digits without a leading zero. */
  function ParseInteger(s: string): (r: Option<(int, string)>)
    ensures r.Some? ==> |r.value.1| < |s|
  {
    var negative := s != [] && s[0] == '-';
    var (d, rest) := TakeDigits(if negative then s[1..] else s);
    if d == [] || (|d| > 1 && d[0] == '0') then None
    else
      var magnitude: int := DigitsValue(d);
      Some((if negative then -magnitude else magnitude, rest))
  }

  predicate StartsWith(s: string, p: string) {
    |p| <= |s| && s[..|p|] == p
  }

  function ParseValue(s: string): (r: Option<(Value, string)>)
    ensures r.Some? ==> |r.value.1| < |s|
  {
    if s == [] then None
    else if s[0] == '"' then
      match ParseString(s)
      case Some((str, rest)) => Some((JString(str), rest))
      case None => None
    else if s[0] == '-' || IsDigit(s[0]) then
      match ParseInteger(s)
      case Some((n, rest)) => Some((JNumber(n), rest))
      case None => None
    else if StartsWith(s, "true") then Some((JBool(true), s[4..]))
    else if StartsWith(s, "false") then Some((JBool(false), s[5..]))
    else if StartsWith(s, "null") then Some((JNull, s[4..]))
    else None
  }

  /** One member `"key": value` with the whitespace around it; the text after it,
      which starts at the next non-blank character. */
  function ParseMember(s: string): (r: Option<((string, Value), string)>)
    ensures r.Some? ==> |r.value.1| < |s|
  {
    match ParseString(SkipWs(s))
    case None => None
    case Some((key, afterKey)) =>
      var colon := SkipWs(afterKey);
      if colon == [] || colon[0] != ':' then None
      else
        match ParseValue(SkipWs(colon[1..]))
        case None => None
        case Some((v, afterValue)) => Some(((key, v), SkipWs(afterValue)))
  }

  /** Members after `{` or `,`, through the closing `}`; the text after it. */
  function ParseMembers(s: string): (r: Option<(Members, string)>)
    ensures r.Some? ==> |r.value.1| < |s|
    decreases |s|
  {
    match ParseMember(s)
    case None => None
    case Some((member, next)) =>
      if next == [] then None
      else if next[0] == '}' then Some(([member], next[1..]))
      else if next[0] == ',' then
        match ParseMembers(next[1..])
        case None => None
        case Some((more, rest)) => Some(([member] + more, rest))
      else None
  }

  /** What follows `{`: no members, or members through the closing `}`. */
  function ParseBody(inside: string): Option<(Members, string)> {
    if inside != [] && inside[0] == '}' then Some(([], inside[1..])) else ParseMembers(inside)
  }

  /** `JSON.parse(text)` when the text is one object of this shape, surrounded by
      optional whitespace. */
  function Parse(text: string): Option<Members> {
    var open := SkipWs(text);
    if open == [] || open[0] != '{' then None
    else
      match ParseBody(SkipWs(open[1..]))
      case None => None
      case Some(body) => if SkipWs(body.1) == [] then Some(body.0) else None
  }

  /** A property read `parsed[key]`: the last member with that key wins, as in `JSON.parse`. */
  function Lookup(m: Members, key: string): (v: Option<Value>)
    ensures v.Some? <==> exists i | 0 <= i < |m| :: m[i].0 == key
    ensures v.Some? ==> exists i | 0 <= i < |m| :: m[i] == (key, v.value)
  {
    if m == [] then None
    else if m[|m| - 1].0 == key then Some(m[|m| - 1].1)
    else
      var v := Lookup(m[..|m| - 1], key);
      assert forall i | 0 <= i < |m| - 1 :: m[..|m| - 1][i] == m[i];
      v
  }

  // ---- reading what was written ----

  lemma SkipNoWs(s: string)
    requires s == [] || !IsJsonWs(s[0])
    ensures SkipWs(s) == s
  {
  }

  lemma {:induction false} EscapedRoundTrip(s: string, rest: string)
    ensures ParseChars(EscapeAll(s) + "\"" + rest) == Some((s, rest))
  {
    var t := EscapeAll(s) + "\"" + rest;
    if s == [] {
      assert t == "\"" + rest;
    } else {
      var e := EscapeChar(s[0]);
      var after := EscapeAll(s[1..]) + "\"" + rest;
      assert t == e + after;
      EscapedRoundTrip(s[1..], rest);
      CharRoundTrip(s[0], after);
      assert [s[0]] + s[1..] == s;
    }
  }

  /** One escaped character is read back, whatever follows it. */
  lemma CharRoundTrip(c: char, after: string)
    ensures var t := EscapeChar(c) + after;
      t != [] && t[0] >= ' ' && t[0] != '"'
      && (if t[0] == '\\' then Unescape(t[1..]) else Some((t[0], t[1..]))) == Some((c, after))
  {
    var t := EscapeChar(c) + after;
    if c < ' ' && c != '\U{8}' && c != '\U{C}' && c != '\n' && c != '\r' && c != '\t' {
      var h0, h1 := c as int / 16, c as int % 16;
      assert t[1..] == "u00" + [HexDigit(h0), HexDigit(h1)] + after;
      assert t[2..6] == "00" + [HexDigit(h0), HexDigit(h1)];
      assert t[6..] == after;
      assert HexValue(HexDigit(h0)) == Some(h0) && HexValue(HexDigit(h1)) == Some(h1);
    } else if |EscapeChar(c)| == 2 {
      assert t[2..] == after;
    } else {
      assert t[1..] == after;
    }
  }

  lemma IntegerRoundTrip(n: int, rest: string)
    requires rest == [] || !IsDigit(rest[0])
    ensures ParseInteger(NumberText(n) + rest) == Some((n, rest))
  {
    var magnitude: nat := if n < 0 then -n else n;
    var digits := NatToDigits(magnitude);
    TakeDigitsPrefix(digits, rest);
    DigitsRoundTrip(magnitude);
    var t := NumberText(n) + rest;
    if n < 0 {
      assert t == "-" + (digits + rest);
      assert t[1..] == digits + rest;
    } else {
      assert t == digits + rest;
      assert t[0] != '-';
    }
  }

  lemma ValueRoundTrip(v: Value, rest: string)
    requires rest == [] || !IsDigit(rest[0])
    ensures ParseValue(ValueText(v) + rest) == Some((v, rest))
  {
    match v
    case JNull =>
      var t := "null" + rest;
      assert t[..4] == "null" && t[4..] == rest;
    case JBool(b) =>
      BoolRoundTrip(b, rest);
    case JNumber(n) =>
      NumberRoundTrip(n, rest);
    case JString(s) =>
      StringRoundTrip(s, rest);
  }

  lemma BoolRoundTrip(b: bool, rest: string)
    ensures ParseValue(ValueText(JBool(b)) + rest) == Some((JBool(b), rest))
  {
    var t := ValueText(JBool(b)) + rest;
    if b {
      assert t[..4] == "true" && t[4..] == rest;
    } else {
      assert t[..4] != "true" by { assert t[0] != 't'; }
      assert t[..5] == "false" && t[5..] == rest;
    }
  }

  lemma NumberRoundTrip(n: int, rest: string)
    requires rest == [] || !IsDigit(rest[0])
    ensures ParseValue(ValueText(JNumber(n)) + rest) == Some((JNumber(n), rest))
  {
    var t := NumberText(n) + rest;
    assert t[0] == '-' || IsDigit(t[0]);
    assert ParseInteger(t) == Some((n, rest)) by {
      IntegerRoundTrip(n, rest);
    }
  }

  lemma StringRoundTrip(s: string, rest: string)
    ensures ParseValue(ValueText(JString(s)) + rest) == Some((JString(s), rest))
  {
    var t := Quote(s) + rest;
    assert t[0] == '"';
    assert ParseChars(t[1..]) == Some((s, rest)) by {
      assert t[1..] == EscapeAll(s) + "\"" + rest;
      EscapedRoundTrip(s, rest);
    }
  }

  /** The text of a member followed by more text, split where the parser splits it. */
  lemma Regroup(key: string, value: string, after: string)
    ensures "\"" + key + "\"" + ":" + value + after == "\"" + (key + "\"" + (":" + (value + after)))
  {
    var whole := "\"" + key + "\"" + ":" + value + after;
    var split := "\"" + (key + "\"" + (":" + (value + after)));
    assert |whole| == |split|;
    forall i | 0 <= i < |whole|
      ensures whole[i] == split[i]
    {
    }
  }

  lemma MemberRoundTrip(m: (string, Value), after: string)
    requires after != [] && (after[0] == ',' || after[0] == '}')
    ensures ParseMember(MemberText(m) + after) == Some((m, after))
  {
    var t := MemberText(m) + after;
    var value := ValueText(m.1) + after;
    var colon := ":" + value;
    SkipNoWs(after);
    SkipNoWs(value);
    SkipNoWs(colon);
    assert colon[1..] == value;
    ValueRoundTrip(m.1, after);
    Regroup(EscapeAll(m.0), ValueText(m.1), after);
    SkipNoWs(t);
    EscapedRoundTrip(m.0, colon);
  }

  /** Text regrouped so that the part after the first member stands alone. */
  lemma SplitAfterFirst(first: string, sep: string, more: string, close: string, rest: string)
    ensures first + sep + more + close + rest == first + (sep + (more + close + rest))
  {
    var whole := first + sep + more + close + rest;
    var split := first + (sep + (more + close + rest));
    assert |whole| == |split|;
    forall i | 0 <= i < |whole|
      ensures whole[i] == split[i]
    {
    }
  }

  lemma {:induction false} MembersRoundTrip(m: Members, rest: string)
    requires m != []
    ensures ParseMembers(MembersText(m) + "}" + rest) == Some((m, rest))
    decreases |m|
  {
    if |m| == 1 {
      LastMemberRoundTrip(m, rest);
    } else {
      MembersRoundTrip(m[1..], rest);
      NextMemberRoundTrip(m, rest);
    }
  }

  lemma LastMemberRoundTrip(m: Members, rest: string)
    requires |m| == 1
    ensures ParseMembers(MembersText(m) + "}" + rest) == Some((m, rest))
  {
    var tail := "}" + rest;
    SplitAfterFirst(MemberText(m[0]), "", "", "}", rest);
    assert MemberText(m[0]) + "}" + rest == MemberText(m[0]) + tail;
    MemberRoundTrip(m[0], tail);
    assert tail[1..] == rest;
    assert [m[0]] == m;
  }

  lemma NextMemberRoundTrip(m: Members, rest: string)
    requires |m| > 1
    requires ParseMembers(MembersText(m[1..]) + "}" + rest) == Some((m[1..], rest))
    ensures ParseMembers(MembersText(m) + "}" + rest) == Some((m, rest))
  {
    HeadTail(m);
    ConsMemberRoundTrip(m[0], m[1..], rest);
  }

  lemma HeadTail(m: Members)
    requires m != []
    ensures [m[0]] + m[1..] == m
  {
    assert ([m[0]] + m[1..])[0] == m[0];
  }

  lemma ConsMemberRoundTrip(member: (string, Value), more: Members, rest: string)
    requires more != []
    requires ParseMembers(MembersText(more) + "}" + rest) == Some((more, rest))
    ensures ParseMembers(MembersText([member] + more) + "}" + rest) == Some(([member] + more, rest))
  {
    var inner := MembersText(more) + "}" + rest;
    var tail := "," + inner;
    var m := [member] + more;
    var text := MembersText(m) + "}" + rest;
    assert text == MemberText(member) + tail by {
      assert m[0] == member && m[1..] == more;
      SplitAfterFirst(MemberText(member), ",", MembersText(more), "}", rest);
    }
    assert ParseMember(text) == Some((member, tail)) by {
      MemberRoundTrip(member, tail);
    }
    assert tail[1..] == inner;
    MembersStep(text, member, tail, more, rest);
  }

  /** A member followed by a comma, then the members after it. */
  lemma MembersStep(s: string, member: (string, Value), next: string, more: Members, rest: string)
    requires ParseMember(s) == Some((member, next))
    requires next != [] && next[0] == ','
    requires ParseMembers(next[1..]) == Some((more, rest))
    ensures ParseMembers(s) == Some(([member] + more, rest))
  {
  }

  lemma MembersTextStart(m: Members)
    requires m != []
    ensures MembersText(m) != [] && MembersText(m)[0] == '"'
  {
    assert MemberText(m[0])[0] == '"';
  }

  lemma ParseBodyMembers(inside: string, m: Members)
    requires inside != [] && inside[0] == '"'
    requires ParseMembers(inside) == Some((m, ""))
    ensures ParseBody(inside) == Some((m, ""))
  {
  }

  /** The reading of an object text whose members start with a string. */
  lemma ParseObjectText(t: string, m: Members)
    requires t != [] && t[0] == '{'
    requires t[1..] != [] && t[1..][0] == '"'
    requires ParseMembers(t[1..]) == Some((m, ""))
    ensures Parse(t) == Some(m)
  {
    var inside := t[1..];
    assert SkipWs(t) == t by { SkipNoWs(t); }
    assert SkipWs(inside) == inside by { SkipNoWs(inside); }
    assert ParseBody(inside) == Some((m, "")) by { ParseBodyMembers(inside, m); }
    var after: string := [];
    assert SkipWs(after) == [];
  }

  /** The reading of an object text with no members. */
  lemma ParseEmptyObject(t: string)
    requires |t| == 2 && t[0] == '{' && t[1] == '}'
    ensures Parse(t) == Some([])
  {
    SkipNoWs(t);
    SkipNoWs(t[1..]);
    assert t[1..][1..] == [];
  }

  /** `JSON.parse(JSON.stringify(o))` gives back the same members. */
  lemma ParseStringify(m: Members)
    ensures Parse(Stringify(m)) == Some(m)
  {
    var t := Stringify(m);
    if m == [] {
      assert |t| == 2 && t[0] == '{' && t[1] == '}';
      ParseEmptyObject(t);
    } else {
      assert t[1..] == MembersText(m) + "}" + "" by {
        assert t == "{" + (MembersText(m) + "}" + "");
      }
      MembersTextStart(m);
      MembersRoundTrip(m, "");
      ParseObjectText(t, m);
    }
  }
}
