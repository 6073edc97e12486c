/**
 * `readHeader` and `getClientIp` (`src/lib/request.ts`): the client address the rate
 * limiter keys on. `TRUST_PROXY` is a parameter.
 */
module Request {
  import opened Wrappers
  import Text

  const UNKNOWN := "unknown"
  const FORWARDED_FOR := "x-forwarded-for"
  const REAL_IP := "x-real-ip"

  /** A field of a plain header record: one value or a list of them. */
  datatype HeaderValue = Single(text: string) | Many(values: seq<string>)

  /** What `getClientIp` may be given: nothing, a fetch `Headers` object (its `get` by
      lower-case name) or a plain record, as Node's incoming headers are. */
  datatype Headers = NoHeaders | WebHeaders(entries: map<string, string>) | Record(fields: map<string, HeaderValue>)

  /** `readHeader(headers, name)`: `None` stands for `undefined`. */
  function ReadHeader(headers: Headers, name: string): (v: Option<string>)
    ensures headers.NoHeaders? ==> v.None?
    ensures headers.WebHeaders? ==> (v.Some? <==> name in headers.entries)
    ensures headers.WebHeaders? && v.Some? ==> v.value == headers.entries[name]
    ensures headers.Record? ==> (v.Some? ==> name in headers.fields)
    ensures headers.Record? && name in headers.fields && headers.fields[name].Single? ==>
      v == Some(headers.fields[name].text)
    ensures headers.Record? && name in headers.fields && headers.fields[name].Many? ==>
      v == (if headers.fields[name].values == [] then None else Some(headers.fields[name].values[0]))
  {
    match headers
    case NoHeaders => None
    case WebHeaders(entries) => if name in entries then Some(entries[name]) else None
    case Record(fields) =>
      if name !in fields then None
      else match fields[name]
        case Single(text) => Some(text)
        case Many(values) => if values == [] then None else Some(values[0])
  }

  /** `s.split(",")[0]`: the text before the first comma, or all of it. */
  function FirstField(s: string): (f: string)
    ensures |f| <= |s| && f == s[..|f|]
    ensures ',' !in f
    ensures |f| < |s| ==> s[|f|] == ','
  {
    if s == [] || s[0] == ',' then [] else [s[0]] + FirstField(s[1..])
  }

  /** The first field of a list is the text before its first comma. */
  lemma {:induction false} FirstFieldOfList(first: string, rest: string)
    requires ',' !in first
    ensures FirstField(first + "," + rest) == first
  {
    if first != [] {
      assert (first + "," + rest)[1..] == first[1..] + "," + rest;
      FirstFieldOfList(first[1..], rest);
      assert [first[0]] + first[1..] == first;
    } else {
      assert ("" + "," + rest)[0] == ',';
    }
  }

  /** `getClientIp(headers)` with `process.env.TRUST_PROXY` as `trustProxy`. */
  function GetClientIp(trustProxy: Option<string>, headers: Headers): (ip: string)
    ensures ip != []
    ensures trustProxy != Some("1") ==> ip == UNKNOWN
    ensures trustProxy == Some("1") && ReadHeader(headers, FORWARDED_FOR).Some? && ReadHeader(headers, FORWARDED_FOR).value != [] ==>
      var first := Text.Trim(FirstField(ReadHeader(headers, FORWARDED_FOR).value));
      ip == (if first != [] then first else UNKNOWN)
    ensures trustProxy == Some("1") && (ReadHeader(headers, FORWARDED_FOR).None? || ReadHeader(headers, FORWARDED_FOR).value == []) ==>
      var realIp := ReadHeader(headers, REAL_IP);
      ip == (if realIp.Some? && realIp.value != [] then realIp.value else UNKNOWN)
  {
    if trustProxy != Some("1") then UNKNOWN
    else
      var forwarded := ReadHeader(headers, FORWARDED_FOR);
      if forwarded.Some? && forwarded.value != [] then
        var first := Text.Trim(FirstField(forwarded.value));
        if first != [] then first else UNKNOWN
      else
        var realIp := ReadHeader(headers, REAL_IP);
        if realIp.Some? && realIp.value != [] then realIp.value else UNKNOWN
  }

  /** Behind a trusted proxy, the first hop of `x-forwarded-for` is the client, whatever
      follows it and whatever `x-real-ip` says. */
  lemma ClientIsFirstHop(first: string, rest: string, fields: map<string, HeaderValue>)
    requires ',' !in first
    requires Text.Trim(first) != []
    requires FORWARDED_FOR in fields && fields[FORWARDED_FOR] == Single(first + "," + rest)
    ensures GetClientIp(Some("1"), Record(fields)) == Text.Trim(first)
  {
    FirstFieldOfList(first, rest);
  }

  /** Without a trusted proxy the headers are ignored. */
  lemma UntrustedIgnoresHeaders(trustProxy: Option<string>, a: Headers, b: Headers)
    requires trustProxy != Some("1")
    ensures GetClientIp(trustProxy, a) == GetClientIp(trustProxy, b) == UNKNOWN
  {
  }

  /** The examples of the request tests. */
  lemma IgnoresHeadersUntrusted()
    ensures GetClientIp(None, Record(map[FORWARDED_FOR := Single("1.1.1.1"), REAL_IP := Single("2.2.2.2")])) == UNKNOWN
  {
  }

  lemma TakesFirstForwarded()
    ensures GetClientIp(Some("1"), Record(map[FORWARDED_FOR := Single("1.1.1.1, 3.3.3.3")])) == "1.1.1.1"
  {
    assert Text.Trim("1.1.1.1") == "1.1.1.1" by {
      Text.TrimUnchanged("1.1.1.1");
    }
    ForwardedFacts();
    ClientIsFirstHop("1.1.1.1", " 3.3.3.3", map[FORWARDED_FOR := Single("1.1.1.1, 3.3.3.3")]);
  }

  lemma ForwardedFacts()
    ensures ',' !in "1.1.1.1"
    ensures "1.1.1.1" + "," + " 3.3.3.3" == "1.1.1.1, 3.3.3.3"
  {
  }
}
