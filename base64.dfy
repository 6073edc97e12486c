/**
 * Base64 with the standard alphabet and `=` padding (section 4 of RFC 4648), as
 * `Buffer.toString("base64")` writes it; decoding accepts exactly the texts the encoder
 * can produce. Both directions go through 6-bit values, with 64 standing for the pad `=`.
 */
module Base64 {
  import opened Wrappers

  type Byte = b: int | 0 <= b < 256

  /** A 6-bit value, or `PAD` for `=`. */
  type Sextet = v: int | 0 <= v <= 64

  const PAD: Sextet := 64

  /** The character for a 6-bit value, `=` for the pad. */
  function CharOf(v: Sextet): char {
    if v < 26 then ('A' as int + v) as char
    else if v < 52 then ('a' as int + v - 26) as char
    else if v < 62 then ('0' as int + v - 52) as char
    else if v == 62 then '+'
    else if v == 63 then '/'
    else '='
  }

  /** The value of an alphabet character or the pad; `None` for anything else. */
  function ValueOf(c: char): (v: Option<Sextet>)
    ensures v.Some? ==> CharOf(v.value) == c
  {
    if 'A' <= c <= 'Z' then Some(c as int - 'A' as int)
    else if 'a' <= c <= 'z' then Some(c as int - 'a' as int + 26)
    else if '0' <= c <= '9' then Some(c as int - '0' as int + 52)
    else if c == '+' then Some(62)
    else if c == '/' then Some(63)
    else if c == '=' then Some(PAD)
    else None
  }

  lemma ValueOfCharOf(v: Sextet)
    ensures ValueOf(CharOf(v)) == Some(v)
  {
  }

  function ToChars(x: seq<Sextet>): (s: string)
    ensures |s| == |x|
    ensures forall i | 0 <= i < |x| :: s[i] == CharOf(x[i])
  {
    seq(|x|, i requires 0 <= i < |x| => CharOf(x[i]))
  }

  function FromChars(s: string): (x: Option<seq<Sextet>>)
    ensures x.Some? ==> ToChars(x.value) == s
  {
    if s == [] then Some([])
    else match (ValueOf(s[0]), FromChars(s[1..]))
      case (Some(v), Some(rest)) =>
        ToCharsCons(v, rest, s);
        Some([v] + rest)
      case _ => None
  }

  /** Writing a value in front of others writes its character in front of theirs. */
  lemma ToCharsCons(v: Sextet, rest: seq<Sextet>, s: string)
    requires s != [] && CharOf(v) == s[0] && ToChars(rest) == s[1..]
    ensures ToChars([v] + rest) == s
  {
    var t := ToChars([v] + rest);
    forall i | 0 <= i < |s|
      ensures t[i] == s[i]
    {
      if i > 0 {
        assert ([v] + rest)[i] == rest[i - 1];
      }
    }
  }

  lemma {:induction false} FromCharsToChars(x: seq<Sextet>)
    ensures FromChars(ToChars(x)) == Some(x)
  {
    if x != [] {
      var s := ToChars(x);
      assert s[1..] == ToChars(x[1..]);
      FromCharsToChars(x[1..]);
      ValueOfCharOf(x[0]);
      assert [x[0]] + x[1..] == x;
    }
  }

  // ---- groups of 6-bit values ----

  /** Three bytes as four values. */
  function EncodeGroup(b0: Byte, b1: Byte, b2: Byte): seq<Sextet> {
    [b0 / 4, (b0 % 4) * 16 + b1 / 16, (b1 % 16) * 4 + b2 / 64, b2 % 64]
  }

  /** Two trailing bytes: three values and one pad. */
  function EncodeTwo(b0: Byte, b1: Byte): seq<Sextet> {
    [b0 / 4, (b0 % 4) * 16 + b1 / 16, (b1 % 16) * 4, PAD]
  }

  /** One trailing byte: two values and two pads. */
  function EncodeOne(b0: Byte): seq<Sextet> {
    [b0 / 4, (b0 % 4) * 16, PAD, PAD]
  }

  /** Four unpadded values as three bytes. */
  function DecodeGroup(x: seq<Sextet>): Option<seq<Byte>>
    requires |x| == 4
  {
    var c0: int, c1: int, c2: int, c3: int := x[0], x[1], x[2], x[3];
    if c0 == PAD || c1 == PAD || c2 == PAD || c3 == PAD then None
    else Some([c0 * 4 + c1 / 16, (c1 % 16) * 16 + c2 / 4, (c2 % 4) * 64 + c3])
  }

  /** The last group, padded or not; the bits under the padding must be zero. */
  function DecodeLast(x: seq<Sextet>): Option<seq<Byte>>
    requires |x| == 4
  {
    var c0: int, c1: int, c2: int, c3: int := x[0], x[1], x[2], x[3];
    if c2 == PAD && c3 == PAD then
      if c0 == PAD || c1 == PAD || c1 % 16 != 0 then None
      else Some([c0 * 4 + c1 / 16])
    else if c3 == PAD then
      if c0 == PAD || c1 == PAD || c2 == PAD || c2 % 4 != 0 then None
      else Some([c0 * 4 + c1 / 16, (c1 % 16) * 16 + c2 / 4])
    else DecodeGroup(x)
  }

  function EncodeSextets(b: seq<Byte>): (x: seq<Sextet>)
    ensures |x| == (|b| + 2) / 3 * 4
    decreases |b|
  {
    if |b| == 0 then []
    else if |b| == 1 then EncodeOne(b[0])
    else if |b| == 2 then EncodeTwo(b[0], b[1])
    else EncodeGroup(b[0], b[1], b[2]) + EncodeSextets(b[3..])
  }

  function DecodeSextets(x: seq<Sextet>): Option<seq<Byte>>
    decreases |x|
  {
    if |x| == 0 then Some([])
    else if |x| < 4 then None
    else if |x| == 4 then DecodeLast(x)
    else
      match (DecodeGroup(x[..4]), DecodeSextets(x[4..]))
      case (Some(head), Some(tail)) => Some(head + tail)
      case _ => None
  }

  lemma GroupRoundTrip(b0: Byte, b1: Byte, b2: Byte)
    ensures DecodeGroup(EncodeGroup(b0, b1, b2)) == Some([b0, b1, b2])
    ensures DecodeLast(EncodeGroup(b0, b1, b2)) == Some([b0, b1, b2])
  {
  }

  lemma TailRoundTrip(b0: Byte, b1: Byte)
    ensures DecodeLast(EncodeTwo(b0, b1)) == Some([b0, b1])
    ensures DecodeLast(EncodeOne(b0)) == Some([b0])
  {
  }

  lemma {:induction false} SextetsRoundTrip(b: seq<Byte>)
    ensures DecodeSextets(EncodeSextets(b)) == Some(b)
    decreases |b|
  {
    if |b| == 1 {
      TailRoundTrip(b[0], 0);
      assert [b[0]] == b;
    } else if |b| == 2 {
      TailRoundTrip(b[0], b[1]);
      assert [b[0], b[1]] == b;
    } else if |b| >= 3 {
      var x := EncodeSextets(b);
      GroupRoundTrip(b[0], b[1], b[2]);
      if |b| == 3 {
        assert x == EncodeGroup(b[0], b[1], b[2]);
        assert [b[0], b[1], b[2]] == b;
      } else {
        SextetsRoundTrip(b[3..]);
        assert x[..4] == EncodeGroup(b[0], b[1], b[2]) && x[4..] == EncodeSextets(b[3..]);
        assert [b[0], b[1], b[2]] + b[3..] == b;
      }
    }
  }

  // ---- texts ----

  /** `Buffer.from(bytes).toString("base64")`. */
  function Encode(b: seq<Byte>): (s: string)
    ensures |s| == (|b| + 2) / 3 * 4
  {
    ToChars(EncodeSextets(b))
  }

  /** The bytes of a canonical base64 text; `None` for any other text. */
  function Decode(s: string): Option<seq<Byte>> {
    match FromChars(s)
    case None => None
    case Some(x) => DecodeSextets(x)
  }

  /** Decoding undoes encoding. */
  lemma DecodeEncode(b: seq<Byte>)
    ensures Decode(Encode(b)) == Some(b)
  {
    FromCharsToChars(EncodeSextets(b));
    SextetsRoundTrip(b);
  }
}
