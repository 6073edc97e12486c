/**
 * JavaScript's `Number(text)` on decimal text, with exact (unrounded) values, and the
 * `Math.min` / `Math.max` that clamp such numbers.
 */
module JsNumber {
  import opened Wrappers
  import opened Text

  datatype Number = NaN | PosInfinity | NegInfinity | Finite(value: real)

  function Pow10(e: nat): (r: real)
    ensures r >= 1.0
  {
    if e == 0 then 1.0 else 10.0 * Pow10(e - 1)
  }

  /** `x` times ten to the power `e`. */
  function Scale(x: real, e: int): (r: real)
    ensures x >= 0.0 ==> r >= 0.0
  {
    if e >= 0 then x * Pow10(e) else x / Pow10(-e)
  }

  /** Digits with an optional fraction: `12`, `12.`, `12.5` or `.5`. */
  function DecimalValue(s: string): (v: Option<real>)
    ensures v.Some? ==> v.value >= 0.0
  {
    var (whole, rest) := TakeDigits(s);
    if rest == [] then
      if whole == [] then None else Some(DigitsValue(whole) as real)
    else if rest[0] != '.' || !AllDigits(rest[1..]) || (whole == [] && |rest| == 1) then None
    else
      Some(PointValue(whole, rest[1..]))
  }

  /** The value of `whole.fraction`. */
  function PointValue(whole: string, fraction: string): real
    requires AllDigits(whole) && AllDigits(fraction)
  {
    DigitsValue(whole) as real + DigitsValue(fraction) as real / Pow10(|fraction|)
  }

  /** An exponent: an optional sign and at least one digit. */
  function ExponentValue(s: string): Option<int> {
    var negative := s != [] && s[0] == '-';
    var digits := if s != [] && (s[0] == '-' || s[0] == '+') then s[1..] else s;
    if digits == [] || !AllDigits(digits) then None
    else
      var magnitude: int := DigitsValue(digits);
      Some(if negative then -magnitude else magnitude)
  }

  /** The position of the first `e` or `E`, or `|s|` when there is none. */
  function ExponentAt(s: string): (k: nat)
    ensures k <= |s|
    ensures forall i | 0 <= i < k :: s[i] != 'e' && s[i] != 'E'
    ensures k < |s| ==> s[k] == 'e' || s[k] == 'E'
  {
    if s == [] || s[0] == 'e' || s[0] == 'E' then 0 else 1 + ExponentAt(s[1..])
  }

  /** An unsigned decimal literal with an optional exponent. */
  function UnsignedValue(s: string): (v: Option<real>)
    ensures v.Some? ==> v.value >= 0.0
  {
    var k := ExponentAt(s);
    match DecimalValue(s[..k])
    case None => None
    case Some(mantissa) =>
      if k == |s| then Some(mantissa)
      else
        match ExponentValue(s[k + 1..])
        case None => None
        case Some(e) =>
          var v := Scale(mantissa, e);
          assert v >= 0.0;
          Some(v)
  }

  /** `Number(text)`: whitespace around the literal is ignored and blank text is 0. */
  function FromText(text: string): (n: Number)
    ensures Trim(text) == [] ==> n == Finite(0.0)
  {
    var t := Trim(text);
    if t == [] then Finite(0.0)
    else
      var negative := t[0] == '-';
      var body := if t[0] == '-' || t[0] == '+' then t[1..] else t;
      if body == "Infinity" then (if negative then NegInfinity else PosInfinity)
      else
        match UnsignedValue(body)
        case None => NaN
        case Some(v) => Finite(if negative then -v else v)
  }

  /** `Number.isFinite(n)`. */
  predicate IsFinite(n: Number) {
    n.Finite?
  }

  /** `Math.max(a, b)`. */
  function Max(a: Number, b: Number): (m: Number)
    ensures (a.NaN? || b.NaN?) <==> m.NaN?
    ensures a.Finite? && b.Finite? ==>
      m.Finite? && m.value >= a.value && m.value >= b.value && (m.value == a.value || m.value == b.value)
  {
    if a.NaN? || b.NaN? then NaN
    else if a.PosInfinity? || b.PosInfinity? then PosInfinity
    else if a.NegInfinity? then b
    else if b.NegInfinity? then a
    else if a.value >= b.value then a else b
  }

  /** `Math.min(a, b)`. */
  function Min(a: Number, b: Number): (m: Number)
    ensures (a.NaN? || b.NaN?) <==> m.NaN?
    ensures a.Finite? && b.Finite? ==>
      m.Finite? && m.value <= a.value && m.value <= b.value && (m.value == a.value || m.value == b.value)
  {
    if a.NaN? || b.NaN? then NaN
    else if a.NegInfinity? || b.NegInfinity? then NegInfinity
    else if a.PosInfinity? then b
    else if b.PosInfinity? then a
    else if a.value <= b.value then a else b
  }

  /** The decimal text of a natural number reads back as that number. */
  lemma FromNatText(n: nat)
    ensures FromText(NatToDigits(n)) == Finite(n as real)
  {
    var digits := NatToDigits(n);
    TrimUnchanged(digits);
    UnsignedDigits(n);
    assert digits != "Infinity" by { assert IsDigit(digits[0]); }
  }

  /** A minus sign before the decimal text of a natural number negates it. */
  lemma FromNegatedText(n: nat)
    ensures FromText("-" + NatToDigits(n)) == Finite(-(n as real))
  {
    var digits := NatToDigits(n);
    var t := "-" + digits;
    assert t[|t| - 1] == digits[|digits| - 1];
    TrimUnchanged(t);
    assert t[1..] == digits;
    UnsignedDigits(n);
    assert digits != "Infinity" by { assert IsDigit(digits[0]); }
  }

  lemma UnsignedDigits(n: nat)
    ensures UnsignedValue(NatToDigits(n)) == Some(n as real)
  {
    var digits := NatToDigits(n);
    TakeDigitsPrefix(digits, []);
    assert digits + [] == digits;
    DigitsRoundTrip(n);
    assert ExponentAt(digits) == |digits| by {
      ExponentAtAbsent(digits);
    }
    assert digits[..|digits|] == digits;
  }

  lemma {:induction false} ExponentAtAbsent(s: string)
    requires forall i | 0 <= i < |s| :: s[i] != 'e' && s[i] != 'E'
    ensures ExponentAt(s) == |s|
  {
    if s != [] {
      ExponentAtAbsent(s[1..]);
    }
  }

  lemma DecimalOfFraction(whole: string, fraction: string)
    requires AllDigits(whole) && AllDigits(fraction) && fraction != []
    ensures DecimalValue(whole + "." + fraction) == Some(PointValue(whole, fraction))
  {
    var rest := "." + fraction;
    assert whole + "." + fraction == whole + rest;
    TakeDigitsPrefix(whole, rest);
    assert rest[1..] == fraction;
  }

  lemma UnsignedOfFraction(whole: string, fraction: string)
    requires AllDigits(whole) && AllDigits(fraction)
    ensures UnsignedValue(whole + "." + fraction) == DecimalValue(whole + "." + fraction)
  {
    var t := whole + "." + fraction;
    assert forall i | 0 <= i < |t| :: IsDigit(t[i]) || t[i] == '.';
    ExponentAtAbsent(t);
    assert t[..|t|] == t;
  }

  /** Digits, a point and more digits read as the number with that fraction. */
  lemma FromFractionText(whole: string, fraction: string)
    requires whole != [] && AllDigits(whole) && fraction != [] && AllDigits(fraction)
    ensures FromText(whole + "." + fraction) == Finite(PointValue(whole, fraction))
  {
    var t := whole + "." + fraction;
    assert t[|t| - 1] == fraction[|fraction| - 1];
    TrimUnchanged(t);
    assert IsDigit(t[0]) && t != "Infinity";
    UnsignedOfFraction(whole, fraction);
    DecimalOfFraction(whole, fraction);
  }

  /** Text that is not numeric at all reads as NaN. */
  lemma NonNumericIsNaN(text: string)
    requires Trim(text) != []
    requires var c := Trim(text)[0]; !IsDigit(c) && c != '-' && c != '+' && c != '.' && c != 'I'
    ensures FromText(text) == NaN
  {
    var t := Trim(text);
    var (whole, rest) := TakeDigits(t);
    assert whole == [] && rest == t;
    assert t != "Infinity" by { assert t[0] != 'I'; }
    var k := ExponentAt(t);
    if k > 0 {
      assert TakeDigits(t[..k]).0 == [] && TakeDigits(t[..k]).1 == t[..k];
    }
  }
}
