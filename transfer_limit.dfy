/**
 * The page size of the transfer list (`src/lib/transferPagination.ts`): the `limit`
 * query parameter read as a JavaScript number and clamped to [10, 100].
 */
module TransferLimit {
  import opened Wrappers
  import opened JsNumber
  import Text

  const DEFAULT_TRANSFER_LIMIT: nat := 20
  const MIN_TRANSFER_LIMIT: nat := 10
  const MAX_TRANSFER_LIMIT: nat := 100

  /** `Number(params.get("limit") || DEFAULT_TRANSFER_LIMIT)`. */
  function RawLimit(param: Option<string>): Number {
    if param.None? || param.value == [] then Finite(DEFAULT_TRANSFER_LIMIT as real)
    else FromText(param.value)
  }

  /** `getTransferLimit(params)`, exactly as written: NaN passes through the clamp. */
  function GetTransferLimit(param: Option<string>): (n: Number)
    ensures param.None? || param.value == [] ==> n == Finite(DEFAULT_TRANSFER_LIMIT as real)
    ensures n.NaN? <==> RawLimit(param).NaN?
    ensures !n.NaN? ==>
      n.Finite? && MIN_TRANSFER_LIMIT as real <= n.value <= MAX_TRANSFER_LIMIT as real
    ensures RawLimit(param).Finite?
      && MIN_TRANSFER_LIMIT as real <= RawLimit(param).value <= MAX_TRANSFER_LIMIT as real
      ==> n == RawLimit(param)
  {
    Min(Finite(MAX_TRANSFER_LIMIT as real), Max(Finite(MIN_TRANSFER_LIMIT as real), RawLimit(param)))
  }

  /** Below the range gives the minimum, above it the maximum. */
  lemma ClampsOutOfRange(param: Option<string>)
    requires RawLimit(param).Finite? || RawLimit(param).PosInfinity? || RawLimit(param).NegInfinity?
    ensures var raw := RawLimit(param);
      && ((raw.NegInfinity? || (raw.Finite? && raw.value < MIN_TRANSFER_LIMIT as real)) ==>
            GetTransferLimit(param) == Finite(MIN_TRANSFER_LIMIT as real))
      && ((raw.PosInfinity? || (raw.Finite? && raw.value > MAX_TRANSFER_LIMIT as real)) ==>
            GetTransferLimit(param) == Finite(MAX_TRANSFER_LIMIT as real))
  {
  }

  /** A missing limit gives 20. */
  lemma DefaultLimitExample()
    ensures GetTransferLimit(None) == Finite(20.0)
  {
  }

  /** "5" gives 10. */
  lemma SmallLimitExample()
    ensures GetTransferLimit(Some("5")) == Finite(10.0)
  {
    assert Text.NatToDigits(5) == "5";
    FromNatText(5);
  }

  /** "250" gives 100. */
  lemma LargeLimitExample()
    ensures GetTransferLimit(Some("250")) == Finite(100.0)
  {
    assert Text.NatToDigits(250) == "250" by {
      assert Text.NatToDigits(25) == "25";
    }
    FromNatText(250);
  }

  /** A limit that is not a number at all comes out as NaN, which then reaches the query's
      `take`. */
  lemma NonNumericLimitIsNaN()
    ensures GetTransferLimit(Some("abc")).NaN?
  {
    assert Text.Trim("abc") == "abc" by {
      Text.TrimUnchanged("abc");
    }
    assert FromText("abc") == NaN by {
      NonNumericIsNaN("abc");
    }
  }

  /** A limit with a fraction stays fractional: inside the range, `whole.fraction` reaches
      the query's `take` unchanged, not as a whole number of rows. */
  lemma FractionalLimitPassesThrough(whole: string, fraction: string)
    requires whole != [] && Text.AllDigits(whole) && fraction != [] && Text.AllDigits(fraction)
    requires MIN_TRANSFER_LIMIT as real <= PointValue(whole, fraction) <= MAX_TRANSFER_LIMIT as real
    ensures GetTransferLimit(Some(whole + "." + fraction)) == Finite(PointValue(whole, fraction))
  {
    FromFractionText(whole, fraction);
  }

  /** "15.5" is such a limit: the query is asked for 15.5 rows. */
  lemma FifteenAndAHalf()
    ensures PointValue("15", "5") == 15.5 && "15" + "." + "5" == "15.5"
  {
    assert Text.DigitsValue("15") == 15 by { assert "15"[..1] == "1"; }
    assert Text.DigitsValue("5") == 5;
    assert Pow10(|"5"|) == 10.0 by { assert |"5"| == 1; }
  }

  /** The page size as evidently intended: a whole number of rows in [10, 100], the
      default when the parameter is not numeric, and the clamped value otherwise
      (rounded down when it has a fraction). */
  function PageSize(param: Option<string>): (n: nat)
    ensures MIN_TRANSFER_LIMIT <= n <= MAX_TRANSFER_LIMIT
    ensures GetTransferLimit(param).NaN? ==> n == DEFAULT_TRANSFER_LIMIT
    ensures GetTransferLimit(param).Finite? ==>
      n as real <= GetTransferLimit(param).value < n as real + 1.0
    ensures var limit := GetTransferLimit(param);
      limit.Finite? && limit.value.Floor as real == limit.value ==> limit == Finite(n as real)
  {
    var limit := GetTransferLimit(param);
    if limit.NaN? then DEFAULT_TRANSFER_LIMIT else limit.value.Floor
  }
}
