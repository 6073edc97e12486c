/**
 * `POST /api/transfers/override` (`src/app/api/transfers/override/route.ts`): the user
 * sets a transfer's price by hand, in USD or RUB; the missing side is derived with the
 * USD→RUB rate of the transfer's day and the row is marked as manually priced.
 */
module OverrideRoute {
  import opened Wrappers
  import opened Store
  import Text
  import Json
  import JsNumber
  import Api
  import SyncEngine

  const MISSING_ID := "Missing transfer id."
  const NOT_FOUND := "Transfer not found."
  const NO_PRICE := "Provide USD or RUB price."
  const NO_USD := "Unable to determine USD price."
  const FAILED := "Price override failed."

  /** `String(input ?? "")`. */
  function InputText(input: Option<Json.Value>): (s: string)
    ensures input.None? || input.value.JNull? ==> s == []
    ensures input.Some? && input.value.JString? ==> s == input.value.s
  {
    match input
    case None => ""
    case Some(v) => if v.JNull? then "" else Json.ToText(v)
  }

  /** `parsePrice(input)`: the decimal the trimmed text denotes, if it is a finite
      positive number. The decimal is exact, as is the model's reading of the text. */
  function ParsePrice(input: Option<Json.Value>): (p: Option<real>)
    ensures p.Some? ==> p.value > 0.0
    ensures p.Some? <==>
      var n := JsNumber.FromText(Text.Trim(InputText(input)));
      Text.Trim(InputText(input)) != [] && n.Finite? && n.value > 0.0
    ensures p.Some? ==> JsNumber.FromText(InputText(input)) == JsNumber.Finite(p.value)
  {
    var value := Text.Trim(InputText(input));
    if value == [] then None
    else
      var parsed := JsNumber.FromText(value);
      Text.TrimIdempotent(InputText(input));
      if !JsNumber.IsFinite(parsed) || parsed.value <= 0.0 then None
      else Some(parsed.value)
  }

  /** A positive whole price sent as text is read as itself. */
  lemma ParseWholeText(n: nat)
    requires n > 0
    ensures ParsePrice(Some(Json.JString(Text.NatToDigits(n)))) == Some(n as real)
  {
    assert InputText(Some(Json.JString(Text.NatToDigits(n)))) == Text.NatToDigits(n);
    Text.TrimUnchanged(Text.NatToDigits(n));
    JsNumber.FromNatText(n);
  }

  /** A positive whole price sent as a JSON number is read as itself. */
  lemma ParseWholeNumber(n: nat)
    requires n > 0
    ensures ParsePrice(Some(Json.JNumber(n))) == Some(n as real)
  {
    assert InputText(Some(Json.JNumber(n))) == Text.NatToDigits(n);
    Text.TrimUnchanged(Text.NatToDigits(n));
    JsNumber.FromNatText(n);
  }

  /** A missing field and a null give no price. */
  lemma ParseAbsent(input: Option<Json.Value>)
    requires input.None? || input.value.JNull?
    ensures ParsePrice(input) == None
  {
    Text.TrimEmpty([]);
    assert Text.Trim(InputText(input)) == [];
  }

  /** Text of nothing but white space gives no price. */
  lemma ParseBlank(blank: string)
    requires forall i | 0 <= i < |blank| :: Text.IsJsWhitespace(blank[i])
    ensures ParsePrice(Some(Json.JString(blank))) == None
  {
    Text.TrimEmpty(blank);
    assert Text.Trim(InputText(Some(Json.JString(blank)))) == [];
  }

  /** A boolean is read as the text `true` or `false`, which is not a number. */
  lemma ParseBoolean(b: bool)
    ensures ParsePrice(Some(Json.JBool(b))) == None
  {
    var word := if b then "true" else "false";
    assert InputText(Some(Json.JBool(b))) == word;
    Text.TrimUnchanged(word);
    JsNumber.NonNumericIsNaN(word);
  }

  /** Zero and negative numbers give no price. */
  lemma ParseNonPositive(n: int)
    requires n <= 0
    ensures ParsePrice(Some(Json.JNumber(n))) == None
  {
    var magnitude: nat := -n;
    var digits := Text.NatToDigits(magnitude);
    if n == 0 {
      assert InputText(Some(Json.JNumber(n))) == digits;
      Text.TrimUnchanged(digits);
      JsNumber.FromNatText(0);
    } else {
      var text := "-" + digits;
      assert InputText(Some(Json.JNumber(n))) == text;
      assert text[|text| - 1] == digits[|digits| - 1];
      Text.TrimUnchanged(text);
      JsNumber.FromNegatedText(magnitude);
    }
  }

  /** `if (fxRate)` on `fetchUsdRubRate(Math.floor(blockTime / 1000))`: the rate of the
      transfer's second, kept only when it is truthy. `fxAt` stands for the rate feed. */
  function RateAt(fxAt: int -> Option<real>, row: TransferRow): (rate: Option<real>)
    ensures rate.Some? ==> rate.value != 0.0 && fxAt(row.blockTimeMs / 1000) == rate
  {
    var r := fxAt(row.blockTimeMs / 1000);
    if r.Some? && r.value != 0.0 then r else None
  }

  /** Lines 51-67: a missing side is derived from the given one with a truthy rate. */
  function Derive(usd: Option<real>, rub: Option<real>, rate: Option<real>): (p: (Option<real>, Option<real>))
    requires rate.Some? ==> rate.value != 0.0
    ensures usd.Some? ==> p.0 == usd
    ensures rub.Some? ==> p.1 == rub
    ensures p.0.Some? <==> usd.Some? || (rub.Some? && rate.Some?)
    ensures p.1.Some? <==> rub.Some? || (usd.Some? && rate.Some?)
    ensures (usd.None? || rub.None?) && p.0.Some? && p.1.Some? ==> p.1.value == p.0.value * rate.value
  {
    if rub.None? && usd.Some? then
      (usd, if rate.Some? then Some(usd.value * rate.value) else None)
    else if usd.None? && rub.Some? then
      (if rate.Some? then Some(rub.value / rate.value) else None, rub)
    else (usd, rub)
  }

  datatype Priced = Rejected(reply: Api.Reply) | Repriced(row: TransferRow)

  /** Lines 44-88 once the transfer is found: the two 400 replies, or the row as the
      update leaves it. */
  function Reprice(row: TransferRow, usd: Option<real>, rub: Option<real>, rate: Option<real>): (o: Priced)
    requires rate.Some? ==> rate.value != 0.0
    ensures usd.None? && rub.None? ==> o == Rejected(Api.Error(400, NO_PRICE))
    ensures (usd.Some? || rub.Some?) && Derive(usd, rub, rate).0.None? ==> o == Rejected(Api.Error(400, NO_USD))
    ensures o.Repriced? <==> Derive(usd, rub, rate).0.Some?
    ensures o.Repriced? ==>
      && o.row.priceManual
      && ValuesConsistent(o.row)
      && (o.row.priceUsd, o.row.priceRub) == Derive(usd, rub, rate)
      && SameExceptPrices(row, o.row.(priceManual := row.priceManual))
  {
    if usd.None? && rub.None? then Rejected(Api.Error(400, NO_PRICE))
    else
      var (priceUsd, priceRub) := Derive(usd, rub, rate);
      if priceUsd.None? then Rejected(Api.Error(400, NO_USD))
      else Repriced(WithPrices(row, priceUsd, priceRub).(priceManual := true))
  }

  /** `String(body?.transferId || "").trim()`. */
  function TransferIdOf(body: Json.Members): (id: string)
    ensures id != [] ==> Api.FieldText(body, "transferId") != []
  {
    Text.Trim(Api.FieldText(body, "transferId"))
  }

  /** What the handler does with the found row, given the request body and the rate feed. */
  function Outcome(row: TransferRow, body: Json.Members, fxAt: int -> Option<real>): Priced {
    Reprice(row, ParsePrice(Json.Lookup(body, "priceUsd")), ParsePrice(Json.Lookup(body, "priceRub")), RateAt(fxAt, row))
  }

  /** The transfer `findFirst({ where: { id, userId } })` looks for. */
  predicate Owns(t: map<TransferKey, TransferRow>, k: TransferKey, id: string, userId: string) {
    k in t && t[k].id == id && t[k].userId == userId
  }

  /** `POST(request)`. `body` is `None` when the body is not JSON (a JSON value that is
      not an object reads as an object without fields); `dbError` is the message every
      query throws when the database fails. */
  method Post(db: Database, sessionUserId: Option<string>, body: Option<Json.Members>,
              fxAt: int -> Option<real>, dbError: Option<string>) returns (r: Api.Reply)
    modifies db`transfers
    requires SyncEngine.IdsUnique(db.transfers)
    ensures SyncEngine.IdsUnique(db.transfers)
    ensures !Api.SignedIn(sessionUserId) ==> r == Api.Error(401, Api.UNAUTHORIZED)
    ensures Api.SignedIn(sessionUserId) && body.None? ==> r == Api.Error(500, FAILED)
    ensures Api.SignedIn(sessionUserId) && body.Some? && TransferIdOf(body.value) == [] ==>
      r == Api.Error(400, MISSING_ID)
    ensures r.Success? ==> dbError.None?
    ensures !r.Success? ==> db.transfers == old(db.transfers)
    ensures r.Success? ==>
      exists k | Owns(old(db.transfers), k, TransferIdOf(body.value), sessionUserId.value) ::
        var outcome := Outcome(old(db.transfers)[k], body.value, fxAt);
        outcome.Repriced? && db.transfers == old(db.transfers)[k := outcome.row]
    // a failing query is reported through the shared catch
    ensures Api.SignedIn(sessionUserId) && body.Some? && TransferIdOf(body.value) != [] && dbError.Some? ==>
      r == Api.Caught(dbError.value, FAILED)
    ensures Api.SignedIn(sessionUserId) && body.Some? && dbError.None? && TransferIdOf(body.value) != [] ==>
      (forall k :: !Owns(old(db.transfers), k, TransferIdOf(body.value), sessionUserId.value)) ==>
      r == Api.Error(404, NOT_FOUND)
    // the user's transfer is found: either one of the two 400 replies and nothing written,
    // or the row repriced by hand and `{ ok: true }`
    ensures Api.SignedIn(sessionUserId) && body.Some? && dbError.None? && TransferIdOf(body.value) != [] ==>
      forall k | Owns(old(db.transfers), k, TransferIdOf(body.value), sessionUserId.value) ::
        match Outcome(old(db.transfers)[k], body.value, fxAt)
        case Rejected(reply) => r == reply && db.transfers == old(db.transfers)
        case Repriced(row) => r == Api.Success && db.transfers == old(db.transfers)[k := row]
  {
    if !Api.SignedIn(sessionUserId) {
      return Api.Error(401, Api.UNAUTHORIZED);
    }
    if body.None? {
      return Api.Error(500, FAILED);
    }
    var userId := sessionUserId.value;
    var transferId := TransferIdOf(body.value);
    if transferId == [] {
      return Api.Error(400, MISSING_ID);
    }
    if dbError.Some? {
      return Api.Caught(dbError.value, FAILED);
    }
    if !exists k | k in db.transfers :: Owns(db.transfers, k, transferId, userId) {
      return Api.Error(404, NOT_FOUND);
    }
    var k :| k in db.transfers && Owns(db.transfers, k, transferId, userId);
    var row := db.transfers[k];
    match Outcome(row, body.value, fxAt)
    case Rejected(reply) =>
      r := reply;
    case Repriced(updated) =>
      db.transfers := db.transfers[k := updated];
      r := Api.Success;
  }

  /** A USD price with a rate gives the RUB price at that rate; a RUB price alone gives
      the USD price at the inverse rate; both sides given are kept as they are. */
  lemma DeriveExamples()
    ensures Derive(Some(2.0), None, Some(90.0)) == (Some(2.0), Some(180.0))
    ensures Derive(None, Some(180.0), Some(90.0)) == (Some(2.0), Some(180.0))
    ensures Derive(Some(2.0), Some(100.0), Some(90.0)) == (Some(2.0), Some(100.0))
    ensures Derive(None, Some(180.0), None) == (None, Some(180.0))
  {
  }

  /** A RUB-only price without a rate writes nothing. */
  lemma RubWithoutRateRejected(row: TransferRow, rub: real)
    ensures Reprice(row, None, Some(rub), None) == Rejected(Api.Error(400, NO_USD))
  {
  }
}
