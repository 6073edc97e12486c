/**
 * The price oracle of the sync pipeline (`getPrices` and its helpers): resolves a
 * USD/RUB price for a token at a timestamp from the hour-bucketed snapshot cache,
 * the historical provider, Moralis, DexScreener, a nearby snapshot and the
 * USD/RUB exchange rate, in that order. The remote providers are oracles: total
 * functions giving what each HTTP call yields.
 */
module PriceOracle {
  import opened Wrappers
  import opened Store
  import Prices

  const PRICE_BUCKET_SECONDS: int := 3600
  const PRICE_FALLBACK_MAX_AGE_SEC: int := 72 * 3600
  const NEARBY_SNAPSHOTS: nat := 5

  datatype Currency = Usd | Rub

  /** One `[timestampMs, price]` entry of the historical provider's answer. */
  datatype PricePoint = PricePoint(timestampMs: int, price: real)

  /** What each remote call yields: `history` is the price list of a successful
      market-chart range request (None when the request failed), `moralis` and `dex`
      the parsed USD price of a successful request, `fx` the USD→RUB rate. */
  datatype Providers = Providers(
    history: (TokenKind, string, int, Currency) -> Option<seq<PricePoint>>,
    moralis: (string, int, string) -> Option<real>,
    defaultMoralisKey: Option<string>,
    dex: string -> Option<real>,
    fx: int -> Option<real>)

  datatype PriceOptions = PriceOptions(moralisApiKey: Option<string>, allowLiveFallback: bool)

  datatype PriceResult = PriceResult(priceUsd: Option<real>, priceRub: Option<real>, bucketTs: int)

  /** How the snapshot create at the end of the cascade goes: it succeeds, it collides
      with a snapshot a concurrent resolution inserted first, or it fails otherwise. */
  datatype CreateOutcome = Created | Collided(existing: Snapshot) | CreateFailed

  /** `Math.floor(ts / B) * B`. */
  function BucketOf(ts: int): (b: int)
    ensures b % PRICE_BUCKET_SECONDS == 0
    ensures b <= ts < b + PRICE_BUCKET_SECONDS
  {
    (ts / PRICE_BUCKET_SECONDS) * PRICE_BUCKET_SECONDS
  }

  // ---- pickClosestPrice ----

  function Distance(p: PricePoint, targetMs: int): nat {
    Prices.Abs(p.timestampMs - targetMs)
  }

  /** The index the loop of `pickClosestPrice` ends on, computed over a prefix. */
  function ClosestIndex(points: seq<PricePoint>, targetMs: int): (r: Option<nat>)
    ensures r.None? <==> points == []
    ensures r.Some? ==> r.value < |points|
  {
    if points == [] then None
    else
      var prev := ClosestIndex(points[..|points| - 1], targetMs);
      var last := |points| - 1;
      if prev.None? || Distance(points[last], targetMs) < Distance(points[prev.value], targetMs)
      then Some(last) else prev
  }

  /** `points[i]` is closest to the target, and strictly closer than every earlier entry. */
  ghost predicate IsClosest(points: seq<PricePoint>, targetMs: int, i: int) {
    && 0 <= i < |points|
    && (forall j :: 0 <= j < |points| ==> Distance(points[i], targetMs) <= Distance(points[j], targetMs))
    && (forall j :: 0 <= j < i ==> Distance(points[j], targetMs) > Distance(points[i], targetMs))
  }

  lemma {:induction false} ClosestIndexIsClosest(points: seq<PricePoint>, targetMs: int)
    requires points != []
    ensures IsClosest(points, targetMs, ClosestIndex(points, targetMs).value)
  {
    var init := points[..|points| - 1];
    if init != [] {
      ClosestIndexIsClosest(init, targetMs);
      assert forall j :: 0 <= j < |init| ==> init[j] == points[j];
    }
  }

  /** The price `pickClosestPrice` returns: null for an empty list. */
  function ClosestPrice(points: seq<PricePoint>, targetMs: int): (price: Option<real>)
    ensures price.None? <==> points == []
    ensures price.Some? ==>
      exists i :: IsClosest(points, targetMs, i) && points[i].price == price.value
  {
    if points == [] then None
    else
      ClosestIndexIsClosest(points, targetMs);
      Some(points[ClosestIndex(points, targetMs).value].price)
  }

  /** `pickClosestPrice(prices, targetMs)`: one pass keeping the entry with the strictly
      smallest distance to the target seen so far. */
  method PickClosestPrice(points: seq<PricePoint>, targetMs: int) returns (price: Option<real>)
    ensures price == ClosestPrice(points, targetMs)
  {
    var closest: Option<nat> := None;
    var minDiff := 0;
    for k := 0 to |points|
      invariant closest == ClosestIndex(points[..k], targetMs)
      invariant closest.Some? ==> closest.value < k && minDiff == Distance(points[closest.value], targetMs)
    {
      assert points[..k + 1][..k] == points[..k];
      var diff := Distance(points[k], targetMs);
      if closest.None? || diff < minDiff {
        minDiff := diff;
        closest := Some(k);
      }
    }
    assert points[..|points|] == points;
    price := if closest.Some? then Some(points[closest.value].price) else None;
  }

  // ---- the providers ----

  /** `fetchTokenPrice`: a failed request or an empty list gives null; otherwise the price
      closest to the start of the bucket. */
  function HistoricalPrice(p: Providers, token: TokenKey, bucketTs: int, currency: Currency): Option<real> {
    match p.history(token.kind, token.contract, bucketTs, currency)
    case None => None
    case Some(points) => ClosestPrice(points, bucketTs * 1000)
  }

  method FetchTokenPrice(p: Providers, token: TokenKey, bucketTs: int, currency: Currency)
    returns (price: Option<real>)
    ensures price == HistoricalPrice(p, token, bucketTs, currency)
  {
    match p.history(token.kind, token.contract, bucketTs, currency)
    case None =>
      price := None;
    case Some(points) =>
      if points == [] {
        price := None;
      } else {
        price := PickClosestPrice(points, bucketTs * 1000);
      }
  }

  /** A provider's number counts only when it is positive. */
  function Positive(x: Option<real>): (r: Option<real>)
    ensures r.Some? ==> r.value > 0.0
    ensures r.Some? ==> r == x
    ensures x.Some? && x.value > 0.0 ==> r == x
  {
    if x.Some? && x.value > 0.0 then x else None
  }

  /** `apiKey || DEFAULT_MORALIS_API_KEY`, null when both are empty. */
  function MoralisKey(apiKey: Option<string>, defaultKey: Option<string>): (key: Option<string>)
    ensures key.Some? ==> key.value != []
    ensures apiKey.Some? && apiKey.value != [] ==> key == apiKey
  {
    if apiKey.Some? && apiKey.value != [] then apiKey
    else if defaultKey.Some? && defaultKey.value != [] then defaultKey
    else None
  }

  /** `fetchMoralisPriceUsd`: null without a key. */
  function MoralisPrice(p: Providers, contract: string, timestampSec: int, apiKey: Option<string>): Option<real> {
    match MoralisKey(apiKey, p.defaultMoralisKey)
    case None => None
    case Some(key) => Positive(p.moralis(contract, timestampSec, key))
  }

  /** `fetchDexscreenerPriceUsd`. */
  function DexPrice(p: Providers, contract: string): Option<real> {
    Positive(p.dex(contract))
  }

  /** `fetchUsdRubRate`, with a zero rate counting as no rate (`getPrices` in `src/lib/sync.ts` tests it for truthiness). */
  function FxRate(p: Providers, bucketTs: int): (rate: Option<real>)
    ensures rate.Some? ==> rate.value != 0.0
  {
    var f := p.fx(bucketTs);
    if f.Some? && f.value != 0.0 then f else None
  }

  /** The USD price from the providers: history, then Moralis for ERC20 tokens only,
      then DexScreener only when the live fallback is allowed. */
  function ProviderUsd(p: Providers, token: TokenKey, timestampSec: int, bucketTs: int, opts: PriceOptions): Option<real> {
    var hist := HistoricalPrice(p, token, bucketTs, Usd);
    if hist.None? && token.kind == Erc20 then
      OrElse(MoralisPrice(p, token.contract, timestampSec, opts.moralisApiKey),
             if opts.allowLiveFallback then DexPrice(p, token.contract) else None)
    else hist
  }

  /** Conversions through the USD→RUB rate. */
  function UsdToRub(usd: real, rate: real): real {
    usd * rate
  }

  function RubToUsd(rub: real, rate: real): real
    requires rate != 0.0
  {
    rub / rate
  }

  /** The RUB side for a cached snapshot: the stored one, else the historical RUB price,
      else USD times the exchange rate. */
  function CachedRub(p: Providers, token: TokenKey, bucketTs: int, cached: Snapshot): Option<real> {
    if cached.priceRub.Some? then cached.priceRub
    else
      var hist := HistoricalPrice(p, token, bucketTs, Rub);
      if hist.Some? then hist
      else
        var fx := FxRate(p, bucketTs);
        if fx.Some? then Some(UsdToRub(cached.priceUsd, fx.value)) else None
  }

  /** Derivation of a missing side through the exchange rate: RUB from USD first, then
      USD from RUB. */
  function Derive(usd: Option<real>, rub: Option<real>, fx: Option<real>): (r: (Option<real>, Option<real>))
    requires fx.Some? ==> fx.value != 0.0
    ensures usd.Some? ==> r.0 == usd
    ensures rub.Some? ==> r.1 == rub
    ensures r.0.Some? <==> usd.Some? || (rub.Some? && fx.Some?)
    ensures r.1.Some? <==> rub.Some? || (usd.Some? && fx.Some?)
    ensures usd.Some? != rub.Some? && fx.Some? ==> r.1.value == UsdToRub(r.0.value, fx.value)
  {
    var rub' := if rub.None? && usd.Some? && fx.Some? then Some(UsdToRub(usd.value, fx.value)) else rub;
    var usd' := if usd.None? && rub'.Some? && fx.Some? then Some(RubToUsd(rub'.value, fx.value)) else usd;
    (usd', rub')
  }

  // ---- the nearby-snapshot fallback ----

  /** The buckets for which `token` has a snapshot. */
  function OwnedBuckets(snapshots: map<SnapshotKey, Snapshot>, token: TokenKey): set<int> {
    set k | k in snapshots && k.token == token :: k.bucketTs
  }

  /** `newest` lists the `n` largest elements of `s` in decreasing order
      (`orderBy: { bucketTs: "desc" }, take: n`). */
  ghost predicate NewestFirst(s: set<int>, newest: seq<int>, n: nat) {
    && |newest| == (if n < |s| then n else |s|)
    && (forall i :: 0 <= i < |newest| ==> newest[i] in s)
    && (forall i, j :: 0 <= i < j < |newest| ==> newest[i] > newest[j])
    && (forall x, i | x in s && x !in newest && 0 <= i < |newest| :: newest[i] > x)
  }

  /** What the fallback may return: both null when none of the `NEARBY_SNAPSHOTS` newest
      snapshots of the token lies within the maximum age, else the prices of the nearest. */
  ghost predicate NearbyOutcome(snapshots: map<SnapshotKey, Snapshot>, token: TokenKey, bucketTs: int, r: PriceResult) {
    && r.bucketTs == bucketTs
    && exists newest :: NewestFirst(OwnedBuckets(snapshots, token), newest, NEARBY_SNAPSHOTS)
                        && NearbyFrom(snapshots, token, bucketTs, newest, r)
  }

  ghost predicate NearbyFrom(snapshots: map<SnapshotKey, Snapshot>, token: TokenKey, bucketTs: int,
                             newest: seq<int>, r: PriceResult) {
    if forall j :: 0 <= j < |newest| ==> !Prices.Within(newest[j], bucketTs, PRICE_FALLBACK_MAX_AGE_SEC) then
      r.priceUsd.None? && r.priceRub.None?
    else
      exists i :: Prices.IsNearest(bucketTs, newest, PRICE_FALLBACK_MAX_AGE_SEC, i)
        && SnapshotKey(token, newest[i]) in snapshots
        && r.priceUsd == Some(snapshots[SnapshotKey(token, newest[i])].priceUsd)
        && r.priceRub == snapshots[SnapshotKey(token, newest[i])].priceRub
  }

  method NearbySnapshot(db: Database, token: TokenKey, bucketTs: int) returns (r: PriceResult)
    ensures NearbyOutcome(db.snapshots, token, bucketTs, r)
  {
    var owned := OwnedBuckets(db.snapshots, token);
    var newest := TakeOrdered(owned, (a: int, b: int) => a > b, NEARBY_SNAPSHOTS);
    assert NewestFirst(owned, newest, NEARBY_SNAPSHOTS);
    var bucket := Prices.PickNearbyBucket(bucketTs, newest, PRICE_FALLBACK_MAX_AGE_SEC);
    if bucket.Some? {
      var key := SnapshotKey(token, bucket.value);
      assert bucket.value in owned;
      var found := db.snapshots[key];
      r := PriceResult(Some(found.priceUsd), found.priceRub, bucketTs);
    } else {
      r := PriceResult(None, None, bucketTs);
    }
  }

  // ---- getPrices ----

  /** What `getPrices` may do to the snapshot table: add snapshots and fill a missing RUB
      side; a stored USD price and a stored RUB price never change. */
  ghost predicate SnapshotsKept(before: map<SnapshotKey, Snapshot>, after: map<SnapshotKey, Snapshot>) {
    forall k | k in before ::
      k in after && after[k].priceUsd == before[k].priceUsd
      && (before[k].priceRub.Some? ==> after[k] == before[k])
  }

  lemma SnapshotsKeptTransitive(a: map<SnapshotKey, Snapshot>, b: map<SnapshotKey, Snapshot>, c: map<SnapshotKey, Snapshot>)
    requires SnapshotsKept(a, b) && SnapshotsKept(b, c)
    ensures SnapshotsKept(a, c)
  {
  }

  /** What `getPrices(token, timestampSec, opts)` may return and do to the snapshot table,
      which goes from `before` to `after`. `race` says how the final snapshot create goes; the
      rest of the cascade is determined by the snapshot table and the providers. */
  ghost predicate PricesResolved(before: map<SnapshotKey, Snapshot>, after: map<SnapshotKey, Snapshot>,
                                 p: Providers, token: TokenKey, timestampSec: int, opts: PriceOptions,
                                 race: CreateOutcome, r: PriceResult) {
    var b := BucketOf(timestampSec);
    var key := SnapshotKey(token, b);
    && r.bucketTs == b
    && SnapshotsKept(before, after)
    // a cached snapshot keeps its USD price; only a missing RUB side is filled in
    && (key in before ==>
          var cached := before[key];
          var rub := CachedRub(p, token, b, cached);
          && r.priceUsd == Some(cached.priceUsd) && r.priceRub == rub
          && after == if cached.priceRub.None? && rub.Some?
                      then before[key := Snapshot(cached.priceUsd, rub)]
                      else before)
    // no provider knows a price: a nearby snapshot or nothing, and nothing is written
    && (key !in before
        && ProviderUsd(p, token, timestampSec, b, opts).None? && HistoricalPrice(p, token, b, Rub).None? ==>
          after == before && NearbyOutcome(before, token, b, r))
    // some provider knows a price: derive the other side, persist only with a USD price
    && (var usd := ProviderUsd(p, token, timestampSec, b, opts);
        var rub := HistoricalPrice(p, token, b, Rub);
        var d := Derive(usd, rub, FxRate(p, b));
        key !in before && (usd.Some? || rub.Some?) ==>
          if d.0.None? then
            r.priceUsd.None? && r.priceRub.None? && after == before
          else match race
            case Created =>
              r.priceUsd == d.0 && r.priceRub == d.1 && after == before[key := Snapshot(d.0.value, d.1)]
            case Collided(existing) =>
              r.priceUsd == Some(existing.priceUsd) && r.priceRub == existing.priceRub
              && after == before[key := existing]
            case CreateFailed =>
              r.priceUsd == d.0 && r.priceRub == d.1 && after == before)
  }

  /** One `getPrices` call as it happened: its arguments, the snapshot table before and after
      it, and its result. */
  datatype Quote = Quote(token: TokenKey, timestampSec: int, opts: PriceOptions,
                         before: map<SnapshotKey, Snapshot>, after: map<SnapshotKey, Snapshot>,
                         result: PriceResult)

  /** `q` is an outcome of `getPrices` whose snapshot create, if any, succeeds. */
  ghost predicate Quoted(p: Providers, q: Quote) {
    PricesResolved(q.before, q.after, p, q.token, q.timestampSec, q.opts, Created, q.result)
  }

  /** `getPrices(token, timestampSec, options)`. */
  method GetPrices(db: Database, p: Providers, token: TokenKey, timestampSec: int,
                   opts: PriceOptions, race: CreateOutcome) returns (r: PriceResult)
    modifies db`snapshots
    ensures r.bucketTs == BucketOf(timestampSec)
    ensures SnapshotsKept(old(db.snapshots), db.snapshots)
    ensures PricesResolved(old(db.snapshots), db.snapshots, p, token, timestampSec, opts, race, r)
  {
    var bucketTs := BucketOf(timestampSec);
    var key := SnapshotKey(token, bucketTs);
    if key in db.snapshots {
      var cached := db.snapshots[key];
      if cached.priceRub.None? {
        var priceRub := FetchTokenPrice(p, token, bucketTs, Rub);
        if priceRub.None? {
          var fxRate := FxRate(p, bucketTs);
          if fxRate.Some? {
            priceRub := Some(UsdToRub(cached.priceUsd, fxRate.value));
          }
        }
        if priceRub.Some? {
          db.snapshots := db.snapshots[key := Snapshot(cached.priceUsd, priceRub)];
          return PriceResult(Some(cached.priceUsd), priceRub, bucketTs);
        }
      }
      return PriceResult(Some(cached.priceUsd), cached.priceRub, bucketTs);
    }

    var priceUsdRaw := FetchTokenPrice(p, token, bucketTs, Usd);
    var priceRubRaw := FetchTokenPrice(p, token, bucketTs, Rub);
    if priceUsdRaw.None? && token.kind == Erc20 {
      priceUsdRaw := MoralisPrice(p, token.contract, timestampSec, opts.moralisApiKey);
      if priceUsdRaw.None? && opts.allowLiveFallback {
        priceUsdRaw := DexPrice(p, token.contract);
      }
    }

    var priceUsd, priceRub := priceUsdRaw, priceRubRaw;
    if priceUsd.None? && priceRub.None? {
      r := NearbySnapshot(db, token, bucketTs);
      return;
    }
    if priceRub.None? && priceUsd.Some? {
      var fxRate := FxRate(p, bucketTs);
      if fxRate.Some? {
        priceRub := Some(UsdToRub(priceUsd.value, fxRate.value));
      }
    }
    if priceUsd.None? && priceRub.Some? {
      var fxRate := FxRate(p, bucketTs);
      if fxRate.Some? {
        priceUsd := Some(RubToUsd(priceRub.value, fxRate.value));
      }
    }
    if priceUsd.None? {
      return PriceResult(None, None, bucketTs);
    }

    r := PriceResult(priceUsd, priceRub, bucketTs);
    match race {
      case Created =>
        db.snapshots := db.snapshots[key := Snapshot(priceUsd.value, priceRub)];
      case Collided(existing) =>
        db.snapshots := db.snapshots[key := existing];
        r := PriceResult(Some(existing.priceUsd), existing.priceRub, bucketTs);
      case CreateFailed =>
    }
  }

  // ---- properties of the cascade ----

  /** Without the live fallback, DexScreener is never consulted: changing its answers
      changes nothing. */
  lemma NoDexWithoutLiveFallback(p: Providers, dex: string -> Option<real>, token: TokenKey,
                                 timestampSec: int, bucketTs: int, moralisApiKey: Option<string>)
    ensures var opts := PriceOptions(moralisApiKey, false);
      ProviderUsd(p.(dex := dex), token, timestampSec, bucketTs, opts)
      == ProviderUsd(p, token, timestampSec, bucketTs, opts)
  {
  }

  /** Moralis is consulted only for ERC20 tokens whose historical USD price is missing,
      and DexScreener only after Moralis found nothing. */
  lemma ProviderUsdOrder(p: Providers, token: TokenKey, timestampSec: int, bucketTs: int, opts: PriceOptions)
    ensures var hist := HistoricalPrice(p, token, bucketTs, Usd);
      var usd := ProviderUsd(p, token, timestampSec, bucketTs, opts);
      && (hist.Some? || token.kind == Eth ==> usd == hist)
      && (var moralis := MoralisPrice(p, token.contract, timestampSec, opts.moralisApiKey);
          hist.None? && token.kind == Erc20 && moralis.Some? ==> usd == moralis)
      && (var moralis := MoralisPrice(p, token.contract, timestampSec, opts.moralisApiKey);
          usd.Some? && usd != hist && usd != moralis ==> opts.allowLiveFallback && usd == DexPrice(p, token.contract))
  {
  }
}
