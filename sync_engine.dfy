/**
 * The wallet sync (`syncWallet`): reads the wallet's native and token transfers
 * from the explorer, selects the ones touching the wallet, prices them and
 * creates or re-prices their rows under the natural key (txHash, token, logIndex).
 */
module SyncEngine {
  import opened Wrappers
  import opened Store
  import Text
  import Explorer
  import PriceOracle
  import JsNumber

  const ETH_SYMBOL: string := "ETH"
  const ETH_NAME: string := "Ethereum"
  const ETH_CONTRACT: string := "native"
  const ETH_DECIMALS: nat := 18
  const LIVE_FALLBACK_MAX_AGE_SEC: int := 60 * 60
  const SOURCE_ETHERSCAN: string := "etherscan"

  /** A `txlist` entry; `timeStamp` is already a number. */
  datatype NativeTx = NativeTx(hash: string, timeStamp: int, value: string, from: string, to: string, isError: string)

  /** A `tokentx` entry; an empty `tokenDecimal` or `logIndex` is `None`. */
  datatype TokenTx = TokenTx(
    hash: string, timeStamp: int, value: string,
    tokenName: string, tokenSymbol: string, tokenDecimal: Option<nat>,
    contractAddress: string, from: string, to: string, logIndex: Option<nat>)

  datatype SyncSummary = SyncSummary(created: nat, ethCount: nat, tokenCount: nat)

  /** `normalizeAddress`: addresses compare in lower case. */
  function NormalizeAddress(address: string): (r: string)
    ensures |r| == |address|
    ensures forall i :: 0 <= i < |r| ==> !Text.IsAsciiUpper(r[i])
  {
    Text.ToLower(address)
  }

  /** Normalising twice is normalising once. */
  lemma NormalizeAddressIdempotent(address: string)
    ensures NormalizeAddress(NormalizeAddress(address)) == NormalizeAddress(address)
  {
    var r := NormalizeAddress(address);
    assert Text.ToLower(r) == r;
  }

  /** `toDecimalAmount(raw, decimals)`: the raw integer amount scaled down by 10^decimals.
      The decimal constructor also takes a fraction ("1.5"), a sign ("-5"), an exponent
      ("1e3") and hexadecimal ("0x1f"); this model reads plain digit strings only and lets
      every other string be rejected. */
  function ToDecimalAmount(raw: string, decimals: nat): (amount: Option<real>)
    ensures amount.Some? <==> raw != [] && Text.AllDigits(raw)
    ensures amount.Some? ==> amount.value >= 0.0
  {
    if raw != [] && Text.AllDigits(raw) then Some(Text.DigitsValue(raw) as real / JsNumber.Pow10(decimals))
    else None
  }

  /** Scaling back up by 10^decimals gives the integer the digits spell. */
  lemma DecimalAmountScales(raw: string, decimals: nat)
    requires raw != [] && Text.AllDigits(raw)
    ensures ToDecimalAmount(raw, decimals).value * JsNumber.Pow10(decimals) == Text.DigitsValue(raw) as real
  {
    var scale := JsNumber.Pow10(decimals);
    assert (Text.DigitsValue(raw) as real / scale) * scale == Text.DigitsValue(raw) as real;
  }

  function DecimalError(raw: string): string {
    "[DecimalError] Invalid argument: " + raw
  }

  predicate Touches(from: string, to: string, address: string) {
    NormalizeAddress(from) == address || NormalizeAddress(to) == address
  }

  /** OUT exactly when the wallet is the sender. */
  function DirectionOf(from: string, address: string): (d: Direction)
    ensures d == Out <==> NormalizeAddress(from) == address
  {
    if NormalizeAddress(from) == address then Out else In
  }

  /** The live fallback is allowed only for transfers at most an hour old (and not in the future). */
  function AllowLiveFallback(nowSec: int, timestampSec: int): (allow: bool)
    ensures allow <==> timestampSec <= nowSec <= timestampSec + LIVE_FALLBACK_MAX_AGE_SEC
  {
    var ageSec := nowSec - timestampSec;
    ageSec >= 0 && ageSec <= LIVE_FALLBACK_MAX_AGE_SEC
  }

  /** A native transfer is kept when it did not fail, touches the wallet, and moves value. */
  predicate NativeSelected(tx: NativeTx, address: string) {
    tx.isError == "0" && Touches(tx.from, tx.to, address) && tx.value != "0"
  }

  /** A token transfer is kept when it touches the wallet. */
  predicate TokenSelected(tx: TokenTx, address: string) {
    Touches(tx.from, tx.to, address)
  }

  function EthTokenKey(userId: string): TokenKey {
    TokenKey(userId, Eth, ETH_CONTRACT)
  }

  function Erc20TokenKey(userId: string, tx: TokenTx): TokenKey {
    TokenKey(userId, Erc20, NormalizeAddress(tx.contractAddress))
  }

  function NativeKey(userId: string, tx: NativeTx): TransferKey {
    TransferKey(tx.hash, EthTokenKey(userId), 0)
  }

  function TokenTransferKey(userId: string, tx: TokenTx): TransferKey {
    TransferKey(tx.hash, Erc20TokenKey(userId, tx), tx.logIndex.GetOr(0))
  }

  /** What one selected transaction asks the sync to write: the row's natural key, time,
      direction and raw amount, and the token row to create when the token is new. */
  datatype Draft = Draft(key: TransferKey, timestampSec: int, direction: Direction,
                         raw: string, decimals: nat, newToken: Option<Token>)

  /** The draft of a native transaction, or None when the loop skips it. */
  function NativeDraft(userId: string, address: string, tx: NativeTx): (d: Option<Draft>)
    ensures d.Some? <==> tx.isError == "0" && Touches(tx.from, tx.to, address) && tx.value != "0"
    ensures d.Some? ==> d.value.key == TransferKey(tx.hash, EthTokenKey(userId), 0)
    ensures d.Some? ==> d.value.decimals == ETH_DECIMALS && d.value.raw == tx.value && d.value.newToken.None?
    ensures d.Some? ==> (d.value.direction == Out <==> NormalizeAddress(tx.from) == address)
    ensures d.Some? && d.value.direction == In ==> NormalizeAddress(tx.to) == address
  {
    if NativeSelected(tx, address) then
      Some(Draft(NativeKey(userId, tx), tx.timeStamp, DirectionOf(tx.from, address), tx.value, ETH_DECIMALS, None))
    else None
  }

  /** The draft of a token transaction: `tokenDecimal` and `logIndex` default to 0, and the
      token is keyed by its lower-cased contract address. */
  function TokenDraft(userId: string, address: string, tx: TokenTx): (d: Option<Draft>)
    ensures d.Some? <==> Touches(tx.from, tx.to, address)
    ensures d.Some? ==> d.value.key.token == TokenKey(userId, Erc20, NormalizeAddress(tx.contractAddress))
    ensures d.Some? ==> d.value.key.txHash == tx.hash
    ensures d.Some? ==> d.value.key.logIndex == (if tx.logIndex.Some? then tx.logIndex.value else 0)
    ensures d.Some? ==> d.value.decimals == (if tx.tokenDecimal.Some? then tx.tokenDecimal.value else 0)
    ensures d.Some? ==> d.value.raw == tx.value
    ensures d.Some? ==> d.value.newToken == Some(NewTokenRecord(tx.tokenSymbol, tx.tokenName, d.value.decimals))
    ensures d.Some? ==> (d.value.direction == Out <==> NormalizeAddress(tx.from) == address)
    ensures d.Some? && d.value.direction == In ==> NormalizeAddress(tx.to) == address
  {
    if TokenSelected(tx, address) then
      var decimals := tx.tokenDecimal.GetOr(0);
      Some(Draft(TokenTransferKey(userId, tx), tx.timeStamp, DirectionOf(tx.from, address), tx.value, decimals,
                 Some(NewTokenRecord(tx.tokenSymbol, tx.tokenName, decimals))))
    else None
  }

  /** The drafts of the native transactions the loop does not skip, in feed order. */
  function NativeDrafts(userId: string, address: string, txs: seq<NativeTx>): (ds: seq<Draft>)
    ensures |ds| <= |txs|
    ensures forall d | d in ds :: exists tx | tx in txs :: NativeDraft(userId, address, tx) == Some(d)
    ensures forall tx | tx in txs && NativeDraft(userId, address, tx).Some? :: NativeDraft(userId, address, tx).value in ds
  {
    if txs == [] then []
    else
      var rest := NativeDrafts(userId, address, txs[1..]);
      assert forall tx | tx in txs[1..] :: tx in txs;
      match NativeDraft(userId, address, txs[0])
      case Some(d) => [d] + rest
      case None => rest
  }

  /** The drafts of the token transactions the loop does not skip, in feed order. */
  function TokenDrafts(userId: string, address: string, txs: seq<TokenTx>): (ds: seq<Draft>)
    ensures |ds| <= |txs|
    ensures forall d | d in ds :: exists tx | tx in txs :: TokenDraft(userId, address, tx) == Some(d)
    ensures forall tx | tx in txs && TokenDraft(userId, address, tx).Some? :: TokenDraft(userId, address, tx).value in ds
  {
    if txs == [] then []
    else
      var rest := TokenDrafts(userId, address, txs[1..]);
      assert forall tx | tx in txs[1..] :: tx in txs;
      match TokenDraft(userId, address, txs[0])
      case Some(d) => [d] + rest
      case None => rest
  }

  /** The natural keys the drafts write. */
  function DraftKeys(drafts: seq<Draft>): set<TransferKey> {
    set d | d in drafts :: d.key
  }

  lemma DraftKeysStep(drafts: seq<Draft>, i: nat)
    requires i < |drafts|
    ensures DraftKeys(drafts[..i + 1]) == DraftKeys(drafts[..i]) + {drafts[i].key}
  {
    assert drafts[..i + 1] == drafts[..i] + [drafts[i]];
  }

  /** The token row `getOrCreateToken` creates: symbol defaults to "UNKNOWN", name to the
      symbol and then to "Unknown Token". */
  function NewTokenRecord(symbol: string, name: string, decimals: nat): (t: Token)
    ensures t.symbol != [] && t.name != [] && t.decimals == decimals
    ensures symbol != [] ==> t.symbol == symbol
    ensures name != [] ==> t.name == name
    ensures name == [] && symbol != [] ==> t.name == symbol
  {
    Token(if symbol != [] then symbol else "UNKNOWN",
          if name != [] then name else if symbol != [] then symbol else "Unknown Token",
          decimals)
  }

  // ---- the table invariants ----

  /** The row id is the table's primary key. */
  predicate IdsUnique(t: map<TransferKey, TransferRow>) {
    forall a, b {:trigger t[a].id, t[b].id} | a in t && b in t && a != b :: t[a].id != t[b].id
  }

  /** What a sync may do to existing rows: re-price them, keeping value = price × amount,
      and never touch a manually priced row or any other column. */
  ghost predicate TransfersEvolve(before: map<TransferKey, TransferRow>, after: map<TransferKey, TransferRow>) {
    && (forall k | k in before ::
          k in after && SameExceptPrices(before[k], after[k])
          && (before[k].priceManual ==> after[k] == before[k]))
    && (forall k | k in after && (k !in before || after[k] != before[k]) :: ValuesConsistent(after[k]))
  }

  lemma TransfersEvolveTransitive(a: map<TransferKey, TransferRow>, b: map<TransferKey, TransferRow>,
                                  c: map<TransferKey, TransferRow>)
    requires TransfersEvolve(a, b) && TransfersEvolve(b, c)
    ensures TransfersEvolve(a, c)
  {
    forall k | k in a
      ensures k in c && SameExceptPrices(a[k], c[k])
    {
      assert a[k].(priceUsd := c[k].priceUsd, valueUsd := c[k].valueUsd,
                   priceRub := c[k].priceRub, valueRub := c[k].valueRub)
          == b[k].(priceUsd := c[k].priceUsd, valueUsd := c[k].valueUsd,
                   priceRub := c[k].priceRub, valueRub := c[k].valueRub);
    }
  }

  /** Rows the sync created belong to the user and wallet, are not manual, and come from the explorer. */
  ghost predicate NewRowsOwned(before: map<TransferKey, TransferRow>, after: map<TransferKey, TransferRow>,
                               userId: string, walletId: string) {
    forall k | k in after && k !in before ::
      after[k].userId == userId && after[k].walletId == walletId
      && !after[k].priceManual && after[k].source == SOURCE_ETHERSCAN
  }

  // ---- one transfer ----

  /** `getPrices(token, timestampSec, options)` as the sync loops call it, with the snapshot
      create taken to succeed: a concurrent writer of the same snapshot is not modelled. */
  method QuotePrices(db: Database, p: PriceOracle.Providers, token: TokenKey, timestampSec: int,
                     opts: PriceOracle.PriceOptions) returns (prices: PriceOracle.PriceResult)
    modifies db`snapshots
    ensures prices.bucketTs == PriceOracle.BucketOf(timestampSec)
    ensures PriceOracle.SnapshotsKept(old(db.snapshots), db.snapshots)
    ensures PriceOracle.PricesResolved(old(db.snapshots), db.snapshots, p, token, timestampSec, opts,
                                       PriceOracle.Created, prices)
  {
    prices := PriceOracle.GetPrices(db, p, token, timestampSec, opts, PriceOracle.Created);
  }

  /** The row's price columns hold the quoted prices. */
  predicate PricedAs(row: TransferRow, prices: PriceOracle.PriceResult) {
    row.priceUsd == prices.priceUsd && row.priceRub == prices.priceRub
  }

  /** Creates the row of one selected transfer with its prices, or, when its key exists,
      updates the price columns of a non-manual row (the create fails on the unique key). */
  method RecordTransfer(db: Database, userId: string, walletId: string,
                        key: TransferKey, timestampSec: int, direction: Direction, amount: real,
                        prices: PriceOracle.PriceResult) returns (isNew: bool)
    modifies db`transfers
    requires IdsUnique(db.transfers)
    ensures IdsUnique(db.transfers)
    ensures isNew <==> key !in old(db.transfers)
    ensures db.transfers.Keys == old(db.transfers).Keys + {key}
    ensures forall k | k in old(db.transfers) && k != key :: db.transfers[k] == old(db.transfers)[k]
    ensures TransfersEvolve(old(db.transfers), db.transfers)
    ensures NewRowsOwned(old(db.transfers), db.transfers, userId, walletId)
    ensures isNew ==>
      && db.transfers[key].blockTimeMs == timestampSec * 1000
      && db.transfers[key].direction == direction && db.transfers[key].amount == amount
    // a new or non-manual row takes the prices
    ensures isNew || !old(db.transfers)[key].priceManual ==> PricedAs(db.transfers[key], prices)
  {
    if key !in db.transfers {
      var ids := set k | k in db.transfers :: db.transfers[k].id;
      var id := FreshId(ids);
      var blank := TransferRow(id, userId, walletId, timestampSec * 1000, direction, amount,
                               None, None, None, None, false, SOURCE_ETHERSCAN);
      var row := WithPrices(blank, prices.priceUsd, prices.priceRub);
      InsertRow(db.transfers, key, row, ids, userId, walletId);
      db.transfers := db.transfers[key := row];
      isNew := true;
    } else {
      var row := db.transfers[key];
      if !row.priceManual {
        RepriceRow(db.transfers, key, prices.priceUsd, prices.priceRub, userId, walletId);
        db.transfers := db.transfers[key := WithPrices(row, prices.priceUsd, prices.priceRub)];
      } else {
        UnchangedRows(db.transfers, userId, walletId);
      }
      isNew := false;
    }
  }

  lemma InsertRow(t: map<TransferKey, TransferRow>, key: TransferKey, row: TransferRow, ids: set<string>,
                  userId: string, walletId: string)
    requires key !in t && IdsUnique(t) && ids == (set k | k in t :: t[k].id) && row.id !in ids
    requires ValuesConsistent(row)
    requires row.userId == userId && row.walletId == walletId && !row.priceManual && row.source == SOURCE_ETHERSCAN
    ensures IdsUnique(t[key := row])
    ensures TransfersEvolve(t, t[key := row])
    ensures NewRowsOwned(t, t[key := row], userId, walletId)
  {
    forall k | k in t
      ensures t[k].id != row.id
    {
      assert t[k].id in ids;
    }
  }

  lemma RepriceRow(t: map<TransferKey, TransferRow>, key: TransferKey, priceUsd: Option<real>, priceRub: Option<real>,
                   userId: string, walletId: string)
    requires key in t && !t[key].priceManual && IdsUnique(t)
    ensures var t' := t[key := WithPrices(t[key], priceUsd, priceRub)];
      IdsUnique(t') && TransfersEvolve(t, t') && NewRowsOwned(t, t', userId, walletId)
  {
  }

  lemma UnchangedRows(t: map<TransferKey, TransferRow>, userId: string, walletId: string)
    ensures TransfersEvolve(t, t) && NewRowsOwned(t, t, userId, walletId)
  {
  }

  /** The price update of a colliding key as `updateMany` writes it (`src/lib/sync.ts`, the
      native and the token loop): the values are the new prices times the amount of the
      transaction being recorded, while the row keeps the amount it was created with. */
  function CollisionUpdateAsWritten(row: TransferRow, prices: PriceOracle.PriceResult, amount: real): (r: TransferRow)
    ensures SameExceptPrices(row, r) && PricedAs(r, prices)
    ensures r.valueUsd == ValueOf(prices.priceUsd, amount) && r.valueRub == ValueOf(prices.priceRub, amount)
    // a second transfer under the key with another amount leaves the value off the stored amount
    ensures prices.priceUsd.Some? && prices.priceUsd.value != 0.0 && amount != row.amount ==> !ValuesConsistent(r)
  {
    row.(priceUsd := prices.priceUsd, valueUsd := ValueOf(prices.priceUsd, amount),
         priceRub := prices.priceRub, valueRub := ValueOf(prices.priceRub, amount))
  }

  /** Two token transfers of one transaction and contract without a `logIndex` or decimals,
      for 1 and then 2 tokens, share a key. With a USD price of 10, the update as written
      stores a USD value of 20 beside the amount 1 of the row the first one created, while
      `RecordTransfer` stores 10. */
  lemma CollidingTokenTransfers(userId: string, address: string, tx: TokenTx, row: TransferRow,
                                prices: PriceOracle.PriceResult)
    requires Touches(tx.from, tx.to, address) && tx.logIndex.None? && tx.tokenDecimal.None? && tx.value == "1"
    requires RowFromDraft(row, TokenDraft(userId, address, tx).value)
    requires prices.priceUsd == Some(10.0)
    ensures TokenDraft(userId, address, tx.(value := "2")).value.key == TokenDraft(userId, address, tx).value.key
    ensures row.amount == 1.0 && ToDecimalAmount("2", 0) == Some(2.0)
    ensures CollisionUpdateAsWritten(row, prices, 2.0).valueUsd == Some(20.0)
    ensures !ValuesConsistent(CollisionUpdateAsWritten(row, prices, 2.0))
    ensures WithPrices(row, prices.priceUsd, prices.priceRub).valueUsd == Some(10.0)
  {
    assert Text.DigitsValue("1") == 1 by { assert "1"[..0] == []; }
    assert Text.DigitsValue("2") == 2 by { assert "2"[..0] == []; }
  }

  // ---- the transaction loops ----

  /** The token table only grows: existing tokens are never changed. */
  ghost predicate TokensKept(before: map<TokenKey, Token>, after: map<TokenKey, Token>) {
    forall k | k in before :: k in after && after[k] == before[k]
  }

  /** Every transfer row refers to an existing token. */
  ghost predicate TokensReferenced(transfers: map<TransferKey, TransferRow>, tokens: map<TokenKey, Token>) {
    forall k | k in transfers :: k.token in tokens
  }

  /** A created row carries its draft's time, direction and scaled amount. */
  ghost predicate RowFromDraft(row: TransferRow, d: Draft) {
    && row.blockTimeMs == d.timestampSec * 1000
    && row.direction == d.direction
    && Some(row.amount) == ToDecimalAmount(d.raw, d.decimals)
  }

  /** The loop invariant of the transaction loops after `i` drafts. */
  ghost predicate Progress(start: map<TransferKey, TransferRow>, t: map<TransferKey, TransferRow>,
                           snapsStart: map<SnapshotKey, Snapshot>, snaps: map<SnapshotKey, Snapshot>,
                           tokensStart: map<TokenKey, Token>, tokens: map<TokenKey, Token>,
                           userId: string, walletId: string, drafts: seq<Draft>,
                           i: nat, drafted: set<TransferKey>, created: nat)
    requires i <= |drafts|
  {
    && TablesEvolve(start, t, snapsStart, snaps, tokensStart, tokens)
    && NewRowsOwned(start, t, userId, walletId)
    && drafted == DraftKeys(drafts[..i])
    && t.Keys == start.Keys + drafted
    && RowsKeptOutside(start, t, drafted)
    && AmountsParse(drafts, i)
    && created == |t.Keys - start.Keys|
  }

  /** Every row whose key was not drafted is as it was at the start. */
  ghost predicate RowsKeptOutside(start: map<TransferKey, TransferRow>, t: map<TransferKey, TransferRow>,
                                  drafted: set<TransferKey>) {
    forall k | k in start && k !in drafted :: k in t && t[k] == start[k]
  }

  /** Every draft before `i` carries an amount the decimal constructor accepts. */
  predicate AmountsParse(drafts: seq<Draft>, i: nat)
    requires i <= |drafts|
  {
    forall k | 0 <= k < i :: ToDecimalAmount(drafts[k].raw, drafts[k].decimals).Some?
  }

  /** The loops threw at draft `j`, the first with a malformed amount: the table gained exactly
      the keys of the drafts before it, and no row of another key was touched. */
  ghost predicate FailedAt(start: map<TransferKey, TransferRow>, t: map<TransferKey, TransferRow>,
                           drafts: seq<Draft>, j: nat, error: string)
    requires j < |drafts|
  {
    && BadAmountAt(drafts, j, error)
    && AmountsParse(drafts, j)
    && t.Keys == start.Keys + DraftKeys(drafts[..j])
    && RowsKeptOutside(start, t, DraftKeys(drafts[..j]))
  }

  /** Creates the token row unless the token exists (`upsert` with an empty update). */
  method UpsertToken(db: Database, key: TokenKey, record: Token)
    modifies db`tokens
    ensures db.tokens == if key in old(db.tokens) then old(db.tokens) else old(db.tokens)[key := record]
  {
    if key !in db.tokens {
      db.tokens := db.tokens[key := record];
    }
  }

  /** One recorded draft: the facts about the transfer table a step of the loop leaves behind. */
  ghost predicate DraftRecorded(before: map<TransferKey, TransferRow>, after: map<TransferKey, TransferRow>,
                                d: Draft, isNew: bool, userId: string, walletId: string) {
    && IdsUnique(after) && (isNew <==> d.key !in before)
    && after.Keys == before.Keys + {d.key}
    && TransfersEvolve(before, after) && NewRowsOwned(before, after, userId, walletId)
    && (forall k | k in before && k != d.key :: after[k] == before[k])
    && (isNew ==> RowFromDraft(after[d.key], d))
  }

  /** One iteration of a transaction loop of `syncWallet`: scale the amount (the decimal
      constructor throws on a malformed one), create the token when the draft names a new
      one, then price and record the transfer. `quote` is the `getPrices` call it made. */
  method RecordDraft(db: Database, p: PriceOracle.Providers, userId: string, walletId: string,
                     d: Draft, nowSec: int, moralisApiKey: Option<string>)
    returns (r: Result<bool, string>, ghost quote: PriceOracle.Quote)
    modifies db`transfers, db`snapshots, db`tokens
    requires IdsUnique(db.transfers) && TokensReferenced(db.transfers, db.tokens)
    requires d.newToken.None? ==> d.key.token in db.tokens
    ensures r.Err? <==> ToDecimalAmount(d.raw, d.decimals).None?
    ensures r.Err? ==> r.error == DecimalError(d.raw) && db.transfers == old(db.transfers) && db.tokens == old(db.tokens)
    ensures r.Ok? ==> DraftRecorded(old(db.transfers), db.transfers, d, r.value, userId, walletId)
    ensures TokensKept(old(db.tokens), db.tokens) && TokensReferenced(db.transfers, db.tokens)
    ensures r.Ok? ==> d.key.token in db.tokens
    ensures r.Ok? && d.newToken.Some? && d.key.token !in old(db.tokens) ==> db.tokens[d.key.token] == d.newToken.value
    ensures PriceOracle.SnapshotsKept(old(db.snapshots), db.snapshots)
    // the transfer is priced for its token and time, the live fallback allowed only for a
    // transfer at most an hour old, and a new or non-manual row takes those prices
    ensures r.Ok? ==> DraftPriced(old(db.transfers), db.transfers, d, r.value, quote, p, nowSec, moralisApiKey)
    ensures r.Ok? ==> quote.before == old(db.snapshots) && quote.after == db.snapshots
  {
    quote := PriceOracle.Quote(d.key.token, d.timestampSec, PriceOracle.PriceOptions(moralisApiKey, false),
                               db.snapshots, db.snapshots, PriceOracle.PriceResult(None, None, 0));
    var amount := ToDecimalAmount(d.raw, d.decimals);
    if amount.None? {
      return Err(DecimalError(d.raw)), quote;
    }
    if d.newToken.Some? {
      UpsertToken(db, d.key.token, d.newToken.value);
    }
    var opts := PriceOracle.PriceOptions(moralisApiKey, AllowLiveFallback(nowSec, d.timestampSec));
    ghost var snaps := db.snapshots;
    var prices := QuotePrices(db, p, d.key.token, d.timestampSec, opts);
    quote := PriceOracle.Quote(d.key.token, d.timestampSec, opts, snaps, db.snapshots, prices);
    var isNew := RecordTransfer(db, userId, walletId, d.key, d.timestampSec, d.direction, amount.value, prices);
    return Ok(isNew), quote;
  }

  /** `quote` is the `getPrices` call of the sync for draft `d`: its token and time, the
      user's Moralis key, and the live fallback allowed exactly for a transfer at most an
      hour old at `nowSec`. */
  ghost predicate DraftQuoted(p: PriceOracle.Providers, d: Draft, quote: PriceOracle.Quote, nowSec: int,
                              moralisApiKey: Option<string>) {
    && quote.token == d.key.token && quote.timestampSec == d.timestampSec
    && quote.opts == PriceOracle.PriceOptions(moralisApiKey, AllowLiveFallback(nowSec, d.timestampSec))
    && PriceOracle.Quoted(p, quote)
  }

  /** Draft `d` was priced by `quote`, and its row took the prices unless it was a manual row. */
  ghost predicate DraftPriced(before: map<TransferKey, TransferRow>, after: map<TransferKey, TransferRow>, d: Draft,
                              isNew: bool, quote: PriceOracle.Quote, p: PriceOracle.Providers, nowSec: int,
                              moralisApiKey: Option<string>) {
    && DraftQuoted(p, d, quote, nowSec, moralisApiKey)
    && (isNew || (d.key in before && !before[d.key].priceManual) ==>
          d.key in after && PricedAs(after[d.key], quote.result))
  }

  /** Every row the sync created or changed holds the prices of the `getPrices` call made for
      one of the drafts with its key; `priced` names that draft and call. */
  ghost predicate PricedBySync(start: map<TransferKey, TransferRow>, t: map<TransferKey, TransferRow>,
                               priced: map<TransferKey, (Draft, PriceOracle.Quote)>, drafts: seq<Draft>,
                               p: PriceOracle.Providers, nowSec: int, moralisApiKey: Option<string>) {
    forall k | k in t && (k !in start || t[k] != start[k]) ::
      && k in priced && priced[k].0 in drafts && priced[k].0.key == k
      && DraftQuoted(p, priced[k].0, priced[k].1, nowSec, moralisApiKey)
      && PricedAs(t[k], priced[k].1.result)
  }

  /** `priced` after a recorded draft: the draft's call replaces the entry of its key when it
      priced the row. */
  function PricedNext(before: map<TransferKey, TransferRow>, priced: map<TransferKey, (Draft, PriceOracle.Quote)>,
                      d: Draft, isNew: bool, quote: PriceOracle.Quote): map<TransferKey, (Draft, PriceOracle.Quote)>
  {
    if isNew || (d.key in before && !before[d.key].priceManual) then priced[d.key := (d, quote)] else priced
  }

  /** A recorded draft keeps `PricedBySync`; a manual row is left as it was. */
  lemma PricedStep(start: map<TransferKey, TransferRow>, before: map<TransferKey, TransferRow>,
                   after: map<TransferKey, TransferRow>, priced: map<TransferKey, (Draft, PriceOracle.Quote)>,
                   drafts: seq<Draft>, i: nat, isNew: bool, quote: PriceOracle.Quote,
                   p: PriceOracle.Providers, nowSec: int, moralisApiKey: Option<string>, userId: string, walletId: string)
    requires i < |drafts|
    requires PricedBySync(start, before, priced, drafts, p, nowSec, moralisApiKey)
    requires DraftRecorded(before, after, drafts[i], isNew, userId, walletId)
    requires DraftPriced(before, after, drafts[i], isNew, quote, p, nowSec, moralisApiKey)
    ensures PricedBySync(start, after, PricedNext(before, priced, drafts[i], isNew, quote),
                         drafts, p, nowSec, moralisApiKey)
  {
    var d := drafts[i];
    var priced' := PricedNext(before, priced, d, isNew, quote);
    forall k | k in after && (k !in start || after[k] != start[k])
      ensures k in priced' && priced'[k].0 in drafts && priced'[k].0.key == k
      ensures DraftQuoted(p, priced'[k].0, priced'[k].1, nowSec, moralisApiKey)
      ensures PricedAs(after[k], priced'[k].1.result)
    {
      if k != d.key || (!isNew && before[k].priceManual) {
        assert after[k] == before[k];
      }
    }
  }

  /** No draft after `j` in `drafts[..i]` has the key of draft `j`. */
  predicate LastWithKey(drafts: seq<Draft>, i: nat, j: nat)
    requires j < i <= |drafts|
  {
    forall j' | j < j' < i :: drafts[j'].key != drafts[j].key
  }

  /** After `i` drafts, the row of every drafted key that was not priced by hand before the
      sync holds the prices of the `getPrices` call of the last draft with that key, whether
      the row was created or already there. */
  ghost predicate RepricedBySync(start: map<TransferKey, TransferRow>, t: map<TransferKey, TransferRow>,
                                 priced: map<TransferKey, (Draft, PriceOracle.Quote)>, drafts: seq<Draft>, i: nat,
                                 p: PriceOracle.Providers, nowSec: int, moralisApiKey: Option<string>)
    requires i <= |drafts|
  {
    forall j | 0 <= j < i && LastWithKey(drafts, i, j)
               && (drafts[j].key !in start || !start[drafts[j].key].priceManual) ::
      && drafts[j].key in t && drafts[j].key in priced && priced[drafts[j].key].0 == drafts[j]
      && DraftQuoted(p, drafts[j], priced[drafts[j].key].1, nowSec, moralisApiKey)
      && PricedAs(t[drafts[j].key], priced[drafts[j].key].1.result)
  }

  /** A recorded draft keeps `RepricedBySync`: its key's row was created, or was not manual at
      the start and so is not manual now, and it took the draft's prices. */
  lemma RepricedStep(start: map<TransferKey, TransferRow>, before: map<TransferKey, TransferRow>,
                     after: map<TransferKey, TransferRow>, priced: map<TransferKey, (Draft, PriceOracle.Quote)>,
                     drafts: seq<Draft>, i: nat, isNew: bool, quote: PriceOracle.Quote,
                     p: PriceOracle.Providers, nowSec: int, moralisApiKey: Option<string>, userId: string, walletId: string)
    requires i < |drafts|
    requires TransfersEvolve(start, before) && NewRowsOwned(start, before, userId, walletId)
    requires RepricedBySync(start, before, priced, drafts, i, p, nowSec, moralisApiKey)
    requires DraftRecorded(before, after, drafts[i], isNew, userId, walletId)
    requires DraftPriced(before, after, drafts[i], isNew, quote, p, nowSec, moralisApiKey)
    ensures RepricedBySync(start, after, PricedNext(before, priced, drafts[i], isNew, quote),
                           drafts, i + 1, p, nowSec, moralisApiKey)
  {
    var d := drafts[i];
    var priced' := PricedNext(before, priced, d, isNew, quote);
    forall j | 0 <= j < i + 1 && LastWithKey(drafts, i + 1, j)
               && (drafts[j].key !in start || !start[drafts[j].key].priceManual)
      ensures drafts[j].key in after && drafts[j].key in priced' && priced'[drafts[j].key].0 == drafts[j]
      ensures DraftQuoted(p, drafts[j], priced'[drafts[j].key].1, nowSec, moralisApiKey)
      ensures PricedAs(after[drafts[j].key], priced'[drafts[j].key].1.result)
    {
      if j == i {
        if !isNew && d.key in start {
          assert SameExceptPrices(start[d.key], before[d.key]);
        }
      } else {
        assert drafts[i].key != drafts[j].key;
        assert LastWithKey(drafts, i, j);
      }
    }
  }

  /** Both transaction loops of `syncWallet`, over the drafts of the fetched transactions;
      the loop stops at the first amount the decimal constructor rejects. */
  method RecordDrafts(db: Database, p: PriceOracle.Providers, userId: string, walletId: string,
                      drafts: seq<Draft>, nowSec: int, moralisApiKey: Option<string>)
    returns (r: Result<nat, string>, ghost priced: map<TransferKey, (Draft, PriceOracle.Quote)>)
    modifies db`transfers, db`snapshots, db`tokens
    requires IdsUnique(db.transfers) && TokensReferenced(db.transfers, db.tokens)
    requires forall d | d in drafts && d.newToken.None? :: d.key.token in db.tokens
    ensures PricedBySync(old(db.transfers), db.transfers, priced, drafts, p, nowSec, moralisApiKey)
    ensures r.Ok? ==> RepricedBySync(old(db.transfers), db.transfers, priced, drafts, |drafts|, p, nowSec, moralisApiKey)
    ensures TablesEvolve(old(db.transfers), db.transfers, old(db.snapshots), db.snapshots, old(db.tokens), db.tokens)
    ensures NewRowsOwned(old(db.transfers), db.transfers, userId, walletId)
    ensures r.Ok? ==> db.transfers.Keys == old(db.transfers).Keys + DraftKeys(drafts)
    ensures r.Ok? ==> RowsKeptOutside(old(db.transfers), db.transfers, DraftKeys(drafts))
    ensures r.Ok? ==> r.value == |db.transfers.Keys - old(db.transfers).Keys|
    // the loops stop at the first malformed amount, with the drafts before it recorded
    ensures r.Err? ==> exists j | 0 <= j < |drafts| :: FailedAt(old(db.transfers), db.transfers, drafts, j, r.error)
  {
    r, priced := Ok(0), map[];
    ghost var drafted: set<TransferKey> := {};
    var i := 0;
    RecordingStarts(db.transfers, db.snapshots, db.tokens, userId, walletId, drafts, p, nowSec, moralisApiKey);
    while i < |drafts| && r.Ok?
      invariant i <= |drafts|
      invariant Recording(old(db.transfers), db.transfers, old(db.snapshots), db.snapshots, old(db.tokens), db.tokens,
                          userId, walletId, drafts, i, drafted, r, priced, p, nowSec, moralisApiKey)
    {
      r, priced := RecordDraftAt(db, p, userId, walletId, drafts, i, nowSec, moralisApiKey,
                                 old(db.transfers), old(db.snapshots), old(db.tokens), drafted, r.value, priced);
      drafted := drafted + {drafts[i].key};
      i := i + 1;
    }
    RecordingEnds(old(db.transfers), db.transfers, old(db.snapshots), db.snapshots, old(db.tokens), db.tokens,
                  userId, walletId, drafts, i, drafted, r, priced, p, nowSec, moralisApiKey);
  }

  lemma RecordingStarts(t: map<TransferKey, TransferRow>, snaps: map<SnapshotKey, Snapshot>,
                        tokens: map<TokenKey, Token>, userId: string, walletId: string, drafts: seq<Draft>,
                        p: PriceOracle.Providers, nowSec: int, moralisApiKey: Option<string>)
    requires IdsUnique(t) && TokensReferenced(t, tokens)
    ensures Recording(t, t, snaps, snaps, tokens, tokens, userId, walletId, drafts, 0, {}, Ok(0), map[],
                      p, nowSec, moralisApiKey)
  {
    assert DraftKeys(drafts[..0]) == {};
  }

  /** Where the loop of `RecordDrafts` stops: all drafts recorded, or a rejected amount. */
  lemma RecordingEnds(start: map<TransferKey, TransferRow>, t: map<TransferKey, TransferRow>,
                      snapsStart: map<SnapshotKey, Snapshot>, snaps: map<SnapshotKey, Snapshot>,
                      tokensStart: map<TokenKey, Token>, tokens: map<TokenKey, Token>,
                      userId: string, walletId: string, drafts: seq<Draft>,
                      i: nat, drafted: set<TransferKey>, r: Result<nat, string>,
                      priced: map<TransferKey, (Draft, PriceOracle.Quote)>,
                      p: PriceOracle.Providers, nowSec: int, moralisApiKey: Option<string>)
    requires i <= |drafts| && (i == |drafts| || r.Err?)
    requires Recording(start, t, snapsStart, snaps, tokensStart, tokens, userId, walletId, drafts, i, drafted, r,
                       priced, p, nowSec, moralisApiKey)
    ensures PricedBySync(start, t, priced, drafts, p, nowSec, moralisApiKey)
    ensures r.Ok? ==> RepricedBySync(start, t, priced, drafts, |drafts|, p, nowSec, moralisApiKey)
    ensures TablesEvolve(start, t, snapsStart, snaps, tokensStart, tokens)
    ensures NewRowsOwned(start, t, userId, walletId)
    ensures r.Ok? ==> t.Keys == start.Keys + DraftKeys(drafts) && RowsKeptOutside(start, t, DraftKeys(drafts))
    ensures r.Ok? ==> r.value == |t.Keys - start.Keys|
    ensures r.Err? ==> exists j | 0 <= j < |drafts| :: FailedAt(start, t, drafts, j, r.error)
  {
    if r.Ok? {
      assert drafts[..|drafts|] == drafts;
    }
  }

  /** One iteration of the loop of `RecordDrafts`, stated as the loop invariant it keeps:
      a skipped transaction changes nothing, a recorded one extends the invariant, and a
      rejected amount ends the loop with the postcondition's error case. */
  method RecordDraftAt(db: Database, p: PriceOracle.Providers, userId: string, walletId: string,
                       drafts: seq<Draft>, i: nat, nowSec: int, moralisApiKey: Option<string>,
                       ghost start: map<TransferKey, TransferRow>, ghost snapsStart: map<SnapshotKey, Snapshot>,
                       ghost tokensStart: map<TokenKey, Token>, ghost drafted: set<TransferKey>, created: nat,
                       ghost priced: map<TransferKey, (Draft, PriceOracle.Quote)>)
    returns (r: Result<nat, string>, ghost priced': map<TransferKey, (Draft, PriceOracle.Quote)>)
    modifies db`transfers, db`snapshots, db`tokens
    requires i < |drafts|
    requires Progress(start, db.transfers, snapsStart, db.snapshots, tokensStart, db.tokens, userId, walletId,
                      drafts, i, drafted, created)
    requires forall d | d in drafts && d.newToken.None? :: d.key.token in tokensStart
    requires PricedBySync(start, db.transfers, priced, drafts, p, nowSec, moralisApiKey)
    requires RepricedBySync(start, db.transfers, priced, drafts, i, p, nowSec, moralisApiKey)
    ensures Reached(start, db.transfers, snapsStart, db.snapshots, tokensStart, db.tokens, userId, walletId,
                    drafts, i + 1, drafted + {drafts[i].key}, r)
    ensures PricedBySync(start, db.transfers, priced', drafts, p, nowSec, moralisApiKey)
    ensures r.Ok? ==> RepricedBySync(start, db.transfers, priced', drafts, i + 1, p, nowSec, moralisApiKey)
  {
    ghost var before := db.transfers;
    ghost var snapsBefore := db.snapshots;
    ghost var tokensBefore := db.tokens;
    ProgressTokens(tokensStart, db.tokens, drafts, i);
    var step, quote := RecordDraft(db, p, userId, walletId, drafts[i], nowSec, moralisApiKey);
    r := if step.Err? then Err(step.error) else Ok(created + if step.value then 1 else 0);
    priced' := if step.Err? then priced else PricedNext(before, priced, drafts[i], step.value, quote);
    RecordingNext(start, before, db.transfers, snapsStart, snapsBefore, db.snapshots, tokensStart, tokensBefore,
                  db.tokens, userId, walletId, drafts, i, drafted, created, step);
    if step.Ok? {
      PricedStep(start, before, db.transfers, priced, drafts, i, step.value, quote, p, nowSec, moralisApiKey,
                 userId, walletId);
      RepricedStep(start, before, db.transfers, priced, drafts, i, step.value, quote, p, nowSec, moralisApiKey,
                   userId, walletId);
    }
  }

  /** What one `RecordDraft` call leaves behind keeps `Reached`. */
  lemma RecordingNext(start: map<TransferKey, TransferRow>, before: map<TransferKey, TransferRow>,
                      after: map<TransferKey, TransferRow>,
                      snapsStart: map<SnapshotKey, Snapshot>, snapsBefore: map<SnapshotKey, Snapshot>,
                      snapsAfter: map<SnapshotKey, Snapshot>,
                      tokensStart: map<TokenKey, Token>, tokensBefore: map<TokenKey, Token>,
                      tokensAfter: map<TokenKey, Token>, userId: string, walletId: string, drafts: seq<Draft>,
                      i: nat, drafted: set<TransferKey>, created: nat, step: Result<bool, string>)
    requires i < |drafts|
    requires Progress(start, before, snapsStart, snapsBefore, tokensStart, tokensBefore, userId, walletId,
                      drafts, i, drafted, created)
    requires step.Err? <==> ToDecimalAmount(drafts[i].raw, drafts[i].decimals).None?
    requires step.Err? ==> step.error == DecimalError(drafts[i].raw) && after == before && tokensAfter == tokensBefore
    requires step.Ok? ==> DraftRecorded(before, after, drafts[i], step.value, userId, walletId)
    requires TokensKept(tokensBefore, tokensAfter) && TokensReferenced(after, tokensAfter)
    requires PriceOracle.SnapshotsKept(snapsBefore, snapsAfter)
    ensures Reached(start, after, snapsStart, snapsAfter, tokensStart, tokensAfter, userId, walletId, drafts, i + 1,
                    drafted + {drafts[i].key},
                    if step.Err? then Err(step.error) else Ok(created + if step.value then 1 else 0))
  {
    if step.Err? {
      assert BadAmountAt(drafts, i, step.error);
      ProgressStop(start, after, snapsStart, snapsBefore, snapsAfter, tokensStart, tokensBefore, tokensAfter,
                   userId, walletId, drafts, i, drafted, created, step.error);
    } else {
      DraftKeysStep(drafts, i);
      ProgressStep(start, before, after, snapsStart, snapsBefore, snapsAfter,
                   tokensStart, tokensBefore, tokensAfter, userId, walletId, drafts, i, drafted, created, step.value);
    }
  }

  /** The loop invariant of `RecordDrafts`: `Reached`, and the rows written so far priced. */
  ghost predicate Recording(start: map<TransferKey, TransferRow>, t: map<TransferKey, TransferRow>,
                            snapsStart: map<SnapshotKey, Snapshot>, snaps: map<SnapshotKey, Snapshot>,
                            tokensStart: map<TokenKey, Token>, tokens: map<TokenKey, Token>,
                            userId: string, walletId: string, drafts: seq<Draft>,
                            i: nat, drafted: set<TransferKey>, r: Result<nat, string>,
                            priced: map<TransferKey, (Draft, PriceOracle.Quote)>,
                            p: PriceOracle.Providers, nowSec: int, moralisApiKey: Option<string>)
    requires i <= |drafts|
  {
    && Reached(start, t, snapsStart, snaps, tokensStart, tokens, userId, walletId, drafts, i, drafted, r)
    && PricedBySync(start, t, priced, drafts, p, nowSec, moralisApiKey)
    && (r.Ok? ==> RepricedBySync(start, t, priced, drafts, i, p, nowSec, moralisApiKey))
  }

  /** After `i` drafts: either all of them are recorded, or the `i`-th was rejected. */
  ghost predicate Reached(start: map<TransferKey, TransferRow>, t: map<TransferKey, TransferRow>,
                          snapsStart: map<SnapshotKey, Snapshot>, snaps: map<SnapshotKey, Snapshot>,
                          tokensStart: map<TokenKey, Token>, tokens: map<TokenKey, Token>,
                          userId: string, walletId: string, drafts: seq<Draft>,
                          i: nat, drafted: set<TransferKey>, r: Result<nat, string>)
    requires i <= |drafts|
  {
    match r
    case Ok(created) =>
      Progress(start, t, snapsStart, snaps, tokensStart, tokens, userId, walletId, drafts, i, drafted, created)
    case Err(error) =>
      0 < i && Stopped(start, t, snapsStart, snaps, tokensStart, tokens, userId, walletId, drafts, i - 1, error)
  }

  /** The state a rejected amount leaves: the table invariants hold, and draft `j` is to blame. */
  ghost predicate Stopped(start: map<TransferKey, TransferRow>, t: map<TransferKey, TransferRow>,
                          snapsStart: map<SnapshotKey, Snapshot>, snaps: map<SnapshotKey, Snapshot>,
                          tokensStart: map<TokenKey, Token>, tokens: map<TokenKey, Token>,
                          userId: string, walletId: string, drafts: seq<Draft>, i: nat, error: string)
    requires i < |drafts|
  {
    && TablesEvolve(start, t, snapsStart, snaps, tokensStart, tokens)
    && NewRowsOwned(start, t, userId, walletId)
    && FailedAt(start, t, drafts, i, error)
  }

  /** Draft `j` carries an amount the decimal constructor rejects, with this error. */
  predicate BadAmountAt(drafts: seq<Draft>, j: int, error: string)
    requires 0 <= j < |drafts|
  {
    ToDecimalAmount(drafts[j].raw, drafts[j].decimals).None?
    && error == DecimalError(drafts[j].raw)
  }

  lemma ProgressTokens(tokensStart: map<TokenKey, Token>, tokens: map<TokenKey, Token>,
                       drafts: seq<Draft>, i: nat)
    requires i < |drafts| && TokensKept(tokensStart, tokens)
    requires forall d | d in drafts && d.newToken.None? :: d.key.token in tokensStart
    ensures drafts[i].newToken.None? ==> drafts[i].key.token in tokens
  {
  }

  /** One recorded draft keeps the loop invariant. */
  lemma ProgressStep(start: map<TransferKey, TransferRow>, before: map<TransferKey, TransferRow>,
                     after: map<TransferKey, TransferRow>,
                     snapsStart: map<SnapshotKey, Snapshot>, snapsBefore: map<SnapshotKey, Snapshot>,
                     snapsAfter: map<SnapshotKey, Snapshot>,
                     tokensStart: map<TokenKey, Token>, tokensBefore: map<TokenKey, Token>,
                     tokensAfter: map<TokenKey, Token>,
                     userId: string, walletId: string, drafts: seq<Draft>,
                     i: nat, drafted: set<TransferKey>, created: nat, isNew: bool)
    requires i < |drafts|
    requires Progress(start, before, snapsStart, snapsBefore, tokensStart, tokensBefore, userId, walletId,
                      drafts, i, drafted, created)
    requires DraftRecorded(before, after, drafts[i], isNew, userId, walletId)
    requires PriceOracle.SnapshotsKept(snapsBefore, snapsAfter)
    requires TokensKept(tokensBefore, tokensAfter) && TokensReferenced(after, tokensAfter)
    requires DraftKeys(drafts[..i + 1]) == DraftKeys(drafts[..i]) + {drafts[i].key}
    requires ToDecimalAmount(drafts[i].raw, drafts[i].decimals).Some?
    ensures Progress(start, after, snapsStart, snapsAfter, tokensStart, tokensAfter, userId, walletId, drafts, i + 1,
                     drafted + {drafts[i].key}, created + (if isNew then 1 else 0))
  {
    var d := drafts[i];
    TransfersEvolveTransitive(start, before, after);
    PriceOracle.SnapshotsKeptTransitive(snapsStart, snapsBefore, snapsAfter);
    KeysStep(start.Keys, drafted, before.Keys, d.key);
    CreatedCount(start.Keys, before.Keys, d.key);
  }

  /** A rejected amount leaves the transfer table as the previous step left it. */
  lemma ProgressStop(start: map<TransferKey, TransferRow>, t: map<TransferKey, TransferRow>,
                     snapsStart: map<SnapshotKey, Snapshot>, snapsBefore: map<SnapshotKey, Snapshot>,
                     snapsAfter: map<SnapshotKey, Snapshot>,
                     tokensStart: map<TokenKey, Token>, tokensBefore: map<TokenKey, Token>,
                     tokensAfter: map<TokenKey, Token>,
                     userId: string, walletId: string, drafts: seq<Draft>,
                     i: nat, drafted: set<TransferKey>, created: nat, error: string)
    requires i < |drafts|
    requires Progress(start, t, snapsStart, snapsBefore, tokensStart, tokensBefore, userId, walletId,
                      drafts, i, drafted, created)
    requires PriceOracle.SnapshotsKept(snapsBefore, snapsAfter)
    requires TokensKept(tokensBefore, tokensAfter) && TokensReferenced(t, tokensAfter)
    requires BadAmountAt(drafts, i, error)
    ensures Stopped(start, t, snapsStart, snapsAfter, tokensStart, tokensAfter, userId, walletId, drafts, i, error)
  {
    PriceOracle.SnapshotsKeptTransitive(snapsStart, snapsBefore, snapsAfter);
  }

  lemma KeysStep(start: set<TransferKey>, drafted: set<TransferKey>, current: set<TransferKey>, key: TransferKey)
    requires current == start + drafted
    ensures current + {key} == start + (drafted + {key})
  {
  }

  /** Adding one key to the table adds one created row exactly when the key is new. */
  lemma CreatedCount(start: set<TransferKey>, current: set<TransferKey>, key: TransferKey)
    requires start <= current
    ensures |(current + {key}) - start| == |current - start| + (if key in current then 0 else 1)
  {
    if key !in current {
      assert (current + {key}) - start == (current - start) + {key};
    } else {
      assert (current + {key}) - start == current - start;
    }
  }

  lemma TokensKeptTransitive(a: map<TokenKey, Token>, b: map<TokenKey, Token>, c: map<TokenKey, Token>)
    requires TokensKept(a, b) && TokensKept(b, c)
    ensures TokensKept(a, c)
  {
  }

  // ---- syncWallet ----

  /** The wallets of a user; `findFirst({ where: { userId } })` returns one of them. */
  function WalletsOf(wallets: map<string, Wallet>, userId: string): (ids: set<string>)
    ensures forall w :: w in ids <==> w in wallets && wallets[w].userId == userId
  {
    set w | w in wallets && wallets[w].userId == userId
  }

  /** The user's decrypted Etherscan key, if the settings row has one. */
  function EtherscanKey(settings: map<string, StoredSettings>, userId: string): (key: Option<string>)
    ensures key.Some? ==> userId in settings && settings[userId].etherscanApiKey == key
  {
    if userId in settings then settings[userId].etherscanApiKey else None
  }

  /** `settings?.moralisApiKey ?? DEFAULT_MORALIS_API_KEY`: only a missing key falls back,
      an empty one is passed on. */
  function MoralisKeyFor(settings: map<string, StoredSettings>, userId: string, defaultKey: Option<string>)
    : (key: Option<string>)
    ensures userId in settings && settings[userId].moralisApiKey.Some? ==> key == settings[userId].moralisApiKey
    ensures (userId !in settings || settings[userId].moralisApiKey.None?) ==> key == defaultKey
  {
    OrElse(if userId in settings then settings[userId].moralisApiKey else None, defaultKey)
  }

  /** The rows both explorer feeds yield for a wallet, as `fetchEtherscanPaginated` returns them. */
  function Feed<T>(replyFor: (nat, nat) -> Explorer.EtherscanReply<T>): Result<seq<T>, string> {
    Explorer.PagesFrom(Explorer.PageFetcher(replyFor), Explorer.ETHERSCAN_PAGE_SIZE, Explorer.ETHERSCAN_MAX_PAGES, 1)
  }

  /** What a sync may do to the three tables it writes. */
  ghost predicate TablesEvolve(t0: map<TransferKey, TransferRow>, t1: map<TransferKey, TransferRow>,
                               s0: map<SnapshotKey, Snapshot>, s1: map<SnapshotKey, Snapshot>,
                               k0: map<TokenKey, Token>, k1: map<TokenKey, Token>) {
    && IdsUnique(t1) && TokensReferenced(t1, k1)
    && TransfersEvolve(t0, t1) && PriceOracle.SnapshotsKept(s0, s1) && TokensKept(k0, k1)
  }

  /** `fetchEtherscanPaginated` on one feed. */
  method FetchFeed<T>(replyFor: (nat, nat) -> Explorer.EtherscanReply<T>) returns (r: Result<seq<T>, string>)
    ensures r == Feed(replyFor)
  {
    ghost var requested;
    r, requested := Explorer.FetchPaginated(Explorer.PageFetcher(replyFor), Explorer.ETHERSCAN_PAGE_SIZE,
                                            Explorer.ETHERSCAN_MAX_PAGES);
  }

  /** `syncWallet(userId)`. The explorer replies for the native and the token feed, the price
      providers and the clock are parameters. */
  method SyncWallet(db: Database, p: PriceOracle.Providers, userId: string, nowSec: int,
                    ethReplies: (nat, nat) -> Explorer.EtherscanReply<NativeTx>,
                    tokenReplies: (nat, nat) -> Explorer.EtherscanReply<TokenTx>)
    returns (r: Result<SyncSummary, string>, walletId: string,
             ghost priced: map<TransferKey, (Draft, PriceOracle.Quote)>)
    modifies db`transfers, db`snapshots, db`tokens
    requires IdsUnique(db.transfers) && TokensReferenced(db.transfers, db.tokens)
    ensures TablesEvolve(old(db.transfers), db.transfers, old(db.snapshots), db.snapshots, old(db.tokens), db.tokens)
    // configuration errors come first and write nothing
    ensures WalletsOf(db.wallets, userId) == {} ==> r == Err("Wallet is not set.")
    ensures WalletsOf(db.wallets, userId) != {} && !Configured(db.settings, userId) ==>
      r == Err("Etherscan API key is missing in settings.")
    ensures WalletsOf(db.wallets, userId) == {} || !Configured(db.settings, userId) ==>
      db.transfers == old(db.transfers) && db.snapshots == old(db.snapshots) && db.tokens == old(db.tokens)
    ensures WalletsOf(db.wallets, userId) != {} && Configured(db.settings, userId) ==>
      SyncOutcome(old(db.transfers), db.transfers, old(db.tokens), db.tokens, db.wallets, userId, walletId,
                  Feed(ethReplies), Feed(tokenReplies), r)
    // every row written holds the prices `getPrices` gave for one of the fetched transfers
    ensures WalletsOf(db.wallets, userId) != {} && Configured(db.settings, userId) ==>
      PricedBySync(old(db.transfers), db.transfers, priced,
                   SyncDrafts(userId, NormalizeAddress(db.wallets[walletId].address), Feed(ethReplies), Feed(tokenReplies)),
                   p, nowSec, MoralisKeyFor(db.settings, userId, p.defaultMoralisKey))
    // after a sync that succeeds, every fetched transfer's row that was not priced by hand holds
    // the prices of the last fetched transfer with its key
    ensures WalletsOf(db.wallets, userId) != {} && Configured(db.settings, userId) && r.Ok? ==>
      var drafts := SyncDrafts(userId, NormalizeAddress(db.wallets[walletId].address), Feed(ethReplies), Feed(tokenReplies));
      RepricedBySync(old(db.transfers), db.transfers, priced, drafts, |drafts|,
                     p, nowSec, MoralisKeyFor(db.settings, userId, p.defaultMoralisKey))
  {
    walletId, priced := "", map[];
    if WalletsOf(db.wallets, userId) == {} {
      r := Err("Wallet is not set.");
    } else {
      walletId :| walletId in WalletsOf(db.wallets, userId);
      var apiKey := EtherscanKey(db.settings, userId);
      var moralisApiKey := MoralisKeyFor(db.settings, userId, p.defaultMoralisKey);
      if apiKey.None? || apiKey.value == [] {
        r := Err("Etherscan API key is missing in settings.");
      } else {
        r, priced := SyncConfigured(db, p, userId, walletId, moralisApiKey, nowSec, ethReplies, tokenReplies);
      }
    }
  }

  /** The user has an Etherscan key that is not empty. */
  predicate Configured(settings: map<string, StoredSettings>, userId: string) {
    EtherscanKey(settings, userId).Some? && EtherscanKey(settings, userId).value != []
  }

  /** What a configured sync ends with. The ETH token exists (created before the fetch); a failed
      feed is the error, the native one first; otherwise every selected transaction's key is in
      the table, `created` counts the new keys and the counts are the fetched lengths. */
  ghost predicate SyncOutcome(t0: map<TransferKey, TransferRow>, t1: map<TransferKey, TransferRow>,
                              k0: map<TokenKey, Token>, k1: map<TokenKey, Token>,
                              wallets: map<string, Wallet>, userId: string, walletId: string,
                              eth: Result<seq<NativeTx>, string>, tokens: Result<seq<TokenTx>, string>,
                              r: Result<SyncSummary, string>) {
    && walletId in WalletsOf(wallets, userId)
    && EthTokenKey(userId) in k1
    && (EthTokenKey(userId) !in k0 ==> k1[EthTokenKey(userId)] == Token(ETH_SYMBOL, ETH_NAME, ETH_DECIMALS))
    && NewRowsOwned(t0, t1, userId, walletId)
    && (eth.Err? ==> r == Err(eth.error))
    && (eth.Ok? && tokens.Err? ==> r == Err(tokens.error))
    && (r.Ok? ==>
          var address := NormalizeAddress(wallets[walletId].address);
          var drafts := NativeDrafts(userId, address, eth.value) + TokenDrafts(userId, address, tokens.value);
          && eth.Ok? && tokens.Ok?
          && t1.Keys == t0.Keys + DraftKeys(drafts)
          && r.value.created == |t1.Keys - t0.Keys|
          && r.value.ethCount == |eth.value| && r.value.tokenCount == |tokens.value|)
    // with both feeds fetched, an error is the first malformed amount; the sync succeeds otherwise
    && (eth.Ok? && tokens.Ok? && r.Err? ==>
          var address := NormalizeAddress(wallets[walletId].address);
          var drafts := NativeDrafts(userId, address, eth.value) + TokenDrafts(userId, address, tokens.value);
          exists j | 0 <= j < |drafts| :: FailedAt(t0, t1, drafts, j, r.error))
  }

  /** The drafts of a sync whose two feeds were fetched; none when either failed. */
  function SyncDrafts(userId: string, address: string, eth: Result<seq<NativeTx>, string>,
                      tokens: Result<seq<TokenTx>, string>): seq<Draft> {
    if eth.Ok? && tokens.Ok? then NativeDrafts(userId, address, eth.value) + TokenDrafts(userId, address, tokens.value)
    else []
  }

  /** A native draft names the ETH token and a token draft carries its own token record,
      so once the ETH token exists every draft's token can be found or created. */
  lemma DraftTokensPresent(userId: string, address: string, ethTxs: seq<NativeTx>, tokenTxs: seq<TokenTx>,
                           tokens: map<TokenKey, Token>)
    requires EthTokenKey(userId) in tokens
    ensures forall d | d in NativeDrafts(userId, address, ethTxs) + TokenDrafts(userId, address, tokenTxs)
                       && d.newToken.None? :: d.key.token in tokens
  {
    var nd: seq<Draft>, td: seq<Draft> := NativeDrafts(userId, address, ethTxs), TokenDrafts(userId, address, tokenTxs);
    forall d | d in nd + td && d.newToken.None?
      ensures d.key.token in tokens
    {
      assert d !in td;
    }
  }

  /** `syncWallet` after the wallet and key checks. */
  method SyncConfigured(db: Database, p: PriceOracle.Providers, userId: string, walletId: string,
                        moralisApiKey: Option<string>, nowSec: int,
                        ethReplies: (nat, nat) -> Explorer.EtherscanReply<NativeTx>,
                        tokenReplies: (nat, nat) -> Explorer.EtherscanReply<TokenTx>)
    returns (r: Result<SyncSummary, string>, ghost priced: map<TransferKey, (Draft, PriceOracle.Quote)>)
    modifies db`transfers, db`snapshots, db`tokens
    requires walletId in WalletsOf(db.wallets, userId)
    requires IdsUnique(db.transfers) && TokensReferenced(db.transfers, db.tokens)
    ensures TablesEvolve(old(db.transfers), db.transfers, old(db.snapshots), db.snapshots, old(db.tokens), db.tokens)
    ensures SyncOutcome(old(db.transfers), db.transfers, old(db.tokens), db.tokens, db.wallets, userId, walletId,
                        Feed(ethReplies), Feed(tokenReplies), r)
    ensures PricedBySync(old(db.transfers), db.transfers, priced,
                         SyncDrafts(userId, NormalizeAddress(db.wallets[walletId].address), Feed(ethReplies), Feed(tokenReplies)),
                         p, nowSec, moralisApiKey)
    ensures r.Ok? ==>
      var drafts := SyncDrafts(userId, NormalizeAddress(db.wallets[walletId].address), Feed(ethReplies), Feed(tokenReplies));
      RepricedBySync(old(db.transfers), db.transfers, priced, drafts, |drafts|, p, nowSec, moralisApiKey)
  {
    priced := map[];
    var address := NormalizeAddress(db.wallets[walletId].address);
    UpsertToken(db, EthTokenKey(userId), Token(ETH_SYMBOL, ETH_NAME, ETH_DECIMALS));
    ghost var k0 := db.tokens;
    assert TokensKept(old(db.tokens), k0) && TokensReferenced(db.transfers, k0);
    var ethTxs := FetchFeed(ethReplies);
    var tokenTxs := FetchFeed(tokenReplies);
    if ethTxs.Err? {
      r := Err(ethTxs.error);
    } else if tokenTxs.Err? {
      r := Err(tokenTxs.error);
    } else {
      var nativeDrafts := NativeDrafts(userId, address, ethTxs.value);
      var tokenDrafts := TokenDrafts(userId, address, tokenTxs.value);
      DraftTokensPresent(userId, address, ethTxs.value, tokenTxs.value, db.tokens);
      var created;
      created, priced := RecordDrafts(db, p, userId, walletId, nativeDrafts + tokenDrafts, nowSec, moralisApiKey);
      TokensKeptTransitive(old(db.tokens), k0, db.tokens);
      r := if created.Err? then Err(created.error)
           else Ok(SyncSummary(created.value, |ethTxs.value|, |tokenTxs.value|));
    }
  }

  /** Re-syncing the same explorer data creates no rows: the second run finds every key. */
  lemma {:induction false} ResyncCreatesNothing(
    t0: map<TransferKey, TransferRow>, t1: map<TransferKey, TransferRow>, t2: map<TransferKey, TransferRow>,
    k0: map<TokenKey, Token>, k1: map<TokenKey, Token>, k2: map<TokenKey, Token>,
    wallets: map<string, Wallet>, userId: string, walletId: string,
    eth: Result<seq<NativeTx>, string>, tokens: Result<seq<TokenTx>, string>,
    r1: Result<SyncSummary, string>, r2: Result<SyncSummary, string>)
    requires SyncOutcome(t0, t1, k0, k1, wallets, userId, walletId, eth, tokens, r1) && r1.Ok?
    requires SyncOutcome(t1, t2, k1, k2, wallets, userId, walletId, eth, tokens, r2) && r2.Ok?
    ensures r2.value.created == 0 && t2.Keys == t1.Keys
    ensures r2.value.ethCount == r1.value.ethCount && r2.value.tokenCount == r1.value.tokenCount
  {
    assert t2.Keys == t1.Keys;
    assert t2.Keys - t1.Keys == {};
  }

  /** A configured sync whose two feeds are fetched and whose amounts all parse succeeds, with
      the fetched counts and every selected transaction's key in the table. */
  lemma SyncSucceedsWhenAmountsParse(
    t0: map<TransferKey, TransferRow>, t1: map<TransferKey, TransferRow>,
    k0: map<TokenKey, Token>, k1: map<TokenKey, Token>,
    wallets: map<string, Wallet>, userId: string, walletId: string,
    ethTxs: seq<NativeTx>, tokenTxs: seq<TokenTx>, r: Result<SyncSummary, string>)
    requires SyncOutcome(t0, t1, k0, k1, wallets, userId, walletId, Ok(ethTxs), Ok(tokenTxs), r)
    requires var drafts := SyncDrafts(userId, NormalizeAddress(wallets[walletId].address), Ok(ethTxs), Ok(tokenTxs));
             AmountsParse(drafts, |drafts|)
    ensures r.Ok? && r.value.ethCount == |ethTxs| && r.value.tokenCount == |tokenTxs|
    ensures t1.Keys == t0.Keys + DraftKeys(SyncDrafts(userId, NormalizeAddress(wallets[walletId].address),
                                                      Ok(ethTxs), Ok(tokenTxs)))
  {
  }
}
