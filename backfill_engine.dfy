/**
 * `backfillMissingPrices`: walks the user's unpriced transfers in id order, a batch
 * at a time behind an id cursor, resolves each row's prices once per
 * (token, hour bucket) through a run-wide cache, and writes the prices it finds.
 */
module BackfillEngine {
  import opened Wrappers
  import opened Store
  import Text
  import PriceOracle
  import SyncEngine
  import Backfill

  const BACKFILL_BATCH_SIZE: nat := 150
  const BACKFILL_MAX_BATCHES: nat := 5
  /** `Math.max(1, BACKFILL_CONCURRENCY)` with the default of 4: the rows of one slice. */
  const BACKFILL_CONCURRENCY: nat := 4
  const BACKFILL_THROTTLE_MS: nat := 200

  /** The `${tokenId}:${bucketTs}` key of the run's price cache. */
  datatype CacheKey = CacheKey(token: TokenKey, bucketTs: int)

  /** A cached resolution; both sides may be null, and null results are cached too. */
  datatype Prices = Prices(priceUsd: Option<real>, priceRub: Option<real>)

  datatype BackfillSummary = BackfillSummary(scanned: nat, updated: nat)

  /** `Math.floor(blockTime.getTime() / 1000)`. */
  function TimestampSec(row: TransferRow): (ts: int)
    ensures ts * 1000 <= row.blockTimeMs < ts * 1000 + 1000
  {
    row.blockTimeMs / 1000
  }

  function CacheKeyOf(key: TransferKey, row: TransferRow): CacheKey {
    CacheKey(key.token, PriceOracle.BucketOf(TimestampSec(row)))
  }

  /** `priceUsd || priceRub`: some side was found. */
  predicate Found(prices: Prices) {
    prices.priceUsd.Some? || prices.priceRub.Some?
  }

  /** The row after its backfill step: repriced when something was found, as it was otherwise. */
  function Backfilled(row: TransferRow, prices: Prices): (r: TransferRow)
    ensures SameExceptPrices(row, r)
    ensures Found(prices) ==> ValuesConsistent(r) && r.priceUsd == prices.priceUsd && r.priceRub == prices.priceRub
    ensures !Found(prices) ==> r == row
  {
    if Found(prices) then WithPrices(row, prices.priceUsd, prices.priceRub) else row
  }

  /** Entries once cached keep their value. */
  ghost predicate CacheGrows(c1: map<CacheKey, Prices>, c2: map<CacheKey, Prices>) {
    forall ck | ck in c1 :: ck in c2 && c2[ck] == c1[ck]
  }

  /** `resolved` lists the keys sent to `getPrices`, in order: each once, and exactly the cached keys. */
  ghost predicate CacheLog(cache: map<CacheKey, Prices>, resolved: seq<CacheKey>) {
    && (forall i, j | 0 <= i < j < |resolved| :: resolved[i] != resolved[j])
    && (forall ck :: ck in cache <==> ck in resolved)
  }

  /** Every cached entry holds the prices of the `getPrices` call made for its key: its token,
      a time in its hour, the user's Moralis key and the live fallback off. `quotes` names the calls. */
  ghost predicate CacheQuoted(cache: map<CacheKey, Prices>, quotes: map<CacheKey, PriceOracle.Quote>,
                              p: PriceOracle.Providers, moralisApiKey: Option<string>) {
    forall ck | ck in cache ::
      && ck in quotes && quotes[ck].token == ck.token
      && PriceOracle.BucketOf(quotes[ck].timestampSec) == ck.bucketTs
      && quotes[ck].opts == PriceOracle.PriceOptions(moralisApiKey, false)
      && PriceOracle.Quoted(p, quotes[ck])
      && cache[ck] == Prices(quotes[ck].result.priceUsd, quotes[ck].result.priceRub)
  }

  /** Caching the result of a new call keeps `CacheQuoted`. */
  lemma CacheQuotedStep(cache: map<CacheKey, Prices>, quotes: map<CacheKey, PriceOracle.Quote>,
                        p: PriceOracle.Providers, moralisApiKey: Option<string>, ck: CacheKey, q: PriceOracle.Quote)
    requires CacheQuoted(cache, quotes, p, moralisApiKey)
    requires q.token == ck.token && PriceOracle.BucketOf(q.timestampSec) == ck.bucketTs
    requires q.opts == PriceOracle.PriceOptions(moralisApiKey, false) && PriceOracle.Quoted(p, q)
    ensures CacheQuoted(cache[ck := Prices(q.result.priceUsd, q.result.priceRub)], quotes[ck := q], p, moralisApiKey)
  {
  }

  // ---- one row ----

  /** One row of a slice: its prices come from the cache, or from `getPrices` with the live
      fallback off and are then cached (null results included); the row is written only when
      some price was found. `fetched` says whether `getPrices` was called, `quotes` names the
      call behind each cached entry. */
  method BackfillRow(db: Database, p: PriceOracle.Providers, moralisApiKey: Option<string>,
                     key: TransferKey, cache: map<CacheKey, Prices>, ghost quotes: map<CacheKey, PriceOracle.Quote>)
    returns (updated: bool, found: Prices, cache': map<CacheKey, Prices>, fetched: bool,
             ghost quotes': map<CacheKey, PriceOracle.Quote>)
    modifies db`transfers, db`snapshots
    requires key in db.transfers
    requires CacheQuoted(cache, quotes, p, moralisApiKey)
    ensures CacheQuoted(cache', quotes', p, moralisApiKey)
    ensures fetched ==> var ck := CacheKeyOf(key, old(db.transfers[key]));
      ck in quotes' && quotes'[ck].timestampSec == TimestampSec(old(db.transfers[key]))
      && quotes'[ck].before == old(db.snapshots) && quotes'[ck].after == db.snapshots
    ensures var ck := CacheKeyOf(key, old(db.transfers[key]));
      && cache' == cache[ck := found]
      && (fetched <==> ck !in cache)
      && (ck in cache ==> found == cache[ck] && db.snapshots == old(db.snapshots))
    ensures updated <==> Found(found)
    ensures db.transfers == old(db.transfers)[key := Backfilled(old(db.transfers[key]), found)]
    ensures PriceOracle.SnapshotsKept(old(db.snapshots), db.snapshots)
  {
    var row := db.transfers[key];
    var ck := CacheKeyOf(key, row);
    quotes' := quotes;
    if ck in cache {
      found := cache[ck];
      fetched := false;
    } else {
      var opts := PriceOracle.PriceOptions(moralisApiKey, false);
      ghost var snaps := db.snapshots;
      var quoted := SyncEngine.QuotePrices(db, p, key.token, TimestampSec(row), opts);
      found := Prices(quoted.priceUsd, quoted.priceRub);
      fetched := true;
      ghost var q := PriceOracle.Quote(key.token, TimestampSec(row), opts, snaps, db.snapshots, quoted);
      CacheQuotedStep(cache, quotes, p, moralisApiKey, ck, q);
      quotes' := quotes[ck := q];
    }
    cache' := cache[ck := found];
    updated := Found(found);
    if updated {
      db.transfers := db.transfers[key := WithPrices(row, found.priceUsd, found.priceRub)];
    } else {
      db.transfers := db.transfers[key := row];
    }
  }

  // ---- one batch ----

  /** The batch's rows are distinct rows of `t`. */
  predicate DistinctRows(batch: seq<TransferKey>, t: map<TransferKey, TransferRow>) {
    && (forall j | 0 <= j < |batch| :: batch[j] in t)
    && (forall i, j | 0 <= i < j < |batch| :: batch[i] != batch[j])
  }

  /** After the first `i` rows of the batch: those rows are backfilled from the cache, the rest
      of the table is as the batch found it, and at most `i` rows were written. */
  ghost predicate BatchDone(t0: map<TransferKey, TransferRow>, t: map<TransferKey, TransferRow>,
                            batch: seq<TransferKey>, i: nat, cache: map<CacheKey, Prices>, updated: nat)
    requires i <= |batch| && DistinctRows(batch, t0)
  {
    && t.Keys == t0.Keys
    && (forall k | k in t0 && k !in batch[..i] :: t[k] == t0[k])
    && (forall j | 0 <= j < i :: CacheKeyOf(batch[j], t0[batch[j]]) in cache)
    && (forall j | 0 <= j < i ::
          t[batch[j]] == Backfilled(t0[batch[j]], cache[CacheKeyOf(batch[j], t0[batch[j]])]))
    && updated <= i
  }

  /** One backfilled row extends `BatchDone` by one. */
  lemma RowStep(t0: map<TransferKey, TransferRow>, t: map<TransferKey, TransferRow>,
                batch: seq<TransferKey>, i: nat, cache: map<CacheKey, Prices>, updated: nat,
                found: Prices, cache': map<CacheKey, Prices>)
    requires i < |batch| && DistinctRows(batch, t0)
    requires BatchDone(t0, t, batch, i, cache, updated)
    requires var ck := CacheKeyOf(batch[i], t0[batch[i]]);
      cache' == cache[ck := found] && (ck in cache ==> found == cache[ck])
    ensures t[batch[i]] == t0[batch[i]]
    ensures BatchDone(t0, t[batch[i] := Backfilled(t0[batch[i]], found)], batch, i + 1, cache',
                      updated + if Found(found) then 1 else 0)
  {
    var k := batch[i];
    var t' := t[k := Backfilled(t0[k], found)];
    assert k !in batch[..i];
    assert batch[..i + 1] == batch[..i] + [k];
    forall k2 | k2 in t0 && k2 !in batch[..i + 1]
      ensures t'[k2] == t0[k2]
    {
      assert k2 !in batch[..i];
    }
    forall j | 0 <= j < i + 1
      ensures CacheKeyOf(batch[j], t0[batch[j]]) in cache'
      ensures t'[batch[j]] == Backfilled(t0[batch[j]], cache'[CacheKeyOf(batch[j], t0[batch[j]])])
    {
      if j < i {
        assert batch[j] != k;
      }
    }
  }

  /** `resolved` after one row: extended by the key exactly when `getPrices` was called. */
  lemma LogStep(cache: map<CacheKey, Prices>, resolved: seq<CacheKey>, ck: CacheKey, found: Prices)
    requires CacheLog(cache, resolved)
    ensures ck !in cache ==> CacheLog(cache[ck := found], resolved + [ck])
    ensures ck in cache ==> CacheLog(cache[ck := found], resolved)
  {
  }

  /** `b` continues `a`. */
  ghost predicate Extends(a: seq<CacheKey>, b: seq<CacheKey>) {
    |a| <= |b| && b[..|a|] == a
  }

  lemma ExtendsTransitive(a: seq<CacheKey>, b: seq<CacheKey>, c: seq<CacheKey>)
    requires Extends(a, b) && Extends(b, c)
    ensures Extends(a, c)
  {
    assert c[..|a|] == c[..|b|][..|a|];
  }

  /** Within a slice: `BatchDone` so far, with the cache grown from `cache0` and the
      resolution log extended from `resolved0`. */
  ghost predicate SliceState(t0: map<TransferKey, TransferRow>, t: map<TransferKey, TransferRow>,
                             batch: seq<TransferKey>, i: nat, cache0: map<CacheKey, Prices>,
                             cache: map<CacheKey, Prices>, updated: nat,
                             resolved0: seq<CacheKey>, resolved: seq<CacheKey>)
    requires i <= |batch| && DistinctRows(batch, t0)
  {
    && BatchDone(t0, t, batch, i, cache, updated)
    && CacheGrows(cache0, cache) && CacheLog(cache, resolved) && Extends(resolved0, resolved)
  }

  lemma SliceStep(t0: map<TransferKey, TransferRow>, t: map<TransferKey, TransferRow>,
                  batch: seq<TransferKey>, i: nat, cache0: map<CacheKey, Prices>,
                  cache: map<CacheKey, Prices>, updated: nat,
                  resolved0: seq<CacheKey>, resolved: seq<CacheKey>, found: Prices, fetched: bool,
                  t': map<TransferKey, TransferRow>, cache': map<CacheKey, Prices>, updated': nat, resolved': seq<CacheKey>)
    requires i < |batch| && DistinctRows(batch, t0)
    requires SliceState(t0, t, batch, i, cache0, cache, updated, resolved0, resolved)
    requires var ck := CacheKeyOf(batch[i], t[batch[i]]);
      && (fetched <==> ck !in cache) && (ck in cache ==> found == cache[ck])
      && t' == t[batch[i] := Backfilled(t[batch[i]], found)]
      && cache' == cache[ck := found]
      && updated' == updated + (if Found(found) then 1 else 0)
      && resolved' == if fetched then resolved + [ck] else resolved
    ensures SliceState(t0, t', batch, i + 1, cache0, cache', updated', resolved0, resolved')
  {
    var ck := CacheKeyOf(batch[i], t0[batch[i]]);
    assert t[batch[i]] == t0[batch[i]] by {
      assert batch[i] !in batch[..i];
    }
    assert BatchDone(t0, t', batch, i + 1, cache', updated') by {
      RowStep(t0, t, batch, i, cache, updated, found, cache');
    }
    assert CacheLog(cache', resolved') by {
      LogStep(cache, resolved, ck, found);
    }
    assert CacheGrows(cache0, cache') by {
      assert CacheGrows(cache, cache');
    }
    assert Extends(resolved0, resolved') by {
      if fetched {
        assert (resolved + [ck])[..|resolved0|] == resolved[..|resolved0|];
      }
    }
  }

  lemma SliceStateTransitive(t0: map<TransferKey, TransferRow>, t: map<TransferKey, TransferRow>,
                             batch: seq<TransferKey>, i: nat, c0: map<CacheKey, Prices>, c1: map<CacheKey, Prices>,
                             c2: map<CacheKey, Prices>, updated: nat,
                             r0: seq<CacheKey>, r1: seq<CacheKey>, r2: seq<CacheKey>)
    requires i <= |batch| && DistinctRows(batch, t0)
    requires CacheGrows(c0, c1) && Extends(r0, r1)
    requires SliceState(t0, t, batch, i, c1, c2, updated, r1, r2)
    ensures SliceState(t0, t, batch, i, c0, c2, updated, r0, r2)
  {
    ExtendsTransitive(r0, r1, r2);
  }

  lemma SliceStart(t0: map<TransferKey, TransferRow>, t: map<TransferKey, TransferRow>, batch: seq<TransferKey>,
                   i: nat, cache: map<CacheKey, Prices>, updated: nat, resolved: seq<CacheKey>)
    requires i <= |batch| && DistinctRows(batch, t0)
    requires BatchDone(t0, t, batch, i, cache, updated) && CacheLog(cache, resolved)
    ensures SliceState(t0, t, batch, i, cache, cache, updated + 0, resolved, resolved)
  {
    assert resolved[..|resolved|] == resolved;
  }

  /** One item of `slice.map`: `BackfillRow` on `batch[i]`, with the slice's counter and log. */
  method SliceItem(db: Database, p: PriceOracle.Providers, moralisApiKey: Option<string>,
                   batch: seq<TransferKey>, i: nat, ghost t0: map<TransferKey, TransferRow>,
                   ghost cache0: map<CacheKey, Prices>, cache: map<CacheKey, Prices>, ghost before: nat, updatedNow: nat,
                   ghost resolved0: seq<CacheKey>, ghost resolved: seq<CacheKey>, ghost quotes: map<CacheKey, PriceOracle.Quote>)
    returns (updatedNow': nat, cache': map<CacheKey, Prices>, ghost resolved': seq<CacheKey>, ghost quotes': map<CacheKey, PriceOracle.Quote>)
    modifies db`transfers, db`snapshots
    requires i < |batch| && DistinctRows(batch, t0)
    requires SliceState(t0, db.transfers, batch, i, cache0, cache, before + updatedNow, resolved0, resolved)
    requires CacheQuoted(cache, quotes, p, moralisApiKey)
    ensures CacheQuoted(cache', quotes', p, moralisApiKey)
    ensures SliceState(t0, db.transfers, batch, i + 1, cache0, cache', before + updatedNow', resolved0, resolved')
    ensures PriceOracle.SnapshotsKept(old(db.snapshots), db.snapshots)
  {
    ghost var t := db.transfers;
    var updated, found, fetched;
    updated, found, cache', fetched, quotes' := BackfillRow(db, p, moralisApiKey, batch[i], cache, quotes);
    resolved' := if fetched then resolved + [CacheKeyOf(batch[i], t[batch[i]])] else resolved;
    updatedNow' := updatedNow + if updated then 1 else 0;
    SliceStep(t0, t, batch, i, cache0, cache, before + updatedNow, resolved0, resolved, found, fetched,
              db.transfers, cache', before + updatedNow', resolved');
  }

  /** `slice.map(...)` over `batch[from..to]`: each row in turn. */
  method BackfillSlice(db: Database, p: PriceOracle.Providers, moralisApiKey: Option<string>,
                       batch: seq<TransferKey>, from: nat, to: nat,
                       ghost t0: map<TransferKey, TransferRow>, ghost before: nat,
                       cache: map<CacheKey, Prices>, ghost resolved: seq<CacheKey>, ghost quotes: map<CacheKey, PriceOracle.Quote>)
    returns (updatedNow: nat, cache': map<CacheKey, Prices>, ghost resolved': seq<CacheKey>, ghost quotes': map<CacheKey, PriceOracle.Quote>)
    modifies db`transfers, db`snapshots
    requires from <= to <= |batch| && DistinctRows(batch, t0)
    requires BatchDone(t0, db.transfers, batch, from, cache, before)
    requires CacheLog(cache, resolved)
    requires CacheQuoted(cache, quotes, p, moralisApiKey)
    ensures CacheQuoted(cache', quotes', p, moralisApiKey)
    ensures SliceState(t0, db.transfers, batch, to, cache, cache', before + updatedNow, resolved, resolved')
    ensures PriceOracle.SnapshotsKept(old(db.snapshots), db.snapshots)
  {
    updatedNow := 0;
    cache' := cache;
    resolved', quotes' := resolved, quotes;
    SliceStart(t0, db.transfers, batch, from, cache, before, resolved);
    for i := from to to
      invariant SliceState(t0, db.transfers, batch, i, cache, cache', before + updatedNow, resolved, resolved')
      invariant PriceOracle.SnapshotsKept(old(db.snapshots), db.snapshots)
      invariant CacheQuoted(cache', quotes', p, moralisApiKey)
    {
      ghost var snaps := db.snapshots;
      updatedNow, cache', resolved', quotes' :=
        SliceItem(db, p, moralisApiKey, batch, i, t0, cache, cache', before, updatedNow, resolved, resolved', quotes');
      PriceOracle.SnapshotsKeptTransitive(old(db.snapshots), snaps, db.snapshots);
    }
  }

  /** `ceil(n / BACKFILL_CONCURRENCY)`: the slices of a batch of `n` rows. */
  function SliceCount(n: nat): nat {
    (n + BACKFILL_CONCURRENCY - 1) / BACKFILL_CONCURRENCY
  }

  /** One batch: its rows in slices of `BACKFILL_CONCURRENCY`, with a throttle pause between
      two slices and none after the last one. */
  method BackfillBatch(db: Database, p: PriceOracle.Providers, moralisApiKey: Option<string>,
                       batch: seq<TransferKey>, cache: map<CacheKey, Prices>, ghost resolved: seq<CacheKey>,
                       ghost quotes: map<CacheKey, PriceOracle.Quote>)
    returns (updated: nat, cache': map<CacheKey, Prices>, sleeps: nat, ghost resolved': seq<CacheKey>,
             ghost quotes': map<CacheKey, PriceOracle.Quote>)
    modifies db`transfers, db`snapshots
    requires DistinctRows(batch, db.transfers)
    requires CacheLog(cache, resolved)
    requires CacheQuoted(cache, quotes, p, moralisApiKey)
    ensures CacheQuoted(cache', quotes', p, moralisApiKey)
    ensures SliceState(old(db.transfers), db.transfers, batch, |batch|, cache, cache', updated, resolved, resolved')
    ensures updated <= |batch|
    ensures sleeps == if batch == [] then 0 else SliceCount(|batch|) - 1
    ensures PriceOracle.SnapshotsKept(old(db.snapshots), db.snapshots)
  {
    ghost var t0 := db.transfers;
    updated, cache', sleeps, resolved', quotes' := 0, cache, 0, resolved, quotes;
    assert batch[..0] == [];
    var index := 0;
    ghost var slices: nat := 0;
    while index < |batch|
      invariant index <= |batch|
      invariant index < |batch| ==> index == BACKFILL_CONCURRENCY * slices
      invariant index == |batch| ==> slices == SliceCount(|batch|)
      invariant SliceState(t0, db.transfers, batch, index, cache, cache', updated, resolved, resolved')
      // every slice but the last is followed by a pause
      invariant sleeps == if index < |batch| || slices == 0 then slices else slices - 1
      invariant PriceOracle.SnapshotsKept(old(db.snapshots), db.snapshots)
      invariant CacheQuoted(cache', quotes', p, moralisApiKey)
    {
      // `transfers.slice(index, index + concurrency)`
      var to := if index + BACKFILL_CONCURRENCY < |batch| then index + BACKFILL_CONCURRENCY else |batch|;
      ghost var c, r, snaps := cache', resolved', db.snapshots;
      var updatedNow;
      updatedNow, cache', resolved', quotes' :=
        BackfillSlice(db, p, moralisApiKey, batch, index, to, t0, updated, cache', resolved', quotes');
      SliceStateTransitive(t0, db.transfers, batch, to, cache, c, cache', updated + updatedNow, resolved, r, resolved');
      PriceOracle.SnapshotsKeptTransitive(old(db.snapshots), snaps, db.snapshots);
      updated := updated + updatedNow;
      if BACKFILL_THROTTLE_MS > 0 && index + BACKFILL_CONCURRENCY < |batch| {
        sleeps := sleeps + 1;
      }
      if to == |batch| {
        LastSlice(slices, |batch|);
      }
      index := to;
      slices := slices + 1;
    }
  }

  /** The slice starting at `BACKFILL_CONCURRENCY * s` is the last one when it reaches the end. */
  lemma LastSlice(s: nat, n: nat)
    requires BACKFILL_CONCURRENCY * s < n <= BACKFILL_CONCURRENCY * s + BACKFILL_CONCURRENCY
    ensures SliceCount(n) == s + 1
  {
  }

  // ---- the run ----

  /** The run's row order: ascending ids. */
  function IdOrder(t: map<TransferKey, TransferRow>): (TransferKey, TransferKey) -> bool {
    (a: TransferKey, b: TransferKey) => a in t && b in t && Text.StrLess(t[a].id, t[b].id)
  }

  lemma IdOrderTotal(t: map<TransferKey, TransferRow>, s: set<TransferKey>)
    requires s <= t.Keys && SyncEngine.IdsUnique(t)
    ensures StrictTotalOn(s, IdOrder(t))
  {
    var before := IdOrder(t);
    forall a | a in s
      ensures !before(a, a)
    {
      Text.StrLessIrreflexive(t[a].id);
    }
    forall a, b, c | a in s && b in s && c in s
      ensures before(a, b) && before(b, c) ==> before(a, c)
    {
      if before(a, b) && before(b, c) {
        Text.StrLessTransitive(t[a].id, t[b].id, t[c].id);
      }
    }
    forall a, b | a in s && b in s
      ensures a != b ==> before(a, b) || before(b, a)
    {
      if a != b {
        Text.StrLessTotal(t[a].id, t[b].id);
      }
    }
  }

  /** The rows the next `findMany` may return. */
  function Candidates(t: map<TransferKey, TransferRow>, userId: string, cursorId: Option<string>): set<TransferKey> {
    set k | k in t && Backfill.Matches(Backfill.BuildBackfillWhere(userId, cursorId), t[k])
  }

  /** A row the run is after: the user's, not priced by hand, missing a price. */
  predicate Wanted(userId: string, row: TransferRow) {
    Backfill.Matches(Backfill.BuildBackfillWhere(userId, None), row)
  }

  /** `id` is at or before the cursor. */
  predicate Passed(cursorId: Option<string>, id: string) {
    cursorId.Some? && !Text.StrLess(cursorId.value, id)
  }

  predicate IdsNonEmpty(t: map<TransferKey, TransferRow>) {
    forall k | k in t :: t[k].id != []
  }

  /** The run so far: `visited` is every row wanted at the start whose id the cursor has
      passed; those rows hold their backfilled prices, and every other row is untouched. */
  ghost predicate RunState(t0: map<TransferKey, TransferRow>, t: map<TransferKey, TransferRow>, userId: string,
                           cursorId: Option<string>, visited: set<TransferKey>, cache: map<CacheKey, Prices>) {
    && t.Keys == t0.Keys && visited <= t0.Keys
    && (forall k | k in t0 :: k in visited <==> Wanted(userId, t0[k]) && Passed(cursorId, t0[k].id))
    && (forall k | k in t0 && k !in visited :: t[k] == t0[k])
    && (forall k | k in visited :: CacheKeyOf(k, t0[k]) in cache)
    && (forall k | k in visited :: t[k] == Backfilled(t0[k], cache[CacheKeyOf(k, t0[k])]))
    && (cursorId.Some? ==> cursorId.value != [])
  }

  lemma RunStateIds(t0: map<TransferKey, TransferRow>, t: map<TransferKey, TransferRow>, userId: string,
                    cursorId: Option<string>, visited: set<TransferKey>, cache: map<CacheKey, Prices>)
    requires RunState(t0, t, userId, cursorId, visited, cache)
    ensures forall k | k in t :: t[k].id == t0[k].id
    ensures SyncEngine.IdsUnique(t0) ==> SyncEngine.IdsUnique(t)
    ensures IdsNonEmpty(t0) ==> IdsNonEmpty(t)
  {
    assert forall k | k in t :: t[k].id == t0[k].id;
  }

  /** The next batch's rows are wanted rows past the cursor, hence still untouched. */
  lemma CandidatesUntouched(t0: map<TransferKey, TransferRow>, t: map<TransferKey, TransferRow>, userId: string,
                            cursorId: Option<string>, visited: set<TransferKey>, cache: map<CacheKey, Prices>)
    requires RunState(t0, t, userId, cursorId, visited, cache)
    ensures forall k | k in Candidates(t, userId, cursorId) :: k !in visited && t[k] == t0[k]
    ensures forall k | k in t0 && Wanted(userId, t0[k]) && k !in visited :: k in Candidates(t, userId, cursorId)
  {
  }

  /** `a <= b` and `b < c` give `a < c` in the id order. */
  lemma AtMostThenLess(a: string, b: string, c: string)
    requires !Text.StrLess(b, a) && Text.StrLess(b, c)
    ensures Text.StrLess(a, c)
  {
    if a != b {
      Text.StrLessTotal(a, b);
      Text.StrLessTransitive(a, b, c);
    }
  }

  /** The facts about a batch that `TakeOrdered` and `BackfillBatch` supply to the run. */
  ghost predicate BatchTaken(t: map<TransferKey, TransferRow>, userId: string, cursorId: Option<string>,
                             batch: seq<TransferKey>) {
    && batch != [] && DistinctRows(batch, t)
    && (forall i :: 0 <= i < |batch| ==> batch[i] in Candidates(t, userId, cursorId))
    && (forall i, j :: 0 <= i < j < |batch| ==> IdOrder(t)(batch[i], batch[j]))
    && (forall x, i | x in Candidates(t, userId, cursorId) && x !in batch && 0 <= i < |batch| ::
          IdOrder(t)(batch[i], x))
  }

  /** After a batch, `visited` is again exactly the wanted rows the cursor has passed. */
  lemma BatchVisited(t0: map<TransferKey, TransferRow>, t: map<TransferKey, TransferRow>,
                     userId: string, cursorId: Option<string>, visited: set<TransferKey>,
                     cache: map<CacheKey, Prices>, batch: seq<TransferKey>)
    requires RunState(t0, t, userId, cursorId, visited, cache)
    requires BatchTaken(t, userId, cursorId, batch)
    ensures forall k | k in t0 :: k in visited + (set k | k in batch) <==>
      Wanted(userId, t0[k]) && Passed(Some(t[batch[|batch| - 1]].id), t0[k].id)
  {
    var last := batch[|batch| - 1];
    var cursor' := Some(t[last].id);
    CandidatesUntouched(t0, t, userId, cursorId, visited, cache);
    RunStateIds(t0, t, userId, cursorId, visited, cache);
    forall k | k in batch
      ensures Wanted(userId, t0[k]) && Passed(cursor', t0[k].id)
    {
      var i :| 0 <= i < |batch| && batch[i] == k;
      if i < |batch| - 1 {
        Text.StrLessAsymmetric(t[k].id, t[last].id);
      } else {
        Text.StrLessIrreflexive(t[k].id);
      }
    }
    forall k | k in visited
      ensures Passed(cursor', t0[k].id)
    {
      AtMostThenLess(t0[k].id, cursorId.value, t[last].id);
      Text.StrLessAsymmetric(t0[k].id, t[last].id);
    }
    forall k | k in t0 && Wanted(userId, t0[k]) && Passed(cursor', t0[k].id)
      ensures k in visited || k in batch
    {
      if k !in visited {
        assert k in Candidates(t, userId, cursorId);
        if k !in batch {
          assert false;
        }
      }
    }
  }

  /** After a batch, visited rows hold their backfilled prices and the others are untouched. */
  lemma BatchRows(t0: map<TransferKey, TransferRow>, t: map<TransferKey, TransferRow>, t': map<TransferKey, TransferRow>,
                  userId: string, cursorId: Option<string>, visited: set<TransferKey>,
                  cache: map<CacheKey, Prices>, cache': map<CacheKey, Prices>, batch: seq<TransferKey>, updated: nat)
    requires RunState(t0, t, userId, cursorId, visited, cache)
    requires BatchTaken(t, userId, cursorId, batch)
    requires BatchDone(t, t', batch, |batch|, cache', updated) && CacheGrows(cache, cache')
    ensures t'.Keys == t0.Keys
    ensures forall k | k in t0 && k !in visited && k !in batch :: t'[k] == t0[k]
    ensures forall k | k in visited + (set k | k in batch) :: CacheKeyOf(k, t0[k]) in cache'
    ensures forall k | k in visited + (set k | k in batch) ::
      t'[k] == Backfilled(t0[k], cache'[CacheKeyOf(k, t0[k])])
  {
    CandidatesUntouched(t0, t, userId, cursorId, visited, cache);
    assert batch[..|batch|] == batch;
    forall k | k in batch
      ensures CacheKeyOf(k, t0[k]) in cache' && t'[k] == Backfilled(t0[k], cache'[CacheKeyOf(k, t0[k])])
    {
      var i :| 0 <= i < |batch| && batch[i] == k;
    }
    forall k | k in visited
      ensures k !in batch
    {
    }
  }

  /** A non-empty batch moves the cursor to its last id and adds its rows to `visited`. */
  lemma BatchStep(t0: map<TransferKey, TransferRow>, t: map<TransferKey, TransferRow>, t': map<TransferKey, TransferRow>,
                  userId: string, cursorId: Option<string>, visited: set<TransferKey>,
                  cache: map<CacheKey, Prices>, cache': map<CacheKey, Prices>, batch: seq<TransferKey>, updated: nat)
    requires RunState(t0, t, userId, cursorId, visited, cache) && IdsNonEmpty(t0)
    requires BatchTaken(t, userId, cursorId, batch)
    requires BatchDone(t, t', batch, |batch|, cache', updated) && CacheGrows(cache, cache')
    ensures RunState(t0, t', userId, Some(t[batch[|batch| - 1]].id), visited + (set k | k in batch), cache')
  {
    BatchVisited(t0, t, userId, cursorId, visited, cache, batch);
    BatchRows(t0, t, t', userId, cursorId, visited, cache, cache', batch, updated);
    RunStateIds(t0, t, userId, cursorId, visited, cache);
  }

  /** An empty batch: no wanted row is left past the cursor, so every wanted row was visited. */
  lemma EmptyBatchEnds(t0: map<TransferKey, TransferRow>, t: map<TransferKey, TransferRow>, userId: string,
                       cursorId: Option<string>, visited: set<TransferKey>, cache: map<CacheKey, Prices>)
    requires RunState(t0, t, userId, cursorId, visited, cache)
    requires Candidates(t, userId, cursorId) == {}
    ensures forall k | k in t0 && Wanted(userId, t0[k]) :: k in visited
  {
    CandidatesUntouched(t0, t, userId, cursorId, visited, cache);
  }

  /** The run's loop invariant: `RunState`, the cache log, and the counters. */
  ghost predicate RunInv(t0: map<TransferKey, TransferRow>, t: map<TransferKey, TransferRow>, userId: string,
                         cursorId: Option<string>, visited: set<TransferKey>, cache: map<CacheKey, Prices>,
                         resolved: seq<CacheKey>, scanned: nat, updated: nat) {
    && RunState(t0, t, userId, cursorId, visited, cache) && CacheLog(cache, resolved)
    && SyncEngine.IdsUnique(t0) && IdsNonEmpty(t0)
    && scanned == |visited| && updated <= scanned
  }

  /** Every row wanted at the start has been scanned. */
  ghost predicate AllVisited(t0: map<TransferKey, TransferRow>, userId: string, visited: set<TransferKey>) {
    forall k | k in t0 && Wanted(userId, t0[k]) :: k in visited
  }

  lemma RunAdvance(t0: map<TransferKey, TransferRow>, t: map<TransferKey, TransferRow>, t': map<TransferKey, TransferRow>,
                   userId: string, cursorId: Option<string>, visited: set<TransferKey>,
                   cache: map<CacheKey, Prices>, cache': map<CacheKey, Prices>,
                   resolved: seq<CacheKey>, resolved': seq<CacheKey>, scanned: nat, updated: nat,
                   batch: seq<TransferKey>, batchUpdated: nat)
    requires RunInv(t0, t, userId, cursorId, visited, cache, resolved, scanned, updated)
    requires BatchTaken(t, userId, cursorId, batch)
    requires SliceState(t, t', batch, |batch|, cache, cache', batchUpdated, resolved, resolved')
    requires batchUpdated <= |batch|
    ensures RunInv(t0, t', userId, Some(t[batch[|batch| - 1]].id), visited + (set k | k in batch), cache', resolved',
                   scanned + |batch|, updated + batchUpdated)
  {
    BatchStep(t0, t, t', userId, cursorId, visited, cache, cache', batch, batchUpdated);
    CandidatesUntouched(t0, t, userId, cursorId, visited, cache);
    assert (set k | k in batch) !! visited;
    DistinctCard(batch);
  }

  /** One pass of the run's loop: the next `findMany` page after the cursor (`taken` rows),
      and, when it is not empty, its backfill, the cursor moved to its last id and the counters. */
  method NextBatch(db: Database, p: PriceOracle.Providers, moralisApiKey: Option<string>, userId: string,
                   cursorId: Option<string>, cache: map<CacheKey, Prices>, scanned: nat, updated: nat,
                   ghost t0: map<TransferKey, TransferRow>, ghost visited: set<TransferKey>,
                   ghost resolved: seq<CacheKey>, ghost quotes: map<CacheKey, PriceOracle.Quote>)
    returns (taken: nat, cursorId': Option<string>, cache': map<CacheKey, Prices>, scanned': nat, updated': nat,
             ghost visited': set<TransferKey>, ghost resolved': seq<CacheKey>, ghost quotes': map<CacheKey, PriceOracle.Quote>)
    modifies db`transfers, db`snapshots
    requires RunInv(t0, db.transfers, userId, cursorId, visited, cache, resolved, scanned, updated)
    requires CacheQuoted(cache, quotes, p, moralisApiKey)
    ensures CacheQuoted(cache', quotes', p, moralisApiKey)
    ensures taken == 0 ==> AllVisited(t0, userId, visited) && db.transfers == old(db.transfers)
    ensures taken == 0 ==> cursorId' == cursorId && cache' == cache && visited' == visited && resolved' == resolved
    ensures taken == 0 ==> scanned' == scanned && updated' == updated
    ensures RunInv(t0, db.transfers, userId, cursorId', visited', cache', resolved', scanned', updated')
    ensures taken <= BACKFILL_BATCH_SIZE && scanned' == scanned + taken
    ensures PriceOracle.SnapshotsKept(old(db.snapshots), db.snapshots)
  {
    cursorId', cache', scanned', updated', visited', resolved' := cursorId, cache, scanned, updated, visited, resolved;
    quotes' := quotes;
    RunStateIds(t0, db.transfers, userId, cursorId, visited, cache);
    var candidates := Candidates(db.transfers, userId, cursorId);
    IdOrderTotal(db.transfers, candidates);
    var transfers := TakeOrdered(candidates, IdOrder(db.transfers), BACKFILL_BATCH_SIZE);
    taken := |transfers|;
    if taken == 0 {
      EmptyBatchEnds(t0, db.transfers, userId, cursorId, visited, cache);
      return;
    }
    assert DistinctRows(transfers, db.transfers) by {
      forall i, j | 0 <= i < j < |transfers| ensures transfers[i] != transfers[j] {
        assert IdOrder(db.transfers)(transfers[i], transfers[j]);
      }
    }
    assert BatchTaken(db.transfers, userId, cursorId, transfers);
    ghost var t := db.transfers;
    cursorId' := Some(db.transfers[transfers[|transfers| - 1]].id);
    var batchUpdated, sleeps;
    batchUpdated, cache', sleeps, resolved', quotes' := BackfillBatch(db, p, moralisApiKey, transfers, cache, resolved, quotes);
    RunAdvance(t0, t, db.transfers, userId, cursorId, visited, cache, cache', resolved, resolved',
               scanned, updated, transfers, batchUpdated);
    visited' := visited + (set k | k in transfers);
    scanned' := scanned + |transfers|;
    updated' := updated + batchUpdated;
  }

  /** `backfillMissingPrices(userId)`. `visited` is the set of rows scanned, `cache` the run's
      price cache, `resolved` the keys sent to `getPrices`, in order, and `quotes` those calls. */
  method BackfillMissingPrices(db: Database, p: PriceOracle.Providers, userId: string)
    returns (r: BackfillSummary, batches: nat, ghost visited: set<TransferKey>,
             ghost cache: map<CacheKey, Prices>, ghost resolved: seq<CacheKey>, ghost quotes: map<CacheKey, PriceOracle.Quote>)
    modifies db`transfers, db`snapshots
    requires SyncEngine.IdsUnique(db.transfers) && IdsNonEmpty(db.transfers)
    ensures batches <= BACKFILL_MAX_BATCHES && r.scanned <= batches * BACKFILL_BATCH_SIZE
    ensures r.updated <= r.scanned && r.scanned == |visited|
    // only rows wanted at the start are scanned; each scanned row holds the prices cached
    // for its token and hour when some were found, and every other row is untouched
    ensures db.transfers.Keys == old(db.transfers).Keys
    ensures forall k | k in visited :: k in old(db.transfers) && Wanted(userId, old(db.transfers)[k])
    ensures forall k | k in visited :: CacheKeyOf(k, old(db.transfers)[k]) in cache
    ensures forall k | k in visited ::
      db.transfers[k] == Backfilled(old(db.transfers)[k], cache[CacheKeyOf(k, old(db.transfers)[k])])
    ensures forall k | k in old(db.transfers) && k !in visited :: db.transfers[k] == old(db.transfers)[k]
    // a run that stops before the batch cap has scanned every wanted row
    ensures batches < BACKFILL_MAX_BATCHES ==> AllVisited(old(db.transfers), userId, visited)
    // each (token, hour) key goes to `getPrices` at most once per run
    ensures CacheLog(cache, resolved)
    // every cached entry, and so every row written, holds what `getPrices` gave with the live
    // fallback off and the user's Moralis key
    ensures CacheQuoted(cache, quotes, p, SyncEngine.MoralisKeyFor(db.settings, userId, p.defaultMoralisKey))
    ensures PriceOracle.SnapshotsKept(old(db.snapshots), db.snapshots)
  {
    var scanned: nat, updated: nat := 0, 0;
    batches := 0;
    var moralisApiKey := SyncEngine.MoralisKeyFor(db.settings, userId, p.defaultMoralisKey);
    var cursorId: Option<string> := None;
    var priceCache: map<CacheKey, Prices> := map[];
    visited, resolved, quotes := {}, [], map[];
    ghost var t0 := db.transfers;
    while batches < BACKFILL_MAX_BATCHES
      invariant batches <= BACKFILL_MAX_BATCHES && scanned <= batches * BACKFILL_BATCH_SIZE
      invariant RunInv(t0, db.transfers, userId, cursorId, visited, priceCache, resolved, scanned, updated)
      invariant PriceOracle.SnapshotsKept(old(db.snapshots), db.snapshots)
      invariant CacheQuoted(priceCache, quotes, p, moralisApiKey)
    {
      ghost var snaps := db.snapshots;
      var taken;
      taken, cursorId, priceCache, scanned, updated, visited, resolved, quotes :=
        NextBatch(db, p, moralisApiKey, userId, cursorId, priceCache, scanned, updated, t0, visited, resolved, quotes);
      PriceOracle.SnapshotsKeptTransitive(old(db.snapshots), snaps, db.snapshots);
      if taken == 0 {
        break;
      }
      batches := batches + 1;
    }
    cache := priceCache;
    r := BackfillSummary(scanned, updated);
  }

  /** Distinct elements: the set has as many elements as the sequence. */
  lemma {:induction false} DistinctCard(s: seq<TransferKey>)
    requires forall i, j | 0 <= i < j < |s| :: s[i] != s[j]
    ensures |set k | k in s| == |s|
  {
    if s != [] {
      var init := s[..|s| - 1];
      DistinctCard(init);
      assert (set k | k in s) == (set k | k in init) + {s[|s| - 1]};
      assert s[|s| - 1] !in init;
    }
  }

  // ---- the cache within a slice ----

  /** The keys that reach `getPrices` when every row of a slice consults the cache as it was
      before the slice, as the concurrent `slice.map` does: each row's lookup happens before
      any of the slice's results is stored. */
  function SliceFetchesAsWritten(cached: set<CacheKey>, keys: seq<CacheKey>): (fetched: seq<CacheKey>)
    ensures forall ck | ck in fetched :: ck in keys && ck !in cached
  {
    if keys == [] then []
    else (if keys[0] in cached then [] else [keys[0]]) + SliceFetchesAsWritten(cached, keys[1..])
  }

  /** The same slice with each row seeing the results stored by the rows before it. */
  function SliceFetches(cached: set<CacheKey>, keys: seq<CacheKey>): (fetched: seq<CacheKey>)
    ensures forall ck | ck in fetched :: ck in keys && ck !in cached
    ensures forall i, j | 0 <= i < j < |fetched| :: fetched[i] != fetched[j]
    decreases |keys|
  {
    if keys == [] then []
    else if keys[0] in cached then SliceFetches(cached, keys[1..])
    else [keys[0]] + SliceFetches(cached + {keys[0]}, keys[1..])
  }

  /** Two rows of one slice with the same token and hour: as written, both miss the cache and
      the key is resolved twice; with each row seeing the earlier ones, once. */
  lemma SliceFetchesTwice(ck: CacheKey)
    ensures SliceFetchesAsWritten({}, [ck, ck]) == [ck, ck]
    ensures SliceFetches({}, [ck, ck]) == [ck]
  {
    assert [ck, ck][1..] == [ck];
    assert SliceFetchesAsWritten({}, [ck]) == [ck];
    assert SliceFetches({ck}, [ck]) == SliceFetches({ck}, []) == [];
    assert SliceFetches({}, [ck, ck]) == [ck] + SliceFetches({} + {ck}, [ck]);
    assert {} + {ck} == {ck};
  }
}
