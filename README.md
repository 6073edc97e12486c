# ethfolioxp core, modelled in Dafny

ethfolioxp is a personal Ethereum portfolio tracker. A signed-in user links one wallet
address and stores an Etherscan key and an optional Moralis key. The wallet sync reads the
wallet's native and ERC-20 transfers from Etherscan, page by page. It keeps the transfers
that touch the wallet and creates one row per transfer under the natural key
(transaction hash, token, log index). Each row is priced in USD and RUB at the transfer's
hour.

The price oracle resolves those prices from an hour-bucketed snapshot cache first. It then
tries the historical CoinGecko series, Moralis, DexScreener (live, only for recent
transfers), a nearby snapshot, and the USD/RUB exchange rate, in that order.

A backfill job walks the user's unpriced rows in id order behind a cursor. It runs in
batches of 150, at most 5 batches, with a run-wide price cache. It writes whatever prices
it finds.

Around this core sit:
- the API routes that list transfers (keyset pagination by block time and id), set a
  price by hand, link the wallet and store encrypted API keys;
- the shared request helpers: the rate limiter, client IP, the HTTP client with cache and
  retries, metrics, validation, the secrets check and the admin guard;
- the desktop's window geometry: clamping a window into the viewport, and cascade and
  tile layouts.

The model has one Dafny module per concern. The database is a `Database` class whose
tables are maps keyed by their unique keys; the sync and backfill methods modify it in
place. The rate limiter, the metrics registry, the HTTP client's cache and the browser
storage are classes too. Pure helpers are functions with lemmas: cursors as base64 of
UTF-8 of JSON, JavaScript `Number` and `Math.min`/`Math.max`, `trim`, window geometry,
holdings and the backfill filter.

Everything outside the process is a parameter:
- the explorer replies;
- the price providers and the exchange rate;
- the clock;
- the cipher;
- the environment.

## Model

| member | source | states |
|---|---|---|
| Authz.IsAdminSession | src/lib/authz.ts:3-5 | a session is an admin session exactly when it has a user whose role is `ADMIN` |
| Authz.GuardPassIsAdmin | src/lib/authz.ts:3-5 | every session the admin guard lets through is an admin session |
| Authz.AdminWithoutIdIsStopped | src/lib/adminGuard.ts:4-6 | the converse fails: an `ADMIN` role without a user id is an admin session that the guard stops with 401 |
| Authz.Examples | src/lib/authz.ts:3-5 | no session and a `USER` role are not admin, an `ADMIN` role is |
| AdminGuard.UserId | src/lib/adminGuard.ts:4 | a user id is read only from a present session with a present user |
| AdminGuard.Role | src/lib/adminGuard.ts:7 | a role is read only from a present session with a present user |
| AdminGuard.GetAdminGuard | src/lib/adminGuard.ts:3-11 | no (or an empty) user id gives 401 "Unauthorized"; signed in without the `ADMIN` role gives 403 "Forbidden"; the guard passes if and only if the user is signed in and is `ADMIN` |
| AdminGuard.RoleWithoutIdUnauthorized | src/lib/adminGuard.ts:4-6 | identity is checked before the role: a missing or empty id is a 401 whatever the role |
| AdminGuard.Examples | src/lib/adminGuard.ts:3-11 | no session is 401, a `USER` is 403, an `ADMIN` with an id passes |
| Backfill.BuildBackfillWhere | src/lib/backfill.ts:3-13 | the filter names the user, excludes manual prices, asks for a missing price, and constrains the id exactly when the cursor is truthy, to ids after it |
| Backfill.SelectedRows | src/lib/backfill.ts:7-12 | a row is selected if and only if it is the user's, not manually priced, lacks a USD or RUB price, and lies after a truthy cursor |
| Backfill.PricedRowsNeverSelected | src/lib/backfill.ts:9-10 | manually priced rows and rows with both prices are never selected |
| Backfill.NoCursorNoIdConstraint | src/lib/backfill.ts:11 | a null or empty cursor puts no constraint on the id |
| Backfill.CursorNarrows | src/lib/backfill.ts:11 | a cursor only narrows the selection made without one |
| Prices.Abs | src/lib/prices.ts:6 | the result is the argument or its negation, and is never negative |
| Prices.NearestIsUnique | src/lib/prices.ts:5-11 | at most one position is the first-nearest qualifying bucket, so the answer is determined |
| Prices.PickNearbyBucket | src/lib/prices.ts:1-14 | null exactly when no bucket lies within `maxAge`; otherwise the bucket at the first position of least distance among those within `maxAge` |
| TransferLimit.GetTransferLimit | src/lib/transferPagination.ts:5-8 | a missing or empty limit gives 20; NaN exactly when `Number(limit)` is NaN; otherwise a number in [10, 100], equal to the raw number when that is already in range |
| TransferLimit.ClampsOutOfRange | src/lib/transferPagination.ts:7 | a number below 10 or minus infinity gives 10; one above 100 or plus infinity gives 100 |
| TransferLimit.DefaultLimitExample | src/lib/transferPagination.ts:6 | a missing limit gives 20 |
| TransferLimit.SmallLimitExample | src/lib/transferPagination.ts:7 | "5" gives 10 |
| TransferLimit.LargeLimitExample | src/lib/transferPagination.ts:7 | "250" gives 100 |
| TransferLimit.NonNumericLimitIsNaN | src/lib/transferPagination.ts:6-7 | "abc" comes out as NaN: `Math.max` and `Math.min` pass NaN through |
| TransferLimit.FractionalLimitPassesThrough | src/lib/transferPagination.ts:6-7 | a limit `whole.fraction` inside [10, 100] comes out as that fractional number, not a whole count of rows |
| TransferLimit.FifteenAndAHalf | src/lib/transferPagination.ts:6-7 | "15.5" is such a limit, of value 15.5 |
| TransferLimit.PageSize | src/lib/transferPagination.ts:5-8 | the evidently intended page size: a whole number in [10, 100], 20 for NaN, the floor of an in-range limit |
| Pagination.EncodeCursor | src/lib/pagination.ts:3-5 | the encoding is non-empty base64 text, a multiple of four characters long |
| Pagination.DecodeCursor | src/lib/pagination.ts:7-20 | a missing or empty parameter gives null, and any decoded cursor has a non-empty id |
| Pagination.CursorOf | src/lib/pagination.ts:13-16 | a cursor is read only when `id` is truthy, and then its id is non-empty text |
| Pagination.CursorMembersLookup | src/lib/pagination.ts:4 | the stringified cursor object holds its `id` as a string and its `ts` as a number |
| Pagination.CursorOfMembers | src/lib/pagination.ts:13-16 | the members of a cursor with a non-empty id are read back as that cursor |
| Pagination.DecodeLayers | src/lib/pagination.ts:12 | decoding chains base64, UTF-8 and JSON, and reads the cursor from the parsed object |
| Pagination.EncodeLayers | src/lib/pagination.ts:4 | each layer of an encoded cursor decodes back to the layer below it |
| Pagination.DecodeEncode | src/lib/pagination.ts:3-20 | a cursor with a non-empty id survives encoding and decoding unchanged |
| Pagination.EmptyIdLost | src/lib/pagination.ts:13 | a cursor with an empty id does not survive: its falsy id makes decoding give null |
| Pagination.NumericIdStringified | src/lib/pagination.ts:16 | a non-zero numeric id comes back as its decimal text |
| Pagination.RoundTripExample | src/lib/pagination.ts:3-20 | the cursor `{ id: "t1", ts: 123 }` comes back unchanged |
| Metrics.CounterOr0 | src/lib/metrics.ts:10 | a counter that was never set reads as 0, a set one as its value |
| Metrics.TimerOrEmpty | src/lib/metrics.ts:13 | a timer that was never set starts at zero samples and zero milliseconds |
| Metrics.Registry.constructor | src/lib/metrics.ts:6 | the registry starts with no counters and no timers |
| Metrics.Registry.Increment | src/lib/metrics.ts:9-11 | only counter `name` changes, by `by` from its old value or from 0; the timers are unchanged |
| Metrics.Registry.Timing | src/lib/metrics.ts:12-17 | only timer `name` changes: one more sample and `ms` more total; the counters are unchanged |
| Metrics.Registry.TakeSnapshot | src/lib/metrics.ts:18-20 | the snapshot holds exactly the current counters and timers, as a value later updates cannot reach |
| Config.ValidateSecretValue | src/lib/config.ts:3-8 | a secret is valid exactly when it is present, at least 16 UTF-16 code units once trimmed, and does not contain the placeholder |
| Config.KeysSecret | src/lib/config.ts:16 | an unset or empty keys secret falls back to the session secret |
| Config.AssertSecureSecrets | src/lib/config.ts:10-21 | outside production it always passes; in production it passes exactly when both the session secret and the keys secret are valid, and fails with "Missing or weak secrets in production." |
| Config.FallbackToSessionSecret | src/lib/config.ts:15-18 | in production without a keys secret, the session secret alone decides |
| Config.ProductionKeysSecretValid | src/lib/config.ts:14-20 | once production passes, the secret that encrypts API keys is present and valid |
| Config.PlaceholderRejected | src/lib/config.ts:4 | any text containing the placeholder is refused, however long |
| Config.ShortRejected | src/lib/config.ts:4 | text of fewer than eight characters is refused |
| Config.ShortOfPlaceholderAccepted | src/lib/config.ts:4 | at least 16 characters without white space at either end, and shorter than the placeholder, is accepted |
| Config.AcceptsExample | src/lib/config.ts:3-8 | "super-secret-value-123" is accepted |
| Config.RejectsPlaceholder | src/lib/config.ts:4 | the placeholder itself is refused |
| Store.ValueOf | src/lib/sync.ts:465-466 | a value exists exactly when a price does, and it is price × amount |
| Store.WithPrices | src/lib/sync.ts:619-625 | the row takes the given prices with values consistent with them, and no other column changes |
| Store.First | src/lib/sync.ts:583 | the first row under a strict total order is in the set and before every other row |
| Store.TakeOrdered | src/lib/sync.ts:580-585 | `findMany` with an order and `take: n`: min(n, size) rows of the set, in ascending order, each before every row left out |
| JsNumber.Pow10 | src/lib/sync.ts:73-77 | the scale 10^e is at least 1 |
| JsNumber.FromText | src/lib/transferPagination.ts:6 | `Number(text)`: blank text reads as 0 |
| JsNumber.FromNatText | src/lib/transferPagination.ts:6 | the decimal text of a natural number reads back as that number |
| JsNumber.FromNegatedText | src/lib/transferPagination.ts:6 | a minus sign before such text reads as its negation |
| JsNumber.FromFractionText | src/app/api/transfers/override/route.ts:13 | digits, a point and more digits read as the number with that fraction |
| JsNumber.NonNumericIsNaN | src/app/api/transfers/override/route.ts:13-14 | text that does not start like a number reads as NaN |
| JsNumber.Max | src/lib/transferPagination.ts:7 | `Math.max`: NaN exactly when either side is NaN; the larger of two finite numbers |
| JsNumber.Min | src/lib/transferPagination.ts:7 | `Math.min`: NaN exactly when either side is NaN; the smaller of two finite numbers |
| Json.EscapeChar | src/lib/pagination.ts:4 | a character is written as itself exactly when it is not a quote, a backslash or a control character, and as a backslash escape otherwise |
| Json.Lookup | src/lib/pagination.ts:13-16 | a property read finds a value exactly when some member has the key, and the value is that of such a member |
| Json.ToText | src/lib/pagination.ts:16 | `String(v)` of a truthy value is not empty |
| Json.ValueRoundTrip | src/lib/pagination.ts:4-12 | every value's text parses back to the value, whatever follows it |
| Json.MembersRoundTrip | src/lib/pagination.ts:4-12 | a non-empty member list's text parses back to the list |
| Json.ParseStringify | src/lib/pagination.ts:4-12 | `JSON.parse(JSON.stringify(o))` gives back the same members |
| Base64.Encode | src/lib/pagination.ts:4 | the text has four characters for every three bytes or part of them |
| Base64.DecodeEncode | src/lib/pagination.ts:4-12 | decoding the base64 text of bytes gives the bytes back |
| Utf8.DecodeEncode | src/lib/pagination.ts:4-12 | decoding the UTF-8 bytes of a string gives the string back |
| Utf8.EncodeAscii | src/lib/pagination.ts:4 | an ASCII string is its own byte sequence |
| Text.Trim | src/lib/config.ts:4 | `trim()`: no longer than the input, and it neither starts nor ends with whitespace |
| Text.TrimEmpty | src/lib/config.ts:4 | nothing is left exactly when the text is all whitespace |
| Text.TrimIdempotent | src/lib/validation.ts:4 | trimming twice is trimming once |
| Text.ToLower | src/lib/validation.ts:4 | same length, each character lowered, and no capital left |
| Text.ToLowerTrimIdempotent | src/lib/validation.ts:4 | `trim().toLowerCase()` done twice is done once |
| Text.ToUpper | src/lib/httpClient.ts:32 | same length, each character raised, and no lower-case letter left |
| Text.Utf16Length | src/lib/config.ts:4 | `length` counts between one and two code units per character |
| Text.StrLessTotal | src/lib/sync.ts:583 | two different ids are ordered one way or the other |
| Text.StrLessTransitive | src/lib/sync.ts:583 | the id order is transitive |
| KeyStorage.Storage.constructor | src/lib/storage.ts:1 | a storage holds exactly the entries it is given |
| KeyStorage.Storage.GetItem | src/lib/storage.ts:1 | null exactly for a key that is not stored, otherwise the stored text |
| KeyStorage.Storage.SetItem | src/lib/storage.ts:1 | exactly `key` is set to `value`, the other entries stay |
| KeyStorage.Storage.RemoveItem | src/lib/storage.ts:1 | exactly `key` is removed, the other entries stay |
| KeyStorage.Raw | src/lib/storage.ts:18 | the new key's value when it is stored (even when empty), otherwise the old key's value or null |
| KeyStorage.Migrated | src/lib/storage.ts:11-28 | null and the storage untouched exactly when the text read is null or empty; otherwise the parsed value, stored re-serialised under the new key, with the old key removed when it differs; every other key is untouched |
| KeyStorage.MigrateStorageKey | src/lib/storage.ts:11-28 | the returned value and the storage left behind are those of `Migrated` on the storage found |
| KeyStorage.MigrateTwice | src/lib/storage.ts:11-28 | when parsing undoes serialising, a second migration leaves the storage as the first left it and returns the same value |
| KeyStorage.NewKeyWins | src/lib/storage.ts:18 | a non-empty value under the new key wins, and the old key is removed unread |
| KeyStorage.EmptyNewKeyBlocksFallback | src/lib/storage.ts:18-21 | an empty string under the new key blocks the fallback: null, storage untouched |
| KeyStorage.SettingsMove | src/lib/__tests__/storage.test.ts:18-30 | the saved settings move from `ethfolio.settings` to `retrodesk.settings`, and the old key is gone |
| Validation.MatchesEmailShape | src/lib/validation.ts:1 | an address matching the pattern has exactly one `@`, something before it, and at least three characters after it |
| Validation.ValidateEmail | src/lib/validation.ts:3-9 | accepted exactly when the trimmed, lower-cased text matches the pattern and is at most 320 code units; the value is that text, with no upper-case letter; the error is "Invalid email." |
| Validation.ValidateEmailIdempotent | src/lib/validation.ts:3-9 | an accepted address is accepted again as it is |
| Validation.AcceptedEmailHasOneAt | src/lib/validation.ts:1-9 | an accepted address has exactly one `@`, not at the start |
| Validation.ValidatePassword | src/lib/validation.ts:11-24 | accepted exactly when the trimmed text keeps the five rules (length 10, lower, upper, digit, symbol); the value is the trimmed text; the error is "Weak password." |
| Validation.ValidatePasswordIdempotent | src/lib/validation.ts:11-24 | an accepted password is accepted again as it is |
| Validation.MatchesJoined | src/lib/validation.ts:1 | a local part, `@` and a domain with an inner dot always match the pattern |
| Validation.LowerAddressMatches | src/lib/validation.ts:1 | a lower-case `local@name.tld` address matches the pattern |
| Validation.LowerAddressNormal | src/lib/validation.ts:4 | trimming and lower-casing leave such an address as it is |
| Validation.AcceptsLowerAddress | src/lib/validation.ts:3-9 | such an address of at most 160 characters is accepted unchanged |
| Validation.StrongAt | src/lib/validation.ts:13-19 | ten characters with an upper-case letter, a lower-case letter, a digit and a symbol keep every rule |
| Validation.AcceptsUserAtExample | src/lib/__tests__/validation.test.ts:7 | "user@example.com" is accepted as it is |
| Validation.RejectsNope | src/lib/__tests__/validation.test.ts:6 | "nope" is rejected |
| Validation.NopeFacts | src/lib/__tests__/validation.test.ts:6 | "nope" does not match the pattern and has no upper-case letter |
| Validation.RejectsShort | src/lib/__tests__/validation.test.ts:13 | "short" is rejected |
| Validation.ShortFacts | src/lib/__tests__/validation.test.ts:13 | "short" has no upper-case letter |
| Validation.RejectsAllLowercase | src/lib/__tests__/validation.test.ts:14 | "alllowercasebutlong" is rejected |
| Validation.AllLowercaseFacts | src/lib/__tests__/validation.test.ts:14 | "alllowercasebutlong" has no upper-case letter |
| Validation.AcceptsValid1234 | src/lib/__tests__/validation.test.ts:15 | "Valid1234!" is accepted as it is |
| Validation.Valid1234Trimmed | src/lib/__tests__/validation.test.ts:15 | trimming leaves "Valid1234!" as it is |
| Validation.Valid1234Strong | src/lib/__tests__/validation.test.ts:15 | "Valid1234!" keeps the five rules |
| Request.ReadHeader | src/lib/request.ts:3-15 | no headers give undefined; a `Headers` object gives its entry; a record gives its single value or the first of its list (undefined for an empty list) |
| Request.FirstField | src/lib/request.ts:24 | the result is the prefix before the first comma, or the whole text when there is none |
| Request.FirstFieldOfList | src/lib/request.ts:24 | the first field of `first,rest` is `first` |
| Request.GetClientIp | src/lib/request.ts:17-27 | never empty; "unknown" unless `TRUST_PROXY` is "1"; then the trimmed first hop of a non-empty `x-forwarded-for` (or "unknown" if that is blank), else a non-empty `x-real-ip`, else "unknown" |
| Request.ClientIsFirstHop | src/lib/request.ts:22-24 | behind a trusted proxy the client is the trimmed first hop, whatever follows it |
| Request.UntrustedIgnoresHeaders | src/lib/request.ts:18-21 | without a trusted proxy any two header sets give "unknown" |
| Request.IgnoresHeadersUntrusted | src/lib/__tests__/request.test.ts:5-9 | forwarded headers are ignored when `TRUST_PROXY` is unset |
| Request.TakesFirstForwarded | src/lib/__tests__/request.test.ts:11-15 | "1.1.1.1, 3.3.3.3" gives "1.1.1.1" behind a trusted proxy |
| Request.ForwardedFacts | src/lib/__tests__/request.test.ts:13 | "1.1.1.1" has no comma and is the first field of the test's header |
| RateLimit.Decide | src/lib/rateLimit.ts:3-23 | no bucket or an expired one opens a new window with one call; a full live window refuses with 0 remaining and leaves the bucket; a live window with room counts the call and reports `max(0, limit - count)` remaining; the reported reset time is the bucket's |
| RateLimit.RateLimiter.constructor | src/lib/rateLimit.ts:1 | the limiter starts with no buckets |
| RateLimit.RateLimiter.Check | src/lib/rateLimit.ts:3-23 | the result and `key`'s new bucket are `Decide` of its old bucket at `now`; no other bucket changes |
| RateLimit.Run | src/lib/rateLimit.ts:3-23 | over a run of calls, the admitted count is at most the number of calls, and any call leaves a bucket |
| RateLimit.LiveWindowRun | src/lib/rateLimit.ts:13-22 | inside a live window the reset time stays, and exactly `min(calls, max(limit, 1) - count)` calls are admitted and counted |
| RateLimit.AdmittedPerWindow | src/lib/rateLimit.ts:7-22 | of calls within the window the first opens, exactly the first `max(limit, 1)` are admitted, whatever the key's state |
| RateLimit.RefusalRepeats | src/lib/rateLimit.ts:13-15 | a refused call leaves the bucket unchanged, so later calls in the window are refused too |
| Holdings.Signed | src/lib/holdings.ts:21-22 | IN counts its sum, OUT its negation |
| Holdings.NetTotals | src/lib/holdings.ts:15-25 | the totals map has exactly the tokens that have a counted group |
| Holdings.TokenMap | src/lib/holdings.ts:14 | every token is found by its id, and every entry is a listed token with that id |
| Holdings.Pipeline | src/lib/holdings.ts:27-36 | the result has at most one holding per total |
| Holdings.Totals | src/lib/holdings.ts:15-25 | the loop leaves the totals `NetTotals` describes, with keys in first-insertion order |
| Holdings.BuildHoldings | src/lib/holdings.ts:13-37 | the result is the holdings of the groups and tokens, whose properties the lemmas below state |
| Holdings.TokenOrderMembers | src/lib/holdings.ts:23-24 | the totals order holds each token with a counted group, and only those, once each |
| Holdings.TokenOrderFirstOccurrence | src/lib/holdings.ts:17-25 | tokens are ordered by their first counted group |
| Holdings.PipelineSound | src/lib/holdings.ts:27-36 | each holding is a known token with its non-zero total |
| Holdings.PipelineComplete | src/lib/holdings.ts:27-36 | each known token with a non-zero total yields a holding |
| Holdings.PipelineOrder | src/lib/holdings.ts:27-36 | holdings keep the order of the totals map |
| Holdings.HoldingsSoundComplete | src/lib/holdings.ts:13-37 | every holding is a listed token with its net amount ΣIN − ΣOUT, not zero; every listed token with a counted group and a non-zero net is held |
| Holdings.HoldingsOrdered | src/lib/holdings.ts:13-37 | each token is held at most once, in the order of its first counted group |
| Holdings.NoGroupsNoAmount | src/lib/holdings.ts:18-20 | a token without a counted group nets to zero |
| Holdings.ExampleTotals | src/lib/__tests__/holdings.test.ts:4-20 | IN 2 and OUT 1.5 net to 0.5; IN 5 and OUT 5 net to zero |
| WindowBounds.Max | src/lib/windowBounds.ts:26-35 | the larger of two integers (`Math.max`) |
| WindowBounds.Min | src/lib/windowBounds.ts:30-37 | the smaller of two integers (`Math.min`) |
| WindowBounds.ClampAxis | src/lib/windowBounds.ts:26-37 | along one axis the extent lies between the minimum (capped by the largest) and the largest the viewport allows, and an extent already in that range is kept; the offset lies between the margin and the far edge less the margin, and an offset already there is kept; a viewport wide enough keeps the window and its margin inside it |
| WindowBounds.Clamp | src/lib/windowBounds.ts:20-43 | width and height lie between their minimum (capped by the largest) and the viewport less both margins (at least 160 by 200); the position lies between the margin and the far edge; when the viewport is larger than the floors the whole window stays a margin inside it |
| WindowBounds.ClampIdempotent | src/lib/windowBounds.ts:20-43 | clamping clamped bounds for the same viewport changes nothing |
| WindowBounds.NegativeViewIsEmpty | src/lib/windowBounds.ts:26-27 | a negative viewport counts as an empty one, leaving a 160 by 200 window at the margins |
| WindowBounds.FittingWindowUnchanged | src/lib/windowBounds.ts:20-43 | a window at least the minimum size that already sits inside the margins is left as it is |
| WindowBounds.Examples | src/lib/__tests__/window-bounds.test.ts:3-48 | the three cases of the component tests: widened to the minimum and pulled inside, shrunk to a narrow viewport, and clamped when oversize |
| WindowLayouts.Cascade | src/lib/windowLayouts.ts:39-44 | one placement per id, in order, with no size |
| WindowLayouts.CascadeSteps | src/lib/windowLayouts.ts:42 | each later window sits 28 per step to the right and 26 per step lower than an earlier one |
| WindowLayouts.CascadeStart | src/lib/windowLayouts.ts:42 | the first window is at (120, 80) |
| WindowLayouts.CeilSqrtFrom | src/lib/windowLayouts.ts:50 | the least `c` from the start point with `c * c >= n` |
| WindowLayouts.CeilSqrt | src/lib/windowLayouts.ts:50 | `ceil(sqrt(n))` for a whole `n`: the least `c` with `c * c >= n`, positive for positive `n` |
| WindowLayouts.CeilDiv | src/lib/windowLayouts.ts:51 | `ceil(n / d)`: the least `q` with `q * d >= n` |
| WindowLayouts.GridFor | src/lib/windowLayouts.ts:50-54 | a grid of positive columns and rows that holds all `n` tiles, with no spare column of the square root or spare row, and tiles at least 260 by 180 |
| WindowLayouts.Tile | src/lib/windowLayouts.ts:46-68 | no ids give no tiles; otherwise one tile per id, in order, each of the grid's tile size at its column `i % columns` and row `i / columns` |
| WindowLayouts.TileRows | src/lib/windowLayouts.ts:51-57 | every tile's row lies inside the grid |
| WindowLayouts.MulMonotone | src/lib/windowLayouts.ts:62-63 | multiplying by a non-negative factor keeps order |
| WindowLayouts.StepsApart | src/lib/windowLayouts.ts:62-63 | in steps of size plus gutter, a tile ends before the tile of a later step begins |
| WindowLayouts.GridPlacesDisjoint | src/lib/windowLayouts.ts:56-67 | two different places of a grid never overlap |
| WindowLayouts.TilesDisjoint | src/lib/windowLayouts.ts:46-68 | two different tiles never overlap: one lies wholly left of, right of, above or below the other |
| WindowLayouts.GridExamples | src/lib/windowLayouts.ts:50-54 | four windows make a 2 by 2 grid, five a 3 by 2 grid, and one fills the area less the gutters |
| HttpClient.CacheKey | src/lib/httpClient.ts:33 | the key is the method, a colon and the URL, each recoverable from it |
| HttpClient.CacheKeysSeparateUrls | src/lib/httpClient.ts:32-33 | for one method, two requests share a cache entry if and only if their URLs are equal |
| HttpClient.Pruned | src/lib/httpClient.ts:13-19 | exactly the entries that expire after `now` remain, unchanged |
| HttpClient.LastAttempt | src/lib/httpClient.ts:45-87 | the returned attempt is the first, from `k` on, that may not be retried (every earlier one may be) |
| HttpClient.LastAttemptIs | src/lib/httpClient.ts:60-77 | the loop stops at the first attempt that may not be retried |
| HttpClient.AttemptCount | src/lib/httpClient.ts:45 | no attempt for negative `retries`; otherwise between 1 and `retries + 1`, and exactly 1 for a method other than GET |
| HttpClient.Final | src/lib/httpClient.ts:60-83 | never cached; ok exactly for a response with a 2xx status; a throw gives status 0, `{}` and its message; a response gives its status and body |
| HttpClient.LoopResult | src/lib/httpClient.ts:45-89 | negative `retries` gives the fall-through `{ ok: false, status: 0 }`; otherwise the result of the last attempt made |
| HttpClient.Delays | src/lib/httpClient.ts:62-75 | the sleep after attempt `k` lasts `retryBaseMs * (k + 1)` |
| HttpClient.Responses | src/lib/httpClient.ts:58 | at most one timing sample per attempt |
| HttpClient.StoreIfOk | src/lib/httpClient.ts:68-70 | a successful response, with caching on, is stored under the key until `ttl` after it arrived; otherwise the cache is unchanged |
| HttpClient.RetriedOnlyAfterServerErrors | src/lib/httpClient.ts:61-74 | an attempt is repeated only for GET, and only after a throw or a 5xx status |
| HttpClient.AllThrowsExhaustRetries | src/lib/httpClient.ts:73-83 | a GET whose every attempt throws is tried `retries + 1` times and returns the last error message with status 0 |
| HttpClient.StoredSuccessHits | src/lib/httpClient.ts:35-70 | a stored success answers the same request until it expires, with the stored body |
| HttpClient.Client.constructor | src/lib/httpClient.ts:11 | the response cache starts empty |
| HttpClient.Client.Prune | src/lib/httpClient.ts:13-19 | the cache becomes `Pruned` of the old cache |
| HttpClient.Client.FetchJson | src/lib/httpClient.ts:25-90 | a live cache entry answers at once with status 200 and `cached`, without calling `fetch`; otherwise the result, the number of `fetch` calls, the sleeps, the cache (pruned, plus a stored success) and one `external.http` sample per response are those of the attempt loop; counters never change |
| HttpClient.TimersStep | src/lib/httpClient.ts:58 | one more attempt adds its sample, if it responded, to the `external.http` timer |
| HttpClient.Attempts | src/lib/httpClient.ts:45-89 | the loop returns `LoopResult`, calls `fetch` `AttemptCount` times, sleeps `Delays` between them, records one sample per response and touches no counter |
| Api.FieldText | src/app/api/wallet/route.ts:22 | `String(body?.[name] \|\| "")` is non-empty exactly for a truthy field, and a string field gives its own text |
| Api.Caught | src/app/api/wallet/route.ts:63-75 | the catch block answers 503 "Database is unavailable…" exactly when the message says the database server cannot be reached, and 500 with the route's own message otherwise |
| Api.UnreachableIs503 | src/app/api/wallet/route.ts:64-74 | Prisma's connection failure is reported as 503 |
| TransfersRoute.CursorAt | src/app/api/transfers/route.ts:35-38 | a row does not pass its own cursor, and another row passes it exactly when it is later in listing order |
| TransfersRoute.NewerIrreflexive | src/app/api/transfers/route.ts:31 | no row is listed before itself |
| TransfersRoute.NewerTransitive | src/app/api/transfers/route.ts:31 | the listing order is transitive |
| TransfersRoute.NewerTotal | src/app/api/transfers/route.ts:31 | rows with different ids are always ordered one way or the other |
| TransfersRoute.KeyOrderTotal | src/app/api/transfers/route.ts:31 | with unique ids, the listing order is a strict total order on the table's keys |
| TransfersRoute.NextCursor | src/app/api/transfers/route.ts:35-38 | null exactly for an empty page, otherwise the encoded cursor of the last row |
| TransfersRoute.Get | src/app/api/transfers/route.ts:8-41 | 401 exactly without a signed-in user; otherwise a page of the user's rows past the decoded cursor, newest first (block time, then id, descending), at most the page size, newer than every eligible row left out, and all of them when the page is short; the next cursor is that of the last row |
| TransfersRoute.PageFromKeys | src/app/api/transfers/route.ts:28-33 | the rows of the ordered keys the query takes form a page |
| TransfersRoute.KeysCoverEligible | src/app/api/transfers/route.ts:32 | as many distinct keys as eligible ones cover them all |
| TransfersRoute.DistinctCount | src/app/api/transfers/route.ts:32 | distinct keys make a set of the same size |
| TransfersRoute.NextCursorDecodes | src/app/api/transfers/route.ts:35-38 | the next cursor of a page decodes to the cursor of its last row |
| TransfersRoute.NextPagePartition | src/app/api/transfers/route.ts:16-38 | following the next cursor, a row is eligible exactly when it was eligible for this page and is not on it: no row is listed twice and none is skipped |
| TransfersRoute.OlderThanLast | src/app/api/transfers/route.ts:18-31 | a row older than a page's last row is not on the page and passes the page's own cursor |
| TransfersRoute.NewerAsymmetric | src/app/api/transfers/route.ts:31 | no two rows are each listed before the other |
| TransfersRoute.BeforeCursorTransitive | src/app/api/transfers/route.ts:21-24 | a row older than one that passes the cursor passes it too |
| WalletRoute.NormalizeAddress | src/app/api/wallet/route.ts:6-8 | trimming and lower-casing never lengthen the text and leave no upper-case letter |
| WalletRoute.AcceptedIffHexAddress | src/app/api/wallet/route.ts:10-26 | an address is accepted exactly when its trimmed text is `0x`/`0X` and 40 hex digits in either case |
| WalletRoute.ValidIsNormal | src/app/api/wallet/route.ts:6-12 | a valid address is already normal |
| WalletRoute.NormalizeIdempotent | src/app/api/wallet/route.ts:6-8 | normalising twice is normalising once |
| WalletRoute.SavedValid | src/app/api/wallet/route.ts:47-60 | saving keeps addresses unique and one wallet per user, links the address to the user, leaves other users' wallets alone, and adds at most the new wallet |
| WalletRoute.SavedIdempotent | src/app/api/wallet/route.ts:47-60 | sending the same address again changes nothing |
| WalletRoute.Post | src/app/api/wallet/route.ts:14-77 | 401 "Unauthorized" without a user; 500 "Wallet save failed." for a body that is not JSON; 400 "Invalid address." for an invalid address; a database error goes through the catch (503 or 500); 401 "User not found…" exactly when the user is gone; 409 exactly when another user holds the address; success exactly otherwise, with the wallet saved, and the table untouched on every failure |
| WalletRoute.Link | src/app/api/wallet/route.ts:47-60 | the user's wallet gets the address, or a new wallet is created, as `Saved` states, keeping the table valid |
| WalletRoute.AddressIn | src/app/api/wallet/route.ts:22 | the address read from the body has no upper-case letter |
| WalletRoute.SavedExisting | src/app/api/wallet/route.ts:47-55 | with one wallet per user, the wallet `findFirst` finds is the one updated |
| OverrideRoute.InputText | src/app/api/transfers/override/route.ts:9 | a missing field and null read as empty text, a string as itself |
| OverrideRoute.ParsePrice | src/app/api/transfers/override/route.ts:8-18 | a price exactly when the trimmed text is non-empty and `Number` reads it as a finite positive number; that number is the price, so it is positive |
| OverrideRoute.ParseWholeText | src/app/api/transfers/override/route.ts:8-18 | a positive whole price sent as text is read as itself |
| OverrideRoute.ParseWholeNumber | src/app/api/transfers/override/route.ts:8-18 | a positive whole price sent as a JSON number is read as itself |
| OverrideRoute.ParseAbsent | src/app/api/transfers/override/route.ts:9-12 | a missing field and null give no price |
| OverrideRoute.ParseBlank | src/app/api/transfers/override/route.ts:9-12 | white space alone gives no price |
| OverrideRoute.ParseBoolean | src/app/api/transfers/override/route.ts:13-16 | a boolean reads as "true" or "false", which is not a number, so no price |
| OverrideRoute.ParseNonPositive | src/app/api/transfers/override/route.ts:14-16 | zero and negative numbers give no price |
| OverrideRoute.RateAt | src/app/api/transfers/override/route.ts:52-55 | a rate is used only when it is truthy (not zero), looked up at the block time in whole seconds |
| OverrideRoute.Derive | src/app/api/transfers/override/route.ts:51-67 | a given side is kept; a missing side is derived exactly when the other side and a rate are there, as RUB = USD × rate (or USD = RUB ÷ rate) |
| OverrideRoute.Reprice | src/app/api/transfers/override/route.ts:44-88 | no price gives 400 "Provide USD or RUB price."; no USD price after deriving gives 400 "Unable to determine USD price."; otherwise the row gets the derived prices, values of price × amount, and `priceManual`, and nothing else changes |
| OverrideRoute.TransferIdOf | src/app/api/transfers/override/route.ts:28 | a non-empty id comes from a truthy `transferId` field |
| OverrideRoute.Post | src/app/api/transfers/override/route.ts:20-105 | 401 without a user; 500 "Price override failed." for a body that is not JSON; 400 "Missing transfer id."; a database error goes through the catch (503 or 500); 404 when the user has no such transfer; for the user's transfer, the 400 replies of `Reprice` with nothing written, or success with exactly that row repriced; nothing is written on any failure |
| OverrideRoute.DeriveExamples | src/app/api/transfers/override/route.ts:51-67 | USD 2 at rate 90 gives RUB 180, and back; both sides given are kept; RUB alone without a rate gives no USD |
| OverrideRoute.RubWithoutRateRejected | src/app/api/transfers/override/route.ts:60-74 | a RUB-only price without a rate is rejected with "Unable to determine USD price." |
| KeysRoute.EntryOf | src/app/api/settings/keys/route.ts:15-18 | an entry with a non-empty name and value after trimming is clean |
| KeysRoute.Kept | src/app/api/settings/keys/route.ts:15-19 | an entry is kept, clean, or dropped |
| KeysRoute.Sanitize | src/app/api/settings/keys/route.ts:14-19 | never more entries than were sent |
| KeysRoute.SanitizeClean | src/app/api/settings/keys/route.ts:14-19 | every entry returned is trimmed and has a name and a value |
| KeysRoute.CleanConcat | src/app/api/settings/keys/route.ts:14-19 | two clean lists make a clean list |
| KeysRoute.SanitizeKeys | src/app/api/settings/keys/route.ts:10-20 | a field that is not an array gives no keys; an array gives its sanitised entries |
| KeysRoute.SanitizeCons | src/app/api/settings/keys/route.ts:14-19 | the first entry's fate is decided on its own, before the rest |
| KeysRoute.SanitizeAppend | src/app/api/settings/keys/route.ts:14-19 | sanitising works entry by entry, so it keeps the input order |
| KeysRoute.EntryMembersLookup | src/app/api/settings/keys/route.ts:16-17 | an entry sent back holds its name and value as strings |
| KeysRoute.EntryMembersRead | src/app/api/settings/keys/route.ts:15-19 | a clean entry sent back is kept as it is |
| KeysRoute.Resend | src/app/api/settings/keys/route.ts:8 | one entry sent per stored key |
| KeysRoute.SanitizeResendCons | src/app/api/settings/keys/route.ts:14-19 | a clean first entry sent back is kept in front of what the rest gives |
| KeysRoute.SanitizeIdempotent | src/app/api/settings/keys/route.ts:10-20 | sending back what was kept keeps all of it, in order |
| KeysRoute.BlankEntryDropped | src/app/api/settings/keys/route.ts:19 | an entry with a blank name or value is dropped |
| KeysRoute.Encrypted | src/app/api/settings/keys/route.ts:44-57 | fails (no secret) exactly when there is something to encrypt and no cipher; otherwise the Moralis key is null exactly when empty, and each entry keeps its name with its value encrypted |
| KeysRoute.Upsert | src/app/api/settings/keys/route.ts:59-70 | the user's settings row gets the two fields, an empty key list as JSON null, the Etherscan key kept; other users' rows are untouched |
| KeysRoute.Post | src/app/api/settings/keys/route.ts:22-87 | 401 without a user; 500 "Failed to save API keys." for a body that is not JSON; a database error goes through the catch (503 or 500); 401 "User not found…" when the user is gone; 500 "Missing encryption secret…" exactly when encryption fails; otherwise success with the settings upserted; nothing is written on any failure |
| KeysRoute.ClearingNeedsNoSecret | src/app/api/settings/keys/route.ts:44-70 | clearing both fields needs no secret and stores nulls |
| Explorer.EtherscanErrorText | src/lib/sync.ts:105-108 | the message and the result text joined by ": ", skipping empty parts, or "Etherscan error" when both are empty |
| Explorer.ReadReply | src/lib/sync.ts:83-112 | a failed request gives "Request failed: <status>"; a status other than "0" gives the listed rows, or none when the result is not a list; status "0" with a "no transactions" message gives no rows; any other status "0" fails with the joined error text |
| Explorer.PageFetcher | src/lib/sync.ts:125 | each page request reads the explorer's reply for that page and offset |
| Explorer.Prepend | src/lib/sync.ts:133 | rows are put in front of a successful rest, and an error passes through |
| Explorer.PrependAssociative | src/lib/sync.ts:133 | prepending in two steps is prepending once |
| Explorer.FetchPaginated | src/lib/sync.ts:114-140 | the rows of pages 1, 2, … concatenated, stopping after the first short page, an error, or the page cap; page `k + 1` is requested exactly when pages 1 to `k` came back full, and at least one page is requested |
| Explorer.AllFullPagesReachCap | src/lib/sync.ts:128-137 | when every page is full, the walk stops at the page cap with `pageSize` rows per page |
| Explorer.PagesAfterShortPageIgnored | src/lib/sync.ts:134-136 | pages after the first short or failed one are never read |
| PriceOracle.BucketOf | src/lib/sync.ts:292 | the bucket is the hour that contains the timestamp: a multiple of 3600 at most `ts`, less than an hour before it |
| PriceOracle.ClosestIndex | src/lib/sync.ts:190-201 | no index for an empty list, otherwise an index into the list |
| PriceOracle.ClosestIndexIsClosest | src/lib/sync.ts:193-199 | the index found is nearest the target and strictly nearer than every earlier entry |
| PriceOracle.ClosestPrice | src/lib/sync.ts:190-201 | null exactly for an empty list; otherwise the price of the first entry nearest the target |
| PriceOracle.PickClosestPrice | src/lib/sync.ts:190-201 | the loop returns `ClosestPrice` |
| PriceOracle.FetchTokenPrice | src/lib/sync.ts:203-223 | a failed request or empty list gives null; otherwise the price nearest the start of the bucket |
| PriceOracle.Positive | src/lib/sync.ts:250-284 | a provider's number counts only when it is positive |
| PriceOracle.MoralisKey | src/lib/sync.ts:230-233 | the given key when non-empty, else the default; never an empty key |
| PriceOracle.FxRate | src/lib/sync.ts:363-364 | a zero rate counts as no rate |
| PriceOracle.Derive | src/lib/sync.ts:362-374 | a given side is kept; a missing side is derived exactly when the other side and a rate are there; RUB = USD × rate |
| PriceOracle.NearbySnapshot | src/lib/sync.ts:344-359 | among the token's five newest snapshots, the prices of the one nearest the bucket within 72 hours, or both null when none is near enough |
| PriceOracle.SnapshotsKeptTransitive | src/lib/sync.ts:287-394 | keeping stored prices is transitive over several calls |
| PriceOracle.GetPrices | src/lib/sync.ts:287-394 | the result is for the hour bucket; a cached snapshot gives its USD price and fills only a missing RUB side (history, else USD × rate); without a cache, when no provider knows a price, the nearby snapshot is used and nothing is written; otherwise the derived prices, null when there is no USD price, with a snapshot created, or the existing row returned on a collision; stored prices never change |
| PriceOracle.NoDexWithoutLiveFallback | src/lib/sync.ts:327-337 | without the live fallback, DexScreener's answers change nothing |
| PriceOracle.ProviderUsdOrder | src/lib/sync.ts:322-338 | the historical USD price wins, and is final for ETH; Moralis is used only for an ERC20 token with no historical price; DexScreener only after that and only with the live fallback |
| SyncEngine.NormalizeAddress | src/lib/sync.ts:69-71 | the address keeps its length and has no upper-case letter left |
| SyncEngine.NormalizeAddressIdempotent | src/lib/sync.ts:69-71 | normalising twice is normalising once |
| SyncEngine.ToDecimalAmount | src/lib/sync.ts:73-77 | an amount exists exactly for a non-empty digit string, and it is never negative |
| SyncEngine.DecimalAmountScales | src/lib/sync.ts:73-77 | the amount times 10^decimals is the integer the raw digits spell |
| SyncEngine.DirectionOf | src/lib/sync.ts:455 | OUT exactly when the normalised sender is the wallet |
| SyncEngine.AllowLiveFallback | src/lib/sync.ts:458-460 | the live price fallback is allowed exactly when the transfer is at most an hour before `now` and not after it |
| SyncEngine.NativeDraft | src/lib/sync.ts:439-468 | a native transaction is kept exactly when `isError` is "0", it touches the wallet and its value is not "0"; its key is (hash, the user's ETH token, log index 0), 18 decimals, and the direction is OUT exactly when the wallet sent it |
| SyncEngine.TokenDraft | src/lib/sync.ts:499-530 | a token transaction is kept exactly when it touches the wallet; its token is the ERC-20 of the normalised contract, the log index and the decimals default to 0, and it carries the token record to create |
| SyncEngine.NativeDrafts | src/lib/sync.ts:439-449 | every kept native transaction yields a draft and every draft comes from one of the fetched transactions |
| SyncEngine.TokenDrafts | src/lib/sync.ts:499-506 | every kept token transaction yields a draft and every draft comes from one of the fetched transactions |
| SyncEngine.NewTokenRecord | src/lib/sync.ts:163-188 | a created token has a non-empty symbol and name: the symbol defaults to "UNKNOWN", the name to the given symbol, and the decimals are the transfer's |
| SyncEngine.RepricedStep | src/lib/sync.ts:470-496 | recording one more draft keeps every drafted non-manual row priced by the last draft with its key |
| SyncEngine.TransfersEvolveTransitive | src/lib/sync.ts:470-496 | two steps that only re-price non-manual rows are one such step |
| SyncEngine.QuotePrices | src/lib/sync.ts:461-464 | the prices are those `getPrices` resolves for the token, time and options with its snapshot create succeeding, bucketed to the hour, and no snapshot is lost |
| SyncEngine.RecordTransfer | src/lib/sync.ts:470-496 | a row is created exactly when its natural key is new, with the transfer's time in milliseconds, direction and amount; an existing non-manual row only takes the new prices, its values following its stored amount; a manual row and every other row stay as they were; row ids stay unique |
| SyncEngine.CollisionUpdateAsWritten | src/lib/sync.ts:526-557 | as written, a colliding row takes the new prices with values computed from the new transaction's amount, and nothing else changes; with a non-zero USD price and another amount, the row's values no longer match its amount |
| SyncEngine.CollidingTokenTransfers | src/lib/sync.ts:520-557 | two token transfers of one transaction and contract without a log index, for 1 and 2 tokens, share a key; at a USD price of 10 the as-written update stores 20 beside the amount 1, and `RecordTransfer` stores 10 |
| SyncEngine.UpsertToken | src/lib/sync.ts:142-188 | the token row is created only when missing; an existing token is left unchanged |
| SyncEngine.RecordDraft | src/lib/sync.ts:456-558 | a malformed amount is an error that writes no transfer and no token; otherwise the token exists, a new token takes the draft's record, and the row is recorded and priced by the draft's `getPrices` call with the live fallback as `AllowLiveFallback` says |
| SyncEngine.RecordDrafts | src/lib/sync.ts:439-559 | after both loops the table holds the old keys plus exactly the drafts' keys, the count of created rows is the number of new keys, every row written holds the prices of the call made for its draft, and an error names the first draft with a malformed amount, with exactly the keys of the drafts before it added and no other row touched; on success no row outside the drafts' keys changes, and every drafted row not priced by hand before holds the prices of the call for the last draft with its key |
| SyncEngine.WalletsOf | src/lib/sync.ts:401 | the wallets found are exactly the user's |
| SyncEngine.EtherscanKey | src/lib/sync.ts:405-406 | a key is found only in the user's settings row |
| SyncEngine.MoralisKeyFor | src/lib/sync.ts:405-407 | the user's Moralis key when the settings row has one; the default key otherwise |
| SyncEngine.FetchFeed | src/lib/sync.ts:416-435 | each feed is what paginated fetching of its explorer replies returns |
| SyncEngine.SyncWallet | src/lib/sync.ts:396-562 | no wallet gives "Wallet is not set." and no key gives "Etherscan API key is missing in settings.", both writing nothing; otherwise the ETH token exists, a failed feed is the error (native first); with both feeds fetched, an error is the first malformed amount with exactly the earlier drafts' keys added, and on success the table gains exactly the selected transactions' keys, `created` counts the new ones, the counts are the fetched lengths and every written row holds the prices `getPrices` gave for its transfer; on success every selected transfer's row that was not priced by hand holds the prices of the last `getPrices` call for its key; manual rows are never changed |
| SyncEngine.SyncConfigured | src/lib/sync.ts:412-561 | the same outcome once a wallet and a key were found, including that with both feeds fetched an error is the first malformed amount, with the drafts before it recorded, including that every fetched transfer's row not priced by hand holds the prices of the last call for its key |
| SyncEngine.SyncSucceedsWhenAmountsParse | src/lib/sync.ts:439-561 | a configured sync whose two feeds are fetched and whose amounts all parse returns `Ok` with the fetched counts, and the table gains exactly the selected transactions' keys |
| SyncEngine.DraftTokensPresent | src/lib/sync.ts:515-520 | every draft's token exists once the ETH token does, or is created by its own record |
| SyncEngine.ResyncCreatesNothing | src/lib/sync.ts:470-561 | syncing the same explorer data a second time creates no row, keeps the keys and reports the same counts |
| BackfillEngine.TimestampSec | src/lib/sync.ts:599 | the block time in whole seconds, rounded down |
| BackfillEngine.Backfilled | src/lib/sync.ts:615-625 | when either price was found the row takes both prices with value = price × amount; when neither was, the row is unchanged; no other column changes |
| BackfillEngine.CacheQuotedStep | src/lib/sync.ts:606-613 | caching the result of a new `getPrices` call keeps every cached entry equal to the call made for its token and hour |
| BackfillEngine.BackfillRow | src/lib/sync.ts:599-627 | the row's prices come from the cache when its `tokenId:bucket` key is cached; otherwise from `getPrices` with the live fallback off, and the result is cached; the row is updated exactly when a price was found, and nothing else in the table changes |
| BackfillEngine.BackfillSlice | src/lib/sync.ts:596-633 | every row of the slice is backfilled from the cache as it stands after the slice, and the slice's update count is added |
| BackfillEngine.BackfillBatch | src/lib/sync.ts:595-638 | every row of the batch is backfilled, at most the batch's size is updated, and the throttle pause falls between slices, one fewer than the slices |
| BackfillEngine.LastSlice | src/lib/sync.ts:595-635 | the slice that reaches the batch's end is the last of ceil(n / concurrency) slices |
| BackfillEngine.IdOrderTotal | src/lib/sync.ts:583 | ordering rows by ascending id is a strict total order on distinct ids |
| BackfillEngine.CandidatesUntouched | src/lib/sync.ts:580-591 | the rows the next page may return are wanted rows past the cursor, still untouched, and every wanted row not yet scanned is among them |
| BackfillEngine.BatchVisited | src/lib/sync.ts:591 | after a page, the scanned rows are exactly the wanted rows whose id the cursor has passed |
| BackfillEngine.BatchRows | src/lib/sync.ts:595-638 | after a page, every scanned row holds its backfilled prices and every other row is untouched |
| BackfillEngine.BatchStep | src/lib/sync.ts:587-592 | a non-empty page moves the cursor to its last id and keeps the run's invariant |
| BackfillEngine.EmptyBatchEnds | src/lib/sync.ts:587-589 | an empty page means every wanted row was scanned |
| BackfillEngine.NextBatch | src/lib/sync.ts:580-640 | an empty page changes nothing and ends the run with every wanted row scanned; otherwise at most 150 rows are scanned and the run's invariant is kept |
| BackfillEngine.BackfillMissingPrices | src/lib/sync.ts:564-644 | at most 5 pages of 150; only the user's non-manual rows missing a price are scanned; each scanned row holds the prices cached for its token and hour when some were found, every other row is untouched, and at most the scanned count is updated; a run stopped before the page cap has scanned every wanted row; each token and hour goes to `getPrices` at most once, with the live fallback off and the user's Moralis key |
| BackfillEngine.SliceFetchesAsWritten | src/lib/sync.ts:597-613 | as written, every row of a slice reads the cache as it was before the slice, so only uncached keys reach `getPrices`, but a key may reach it more than once |
| BackfillEngine.SliceFetches | src/lib/sync.ts:597-613 | with each row seeing the entries stored before it, only uncached keys reach `getPrices`, each once |
| BackfillEngine.SliceFetchesTwice | src/lib/sync.ts:597-613 | two rows of one slice with the same token and hour call `getPrices` twice as written, once when the cache is consulted in order |

## Left out

- The explorer, CoinGecko, Moralis, DexScreener and the USD/RUB rate feed are total functions given as parameters. The HTTP requests, their JSON decoding and their timeouts are not modelled.
- The Prisma client is in-memory maps keyed by each table's unique key. A token is identified by (user, kind, contract) rather than by its surrogate id. Row ids come from `Store.FreshId` rather than the database's generator.
- `Date.now()` is the `now` or `nowSec` parameter. The one-second reading of the sync is taken once per run, as in the source.
- Prisma `Decimal` prices and amounts are exact reals. There is no rounding and no precision limit.
- `encryptSecret` is an opaque cipher parameter, `None` when no valid secret is configured. The AES-GCM encryption itself is not modelled.
- The JSON text of a request body is not parsed. A route's body is the parsed members of one JSON object, or `None` when `request.json()` rejects; `None` gets the route's 500 reply, as its catch block gives.
- A database failure is one optional error message per route call. It turns into the 503 or 500 reply of the route's catch block.
- SyncEngine.QuotePrices: the snapshot create of `getPrices` is taken to succeed. Concurrent writers of the same snapshot are not captured: a `/api/sync` run in parallel, whose `allowLiveFallback` may differ, or another row of the same backfill slice. When one of them wins, the source returns the winner's prices. `PriceOracle.GetPrices` itself models both outcomes.
- BackfillEngine.BackfillRow: its `getPrices` call likewise takes the snapshot create to succeed. Two rows of one `Promise.all` slice with the same token and hour both create the snapshot, and the loser of that race is not captured.
- BackfillEngine.BackfillSlice: the rows of a `Promise.all` slice are processed one after another, each seeing the cache entries the earlier rows stored. The source starts all of them before any stores a result (see Findings).
- TransfersRoute.Get: uses `TransferLimit.PageSize`, a whole number of rows (a fractional limit rounded down, a NaN limit read as 20). The source passes `getTransferLimit`'s raw value to the query's `take` (see Findings).
- OverrideRoute.ParsePrice: `Number` is read by `JsNumber.FromText` on decimal text (sign, fraction, exponent, `Infinity`), exactly and without rounding to a double. Hexadecimal, octal and binary literals read as NaN, so such a price is rejected; the source reads it as a number.
- Base64.Decode and Utf8.Decode are strict: they accept exactly the texts their encoders produce. Node's lenient decoding of other input is not modelled, so such a cursor is rejected rather than read.
- Validation.ValidateEmail: `toLowerCase` is modelled on ASCII letters only. JavaScript's Unicode case mapping of other letters is not.
- SyncEngine.NormalizeAddress: `toLowerCase` on ASCII letters only. Hex addresses are ASCII.
- WalletRoute.NormalizeAddress: `trim().toLowerCase()` with the case mapping on ASCII letters only.
- HttpClient.MethodOf: `toUpperCase` on ASCII letters only.
- Pagination.DecodeCursor: the JSON model has integers only. A cursor whose `ts` has a fraction or an exponent is rejected, while `decodeCursor` reads it. The model also has no arrays and no nested objects. A cursor whose `id` is a non-empty array or an object is rejected, while `decodeCursor` turns it into text with `String`.
- SyncEngine.RecordTransfer: on a key collision, the values are the new prices times the row's stored amount. The source multiplies by the amount of the transaction being recorded (see Findings). The as-written update is `SyncEngine.CollisionUpdateAsWritten`.
- SyncEngine.RecordDraft: a colliding draft updates the values as `SyncEngine.RecordTransfer` does, not as written.
- SyncEngine.RecordDrafts: a colliding draft updates the values as `SyncEngine.RecordTransfer` does, not as written.
- SyncEngine.SyncWallet: colliding transfers update the values as `SyncEngine.RecordTransfer` does, not as written. Concurrent snapshot writers are left out as for `SyncEngine.QuotePrices`. When both feeds fail, the native feed's error is reported, as for `SyncEngine.SyncConfigured`.
- SyncEngine.SyncConfigured: the same as `SyncEngine.SyncWallet`. The two feeds are fetched under `Promise.all`, which rejects with whichever feed fails first in time. When both fail, the source may throw the token feed's error, while the model always reports the native feed's; the timing of the requests is not modelled.
- SyncEngine.ToDecimalAmount: only digit strings are amounts. The source's decimal constructor also accepts signs, fractions, exponents and hex text, and the model turns those into the error path.
- SyncEngine.NativeDraft: `timeStamp` is an integer already. The source's `Number(tx.timeStamp)`, including its NaN for a malformed value, is not modelled.
- SyncEngine.TokenDraft: `timeStamp`, `tokenDecimal` and `logIndex` are numbers already. The source's `Number(...)` conversions of the Etherscan strings, including NaN, are not modelled.
- HttpClient.Client.FetchJson: one `now` stands for the two `Date.now()` readings of the cache lookup (src/lib/httpClient.ts:36 and :38). The end of each request, where a stored entry's expiry starts, is the network oracle's `doneAt`. The elapsed time of a response is the oracle's `elapsedMs`.
- KeysRoute.Post: the JSON model has no arrays, so the `apiKeys` member of the body is passed as its own `apiKeysField` parameter. Nothing ties it to `body`.
- The request timeout of `fetchJson` (`AbortController` with `timeoutMs`) is not modelled. A timed-out call is one of the network oracle's failures.
- KeyStorage.MigrateStorageKey: a stored value whose `JSON.parse` throws is not modelled. Stored values are parsed values.
- `loadWindowLayout` and `saveWindowLayout` read and write `localStorage` with JSON. They are not part of this model; only the cascade and tile layouts are.
- Window coordinates are whole pixels. Fractional sizes from the browser are not modelled.
- Header names are looked up in lower case. The case-insensitive lookup of a `Headers` object is that one lookup.
- The environment overrides of the numeric settings are not modelled; their defaults are constants. These are `PRICE_BUCKET_SECONDS`, `ETHERSCAN_PAGE_SIZE`, `ETHERSCAN_MAX_PAGES`, `LIVE_FALLBACK_MAX_AGE_SEC`, `PRICE_FALLBACK_MAX_AGE_SEC`, the four `BACKFILL_*` settings and the `HTTP_*` settings of `fetchJson`.
- The `log` calls have no effect on the model. The `sleep` of the backfill throttle is counted, not waited for.

## Findings

| source | as written | input that shows it | evidently intended | confidence | as-written member | corrected member |
|---|---|---|---|---|---|---|
| src/lib/sync.ts:597-613 | every row of a `Promise.all` slice reads the price cache before any row stores its result | two rows in one slice with the same token and hour bucket: both miss the cache and both call `getPrices` | each token and hour is resolved once per run, the purpose of the cache | not executed | BackfillEngine.SliceFetchesAsWritten | BackfillEngine.SliceFetches |
| src/lib/sync.ts:526-557 | on a key collision, `updateMany` writes `valueUsd` and `valueRub` computed from the amount of the transaction being recorded, while the row keeps the amount it was created with | two `tokentx` entries with one hash and contract, no `logIndex`, no decimals, values "1" then "2", USD price 10: the row keeps amount 1 and gets a USD value of 20 | a row's value is its price times its own amount, as the create and the backfill write it | not executed | SyncEngine.CollisionUpdateAsWritten | SyncEngine.RecordTransfer |
| src/lib/transferPagination.ts:5-8 | the clamped limit keeps its fraction and reaches the query's `take` (src/app/api/transfers/route.ts:15,32) | `?limit=15.5` gives 15.5 | a whole number of rows between 10 and 100 | not executed | TransferLimit.FractionalLimitPassesThrough | TransferLimit.PageSize |
