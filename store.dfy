/**
 * The persistent state the pipeline reads and writes, as in-memory tables keyed
 * by their unique keys, and the one query shape the code issues against them:
 * `findMany` with a filter, an ordering and a `take` limit.
 */
module Store {
  import opened Wrappers

  datatype TokenKind = Eth | Erc20
  datatype Direction = In | Out

  /** A token is identified by its unique key (userId, kind, contractAddress); the
      model uses this key wherever the Prisma schema uses the token's surrogate id. */
  datatype TokenKey = TokenKey(userId: string, kind: TokenKind, contract: string)

  datatype Token = Token(symbol: string, name: string, decimals: nat)

  /** The natural key of a Transfer row. */
  datatype TransferKey = TransferKey(txHash: string, token: TokenKey, logIndex: nat)

  /** A Transfer row without its natural key (the table's key). Prices and values
      are exact decimals; `None` is SQL NULL. */
  datatype TransferRow = TransferRow(
    id: string,
    userId: string,
    walletId: string,
    blockTimeMs: int,
    direction: Direction,
    amount: real,
    priceUsd: Option<real>,
    valueUsd: Option<real>,
    priceRub: Option<real>,
    valueRub: Option<real>,
    priceManual: bool,
    source: string)

  datatype SnapshotKey = SnapshotKey(token: TokenKey, bucketTs: int)

  /** A price snapshot always holds a USD price; the RUB side may be filled later. */
  datatype Snapshot = Snapshot(priceUsd: real, priceRub: Option<real>)

  datatype Wallet = Wallet(userId: string, address: string)

  datatype ApiKeyEntry = ApiKeyEntry(name: string, value: string)

  /** A UserSettings row; `apiKeys == None` is a JSON null column. */
  datatype StoredSettings = StoredSettings(
    etherscanApiKey: Option<string>,
    moralisApiKey: Option<string>,
    apiKeys: Option<seq<ApiKeyEntry>>)

  /** `price × amount`, or NULL when there is no price. */
  function ValueOf(price: Option<real>, amount: real): (v: Option<real>)
    ensures v.Some? <==> price.Some?
    ensures price.Some? ==> v.value == price.value * amount
  {
    match price
    case Some(p) => Some(p * amount)
    case None => None
  }

  /** The invariant every price write keeps: each value column is its price times the amount. */
  predicate ValuesConsistent(row: TransferRow) {
    row.valueUsd == ValueOf(row.priceUsd, row.amount)
    && row.valueRub == ValueOf(row.priceRub, row.amount)
  }

  /** The row with only its four price columns replaced, values derived from the prices. */
  function WithPrices(row: TransferRow, priceUsd: Option<real>, priceRub: Option<real>): (r: TransferRow)
    ensures ValuesConsistent(r)
    ensures r.priceUsd == priceUsd && r.priceRub == priceRub
    ensures r.(priceUsd := row.priceUsd, valueUsd := row.valueUsd,
               priceRub := row.priceRub, valueRub := row.valueRub) == row
  {
    row.(priceUsd := priceUsd, valueUsd := ValueOf(priceUsd, row.amount),
         priceRub := priceRub, valueRub := ValueOf(priceRub, row.amount))
  }

  /** Two rows that differ at most in their price and value columns. */
  predicate SameExceptPrices(a: TransferRow, b: TransferRow) {
    a.(priceUsd := b.priceUsd, valueUsd := b.valueUsd,
       priceRub := b.priceRub, valueRub := b.valueRub) == b
  }

  class Database {
    var tokens: map<TokenKey, Token>
    var transfers: map<TransferKey, TransferRow>
    var snapshots: map<SnapshotKey, Snapshot>
    var wallets: map<string, Wallet>
    var settings: map<string, StoredSettings>
    /** The ids of the User rows. */
    var users: set<string>

    constructor ()
      ensures tokens == map[] && transfers == map[] && snapshots == map[]
      ensures wallets == map[] && settings == map[] && users == {}
    {
      tokens, transfers, snapshots := map[], map[], map[];
      wallets, settings, users := map[], map[], {};
    }
  }

  /** `before` is a strict total order on the elements of `s`. */
  ghost predicate StrictTotalOn<K>(s: set<K>, before: (K, K) -> bool) {
    && (forall a | a in s :: !before(a, a))
    && (forall a, b, c | a in s && b in s && c in s :: before(a, b) && before(b, c) ==> before(a, c))
    && (forall a, b | a in s && b in s :: a != b ==> before(a, b) || before(b, a))
  }

  /** The element of a non-empty set that comes first under `before`. */
  method First<K>(s: set<K>, before: (K, K) -> bool) returns (m: K)
    requires s != {} && StrictTotalOn(s, before)
    ensures m in s
    ensures forall x | x in s && x != m :: before(m, x)
  {
    m :| m in s;
    var rest := s - {m};
    while rest != {}
      invariant rest <= s && m in s && m !in rest
      invariant forall x | x in s && x !in rest && x != m :: before(m, x)
      decreases rest
    {
      var x :| x in rest;
      if before(x, m) {
        m := x;
      }
      rest := rest - {x};
    }
  }

  /** `findMany({ where, orderBy, take: n })`: the first `n` elements of `s` in the
      order `before`, in that order. */
  method TakeOrdered<K>(s: set<K>, before: (K, K) -> bool, n: nat) returns (r: seq<K>)
    requires StrictTotalOn(s, before)
    ensures |r| == if n < |s| then n else |s|
    ensures forall i :: 0 <= i < |r| ==> r[i] in s
    ensures forall i, j :: 0 <= i < j < |r| ==> before(r[i], r[j])
    ensures forall x, i | x in s && x !in r && 0 <= i < |r| :: before(r[i], x)
  {
    r := [];
    var rest := s;
    while |r| < n && rest != {}
      invariant rest <= s
      invariant forall x :: x in r ==> x in s && x !in rest
      invariant forall x :: x in s && x !in r ==> x in rest
      invariant |r| + |rest| == |s| && |r| <= n
      invariant forall i, j :: 0 <= i < j < |r| ==> before(r[i], r[j])
      invariant forall x, i | x in rest && 0 <= i < |r| :: before(r[i], x)
      decreases |rest|
    {
      var m := First(rest, before);
      r := r + [m];
      rest := rest - {m};
    }
  }

  /** The model's stand-in for the database's id generator: an id longer than every
      id in use, hence unused. */
  method FreshId(used: set<string>) returns (id: string)
    ensures id !in used && id != []
  {
    var longest: nat := 0;
    var rest := used;
    while rest != {}
      invariant rest <= used
      invariant forall u | u in used && u !in rest :: |u| <= longest
      decreases rest
    {
      var u :| u in rest;
      if |u| > longest {
        longest := |u|;
      }
      rest := rest - {u};
    }
    id := seq(longest + 1, _ => 'c');
  }
}
