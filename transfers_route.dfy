/**
 * `GET /api/transfers` (`src/app/api/transfers/route.ts`): one page of the user's
 * transfers, newest first, with keyset pagination by (block time, id).
 */
module TransfersRoute {
  import opened Wrappers
  import opened Store
  import Text
  import SyncEngine
  import Pagination
  import TransferLimit

  /** The listing order `orderBy: [{ blockTime: "desc" }, { id: "desc" }]`: `a` comes
      before `b`. */
  predicate Newer(a: TransferRow, b: TransferRow) {
    a.blockTimeMs > b.blockTimeMs || (a.blockTimeMs == b.blockTimeMs && Text.StrLess(b.id, a.id))
  }

  /** The cursor clause: `blockTime < ts`, or `blockTime = ts` and `id < cursor.id`. */
  predicate BeforeCursor(row: TransferRow, c: Pagination.Cursor) {
    row.blockTimeMs < c.ts || (row.blockTimeMs == c.ts && Text.StrLess(row.id, c.id))
  }

  /** The `where` object: the user's rows, past the cursor when there is one. */
  predicate Eligible(row: TransferRow, userId: string, cursor: Option<Pagination.Cursor>) {
    row.userId == userId && (cursor.Some? ==> BeforeCursor(row, cursor.value))
  }

  /** The cursor of a row: its id and block time. */
  function CursorAt(row: TransferRow): (c: Pagination.Cursor)
    ensures !BeforeCursor(row, c)
    ensures forall other: TransferRow :: BeforeCursor(other, c) <==> Newer(row, other)
  {
    Text.StrLessIrreflexive(row.id);
    Pagination.Cursor(row.id, row.blockTimeMs)
  }

  function KeyOrder(t: map<TransferKey, TransferRow>): (TransferKey, TransferKey) -> bool {
    (a: TransferKey, b: TransferKey) => a in t && b in t && Newer(t[a], t[b])
  }

  lemma NewerIrreflexive(a: TransferRow)
    ensures !Newer(a, a)
  {
    Text.StrLessIrreflexive(a.id);
  }

  lemma NewerTransitive(a: TransferRow, b: TransferRow, c: TransferRow)
    requires Newer(a, b) && Newer(b, c)
    ensures Newer(a, c)
  {
    if a.blockTimeMs == c.blockTimeMs {
      assert a.blockTimeMs == b.blockTimeMs == c.blockTimeMs;
      Text.StrLessTransitive(c.id, b.id, a.id);
    }
  }

  /** Rows with different ids are always ordered one way or the other. */
  lemma NewerTotal(a: TransferRow, b: TransferRow)
    requires a.id != b.id
    ensures Newer(a, b) || Newer(b, a)
  {
    Text.StrLessTotal(a.id, b.id);
  }

  lemma KeyOrderTotal(t: map<TransferKey, TransferRow>, s: set<TransferKey>)
    requires s <= t.Keys && SyncEngine.IdsUnique(t)
    ensures StrictTotalOn(s, KeyOrder(t))
  {
    var before := KeyOrder(t);
    forall a | a in s
      ensures !before(a, a)
    {
      NewerIrreflexive(t[a]);
    }
    forall a, b, c | a in s && b in s && c in s
      ensures before(a, b) && before(b, c) ==> before(a, c)
    {
      if before(a, b) && before(b, c) {
        NewerTransitive(t[a], t[b], t[c]);
      }
    }
    forall a, b | a in s && b in s
      ensures a != b ==> before(a, b) || before(b, a)
    {
      if a != b {
        assert t[a].id != t[b].id;
        NewerTotal(t[a], t[b]);
      }
    }
  }

  datatype Response =
    | Unauthorized
    | Page(transfers: seq<TransferRow>, nextCursor: Option<string>)

  /** What a page answers: rows of the table that pass the filter, in listing order, at
      most `limit` of them, and newer than every eligible row left out. */
  ghost predicate IsPage(t: map<TransferKey, TransferRow>, userId: string,
                         cursor: Option<Pagination.Cursor>, limit: nat, rows: seq<TransferRow>) {
    && |rows| <= limit
    && (forall i | 0 <= i < |rows| :: rows[i] in t.Values && Eligible(rows[i], userId, cursor))
    && (forall i, j | 0 <= i < j < |rows| :: Newer(rows[i], rows[j]))
    && (forall k | k in t && Eligible(t[k], userId, cursor) && t[k] !in rows ::
          forall i | 0 <= i < |rows| :: Newer(rows[i], t[k]))
    && (|rows| < limit ==> forall k | k in t && Eligible(t[k], userId, cursor) :: t[k] in rows)
  }

  /** `nextCursor`: the cursor of the last row, null for an empty page. */
  function NextCursor(rows: seq<TransferRow>): (next: Option<string>)
    ensures next.None? <==> rows == []
    ensures rows != [] ==> next == Some(Pagination.EncodeCursor(CursorAt(rows[|rows| - 1])))
  {
    if rows == [] then None else Some(Pagination.EncodeCursor(CursorAt(rows[|rows| - 1])))
  }

  /** `GET(request)`; `sessionUserId` is `session?.user?.id`. The page size is the
      corrected `TransferLimit.PageSize`. */
  method Get(db: Database, sessionUserId: Option<string>, limitParam: Option<string>,
             cursorParam: Option<string>) returns (r: Response)
    requires SyncEngine.IdsUnique(db.transfers)
    ensures sessionUserId.None? || sessionUserId.value == [] <==> r.Unauthorized?
    ensures r.Page? ==>
      && IsPage(db.transfers, sessionUserId.value, Pagination.DecodeCursor(cursorParam),
                TransferLimit.PageSize(limitParam), r.transfers)
      && r.nextCursor == NextCursor(r.transfers)
  {
    if sessionUserId.None? || sessionUserId.value == [] {
      return Unauthorized;
    }
    var userId := sessionUserId.value;
    var limit := TransferLimit.PageSize(limitParam);
    var cursor := Pagination.DecodeCursor(cursorParam);
    var t := db.transfers;
    var eligible := set k | k in t && Eligible(t[k], userId, cursor);
    KeyOrderTotal(t, eligible);
    var keys := TakeOrdered(eligible, KeyOrder(t), limit);
    var rows := seq(|keys|, i requires 0 <= i < |keys| => t[keys[i]]);
    PageFromKeys(t, userId, cursor, limit, eligible, keys, rows);
    r := Page(rows, NextCursor(rows));
  }

  /** The rows of the keys `TakeOrdered` returns form a page. */
  lemma PageFromKeys(t: map<TransferKey, TransferRow>, userId: string, cursor: Option<Pagination.Cursor>,
                     limit: nat, eligible: set<TransferKey>, keys: seq<TransferKey>, rows: seq<TransferRow>)
    requires SyncEngine.IdsUnique(t)
    requires eligible == set k | k in t && Eligible(t[k], userId, cursor)
    requires |keys| == if limit < |eligible| then limit else |eligible|
    requires forall i :: 0 <= i < |keys| ==> keys[i] in eligible
    requires forall i, j :: 0 <= i < j < |keys| ==> KeyOrder(t)(keys[i], keys[j])
    requires forall x, i | x in eligible && x !in keys && 0 <= i < |keys| :: KeyOrder(t)(keys[i], x)
    requires |rows| == |keys| && forall i | 0 <= i < |keys| :: rows[i] == t[keys[i]]
    ensures IsPage(t, userId, cursor, limit, rows)
  {
    forall k | k in t && Eligible(t[k], userId, cursor) && t[k] !in rows
      ensures forall i | 0 <= i < |rows| :: Newer(rows[i], t[k])
    {
      forall i | 0 <= i < |keys|
        ensures keys[i] != k
      {
        assert rows[i] != t[k];
      }
      assert k !in keys;
    }
    if |rows| < limit {
      forall i, j | 0 <= i < j < |keys|
        ensures keys[i] != keys[j]
      {
        assert KeyOrder(t)(keys[i], keys[j]);
        NewerIrreflexive(t[keys[i]]);
      }
      KeysCoverEligible(eligible, keys);
      forall k | k in t && Eligible(t[k], userId, cursor)
        ensures t[k] in rows
      {
        assert k in eligible;
        var i :| 0 <= i < |keys| && keys[i] == k;
        assert rows[i] == t[k];
      }
    }
  }

  /** Fewer keys than eligible ones would leave one out; a short page took them all. */
  lemma KeysCoverEligible<K>(eligible: set<K>, keys: seq<K>)
    requires |keys| == |eligible|
    requires forall i :: 0 <= i < |keys| ==> keys[i] in eligible
    requires forall i, j :: 0 <= i < j < |keys| ==> keys[i] != keys[j]
    ensures forall k | k in eligible :: k in keys
  {
    var taken := set i | 0 <= i < |keys| :: keys[i];
    assert taken <= eligible;
    DistinctCount(keys);
    var missed := eligible - taken;
    assert eligible == taken + missed && taken * missed == {};
    assert |missed| == 0;
    forall k | k in eligible
      ensures k in keys
    {
      assert k !in missed;
    }
  }

  lemma {:induction false} DistinctCount<K>(keys: seq<K>)
    requires forall i, j :: 0 <= i < j < |keys| ==> keys[i] != keys[j]
    ensures |set i | 0 <= i < |keys| :: keys[i]| == |keys|
  {
    if keys != [] {
      var init := keys[..|keys| - 1];
      DistinctCount(init);
      var s := set i | 0 <= i < |init| :: init[i];
      var s' := set i | 0 <= i < |keys| :: keys[i];
      assert s' == s + {keys[|keys| - 1]};
      assert keys[|keys| - 1] !in s;
    }
  }

  /** The `nextCursor` of a page decodes to the cursor of its last row. */
  lemma NextCursorDecodes(rows: seq<TransferRow>)
    requires rows != [] && rows[|rows| - 1].id != []
    ensures Pagination.DecodeCursor(NextCursor(rows)) == Some(CursorAt(rows[|rows| - 1]))
  {
    Pagination.DecodeEncode(CursorAt(rows[|rows| - 1]));
  }

  /** Following `nextCursor` continues exactly where a page stopped: a row is eligible
      for the next page if and only if it was eligible for this one and is not on it, so
      no row is listed twice and none is skipped. */
  lemma {:induction false} NextPagePartition(t: map<TransferKey, TransferRow>, userId: string,
                          cursor: Option<Pagination.Cursor>, limit: nat, rows: seq<TransferRow>,
                          k: TransferKey)
    requires IsPage(t, userId, cursor, limit, rows) && rows != [] && rows[|rows| - 1].id != []
    requires k in t
    ensures var next := Pagination.DecodeCursor(NextCursor(rows));
      Eligible(t[k], userId, next) <==> Eligible(t[k], userId, cursor) && t[k] !in rows
  {
    NextCursorDecodes(rows);
    var last := rows[|rows| - 1];
    assert Eligible(last, userId, cursor);
    if Eligible(t[k], userId, Some(CursorAt(last))) {
      OlderThanLast(rows, t[k], cursor);
    }
    if Eligible(t[k], userId, cursor) && t[k] !in rows {
      assert Newer(last, t[k]);
    }
  }

  /** A row older than the last row of a page is not on it, and passes any cursor the
      last row passes. */
  lemma OlderThanLast(rows: seq<TransferRow>, row: TransferRow, cursor: Option<Pagination.Cursor>)
    requires rows != [] && forall i, j | 0 <= i < j < |rows| :: Newer(rows[i], rows[j])
    requires Newer(rows[|rows| - 1], row)
    requires cursor.Some? ==> BeforeCursor(rows[|rows| - 1], cursor.value)
    ensures row !in rows
    ensures cursor.Some? ==> BeforeCursor(row, cursor.value)
  {
    var last := rows[|rows| - 1];
    if row in rows {
      var i :| 0 <= i < |rows| && rows[i] == row;
      if i < |rows| - 1 {
        assert Newer(row, last);
        NewerAsymmetric(row, last);
      } else {
        NewerIrreflexive(row);
      }
    }
    if cursor.Some? {
      BeforeCursorTransitive(row, last, cursor.value);
    }
  }

  lemma NewerAsymmetric(a: TransferRow, b: TransferRow)
    requires Newer(a, b)
    ensures !Newer(b, a)
  {
    if a.blockTimeMs == b.blockTimeMs {
      Text.StrLessAsymmetric(b.id, a.id);
    }
  }

  /** A row older than one that passes the cursor passes it too. */
  lemma BeforeCursorTransitive(row: TransferRow, last: TransferRow, c: Pagination.Cursor)
    requires Newer(last, row) && BeforeCursor(last, c)
    ensures BeforeCursor(row, c)
  {
    if row.blockTimeMs == c.ts && last.blockTimeMs == c.ts {
      Text.StrLessTransitive(row.id, last.id, c.id);
    }
  }
}
