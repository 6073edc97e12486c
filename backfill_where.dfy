/**
 * The row selection of the price backfill (`buildBackfillWhere`): the filter object
 * the code builds, and the rows the database returns for it.
 */
module Backfill {
  import opened Wrappers
  import opened Store
  import Text

  /** The fields of the `where` object: the owner, `priceManual: false`, the
      `OR: [{priceUsd: null}, {priceRub: null}]` clause, and `id: { gt: cursor }`
      when a cursor is given. */
  datatype BackfillFilter = BackfillFilter(userId: string, priceManual: bool, missingPrice: bool,
                                           idAfter: Option<string>)

  /** JavaScript truthiness of a `string | null` cursor. */
  predicate CursorGiven(cursorId: Option<string>) {
    cursorId.Some? && cursorId.value != []
  }

  /** `buildBackfillWhere(userId, cursorId)`. */
  function BuildBackfillWhere(userId: string, cursorId: Option<string>): (w: BackfillFilter)
    ensures w.userId == userId && !w.priceManual && w.missingPrice
    ensures w.idAfter.Some? <==> CursorGiven(cursorId)
    ensures w.idAfter.Some? ==> w.idAfter == cursorId
  {
    BackfillFilter(userId, false, true, if CursorGiven(cursorId) then cursorId else None)
  }

  /** The rows the database selects with filter `w`; ids compare as text. */
  predicate Matches(w: BackfillFilter, row: TransferRow) {
    && row.userId == w.userId
    && row.priceManual == w.priceManual
    && (w.missingPrice ==> row.priceUsd.None? || row.priceRub.None?)
    && (w.idAfter.Some? ==> Text.StrLess(w.idAfter.value, row.id))
  }

  /** A row is selected exactly when it belongs to the user, is not priced by hand,
      lacks a price in some currency, and lies after a given cursor. */
  lemma SelectedRows(userId: string, cursorId: Option<string>, row: TransferRow)
    ensures Matches(BuildBackfillWhere(userId, cursorId), row) <==>
      && row.userId == userId && !row.priceManual
      && (row.priceUsd.None? || row.priceRub.None?)
      && (CursorGiven(cursorId) ==> Text.StrLess(cursorId.value, row.id))
  {
  }

  /** Fully priced rows and manually priced rows are never selected. */
  lemma PricedRowsNeverSelected(userId: string, cursorId: Option<string>, row: TransferRow)
    requires row.priceManual || (row.priceUsd.Some? && row.priceRub.Some?)
    ensures !Matches(BuildBackfillWhere(userId, cursorId), row)
  {
  }

  /** Without a cursor (null or empty) the id plays no part. */
  lemma NoCursorNoIdConstraint(userId: string, cursorId: Option<string>, row: TransferRow, id: string)
    requires !CursorGiven(cursorId)
    ensures Matches(BuildBackfillWhere(userId, cursorId), row)
        <==> Matches(BuildBackfillWhere(userId, cursorId), row.(id := id))
  {
  }

  /** A cursor only narrows the selection. */
  lemma CursorNarrows(userId: string, cursorId: Option<string>, row: TransferRow)
    requires Matches(BuildBackfillWhere(userId, cursorId), row)
    ensures Matches(BuildBackfillWhere(userId, None), row)
  {
  }

  /** The filters the cursor test inspects. */
  method CursorExamples() {
    var base := BuildBackfillWhere("user-1", None);
    var withCursor := BuildBackfillWhere("user-1", Some("cursor-id"));
    assert base.userId == "user-1" && base.idAfter == None;
    assert withCursor.userId == "user-1" && withCursor.idAfter == Some("cursor-id");
  }
}
