/**
 * What the POST route handlers share: the session check, reading a text field of a
 * JSON body the way `String(body?.field || "")` does, and the reply a caught error
 * turns into.
 */
module Api {
  import opened Wrappers
  import Text
  import Json

  /** A handler's JSON reply: `{ ok: true }` or `{ error }` with an HTTP status. */
  datatype Reply = Success | Error(status: nat, message: string)

  const UNAUTHORIZED := "Unauthorized"
  const DB_UNREACHABLE := "Can't reach database server"
  const DB_UNAVAILABLE := "Database is unavailable. Start Postgres and try again."

  /** `session?.user?.id` is truthy. */
  predicate SignedIn(sessionUserId: Option<string>) {
    sessionUserId.Some? && sessionUserId.value != []
  }

  /** `String(body?.[name] || "")`: the text of a truthy field, else empty. */
  function FieldText(body: Json.Members, name: string): (s: string)
    ensures s != [] <==> Json.Lookup(body, name).Some? && Json.Truthy(Json.Lookup(body, name).value)
    ensures Json.Lookup(body, name).Some? && Json.Lookup(body, name).value.JString? ==>
      s == Json.Lookup(body, name).value.s
  {
    match Json.Lookup(body, name)
    case Some(v) => if Json.Truthy(v) then Json.ToText(v) else ""
    case None => ""
  }

  /** The `catch` block: 503 when the error says the database is unreachable, otherwise
      500 with the handler's own message. */
  function Caught(error: string, fallback: string): (r: Reply)
    ensures r.Error?
    ensures r.status == 503 <==> Text.Contains(error, DB_UNREACHABLE)
    ensures r.status == 503 || (r.status == 500 && r.message == fallback)
    ensures r.status == 503 ==> r.message == DB_UNAVAILABLE
  {
    if Text.Contains(error, DB_UNREACHABLE) then Error(503, DB_UNAVAILABLE) else Error(500, fallback)
  }

  /** Prisma's connection failure is reported as 503. */
  lemma UnreachableIs503(detail: string, fallback: string)
    ensures Caught(DB_UNREACHABLE + detail, fallback) == Error(503, DB_UNAVAILABLE)
  {
    var e := DB_UNREACHABLE + detail;
    assert e[0..|DB_UNREACHABLE|] == DB_UNREACHABLE;
    assert Text.OccursAt(e, DB_UNREACHABLE, 0);
  }
}
