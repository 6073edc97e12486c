/**
 * `getAdminGuard` (`src/lib/adminGuard.ts`): the check in front of the admin-only API
 * routes. The session is the one NextAuth hands the route.
 */
module AdminGuard {
  import opened Wrappers
  import Api

  const ADMIN := "ADMIN"
  const FORBIDDEN := "Forbidden"

  /** `session.user`: its id and role, each possibly missing. */
  datatype SessionUser = SessionUser(id: Option<string>, role: Option<string>)
  datatype Session = Session(user: Option<SessionUser>)

  /** `session?.user?.id`. */
  function UserId(session: Option<Session>): (id: Option<string>)
    ensures id.Some? ==> session.Some? && session.value.user.Some? && session.value.user.value.id == id
  {
    if session.Some? && session.value.user.Some? then session.value.user.value.id else None
  }

  /** `session?.user?.role`. */
  function Role(session: Option<Session>): (role: Option<string>)
    ensures role.Some? ==> session.Some? && session.value.user.Some? && session.value.user.value.role == role
  {
    if session.Some? && session.value.user.Some? then session.value.user.value.role else None
  }

  /** The reply an admin route gives instead of running. */
  datatype Denial = Denial(status: nat, error: string)

  /** `getAdminGuard(session)`: `None` lets the request through. */
  function GetAdminGuard(session: Option<Session>): (d: Option<Denial>)
    ensures !Api.SignedIn(UserId(session)) ==> d == Some(Denial(401, Api.UNAUTHORIZED))
    ensures Api.SignedIn(UserId(session)) && Role(session) != Some(ADMIN) ==> d == Some(Denial(403, FORBIDDEN))
    ensures d.None? <==> Api.SignedIn(UserId(session)) && Role(session) == Some(ADMIN)
  {
    if !Api.SignedIn(UserId(session)) then Some(Denial(401, Api.UNAUTHORIZED))
    else if Role(session) != Some(ADMIN) then Some(Denial(403, FORBIDDEN))
    else None
  }

  /** Identity is checked before the role: an admin role without an id is a 401. */
  lemma RoleWithoutIdUnauthorized(role: Option<string>)
    ensures GetAdminGuard(Some(Session(Some(SessionUser(None, role))))) == Some(Denial(401, Api.UNAUTHORIZED))
    ensures GetAdminGuard(Some(Session(Some(SessionUser(Some(""), role))))) == Some(Denial(401, Api.UNAUTHORIZED))
  {
  }

  /** The examples of the guard tests. */
  lemma Examples()
    ensures GetAdminGuard(None) == Some(Denial(401, Api.UNAUTHORIZED))
    ensures GetAdminGuard(Some(Session(Some(SessionUser(Some("1"), Some("USER")))))) == Some(Denial(403, FORBIDDEN))
    ensures GetAdminGuard(Some(Session(Some(SessionUser(Some("1"), Some(ADMIN)))))) == None
  {
    assert "USER" != ADMIN by {
      assert "USER"[0] != ADMIN[0];
    }
  }
}
