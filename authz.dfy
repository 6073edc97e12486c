/**
 * `isAdminSession` (`src/lib/authz.ts`): whether the pages show admin features.
 */
module Authz {
  import opened Wrappers
  import opened AdminGuard

  /** `session?.user?.role === "ADMIN"`. */
  function IsAdminSession(session: Option<Session>): (admin: bool)
    ensures admin <==> session.Some? && session.value.user.Some? && session.value.user.value.role == Some(ADMIN)
  {
    Role(session) == Some(ADMIN)
  }

  /** Whatever the guard lets through is an admin session. */
  lemma GuardPassIsAdmin(session: Option<Session>)
    requires GetAdminGuard(session).None?
    ensures IsAdminSession(session)
  {
  }

  /** The converse fails: an admin role without a user id passes the check but not the
      guard. */
  lemma AdminWithoutIdIsStopped()
    ensures var s := Some(Session(Some(SessionUser(None, Some(ADMIN)))));
      IsAdminSession(s) && GetAdminGuard(s).Some?
  {
  }

  /** The examples of the authorisation tests. */
  lemma Examples()
    ensures !IsAdminSession(None)
    ensures !IsAdminSession(Some(Session(Some(SessionUser(Some("1"), Some("USER"))))))
    ensures IsAdminSession(Some(Session(Some(SessionUser(Some("1"), Some(ADMIN))))))
  {
    assert "USER" != ADMIN by {
      assert "USER"[0] != ADMIN[0];
    }
  }
}
