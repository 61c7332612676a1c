/** The page guard: which role a dashboard expects, where a visitor is
    sent otherwise. */
module AuthGuard {
  import opened Wrappers
  import opened Auth

  /** Each role's dashboard. */
  const ROLE_PATHS: map<string, string> :=
    map[ADMIN := "/admin", SALES := "/sales", CTV := "/ctv", CUSTOMER := "/customer"]

  const LOGIN := "/login"

  datatype Decision = Authorized | Redirect(path: string)

  /** The role's dashboard from the table of role paths, or the login
      page for a role without one (a missing entry and an empty path both
      fall back to login). */
  function HomeOf(role: string): (path: string)
    ensures IsRole(role) <==> path != LOGIN
    ensures IsRole(role) ==> path == ROLE_PATHS[role]
  {
    var p := if role in ROLE_PATHS then ROLE_PATHS[role] else "";
    if p == "" then LOGIN else p
  }

  /** The guard of a page that expects `expectedRole`, given the current
      session: no user goes to login; a user of another role goes to their
      own dashboard (login for an unknown role); a user of the expected
      role is authorised. */
  function Decide(session: Session, expectedRole: string): (d: Decision)
    ensures d.Authorized? <==> GetCurrentUser(session).Some? && GetCurrentUser(session).value.role == expectedRole
    ensures GetCurrentUser(session).None? ==> d == Redirect(LOGIN)
    ensures d.Redirect? && GetCurrentUser(session).Some? ==> d.path == HomeOf(GetCurrentUser(session).value.role)
  {
    match GetCurrentUser(session)
    case None => Redirect(LOGIN)
    case Some(user) =>
      if user.role != expectedRole then Redirect(HomeOf(user.role))
      else Authorized
  }

  /** The dashboards are distinct and none of them is the login page. */
  lemma RolePathsDistinct(r1: string, r2: string)
    requires r1 in ROLE_PATHS && r2 in ROLE_PATHS && r1 != r2
    ensures ROLE_PATHS[r1] != ROLE_PATHS[r2]
    ensures ROLE_PATHS[r1] != LOGIN
  {
  }

  /** Exactly the four roles have a dashboard. */
  lemma RolePathsCoverRoles(role: string)
    ensures role in ROLE_PATHS <==> IsRole(role)
  {
  }

  /** The redirect never loops: a signed-in user sent away from a page is
      either sent to login (unknown role) or to a dashboard whose guard
      lets them in. */
  lemma RedirectLandsAuthorized(session: Session, expectedRole: string)
    requires Decide(session, expectedRole).Redirect?
    requires Decide(session, expectedRole).path != LOGIN
    ensures exists role :: (role in ROLE_PATHS && ROLE_PATHS[role] == Decide(session, expectedRole).path
                           && Decide(session, role) == Authorized)
  {
    var user := GetCurrentUser(session).value;
    assert ROLE_PATHS[user.role] == Decide(session, expectedRole).path;
    assert Decide(session, user.role) == Authorized;
  }

  /** After logout every guarded page sends to login. */
  lemma LoggedOutGoesToLogin(expectedRole: string)
    ensures Decide(Logout(), expectedRole) == Redirect(LOGIN)
  {
  }

  /** Signing in as built-in account `i` then opening a page: the page of
      that account's role lets them in; any other page sends them to their
      own dashboard, never to login. */
  lemma SignInThenGuard(i: nat, expectedRole: string)
    requires i < |MockUsers()|
    ensures var u := MockUsers()[i];
      Decide(SetCurrentUser(AuthenticateUser(u.email)), expectedRole)
        == if u.role == expectedRole then Authorized else Redirect(ROLE_PATHS[u.role])
  {
    AuthenticateEachMockUser(i);
  }
}
