/** The mock authentication of the application: a fixed list of users
    looked up by email, and the current user kept in one storage slot. */
module Auth {
  import opened Wrappers

  /** The role names. A role read back from storage is whatever text was
      stored, so roles are kept as text rather than an enumeration. */
  const ADMIN := "admin"
  const CUSTOMER := "customer"
  const SALES := "sales"
  const CTV := "ctv"

  predicate IsRole(role: string)
  {
    role == ADMIN || role == CUSTOMER || role == SALES || role == CTV
  }

  datatype User = User(id: string, email: string, name: string, role: string)

  /** The four built-in accounts, one per role. */
  function MockUsers(): (r: seq<User>)
    ensures |r| == 4
    ensures forall i :: 0 <= i < |r| ==> IsRole(r[i].role)
  {
    [ User("1", "admin@lyhu.vn", "Admin LYHU", ADMIN),
      User("2", "sales@lyhu.vn", "Sales LYHU", SALES),
      User("3", "ctv@lyhu.vn", "CTV LYHU", CTV),
      User("4", "customer@lyhu.vn", "Khách hàng LYHU", CUSTOMER) ]
  }

  /** `users[i]` is the first user with that email. */
  predicate FirstWithEmail(users: seq<User>, email: string, i: int)
  {
    0 <= i < |users| && users[i].email == email
    && forall j :: 0 <= j < i ==> users[j].email != email
  }

  /** The first user of `users` whose email is exactly `email`. */
  function FindByEmail(users: seq<User>, email: string): (r: Option<User>)
    ensures r.None? <==> forall i :: 0 <= i < |users| ==> users[i].email != email
    ensures r.Some? ==> exists i :: FirstWithEmail(users, email, i) && users[i] == r.value
  {
    if |users| == 0 then None
    else if users[0].email == email then Some(users[0])
    else
      var r := FindByEmail(users[1..], email);
      if r.Some? then
        var i :| FirstWithEmail(users[1..], email, i) && users[1..][i] == r.value;
        assert FirstWithEmail(users, email, i + 1);
        r
      else r
  }

  /** `authenticateUser`: the account with that exact email, or nothing.
      No password is checked. */
  function AuthenticateUser(email: string): (r: Option<User>)
    ensures r.None? <==> forall i :: 0 <= i < |MockUsers()| ==> MockUsers()[i].email != email
    ensures r.Some? ==> r.value in MockUsers() && r.value.email == email
  {
    FindByEmail(MockUsers(), email)
  }

  /** No two built-in accounts share an email. */
  lemma MockEmailsDistinct()
    ensures forall i, j :: 0 <= i < j < |MockUsers()| ==> MockUsers()[i].email != MockUsers()[j].email
  {
  }

  /** Every built-in account can sign in with its own email and gets
      exactly that account back. */
  lemma AuthenticateEachMockUser(i: nat)
    requires i < |MockUsers()|
    ensures AuthenticateUser(MockUsers()[i].email) == Some(MockUsers()[i])
  {
    MockEmailsDistinct();
  }

  /** Each role has exactly one built-in account. */
  lemma OneMockUserPerRole(role: string)
    requires IsRole(role)
    ensures exists i :: 0 <= i < |MockUsers()| && MockUsers()[i].role == role
    ensures forall i, j :: (0 <= i < |MockUsers()| && 0 <= j < |MockUsers()|
                            && MockUsers()[i].role == role && MockUsers()[j].role == role) ==> i == j
  {
    var u := MockUsers();
    if role == ADMIN {
      assert u[0].role == role;
    } else if role == SALES {
      assert u[1].role == role;
    } else if role == CTV {
      assert u[2].role == role;
    } else {
      assert u[3].role == role;
    }
  }

  // --------------------------------------------------------------- session

  /** The current-user storage slot: nothing stored, a stored account, or
      text that does not parse. */
  datatype Session = NoSession | Stored(user: User) | Unreadable

  /** `setCurrentUser`: nothing clears the slot, an account is stored with
      its four fields, so that reading the slot gives back what was set. */
  function SetCurrentUser(user: Option<User>): (s: Session)
    ensures user.None? <==> s.NoSession?
    ensures GetCurrentUser(s) == user
  {
    match user
    case None => NoSession
    case Some(u) => Stored(User(u.id, u.email, u.name, u.role))
  }

  /** `getCurrentUser`: the stored account, or nothing when the slot is
      empty or unreadable. */
  function GetCurrentUser(s: Session): (r: Option<User>)
    ensures r.Some? <==> s.Stored?
    ensures r.Some? ==> r.value == s.user
  {
    match s
    case Stored(u) => Some(u)
    case _ => None
  }

  /** `logout`: clears the slot. */
  function Logout(): (s: Session)
    ensures GetCurrentUser(s).None?
  {
    SetCurrentUser(None)
  }

  /** Storing and reading back gives the same user, or nothing after a
      clear. */
  lemma SessionRoundTrip(user: Option<User>)
    ensures GetCurrentUser(SetCurrentUser(user)) == user
  {
  }

  /** After signing in with a known email, the current user is that
      account; with an unknown email, there is no current user. */
  lemma SignInThenCurrent(email: string)
    ensures GetCurrentUser(SetCurrentUser(AuthenticateUser(email))) == AuthenticateUser(email)
    ensures GetCurrentUser(SetCurrentUser(AuthenticateUser(email))).Some? ==>
      GetCurrentUser(SetCurrentUser(AuthenticateUser(email))).value.email == email
  {
  }
}
