/** The authentication store (`useAuth`): the signed-in user, a flag that says whether
    somebody is signed in, and the credentials of every account ever registered on this
    device, keyed by email. Passwords are kept as given. */
module Auth {
  import opened Common

  datatype User = User(id: string, name: string, email: string)

  datatype Credential = Credential(email: string, password: string)

  /** Every credential is filed under its own email. */
  ghost predicate KeysMatch(credentials: map<string, Credential>)
  {
    forall e :: e in credentials ==> credentials[e].email == e
  }

  /** `{ ...credentials, [email]: { email, password } }`: adds the entry, or overwrites
      the password of an existing one; no other entry changes. */
  function Upsert(credentials: map<string, Credential>, email: string, password: string)
    : (r: map<string, Credential>)
    ensures r.Keys == credentials.Keys + {email}
    ensures r[email] == Credential(email, password)
    ensures forall e :: e in credentials && e != email ==> r[e] == credentials[e]
    ensures KeysMatch(credentials) ==> KeysMatch(r)
  {
    credentials[email := Credential(email, password)]
  }

  /** Signing in again with the stored password rewrites nothing. */
  lemma UpsertSamePassword(credentials: map<string, Credential>, email: string, password: string)
    requires KeysMatch(credentials)
    requires email in credentials && credentials[email].password == password
    ensures Upsert(credentials, email, password) == credentials
  {
    assert credentials[email] == Credential(email, password);
  }

  class AuthStore {
    var user: Option<User>
    var isAuthenticated: bool
    var credentials: map<string, Credential>

    /** The flag tracks the user, and every credential sits under its own email. */
    ghost predicate Valid()
      reads this
    {
      isAuthenticated == user.Some? && KeysMatch(credentials)
    }

    constructor ()
      ensures Valid()
      ensures user == None && !isAuthenticated && credentials == map[]
    {
      user := None;
      isAuthenticated := false;
      credentials := map[];
    }

    /** `login(user, password)`: signs `u` in and files its password under its email,
        overwriting any password stored there before. It checks nothing itself. */
    method Login(u: User, password: string)
      requires Valid()
      modifies this
      ensures Valid()
      ensures user == Some(u) && isAuthenticated
      ensures credentials == Upsert(old(credentials), u.email, password)
    {
      user := Some(u);
      isAuthenticated := true;
      credentials := Upsert(credentials, u.email, password);
    }

    /** `logout()`: the session ends; the credentials stay. */
    method Logout()
      requires Valid()
      modifies this
      ensures Valid()
      ensures user == None && !isAuthenticated
      ensures credentials == old(credentials)
    {
      user := None;
      isAuthenticated := false;
    }

    /** `updateUsername(newName)`: renames the signed-in user; without one, nothing. */
    method UpdateUsername(newName: string)
      requires Valid()
      modifies this
      ensures Valid()
      ensures old(user).Some? ==> user == Some(old(user).value.(name := newName))
      ensures old(user).None? ==> user == None
      ensures isAuthenticated == old(isAuthenticated) && credentials == old(credentials)
    {
      user := match user case Some(u) => Some(u.(name := newName)) case None => None;
    }

    /** `getCredentials(email)`: the entry filed under `email`, if any. */
    function GetCredentials(email: string): (r: Option<Credential>)
      reads this
      ensures r.Some? <==> email in credentials
      ensures r.Some? ==> r.value == credentials[email]
    {
      if email in credentials then Some(credentials[email]) else None
    }

    /** `deleteAccount()`: without a user, nothing; otherwise the session ends and only
        the credential under the user's email is dropped. */
    method DeleteAccount()
      requires Valid()
      modifies this
      ensures Valid()
      ensures old(user).None? ==>
                user == old(user) && isAuthenticated == old(isAuthenticated) &&
                credentials == old(credentials)
      ensures old(user).Some? ==>
                user == None && !isAuthenticated &&
                credentials == old(credentials) - {old(user).value.email}
    {
      if user.None? {
        return;
      }
      var email := user.value.email;
      user := None;
      isAuthenticated := false;
      credentials := credentials - {email};
    }
  }
}
