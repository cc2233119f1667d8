/** The authentication configuration: the credentials provider's `authorize`,
    the `jwt` and `session` callbacks, and the session lifetime. bcrypt's
    comparison is the input `compare`; a throwing lookup or comparison is the
    flag `fails`. */
module Auth {
  import opened Js
  import opened Seqs
  import opened Schema
  import opened Registration

  /** Session lifetime in seconds: thirty days. */
  const SessionMaxAge: int := 30 * 24 * 60 * 60

  /** The submitted credentials; an absent or empty field is `None` or "". */
  datatype Credentials = Credentials(email: Option<string>, password: Option<string>)

  /** The user object `authorize` hands to the session machinery. */
  datatype AuthUser = AuthUser(id: string, name: string, email: string, image: Option<string>)

  /** `authorize`: null unless both fields are truthy, the first user whose
      e-mail equals the lower-cased input has a non-empty password, and the
      submitted password matches it. */
  function Authorize(creds: Credentials, users: seq<User>, compare: (string, string) -> bool, fails: bool)
    : (r: Option<AuthUser>)
    ensures !Truthy(creds.email) || !Truthy(creds.password) || fails ==> r.None?
    ensures r.Some? ==>
      && r.value.email == Lower(creds.email.value)
      && exists u :: u in users && u.id == r.value.id && u.name == r.value.name
           && u.email == r.value.email && u.image == r.value.image
           && Truthy(u.password) && compare(creds.password.value, u.password.value)
  {
    if !Truthy(creds.email) || !Truthy(creds.password) then None
    else if fails then None
    else
      match FirstWhere(users, EmailIs(Lower(creds.email.value)))
      case None => None
      case Some(u) =>
        if !Truthy(u.password) then None
        else if !compare(creds.password.value, u.password.value) then None
        else Some(AuthUser(u.id, u.name, u.email, u.image))
  }

  /** On a table with unique e-mails, `authorize` admits exactly the
      credentials whose lower-cased e-mail names a user with a stored password
      that the submitted one matches. */
  lemma AuthorizeIff(creds: Credentials, users: seq<User>, compare: (string, string) -> bool)
    requires UsersValid(users)
    ensures Authorize(creds, users, compare, false).Some? <==>
      && Truthy(creds.email) && Truthy(creds.password)
      && exists u :: u in users && u.email == Lower(creds.email.value)
           && Truthy(u.password) && compare(creds.password.value, u.password.value)
  {
    if Truthy(creds.email) && Truthy(creds.password) {
      var e := Lower(creds.email.value);
      var found := FirstWhere(users, EmailIs(e));
      if u :| u in users && u.email == e && Truthy(u.password) && compare(creds.password.value, u.password.value) {
        var i :| 0 <= i < |users| && users[i] == u;
        var x := found.value;
        var j :| 0 <= j < |users| && users[j] == x;
        assert UserEmail(users[i]) == UserEmail(users[j]);
        assert !(i < j) && !(j < i);
      }
    }
  }

  /** A user who has just registered signs in with the same password and any
      case variant of the e-mail, provided the hash is not empty and the
      comparison accepts a password against its own hash. */
  lemma {:induction false} RegisterThenAuthorize(users: seq<User>, body: RegisterBody, newId: string,
                                                 hash: string -> string, compare: (string, string) -> bool,
                                                 email: string)
    requires UsersValid(users)
    requires RegisterOutcome(users, Some(body), newId, hash, NoFault).response.status == 201
    requires email != "" && Lower(email) == Lower(body.email.value)
    requires hash(body.password.value) != "" && compare(body.password.value, hash(body.password.value))
    ensures var after := RegisterOutcome(users, Some(body), newId, hash, NoFault).users;
      Authorize(Credentials(Some(email), body.password), after, compare, false)
        == Some(AuthUser(newId, body.name.value, Lower(body.email.value), None))
  {
    RegisterResponses(users, Some(body), newId, hash, NoFault);
    var after := RegisterOutcome(users, Some(body), newId, hash, NoFault).users;
    var p := EmailIs(Lower(email));
    assert forall j :: 0 <= j < |users| ==> after[j] == users[j] && users[j] in users;
    FirstWhereIsFirst(after, p, |users|);
  }

  /** A password the comparison rejects never signs in, whichever user the
      e-mail names. */
  lemma WrongPasswordRejected(creds: Credentials, users: seq<User>, compare: (string, string) -> bool, fails: bool)
    requires Truthy(creds.email) && Truthy(creds.password)
    requires forall u :: u in users && u.email == Lower(creds.email.value) && u.password.Some?
               ==> !compare(creds.password.value, u.password.value)
    ensures Authorize(creds, users, compare, fails).None?
  {
  }

  /** The token the `jwt` callback keeps between requests. */
  class Token {
    var id: Option<string>

    constructor (id: Option<string>)
      ensures this.id == id
    {
      this.id := id;
    }

    /** `jwt`: on sign-in, the signed-in user's id is copied onto the token;
        on later calls the token is kept as it is. */
    method OnJwt(user: Option<AuthUser>)
      modifies this
      ensures id == (if user.Some? then Some(user.value.id) else old(id))
    {
      if user.Some? {
        id := Some(user.value.id);
      }
    }
  }

  /** The `user` object of a session. */
  class SessionUser {
    var id: Option<string>
    var name: Option<string>
    var email: Option<string>
    var image: Option<string>

    constructor (name: Option<string>, email: Option<string>, image: Option<string>)
      ensures this.id.None? && this.name == name && this.email == email && this.image == image
    {
      id := None;
      this.name := name;
      this.email := email;
      this.image := image;
    }
  }

  class Session {
    var user: SessionUser?

    constructor (user: SessionUser?)
      ensures this.user == user
    {
      this.user := user;
    }

    /** `session`: when the session has a user and the token a truthy id, the
        id is copied onto the session's user; nothing else changes. */
    method OnSession(token: Token)
      modifies user
      ensures user == old(user)
      ensures user != null && Truthy(token.id) ==> user.id == token.id
      ensures user != null && !Truthy(token.id) ==> user.id == old(user.id)
      ensures user != null ==> user.name == old(user.name) && user.email == old(user.email)
                               && user.image == old(user.image)
    {
      if user != null && Truthy(token.id) {
        user.id := token.id;
      }
    }
  }

  /** Signing in with credentials that `authorize` accepts, then running both
      callbacks, leaves the authorised user's id on the session, as long as
      that id is not the empty string. */
  method SignInCarriesId(creds: Credentials, users: seq<User>, compare: (string, string) -> bool,
                         token: Token, session: Session)
    returns (signedIn: Option<AuthUser>)
    requires session.user != null
    modifies token, session.user
    ensures signedIn == Authorize(creds, users, compare, false)
    ensures signedIn.Some? && signedIn.value.id != "" ==> session.user.id == Some(signedIn.value.id)
    ensures signedIn.None? ==> session.user.id == (if Truthy(old(token.id)) then old(token.id) else old(session.user.id))
  {
    signedIn := Authorize(creds, users, compare, false);
    token.OnJwt(signedIn);
    session.OnSession(token);
  }
}
