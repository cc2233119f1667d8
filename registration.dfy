/** The registration endpoint for e-mail and password accounts. The user table
    is the sequence held by `UserTable`. The request body is an input: `None`
    when it is not JSON or is `null`, otherwise the three fields, each `None` when
    absent. The password hash, the fresh uuid and a failing lookup or insert
    are inputs too. */
module Registration {
  import opened Js
  import opened Seqs
  import opened Schema

  datatype RegisterBody = RegisterBody(name: Option<string>, email: Option<string>, password: Option<string>)

  /** Status and the `message` field of the JSON body. */
  datatype Response = Response(status: int, message: string)

  /** Which store call throws, if any. */
  datatype StoreFault = NoFault | LookupFails | InsertFails

  const RequiredFieldsMessage: string := "Name, email, and password are required"
  const EmailTakenMessage: string := "User with this email already exists"
  const RegisteredMessage: string := "User registered successfully"
  const RegistrationErrorMessage: string := "An error occurred during registration"

  /** The e-mail and id columns are unique. */
  predicate UsersValid(users: seq<User>) {
    Unique(users, UserId) && Unique(users, UserEmail)
  }

  function EmailIs(email: string): User -> bool {
    (u: User) => u.email == email
  }

  predicate FieldsPresent(body: RegisterBody) {
    Truthy(body.name) && Truthy(body.email) && Truthy(body.password)
  }

  /** The row the endpoint inserts: the e-mail lower-cased, the hash in place of
      the password, the role "user"; the image is left to its default. */
  function NewUser(id: string, body: RegisterBody, hash: string -> string): (u: User)
    requires FieldsPresent(body)
    ensures u.id == id && u.name == body.name.value && u.email == Lower(body.email.value)
    ensures u.password == Some(hash(body.password.value)) && u.role == Some(UserRole)
    ensures u.image.None? && u.emailVerified.None?
  {
    InsertedUser(UserInsert(id, body.name.value, Lower(body.email.value),
                            Given(Some(hash(body.password.value))), Given(Some(UserRole)), Omitted))
  }

  /** The store accepts an insert that keeps both unique columns unique. */
  predicate InsertAccepted(users: seq<User>, row: User) {
    UsersValid(users + [row])
  }

  datatype Registration = Registration(response: Response, users: seq<User>)

  /** What a registration request answers and the table it leaves. */
  function RegisterOutcome(users: seq<User>, body: Option<RegisterBody>, newId: string,
                           hash: string -> string, fault: StoreFault): (r: Registration)
    ensures r.response.status in {201, 400, 409, 500}
    ensures r.response.status != 201 ==> r.users == users
    ensures r.response.status == 201 ==> |r.users| == |users| + 1 && r.users[..|users|] == users
  {
    if body.None? then Registration(Response(500, RegistrationErrorMessage), users)
    else if !FieldsPresent(body.value) then Registration(Response(400, RequiredFieldsMessage), users)
    else if fault == LookupFails then Registration(Response(500, RegistrationErrorMessage), users)
    else if Filter(users, EmailIs(Lower(body.value.email.value))) != [] then
      Registration(Response(409, EmailTakenMessage), users)
    else
      var row := NewUser(newId, body.value, hash);
      if fault == InsertFails || !InsertAccepted(users, row) then
        Registration(Response(500, RegistrationErrorMessage), users)
      else Registration(Response(201, RegisteredMessage), users + [row])
  }

  class UserTable {
    var users: seq<User>

    ghost predicate Valid()
      reads this
    {
      UsersValid(users)
    }

    constructor (initial: seq<User>)
      requires UsersValid(initial)
      ensures Valid() && users == initial
    {
      users := initial;
    }

    /** The POST handler: answers the request and inserts the new user on success. */
    method Register(body: Option<RegisterBody>, newId: string, hash: string -> string, fault: StoreFault)
      returns (response: Response)
      requires Valid()
      modifies this
      ensures Valid()
      ensures response == RegisterOutcome(old(users), body, newId, hash, fault).response
      ensures users == RegisterOutcome(old(users), body, newId, hash, fault).users
    {
      if body.None? {
        return Response(500, RegistrationErrorMessage);
      }
      var b := body.value;
      if !FieldsPresent(b) {
        return Response(400, RequiredFieldsMessage);
      }
      if fault == LookupFails {
        return Response(500, RegistrationErrorMessage);
      }
      var existing := Filter(users, EmailIs(Lower(b.email.value)));
      if |existing| > 0 {
        return Response(409, EmailTakenMessage);
      }
      var row := NewUser(newId, b, hash);
      if fault == InsertFails || !InsertAccepted(users, row) {
        return Response(500, RegistrationErrorMessage);
      }
      users := users + [row];
      response := Response(201, RegisteredMessage);
    }
  }

  /** On a valid table the insert is rejected only for an id already in use:
      the e-mail was looked up just before. */
  lemma InsertAcceptedIff(users: seq<User>, row: User)
    requires UsersValid(users)
    requires forall u :: u in users ==> u.email != row.email
    ensures InsertAccepted(users, row) <==> forall u :: u in users ==> u.id != row.id
  {
    var t := users + [row];
    assert forall i :: 0 <= i < |users| ==> t[i] == users[i] && users[i] in users;
    if InsertAccepted(users, row) {
      forall u | u in users ensures u.id != row.id {
        var i :| 0 <= i < |users| && users[i] == u;
        assert UserId(t[i]) != UserId(t[|users|]);
      }
    }
  }

  /** The answers of the endpoint: which request gets which status, the
      message paired with each status, the table left unchanged by every
      failure, the single row a success appends, and unique columns kept. */
  lemma {:induction false} RegisterResponses(users: seq<User>, body: Option<RegisterBody>, newId: string,
                                             hash: string -> string, fault: StoreFault)
    requires UsersValid(users)
    ensures var r := RegisterOutcome(users, body, newId, hash, fault);
      && UsersValid(r.users)
      && (r.response.status == 400 <==> body.Some? && !FieldsPresent(body.value))
      && (r.response.status == 409 <==>
            (body.Some? && FieldsPresent(body.value) && fault != LookupFails
             && exists u :: u in users && u.email == Lower(body.value.email.value)))
      && (r.response.status == 201 <==>
            (body.Some? && FieldsPresent(body.value) && fault == NoFault
             && (forall u :: u in users ==> u.email != Lower(body.value.email.value))
             && (forall u :: u in users ==> u.id != newId)))
      && (r.response.status in {201, 400, 409, 500})
      && (r.response.status == 500 ==> r.response.message == RegistrationErrorMessage)
      && (r.response.status == 400 ==> r.response.message == RequiredFieldsMessage)
      && (r.response.status == 409 ==> r.response.message == EmailTakenMessage)
      && (r.response.status == 201 ==> r.response.message == RegisteredMessage)
      && (r.response.status != 201 ==> r.users == users)
      && (r.response.status == 201 ==> r.users == users + [NewUser(newId, body.value, hash)])
  {
    if body.Some? && FieldsPresent(body.value) && fault != LookupFails {
      var e := Lower(body.value.email.value);
      if Filter(users, EmailIs(e)) == [] {
        InsertAcceptedIff(users, NewUser(newId, body.value, hash));
      } else {
        var x := Filter(users, EmailIs(e))[0];
        assert x in Filter(users, EmailIs(e));
      }
    }
  }

  /** The e-mail is compared lower-cased, so once an address is registered any
      case variant of it is refused; the stored row keeps only the hash. */
  lemma CaseVariantRefused(users: seq<User>, first: RegisterBody, again: RegisterBody, newId: string,
                           otherId: string, hash: string -> string)
    requires UsersValid(users)
    requires RegisterOutcome(users, Some(first), newId, hash, NoFault).response.status == 201
    requires FieldsPresent(again) && Lower(again.email.value) == Lower(first.email.value)
    ensures var after := RegisterOutcome(users, Some(first), newId, hash, NoFault).users;
      && RegisterOutcome(after, Some(again), otherId, hash, NoFault).response == Response(409, EmailTakenMessage)
      && after[|users|].password == Some(hash(first.password.value))
      && Lower(after[|users|].email) == after[|users|].email
  {
    LowerIdempotent(first.email.value);
    RegisterResponses(users, Some(first), newId, hash, NoFault);
    var after := RegisterOutcome(users, Some(first), newId, hash, NoFault).users;
    RegisterResponses(after, Some(again), otherId, hash, NoFault);
    assert after[|users|] in after;
  }

  /** A row stored with capitals (as an OAuth sign-in may store it) is not
      found by the lower-cased lookup: registering the same address then
      succeeds and the table holds both spellings. */
  lemma MixedCaseRowNotFound(hash: string -> string)
    ensures var stored := User("g1", "Ada", "Ada@x.io", None, Some(UserRole), None, None);
      var body := RegisterBody(Some("Ada"), Some("Ada@x.io"), Some("secret"));
      var r := RegisterOutcome([stored], Some(body), "u2", hash, NoFault);
      r.response.status == 201 && r.users[0].email == "Ada@x.io" && r.users[1].email == "ada@x.io"
  {
    var stored := User("g1", "Ada", "Ada@x.io", None, Some(UserRole), None, None);
    var body := RegisterBody(Some("Ada"), Some("Ada@x.io"), Some("secret"));
    assert Lower("Ada@x.io") == "ada@x.io";
    assert "Ada@x.io"[0] != "ada@x.io"[0];
    RegisterResponses([stored], Some(body), "u2", hash, NoFault);
  }
}
