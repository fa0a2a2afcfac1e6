/** The users controller: `postNew` (sign-up) and `getMe`. */
module Users {
  import opened Js
  import opened Records
  import opened Http
  import opened Stores

  /** The JSON body of `POST /users`; `None` when the request carries none. */
  datatype SignUpBody = SignUpBody(email: JsValue, password: JsValue)

  datatype SignUpError = MissingEmail | MissingPassword | AlreadyExist

  function SignUpErrorReply(e: SignUpError): Response {
    match e
    case MissingEmail => BadRequest("Missing email")
    case MissingPassword => BadRequest("Missing password")
    case AlreadyExist => BadRequest("Already exist")
  }

  /** `req.body ? req.body.email : null` */
  function Email(body: Option<SignUpBody>): JsValue {
    if body.Some? then body.value.email else Null
  }

  /** `req.body ? req.body.password : null` */
  function Password(body: Option<SignUpBody>): JsValue {
    if body.Some? then body.value.password else Null
  }

  /** Every sign-up check on its own, in the order the handler runs them. */
  function SignUpFailures(body: Option<SignUpBody>, users: seq<User>): seq<SignUpError> {
    (if Truthy(Email(body)) then [] else [MissingEmail])
    + (if Truthy(Password(body)) then [] else [MissingPassword])
    + (if FindUserByEmail(users, Email(body)).None? then [] else [AlreadyExist])
  }

  /** The outcome of one sign-up: the reply and the user document inserted. */
  datatype SignUpOutcome = SignUpOutcome(reply: Response, inserted: Option<User>)

  /** `postNew` on values. `newId` is the id the database assigns and `sha1`
      the digest function; nothing is assumed about it (not even that it is
      injective). The first failing check is reported; otherwise exactly one
      user is inserted, holding the digest of the password, never the
      password itself, and the reply echoes its id and email. */
  function SignUp(body: Option<SignUpBody>, users: seq<User>, newId: Id, sha1: JsValue -> string): (r: SignUpOutcome)
    ensures r.inserted.Some? <==> SignUpFailures(body, users) == []
    ensures r.inserted.None? ==> r.reply == SignUpErrorReply(SignUpFailures(body, users)[0])
    ensures r.inserted.Some? ==>
      && r.inserted.value == User(newId, Email(body), sha1(Password(body)))
      && r.reply == Response(201, UserBody(newId, Email(body)))
  {
    var email := Email(body);
    var password := Password(body);
    if !Truthy(email) then SignUpOutcome(SignUpErrorReply(MissingEmail), None)
    else if !Truthy(password) then SignUpOutcome(SignUpErrorReply(MissingPassword), None)
    else if FindUserByEmail(users, email).Some? then SignUpOutcome(SignUpErrorReply(AlreadyExist), None)
    else SignUpOutcome(Response(201, UserBody(newId, email)), Some(User(newId, email, sha1(password))))
  }

  /** `postNew` on the database: the `users` collection is read, then gains
      at most one document; `files` is untouched. */
  method PostNew(db: Database, body: Option<SignUpBody>, newId: Id, sha1: JsValue -> string) returns (reply: Response)
    requires db.Valid() && FindUserById(db.users, newId).None?
    modifies db
    ensures db.Valid()
    ensures var out := SignUp(body, old(db.users), newId, sha1);
      reply == out.reply && db.users == old(db.users) + AsSeq(out.inserted) && db.files == old(db.files)
  {
    var email := Email(body);
    var password := Password(body);
    if !Truthy(email) {
      reply := SignUpErrorReply(MissingEmail);
      return;
    }
    if !Truthy(password) {
      reply := SignUpErrorReply(MissingPassword);
      return;
    }
    var existing := FindUserByEmail(db.users, email);
    if existing.Some? {
      reply := SignUpErrorReply(AlreadyExist);
      return;
    }
    db.InsertUser(User(newId, email, sha1(password)));
    reply := Response(201, UserBody(newId, email));
  }

  /** A sign-up never gives a second user an email already stored. */
  lemma {:induction false} SignUpKeepsEmailsDistinct(body: Option<SignUpBody>, users: seq<User>, newId: Id, sha1: JsValue -> string)
    requires DistinctEmails(users)
    ensures DistinctEmails(users + AsSeq(SignUp(body, users, newId, sha1).inserted))
  {
    var out := SignUp(body, users, newId, sha1);
    if out.inserted.Some? {
      var users' := users + [out.inserted.value];
      forall i, j | 0 <= i < j < |users'| ensures users'[i].email != users'[j].email {
        if j == |users| {
          assert users'[i] in users;
        }
      }
    }
  }

  /** Sign-ups applied one after another, each with the id the database
      assigned it. */
  function SignUpAll(users: seq<User>, requests: seq<(Option<SignUpBody>, Id)>, sha1: JsValue -> string): seq<User>
    decreases |requests|
  {
    if |requests| == 0 then users
    else
      var out := SignUp(requests[0].0, users, requests[0].1, sha1);
      SignUpAll(users + AsSeq(out.inserted), requests[1..], sha1)
  }

  /** However many sign-ups run one after another, no two users share an email. */
  lemma {:induction false} SequentialSignUpsKeepEmailsDistinct(
    users: seq<User>, requests: seq<(Option<SignUpBody>, Id)>, sha1: JsValue -> string)
    requires DistinctEmails(users)
    ensures DistinctEmails(SignUpAll(users, requests, sha1))
    decreases |requests|
  {
    if |requests| > 0 {
      SignUpKeepsEmailsDistinct(requests[0].0, users, requests[0].1, sha1);
      var out := SignUp(requests[0].0, users, requests[0].1, sha1);
      SequentialSignUpsKeepEmailsDistinct(users + AsSeq(out.inserted), requests[1..], sha1);
    }
  }

  /** Once a sign-up has succeeded, a second one with the same email is
      refused with 'Already exist' and inserts nothing. */
  lemma {:induction false} RepeatedSignUpRefused(
    first: Option<SignUpBody>, second: Option<SignUpBody>, users: seq<User>,
    id1: Id, id2: Id, sha1: JsValue -> string)
    requires SignUp(first, users, id1, sha1).inserted.Some?
    requires Email(second) == Email(first) && Truthy(Password(second))
    ensures var out := SignUp(second, users + AsSeq(SignUp(first, users, id1, sha1).inserted), id2, sha1);
      out.reply == BadRequest("Already exist") && out.inserted.None?
  {
    var u := SignUp(first, users, id1, sha1).inserted.value;
    assert u in users + [u];
  }

  /** `getMe` on values. `session` is what the session store gave for
      `auth_<token>`. The reply is 401 unless a token is sent and its
      session names a stored user, and then it is that user's id and email. */
  function GetMe(token: Option<string>, session: Option<Id>, users: seq<User>): (r: Response)
    ensures r.status == 200 <==> Supplied(token) && session.Some? && FindUserById(users, session.value).Some?
    ensures r.status != 200 ==> r == Unauthorized
    ensures r.status == 200 ==> exists u :: u in users && u.id == session.value && r.body == UserBody(u.id, u.email)
  {
    if !Supplied(token) then Unauthorized
    else if session.None? then Unauthorized
    else match FindUserById(users, session.value)
      case None => Unauthorized
      case Some(user) => Response(200, UserBody(user.id, user.email))
  }
}
