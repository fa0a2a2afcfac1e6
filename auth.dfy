/** `getConnected` of the auth controller: HTTP Basic credentials (section 2
    of RFC 7617, base64 as in section 4 of RFC 4648) are checked against the
    stored users and, on success, a 24-hour session is put in the session
    store. */
module Auth {
  import opened Js
  import opened Records
  import opened Http
  import opened Stores
  import opened Users

  /** JavaScript's `s.split(':')`: the maximal colon-free pieces of `s`, in
      order; an empty string gives one empty piece. */
  function Split(s: string): (parts: seq<string>)
    ensures |parts| >= 1
    ensures forall i :: 0 <= i < |parts| ==> ':' !in parts[i]
    decreases |s|
  {
    if |s| == 0 then [""]
    else
      var rest := Split(s[1..]);
      if s[0] == ':' then [""] + rest
      else [[s[0]] + rest[0]] + rest[1..]
  }

  /** The first piece starts the string, and so do the first two pieces
      with the colon between them; there is one piece exactly when the string
      has no colon. */
  lemma {:induction false} SplitPrefixes(s: string)
    ensures |Split(s)| == 1 <==> ':' !in s
    ensures Split(s)[0] <= s
    ensures |Split(s)| >= 2 ==> Split(s)[0] + ":" + Split(s)[1] <= s
    decreases |s|
  {
    if |s| > 0 {
      var rest := Split(s[1..]);
      SplitPrefixes(s[1..]);
      assert s == [s[0]] + s[1..];
      if s[0] == ':' {
        assert Split(s) == [""] + rest;
        assert Split(s)[1] == rest[0];
        assert "" + ":" + rest[0] == [s[0]] + rest[0];
      } else {
        var parts := Split(s);
        assert parts == [[s[0]] + rest[0]] + rest[1..];
        assert parts[0] == [s[0]] + rest[0];
        if |rest| >= 2 {
          assert parts[1] == rest[1];
          assert parts[0] + ":" + parts[1] == [s[0]] + (rest[0] + ":" + rest[1]);
        }
      }
    }
  }

  /** JavaScript's `parts.join(':')`, the inverse of `Split`. */
  function Join(parts: seq<string>): string
    requires |parts| >= 1
    decreases |parts|
  {
    if |parts| == 1 then parts[0] else parts[0] + ":" + Join(parts[1..])
  }

  /** Joining the pieces gives back the string split. */
  lemma {:induction false} JoinSplit(s: string)
    ensures Join(Split(s)) == s
    decreases |s|
  {
    if |s| > 0 {
      var rest := Split(s[1..]);
      JoinSplit(s[1..]);
      if s[0] == ':' {
        assert Split(s) == [""] + rest;
        assert Join(Split(s)) == "" + ":" + Join(rest);
        assert s == [s[0]] + s[1..];
      } else {
        var parts := Split(s);
        assert parts == [[s[0]] + rest[0]] + rest[1..];
        if |rest| == 1 {
          assert Join(parts) == [s[0]] + rest[0];
        } else {
          assert parts[1..] == rest[1..];
          assert Join(parts) == [s[0]] + rest[0] + ":" + Join(rest[1..]);
        }
        assert s == [s[0]] + s[1..];
      }
    }
  }

  /** Splitting a string that starts with a colon-free piece `p`. */
  lemma {:induction false} SplitAfterPiece(p: string, t: string)
    requires ':' !in p
    ensures Split(p + t) == [p + Split(t)[0]] + Split(t)[1..]
    decreases |p|
  {
    if |p| > 0 {
      SplitAfterPiece(p[1..], t);
      assert (p + t)[1..] == p[1..] + t;
      assert (p + t)[0] == p[0] && p[0] != ':';
      var r := Split(p[1..] + t);
      assert r[0] == p[1..] + Split(t)[0] && r[1..] == Split(t)[1..];
      assert Split(p + t) == [[p[0]] + r[0]] + r[1..];
      assert p == [p[0]] + p[1..];
      assert [p[0]] + (p[1..] + Split(t)[0]) == p + Split(t)[0];
    } else {
      assert p + t == t;
      assert p + Split(t)[0] == Split(t)[0];
      assert Split(t) == [Split(t)[0]] + Split(t)[1..];
    }
  }

  /** Splitting joined colon-free pieces gives back the pieces. */
  lemma {:induction false} SplitJoin(parts: seq<string>)
    requires |parts| >= 1
    requires forall i :: 0 <= i < |parts| ==> ':' !in parts[i]
    ensures Split(Join(parts)) == parts
    decreases |parts|
  {
    if |parts| == 1 {
      SplitAfterPiece(parts[0], "");
      assert Split("") == [""];
      assert parts[0] + "" == parts[0];
      assert parts == [parts[0]];
    } else {
      var rest := Join(parts[1..]);
      SplitJoin(parts[1..]);
      SplitAfterPiece(parts[0], ":" + rest);
      assert (":" + rest)[1..] == rest;
      assert Split(":" + rest) == [""] + parts[1..];
      assert Join(parts) == parts[0] + (":" + rest);
      assert parts[0] + "" == parts[0];
      assert parts == [parts[0]] + parts[1..];
    }
  }

  /** The first two pieces are whole: without a colon the one piece is the
      string itself, and the second piece runs to the end of the string or
      up to its next colon. */
  lemma {:induction false} SplitPiecesWhole(s: string)
    ensures ':' !in s ==> Split(s)[0] == s
    ensures |Split(s)| >= 2 ==>
      var n := |Split(s)[0]| + 1 + |Split(s)[1]|;
      n == |s| || (n < |s| && s[n] == ':')
  {
    var parts := Split(s);
    JoinSplit(s);
    SplitPrefixes(s);
    if |parts| >= 2 {
      var n := |parts[0]| + 1 + |parts[1]|;
      if |parts| == 2 {
        assert Join(parts[1..]) == parts[1];
        assert s == parts[0] + ":" + parts[1];
      } else {
        assert parts[1..][1..] == parts[2..];
        assert Join(parts[1..]) == parts[1] + ":" + Join(parts[2..]);
        assert s == parts[0] + ":" + (parts[1] + ":" + Join(parts[2..]));
        assert s[n] == (parts[1] + ":" + Join(parts[2..]))[|parts[1]|];
      }
    }
  }

  /** `const [userEmail, userPassword] = decodedAuth.split(':')`: the email
      is the text before the first colon; the password is the text between
      the first and the second colon, or `undefined` when there is no colon. */
  function Credentials(decoded: string): (r: (string, JsValue))
    ensures ':' !in r.0 && r.0 <= decoded
    ensures r.1 == Undefined <==> ':' !in decoded
    ensures r.1 != Undefined ==> r.1.Str? && ':' !in r.1.s && r.0 + ":" + r.1.s <= decoded
    ensures ':' !in decoded ==> r.0 == decoded
    ensures r.1.Str? ==>
      |r.0| + 1 + |r.1.s| == |decoded| || decoded[|r.0| + 1 + |r.1.s|] == ':'
  {
    SplitPrefixes(decoded);
    SplitPiecesWhole(decoded);
    var parts := Split(decoded);
    (parts[0], if |parts| > 1 then Str(parts[1]) else Undefined)
  }

  /** An `email:password` pair with no further colon splits back into its parts. */
  lemma CredentialsOfPair(email: string, password: string)
    requires ':' !in email && ':' !in password
    ensures Credentials(email + ":" + password) == (email, Str(password))
  {
    SplitJoin([email, password]);
    assert Join([email, password]) == email + ":" + password;
  }

  /** A password that itself holds a colon is cut at that colon, where
      section 2 of RFC 7617 takes everything after the first colon as the
      password. */
  lemma CredentialsTruncatePassword(email: string, password: string, tail: string)
    requires ':' !in email && ':' !in password
    ensures Credentials(email + ":" + password + ":" + tail) == (email, Str(password))
    ensures Credentials(email + ":" + password + ":" + tail).1 != Str(password + ":" + tail)
  {
    var rest := password + (":" + tail);
    SplitAfterPiece(email, ":" + rest);
    assert email + ":" + password + ":" + tail == email + (":" + rest);
    assert (":" + rest)[1..] == rest;
    assert Split(":" + rest) == [""] + Split(rest);
    SplitAfterPiece(password, ":" + tail);
    assert (":" + tail)[1..] == tail;
    assert Split(":" + tail) == [""] + Split(tail);
    assert Split(rest)[0] == password + "";
    assert Split(email + ":" + password + ":" + tail) == [email + ""] + Split(rest);
    assert email + "" == email && password + "" == password;
    var parts := Split(email + ":" + password + ":" + tail);
    assert |parts| > 1 && parts[0] == email && parts[1] == password;
    assert |password + ":" + tail| > |password|;
  }

  /** The base64 text of the header: what follows the `Basic ` scheme name. */
  function BasicToken(header: string): (r: string)
    ensures "Basic " <= header ==> "Basic " + r == header
    ensures !("Basic " <= header) ==> r == header
  {
    if |header| >= 6 && header[..6] == "Basic " then header[6..] else header
  }

  /** The session lifetime set with the key: 24 hours in seconds. */
  const SessionTtl: nat := 24 * 3600

  /** The outcome of one login: the reply, and the session entry put. */
  datatype ConnectOutcome = ConnectOutcome(reply: Response, session: Option<(string, Id)>)

  /** The user the header names and the password it offers, or `None` when
      no such user is stored. */
  function Claimed(authorization: string, users: seq<User>, fromBase64: JsValue -> string): (Option<User>, JsValue) {
    var creds := Credentials(fromBase64(Str(BasicToken(authorization))));
    (FindUserByEmail(users, Str(creds.0)), creds.1)
  }

  /** `getConnected` on values. `token` is the fresh `uuidv4()`. A login
      succeeds exactly when a header is sent, it names a stored email and the
      digest of the offered password equals the stored one; every failure,
      unknown email or wrong password alike, is the same 401. On success the
      reply holds only the token and one session entry `auth_<token>` maps to
      the user's id. */
  function Connect(authorization: Option<string>, users: seq<User>, fromBase64: JsValue -> string,
                   sha1: JsValue -> string, token: string): (r: ConnectOutcome)
    ensures r.session.Some? <==>
      Supplied(authorization)
      && Claimed(authorization.value, users, fromBase64).0.Some?
      && sha1(Claimed(authorization.value, users, fromBase64).1) == Claimed(authorization.value, users, fromBase64).0.value.password
    ensures r.session.None? ==> r.reply == Unauthorized
    ensures r.session.Some? ==>
      && r.reply == Response(200, TokenBody(token))
      && r.session.value.0 == SessionKey(token)
      && r.session.value.1 == Claimed(authorization.value, users, fromBase64).0.value.id
  {
    if !Supplied(authorization) then ConnectOutcome(Unauthorized, None)
    else
      var (user, password) := Claimed(authorization.value, users, fromBase64);
      if user.None? || sha1(password) != user.value.password then ConnectOutcome(Unauthorized, None)
      else ConnectOutcome(Response(200, TokenBody(token)), Some((SessionKey(token), user.value.id)))
  }

  /** `getConnected` on the stores: on success the session store gains the
      one key `auth_<token>`, holding the user's id with a lifetime of
      86400 seconds; no other key changes, and a failure changes nothing. */
  method GetConnected(db: Database, cache: Cache, authorization: Option<string>,
                      fromBase64: JsValue -> string, sha1: JsValue -> string, token: string)
    returns (reply: Response)
    modifies cache
    ensures var out := Connect(authorization, db.users, fromBase64, sha1, token);
      && reply == out.reply
      && (out.session.None? ==> cache.entries == old(cache.entries) && cache.ttl == old(cache.ttl))
      && (out.session.Some? ==>
            cache.entries == old(cache.entries)[SessionKey(token) := out.session.value.1]
            && cache.ttl == old(cache.ttl)[SessionKey(token) := 86400])
  {
    if !Supplied(authorization) {
      return Unauthorized;
    }
    var (user, password) := Claimed(authorization.value, db.users, fromBase64);
    if user.None? || sha1(password) != user.value.password {
      return Unauthorized;
    }
    cache.SetEx(SessionKey(token), user.value.id, SessionTtl);
    reply := Response(200, TokenBody(token));
  }

  /** A stored user who sends `Basic base64(email:password)` with the right
      password is logged in, and a `getMe` with the new token then answers
      with that user's id and email. */
  lemma {:induction false} LoginThenMe(
    users: seq<User>, u: User, email: string, password: string, authorization: string,
    fromBase64: JsValue -> string, sha1: JsValue -> string, token: string, sessions: map<string, Id>)
    requires DistinctEmails(users) && DistinctUserIds(users) && u in users
    requires ':' !in email && ':' !in password && u.email == Str(email) && u.password == sha1(Str(password))
    requires authorization != "" && fromBase64(Str(BasicToken(authorization))) == email + ":" + password
    ensures var out := Connect(Some(authorization), users, fromBase64, sha1, token);
      && out.session == Some((SessionKey(token), u.id))
      && out.reply == Response(200, TokenBody(token))
    ensures token != "" ==>
      var sessions' := sessions[SessionKey(token) := u.id];
      GetMe(Some(token), ResolveToken(sessions', Some(token)), users) == Response(200, UserBody(u.id, u.email))
  {
    CredentialsOfPair(email, password);
    FindUserByEmailFindsMember(users, u);
    FindUserByIdFindsMember(users, u);
  }

  /** The credential test of line 19, `!user || sha1(userPassword) !==
      user.password`, on the value line 16 leaves in `user`. */
  predicate LoginRefused(user: Lookup<User>, password: JsValue, sha1: JsValue -> string) {
    !LookupTruthy(user) || Str(sha1(password)) != PasswordField(user)
  }

  /** The login as lines 7-27 are written, given the value line 16 leaves in
      `user`. The header is read as `Authorization`, and the whole header is
      decoded. Without `await`, `user` is a pending Promise. */
  function ConnectAsWritten(headers: map<string, string>, user: Lookup<User>,
                            fromBase64: JsValue -> string, sha1: JsValue -> string, token: string): (r: Response)
    ensures r == Unauthorized || r == Response(200, TokenBody(token))
    ensures "Authorization" !in headers ==> r == Unauthorized
    ensures user == Pending ==> r == Unauthorized
  {
    var authBase64 := if "Authorization" in headers then Some(headers["Authorization"]) else None;
    if !Supplied(authBase64) then Unauthorized
    else
      var creds := Credentials(fromBase64(Str(authBase64.value)));
      if LoginRefused(user, creds.1, sha1) then Unauthorized
      else Response(200, TokenBody(token))
  }

  /** With the lookup awaited and the header found under the name line 7
      uses, the test of line 19 decides as `Connect` does. */
  lemma ConnectAsWrittenAwaited(
    users: seq<User>, authorization: string, fromBase64: JsValue -> string, sha1: JsValue -> string, token: string)
    requires !("Basic " <= authorization)
    ensures var email := Credentials(fromBase64(Str(authorization))).0;
      ConnectAsWritten(map["Authorization" := authorization], Resolved(FindUserByEmail(users, Str(email))),
                       fromBase64, sha1, token)
      == Connect(Some(authorization), users, fromBase64, sha1, token).reply
  {
    assert BasicToken(authorization) == authorization;
  }

  /** As written, a stored user with the right password is refused, where the
      awaited lookup logs them in: under the lower-case name Node gives the
      header, and even under the name line 7 reads, since the Promise fails
      the test of line 19. */
  lemma {:induction false} ConnectAsWrittenRefusesValidLogin(
    users: seq<User>, u: User, email: string, password: string, authorization: string,
    headers: map<string, string>, fromBase64: JsValue -> string, sha1: JsValue -> string, token: string)
    requires DistinctEmails(users) && u in users
    requires ':' !in email && ':' !in password && u.email == Str(email) && u.password == sha1(Str(password))
    requires authorization != "" && fromBase64(Str(BasicToken(authorization))) == email + ":" + password
    requires headers == map["authorization" := authorization]
    ensures ConnectAsWritten(headers, Pending, fromBase64, sha1, token) == Unauthorized
    ensures ConnectAsWritten(map["Authorization" := authorization], Pending, fromBase64, sha1, token) == Unauthorized
    ensures Connect(Some(authorization), users, fromBase64, sha1, token).reply == Response(200, TokenBody(token))
  {
    CredentialsOfPair(email, password);
    FindUserByEmailFindsMember(users, u);
  }
}
