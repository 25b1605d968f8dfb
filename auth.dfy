/** Session issue (`GET /connect`) and revocation (`GET /disconnect`). */
module AuthController {
  import opened Wrappers
  import opened Text
  import opened Model

  /**
   * `getConnect` is defined unless `sha1(undefined)` throws: that happens
   * when a non-empty credential field decrypts to a text without ':' that is
   * itself the email of a stored user, so that the password is looked at.
   */
  predicate ConnectDefined(s: State, authorization: string, decrypt: string -> string) {
    match Field(authorization, ' ', 1)
    case None => true
    case Some(encrypted) =>
      var decrypted := decrypt(encrypted);
      encrypted == "" || ':' in decrypted || UserWithEmail(s.users, decrypted).None?
  }

  /** `decrypted.split(':')[0]`: the text before the first ':', or all of it when there is none. */
  function EmailOf(decrypted: string): (email: string)
    ensures ':' !in email && email <= decrypted
    ensures |email| == |decrypted| || decrypted[|email|] == ':'
  {
    JoinSplit(decrypted, ':');
    var parts := Split(decrypted, ':');
    assert |parts| > 1 ==> Join(parts, ':') == parts[0] + [':'] + Join(parts[1..], ':');
    parts[0]
  }

  /**
   * The email and password of a decrypted `email:password` text: the text
   * before the first ':' and the text between the first and the second ':'.
   */
  function Credentials(decrypted: string): (c: (string, string))
    requires ':' in decrypted
    ensures ':' !in c.0 && ':' !in c.1
    ensures c.0 + [':'] + c.1 <= decrypted
    ensures |c.0| + 1 + |c.1| == |decrypted| || decrypted[|c.0| + 1 + |c.1|] == ':'
  {
    SecondFieldExists(decrypted, ':');
    var parts := Split(decrypted, ':');
    JoinSplit(decrypted, ':');
    assert Join(parts, ':') == parts[0] + [':'] + Join(parts[1..], ':');
    assert |parts| > 2 ==> Join(parts[1..], ':') == parts[1] + [':'] + Join(parts[2..], ':');
    (parts[0], parts[1])
  }

  /** Credentials written as `email:password`, with neither part holding a ':', read back unchanged. */
  lemma CredentialsOfPair(email: string, password: string)
    requires ':' !in email && ':' !in password
    ensures ':' in email + [':'] + password
    ensures Credentials(email + [':'] + password) == (email, password)
  {
    var s := email + [':'] + password;
    assert s[|email|] == ':';
    SplitAtFirst(email, password, ':');
    SplitWithoutSeparator(password, ':');
  }

  /** `Basic <credentials>` carries the credentials as its second field. */
  lemma BasicHeaderField(encoded: string)
    requires ' ' !in encoded
    ensures Field("Basic " + encoded, ' ', 1) == Some(encoded)
  {
    assert "Basic " + encoded == "Basic" + [' '] + encoded;
    SplitAtFirst("Basic", encoded, ' ');
    SplitWithoutSeparator(encoded, ' ');
  }

  /**
   * The credential check of `getConnect`: the index of the user it admits,
   * if any. It admits the first user with the decrypted email, and only when
   * that user's stored digest is the SHA-1 of the decrypted password.
   */
  function Authenticate(s: State, authorization: string, decrypt: string -> string,
                        sha1: string -> string): (r: Option<nat>)
    requires ConnectDefined(s, authorization, decrypt)
    ensures !Truthy(Field(authorization, ' ', 1)) ==> r.None?
    ensures Truthy(Field(authorization, ' ', 1)) ==>
      var decrypted := decrypt(Field(authorization, ' ', 1).value);
      var found := UserWithEmail(s.users, EmailOf(decrypted));
      && (found.None? ==> r.None?)
      && (found.Some? ==> ':' in decrypted)
      && (found.Some? ==>
            (r.Some? <==> s.users[found.value].passwordDigest == sha1(Credentials(decrypted).1)))
      && (r.Some? ==> r == found)
  {
    match Field(authorization, ' ', 1)
    case None => None
    case Some(encrypted) =>
      if encrypted == "" then None
      else
        var decrypted := decrypt(encrypted);
        match UserWithEmail(s.users, EmailOf(decrypted))
        case None => None
        case Some(i) =>
          PasswordFieldExists(s, decrypted);
          if s.users[i].passwordDigest != sha1(Credentials(decrypted).1) then None else Some(i)
  }

  /**
   * When the email of a decrypted text is a stored user's and the text
   * passed the `ConnectDefined` condition, the text holds a ':' and so a
   * password field.
   */
  lemma PasswordFieldExists(s: State, decrypted: string)
    requires ':' in decrypted || UserWithEmail(s.users, decrypted).None?
    requires UserWithEmail(s.users, EmailOf(decrypted)).Some?
    ensures ':' in decrypted && Credentials(decrypted).0 == EmailOf(decrypted)
  {
  }

  /**
   * A user whose stored email holds a ':' is never admitted: the login text
   * is cut at its first ':', so the email looked up never holds one.
   */
  lemma ColonEmailNeverAdmitted(s: State, authorization: string, decrypt: string -> string,
                                sha1: string -> string, i: nat)
    requires ConnectDefined(s, authorization, decrypt)
    requires i < |s.users| && ':' in s.users[i].email
    ensures Authenticate(s, authorization, decrypt, sha1) != Some(i)
  {
  }

  /**
   * A credential text without ':' naming no stored user is rejected with
   * 401 and no change, as `!user` short-circuits before `sha1(password)`.
   */
  lemma ColonFreeUnknownEmailRejected(s: State, encoded: string, token: string,
                                      decrypt: string -> string, sha1: string -> string)
    requires ' ' !in encoded && encoded != ""
    requires ':' !in decrypt(encoded) && UserWithEmail(s.users, decrypt(encoded)).None?
    requires SessionKey(token) !in s.sessions
    ensures ConnectDefined(s, "Basic " + encoded, decrypt)
    ensures Connect(s, "Basic " + encoded, token, decrypt, sha1) == (Unauthorized, s)
  {
    BasicHeaderField(encoded);
    SplitWithoutSeparator(decrypt(encoded), ':');
  }

  /**
   * `getConnect`: on admitted credentials, the key `auth_<token>` is set to
   * the user's id with a 24-hour time-to-live and the token is returned;
   * every rejection is a 401 that touches no store. `token` is the fresh
   * `uuid.v4()`.
   */
  function Connect(s: State, authorization: string, token: string,
                   decrypt: string -> string, sha1: string -> string): (out: (Response, State))
    requires ConnectDefined(s, authorization, decrypt)
    requires SessionKey(token) !in s.sessions
    ensures out.0.status == 200 || out == (Unauthorized, s)
    ensures out.0.status == 200 <==> Authenticate(s, authorization, decrypt, sha1).Some?
    ensures out.0.status == 200 ==>
      var user := s.users[Authenticate(s, authorization, decrypt, sha1).value];
      && out.0.body == TokenBody(token)
      && out.1 == s.(sessions := s.sessions[SessionKey(token) := Session(user.id, SessionTtl)])
      && out.1.sessions.Keys == s.sessions.Keys + {SessionKey(token)}
      && |out.1.sessions| == |s.sessions| + 1
    ensures Consistent(s) ==> Consistent(out.1)
  {
    match Authenticate(s, authorization, decrypt, sha1)
    case None => (Unauthorized, s)
    case Some(i) =>
      var sessions := s.sessions[SessionKey(token) := Session(s.users[i].id, SessionTtl)];
      (Response(200, TokenBody(token)), s.(sessions := sessions))
  }

  /**
   * `getDisconnect`: with a live session the key `auth_<token>` is deleted
   * and the answer is 204; otherwise 401 and nothing changes.
   */
  function Disconnect(s: State, token: Option<string>): (out: (Response, State))
    ensures out.0.status == 204 || out == (Unauthorized, s)
    ensures out.0.status == 204 <==> SessionUser(s, token).Some?
    ensures out.0.status == 204 ==>
      && out.0.body == NoContent
      && SessionKey(token.value) in s.sessions
      && out.1 == s.(sessions := s.sessions - {SessionKey(token.value)})
      && |out.1.sessions| == |s.sessions| - 1
    ensures Consistent(s) ==> Consistent(out.1)
  {
    match SessionUser(s, token)
    case None => (Unauthorized, s)
    case Some(_) => (Response(204, NoContent), s.(sessions := s.sessions - {SessionKey(token.value)}))
  }

  /** `AuthController.getConnect` over the stores. */
  method GetConnect(db: Stores, authorization: string, token: string,
                    decrypt: string -> string, sha1: string -> string) returns (r: Response)
    requires ConnectDefined(db.Snapshot(), authorization, decrypt)
    requires SessionKey(token) !in db.sessions
    modifies db`sessions
    ensures (r, db.Snapshot()) == Connect(old(db.Snapshot()), authorization, token, decrypt, sha1)
  {
    var fields := Split(authorization, ' ');
    if |fields| < 2 || fields[1] == "" {
      return Unauthorized;
    }
    var decrypted := decrypt(fields[1]);
    var parts := Split(decrypted, ':');
    var email := parts[0];
    var password := if |parts| > 1 then Some(parts[1]) else None;
    var found := UserWithEmail(db.users, email);
    if found.None? {
      return Unauthorized;
    }
    PasswordFieldExists(db.Snapshot(), decrypted);
    SecondFieldExists(decrypted, ':');
    if db.users[found.value].passwordDigest != sha1(password.value) {
      return Unauthorized;
    }
    db.sessions := db.sessions[SessionKey(token) := Session(db.users[found.value].id, SessionTtl)];
    return Response(200, TokenBody(token));
  }

  /** `AuthController.getDisconnect` over the stores. */
  method GetDisconnect(db: Stores, token: Option<string>) returns (r: Response)
    modifies db`sessions
    ensures (r, db.Snapshot()) == Disconnect(old(db.Snapshot()), token)
  {
    if !Truthy(token) {
      return Unauthorized;
    }
    var key := SessionKey(token.value);
    if key !in db.sessions || db.sessions[key].userId == "" {
      return Unauthorized;
    }
    db.sessions := db.sessions - {key};
    return Response(204, NoContent);
  }
}
