/** Properties that relate several handlers: what one request leaves for the next. */
module Flows {
  import opened Wrappers
  import opened Text
  import opened Model
  import opened UsersController
  import opened AuthController
  import opened FilesController

  /** Registering the same email twice: the second request gets "Already exist" and changes nothing. */
  lemma RegisterTwice(s: State, email: string, password: string, password': string,
                      id: string, id': string, sha1: string -> string)
    requires id != "" && UserWithId(s.users, id).None?
    requires Register(s, Some(email), Some(password), id, sha1).0.status == 201
    requires password' != ""
    requires id' != "" && UserWithId(Register(s, Some(email), Some(password), id, sha1).1.users, id').None?
    ensures var s1 := Register(s, Some(email), Some(password), id, sha1).1;
      Register(s1, Some(email), Some(password'), id', sha1) == (BadRequest("Already exist"), s1)
  {
    var s1 := Register(s, Some(email), Some(password), id, sha1).1;
    assert s1.users[|s.users|].email == email;
  }

  /**
   * After a successful registration, `GET /connect` with `Basic <c>`, where
   * `c` decrypts to `email:password`, admits the new user: the answer is the
   * token, and the session names the new user's id.
   */
  lemma RegisterThenConnect(s: State, email: string, password: string, id: string,
                            encoded: string, token: string,
                            decrypt: string -> string, sha1: string -> string)
    requires id != "" && UserWithId(s.users, id).None?
    requires Register(s, Some(email), Some(password), id, sha1).0.status == 201
    requires ':' !in email && ':' !in password
    requires ' ' !in encoded && encoded != "" && decrypt(encoded) == email + [':'] + password
    requires SessionKey(token) !in s.sessions
    ensures ConnectDefined(Register(s, Some(email), Some(password), id, sha1).1, "Basic " + encoded, decrypt)
    ensures var s1 := Register(s, Some(email), Some(password), id, sha1).1;
      var out := Connect(s1, "Basic " + encoded, token, decrypt, sha1);
      && out.0 == Response(200, TokenBody(token))
      && out.1.sessions[SessionKey(token)] == Session(id, SessionTtl)
  {
    var s1 := Register(s, Some(email), Some(password), id, sha1).1;
    BasicHeaderField(encoded);
    CredentialsOfPair(email, password);
    var found := UserWithEmail(s1.users, email);
    assert s1.users[|s.users|].email == email;
    assert found == Some(|s.users|);
  }

  /**
   * A token issued by `GET /connect` is accepted at once: `GET /users/me`
   * returns the admitted user's id and email, and the upload gate passes.
   */
  lemma ConnectThenMe(s: State, authorization: string, token: string,
                      decrypt: string -> string, sha1: string -> string)
    requires Consistent(s)
    requires ConnectDefined(s, authorization, decrypt) && SessionKey(token) !in s.sessions
    requires token != ""
    requires Authenticate(s, authorization, decrypt, sha1).Some?
    ensures var s1 := Connect(s, authorization, token, decrypt, sha1).1;
      var user := s.users[Authenticate(s, authorization, decrypt, sha1).value];
      && MeDefined(s1, Some(token))
      && Me(s1, Some(token)) == Response(200, UserBody(user.id, user.email))
      && Uploader(s1, Some(token)) == Some(user.id)
  {
  }

  /**
   * After a successful `GET /disconnect`, the token is dead: a second
   * disconnect, `GET /users/me` and the upload gate all answer 401.
   */
  lemma DisconnectRevokes(s: State, token: Option<string>)
    requires Disconnect(s, token).0.status == 204
    ensures var s1 := Disconnect(s, token).1;
      && Disconnect(s1, token) == (Unauthorized, s1)
      && MeDefined(s1, token) && Me(s1, token) == Unauthorized
      && Uploader(s1, token).None?
  {
  }

  /**
   * A password holding a ':' cannot be used to log in: the login text is cut
   * at its second ':' too, so the digest compared is that of a shorter text,
   * which differs from the stored one when SHA-1 has no collisions.
   */
  lemma ColonPasswordCannotConnect(s: State, email: string, password: string, id: string,
                                   encoded: string, token: string,
                                   decrypt: string -> string, sha1: string -> string)
    requires id != "" && UserWithId(s.users, id).None?
    requires Register(s, Some(email), Some(password), id, sha1).0.status == 201
    requires ':' !in email && ':' in password
    requires ' ' !in encoded && encoded != "" && decrypt(encoded) == email + [':'] + password
    requires SessionKey(token) !in s.sessions
    requires forall a, b :: sha1(a) == sha1(b) ==> a == b
    ensures ConnectDefined(Register(s, Some(email), Some(password), id, sha1).1, "Basic " + encoded, decrypt)
    ensures var s1 := Register(s, Some(email), Some(password), id, sha1).1;
      Connect(s1, "Basic " + encoded, token, decrypt, sha1) == (Unauthorized, s1)
  {
    var s1 := Register(s, Some(email), Some(password), id, sha1).1;
    var decrypted := email + [':'] + password;
    BasicHeaderField(encoded);
    SplitAtFirst(email, password, ':');
    assert EmailOf(decrypted) == email;
    assert s1.users[|s.users|].email == email;
    assert UserWithEmail(s1.users, email) == Some(|s.users|);
    assert Credentials(decrypted).1 != password;
  }

  /** Revoking one token leaves every other session as it was. */
  lemma DisconnectKeepsOtherSessions(s: State, token: Option<string>, other: string)
    requires Disconnect(s, token).0.status == 204
    requires Truthy(token) && other != token.value
    ensures Get(Disconnect(s, token).1.sessions, SessionKey(other)) == Get(s.sessions, SessionKey(other))
  {
  }

  /**
   * The parent of an upload may belong to another user: a folder owned by
   * someone else is accepted as the parent.
   */
  lemma ParentOwnerNotChecked(s: State, token: Option<string>, req: UploadRequest, newId: string,
                              fileName: string, folderEnv: Option<string>, decode: string -> Bytes)
    requires FileWithId(s.files, newId).None?
    requires PathJoin(FolderPath(folderEnv), fileName) !in s.disk
    requires Uploader(s, token).Some? && ValidationError(req).None?
    requires req.parentId.Some? && ParentTruthy(req.parentId.value)
    requires FileWithId(s.files, req.parentId.value.id).Some?
    requires s.files[FileWithId(s.files, req.parentId.value.id).value].fileType == "folder"
    requires s.files[FileWithId(s.files, req.parentId.value.id).value].userId != Uploader(s, token).value
    ensures Upload(s, token, req, newId, fileName, folderEnv, decode).0.status == 201
  {
  }
}
