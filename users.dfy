/** Registration (`POST /users`) and the current-user query (`GET /users/me`). */
module UsersController {
  import opened Wrappers
  import opened Model

  /**
   * `postNew`: email, then password, must be truthy; the email must be new;
   * the stored document carries `sha1(password)`, never the password itself.
   * `newId` is the fresh id the document store assigns.
   */
  function Register(s: State, email: Option<string>, password: Option<string>,
                    newId: string, sha1: string -> string): (out: (Response, State))
    requires newId != "" && UserWithId(s.users, newId).None?
    ensures out.0.status == 201 <==>
      Truthy(email) && Truthy(password) && UserWithEmail(s.users, email.value).None?
    ensures out.0.status != 201 ==> out.0.status == 400 && out.1 == s
    ensures !Truthy(email) ==> out.0 == BadRequest("Missing email")
    ensures Truthy(email) && !Truthy(password) ==> out.0 == BadRequest("Missing password")
    ensures Truthy(email) && Truthy(password) && UserWithEmail(s.users, email.value).Some? ==>
      out.0 == BadRequest("Already exist")
    ensures out.0.status == 201 ==>
      && out.1 == s.(users := s.users + [User(newId, email.value, sha1(password.value))])
      && out.0.body == UserBody(newId, email.value)
    ensures UniqueEmails(s.users) ==> UniqueEmails(out.1.users)
    ensures Consistent(s) ==> Consistent(out.1)
  {
    if !Truthy(email) then (BadRequest("Missing email"), s)
    else if !Truthy(password) then (BadRequest("Missing password"), s)
    else if UserWithEmail(s.users, email.value).Some? then (BadRequest("Already exist"), s)
    else
      var user := User(newId, email.value, sha1(password.value));
      var s' := s.(users := s.users + [user]);
      AppendUserKeepsConsistent(s, user);
      (Response(201, UserBody(newId, email.value)), s')
  }

  /** Adding a user with a new, non-empty id and an unused email keeps the stores consistent. */
  lemma AppendUserKeepsConsistent(s: State, u: User)
    requires u.id != "" && UserWithId(s.users, u.id).None? && UserWithEmail(s.users, u.email).None?
    ensures UniqueEmails(s.users) ==> UniqueEmails(s.users + [u])
    ensures Consistent(s) ==> Consistent(s.(users := s.users + [u]))
  {
  }

  /** `getMe` is defined unless the session names a user that no longer exists. */
  predicate MeDefined(s: State, token: Option<string>) {
    match SessionUser(s, token)
    case None => true
    case Some(userId) => UserWithId(s.users, userId).Some?
  }

  /** `getMe`: 401 without a live session, otherwise the id and email of the session's user. */
  function Me(s: State, token: Option<string>): (r: Response)
    requires MeDefined(s, token)
    ensures r.status == 200 || r == Unauthorized
    ensures r.status == 200 <==> SessionUser(s, token).Some?
    ensures r.status == 200 ==>
      var user := s.users[UserWithId(s.users, SessionUser(s, token).value).value];
      && user.id == SessionUser(s, token).value
      && r.body == UserBody(user.id, user.email)
  {
    match SessionUser(s, token)
    case None => Unauthorized
    case Some(userId) =>
      var user := s.users[UserWithId(s.users, userId).value];
      Response(200, UserBody(user.id, user.email))
  }

  /** `UsersController.postNew` over the stores. */
  method PostNew(db: Stores, email: Option<string>, password: Option<string>,
                 newId: string, sha1: string -> string) returns (r: Response)
    requires newId != "" && UserWithId(db.users, newId).None?
    modifies db`users
    ensures (r, db.Snapshot()) == Register(old(db.Snapshot()), email, password, newId, sha1)
  {
    if !Truthy(email) {
      return BadRequest("Missing email");
    }
    if !Truthy(password) {
      return BadRequest("Missing password");
    }
    var existing := UserWithEmail(db.users, email.value);
    if existing.Some? {
      return BadRequest("Already exist");
    }
    var digest := sha1(password.value);
    db.users := db.users + [User(newId, email.value, digest)];
    return Response(201, UserBody(newId, email.value));
  }

  /** `UsersController.getMe` over the stores; it changes nothing. */
  method GetMe(db: Stores, token: Option<string>) returns (r: Response)
    requires MeDefined(db.Snapshot(), token)
    ensures r == Me(db.Snapshot(), token)
  {
    if !Truthy(token) {
      return Unauthorized;
    }
    var key := SessionKey(token.value);
    if key !in db.sessions || db.sessions[key].userId == "" {
      return Unauthorized;
    }
    var userId := db.sessions[key].userId;
    var found := UserWithId(db.users, userId);
    var user := db.users[found.value];
    return Response(200, UserBody(user.id, user.email));
  }
}
