/**
 * The state shared by the controllers and the thumbnail worker: the `users`
 * and `files` collections of the document store, the `auth_<token>` keys of
 * the session store, and the content directory on disk. The collections keep
 * insertion order, so `findOne` is the first matching document.
 */
module Model {
  import opened Wrappers

  type Bytes = seq<bv8>

  /** A document of the `users` collection: the password is kept only as its SHA-1 digest. */
  datatype User = User(id: string, email: string, passwordDigest: string)

  /** The value of an `auth_<token>` key and the time-to-live it was set with, in seconds. */
  datatype Session = Session(userId: string, ttl: nat)

  /** A `parentId` as submitted: the default number `0`, or an identifier string. */
  datatype ParentId = Zero | Id(id: string)

  /** A document of the `files` collection; `localPath` is absent on folders. */
  datatype FileRecord = FileRecord(
    id: string, userId: string, name: string, fileType: string,
    isPublic: bool, parentId: ParentId, localPath: Option<string>)

  datatype State = State(
    users: seq<User>,
    sessions: map<string, Session>,
    files: seq<FileRecord>,
    disk: map<string, Bytes>)

  /** The JSON bodies the handlers send. */
  datatype Body =
    | ErrorBody(error: string)
    | TokenBody(token: string)
    | UserBody(userId: string, email: string)
    | FileBody(fileId: string, owner: string, name: string, fileType: string, isPublic: bool, parentId: ParentId)
    | NoContent

  datatype Response = Response(status: int, body: Body)

  /** Sessions live for 24 hours. */
  const SessionTtl: nat := 86400

  const Unauthorized := Response(401, ErrorBody("Unauthorized"))

  function BadRequest(message: string): Response {
    Response(400, ErrorBody(message))
  }

  /** JavaScript truthiness of an optional string: present and not empty. */
  predicate Truthy(v: Option<string>) {
    v.Some? && v.value != ""
  }

  /** JavaScript truthiness of a `parentId`: `0` and `""` are falsy. */
  predicate ParentTruthy(p: ParentId) {
    p.Id? && p.id != ""
  }

  /** A map entry, if present: the value a `get` on the store yields, or nothing. */
  function Get<K, V>(m: map<K, V>, key: K): (r: Option<V>)
    ensures r.Some? <==> key in m
    ensures r.Some? ==> r.value == m[key]
  {
    if key in m then Some(m[key]) else None
  }

  /** The session-store key of a token. */
  function SessionKey(token: string): (key: string)
    ensures |key| == |token| + 5 && key[..5] == "auth_" && key[5..] == token
  {
    "auth_" + token
  }

  /**
   * `findOne` over a collection kept in insertion order: the index of the
   * first document that matches, or `None` when none does.
   */
  function First<T>(docs: seq<T>, matches: T -> bool): (r: Option<nat>)
    ensures r.Some? ==> r.value < |docs| && matches(docs[r.value])
    ensures r.Some? ==> forall j :: 0 <= j < r.value ==> !matches(docs[j])
    ensures r.None? ==> forall j :: 0 <= j < |docs| ==> !matches(docs[j])
    decreases |docs|
  {
    if docs == [] then None
    else if matches(docs[0]) then Some(0)
    else match First(docs[1..], matches)
      case None => None
      case Some(i) => Some(i + 1)
  }

  /** `users.findOne({ email })`. */
  function UserWithEmail(users: seq<User>, email: string): Option<nat> {
    First(users, (u: User) => u.email == email)
  }

  /** `users.findOne({ _id })`. */
  function UserWithId(users: seq<User>, id: string): Option<nat> {
    First(users, (u: User) => u.id == id)
  }

  /** `files.findOne({ _id })`. */
  function FileWithId(files: seq<FileRecord>, id: string): Option<nat> {
    First(files, (f: FileRecord) => f.id == id)
  }

  /** Appending a document does not change which earlier document `findOne` returns. */
  lemma FileWithIdAppend(files: seq<FileRecord>, f: FileRecord, id: string)
    ensures FileWithId(files + [f], id) ==
      if FileWithId(files, id).Some? then FileWithId(files, id)
      else if f.id == id then Some(|files|) else None
  {
    var all := files + [f];
    var r0 := FileWithId(files, id);
    if r0.Some? {
      assert all[r0.value] == files[r0.value];
    } else if f.id == id {
      assert all[|files|] == f;
    }
  }

  /**
   * The session gate shared by the handlers: a truthy token whose
   * `auth_<token>` key holds a truthy user id.
   */
  function SessionUser(s: State, token: Option<string>): (r: Option<string>)
    ensures r.Some? <==>
      && Truthy(token) && SessionKey(token.value) in s.sessions
      && s.sessions[SessionKey(token.value)].userId != ""
    ensures r.Some? ==> r.value == s.sessions[SessionKey(token.value)].userId
  {
    if !Truthy(token) then None
    else if SessionKey(token.value) !in s.sessions then None
    else
      var userId := s.sessions[SessionKey(token.value)].userId;
      if userId == "" then None else Some(userId)
  }

  ghost predicate UniqueEmails(users: seq<User>) {
    forall i, j :: 0 <= i < j < |users| ==> users[i].email != users[j].email
  }

  ghost predicate UniqueUserIds(users: seq<User>) {
    forall i, j :: 0 <= i < j < |users| ==> users[i].id != users[j].id
  }

  ghost predicate UniqueFileIds(files: seq<FileRecord>) {
    forall i, j :: 0 <= i < j < |files| ==> files[i].id != files[j].id
  }

  /** The `parentId` of a record names a folder that `findOne` finds. */
  ghost predicate ParentIsFolder(files: seq<FileRecord>, p: ParentId) {
    ParentTruthy(p) ==>
      var found := FileWithId(files, p.id);
      found.Some? && files[found.value].fileType == "folder"
  }

  /**
   * A file record is well formed in a state: its type is one of the three
   * kinds, exactly the non-folders carry a `localPath`, that path is on disk,
   * and a truthy parent is a folder.
   */
  ghost predicate WellFormedFile(s: State, f: FileRecord) {
    && f.fileType in ["folder", "file", "image"]
    && (f.fileType == "folder" <==> f.localPath.None?)
    && (f.localPath.Some? ==> f.localPath.value in s.disk)
    && ParentIsFolder(s.files, f.parentId)
  }

  /** What the handlers keep true of the stores. */
  ghost predicate Consistent(s: State) {
    && UniqueEmails(s.users)
    && UniqueUserIds(s.users)
    && (forall i :: 0 <= i < |s.users| ==> s.users[i].id != "")
    && UniqueFileIds(s.files)
    && (forall i :: 0 <= i < |s.files| ==> WellFormedFile(s, s.files[i]))
  }

  /** The stores, updated in place by the handlers. */
  class Stores {
    var users: seq<User>
    var sessions: map<string, Session>
    var files: seq<FileRecord>
    var disk: map<string, Bytes>

    constructor (initial: State)
      ensures Snapshot() == initial
    {
      users, sessions, files, disk := initial.users, initial.sessions, initial.files, initial.disk;
    }

    function Snapshot(): State
      reads this
    {
      State(users, sessions, files, disk)
    }
  }
}
