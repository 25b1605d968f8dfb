/** File and folder creation (`POST /files`). */
module FilesController {
  import opened Wrappers
  import opened Model

  /** The accepted values of `type`. */
  const FileTypes: seq<string> := ["folder", "file", "image"]

  /** The content directory when `FOLDER_PATH` is unset or empty. */
  const DefaultFolderPath: string := "/tmp/files_manager"

  /** The fields of the JSON request body; an absent field is `None`. */
  datatype UploadRequest = UploadRequest(
    name: Option<string>, fileType: Option<string>, parentId: Option<ParentId>,
    isPublic: Option<bool>, data: Option<string>)

  /**
   * The field checks, in order: name, then type, then data. Folders need no
   * data. The result is the error message, if any.
   */
  function ValidationError(req: UploadRequest): (err: Option<string>)
    ensures err.None? <==>
      && Truthy(req.name)
      && req.fileType.Some? && req.fileType.value in FileTypes
      && (req.fileType.value == "folder" || Truthy(req.data))
    ensures !Truthy(req.name) ==> err == Some("Missing name")
    ensures Truthy(req.name) && !(req.fileType.Some? && req.fileType.value in FileTypes) ==>
      err == Some("Missing type")
    ensures Truthy(req.name) && req.fileType.Some? && req.fileType.value in FileTypes ==>
      err.None? || err == Some("Missing data")
    ensures Truthy(req.name) && req.fileType == Some("folder") ==> err.None?
  {
    if !Truthy(req.name) then Some("Missing name")
    else if !Truthy(req.fileType) || req.fileType.value !in FileTypes then Some("Missing type")
    else if !Truthy(req.data) && req.fileType.value != "folder" then Some("Missing data")
    else None
  }

  /**
   * The parent check: a truthy `parentId` must be found and be a folder; its
   * owner is not checked. The result is the error message, if any.
   */
  function ParentError(files: seq<FileRecord>, parentId: ParentId): (err: Option<string>)
    ensures err.None? <==> ParentIsFolder(files, parentId)
    ensures err == Some("Parent not found") <==>
      ParentTruthy(parentId) && FileWithId(files, parentId.id).None?
    ensures err.Some? ==> err == Some("Parent not found") || err == Some("Parent is not a folder")
  {
    if !ParentTruthy(parentId) then None
    else match FileWithId(files, parentId.id)
      case None => Some("Parent not found")
      case Some(i) => if files[i].fileType != "folder" then Some("Parent is not a folder") else None
  }

  /** `process.env.FOLDER_PATH || '/tmp/files_manager'`. */
  function FolderPath(env: Option<string>): (folder: string)
    ensures folder != ""
    ensures Truthy(env) ==> folder == env.value
    ensures !Truthy(env) ==> folder == DefaultFolderPath
  {
    if Truthy(env) then env.value else DefaultFolderPath
  }

  /** `path.join(dir, name)` for a file name without separators. */
  function PathJoin(dir: string, name: string): (path: string)
    ensures |path| > |name| && path[|path| - |name|..] == name
    ensures var head := path[..|path| - |name|];
      && (head == dir || head == dir + "/")
      && head != "" && head[|head| - 1] == '/'
    ensures var head := path[..|path| - |name|];
      head == dir <==> (dir != "" && dir[|dir| - 1] == '/')
  {
    if dir != "" && dir[|dir| - 1] == '/' then dir + name else dir + "/" + name
  }

  /** The authentication gate of `postUpload`: a live session whose user exists. */
  function Uploader(s: State, token: Option<string>): (r: Option<string>)
    ensures r.Some? ==> r == SessionUser(s, token)
    ensures r.Some? ==> exists i :: 0 <= i < |s.users| && s.users[i].id == r.value
    ensures (SessionUser(s, token).Some? &&
             exists i :: 0 <= i < |s.users| && s.users[i].id == SessionUser(s, token).value) ==>
      r.Some?
  {
    match SessionUser(s, token)
    case None => None
    case Some(userId) => if UserWithId(s.users, userId).Some? then Some(userId) else None
  }

  /** The 201 body: the stored record without its `localPath`. */
  function Echo(rec: FileRecord): Body {
    FileBody(rec.id, rec.userId, rec.name, rec.fileType, rec.isPublic, rec.parentId)
  }

  /** The 201 body determines every field of the record except `localPath`, and nothing about `localPath`. */
  lemma EchoOmitsLocalPath(a: FileRecord, b: FileRecord)
    ensures Echo(a) == Echo(b) <==> a.(localPath := None) == b.(localPath := None)
  {
  }

  /**
   * `postUpload`. A rejection (401, then 400) leaves every store as it was.
   * A folder adds one record without `localPath` and writes nothing; a file
   * or image writes the decoded data at `<folder>/<fileName>` and adds one
   * record pointing there. Absent `parentId` is stored as `0`, absent
   * `isPublic` as false. `newId` is the fresh document id and `fileName` the
   * fresh `uuid.v4()`; `decode` is the base64 decoding together with the
   * UTF-8 encoding of `writeFileSync`.
   */
  function Upload(s: State, token: Option<string>, req: UploadRequest, newId: string,
                  fileName: string, folderEnv: Option<string>, decode: string -> Bytes): (out: (Response, State))
    requires FileWithId(s.files, newId).None?
    requires PathJoin(FolderPath(folderEnv), fileName) !in s.disk
    ensures out.0.status == 201 || out.0.status == 400 || out.0.status == 401
    ensures out.0.status != 201 ==> out.1 == s
    ensures out.0.status == 401 <==> Uploader(s, token).None?
    ensures out.0.status == 401 ==> out.0 == Unauthorized
    ensures Uploader(s, token).Some? && ValidationError(req).Some? ==>
      out.0 == BadRequest(ValidationError(req).value)
    ensures Uploader(s, token).Some? && ValidationError(req).None? &&
            ParentError(s.files, req.parentId.GetOr(Zero)).Some? ==>
      out.0 == BadRequest(ParentError(s.files, req.parentId.GetOr(Zero)).value)
    ensures out.0.status == 201 <==>
      && Uploader(s, token).Some? && ValidationError(req).None?
      && ParentError(s.files, req.parentId.GetOr(Zero)).None?
    ensures out.0.status == 201 ==> |out.1.files| == |s.files| + 1
    ensures out.0.status == 201 ==>
      var rec := out.1.files[|s.files|];
      && out.1 == s.(files := s.files + [rec], disk := out.1.disk)
      && rec.id == newId && rec.userId == Uploader(s, token).value
      && rec.name == req.name.value && rec.fileType == req.fileType.value
      && rec.isPublic == req.isPublic.GetOr(false) && rec.parentId == req.parentId.GetOr(Zero)
      && out.0.body == Echo(rec)
      && (rec.fileType == "folder" ==> rec.localPath.None? && out.1.disk == s.disk)
      && (rec.fileType != "folder" ==>
            var path := PathJoin(FolderPath(folderEnv), fileName);
            && rec.localPath == Some(path)
            && out.1.disk == s.disk[path := decode(req.data.value)]
            && |out.1.disk| == |s.disk| + 1)
    ensures Consistent(s) ==> Consistent(out.1)
  {
    var parentId := req.parentId.GetOr(Zero);
    var isPublic := req.isPublic.GetOr(false);
    match Uploader(s, token)
    case None => (Unauthorized, s)
    case Some(userId) =>
      if ValidationError(req).Some? then (BadRequest(ValidationError(req).value), s)
      else if ParentError(s.files, parentId).Some? then (BadRequest(ParentError(s.files, parentId).value), s)
      else if req.fileType.value == "folder" then
        var rec := FileRecord(newId, userId, req.name.value, req.fileType.value, isPublic, parentId, None);
        AppendFileKeepsConsistent(s, rec, s.disk);
        (Response(201, Echo(rec)), s.(files := s.files + [rec]))
      else
        var path := PathJoin(FolderPath(folderEnv), fileName);
        var disk := s.disk[path := decode(req.data.value)];
        var rec := FileRecord(newId, userId, req.name.value, req.fileType.value, isPublic, parentId, Some(path));
        AppendFileKeepsConsistent(s, rec, disk);
        (Response(201, Echo(rec)), s.(files := s.files + [rec], disk := disk))
  }

  /**
   * Adding a record with a fresh id, a valid type, a `localPath` exactly
   * when it is not a folder, and a parent that is a folder, while the disk
   * only gains entries, keeps the stores consistent.
   */
  lemma AppendFileKeepsConsistent(s: State, rec: FileRecord, disk: map<string, Bytes>)
    requires FileWithId(s.files, rec.id).None?
    requires s.disk.Keys <= disk.Keys
    requires rec.fileType in FileTypes
    requires rec.fileType == "folder" <==> rec.localPath.None?
    requires rec.localPath.Some? ==> rec.localPath.value in disk
    requires ParentIsFolder(s.files, rec.parentId)
    ensures Consistent(s) ==> Consistent(s.(files := s.files + [rec], disk := disk))
  {
    var s' := s.(files := s.files + [rec], disk := disk);
    if ParentTruthy(rec.parentId) {
      FileWithIdAppend(s.files, rec, rec.parentId.id);
    }
    assert WellFormedFile(s', rec);
    if Consistent(s) {
      forall i | 0 <= i < |s'.files| ensures WellFormedFile(s', s'.files[i]) {
        if i < |s.files| {
          var f := s.files[i];
          assert WellFormedFile(s, f);
          if ParentTruthy(f.parentId) {
            FileWithIdAppend(s.files, rec, f.parentId.id);
          }
        }
      }
    }
  }

  /** `FilesController.postUpload` over the stores. */
  method PostUpload(db: Stores, token: Option<string>, req: UploadRequest, newId: string,
                    fileName: string, folderEnv: Option<string>, decode: string -> Bytes)
    returns (r: Response)
    requires FileWithId(db.files, newId).None?
    requires PathJoin(FolderPath(folderEnv), fileName) !in db.disk
    modifies db`files, db`disk
    ensures (r, db.Snapshot()) ==
      Upload(old(db.Snapshot()), token, req, newId, fileName, folderEnv, decode)
  {
    if !Truthy(token) {
      return Unauthorized;
    }
    var key := SessionKey(token.value);
    if key !in db.sessions || db.sessions[key].userId == "" {
      return Unauthorized;
    }
    var userId := db.sessions[key].userId;
    var user := UserWithId(db.users, userId);
    if user.None? {
      return Unauthorized;
    }

    var name, fileType, data := req.name, req.fileType, req.data;
    var parentId := req.parentId.GetOr(Zero);
    var isPublic := req.isPublic.GetOr(false);
    if !Truthy(name) {
      return BadRequest("Missing name");
    } else if !Truthy(fileType) || fileType.value !in FileTypes {
      return BadRequest("Missing type");
    } else if !Truthy(data) && fileType.value != "folder" {
      return BadRequest("Missing data");
    }

    if ParentTruthy(parentId) {
      var parent := FileWithId(db.files, parentId.id);
      if parent.None? {
        return BadRequest("Parent not found");
      }
      if db.files[parent.value].fileType != "folder" {
        return BadRequest("Parent is not a folder");
      }
    }

    if fileType.value == "folder" {
      var folder := FileRecord(newId, userId, name.value, fileType.value, isPublic, parentId, None);
      db.files := db.files + [folder];
      return Response(201, Echo(folder));
    } else {
      var localPath := PathJoin(FolderPath(folderEnv), fileName);
      db.disk := db.disk[localPath := decode(data.value)];
      var newFile := FileRecord(newId, userId, name.value, fileType.value, isPublic, parentId, Some(localPath));
      db.files := db.files + [newFile];
      return Response(201, Echo(newFile));
    }
  }
}
