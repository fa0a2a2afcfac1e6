/** `postUpload` of the files controller: authenticate the caller, check the
    request fields in a fixed order, check the parent, then write the bytes
    (files and images only) and insert one `files` document. */
module Files {
  import opened Js
  import opened Records
  import opened Http
  import opened Stores

  /** The parts of a `POST /files` request the handler reads: the `x-token`
      header and five body fields, each possibly absent (`Undefined`). */
  datatype UploadRequest = UploadRequest(
    token: Option<string>,
    name: JsValue,
    fileType: JsValue,
    data: JsValue,
    parentId: JsValue,
    isPublic: JsValue)

  datatype UploadError =
    | NotAuthenticated
    | MissingName
    | MissingType
    | MissingData
    | ParentNotFound
    | ParentNotFolder

  /** The reply for each rejection, with the exact message the handler sends. */
  function ErrorReply(e: UploadError): Response {
    match e
    case NotAuthenticated => Unauthorized
    case MissingName => BadRequest("Missing name")
    case MissingType => BadRequest("Missing type")
    case MissingData => BadRequest("Missing data")
    case ParentNotFound => BadRequest("Parent not found")
    case ParentNotFolder => BadRequest("Parent is not a folder")
  }

  /** The stored parent reference: a falsy `parentId` becomes 0, the root. */
  function ParentRef(req: UploadRequest): JsValue {
    OrElse(req.parentId, Num(0))
  }

  /** The stored visibility: a falsy `isPublic` becomes false. */
  function Visibility(req: UploadRequest): JsValue {
    OrElse(req.isPublic, Bool(false))
  }

  /** The caller holds a token whose session names a stored user. */
  predicate Authenticated(req: UploadRequest, session: Option<Id>, users: seq<User>) {
    Supplied(req.token) && session.Some? && FindUserById(users, session.value).Some?
  }

  /** The parent check on an already defaulted reference: the root needs no
      lookup; any other reference must name a stored folder. */
  function ParentProblem(files: seq<FileRecord>, parentId: JsValue): (r: Option<UploadError>)
    ensures r.None? && parentId != Num(0) ==> exists f :: f in files && parentId == Str(f.id) && f.kind == Folder
    ensures r == Some(ParentNotFound) <==> parentId != Num(0) && forall f :: f in files ==> parentId != Str(f.id)
    ensures r.Some? ==> r.value == ParentNotFound || r.value == ParentNotFolder
  {
    if parentId == Num(0) then None
    else match FindFile(files, parentId)
      case None => Some(ParentNotFound)
      case Some(parent) => if parent.kind != Folder then Some(ParentNotFolder) else None
  }

  /** Every check of the handler, each one evaluated on its own, listed in the
      order the handler runs them. It specifies which error the handler
      reports: the first one listed. */
  function Failures(req: UploadRequest, session: Option<Id>, users: seq<User>, files: seq<FileRecord>): seq<UploadError> {
    (if Authenticated(req, session, users) then [] else [NotAuthenticated])
    + (if Truthy(req.name) then [] else [MissingName])
    + (if ParseType(req.fileType).Some? then [] else [MissingType])
    + (if Truthy(req.data) || req.fileType == Str("folder") then [] else [MissingData])
    + (match ParentProblem(files, ParentRef(req)) case Some(e) => [e] case None => [])
  }

  /** What the checks hand on to the write step. */
  datatype Draft = Draft(userId: Id, name: JsValue, kind: FileType, isPublic: JsValue, parentId: JsValue)

  /** Lines 11-60 of the handler as early returns. `session` is what the
      session store gave for `auth_<token>`. The handler reports the first
      failing check and nothing else; when none fails it has the owner, the
      kind and the defaulted `parentId` and `isPublic`. */
  function CheckUpload(req: UploadRequest, session: Option<Id>, users: seq<User>, files: seq<FileRecord>): (r: Result<Draft, UploadError>)
    ensures r.Err? <==> Failures(req, session, users, files) != []
    ensures r.Err? ==> r.error == Failures(req, session, users, files)[0]
    ensures r.Ok? ==> session.Some? && r.value.userId == session.value
    ensures r.Ok? ==> req.fileType == Str(TypeName(r.value.kind))
    ensures r.Ok? ==> r.value.name == req.name && r.value.isPublic == Visibility(req) && r.value.parentId == ParentRef(req)
  {
    if !Supplied(req.token) then Err(NotAuthenticated)
    else if session.None? || FindUserById(users, session.value).None? then Err(NotAuthenticated)
    else if !Truthy(req.name) then Err(MissingName)
    else match ParseType(req.fileType)
      case None => Err(MissingType)
      case Some(kind) =>
        if !Truthy(req.data) && kind != Folder then Err(MissingData)
        else
          var parentId := OrElse(req.parentId, Num(0));
          if parentId != Num(0) && FindFile(files, parentId).None? then Err(ParentNotFound)
          else if parentId != Num(0) && FindFile(files, parentId).value.kind != Folder then Err(ParentNotFolder)
          else Ok(Draft(session.value, req.name, kind, OrElse(req.isPublic, Bool(false)), parentId))
  }

  /** `process.env.FOLDER_PATH || '/tmp/files_manager'` */
  function StorageFolder(folderPathEnv: Option<string>): string {
    if Supplied(folderPathEnv) then folderPathEnv.value else "/tmp/files_manager"
  }

  /** `Buffer.from(data, 'base64')` accepts a string or an array; on a
      number, a boolean or a plain object it throws a `TypeError`. */
  predicate Decodable(data: JsValue) {
    data.Str? || data.Arr?
  }

  /** The effect of one upload: the reply (`None` when the handler throws
      before replying), the document inserted (if any) and the file written
      (if any), as path and content. */
  datatype UploadOutcome = UploadOutcome(reply: Option<Response>, inserted: Option<FileRecord>, written: Option<(string, string)>)

  /** The whole handler on values. `uuid` is the fresh name `uuidv4()` gives,
      `newId` the id the database assigns, `fromBase64` the decoding of the
      `data` field to the text written. A file or image whose `data` cannot be
      decoded passes every check and then makes the handler throw: no reply
      is sent, nothing is written and nothing is inserted. */
  function Upload(
    req: UploadRequest, session: Option<Id>, users: seq<User>, files: seq<FileRecord>,
    folderPathEnv: Option<string>, uuid: string, newId: Id, fromBase64: JsValue -> string): (r: UploadOutcome)
    ensures r.reply.None? <==>
      Failures(req, session, users, files) == [] && req.fileType != Str("folder") && !Decodable(req.data)
    ensures r.inserted.Some? <==> Failures(req, session, users, files) == [] && r.reply.Some?
    ensures r.reply.None? ==> r.inserted.None? && r.written.None?
    ensures Failures(req, session, users, files) != [] ==>
      r.written.None? && r.reply == Some(ErrorReply(Failures(req, session, users, files)[0]))
    ensures r.inserted.Some? ==>
      var f := r.inserted.value;
      && f.id == newId && Some(f.userId) == session && f.name == req.name
      && req.fileType == Str(TypeName(f.kind))
      && f.isPublic == Visibility(req) && f.parentId == ParentRef(req)
      && r.reply == Some(Response(201, FileBody(newId, f.userId, f.name, TypeName(f.kind), f.isPublic, f.parentId)))
    ensures r.inserted.Some? ==>
      var f := r.inserted.value;
      && (f.localPath.None? <==> f.kind == Folder)
      && (r.written.Some? <==> f.kind != Folder)
      && (r.written.Some? ==>
            f.localPath == Some(r.written.value.0)
            && r.written.value.0 == StorageFolder(folderPathEnv) + "/" + uuid
            && r.written.value.1 == fromBase64(req.data))
  {
    match CheckUpload(req, session, users, files)
    case Err(e) => UploadOutcome(Some(ErrorReply(e)), None, None)
    case Ok(d) =>
      var reply := Response(201, FileBody(newId, d.userId, d.name, TypeName(d.kind), d.isPublic, d.parentId));
      if d.kind == Folder then
        UploadOutcome(Some(reply), Some(FileRecord(newId, d.userId, d.name, d.kind, d.isPublic, d.parentId, None)), None)
      else if !Decodable(req.data) then
        UploadOutcome(None, None, None)
      else
        var path := StorageFolder(folderPathEnv) + "/" + uuid;
        UploadOutcome(Some(reply), Some(FileRecord(newId, d.userId, d.name, d.kind, d.isPublic, d.parentId, Some(path))),
                      Some((path, fromBase64(req.data))))
  }

  function AfterWrite(blobs: map<string, string>, w: Option<(string, string)>): map<string, string> {
    match w
    case None => blobs
    case Some(pc) => blobs[pc.0 := pc.1]
  }

  /** `postUpload` on the stores: the session store is only read; the file
      system gains the uploaded bytes first, then the `files` collection gains
      the document, and only after every check has passed. `reply` is `None`
      when the handler throws instead of replying. */
  method PostUpload(
    db: Database, cache: Cache, disk: Disk, req: UploadRequest,
    folderPathEnv: Option<string>, uuid: string, newId: Id, fromBase64: JsValue -> string)
    returns (reply: Option<Response>)
    requires db.Valid() && FindFile(db.files, Str(newId)).None?
    modifies db, disk
    ensures db.Valid()
    ensures var out := Upload(req, cache.Resolve(req.token), old(db.users), old(db.files), folderPathEnv, uuid, newId, fromBase64);
      && reply == out.reply
      && db.files == old(db.files) + AsSeq(out.inserted)
      && db.users == old(db.users)
      && disk.blobs == AfterWrite(old(disk.blobs), out.written)
  {
    var session := cache.Resolve(req.token);
    var check := CheckUpload(req, session, db.users, db.files);
    if check.Err? {
      reply := Some(ErrorReply(check.error));
      return;
    }
    var d := check.value;
    if d.kind == Folder {
      db.InsertFile(FileRecord(newId, d.userId, d.name, d.kind, d.isPublic, d.parentId, None));
    } else {
      if !Decodable(req.data) {
        // `Buffer.from` throws: the request is left unanswered.
        return None;
      }
      var path := StorageFolder(folderPathEnv) + "/" + uuid;
      disk.WriteFile(path, fromBase64(req.data));
      db.InsertFile(FileRecord(newId, d.userId, d.name, d.kind, d.isPublic, d.parentId, Some(path)));
    }
    reply := Some(Response(201, FileBody(newId, d.userId, d.name, TypeName(d.kind), d.isPublic, d.parentId)));
  }

  /** Without an `x-token` header the reply is 401 and nothing is inserted. */
  lemma NoTokenInsertsNothing(
    req: UploadRequest, session: Option<Id>, users: seq<User>, files: seq<FileRecord>,
    folderPathEnv: Option<string>, uuid: string, newId: Id, fromBase64: JsValue -> string)
    requires !Supplied(req.token)
    ensures var out := Upload(req, session, users, files, folderPathEnv, uuid, newId, fromBase64);
      out.reply == Some(Unauthorized) && out.inserted.None? && out.written.None?
  {
  }

  /** A token whose session is missing, or names no stored user, gets the
      same 401 and nothing is inserted. */
  lemma UnknownSessionInsertsNothing(
    req: UploadRequest, session: Option<Id>, users: seq<User>, files: seq<FileRecord>,
    folderPathEnv: Option<string>, uuid: string, newId: Id, fromBase64: JsValue -> string)
    requires session.None? || FindUserById(users, session.value).None?
    ensures var out := Upload(req, session, users, files, folderPathEnv, uuid, newId, fromBase64);
      out.reply == Some(Unauthorized) && out.inserted.None? && out.written.None?
  {
  }

  /** An authenticated request without a name is answered 'Missing name',
      whatever its type, data and parent. */
  lemma MissingNameReportedFirst(req: UploadRequest, session: Option<Id>, users: seq<User>, files: seq<FileRecord>)
    requires Authenticated(req, session, users) && !Truthy(req.name)
    ensures CheckUpload(req, session, users, files) == Err(MissingName)
  {
  }

  /** Past the name, a type other than the three strings is answered
      'Missing type', whatever the data and parent. */
  lemma UnknownTypeRejected(req: UploadRequest, session: Option<Id>, users: seq<User>, files: seq<FileRecord>)
    requires Authenticated(req, session, users) && Truthy(req.name)
    requires forall t: FileType :: req.fileType != Str(TypeName(t))
    ensures CheckUpload(req, session, users, files) == Err(MissingType)
  {
  }

  /** Past name and type, missing data is rejected for files and images and
      accepted for folders. */
  lemma DataRequiredUnlessFolder(req: UploadRequest, session: Option<Id>, users: seq<User>, files: seq<FileRecord>)
    requires Authenticated(req, session, users) && Truthy(req.name) && ParseType(req.fileType).Some?
    requires !Truthy(req.data)
    ensures CheckUpload(req, session, users, files) == Err(MissingData) <==> req.fileType != Str("folder")
  {
  }

  /** A parent reference that names no document, or names one that is not a
      folder, is rejected with its own message and nothing is inserted. */
  lemma ParentMustBeStoredFolder(
    req: UploadRequest, session: Option<Id>, users: seq<User>, files: seq<FileRecord>,
    folderPathEnv: Option<string>, uuid: string, newId: Id, fromBase64: JsValue -> string)
    requires Authenticated(req, session, users) && Truthy(req.name) && ParseType(req.fileType).Some?
    requires Truthy(req.data) || req.fileType == Str("folder")
    requires Truthy(req.parentId) && req.parentId != Num(0)
    ensures var out := Upload(req, session, users, files, folderPathEnv, uuid, newId, fromBase64);
      && (FindFile(files, req.parentId).None? ==> out.reply == Some(BadRequest("Parent not found")) && out.inserted.None?)
      && (FindFile(files, req.parentId).Some? && FindFile(files, req.parentId).value.kind != Folder ==>
            out.reply == Some(BadRequest("Parent is not a folder")) && out.inserted.None?)
  {
  }

  /** A file or image whose `data` is a number, `true` or a plain object
      passes every check, and then `Buffer.from` throws: the caller gets no
      reply, and nothing is written or inserted. The same `data` on a folder
      is never decoded, and the folder is stored. */
  lemma UndecodableDataUnanswered(
    req: UploadRequest, session: Option<Id>, users: seq<User>, files: seq<FileRecord>,
    folderPathEnv: Option<string>, uuid: string, newId: Id, fromBase64: JsValue -> string)
    requires Failures(req, session, users, files) == []
    requires req.data.Num? || req.data.Bool? || req.data.Obj?
    ensures var out := Upload(req, session, users, files, folderPathEnv, uuid, newId, fromBase64);
      && (req.fileType != Str("folder") ==> out == UploadOutcome(None, None, None))
      && (req.fileType == Str("folder") ==> out.reply.Some? && out.reply.value.status == 201 && out.inserted.Some?)
  {
  }

  /** Every document's parent is the root or a folder stored before it: the
      tree shape the parent check maintains. */
  ghost predicate ParentsPrecede(files: seq<FileRecord>) {
    forall i :: 0 <= i < |files| ==> ParentProblem(files[..i], files[i].parentId).None?
  }

  /** A successful upload keeps every parent a previously stored folder. */
  lemma {:induction false} UploadKeepsParentsFolders(
    req: UploadRequest, session: Option<Id>, users: seq<User>, files: seq<FileRecord>,
    folderPathEnv: Option<string>, uuid: string, newId: Id, fromBase64: JsValue -> string)
    requires ParentsPrecede(files)
    ensures ParentsPrecede(files + AsSeq(Upload(req, session, users, files, folderPathEnv, uuid, newId, fromBase64).inserted))
  {
    var out := Upload(req, session, users, files, folderPathEnv, uuid, newId, fromBase64);
    var files' := files + AsSeq(out.inserted);
    forall i | 0 <= i < |files'| ensures ParentProblem(files'[..i], files'[i].parentId).None? {
      if i < |files| {
        assert files'[..i] == files[..i];
        assert files'[i] == files[i];
      } else {
        assert files'[..i] == files;
        assert Failures(req, session, users, files) == [];
        assert ParentProblem(files, ParentRef(req)).None?;
      }
    }
  }

  /** A folder just inserted can be named as the parent of the next upload:
      the scenario of a folder followed by a file inside it. */
  lemma {:induction false} UploadIntoStoredFolder(
    req: UploadRequest, session: Option<Id>, users: seq<User>, files: seq<FileRecord>, folder: FileRecord)
    requires DistinctFileIds(files) && folder in files && folder.kind == Folder && folder.id != ""
    requires Authenticated(req, session, users) && Truthy(req.name) && ParseType(req.fileType).Some?
    requires Truthy(req.data) || req.fileType == Str("folder")
    requires req.parentId == Str(folder.id)
    ensures CheckUpload(req, session, users, files).Ok?
    ensures CheckUpload(req, session, users, files).value.parentId == Str(folder.id)
  {
    FindFileFindsMember(files, folder);
  }

  /** The parent check of lines 45-57 run on the value line 48 leaves in
      `parentFolder`: 'Parent not found' when it is falsy, 'Parent is not a
      folder' when its `type` is not 'folder'. */
  function ParentCheck(parentId: JsValue, parentFolder: Lookup<FileRecord>): (r: Option<UploadError>)
    ensures parentId == Num(0) ==> r.None?
    ensures r == Some(ParentNotFound) <==> parentId != Num(0) && parentFolder == Resolved(None)
    ensures r.None? && parentId != Num(0) ==>
      parentFolder.Resolved? && parentFolder.found.Some? && parentFolder.found.value.kind == Folder
  {
    if parentId == Num(0) then None
    else if !LookupTruthy(parentFolder) then Some(ParentNotFound)
    else if TypeField(parentFolder) != Str("folder") then Some(ParentNotFolder)
    else None
  }

  /** With the lookup awaited, the checks of lines 45-57 are `ParentProblem`. */
  lemma ParentCheckAwaited(files: seq<FileRecord>, parentId: JsValue)
    ensures ParentCheck(parentId, Resolved(FindFile(files, parentId))) == ParentProblem(files, parentId)
  {
    if FindFile(files, parentId).Some? {
      var f := FindFile(files, parentId).value;
      assert TypeField(Resolved(Some(f))) == Str("folder") <==> f.kind == Folder;
    }
  }

  /** The parent check as line 48 is written: `findOne` is not awaited, so
      `parentFolder` is a pending Promise. Every non-root reference is then
      'Parent is not a folder'. */
  function ParentProblemAsWritten(parentId: JsValue): (r: Option<UploadError>)
    ensures r.Some? <==> parentId != Num(0)
    ensures r.Some? ==> r.value == ParentNotFolder
  {
    ParentCheck(parentId, Pending)
  }

  /** As written, naming a stored folder as the parent is refused, where the
      awaited lookup accepts it. */
  lemma {:induction false} ParentAsWrittenRefusesFolders(files: seq<FileRecord>, folder: FileRecord)
    requires DistinctFileIds(files) && folder in files && folder.kind == Folder
    ensures ParentProblemAsWritten(Str(folder.id)) == Some(ParentNotFolder)
    ensures ParentProblem(files, Str(folder.id)) == None
  {
    FindFileFindsMember(files, folder);
  }
}
