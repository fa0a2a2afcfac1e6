/** The background worker: the `fileQueue` handler, which writes three
    thumbnails next to an uploaded image, and the `userQueue` handler, which
    checks that a new user exists. */
module Worker {
  import opened Js
  import opened Records
  import opened Stores
  import opened Files

  /** A job's payload, `job.data`. */
  datatype JobData = JobData(fileId: JsValue, userId: JsValue)

  /** How a job ends: `done()`, `done(new Error(message))`, or never, when the
      handler throws before calling `done` (the image library rejecting its
      input is the one such case here). */
  datatype JobOutcome = Completed | Failed(message: string) | Unsignalled

  /** The thumbnail widths, in the order the handler requests them. */
  datatype Width = W500 | W250 | W100 {
    function Pixels(): nat {
      match this
      case W500 => 500
      case W250 => 250
      case W100 => 100
    }

    function Suffix(): string {
      match this
      case W500 => "_500"
      case W250 => "_250"
      case W100 => "_100"
    }
  }

  const Widths: seq<Width> := [W500, W250, W100]

  /** `${file.localPath}`: a folder's document has no `localPath`, and the
      template then reads "undefined". */
  function PathText(localPath: Option<string>): string {
    if localPath.Some? then localPath.value else "undefined"
  }

  /** `${file.localPath}_500` and its two siblings. */
  function ThumbnailPath(localPath: string, w: Width): (r: string)
    ensures localPath < r && |r| == |localPath| + 4 && r[|localPath|] == '_'
  {
    localPath + w.Suffix()
  }

  /** Each thumbnail path names its source and its width: two thumbnails
      share a path only when they come from the same source at the same
      width, and none overwrites its source. */
  lemma ThumbnailPathsDistinct(p: string, q: string, v: Width, w: Width)
    ensures ThumbnailPath(p, v) == ThumbnailPath(q, w) <==> p == q && v == w
    ensures ThumbnailPath(p, v) != p
  {
    var a, b := ThumbnailPath(p, v), ThumbnailPath(q, w);
    if a == b {
      assert |v.Suffix()| == 4 && |w.Suffix()| == 4;
      assert |p| == |q|;
      assert p == a[..|p|] && q == b[..|q|];
      assert v.Suffix() == a[|p|..] && w.Suffix() == b[|q|..];
    }
    assert |ThumbnailPath(p, v)| == |p| + 4;
  }

  /** Every check of the `fileQueue` handler on its own, in handler order. */
  function FileJobFailures(job: JobData, files: seq<FileRecord>): seq<string> {
    (if Truthy(job.fileId) then [] else ["Missing fileId"])
    + (if Truthy(job.userId) then [] else ["Missing userId"])
    + (if FindFile(files, job.fileId).Some? then [] else ["File not found"])
  }

  /** The three writes for a source: each thumbnail path with the image the
      library made at that width, in the order 500, 250, 100; `None` when the
      library rejects any of the three requests (all three are made before
      any write). `resize` is the image library, given the `localPath` field
      as it stands in the document. */
  function Thumbnails(localPath: Option<string>, resize: (Option<string>, nat) -> Option<string>): (r: Option<seq<(string, string)>>)
    ensures r.Some? <==> forall i :: 0 <= i < |Widths| ==> resize(localPath, Widths[i].Pixels()).Some?
    ensures r.Some? ==>
      && |r.value| == |Widths|
      && forall i :: 0 <= i < |Widths| ==>
           r.value[i] == (ThumbnailPath(PathText(localPath), Widths[i]), resize(localPath, Widths[i].Pixels()).value)
  {
    assert Widths[0].Pixels() == 500 && Widths[1].Pixels() == 250 && Widths[2].Pixels() == 100;
    var t500, t250, t100 := resize(localPath, 500), resize(localPath, 250), resize(localPath, 100);
    if t500.None? || t250.None? || t100.None? then None
    else
      var base := PathText(localPath);
      Some([(ThumbnailPath(base, W500), t500.value), (ThumbnailPath(base, W250), t250.value), (ThumbnailPath(base, W100), t100.value)])
  }

  /** What one `fileQueue` job does: its outcome and the writes made. */
  datatype FileJobResult = FileJobResult(outcome: JobOutcome, writes: seq<(string, string)>)

  /** The `fileQueue` handler on values, each failure returning at once. The
      first failing check fails the job with its message and writes nothing;
      otherwise the three thumbnails of the document's `localPath` are
      written and the job completes. */
  function FileJob(job: JobData, files: seq<FileRecord>, resize: (Option<string>, nat) -> Option<string>): (r: FileJobResult)
    ensures r.outcome.Failed? <==> FileJobFailures(job, files) != []
    ensures r.outcome.Failed? ==> r.outcome.message == FileJobFailures(job, files)[0]
    ensures r.outcome != Completed ==> r.writes == []
    ensures r.outcome == Completed <==>
      && FileJobFailures(job, files) == []
      && FindFile(files, job.fileId).Some?
      && Thumbnails(FindFile(files, job.fileId).value.localPath, resize).Some?
    ensures r.outcome == Completed ==>
      FindFile(files, job.fileId).Some?
      && Thumbnails(FindFile(files, job.fileId).value.localPath, resize) == Some(r.writes)
  {
    if !Truthy(job.fileId) then FileJobResult(Failed("Missing fileId"), [])
    else if !Truthy(job.userId) then FileJobResult(Failed("Missing userId"), [])
    else match FindFile(files, job.fileId)
      case None => FileJobResult(Failed("File not found"), [])
      case Some(file) =>
        match Thumbnails(file.localPath, resize)
        case None => FileJobResult(Unsignalled, [])
        case Some(ws) => FileJobResult(Completed, ws)
  }

  /** The file system after a sequence of writes, applied in order. */
  function ApplyWrites(blobs: map<string, string>, writes: seq<(string, string)>): map<string, string>
    decreases |writes|
  {
    if |writes| == 0 then blobs
    else
      var last := writes[|writes| - 1];
      ApplyWrites(blobs, writes[..|writes| - 1])[last.0 := last.1]
  }

  /** Applying writes overlays the file system with the writes' own map. */
  lemma {:induction false} ApplyWritesOverlay(blobs: map<string, string>, writes: seq<(string, string)>)
    ensures ApplyWrites(blobs, writes) == blobs + ApplyWrites(map[], writes)
    decreases |writes|
  {
    if |writes| > 0 {
      ApplyWritesOverlay(blobs, writes[..|writes| - 1]);
    }
  }

  /** Making the same writes twice leaves the file system as making them
      once: the overwrite that makes re-running a job harmless. */
  lemma {:induction false} ApplyWritesIdempotent(blobs: map<string, string>, writes: seq<(string, string)>)
    ensures ApplyWrites(ApplyWrites(blobs, writes), writes) == ApplyWrites(blobs, writes)
  {
    ApplyWritesOverlay(blobs, writes);
    ApplyWritesOverlay(ApplyWrites(blobs, writes), writes);
    var w := ApplyWrites(map[], writes);
    assert (blobs + w) + w == blobs + w;
  }

  /** Running the same job a second time against the same documents writes
      the same three paths with the same content, so the file system ends as
      after one run. */
  lemma RerunLeavesSameFiles(
    job: JobData, files: seq<FileRecord>, resize: (Option<string>, nat) -> Option<string>, blobs: map<string, string>)
    ensures var ws := FileJob(job, files, resize).writes;
      ApplyWrites(ApplyWrites(blobs, ws), ws) == ApplyWrites(blobs, ws)
  {
    ApplyWritesIdempotent(blobs, FileJob(job, files, resize).writes);
  }

  /** The `fileQueue` handler on the stores: the documents are only read; the
      file system gets the three thumbnails, one write after another. */
  method ProcessFileJob(db: Database, disk: Disk, job: JobData, resize: (Option<string>, nat) -> Option<string>)
    returns (outcome: JobOutcome)
    modifies disk
    ensures var r := FileJob(job, db.files, resize);
      outcome == r.outcome && disk.blobs == ApplyWrites(old(disk.blobs), r.writes)
  {
    if !Truthy(job.fileId) {
      return Failed("Missing fileId");
    }
    if !Truthy(job.userId) {
      return Failed("Missing userId");
    }
    var file := FindFile(db.files, job.fileId);
    if file.None? {
      return Failed("File not found");
    }
    var localPath := file.value.localPath;
    var t500 := resize(localPath, 500);
    var t250 := resize(localPath, 250);
    var t100 := resize(localPath, 100);
    if t500.None? || t250.None? || t100.None? {
      return Unsignalled;
    }
    var base := PathText(localPath);
    ghost var writes := [(ThumbnailPath(base, W500), t500.value), (ThumbnailPath(base, W250), t250.value),
                         (ThumbnailPath(base, W100), t100.value)];
    disk.WriteFile(ThumbnailPath(base, W500), t500.value);
    assert disk.blobs == ApplyWrites(old(disk.blobs), writes[..1]);
    disk.WriteFile(ThumbnailPath(base, W250), t250.value);
    assert writes[..2][..1] == writes[..1];
    assert disk.blobs == ApplyWrites(old(disk.blobs), writes[..2]);
    disk.WriteFile(ThumbnailPath(base, W100), t100.value);
    assert writes[..3][..2] == writes[..2] && writes[..3] == writes;
    outcome := Completed;
  }

  /** The `userQueue` handler: a job without `userId` fails before any lookup,
      an id naming no stored user fails with 'User not found', and any other
      job completes. */
  function UserJob(job: JobData, users: seq<User>): (r: JobOutcome)
    ensures r.Failed? || r == Completed
    ensures !Truthy(job.userId) ==> r == Failed("Missing userId")
    ensures Truthy(job.userId) ==>
      (r == Completed <==> exists u :: u in users && job.userId == Str(u.id))
    ensures Truthy(job.userId) && r != Completed ==> r == Failed("User not found")
  {
    if !Truthy(job.userId) then Failed("Missing userId")
    else if FindUserByRef(users, job.userId).None? then Failed("User not found")
    else Completed
  }

  /** How Bull settles a job from the `done` calls the handler made: the
      first call decides, later calls are ignored, and with none the job is
      never settled. */
  function Settled(signals: seq<JobOutcome>): JobOutcome {
    if signals == [] then Unsignalled else signals[0]
  }

  /** One run of the `fileQueue` handler as lines 18-54 are written: the
      `done` calls in order, and the writes made. */
  datatype AsWrittenRun = AsWrittenRun(signals: seq<JobOutcome>, writes: seq<(string, string)>)

  /** The `fileQueue` handler as written: `done(new Error(...))` at lines 22
      and 27 is not followed by `return`, so the handler runs on after a
      failed check, looks the file up (a missing `fileId` becomes a freshly
      minted `ObjectID`, which names nothing), writes the thumbnails of a
      document it finds and calls `done` again. The writes are the ones the
      corrected handler makes, with `fs.writeFile` taken to work: at lines
      48-50 it is called without a callback, which makes Node throw at the
      first write, so as written nothing is written and the final `done()`
      is never reached. */
  function FileJobAsWritten(job: JobData, files: seq<FileRecord>, resize: (Option<string>, nat) -> Option<string>): (r: AsWrittenRun)
    ensures r.writes != [] ==> r.signals != [] && r.signals[|r.signals| - 1] == Completed
    ensures Truthy(job.fileId) && Truthy(job.userId) ==>
      |r.signals| <= 1 && r.writes == FileJob(job, files, resize).writes
  {
    var checks := (if Truthy(job.fileId) then [] else [Failed("Missing fileId")])
      + (if Truthy(job.userId) then [] else [Failed("Missing userId")]);
    var file := if Truthy(job.fileId) then FindFile(files, job.fileId) else None;
    match file
    case None => AsWrittenRun(checks + [Failed("File not found")], [])
    case Some(f) =>
      match Thumbnails(f.localPath, resize)
      case None => AsWrittenRun(checks, [])
      case Some(ws) => AsWrittenRun(checks + [Completed], ws)
  }

  /** As written, a job without `fileId` (or without `userId`) whose lookup
      fails calls `done` more than once; the call that settles it carries the
      single outcome of the corrected handler. */
  lemma FileJobAsWrittenSignalsTwice(job: JobData, files: seq<FileRecord>, resize: (Option<string>, nat) -> Option<string>)
    requires !Truthy(job.fileId) || !Truthy(job.userId)
    requires FindFile(files, job.fileId).None?
    ensures |FileJobAsWritten(job, files, resize).signals| >= 2
    ensures Settled(FileJobAsWritten(job, files, resize).signals) == FileJob(job, files, resize).outcome
  {
  }

  /** The corrected handler settles every job as the handler as written does,
      and leaves it unsettled exactly when that one never calls `done`. */
  lemma FileJobIsFirstSignal(job: JobData, files: seq<FileRecord>, resize: (Option<string>, nat) -> Option<string>)
    ensures var signals := FileJobAsWritten(job, files, resize).signals;
      && Settled(signals) == FileJob(job, files, resize).outcome
      && (signals == [] <==> FileJob(job, files, resize).outcome == Unsignalled)
  {
  }

  /** The effect of the missing `return` once the writes work: a job for a
      stored image without `userId` is settled as failed with 'Missing
      userId', yet the handler still makes its three thumbnails and writes
      them, where the corrected handler writes nothing. With the writes of
      lines 48-50 as they stand, the handler instead throws at the first
      one, after the job has already failed. */
  lemma MissingUserIdStillWritesThumbnails(job: JobData, files: seq<FileRecord>, resize: (Option<string>, nat) -> Option<string>)
    requires Truthy(job.fileId) && !Truthy(job.userId)
    requires FindFile(files, job.fileId).Some?
    requires Thumbnails(FindFile(files, job.fileId).value.localPath, resize).Some?
    ensures var run := FileJobAsWritten(job, files, resize);
      && Settled(run.signals) == Failed("Missing userId")
      && |run.writes| == 3
      && run.writes == Thumbnails(FindFile(files, job.fileId).value.localPath, resize).value
    ensures FileJob(job, files, resize) == FileJobResult(Failed("Missing userId"), [])
  {
  }

  /** An image just uploaded, once its job runs with the new document's id
      and owner, gets exactly its three thumbnails, each named after the path
      its bytes were written to. */
  lemma {:induction false} UploadedImageGetsThumbnails(
    req: UploadRequest, session: Option<Id>, users: seq<User>, files: seq<FileRecord>,
    folderPathEnv: Option<string>, uuid: string, newId: Id, fromBase64: JsValue -> string,
    resize: (Option<string>, nat) -> Option<string>)
    requires var out := Upload(req, session, users, files, folderPathEnv, uuid, newId, fromBase64);
      out.inserted.Some? && out.inserted.value.kind == Image
    requires DistinctFileIds(files) && FindFile(files, Str(newId)).None?
    requires newId != "" && session != Some("")
    requires forall w: nat :: resize(Some(StorageFolder(folderPathEnv) + "/" + uuid), w).Some?
    ensures var out := Upload(req, session, users, files, folderPathEnv, uuid, newId, fromBase64);
      var path := out.written.value.0;
      var job := FileJob(JobData(Str(newId), Str(session.value)), files + [out.inserted.value], resize);
      && job.outcome == Completed
      && |job.writes| == 3
      && job.writes[0].0 == path + "_500" && job.writes[1].0 == path + "_250" && job.writes[2].0 == path + "_100"
  {
    var out := Upload(req, session, users, files, folderPathEnv, uuid, newId, fromBase64);
    var f := out.inserted.value;
    var files' := files + [f];
    assert DistinctFileIds(files') by {
      forall i, j | 0 <= i < j < |files'| ensures files'[i].id != files'[j].id {
        if j == |files| {
          assert files'[i] == files[i] && files[i] in files;
        }
      }
    }
    FindFileFindsMember(files', f);
    assert Widths[0].Pixels() == 500 && Widths[1].Pixels() == 250 && Widths[2].Pixels() == 100;
  }
}
