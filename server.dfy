/** The session store of server.py and the handlers that read and change it.

    `active_sessions` is the map `sessions` of a `Server` object; a
    handler that changes a session replaces that session's record in the
    map. The file system (directory listing, `is_file`, file sizes,
    existence, reading bytes), the clock, `uuid4()` and the configured
    API key are inputs. `asyncio.create_task(process_session(id))` is not
    modelled as a background task: `ProcessSession` is a separate call that
    runs the whole task, one item after another. */
module Server {
  import opened Common
  import opened Gemini
  import Images
  import Paths
  import Parallel
  import Reports

  /** The `status` strings a session goes through. */
  datatype Status = Uploaded | Processing | Completed | Error {
    function Name(): string {
      match this
      case Uploaded => "uploaded"
      case Processing => "processing"
      case Completed => "completed"
      case Error => "error"
    }
  }

  /** One entry of a session's `files`. */
  datatype FileInfo = FileInfo(filename: string, size: nat, path: string)

  /** One `active_sessions` record; `source`, `report_path` and `error` are
      keys that may be absent. */
  datatype Session = Session(
    status: Status,
    files: seq<FileInfo>,
    results: seq<SolveResult>,
    progress: nat,
    total: nat,
    source: Option<string>,
    createdAt: string,
    reportPath: Option<string>,
    error: Option<string>)

  /** An `HTTPException`. */
  datatype HttpError = HttpError(statusCode: nat, detail: string)

  /** The reply of `solve_folder` and `upload_files`. */
  datatype Created = Created(sessionId: string, fileCount: nat, files: seq<FileInfo>)

  /** The reply of `get_progress`. */
  datatype Progress = Progress(status: string, progress: nat, total: nat, results: seq<SolveResult>,
                               error: Option<string>, reportPath: Option<string>)

  /** The reply of `get_results`. */
  datatype Results = Results(status: string, results: seq<SolveResult>, reportPath: Option<string>)

  /** The reply of `get_image`: the file and its media type. */
  datatype ImageFile = ImageFile(path: string, mediaType: string)

  const NotFound := HttpError(404, "Session not found")
  const KeyNotConfigured := HttpError(400, "GEMINI_API_KEY not configured")
  const NoFolderImages := HttpError(400, "No images found in questions folder")
  const NoUploadedImages := HttpError(400, "No valid image files uploaded")
  const ImageNotFound := HttpError(404, "Image not found")
  /** The response to an exception the handler does not catch. */
  const InternalError := HttpError(500, "Internal Server Error")

  /** A record is consistent: `total` counts the files, and `progress`
      counts the results and never passes `total`. */
  predicate Consistent(s: Session) {
    s.total == |s.files| && s.progress == |s.results| <= s.total
  }

  /** The record a handler stores for a new session. */
  function NewSession(status: Status, files: seq<FileInfo>, source: Option<string>, now: string): (s: Session)
    ensures Consistent(s) && s.progress == 0 && s.results == [] && s.total == |files|
    ensures s.status == status && s.files == files && s.source == source
    ensures s.reportPath.None? && s.error.None?
  {
    Session(status, files, [], 0, |files|, source, now, None, None)
  }

  // ------------------------------------------------------ folder sessions

  /** The test of `solve_folder`'s loop: a regular file with a supported suffix. */
  function FolderTest(questionsDir: string, isFile: string -> bool): string -> bool {
    name => isFile(Paths.Join(questionsDir, name)) && Images.IsSupported(name)
  }

  /** The names `solve_folder` picks up: in sorted order, the regular files
      with a supported suffix. */
  function FolderNames(questionsDir: string, entries: seq<string>, isFile: string -> bool): seq<string> {
    Filter(Paths.Sort(entries), FolderTest(questionsDir, isFile))
  }

  /** The `files` records of the picked-up names. */
  function FolderInfos(questionsDir: string, names: seq<string>, size: string -> nat): (fs: seq<FileInfo>)
    ensures |fs| == |names|
    ensures forall i :: 0 <= i < |names| ==>
              fs[i] == FileInfo(names[i], size(Paths.Join(questionsDir, names[i])), Paths.Join(questionsDir, names[i]))
  {
    seq(|names|, i requires 0 <= i < |names| =>
      FileInfo(names[i], size(Paths.Join(questionsDir, names[i])), Paths.Join(questionsDir, names[i])))
  }

  lemma FolderInfosSnoc(questionsDir: string, names: seq<string>, x: string, size: string -> nat)
    ensures FolderInfos(questionsDir, names + [x], size)
            == FolderInfos(questionsDir, names, size)
               + [FileInfo(x, size(Paths.Join(questionsDir, x)), Paths.Join(questionsDir, x))]
  {
  }

  /** `solve_folder` keeps each regular file with a supported suffix as
      often as the listing has it, nothing else, in ascending name order. */
  lemma FolderNamesExactly(questionsDir: string, entries: seq<string>, isFile: string -> bool, x: string)
    ensures multiset(FolderNames(questionsDir, entries, isFile))[x]
            == if isFile(Paths.Join(questionsDir, x)) && Images.IsSupported(x) then multiset(entries)[x] else 0
    ensures x in FolderNames(questionsDir, entries, isFile)
            <==> x in entries && isFile(Paths.Join(questionsDir, x)) && Images.IsSupported(x)
    ensures Paths.Ascending(FolderNames(questionsDir, entries, isFile))
  {
    var test := FolderTest(questionsDir, isFile);
    FilterCounts(Paths.Sort(entries), test, x);
    FilterMembership(Paths.Sort(entries), test, x);
    assert x in Paths.Sort(entries) <==> x in multiset(Paths.Sort(entries));
    Paths.SortAscending(entries);
    Images.FilterAscending(Paths.Sort(entries), test);
  }

  // ------------------------------------------------------ upload sessions

  /** One file of an upload request; a part sent without a content type
      has `None` there. */
  datatype Upload = Upload(filename: string, contentType: Option<string>, content: seq<bv8>)

  /** `file.content_type.startswith("image/")`, for an upload that has a type. */
  predicate IsImageUpload(u: Upload) {
    u.contentType.Some? && StartsWith(u.contentType.value, "image/")
  }

  /** Every upload carries a content type, so the type test never meets `None`. */
  predicate AllTyped(uploads: seq<Upload>) {
    forall i :: 0 <= i < |uploads| ==> uploads[i].contentType.Some?
  }

  /** The `files` records of the kept uploads, saved under `sessionDir`. */
  function UploadInfos(sessionDir: string, kept: seq<Upload>): (fs: seq<FileInfo>)
    ensures |fs| == |kept|
    ensures forall i :: 0 <= i < |kept| ==>
              fs[i] == FileInfo(kept[i].filename, |kept[i].content|, Paths.Join(sessionDir, kept[i].filename))
  {
    seq(|kept|, i requires 0 <= i < |kept| =>
      FileInfo(kept[i].filename, |kept[i].content|, Paths.Join(sessionDir, kept[i].filename)))
  }

  /** `upload_files` keeps exactly the uploads whose type is an image type,
      each as often as sent and in the order sent. */
  lemma UploadsKept(uploads: seq<Upload>, u: Upload)
    ensures u in Filter(uploads, IsImageUpload) <==>
              u in uploads && u.contentType.Some? && StartsWith(u.contentType.value, "image/")
    ensures multiset(Filter(uploads, IsImageUpload))[u] == if IsImageUpload(u) then multiset(uploads)[u] else 0
  {
    FilterMembership(uploads, IsImageUpload, u);
    FilterCounts(uploads, IsImageUpload, u);
  }

  // ----------------------------------------------------- loading images

  /** The `images` list `process_session` reads before solving anything:
      the first read that raises ends the task with its message. */
  function LoadImages(files: seq<FileInfo>, read: string -> Result<seq<bv8>, string>): Result<seq<Images.Image>, string> {
    if files == [] then Success([])
    else
      var last := files[|files| - 1];
      match LoadImages(files[..|files| - 1], read)
      case Failure(e) => Failure(e)
      case Success(images) =>
        match read(last.path)
        case Failure(e) => Failure(e)
        case Success(bytes) => Success(images + [Images.Image(last.filename, bytes, Images.MimeType(last.filename))])
  }

  /** The first file whose read raises, if any. */
  function FirstUnreadable(files: seq<FileInfo>, read: string -> Result<seq<bv8>, string>): (k: Option<nat>)
    ensures k.Some? ==> k.value < |files| && read(files[k.value].path).Failure?
                        && forall j :: 0 <= j < k.value ==> read(files[j].path).Success?
    ensures k.None? <==> forall j :: 0 <= j < |files| ==> read(files[j].path).Success?
  {
    if files == [] then None
    else
      match FirstUnreadable(files[..|files| - 1], read)
      case Some(k) => Some(k)
      case None => if read(files[|files| - 1].path).Failure? then Some(|files| - 1) else None
  }

  /** Loading fails exactly when some file cannot be read, and then with the
      message of the first such file. */
  lemma {:induction false} LoadImagesFails(files: seq<FileInfo>, read: string -> Result<seq<bv8>, string>)
    ensures LoadImages(files, read).Failure? <==> FirstUnreadable(files, read).Some?
    ensures LoadImages(files, read).Failure? ==>
              LoadImages(files, read).error == read(files[FirstUnreadable(files, read).value].path).error
  {
    if files != [] {
      LoadImagesFails(files[..|files| - 1], read);
    }
  }

  /** Otherwise there is one image per file, in order, with the file's
      bytes and the type of its suffix. */
  lemma {:induction false} LoadImagesSucceeds(files: seq<FileInfo>, read: string -> Result<seq<bv8>, string>)
    requires LoadImages(files, read).Success?
    ensures |LoadImages(files, read).value| == |files|
    ensures forall i :: 0 <= i < |files| ==>
              read(files[i].path).Success?
              && LoadImages(files, read).value[i]
                 == Images.Image(files[i].filename, read(files[i].path).value, Images.MimeType(files[i].filename))
  {
    if files != [] {
      var init := files[..|files| - 1];
      var last := files[|files| - 1];
      assert LoadImages(init, read).Success? && read(last.path).Success?;
      LoadImagesSucceeds(init, read);
      var before := LoadImages(init, read).value;
      var image := Images.Image(last.filename, read(last.path).value, Images.MimeType(last.filename));
      assert LoadImages(files, read).value == before + [image];
      forall i | 0 <= i < |files|
        ensures read(files[i].path).Success?
        ensures LoadImages(files, read).value[i]
                == Images.Image(files[i].filename, read(files[i].path).value, Images.MimeType(files[i].filename))
      {
        if i < |init| {
          assert init[i] == files[i];
          assert (before + [image])[i] == before[i];
        } else {
          assert i == |files| - 1;
          assert files[i] == last;
        }
      }
    }
  }

  /** A solved result can always be rendered into a report. */
  lemma GatherRenderable(images: seq<Images.Image>, scripts: seq<Script>)
    requires |scripts| == |images|
    ensures Reports.AllRenderable(Parallel.Gather(images, scripts))
  {
    var rs := Parallel.Gather(images, scripts);
    forall i | 0 <= i < |rs| ensures Reports.Renderable(rs[i]) {
      assert WellFormed(Solve(images[i].filename, scripts[i]).result);
    }
  }

  /** `session_id[:8]`. */
  function IdPrefix(id: string): (p: string)
    ensures |p| == if |id| < 8 then |id| else 8
    ensures p == id[..|p|]
  {
    if |id| <= 8 then id else id[..8]
  }

  /** The `report_path` stored once the report is generated: the path of
      the report, or `str(None)` when there were no results. */
  function ReportPath(results: seq<SolveResult>, outputDir: string, id: string, env: Reports.Environment): string {
    if results == [] then "None"
    else Paths.Join(outputDir, Reports.OutputName(Some("rapor_" + IdPrefix(id) + ".md"), env.fileStamp))
  }

  /** What `process_session` leaves in the record of the session it runs:
      a missing key or a file that cannot be read ends it with `error` and
      the exception's message; otherwise every image is solved in order,
      and the report is written (`completed`) or its writing raises
      (`error`). `writeError` is the message of the exception the write
      raises, if it does. */
  function Processed(s: Session, id: string, apiKey: string, read: string -> Result<seq<bv8>, string>,
                     scripts: seq<Script>, outputDir: string, env: Reports.Environment,
                     writeError: Option<string>): Session
    requires |scripts| == |s.files|
  {
    match ResolveKey(None, apiKey)
    case Failure(e) => s.(status := Error, error := Some(e))
    case Success(_) =>
      match LoadImages(s.files, read)
      case Failure(e) => s.(status := Error, error := Some(e))
      case Success(images) =>
        LoadImagesSucceeds(s.files, read);
        Finished(s, images, scripts, id, outputDir, env, writeError)
  }

  /** The record once the images are loaded: every image solved in order,
      then the report written (`completed`) or its writing raising (`error`). */
  function Finished(s: Session, images: seq<Images.Image>, scripts: seq<Script>, id: string,
                    outputDir: string, env: Reports.Environment, writeError: Option<string>): Session
    requires |scripts| == |images|
  {
    var results := Parallel.Gather(images, scripts);
    var solved := if images == [] then s else s.(progress := |images|, results := results);
    if images != [] && writeError.Some? then solved.(status := Error, error := writeError)
    else solved.(status := Completed, reportPath := Some(ReportPath(results, outputDir, id, env)))
  }

  /** The task always ends `completed` or `error`, and ends `completed`
      exactly when the key is set, every file can be read and, if there was
      anything to solve, the report is written. A completed task has the
      report path of its results and one result per file, the i-th being
      the solver's result for the i-th file; a task ending in `error`
      carries the message of what ended it: the missing key, the first file
      that cannot be read (nothing solved), or the report's write.
      Consistency of the record is kept. */
  lemma ProcessedOutcome(s: Session, id: string, apiKey: string, read: string -> Result<seq<bv8>, string>,
                         scripts: seq<Script>, outputDir: string, env: Reports.Environment,
                         writeError: Option<string>)
    requires |scripts| == |s.files| && Consistent(s)
    ensures var t := Processed(s, id, apiKey, read, scripts, outputDir, env, writeError);
      Consistent(t) && t.files == s.files
      && (t.status == Completed || t.status == Error)
      && (t.status == Error ==> t.error.Some?)
      && (t.status == Completed ==> t.reportPath.Some? && apiKey != "")
      && (t.status == Completed && s.files != [] ==>
            t.progress == t.total && |t.results| == |s.files|
            && forall i :: 0 <= i < |s.files| ==>
                 t.results[i] == Solve(s.files[i].filename, scripts[i]).result)
      && (apiKey == "" ==> t.status == Error && t.error == Some(KeyMissingMessage) && t.progress == s.progress)
    ensures var t := Processed(s, id, apiKey, read, scripts, outputDir, env, writeError);
      (t.status == Completed <==> apiKey != "" && LoadImages(s.files, read).Success? && (s.files == [] || writeError.None?))
      && (t.status == Completed ==> t.reportPath == Some(ReportPath(t.results, outputDir, id, env)))
    ensures var t := Processed(s, id, apiKey, read, scripts, outputDir, env, writeError);
      var k := FirstUnreadable(s.files, read);
      apiKey != "" && k.Some? ==>
        t.status == Error && t.error == Some(read(s.files[k.value].path).error)
        && t.progress == s.progress && t.results == s.results
    ensures var t := Processed(s, id, apiKey, read, scripts, outputDir, env, writeError);
      apiKey != "" && LoadImages(s.files, read).Success? && s.files != [] && writeError.Some? ==>
        t.status == Error && t.error == writeError && t.progress == t.total
  {
    LoadImagesFails(s.files, read);
    var t := Processed(s, id, apiKey, read, scripts, outputDir, env, writeError);
    if apiKey != "" && LoadImages(s.files, read).Success? {
      LoadImagesSucceeds(s.files, read);
      var images := LoadImages(s.files, read).value;
      forall i | 0 <= i < |images| ensures Parallel.Gather(images, scripts)[i].filename == images[i].filename {
        Parallel.GatherKeepsOrder(images, scripts, i);
      }
    }
  }

  // -------------------------------------------------------------- server

  class Server {
    /** QUESTIONS_DIR, UPLOAD_DIR, OUTPUT_DIR and GEMINI_API_KEY. */
    const questionsDir: string
    const uploadDir: string
    const outputDir: string
    const apiKey: string
    /** `active_sessions`. */
    var sessions: map<string, Session>

    /** Every stored record is consistent. */
    ghost predicate Valid()
      reads this
    {
      forall id :: id in sessions ==> Consistent(sessions[id])
    }

    /** The module-level state at start-up: no sessions. */
    constructor (questionsDir: string, uploadDir: string, outputDir: string, apiKey: string)
      ensures Valid() && sessions == map[]
      ensures this.questionsDir == questionsDir && this.uploadDir == uploadDir
      ensures this.outputDir == outputDir && this.apiKey == apiKey
    {
      this.questionsDir := questionsDir;
      this.uploadDir := uploadDir;
      this.outputDir := outputDir;
      this.apiKey := apiKey;
      sessions := map[];
    }

    /** The loop of `solve_folder` over `sorted(QUESTIONS_DIR.iterdir())`. */
    method FindFolderImages(entries: seq<string>, isFile: string -> bool, size: string -> nat)
      returns (found: seq<FileInfo>)
      ensures found == FolderInfos(questionsDir, FolderNames(questionsDir, entries, isFile), size)
    {
      var sorted := Paths.Sort(entries);
      found := [];
      for i := 0 to |sorted|
        invariant found == FolderInfos(questionsDir, Filter(sorted[..i], FolderTest(questionsDir, isFile)), size)
      {
        assert sorted[..i + 1][..i] == sorted[..i];
        var path := Paths.Join(questionsDir, sorted[i]);
        ghost var kept := Filter(sorted[..i], FolderTest(questionsDir, isFile));
        assert FolderTest(questionsDir, isFile)(sorted[i]) == (isFile(path) && Images.IsSupported(sorted[i]));
        if isFile(path) && Images.IsSupported(sorted[i]) {
          FolderInfosSnoc(questionsDir, kept, sorted[i], size);
          found := found + [FileInfo(sorted[i], size(path), path)];
        }
      }
      assert sorted[..|sorted|] == sorted;
    }

    /** `solve_folder()`: 400 when the folder has no images, checked before
        400 for a missing key; otherwise a new `processing` session of the
        folder's images under the id `sessionId` (the fresh `uuid4()`). */
    method SolveFolder(entries: seq<string>, isFile: string -> bool, size: string -> nat,
                       sessionId: string, now: string) returns (r: Result<Created, HttpError>)
      requires Valid()
      modifies this
      ensures Valid()
      ensures var files := FolderInfos(questionsDir, FolderNames(questionsDir, entries, isFile), size);
        (files == [] ==> r == Failure(NoFolderImages))
        && (files != [] && apiKey == "" ==> r == Failure(KeyNotConfigured))
        && (r.Failure? ==> sessions == old(sessions))
        && (r.Success? <==> files != [] && apiKey != "")
        && (r.Success? ==> r.value == Created(sessionId, |files|, files)
                           && sessions == old(sessions)[sessionId := NewSession(Processing, files, Some("folder"), now)])
    {
      var found := FindFolderImages(entries, isFile, size);
      if found == [] {
        return Failure(NoFolderImages);
      }
      if apiKey == "" {
        return Failure(KeyNotConfigured);
      }
      sessions := sessions[sessionId := NewSession(Processing, found, Some("folder"), now)];
      r := Success(Created(sessionId, |found|, found));
    }

    /** The loop of `upload_files`: the image uploads, saved under the
        session's directory; an upload without a content type makes
        `None.startswith` raise, which the server answers with a 500. */
    method SaveUploads(sessionDir: string, uploads: seq<Upload>) returns (r: Result<seq<FileInfo>, HttpError>)
      ensures r.Failure? <==> !AllTyped(uploads)
      ensures r.Failure? ==> r.error == InternalError
      ensures r.Success? ==> r.value == UploadInfos(sessionDir, Filter(uploads, IsImageUpload))
    {
      var saved := [];
      for i := 0 to |uploads|
        invariant AllTyped(uploads[..i])
        invariant saved == UploadInfos(sessionDir, Filter(uploads[..i], IsImageUpload))
      {
        assert uploads[..i + 1][..i] == uploads[..i];
        var file := uploads[i];
        if file.contentType.None? {
          return Failure(InternalError);
        }
        if StartsWith(file.contentType.value, "image/") {
          saved := saved + [FileInfo(file.filename, |file.content|, Paths.Join(sessionDir, file.filename))];
        }
      }
      assert uploads[..|uploads|] == uploads;
      r := Success(saved);
    }

    /** `upload_files(files)`: 500 when an upload has no content type, 400
        when no upload has an image type, both leaving every session as it
        was; otherwise a new `uploaded` session of the image uploads. */
    method UploadFiles(uploads: seq<Upload>, sessionId: string, now: string) returns (r: Result<Created, HttpError>)
      requires Valid()
      modifies this
      ensures Valid()
      ensures r.Failure? ==> sessions == old(sessions)
      ensures !AllTyped(uploads) ==> r == Failure(InternalError)
      ensures var files := UploadInfos(Paths.Join(uploadDir, sessionId), Filter(uploads, IsImageUpload));
        AllTyped(uploads) ==>
          (r.Failure? <==> files == [])
          && (r.Failure? ==> r.error == NoUploadedImages)
          && (r.Success? ==> r.value == Created(sessionId, |files|, files)
                             && sessions == old(sessions)[sessionId := NewSession(Uploaded, files, None, now)])
    {
      var saved := SaveUploads(Paths.Join(uploadDir, sessionId), uploads);
      if saved.Failure? {
        return Failure(saved.error);
      }
      var uploaded := saved.value;
      if uploaded == [] {
        return Failure(NoUploadedImages);
      }
      sessions := sessions[sessionId := NewSession(Uploaded, uploaded, None, now)];
      r := Success(Created(sessionId, |uploaded|, uploaded));
    }

    /** `solve_questions(session_id)`: 404 for an unknown session, then 400
        for a missing key, both leaving every session as it was; otherwise
        the session is marked `processing` (the task itself is
        `ProcessSession`). */
    method SolveQuestions(sessionId: string) returns (r: Result<string, HttpError>)
      requires Valid()
      modifies this
      ensures Valid()
      ensures sessionId !in old(sessions) ==> r == Failure(NotFound)
      ensures sessionId in old(sessions) && apiKey == "" ==> r == Failure(KeyNotConfigured)
      ensures r.Failure? ==> sessions == old(sessions)
      ensures r.Success? <==> sessionId in old(sessions) && apiKey != ""
      ensures r.Success? ==> r.value == sessionId
                             && sessions == old(sessions)[sessionId := old(sessions)[sessionId].(status := Processing)]
    {
      if sessionId !in sessions {
        return Failure(NotFound);
      }
      if apiKey == "" {
        return Failure(KeyNotConfigured);
      }
      sessions := sessions[sessionId := sessions[sessionId].(status := Processing)];
      r := Success(sessionId);
    }

    /** The image-loading loop of `process_session`. */
    method LoadSessionImages(files: seq<FileInfo>, read: string -> Result<seq<bv8>, string>)
      returns (r: Result<seq<Images.Image>, string>)
      ensures r == LoadImages(files, read)
    {
      var images: seq<Images.Image> := [];
      for i := 0 to |files|
        invariant LoadImages(files[..i], read) == Success(images)
      {
        assert files[..i + 1][..i] == files[..i];
        var bytes := read(files[i].path);
        if bytes.Failure? {
          LoadFailureSticks(files, read, i + 1);
          return Failure(bytes.error);
        }
        images := images + [Images.Image(files[i].filename, bytes.value, Images.MimeType(files[i].filename))];
      }
      assert files[..|files|] == files;
      r := Success(images);
    }

    /** The solving loop of `process_session`: after item i, `progress` is
        i + 1 and `results` holds the first i + 1 results. */
    method SolveAll(id: string, images: seq<Images.Image>, scripts: seq<Script>, client: GeminiClient)
      returns (results: seq<SolveResult>)
      requires Valid() && id in sessions && |scripts| == |images| == sessions[id].total
      requires client.Valid()
      modifies this, client
      ensures Valid() && client.Valid()
      ensures results == Parallel.Gather(images, scripts)
      ensures sessions == old(sessions)[id := if images == [] then old(sessions)[id]
                                               else old(sessions)[id].(progress := |images|, results := results)]
    {
      results := [];
      for i := 0 to |images|
        invariant Valid() && client.Valid() && id in sessions
        invariant results == Parallel.Gather(images, scripts)[..i]
        invariant sessions == old(sessions)[id := if i == 0 then old(sessions)[id]
                                                  else old(sessions)[id].(progress := i, results := results)]
      {
        var r, _, _ := client.SolveQuestion(images[i].filename, scripts[i]);
        Parallel.GatherStep(images, scripts, i);
        results := results + [r];
        sessions := sessions[id := sessions[id].(progress := i + 1, results := results)];
        assert sessions[id].progress == i + 1 == |sessions[id].results| <= sessions[id].total;
      }
    }

    /** `process_session(session_id)`, run to its end. The report is the one
        `ReportGenerator().generate(results, UPLOAD_DIR / session_id,
        f"rapor_{session_id[:8]}.md")` builds. */
    method ProcessSession(id: string, read: string -> Result<seq<bv8>, string>, scripts: seq<Script>,
                          env: Reports.Environment, writeError: Option<string>)
      returns (report: Option<Reports.Report>)
      requires Valid() && id in sessions && |scripts| == |sessions[id].files|
      modifies this
      ensures Valid()
      ensures sessions == old(sessions)[id := Processed(old(sessions)[id], id, apiKey, read, scripts,
                                                        outputDir, env, writeError)]
    {
      var s := sessions[id];
      var made := NewClient(None, apiKey);
      if made.Failure? {
        sessions := sessions[id := s.(status := Error, error := Some(made.error))];
        return None;
      }
      var client := made.value;
      var loaded := LoadSessionImages(s.files, read);
      if loaded.Failure? {
        sessions := sessions[id := s.(status := Error, error := Some(loaded.error))];
        return None;
      }
      LoadImagesSucceeds(s.files, read);
      report := SolveAndReport(id, loaded.value, scripts, client, env, writeError);
    }

    /** The rest of `process_session` once the images are loaded: solving
        them one by one, then generating the report. */
    method SolveAndReport(id: string, images: seq<Images.Image>, scripts: seq<Script>, client: GeminiClient,
                          env: Reports.Environment, writeError: Option<string>)
      returns (report: Option<Reports.Report>)
      requires Valid() && id in sessions && |scripts| == |images| == sessions[id].total
      requires client.Valid()
      modifies this, client
      ensures Valid()
      ensures sessions == old(sessions)[id := Finished(old(sessions)[id], images, scripts, id, outputDir, env, writeError)]
    {
      ghost var before := old(sessions)[id];
      var results := SolveAll(id, images, scripts, client);
      var solved := sessions[id];
      assert solved == if images == [] then before else before.(progress := |images|, results := results);
      assert Consistent(solved);
      GatherRenderable(images, scripts);
      report := GenerateReport(id, results, env);
      var next: Session;
      if report.Some? && writeError.Some? {
        next := solved.(status := Error, error := writeError);
      } else {
        var path := if report.Some? then report.value.path else "None";
        assert path == ReportPath(results, outputDir, id, env);
        next := solved.(status := Completed, reportPath := Some(path));
      }
      assert next == Finished(before, images, scripts, id, outputDir, env, writeError);
      OverwriteTwice(old(sessions), id, solved, next);
      Store(id, next);
    }

    /** Replaces the record of one session. */
    method Store(id: string, record: Session)
      requires Valid() && Consistent(record)
      modifies this
      ensures Valid() && sessions == old(sessions)[id := record]
    {
      sessions := sessions[id := record];
    }

    /** `ReportGenerator().generate(results, UPLOAD_DIR / session_id,
        f"rapor_{session_id[:8]}.md")`. */
    method GenerateReport(id: string, results: seq<SolveResult>, env: Reports.Environment)
      returns (report: Option<Reports.Report>)
      requires Reports.AllRenderable(results)
      ensures report.Some? <==> results != []
      ensures report.Some? ==> report.value.path == ReportPath(results, outputDir, id, env)
      ensures report.Some? ==> report.value.lines == Reports.ReportLines(results, Paths.Join(uploadDir, id), env)
    {
      var generator := new Reports.ReportGenerator(None, outputDir);
      report := generator.Generate(results, Paths.Join(uploadDir, id), Some("rapor_" + IdPrefix(id) + ".md"), env);
    }

    /** `get_progress(session_id)`: 404 for an unknown session; otherwise
        its status, progress and total as stored, progress never past total. */
    function GetProgress(sessionId: string): (r: Result<Progress, HttpError>)
      reads this
      ensures r.Failure? <==> sessionId !in sessions
      ensures r.Failure? ==> r.error == NotFound
      ensures r.Success? ==> var s := sessions[sessionId];
        r.value == Progress(s.status.Name(), s.progress, s.total, s.results, s.error, s.reportPath)
      ensures r.Success? && Valid() ==> r.value.progress <= r.value.total && |r.value.results| == r.value.progress
    {
      if sessionId !in sessions then Failure(NotFound)
      else
        var s := sessions[sessionId];
        Success(Progress(s.status.Name(), s.progress, s.total, s.results, s.error, s.reportPath))
    }

    /** `get_results(session_id)`: 404 for an unknown session. */
    function GetResults(sessionId: string): (r: Result<Results, HttpError>)
      reads this
      ensures r.Failure? <==> sessionId !in sessions
      ensures r.Failure? ==> r.error == NotFound
      ensures r.Success? ==> r.value.status == sessions[sessionId].status.Name()
                             && r.value.results == sessions[sessionId].results
                             && r.value.reportPath == sessions[sessionId].reportPath
    {
      if sessionId !in sessions then Failure(NotFound)
      else
        var s := sessions[sessionId];
        Success(Results(s.status.Name(), s.results, s.reportPath))
    }

    /** `get_image(filename)`: 404 when the file does not exist; otherwise
        the file with the media type of its suffix, ignoring case, and
        `image/jpeg` for any other suffix. */
    function GetImage(filename: string, fileExists: string -> bool): (r: Result<ImageFile, HttpError>)
      ensures r.Failure? <==> !fileExists(Paths.Join(questionsDir, filename))
      ensures r.Failure? ==> r.error == ImageNotFound
      ensures r.Success? ==> r.value.path == Paths.Join(questionsDir, filename)
                             && r.value.mediaType == Images.MimeType(filename)
                             && r.value.mediaType in {"image/jpeg", "image/png", "image/gif", "image/webp"}
                             && r.value.mediaType == Images.MimeType(Lower(filename))
    {
      Images.MimeTypeIgnoresCase(filename);
      var path := Paths.Join(questionsDir, filename);
      if !fileExists(path) then Failure(ImageNotFound)
      else Success(ImageFile(path, Images.MimeType(filename)))
    }
  }

  /** Once a prefix of the files fails to load, so does the whole list. */
  lemma {:induction false} LoadFailureSticks(files: seq<FileInfo>, read: string -> Result<seq<bv8>, string>, n: nat)
    requires n <= |files| && LoadImages(files[..n], read).Failure?
    ensures LoadImages(files, read) == LoadImages(files[..n], read)
    decreases |files| - n
  {
    if n < |files| {
      assert files[..n + 1][..n] == files[..n];
      LoadFailureSticks(files, read, n + 1);
    } else {
      assert files[..n] == files;
    }
  }

  /** A second update of the same key replaces the first. */
  lemma OverwriteTwice(m: map<string, Session>, k: string, a: Session, b: Session)
    ensures m[k := a][k := b] == m[k := b]
  {
  }
}
