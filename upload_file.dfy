/**
 * The `upload-file` edge function: it takes a multipart form with `file`,
 * `expiryTime` and `downloadLimit`, stores the file in the `files` storage
 * bucket under `<uuid>.<extension>`, then inserts one metadata row in the
 * `files` table, removing the stored file again when the insert fails.
 *
 * The storage bucket is a map from path to stored blob and the table a
 * sequence of rows. Everything the outside world decides during a request
 * (the random UUID, the clock, whether storage or the database report an
 * error, whether the compensating remove succeeds) is an `Env` value.
 *
 * `Handle` states what one request does, as a value; `FileShareBackend.Serve`
 * performs the same steps on mutable state and is proved to agree with it.
 */
module UploadFile {
  import opened Wrappers
  import opened JsText

  type RowId = string

  // ---------------------------------------------------------------------------
  // Requests, stored state, responses
  // ---------------------------------------------------------------------------

  datatype UploadedFile = UploadedFile(name: string, contentType: string, content: seq<bv8>)

  /** A form entry is either a plain text value or a file. */
  datatype FieldValue = TextField(text: string) | FileField(file: UploadedFile)

  /** The request body: the parsed form, or the error `req.formData()` rejected with. */
  datatype RequestBody = Form(fields: map<string, FieldValue>) | Unparseable(message: string)

  datatype Request = Request(httpMethod: string, body: RequestBody)

  datatype StoredBlob = StoredBlob(content: seq<bv8>, contentType: string)

  /**
   * The columns the function writes: `filename`, `file_path`, `content_type`,
   * `size`, `max_downloads` (`None` where the value is `NaN`, which is sent
   * as `null`) and `expires_at` (as a time value in milliseconds).
   */
  datatype FileMeta = FileMeta(
    filename: string,
    filePath: string,
    contentType: string,
    size: nat,
    maxDownloads: Option<int>,
    expiresAt: int)

  /** A row of the `files` table; the database chooses its `id`. */
  datatype FileRow = FileRow(id: RowId, meta: FileMeta)

  datatype Store = Store(blobs: map<string, StoredBlob>, rows: seq<FileRow>)

  /** One call to the storage or database service, with whether it succeeded. */
  datatype Call =
    | UploadCall(path: string, upsert: bool, ok: bool)
    | InsertCall(meta: FileMeta, ok: bool)
    | RemoveCall(paths: seq<string>, ok: bool)

  /** The database's answer to the insert: the new row's id, or an error. */
  datatype InsertAnswer = Inserted(id: RowId) | Rejected(message: string)

  /**
   * The outside world during one request: `crypto.randomUUID()`, the current
   * time value (milliseconds), a storage failure other than a duplicate path,
   * the database's answer, and whether the compensating remove succeeds.
   */
  datatype Env = Env(
    uuid: string,
    now: int,
    uploadFailure: Option<string>,
    insert: InsertAnswer,
    removeOk: bool)

  datatype Body =
    | NoBody
    | ErrorBody(error: string)
    | FailureBody(error: string, details: string)
    | SuccessBody(message: string, fileId: RowId)

  /** A response; every response carries the CORS headers, which are not modelled. */
  datatype Response = Response(status: int, body: Body)

  /** The state after a request, the response, and the service calls made, in order. */
  datatype Outcome = Outcome(store: Store, response: Response, calls: seq<Call>)

  const MissingFieldsMessage := "Missing required fields"
  const FailedMessage := "Failed to upload file"
  const SuccessMessage := "File uploaded successfully"
  /** The storage error for an existing path when `upsert` is false. */
  const AlreadyExistsMessage := "The resource already exists"
  /** The `RangeError` message of `toISOString()` on an invalid date. */
  const InvalidTimeMessage := "Invalid time value"
  /** The `TypeError` of `file.name.split` when `file` is a text entry. */
  const NameTypeErrorMessage := "Cannot read properties of undefined (reading 'split')"
  /** `toString()` of a `File`. */
  const FileObjectText := "[object File]"
  /** `max_downloads` for an unlimited share. */
  const UnlimitedDownloads := -1
  const MsPerHour := 3_600_000
  /** The largest magnitude of a valid `Date` time value. */
  const MaxTimeValue := 8_640_000_000_000_000

  function Preflight(): Response { Response(200, NoBody) }
  function MissingFields(): Response { Response(400, ErrorBody(MissingFieldsMessage)) }
  function Failure(details: string): Response { Response(500, FailureBody(FailedMessage, details)) }
  function Created(id: RowId): Response { Response(200, SuccessBody(SuccessMessage, id)) }

  // ---------------------------------------------------------------------------
  // Decoding the form
  // ---------------------------------------------------------------------------

  /** `formData.get(key)`: `None` is `null`. */
  function Get(fields: map<string, FieldValue>, key: string): Option<FieldValue> {
    if key in fields then Some(fields[key]) else None
  }

  /** JavaScript truthiness of a form entry: `null` and "" are false, a file is true. */
  predicate Truthy(v: Option<FieldValue>) {
    v.Some? && (v.value.FileField? || v.value.text != [])
  }

  /** `v.toString()` */
  function FieldText(v: FieldValue): string {
    match v
    case TextField(t) => t
    case FileField(_) => FileObjectText
  }

  /** `file.name.split('.').pop()`: the text after the last dot, or the whole name. */
  function FileExtension(name: string): string {
    Last(Split(name, '.'))
  }

  /**
   * The extension is the text after the last dot of the name, or the whole
   * name when it has no dot; the path is the UUID, a dot, and the extension.
   */
  lemma FilePathShape(uuid: string, name: string)
    ensures var ext := FileExtension(name);
      && FilePath(uuid, name) == uuid + "." + ext
      && |ext| <= |name| && name[|name| - |ext|..] == ext && '.' !in ext
      && (|ext| < |name| ==> name[|name| - |ext| - 1] == '.')
      && (|ext| == |name| <==> '.' !in name)
  {
    LastPieceAfterLastSeparator(name, '.');
  }

  /** The storage path `` `${crypto.randomUUID()}.${fileExt}` ``. */
  function FilePath(uuid: string, name: string): string {
    uuid + "." + FileExtension(name)
  }

  function BlobOf(f: UploadedFile): StoredBlob {
    StoredBlob(f.content, f.contentType)
  }

  /** `downloadLimit === 'unlimited' ? -1 : parseInt(downloadLimit.toString())` */
  function MaxDownloads(downloadLimit: FieldValue): Option<int> {
    if downloadLimit == TextField("unlimited") then Some(UnlimitedDownloads)
    else ParseInt(FieldText(downloadLimit))
  }

  /** `parseInt(expiryTime.toString())`: the number of hours added to the clock. */
  function ExpiryHours(expiryTime: FieldValue): Option<int> {
    ParseInt(FieldText(expiryTime))
  }

  predicate ValidTime(t: int) {
    -MaxTimeValue <= t <= MaxTimeValue
  }

  /**
   * `new Date()` advanced by `setHours(getHours() + hours)`, as a time value;
   * `None` is an invalid date (a `NaN` hour count, or a result outside the
   * range of `Date`), on which `toISOString()` throws.
   */
  function ExpiresAt(now: int, hours: Option<int>): Option<int> {
    match hours
    case None => None
    case Some(h) =>
      var t := now + h * MsPerHour;
      if ValidTime(now) && ValidTime(t) then Some(t) else None
  }

  // ---------------------------------------------------------------------------
  // The storage service
  // ---------------------------------------------------------------------------

  datatype StorageReply = StorageReply(blobs: map<string, StoredBlob>, error: Option<string>)

  /**
   * `storage.from('files').upload(path, blob, { upsert })`: a service failure
   * or, without `upsert`, an existing path is an error and stores nothing.
   */
  function StorageUpload(blobs: map<string, StoredBlob>, path: string, blob: StoredBlob,
                         upsert: bool, failure: Option<string>): (r: StorageReply)
    ensures r.error.None? <==> failure.None? && (upsert || path !in blobs)
    ensures r.blobs == if r.error.None? then blobs[path := blob] else blobs
    ensures failure.None? && r.error.Some? ==> r.error == Some(AlreadyExistsMessage)
  {
    if failure.Some? then StorageReply(blobs, failure)
    else if path in blobs && !upsert then StorageReply(blobs, Some(AlreadyExistsMessage))
    else StorageReply(blobs[path := blob], None)
  }

  /** `storage.from('files').remove(paths)`, which either removes them all or nothing. */
  function StorageRemove(blobs: map<string, StoredBlob>, paths: seq<string>, ok: bool): (b: map<string, StoredBlob>)
    ensures forall p :: p in b <==> p in blobs && !(ok && p in paths)
    ensures forall p :: p in b ==> b[p] == blobs[p]
  {
    if ok then map p | p in blobs && p !in paths :: blobs[p] else blobs
  }

  // ---------------------------------------------------------------------------
  // The handler
  // ---------------------------------------------------------------------------

  /** The part of the handler before any service is called. */
  datatype Admission =
    | Answered(response: Response)
    | Admitted(file: UploadedFile, expiryTime: FieldValue, downloadLimit: FieldValue)

  function Admit(req: Request): Admission {
    if req.httpMethod == "OPTIONS" then Answered(Preflight())
    else match req.body
      case Unparseable(message) => Answered(Failure(message))
      case Form(fields) =>
        var file := Get(fields, "file");
        var expiryTime := Get(fields, "expiryTime");
        var downloadLimit := Get(fields, "downloadLimit");
        if !Truthy(file) || !Truthy(expiryTime) || !Truthy(downloadLimit) then Answered(MissingFields())
        else if file.value.TextField? then Answered(Failure(NameTypeErrorMessage))
        else Admitted(file.value.file, expiryTime.value, downloadLimit.value)
  }

  /** Insert the row; when the database rejects it, remove the stored file. */
  function InsertOrCompensate(s: Store, meta: FileMeta, env: Env): Outcome {
    match env.insert
    case Inserted(id) =>
      Outcome(Store(s.blobs, s.rows + [FileRow(id, meta)]), Created(id), [InsertCall(meta, true)])
    case Rejected(message) =>
      Outcome(Store(StorageRemove(s.blobs, [meta.filePath], env.removeOk), s.rows), Failure(message),
              [InsertCall(meta, false), RemoveCall([meta.filePath], env.removeOk)])
  }

  /**
   * Upload, then compute the expiry date, then insert, as the function is
   * written. `hours` and `maxDownloads` are the `parseInt` readings of the form
   * (pure, so when they are computed does not matter); the date they give is
   * only checked when `toISOString()` builds the row, after the upload.
   */
  function Commit(s: Store, f: UploadedFile, hours: Option<int>, maxDownloads: Option<int>, env: Env): Outcome {
    var path := FilePath(env.uuid, f.name);
    var up := StorageUpload(s.blobs, path, BlobOf(f), false, env.uploadFailure);
    var upload := UploadCall(path, false, up.error.None?);
    if up.error.Some? then Outcome(s, Failure(up.error.value), [upload])
    else
      var stored := Store(up.blobs, s.rows);
      match ExpiresAt(env.now, hours)
      case None => Outcome(stored, Failure(InvalidTimeMessage), [upload])
      case Some(expiresAt) =>
        var meta := FileMeta(f.name, path, f.contentType, |f.content|, maxDownloads, expiresAt);
        var o := InsertOrCompensate(stored, meta, env);
        o.(calls := [upload] + o.calls)
  }

  /** One request to the function as written. */
  function Handle(s: Store, req: Request, env: Env): Outcome {
    match Admit(req)
    case Answered(response) => Outcome(s, response, [])
    case Admitted(f, expiryTime, downloadLimit) =>
      Commit(s, f, ExpiryHours(expiryTime), MaxDownloads(downloadLimit), env)
  }

  // ---------------------------------------------------------------------------
  // Corrected handler: the expiry is read as the settings label means it, and
  // is computed before anything is stored.
  // ---------------------------------------------------------------------------

  /** The hours an expiry code means: "<n>h" is n hours and "<n>d" is n days. */
  function IntendedExpiryHours(expiryTime: FieldValue): Option<int> {
    var text := FieldText(expiryTime);
    match ParseInt(text)
    case None => None
    case Some(n) => Some(if EndsWith(text, "d") then 24 * n else n)
  }

  /** Compute and check the expiry date first, then upload, then insert. */
  function CommitChecked(s: Store, f: UploadedFile, hours: Option<int>, maxDownloads: Option<int>, env: Env): Outcome {
    match ExpiresAt(env.now, hours)
    case None => Outcome(s, Failure(InvalidTimeMessage), [])
    case Some(expiresAt) =>
      var path := FilePath(env.uuid, f.name);
      var up := StorageUpload(s.blobs, path, BlobOf(f), false, env.uploadFailure);
      var upload := UploadCall(path, false, up.error.None?);
      if up.error.Some? then Outcome(s, Failure(up.error.value), [upload])
      else
        var meta := FileMeta(f.name, path, f.contentType, |f.content|, maxDownloads, expiresAt);
        var o := InsertOrCompensate(Store(up.blobs, s.rows), meta, env);
        o.(calls := [upload] + o.calls)
  }

  /** The corrected handler. */
  function HandleChecked(s: Store, req: Request, env: Env): Outcome {
    match Admit(req)
    case Answered(response) => Outcome(s, response, [])
    case Admitted(f, expiryTime, downloadLimit) =>
      CommitChecked(s, f, IntendedExpiryHours(expiryTime), MaxDownloads(downloadLimit), env)
  }

  // ---------------------------------------------------------------------------
  // Orphans and dangling rows
  // ---------------------------------------------------------------------------

  predicate Referenced(rows: seq<FileRow>, path: string) {
    exists i :: 0 <= i < |rows| && rows[i].meta.filePath == path
  }

  /** Every row points at a stored file. */
  predicate NoDangling(s: Store) {
    forall i :: 0 <= i < |s.rows| ==> s.rows[i].meta.filePath in s.blobs
  }

  /** Stored files that no row points at. */
  function Orphans(s: Store): set<string> {
    set p | p in s.blobs && !Referenced(s.rows, p)
  }

  // ---------------------------------------------------------------------------
  // Properties of one request
  // ---------------------------------------------------------------------------

  /** The upload is accepted: no storage failure and no file at the path yet. */
  predicate UploadAccepted(s: Store, f: UploadedFile, env: Env) {
    env.uploadFailure.None? && FilePath(env.uuid, f.name) !in s.blobs
  }

  /** The request gets as far as the insert in the function as written. */
  predicate ReachesInsert(s: Store, req: Request, env: Env) {
    && Admit(req).Admitted?
    && UploadAccepted(s, Admit(req).file, env)
    && ExpiresAt(env.now, ExpiryHours(Admit(req).expiryTime)).Some?
  }

  /** An OPTIONS request gets an empty CORS answer and calls no service. */
  lemma OptionsRequestTouchesNothing(s: Store, req: Request, env: Env)
    requires req.httpMethod == "OPTIONS"
    ensures Handle(s, req, env) == Outcome(s, Response(200, NoBody), [])
  {
  }

  /**
   * A `file`, `expiryTime` or `downloadLimit` entry that is absent or is the
   * empty text is a 400 that calls no service.
   */
  lemma MissingFieldIsRejected(s: Store, req: Request, env: Env)
    requires req.httpMethod != "OPTIONS" && req.body.Form?
    requires || !Truthy(Get(req.body.fields, "file"))
             || !Truthy(Get(req.body.fields, "expiryTime"))
             || !Truthy(Get(req.body.fields, "downloadLimit"))
    ensures Handle(s, req, env) == Outcome(s, Response(400, ErrorBody(MissingFieldsMessage)), [])
  {
  }

  /**
   * A file entry always passes the check for missing entries, even a zero-byte
   * file with an empty name, which is then stored at the UUID followed by a dot.
   */
  lemma EmptyFileIsAdmitted(exp: string, lim: string, uuid: string)
    requires exp != [] && lim != []
    ensures var empty := UploadedFile("", "", []);
      var fields := map["file" := FileField(empty), "expiryTime" := TextField(exp), "downloadLimit" := TextField(lim)];
      Admit(Request("POST", Form(fields))) == Admitted(empty, TextField(exp), TextField(lim))
    ensures FilePath(uuid, "") == uuid + "."
  {
    assert "expiryTime" != "file" && "downloadLimit" != "file" && "downloadLimit" != "expiryTime" by {
      assert |"expiryTime"| != |"file"| && |"downloadLimit"| != |"file"| && |"downloadLimit"| != |"expiryTime"|;
    }
    assert "POST" != "OPTIONS";
    assert Split("", '.') == [""];
  }

  /** The calls a request makes come in the order upload, insert, remove, each step only after the one before. */
  predicate WellOrdered(calls: seq<Call>) {
    && |calls| <= 3
    && (calls != [] ==> calls[0].UploadCall? && !calls[0].upsert)
    && (forall i :: 0 < i < |calls| ==> !calls[i].UploadCall?)
    && (forall i :: 0 <= i < |calls| && calls[i].InsertCall? ==>
          i == 1 && calls[0] == UploadCall(calls[i].meta.filePath, false, true))
    && (forall i :: 0 <= i < |calls| && calls[i].RemoveCall? ==>
          i == 2 && calls[1].InsertCall? && !calls[1].ok && calls[i].paths == [calls[1].meta.filePath])
  }

  /**
   * As written the first call is always the upload of the request's path; with
   * the date checked first, an invalid date makes no call and a valid one
   * starts with that upload.
   */
  lemma CommitCallOrder(s: Store, f: UploadedFile, hours: Option<int>, maxDownloads: Option<int>, env: Env)
    ensures WellOrdered(Commit(s, f, hours, maxDownloads, env).calls)
    ensures WellOrdered(CommitChecked(s, f, hours, maxDownloads, env).calls)
    ensures var calls := Commit(s, f, hours, maxDownloads, env).calls;
      calls != [] && calls[0] == UploadCall(FilePath(env.uuid, f.name), false, UploadAccepted(s, f, env))
    ensures var calls := CommitChecked(s, f, hours, maxDownloads, env).calls;
      && (calls == [] <==> ExpiresAt(env.now, hours).None?)
      && (calls != [] ==> calls[0] == UploadCall(FilePath(env.uuid, f.name), false, UploadAccepted(s, f, env)))
  {
  }

  /**
   * A request calls storage and the database at most in the order upload,
   * insert, remove: the insert only right after an upload of the same path
   * that succeeded, the remove only right after an insert that failed.
   */
  lemma CallOrder(s: Store, req: Request, env: Env)
    ensures WellOrdered(Handle(s, req, env).calls)
    ensures WellOrdered(HandleChecked(s, req, env).calls)
  {
    match Admit(req)
    case Answered(_) =>
    case Admitted(f, expiryTime, downloadLimit) =>
      CommitCallOrder(s, f, ExpiryHours(expiryTime), MaxDownloads(downloadLimit), env);
      CommitCallOrder(s, f, IntendedExpiryHours(expiryTime), MaxDownloads(downloadLimit), env);
  }

  /** An upload error (a service failure, or an existing path) is a 500 that changes nothing. */
  lemma UploadErrorChangesNothing(s: Store, req: Request, env: Env)
    requires Admit(req).Admitted? && !UploadAccepted(s, Admit(req).file, env)
    ensures var path := FilePath(env.uuid, Admit(req).file.name);
      var o := Handle(s, req, env);
      && o.store == s
      && o.response.status == 500
      && o.calls == [UploadCall(path, false, false)]
      && (env.uploadFailure.None? ==> o.response == Failure(AlreadyExistsMessage))
  {
  }

  lemma CommitInsertRejection(s: Store, f: UploadedFile, hours: Option<int>, maxDownloads: Option<int>, env: Env)
    requires UploadAccepted(s, f, env) && ExpiresAt(env.now, hours).Some? && env.insert.Rejected?
    ensures var path := FilePath(env.uuid, f.name);
      var o := Commit(s, f, hours, maxDownloads, env);
      && o.response == Failure(env.insert.message)
      && o.store.rows == s.rows
      && o.store.blobs == (if env.removeOk then s.blobs else s.blobs[path := BlobOf(f)])
      && |o.calls| == 3 && o.calls[2] == RemoveCall([path], env.removeOk)
  {
    var path := FilePath(env.uuid, f.name);
    if env.removeOk {
      assert StorageRemove(s.blobs[path := BlobOf(f)], [path], true) == s.blobs;
    }
  }

  /**
   * When the database rejects the row, the stored file is removed again: the
   * answer is a 500 with the database's message whatever the remove did, the
   * table is unchanged, and storage is back to its state before the request
   * exactly when the remove succeeded.
   */
  lemma InsertRejectionIsCompensated(s: Store, req: Request, env: Env)
    requires ReachesInsert(s, req, env) && env.insert.Rejected?
    ensures var f := Admit(req).file;
      var path := FilePath(env.uuid, f.name);
      var o := Handle(s, req, env);
      && o.response == Failure(env.insert.message)
      && o.store.rows == s.rows
      && o.store.blobs == (if env.removeOk then s.blobs else s.blobs[path := BlobOf(f)])
      && |o.calls| == 3 && o.calls[2] == RemoveCall([path], env.removeOk)
  {
    var a := Admit(req);
    CommitInsertRejection(s, a.file, ExpiryHours(a.expiryTime), MaxDownloads(a.downloadLimit), env);
  }

  /**
   * A successful answer means exactly one file was stored, at `<uuid>.<ext>`,
   * where there was none before, and exactly one row was appended that points
   * at it, carries the policy decoded from the form, and whose id is the
   * answer's `fileId`.
   */
  lemma SuccessStoresOneFileAndOneRow(s: Store, req: Request, env: Env)
    requires Handle(s, req, env).response.body.SuccessBody?
    ensures ReachesInsert(s, req, env) && env.insert.Inserted?
    ensures var a := Admit(req);
      var path := FilePath(env.uuid, a.file.name);
      var o := Handle(s, req, env);
      && path !in s.blobs
      && o.store.blobs == s.blobs[path := BlobOf(a.file)]
      && o.store.rows == s.rows + [FileRow(env.insert.id, FileMeta(
           a.file.name, path, a.file.contentType, |a.file.content|,
           MaxDownloads(a.downloadLimit), ExpiresAt(env.now, ExpiryHours(a.expiryTime)).value))]
      && o.response == Response(200, SuccessBody(SuccessMessage, env.insert.id))
  {
  }

  lemma CommitPreservesData(s: Store, f: UploadedFile, hours: Option<int>, maxDownloads: Option<int>, env: Env)
    ensures var o := Commit(s, f, hours, maxDownloads, env);
      && (forall p :: p in s.blobs ==> p in o.store.blobs && o.store.blobs[p] == s.blobs[p])
      && s.rows <= o.store.rows
  {
  }

  /**
   * A request never overwrites a stored file (every upload is made with
   * `upsert: false`) and never changes or drops an existing row.
   */
  lemma ExistingDataIsPreserved(s: Store, req: Request, env: Env)
    ensures var o := Handle(s, req, env);
      && (forall p :: p in s.blobs ==> p in o.store.blobs && o.store.blobs[p] == s.blobs[p])
      && s.rows <= o.store.rows
  {
    match Admit(req)
    case Answered(_) =>
    case Admitted(f, expiryTime, downloadLimit) =>
      CommitPreservesData(s, f, ExpiryHours(expiryTime), MaxDownloads(downloadLimit), env);
  }

  /**
   * An expiry time that gives no valid date is only noticed after the file is
   * stored: the answer is a 500, no row is inserted, and the stored file is
   * left behind with no row pointing at it.
   */
  lemma InvalidExpiryLeavesOrphan(s: Store, req: Request, env: Env)
    requires Admit(req).Admitted? && UploadAccepted(s, Admit(req).file, env)
    requires ExpiresAt(env.now, ExpiryHours(Admit(req).expiryTime)).None?
    ensures var f := Admit(req).file;
      var path := FilePath(env.uuid, f.name);
      var o := Handle(s, req, env);
      && o == Outcome(Store(s.blobs[path := BlobOf(f)], s.rows), Failure(InvalidTimeMessage),
                      [UploadCall(path, false, true)])
      && (NoDangling(s) ==> path in Orphans(o.store) && path !in Orphans(s))
  {
    var f := Admit(req).file;
    var path := FilePath(env.uuid, f.name);
    if NoDangling(s) {
      UploadOnlyAddsOrphan(s, path, BlobOf(f));
    }
  }

  /**
   * An expiry time with no digit after its leading white space and optional
   * sign never gives a valid date.
   */
  lemma ExpiryWithoutDigitsIsInvalid(now: int, text: string)
    requires var t := TrimStart(text);
      var u := if t != [] && (t[0] == '-' || t[0] == '+') then t[1..] else t;
      u == [] || !IsDecimalDigit(u[0])
    ensures ExpiresAt(now, ExpiryHours(TextField(text))) == None
  {
  }

  lemma {:induction false} ReferencedAppend(rows: seq<FileRow>, row: FileRow, p: string)
    ensures Referenced(rows + [row], p) <==> Referenced(rows, p) || row.meta.filePath == p
  {
    var rows' := rows + [row];
    if Referenced(rows, p) {
      var i :| 0 <= i < |rows| && rows[i].meta.filePath == p;
      assert rows'[i] == rows[i];
    }
    if row.meta.filePath == p {
      assert rows'[|rows|] == row;
    }
    if Referenced(rows', p) {
      var i :| 0 <= i < |rows'| && rows'[i].meta.filePath == p;
      if i < |rows| {
        assert rows'[i] == rows[i];
      }
    }
  }

  /** Storing a file at a fresh path adds exactly that path to the orphans. */
  lemma UploadOnlyAddsOrphan(s: Store, path: string, blob: StoredBlob)
    requires NoDangling(s) && path !in s.blobs
    ensures var t := Store(s.blobs[path := blob], s.rows);
      NoDangling(t) && Orphans(t) == Orphans(s) + {path}
  {
    assert !Referenced(s.rows, path);
  }

  /**
   * After a file was stored at a fresh path, the insert (or its compensation)
   * leaves the orphans as they were, unless the insert and then the remove
   * both failed, which adds the path.
   */
  lemma InsertOrCompensateOrphans(s: Store, blob: StoredBlob, meta: FileMeta, env: Env)
    requires NoDangling(s) && meta.filePath !in s.blobs
    ensures var o := InsertOrCompensate(Store(s.blobs[meta.filePath := blob], s.rows), meta, env);
      && NoDangling(o.store)
      && Orphans(o.store) == if env.insert.Rejected? && !env.removeOk then Orphans(s) + {meta.filePath} else Orphans(s)
  {
    var path := meta.filePath;
    var stored := Store(s.blobs[path := blob], s.rows);
    var o := InsertOrCompensate(stored, meta, env);
    UploadOnlyAddsOrphan(s, path, blob);
    match env.insert
    case Inserted(id) =>
      var row := FileRow(id, meta);
      forall p ensures p in Orphans(o.store) <==> p in Orphans(s) {
        ReferencedAppend(s.rows, row, p);
      }
      forall i | 0 <= i < |o.store.rows| ensures o.store.rows[i].meta.filePath in o.store.blobs {
        if i < |s.rows| {
          assert o.store.rows[i] == s.rows[i];
        }
      }
    case Rejected(_) =>
      if env.removeOk {
        assert o.store.blobs == s.blobs;
      }
  }

  /** Orphans after `Commit`: a stored file is left behind on an invalid date or a failed remove. */
  lemma CommitOrphans(s: Store, f: UploadedFile, hours: Option<int>, maxDownloads: Option<int>, env: Env)
    requires NoDangling(s)
    ensures var o := Commit(s, f, hours, maxDownloads, env);
      var path := FilePath(env.uuid, f.name);
      && NoDangling(o.store)
      && Orphans(s) <= Orphans(o.store)
      && (Orphans(o.store) != Orphans(s) ==>
            && Orphans(o.store) == Orphans(s) + {path}
            && (|| o.calls == [UploadCall(path, false, true)]
                || (|o.calls| == 3 && o.calls[2] == RemoveCall([path], false))))
  {
    var path := FilePath(env.uuid, f.name);
    if UploadAccepted(s, f, env) {
      match ExpiresAt(env.now, hours)
      case None =>
        UploadOnlyAddsOrphan(s, path, BlobOf(f));
      case Some(expiresAt) =>
        var meta := FileMeta(f.name, path, f.contentType, |f.content|, maxDownloads, expiresAt);
        InsertOrCompensateOrphans(s, BlobOf(f), meta, env);
    }
  }

  /** Orphans after `CommitChecked`: a stored file is left behind only on a failed remove. */
  lemma CommitCheckedOrphans(s: Store, f: UploadedFile, hours: Option<int>, maxDownloads: Option<int>, env: Env)
    requires NoDangling(s)
    ensures var o := CommitChecked(s, f, hours, maxDownloads, env);
      var path := FilePath(env.uuid, f.name);
      && NoDangling(o.store)
      && Orphans(s) <= Orphans(o.store)
      && (Orphans(o.store) != Orphans(s) ==>
            && Orphans(o.store) == Orphans(s) + {path}
            && |o.calls| == 3 && o.calls[2] == RemoveCall([path], false))
  {
    var path := FilePath(env.uuid, f.name);
    match ExpiresAt(env.now, hours)
    case None =>
    case Some(expiresAt) =>
      if UploadAccepted(s, f, env) {
        var meta := FileMeta(f.name, path, f.contentType, |f.content|, maxDownloads, expiresAt);
        InsertOrCompensateOrphans(s, BlobOf(f), meta, env);
      }
  }

  /**
   * In the function as written, a request that starts with every row pointing
   * at a stored file keeps it so, and adds an orphan only when the expiry
   * proved invalid after the upload, or when the compensating remove failed.
   */
  lemma OrphansOnlyFromInvalidExpiryOrFailedRemove(s: Store, req: Request, env: Env)
    requires NoDangling(s)
    ensures var o := Handle(s, req, env);
      && NoDangling(o.store)
      && Orphans(s) <= Orphans(o.store)
      && (Orphans(o.store) != Orphans(s) ==>
            && Admit(req).Admitted?
            && var path := FilePath(env.uuid, Admit(req).file.name);
            && Orphans(o.store) == Orphans(s) + {path}
            && (|| o.calls == [UploadCall(path, false, true)]
                || (|o.calls| == 3 && o.calls[2] == RemoveCall([path], false))))
  {
    match Admit(req)
    case Answered(_) =>
    case Admitted(f, expiryTime, downloadLimit) =>
      CommitOrphans(s, f, ExpiryHours(expiryTime), MaxDownloads(downloadLimit), env);
  }

  /** In the corrected handler an invalid expiry is answered before anything is stored. */
  lemma CheckedInvalidExpiryStoresNothing(s: Store, req: Request, env: Env)
    requires Admit(req).Admitted?
    requires ExpiresAt(env.now, IntendedExpiryHours(Admit(req).expiryTime)).None?
    ensures HandleChecked(s, req, env) == Outcome(s, Failure(InvalidTimeMessage), [])
  {
  }

  /**
   * In the corrected handler the only way to leave an orphan is a failed
   * compensating remove.
   */
  lemma CheckedOrphansOnlyFromFailedRemove(s: Store, req: Request, env: Env)
    requires NoDangling(s)
    ensures var o := HandleChecked(s, req, env);
      && NoDangling(o.store)
      && Orphans(s) <= Orphans(o.store)
      && (Orphans(o.store) != Orphans(s) ==>
            && Admit(req).Admitted?
            && var path := FilePath(env.uuid, Admit(req).file.name);
            && Orphans(o.store) == Orphans(s) + {path}
            && |o.calls| == 3 && o.calls[2] == RemoveCall([path], false))
  {
    match Admit(req)
    case Answered(_) =>
    case Admitted(f, expiryTime, downloadLimit) =>
      CommitCheckedOrphans(s, f, IntendedExpiryHours(expiryTime), MaxDownloads(downloadLimit), env);
  }

  // ---------------------------------------------------------------------------
  // Decoding the policy
  // ---------------------------------------------------------------------------

  /**
   * `max_downloads` is -1 for "unlimited", and also for any text that
   * `parseInt` reads as -1 (such as "-1"), so the two cannot be told apart.
   */
  lemma MaxDownloadsUnlimited(downloadLimit: FieldValue)
    ensures MaxDownloads(downloadLimit) == Some(UnlimitedDownloads) <==>
      downloadLimit == TextField("unlimited") || ParseInt(FieldText(downloadLimit)) == Some(-1)
  {
  }

  /** A decimal download limit is stored as that number; a file entry as `null`. */
  lemma MaxDownloadsOfNumber(n: nat, f: UploadedFile)
    ensures MaxDownloads(TextField(DecimalText(n))) == Some(n)
    ensures MaxDownloads(FileField(f)) == None
  {
    var text := DecimalText(n);
    assert text[0] != "unlimited"[0];
    assert text + [] == text;
    ParseIntOfDecimalPrefix(n, []);
    assert FileObjectText[0] == '[';
    ParseIntNoLeadingDigit(FileObjectText);
  }

  /**
   * An expiry code "<n><unit>" expires n hours from now whatever the unit
   * letter, so "24h" is 24 hours and "7d" is 7 hours.
   */
  lemma ExpiryCodeIsHours(now: int, n: nat, unit: char)
    requires !IsDecimalDigit(unit) && (n == 0 ==> unit != 'x' && unit != 'X')
    requires ValidTime(now) && ValidTime(now + n * MsPerHour)
    ensures ExpiresAt(now, ExpiryHours(TextField(DecimalText(n) + [unit]))) == Some(now + n * MsPerHour)
  {
    ExpiryHoursOfCode(n, unit);
    ExpiresAtHours(now, n);
  }

  lemma ExpiryHoursOfCode(n: nat, unit: char)
    requires !IsDecimalDigit(unit) && (n == 0 ==> unit != 'x' && unit != 'X')
    ensures ExpiryHours(TextField(DecimalText(n) + [unit])) == Some(n)
  {
    ParseIntOfDecimalPrefix(n, [unit]);
  }

  lemma ExpiresAtHours(now: int, h: int)
    requires ValidTime(now) && ValidTime(now + h * MsPerHour)
    ensures ExpiresAt(now, Some(h)) == Some(now + h * MsPerHour)
  {
  }

  /** The corrected reading: "<n>d" is 24·n hours and "<n>h" is n hours. */
  lemma IntendedExpiryOfCode(n: nat, unit: char)
    requires unit == 'd' || unit == 'h'
    ensures IntendedExpiryHours(TextField(DecimalText(n) + [unit])) == Some(if unit == 'd' then 24 * n else n)
  {
    var text := DecimalText(n) + [unit];
    ParseIntOfDecimalPrefix(n, [unit]);
    assert ParseInt(text) == Some(n);
    assert text[|text| - 1..] == [unit];
    assert EndsWith(text, "d") <==> unit == 'd';
  }

  // ---------------------------------------------------------------------------
  // The function over mutable storage and table
  // ---------------------------------------------------------------------------

  /** The storage bucket and the table as the function sees them, with a log of its calls. */
  class FileShareBackend {
    var blobs: map<string, StoredBlob>
    var rows: seq<FileRow>
    ghost var calls: seq<Call>

    function Current(): Store
      reads this
    {
      Store(blobs, rows)
    }

    constructor (initial: Store)
      ensures Current() == initial && calls == []
    {
      blobs := initial.blobs;
      rows := initial.rows;
      calls := [];
    }

    /** `storage.from('files').upload(path, blob, { upsert })` */
    method Upload(path: string, blob: StoredBlob, upsert: bool, failure: Option<string>) returns (error: Option<string>)
      modifies this
      ensures error.None? <==> failure.None? && (upsert || path !in old(blobs))
      ensures failure.Some? ==> error == failure
      ensures failure.None? && error.Some? ==> error == Some(AlreadyExistsMessage)
      ensures blobs == if error.None? then old(blobs)[path := blob] else old(blobs)
      ensures rows == old(rows)
      ensures calls == old(calls) + [UploadCall(path, upsert, error.None?)]
    {
      var reply := StorageUpload(blobs, path, blob, upsert, failure);
      blobs := reply.blobs;
      error := reply.error;
      calls := calls + [UploadCall(path, upsert, error.None?)];
    }

    /** `from('files').insert(meta).select().single()`: the new row, or `None` on `dbError`. */
    method Insert(meta: FileMeta, answer: InsertAnswer) returns (fileData: Option<FileRow>)
      modifies this
      ensures fileData.Some? <==> answer.Inserted?
      ensures fileData.Some? ==> fileData.value == FileRow(answer.id, meta)
      ensures rows == if fileData.Some? then old(rows) + [fileData.value] else old(rows)
      ensures blobs == old(blobs)
      ensures calls == old(calls) + [InsertCall(meta, fileData.Some?)]
    {
      match answer {
        case Inserted(id) =>
          fileData := Some(FileRow(id, meta));
          rows := rows + [fileData.value];
        case Rejected(_) =>
          fileData := None;
      }
      calls := calls + [InsertCall(meta, fileData.Some?)];
    }

    /** `storage.from('files').remove(paths)`; its result is not looked at. */
    method Remove(paths: seq<string>, ok: bool)
      modifies this
      ensures forall p :: p in blobs <==> p in old(blobs) && !(ok && p in paths)
      ensures forall p :: p in blobs ==> blobs[p] == old(blobs)[p]
      ensures rows == old(rows)
      ensures calls == old(calls) + [RemoveCall(paths, ok)]
    {
      blobs := StorageRemove(blobs, paths, ok);
      calls := calls + [RemoveCall(paths, ok)];
    }

    /** Lines 32-78 of the handler: upload, date check, insert and compensation. */
    method CommitFile(f: UploadedFile, hours: Option<int>, maxDownloads: Option<int>, env: Env) returns (response: Response)
      modifies this
      ensures var o := Commit(old(Current()), f, hours, maxDownloads, env);
        Current() == o.store && response == o.response && calls == old(calls) + o.calls
    {
      var filePath := FilePath(env.uuid, f.name);
      var uploadError := Upload(filePath, BlobOf(f), false, env.uploadFailure);
      if uploadError.Some? {
        return Failure(uploadError.value);
      }
      var expiresAt := ExpiresAt(env.now, hours);
      if expiresAt.None? {
        return Failure(InvalidTimeMessage);
      }
      var meta := FileMeta(f.name, filePath, f.contentType, |f.content|, maxDownloads, expiresAt.value);
      var fileData := Insert(meta, env.insert);
      if fileData.None? {
        Remove([filePath], env.removeOk);
        return Failure(env.insert.message);
      }
      response := Created(fileData.value.id);
    }

    /** The corrected order: date check first, then upload, insert and compensation. */
    method CommitFileChecked(f: UploadedFile, hours: Option<int>, maxDownloads: Option<int>, env: Env) returns (response: Response)
      modifies this
      ensures var o := CommitChecked(old(Current()), f, hours, maxDownloads, env);
        Current() == o.store && response == o.response && calls == old(calls) + o.calls
    {
      var expiresAt := ExpiresAt(env.now, hours);
      if expiresAt.None? {
        return Failure(InvalidTimeMessage);
      }
      var filePath := FilePath(env.uuid, f.name);
      var uploadError := Upload(filePath, BlobOf(f), false, env.uploadFailure);
      if uploadError.Some? {
        return Failure(uploadError.value);
      }
      var meta := FileMeta(f.name, filePath, f.contentType, |f.content|, maxDownloads, expiresAt.value);
      var fileData := Insert(meta, env.insert);
      if fileData.None? {
        Remove([filePath], env.removeOk);
        return Failure(env.insert.message);
      }
      response := Created(fileData.value.id);
    }

    /** The request handler passed to `serve`, as written. */
    method Serve(req: Request, env: Env) returns (response: Response)
      modifies this
      ensures var o := Handle(old(Current()), req, env);
        Current() == o.store && response == o.response && calls == old(calls) + o.calls
    {
      if req.httpMethod == "OPTIONS" {
        return Preflight();
      }
      if req.body.Unparseable? {
        return Failure(req.body.message);
      }
      var file := Get(req.body.fields, "file");
      var expiryTime := Get(req.body.fields, "expiryTime");
      var downloadLimit := Get(req.body.fields, "downloadLimit");
      if !Truthy(file) || !Truthy(expiryTime) || !Truthy(downloadLimit) {
        return MissingFields();
      }
      if file.value.TextField? {
        return Failure(NameTypeErrorMessage);
      }
      response := CommitFile(file.value.file, ExpiryHours(expiryTime.value), MaxDownloads(downloadLimit.value), env);
    }

    /** The handler with the expiry read as intended and checked before the upload. */
    method ServeChecked(req: Request, env: Env) returns (response: Response)
      modifies this
      ensures var o := HandleChecked(old(Current()), req, env);
        Current() == o.store && response == o.response && calls == old(calls) + o.calls
    {
      if req.httpMethod == "OPTIONS" {
        return Preflight();
      }
      if req.body.Unparseable? {
        return Failure(req.body.message);
      }
      var file := Get(req.body.fields, "file");
      var expiryTime := Get(req.body.fields, "expiryTime");
      var downloadLimit := Get(req.body.fields, "downloadLimit");
      if !Truthy(file) || !Truthy(expiryTime) || !Truthy(downloadLimit) {
        return MissingFields();
      }
      if file.value.TextField? {
        return Failure(NameTypeErrorMessage);
      }
      response := CommitFileChecked(file.value.file, IntendedExpiryHours(expiryTime.value), MaxDownloads(downloadLimit.value), env);
    }
  }
}
