/**
 * What a request handler sees and returns: the parts of an HTTP request the
 * handlers read, the JSON share body with the keys it holds, the *HTTPError a
 * handler returns, and the reply body on success.
 */
module Http {
  import opened Wrappers
  import opened Strings
  import opened Domain

  /**
   * The keys a JSON share body holds; None for an absent key. `isTemporary`
   * and `password` are read by the current revision only, `emails` by the earlier one.
   */
  datatype ShareJson = ShareJson(
    id: Option<Uuid>,
    name: Option<string>,
    expires: Option<Time>,
    downloadLimit: Option<int>,
    isPublic: Option<bool>,
    password: Option<string>,
    emails: Option<seq<string>>,
    isTemporary: Option<bool>)

  /** The request body: unreadable, not a JSON share, or one. */
  datatype Payload = Unreadable | Malformed | Json(share: ShareJson)

  /** The multipart "file" part of an upload; `content` is None when reading it fails. */
  datatype Upload = Upload(filename: string, size: int, content: Option<seq<Byte>>)

  /** The multipart form: unparseable, without a "file" part, or with one. */
  datatype Form = FormInvalid | FormNoFile | FormFile(upload: Upload)

  /**
   * A request: the Authorization header ("" when absent), the `{id}` and `{att}` path
   * parameters after uuid.Parse (None when they do not parse), the body and the form.
   */
  datatype Request = Request(authorization: string, id: Option<Uuid>, att: Option<Uuid>, body: Payload, form: Form)

  /** The body without any key. */
  const NoKeys := ShareJson(None, None, None, None, None, None, None, None)

  /** A key's value if present, otherwise the field's old value. */
  function Pick<T>(key: Option<T>, old_: T): (r: T)
    ensures key.Some? ==> r == key.value
    ensures key.None? ==> r == old_
  {
    if key.Some? then key.value else old_
  }

  /** A key's value for a nullable field: present makes the field present. */
  function PickNullable<T>(key: Option<T>, old_: Option<T>): (r: Option<T>)
    ensures key.Some? ==> r == key
    ensures key.None? ==> r == old_
  {
    if key.Some? then key else old_
  }

  /**
   * json.Unmarshal of a body into a current-revision share: each key present
   * overwrites its field and each absent key leaves it alone; the current share
   * has no e-mail fields, so "emails" is ignored.
   */
  function Merge(j: ShareJson, sh: Share): (r: Share)
    ensures r.emails == sh.emails && r.emailsDb == sh.emailsDb
    ensures r.id == (if j.id.Some? then j.id.value else sh.id)
    ensures r.isTemporary == (if j.isTemporary.Some? then j.isTemporary.value else sh.isTemporary)
    ensures r.password == (if j.password.Some? then j.password else sh.password)
    ensures j.(emails := None) == NoKeys ==> r == sh
  {
    sh.(id := Pick(j.id, sh.id),
        name := PickNullable(j.name, sh.name),
        expires := PickNullable(j.expires, sh.expires),
        downloadLimit := PickNullable(j.downloadLimit, sh.downloadLimit),
        isPublic := Pick(j.isPublic, sh.isPublic),
        password := PickNullable(j.password, sh.password),
        isTemporary := Pick(j.isTemporary, sh.isTemporary))
  }

  /**
   * json.Unmarshal into an earlier-revision share, whose `Password`, `IsTemporary`
   * and `EMailsDB` are tagged `json:"-"`: those keys never reach the share.
   */
  function MergeLegacy(j: ShareJson, sh: Share): (r: Share)
    ensures r.password == sh.password && r.isTemporary == sh.isTemporary && r.emailsDb == sh.emailsDb
    ensures r.emails == (if j.emails.Some? then j.emails.value else sh.emails)
    ensures j.(password := None, isTemporary := None) == NoKeys ==> r == sh
  {
    sh.(id := Pick(j.id, sh.id),
        name := PickNullable(j.name, sh.name),
        expires := PickNullable(j.expires, sh.expires),
        downloadLimit := PickNullable(j.downloadLimit, sh.downloadLimit),
        isPublic := Pick(j.isPublic, sh.isPublic),
        emails := Pick(j.emails, sh.emails))
  }

  /** The error a handler returns: the Go error (None for nil), the message and the status code. */
  datatype HttpError = HttpError(cause: Option<string>, message: string, code: int)

  /** What a handler sends on success. */
  datatype Body =
    | Empty                                             // returns nil before writing anything
    | ShareBody(share: Share, files: set<Attachment>)   // one share with its preloaded attachments
    | ShareList(shares: seq<Share>)
    | AttachmentBody(attachment: Attachment)
    | FileBody(filename: string, content: seq<Byte>)    // http.ServeFile of an existing file
    | FileMissing                                       // http.ServeFile of a missing file

  /** The handler's result: success with a body, or the *HTTPError it returns. */
  datatype Reply = Done(body: Body) | Failed(err: HttpError)

  /**
   * What the client receives: a status, whether a `WWW-Authenticate: Basic` challenge
   * is set, and the text written; or a crash of the handler goroutine (no response).
   */
  datatype Response = Response(status: int, challenge: bool, text: string) | Crash
}
