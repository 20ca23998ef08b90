/**
 * The entities of the share service: shares, their attachments, background jobs,
 * and the environment a request runs in (the outcome of random generation, the
 * faults the database, filesystem and queue may produce, the password hasher and
 * the admin key).
 */
module Domain {
  import opened Wrappers
  import opened Strings

  /** A UUID, known by its canonical text form (uuid.UUID.String()). */
  datatype Uuid = Uuid(text: string)

  /** The all-zero UUID that the creation hooks replace with a random one. */
  const NilUuid := Uuid("00000000-0000-0000-0000-000000000000")

  /** A point in time; only compared and copied, never computed with. */
  datatype Time = Time(stamp: int)

  /**
   * A share. Both revisions of the service are covered: `emails` and `emailsDb`
   * exist only in the earlier one (they stay [] and "" in the current one), and the
   * earlier revision's plain `Name`, `DownloadLimit` and `Password` strings are the
   * present/absent values below with "" read as absent where the code compares with "".
   */
  datatype Share = Share(
    id: Uuid,
    name: Option<string>,
    expires: Option<Time>,
    downloadLimit: Option<int>,
    isPublic: bool,
    password: Option<string>,
    emails: seq<string>,
    emailsDb: string,
    isTemporary: bool)

  /** The share json.Unmarshal starts from: every field at its zero value. */
  const ZeroShare := Share(NilUuid, None, None, None, false, None, [], "", false)

  /** Whether the share is protected by a password (a present, non-empty one). */
  predicate HasPassword(sh: Share) {
    sh.password.Some? && sh.password.value != ""
  }

  /** An uploaded file's database row. Its bytes live in the share's directory, named by `id`. */
  datatype Attachment = Attachment(id: Uuid, filename: string, filesize: int, shareId: Uuid)

  /** The two directory roots under the media directory. */
  datatype Root = Temp | Data

  /** The directory root a share's files live under: temp while open, data once finalized. */
  function HomeRoot(sh: Share): (r: Root)
    ensures r == Temp <==> sh.isTemporary
  {
    if sh.isTemporary then Temp else Data
  }

  /** A background task: its kind and its string payload. */
  datatype Task = Task(kind: string, payload: map<string, string>)

  /** A task handed to the queue, to run at `at` or as soon as possible. */
  datatype Job = Job(task: Task, at: Option<Time>)

  /** Whether the background workers (and so the queue client) were started. */
  datatype Queue = Stopped | Started

  /**
   * The password hash (bcrypt), abstract: `generate` may fail; `compare(hash, plain)`
   * says whether `plain` unlocks `hash`.
   */
  datatype Hasher = Hasher(generate: string -> Option<string>, compare: (string, string) -> bool)

  /** A hasher whose every generated hash is unlocked by its own plaintext. */
  ghost predicate Sound(h: Hasher) {
    forall p :: h.generate(p).Some? ==> h.compare(h.generate(p).value, p)
  }

  /** The failures the environment can produce, one per external operation and target. */
  datatype Fault =
    | MkdirFault(root: Root, dir: Uuid)               // os.MkdirAll(<root>/<dir>)
    | RemoveAllFault(root: Root, dir: Uuid)           // os.RemoveAll(<root>/<dir>)
    | RenameFault(dir: Uuid)                          // os.Rename(temp/<dir>, data/<dir>)
    | WriteFault(dir: Uuid, name: Uuid)               // ioutil.WriteFile(temp/<dir>/<name>)
    | RemoveFault(dir: Uuid, name: Uuid)              // os.Remove(data/<dir>/<name>)
    | FetchFault                                      // a query fails other than by "not found"
    | SaveFault(id: Uuid)                             // db.Save of the share row <id>
    | EnqueueFault(kind: string)                      // the queue client rejects a job of this task kind
    | EncodeFault                                     // the JSON encoder fails on the reply

  /**
   * What one request or task run depends on besides the store: the faults that occur,
   * the value uuid.NewRandom returns (None when it fails), whether the workers run,
   * the hasher and the ADMIN_KEY variable. Like every Go string, ADMIN_KEY is a
   * sequence of bytes; as everywhere in the model it is held as a byte string (each
   * character below 256, Strings.IsByteString), so that comparing it with the
   * decoded token's FromBytes compares bytes, as `string(token) == ...` does.
   */
  datatype Env = Env(faults: set<Fault>, random: Option<Uuid>, queue: Queue, hasher: Hasher, adminKey: string)

  /** Whether the running queue rejects a job of the given task kind. */
  predicate Refuses(env: Env, kind: string) {
    env.queue == Started && EnqueueFault(kind) in env.faults
  }

  /** A random (version 4) UUID is never the all-zero one. */
  predicate GoodRandom(env: Env) {
    env.random != Some(NilUuid)
  }
}
