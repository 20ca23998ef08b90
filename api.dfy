/**
 * The request handlers of the current revision and the adapter that turns a
 * handler's *HTTPError into a response. The handlers that only read (GetShare,
 * DownloadFile) are functions of the world; the others are methods on the store.
 * Every handler checks its path parameters, then looks the rows up (a database
 * fault is a 500, a missing row a 404), then applies its gates, then acts.
 */
module Api {
  import opened Wrappers
  import opened Strings
  import opened Domain
  import opened Http
  import opened Auth
  import opened Output
  import opened Store
  import Models
  import Tasks

  const BadParam := HttpError(Some("invalid UUID format"), "invalid URL param", 400)
  const FetchFailed := HttpError(Some("database query failed"), "Can't fetch data", 500)
  const NotFinalized := HttpError(Some("share is not finalized"), "Share is not finalized", 403)
  const Mismatch := HttpError(Some("share doesent match attachment"), "share doesent match attachment", 404)
  const UnreadableBody := HttpError(Some("unexpected EOF"), "Request does not contain a valid body", 400)
  const UnparsableBody := HttpError(Some("invalid character in JSON"), "Can't parse body", 400)

  /** gorm.ErrRecordNotFound with the handler's message. */
  function NotFound(message: string): HttpError {
    HttpError(Some("record not found"), message, 404)
  }

  /** Whether the lookup of share `id` succeeds. */
  predicate Found(w: World, id: Uuid, env: Env) {
    FetchFault !in env.faults && id in w.shares
  }

  /** Whether an attachment lookup by `aid` succeeds and the attachment belongs to share `sid`. */
  predicate Belongs(w: World, sid: Uuid, aid: Uuid, env: Env) {
    FetchFault !in env.faults && aid in w.attachments && w.attachments[aid].shareId == sid
  }

  /** Who may see a share in the listing: the admin every share, others the public finalized ones. */
  predicate Listable(sh: Share, admin: bool) {
    admin || (sh.isPublic && !sh.isTemporary)
  }

  /**
   * AllShares: a Bearer header that cannot be checked is a 500; a correct admin
   * token lists every share, anything else only the public finalized ones; the
   * listing is sent secured.
   */
  method AllShares(st: Store, req: Request, env: Env) returns (r: Reply, ghost rows: seq<Share>)
    requires Keyed(st.State())
    ensures var v := CheckBearerAuth(req.authorization, env.adminKey);
            v.err.Some? ==> r == Failed(HttpError(v.err, "can't check authorization header", 500))
    ensures CheckBearerAuth(req.authorization, env.adminKey).err.None? && FetchFault in env.faults ==>
              r == Failed(FetchFailed)
    ensures CheckBearerAuth(req.authorization, env.adminKey).err.None? && FetchFault !in env.faults ==>
              var admin := CheckBearerAuth(req.authorization, env.adminKey).ok;
              && r == Sent(ShareList(rows), env.faults)
              && (forall i :: 0 <= i < |rows| ==>
                    rows[i].id in st.shares && st.shares[rows[i].id] == rows[i] && Listable(rows[i], admin))
              && (forall k :: k in st.shares && Listable(st.shares[k], admin) ==> st.shares[k] in rows)
              && (forall i, j :: 0 <= i < j < |rows| ==> rows[i].id != rows[j].id)
  {
    rows := [];
    var v := CheckBearerAuth(req.authorization, env.adminKey);
    if v.err.Some? {
      return Failed(HttpError(v.err, "can't check authorization header", 500)), rows;
    }
    if FetchFault in env.faults {
      return Failed(FetchFailed), rows;
    }
    var all;
    if v.ok {
      all := st.Find(sh => true);
    } else {
      all := st.Find((sh: Share) => sh.isPublic && !sh.isTemporary);
    }
    rows := all;
    r := SendJson(ShareList(all), env.faults);
  }

  /**
   * GetShare: 400 for a bad id, 500 when the lookup fails, 404 for an unknown id,
   * 403 for an open share whatever the credentials, 401 when the Basic check fails
   * or errs, and otherwise the secured share with its attachments.
   */
  function GetShare(w: World, req: Request, env: Env): (r: Reply)
    ensures req.id.None? ==> r == Failed(BadParam)
    ensures req.id.Some? ==>
              var id := req.id.value;
              && (FetchFault in env.faults ==> r == Failed(FetchFailed))
              && (FetchFault !in env.faults && id !in w.shares ==> r == Failed(NotFound("record not found")))
              && (Found(w, id, env) && w.shares[id].isTemporary ==> r == Failed(NotFinalized))
              && (Found(w, id, env) && !w.shares[id].isTemporary ==>
                    var v := CheckBasicAuth(req.authorization, w.shares[id], env.hasher);
                    && (!v.ok ==> r == Failed(HttpError(v.err, "Unauthorized", 401)))
                    && (v.ok ==> r == Sent(ShareBody(w.shares[id], FilesOf(w, id)), env.faults)))
    ensures r.Done? ==> r.body.ShareBody? && Scrubbed(r.body.share)
  {
    if req.id.None? then Failed(BadParam)
    else
      var id := req.id.value;
      if FetchFault in env.faults then Failed(FetchFailed)
      else if id !in w.shares then Failed(NotFound("record not found"))
      else
        var sh := w.shares[id];
        if sh.isTemporary then Failed(NotFinalized)
        else
          var v := CheckBasicAuth(req.authorization, sh, env.hasher);
          if v.err.Some? || !v.ok then Failed(HttpError(v.err, "Unauthorized", 401))
          else Sent(ShareBody(sh, FilesOf(w, id)), env.faults)
  }

  /** A finalized share without a password is served to every request. */
  lemma OpenShareServed(w: World, req: Request, env: Env)
    requires req.id.Some? && Found(w, req.id.value, env) && !w.shares[req.id.value].isTemporary
    requires !HasPassword(w.shares[req.id.value]) && EncodeFault !in env.faults
    ensures GetShare(w, req, env) == Done(ShareBody(Secure(w.shares[req.id.value]), FilesOf(w, req.id.value)))
  {
  }

  /** The owner's Basic credentials open a finalized protected share. */
  lemma OwnerServed(w: World, req: Request, env: Env, plain: string)
    requires req.id.Some? && Found(w, req.id.value, env) && !w.shares[req.id.value].isTemporary
    requires EncodeFault !in env.faults
    requires var sh := w.shares[req.id.value];
             && sh.password.Some? && Sound(env.hasher) && env.hasher.generate(plain) == Some(sh.password.value)
             && IsByteString(sh.id.text) && IsByteString(plain) && ':' !in sh.id.text
             && req.authorization == BasicHeader(sh.id.text, plain)
    ensures GetShare(w, req, env).Done?
  {
    OwnerUnlocks(w.shares[req.id.value], plain, env.hasher);
  }

  /**
   * DownloadFile: 400 for a bad id, 500 when a lookup fails, 404 for an unknown
   * attachment, 404 when the attachment belongs to another share than the path
   * names, 404 when its share is gone, then the same 403 and 401 gates as GetShare;
   * past them, data/<share>/<attachment> is served (or is missing).
   */
  function DownloadFile(w: World, req: Request, env: Env): (r: Reply)
    ensures req.id.None? || req.att.None? ==> r == Failed(BadParam)
    ensures req.id.Some? && req.att.Some? ==>
              var sid, aid := req.id.value, req.att.value;
              && (FetchFault in env.faults ==> r == Failed(FetchFailed))
              && (FetchFault !in env.faults && aid !in w.attachments ==> r == Failed(NotFound("Record not found")))
              && (FetchFault !in env.faults && aid in w.attachments && w.attachments[aid].shareId != sid ==>
                    r == Failed(Mismatch))
              && (Belongs(w, sid, aid, env) && sid !in w.shares ==> r == Failed(NotFound("Record not found")))
              && (Belongs(w, sid, aid, env) && sid in w.shares && w.shares[sid].isTemporary ==> r == Failed(NotFinalized))
              && (Belongs(w, sid, aid, env) && sid in w.shares && !w.shares[sid].isTemporary ==>
                    var v := CheckBasicAuth(req.authorization, w.shares[sid], env.hasher);
                    && (!v.ok ==> r == Failed(HttpError(v.err, "Unauthorized", 401)))
                    && (v.ok && sid in w.data && aid in w.data[sid] ==>
                          r == Done(FileBody(w.attachments[aid].filename, w.data[sid][aid])))
                    && (v.ok && !(sid in w.data && aid in w.data[sid]) ==> r == Done(FileMissing)))
  {
    if req.id.None? || req.att.None? then Failed(BadParam)
    else
      var sid, aid := req.id.value, req.att.value;
      if FetchFault in env.faults then Failed(FetchFailed)
      else if aid !in w.attachments then Failed(NotFound("Record not found"))
      else
        var att := w.attachments[aid];
        if att.shareId != sid then Failed(Mismatch)
        else if att.shareId !in w.shares then Failed(NotFound("Record not found"))
        else
          var sh := w.shares[att.shareId];
          if sh.isTemporary then Failed(NotFinalized)
          else
            var v := CheckBasicAuth(req.authorization, sh, env.hasher);
            if v.err.Some? || !v.ok then Failed(HttpError(v.err, "Unauthorized", 401))
            else if sid in w.data && aid in w.data[sid] then Done(FileBody(att.filename, w.data[sid][aid]))
            else Done(FileMissing)
  }

  /**
   * In a consistent world, a request that passes the gates of DownloadFile gets the
   * stored bytes of the attachment, never a missing file.
   */
  lemma DownloadServesStoredFile(w: World, req: Request, env: Env)
    requires Valid(w) && req.id.Some? && req.att.Some?
    requires Belongs(w, req.id.value, req.att.value, env)
    requires CheckBasicAuth(req.authorization, w.shares[req.id.value], env.hasher).ok
    requires !w.shares[req.id.value].isTemporary
    ensures var sid, aid := req.id.value, req.att.value;
            && sid in w.data && aid in w.data[sid]
            && DownloadFile(w, req, env) == Done(FileBody(w.attachments[aid].filename, w.data[sid][aid]))
  {
    var aid := req.att.value;
    assert HasFile(w, w.attachments[aid]);
  }

  /** The share OpenShare stores: the body's keys over a zero share, always open. */
  function Opened(j: ShareJson): (sh: Share)
    ensures sh.isTemporary && HomeRoot(sh) == Temp
    ensures sh.(isTemporary := Merge(j, ZeroShare).isTemporary) == Merge(j, ZeroShare)
  {
    Merge(j, ZeroShare).(isTemporary := true)
  }

  const CreateFailed := "Can't create data"

  /**
   * OpenShare: a body that cannot be read or parsed is a 400 and changes nothing;
   * otherwise the share is created as an open share (whatever "is_temporary" said)
   * without attachments and sent back secured, or creation fails with a 500 and
   * no row is added.
   */
  method OpenShare(st: Store, req: Request, env: Env) returns (r: Reply)
    modifies st
    ensures req.body == Unreadable ==> r == Failed(UnreadableBody) && st.State() == old(st.State())
    ensures req.body == Malformed ==> r == Failed(UnparsableBody) && st.State() == old(st.State())
    ensures req.body.Json? && Models.CreateSucceeds(old(st.State()), Opened(req.body.share), env) ==>
              var sh := Models.Created(Opened(req.body.share), env);
              && sh.isTemporary && sh.id !in old(st.shares)
              && st.State() == EnsureDir(old(st.State()), Temp, sh.id).(shares := old(st.shares)[sh.id := sh])
              && r == Sent(ShareBody(sh, {}), env.faults)
    ensures req.body.Json? && !Models.CreateSucceeds(old(st.State()), Opened(req.body.share), env) ==>
              && r.Failed? && r.err.message == CreateFailed && r.err.code == 500
              && st.State() == if Models.DirMade(Opened(req.body.share), env)
                               then EnsureDir(old(st.State()), Temp, Models.FreshId(Opened(req.body.share).id, env).value)
                               else old(st.State())
    ensures Valid(old(st.State())) ==> Valid(st.State())
    ensures Exclusive(old(st.State())) ==>
              (Exclusive(st.State()) <==> !(req.body.Json? && OpensBesideData(old(st.State()), req.body.share, env)))
  {
    ghost var w := st.State();
    match req.body {
      case Unreadable =>
        return Failed(UnreadableBody);
      case Malformed =>
        return Failed(UnparsableBody);
      case Json(j) =>
        if Exclusive(w) && Models.DirMade(Opened(j), env) {
          DirsExclusive(w, Models.FreshId(Opened(j).id, env).value, NilUuid, []);
        }
        var sh, err := Models.CreateShare(st, Opened(j), env);
        if err.Some? {
          return Failed(HttpError(err, CreateFailed, 500));
        }
        r := SendJson(ShareBody(sh, {}), env.faults);
    }
  }

  /**
   * Whether OpenShare makes temp/<id> for an id that already has data/<id>: the id
   * the body names (or the random one) is that of a finalized share, or of one
   * whose row is gone but whose data/ directory stayed.
   */
  predicate OpensBesideData(w: World, j: ShareJson, env: Env) {
    Models.DirMade(Opened(j), env) && Models.FreshId(Opened(j).id, env).value in w.data
  }

  /**
   * A body naming a finalized share's id: the insert fails on the taken key with a
   * 500, but temp/<id> has been made beside data/<id>, so no row is added and yet
   * the directories no longer say the share is finalized.
   */
  method OpenShareBesideFinalized() returns (r: Reply, exclusive: bool, rows: map<Uuid, Share>)
    ensures r.Failed? && r.err.code == 500 && !exclusive && |rows| == 1
  {
    var sid := Uuid("6ba7b810-9dad-11d1-80b4-00c04fd430c8");
    var sh := ZeroShare.(id := sid, isPublic := true);
    var w := World(map[sid := sh], map[], map[], map[sid := map[]], []);
    var st := new Store(w);
    var env := Env({}, None, Stopped, Hasher(p => Some(p), (h, p) => h == p), "admin-key");
    assert Exclusive(w);
    var body := NoKeys.(id := Some(sid));
    assert Opened(body).id == sid && Models.DirMade(Opened(body), env);
    r := OpenShare(st, Request("", None, None, Json(body), FormInvalid), env);
    exclusive := forall k | k in st.temp :: k !in st.data;
    assert sid in st.temp && sid in st.data;
    rows := st.shares;
  }

  /** Whether os.Rename(temp/<id>, data/<id>) succeeds on a world. */
  predicate CanMove(w: World, id: Uuid, env: Env) {
    id in w.temp && id !in w.data && RenameFault(id) !in env.faults
  }

  /** The world after a share is finalized: its directory in data/ and its flag cleared. */
  function Finalized(w: World, id: Uuid): (r: World)
    requires id in w.shares && id in w.temp
    ensures id in r.shares && !r.shares[id].isTemporary && id in r.data && id !in r.temp
    ensures r.attachments == w.attachments && r.jobs == w.jobs
  {
    Move(w, id).(shares := w.shares[id := w.shares[id].(isTemporary := false)])
  }

  /** The jobs a close hands to the queue: the mail, then the delete at expiry when there is one. */
  function CloseJobs(sh: Share): (jobs: seq<Job>)
    ensures 1 <= |jobs| <= 2 && jobs[0] == Job(Tasks.NewShareEmailTask(sh), None)
    ensures |jobs| == 2 <==> sh.expires.Some?
    ensures |jobs| == 2 ==> jobs[1] == Job(Tasks.NewDeleteShareTask(sh), sh.expires)
  {
    [Job(Tasks.NewShareEmailTask(sh), None)]
      + if sh.expires.Some? then [Job(Tasks.NewDeleteShareTask(sh), sh.expires)] else []
  }

  const MoveFailed := HttpError(Some("rename: operation failed"), "Can't move directory", 500)
  const EditFailed := HttpError(Some("database update failed"), "Can't edit data", 500)
  const MailTaskFailed := HttpError(Some("redis: enqueue failed"), "Can't start send eMail background task", 500)
  const DeleteTaskFailed := HttpError(Some("redis: enqueue failed"), "Can't start deleteShare task", 500)

  /** Whether the queue rejects the mail job of a close. */
  predicate MailRefused(env: Env) {
    Refuses(env, Tasks.ShareEmailKind)
  }

  /** Whether a close has a delete job to queue (the share expires) and the queue rejects it. */
  predicate DeleteRefused(sh: Share, env: Env) {
    sh.expires.Some? && Refuses(env, Tasks.DeleteShareKind)
  }

  /**
   * The jobs a close leaves queued once the share is finalized: none with the
   * workers stopped or the mail job rejected, the mail job alone when the delete
   * job is rejected, otherwise every job of CloseJobs.
   */
  function Queued(sh: Share, env: Env): (jobs: seq<Job>)
    ensures env.queue == Stopped || MailRefused(env) ==> jobs == []
    ensures env.queue == Started && !MailRefused(env) && DeleteRefused(sh, env) ==>
              jobs == [Job(Tasks.NewShareEmailTask(sh), None)]
    ensures env.queue == Started && !MailRefused(env) && !DeleteRefused(sh, env) ==> jobs == CloseJobs(sh)
  {
    if env.queue == Stopped || MailRefused(env) then []
    else if DeleteRefused(sh, env) then CloseJobs(sh)[..1]
    else CloseJobs(sh)
  }

  /**
   * The reply of a close once the share is finalized: "Can't start send eMail
   * background task", then "Can't start deleteShare task", otherwise the share sent
   * back secured.
   */
  function Announced(sh: Share, env: Env): (r: Reply)
    ensures MailRefused(env) ==> r == Failed(MailTaskFailed)
    ensures !MailRefused(env) && DeleteRefused(sh, env) ==> r == Failed(DeleteTaskFailed)
    ensures !MailRefused(env) && !DeleteRefused(sh, env) ==> r == Sent(ShareBody(sh, {}), env.faults)
  {
    if MailRefused(env) then Failed(MailTaskFailed)
    else if DeleteRefused(sh, env) then Failed(DeleteTaskFailed)
    else Sent(ShareBody(sh, {}), env.faults)
  }

  /**
   * What a close queues is always a prefix of its jobs: all of them exactly when
   * neither job is rejected, and a close that replies with the share has queued
   * all of them (none with the workers stopped).
   */
  lemma {:induction false} QueuedPrefix(sh: Share, env: Env)
    ensures Queued(sh, env) <= CloseJobs(sh)
    ensures env.queue == Started ==> (Queued(sh, env) == CloseJobs(sh) <==> !MailRefused(env) && !DeleteRefused(sh, env))
    ensures Announced(sh, env).Done? ==> Queued(sh, env) == if env.queue == Started then CloseJobs(sh) else []
  {
    if env.queue == Started && DeleteRefused(sh, env) {
      assert |CloseJobs(sh)| == 2;
    }
  }

  /**
   * The tail of CloseShare once the share is finalized: the mail job, then the
   * delete job at the expiry when there is one, then the share sent back secured;
   * the first rejected job is the reply, with the jobs before it left queued.
   */
  method Announce(st: Store, sh: Share, env: Env) returns (r: Reply)
    modifies st
    ensures st.State() == old(st.State()).(jobs := old(st.jobs) + Queued(sh, env))
    ensures r == Announced(sh, env)
  {
    var queued := st.Enqueue(Job(Tasks.NewShareEmailTask(sh), None), env);
    if !queued {
      return Failed(MailTaskFailed);
    }
    if sh.expires.Some? {
      queued := st.Enqueue(Job(Tasks.NewDeleteShareTask(sh), sh.expires), env);
      if !queued {
        return Failed(DeleteTaskFailed);
      }
    }
    r := SendJson(ShareBody(sh, {}), env.faults);
  }

  /**
   * The part of CloseShare that finalizes an open share: rename temp/<id> to
   * data/<id> (a failure is a 500 and nothing changes), then save the cleared flag
   * (a failure is a 500 with the directory already moved), then announce it.
   */
  method Finalize(st: Store, id: Uuid, env: Env) returns (r: Reply)
    requires Keyed(st.State()) && id in st.shares && st.shares[id].isTemporary
    modifies st
    ensures Keyed(st.State())
    ensures var w := old(st.State());
            && (!CanMove(w, id, env) ==> r == Failed(MoveFailed) && st.State() == w)
            && (CanMove(w, id, env) && SaveFault(id) in env.faults ==> r == Failed(EditFailed) && st.State() == Move(w, id))
            && (CanMove(w, id, env) && SaveFault(id) !in env.faults ==>
                  var sh := Finalized(w, id).shares[id];
                  st.State() == Finalized(w, id).(jobs := w.jobs + Queued(sh, env)) && r == Announced(sh, env))
    ensures Valid(old(st.State())) && r != Failed(EditFailed) ==> Valid(st.State())
    ensures Exclusive(old(st.State())) ==> Exclusive(st.State())
  {
    ghost var w := st.State();
    var sh := st.shares[id];
    var moved := st.Rename(id, env);
    if !moved {
      return Failed(MoveFailed);
    }
    sh := sh.(isTemporary := false);
    var saved := st.SaveShare(sh, env);
    if !saved {
      return Failed(EditFailed);
    }
    assert st.State() == Finalized(w, id);
    if Valid(w) {
      FinalizeValid(w, id);
    }
    if Exclusive(w) {
      DirsExclusive(w, id, id, []);
    }
    r := Announce(st, sh, env);
  }

  /**
   * CloseShare: 400, 500 or 404 as the lookup goes; a share already finalized is a
   * success that changes nothing; otherwise the share is finalized and announced.
   */
  method CloseShare(st: Store, req: Request, env: Env) returns (r: Reply)
    requires Keyed(st.State())
    modifies st
    ensures Keyed(st.State())
    ensures req.id.None? ==> r == Failed(BadParam) && st.State() == old(st.State())
    ensures req.id.Some? ==>
              var id, w := req.id.value, old(st.State());
              && (FetchFault in env.faults ==> r == Failed(FetchFailed) && st.State() == w)
              && (FetchFault !in env.faults && id !in w.shares ==> r == Failed(NotFound("Record not found")) && st.State() == w)
              && (Found(w, id, env) && !w.shares[id].isTemporary ==> r == Done(Empty) && st.State() == w)
              && (Found(w, id, env) && w.shares[id].isTemporary && !CanMove(w, id, env) ==>
                    r == Failed(MoveFailed) && st.State() == w)
              && (Found(w, id, env) && w.shares[id].isTemporary && CanMove(w, id, env) && SaveFault(id) in env.faults ==>
                    r == Failed(EditFailed) && st.State() == Move(w, id))
              && (Found(w, id, env) && w.shares[id].isTemporary && CanMove(w, id, env) && SaveFault(id) !in env.faults ==>
                    var sh := Finalized(w, id).shares[id];
                    st.State() == Finalized(w, id).(jobs := w.jobs + Queued(sh, env)) && r == Announced(sh, env))
    ensures Valid(old(st.State())) && r != Failed(EditFailed) ==> Valid(st.State())
    ensures Exclusive(old(st.State())) ==> Exclusive(st.State())
  {
    if req.id.None? {
      return Failed(BadParam);
    }
    var id := req.id.value;
    if FetchFault in env.faults {
      return Failed(FetchFailed);
    }
    if id !in st.shares {
      return Failed(NotFound("Record not found"));
    }
    if !st.shares[id].isTemporary {
      return Done(Empty);
    }
    r := Finalize(st, id, env);
  }

  const FinalizedUpload := HttpError(Some("share is not finalized"), "Can't upload to finalized Shares.", 403)
  const BadForm := HttpError(Some("multipart: invalid form"), "Request does not contain a valid body (parsing form)", 400)
  const NoFile := HttpError(Some("http: no such file"), "Request does not contain a valid body (parsing file)", 400)
  const ReadFailed := HttpError(Some("read: operation failed"), "cant read file", 500)
  const SaveFailed := HttpError(Some("write: operation failed"), "cant save file", 500)

  /** The attachment an upload creates: its settled id, the part's name and size, the share. */
  function Uploaded(u: Upload, sid: Uuid, env: Env): (a: Attachment)
    ensures a.filename == u.filename && a.filesize == u.size && a.shareId == sid
    ensures env.random.Some? ==> a.id == env.random.value
    ensures env.random.None? ==> a.id == NilUuid
  {
    var a := Attachment(NilUuid, u.filename, u.size, sid);
    if env.random.Some? then a.(id := env.random.value) else a
  }

  /** Whether the insert of an upload's attachment row succeeds on a world. */
  predicate Inserted(w: World, u: Upload, sid: Uuid, env: Env) {
    env.random.Some? && Uploaded(u, sid, env).id !in w.attachments
  }

  /** The world with an upload's attachment row inserted, when the insert succeeds. */
  function WithRow(w: World, u: Upload, sid: Uuid, env: Env): World {
    if Inserted(w, u, sid, env) then
      w.(attachments := w.attachments[Uploaded(u, sid, env).id := Uploaded(u, sid, env)])
    else w
  }

  /**
   * UploadAttachment: 400, 500 or 404 as the lookup goes; 403 for a finalized share;
   * 400 without a valid form or without a "file" part. Then the attachment row is
   * inserted (an insert failure is ignored), the part is read (a failure is a 500 and
   * the row stays) and written to temp/<share>/<attachment> (a failure is a 500 and
   * the row is rolled back); on success the one new row and its file are added.
   */
  method UploadAttachment(st: Store, req: Request, env: Env) returns (r: Reply)
    requires Keyed(st.State())
    modifies st
    ensures Keyed(st.State())
    ensures req.id.None? ==> r == Failed(BadParam) && st.State() == old(st.State())
    ensures req.id.Some? ==>
              var sid, w := req.id.value, old(st.State());
              && (FetchFault in env.faults ==> r == Failed(FetchFailed) && st.State() == w)
              && (FetchFault !in env.faults && sid !in w.shares ==> r == Failed(NotFound("Record not found")) && st.State() == w)
              && (Found(w, sid, env) && !w.shares[sid].isTemporary ==> r == Failed(FinalizedUpload) && st.State() == w)
              && (Found(w, sid, env) && w.shares[sid].isTemporary ==>
                    && (req.form == FormInvalid ==> r == Failed(BadForm) && st.State() == w)
                    && (req.form == FormNoFile ==> r == Failed(NoFile) && st.State() == w)
                    && (req.form.FormFile? ==>
                          var u := req.form.upload;
                          var att := Uploaded(u, sid, env);
                          && (u.content.None? ==> r == Failed(ReadFailed) && st.State() == WithRow(w, u, sid, env))
                          && (u.content.Some? && !(sid in w.temp && WriteFault(sid, att.id) !in env.faults) ==>
                                r == Failed(SaveFailed) && st.State() == w)
                          && (u.content.Some? && sid in w.temp && WriteFault(sid, att.id) !in env.faults ==>
                                && sid in WithRow(w, u, sid, env).temp
                                && st.State() == PutFile(WithRow(w, u, sid, env), Temp, sid, att.id, u.content.value)
                                && r == Sent(AttachmentBody(att), env.faults))))
    ensures Valid(old(st.State())) && r != Failed(ReadFailed) ==> Valid(st.State())
    ensures Exclusive(old(st.State())) ==> Exclusive(st.State())
  {
    if req.id.None? {
      return Failed(BadParam);
    }
    var sid := req.id.value;
    if FetchFault in env.faults {
      return Failed(FetchFailed);
    }
    if sid !in st.shares {
      return Failed(NotFound("Record not found"));
    }
    if !st.shares[sid].isTemporary {
      return Failed(FinalizedUpload);
    }
    match req.form {
      case FormInvalid =>
        return Failed(BadForm);
      case FormNoFile =>
        return Failed(NoFile);
      case FormFile(u) =>
        ghost var w := st.State();
        var att, created := Models.CreateAttachment(st, Attachment(NilUuid, u.filename, u.size, sid), env);
        assert att == Uploaded(u, sid, env);
        assert st.State() == WithRow(w, u, sid, env);
        if u.content.None? {
          return Failed(ReadFailed);
        }
        ghost var w1 := st.State();
        var written := st.WriteFile(sid, att.id, u.content.value, env);
        if !written {
          if created.None? {
            st.DeleteAttachmentRow(att.id);
          }
          return Failed(SaveFailed);
        }
        if Valid(w) {
          PutFileValid(w, Temp, sid, att.id, u.content.value);
          if created.None? {
            assert PutFile(w1, Temp, sid, att.id, u.content.value)
                == PutFile(w, Temp, sid, att.id, u.content.value).(attachments := w.attachments[att.id := att]);
            InsertAttachmentValid(PutFile(w, Temp, sid, att.id, u.content.value), att);
          }
        }
        r := SendJson(AttachmentBody(att), env.faults);
    }
  }

  /**
   * UploadAttachment as written: the transaction db.Begin() opens is dropped, the row
   * is inserted outside it, and db.Rollback() has no transaction to undo, so when the
   * write fails the inserted row stays without its file. Everything else is as in
   * UploadAttachment.
   */
  method UploadAttachmentAsWritten(st: Store, req: Request, env: Env) returns (r: Reply)
    requires Keyed(st.State())
    modifies st
    ensures Keyed(st.State())
    ensures req.id.None? ==> r == Failed(BadParam) && st.State() == old(st.State())
    ensures req.id.Some? ==>
              var sid, w := req.id.value, old(st.State());
              && (FetchFault in env.faults ==> r == Failed(FetchFailed) && st.State() == w)
              && (FetchFault !in env.faults && sid !in w.shares ==> r == Failed(NotFound("Record not found")) && st.State() == w)
              && (Found(w, sid, env) && !w.shares[sid].isTemporary ==> r == Failed(FinalizedUpload) && st.State() == w)
              && (Found(w, sid, env) && w.shares[sid].isTemporary ==>
                    && (req.form == FormInvalid ==> r == Failed(BadForm) && st.State() == w)
                    && (req.form == FormNoFile ==> r == Failed(NoFile) && st.State() == w)
                    && (req.form.FormFile? ==>
                          var u := req.form.upload;
                          var att := Uploaded(u, sid, env);
                          && (u.content.None? ==> r == Failed(ReadFailed) && st.State() == WithRow(w, u, sid, env))
                          && (u.content.Some? && !(sid in w.temp && WriteFault(sid, att.id) !in env.faults) ==>
                                r == Failed(SaveFailed) && st.State() == WithRow(w, u, sid, env))
                          && (u.content.Some? && sid in w.temp && WriteFault(sid, att.id) !in env.faults ==>
                                && sid in WithRow(w, u, sid, env).temp
                                && st.State() == PutFile(WithRow(w, u, sid, env), Temp, sid, att.id, u.content.value)
                                && r == Sent(AttachmentBody(att), env.faults))))
    ensures Valid(old(st.State())) && r != Failed(ReadFailed) && r != Failed(SaveFailed) ==> Valid(st.State())
    ensures Exclusive(old(st.State())) ==> Exclusive(st.State())
  {
    if req.id.None? {
      return Failed(BadParam);
    }
    var sid := req.id.value;
    if FetchFault in env.faults {
      return Failed(FetchFailed);
    }
    if sid !in st.shares {
      return Failed(NotFound("Record not found"));
    }
    if !st.shares[sid].isTemporary {
      return Failed(FinalizedUpload);
    }
    match req.form {
      case FormInvalid =>
        return Failed(BadForm);
      case FormNoFile =>
        return Failed(NoFile);
      case FormFile(u) =>
        ghost var w := st.State();
        var att, created := Models.CreateAttachment(st, Attachment(NilUuid, u.filename, u.size, sid), env);
        assert att == Uploaded(u, sid, env);
        assert st.State() == WithRow(w, u, sid, env);
        if u.content.None? {
          return Failed(ReadFailed);
        }
        ghost var w1 := st.State();
        var written := st.WriteFile(sid, att.id, u.content.value, env);
        if !written {
          return Failed(SaveFailed);
        }
        if Valid(w) {
          PutFileValid(w, Temp, sid, att.id, u.content.value);
          if created.None? {
            assert PutFile(w1, Temp, sid, att.id, u.content.value)
                == PutFile(w, Temp, sid, att.id, u.content.value).(attachments := w.attachments[att.id := att]);
            InsertAttachmentValid(PutFile(w, Temp, sid, att.id, u.content.value), att);
          }
        }
        r := SendJson(AttachmentBody(att), env.faults);
    }
  }

  /**
   * The row an upload leaves behind when its file is not written breaks consistency:
   * the attachment is stored but its bytes are not in its share's directory.
   */
  lemma OrphanRowBreaksValid(w: World, u: Upload, sid: Uuid, env: Env)
    requires sid in w.shares && w.shares[sid].isTemporary && Inserted(w, u, sid, env)
    requires sid in w.temp ==> Uploaded(u, sid, env).id !in w.temp[sid]
    ensures !Valid(WithRow(w, u, sid, env))
  {
    var a := Uploaded(u, sid, env);
    var w' := WithRow(w, u, sid, env);
    assert a.id in w'.attachments && w'.attachments[a.id] == a;
    assert !HasFile(w', a);
  }

  const AuthFailed := "Authentication Failed"

  /**
   * DeleteShare (admin): 400, 500 or 404 as the lookup goes — existence is checked
   * before the credentials; a request without the admin token is a 401 that changes
   * nothing; otherwise a delete job for the share is enqueued at its expiry, and
   * nothing but the job log changes.
   */
  method DeleteShare(st: Store, req: Request, env: Env) returns (r: Reply)
    modifies st
    ensures req.id.None? ==> r == Failed(BadParam) && st.State() == old(st.State())
    ensures req.id.Some? ==>
              var id, w := req.id.value, old(st.State());
              var v := CheckBearerAuth(req.authorization, env.adminKey);
              && (FetchFault in env.faults ==> r == Failed(FetchFailed) && st.State() == w)
              && (FetchFault !in env.faults && id !in w.shares ==> r == Failed(NotFound("record not found")) && st.State() == w)
              && (Found(w, id, env) && !v.ok ==> r == Failed(HttpError(v.err, AuthFailed, 401)) && st.State() == w)
              && (Found(w, id, env) && v.ok ==>
                    var job := Job(Tasks.NewDeleteShareTask(w.shares[id]), w.shares[id].expires);
                    && (env.queue == Stopped ==> r == Done(Empty) && st.State() == w)
                    && (Refuses(env, Tasks.DeleteShareKind) ==> r == Failed(DeleteTaskFailed) && st.State() == w)
                    && (env.queue == Started && !Refuses(env, Tasks.DeleteShareKind) ==>
                          r == Done(Empty) && st.State() == w.(jobs := w.jobs + [job])))
    ensures Exclusive(old(st.State())) ==> Exclusive(st.State())
  {
    if req.id.None? {
      return Failed(BadParam);
    }
    var id := req.id.value;
    if FetchFault in env.faults {
      return Failed(FetchFailed);
    }
    if id !in st.shares {
      return Failed(NotFound("record not found"));
    }
    var sh := st.shares[id];
    var v := CheckBearerAuth(req.authorization, env.adminKey);
    if v.err.Some? || !v.ok {
      return Failed(HttpError(v.err, AuthFailed, 401));
    }
    var queued := st.Enqueue(Job(Tasks.NewDeleteShareTask(sh), sh.expires), env);
    if !queued {
      return Failed(DeleteTaskFailed);
    }
    r := Done(Empty);
  }

  /**
   * UpdateShare (admin): a request without the admin token is a 401 that changes
   * nothing, checked first; then 400, 500 or 404 as the lookup goes, 400 for a body
   * that cannot be read or parsed; then the body's keys are applied to the stored
   * share and the result is saved under its (possibly new) id, the password as sent.
   */
  method UpdateShare(st: Store, req: Request, env: Env) returns (r: Reply)
    requires Keyed(st.State())
    modifies st
    ensures Keyed(st.State())
    ensures var v := CheckBearerAuth(req.authorization, env.adminKey);
            !v.ok ==> r == Failed(HttpError(v.err, "Unauthorized", 401)) && st.State() == old(st.State())
    ensures CheckBearerAuth(req.authorization, env.adminKey).ok ==>
              var w := old(st.State());
              && (req.id.None? ==> r == Failed(BadParam) && st.State() == w)
              && (req.id.Some? ==>
                    var id := req.id.value;
                    && (FetchFault in env.faults ==> r == Failed(FetchFailed) && st.State() == w)
                    && (FetchFault !in env.faults && id !in w.shares ==> r == Failed(NotFound("record not found")) && st.State() == w)
                    && (Found(w, id, env) && req.body == Unreadable ==> r == Failed(UnreadableBody) && st.State() == w)
                    && (Found(w, id, env) && req.body == Malformed ==> r == Failed(UnparsableBody) && st.State() == w)
                    && (Found(w, id, env) && req.body.Json? ==>
                          var sh := Merge(req.body.share, w.shares[id]);
                          && (SaveFault(sh.id) in env.faults ==> r == Failed(EditFailed) && st.State() == w)
                          && (SaveFault(sh.id) !in env.faults ==>
                                r == Done(Empty) && st.State() == w.(shares := w.shares[sh.id := sh]))))
    ensures Valid(old(st.State())) && req.body.Json? && req.body.share.id in {None, req.id}
            && req.body.share.isTemporary == None
            ==> Valid(st.State())
    ensures Exclusive(old(st.State())) ==> Exclusive(st.State())
  {
    var v := CheckBearerAuth(req.authorization, env.adminKey);
    if v.err.Some? || !v.ok {
      return Failed(HttpError(v.err, "Unauthorized", 401));
    }
    if req.id.None? {
      return Failed(BadParam);
    }
    var id := req.id.value;
    if FetchFault in env.faults {
      return Failed(FetchFailed);
    }
    if id !in st.shares {
      return Failed(NotFound("record not found"));
    }
    match req.body {
      case Unreadable =>
        return Failed(UnreadableBody);
      case Malformed =>
        return Failed(UnparsableBody);
      case Json(j) =>
        ghost var w := st.State();
        var sh := Merge(j, st.shares[id]);
        var saved := st.SaveShare(sh, env);
        if !saved {
          return Failed(EditFailed);
        }
        if Valid(w) && j.id in {None, req.id} && j.isTemporary == None {
          ReplaceShareValid(w, sh);
        }
        r := Done(Empty);
    }
  }

  const DeleteFailed := "can't delete attachment"

  /**
   * DeleteAttachment, as written: 400, 500 or 404 as the lookups go, 404 when the
   * attachment belongs to another share; then the attachment's file and row are
   * deleted, a removal failure being a 500 that changes nothing. The credentials
   * are never looked at.
   */
  method DeleteAttachment(st: Store, req: Request, env: Env) returns (r: Reply)
    requires Keyed(st.State())
    modifies st
    ensures Keyed(st.State())
    ensures req.id.None? || req.att.None? ==> r == Failed(BadParam) && st.State() == old(st.State())
    ensures req.id.Some? && req.att.Some? ==>
              var sid, aid, w := req.id.value, req.att.value, old(st.State());
              && (FetchFault in env.faults ==> r == Failed(FetchFailed) && st.State() == w)
              && (FetchFault !in env.faults && aid !in w.attachments ==> r == Failed(NotFound("Record not found")) && st.State() == w)
              && (FetchFault !in env.faults && aid in w.attachments && w.attachments[aid].shareId != sid ==>
                    r == Failed(Mismatch) && st.State() == w)
              && (Belongs(w, sid, aid, env) && sid !in w.shares ==> r == Failed(NotFound("Record not found")) && st.State() == w)
              && (Belongs(w, sid, aid, env) && sid in w.shares ==>
                    if sid in w.data && aid in w.data[sid] && RemoveFault(sid, aid) !in env.faults then
                      r == Done(Empty) && st.State() == DropFile(w, Data, sid, aid).(attachments := w.attachments - {aid})
                    else
                      r.Failed? && r.err.message == DeleteFailed && r.err.code == 500 && st.State() == w)
    ensures Valid(old(st.State())) ==> Valid(st.State())
    ensures Exclusive(old(st.State())) ==> Exclusive(st.State())
  {
    if req.id.None? || req.att.None? {
      return Failed(BadParam);
    }
    var sid, aid := req.id.value, req.att.value;
    if FetchFault in env.faults {
      return Failed(FetchFailed);
    }
    if aid !in st.attachments {
      return Failed(NotFound("Record not found"));
    }
    var att := st.attachments[aid];
    if att.shareId != sid {
      return Failed(Mismatch);
    }
    if att.shareId !in st.shares {
      return Failed(NotFound("Record not found"));
    }
    var err := Models.DeleteAttachment(st, att, env);
    if err.Some? {
      return Failed(HttpError(err, DeleteFailed, 500));
    }
    r := Done(Empty);
  }

  /**
   * DeleteAttachment with the admin check the route belongs under: a request
   * without the admin Bearer token is a 401 that changes nothing; with it, the
   * lookups, the id match and the deletion go as in DeleteAttachment.
   */
  method AdminDeleteAttachment(st: Store, req: Request, env: Env) returns (r: Reply)
    requires Keyed(st.State())
    modifies st
    ensures Keyed(st.State())
    ensures var v := CheckBearerAuth(req.authorization, env.adminKey);
            !v.ok ==> r == Failed(HttpError(v.err, AuthFailed, 401)) && st.State() == old(st.State())
    ensures CheckBearerAuth(req.authorization, env.adminKey).ok && (req.id.None? || req.att.None?) ==>
              r == Failed(BadParam) && st.State() == old(st.State())
    ensures CheckBearerAuth(req.authorization, env.adminKey).ok && req.id.Some? && req.att.Some? ==>
              var sid, aid, w := req.id.value, req.att.value, old(st.State());
              && (FetchFault in env.faults ==> r == Failed(FetchFailed) && st.State() == w)
              && (FetchFault !in env.faults && aid !in w.attachments ==> r == Failed(NotFound("Record not found")) && st.State() == w)
              && (FetchFault !in env.faults && aid in w.attachments && w.attachments[aid].shareId != sid ==>
                    r == Failed(Mismatch) && st.State() == w)
              && (Belongs(w, sid, aid, env) && sid !in w.shares ==> r == Failed(NotFound("Record not found")) && st.State() == w)
              && (Belongs(w, sid, aid, env) && sid in w.shares ==>
                    if sid in w.data && aid in w.data[sid] && RemoveFault(sid, aid) !in env.faults then
                      r == Done(Empty) && st.State() == DropFile(w, Data, sid, aid).(attachments := w.attachments - {aid})
                    else
                      r.Failed? && r.err.message == DeleteFailed && r.err.code == 500 && st.State() == w)
    ensures Valid(old(st.State())) ==> Valid(st.State())
    ensures Exclusive(old(st.State())) ==> Exclusive(st.State())
  {
    var v := CheckBearerAuth(req.authorization, env.adminKey);
    if v.err.Some? || !v.ok {
      return Failed(HttpError(v.err, AuthFailed, 401));
    }
    r := DeleteAttachment(st, req, env);
  }

  /**
   * A request with no Authorization header at all deletes an attachment through
   * DeleteAttachment as written: the reply is a success and the row is gone.
   */
  method DeleteAttachmentWithoutCredentials() returns (r: Reply, remaining: map<Uuid, Attachment>)
    ensures r == Done(Empty) && remaining == map[]
  {
    var sid := Uuid("6ba7b810-9dad-11d1-80b4-00c04fd430c8");
    var aid := Uuid("6ba7b811-9dad-11d1-80b4-00c04fd430c8");
    var a := Attachment(aid, "report.pdf", 3, sid);
    var sh := ZeroShare.(id := sid, password := Some("$2a$10$hash"));
    var w := World(map[sid := sh], map[aid := a], map[], map[sid := map[aid := [1, 2, 3]]], []);
    var st := new Store(w);
    var env := Env({}, None, Stopped, Hasher(p => Some(p), (h, p) => h == p), "admin-key");
    r := DeleteAttachment(st, Request("", Some(sid), Some(aid), Unreadable, FormInvalid), env);
    remaining := st.attachments;
  }

  /**
   * EndpointREST.ServeHTTP as written: a returned error is answered with its code and
   * "<message> - <cause>", with a Basic challenge on a 401; an error whose cause is nil
   * makes the handler crash on the nil dereference instead. A success is a 200, or the
   * 404 of http.ServeFile for a missing file.
   */
  function ServeHttpAsWritten(r: Reply): (resp: Response)
    ensures resp.Crash? <==> r.Failed? && r.err.cause.None?
    ensures r.Failed? && resp.Response? ==> resp.status == r.err.code && (resp.challenge <==> r.err.code == 401)
    ensures r.Failed? && resp.Response? ==> resp.text == r.err.message + " - " + r.err.cause.value
    ensures r.Done? ==> resp.Response? && !resp.challenge && (resp.status == 404 <==> r.body == FileMissing)
  {
    match r
    case Done(FileMissing) => Response(404, false, "404 page not found")
    case Done(_) => Response(200, false, "")
    case Failed(e) =>
      if e.cause.None? then Crash
      else Response(e.code, e.code == 401, e.message + " - " + e.cause.value)
  }

  /**
   * ServeHTTP as intended: every returned error is answered with its code, and its
   * cause after the message when there is one; every 401 carries the Basic challenge
   * (section 4.1 of RFC 7235); nothing crashes.
   */
  function ServeHttp(r: Reply): (resp: Response)
    ensures resp.Response?
    ensures resp.challenge <==> r.Failed? && r.err.code == 401
    ensures r.Failed? ==> resp.status == r.err.code && HasPrefix(resp.text, r.err.message)
    ensures r.Done? ==> (resp.status == 404 <==> r.body == FileMissing)
    ensures r.Failed? && r.err.cause.Some? ==> resp == ServeHttpAsWritten(r)
  {
    match r
    case Done(FileMissing) => Response(404, false, "404 page not found")
    case Done(_) => Response(200, false, "")
    case Failed(e) =>
      var text := if e.cause.Some? then e.message + " - " + e.cause.value else e.message;
      assert text[..|e.message|] == e.message;
      Response(e.code, e.code == 401, text)
  }

  /**
   * A protected finalized share asked for with Basic credentials of another user is
   * refused with a 401 whose cause is nil: as written the handler then crashes and no
   * challenge is sent; as intended the client gets the 401 and the challenge.
   */
  lemma WrongUserCrashes(w: World, req: Request, env: Env, user: string, plain: string)
    requires req.id.Some? && Found(w, req.id.value, env) && !w.shares[req.id.value].isTemporary
    requires HasPassword(w.shares[req.id.value]) && user != w.shares[req.id.value].id.text
    requires IsByteString(user) && IsByteString(plain) && ':' !in user
    requires req.authorization == BasicHeader(user, plain)
    ensures GetShare(w, req, env) == Failed(HttpError(None, "Unauthorized", 401))
    ensures ServeHttpAsWritten(GetShare(w, req, env)) == Crash
    ensures ServeHttp(GetShare(w, req, env)) == Response(401, true, "Unauthorized")
  {
    OtherUserRefused(w.shares[req.id.value], user, plain, env.hasher);
  }
}
