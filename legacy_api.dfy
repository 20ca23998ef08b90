/**
 * The request handlers of the earlier revision. Compared with the current one:
 * no admin routes and no listing of every share; the password is stored and
 * compared as plain text, with separate 401s for a wrong user name and a wrong
 * password; replies are not secured, but the encoder never writes the password or
 * the e-mail column, which are tagged json:"-"; DownloadFile
 * checks neither the share's state nor that the attachment belongs to the share
 * the path names; and CloseShare renames the directory even for a share already
 * finalized. Every error this revision returns has a cause, so its adapter (the
 * same as the current one's) never crashes. Its UploadAttachment has the same
 * effect as the current one as written, including the row left behind when the
 * file write fails, and is Api.UploadAttachmentAsWritten.
 */
module LegacyApi {
  import opened Wrappers
  import opened Strings
  import opened Domain
  import opened Http
  import opened Auth
  import opened Store
  import Output
  import Models
  import Database
  import Api

  /** gorm.ErrRecordNotFound as this revision reports it. */
  const RecordNotFound := Api.NotFound("Record not found")
  const WrongUser := HttpError(Some("unauthorized"), "wrong username", 401)
  const WrongPassword := HttpError(Some("unauthorized"), "wrong password", 401)
  const CreateFailed := "Can't create data"

  /**
   * What the encoder writes of a share of this revision: `Password` and `EMailsDB`
   * are tagged json:"-", so the reply has no password and no e-mail column, and
   * every other field is kept.
   */
  function Encoded(sh: Share): (r: Share)
    ensures r.password.None? && r.emailsDb == ""
    ensures r.(password := sh.password, emailsDb := sh.emailsDb) == sh
  {
    sh.(password := None, emailsDb := "")
  }

  /** The body as the encoder writes it: each share of it encoded, anything else unchanged. */
  function EncodedBody(b: Body): (r: Body)
    ensures b.ShareBody? ==> r == ShareBody(Encoded(b.share), b.files)
    ensures b.ShareList? ==> r.ShareList? && |r.shares| == |b.shares|
    ensures b.ShareList? ==> forall i :: 0 <= i < |b.shares| ==> r.shares[i] == Encoded(b.shares[i])
    ensures !b.ShareBody? && !b.ShareList? ==> r == b
    ensures Output.NoSecrets(r)
  {
    match b
    case ShareBody(sh, files) => ShareBody(Encoded(sh), files)
    case ShareList(s) => ShareList(seq(|s|, i requires 0 <= i < |s| => Encoded(s[i])))
    case _ => b
  }

  /**
   * The shares of the two revisions' replies differ only in the password key: the
   * current one sends a secured password, this one none at all.
   */
  lemma EncodedLikeSecured(sh: Share)
    ensures Encoded(sh) == Output.Secure(sh).(password := None, emailsDb := "")
    ensures Output.Secure(sh).password.Some? ==> Output.Secure(sh).password == Some("") && Encoded(sh).password.None?
  {
  }

  /**
   * SendJSON of this revision: nothing is secured, and an encoder failure is the 500
   * "Can't encode data"; otherwise the body is written as the encoder writes it,
   * without any password.
   */
  function Sent(b: Body, faults: set<Fault>): (r: Reply)
    ensures EncodeFault in faults <==> r == Failed(Output.EncodeError)
    ensures r.Done? ==> r.body == EncodedBody(b) && Output.NoSecrets(r.body)
  {
    if EncodeFault in faults then Failed(Output.EncodeError) else Done(EncodedBody(b))
  }

  /** r.BasicAuth() with its ok flag ignored: the user name and password, or two empty strings. */
  function Credentials(auth: string): (c: (string, string))
    ensures ParseBasicAuth(auth).Some? ==> c == ParseBasicAuth(auth).value
    ensures ParseBasicAuth(auth).None? ==> c == ("", "")
  {
    match ParseBasicAuth(auth)
    case None => ("", "")
    case Some(p) => p
  }

  /**
   * The password gate of GetShare and DownloadFile: a share with an empty password
   * is open; otherwise the user name must be the share id (else "wrong username")
   * and the password the stored text itself (else "wrong password").
   */
  function PasswordGate(auth: string, sh: Share): (r: Option<HttpError>)
    ensures !HasPassword(sh) ==> r.None?
    ensures HasPassword(sh) ==> (r.None? <==> Credentials(auth) == (sh.id.text, sh.password.value))
    ensures r == Some(WrongUser) <==> HasPassword(sh) && Credentials(auth).0 != sh.id.text
    ensures r == Some(WrongPassword) <==>
              HasPassword(sh) && Credentials(auth).0 == sh.id.text && Credentials(auth).1 != sh.password.value
  {
    if !HasPassword(sh) then None
    else
      var (user, pass) := Credentials(auth);
      if user != sh.id.text then Some(WrongUser)
      else if pass != sh.password.value then Some(WrongPassword)
      else None
  }

  /** The share id and the stored password, sent as Basic credentials, pass the gate. */
  lemma OwnerPasses(sh: Share)
    requires HasPassword(sh)
    requires IsByteString(sh.id.text) && IsByteString(sh.password.value) && ':' !in sh.id.text
    ensures PasswordGate(BasicHeader(sh.id.text, sh.password.value), sh).None?
  {
    BasicRoundTrip(sh.id.text, sh.password.value);
  }

  /** Any other password for the right user name is refused as a wrong password. */
  lemma OtherPasswordRefused(sh: Share, pass: string)
    requires HasPassword(sh) && pass != sh.password.value
    requires IsByteString(sh.id.text) && IsByteString(pass) && ':' !in sh.id.text
    ensures PasswordGate(BasicHeader(sh.id.text, pass), sh) == Some(WrongPassword)
  {
    BasicRoundTrip(sh.id.text, pass);
  }

  /**
   * AllShares: a failed query is a 500; otherwise the public finalized shares,
   * each with its e-mails read back, sent without their passwords.
   */
  method AllShares(st: Store, env: Env) returns (r: Reply, ghost rows: seq<Share>)
    requires Keyed(st.State())
    ensures FetchFault in env.faults ==> r == Failed(Api.FetchFailed)
    ensures FetchFault !in env.faults ==>
              && r == Sent(ShareList(rows), env.faults)
              && (forall i :: 0 <= i < |rows| ==>
                    && rows[i].id in st.shares && rows[i] == Database.AfterFind(st.shares[rows[i].id])
                    && rows[i].isPublic && !rows[i].isTemporary)
              && (forall k :: k in st.shares && st.shares[k].isPublic && !st.shares[k].isTemporary ==>
                    Database.AfterFind(st.shares[k]) in rows)
              && (forall i, j :: 0 <= i < j < |rows| ==> rows[i].id != rows[j].id)
    ensures r.Done? ==> Output.NoSecrets(r.body)
  {
    rows := [];
    if FetchFault in env.faults {
      return Failed(Api.FetchFailed), rows;
    }
    var found := st.Find((sh: Share) => sh.isPublic && !sh.isTemporary);
    var list := seq(|found|, i requires 0 <= i < |found| => Database.AfterFind(found[i]));
    rows := list;
    forall k | k in st.shares && st.shares[k].isPublic && !st.shares[k].isTemporary
      ensures Database.AfterFind(st.shares[k]) in rows
    {
      var i :| 0 <= i < |found| && found[i] == st.shares[k];
      assert rows[i] == Database.AfterFind(st.shares[k]);
    }
    r := Sent(ShareList(list), env.faults);
  }

  /** The outcome of RetrieveShare: the share (with its attachments when asked for), or the error. */
  datatype Retrieved = Got(share: Share, files: set<Attachment>) | Refused(err: HttpError)

  /**
   * RetrieveShare: 500 when the query fails, 404 for an unknown id, 403 for an open
   * share; otherwise the share with its e-mails read back, and its attachments when
   * `withAtt` is set.
   */
  function RetrieveShare(w: World, id: Uuid, withAtt: bool, env: Env): (r: Retrieved)
    ensures FetchFault in env.faults ==> r == Refused(Api.FetchFailed)
    ensures FetchFault !in env.faults && id !in w.shares ==> r == Refused(RecordNotFound)
    ensures Api.Found(w, id, env) && w.shares[id].isTemporary ==> r == Refused(Api.NotFinalized)
    ensures r.Got? <==> Api.Found(w, id, env) && !w.shares[id].isTemporary
    ensures r.Got? ==> r.share == Database.AfterFind(w.shares[id]) && !r.share.isTemporary
    ensures r.Got? ==> r.files == if withAtt then FilesOf(w, id) else {}
  {
    if FetchFault in env.faults then Refused(Api.FetchFailed)
    else if id !in w.shares then Refused(RecordNotFound)
    else if w.shares[id].isTemporary then Refused(Api.NotFinalized)
    else Got(Database.AfterFind(w.shares[id]), if withAtt then FilesOf(w, id) else {})
  }

  /**
   * GetShare: 400 for a bad id, 500 when the query fails, 404 for an unknown id,
   * 403 for an open share, then the password gate; past it the share with its
   * attachments and its e-mails read back, sent without its password.
   */
  function GetShare(w: World, req: Request, env: Env): (r: Reply)
    ensures req.id.None? ==> r == Failed(Api.BadParam)
    ensures req.id.Some? ==>
              var id := req.id.value;
              && (FetchFault in env.faults ==> r == Failed(Api.FetchFailed))
              && (FetchFault !in env.faults && id !in w.shares ==> r == Failed(RecordNotFound))
              && (Api.Found(w, id, env) && w.shares[id].isTemporary ==> r == Failed(Api.NotFinalized))
              && (Api.Found(w, id, env) && !w.shares[id].isTemporary ==>
                    var g := PasswordGate(req.authorization, w.shares[id]);
                    && (g.Some? ==> r == Failed(g.value))
                    && (g.None? ==> r == Sent(ShareBody(Database.AfterFind(w.shares[id]), FilesOf(w, id)), env.faults)))
    ensures r.Failed? ==> r.err.cause.Some?
  {
    if req.id.None? then Failed(Api.BadParam)
    else
      var id := req.id.value;
      if FetchFault in env.faults then Failed(Api.FetchFailed)
      else if id !in w.shares then Failed(RecordNotFound)
      else
        var sh := w.shares[id];
        if sh.isTemporary then Failed(Api.NotFinalized)
        else
          var g := PasswordGate(req.authorization, sh);
          if g.Some? then Failed(g.value)
          else Sent(ShareBody(Database.AfterFind(sh), FilesOf(w, id)), env.faults)
  }

  /** GetShare is RetrieveShare with attachments followed by the password gate and the reply. */
  lemma GetShareRetrieves(w: World, req: Request, env: Env)
    requires req.id.Some?
    ensures var got := RetrieveShare(w, req.id.value, true, env);
            && (got.Refused? ==> GetShare(w, req, env) == Failed(got.err))
            && (got.Got? && PasswordGate(req.authorization, w.shares[req.id.value]).Some? ==>
                  GetShare(w, req, env) == Failed(PasswordGate(req.authorization, w.shares[req.id.value]).value))
            && (got.Got? && PasswordGate(req.authorization, w.shares[req.id.value]).None? ==>
                  GetShare(w, req, env) == Sent(ShareBody(got.share, got.files), env.faults))
  {
  }

  /**
   * DownloadFile: 400 for a bad id, 500 when a query fails, 404 for an unknown
   * attachment or a missing share of it, then the password gate of the attachment's
   * share; past it data/<path id>/<attachment> is served (or is missing). The share's
   * state and the path's share id are never compared with the attachment's.
   */
  function DownloadFile(w: World, req: Request, env: Env): (r: Reply)
    ensures req.id.None? || req.att.None? ==> r == Failed(Api.BadParam)
    ensures req.id.Some? && req.att.Some? ==>
              var sid, aid := req.id.value, req.att.value;
              && (FetchFault in env.faults ==> r == Failed(Api.FetchFailed))
              && (FetchFault !in env.faults && aid !in w.attachments ==> r == Failed(RecordNotFound))
              && (FetchFault !in env.faults && aid in w.attachments && w.attachments[aid].shareId !in w.shares ==>
                    r == Failed(RecordNotFound))
              && (FetchFault !in env.faults && aid in w.attachments && w.attachments[aid].shareId in w.shares ==>
                    var g := PasswordGate(req.authorization, w.shares[w.attachments[aid].shareId]);
                    && (g.Some? ==> r == Failed(g.value))
                    && (g.None? && sid in w.data && aid in w.data[sid] ==>
                          r == Done(FileBody(w.attachments[aid].filename, w.data[sid][aid])))
                    && (g.None? && !(sid in w.data && aid in w.data[sid]) ==> r == Done(FileMissing)))
    ensures r.Failed? ==> r.err.cause.Some?
  {
    if req.id.None? || req.att.None? then Failed(Api.BadParam)
    else
      var sid, aid := req.id.value, req.att.value;
      if FetchFault in env.faults then Failed(Api.FetchFailed)
      else if aid !in w.attachments then Failed(RecordNotFound)
      else
        var att := w.attachments[aid];
        if att.shareId !in w.shares then Failed(RecordNotFound)
        else
          var g := PasswordGate(req.authorization, w.shares[att.shareId]);
          if g.Some? then Failed(g.value)
          else if sid in w.data && aid in w.data[sid] then Done(FileBody(att.filename, w.data[sid][aid]))
          else Done(FileMissing)
  }

  /**
   * An attachment of an unprotected share is served even while the share is open:
   * this revision has no 403 for downloads, whatever share id the path names.
   */
  lemma OpenShareDownloadable(w: World, req: Request, env: Env)
    requires req.id.Some? && req.att.Some? && FetchFault !in env.faults
    requires req.att.value in w.attachments && w.attachments[req.att.value].shareId in w.shares
    requires !HasPassword(w.shares[w.attachments[req.att.value].shareId])
    ensures DownloadFile(w, req, env).Done?
    ensures Api.DownloadFile(w, req, env).Done? ==> DownloadFile(w, req, env) == Api.DownloadFile(w, req, env)
  {
  }

  /** The share OpenShare stores: the body's keys over a zero share, always open. */
  function Opened(j: ShareJson): (sh: Share)
    ensures sh.isTemporary && HomeRoot(sh) == Temp && sh.password.None?
    ensures sh.(isTemporary := false) == MergeLegacy(j, ZeroShare)
  {
    MergeLegacy(j, ZeroShare).(isTemporary := true)
  }

  /**
   * OpenShare: a body that cannot be read or parsed is a 400 and changes nothing;
   * otherwise the share is created open and without attachments and sent back
   * without its password, or creation fails with a 500 and no row is added.
   */
  method OpenShare(st: Store, req: Request, env: Env) returns (r: Reply)
    modifies st
    ensures req.body == Unreadable ==> r == Failed(Api.UnreadableBody) && st.State() == old(st.State())
    ensures req.body == Malformed ==> r == Failed(Api.UnparsableBody) && st.State() == old(st.State())
    ensures req.body.Json? ==>
              var sh := Opened(req.body.share);
              var created := Models.FreshId(sh.id, env).Some? && Models.FreshId(sh.id, env).value !in old(st.shares);
              && (created ==>
                    var row := Database.Prepared(sh, env);
                    && row.isTemporary && st.shares == old(st.shares)[row.id := row]
                    && r == Sent(ShareBody(row, {}), env.faults))
              && (!created ==> r.Failed? && r.err.message == CreateFailed && r.err.code == 500 && st.shares == old(st.shares))
              && st.attachments == old(st.attachments) && st.jobs == old(st.jobs)
              && (Models.DirMade(sh, env) ==> st.temp == EnsureDir(old(st.State()), Temp, Models.FreshId(sh.id, env).value).temp)
              && (!Models.DirMade(sh, env) ==> st.temp == old(st.temp))
              && st.data == old(st.data)
    ensures r.Failed? ==> r.err.cause.Some?
    ensures r.Done? ==> Output.NoSecrets(r.body)
    ensures Valid(old(st.State())) && (req.body.Json? ==> Models.DirMade(Opened(req.body.share), env)) ==>
              Valid(st.State())
    ensures Exclusive(old(st.State())) ==>
              (Exclusive(st.State()) <==>
                 !(req.body.Json? && Models.DirMade(Opened(req.body.share), env)
                   && Models.FreshId(Opened(req.body.share).id, env).value in old(st.data)))
  {
    ghost var w := st.State();
    match req.body {
      case Unreadable =>
        return Failed(Api.UnreadableBody);
      case Malformed =>
        return Failed(Api.UnparsableBody);
      case Json(j) =>
        if Exclusive(w) && Models.DirMade(Opened(j), env) {
          DirsExclusive(w, Models.FreshId(Opened(j).id, env).value, NilUuid, []);
        }
        var sh, err := Database.CreateShare(st, Opened(j), env);
        if err.Some? {
          return Failed(HttpError(err, CreateFailed, 500));
        }
        r := Sent(ShareBody(sh, {}), env.faults);
    }
  }

  /**
   * The world after this revision closes a share: its directory moved to data/ and
   * the row as read (e-mails split back) saved with the flag cleared.
   */
  function Closed(w: World, id: Uuid): (r: World)
    requires id in w.shares && id in w.temp
    ensures id in r.shares && !r.shares[id].isTemporary && id in r.data && id !in r.temp
    ensures r.attachments == w.attachments && r.jobs == w.jobs
  {
    Move(w, id).(shares := w.shares[id := Database.AfterFind(w.shares[id]).(isTemporary := false)])
  }

  /** Closing an open share keeps a consistent world consistent. */
  lemma ClosedValid(w: World, id: Uuid)
    requires Valid(w) && id in w.shares && w.shares[id].isTemporary
    ensures id in w.temp && Valid(Closed(w, id))
  {
    FinalizeValid(w, id);
    var f := Move(w, id).(shares := w.shares[id := w.shares[id].(isTemporary := false)]);
    ReplaceShareValid(f, Database.AfterFind(w.shares[id]).(isTemporary := false));
    assert f.(shares := f.shares[id := Database.AfterFind(w.shares[id]).(isTemporary := false)]) == Closed(w, id);
  }

  /** Once closed, a share cannot be closed again: the rename has no temp/<id> to move. */
  lemma CloseTwiceFails(w: World, id: Uuid, env: Env)
    requires id in w.shares && id in w.temp
    ensures !Api.CanMove(Closed(w, id), id, env)
  {
  }

  /**
   * CloseShare: 400, 500 or 404 as the lookup goes; then, finalized or not, the
   * rename of temp/<id> to data/<id> (a failure is a 500 and nothing changes), the
   * save of the cleared flag (a failure is a 500 with the directory moved), and the
   * share sent back without its password.
   */
  method CloseShare(st: Store, req: Request, env: Env) returns (r: Reply)
    requires Keyed(st.State())
    modifies st
    ensures Keyed(st.State())
    ensures req.id.None? ==> r == Failed(Api.BadParam) && st.State() == old(st.State())
    ensures req.id.Some? ==>
              var id, w := req.id.value, old(st.State());
              && (FetchFault in env.faults ==> r == Failed(Api.FetchFailed) && st.State() == w)
              && (FetchFault !in env.faults && id !in w.shares ==> r == Failed(RecordNotFound) && st.State() == w)
              && (Api.Found(w, id, env) && !Api.CanMove(w, id, env) ==> r == Failed(Api.MoveFailed) && st.State() == w)
              && (Api.Found(w, id, env) && Api.CanMove(w, id, env) && SaveFault(id) in env.faults ==>
                    r == Failed(Api.EditFailed) && st.State() == Move(w, id))
              && (Api.Found(w, id, env) && Api.CanMove(w, id, env) && SaveFault(id) !in env.faults ==>
                    st.State() == Closed(w, id) && r == Sent(ShareBody(Closed(w, id).shares[id], {}), env.faults))
    ensures r.Failed? ==> r.err.cause.Some?
    ensures r.Done? ==> Output.NoSecrets(r.body)
    ensures Valid(old(st.State())) && r != Failed(Api.EditFailed) ==> Valid(st.State())
    ensures Exclusive(old(st.State())) ==> Exclusive(st.State())
  {
    if req.id.None? {
      return Failed(Api.BadParam);
    }
    var id := req.id.value;
    if FetchFault in env.faults {
      return Failed(Api.FetchFailed);
    }
    if id !in st.shares {
      return Failed(RecordNotFound);
    }
    ghost var w := st.State();
    var sh := Database.AfterFind(st.shares[id]);
    var moved := st.Rename(id, env);
    if !moved {
      return Failed(Api.MoveFailed);
    }
    sh := sh.(isTemporary := false);
    var saved := st.SaveShare(sh, env);
    if !saved {
      return Failed(Api.EditFailed);
    }
    assert st.State() == Closed(w, id);
    if Valid(w) && w.shares[id].isTemporary {
      ClosedValid(w, id);
    }
    r := Sent(ShareBody(sh, {}), env.faults);
  }

  /**
   * No reply of this revision carries a password: a protected share read past the
   * gate keeps its plain text in the row, and the reply's share has none.
   */
  lemma PasswordNeverSent(w: World, req: Request, env: Env)
    ensures GetShare(w, req, env).Done? ==> Output.NoSecrets(GetShare(w, req, env).body)
    ensures DownloadFile(w, req, env).Done? ==> Output.NoSecrets(DownloadFile(w, req, env).body)
    ensures GetShare(w, req, env).Done? ==>
              && req.id.Some? && req.id.value in w.shares
              && GetShare(w, req, env).body == ShareBody(Encoded(Database.AfterFind(w.shares[req.id.value])), FilesOf(w, req.id.value))
              && GetShare(w, req, env).body.share.password.None?
  {
  }

  /** Every error the read-only handlers of this revision return is answered, never a crash. */
  lemma NeverCrashes(w: World, req: Request, env: Env)
    ensures Api.ServeHttpAsWritten(GetShare(w, req, env)).Response?
    ensures Api.ServeHttpAsWritten(DownloadFile(w, req, env)).Response?
    ensures GetShare(w, req, env).Failed? ==> Api.ServeHttpAsWritten(GetShare(w, req, env)) == Api.ServeHttp(GetShare(w, req, env))
  {
  }
}
