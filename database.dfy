/**
 * The persistence hooks of the earlier revision: the e-mail list kept as one
 * ';'-separated column, a share's directory made on create (a failure swallowed)
 * and removed on delete only once finalized, and the choice of driver from the
 * scheme of DATABASE_URI. Its attachment hooks have the same effect as the
 * current ones and are Models.CreateAttachment and Models.DeleteAttachment.
 */
module Database {
  import opened Wrappers
  import opened Strings
  import opened Domain
  import opened Store
  import opened Models

  /** Share.AfterFind: the e-mail list read back from the stored column. */
  function AfterFind(sh: Share): (r: Share)
    ensures r.emails == Split(sh.emailsDb, ';') && |r.emails| >= 1
    ensures r.(emails := sh.emails) == sh
  {
    sh.(emails := Split(sh.emailsDb, ';'))
  }

  /**
   * The row the earlier Share.BeforeCreate leaves to insert: the settled id and,
   * unless making the directory failed (which returns nil early), the e-mails
   * joined with ';'.
   */
  function Prepared(sh: Share, env: Env): (r: Share)
    requires FreshId(sh.id, env).Some?
    ensures r.id == FreshId(sh.id, env).value && r.isTemporary == sh.isTemporary && r.password == sh.password
    ensures DirMade(sh, env) ==> r.emailsDb == Join(sh.emails, ';')
    ensures !DirMade(sh, env) ==> r.emailsDb == sh.emailsDb
  {
    var s := sh.(id := FreshId(sh.id, env).value);
    if DirMade(sh, env) then s.(emailsDb := Join(sh.emails, ';')) else s
  }

  /**
   * Share.BeforeCreate of the earlier revision: a random-generator failure is
   * returned; a failure to make the directory is swallowed (nil is returned before
   * the e-mails are joined); the password is left as it is.
   */
  method ShareBeforeCreate(st: Store, sh: Share, env: Env) returns (out: Share, h: Hook)
    modifies st
    ensures FreshId(sh.id, env).None? ==> h == Abort(RandomError) && st.State() == old(st.State())
    ensures FreshId(sh.id, env).Some? ==> h == Proceed && out == Prepared(sh, env)
    ensures DirMade(sh, env) ==> st.State() == EnsureDir(old(st.State()), HomeRoot(sh), FreshId(sh.id, env).value)
    ensures !DirMade(sh, env) ==> st.State() == old(st.State())
  {
    out := sh;
    if sh.id == NilUuid {
      if env.random.None? {
        return out, Abort(RandomError);
      }
      out := out.(id := env.random.value);
    }
    var made := st.MkdirAll(HomeRoot(out), out.id, env);
    if made {
      out := out.(emailsDb := Join(out.emails, ';'));
    }
    h := Proceed;
  }

  /**
   * db.Create of a share in the earlier revision: the hook, then the insert. A row
   * may be inserted without its directory when making it failed.
   */
  method CreateShare(st: Store, sh: Share, env: Env) returns (out: Share, err: Option<string>)
    modifies st
    ensures err.None? <==> FreshId(sh.id, env).Some? && FreshId(sh.id, env).value !in old(st.shares)
    ensures err.None? ==>
              && out == Prepared(sh, env)
              && st.shares == old(st.shares)[out.id := out]
              && st.attachments == old(st.attachments) && st.jobs == old(st.jobs)
    ensures DirMade(sh, env) ==> st.temp == EnsureDir(old(st.State()), HomeRoot(sh), FreshId(sh.id, env).value).temp
    ensures DirMade(sh, env) ==> st.data == EnsureDir(old(st.State()), HomeRoot(sh), FreshId(sh.id, env).value).data
    ensures !DirMade(sh, env) ==> st.temp == old(st.temp) && st.data == old(st.data)
    ensures err.Some? ==> st.shares == old(st.shares) && st.attachments == old(st.attachments) && st.jobs == old(st.jobs)
    ensures Valid(old(st.State())) && (err.Some? || DirMade(sh, env)) ==> Valid(st.State())
  {
    var h;
    out, h := ShareBeforeCreate(st, sh, env);
    ghost var w := st.State();
    if Valid(old(st.State())) && DirMade(sh, env) {
      EnsureDirValid(old(st.State()), HomeRoot(sh), FreshId(sh.id, env).value);
    }
    if h != Proceed {
      return out, Some(RandomError);
    }
    var ok := st.InsertShare(out);
    if !ok {
      return out, Some(DuplicateKey);
    }
    err := None;
    if Valid(old(st.State())) && DirMade(sh, env) {
      InsertShareValid(w, out);
    }
  }

  /** A row created with its directory reads back with the e-mails it was given. */
  lemma {:induction false} EmailsRoundTrip(sh: Share, env: Env)
    requires DirMade(sh, env) && |sh.emails| >= 1 && Separable(sh.emails, ';')
    ensures AfterFind(Prepared(sh, env)).emails == sh.emails
  {
    SplitJoin(sh.emails, ';');
  }

  /** An empty e-mail list reads back as the list of one empty address. */
  lemma EmptyEmailsReadBack(sh: Share, env: Env)
    requires DirMade(sh, env) && sh.emails == []
    ensures AfterFind(Prepared(sh, env)).emails == [""]
  {
    SplitJoinEmpty(';');
  }

  /** When making the directory fails, the e-mails are lost: the empty column reads back as [""]. */
  lemma EmailsLostWithoutDirectory(sh: Share, env: Env)
    requires FreshId(sh.id, env).Some? && !DirMade(sh, env) && sh.emailsDb == ""
    ensures AfterFind(Prepared(sh, env)).emails == [""]
  {
    SplitJoinEmpty(';');
  }

  /**
   * Share.BeforeDelete of the earlier revision: a finalized share's data/<id> is
   * removed (a failure is returned); a temporary share's directory is left alone.
   */
  method ShareBeforeDelete(st: Store, sh: Share, env: Env) returns (h: Hook)
    modifies st
    ensures sh.isTemporary ==> h == Proceed && st.State() == old(st.State())
    ensures !sh.isTemporary ==>
              if RemoveAllFault(Data, sh.id) in env.faults then
                h == Abort(RemoveError) && st.State() == old(st.State())
              else
                h == Proceed && st.State() == DropDir(old(st.State()), Data, sh.id)
  {
    if sh.isTemporary {
      return Proceed;
    }
    var ok := st.RemoveAll(Data, sh.id, env);
    h := if ok then Proceed else Abort(RemoveError);
  }

  /** The drivers the earlier GetDatabase can open. */
  datatype Driver = Postgres | SqlServer | Sqlite

  /**
   * GetDatabase's dispatch on the text of DATABASE_URI before its first ':':
   * "postgres", "sqlserver", "sqlite" or "file"; anything else opens nothing
   * (and GetDatabase returns a nil database with a nil error).
   */
  function DriverFor(dsn: string): (d: Option<Driver>)
    ensures d == Some(Postgres) <==> BeforeFirst(dsn, ':') == "postgres"
    ensures d == Some(SqlServer) <==> BeforeFirst(dsn, ':') == "sqlserver"
    ensures d == Some(Sqlite) <==> BeforeFirst(dsn, ':') in {"sqlite", "file"}
  {
    var scheme := BeforeFirst(dsn, ':');
    if scheme == "postgres" then Some(Postgres)
    else if scheme == "sqlserver" then Some(SqlServer)
    else if scheme == "sqlite" || scheme == "file" then Some(Sqlite)
    else None
  }

  /** The text before the first ':' of a scheme, a ':' and anything is the scheme. */
  lemma {:induction false} BeforeFirstScheme(scheme: string, rest: string)
    requires ':' !in scheme
    ensures BeforeFirst(scheme + ":" + rest, ':') == scheme
  {
    var s := scheme + ":" + rest;
    assert s[|scheme|] == ':';
    assert forall k :: 0 <= k < |scheme| ==> s[k] == scheme[k];
  }

  /** Only the scheme decides the driver: what follows the first ':' plays no part. */
  lemma DriverByScheme(scheme: string, rest: string)
    requires ':' !in scheme
    ensures DriverFor(scheme + ":" + rest) == DriverFor(scheme)
  {
    BeforeFirstScheme(scheme, rest);
    assert BeforeFirst(scheme, ':') == scheme;
  }
}
