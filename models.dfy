/**
 * The persistence hooks of the current revision and the gorm operations that run
 * them: Create runs BeforeCreate and then inserts the row, Delete runs BeforeDelete
 * and then deletes the row (the attachment rows of a share go with it).
 */
module Models {
  import opened Wrappers
  import opened Domain
  import opened Store

  /**
   * The outcome of a hook: go on, return an error, or call tx.Rollback() and
   * return nil — after which the statement itself fails, because the transaction
   * it runs in is gone.
   */
  datatype Hook = Proceed | Abort(err: string) | RolledBack

  const RandomError := "uuid: random source failed"
  const HashError := "bcrypt: hashing failed"
  const RolledBackError := "sql: transaction has already been committed or rolled back"
  const DuplicateKey := "duplicate key value violates unique constraint"
  const RemoveError := "remove: operation failed"

  /** The id a creation hook settles on: the all-zero UUID is replaced by a random one. */
  function FreshId(id: Uuid, env: Env): (r: Option<Uuid>)
    ensures id != NilUuid ==> r == Some(id)
    ensures id == NilUuid ==> r == env.random
    ensures GoodRandom(env) && r.Some? ==> r.value != NilUuid
  {
    if id == NilUuid then env.random else Some(id)
  }

  /** Whether hashing the share's present password fails. */
  predicate HashFails(sh: Share, h: Hasher) {
    sh.password.Some? && h.generate(sh.password.value).None?
  }

  /** The share with a present password replaced by its hash. */
  function Hashed(sh: Share, h: Hasher): (r: Share)
    requires !HashFails(sh, h)
    ensures sh.password.None? ==> r == sh
    ensures sh.password.Some? ==> r.password == h.generate(sh.password.value)
    ensures r.(password := sh.password) == sh
  {
    if sh.password.Some? then sh.(password := h.generate(sh.password.value)) else sh
  }

  /** A present password is stored so that its own plaintext unlocks it. */
  lemma HashedUnlocks(sh: Share, h: Hasher)
    requires !HashFails(sh, h) && sh.password.Some? && Sound(h)
    ensures Hashed(sh, h).password.Some?
    ensures h.compare(Hashed(sh, h).password.value, sh.password.value)
  {
  }

  /**
   * Share.BeforeCreate: settle the id, make the share's directory under temp/ or
   * data/ as its flag says (a failure rolls back and returns nil), then hash a
   * present password (a failure is returned).
   */
  method ShareBeforeCreate(st: Store, sh: Share, env: Env) returns (out: Share, h: Hook)
    modifies st
    ensures FreshId(sh.id, env).None? ==> h == Abort(RandomError) && st.State() == old(st.State())
    ensures FreshId(sh.id, env).Some? ==>
              var id := FreshId(sh.id, env).value;
              if MkdirFault(HomeRoot(sh), id) in env.faults then
                h == RolledBack && st.State() == old(st.State())
              else
                && st.State() == EnsureDir(old(st.State()), HomeRoot(sh), id)
                && (HashFails(sh, env.hasher) ==> h == Abort(HashError))
                && (!HashFails(sh, env.hasher) ==> h == Proceed && out == Hashed(sh, env.hasher).(id := id))
  {
    out := sh;
    var id := FreshId(sh.id, env);
    if id.None? {
      return out, Abort(RandomError);
    }
    out := out.(id := id.value);
    var made := st.MkdirAll(HomeRoot(out), out.id, env);
    if !made {
      return out, RolledBack;
    }
    if out.password.Some? {
      var hash := env.hasher.generate(out.password.value);
      if hash.None? {
        return out, Abort(HashError);
      }
      out := out.(password := hash);
    }
    h := Proceed;
  }

  /** Whether the directory step of Share.BeforeCreate runs and succeeds. */
  predicate DirMade(sh: Share, env: Env) {
    FreshId(sh.id, env).Some? && MkdirFault(HomeRoot(sh), FreshId(sh.id, env).value) !in env.faults
  }

  /** Whether db.Create of the share succeeds on a world. */
  predicate CreateSucceeds(w: World, sh: Share, env: Env) {
    DirMade(sh, env) && !HashFails(sh, env.hasher) && FreshId(sh.id, env).value !in w.shares
  }

  /** The row db.Create stores: the share under its settled id, its password hashed. */
  function Created(sh: Share, env: Env): (r: Share)
    requires DirMade(sh, env) && !HashFails(sh, env.hasher)
    ensures r.id == FreshId(sh.id, env).value && r.isTemporary == sh.isTemporary
    ensures sh.password.None? ==> r.password.None?
    ensures sh.password.Some? ==> r.password == env.hasher.generate(sh.password.value)
    ensures r.(id := sh.id, password := sh.password) == sh
  {
    Hashed(sh, env.hasher).(id := FreshId(sh.id, env).value)
  }

  /**
   * db.Create of a share: the hook, then the insert. On success the stored row is the
   * share under its settled id with its password hashed, and its directory exists;
   * on failure no row is added, but a directory the hook made stays.
   */
  method CreateShare(st: Store, sh: Share, env: Env) returns (out: Share, err: Option<string>)
    modifies st
    ensures err.None? <==> CreateSucceeds(old(st.State()), sh, env)
    ensures err.None? ==>
              && out == Created(sh, env)
              && st.State() == EnsureDir(old(st.State()), HomeRoot(sh), out.id).(shares := old(st.shares)[out.id := out])
    ensures err.Some? && DirMade(sh, env) ==> st.State() == EnsureDir(old(st.State()), HomeRoot(sh), FreshId(sh.id, env).value)
    ensures err.Some? && !DirMade(sh, env) ==> st.State() == old(st.State())
    ensures Valid(old(st.State())) ==> Valid(st.State())
  {
    var h;
    out, h := ShareBeforeCreate(st, sh, env);
    ghost var w := st.State();
    if Valid(old(st.State())) && DirMade(sh, env) {
      EnsureDirValid(old(st.State()), HomeRoot(sh), FreshId(sh.id, env).value);
    }
    match h {
      case Abort(e) =>
        err := Some(e);
      case RolledBack =>
        err := Some(RolledBackError);
      case Proceed =>
        var ok := st.InsertShare(out);
        if ok {
          err := None;
          if Valid(old(st.State())) {
            InsertShareValid(w, out);
          }
        } else {
          err := Some(DuplicateKey);
        }
    }
  }

  /**
   * Share.BeforeDelete: remove the share's directory, under temp/ while it is open
   * and under data/ once finalized; a failure rolls back and is returned.
   */
  method ShareBeforeDelete(st: Store, sh: Share, env: Env) returns (h: Hook)
    modifies st
    ensures h == Proceed || h == Abort(RemoveError)
    ensures h == Proceed <==> RemoveAllFault(HomeRoot(sh), sh.id) !in env.faults
    ensures h == Proceed ==> st.State() == DropDir(old(st.State()), HomeRoot(sh), sh.id)
    ensures h != Proceed ==> st.State() == old(st.State())
  {
    var ok := st.RemoveAll(HomeRoot(sh), sh.id, env);
    h := if ok then Proceed else Abort(RemoveError);
  }

  /**
   * db.Delete of a share: the hook, then the row with its attachment rows. A stored
   * share deleted this way takes its directory with it, so the world stays consistent.
   */
  method DeleteShare(st: Store, sh: Share, env: Env) returns (err: Option<string>)
    modifies st
    ensures err.None? <==> RemoveAllFault(HomeRoot(sh), sh.id) !in env.faults
    ensures err.None? ==> st.State() == Cascade(DropDir(old(st.State()), HomeRoot(sh), sh.id), sh.id)
    ensures err.Some? ==> err == Some(RemoveError) && st.State() == old(st.State())
    ensures Valid(old(st.State())) && sh.id in old(st.shares) && old(st.shares)[sh.id] == sh ==> Valid(st.State())
  {
    var h := ShareBeforeDelete(st, sh, env);
    if h != Proceed {
      return Some(RemoveError);
    }
    st.DeleteShareRow(sh.id);
    err := None;
    if Valid(old(st.State())) && sh.id in old(st.shares) && old(st.shares)[sh.id] == sh {
      DeleteShareValid(old(st.State()), sh.id);
    }
  }

  /**
   * Attachment.BeforeCreate: settle the id; the random generator failing (which
   * rolls back and is returned) is its only failure.
   */
  method AttachmentBeforeCreate(att: Attachment, env: Env) returns (out: Attachment, h: Hook)
    ensures h == Proceed <==> FreshId(att.id, env).Some?
    ensures h != Proceed ==> h == Abort(RandomError) && out == att
    ensures h == Proceed ==> out == att.(id := FreshId(att.id, env).value)
  {
    out := att;
    if att.id == NilUuid {
      if env.random.None? {
        return out, Abort(RandomError);
      }
      out := out.(id := env.random.value);
    }
    h := Proceed;
  }

  /** db.Create of an attachment: the hook, then the insert. */
  method CreateAttachment(st: Store, att: Attachment, env: Env) returns (out: Attachment, err: Option<string>)
    modifies st
    ensures FreshId(att.id, env).None? ==> out == att
    ensures FreshId(att.id, env).Some? ==> out == att.(id := FreshId(att.id, env).value)
    ensures err.None? <==> FreshId(att.id, env).Some? && out.id !in old(st.attachments)
    ensures err.None? ==> st.State() == old(st.State()).(attachments := old(st.attachments)[out.id := out])
    ensures err.Some? ==> st.State() == old(st.State())
  {
    var h;
    out, h := AttachmentBeforeCreate(att, env);
    if h != Proceed {
      return out, Some(RandomError);
    }
    var ok := st.InsertAttachment(out);
    err := if ok then None else Some(DuplicateKey);
  }

  /**
   * Attachment.BeforeDelete: remove data/<share>/<id>, under data/ whatever the
   * share's state; a failure rolls back and is returned.
   */
  method AttachmentBeforeDelete(st: Store, att: Attachment, env: Env) returns (h: Hook)
    modifies st
    ensures h == Proceed || h == Abort(RemoveError)
    ensures h == Proceed <==>
              att.shareId in old(st.data) && att.id in old(st.data)[att.shareId] && RemoveFault(att.shareId, att.id) !in env.faults
    ensures h == Proceed ==> st.State() == DropFile(old(st.State()), Data, att.shareId, att.id)
    ensures h != Proceed ==> st.State() == old(st.State())
  {
    var ok := st.RemoveFile(att.shareId, att.id, env);
    h := if ok then Proceed else Abort(RemoveError);
  }

  /** db.Delete of an attachment: the hook, then the row. */
  method DeleteAttachment(st: Store, att: Attachment, env: Env) returns (err: Option<string>)
    modifies st
    ensures err.None? <==>
              att.shareId in old(st.data) && att.id in old(st.data)[att.shareId] && RemoveFault(att.shareId, att.id) !in env.faults
    ensures err.None? ==>
              st.State() == DropFile(old(st.State()), Data, att.shareId, att.id).(attachments := old(st.attachments) - {att.id})
    ensures err.Some? ==> st.State() == old(st.State())
    ensures Valid(old(st.State())) && att.id in old(st.attachments) && old(st.attachments)[att.id] == att ==> Valid(st.State())
  {
    var h := AttachmentBeforeDelete(st, att, env);
    if h != Proceed {
      return Some(RemoveError);
    }
    ghost var w := old(st.State());
    st.DeleteAttachmentRow(att.id);
    err := None;
    if Valid(w) && att.id in w.attachments && w.attachments[att.id] == att {
      DeleteAttachmentValid(w, att);
    }
  }
}
