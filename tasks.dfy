/**
 * The background tasks of the current revision: their constructors (a kind
 * and a payload naming the share), the handler that deletes one share by id, and
 * the sweep that deletes every open (temporary) share.
 */
module Tasks {
  import opened Wrappers
  import opened Domain
  import opened Store
  import Models

  const DeleteShareKind := "share:delete"
  const ShareEmailKind := "email:share"
  const ContinuousDeleteKind := "continuous:delete"

  /** asynq's Payload.GetString("share_id"): the value, or None when the key is missing. */
  function ShareIdOf(t: Task): (r: Option<string>)
    ensures r.Some? <==> "share_id" in t.payload
    ensures r.Some? ==> r.value == t.payload["share_id"]
  {
    if "share_id" in t.payload then Some(t.payload["share_id"]) else None
  }

  /** NewShareEmailTask: kind "email:share", a payload holding only the share's id text. */
  function NewShareEmailTask(sh: Share): (t: Task)
    ensures t.kind == ShareEmailKind && t.payload.Keys == {"share_id"}
    ensures ShareIdOf(t) == Some(sh.id.text)
  {
    Task(ShareEmailKind, map["share_id" := sh.id.text])
  }

  /** NewDeleteShareTask: kind "share:delete", a payload holding only the share's id text. */
  function NewDeleteShareTask(sh: Share): (t: Task)
    ensures t.kind == DeleteShareKind && t.payload.Keys == {"share_id"}
    ensures ShareIdOf(t) == Some(sh.id.text)
  {
    Task(DeleteShareKind, map["share_id" := sh.id.text])
  }

  /** NewContinuousDeleteTask: kind "continuous:delete" with an empty payload. */
  function NewContinuousDeleteTask(): (t: Task)
    ensures t.kind == ContinuousDeleteKind && ShareIdOf(t).None?
  {
    Task(ContinuousDeleteKind, map[])
  }

  /** Two delete tasks are the same task exactly when they name the same share. */
  lemma DeleteTaskNamesShare(a: Share, b: Share)
    ensures NewDeleteShareTask(a) == NewDeleteShareTask(b) <==> a.id == b.id
  {
    if NewDeleteShareTask(a) == NewDeleteShareTask(b) {
      assert ShareIdOf(NewDeleteShareTask(a)) == ShareIdOf(NewDeleteShareTask(b));
      assert a.id.text == b.id.text;
    }
  }

  const MissingShareId := "payload: key \"share_id\" does not exist"

  /**
   * HandleDeleteShareTask: without a "share_id" it fails and nothing changes;
   * otherwise the share row with that id and its attachment rows are deleted
   * (a missing row is no error) and the directories are left as they are.
   */
  method HandleDeleteShareTask(st: Store, t: Task) returns (err: Option<string>)
    modifies st
    ensures ShareIdOf(t).None? ==> err == Some(MissingShareId) && st.State() == old(st.State())
    ensures ShareIdOf(t).Some? ==> err.None? && st.State() == Cascade(old(st.State()), Uuid(ShareIdOf(t).value))
    ensures Valid(old(st.State())) ==> Valid(st.State())
    ensures Exclusive(old(st.State())) ==> Exclusive(st.State())
  {
    var id := ShareIdOf(t);
    if id.None? {
      return Some(MissingShareId);
    }
    ghost var w := st.State();
    st.DeleteShareRow(Uuid(id.value));
    if Valid(w) {
      CascadeValid(w, Uuid(id.value));
    }
    err := None;
  }

  const FetchError := "database query failed"

  /**
   * HandleContinuousDeleteTask: fetch every share and delete (with its hook) each
   * one that is still temporary, whatever its age, stopping at the first failure.
   * Only temporary shares are ever deleted, their attachment rows with them; a
   * finalized share, its attachments and data/ are untouched; and after a full run
   * no temporary share is left.
   */
  method HandleContinuousDeleteTask(st: Store, env: Env) returns (err: Option<string>, ghost rows: seq<Share>)
    requires Keyed(st.State())
    modifies st
    ensures FetchFault in env.faults ==> err == Some(FetchError) && st.State() == old(st.State())
    ensures FetchFault !in env.faults ==>
              && (forall i :: 0 <= i < |rows| ==> rows[i].id in old(st.shares) && old(st.shares)[rows[i].id] == rows[i])
              && (forall k :: k in old(st.shares) ==> old(st.shares)[k] in rows)
              && (forall i, j :: 0 <= i < j < |rows| ==> rows[i].id != rows[j].id)
    ensures FetchFault !in env.faults && err.Some? ==>
              && err == Some(Models.RemoveError)
              && exists i :: 0 <= i < |rows| && rows[i].isTemporary && RemoveAllFault(Temp, rows[i].id) in env.faults
                             && (forall j :: 0 <= j < i && rows[j].isTemporary ==> rows[j].id !in st.shares)
                             && (forall j :: i <= j < |rows| ==> rows[j].id in st.shares)
    ensures FetchFault !in env.faults && err.None? ==>
              forall i :: 0 <= i < |rows| && rows[i].isTemporary ==> RemoveAllFault(Temp, rows[i].id) !in env.faults
    ensures forall k :: k in st.shares ==> k in old(st.shares) && st.shares[k] == old(st.shares)[k]
    ensures forall k :: k in old(st.shares) && k !in st.shares ==> old(st.shares)[k].isTemporary
    ensures forall k :: k in old(st.shares) && !old(st.shares)[k].isTemporary ==> k in st.shares
    ensures err.None? ==> forall k :: k in st.shares ==> !st.shares[k].isTemporary
    ensures forall k :: k in st.attachments ==> k in old(st.attachments) && st.attachments[k] == old(st.attachments)[k]
    ensures forall k :: k in old(st.attachments) && old(st.attachments)[k].shareId in st.shares ==> k in st.attachments
    ensures st.data == old(st.data) && st.jobs == old(st.jobs)
    ensures forall k :: k in st.temp ==> k in old(st.temp) && st.temp[k] == old(st.temp)[k]
    ensures Valid(old(st.State())) ==> Valid(st.State())
    ensures Exclusive(old(st.State())) ==> Exclusive(st.State())
  {
    rows := [];
    if FetchFault in env.faults {
      return Some(FetchError), rows;
    }
    ghost var w := st.State();
    var found := st.Find(sh => true);
    rows := found;
    ghost var stop;
    err, stop := DeleteTemporary(st, found, env);
    if err.Some? {
      assert 0 <= stop < |rows| && rows[stop].isTemporary && RemoveAllFault(Temp, rows[stop].id) in env.faults;
      return;
    }
    forall k | k in st.shares ensures !st.shares[k].isTemporary {
      var j :| 0 <= j < |rows| && rows[j] == w.shares[k];
      assert rows[j].id == k;
    }
  }

  /**
   * The loop of HandleContinuousDeleteTask over the fetched rows: each temporary
   * row is deleted with its hook, in order, and the first failure stops the loop
   * and is returned. `stop` is the index of the row that failed, or the number of
   * rows when none did: every temporary row before it is gone, and every row from
   * it on is still there.
   */
  method DeleteTemporary(st: Store, rows: seq<Share>, env: Env) returns (err: Option<string>, ghost stop: int)
    requires Keyed(st.State())
    requires forall i :: 0 <= i < |rows| ==> rows[i].id in st.shares && st.shares[rows[i].id] == rows[i]
    requires forall i, j :: 0 <= i < j < |rows| ==> rows[i].id != rows[j].id
    modifies st
    ensures Keyed(st.State())
    ensures forall k :: k in st.shares ==> k in old(st.shares) && st.shares[k] == old(st.shares)[k]
    ensures forall k :: k in old(st.shares) && k !in st.shares ==> old(st.shares)[k].isTemporary
    ensures forall k :: k in st.attachments ==> k in old(st.attachments) && st.attachments[k] == old(st.attachments)[k]
    ensures forall k :: k in old(st.attachments) && old(st.attachments)[k].shareId in st.shares ==> k in st.attachments
    ensures st.data == old(st.data) && st.jobs == old(st.jobs)
    ensures forall k :: k in st.temp ==> k in old(st.temp) && st.temp[k] == old(st.temp)[k]
    ensures Valid(old(st.State())) ==> Valid(st.State())
    ensures Exclusive(old(st.State())) ==> Exclusive(st.State())
    ensures err.None? ==> stop == |rows|
    ensures err.Some? ==>
              && err == Some(Models.RemoveError) && 0 <= stop < |rows|
              && rows[stop].isTemporary && RemoveAllFault(Temp, rows[stop].id) in env.faults
    ensures forall j :: 0 <= j < stop && rows[j].isTemporary ==>
              rows[j].id !in st.shares && RemoveAllFault(Temp, rows[j].id) !in env.faults
    ensures forall j :: stop <= j < |rows| ==> rows[j].id in st.shares
  {
    ghost var w := st.State();
    var i := 0;
    while i < |rows|
      invariant 0 <= i <= |rows|
      invariant Keyed(st.State())
      invariant forall k :: k in st.shares ==> k in w.shares && st.shares[k] == w.shares[k]
      invariant forall k :: k in w.shares && k !in st.shares ==> w.shares[k].isTemporary
      invariant forall j :: 0 <= j < i && rows[j].isTemporary ==>
                  rows[j].id !in st.shares && RemoveAllFault(Temp, rows[j].id) !in env.faults
      invariant forall j :: i <= j < |rows| ==> rows[j].id in st.shares
      invariant forall k :: k in st.attachments ==> k in w.attachments && st.attachments[k] == w.attachments[k]
      invariant forall k :: k in w.attachments && w.attachments[k].shareId in st.shares ==> k in st.attachments
      invariant st.data == w.data && st.jobs == w.jobs
      invariant forall k :: k in st.temp ==> k in w.temp && st.temp[k] == w.temp[k]
      invariant Valid(w) ==> Valid(st.State())
      invariant Exclusive(w) ==> Exclusive(st.State())
    {
      var sh := rows[i];
      if sh.isTemporary {
        assert HomeRoot(sh) == Temp;
        err := Models.DeleteShare(st, sh, env);
        if err.Some? {
          return err, i;
        }
      }
      i := i + 1;
    }
    return None, i;
  }
}
