/**
 * The state both revisions work on: the share and attachment tables, the two
 * directory roots `temp/` and `data/` under the media directory (each directory,
 * named by a share id, maps file names to contents), and the log of jobs handed to
 * the queue. The class Store holds that state and offers the primitive database,
 * filesystem and queue operations the handlers and hooks are built from.
 */
module Store {
  import opened Wrappers
  import opened Strings
  import opened Domain

  /** A share's directory: file name (an attachment id) to contents. */
  type Dir = map<Uuid, seq<Byte>>

  datatype World = World(
    shares: map<Uuid, Share>,
    attachments: map<Uuid, Attachment>,
    temp: map<Uuid, Dir>,
    data: map<Uuid, Dir>,
    jobs: seq<Job>)

  /** The directories under one root. */
  function Dirs(w: World, root: Root): map<Uuid, Dir> {
    if root == Temp then w.temp else w.data
  }

  /** The world with the directories under one root replaced. */
  function WithDirs(w: World, root: Root, d: map<Uuid, Dir>): (r: World)
    ensures Dirs(r, root) == d
    ensures root == Temp ==> r == w.(temp := d)
    ensures root == Data ==> r == w.(data := d)
  {
    if root == Temp then w.(temp := d) else w.(data := d)
  }

  /** os.MkdirAll(<root>/<id>): an existing directory keeps its files. */
  function EnsureDir(w: World, root: Root, id: Uuid): (r: World)
    ensures id in Dirs(r, root)
    ensures id in Dirs(w, root) ==> r == w
    ensures r.shares == w.shares && r.attachments == w.attachments && r.jobs == w.jobs
  {
    if id in Dirs(w, root) then w else WithDirs(w, root, Dirs(w, root)[id := map[]])
  }

  /** os.RemoveAll(<root>/<id>): gone, whether it was there or not. */
  function DropDir(w: World, root: Root, id: Uuid): (r: World)
    ensures id !in Dirs(r, root)
    ensures r.shares == w.shares && r.attachments == w.attachments && r.jobs == w.jobs
  {
    WithDirs(w, root, Dirs(w, root) - {id})
  }

  /** os.Rename(temp/<id>, data/<id>): the directory and its files move. */
  function Move(w: World, id: Uuid): (r: World)
    requires id in w.temp
    ensures id !in r.temp && id in r.data && r.data[id] == w.temp[id]
  {
    w.(temp := w.temp - {id}, data := w.data[id := w.temp[id]])
  }

  /** A share row deleted, with its attachment rows (ON DELETE CASCADE). */
  function Cascade(w: World, id: Uuid): (r: World)
    ensures id !in r.shares
    ensures forall k :: k in r.attachments ==> r.attachments[k].shareId != id
    ensures r.temp == w.temp && r.data == w.data && r.jobs == w.jobs
  {
    w.(shares := w.shares - {id},
       attachments := map k | k in w.attachments && w.attachments[k].shareId != id :: w.attachments[k])
  }

  /** The file <root>/<dir>/<name> written (created or overwritten). */
  function PutFile(w: World, root: Root, dir: Uuid, name: Uuid, content: seq<Byte>): (r: World)
    requires dir in Dirs(w, root)
    ensures dir in Dirs(r, root) && name in Dirs(r, root)[dir] && Dirs(r, root)[dir][name] == content
  {
    WithDirs(w, root, Dirs(w, root)[dir := Dirs(w, root)[dir][name := content]])
  }

  /** The file <root>/<dir>/<name> removed. */
  function DropFile(w: World, root: Root, dir: Uuid, name: Uuid): (r: World)
    requires dir in Dirs(w, root)
    ensures dir in Dirs(r, root) && name !in Dirs(r, root)[dir]
  {
    WithDirs(w, root, Dirs(w, root)[dir := Dirs(w, root)[dir] - {name}])
  }

  /** Every row is stored under its own primary key. */
  predicate Keyed(w: World) {
    && (forall k :: k in w.shares ==> w.shares[k].id == k)
    && (forall k :: k in w.attachments ==> w.attachments[k].id == k)
  }

  /** Every share's directory exists under the root its state calls for. */
  predicate Backed(w: World) {
    forall k :: k in w.shares ==> k in Dirs(w, HomeRoot(w.shares[k]))
  }

  /** The file of an attachment: in its share's current directory, named by its id. */
  predicate HasFile(w: World, a: Attachment) {
    && a.shareId in w.shares
    && a.shareId in Dirs(w, HomeRoot(w.shares[a.shareId]))
    && a.id in Dirs(w, HomeRoot(w.shares[a.shareId]))[a.shareId]
  }

  /** Every attachment belongs to a share and its bytes are where its share keeps them. */
  predicate Stored(w: World) {
    forall k :: k in w.attachments ==> HasFile(w, w.attachments[k])
  }

  /** The consistency the service maintains between its tables and its directories. */
  predicate Valid(w: World) {
    Keyed(w) && Backed(w) && Stored(w)
  }

  /**
   * No id has a directory under both roots. Together with Backed this makes a
   * stored share's state readable from the directories (HomeExclusive).
   */
  predicate Exclusive(w: World) {
    forall k :: k in w.temp ==> k !in w.data
  }

  /**
   * In a backed and exclusive world a share is open exactly when temp/<id> exists
   * and data/<id> does not, and finalized exactly when the reverse holds.
   */
  lemma HomeExclusive(w: World, k: Uuid)
    requires Backed(w) && Exclusive(w) && k in w.shares
    ensures w.shares[k].isTemporary <==> k in w.temp && k !in w.data
    ensures !w.shares[k].isTemporary <==> k in w.data && k !in w.temp
  {
    assert k in Dirs(w, HomeRoot(w.shares[k]));
  }

  /**
   * MkdirAll keeps the world exclusive exactly when the other root has no
   * directory of that id; Move, RemoveAll and file writes and removals always do.
   */
  lemma {:induction false} DirsExclusive(w: World, id: Uuid, name: Uuid, content: seq<Byte>)
    requires Exclusive(w)
    ensures Exclusive(EnsureDir(w, Temp, id)) <==> id !in w.data
    ensures Exclusive(EnsureDir(w, Data, id)) <==> id !in w.temp
    ensures id in w.temp ==> Exclusive(Move(w, id))
    ensures Exclusive(DropDir(w, Temp, id)) && Exclusive(DropDir(w, Data, id))
    ensures id in w.temp ==> Exclusive(PutFile(w, Temp, id, name, content)) && Exclusive(DropFile(w, Temp, id, name))
    ensures id in w.data ==> Exclusive(PutFile(w, Data, id, name, content)) && Exclusive(DropFile(w, Data, id, name))
  {
    if id in w.data {
      assert id in EnsureDir(w, Temp, id).temp;
    }
    if id in w.temp {
      assert id in EnsureDir(w, Data, id).data;
    }
  }

  /** The attachments of one share. */
  function FilesOf(w: World, id: Uuid): (r: set<Attachment>)
    ensures forall a :: a in r <==> a in w.attachments.Values && a.shareId == id
  {
    set a | a in w.attachments.Values && a.shareId == id
  }

  /** Creating a missing directory keeps the world consistent. */
  lemma EnsureDirValid(w: World, root: Root, id: Uuid)
    requires Valid(w)
    ensures Valid(EnsureDir(w, root, id))
  {
    var r := EnsureDir(w, root, id);
    forall k | k in w.attachments ensures HasFile(r, w.attachments[k]) {
      assert HasFile(w, w.attachments[k]);
    }
  }

  /** A new share row whose directory exists keeps the world consistent. */
  lemma InsertShareValid(w: World, sh: Share)
    requires Valid(w) && sh.id !in w.shares && sh.id in Dirs(w, HomeRoot(sh))
    ensures Valid(w.(shares := w.shares[sh.id := sh]))
  {
    var r := w.(shares := w.shares[sh.id := sh]);
    forall k | k in w.attachments ensures HasFile(r, w.attachments[k]) {
      assert HasFile(w, w.attachments[k]);
    }
  }

  /**
   * Finalizing an open share — its directory moved to data/ and its flag cleared —
   * keeps the world consistent: its files move with the directory.
   */
  lemma FinalizeValid(w: World, id: Uuid)
    requires Valid(w) && id in w.shares && w.shares[id].isTemporary
    ensures id in w.temp
    ensures Valid(Move(w, id).(shares := w.shares[id := w.shares[id].(isTemporary := false)]))
  {
    var r := Move(w, id).(shares := w.shares[id := w.shares[id].(isTemporary := false)]);
    forall k | k in w.attachments ensures HasFile(r, w.attachments[k]) {
      var a := w.attachments[k];
      assert HasFile(w, a);
      if a.shareId == id {
        assert r.data[id] == w.temp[id];
      }
    }
  }

  /** Deleting a share's directory, its row and its attachment rows keeps the world consistent. */
  lemma DeleteShareValid(w: World, id: Uuid)
    requires Valid(w) && id in w.shares
    ensures Valid(Cascade(DropDir(w, HomeRoot(w.shares[id]), id), id))
  {
    var root := HomeRoot(w.shares[id]);
    var r := Cascade(DropDir(w, root, id), id);
    forall k | k in r.shares ensures k in Dirs(r, HomeRoot(r.shares[k])) {
      assert k in w.shares && k != id;
    }
    forall k | k in r.attachments ensures HasFile(r, r.attachments[k]) {
      var a := w.attachments[k];
      assert HasFile(w, a);
      assert a.shareId != id;
    }
  }

  /** Deleting share rows alone (no directory work) keeps the world consistent. */
  lemma CascadeValid(w: World, id: Uuid)
    requires Valid(w)
    ensures Valid(Cascade(w, id))
  {
    var r := Cascade(w, id);
    forall k | k in r.attachments ensures HasFile(r, r.attachments[k]) {
      assert HasFile(w, w.attachments[k]);
    }
  }

  /** Replacing a share row by one in the same state keeps the world consistent. */
  lemma ReplaceShareValid(w: World, sh: Share)
    requires Valid(w) && sh.id in w.shares && sh.isTemporary == w.shares[sh.id].isTemporary
    ensures Valid(w.(shares := w.shares[sh.id := sh]))
  {
    var r := w.(shares := w.shares[sh.id := sh]);
    forall k | k in w.attachments ensures HasFile(r, w.attachments[k]) {
      assert HasFile(w, w.attachments[k]);
    }
  }

  /** Writing a file into a share's directory keeps the world consistent. */
  lemma PutFileValid(w: World, root: Root, dir: Uuid, name: Uuid, content: seq<Byte>)
    requires Valid(w) && dir in Dirs(w, root)
    ensures Valid(PutFile(w, root, dir, name, content))
  {
    var r := PutFile(w, root, dir, name, content);
    forall k | k in w.shares ensures k in Dirs(r, HomeRoot(r.shares[k])) {
    }
    forall k | k in w.attachments ensures HasFile(r, w.attachments[k]) {
      assert HasFile(w, w.attachments[k]);
    }
  }

  /** A new attachment row whose file is in its open share's directory keeps the world consistent. */
  lemma InsertAttachmentValid(w: World, a: Attachment)
    requires Valid(w) && a.id !in w.attachments && HasFile(w, a)
    ensures Valid(w.(attachments := w.attachments[a.id := a]))
  {
    var r := w.(attachments := w.attachments[a.id := a]);
    forall k | k in r.attachments ensures HasFile(r, r.attachments[k]) {
      if k != a.id {
        assert HasFile(w, w.attachments[k]);
      }
    }
  }

  /** Removing an attachment's file and then its row keeps the world consistent. */
  lemma DeleteAttachmentValid(w: World, a: Attachment)
    requires Valid(w) && a.id in w.attachments && w.attachments[a.id] == a && a.shareId in w.data
    ensures Valid(DropFile(w, Data, a.shareId, a.id).(attachments := w.attachments - {a.id}))
  {
    var r := DropFile(w, Data, a.shareId, a.id).(attachments := w.attachments - {a.id});
    forall k | k in w.shares ensures k in Dirs(r, HomeRoot(r.shares[k])) {
    }
    forall k | k in r.attachments ensures HasFile(r, r.attachments[k]) {
      var b := w.attachments[k];
      assert HasFile(w, b);
      assert b.id == k && k != a.id;
    }
  }

  class Store {
    var shares: map<Uuid, Share>
    var attachments: map<Uuid, Attachment>
    var temp: map<Uuid, Dir>
    var data: map<Uuid, Dir>
    var jobs: seq<Job>

    /** The whole state as a value. */
    function State(): World
      reads this
    {
      World(shares, attachments, temp, data, jobs)
    }

    constructor (w: World)
      ensures State() == w
    {
      shares, attachments, temp, data, jobs := w.shares, w.attachments, w.temp, w.data, w.jobs;
    }

    /** INSERT of a share row: fails on an existing primary key. */
    method InsertShare(sh: Share) returns (ok: bool)
      modifies this
      ensures ok == (sh.id !in old(shares))
      ensures State() == if ok then old(State()).(shares := old(shares)[sh.id := sh]) else old(State())
    {
      ok := sh.id !in shares;
      if ok {
        shares := shares[sh.id := sh];
      }
    }

    /** db.Save of a share: an upsert under its id, unless the database fails. */
    method SaveShare(sh: Share, env: Env) returns (ok: bool)
      modifies this
      ensures ok == (SaveFault(sh.id) !in env.faults)
      ensures State() == if ok then old(State()).(shares := old(shares)[sh.id := sh]) else old(State())
    {
      ok := SaveFault(sh.id) !in env.faults;
      if ok {
        shares := shares[sh.id := sh];
      }
    }

    /** DELETE of a share row by id; the attachment rows go with it. */
    method DeleteShareRow(id: Uuid)
      modifies this
      ensures State() == Cascade(old(State()), id)
    {
      shares := shares - {id};
      attachments := map k | k in attachments && attachments[k].shareId != id :: attachments[k];
    }

    /** INSERT of an attachment row: fails on an existing primary key. */
    method InsertAttachment(a: Attachment) returns (ok: bool)
      modifies this
      ensures ok == (a.id !in old(attachments))
      ensures State() == if ok then old(State()).(attachments := old(attachments)[a.id := a]) else old(State())
    {
      ok := a.id !in attachments;
      if ok {
        attachments := attachments[a.id := a];
      }
    }

    /** DELETE of an attachment row by id. */
    method DeleteAttachmentRow(id: Uuid)
      modifies this
      ensures State() == old(State()).(attachments := old(attachments) - {id})
    {
      attachments := attachments - {id};
    }

    /** os.MkdirAll(<root>/<id>). */
    method MkdirAll(root: Root, id: Uuid, env: Env) returns (ok: bool)
      modifies this
      ensures ok == (MkdirFault(root, id) !in env.faults)
      ensures State() == if ok then EnsureDir(old(State()), root, id) else old(State())
    {
      ok := MkdirFault(root, id) !in env.faults;
      if ok {
        if root == Temp {
          if id !in temp {
            temp := temp[id := map[]];
          }
        } else {
          if id !in data {
            data := data[id := map[]];
          }
        }
      }
    }

    /** os.RemoveAll(<root>/<id>): succeeds on a missing path. */
    method RemoveAll(root: Root, id: Uuid, env: Env) returns (ok: bool)
      modifies this
      ensures ok == (RemoveAllFault(root, id) !in env.faults)
      ensures State() == if ok then DropDir(old(State()), root, id) else old(State())
    {
      ok := RemoveAllFault(root, id) !in env.faults;
      if ok {
        if root == Temp {
          temp := temp - {id};
        } else {
          data := data - {id};
        }
      }
    }

    /**
     * os.Rename(temp/<id>, data/<id>): fails when the source is missing, when
     * data/<id> already exists as a directory (Go refuses a directory target, even
     * an empty one, with EEXIST), or on any other fault.
     */
    method Rename(id: Uuid, env: Env) returns (ok: bool)
      modifies this
      ensures ok == (id in old(temp) && id !in old(data) && RenameFault(id) !in env.faults)
      ensures State() == if ok then Move(old(State()), id) else old(State())
    {
      ok := id in temp && id !in data && RenameFault(id) !in env.faults;
      if ok {
        data := data[id := temp[id]];
        temp := temp - {id};
      }
    }

    /** ioutil.WriteFile(temp/<dir>/<name>): fails when the directory is missing. */
    method WriteFile(dir: Uuid, name: Uuid, content: seq<Byte>, env: Env) returns (ok: bool)
      modifies this
      ensures ok == (dir in old(temp) && WriteFault(dir, name) !in env.faults)
      ensures State() == if ok then PutFile(old(State()), Temp, dir, name, content) else old(State())
    {
      ok := dir in temp && WriteFault(dir, name) !in env.faults;
      if ok {
        temp := temp[dir := temp[dir][name := content]];
      }
    }

    /** os.Remove(data/<dir>/<name>): fails when the file is missing. */
    method RemoveFile(dir: Uuid, name: Uuid, env: Env) returns (ok: bool)
      modifies this
      ensures ok == (dir in old(data) && name in old(data)[dir] && RemoveFault(dir, name) !in env.faults)
      ensures State() == if ok then DropFile(old(State()), Data, dir, name) else old(State())
    {
      ok := dir in data && name in data[dir] && RemoveFault(dir, name) !in env.faults;
      if ok {
        data := data[dir := data[dir] - {name}];
      }
    }

    /**
     * background.EnqueueJob: with the workers never started it returns nil and
     * enqueues nothing; otherwise the job is appended unless the client rejects its kind.
     */
    method Enqueue(job: Job, env: Env) returns (ok: bool)
      modifies this
      ensures ok == !Refuses(env, job.task.kind)
      ensures State() == if env.queue == Started && ok then old(State()).(jobs := old(jobs) + [job]) else old(State())
    {
      if env.queue == Stopped {
        ok := true;
      } else if EnqueueFault(job.task.kind) in env.faults {
        ok := false;
      } else {
        ok := true;
        jobs := jobs + [job];
      }
    }

    /**
     * A query over the share table: the rows that satisfy `keep`, each once, in
     * an order the database chooses.
     */
    method Find(keep: Share -> bool) returns (rows: seq<Share>)
      requires Keyed(State())
      ensures forall i :: 0 <= i < |rows| ==> rows[i].id in shares && shares[rows[i].id] == rows[i] && keep(rows[i])
      ensures forall k :: k in shares && keep(shares[k]) ==> shares[k] in rows
      ensures forall i, j :: 0 <= i < j < |rows| ==> rows[i].id != rows[j].id
    {
      rows := [];
      var todo := shares.Keys;
      while todo != {}
        invariant todo <= shares.Keys
        invariant forall i :: 0 <= i < |rows| ==> rows[i].id in shares && rows[i].id !in todo
        invariant forall i :: 0 <= i < |rows| ==> shares[rows[i].id] == rows[i] && keep(rows[i])
        invariant forall k :: k in shares && k !in todo && keep(shares[k]) ==> shares[k] in rows
        invariant forall i, j :: 0 <= i < j < |rows| ==> rows[i].id != rows[j].id
        decreases todo
      {
        var k :| k in todo;
        if keep(shares[k]) {
          rows := rows + [shares[k]];
        }
        todo := todo - {k};
      }
    }
  }
}
