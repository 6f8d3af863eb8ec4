/**
 Deduplicated storage: what uploads, new folders, shares and deletions do to the tables and the data
 directory, and what holds of them after any sequence of requests.
 */
module Storage {
  import opened Text
  import opened Wrappers
  import opened Sequences
  import opened Tables
  import opened FolderTree
  import opened Transfer
  import opened DeleteTree
  import SC = ShareCopy

  const DEF_PATH := "/root/project/Network_disk_server/UserData/"

  /** sprintf("%s%d%s%s", _DEF_PATH, userid, dir, ..) */
  function DiskPath(uid: int, dir: string, last: string): string {
    DiskDir(uid, dir) + last
  }

  function DiskDir(uid: int, dir: string): string {
    DEF_PATH + ToString(uid) + dir
  }

  // ---------------------------------------------------------------- looking rows up

  /** The first row that a SELECT on t_file returns: the lowest id in [low, high) that satisfies p. */
  function FirstId(files: Files, low: int, high: int, p: FileRow -> bool): (r: Option<int>)
    ensures r.Some? ==> low <= r.value < high && r.value in files && p(files[r.value])
    ensures r.Some? ==> (forall j :: low <= j < r.value && j in files ==> !p(files[j]))
    ensures r.None? ==> (forall j :: low <= j < high && j in files ==> !p(files[j]))
    decreases high - low
  {
    if low >= high then None
    else if low in files && p(files[low]) then Some(low)
    else FirstId(files, low + 1, high, p)
  }

  /** f_MD5='..' and f_state=1 */
  function Finished(md5: string): FileRow -> bool {
    (f: FileRow) => f.md5 == md5 && f.state == 1
  }

  /** f_path='..' and f_md5='..' */
  function AtPathWith(path: string, md5: string): FileRow -> bool {
    (f: FileRow) => f.path == path && f.md5 == md5
  }

  /** f_path='..' */
  function AtPath(path: string): FileRow -> bool {
    (f: FileRow) => f.path == path
  }

  // ---------------------------------------------------------------- upload

  datatype UploadRq = UploadRq(uid: int, timestamp: int, fileName: string, size: int, dir: string, md5: string, time: string)

  datatype UploadReply = Quick | Accepted(fid: int) | Silent

  /** open(.., O_CREAT | O_WRONLY | O_TRUNC) never succeeds on a directory. */
  predicate CanOpen(s: Store, path: string) {
    !(path in s.disk && s.disk[path] == Directory)
  }

  /** The rows and the disk after an upload request; `openOk` is the outcome of open. */
  function Uploaded(s: Store, rq: UploadRq, openOk: bool): (Store, UploadReply) {
    var known := FirstId(s.files, 1, s.nextId, Finished(rq.md5));
    if known.Some? then
      (s.(users := s.users + [NewRow(rq.uid, known.value, rq.dir, rq.fileName, rq.time)]), Quick)
    else
      var path := DiskPath(rq.uid, rq.dir, rq.md5);
      if !openOk || !CanOpen(s, path) then (s, Silent)
      else
        var files := s.files[s.nextId := FileRow(rq.size, path, rq.md5, 0, FILE)];
        var found := FirstId(files, 1, s.nextId + 1, AtPathWith(path, rq.md5));
        var fid := if found.Some? then found.value else 0;
        (s.(files := files, nextId := s.nextId + 1, disk := s.disk[path := Regular],
            users := s.users + [NewRow(rq.uid, fid, rq.dir, rq.fileName, rq.time)],
            uploads := s.uploads[TaskKey(rq.uid, rq.timestamp) := fid]), Accepted(fid))
  }

  method RecordUpload(db: NetDisk, rq: UploadRq, openOk: bool) returns (reply: UploadReply)
    modifies db
    ensures (db.Abs(), reply) == Uploaded(old(db.Abs()), rq, openOk)
  {
    var known := FirstId(db.files, 1, db.nextId, Finished(rq.md5));
    if known.Some? {
      db.users := db.users + [NewRow(rq.uid, known.value, rq.dir, rq.fileName, rq.time)];
      return Quick;
    }
    var path := DiskPath(rq.uid, rq.dir, rq.md5);
    if !openOk || !CanOpen(db.Abs(), path) {
      return Silent;
    }
    db.disk := db.disk[path := Regular];
    db.files := db.files[db.nextId := FileRow(rq.size, path, rq.md5, 0, FILE)];
    db.nextId := db.nextId + 1;
    var found := FirstId(db.files, 1, db.nextId, AtPathWith(path, rq.md5));
    var fid := if found.Some? then found.value else 0;
    db.uploads := db.uploads[TaskKey(rq.uid, rq.timestamp) := fid];
    db.users := db.users + [NewRow(rq.uid, fid, rq.dir, rq.fileName, rq.time)];
    return Accepted(fid);
  }

  /** The last block of an upload: the row is marked, the task goes. */
  function Completed(s: Store, key: int, fid: int): Store {
    s.(files := if fid in s.files then s.files[fid := s.files[fid].(state := 1)] else s.files, uploads := s.uploads - {key})
  }

  /** The resume request of an upload whose task is gone. */
  function Resumed(s: Store, key: int, uid: int, fid: int, dir: string): Store {
    if key !in s.uploads && Hits(s, uid, fid, dir) != [] && s.files[fid].state == 0 then s.(uploads := s.uploads[key := fid]) else s
  }

  // ---------------------------------------------------------------- new folder

  /** AddFolderRq; `made` is the outcome mkdir would have on a free path. */
  function FolderAdded(s: Store, uid: int, dir: string, name: string, time: string, made: bool): (Store, int) {
    var path := DiskPath(uid, dir, name);
    if !(path in s.disk && s.disk[path] == Directory) && (path in s.disk || !made) then (s, 0)
    else
      var files := s.files[s.nextId := FileRow(0, path, NO_MD5, 1, FOLDER)];
      var found := FirstId(files, 1, s.nextId + 1, AtPath(path));
      var fid := if found.Some? then found.value else 0;
      (s.(files := files, nextId := s.nextId + 1, disk := s.disk[path := Directory],
          users := s.users + [NewRow(uid, fid, dir, name, time)]), 1)
  }

  method AddFolderRq(db: NetDisk, uid: int, dir: string, name: string, time: string, made: bool) returns (result: int)
    modifies db
    ensures (db.Abs(), result) == FolderAdded(old(db.Abs()), uid, dir, name, time, made)
  {
    var pathbuf := DiskPath(uid, dir, name);
    if !(pathbuf in db.disk && db.disk[pathbuf] == Directory) {
      if pathbuf in db.disk || !made {
        return 0;
      }
      db.disk := db.disk[pathbuf := Directory];
    }
    assert db.disk == old(db.disk)[pathbuf := Directory];
    db.files := db.files[db.nextId := FileRow(0, pathbuf, NO_MD5, 1, FOLDER)];
    db.nextId := db.nextId + 1;
    var found := FirstId(db.files, 1, db.nextId, AtPath(pathbuf));
    var fid := if found.Some? then found.value else 0;
    db.users := db.users + [NewRow(uid, fid, dir, name, time)];
    return 1;
  }

  // ---------------------------------------------------------------- the invariant

  /** The row is the oldest at its path. */
  ghost predicate Oldest(files: Files, fid: int)
    requires fid in files
  {
    forall j :: j in files && files[j].path == files[fid].path ==> fid <= j
  }

  /** A plain file is stored in some directory under its md5; a folder row's path is a directory. */
  ghost predicate SoundRow(disk: map<string, Node>, f: FileRow) {
    if f.kind == FILE then
      && IsSegment(f.md5) && f.md5 != NO_MD5 && (f.state == 0 || f.state == 1)
      && exists d :: IsDir(d) && f.path == d + f.md5
    else
      f.kind == FOLDER && f.md5 == NO_MD5 && f.state == 1 && f.path in disk && disk[f.path] == Directory
  }

  ghost predicate StorageInv(s: Store) {
    && s.nextId >= 1
    && (forall f :: f in s.files ==> 1 <= f < s.nextId && SoundRow(s.disk, s.files[f]))
    && (forall r :: r in s.users ==> r.fid in s.files && s.files[r.fid].path in s.disk && Oldest(s.files, r.fid))
    && (forall f :: f in s.files && s.files[f].kind == FILE && s.files[f].state == 1 ==> Refers(s.users, f))
    && (forall k :: k in s.uploads && s.uploads[k] in s.files ==> s.files[s.uploads[k]].kind == FILE && Refers(s.users, s.uploads[k]))
    && (forall k :: k in s.uploads ==> s.uploads[k] < s.nextId)
  }

  /** Two different files that users refer to never share a disk path. */
  lemma ReferencedPathsDistinct(s: Store, r: UserFile, q: UserFile)
    requires StorageInv(s) && r in s.users && q in s.users && r.fid != q.fid
    ensures s.files[r.fid].path != s.files[q.fid].path
  {}

  predicate ValidUpload(rq: UploadRq) {
    IsDir(rq.dir) && IsSegment(rq.md5) && rq.md5 != NO_MD5
  }

  lemma FileAtPath(s: Store, f: int, dir: string, md5: string)
    requires StorageInv(s) && f in s.files && s.files[f].kind == FILE
    requires IsDir(dir) && IsSegment(md5) && s.files[f].path == dir + md5
    ensures s.files[f].md5 == md5
  {
    var d :| IsDir(d) && s.files[f].path == d + s.files[f].md5;
    LastSegmentUnique(d, s.files[f].md5, dir, md5);
  }

  lemma DiskDirIsDir(uid: int, dir: string)
    requires IsDir(dir)
    ensures IsDir(DiskDir(uid, dir))
  {}

  /** At a path that open does not refuse there are only rows of the file with that md5. */
  lemma RowsAtOpenPath(s: Store, rq: UploadRq, f: int)
    requires StorageInv(s) && ValidUpload(rq) && CanOpen(s, DiskPath(rq.uid, rq.dir, rq.md5))
    requires f in s.files && s.files[f].path == DiskPath(rq.uid, rq.dir, rq.md5)
    ensures s.files[f].kind == FILE && s.files[f].md5 == rq.md5
  {
    assert SoundRow(s.disk, s.files[f]);
    if s.files[f].kind == FILE {
      DiskDirIsDir(rq.uid, rq.dir);
      FileAtPath(s, f, DiskDir(rq.uid, rq.dir), rq.md5);
    }
  }

  /**
   Starting an upload never truncates a finished file: when the request is not answered as a quick
   upload and open succeeds, the path opened belongs to no row with f_state=1.
   */
  lemma NeverTruncatesFinished(s: Store, rq: UploadRq, f: int)
    requires StorageInv(s) && ValidUpload(rq) && Uploaded(s, rq, true).1.Accepted?
    requires f in s.files && s.files[f].state == 1
    ensures s.files[f].path != DiskPath(rq.uid, rq.dir, rq.md5)
  {
    assert !Finished(rq.md5)(s.files[f]);
    if s.files[f].path == DiskPath(rq.uid, rq.dir, rq.md5) {
      RowsAtOpenPath(s, rq, f);
    }
  }

  /** The id an accepted upload is given: the oldest row at its path, which is unfinished. */
  lemma AcceptedId(s: Store, rq: UploadRq)
    requires StorageInv(s) && ValidUpload(rq) && Uploaded(s, rq, true).1.Accepted?
    ensures var t, fid := Uploaded(s, rq, true).0, Uploaded(s, rq, true).1.fid;
            && fid in t.files && t.files[fid].path == DiskPath(rq.uid, rq.dir, rq.md5)
            && t.files[fid].kind == FILE && t.files[fid].state == 0 && t.files[fid].md5 == rq.md5
            && Oldest(t.files, fid)
  {
    var t, fid := Uploaded(s, rq, true).0, Uploaded(s, rq, true).1.fid;
    var path := DiskPath(rq.uid, rq.dir, rq.md5);
    var p := AtPathWith(path, rq.md5);
    assert p(t.files[s.nextId]);
    assert fid in t.files && p(t.files[fid]);
    forall j | j in t.files && t.files[j].path == path
      ensures fid <= j && t.files[j].kind == FILE
    {
      if j != s.nextId {
        RowsAtOpenPath(s, rq, j);
      }
      assert p(t.files[j]);
    }
    if fid != s.nextId {
      assert SoundRow(s.disk, s.files[fid]);
      assert !Finished(rq.md5)(s.files[fid]);
    }
  }

  lemma QuickKeepsInv(s: Store, rq: UploadRq, openOk: bool)
    requires StorageInv(s) && Uploaded(s, rq, openOk).1.Quick? && ValidUpload(rq)
    ensures StorageInv(Uploaded(s, rq, openOk).0)
  {
    var t := Uploaded(s, rq, openOk).0;
    var fid := FirstId(s.files, 1, s.nextId, Finished(rq.md5)).value;
    assert SoundRow(s.disk, s.files[fid]);
    ReferencesGrow(s.users, t.users);
    forall r | r in t.users
      ensures Refers(s.users, r.fid)
    {
      assert r in s.users || r.fid == fid;
    }
    SameFilesKeepInv(s, t.users);
  }

  /** A new row in t_file, a node at its path, and a reference to the oldest row there. */
  lemma NewFileKeepsInv(s: Store, t: Store, row: FileRow, node: Node, user: UserFile, key: int)
    requires StorageInv(s)
    requires t.files == s.files[s.nextId := row] && t.nextId == s.nextId + 1
    requires t.disk == s.disk[row.path := node] && t.users == s.users + [user]
    requires row.path in s.disk && s.disk[row.path] == Directory ==> node == Directory
    requires SoundRow(t.disk, row) && row.state == (if row.kind == FILE then 0 else 1)
    requires user.fid in t.files && t.files[user.fid].path == row.path && Oldest(t.files, user.fid)
    requires t.uploads == s.uploads || t.uploads == s.uploads[key := user.fid]
    requires t.uploads != s.uploads ==> t.files[user.fid].kind == FILE
    ensures StorageInv(t)
  {
    ReferencesGrow(s.users, t.users);
    assert Refers(t.users, user.fid) by {
      assert t.users[|s.users|] == user;
    }
    forall f | f in t.files
      ensures SoundRow(t.disk, t.files[f])
    {
      if f != s.nextId {
        assert SoundRow(s.disk, s.files[f]);
      }
    }
    forall r | r in t.users
      ensures r.fid in t.files && t.files[r.fid].path in t.disk && Oldest(t.files, r.fid)
    {
      if r in s.users {
        OldestStays(s, row, r.fid);
      }
    }
  }

  /** A new row never is the oldest at a path that has one. */
  lemma OldestStays(s: Store, row: FileRow, fid: int)
    requires fid in s.files && fid < s.nextId && s.nextId !in s.files && Oldest(s.files, fid)
    ensures Oldest(s.files[s.nextId := row], fid)
  {}

  lemma UploadKeepsInv(s: Store, rq: UploadRq, openOk: bool)
    requires StorageInv(s) && ValidUpload(rq)
    ensures StorageInv(Uploaded(s, rq, openOk).0)
  {
    var (t, reply) := Uploaded(s, rq, openOk);
    match reply
    case Silent =>
    case Quick => QuickKeepsInv(s, rq, openOk);
    case Accepted(fid) =>
      AcceptedId(s, rq);
      var path := DiskPath(rq.uid, rq.dir, rq.md5);
      DiskDirIsDir(rq.uid, rq.dir);
      NewFileKeepsInv(s, t, FileRow(rq.size, path, rq.md5, 0, FILE), Regular, t.users[|s.users|], TaskKey(rq.uid, rq.timestamp));
  }

  lemma ReferencesGrow(users: seq<UserFile>, more: seq<UserFile>)
    requires users <= more
    ensures forall f :: Refers(users, f) ==> Refers(more, f)
  {}

  lemma AddFolderKeepsInv(s: Store, uid: int, dir: string, name: string, time: string, made: bool)
    requires StorageInv(s)
    ensures StorageInv(FolderAdded(s, uid, dir, name, time, made).0)
  {
    var (t, result) := FolderAdded(s, uid, dir, name, time, made);
    if result == 1 {
      var path := DiskPath(uid, dir, name);
      var fid := t.users[|s.users|].fid;
      assert AtPath(path)(t.files[s.nextId]);
      forall j | j in t.files && t.files[j].path == path
        ensures fid <= j
      {
        assert AtPath(path)(t.files[j]);
      }
      NewFileKeepsInv(s, t, FileRow(0, path, NO_MD5, 1, FOLDER), Directory, t.users[|s.users|], 0);
    }
  }

  lemma CompleteKeepsInv(s: Store, key: int)
    requires StorageInv(s) && key in s.uploads
    ensures StorageInv(Completed(s, key, s.uploads[key]))
  {}

  lemma ResumeKeepsInv(s: Store, key: int, uid: int, fid: int, dir: string)
    requires StorageInv(s)
    ensures StorageInv(Resumed(s, key, uid, fid, dir))
  {
    var hits := Hits(s, uid, fid, dir);
    if hits != [] && s.files[fid].state == 0 {
      assert hits[0] in hits;
      assert Refers(s.users, fid);
      assert SoundRow(s.disk, s.files[fid]);
    }
  }

  /** A file that loses its last reference is not stored at the path of one that keeps a reference. */
  lemma PathStays(s: Store, dead: UserFile -> bool, r: UserFile)
    requires StorageInv(s) && r in s.users && !dead(r)
    ensures !PathLost(s, dead, s.files[r.fid].path)
  {}

  lemma PruneKeepsInv(s: Store, dead: UserFile -> bool)
    requires StorageInv(s)
    ensures StorageInv(Prune(s, dead))
  {
    var t := Prune(s, dead);
    forall f | f in t.files
      ensures SoundRow(t.disk, t.files[f])
    {
      assert SoundRow(s.disk, s.files[f]);
    }
    forall r | r in t.users
      ensures r.fid in t.files && t.files[r.fid].path in t.disk && Oldest(t.files, r.fid)
    {
      assert r in s.users && !dead(r);
      assert Oldest(s.files, r.fid);
      PathStays(s, dead, r);
    }
    forall f | f in t.files && t.files[f].kind == FILE && Refers(s.users, f)
      ensures Refers(t.users, f)
    {
      StillReferred(s, dead, f);
    }
  }

  lemma StillReferred(s: Store, dead: UserFile -> bool, f: int)
    requires f in Prune(s, dead).files && s.files[f].kind == FILE && Refers(s.users, f)
    ensures Refers(Prune(s, dead).users, f)
  {}

  /** The same rows as before, possibly with other links, and then rows for files already referred to. */
  ghost predicate OnlySameFiles(before: seq<UserFile>, after: seq<UserFile>) {
    && (forall f :: Refers(before, f) ==> Refers(after, f))
    && (forall r :: r in after ==> Refers(before, r.fid))
  }

  lemma SameFilesKeepInv(s: Store, users: seq<UserFile>)
    requires StorageInv(s) && OnlySameFiles(s.users, users)
    ensures StorageInv(s.(users := users))
  {}

  // ---------------------------------------------------------------- what the user sees

  /** A new row shows up last in its own directory, and nowhere else. */
  lemma NewRowIsListed(s: Store, files: Files, user: UserFile, uid: int, dir: string)
    requires forall r :: r in s.users ==> r.fid in s.files && r.fid in files
    requires user.fid in files
    ensures Listed(files, s.users + [user], uid, dir)
         == Listed(s.files, s.users, uid, dir) + (if user.uid == uid && user.dir == dir then [user] else [])
  {
    FilterSplit(s.users, [user], InDir(files, uid, dir));
    FilterAgree(s.users, InDir(files, uid, dir), InDir(s.files, uid, dir));
  }

  /**
   After an upload request that is accepted or answered as quick, the user's directory holds one more
   row, of that name and for a file of that md5, finished if the answer was quick; all other listings,
   of this and of any other user, are what they were. Otherwise nothing has changed.
   */
  lemma UploadIsListed(s: Store, rq: UploadRq, openOk: bool, uid: int, dir: string)
    requires StorageInv(s) && ValidUpload(rq)
    ensures var (t, reply) := Uploaded(s, rq, openOk);
            var before, after := Listed(s.files, s.users, uid, dir), Listed(t.files, t.users, uid, dir);
            if reply.Silent? then t == s
            else if uid != rq.uid || dir != rq.dir then after == before
            else
              && |after| == |before| + 1 && after[..|before|] == before
              && var r := after[|before|];
                 && r.name == rq.fileName && r.time == rq.time && r.fid in t.files && t.files[r.fid].md5 == rq.md5
                 && (reply.Quick? <==> t.files[r.fid].state == 1)
  {
    var (t, reply) := Uploaded(s, rq, openOk);
    match reply
    case Silent =>
    case Quick =>
      NewRowIsListed(s, s.files, t.users[|s.users|], uid, dir);
    case Accepted(fid) =>
      AcceptedId(s, rq);
      NewRowIsListed(s, t.files, t.users[|s.users|], uid, dir);
  }

  /** At a path that has rows of both kinds, the files are the older ones. */
  ghost predicate FilesFirst(files: Files) {
    forall f, g :: f in files && g in files && files[f].path == files[g].path && files[f].kind == FILE && files[g].kind != FILE ==> f < g
  }

  /**
   A new folder is listed last where it was made, under its name and disk path. It is listed as a folder
   if and only if t_file has no row of a plain file at that path; if it has one, however old, the user's
   row refers to that file.
   */
  lemma FolderIsListed(s: Store, uid: int, dir: string, name: string, time: string, made: bool)
    requires StorageInv(s) && FilesFirst(s.files)
    ensures var (t, result) := FolderAdded(s, uid, dir, name, time, made);
            var before, after := Listed(s.files, s.users, uid, dir), Listed(t.files, t.users, uid, dir);
            if result == 0 then t == s
            else
              && |after| == |before| + 1 && after[..|before|] == before && after[|before|].name == name
              && var fid := after[|before|].fid;
                 && fid in t.files && t.files[fid].path == DiskPath(uid, dir, name)
                 && (t.files[fid].kind == FOLDER
                     <==> !exists f :: f in s.files && s.files[f].kind == FILE && s.files[f].path == DiskPath(uid, dir, name))
  {
    var (t, result) := FolderAdded(s, uid, dir, name, time, made);
    if result == 1 {
      var p := AtPath(DiskPath(uid, dir, name));
      assert p(t.files[s.nextId]);
      NewRowIsListed(s, t.files, t.users[|s.users|], uid, dir);
      OldestAtFolder(s, DiskPath(uid, dir, name), t.users[|s.users|].fid);
    }
  }

  lemma OldestAtFolder(s: Store, path: string, fid: int)
    requires StorageInv(s) && FilesFirst(s.files)
    requires var files := s.files[s.nextId := FileRow(0, path, NO_MD5, 1, FOLDER)];
             fid in files && files[fid].path == path && forall j :: 1 <= j < fid && j in files ==> files[j].path != path
    ensures var files := s.files[s.nextId := FileRow(0, path, NO_MD5, 1, FOLDER)];
            files[fid].kind == FOLDER <==> !exists f :: f in s.files && s.files[f].kind == FILE && s.files[f].path == path
  {
    var files := s.files[s.nextId := FileRow(0, path, NO_MD5, 1, FOLDER)];
    if fid != s.nextId {
      assert SoundRow(s.disk, s.files[fid]);
    }
    forall f | f in s.files && s.files[f].kind == FILE && s.files[f].path == path
      ensures fid in s.files && s.files[fid].kind == FILE
    {
      assert f in files && files[f].path == path && 1 <= f < s.nextId;
    }
  }

  // ---------------------------------------------------------------- share links

  const LINK_MIN := 100_000_000
  const LINK_MAX := 999_999_999

  /** One draw of the nine-digit share code from two random numbers. */
  function Link(a: nat, b: nat): (link: int)
    ensures LINK_MIN <= link <= LINK_MAX
  {
    (1 + a % 9) * 100_000_000 + b % 100_000_000
  }

  function Carries(link: int): UserFile -> bool {
    (r: UserFile) => r.link.Some? && r.link.value.0 == link
  }

  predicate LinkUsed(users: seq<UserFile>, link: int) {
    exists r :: r in users && Carries(link)(r)
  }

  /** The request names the row: same owner and directory, and its id is in the list. */
  predicate IsNamed(uid: int, ids: seq<int>, dir: string, r: UserFile) {
    r.uid == uid && r.dir == dir && r.fid in ids
  }

  function Named(uid: int, ids: seq<int>, dir: string): UserFile -> bool {
    r => IsNamed(uid, ids, dir, r)
  }

  function WithLink(uid: int, ids: seq<int>, dir: string, time: string, link: int): UserFile -> UserFile {
    (r: UserFile) => if IsNamed(uid, ids, dir, r) then r.(link := Some((link, time))) else r
  }

  function Shared(users: seq<UserFile>, uid: int, ids: seq<int>, dir: string, time: string, link: int): seq<UserFile> {
    Map(users, WithLink(uid, ids, dir, time, link))
  }

  method ShareItem(db: NetDisk, userid: int, fileid: int, dir: string, time: string, link: int)
    modifies db`users
    ensures db.users == Shared(old(db.users), userid, [fileid], dir, time, link)
  {
    db.users := Map(db.users, WithLink(userid, [fileid], dir, time, link));
  }

  /** The first of the drawn links that no row carries. */
  ghost predicate FirstFree(users: seq<UserFile>, draws: nat -> (nat, nat), k: nat) {
    && !LinkUsed(users, Link(draws(k).0, draws(k).1))
    && forall j :: 0 <= j < k ==> LinkUsed(users, Link(draws(j).0, draws(j).1))
  }

  /** ShareFileRq. The loop ends because some draw is free; `enough` is the number of one. */
  method ShareFileRq(db: NetDisk, userid: int, ids: seq<int>, dir: string, time: string, draws: nat -> (nat, nat), ghost enough: nat)
    returns (link: int)
    requires !LinkUsed(db.users, Link(draws(enough).0, draws(enough).1))
    modifies db`users
    ensures exists k :: FirstFree(old(db.users), draws, k) && link == Link(draws(k).0, draws(k).1)
    ensures LINK_MIN <= link <= LINK_MAX && !LinkUsed(old(db.users), link)
    ensures db.users == Shared(old(db.users), userid, ids, dir, time, link)
  {
    link := 0;
    var k := 0;
    while link == 0
      invariant 0 <= k <= enough + 1
      invariant link == 0 ==> forall j :: 0 <= j < k ==> LinkUsed(db.users, Link(draws(j).0, draws(j).1))
      invariant link != 0 ==> k > 0 && FirstFree(db.users, draws, k - 1) && link == Link(draws(k - 1).0, draws(k - 1).1)
      decreases link == 0, enough + 1 - k
    {
      link := Link(draws(k).0, draws(k).1);
      if LinkUsed(db.users, link) {
        link := 0;
      }
      k := k + 1;
    }
    SharedByNone(db.users, userid, dir, time, link);
    for i := 0 to |ids|
      invariant db.users == Shared(old(db.users), userid, ids[..i], dir, time, link)
    {
      ShareItem(db, userid, ids[i], dir, time, link);
      SharedOneMore(old(db.users), userid, ids[..i], ids[i], dir, time, link);
      assert ids[..i + 1] == ids[..i] + [ids[i]];
    }
    assert ids[..|ids|] == ids;
  }

  lemma SharedByNone(users: seq<UserFile>, uid: int, dir: string, time: string, link: int)
    ensures Shared(users, uid, [], dir, time, link) == users
  {}

  lemma SharedOneMore(users: seq<UserFile>, uid: int, ids: seq<int>, id: int, dir: string, time: string, link: int)
    ensures Shared(Shared(users, uid, ids, dir, time, link), uid, [id], dir, time, link)
         == Shared(users, uid, ids + [id], dir, time, link)
  {}

  lemma SharedSameFiles(users: seq<UserFile>, uid: int, ids: seq<int>, dir: string, time: string, link: int)
    ensures OnlySameFiles(users, Shared(users, uid, ids, dir, time, link))
  {}

  /** Codes are nine digits long, and the rows that carry one belong to one directory of one owner. */
  ghost predicate LinkInv(users: seq<UserFile>) {
    && (forall r :: r in users && r.link.Some? ==> LINK_MIN <= r.link.value.0 <= LINK_MAX)
    && (forall r, q :: r in users && q in users && r.link.Some? && q.link.Some? && r.link.value.0 == q.link.value.0 ==>
          r.uid == q.uid && r.dir == q.dir)
  }

  lemma ShareKeepsLinks(users: seq<UserFile>, uid: int, ids: seq<int>, dir: string, time: string, link: int)
    requires LinkInv(users) && !LinkUsed(users, link) && LINK_MIN <= link <= LINK_MAX
    ensures LinkInv(Shared(users, uid, ids, dir, time, link))
  {
    var after := Shared(users, uid, ids, dir, time, link);
    forall r | r in after && r.link.Some?
      ensures if r.link.value.0 == link then r.uid == uid && r.dir == dir else r in users
    {
      var i :| 0 <= i < |after| && after[i] == r;
      assert users[i] in users;
      assert !Carries(link)(users[i]);
    }
  }

  /** Right after sharing, the code leads to the rows that were named, and to no others. */
  lemma LookupAfterShare(users: seq<UserFile>, uid: int, ids: seq<int>, dir: string, time: string, link: int)
    requires !LinkUsed(users, link)
    ensures Filter(Shared(users, uid, ids, dir, time, link), Carries(link))
         == Map(Filter(users, Named(uid, ids, dir)), WithLink(uid, ids, dir, time, link))
  {
    var f := WithLink(uid, ids, dir, time, link);
    forall r | r in users
      ensures Carries(link)(f(r)) <==> Named(uid, ids, dir)(r)
    {
      assert !Carries(link)(r);
    }
    FilterMap(users, f, Carries(link), Named(uid, ids, dir));
  }

  // ---------------------------------------------------------------- receiving a share

  /** select .. from user_file_info where s_link=.. */
  function LinkedRows(files: Files, users: seq<UserFile>, link: int): seq<UserFile> {
    Filter(users, (r: UserFile) => Carries(link)(r) && r.fid in files)
  }

  /** The rows of t_user_file after GetShareRq has worked through `items`; None if some copy does not end. */
  function Received(fuel: nat, files: Files, users: seq<UserFile>, uid: int, dir: string, time: string, items: seq<UserFile>): Option<seq<UserFile>>
    decreases |items|
  {
    if items == [] then Some(users)
    else
      var c := items[0];
      var after := if IsFolder(files, c) then SC.CopyFolder(fuel, SC.Job(files, uid, time, c.uid), users, c.fid, dir, c.name, c.dir)
                   else Some(users + [NewRow(uid, c.fid, dir, c.name, time)]);
      if after.None? then None else Received(fuel, files, after.value, uid, dir, time, items[1..])
  }

  /** An unknown code is answered twice: with 0, and then, as there is no return, with 1. */
  method GetShareRq(db: NetDisk, userid: int, dir: string, time: string, shareLink: int, ghost fuel: nat) returns (results: seq<int>)
    requires Received(fuel, db.files, db.users, userid, dir, time, LinkedRows(db.files, db.users, shareLink)).Some?
    modifies db`users
    ensures Some(db.users) == Received(fuel, db.files, old(db.users), userid, dir, time, LinkedRows(db.files, old(db.users), shareLink))
    ensures results == if LinkedRows(db.files, old(db.users), shareLink) == [] then [0, 1] else [1]
  {
    var lst := LinkedRows(db.files, db.users, shareLink);
    results := [];
    if |lst| == 0 {
      results := [0];
    }
    while |lst| != 0
      invariant Received(fuel, db.files, db.users, userid, dir, time, lst)
             == Received(fuel, db.files, old(db.users), userid, dir, time, LinkedRows(db.files, old(db.users), shareLink))
      invariant forall r :: r in lst ==> r.fid in db.files
      modifies db`users
      decreases |lst|
    {
      var item := lst[0];
      lst := lst[1..];
      if db.files[item.fid].kind == FILE {
        SC.GetShareByFile(db, userid, item.fid, dir, item.name, time);
      } else {
        SC.GetShareByFolder(db, userid, item.fid, dir, item.name, time, item.uid, item.dir, fuel);
      }
    }
    results := results + [1];
  }

  /**
   Share, then receive: when a user shares one folder and another user enters the link, the receiver
   has below the new folder what the sender has below the shared one, and nothing else.
   */
  lemma ShareThenReceive(s: Store, r: UserFile, time: string, link: int, receiver: int, dir: string, at: string, fuel: nat)
    requires StorageInv(s) && r in s.users && IsFolder(s.files, r) && receiver != r.uid
    requires Filter(s.users, Named(r.uid, [r.fid], r.dir)) == [r] && !LinkUsed(s.users, link)
    requires var shared := Shared(s.users, r.uid, [r.fid], r.dir, time, link);
             Under(s.files, shared, receiver, Child(dir, r.name)) == [] && fuel > Depth(shared, Child(r.dir, r.name))
    ensures var shared := Shared(s.users, r.uid, [r.fid], r.dir, time, link);
            var got := Received(fuel, s.files, shared, receiver, dir, at, LinkedRows(s.files, shared, link));
            var source, target := Child(r.dir, r.name), Child(dir, r.name);
            && got.Some?
            && Under(s.files, got.value, receiver, target)
            == Map(PreOrder(s.files, shared, r.uid, source), SC.Retarget(SC.Job(s.files, receiver, at, r.uid), source, target))
  {
    var shared := Shared(s.users, r.uid, [r.fid], r.dir, time, link);
    var job := SC.Job(s.files, receiver, at, r.uid);
    OneRowLinked(s, r, time, link);
    SC.ApartForOthers(job, shared, Child(r.dir, r.name), dir, Child(dir, r.name));
    SC.ReceiverSeesSubtree(fuel, job, shared, r.fid, dir, r.name, r.dir);
  }

  lemma OneRowLinked(s: Store, r: UserFile, time: string, link: int)
    requires StorageInv(s) && r in s.users
    requires Filter(s.users, Named(r.uid, [r.fid], r.dir)) == [r] && !LinkUsed(s.users, link)
    ensures LinkedRows(s.files, Shared(s.users, r.uid, [r.fid], r.dir, time, link), link) == [r.(link := Some((link, time)))]
  {
    var f := WithLink(r.uid, [r.fid], r.dir, time, link);
    var shared := Shared(s.users, r.uid, [r.fid], r.dir, time, link);
    LookupAfterShare(s.users, r.uid, [r.fid], r.dir, time, link);
    FilterAgree(shared, (x: UserFile) => Carries(link)(x) && x.fid in s.files, Carries(link)) by {
      SharedSameFiles(s.users, r.uid, [r.fid], r.dir, time, link);
    }
    assert Map([r], f) == [f(r)];
  }

  /** Every row a copy adds is for a file that some row referred to, and carries no link. */
  ghost predicate AddsSameFiles(before: seq<UserFile>, after: seq<UserFile>) {
    && before <= after
    && (forall i :: |before| <= i < |after| ==> Refers(before, after[i].fid) && after[i].link.None?)
  }

  lemma AddsThen(a: seq<UserFile>, b: seq<UserFile>, c: seq<UserFile>)
    requires AddsSameFiles(a, b) && AddsSameFiles(b, c)
    ensures AddsSameFiles(a, c)
  {}

  lemma {:induction false} CopyAddsSameFiles(fuel: nat, job: SC.Job, users: seq<UserFile>, fid: int, dir: string, name: string, fromdir: string)
    requires Refers(users, fid) && SC.CopyFolder(fuel, job, users, fid, dir, name, fromdir).Some?
    ensures AddsSameFiles(users, SC.CopyFolder(fuel, job, users, fid, dir, name, fromdir).value)
    decreases fuel, 1, 0
  {
    var inserted := users + [NewRow(job.to, fid, dir, name, job.time)];
    var source := Child(fromdir, name);
    var items := Listed(job.files, inserted, job.from, source);
    assert forall x :: x in items ==> x in inserted && Refers(inserted, x.fid);
    CopyItemsAddSameFiles(fuel, job, inserted, Child(dir, name), source, items);
    AddsThen(users, inserted, SC.CopyItems(fuel, job, inserted, Child(dir, name), source, items).value);
  }

  lemma {:induction false} CopyItemsAddSameFiles(fuel: nat, job: SC.Job, users: seq<UserFile>, target: string, source: string, items: seq<UserFile>)
    requires fuel > 0 && SC.CopyItems(fuel, job, users, target, source, items).Some?
    requires forall x :: x in items ==> Refers(users, x.fid)
    ensures AddsSameFiles(users, SC.CopyItems(fuel, job, users, target, source, items).value)
    decreases fuel, 0, |items|
  {
    if items != [] {
      var c := items[0];
      assert Refers(users, c.fid);
      var after := users + [NewRow(job.to, c.fid, target, c.name, job.time)];
      if IsFolder(job.files, c) {
        CopyAddsSameFiles(fuel - 1, job, users, c.fid, target, c.name, source);
        after := SC.CopyFolder(fuel - 1, job, users, c.fid, target, c.name, source).value;
      }
      ReferencesGrow(users, after);
      CopyItemsAddSameFiles(fuel, job, after, target, source, items[1..]);
      AddsThen(users, after, SC.CopyItems(fuel, job, after, target, source, items[1..]).value);
    }
  }

  lemma {:induction false} ReceivedAddsSameFiles(fuel: nat, files: Files, users: seq<UserFile>, uid: int, dir: string, time: string, items: seq<UserFile>)
    requires Received(fuel, files, users, uid, dir, time, items).Some?
    requires forall x :: x in items ==> Refers(users, x.fid)
    ensures AddsSameFiles(users, Received(fuel, files, users, uid, dir, time, items).value)
    decreases |items|
  {
    if items != [] {
      var c := items[0];
      assert Refers(users, c.fid);
      var after := users + [NewRow(uid, c.fid, dir, c.name, time)];
      if IsFolder(files, c) {
        CopyAddsSameFiles(fuel, SC.Job(files, uid, time, c.uid), users, c.fid, dir, c.name, c.dir);
        after := SC.CopyFolder(fuel, SC.Job(files, uid, time, c.uid), users, c.fid, dir, c.name, c.dir).value;
      }
      ReferencesGrow(users, after);
      ReceivedAddsSameFiles(fuel, files, after, uid, dir, time, items[1..]);
      AddsThen(users, after, Received(fuel, files, after, uid, dir, time, items[1..]).value);
    }
  }

  lemma AddsKeepInvs(s: Store, users: seq<UserFile>)
    requires StorageInv(s) && LinkInv(s.users) && AddsSameFiles(s.users, users)
    ensures StorageInv(s.(users := users)) && LinkInv(users)
  {
    ReferencesGrow(s.users, users);
    forall r | r in users
      ensures Refers(s.users, r.fid) && (r in s.users || r.link.None?)
    {
      var i :| 0 <= i < |users| && users[i] == r;
      if i < |s.users| {
        assert s.users[i] == r;
      }
    }
    SameFilesKeepInv(s, users);
  }

  // ---------------------------------------------------------------- whole runs

  datatype Step =
    | Upload(rq: UploadRq, openOk: bool)
    | FinishUpload(key: int)
    | ResumeUpload(key: int, uid: int, fid: int, dir: string)
    | AddFolder(uid: int, dir: string, name: string, time: string, made: bool)
    | Share(uid: int, ids: seq<int>, dir: string, time: string, link: int)
    | Receive(uid: int, dir: string, time: string, link: int, fuel: nat)
    | Delete(uid: int, ids: seq<int>, dir: string)
    | Restart

  /** What the protocol asks of a request, and when the code lets the step happen. */
  ghost predicate Allowed(s: Store, step: Step) {
    match step
    case Upload(rq, _) => ValidUpload(rq)
    case FinishUpload(key) => key in s.uploads
    case Share(_, _, _, _, link) => LINK_MIN <= link <= LINK_MAX && !LinkUsed(s.users, link)
    case Receive(uid, dir, time, link, fuel) =>
      Received(fuel, s.files, s.users, uid, dir, time, LinkedRows(s.files, s.users, link)).Some?
    case _ => true
  }

  ghost function Apply(s: Store, step: Step): Store {
    if !Allowed(s, step) then s
    else
      match step
      case Upload(rq, openOk) => Uploaded(s, rq, openOk).0
      case FinishUpload(key) => Completed(s, key, s.uploads[key])
      case ResumeUpload(key, uid, fid, dir) => Resumed(s, key, uid, fid, dir)
      case AddFolder(uid, dir, name, time, made) => FolderAdded(s, uid, dir, name, time, made).0
      case Share(uid, ids, dir, time, link) => s.(users := Shared(s.users, uid, ids, dir, time, link))
      case Receive(uid, dir, time, link, fuel) =>
        s.(users := Received(fuel, s.files, s.users, uid, dir, time, LinkedRows(s.files, s.users, link)).value)
      case Delete(uid, ids, dir) => Deleted(s, uid, ids, dir)
      case Restart => s.(uploads := map[])
  }

  ghost function Run(s: Store, steps: seq<Step>): Store {
    if steps == [] then s else Apply(Run(s, steps[..|steps| - 1]), steps[|steps| - 1])
  }

  const EMPTY_STORE := Store(map[], 1, [], map[], map[])

  lemma FilterKeepsLinks(users: seq<UserFile>, f: UserFile -> bool)
    requires LinkInv(users)
    ensures LinkInv(Filter(users, f))
  {}

  lemma {:induction false} DeletedKeepsInvs(s: Store, uid: int, ids: seq<int>, dir: string)
    requires StorageInv(s) && LinkInv(s.users)
    ensures StorageInv(Deleted(s, uid, ids, dir)) && LinkInv(Deleted(s, uid, ids, dir).users)
    decreases |ids|
  {
    if ids != [] {
      var before := Deleted(s, uid, ids[..|ids| - 1], dir);
      DeletedKeepsInvs(s, uid, ids[..|ids| - 1], dir);
      PruneKeepsInv(before, DeadItem(before, uid, ids[|ids| - 1], dir));
      FilterKeepsLinks(before.users, Kept(DeadItem(before, uid, ids[|ids| - 1], dir)));
    }
  }

  lemma ShareKeepsInvs(s: Store, uid: int, ids: seq<int>, dir: string, time: string, link: int)
    requires StorageInv(s) && LinkInv(s.users) && LINK_MIN <= link <= LINK_MAX && !LinkUsed(s.users, link)
    ensures StorageInv(s.(users := Shared(s.users, uid, ids, dir, time, link)))
    ensures LinkInv(Shared(s.users, uid, ids, dir, time, link))
  {
    SharedSameFiles(s.users, uid, ids, dir, time, link);
    SameFilesKeepInv(s, Shared(s.users, uid, ids, dir, time, link));
    ShareKeepsLinks(s.users, uid, ids, dir, time, link);
  }

  lemma ReceiveKeepsInvs(s: Store, uid: int, dir: string, time: string, link: int, fuel: nat)
    requires StorageInv(s) && LinkInv(s.users)
    requires Received(fuel, s.files, s.users, uid, dir, time, LinkedRows(s.files, s.users, link)).Some?
    ensures var users := Received(fuel, s.files, s.users, uid, dir, time, LinkedRows(s.files, s.users, link)).value;
            StorageInv(s.(users := users)) && LinkInv(users)
  {
    var items := LinkedRows(s.files, s.users, link);
    assert forall x :: x in items ==> x in s.users && Refers(s.users, x.fid);
    ReceivedAddsSameFiles(fuel, s.files, s.users, uid, dir, time, items);
    AddsKeepInvs(s, Received(fuel, s.files, s.users, uid, dir, time, items).value);
  }

  /** An upload or a new folder adds one row without a link. */
  lemma NewRowKeepsLinks(users: seq<UserFile>, more: seq<UserFile>)
    requires LinkInv(users)
    requires more == users || (|more| == |users| + 1 && more[..|users|] == users && more[|users|].link.None?)
    ensures LinkInv(more)
  {}

  lemma ApplyKeepsInvs(s: Store, step: Step)
    requires StorageInv(s) && LinkInv(s.users)
    ensures StorageInv(Apply(s, step)) && LinkInv(Apply(s, step).users)
  {
    if Allowed(s, step) {
      match step
      case Upload(rq, openOk) =>
        UploadKeepsInv(s, rq, openOk);
        NewRowKeepsLinks(s.users, Uploaded(s, rq, openOk).0.users);
      case FinishUpload(key) => CompleteKeepsInv(s, key);
      case ResumeUpload(key, uid, fid, dir) => ResumeKeepsInv(s, key, uid, fid, dir);
      case AddFolder(uid, dir, name, time, made) =>
        AddFolderKeepsInv(s, uid, dir, name, time, made);
        NewRowKeepsLinks(s.users, FolderAdded(s, uid, dir, name, time, made).0.users);
      case Share(uid, ids, dir, time, link) => ShareKeepsInvs(s, uid, ids, dir, time, link);
      case Receive(uid, dir, time, link, fuel) => ReceiveKeepsInvs(s, uid, dir, time, link, fuel);
      case Delete(uid, ids, dir) => DeletedKeepsInvs(s, uid, ids, dir);
      case Restart =>
    }
  }

  lemma {:induction false} RunKeepsInvs(steps: seq<Step>)
    ensures StorageInv(Run(EMPTY_STORE, steps)) && LinkInv(Run(EMPTY_STORE, steps).users)
    decreases |steps|
  {
    if steps != [] {
      RunKeepsInvs(steps[..|steps| - 1]);
      ApplyKeepsInvs(Run(EMPTY_STORE, steps[..|steps| - 1]), steps[|steps| - 1]);
    }
  }

  // ---------------------------------------------------------------- folders and stray rows

  lemma {:induction false} DeletedFilesFirst(s: Store, uid: int, ids: seq<int>, dir: string)
    requires FilesFirst(s.files)
    ensures FilesFirst(Deleted(s, uid, ids, dir).files)
    decreases |ids|
  {
    if ids != [] {
      DeletedFilesFirst(s, uid, ids[..|ids| - 1], dir);
    }
  }

  lemma UploadFilesFirst(s: Store, rq: UploadRq, openOk: bool)
    requires StorageInv(s) && FilesFirst(s.files) && ValidUpload(rq)
    ensures FilesFirst(Uploaded(s, rq, openOk).0.files)
  {
    if Uploaded(s, rq, openOk).1.Accepted? {
      forall g | g in s.files && s.files[g].path == DiskPath(rq.uid, rq.dir, rq.md5)
        ensures s.files[g].kind == FILE
      {
        RowsAtOpenPath(s, rq, g);
      }
    }
  }

  lemma ApplyKeepsFilesFirst(s: Store, step: Step)
    requires StorageInv(s) && FilesFirst(s.files)
    ensures FilesFirst(Apply(s, step).files)
  {
    if Allowed(s, step) {
      match step
      case Upload(rq, openOk) => UploadFilesFirst(s, rq, openOk);
      case Delete(uid, ids, dir) => DeletedFilesFirst(s, uid, ids, dir);
      case _ =>
    }
  }

  lemma {:induction false} RunKeepsFilesFirst(steps: seq<Step>)
    ensures StorageInv(Run(EMPTY_STORE, steps)) && FilesFirst(Run(EMPTY_STORE, steps).files)
    decreases |steps|
  {
    RunKeepsInvs(steps);
    if steps != [] {
      RunKeepsFilesFirst(steps[..|steps| - 1]);
      ApplyKeepsFilesFirst(Run(EMPTY_STORE, steps[..|steps| - 1]), steps[|steps| - 1]);
    }
  }

  // ---------------------------------------------------------------- what every run satisfies

  /**
   Deduplicated storage over whole runs: every row of t_user_file has its file row, with a path that
   exists on disk, and different files that are referred to have different paths.
   */
  lemma DeduplicationSafe(steps: seq<Step>)
    ensures var s := Run(EMPTY_STORE, steps);
            && (forall r :: r in s.users ==> r.fid in s.files && s.files[r.fid].path in s.disk)
            && (forall r, q :: r in s.users && q in s.users && r.fid != q.fid ==> s.files[r.fid].path != s.files[q.fid].path)
  {
    RunKeepsInvs(steps);
    var s := Run(EMPTY_STORE, steps);
    forall r, q | r in s.users && q in s.users && r.fid != q.fid
      ensures s.files[r.fid].path != s.files[q.fid].path
    {
      ReferencedPathsDistinct(s, r, q);
    }
  }

  /** Over whole runs a path leaves the disk only when no row refers to its file any more. */
  lemma UnlinkOnlyUnreferenced(steps: seq<Step>, dead: UserFile -> bool, path: string)
    ensures var s := Run(EMPTY_STORE, steps);
            var t := Prune(s, dead);
            path in s.disk && path !in t.disk ==> forall r :: r in t.users ==> r.fid in t.files && t.files[r.fid].path != path
  {
    RunKeepsInvs(steps);
    var s := Run(EMPTY_STORE, steps);
    PruneKeepsInv(s, dead);
  }
}
