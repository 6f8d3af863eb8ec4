/**
 Downloading a folder: DownloadFolder and DownloadFile consume SELECT results that SelectMysql has
 flattened into one list of strings, and send one header per folder and per file that opens.
 */
module FolderDownload {
  import opened Text
  import opened Sequences
  import opened Tables
  import opened FolderTree
  import opened Transfer

  /** std::list<string> */
  class StringList {
    var items: seq<string>

    constructor ()
      ensures items == []
    {
      items := [];
    }

    method PushBack(s: string)
      modifies this
      ensures items == old(items) + [s]
    {
      items := items + [s];
    }

    method PopFront() returns (s: string)
      requires items != []
      modifies this
      ensures old(items) == [s] + items
    {
      s := items[0];
      items := items[1..];
    }
  }

  /** int& */
  class Counter {
    var value: int
  }

  // ---------------------------------------------------------------- flat results

  /** f_type,f_id,f_name,f_path,f_MD5,f_size,f_dir of a row of user_file_info. */
  function Columns(files: Files): UserFile -> seq<string> {
    (r: UserFile) => if r.fid in files then ColumnsOf(r, files[r.fid]) else []
  }

  function ColumnsOf(r: UserFile, f: FileRow): (c: seq<string>)
    ensures |c| == 7
  {
    [f.kind, ToString(r.fid), r.name, f.path, f.md5, ToString(f.size), r.dir]
  }

  function Flatten(files: Files, rows: seq<UserFile>): seq<string> {
    Collect(rows, Columns(files))
  }

  /** SelectMysql: the result set row by row, column by column, at the end of the list. */
  method SelectMysql(records: seq<seq<string>>, nColumn: nat, lst: StringList)
    requires forall r :: r in records ==> |r| == nColumn
    modifies lst
    ensures lst.items == old(lst.items) + Collect(records, (r: seq<string>) => r)
  {
    var k := 0;
    assert records[..0] == [];
    ghost var id := (r: seq<string>) => r;
    while k < |records|
      invariant 0 <= k <= |records|
      invariant lst.items == old(lst.items) + Collect(records[..k], id)
    {
      var record := records[k];
      assert record in records;
      ghost var before := lst.items;
      for i := 0 to nColumn
        invariant lst.items == before + record[..i]
      {
        assert record[..i + 1] == record[..i] + [record[i]];
        lst.PushBack(record[i]);
      }
      assert record[..nColumn] == record;
      CollectAppend(records[..k], record, id);
      assert records[..k + 1] == records[..k] + [record];
      AppendAssoc(old(lst.items), Collect(records[..k], id), record);
      k := k + 1;
    }
    assert records[..k] == records;
  }

  lemma {:induction false} FlattenIsCollect(files: Files, rows: seq<UserFile>)
    ensures Collect(Map(rows, Columns(files)), (r: seq<string>) => r) == Flatten(files, rows)
  {
    if rows != [] {
      assert Map(rows, Columns(files))[1..] == Map(rows[1..], Columns(files));
      FlattenIsCollect(files, rows[1..]);
    }
  }

  lemma ColumnsWidth(files: Files, rows: seq<UserFile>)
    requires forall r :: r in rows ==> r.fid in files
    ensures forall c :: c in Map(rows, Columns(files)) ==> |c| == 7
  {}

  /** The type of the first row comes first, then its six other columns, then the other rows. */
  lemma FlattenCons(files: Files, rows: seq<UserFile>)
    requires forall r :: r in rows ==> r.fid in files
    ensures Flatten(files, rows) == [] <==> rows == []
    ensures rows != [] ==>
              && rows[0].fid in files
              && Flatten(files, rows)
              == [files[rows[0].fid].kind] + (ColumnsOf(rows[0], files[rows[0].fid])[1..] + Flatten(files, rows[1..]))
  {}

  // ---------------------------------------------------------------- headers

  datatype Header =
    | FolderHeader(timestamp: int, fileid: int, dir: string, fileName: string)
    | FileHeader(timestamp: int, fileid: int, dir: string, fileName: string, md5: string, size: int)

  /** FileInfo of a download that waits for the client's answer to its header. */
  datatype Pending = Pending(fid: int, name: string, path: string, md5: string, size: int, dir: string)

  /** The timestamp counter, the packets sent and the task map. */
  datatype Progress = Progress(timestamp: int, sent: seq<Header>, tasks: map<int, Pending>)

  class Downloads {
    var sent: seq<Header>
    var tasks: map<int, Pending>
    const canOpen: set<string>

    constructor (canOpen: set<string>)
      ensures sent == [] && tasks == map[] && this.canOpen == canOpen
    {
      sent, tasks := [], map[];
      this.canOpen := canOpen;
    }

    ghost function At(timestamp: Counter): Progress
      reads this, timestamp
    {
      Progress(timestamp.value, sent, tasks)
    }
  }

  /** What a directory of the walk contributes. */
  function SeeFolder(p: Progress, r: UserFile): Progress {
    p.(timestamp := p.timestamp + 1, sent := p.sent + [FolderHeader(p.timestamp + 1, r.fid, r.dir, r.name)])
  }

  /** What a row of the walk contributes: nothing at all for a file that does not open. */
  function See(files: Files, uid: int, canOpen: set<string>, p: Progress, r: UserFile): Progress {
    if r.fid !in files then p
    else if files[r.fid].kind != FILE then SeeFolder(p, r)
    else
      var f := files[r.fid];
      if f.path !in canOpen then p
      else
        var t := p.timestamp + 1;
        Progress(t, p.sent + [FileHeader(t, r.fid, r.dir, r.name, f.md5, f.size)],
                 p.tasks[TaskKey(uid, t) := Pending(r.fid, r.name, f.path, f.md5, f.size, r.dir)])
  }

  function SeeAll(files: Files, uid: int, canOpen: set<string>, p: Progress, rows: seq<UserFile>): Progress
    decreases |rows|
  {
    if rows == [] then p else SeeAll(files, uid, canOpen, See(files, uid, canOpen, p, rows[0]), rows[1..])
  }

  lemma {:induction false} SeeSplit(files: Files, uid: int, canOpen: set<string>, p: Progress, a: seq<UserFile>, b: seq<UserFile>)
    ensures SeeAll(files, uid, canOpen, p, a + b) == SeeAll(files, uid, canOpen, SeeAll(files, uid, canOpen, p, a), b)
    decreases |a|
  {
    if a == [] {
      assert a + b == b;
    } else {
      assert (a + b)[1..] == a[1..] + b;
      SeeSplit(files, uid, canOpen, See(files, uid, canOpen, p, a[0]), a[1..], b);
    }
  }

  // ---------------------------------------------------------------- the methods

  method PopCell(lst: StringList, ghost cell: string, ghost rest: seq<string>) returns (s: string)
    requires lst.items == [cell] + rest
    modifies lst
    ensures s == cell && lst.items == rest
  {
    s := lst.PopFront();
    assert [cell] + rest == [s] + lst.items;
    assert ([cell] + rest)[0] == s && ([cell] + rest)[1..] == lst.items;
  }

  /** The six columns after the type. */
  method PopRow(lst: StringList, ghost r: UserFile, ghost f: FileRow, ghost rest: seq<string>)
    returns (fileid: int, strName: string, strPath: string, strMD5: string, size: int, dir: string)
    requires lst.items == ColumnsOf(r, f)[1..] + rest
    modifies lst
    ensures lst.items == rest
    ensures fileid == r.fid && strName == r.name && strPath == f.path && strMD5 == f.md5 && size == f.size && dir == r.dir
  {
    NumberRoundTrip(r.fid);
    NumberRoundTrip(f.size);
    ghost var t5 := [r.dir] + rest;
    ghost var t4 := [ToString(f.size)] + t5;
    ghost var t3 := [f.md5] + t4;
    ghost var t2 := [f.path] + t3;
    ghost var t1 := [r.name] + t2;
    assert lst.items == [ToString(r.fid)] + t1;
    var id := PopCell(lst, ToString(r.fid), t1);
    fileid := Stoi(id);
    strName := PopCell(lst, r.name, t2);
    strPath := PopCell(lst, f.path, t3);
    strMD5 := PopCell(lst, f.md5, t4);
    var sz := PopCell(lst, ToString(f.size), t5);
    size := Stoi(sz);
    dir := PopCell(lst, r.dir, rest);
  }

  method DownloadFile(db: NetDisk, net: Downloads, userid: int, timestamp: Counter, lst: StringList,
                      ghost r: UserFile, ghost rest: seq<string>)
    requires r.fid in db.files && db.files[r.fid].kind == FILE
    requires lst.items == ColumnsOf(r, db.files[r.fid])[1..] + rest
    modifies net, timestamp, lst
    ensures lst.items == rest
    ensures net.At(timestamp) == See(db.files, userid, net.canOpen, old(net.At(timestamp)), r)
  {
    var fileid, strName, strPath, strMD5, size, dir := PopRow(lst, r, db.files[r.fid], rest);
    if strPath !in net.canOpen {
      return;
    }
    timestamp.value := timestamp.value + 1;
    net.tasks := net.tasks[TaskKey(userid, timestamp.value) := Pending(fileid, strName, strPath, strMD5, size, dir)];
    net.sent := net.sent + [FileHeader(timestamp.value, fileid, dir, strName, strMD5, size)];
  }

  method DownloadFolder(db: NetDisk, net: Downloads, userid: int, timestamp: Counter, lst: StringList,
                        ghost r: UserFile, ghost rest: seq<string>)
    requires r.fid in db.files
    requires lst.items == ColumnsOf(r, db.files[r.fid])[1..] + rest
    modifies net, timestamp, lst
    ensures lst.items == rest
    ensures net.At(timestamp) == SeeAll(db.files, userid, net.canOpen, SeeFolder(old(net.At(timestamp)), r),
                                        PreOrder(db.files, db.users, userid, Child(r.dir, r.name)))
    decreases Depth(db.users, Child(r.dir, r.name)), 1
  {
    var fileid, strName, strPath, strMD5, size, dir := PopRow(lst, r, db.files[r.fid], rest);
    timestamp.value := timestamp.value + 1;
    net.sent := net.sent + [FolderHeader(timestamp.value, fileid, dir, strName)];
    var newDir := Child(dir, strName);
    var newlst := SelectDir(db, userid, newDir);
    WalkOfDir(db.files, db.users, userid, net.canOpen, net.At(timestamp), newDir);
    DownloadListed(db, net, userid, timestamp, newlst, newDir, Listed(db.files, db.users, userid, newDir));
  }

  /** select f_type,f_id,f_name,f_path,f_MD5,f_size,f_dir from user_file_info where u_id=.. and f_dir=.. */
  method SelectDir(db: NetDisk, userid: int, newDir: string) returns (newlst: StringList)
    ensures fresh(newlst) && newlst.items == Flatten(db.files, Listed(db.files, db.users, userid, newDir))
  {
    var rows := Listed(db.files, db.users, userid, newDir);
    newlst := new StringList();
    ColumnsWidth(db.files, rows);
    SelectMysql(Map(rows, Columns(db.files)), 7, newlst);
    FlattenIsCollect(db.files, rows);
  }

  /** The loop of DownloadFolder over the result set for its directory. */
  method DownloadListed(db: NetDisk, net: Downloads, userid: int, timestamp: Counter, newlst: StringList,
                        ghost newDir: string, ghost rows: seq<UserFile>)
    requires newlst.items == Flatten(db.files, rows)
    requires forall x :: x in rows ==> InDir(db.files, userid, newDir)(x)
    requires rows != [] ==> Depth(db.users, newDir) > 0
    modifies net, timestamp, newlst
    ensures net.At(timestamp) == SeeItems(db.files, db.users, userid, net.canOpen, old(net.At(timestamp)), newDir, rows)
    decreases Depth(db.users, newDir), 0
  {
    ghost var left := rows;
    while |newlst.items| != 0
      invariant newlst.items == Flatten(db.files, left)
      invariant forall x :: x in left ==> InDir(db.files, userid, newDir)(x)
      invariant left != [] ==> rows != []
      invariant SeeItems(db.files, db.users, userid, net.canOpen, net.At(timestamp), newDir, left)
             == SeeItems(db.files, db.users, userid, net.canOpen, old(net.At(timestamp)), newDir, rows)
      modifies net, timestamp, newlst
      decreases |left|
    {
      FlattenCons(db.files, left);
      ghost var c, others := left[0], left[1..];
      assert InDir(db.files, userid, newDir)(c);
      SeeItem(db.files, db.users, userid, net.canOpen, net.At(timestamp), newDir, left);
      ghost var columns, later := ColumnsOf(c, db.files[c.fid])[1..], Flatten(db.files, others);
      var kind := PopCell(newlst, db.files[c.fid].kind, columns + later);
      if kind == FILE {
        DownloadFile(db, net, userid, timestamp, newlst, c, later);
      } else {
        DownloadFolder(db, net, userid, timestamp, newlst, c, later);
      }
      left := others;
    }
    FlattenCons(db.files, left);
  }

  /** Everything at and below the given rows of a directory. */
  ghost function SeeItems(files: Files, users: seq<UserFile>, uid: int, canOpen: set<string>, p: Progress, dir: string, items: seq<UserFile>): Progress
    requires items != [] ==> Depth(users, dir) > 0
  {
    if items == [] then p else SeeAll(files, uid, canOpen, p, PreItems(files, users, uid, dir, items))
  }

  /** The walk over the rows of a directory, up to and after its first row. */
  lemma SeeItem(files: Files, users: seq<UserFile>, uid: int, canOpen: set<string>, p: Progress, dir: string, items: seq<UserFile>)
    requires items != [] && Depth(users, dir) > 0 && items[0].fid in files
    ensures SeeItems(files, users, uid, canOpen, p, dir, items)
         == SeeItems(files, users, uid, canOpen,
                     if files[items[0].fid].kind == FILE then See(files, uid, canOpen, p, items[0])
                     else SeeAll(files, uid, canOpen, SeeFolder(p, items[0]), PreOrder(files, users, uid, Child(dir, items[0].name))),
                     dir, items[1..])
  {
    var c, below := items[0], Below(files, users, uid, dir, items[0]);
    SeeSplit(files, uid, canOpen, p, [c] + below, PreItems(files, users, uid, dir, items[1..]));
    SeeSplit(files, uid, canOpen, p, [c], below);
  }

  /** The walk below a directory is the walk over the rows that are listed in it. */
  lemma WalkOfDir(files: Files, users: seq<UserFile>, uid: int, canOpen: set<string>, p: Progress, dir: string)
    ensures var rows := Listed(files, users, uid, dir);
            && (rows != [] ==> Depth(users, dir) > 0)
            && SeeItems(files, users, uid, canOpen, p, dir, rows) == SeeAll(files, uid, canOpen, p, PreOrder(files, users, uid, dir))
  {
    var rows := Listed(files, users, uid, dir);
    if rows != [] {
      assert rows[0] in rows;
    }
  }

  /** Only the first row that the request names is served, whatever its type. */
  method DownloadFolderRq(db: NetDisk, net: Downloads, userid: int, fileid: int, dir: string, rqTimestamp: int)
    modifies net
    ensures var found := Hits(db.Abs(), userid, fileid, dir);
            if found == [] then net.sent == old(net.sent) && net.tasks == old(net.tasks)
            else
              var p := SeeAll(db.files, userid, net.canOpen,
                              SeeFolder(Progress(rqTimestamp, old(net.sent), old(net.tasks)), found[0]),
                              PreOrder(db.files, db.users, userid, Child(found[0].dir, found[0].name)));
              net.sent == p.sent && net.tasks == p.tasks
  {
    var found := Hits(db.Abs(), userid, fileid, dir);
    var lstRes := new StringList();
    ColumnsWidth(db.files, found);
    FlattenCons(db.files, found);
    SelectMysql(Map(found, Columns(db.files)), 7, lstRes);
    FlattenIsCollect(db.files, found);
    if |lstRes.items| == 0 {
      return;
    }
    ghost var r, rest := found[0], Flatten(db.files, found[1..]);
    var kind := PopCell(lstRes, db.files[r.fid].kind, ColumnsOf(r, db.files[r.fid])[1..] + rest);
    var timestamp := new Counter;
    timestamp.value := rqTimestamp;
    DownloadFolder(db, net, userid, timestamp, lstRes, r, rest);
  }

  // ---------------------------------------------------------------- what one download sends

  /** The rows a header is sent for. */
  function Shown(files: Files, canOpen: set<string>): UserFile -> bool {
    (r: UserFile) => r.fid in files && (files[r.fid].kind != FILE || files[r.fid].path in canOpen)
  }

  /** The header for a row that is shown. */
  function HeaderOf(files: Files, r: UserFile, timestamp: int): Header
    requires r.fid in files
  {
    var f := files[r.fid];
    if f.kind != FILE then FolderHeader(timestamp, r.fid, r.dir, r.name)
    else FileHeader(timestamp, r.fid, r.dir, r.name, f.md5, f.size)
  }

  /** A file that is announced under this timestamp has its own task waiting under its key. */
  ghost predicate HasTask(files: Files, uid: int, tasks: map<int, Pending>, r: UserFile, timestamp: int) {
    r.fid in files && files[r.fid].kind == FILE ==>
      && TaskKey(uid, timestamp) in tasks
      && var f := files[r.fid];
         tasks[TaskKey(uid, timestamp)] == Pending(r.fid, r.name, f.path, f.md5, f.size, r.dir)
  }

  /** One header per row that is shown, numbered from the timestamp after `t`. */
  function Headers(files: Files, shown: seq<UserFile>, t: int): seq<Header>
    requires forall r :: r in shown ==> r.fid in files
    decreases |shown|
  {
    if shown == [] then []
    else
      assert shown[0] in shown;
      [HeaderOf(files, shown[0], t + 1)] + Headers(files, shown[1..], t + 1)
  }

  lemma ShownCons(files: Files, canOpen: set<string>, rows: seq<UserFile>)
    requires rows != []
    ensures var shown, later := Filter(rows, Shown(files, canOpen)), Filter(rows[1..], Shown(files, canOpen));
            if Shown(files, canOpen)(rows[0]) then shown == [rows[0]] + later && shown[1..] == later else shown == later
  {}

  /** The headers of a walk: the rows shown, in order, numbered without gaps. */
  lemma {:induction false} HeadersInOrder(files: Files, uid: int, canOpen: set<string>, p: Progress, rows: seq<UserFile>)
    ensures var q, shown := SeeAll(files, uid, canOpen, p, rows), Filter(rows, Shown(files, canOpen));
            q.sent == p.sent + Headers(files, shown, p.timestamp) && q.timestamp == p.timestamp + |shown|
    decreases |rows|
  {
    if rows != [] {
      var r, next := rows[0], See(files, uid, canOpen, p, rows[0]);
      ShownCons(files, canOpen, rows);
      HeadersInOrder(files, uid, canOpen, next, rows[1..]);
      if Shown(files, canOpen)(r) {
        var later := Headers(files, Filter(rows[1..], Shown(files, canOpen)), next.timestamp);
        AppendAssoc(p.sent, [HeaderOf(files, r, p.timestamp + 1)], later);
      }
    }
  }

  /** A walk leaves alone the tasks whose keys it does not hand out. */
  lemma {:induction false} OtherTasksKept(files: Files, uid: int, canOpen: set<string>, p: Progress, rows: seq<UserFile>, k: int)
    requires k in p.tasks
    requires !(TaskKey(uid, p.timestamp) < k <= TaskKey(uid, SeeAll(files, uid, canOpen, p, rows).timestamp))
    ensures var q := SeeAll(files, uid, canOpen, p, rows);
            k in q.tasks && q.tasks[k] == p.tasks[k]
    decreases |rows|
  {
    if rows != [] {
      var next := See(files, uid, canOpen, p, rows[0]);
      HeadersInOrder(files, uid, canOpen, next, rows[1..]);
      OtherTasksKept(files, uid, canOpen, next, rows[1..], k);
    }
  }

  /**
   The i-th header of a walk carries the i-th timestamp after the first, whether or not files before it
   failed to open; so every file announced has a task of its own that no other insert has replaced.
   */
  lemma {:induction false} EveryHeaderHasItsTask(files: Files, uid: int, canOpen: set<string>, p: Progress, rows: seq<UserFile>,
                                                 shown: seq<UserFile>, i: nat, t: int)
    requires shown == Filter(rows, Shown(files, canOpen)) && i < |shown| && t == p.timestamp + 1 + i
    ensures HasTask(files, uid, SeeAll(files, uid, canOpen, p, rows).tasks, shown[i], t)
    decreases |rows|
  {
    var next := See(files, uid, canOpen, p, rows[0]);
    ShownCons(files, canOpen, rows);
    if !Shown(files, canOpen)(rows[0]) {
      EveryHeaderHasItsTask(files, uid, canOpen, next, rows[1..], shown, i, t);
    } else if i > 0 {
      EveryHeaderHasItsTask(files, uid, canOpen, next, rows[1..], shown[1..], i - 1, t);
    } else {
      FirstHasItsTask(files, uid, canOpen, p, rows);
    }
  }

  lemma FirstHasItsTask(files: Files, uid: int, canOpen: set<string>, p: Progress, rows: seq<UserFile>)
    requires rows != [] && Shown(files, canOpen)(rows[0])
    ensures HasTask(files, uid, SeeAll(files, uid, canOpen, p, rows).tasks, rows[0], p.timestamp + 1)
  {
    if files[rows[0].fid].kind == FILE {
      var next := See(files, uid, canOpen, p, rows[0]);
      OtherTasksKept(files, uid, canOpen, next, rows[1..], TaskKey(uid, next.timestamp));
    }
  }

  lemma {:induction false} HeaderAt(files: Files, shown: seq<UserFile>, t: int, i: nat)
    requires forall r :: r in shown ==> r.fid in files
    requires i < |shown|
    ensures shown[i].fid in files
    ensures |Headers(files, shown, t)| == |shown| && Headers(files, shown, t)[i] == HeaderOf(files, shown[i], t + 1 + i)
    decreases |shown|
  {
    assert shown[0] in shown;
    if |shown| > 1 {
      HeaderAt(files, shown[1..], t + 1, if i > 0 then i - 1 else 0);
    }
  }

  /**
   A folder download of a well-formed tree: the folder's header, then for every row below it that is a
   folder or opens, each once and in pre-order, its header with consecutive timestamps.
   */
  lemma FolderDownloadExact(s: Store, uid: int, canOpen: set<string>, p: Progress, r: UserFile)
    requires WellFormed(s.files, s.users, uid, Child(r.dir, r.name))
    ensures var walk := PreOrder(s.files, s.users, uid, Child(r.dir, r.name));
            var shown := Filter(walk, Shown(s.files, canOpen));
            && multiset(walk) == multiset(Under(s.files, s.users, uid, Child(r.dir, r.name)))
            && SeeAll(s.files, uid, canOpen, SeeFolder(p, r), walk).sent
            == p.sent + ([FolderHeader(p.timestamp + 1, r.fid, r.dir, r.name)] + Headers(s.files, shown, p.timestamp + 1))
  {
    var walk, first := PreOrder(s.files, s.users, uid, Child(r.dir, r.name)), SeeFolder(p, r);
    PreOrderIsUnder(s.files, s.users, uid, Child(r.dir, r.name));
    HeadersInOrder(s.files, uid, canOpen, first, walk);
    AppendAssoc(p.sent, [FolderHeader(p.timestamp + 1, r.fid, r.dir, r.name)],
                Headers(s.files, Filter(walk, Shown(s.files, canOpen)), p.timestamp + 1));
  }
}
