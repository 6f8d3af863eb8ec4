/**
 The database and disk behind the handlers: t_file by id, t_user_file in insertion order, and which
 paths of the data directory hold a file or a directory. user_file_info is the join on f_id.
 */
module Tables {
  import opened Wrappers
  import opened Sequences

  const FILE := "file"
  const FOLDER := "folder"
  const NO_MD5 := "?"

  /** A row of t_file. */
  datatype FileRow = FileRow(size: int, path: string, md5: string, state: int, kind: string)

  /** A row of t_user_file; `link` holds s_link and s_linkTime. */
  datatype UserFile = UserFile(uid: int, fid: int, dir: string, name: string, time: string, link: Option<(int, string)>)

  type Files = map<int, FileRow>

  /** insert into t_user_file: the link columns stay NULL. */
  function NewRow(uid: int, fid: int, dir: string, name: string, time: string): UserFile {
    UserFile(uid, fid, dir, name, time, None)
  }

  /** The row appears in user_file_info and is not of type "file". */
  predicate IsFolder(files: Files, r: UserFile) {
    r.fid in files && files[r.fid].kind != FILE
  }

  function InDir(files: Files, uid: int, dir: string): UserFile -> bool {
    (r: UserFile) => r.uid == uid && r.dir == dir && r.fid in files
  }

  /** select .. from user_file_info where u_id=.. and f_dir=.. */
  function Listed(files: Files, users: seq<UserFile>, uid: int, dir: string): seq<UserFile> {
    Filter(users, InDir(files, uid, dir))
  }

  /** What the data directory holds at a path. */
  datatype Node = Regular | Directory

  /** Tables, disk and the file ids of the uploads in progress, by task key. */
  datatype Store = Store(files: Files, nextId: int, users: seq<UserFile>, disk: map<string, Node>, uploads: map<int, int>)

  /** where u_id=.. and f_id=.. and f_dir=.. */
  function Matches(uid: int, fid: int, dir: string): UserFile -> bool {
    (r: UserFile) => r.uid == uid && r.fid == fid && r.dir == dir
  }

  /** select .. from user_file_info where u_id=.. and f_id=.. and f_dir=.. */
  function Hits(s: Store, uid: int, fid: int, dir: string): seq<UserFile> {
    if fid in s.files then Filter(s.users, Matches(uid, fid, dir)) else []
  }

  /** The database connection and the data directory that the handlers of CLogic work on. */
  class NetDisk {
    var files: Files
    var nextId: int
    var users: seq<UserFile>
    var disk: map<string, Node>
    var uploads: map<int, int>

    constructor ()
      ensures Abs() == Store(map[], 1, [], map[], map[])
    {
      files, nextId, users, disk, uploads := map[], 1, [], map[], map[];
    }

    function Abs(): Store
      reads this
    {
      Store(files, nextId, users, disk, uploads)
    }
  }
}
