/**
 What the requests that change the tables are answered, and exactly which rows and paths they add, change and
 remove.
 */
module TableAnswers {
  import opened Text
  import opened Wrappers
  import opened Sequences
  import opened Tables
  import opened FolderTree
  import opened Transfer
  import opened DeleteTree
  import opened Storage
  import SC = ShareCopy

  // ---------------------------------------------------------------- upload and new folder

  /** Some finished file has this md5 value. */
  ghost predicate Known(files: Files, md5: string) {
    exists f :: f in files && files[f].md5 == md5 && files[f].state == 1
  }

  predicate IsDirectory(disk: map<string, Node>, path: string) {
    path in disk && disk[path] == Directory
  }

  /**
   An upload is quick if and only if a finished file of that md5 value exists, and otherwise it is accepted if
   and only if its path opens. A quick one refers to the oldest such file. An accepted one records the file as
   requested, unfinished, and refers to the row that it is accepted under.
   */
  lemma UploadAnswer(s: Store, rq: UploadRq, openOk: bool)
    requires StorageInv(s)
    ensures var (t, reply) := Uploaded(s, rq, openOk);
            var path := DiskPath(rq.uid, rq.dir, rq.md5);
            && (reply.Quick? <==> Known(s.files, rq.md5))
            && (reply.Accepted? <==> !Known(s.files, rq.md5) && openOk && !IsDirectory(s.disk, path))
            && (reply.Silent? ==> t == s)
            && (reply.Quick? ==>
                  exists f :: f in s.files && s.files[f].md5 == rq.md5 && s.files[f].state == 1
                              && (forall g :: g in s.files && s.files[g].md5 == rq.md5 && s.files[g].state == 1 ==> f <= g)
                              && t == s.(users := s.users + [NewRow(rq.uid, f, rq.dir, rq.fileName, rq.time)]))
            && (reply.Accepted? ==>
                  t == Store(s.files[s.nextId := FileRow(rq.size, path, rq.md5, 0, FILE)], s.nextId + 1,
                             s.users + [NewRow(rq.uid, reply.fid, rq.dir, rq.fileName, rq.time)], s.disk[path := Regular],
                             s.uploads[TaskKey(rq.uid, rq.timestamp) := reply.fid]))
  {
    var known := FirstId(s.files, 1, s.nextId, Finished(rq.md5));
    forall f | f in s.files && s.files[f].md5 == rq.md5 && s.files[f].state == 1
      ensures known.Some? && known.value <= f
    {
      assert Finished(rq.md5)(s.files[f]);
    }
    if known.Some? {
      assert Finished(rq.md5)(s.files[known.value]);
    }
  }

  /**
   A new folder succeeds if and only if its directory is there already, or nothing is at the path and mkdir
   succeeds. Then the directory is there, and one row is recorded and one listed.
   */
  lemma FolderAnswer(s: Store, uid: int, dir: string, name: string, time: string, made: bool)
    ensures var (t, result) := FolderAdded(s, uid, dir, name, time, made);
            var path := DiskPath(uid, dir, name);
            && (result == 1 <==> IsDirectory(s.disk, path) || (path !in s.disk && made)) && (result == 0 || result == 1)
            && (result == 0 ==> t == s)
            && (result == 1 ==>
                  && t.files == s.files[s.nextId := FileRow(0, path, NO_MD5, 1, FOLDER)] && t.nextId == s.nextId + 1
                  && t.disk == s.disk[path := Directory] && t.uploads == s.uploads
                  && |t.users| == |s.users| + 1 && t.users == s.users + [NewRow(uid, t.users[|s.users|].fid, dir, name, time)])
  {}

  // ---------------------------------------------------------------- sharing

  /** A share gives its link to the rows it names, and leaves every other row, with any link of its own, as it is. */
  lemma SharedExactly(users: seq<UserFile>, uid: int, ids: seq<int>, dir: string, time: string, link: int, i: nat)
    requires i < |users|
    ensures var after := Shared(users, uid, ids, dir, time, link);
            && |after| == |users|
            && after[i] == if users[i].uid == uid && users[i].dir == dir && users[i].fid in ids
                           then users[i].(link := Some((link, time))) else users[i]
  {}

  /** Exactly the numbers of nine digits that do not begin with a zero can be drawn. */
  lemma LinksDrawn(link: int)
    ensures (exists a: nat, b: nat :: Link(a, b) == link) <==> 100_000_000 <= link <= 999_999_999
  {
    if 100_000_000 <= link <= 999_999_999 {
      var a: nat, b: nat := link / 100_000_000 - 1, link % 100_000_000;
      assert Link(a, b) == link;
    }
  }

  // ---------------------------------------------------------------- receiving

  /** What the receiver gets for one linked row: a row, or the image of the sender's folder. */
  function Part(files: Files, users: seq<UserFile>, uid: int, dir: string, time: string): UserFile -> seq<UserFile> {
    (c: UserFile) => if IsFolder(files, c) then SC.Image(SC.Job(files, uid, time, c.uid), users, c.fid, dir, c.name, c.dir)
                     else [NewRow(uid, c.fid, dir, c.name, time)]
  }

  ghost predicate AllOf(rows: seq<UserFile>, uid: int) {
    forall r :: r in rows ==> r.uid == uid
  }

  lemma PartIsReceivers(files: Files, users: seq<UserFile>, uid: int, dir: string, time: string, c: UserFile)
    ensures AllOf(Part(files, users, uid, dir, time)(c), uid)
  {}

  /** One folder of another user, after others have been received. */
  lemma FolderReceived(fuel: nat, files: Files, users: seq<UserFile>, added: seq<UserFile>, uid: int, dir: string, time: string, c: UserFile)
    requires AllOf(added, uid) && IsFolder(files, c) && c.uid != uid && fuel > Bound(users) + 1
    ensures SC.CopyFolder(fuel, SC.Job(files, uid, time, c.uid), users + added, c.fid, dir, c.name, c.dir)
         == Some(users + (added + Part(files, users, uid, dir, time)(c)))
  {
    var job := SC.Job(files, uid, time, c.uid);
    SC.ApartForOthers(job, users, Child(c.dir, c.name), dir, Child(dir, c.name));
    SC.CopyIsImage(fuel, job, users, added, Child(c.dir, c.name), Child(dir, c.name), c.fid, dir, c.name, c.dir);
  }

  /**
   Whatever a link leads to, the receiver gets it in order: for a plain file one row, in the directory and at
   the time of the request, with the id and the name of the sender's row; for a folder of another user the image
   of the folder. Nothing else is added, and no row changes.
   */
  lemma {:induction false} ReceivedExactly(fuel: nat, files: Files, users: seq<UserFile>, added: seq<UserFile>, uid: int, dir: string,
                                           time: string, items: seq<UserFile>)
    requires AllOf(added, uid) && fuel > Bound(users) + 1
    requires forall c :: c in items && IsFolder(files, c) ==> c.uid != uid
    ensures Received(fuel, files, users + added, uid, dir, time, items)
         == Some(users + (added + Collect(items, Part(files, users, uid, dir, time))))
    decreases |items|
  {
    var part := Part(files, users, uid, dir, time);
    if items == [] {
      assert added + [] == added;
    } else {
      var c := items[0];
      if IsFolder(files, c) {
        FolderReceived(fuel, files, users, added, uid, dir, time, c);
      } else {
        AppendAssoc(users, added, part(c));
      }
      PartIsReceivers(files, users, uid, dir, time, c);
      ReceivedExactly(fuel, files, users, added + part(c), uid, dir, time, items[1..]);
      AppendAssoc(added, part(c), Collect(items[1..], part));
    }
  }

  /** The row that the receiver finds in the directory of the request for a linked row. */
  function AsReceived(uid: int, dir: string, time: string): UserFile -> UserFile {
    (c: UserFile) => NewRow(uid, c.fid, dir, c.name, time)
  }

  /** Of a part, exactly its first row is in the directory itself. */
  lemma PartInDir(files: Files, users: seq<UserFile>, uid: int, dir: string, time: string, c: UserFile)
    requires c.fid in files
    ensures Filter(Part(files, users, uid, dir, time)(c), InDir(files, uid, dir)) == [AsReceived(uid, dir, time)(c)]
  {
    var part, first := Part(files, users, uid, dir, time)(c), [AsReceived(uid, dir, time)(c)];
    var rest := part[1..];
    assert part == first + rest;
    FilterSplit(first, rest, InDir(files, uid, dir));
    FilterNone(rest, InDir(files, uid, dir));
    FilterAll(first, InDir(files, uid, dir));
  }

  lemma MapCons(items: seq<UserFile>, f: UserFile -> UserFile)
    requires items != []
    ensures Map(items, f) == [f(items[0])] + Map(items[1..], f)
  {}

  lemma {:induction false} PartsInDir(files: Files, users: seq<UserFile>, uid: int, dir: string, time: string, items: seq<UserFile>)
    requires forall c :: c in items ==> c.fid in files
    ensures Filter(Collect(items, Part(files, users, uid, dir, time)), InDir(files, uid, dir)) == Map(items, AsReceived(uid, dir, time))
    decreases |items|
  {
    if items != [] {
      var part, f := Part(files, users, uid, dir, time), AsReceived(uid, dir, time);
      assert Collect(items, part) == part(items[0]) + Collect(items[1..], part);
      FilterSplit(part(items[0]), Collect(items[1..], part), InDir(files, uid, dir));
      PartInDir(files, users, uid, dir, time, items[0]);
      PartsInDir(files, users, uid, dir, time, items[1..]);
      MapCons(items, f);
    }
  }

  lemma {:induction false} PartsAreReceivers(files: Files, users: seq<UserFile>, uid: int, dir: string, time: string, items: seq<UserFile>)
    ensures AllOf(Collect(items, Part(files, users, uid, dir, time)), uid)
    decreases |items|
  {
    if items != [] {
      PartIsReceivers(files, users, uid, dir, time, items[0]);
      PartsAreReceivers(files, users, uid, dir, time, items[1..]);
    }
  }

  /**
   After entering a link, the receiver's directory lists one more row for every linked row, in order, and the
   directories of all other users list what they did.
   */
  lemma ReceivedIsListed(s: Store, link: int, uid: int, dir: string, time: string, fuel: nat, other: int, otherDir: string)
    requires fuel > Bound(s.users) + 1 && other != uid
    requires forall c :: c in LinkedRows(s.files, s.users, link) && IsFolder(s.files, c) ==> c.uid != uid
    ensures var items := LinkedRows(s.files, s.users, link);
            var got := Received(fuel, s.files, s.users, uid, dir, time, items);
            && got.Some?
            && Listed(s.files, got.value, uid, dir) == Listed(s.files, s.users, uid, dir) + Map(items, AsReceived(uid, dir, time))
            && Listed(s.files, got.value, other, otherDir) == Listed(s.files, s.users, other, otherDir)
  {
    var items := LinkedRows(s.files, s.users, link);
    var parts := Collect(items, Part(s.files, s.users, uid, dir, time));
    ReceivedExactly(fuel, s.files, s.users, [], uid, dir, time, items);
    assert s.users + [] == s.users && [] + parts == parts;
    FilterSplit(s.users, parts, InDir(s.files, uid, dir));
    PartsInDir(s.files, s.users, uid, dir, time, items);
    FilterSplit(s.users, parts, InDir(s.files, other, otherDir));
    PartsAreReceivers(s.files, s.users, uid, dir, time, items);
    FilterNone(parts, InDir(s.files, other, otherDir));
  }

  /** Right after a share its link finds, in user_file_info too, just the rows that the share has named. */
  lemma LinkFinds(s: Store, uid: int, ids: seq<int>, dir: string, time: string, link: int)
    requires StorageInv(s) && !LinkUsed(s.users, link)
    ensures LinkedRows(s.files, Shared(s.users, uid, ids, dir, time, link), link)
         == Map(Filter(s.users, Named(uid, ids, dir)), WithLink(uid, ids, dir, time, link))
  {
    var shared := Shared(s.users, uid, ids, dir, time, link);
    LookupAfterShare(s.users, uid, ids, dir, time, link);
    SharedSameFiles(s.users, uid, ids, dir, time, link);
    FilterAgree(shared, (r: UserFile) => Carries(link)(r) && r.fid in s.files, Carries(link));
  }

  lemma SameAsReceived(rows: seq<UserFile>, uid: int, ids: seq<int>, dir: string, time: string, link: int, to: int, at: string, when: string)
    ensures Map(Map(rows, WithLink(uid, ids, dir, time, link)), AsReceived(to, at, when)) == Map(rows, AsReceived(to, at, when))
  {}

  /**
   Share, then receive, for any number of files and folders: when a user shares rows of a directory and another
   user enters the link, the directory that this one has chosen lists in addition, in order, a row for every row
   that was named and still there, under the same id and name.
   */
  lemma SharedIsReceived(s: Store, uid: int, ids: seq<int>, dir: string, time: string, link: int, to: int, at: string, when: string, fuel: nat)
    requires StorageInv(s) && !LinkUsed(s.users, link) && to != uid
    requires fuel > Bound(Shared(s.users, uid, ids, dir, time, link)) + 1
    ensures var shared := Shared(s.users, uid, ids, dir, time, link);
            var got := Received(fuel, s.files, shared, to, at, when, LinkedRows(s.files, shared, link));
            && got.Some?
            && Listed(s.files, got.value, to, at)
            == Listed(s.files, shared, to, at) + Map(Filter(s.users, Named(uid, ids, dir)), AsReceived(to, at, when))
  {
    var shared := Shared(s.users, uid, ids, dir, time, link);
    var rows := Filter(s.users, Named(uid, ids, dir));
    LinkFinds(s, uid, ids, dir, time, link);
    forall c | c in LinkedRows(s.files, shared, link)
      ensures c.uid != to
    {
      var i :| 0 <= i < |rows| && c == WithLink(uid, ids, dir, time, link)(rows[i]);
      assert rows[i] in rows && Named(uid, ids, dir)(rows[i]);
    }
    ReceivedIsListed(s.(users := shared), link, to, at, when, fuel, uid, dir);
    SameAsReceived(rows, uid, ids, dir, time, link, to, at, when);
  }

  // ---------------------------------------------------------------- deletion

  /**
   A deletion is exact: a file row goes if and only if it is of a plain file and its last reference goes, and
   a path is unlinked if and only if a plain file was there and the file row of such a path goes.
   */
  lemma PruneExact(s: Store, dead: UserFile -> bool, fid: int, path: string)
    ensures var t := Prune(s, dead);
            && (fid in t.files <==> fid in s.files && (s.files[fid].kind != FILE || Refers(t.users, fid) || !Refers(s.users, fid)))
            && (fid in t.files ==> t.files[fid] == s.files[fid])
            && (path in t.disk <==> path in s.disk && (s.disk[path] != Regular || !exists f :: f in s.files && f !in t.files && s.files[f].path == path))
            && (path in t.disk ==> t.disk[path] == s.disk[path])
            && t.users == Filter(s.users, Kept(dead)) && t.nextId == s.nextId && t.uploads == s.uploads
  {
    var t := Prune(s, dead);
    forall f | f in s.files
      ensures f in t.files <==> s.files[f].kind != FILE || Refers(t.users, f) || !Refers(s.users, f)
      ensures f !in t.files <==> LosesLast(s, dead, f)
    {
      StillThere(s, dead, f);
    }
  }

  lemma StillThere(s: Store, dead: UserFile -> bool, f: int)
    requires f in s.files
    ensures var t := Prune(s, dead);
            f in t.files <==> s.files[f].kind != FILE || Refers(t.users, f) || !Refers(s.users, f)
  {}

  function OtherThan(uid: int, fid: int, dir: string): UserFile -> bool {
    (r: UserFile) => !(r.uid == uid && r.fid == fid && r.dir == dir)
  }

  /** Deleting a plain file takes the user's rows for it in this directory, whoever else refers to it. */
  lemma FileDeletionExact(s: Store, uid: int, fid: int, dir: string)
    requires fid in s.files && s.files[fid].kind == FILE
    ensures Deleted(s, uid, [fid], dir).users == Filter(s.users, OtherThan(uid, fid, dir))
  {
    var f := OtherThan(uid, fid, dir);
    assert Deleted(s, uid, [fid][..0], dir) == s;
    var dead := DeadItem(s, uid, fid, dir);
    forall r | r in s.users
      ensures Kept(dead)(r) <==> f(r)
    {
      if Matches(uid, fid, dir)(r) {
        assert r in Hits(s, uid, fid, dir);
      }
    }
    FilterAgree(s.users, Kept(dead), f);
  }

  /** Deleting a folder takes what `DeleteTree.DeleteFolderExact` says, under the name of the first row found. */
  lemma FolderDeletionExact(s: Store, uid: int, fid: int, dir: string)
    requires Integral(s) && Hits(s, uid, fid, dir) != [] && s.files[fid].kind != FILE
    requires WellFormed(s.files, s.users, uid, Child(dir, Hits(s, uid, fid, dir)[0].name))
    ensures Deleted(s, uid, [fid], dir).users == Filter(s.users, Outside(uid, fid, dir, Hits(s, uid, fid, dir)[0].name))
  {
    assert Deleted(s, uid, [fid][..0], dir) == s;
    DeleteFolderExact(s, uid, fid, dir, Hits(s, uid, fid, dir)[0].name);
  }
}
