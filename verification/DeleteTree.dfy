/**
 Deleting files and folders: the rows that go, the file rows that lose their last reference, and the
 paths that are unlinked with them.
 */
module DeleteTree {
  import opened Text
  import opened Sequences
  import opened Tables
  import opened FolderTree

  /** Every row of t_user_file refers to a row of t_file. */
  predicate Integral(s: Store) {
    forall r :: r in s.users ==> r.fid in s.files
  }

  predicate Refers(users: seq<UserFile>, fid: int) {
    exists r :: r in users && r.fid == fid
  }

  function Unlink(disk: map<string, Node>, path: string): map<string, Node> {
    if path in disk && disk[path] == Regular then disk - {path} else disk
  }

  function Kept(dead: UserFile -> bool): UserFile -> bool {
    r => !dead(r)
  }

  /** The plain files that some dead row refers to and no other row. */
  ghost predicate LosesLast(s: Store, dead: UserFile -> bool, fid: int) {
    && fid in s.files && s.files[fid].kind == FILE
    && (exists r :: r in s.users && dead(r) && r.fid == fid)
    && (forall r :: r in s.users && r.fid == fid ==> dead(r))
  }

  ghost predicate PathLost(s: Store, dead: UserFile -> bool, path: string) {
    exists fid :: LosesLast(s, dead, fid) && s.files[fid].path == path
  }

  /** The store without the dead rows: a file row and its disk file go with the last reference, no sooner. */
  ghost function Prune(s: Store, dead: UserFile -> bool): Store {
    s.(users := Filter(s.users, Kept(dead)),
       files := map fid | fid in s.files && !LosesLast(s, dead, fid) :: s.files[fid],
       disk := map p | p in s.disk && !(s.disk[p] == Regular && PathLost(s, dead, p)) :: s.disk[p])
  }

  /** Deleting the folder `name` of `dir` removes its own row and what its rows lead to. */
  ghost predicate GoesWithFolder(s: Store, uid: int, fid: int, dir: string, name: string, r: UserFile) {
    Matches(uid, fid, dir)(r) || (r.uid == uid && Reaches(s.files, s.users, uid, Child(dir, name), r.dir))
  }

  ghost function InFolder(s: Store, uid: int, fid: int, dir: string, name: string): UserFile -> bool {
    r => GoesWithFolder(s, uid, fid, dir, name, r)
  }

  /** The row goes with the row `c` of `newdir`. */
  ghost predicate GoesWith(s: Store, uid: int, newdir: string, c: UserFile, r: UserFile) {
    if IsFolder(s.files, c) then GoesWithFolder(s, uid, c.fid, newdir, c.name, r) else Matches(uid, c.fid, newdir)(r)
  }

  /** The row is gone before the i-th of the rows found in `newdir` is looked at. */
  ghost predicate GoneBefore(s: Store, uid: int, fid: int, dir: string, newdir: string, items: seq<UserFile>, i: nat, r: UserFile)
    requires i <= |items|
  {
    Matches(uid, fid, dir)(r) || exists j :: 0 <= j < i && GoesWith(s, uid, newdir, items[j], r)
  }

  ghost function DeadUpTo(s: Store, uid: int, fid: int, dir: string, newdir: string, items: seq<UserFile>, i: nat): UserFile -> bool
    requires i <= |items|
  {
    r => GoneBefore(s, uid, fid, dir, newdir, items, i, r)
  }

  // ---------------------------------------------------------------- pruning

  lemma PruneKeepsIntegrity(s: Store, dead: UserFile -> bool)
    requires Integral(s)
    ensures Integral(Prune(s, dead))
  {}

  lemma PruneFacts(s: Store, dead: UserFile -> bool, fid: int)
    ensures var t := Prune(s, dead);
            && (fid in s.files && s.files[fid].kind != FILE ==> fid in t.files && t.files[fid] == s.files[fid])
            && (fid in t.files ==> fid in s.files && t.files[fid] == s.files[fid])
  {}

  lemma LosesLastTwice(s: Store, a: UserFile -> bool, b: UserFile -> bool, c: UserFile -> bool, fid: int)
    requires forall r :: r in s.users ==> (c(r) <==> a(r) || b(r))
    ensures LosesLast(s, c, fid) <==> LosesLast(s, a, fid) || LosesLast(Prune(s, a), b, fid)
  {}

  lemma PathLostTwice(s: Store, a: UserFile -> bool, b: UserFile -> bool, c: UserFile -> bool, p: string)
    requires forall fid :: LosesLast(s, c, fid) <==> LosesLast(s, a, fid) || LosesLast(Prune(s, a), b, fid)
    ensures PathLost(s, c, p) <==> PathLost(s, a, p) || PathLost(Prune(s, a), b, p)
  {}

  /** Pruning twice prunes once by the union. */
  lemma PruneTwice(s: Store, a: UserFile -> bool, b: UserFile -> bool, c: UserFile -> bool)
    requires forall r :: r in s.users ==> (c(r) <==> a(r) || b(r))
    ensures Prune(Prune(s, a), b) == Prune(s, c)
  {
    var t := Prune(s, a);
    FilterTwice(s.users, Kept(a), Kept(b), Kept(c));
    forall fid
      ensures LosesLast(s, c, fid) <==> LosesLast(s, a, fid) || LosesLast(t, b, fid)
    {
      LosesLastTwice(s, a, b, c, fid);
    }
    assert Prune(t, b).files == Prune(s, c).files;
    forall p
      ensures PathLost(s, c, p) <==> PathLost(s, a, p) || PathLost(t, b, p)
    {
      PathLostTwice(s, a, b, c, p);
    }
    assert Prune(t, b).disk == Prune(s, c).disk;
  }

  lemma PruneAgree(s: Store, a: UserFile -> bool, b: UserFile -> bool)
    requires forall r :: r in s.users ==> (a(r) <==> b(r))
    ensures Prune(s, a) == Prune(s, b)
  {
    FilterAgree(s.users, Kept(a), Kept(b));
    forall fid ensures LosesLast(s, a, fid) <==> LosesLast(s, b, fid) {}
    forall p ensures PathLost(s, a, p) <==> PathLost(s, b, p) {}
    assert Prune(s, a).files == Prune(s, b).files;
    assert Prune(s, a).disk == Prune(s, b).disk;
  }

  // ---------------------------------------------------------------- one file

  /** DeleteFile, statement by statement. */
  function FileDeleted(s: Store, uid: int, fid: int, dir: string, path: string): Store {
    var users := Filter(s.users, Kept(Matches(uid, fid, dir)));
    if Refers(users, fid) then s.(users := users)
    else s.(users := users, files := s.files - {fid}, disk := Unlink(s.disk, path))
  }

  /** After any earlier step on the same rows, the delete statement can cost only this file its last reference. */
  lemma LosesOnlyThis(s: Store, a: UserFile -> bool, c: UserFile, fid: int)
    requires c in s.users && c.fid in s.files && s.files[c.fid].kind == FILE
    ensures var t, m := Prune(s, a), Matches(c.uid, c.fid, c.dir);
            LosesLast(t, m, fid) <==> fid == c.fid && fid in t.files && !Refers(Filter(t.users, Kept(m)), fid)
  {}

  /** The last reference goes: the row goes, and so does what is at its path. */
  lemma LastReference(s: Store, a: UserFile -> bool, c: UserFile)
    requires c in s.users && c.fid in s.files && s.files[c.fid].kind == FILE
    requires var t, m := Prune(s, a), Matches(c.uid, c.fid, c.dir);
             && (forall fid :: LosesLast(t, m, fid) <==> fid == c.fid && fid in t.files)
             && (c.fid !in t.files ==> LosesLast(s, a, c.fid))
    ensures var t, m := Prune(s, a), Matches(c.uid, c.fid, c.dir);
            Prune(t, m).files == t.files - {c.fid} && Prune(t, m).disk == Unlink(t.disk, s.files[c.fid].path)
  {}

  /** Nothing loses its last reference: rows and disk stay. */
  lemma NothingLost(t: Store, m: UserFile -> bool)
    requires forall fid :: !LosesLast(t, m, fid)
    ensures Prune(t, m).files == t.files && Prune(t, m).disk == t.disk
  {}

  /**
   DeleteFile takes away a file row and unlinks its path with the last reference, and only then; also
   when an earlier step on the same list has already removed the row it is called for.
   */
  lemma FileDeletedIsPrune(s: Store, a: UserFile -> bool, c: UserFile)
    requires c in s.users && c.fid in s.files && s.files[c.fid].kind == FILE
    ensures var t := Prune(s, a);
            FileDeleted(t, c.uid, c.fid, c.dir, s.files[c.fid].path) == Prune(t, Matches(c.uid, c.fid, c.dir))
  {
    var t, m := Prune(s, a), Matches(c.uid, c.fid, c.dir);
    forall fid
      ensures LosesLast(t, m, fid) <==> fid == c.fid && fid in t.files && !Refers(Filter(t.users, Kept(m)), fid)
    {
      LosesOnlyThis(s, a, c, fid);
    }
    if Refers(Filter(t.users, Kept(m)), c.fid) {
      NothingLost(t, m);
    } else {
      LastReference(s, a, c);
    }
  }

  // ---------------------------------------------------------------- one folder

  /** What leads to a directory still does, unless the directory went with an earlier row. */
  lemma {:induction false} StillReached(s: Store, uid: int, fid: int, dir: string, newdir: string, items: seq<UserFile>, i: nat, d: string)
    requires i < |items| && |dir| <= |newdir|
    requires Reaches(s.files, s.users, uid, Child(newdir, items[i].name), d)
    ensures var t := Prune(s, DeadUpTo(s, uid, fid, dir, newdir, items, i));
            || Reaches(t.files, t.users, uid, Child(newdir, items[i].name), d)
            || exists j :: 0 <= j < i && IsFolder(s.files, items[j]) && Reaches(s.files, s.users, uid, Child(newdir, items[j].name), d)
    decreases |d|
  {
    var top := Child(newdir, items[i].name);
    var dead := DeadUpTo(s, uid, fid, dir, newdir, items, i);
    var t := Prune(s, dead);
    if d != top {
      var p :| p in s.users && Makes(s.files, uid, p, d) && Reaches(s.files, s.users, uid, top, p.dir);
      StillReached(s, uid, fid, dir, newdir, items, i, p.dir);
      if j :| 0 <= j < i && IsFolder(s.files, items[j]) && Reaches(s.files, s.users, uid, Child(newdir, items[j].name), p.dir) {
        assert Reaches(s.files, s.users, uid, Child(newdir, items[j].name), d);
      } else {
        ReachesHasPrefix(s.files, s.users, uid, top, p.dir);
        assert !dead(p);
        PruneFacts(s, dead, p.fid);
        assert p in t.users && Makes(t.files, uid, p, d);
      }
    }
  }

  lemma {:induction false} ReachedBefore(s: Store, a: UserFile -> bool, uid: int, root: string, d: string)
    requires Reaches(Prune(s, a).files, Prune(s, a).users, uid, root, d)
    ensures Reaches(s.files, s.users, uid, root, d)
    decreases |d|
  {
    if d != root {
      var t := Prune(s, a);
      var p :| p in t.users && Makes(t.files, uid, p, d) && Reaches(t.files, t.users, uid, root, p.dir);
      ReachedBefore(s, a, uid, root, p.dir);
      assert p in s.users && Makes(s.files, uid, p, d);
    }
  }

  /** One round of the loop in DeleteFolder. */
  lemma FolderRound(s: Store, uid: int, fid: int, dir: string, newdir: string, items: seq<UserFile>, i: nat)
    requires i < |items| && |dir| <= |newdir| && IsFolder(s.files, items[i])
    ensures var t := Prune(s, DeadUpTo(s, uid, fid, dir, newdir, items, i));
            Prune(t, InFolder(t, uid, items[i].fid, newdir, items[i].name)) == Prune(s, DeadUpTo(s, uid, fid, dir, newdir, items, i + 1))
  {
    var a, c := DeadUpTo(s, uid, fid, dir, newdir, items, i), DeadUpTo(s, uid, fid, dir, newdir, items, i + 1);
    var t := Prune(s, a);
    var b := InFolder(t, uid, items[i].fid, newdir, items[i].name);
    forall r | r in s.users
      ensures c(r) <==> a(r) || b(r)
    {
      RoundExtends(s, uid, fid, dir, newdir, items, i, r);
      if b(r) && !Matches(uid, items[i].fid, newdir)(r) {
        ReachedBefore(s, a, uid, Child(newdir, items[i].name), r.dir);
      }
      if c(r) && GoesWith(s, uid, newdir, items[i], r) && !Matches(uid, items[i].fid, newdir)(r) {
        StillReached(s, uid, fid, dir, newdir, items, i, r.dir);
        if j :| 0 <= j < i && IsFolder(s.files, items[j]) && Reaches(s.files, s.users, uid, Child(newdir, items[j].name), r.dir) {
          assert GoesWith(s, uid, newdir, items[j], r);
        }
      }
    }
    PruneTwice(s, a, b, c);
  }

  lemma RoundExtends(s: Store, uid: int, fid: int, dir: string, newdir: string, items: seq<UserFile>, i: nat, r: UserFile)
    requires i < |items|
    ensures DeadUpTo(s, uid, fid, dir, newdir, items, i + 1)(r)
       <==> DeadUpTo(s, uid, fid, dir, newdir, items, i)(r) || GoesWith(s, uid, newdir, items[i], r)
  {}

  lemma FileRound(s: Store, uid: int, fid: int, dir: string, newdir: string, items: seq<UserFile>, i: nat)
    requires i < |items| && items[i] in s.users && InDir(s.files, uid, newdir)(items[i]) && !IsFolder(s.files, items[i])
    ensures var t := Prune(s, DeadUpTo(s, uid, fid, dir, newdir, items, i));
            FileDeleted(t, uid, items[i].fid, newdir, s.files[items[i].fid].path) == Prune(s, DeadUpTo(s, uid, fid, dir, newdir, items, i + 1))
  {
    var a, c := DeadUpTo(s, uid, fid, dir, newdir, items, i), DeadUpTo(s, uid, fid, dir, newdir, items, i + 1);
    FileDeletedIsPrune(s, a, items[i]);
    forall r | r in s.users
      ensures c(r) <==> a(r) || Matches(uid, items[i].fid, newdir)(r)
    {
      RoundExtends(s, uid, fid, dir, newdir, items, i, r);
    }
    PruneTwice(s, a, Matches(uid, items[i].fid, newdir), c);
  }

  /** After the loop exactly the folder is gone. */
  lemma LoopDone(s: Store, uid: int, fid: int, dir: string, name: string, items: seq<UserFile>)
    requires Integral(s) && items == Listed(s.files, s.users, uid, Child(dir, name))
    ensures Prune(s, DeadUpTo(s, uid, fid, dir, Child(dir, name), items, |items|)) == Prune(s, InFolder(s, uid, fid, dir, name))
  {
    var newdir := Child(dir, name);
    var a, b := DeadUpTo(s, uid, fid, dir, newdir, items, |items|), InFolder(s, uid, fid, dir, name);
    forall r | r in s.users
      ensures a(r) <==> b(r)
    {
      if b(r) && !Matches(uid, fid, dir)(r) {
        if r.dir == newdir {
          assert InDir(s.files, uid, newdir)(r);
          var j :| 0 <= j < |items| && items[j] == r;
          assert GoesWith(s, uid, newdir, items[j], r);
        } else {
          var c := FirstStep(s.files, s.users, uid, newdir, r.dir);
          var j :| 0 <= j < |items| && items[j] == c;
          assert GoesWith(s, uid, newdir, items[j], r);
        }
      }
      if a(r) && !Matches(uid, fid, dir)(r) {
        var j :| 0 <= j < |items| && GoesWith(s, uid, newdir, items[j], r);
        var c := items[j];
        assert c in s.users && InDir(s.files, uid, newdir)(c);
        if r.dir == newdir {
          assert Reaches(s.files, s.users, uid, newdir, newdir);
        } else {
          ReachesSplits(s.files, s.users, uid, newdir, c, r.dir);
        }
      }
    }
    PruneAgree(s, a, b);
  }

  /** The folder's own row is deleted first; its file row stays, and so does what is in the folder. */
  lemma LoopStart(s: Store, uid: int, fid: int, dir: string, name: string)
    requires fid in s.files && s.files[fid].kind != FILE
    ensures var newdir := Child(dir, name);
            var items := Listed(s.files, s.users, uid, newdir);
            var users := Filter(s.users, Kept(Matches(uid, fid, dir)));
            && s.(users := users) == Prune(s, DeadUpTo(s, uid, fid, dir, newdir, items, 0))
            && Listed(s.files, users, uid, newdir) == items
  {
    var newdir := Child(dir, name);
    var items := Listed(s.files, s.users, uid, newdir);
    var m, a := Matches(uid, fid, dir), DeadUpTo(s, uid, fid, dir, newdir, items, 0);
    FilterTwice(s.users, Kept(m), InDir(s.files, uid, newdir), InDir(s.files, uid, newdir));
    PruneAgree(s, m, a);
    forall f ensures !LosesLast(s, m, f) {}
    forall p ensures !PathLost(s, m, p) {}
    assert Prune(s, m).files == s.files && Prune(s, m).disk == s.disk;
  }

  /** What the recursive call needs of a folder that earlier rounds have left. */
  lemma StillDeletable(s: Store, dead: UserFile -> bool, fid: int, bound: nat)
    requires Integral(s) && fid in s.files && s.files[fid].kind != FILE
    requires forall r :: r in s.users ==> |r.dir| <= bound
    ensures var t := Prune(s, dead);
            && Integral(t) && fid in t.files && t.files[fid].kind != FILE
            && forall r :: r in t.users ==> |r.dir| <= bound
  {}

  /** Deleting the row `c` of the directory leads from `t` to `u`. */
  ghost predicate Leads(t: Store, u: Store, files: Files, uid: int, newdir: string, c: UserFile, bound: nat) {
    && c.fid in files
    && if files[c.fid].kind == FILE then FileDeleted(t, uid, c.fid, newdir, files[c.fid].path) == u
       else && Integral(t) && c.fid in t.files && t.files[c.fid].kind != FILE
            && (forall r :: r in t.users ==> |r.dir| <= bound)
            && Prune(t, InFolder(t, uid, c.fid, newdir, c.name)) == u
  }

  /** One round of the loop, for a file and for a folder. */
  lemma Round(s: Store, uid: int, fid: int, dir: string, newdir: string, items: seq<UserFile>, i: nat, bound: nat)
    requires i < |items| && |dir| <= |newdir| && items == Listed(s.files, s.users, uid, newdir)
    requires Integral(s) && forall r :: r in s.users ==> |r.dir| <= bound
    ensures |newdir| <= bound
    ensures Leads(Prune(s, DeadUpTo(s, uid, fid, dir, newdir, items, i)), Prune(s, DeadUpTo(s, uid, fid, dir, newdir, items, i + 1)),
                  s.files, uid, newdir, items[i], bound)
  {
    var c := items[i];
    assert c in items && c in s.users && InDir(s.files, uid, newdir)(c);
    if s.files[c.fid].kind == FILE {
      FileRound(s, uid, fid, dir, newdir, items, i);
    } else {
      FolderRound(s, uid, fid, dir, newdir, items, i);
      StillDeletable(s, DeadUpTo(s, uid, fid, dir, newdir, items, i), c.fid, bound);
    }
  }

  ghost predicate LeadsAt(states: seq<Store>, i: nat, files: Files, uid: int, newdir: string, items: seq<UserFile>, bound: nat)
    requires i < |items| && |states| == |items| + 1
  {
    Leads(states[i], states[i + 1], files, uid, newdir, items[i], bound)
  }

  /** The states that the loop goes through. */
  ghost function States(s: Store, uid: int, fid: int, dir: string, newdir: string, items: seq<UserFile>): (states: seq<Store>)
    ensures |states| == |items| + 1
  {
    seq(|items| + 1, i requires 0 <= i <= |items| => Prune(s, DeadUpTo(s, uid, fid, dir, newdir, items, i)))
  }

  lemma RoundAt(s: Store, uid: int, fid: int, dir: string, newdir: string, items: seq<UserFile>, i: nat, bound: nat)
    requires i < |items| && |dir| <= |newdir| && items == Listed(s.files, s.users, uid, newdir)
    requires Integral(s) && forall r :: r in s.users ==> |r.dir| <= bound
    ensures |newdir| <= bound && LeadsAt(States(s, uid, fid, dir, newdir, items), i, s.files, uid, newdir, items, bound)
  {
    Round(s, uid, fid, dir, newdir, items, i, bound);
  }

  lemma Rounds(s: Store, uid: int, fid: int, dir: string, name: string, bound: nat) returns (states: seq<Store>)
    requires fid in s.files && s.files[fid].kind != FILE
    requires Integral(s) && forall r :: r in s.users ==> |r.dir| <= bound
    ensures var newdir, users := Child(dir, name), Filter(s.users, Kept(Matches(uid, fid, dir)));
            var items := Listed(s.files, users, uid, newdir);
            && |states| == |items| + 1 && (items != [] ==> |newdir| <= bound)
            && states[0] == s.(users := users)
            && (forall i :: 0 <= i < |items| ==> LeadsAt(states, i, s.files, uid, newdir, items, bound))
            && states[|items|] == Prune(s, InFolder(s, uid, fid, dir, name))
  {
    var newdir := Child(dir, name);
    var items := Listed(s.files, s.users, uid, newdir);
    LoopStart(s, uid, fid, dir, name);
    states := States(s, uid, fid, dir, newdir, items);
    forall i | 0 <= i < |items|
      ensures |newdir| <= bound && LeadsAt(states, i, s.files, uid, newdir, items, bound)
    {
      RoundAt(s, uid, fid, dir, newdir, items, i, bound);
    }
    assert items != [] ==> LeadsAt(states, 0, s.files, uid, newdir, items, bound);
    LoopDone(s, uid, fid, dir, name, items);
  }

  // ---------------------------------------------------------------- the methods

  method DeleteFile(db: NetDisk, userid: int, fileid: int, dir: string, path: string)
    modifies db
    ensures db.Abs() == FileDeleted(old(db.Abs()), userid, fileid, dir, path)
  {
    db.users := Filter(db.users, Kept(Matches(userid, fileid, dir)));
    if !Refers(db.users, fileid) {
      db.files := db.files - {fileid};
      if path in db.disk && db.disk[path] == Regular {
        db.disk := db.disk - {path};
      }
    }
  }

  /** The delete statement of DeleteFolder, and the rows it then finds in the folder. */
  method DeleteFolderRow(db: NetDisk, userid: int, fileid: int, dir: string, name: string, ghost bound: nat)
    returns (lst: seq<UserFile>, ghost states: seq<Store>)
    requires Integral(db.Abs()) && fileid in db.files && db.files[fileid].kind != FILE
    requires forall r :: r in db.users ==> |r.dir| <= bound
    modifies db`users
    ensures |states| == |lst| + 1 && db.Abs() == states[0] && (lst != [] ==> |Child(dir, name)| <= bound)
    ensures forall i :: 0 <= i < |lst| ==> LeadsAt(states, i, db.files, userid, Child(dir, name), lst, bound)
    ensures states[|lst|] == Prune(old(db.Abs()), InFolder(old(db.Abs()), userid, fileid, dir, name))
  {
    states := Rounds(db.Abs(), userid, fileid, dir, name, bound);
    db.users := Filter(db.users, Kept(Matches(userid, fileid, dir)));
    lst := Listed(db.files, db.users, userid, Child(dir, name));
  }

  method DeleteFolder(db: NetDisk, userid: int, fileid: int, dir: string, name: string, ghost bound: nat)
    requires Integral(db.Abs()) && fileid in db.files && db.files[fileid].kind != FILE
    requires forall r :: r in db.users ==> |r.dir| <= bound
    modifies db
    ensures db.Abs() == Prune(old(db.Abs()), InFolder(old(db.Abs()), userid, fileid, dir, name))
    decreases if |dir| <= bound then bound - |dir| + 1 else 0
  {
    var lst; ghost var states;
    lst, states := DeleteFolderRow(db, userid, fileid, dir, name, bound);
    var newdir := Child(dir, name);
    var files := db.files;
    var i := 0;
    while i < |lst|
      invariant 0 <= i <= |lst| && db.Abs() == states[i]
    {
      var c := lst[i];
      assert LeadsAt(states, i, files, userid, newdir, lst, bound);
      if files[c.fid].kind == FILE {
        DeleteFile(db, userid, c.fid, newdir, files[c.fid].path);
      } else {
        DeleteFolder(db, userid, c.fid, newdir, c.name, bound);
      }
      i := i + 1;
    }
  }

  /** The rows that go when a user deletes one item of a directory. */
  ghost function DeadItem(s: Store, uid: int, fid: int, dir: string): UserFile -> bool {
    var hits := Hits(s, uid, fid, dir);
    if hits == [] then r => false
    else if s.files[fid].kind == FILE then Matches(uid, fid, dir)
    else InFolder(s, uid, fid, dir, hits[0].name)
  }

  lemma PruneNothing(s: Store)
    ensures Prune(s, r => false) == s
  {
    FilterAll(s.users, Kept(r => false));
    assert Prune(s, r => false).files == s.files;
    assert Prune(s, r => false).disk == s.disk;
  }

  method DeleteOneItem(db: NetDisk, userid: int, fileid: int, dir: string)
    requires Integral(db.Abs())
    modifies db
    ensures db.Abs() == Prune(old(db.Abs()), DeadItem(old(db.Abs()), userid, fileid, dir))
    ensures Integral(db.Abs())
  {
    ghost var s := db.Abs();
    PruneKeepsIntegrity(s, DeadItem(s, userid, fileid, dir));
    var lst := Hits(db.Abs(), userid, fileid, dir);
    if |lst| == 0 {
      PruneNothing(s);
      return;
    }
    var row := db.files[fileid];
    assert lst[0] in lst;
    if row.kind == FILE {
      PruneNothing(s);
      FileDeletedIsPrune(s, r => false, lst[0]);
      DeleteFile(db, userid, fileid, dir, row.path);
    } else {
      DeleteFolder(db, userid, fileid, dir, lst[0].name, Bound(db.users));
    }
  }

  /** DeleteFileRq: the items of the request one after another. */
  ghost function Deleted(s: Store, uid: int, ids: seq<int>, dir: string): Store {
    if ids == [] then s
    else
      var before := Deleted(s, uid, ids[..|ids| - 1], dir);
      Prune(before, DeadItem(before, uid, ids[|ids| - 1], dir))
  }

  method DeleteFileRq(db: NetDisk, userid: int, fileidArray: seq<int>, dir: string)
    requires Integral(db.Abs())
    modifies db
    ensures db.Abs() == Deleted(old(db.Abs()), userid, fileidArray, dir)
  {
    for i := 0 to |fileidArray|
      invariant db.Abs() == Deleted(old(db.Abs()), userid, fileidArray[..i], dir) && Integral(db.Abs())
    {
      assert fileidArray[..i + 1][..i] == fileidArray[..i];
      DeleteOneItem(db, userid, fileidArray[i], dir);
    }
    assert fileidArray[..|fileidArray|] == fileidArray;
  }

  // ---------------------------------------------------------------- what a deletion does

  function Outside(uid: int, fid: int, dir: string, name: string): UserFile -> bool {
    (r: UserFile) => !(r.uid == uid && ((r.fid == fid && r.dir == dir) || HasPrefix(r.dir, Child(dir, name))))
  }

  /**
   Folder delete is exact on a well-formed tree: what goes is the user's row for the folder and every
   row of the user whose directory starts with `dir/name/`; all others stay, in their order.
   */
  lemma DeleteFolderExact(s: Store, uid: int, fid: int, dir: string, name: string)
    requires Integral(s) && WellFormed(s.files, s.users, uid, Child(dir, name))
    ensures Prune(s, InFolder(s, uid, fid, dir, name)).users
         == Filter(s.users, Outside(uid, fid, dir, name))
  {
    var f := Outside(uid, fid, dir, name);
    forall r | r in s.users
      ensures Kept(InFolder(s, uid, fid, dir, name))(r) <==> f(r)
    {
      if r.uid == uid {
        ReachesIffPrefix(s.files, s.users, uid, Child(dir, name), r);
      }
    }
    FilterAgree(s.users, Kept(InFolder(s, uid, fid, dir, name)), f);
  }

  /** Whatever is deleted, other users keep every row, and a file row goes only with its last reference. */
  lemma PruneIsSafe(s: Store, dead: UserFile -> bool, fid: int)
    requires Integral(s)
    ensures var t := Prune(s, dead);
            && (Refers(t.users, fid) ==> fid in t.files && t.files[fid] == s.files[fid])
            && (fid in s.files && fid !in t.files ==> s.files[fid].kind == FILE && Refers(s.users, fid) && !Refers(t.users, fid))
            && (forall p :: p in s.disk && p !in t.disk ==>
                  exists f :: f in s.files && f !in t.files && s.files[f].path == p && !Refers(t.users, f))
  {}

  lemma OtherUsersUntouched(s: Store, uid: int, fid: int, dir: string, other: int)
    requires other != uid
    ensures var owns := (r: UserFile) => r.uid == other;
            Filter(Prune(s, DeadItem(s, uid, fid, dir)).users, owns) == Filter(s.users, owns)
  {
    var owns := (r: UserFile) => r.uid == other;
    var dead := DeadItem(s, uid, fid, dir);
    FilterTwice(s.users, Kept(dead), owns, owns);
  }
}
