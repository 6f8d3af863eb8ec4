/**
 Copying a shared folder: GetShareByFolder walks the sender's tree while it inserts rows for the
 receiver. Here is exactly when the walk ends and, when it ends, what it has inserted.
 */
module ShareCopy {
  import opened Text
  import opened Wrappers
  import opened Sequences
  import opened Tables
  import opened FolderTree

  /** What stays the same throughout one copy. */
  datatype Job = Job(files: Files, to: int, time: string, from: int)

  /**
   GetShareByFolder on the rows of t_user_file. The recursion need not end, so it may go `fuel`
   levels deep; None means that it wanted to go deeper.
   */
  function CopyFolder(fuel: nat, job: Job, users: seq<UserFile>, fid: int, dir: string, name: string, fromdir: string): (r: Option<seq<UserFile>>)
    decreases fuel, 1, 0
  {
    if fuel == 0 then None
    else
      var inserted := users + [NewRow(job.to, fid, dir, name, job.time)];
      var source := Child(fromdir, name);
      CopyItems(fuel, job, inserted, Child(dir, name), source, Listed(job.files, inserted, job.from, source))
  }

  /** The loop over the rows that were found in the sender's directory `source`. */
  function CopyItems(fuel: nat, job: Job, users: seq<UserFile>, target: string, source: string, items: seq<UserFile>): (r: Option<seq<UserFile>>)
    requires fuel > 0
    decreases fuel, 0, |items|
  {
    if items == [] then Some(users)
    else
      var c := items[0];
      var after := if IsFolder(job.files, c) then CopyFolder(fuel - 1, job, users, c.fid, target, c.name, source)
                   else Some(users + [NewRow(job.to, c.fid, target, c.name, job.time)]);
      if after.None? then None else CopyItems(fuel, job, after.value, target, source, items[1..])
  }

  // ---------------------------------------------------------------- the methods

  method GetShareByFile(db: NetDisk, userid: int, fileid: int, dir: string, name: string, time: string)
    modifies db`users
    ensures db.users == old(db.users) + [NewRow(userid, fileid, dir, name, time)]
  {
    db.users := db.users + [NewRow(userid, fileid, dir, name, time)];
  }

  method GetShareByFolder(db: NetDisk, userid: int, fileid: int, dir: string, name: string, time: string,
                          fromuserid: int, fromdir: string, ghost fuel: nat)
    requires CopyFolder(fuel, Job(db.files, userid, time, fromuserid), db.users, fileid, dir, name, fromdir).Some?
    modifies db`users
    ensures Some(db.users) == CopyFolder(fuel, Job(db.files, userid, time, fromuserid), old(db.users), fileid, dir, name, fromdir)
    decreases fuel
  {
    GetShareByFile(db, userid, fileid, dir, name, time);
    var newDir, newfromdir := Child(dir, name), Child(fromdir, name);
    var lst := Listed(db.files, db.users, fromuserid, newfromdir);
    ghost var job := Job(db.files, userid, time, fromuserid);
    ghost var result := CopyFolder(fuel, job, old(db.users), fileid, dir, name, fromdir);
    while |lst| != 0
      invariant CopyItems(fuel, job, db.users, newDir, newfromdir, lst) == result
      invariant forall r :: r in lst ==> r.fid in db.files
      modifies db`users
      decreases |lst|
    {
      var item := lst[0];
      lst := lst[1..];
      if db.files[item.fid].kind == FILE {
        GetShareByFile(db, userid, item.fid, newDir, item.name, time);
      } else {
        GetShareByFolder(db, userid, item.fid, newDir, item.name, time, fromuserid, newfromdir, fuel - 1);
      }
    }
  }

  // ---------------------------------------------------------------- when the copy never ends

  lemma {:induction false} CopyOnlyAppends(fuel: nat, job: Job, users: seq<UserFile>, fid: int, dir: string, name: string, fromdir: string)
    requires CopyFolder(fuel, job, users, fid, dir, name, fromdir).Some?
    ensures users <= CopyFolder(fuel, job, users, fid, dir, name, fromdir).value
    decreases fuel, 1, 0
  {
    var inserted := users + [NewRow(job.to, fid, dir, name, job.time)];
    var source := Child(fromdir, name);
    CopyItemsOnlyAppend(fuel, job, inserted, Child(dir, name), source, Listed(job.files, inserted, job.from, source));
  }

  lemma {:induction false} CopyItemsOnlyAppend(fuel: nat, job: Job, users: seq<UserFile>, target: string, source: string, items: seq<UserFile>)
    requires fuel > 0 && CopyItems(fuel, job, users, target, source, items).Some?
    ensures users <= CopyItems(fuel, job, users, target, source, items).value
    decreases fuel, 0, |items|
  {
    if items != [] {
      var c := items[0];
      if IsFolder(job.files, c) {
        CopyOnlyAppends(fuel - 1, job, users, c.fid, target, c.name, source);
        CopyItemsOnlyAppend(fuel, job, CopyFolder(fuel - 1, job, users, c.fid, target, c.name, source).value, target, source, items[1..]);
      } else {
        CopyItemsOnlyAppend(fuel, job, users + [NewRow(job.to, c.fid, target, c.name, job.time)], target, source, items[1..]);
      }
    }
  }

  /** A copy to a directory of the same user that the copied folder leads to does not end. */
  lemma {:induction false} NeverEnds(fuel: nat, job: Job, users: seq<UserFile>, fid: int, dir: string, name: string, fromdir: string)
    requires job.to == job.from && fid in job.files && job.files[fid].kind != FILE
    requires Reaches(job.files, users, job.from, Child(fromdir, name), dir)
    ensures CopyFolder(fuel, job, users, fid, dir, name, fromdir) == None
    decreases fuel, 1, 0
  {
    if fuel > 0 {
      var row := NewRow(job.to, fid, dir, name, job.time);
      var inserted, source, target := users + [row], Child(fromdir, name), Child(dir, name);
      var items := Listed(job.files, inserted, job.from, source);
      ReachesMore(job.files, users, [row], job.from, source, dir);
      assert row in inserted && Makes(job.files, job.from, row, target);
      if source == dir {
        assert InDir(job.files, job.from, source)(row);
        assert Reaches(job.files, inserted, job.from, target, target);
        ItemsNeverEnd(fuel, job, inserted, target, source, items, row);
      } else {
        var c := FirstStep(job.files, inserted, job.from, source, dir);
        assert Reaches(job.files, inserted, job.from, Child(source, c.name), target);
        ItemsNeverEnd(fuel, job, inserted, target, source, items, c);
      }
    }
  }

  lemma {:induction false} ItemsNeverEnd(fuel: nat, job: Job, users: seq<UserFile>, target: string, source: string, items: seq<UserFile>, c: UserFile)
    requires fuel > 0 && job.to == job.from
    requires c in items && IsFolder(job.files, c)
    requires Reaches(job.files, users, job.from, Child(source, c.name), target)
    ensures CopyItems(fuel, job, users, target, source, items) == None
    decreases fuel, 0, |items|
  {
    var d := items[0];
    if d == c {
      NeverEnds(fuel - 1, job, users, c.fid, target, c.name, source);
    } else {
      var after := if IsFolder(job.files, d) then CopyFolder(fuel - 1, job, users, d.fid, target, d.name, source)
                   else Some(users + [NewRow(job.to, d.fid, target, d.name, job.time)]);
      if after.Some? {
        if IsFolder(job.files, d) {
          CopyOnlyAppends(fuel - 1, job, users, d.fid, target, d.name, source);
        }
        assert after.value == users + after.value[|users|..];
        ReachesMore(job.files, users, after.value[|users|..], job.from, Child(source, c.name), target);
        ItemsNeverEnd(fuel, job, after.value, target, source, items[1..], c);
      }
    }
  }

  // ---------------------------------------------------------------- what a copy inserts

  /** The receiver's row for a row of the sender below `source`. */
  function Retarget(job: Job, source: string, target: string): UserFile -> UserFile {
    (r: UserFile) => NewRow(job.to, r.fid, if HasPrefix(r.dir, source) then target + r.dir[|source|..] else target, r.name, job.time)
  }

  /** The row is none that the walk from `root` over `base` could come across. */
  ghost predicate OffTheWalk(job: Job, base: seq<UserFile>, root: string, uid: int, dir: string) {
    uid != job.from || !Reaches(job.files, base, job.from, root, dir)
  }

  /** Nothing that goes to the image of a directory which the walk reaches goes where the walk reads. */
  ghost predicate ImagesOff(job: Job, base: seq<UserFile>, root: string, newRoot: string) {
    forall d :: HasPrefix(d, root) && Reaches(job.files, base, job.from, root, d) ==>
      OffTheWalk(job, base, root, job.to, newRoot + d[|root|..])
  }

  /** Nothing is inserted where the walk from `root` reads: neither in `dir` nor in the new folder `target`. */
  ghost predicate Apart(job: Job, base: seq<UserFile>, root: string, dir: string, target: string) {
    OffTheWalk(job, base, root, job.to, dir) && ImagesOff(job, base, root, target)
  }

  /** While the walk is in `source`, the copy is in `target`. */
  predicate Follows(root: string, newRoot: string, source: string, target: string) {
    HasPrefix(source, root) && target == newRoot + source[|root|..]
  }

  lemma ListedUnchanged(job: Job, base: seq<UserFile>, added: seq<UserFile>, root: string, source: string)
    requires forall r :: r in added ==> OffTheWalk(job, base, root, r.uid, r.dir)
    requires Reaches(job.files, base, job.from, root, source)
    ensures Listed(job.files, base + added, job.from, source) == Listed(job.files, base, job.from, source)
  {
    FilterSplit(base, added, InDir(job.files, job.from, source));
    FilterNone(added, InDir(job.files, job.from, source));
  }

  lemma RetargetBelow(job: Job, source: string, target: string, name: string, r: UserFile)
    requires HasPrefix(r.dir, Child(source, name))
    ensures Retarget(job, Child(source, name), Child(target, name))(r) == Retarget(job, source, target)(r)
  {
    PrefixTransitive(r.dir, Child(source, name), source);
    var rest := r.dir[|Child(source, name)|..];
    PrefixSplit(r.dir, Child(source, name));
    assert r.dir == source + (name + "/" + rest);
    assert Child(target, name) + rest == target + (name + "/" + rest);
  }

  /** The copy of one folder: its own row, then the receiver's image of the walk below it. */
  function Image(job: Job, base: seq<UserFile>, fid: int, dir: string, name: string, fromdir: string): seq<UserFile> {
    [NewRow(job.to, fid, dir, name, job.time)]
    + Map(PreOrder(job.files, base, job.from, Child(fromdir, name)), Retarget(job, Child(fromdir, name), Child(dir, name)))
  }

  lemma WalkOfChild(job: Job, base: seq<UserFile>, target: string, source: string, name: string)
    ensures var walk := PreOrder(job.files, base, job.from, Child(source, name));
            Map(walk, Retarget(job, Child(source, name), Child(target, name))) == Map(walk, Retarget(job, source, target))
  {
    var walk := PreOrder(job.files, base, job.from, Child(source, name));
    forall r | r in walk
      ensures Retarget(job, Child(source, name), Child(target, name))(r) == Retarget(job, source, target)(r)
    {
      PreOrderInside(job.files, base, job.from, Child(source, name), r);
      RetargetBelow(job, source, target, name, r);
    }
    MapAgree(walk, Retarget(job, Child(source, name), Child(target, name)), Retarget(job, source, target));
  }

  lemma ImageOfChild(job: Job, base: seq<UserFile>, target: string, source: string, c: UserFile)
    requires c.dir == source
    ensures Map([c] + PreOrder(job.files, base, job.from, Child(source, c.name)), Retarget(job, source, target))
         == Image(job, base, c.fid, target, c.name, source)
  {
    var walk := PreOrder(job.files, base, job.from, Child(source, c.name));
    WalkOfChild(job, base, target, source, c.name);
    MapSplit([c], walk, Retarget(job, source, target));
    assert c.dir == source + [] && target + [] == target;
  }

  /** What is inserted for rows that the walk meets below `source` is nothing that the walk meets. */
  lemma ImageOffTheWalk(job: Job, base: seq<UserFile>, root: string, newRoot: string, source: string, target: string, r: UserFile)
    requires ImagesOff(job, base, root, newRoot) && Follows(root, newRoot, source, target)
    requires Reaches(job.files, base, job.from, root, source) && Reaches(job.files, base, job.from, source, r.dir)
    ensures var q := Retarget(job, source, target)(r);
            OffTheWalk(job, base, root, q.uid, q.dir)
  {
    ReachesHasPrefix(job.files, base, job.from, source, r.dir);
    ReachesFurther(job.files, base, job.from, root, source, r.dir);
    FollowsFurther(root, newRoot, source, target, r.dir);
  }

  lemma FollowsFurther(root: string, newRoot: string, source: string, target: string, d: string)
    requires Follows(root, newRoot, source, target) && HasPrefix(d, source)
    ensures HasPrefix(d, root) && target + d[|source|..] == newRoot + d[|root|..]
  {
    PrefixTransitive(d, source, root);
    assert d[|root|..] == source[|root|..] + d[|source|..];
  }

  lemma ItemOffTheWalk(job: Job, base: seq<UserFile>, root: string, newRoot: string, source: string, target: string, c: UserFile)
    requires ImagesOff(job, base, root, newRoot) && Follows(root, newRoot, source, target)
    requires Reaches(job.files, base, job.from, root, source) && Depth(base, source) > 0
    requires c in base && InDir(job.files, job.from, source)(c)
    ensures forall q :: q in Map([c] + Below(job.files, base, job.from, source, c), Retarget(job, source, target)) ==>
              OffTheWalk(job, base, root, q.uid, q.dir)
  {
    var walk := [c] + Below(job.files, base, job.from, source, c);
    forall r | r in walk
      ensures var q := Retarget(job, source, target)(r); OffTheWalk(job, base, root, q.uid, q.dir)
    {
      if r != c {
        PreOrderReached(job.files, base, job.from, Child(source, c.name), r);
        ReachesSplits(job.files, base, job.from, source, c, r.dir);
      }
      ImageOffTheWalk(job, base, root, newRoot, source, target, r);
    }
  }

  lemma FollowsBelow(root: string, newRoot: string, source: string, target: string, name: string)
    requires Follows(root, newRoot, source, target)
    ensures Follows(root, newRoot, Child(source, name), Child(target, name))
  {
    PrefixTransitive(Child(source, name), source, root);
    assert Child(source, name)[|root|..] == source[|root|..] + name + "/";
  }

  /** `added` is what the copy has inserted so far. */
  lemma {:induction false} CopyIsImage(fuel: nat, job: Job, base: seq<UserFile>, added: seq<UserFile>, root: string, newRoot: string,
                                       fid: int, dir: string, name: string, fromdir: string)
    requires Apart(job, base, root, dir, newRoot) && Follows(root, newRoot, Child(fromdir, name), Child(dir, name))
    requires forall r :: r in added ==> OffTheWalk(job, base, root, r.uid, r.dir)
    requires Reaches(job.files, base, job.from, root, Child(fromdir, name))
    requires fuel > Depth(base, Child(fromdir, name))
    ensures CopyFolder(fuel, job, base + added, fid, dir, name, fromdir)
         == Some(base + (added + Image(job, base, fid, dir, name, fromdir)))
    decreases fuel, 1, 0
  {
    var source, target := Child(fromdir, name), Child(dir, name);
    var row := NewRow(job.to, fid, dir, name, job.time);
    var items := Listed(job.files, base, job.from, source);
    AppendAssoc(base, added, [row]);
    ListedUnchanged(job, base, added + [row], root, source);
    if Depth(base, source) == 0 {
      FilterNone(base, InDir(job.files, job.from, source));
      assert Image(job, base, fid, dir, name, fromdir) == [row];
    } else {
      ItemsAreImage(fuel, job, base, added + [row], root, newRoot, target, source, items);
      AppendAssoc(added, [row], Map(PreItems(job.files, base, job.from, source, items), Retarget(job, source, target)));
    }
  }

  lemma {:induction false} ItemsAreImage(fuel: nat, job: Job, base: seq<UserFile>, added: seq<UserFile>, root: string, newRoot: string,
                                         target: string, source: string, items: seq<UserFile>)
    requires ImagesOff(job, base, root, newRoot) && Follows(root, newRoot, source, target)
    requires forall r :: r in added ==> OffTheWalk(job, base, root, r.uid, r.dir)
    requires Reaches(job.files, base, job.from, root, source)
    requires Depth(base, source) > 0 && fuel > Depth(base, source)
    requires forall r :: r in items ==> r in base && InDir(job.files, job.from, source)(r)
    ensures CopyItems(fuel, job, base + added, target, source, items)
         == Some(base + (added + Map(PreItems(job.files, base, job.from, source, items), Retarget(job, source, target))))
    decreases fuel, 0, |items|
  {
    var f := Retarget(job, source, target);
    if items == [] {
      assert added + Map(PreItems(job.files, base, job.from, source, items), f) == added;
    } else {
      var c, rest := items[0], items[1..];
      assert InDir(job.files, job.from, source)(c);
      var more := ItemImage(fuel, job, base, added, root, newRoot, target, source, c);
      ItemsAreImage(fuel, job, base, added + more, root, newRoot, target, source, rest);
      var walk := PreItems(job.files, base, job.from, source, rest);
      MapSplit([c] + Below(job.files, base, job.from, source, c), walk, f);
      AppendAssoc(added, more, Map(walk, f));
    }
  }

  /** One row of the loop: what it inserts is the image of the row and of what is below it. */
  lemma {:induction false} ItemImage(fuel: nat, job: Job, base: seq<UserFile>, added: seq<UserFile>, root: string, newRoot: string,
                                     target: string, source: string, c: UserFile) returns (more: seq<UserFile>)
    requires ImagesOff(job, base, root, newRoot) && Follows(root, newRoot, source, target)
    requires forall r :: r in added ==> OffTheWalk(job, base, root, r.uid, r.dir)
    requires Reaches(job.files, base, job.from, root, source)
    requires Depth(base, source) > 0 && fuel > Depth(base, source)
    requires c in base && InDir(job.files, job.from, source)(c)
    ensures more == Map([c] + Below(job.files, base, job.from, source, c), Retarget(job, source, target))
    ensures forall r :: r in more ==> OffTheWalk(job, base, root, r.uid, r.dir)
    ensures Some(base + (added + more))
         == if IsFolder(job.files, c) then CopyFolder(fuel - 1, job, base + added, c.fid, target, c.name, source)
            else Some(base + added + [NewRow(job.to, c.fid, target, c.name, job.time)])
    decreases fuel, 0, 0
  {
    more := Map([c] + Below(job.files, base, job.from, source, c), Retarget(job, source, target));
    ItemOffTheWalk(job, base, root, newRoot, source, target, c);
    if IsFolder(job.files, c) {
      FollowsBelow(root, newRoot, source, target, c.name);
      assert Makes(job.files, job.from, c, Child(source, c.name));
      CopyIsImage(fuel - 1, job, base, added, root, newRoot, c.fid, target, c.name, source);
      ImageOfChild(job, base, target, source, c);
    } else {
      assert target + [] == target;
      assert more == [NewRow(job.to, c.fid, target, c.name, job.time)];
      AppendAssoc(base, added, more);
    }
  }

  // ---------------------------------------------------------------- when source and target are apart

  lemma ApartForOthers(job: Job, users: seq<UserFile>, root: string, dir: string, target: string)
    requires job.to != job.from
    ensures Apart(job, users, root, dir, target)
  {}

  /** A test without the images: nothing in or below the new folder is reached at all. */
  lemma ApartFromAll(job: Job, users: seq<UserFile>, root: string, dir: string, target: string)
    requires OffTheWalk(job, users, root, job.to, dir)
    requires forall d :: HasPrefix(d, target) ==> OffTheWalk(job, users, root, job.to, d)
    ensures Apart(job, users, root, dir, target)
  {
    forall d | HasPrefix(d, root) && Reaches(job.files, users, job.from, root, d)
      ensures OffTheWalk(job, users, root, job.to, target + d[|root|..])
    {
      assert HasPrefix(target + d[|root|..], target);
    }
  }

  /** Neither folder path is a prefix of the other. */
  lemma ApartWhenDisjoint(job: Job, users: seq<UserFile>, root: string, dir: string, name: string)
    requires !HasPrefix(root, Child(dir, name)) && !HasPrefix(Child(dir, name), root)
    ensures Apart(job, users, root, dir, Child(dir, name))
  {
    var target := Child(dir, name);
    forall d | d == dir || HasPrefix(d, target)
      ensures OffTheWalk(job, users, root, job.to, d)
    {
      if Reaches(job.files, users, job.from, root, d) {
        ReachesHasPrefix(job.files, users, job.from, root, d);
        if d == dir {
          PrefixTransitive(target, dir, root);
        } else if |target| <= |root| {
          PrefixesCompare(d, root, target);
        } else {
          PrefixesCompare(d, target, root);
        }
      }
    }
    ApartFromAll(job, users, root, dir, target);
  }

  predicate SegmentNames(job: Job, users: seq<UserFile>) {
    forall p :: p in users && IsFolder(job.files, p) ==> IsSegment(p.name)
  }

  /** A deeper target is apart as soon as the walk does not lead to its directory. */
  lemma ApartWhenDeeper(job: Job, users: seq<UserFile>, fromdir: string, dir: string, name: string)
    requires SegmentNames(job, users) && IsSegment(name) && IsDir(dir) && |dir| > |fromdir|
    requires !Reaches(job.files, users, job.from, Child(fromdir, name), dir)
    ensures Apart(job, users, Child(fromdir, name), dir, Child(dir, name))
  {
    var root, target := Child(fromdir, name), Child(dir, name);
    forall d | HasPrefix(d, target)
      ensures OffTheWalk(job, users, root, job.to, d)
    {
      if Reaches(job.files, users, job.from, root, d) {
        ReachesHasPrefix(job.files, users, job.from, root, d);
        PrefixTransitive(d, target, dir);
        ShorterRoot(d, root, dir, name);
        PrefixesCompare(d, dir, root);
        ReachesThrough(job.files, users, job.from, root, dir, d);
      }
    }
    assert HasPrefix(dir, dir);
    ApartFromAll(job, users, root, dir, target);
  }

  /**
   So is a target above the copied folder, as soon as the folder does not lead to a copy of the way that
   leads from the target to it.
   */
  lemma ApartWhenAbove(job: Job, users: seq<UserFile>, fromdir: string, dir: string, name: string)
    requires SegmentNames(job, users) && IsSegment(name) && IsDir(dir) && IsDir(fromdir) && |dir| < |fromdir|
    requires HasPrefix(Child(fromdir, name), Child(dir, name))
    requires var root, target := Child(fromdir, name), Child(dir, name);
             !Reaches(job.files, users, job.from, root, root + root[|target|..])
    ensures Apart(job, users, Child(fromdir, name), dir, Child(dir, name))
  {
    var root, target := Child(fromdir, name), Child(dir, name);
    var way := root[|target|..];
    PrefixSplit(root, target);
    if Reaches(job.files, users, job.from, root, dir) {
      ReachesHasPrefix(job.files, users, job.from, root, dir);
    }
    forall d | HasPrefix(d, root) && Reaches(job.files, users, job.from, root, d)
      ensures OffTheWalk(job, users, root, job.to, target + d[|root|..])
    {
      if Reaches(job.files, users, job.from, root, target + d[|root|..]) {
        ReachesHasPrefix(job.files, users, job.from, root, target + d[|root|..]);
        WayIsPrefix(d, root, target);
        ReachesThrough(job.files, users, job.from, root, root + way, d);
      }
    }
  }

  /**
   Every copy is apart from its source, except to a directory of the same user that the folder leads to (then
   it does not end), to the folder's own directory, and to one above when the folder leads to a copy of the
   way from there.
   */
  lemma WhichAreApart(job: Job, users: seq<UserFile>, fromdir: string, dir: string, name: string)
    requires SegmentNames(job, users) && IsSegment(name) && IsDir(dir) && IsDir(fromdir)
    ensures var root, target := Child(fromdir, name), Child(dir, name);
            || Apart(job, users, root, dir, target)
            || (job.to == job.from
                && (|| Reaches(job.files, users, job.from, root, dir) || target == root
                    || (HasPrefix(root, target) && Reaches(job.files, users, job.from, root, root + root[|target|..]))))
  {
    var root, target := Child(fromdir, name), Child(dir, name);
    if job.to != job.from {
      ApartForOthers(job, users, root, dir, target);
    } else if |dir| > |fromdir| {
      if !Reaches(job.files, users, job.from, root, dir) {
        ApartWhenDeeper(job, users, fromdir, dir, name);
      }
    } else if !HasPrefix(root, target) {
      ApartWhenDisjoint(job, users, root, dir, name);
    } else if |dir| < |fromdir| && !Reaches(job.files, users, job.from, root, root + root[|target|..]) {
      ApartWhenAbove(job, users, fromdir, dir, name);
    }
  }

  lemma WayIsPrefix(d: string, root: string, target: string)
    requires HasPrefix(d, root) && HasPrefix(root, target) && HasPrefix(target + d[|root|..], root)
    ensures HasPrefix(d, root + root[|target|..])
  {
    var way := root[|target|..];
    assert root == target + way;
    assert (target + d[|root|..])[|target|..] == d[|root|..];
    assert d[|root|..][..|way|] == way;
    assert d == root + d[|root|..];
  }

  lemma ShorterRoot(d: string, root: string, dir: string, name: string)
    requires IsSegment(name) && IsDir(root) && HasPrefix(d, root) && HasPrefix(d, Child(dir, name))
    requires |root| < |Child(dir, name)|
    ensures |root| <= |dir|
  {}

  // ---------------------------------------------------------------- exactly when the copy ends

  lemma {:induction false} UpwardCopyEnds(fuel: nat, job: Job, users: seq<UserFile>, bound: nat, fid: int, dir: string, name: string, fromdir: string)
    requires forall r :: r in users ==> |r.dir| <= bound
    requires |dir| <= |fromdir| && |dir| <= bound && fuel > bound + 1 - Min(|fromdir|, bound)
    ensures CopyFolder(fuel, job, users, fid, dir, name, fromdir).Some?
    ensures forall r :: r in CopyFolder(fuel, job, users, fid, dir, name, fromdir).value ==> |r.dir| <= bound
    decreases fuel, 1, 0
  {
    var source := Child(fromdir, name);
    var inserted := users + [NewRow(job.to, fid, dir, name, job.time)];
    var items := Listed(job.files, inserted, job.from, source);
    if |source| > bound {
      FilterNone(inserted, InDir(job.files, job.from, source));
    } else {
      UpwardItemsEnd(fuel, job, inserted, bound, Child(dir, name), source, items);
    }
  }

  lemma {:induction false} UpwardItemsEnd(fuel: nat, job: Job, users: seq<UserFile>, bound: nat, target: string, source: string, items: seq<UserFile>)
    requires forall r :: r in users ==> |r.dir| <= bound
    requires |target| <= |source| <= bound && fuel > bound + 2 - |source|
    ensures CopyItems(fuel, job, users, target, source, items).Some?
    ensures forall r :: r in CopyItems(fuel, job, users, target, source, items).value ==> |r.dir| <= bound
    decreases fuel, 0, |items|
  {
    if items != [] {
      var c := items[0];
      if IsFolder(job.files, c) {
        UpwardCopyEnds(fuel - 1, job, users, bound, c.fid, target, c.name, source);
        UpwardItemsEnd(fuel, job, CopyFolder(fuel - 1, job, users, c.fid, target, c.name, source).value, bound, target, source, items[1..]);
      } else {
        UpwardItemsEnd(fuel, job, users + [NewRow(job.to, c.fid, target, c.name, job.time)], bound, target, source, items[1..]);
      }
    }
  }

  function Min(a: int, b: int): int {
    if a <= b then a else b
  }

  /**
   The copy of a folder ends if and only if it does not go to a directory of the same user that the
   copied folder itself leads to.
   */
  lemma {:induction false} EndsIff(job: Job, users: seq<UserFile>, fid: int, dir: string, name: string, fromdir: string)
    requires fid in job.files && job.files[fid].kind != FILE
    requires SegmentNames(job, users) && IsSegment(name) && IsDir(dir)
    ensures (exists fuel :: CopyFolder(fuel, job, users, fid, dir, name, fromdir).Some?)
       <==> !(job.to == job.from && Reaches(job.files, users, job.from, Child(fromdir, name), dir))
  {
    var root := Child(fromdir, name);
    if job.to == job.from && Reaches(job.files, users, job.from, root, dir) {
      forall fuel ensures CopyFolder(fuel, job, users, fid, dir, name, fromdir) == None {
        NeverEnds(fuel, job, users, fid, dir, name, fromdir);
      }
    } else if job.to == job.from && |dir| <= |fromdir| {
      var bound := Bound(users) + |dir|;
      UpwardCopyEnds(bound + 2, job, users, bound, fid, dir, name, fromdir);
    } else {
      if job.to == job.from {
        ApartWhenDeeper(job, users, fromdir, dir, name);
      }
      assert users + [] == users;
      CopyIsImage(Depth(users, root) + 1, job, users, [], root, Child(dir, name), fid, dir, name, fromdir);
    }
  }

  // ---------------------------------------------------------------- the tree transformation

  /**
   Share copy is a tree transformation. When source and target are apart, the copy ends and appends,
   to rows it leaves as they were, the folder row and the image of the sender's subtree, in pre-order:
   every row below `fromdir/name/` once, with that prefix replaced by `dir/name/`, same ids and names.
   */
  lemma ShareCopyIsSubtree(fuel: nat, job: Job, users: seq<UserFile>, fid: int, dir: string, name: string, fromdir: string)
    requires Apart(job, users, Child(fromdir, name), dir, Child(dir, name))
    requires fuel > Depth(users, Child(fromdir, name))
    requires WellFormed(job.files, users, job.from, Child(fromdir, name))
    ensures var source, target := Child(fromdir, name), Child(dir, name);
            var result := CopyFolder(fuel, job, users, fid, dir, name, fromdir);
            && result.Some? && |users| < |result.value| && result.value[..|users|] == users
            && result.value[|users|] == NewRow(job.to, fid, dir, name, job.time)
            && multiset(result.value[|users| + 1..])
            == multiset(Map(Under(job.files, users, job.from, source), Retarget(job, source, target)))
  {
    var source, target := Child(fromdir, name), Child(dir, name);
    assert users + [] == users;
    CopyIsImage(fuel, job, users, [], source, target, fid, dir, name, fromdir);
    var image := Image(job, users, fid, dir, name, fromdir);
    assert [] + image == image;
    AppendedParts(users, NewRow(job.to, fid, dir, name, job.time), Map(PreOrder(job.files, users, job.from, source), Retarget(job, source, target)));
    PreOrderIsUnder(job.files, users, job.from, source);
    MapMultiset(PreOrder(job.files, users, job.from, source), Under(job.files, users, job.from, source), Retarget(job, source, target));
  }

  /** A receiver who had nothing below the new folder has the sender's tree there afterwards. */
  lemma ReceiverSeesSubtree(fuel: nat, job: Job, users: seq<UserFile>, fid: int, dir: string, name: string, fromdir: string)
    requires Apart(job, users, Child(fromdir, name), dir, Child(dir, name))
    requires fuel > Depth(users, Child(fromdir, name))
    requires Under(job.files, users, job.to, Child(dir, name)) == []
    ensures var source, target := Child(fromdir, name), Child(dir, name);
            var result := CopyFolder(fuel, job, users, fid, dir, name, fromdir);
            && result.Some?
            && Under(job.files, result.value, job.to, target)
            == Map(PreOrder(job.files, users, job.from, source), Retarget(job, source, target))
  {
    var source, target := Child(fromdir, name), Child(dir, name);
    var f := IsUnder(job.files, job.to, target);
    assert users + [] == users;
    CopyIsImage(fuel, job, users, [], source, target, fid, dir, name, fromdir);
    var row := NewRow(job.to, fid, dir, name, job.time);
    var walk := PreOrder(job.files, users, job.from, source);
    var copy := Map(walk, Retarget(job, source, target));
    assert [] + ([row] + copy) == [row] + copy;
    forall r | r in copy
      ensures f(r)
    {
      var i :| 0 <= i < |copy| && copy[i] == r;
      PreOrderInside(job.files, users, job.from, source, walk[i]);
    }
    FilterAppended(users, row, copy, f);
  }
}
