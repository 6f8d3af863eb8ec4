/**
 The folder tree that the path strings of t_user_file spell out: the pre-order walk that share copy
 and folder download perform, reachability, and their agreement on well-formed trees.
 */
module FolderTree {
  import opened Text
  import opened Sequences
  import opened Tables

  /** The length of the longest directory in the table. */
  function Bound(users: seq<UserFile>): (b: nat)
    ensures forall r :: r in users ==> |r.dir| <= b
  {
    if users == [] then 0
    else
      var rest := Bound(users[1..]);
      assert forall r :: r in users <==> r == users[0] || r in users[1..];
      if |users[0].dir| > rest then |users[0].dir| else rest
  }

  /** How many levels can still follow below a directory of this length. */
  function Depth(users: seq<UserFile>, dir: string): nat {
    if |dir| <= Bound(users) then Bound(users) - |dir| + 1 else 0
  }

  /** The rows below `dir`, each folder followed by what is in it, siblings by id. */
  function PreOrder(files: Files, users: seq<UserFile>, uid: int, dir: string): seq<UserFile>
    decreases Depth(users, dir), 1, 0
  {
    if Depth(users, dir) == 0 then [] else PreItems(files, users, uid, dir, Listed(files, users, uid, dir))
  }

  function PreItems(files: Files, users: seq<UserFile>, uid: int, dir: string, items: seq<UserFile>): seq<UserFile>
    requires Depth(users, dir) > 0
    decreases Depth(users, dir), 0, |items|
  {
    if items == [] then []
    else [items[0]] + Below(files, users, uid, dir, items[0]) + PreItems(files, users, uid, dir, items[1..])
  }

  /** What follows one row of `dir` in the walk. */
  function Below(files: Files, users: seq<UserFile>, uid: int, dir: string, r: UserFile): seq<UserFile>
    requires Depth(users, dir) > 0
    decreases Depth(users, dir), 0, 0
  {
    if IsFolder(files, r) then PreOrder(files, users, uid, Child(dir, r.name)) else []
  }

  function IsUnder(files: Files, uid: int, dir: string): UserFile -> bool {
    (r: UserFile) => r.uid == uid && r.fid in files && HasPrefix(r.dir, dir)
  }

  /** All rows of the user whose directory starts with `dir`. */
  function Under(files: Files, users: seq<UserFile>, uid: int, dir: string): seq<UserFile> {
    Filter(users, IsUnder(files, uid, dir))
  }

  /** The user's folder row `p` makes the directory `dir` exist. */
  ghost predicate Makes(files: Files, uid: int, p: UserFile, dir: string) {
    p.uid == uid && IsFolder(files, p) && Child(p.dir, p.name) == dir
  }

  /** Below `root` every directory has its folder row, and folder names are unique in a directory. */
  ghost predicate WellFormed(files: Files, users: seq<UserFile>, uid: int, root: string) {
    && (forall r :: r in users && IsUnder(files, uid, root)(r) && r.dir != root ==>
          exists p :: p in users && IsUnder(files, uid, root)(p) && Makes(files, uid, p, r.dir))
    && (forall p :: p in users && IsUnder(files, uid, root)(p) && IsFolder(files, p) ==> IsSegment(p.name))
    && UniqueNames(files, Under(files, users, uid, root))
  }

  ghost predicate UniqueNames(files: Files, rows: seq<UserFile>) {
    forall i, j :: 0 <= i < j < |rows| && IsFolder(files, rows[i]) && IsFolder(files, rows[j]) ==>
      rows[i].dir != rows[j].dir || rows[i].name != rows[j].name
  }

  /** `dir` is reached from `root` through folder rows of the user. */
  ghost predicate Reaches(files: Files, users: seq<UserFile>, uid: int, root: string, dir: string)
    decreases |dir|
  {
    dir == root || exists p :: p in users && Makes(files, uid, p, dir) && Reaches(files, users, uid, root, p.dir)
  }

  lemma {:induction false} ReachesHasPrefix(files: Files, users: seq<UserFile>, uid: int, root: string, dir: string)
    requires Reaches(files, users, uid, root, dir)
    ensures HasPrefix(dir, root)
    decreases |dir|
  {
    if dir != root {
      var p :| p in users && Makes(files, uid, p, dir) && Reaches(files, users, uid, root, p.dir);
      ReachesHasPrefix(files, users, uid, root, p.dir);
      PrefixTransitive(dir, p.dir, root);
    }
  }

  /** A directory strictly below another is made by a row that is not above it. */
  lemma ParentBelow(p: UserFile, dir: string, top: string)
    requires IsSegment(p.name) && Child(p.dir, p.name) == dir
    requires IsDir(top) && HasPrefix(dir, top) && dir != top
    ensures HasPrefix(p.dir, top)
  {}

  /** A walk that gets below `top` from above passes through it. */
  lemma {:induction false} ReachesThrough(files: Files, users: seq<UserFile>, uid: int, root: string, top: string, dir: string)
    requires Reaches(files, users, uid, root, dir)
    requires IsDir(top) && HasPrefix(top, root) && HasPrefix(dir, top)
    requires forall p :: p in users && IsFolder(files, p) ==> IsSegment(p.name)
    ensures Reaches(files, users, uid, root, top)
    decreases |dir|
  {
    if dir != top {
      if dir != root {
        var p :| p in users && Makes(files, uid, p, dir) && Reaches(files, users, uid, root, p.dir);
        ParentBelow(p, dir, top);
        ReachesThrough(files, users, uid, root, top, p.dir);
      }
    }
  }

  /** On a well-formed tree reachability is nothing but the prefix test. */
  lemma {:induction false} ReachesIffPrefix(files: Files, users: seq<UserFile>, uid: int, root: string, r: UserFile)
    requires WellFormed(files, users, uid, root)
    requires r in users && r.uid == uid && r.fid in files
    ensures Reaches(files, users, uid, root, r.dir) <==> HasPrefix(r.dir, root)
    decreases |r.dir|
  {
    if HasPrefix(r.dir, root) {
      if r.dir != root {
        assert IsUnder(files, uid, root)(r);
        var p :| p in users && IsUnder(files, uid, root)(p) && Makes(files, uid, p, r.dir);
        ReachesIffPrefix(files, users, uid, root, p);
      }
    } else if Reaches(files, users, uid, root, r.dir) {
      ReachesHasPrefix(files, users, uid, root, r.dir);
    }
  }

  lemma {:induction false} ReachesMore(files: Files, users: seq<UserFile>, added: seq<UserFile>, uid: int, root: string, dir: string)
    requires Reaches(files, users, uid, root, dir)
    ensures Reaches(files, users + added, uid, root, dir)
    decreases |dir|
  {
    if dir != root {
      var p :| p in users && Makes(files, uid, p, dir) && Reaches(files, users, uid, root, p.dir);
      ReachesMore(files, users, added, uid, root, p.dir);
      assert p in users + added;
    }
  }

  /** The first step on the way from `root` to `dir`. */
  lemma {:induction false} FirstStep(files: Files, users: seq<UserFile>, uid: int, root: string, dir: string) returns (c: UserFile)
    requires Reaches(files, users, uid, root, dir) && dir != root
    ensures c in Listed(files, users, uid, root) && IsFolder(files, c)
    ensures Reaches(files, users, uid, Child(root, c.name), dir)
    decreases |dir|
  {
    var p :| p in users && Makes(files, uid, p, dir) && Reaches(files, users, uid, root, p.dir);
    if p.dir == root {
      c := p;
      assert InDir(files, uid, root)(c);
    } else {
      c := FirstStep(files, users, uid, root, p.dir);
    }
  }

  /** What a folder of a directory leads to, the directory leads to. */
  lemma {:induction false} ReachesSplits(files: Files, users: seq<UserFile>, uid: int, root: string, c: UserFile, d: string)
    requires c in users && c.uid == uid && IsFolder(files, c) && c.dir == root
    requires Reaches(files, users, uid, Child(root, c.name), d)
    ensures Reaches(files, users, uid, root, d)
    decreases |d|
  {
    if d == Child(root, c.name) {
      assert Makes(files, uid, c, d) && Reaches(files, users, uid, root, c.dir);
    } else {
      var p :| p in users && Makes(files, uid, p, d) && Reaches(files, users, uid, Child(root, c.name), p.dir);
      ReachesSplits(files, users, uid, root, c, p.dir);
    }
  }

  lemma {:induction false} ReachesFurther(files: Files, users: seq<UserFile>, uid: int, root: string, dir: string, d: string)
    requires Reaches(files, users, uid, root, dir) && Reaches(files, users, uid, dir, d)
    ensures Reaches(files, users, uid, root, d)
    decreases |d|
  {
    if d != dir {
      var p :| p in users && Makes(files, uid, p, d) && Reaches(files, users, uid, dir, p.dir);
      ReachesFurther(files, users, uid, root, dir, p.dir);
    }
  }

  // ---------------------------------------------------------------- the walk visits the subtree

  /** The walk meets only rows of directories that it reaches. */
  lemma {:induction false} PreOrderReached(files: Files, users: seq<UserFile>, uid: int, dir: string, r: UserFile)
    requires r in PreOrder(files, users, uid, dir)
    ensures Reaches(files, users, uid, dir, r.dir)
    decreases Depth(users, dir), 1, 0
  {
    PreItemsReached(files, users, uid, dir, Listed(files, users, uid, dir), r);
  }

  lemma {:induction false} PreItemsReached(files: Files, users: seq<UserFile>, uid: int, dir: string, items: seq<UserFile>, r: UserFile)
    requires Depth(users, dir) > 0 && r in PreItems(files, users, uid, dir, items)
    requires forall x :: x in items ==> x in users && InDir(files, uid, dir)(x)
    ensures Reaches(files, users, uid, dir, r.dir)
    decreases Depth(users, dir), 0, |items|
  {
    var c := items[0];
    assert c in users && InDir(files, uid, dir)(c);
    if r == c {
      assert r.dir == dir;
    } else if r in Below(files, users, uid, dir, c) {
      PreOrderReached(files, users, uid, Child(dir, c.name), r);
      ReachesSplits(files, users, uid, dir, c, r.dir);
    } else {
      PreItemsReached(files, users, uid, dir, items[1..], r);
    }
  }

  /** Every row of the walk lies below the directory it starts from. */
  lemma {:induction false} PreOrderInside(files: Files, users: seq<UserFile>, uid: int, dir: string, r: UserFile)
    requires r in PreOrder(files, users, uid, dir)
    ensures r in users && IsUnder(files, uid, dir)(r)
    decreases Depth(users, dir), 1, 0
  {
    PreItemsInside(files, users, uid, dir, Listed(files, users, uid, dir), r);
  }

  lemma {:induction false} PreItemsInside(files: Files, users: seq<UserFile>, uid: int, dir: string, items: seq<UserFile>, r: UserFile)
    requires Depth(users, dir) > 0 && r in PreItems(files, users, uid, dir, items)
    requires forall x :: x in items ==> x in users && InDir(files, uid, dir)(x)
    ensures r in users && IsUnder(files, uid, dir)(r)
    decreases Depth(users, dir), 0, |items|
  {
    var below := Below(files, users, uid, dir, items[0]);
    if r == items[0] {
      assert r in users && InDir(files, uid, dir)(r);
    } else if r in below {
      PreOrderInside(files, users, uid, Child(dir, items[0].name), r);
      PrefixTransitive(r.dir, Child(dir, items[0].name), dir);
    } else {
      PreItemsInside(files, users, uid, dir, items[1..], r);
    }
  }

  /** The row lies below one of the folders among `items`. */
  ghost function IsUnderSome(files: Files, uid: int, dir: string, items: seq<UserFile>): UserFile -> bool {
    (r: UserFile) => exists c :: c in items && IsFolder(files, c) && IsUnder(files, uid, Child(dir, c.name))(r)
  }

  lemma {:induction false} ReachesFromChild(files: Files, users: seq<UserFile>, uid: int, dir: string, r: UserFile) returns (c: UserFile)
    requires WellFormed(files, users, uid, dir)
    requires r in users && IsUnder(files, uid, dir)(r) && r.dir != dir
    ensures c in Listed(files, users, uid, dir) && IsFolder(files, c) && IsUnder(files, uid, Child(dir, c.name))(r)
    decreases |r.dir|
  {
    var p :| p in users && IsUnder(files, uid, dir)(p) && Makes(files, uid, p, r.dir);
    if p.dir == dir {
      c := p;
      assert InDir(files, uid, dir)(c);
      assert r.dir[..|r.dir|] == r.dir;
    } else {
      c := ReachesFromChild(files, users, uid, dir, p);
      PrefixTransitive(r.dir, p.dir, Child(dir, c.name));
    }
  }

  /** A subtree of a well-formed tree is well-formed. */
  lemma WellFormedBelow(files: Files, users: seq<UserFile>, uid: int, dir: string, sub: string)
    requires WellFormed(files, users, uid, dir) && HasPrefix(sub, dir) && IsDir(sub)
    ensures WellFormed(files, users, uid, sub)
  {
    forall r | r in users && IsUnder(files, uid, sub)(r)
      ensures IsUnder(files, uid, dir)(r)
    {
      PrefixTransitive(r.dir, sub, dir);
    }
    forall r | r in users && IsUnder(files, uid, sub)(r) && r.dir != sub
      ensures exists p :: p in users && IsUnder(files, uid, sub)(p) && Makes(files, uid, p, r.dir)
    {
      assert IsUnder(files, uid, dir)(r);
      var p :| p in users && IsUnder(files, uid, dir)(p) && Makes(files, uid, p, r.dir);
      ParentBelow(p, r.dir, sub);
    }
    FilterTwice(users, IsUnder(files, uid, dir), IsUnder(files, uid, sub), IsUnder(files, uid, sub));
    UniqueInFilter(files, Under(files, users, uid, dir), IsUnder(files, uid, sub));
  }

  lemma {:induction false} UniqueInFilter(files: Files, rows: seq<UserFile>, f: UserFile -> bool)
    requires UniqueNames(files, rows)
    ensures UniqueNames(files, Filter(rows, f))
  {
    if rows != [] {
      var rest := rows[1..];
      assert UniqueNames(files, rest) by {
        forall i, j | 0 <= i < j < |rest| && IsFolder(files, rest[i]) && IsFolder(files, rest[j])
          ensures rest[i].dir != rest[j].dir || rest[i].name != rest[j].name
        {
          assert rest[i] == rows[i + 1] && rest[j] == rows[j + 1];
        }
      }
      UniqueInFilter(files, rest, f);
      var kept := Filter(rest, f);
      forall j | 0 <= j < |kept| && IsFolder(files, rows[0]) && IsFolder(files, kept[j])
        ensures rows[0].dir != kept[j].dir || rows[0].name != kept[j].name
      {
        assert kept[j] in rest;
        var k :| 0 <= k < |rest| && rest[k] == kept[j];
        assert rows[k + 1] == kept[j];
      }
    }
  }

  lemma MultisetOfParts<T>(c: T, below: seq<T>, more: seq<T>)
    ensures multiset([c] + below + more) == multiset{c} + multiset(below) + multiset(more)
  {}

  lemma MultisetOfCons<T>(items: seq<T>)
    requires items != []
    ensures multiset(items) == multiset{items[0]} + multiset(items[1..])
  {
    assert items == [items[0]] + items[1..];
  }

  lemma {:induction false} PreItemsAre(files: Files, users: seq<UserFile>, uid: int, dir: string, items: seq<UserFile>)
    requires Depth(users, dir) > 0
    requires WellFormed(files, users, uid, dir)
    requires forall x :: x in items ==> x in users && InDir(files, uid, dir)(x)
    requires UniqueNames(files, items)
    ensures multiset(PreItems(files, users, uid, dir, items))
         == multiset(items) + multiset(Filter(users, IsUnderSome(files, uid, dir, items)))
    decreases Depth(users, dir), 0, |items|
  {
    if items == [] {
      FilterNone(users, IsUnderSome(files, uid, dir, items));
    } else {
      UniqueRest(files, items);
      PreItemsAre(files, users, uid, dir, items[1..]);
      BelowIs(files, users, uid, dir, items);
      MultisetOfParts(items[0], Below(files, users, uid, dir, items[0]), PreItems(files, users, uid, dir, items[1..]));
      MultisetOfCons(items);
    }
  }

  /** One row among its siblings: what follows it in the walk is its share of what lies below them all. */
  lemma {:induction false} BelowIs(files: Files, users: seq<UserFile>, uid: int, dir: string, items: seq<UserFile>)
    requires Depth(users, dir) > 0 && items != []
    requires WellFormed(files, users, uid, dir)
    requires forall x :: x in items ==> x in users && InDir(files, uid, dir)(x)
    requires UniqueNames(files, items)
    ensures multiset(Filter(users, IsUnderSome(files, uid, dir, items)))
         == multiset(Below(files, users, uid, dir, items[0])) + multiset(Filter(users, IsUnderSome(files, uid, dir, items[1..])))
    decreases Depth(users, dir), 0, 0
  {
    var c, rest := items[0], items[1..];
    if IsFolder(files, c) {
      var sub := Child(dir, c.name);
      WellFormedBelow(files, users, uid, dir, sub);
      PreOrderIsUnder(files, users, uid, sub);
      forall r | r in users
        ensures IsUnderSome(files, uid, dir, items)(r) <==> IsUnder(files, uid, sub)(r) || IsUnderSome(files, uid, dir, rest)(r)
        ensures !(IsUnder(files, uid, sub)(r) && IsUnderSome(files, uid, dir, rest)(r))
      {
        Siblings(files, users, uid, dir, items, r);
      }
      FilterEither(users, IsUnder(files, uid, sub), IsUnderSome(files, uid, dir, rest), IsUnderSome(files, uid, dir, items));
    } else {
      assert items == [c] + rest;
      FilterAgree(users, IsUnderSome(files, uid, dir, rest), IsUnderSome(files, uid, dir, items));
    }
  }

  lemma UniqueRest(files: Files, items: seq<UserFile>)
    requires UniqueNames(files, items) && items != []
    ensures UniqueNames(files, items[1..])
    ensures forall x :: x in items[1..] && IsFolder(files, x) && IsFolder(files, items[0]) ==>
              x.dir != items[0].dir || x.name != items[0].name
  {}

  /** The subtrees of a first folder and of its later siblings are disjoint. */
  lemma Siblings(files: Files, users: seq<UserFile>, uid: int, dir: string, items: seq<UserFile>, r: UserFile)
    requires items != [] && IsFolder(files, items[0])
    requires WellFormed(files, users, uid, dir) && UniqueNames(files, items)
    requires forall x :: x in items ==> x in users && InDir(files, uid, dir)(x)
    ensures var one, others := IsUnder(files, uid, Child(dir, items[0].name))(r), IsUnderSome(files, uid, dir, items[1..])(r);
            (IsUnderSome(files, uid, dir, items)(r) <==> one || others) && !(one && others)
  {
    var c, rest := items[0], items[1..];
    assert items == [c] + rest;
    if IsUnder(files, uid, Child(dir, c.name))(r) && IsUnderSome(files, uid, dir, rest)(r) {
      UniqueRest(files, items);
      var d :| d in rest && IsFolder(files, d) && IsUnder(files, uid, Child(dir, d.name))(r);
      assert InDir(files, uid, dir)(c) && InDir(files, uid, dir)(d);
      assert IsUnder(files, uid, dir)(c) && IsUnder(files, uid, dir)(d);
      ChildPrefixDetermines(r.dir, dir, c.name, d.name);
    }
  }

  /** The walk over a well-formed tree visits each row below its root, and each exactly once. */
  lemma {:induction false} PreOrderIsUnder(files: Files, users: seq<UserFile>, uid: int, dir: string)
    requires WellFormed(files, users, uid, dir)
    ensures multiset(PreOrder(files, users, uid, dir)) == multiset(Under(files, users, uid, dir))
    decreases Depth(users, dir), 1, 0
  {
    var items := Listed(files, users, uid, dir);
    if Depth(users, dir) == 0 {
      FilterNone(users, IsUnder(files, uid, dir));
    } else {
      FilterTwice(users, IsUnder(files, uid, dir), InDir(files, uid, dir), InDir(files, uid, dir));
      UniqueInFilter(files, Under(files, users, uid, dir), InDir(files, uid, dir));
      PreItemsAre(files, users, uid, dir, items);
      forall r | r in users
        ensures IsUnder(files, uid, dir)(r) <==> InDir(files, uid, dir)(r) || IsUnderSome(files, uid, dir, items)(r)
        ensures !(InDir(files, uid, dir)(r) && IsUnderSome(files, uid, dir, items)(r))
      {
        if IsUnder(files, uid, dir)(r) && r.dir != dir {
          var c := ReachesFromChild(files, users, uid, dir, r);
        }
        if IsUnderSome(files, uid, dir, items)(r) {
          var c :| c in items && IsFolder(files, c) && IsUnder(files, uid, Child(dir, c.name))(r);
          PrefixTransitive(r.dir, Child(dir, c.name), dir);
        }
      }
      FilterEither(users, InDir(files, uid, dir), IsUnderSome(files, uid, dir, items), IsUnder(files, uid, dir));
    }
  }
}
