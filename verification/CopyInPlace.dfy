/** A shared folder that its owner receives in the directory it lies in: every row below it is doubled. */
module CopyInPlace {
  import opened Text
  import opened Wrappers
  import opened Sequences
  import opened Tables
  import opened FolderTree
  import opened ShareCopy

  /** The row as the copy inserts it again. */
  function Again(job: Job): UserFile -> UserFile {
    (r: UserFile) => NewRow(job.to, r.fid, r.dir, r.name, job.time)
  }

  /** None of these rows lies in or below the directory. */
  predicate NoneBelow(rows: seq<UserFile>, dir: string) {
    forall r :: r in rows ==> !HasPrefix(r.dir, dir)
  }

  /** None of them lies in or below one of the folders among `items`. */
  predicate NoneBelowAny(files: Files, rows: seq<UserFile>, source: string, items: seq<UserFile>) {
    forall c :: c in items && IsFolder(files, c) ==> NoneBelow(rows, Child(source, c.name))
  }

  /** What one row of the loop stands for in the walk. */
  function ItemWalk(job: Job, base: seq<UserFile>, source: string, c: UserFile): seq<UserFile>
    requires Depth(base, source) > 0
  {
    [c] + Below(job.files, base, job.from, source, c)
  }

  function Doubled(job: Job, base: seq<UserFile>, fid: int, dir: string, name: string): seq<UserFile> {
    [NewRow(job.to, fid, dir, name, job.time)] + Map(PreOrder(job.files, base, job.from, Child(dir, name)), Again(job))
  }

  lemma ListedFirst(job: Job, base: seq<UserFile>, added: seq<UserFile>, source: string)
    requires NoneBelow(added, source)
    ensures Listed(job.files, base + added, job.from, source) == Listed(job.files, base, job.from, source)
  {
    FilterSplit(base, added, InDir(job.files, job.from, source));
    forall r | r in added
      ensures !InDir(job.files, job.from, source)(r)
    {
      assert HasPrefix(source, source);
    }
    FilterNone(added, InDir(job.files, job.from, source));
  }

  /** A folder is read before anything is inserted below it. */
  lemma {:induction false} FolderDoubles(fuel: nat, job: Job, base: seq<UserFile>, added: seq<UserFile>, fid: int, dir: string, name: string)
    requires NoneBelow(added, Child(dir, name)) && WellFormed(job.files, base, job.from, Child(dir, name))
    requires fuel > Depth(base, Child(dir, name))
    ensures CopyFolder(fuel, job, base + added, fid, dir, name, dir) == Some(base + (added + Doubled(job, base, fid, dir, name)))
    decreases fuel, 1, 0
  {
    var source := Child(dir, name);
    var row := NewRow(job.to, fid, dir, name, job.time);
    var items := Listed(job.files, base, job.from, source);
    AppendAssoc(base, added, [row]);
    ListedFirst(job, base, added + [row], source);
    if Depth(base, source) == 0 {
      FilterNone(base, InDir(job.files, job.from, source));
      assert Doubled(job, base, fid, dir, name) == [row];
    } else {
      FilterTwice(base, IsUnder(job.files, job.from, source), InDir(job.files, job.from, source), InDir(job.files, job.from, source));
      UniqueInFilter(job.files, Under(job.files, base, job.from, source), InDir(job.files, job.from, source));
      NoneBelowItems(job.files, added + [row], source, items);
      ItemsDouble(fuel, job, base, added + [row], source, items);
      AppendAssoc(added, [row], Map(PreItems(job.files, base, job.from, source, items), Again(job)));
    }
  }

  lemma NoneBelowItems(files: Files, rows: seq<UserFile>, source: string, items: seq<UserFile>)
    requires NoneBelow(rows, source)
    ensures NoneBelowAny(files, rows, source, items)
  {
    forall c, r | c in items && r in rows && HasPrefix(r.dir, Child(source, c.name))
      ensures false
    {
      PrefixTransitive(r.dir, Child(source, c.name), source);
    }
  }

  lemma {:induction false} ItemsDouble(fuel: nat, job: Job, base: seq<UserFile>, added: seq<UserFile>, source: string, items: seq<UserFile>)
    requires NoneBelowAny(job.files, added, source, items) && UniqueNames(job.files, items)
    requires WellFormed(job.files, base, job.from, source)
    requires Depth(base, source) > 0 && fuel > Depth(base, source)
    requires forall r :: r in items ==> r in base && InDir(job.files, job.from, source)(r)
    ensures CopyItems(fuel, job, base + added, source, source, items)
         == Some(base + (added + Map(PreItems(job.files, base, job.from, source, items), Again(job))))
    decreases fuel, 0, |items|
  {
    if items == [] {
      assert added + Map(PreItems(job.files, base, job.from, source, items), Again(job)) == added;
    } else {
      var c, rest := items[0], items[1..];
      var walk := PreItems(job.files, base, job.from, source, rest);
      var more := Map(ItemWalk(job, base, source, c), Again(job));
      ItemDoubles(fuel, job, base, added, source, c);
      ElsewhereThanSiblings(job, base, source, items);
      ItemsDouble(fuel, job, base, added + more, source, rest);
      MapSplit(ItemWalk(job, base, source, c), walk, Again(job));
      AppendAssoc(added, more, Map(walk, Again(job)));
    }
  }

  lemma {:induction false} ItemDoubles(fuel: nat, job: Job, base: seq<UserFile>, added: seq<UserFile>, source: string, c: UserFile)
    requires NoneBelowAny(job.files, added, source, [c]) && WellFormed(job.files, base, job.from, source)
    requires Depth(base, source) > 0 && fuel > Depth(base, source)
    requires c in base && InDir(job.files, job.from, source)(c)
    ensures Some(base + (added + Map(ItemWalk(job, base, source, c), Again(job))))
         == if IsFolder(job.files, c) then CopyFolder(fuel - 1, job, base + added, c.fid, source, c.name, source)
            else Some(base + added + [NewRow(job.to, c.fid, source, c.name, job.time)])
    decreases fuel, 0, 0
  {
    if IsFolder(job.files, c) {
      WellFormedBelow(job.files, base, job.from, source, Child(source, c.name));
      assert c in [c];
      FolderDoubles(fuel - 1, job, base, added, c.fid, source, c.name);
      assert Map([c], Again(job)) == [NewRow(job.to, c.fid, source, c.name, job.time)];
      MapSplit([c], PreOrder(job.files, base, job.from, Child(source, c.name)), Again(job));
    } else {
      assert ItemWalk(job, base, source, c) == [c];
      assert Map([c], Again(job)) == [NewRow(job.to, c.fid, source, c.name, job.time)];
      AppendAssoc(base, added, Map([c], Again(job)));
    }
  }

  lemma ElsewhereThan(job: Job, base: seq<UserFile>, source: string, c: UserFile, sibling: UserFile, r: UserFile)
    requires Depth(base, source) > 0 && r in ItemWalk(job, base, source, c) && c.dir == source
    requires IsFolder(job.files, c) ==> IsSegment(c.name)
    requires IsSegment(sibling.name) && (IsFolder(job.files, c) ==> sibling.name != c.name)
    ensures !HasPrefix(r.dir, Child(source, sibling.name))
  {
    if r != c {
      PreOrderInside(job.files, base, job.from, Child(source, c.name), r);
      if HasPrefix(r.dir, Child(source, sibling.name)) {
        ChildPrefixDetermines(r.dir, source, c.name, sibling.name);
      }
    }
  }

  /** What the first item inserts lies in or below none of its siblings. */
  lemma ElsewhereThanSiblings(job: Job, base: seq<UserFile>, source: string, items: seq<UserFile>)
    requires items != [] && UniqueNames(job.files, items) && WellFormed(job.files, base, job.from, source)
    requires Depth(base, source) > 0
    requires forall r :: r in items ==> r in base && InDir(job.files, job.from, source)(r)
    ensures NoneBelowAny(job.files, Map(ItemWalk(job, base, source, items[0]), Again(job)), source, items[1..])
  {
    var walk := ItemWalk(job, base, source, items[0]);
    var more := Map(walk, Again(job));
    UniqueRest(job.files, items);
    forall x | x in items
      ensures InDir(job.files, job.from, source)(x) && (IsFolder(job.files, x) ==> IsSegment(x.name))
    {
      assert HasPrefix(source, source) && IsUnder(job.files, job.from, source)(x);
    }
    forall c, r | c in items[1..] && IsFolder(job.files, c) && r in more
      ensures !HasPrefix(r.dir, Child(source, c.name))
    {
      var i :| 0 <= i < |more| && more[i] == r;
      ElsewhereThan(job, base, source, items[0], c, walk[i]);
    }
  }

  /**
   A folder that is received by its owner in its own directory: the copy ends, and appends the folder row
   and every row below the folder once more, in the same directory and under the same name.
   */
  lemma CopyInPlaceDoubles(fuel: nat, job: Job, users: seq<UserFile>, fid: int, dir: string, name: string)
    requires WellFormed(job.files, users, job.from, Child(dir, name)) && fuel > Depth(users, Child(dir, name))
    ensures var result := CopyFolder(fuel, job, users, fid, dir, name, dir);
            && result.Some? && |users| < |result.value| && result.value[..|users|] == users
            && result.value[|users|] == NewRow(job.to, fid, dir, name, job.time)
            && multiset(result.value[|users| + 1..])
            == multiset(Map(Under(job.files, users, job.from, Child(dir, name)), Again(job)))
  {
    var source := Child(dir, name);
    assert users + [] == users;
    FolderDoubles(fuel, job, users, [], fid, dir, name);
    var copy := Map(PreOrder(job.files, users, job.from, source), Again(job));
    AppendedParts(users, NewRow(job.to, fid, dir, name, job.time), copy);
    assert [] + Doubled(job, users, fid, dir, name) == Doubled(job, users, fid, dir, name);
    PreOrderIsUnder(job.files, users, job.from, source);
    MapMultiset(PreOrder(job.files, users, job.from, source), Under(job.files, users, job.from, source), Again(job));
  }
}
