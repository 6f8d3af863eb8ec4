/** A folder that turns into a plain file, because a row of a deleted file was left behind at its path. */
module StrayRows {
  import opened Wrappers
  import opened Sequences
  import opened Tables
  import opened Transfer
  import opened DeleteTree
  import opened Storage

  /** The tables after a file has been uploaded, uploaded once more, and deleted: a row that nobody refers to. */
  function StrayRow(rq: UploadRq): Store {
    Store(map[2 := FileRow(rq.size, DiskPath(rq.uid, rq.dir, rq.md5), rq.md5, 0, FILE)], 3, [], map[],
          map[TaskKey(rq.uid, rq.timestamp) := 1, TaskKey(rq.uid, rq.timestamp + 1) := 1])
  }

  function OneRow(rq: UploadRq): Store {
    var path := DiskPath(rq.uid, rq.dir, rq.md5);
    Store(map[1 := FileRow(rq.size, path, rq.md5, 0, FILE)], 2, [NewRow(rq.uid, 1, rq.dir, rq.fileName, rq.time)],
          map[path := Regular], map[TaskKey(rq.uid, rq.timestamp) := 1])
  }

  function Again(rq: UploadRq): UploadRq {
    rq.(timestamp := rq.timestamp + 1)
  }

  function TwoRows(rq: UploadRq): Store {
    var row := FileRow(rq.size, DiskPath(rq.uid, rq.dir, rq.md5), rq.md5, 0, FILE);
    var user := NewRow(rq.uid, 1, rq.dir, rq.fileName, rq.time);
    Store(map[1 := row, 2 := row], 3, [user, user], map[row.path := Regular],
          map[TaskKey(rq.uid, rq.timestamp) := 1, TaskKey(rq.uid, rq.timestamp + 1) := 1])
  }

  lemma UploadedOnce(rq: UploadRq)
    requires ValidUpload(rq)
    ensures Uploaded(EMPTY_STORE, rq, true).0 == OneRow(rq)
  {
    var path := DiskPath(rq.uid, rq.dir, rq.md5);
    var files := map[1 := FileRow(rq.size, path, rq.md5, 0, FILE)];
    assert AtPathWith(path, rq.md5)(files[1]);
    assert FirstId(files, 1, 2, AtPathWith(path, rq.md5)) == Some(1);
  }

  lemma UploadedTwice(rq: UploadRq)
    requires ValidUpload(rq)
    ensures Uploaded(OneRow(rq), Again(rq), true).0 == TwoRows(rq)
  {
    var path := DiskPath(rq.uid, rq.dir, rq.md5);
    var row := FileRow(rq.size, path, rq.md5, 0, FILE);
    var files := map[1 := row];
    assert FirstId(files, 1, 2, Finished(rq.md5)) == None;
    assert AtPathWith(path, rq.md5)(files[2 := row][1]);
    assert FirstId(files[2 := row], 1, 3, AtPathWith(path, rq.md5)) == Some(1);
  }

  /** The deletion is of every row that refers to the first file row. */
  lemma DeletesBoth(rq: UploadRq)
    ensures DeadItem(TwoRows(rq), rq.uid, 1, rq.dir) == Matches(rq.uid, 1, rq.dir)
    ensures Filter(TwoRows(rq).users, Kept(Matches(rq.uid, 1, rq.dir))) == []
  {
    var s, m := TwoRows(rq), Matches(rq.uid, 1, rq.dir);
    assert s.users[0] in s.users && m(s.users[0]) && forall x :: x in s.users ==> x == s.users[0];
    assert s.users[0] in Filter(s.users, m);
    assert Hits(s, rq.uid, 1, rq.dir) == Filter(s.users, m);
    FilterNone(s.users, Kept(m));
  }

  lemma DeletedLeavesStray(rq: UploadRq)
    ensures Deleted(TwoRows(rq), rq.uid, [1], rq.dir) == StrayRow(rq)
  {
    var s, m := TwoRows(rq), Matches(rq.uid, 1, rq.dir);
    assert Deleted(s, rq.uid, [1][..0], rq.dir) == s;
    DeletesBoth(rq);
    assert s.users[0] in s.users && m(s.users[0]);
    assert LosesLast(s, m, 1) && !LosesLast(s, m, 2);
    assert PathLost(s, m, DiskPath(rq.uid, rq.dir, rq.md5));
  }

  lemma FolderOverStray(rq: UploadRq, time: string)
    ensures var (t, result) := FolderAdded(StrayRow(rq), rq.uid, rq.dir, rq.md5, time, true);
            && result == 1 && Listed(t.files, t.users, rq.uid, rq.dir) == [NewRow(rq.uid, 2, rq.dir, rq.md5, time)]
            && 2 in t.files && t.files[2].kind == FILE && t.files[2].state == 0
  {
    var path := DiskPath(rq.uid, rq.dir, rq.md5);
    var t := FolderAdded(StrayRow(rq), rq.uid, rq.dir, rq.md5, time, true).0;
    assert AtPath(path)(t.files[2]);
    assert FirstId(t.files, 1, 4, AtPath(path)) == Some(2);
    assert t.users == [NewRow(rq.uid, 2, rq.dir, rq.md5, time)];
  }

  lemma RunLast(steps: seq<Step>, last: Step)
    ensures Run(EMPTY_STORE, steps + [last]) == Apply(Run(EMPTY_STORE, steps), last)
  {
    assert (steps + [last])[..|steps|] == steps;
  }

  lemma RunOnce(rq: UploadRq)
    requires ValidUpload(rq)
    ensures Run(EMPTY_STORE, [Step.Upload(rq, true)]) == OneRow(rq)
  {
    assert [Step.Upload(rq, true)] == [] + [Step.Upload(rq, true)];
    RunLast([], Step.Upload(rq, true));
    UploadedOnce(rq);
  }

  lemma RunTwice(rq: UploadRq)
    requires ValidUpload(rq)
    ensures Run(EMPTY_STORE, [Step.Upload(rq, true), Step.Upload(Again(rq), true)]) == TwoRows(rq)
  {
    var first, last := [Step.Upload(rq, true)], Step.Upload(Again(rq), true);
    assert [Step.Upload(rq, true), last] == first + [last];
    RunLast(first, last);
    RunOnce(rq);
    UploadedTwice(rq);
  }

  lemma DeleteLast(rq: UploadRq, first: seq<Step>)
    requires Run(EMPTY_STORE, first) == TwoRows(rq)
    ensures Run(EMPTY_STORE, first + [Step.Delete(rq.uid, [1], rq.dir)]) == StrayRow(rq)
  {
    RunLast(first, Step.Delete(rq.uid, [1], rq.dir));
    DeletedLeavesStray(rq);
  }

  lemma RunLeavesStray(rq: UploadRq)
    requires ValidUpload(rq)
    ensures Run(EMPTY_STORE, [Step.Upload(rq, true), Step.Upload(Again(rq), true), Step.Delete(rq.uid, [1], rq.dir)]) == StrayRow(rq)
  {
    var first, last := [Step.Upload(rq, true), Step.Upload(Again(rq), true)], Step.Delete(rq.uid, [1], rq.dir);
    assert [Step.Upload(rq, true), Step.Upload(Again(rq), true), last] == first + [last];
    RunTwice(rq);
    DeleteLast(rq, first);
  }

  /**
   It happens: upload a file, upload it once more, delete it, and make a folder of the md5 value's name.
   The request succeeds, and what the user then has there is an unfinished plain file.
   */
  lemma FolderBecomesFile(rq: UploadRq, time: string)
    requires ValidUpload(rq)
    ensures var steps := [Step.Upload(rq, true), Step.Upload(Again(rq), true), Step.Delete(rq.uid, [1], rq.dir)];
            var (t, result) := FolderAdded(Run(EMPTY_STORE, steps), rq.uid, rq.dir, rq.md5, time, true);
            && result == 1 && Listed(t.files, t.users, rq.uid, rq.dir) == [NewRow(rq.uid, 2, rq.dir, rq.md5, time)]
            && 2 in t.files && t.files[2].kind == FILE && t.files[2].state == 0
  {
    RunLeavesStray(rq);
    FolderOverStray(rq, time);
  }
}
