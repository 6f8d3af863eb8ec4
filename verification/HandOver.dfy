/**
 Finished uploads and the transfer list. A name is printed when its upload finishes, and again when the
 file has been deleted and uploaded anew; how often it is printed is counted exactly.
 */
module HandOver {
  import opened Wrappers
  import opened Tables
  import opened Transfer
  import opened DeleteTree
  import opened Storage
  import opened TransferState
  import opened TransferRuns
  import U = Upload
  import D = Download
  import TL = TransferList

  /** An upload with a task is unfinished, and no finished file is stored where an unfinished one is. */
  ghost predicate OnList(s: Server, key: int, c: U.Session) {
    && c.fid in s.store.files && s.store.files[c.fid].kind == FILE
    && (key in s.tasks ==> s.store.files[c.fid].state == 0)
    && (s.store.files[c.fid].state == 0 ==> U.PathOf(c) !in DonePaths(s.store.files))
  }

  /** Every print is of a file that is finished now, or whose finished row has been deleted since. */
  ghost predicate Balanced(w: World) {
    multiset(w.server.transfers) == w.dropped + multiset(DonePaths(w.server.store.files))
  }

  ghost predicate HandOverInv(w: World) {
    Balanced(w) && forall k :: k in w.ups ==> OnList(w.server, k, w.ups[k])
  }

  // ---------------------------------------------------------------- one step

  lemma BlockKeepsList(s: Server, key: int, c: U.Session, content: Bytes, written: int)
    requires U.SessionInv(s, key, c) && OnList(s, key, c) && -1 <= written <= |content|
    ensures var t := U.BlockReceived(s, key, c.fid, content, written).0;
            && OnList(t, key, c)
            && if t.transfers == s.transfers then DonePaths(t.store.files) == DonePaths(s.store.files)
               else && t.transfers == s.transfers + [U.PathOf(c)] && U.PathOf(c) !in DonePaths(s.store.files)
                    && DonePaths(t.store.files) == DonePaths(s.store.files) + {U.PathOf(c)}
  {
    var t := U.BlockReceived(s, key, c.fid, content, written).0;
    if t.transfers != s.transfers {
      forall p | p in DonePaths(s.store.files) + {U.PathOf(c)}
        ensures p in DonePaths(t.store.files)
      {
        if p == U.PathOf(c) {
          assert t.store.files[c.fid].path == p;
        } else {
          var f :| f in s.store.files && s.store.files[f].kind == FILE && s.store.files[f].state == 1 && s.store.files[f].path == p;
          assert t.store.files[f] == s.store.files[f];
        }
      }
    }
  }

  lemma StepKeepsList(s: Server, key: int, c: U.Session, u: U.Step)
    requires U.SessionInv(s, key, c) && OnList(s, key, c) && U.CanStep(s, key, c, u)
    ensures var (t, d) := U.Stepped(s, key, c, u);
            && OnList(t, key, d)
            && if t.transfers == s.transfers then DonePaths(t.store.files) == DonePaths(s.store.files)
               else && t.transfers == s.transfers + [U.PathOf(c)] && U.PathOf(c) !in DonePaths(s.store.files)
                    && DonePaths(t.store.files) == DonePaths(s.store.files) + {U.PathOf(c)}
  {
    match u
    case ServerBlock(written) => BlockKeepsList(s, key, c, U.BlockOf(c, c.phase.c, c.phase.k), written);
    case LateBlock(at, k, written) => BlockKeepsList(s, key, c, U.BlockOf(c, at, k), written);
    case ServerContinue(fd) => assert U.Continued(s, key, c.uid, c.fid, c.dir, fd).0.store.files == s.store.files;
    case LateResume(fd) => assert U.Continued(s, key, c.uid, c.fid, c.dir, fd).0.store.files == s.store.files;
    case _ =>
  }

  lemma Printed(names: seq<string>, dropped: multiset<string>, done: set<string>, name: string)
    requires multiset(names) == dropped + multiset(done) && name !in done
    ensures multiset(names + [name]) == dropped + multiset(done + {name})
  {
    assert multiset(done + {name}) == multiset(done) + multiset{name};
  }

  lemma UpLeavesList(w: World, key: int, u: U.Step, k: int)
    requires WorldInv(w) && HandOverInv(w) && key in w.ups && U.CanStep(w.server, key, w.ups[key], u) && k in w.ups && k != key
    ensures OnList(U.Stepped(w.server, key, w.ups[key], u).0, k, w.ups[k])
  {
    var s, c := w.server, w.ups[key];
    var t := U.Stepped(s, key, c, u).0;
    assert U.SessionInv(s, key, c) && U.SessionInv(s, k, w.ups[k]) && OnList(s, k, w.ups[k]);
    StepKeepsList(s, key, c, u);
    U.StepOnlyAt(s, key, c, u);
    assert SameTransfer(s, t, k);
    assert Get(t.store.files, w.ups[k].fid) == Get(s.store.files, w.ups[k].fid);
  }

  lemma UpKeepsHandOver(w: World, key: int, u: U.Step)
    requires WorldInv(w) && HandOverInv(w) && key in w.ups && U.CanStep(w.server, key, w.ups[key], u)
    ensures HandOverInv(UpStepped(w, key, u))
  {
    var s, c := w.server, w.ups[key];
    var t := U.Stepped(s, key, c, u).0;
    assert U.SessionInv(s, key, c);
    StepKeepsList(s, key, c, u);
    if t.transfers != s.transfers {
      Printed(s.transfers, w.dropped, DonePaths(s.store.files), U.PathOf(c));
    }
    assert Balanced(UpStepped(w, key, u));
    forall k | k in w.ups && k != key
      ensures OnList(t, k, w.ups[k])
    {
      UpLeavesList(w, key, u, k);
    }
  }

  lemma QuietKeepsHandOver(w: World, t: Server, key: int, downs: map<int, D.Session>)
    requires HandOverInv(w) && D.Quiet(w.server, t, key) && key !in w.ups
    ensures HandOverInv(w.(server := t, downs := downs))
  {
    forall k | k in w.ups
      ensures OnList(t, k, w.ups[k])
    {
      assert SameTransfer(w.server, t, k);
    }
  }

  lemma SameDone(files: map<int, FileRow>, more: map<int, FileRow>)
    requires forall f :: f in files ==> f in more && more[f] == files[f]
    requires forall f :: f in more && f !in files ==> more[f].state == 0
    ensures DonePaths(more) == DonePaths(files)
  {
    forall p | p in DonePaths(files)
      ensures p in DonePaths(more)
    {
      var f :| f in files && files[f].kind == FILE && files[f].state == 1 && files[f].path == p;
      assert more[f] == files[f];
    }
  }

  lemma StartKeepsRows(s: Server, rq: UploadRq, fd: int)
    requires StorageInv(s.store)
    ensures var files := U.Started(s, rq, fd).0.store.files;
            && (forall f :: f in s.store.files ==> f in files && files[f] == s.store.files[f])
            && (forall f :: f in files && f !in s.store.files ==> files[f].state == 0)
  {}

  lemma StartKeepsDone(s: Server, rq: UploadRq, fd: int)
    requires StorageInv(s.store)
    ensures DonePaths(U.Started(s, rq, fd).0.store.files) == DonePaths(s.store.files)
  {
    StartKeepsRows(s, rq, fd);
    SameDone(s.store.files, U.Started(s, rq, fd).0.store.files);
  }

  lemma StartIsNotDone(s: Server, rq: UploadRq, fd: int)
    requires StorageInv(s.store) && ValidUpload(rq) && U.Started(s, rq, fd).1.Accepted?
    ensures DiskPath(rq.uid, rq.dir, rq.md5) !in DonePaths(s.store.files)
  {
    forall f | f in s.store.files && s.store.files[f].state == 1
      ensures s.store.files[f].path != DiskPath(rq.uid, rq.dir, rq.md5)
    {
      NeverTruncatesFinished(s.store, rq, f);
    }
  }

  lemma StartKeepsList(s: Server, rq: UploadRq, fd: int, k: int, c: U.Session)
    requires StorageInv(s.store) && DescriptorsInv(s) && FreshFd(s, fd) && k != TaskKey(rq.uid, rq.timestamp) && OnList(s, k, c)
    ensures OnList(U.Started(s, rq, fd).0, k, c)
  {
    var t := U.Started(s, rq, fd).0;
    StartKeepsDone(s, rq, fd);
    U.StartOnlyAt(s, rq, fd);
    assert SameTransfer(s, t, k);
    assert c.fid < s.store.nextId;
    assert Get(t.store.files, c.fid) == Get(s.store.files, c.fid);
  }

  lemma NewOnList(s: Server, rq: UploadRq, source: Bytes, fd: int)
    requires StorageInv(s.store) && ValidUpload(rq) && U.Started(s, rq, fd).1.Accepted?
    ensures var (t, reply) := U.Started(s, rq, fd);
            OnList(t, TaskKey(rq.uid, rq.timestamp), U.SessionOf(rq, source, reply.fid))
  {
    StartKeepsDone(s, rq, fd);
    StartIsNotDone(s, rq, fd);
    AcceptedId(s.store, rq);
  }

  lemma UploadStartKeepsHandOver(w: World, rq: UploadRq, source: Bytes, fd: int)
    requires WorldInv(w) && HandOverInv(w) && CanStartUpload(w, rq, source, fd)
    ensures HandOverInv(UploadStarted(w, rq, source, fd))
  {
    var (t, reply) := U.Started(w.server, rq, fd);
    StartKeepsDone(w.server, rq, fd);
    assert t.transfers == w.server.transfers;
    forall k | k in w.ups
      ensures OnList(t, k, w.ups[k])
    {
      StartKeepsList(w.server, rq, fd, k, w.ups[k]);
    }
    if reply.Accepted? {
      NewOnList(w.server, rq, source, fd);
    }
  }

  lemma TablesKeepHandOver(w: World, step: Step)
    requires WorldInv(w) && HandOverInv(w) && OtherHandler(step)
    ensures HandOverInv(TablesChanged(w, Apply(w.server.store, step)))
  {
    var s, t := w.server.store, Apply(w.server.store, step);
    var v := TablesChanged(w, t);
    OtherHandlers(s, step);
    var before, after := DonePaths(s.files), DonePaths(t.files);
    forall p | p in after
      ensures p in before
    {
      var f :| f in t.files && t.files[f].kind == FILE && t.files[f].state == 1 && t.files[f].path == p;
      assert s.files[f] == t.files[f];
    }
    assert multiset(before) == multiset(before - after) + multiset(after);
    forall k | k in v.ups
      ensures OnList(v.server, k, v.ups[k])
    {
      assert OnList(w.server, k, w.ups[k]);
    }
  }

  lemma NextKeepsHandOver(w: World, e: Event)
    requires WorldInv(w) && HandOverInv(w)
    ensures HandOverInv(Next(w, e))
  {
    if Enabled(w, e) {
      match e
      case StartUpload(rq, source, fd) => UploadStartKeepsHandOver(w, rq, source, fd);
      case Up(key, u) => UpKeepsHandOver(w, key, u);
      case StartDownload(uid, timestamp, fid, dir, o) =>
        D.RequestOnlyAt(w.server, uid, timestamp, fid, dir, o);
        QuietKeepsHandOver(w, D.Requested(w.server, uid, timestamp, fid, dir, o).0, TaskKey(uid, timestamp), Next(w, e).downs);
      case Down(key, d) =>
        D.StepOnlyAt(w.server, key, w.downs[key], d);
        QuietKeepsHandOver(w, D.Stepped(w.server, key, w.downs[key], d).0, key, Next(w, e).downs);
      case OnTables(step) => TablesKeepHandOver(w, step);
      case _ =>
    }
  }

  lemma {:induction false} AfterKeepsHandOver(events: seq<Event>)
    ensures WorldInv(After(EMPTY_WORLD, events)) && HandOverInv(After(EMPTY_WORLD, events))
    decreases |events|
  {
    AfterKeepsInv(EMPTY_WORLD, events);
    if events != [] {
      AfterKeepsHandOver(events[..|events| - 1]);
      NextKeepsHandOver(After(EMPTY_WORLD, events[..|events| - 1]), events[|events| - 1]);
    }
  }

  // ---------------------------------------------------------------- how often a name is printed

  /**
   Over whole runs a name is on the transfer list as often as the finished row of its file has been
   deleted, and once more if the file is finished now.
   */
  lemma PrintedExactly(events: seq<Event>, path: string)
    ensures var w := After(EMPTY_WORLD, events);
            multiset(w.server.transfers)[path] == w.dropped[path] + (if path in DonePaths(w.server.store.files) then 1 else 0)
  {
    AfterKeepsHandOver(events);
  }

  lemma OnlyUploadsPrint(w: World, e: Event)
    requires WorldInv(w) && !e.Up?
    ensures Next(w, e).server.transfers == w.server.transfers
  {
    if Enabled(w, e) {
      match e
      case Down(key, d) => D.StepOnlyAt(w.server, key, w.downs[key], d);
      case _ =>
    }
  }

  lemma CountOf(w: World, path: string)
    requires HandOverInv(w)
    ensures multiset(w.server.transfers)[path] == w.dropped[path] + (if path in DonePaths(w.server.store.files) then 1 else 0)
  {}

  lemma PrintedBefore(w: World, key: int, u: U.Step, path: string)
    requires WorldInv(w) && HandOverInv(w) && key in w.ups && U.CanStep(w.server, key, w.ups[key], u)
    requires UpStepped(w, key, u).server.transfers == w.server.transfers + [path]
    ensures path in w.server.transfers <==> path in w.dropped
  {
    var s, c := w.server, w.ups[key];
    assert U.SessionInv(s, key, c) && OnList(s, key, c);
    StepKeepsList(s, key, c, u);
    assert (s.transfers + [path])[|s.transfers|] == path;
    CountOf(w, path);
    assert path in s.transfers <==> multiset(s.transfers)[path] > 0;
  }

  /** A name that an event prints was on the list before if and only if its finished row has been deleted before. */
  lemma PrintedAgainIff(events: seq<Event>, e: Event, path: string)
    requires Next(After(EMPTY_WORLD, events), e).server.transfers == After(EMPTY_WORLD, events).server.transfers + [path]
    ensures var w := After(EMPTY_WORLD, events);
            path in w.server.transfers <==> path in w.dropped
  {
    var w := After(EMPTY_WORLD, events);
    assert |Next(w, e).server.transfers| > |w.server.transfers|;
    AfterKeepsHandOver(events);
    if !e.Up? {
      OnlyUploadsPrint(w, e);
    } else {
      PrintedBefore(w, e.key, e.u, path);
    }
  }

  /** The file of an upload is whole and on the list as soon as its row says that it is finished. */
  lemma FinishedIsPrinted(events: seq<Event>, key: int)
    requires key in After(EMPTY_WORLD, events).ups
    ensures var w := After(EMPTY_WORLD, events);
            var s, c := w.server, w.ups[key];
            && c.fid in s.store.files
            && if s.store.files[c.fid].state == 1
               then FileOf(s, U.PathOf(c)) == c.source && multiset(s.transfers)[U.PathOf(c)] == w.dropped[U.PathOf(c)] + 1
               else multiset(s.transfers)[U.PathOf(c)] == w.dropped[U.PathOf(c)]
  {
    AfterKeepsHandOver(events);
    UploadSafety(events, key);
    var w := After(EMPTY_WORLD, events);
    assert U.SessionInv(w.server, key, w.ups[key]) && OnList(w.server, key, w.ups[key]);
  }

  // ---------------------------------------------------------------- a name printed twice

  ghost predicate Reachable(w: World) {
    exists events :: After(EMPTY_WORLD, events) == w
  }

  lemma OneMore(w: World, e: Event)
    requires Reachable(w)
    ensures Reachable(Next(w, e))
  {
    var events :| After(EMPTY_WORLD, events) == w;
    AfterLast(EMPTY_WORLD, events, e);
  }

  /** Nothing stored, nobody at work; `n` is the next id. */
  ghost predicate Blank(w: World, n: int, names: seq<string>) {
    && n >= 1 && w.ups == map[] && w.downs == map[]
    && w.server == Server(Store(map[], n, [], map[], map[]), map[], map[], map[], names)
  }

  /** One finished file and its upload. */
  ghost predicate OneFile(w: World, rq: UploadRq, n: int, names: seq<string>) {
    var path := DiskPath(rq.uid, rq.dir, rq.md5);
    && n >= 1 && w.downs == map[] && w.ups.Keys == {TaskKey(rq.uid, rq.timestamp)}
    && w.ups[TaskKey(rq.uid, rq.timestamp)].fid == n && U.PathOf(w.ups[TaskKey(rq.uid, rq.timestamp)]) == path
    && w.server == Server(Store(map[n := FileRow(0, path, rq.md5, 1, FILE)], n + 1, [NewRow(rq.uid, n, rq.dir, rq.fileName, rq.time)],
                                map[path := Regular], map[]),
                          map[path := []], map[], map[], names)
  }

  /** One upload of an empty file under way. */
  ghost predicate Begun(w: World, rq: UploadRq, n: int, names: seq<string>, phase: U.Phase) {
    var path, key := DiskPath(rq.uid, rq.dir, rq.md5), TaskKey(rq.uid, rq.timestamp);
    && n >= 1 && w.downs == map[] && w.ups == map[key := U.SessionOf(rq, [], n).(phase := phase)]
    && w.server == Server(Store(map[n := FileRow(0, path, rq.md5, 0, FILE)], n + 1, [NewRow(rq.uid, n, rq.dir, rq.fileName, rq.time)],
                                map[path := Regular], map[key := n]),
                          map[path := []], map[3 := Handle(path, 0)], map[key := Task(path, 0, n, 3, 0)], names)
  }

  lemma EmptyUploadStarts(w: World, rq: UploadRq, n: int, names: seq<string>)
    requires Blank(w, n, names) && ValidUpload(rq) && rq.size == 0
    ensures Begun(Next(w, StartUpload(rq, [], 3)), rq, n, names, U.Synced(0))
  {
    var path := DiskPath(rq.uid, rq.dir, rq.md5);
    var files := map[n := FileRow(0, path, rq.md5, 0, FILE)];
    assert AtPathWith(path, rq.md5)(files[n]);
    assert FirstId(files, 1, n + 1, AtPathWith(path, rq.md5)) == Some(n);
  }

  lemma EmptyBlockSent(w: World, rq: UploadRq, n: int, names: seq<string>)
    requires Begun(w, rq, n, names, U.Synced(0))
    ensures Begun(Next(w, Up(TaskKey(rq.uid, rq.timestamp), U.SendBlock(0))), rq, n, names, U.Sent(0, 0))
  {}

  lemma EmptyBlockArrives(w: World, rq: UploadRq, n: int, names: seq<string>)
    requires Begun(w, rq, n, names, U.Sent(0, 0))
    ensures OneFile(Next(w, Up(TaskKey(rq.uid, rq.timestamp), U.ServerBlock(0))), rq, n, names + [DiskPath(rq.uid, rq.dir, rq.md5)])
  {
    var key := TaskKey(rq.uid, rq.timestamp);
    assert Next(w, Up(key, U.ServerBlock(0))) == UpStepped(w, key, U.ServerBlock(0));
  }

  lemma EmptyUpload(w: World, rq: UploadRq, n: int, names: seq<string>) returns (v: World)
    requires Reachable(w) && Blank(w, n, names) && ValidUpload(rq) && rq.size == 0
    ensures Reachable(v) && OneFile(v, rq, n, names + [DiskPath(rq.uid, rq.dir, rq.md5)])
  {
    var key := TaskKey(rq.uid, rq.timestamp);
    EmptyUploadStarts(w, rq, n, names);
    OneMore(w, StartUpload(rq, [], 3));
    var v1 := Next(w, StartUpload(rq, [], 3));
    OneMore(v1, Up(key, U.SendBlock(0)));
    EmptyBlockSent(v1, rq, n, names);
    var v2 := Next(v1, Up(key, U.SendBlock(0)));
    OneMore(v2, Up(key, U.ServerBlock(0)));
    EmptyBlockArrives(v2, rq, n, names);
    v := Next(v2, Up(key, U.ServerBlock(0)));
  }

  lemma OnlyRowDeleted(rq: UploadRq, n: int)
    requires n >= 1
    ensures var path := DiskPath(rq.uid, rq.dir, rq.md5);
            var s := Store(map[n := FileRow(0, path, rq.md5, 1, FILE)], n + 1, [NewRow(rq.uid, n, rq.dir, rq.fileName, rq.time)],
                           map[path := Regular], map[]);
            Deleted(s, rq.uid, [n], rq.dir) == Store(map[], n + 1, [], map[], map[])
  {
    var path := DiskPath(rq.uid, rq.dir, rq.md5);
    var r := NewRow(rq.uid, n, rq.dir, rq.fileName, rq.time);
    var s := Store(map[n := FileRow(0, path, rq.md5, 1, FILE)], n + 1, [r], map[path := Regular], map[]);
    assert Deleted(s, rq.uid, [n][..0], rq.dir) == s;
    assert Hits(s, rq.uid, n, rq.dir) == [r];
    var m := Matches(rq.uid, n, rq.dir);
    assert DeadItem(s, rq.uid, n, rq.dir) == m;
    assert r in s.users && m(r);
    assert LosesLast(s, m, n);
    assert PathLost(s, m, path);
  }

  lemma NothingLeft(w: World, rq: UploadRq, n: int, names: seq<string>)
    requires OneFile(w, rq, n, names)
    ensures Blank(TablesChanged(w, Store(map[], n + 1, [], map[], map[])), n + 1, names)
  {
    var v := TablesChanged(w, Store(map[], n + 1, [], map[], map[]));
    assert v.ups == map[] && v.server.bytes == map[];
  }

  lemma MayBeDeleted(w: World, rq: UploadRq, n: int, names: seq<string>)
    requires OneFile(w, rq, n, names)
    ensures CanChangeTables(w, Step.Delete(rq.uid, [n], rq.dir))
  {}

  lemma DeletedNext(w: World, step: Step)
    requires CanChangeTables(w, step)
    ensures Next(w, OnTables(step)) == TablesChanged(w, Apply(w.server.store, step))
  {}

  lemma DeletedApply(w: World, rq: UploadRq, n: int, names: seq<string>)
    requires OneFile(w, rq, n, names)
    ensures Apply(w.server.store, Step.Delete(rq.uid, [n], rq.dir)) == Store(map[], n + 1, [], map[], map[])
  {
    OnlyRowDeleted(rq, n);
  }

  lemma DeleteOnlyFile(w: World, rq: UploadRq, n: int, names: seq<string>) returns (v: World)
    requires Reachable(w) && OneFile(w, rq, n, names)
    ensures Reachable(v) && Blank(v, n + 1, names)
  {
    var step := Step.Delete(rq.uid, [n], rq.dir);
    MayBeDeleted(w, rq, n, names);
    DeletedNext(w, step);
    DeletedApply(w, rq, n, names);
    NothingLeft(w, rq, n, names);
    OneMore(w, OnTables(step));
    v := Next(w, OnTables(step));
  }

  /** A file that is uploaded, deleted and uploaded again is on the list twice, whatever its name. */
  lemma UploadedAgainIsPrintedAgain(rq: UploadRq)
    requires ValidUpload(rq) && rq.size == 0
    ensures exists events :: After(EMPTY_WORLD, events).server.transfers == [DiskPath(rq.uid, rq.dir, rq.md5), DiskPath(rq.uid, rq.dir, rq.md5)]
  {
    assert After(EMPTY_WORLD, []) == EMPTY_WORLD;
    var w := EmptyUpload(EMPTY_WORLD, rq, 1, []);
    w := DeleteOnlyFile(w, rq, 1, [DiskPath(rq.uid, rq.dir, rq.md5)]);
    w := EmptyUpload(w, rq, 2, [DiskPath(rq.uid, rq.dir, rq.md5)]);
  }

  // ---------------------------------------------------------------- what the watcher makes of it

  ghost predicate NoRepeats(names: seq<string>) {
    forall i, j :: 0 <= i < j < |names| ==> names[i] != names[j]
  }

  lemma {:induction false} DistinctOfNoRepeats(names: seq<string>, seen: seq<string>)
    requires NoRepeats(names) && forall n :: n in names ==> n !in seen
    ensures TL.Distinct(names, seen) == names
    decreases |names|
  {
    if names != [] {
      assert forall i :: 1 <= i < |names| ==> names[i] != names[0];
      assert NoRepeats(names[1..]);
      DistinctOfNoRepeats(names[1..], seen + [names[0]]);
    }
  }

  lemma {:induction false} NoRepeatsCounts(names: seq<string>)
    ensures NoRepeats(names) <==> forall n :: multiset(names)[n] <= 1
    decreases |names|
  {
    if names != [] {
      var first, rest := names[0], names[1..];
      assert names == [first] + rest;
      NoRepeatsCounts(rest);
      assert forall n :: multiset(names)[n] == multiset(rest)[n] + (if n == first then 1 else 0);
      if NoRepeats(names) {
        assert forall i :: 1 <= i < |names| ==> names[i] != names[0];
        assert first !in rest;
        assert NoRepeats(rest);
      } else {
        var i, j :| 0 <= i < j < |names| && names[i] == names[j];
        if i == 0 {
          assert rest[j - 1] == first;
          assert multiset(rest)[first] > 0;
        } else {
          assert rest[i - 1] == rest[j - 1];
          assert !NoRepeats(rest);
        }
      }
    }
  }

  /**
   From a client's blocks to the distributed store: in whatever batches the finished uploads of a run
   reach the list, and however the watcher's scans fall between them, the watcher uploads every finished
   file once, in order. It leaves out exactly the later uploads of a file that had been deleted.
   */
  lemma FinishedFilesAreTransferred(events: seq<Event>, batches: seq<seq<string>>, fails: nat -> bool)
    requires TL.Flat(batches) == After(EMPTY_WORLD, events).server.transfers
    requires forall n :: n in TL.Flat(batches) ==> '\n' !in n
    requires forall k :: !fails(k)
    ensures var w := After(EMPTY_WORLD, events);
            var paths := TL.Paths(TL.Watched(TL.Watch({}, []), TL.Growing([], batches), fails).calls);
            && paths == TL.Distinct(w.server.transfers, [])
            && (paths == w.server.transfers
                <==> forall p :: w.dropped[p] + (if p in DonePaths(w.server.store.files) then 1 else 0) <= 1)
  {
    AfterKeepsHandOver(events);
    TL.EveryFinishedNameOnce(batches, fails);
    var w := After(EMPTY_WORLD, events);
    DistinctIff(w.server.transfers);
    forall p
      ensures multiset(w.server.transfers)[p] == w.dropped[p] + (if p in DonePaths(w.server.store.files) then 1 else 0)
    {
      CountOf(w, p);
    }
  }

  lemma DistinctIff(names: seq<string>)
    ensures TL.Distinct(names, []) == names <==> forall n :: multiset(names)[n] <= 1
  {
    NoRepeatsCounts(names);
    if NoRepeats(names) {
      DistinctOfNoRepeats(names, []);
    }
  }
}
