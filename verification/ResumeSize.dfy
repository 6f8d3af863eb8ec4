/**
 The size that a resumed upload trusts, and when an upload is marked finished. HandleUpFileRq records an
 upload under the oldest row at its path, while the size of the request goes into a new row;
 ContinueUploadRq reads the size of the oldest.
 */
module ResumeSize {
  import opened Sequences
  import opened Tables
  import opened Transfer
  import opened Storage
  import opened TransferState
  import opened TransferRuns
  import U = Upload
  import D = Download

  /** The row says that the file is there, and it is not. */
  ghost predicate CutShort(w: World, key: int) {
    && key in w.ups
    && FinishedRow(w.server.store.files, w.ups[key].fid)
    && FileOf(w.server, U.PathOf(w.ups[key])) != w.ups[key].source
  }

  ghost function CutShortAt(key: int): World -> bool {
    w => CutShort(w, key)
  }

  // ---------------------------------------------------------------- a run that ends early

  /** Client and server agree that everything before n has arrived, and the task asks for `size` bytes. */
  ghost predicate InStep(w: World, key: int, n: nat, size: int) {
    && key in w.ups && Live(w.server, key)
    && var s, c := w.server, w.ups[key];
       var task := s.tasks[key];
       && c.phase == U.Synced(n) && n <= |c.source| && c.fid in s.store.files
       && task.size == size && task.pos == n && s.fds[task.fd] == Handle(U.PathOf(c), n)
       && s.bytes[U.PathOf(c)] == c.source[..n]
  }

  function BlockSent(w: World, key: int, k: nat): World
    requires key in w.ups && U.CanStep(w.server, key, w.ups[key], U.SendBlock(k))
  {
    UpStepped(w, key, U.SendBlock(k))
  }

  lemma BlockExtends(source: Bytes, n: nat, k: nat)
    requires n + k <= |source|
    ensures source[n..n + k][..k] == source[n..n + k] && WriteAt(source[..n], n, source[n..n + k]) == source[..n + k]
  {}

  lemma BlockArrives(w: World, key: int, n: nat, size: int, k: nat)
    requires InStep(w, key, n, size) && n + k <= |w.ups[key].source| && k <= DEF_BUFFER
    ensures var v := BlockSent(w, key, k);
            && U.CanStep(v.server, key, v.ups[key], U.ServerBlock(k))
            && var u := UpStepped(v, key, U.ServerBlock(k));
               && key in u.ups && u.ups[key] == w.ups[key].(phase := U.Replied(n, k, 1))
               && if n + k >= size then
                    && key !in u.server.tasks
                    && FinishedRow(u.server.store.files, u.ups[key].fid)
                    && FileOf(u.server, U.PathOf(u.ups[key])) == w.ups[key].source[..n + k]
                  else
                    && InStep(UpStepped(u, key, U.TakeReply), key, n + k, size)
                    && UpStepped(u, key, U.TakeReply).ups[key].source == w.ups[key].source
  {
    BlockExtends(w.ups[key].source, n, k);
  }

  /** If the task asks for less than the whole source, the client's blocks end in a file cut short. */
  lemma {:induction false} BlocksCutShort(w: World, key: int, n: nat, size: nat)
    requires InStep(w, key, n, size) && n <= size < |w.ups[key].source|
    ensures LeadsTo(w, CutShortAt(key))
    decreases size - n
  {
    var k := if size - n <= DEF_BUFFER then size - n else DEF_BUFFER;
    BlockArrives(w, key, n, size, k);
    var v := BlockSent(w, key, k);
    var u := UpStepped(v, key, U.ServerBlock(k));
    if n + k == size {
      assert |FileOf(u.server, U.PathOf(u.ups[key]))| == size;
      Arrived(u, CutShortAt(key));
    } else {
      BlocksCutShort(UpStepped(u, key, U.TakeReply), key, n + k, size);
      StepBack(u, Up(key, U.TakeReply), CutShortAt(key));
    }
    StepBack(v, Up(key, U.ServerBlock(k)), CutShortAt(key));
    StepBack(w, Up(key, U.SendBlock(k)), CutShortAt(key));
  }

  /** The upload's own new row is in t_user_file, so the resume request finds it. */
  lemma OwnRowIsHit(s: Store, rq: UploadRq)
    requires StorageInv(s) && ValidUpload(rq) && Uploaded(s, rq, true).1.Accepted?
    ensures var (t, reply) := Uploaded(s, rq, true);
            Hits(t, rq.uid, reply.fid, rq.dir) != []
  {
    AcceptedId(s, rq);
    var (t, reply) := Uploaded(s, rq, true);
    assert t.users[|s.users|] in t.users;
    assert Matches(rq.uid, reply.fid, rq.dir)(t.users[|s.users|]);
    assert t.users[|s.users|] in Filter(t.users, Matches(rq.uid, reply.fid, rq.dir));
  }

  /** An unfinished session whose task and bytes are gone. */
  ghost predicate MustResume(w: World, key: int) {
    && key in w.ups && key !in w.server.tasks && w.server.fds == map[]
    && var s, c := w.server, w.ups[key];
       && Hits(s.store, c.uid, c.fid, c.dir) != [] && c.fid in s.store.files
       && s.store.files[c.fid].state == 0 && s.store.files[c.fid].path == U.PathOf(c)
       && U.PathOf(c) in s.bytes && s.bytes[U.PathOf(c)] == []
  }

  /** It is resumed with the size in the row. */
  lemma ResumeInStep(w: World, key: int)
    requires MustResume(w, key)
    ensures var w2 := UpStepped(w, key, U.Ask);
            && U.CanStep(w2.server, key, w2.ups[key], U.ServerContinue(1))
            && var w3 := UpStepped(w2, key, U.ServerContinue(1));
               && U.CanStep(w3.server, key, w3.ups[key], U.TakePosition)
               && var w4 := UpStepped(w3, key, U.TakePosition);
                  && InStep(w4, key, 0, w.server.store.files[w.ups[key].fid].size) && w4.ups[key].source == w.ups[key].source
  {
    var w3 := UpStepped(UpStepped(w, key, U.Ask), key, U.ServerContinue(1));
    assert w3.ups[key].phase == U.Told(0);
  }

  lemma StaleSizeCutsShort(w: World, key: int)
    requires MustResume(w, key) && 0 <= w.server.store.files[w.ups[key].fid].size < |w.ups[key].source|
    ensures LeadsTo(w, CutShortAt(key))
  {
    ResumeInStep(w, key);
    var w2 := UpStepped(w, key, U.Ask);
    var w3 := UpStepped(w2, key, U.ServerContinue(1));
    BlocksCutShort(UpStepped(w3, key, U.TakePosition), key, 0, w.server.store.files[w.ups[key].fid].size);
    StepBack(w3, Up(key, U.TakePosition), CutShortAt(key));
    StepBack(w2, Up(key, U.ServerContinue(1)), CutShortAt(key));
    StepBack(w, Up(key, U.Ask), CutShortAt(key));
  }

  /** The server is restarted right after the upload has started. */
  lemma CutShortRun(w: World, rq: UploadRq, source: Bytes, fd: int)
    requires StorageInv(w.server.store) && ValidUpload(rq) && rq.size == |source| && U.Started(w.server, rq, fd).1.Accepted?
    requires !U.SizeKept(w.server.store, rq) && NoNegativeSize(w.server.store.files)
    ensures LeadsTo(UploadStarted(w, rq, source, fd), CutShortAt(TaskKey(rq.uid, rq.timestamp)))
  {
    var key := TaskKey(rq.uid, rq.timestamp);
    AcceptedId(w.server.store, rq);
    U.RecordedUnder(w.server.store, rq);
    OwnRowIsHit(w.server.store, rq);
    var w0 := UploadStarted(w, rq, source, fd);
    RebootMustResume(w0, key);
    StaleSizeCutsShort(Next(w0, Reboot), key);
    StepBack(w0, Reboot, CutShortAt(key));
  }

  lemma RebootMustResume(w: World, key: int)
    requires key in w.ups
    requires var s, c := w.server, w.ups[key];
             && Hits(s.store, c.uid, c.fid, c.dir) != [] && c.fid in s.store.files
             && s.store.files[c.fid].state == 0 && s.store.files[c.fid].path == U.PathOf(c)
             && U.PathOf(c) in s.bytes && s.bytes[U.PathOf(c)] == []
    ensures MustResume(Next(w, Reboot), key) && Next(w, Reboot).ups == w.ups && Next(w, Reboot).server.store.files == w.server.store.files
  {
    var v, c := Next(w, Reboot), w.ups[key];
    assert Hits(v.server.store, c.uid, c.fid, c.dir) == Hits(w.server.store, c.uid, c.fid, c.dir);
  }

  ghost predicate NoNegativeSize(files: Files) {
    forall f :: f in files && files[f].kind == FILE ==> files[f].size >= 0
  }

  /**
   Exactly the uploads that do not start over an old row of a smaller size are safe: then no run marks
   the file finished before it is whole, and otherwise some run does.
   */
  lemma SafeIffSizeKept(w: World, rq: UploadRq, source: Bytes, fd: int)
    requires WorldInv(w) && CanStartUpload(w, rq, source, fd) && U.Started(w.server, rq, fd).1.Accepted?
    requires NoNegativeSize(w.server.store.files)
    ensures U.SizeKept(w.server.store, rq) <==> !LeadsTo(UploadStarted(w, rq, source, fd), CutShortAt(TaskKey(rq.uid, rq.timestamp)))
  {
    var w0, key := UploadStarted(w, rq, source, fd), TaskKey(rq.uid, rq.timestamp);
    if U.SizeKept(w.server.store, rq) {
      UploadStartKeepsInv(w, rq, source, fd);
      forall events
        ensures !CutShort(After(w0, events), key)
      {
        AfterKeepsInv(w0, events);
        SoundIsWhole(After(w0, events), key);
      }
    } else {
      CutShortRun(w, rq, source, fd);
    }
  }

  lemma SoundIsWhole(w: World, key: int)
    requires WorldInv(w)
    ensures !CutShort(w, key)
  {
    assert key in w.ups ==> U.SessionInv(w.server, key, w.ups[key]);
  }

  // ---------------------------------------------------------------- sizes in t_file

  /** The sizes of all plain files are as they should be for their md5 values. */
  ghost predicate Sizes(files: Files, right: (string, int) -> bool) {
    forall f :: f in files && files[f].kind == FILE ==> right(files[f].md5, files[f].size)
  }

  lemma StepKeepsSizes(s: Server, key: int, c: U.Session, u: U.Step, right: (string, int) -> bool)
    requires U.CanStep(s, key, c, u) && Sizes(s.store.files, right)
    ensures Sizes(U.Stepped(s, key, c, u).0.store.files, right)
  {
    match u
    case ServerBlock(_) =>
    case ServerContinue(fd) => assert U.Continued(s, key, c.uid, c.fid, c.dir, fd).0.store.files == s.store.files;
    case LateBlock(_, _, _) =>
    case LateResume(fd) => assert U.Continued(s, key, c.uid, c.fid, c.dir, fd).0.store.files == s.store.files;
    case _ =>
  }

  lemma StartKeepsSizes(s: Server, rq: UploadRq, fd: int, right: (string, int) -> bool)
    requires StorageInv(s.store) && Sizes(s.store.files, right) && right(rq.md5, rq.size)
    ensures Sizes(U.Started(s, rq, fd).0.store.files, right)
  {}

  lemma NextKeepsSizes(w: World, e: Event, right: (string, int) -> bool)
    requires WorldInv(w) && Sizes(w.server.store.files, right)
    requires e.StartUpload? && e.rq.size == |e.source| ==> right(e.rq.md5, e.rq.size)
    ensures Sizes(Next(w, e).server.store.files, right)
  {
    if Enabled(w, e) {
      match e
      case StartUpload(rq, source, fd) => StartKeepsSizes(w.server, rq, fd, right);
      case Up(key, u) => StepKeepsSizes(w.server, key, w.ups[key], u, right);
      case StartDownload(uid, timestamp, fid, dir, o) => D.RequestOnlyAt(w.server, uid, timestamp, fid, dir, o);
      case Down(key, d) => D.StepOnlyAt(w.server, key, w.downs[key], d);
      case OnTables(step) => OtherHandlers(w.server.store, step);
      case _ =>
    }
  }

  /** What holds of the sizes of all uploads that a run starts holds of the rows of plain files. */
  lemma {:induction false} SizesInRuns(events: seq<Event>, right: (string, int) -> bool)
    requires forall e :: e in events && e.StartUpload? && e.rq.size == |e.source| ==> right(e.rq.md5, e.rq.size)
    ensures Sizes(After(EMPTY_WORLD, events).server.store.files, right)
    decreases |events|
  {
    if events != [] {
      SizesInRuns(events[..|events| - 1], right);
      AfterKeepsInv(EMPTY_WORLD, events[..|events| - 1]);
      NextKeepsSizes(After(EMPTY_WORLD, events[..|events| - 1]), events[|events| - 1], right);
    }
  }

  /** No run records a plain file of a negative size. */
  lemma NoNegativeSizes(events: seq<Event>)
    ensures NoNegativeSize(After(EMPTY_WORLD, events).server.store.files)
  {
    SizesInRuns(events, (md5, size) => size >= 0);
  }

  /**
   If in a run equal md5 values come with equal sizes, no upload ever starts over a row of another size,
   so nothing that a client may send is left out of the runs of `UploadSafety`.
   */
  lemma HonestSizesKept(events: seq<Event>, sizeOf: string -> int, rq: UploadRq)
    requires forall e :: e in events && e.StartUpload? ==> e.rq.size == sizeOf(e.rq.md5)
    requires rq.size == sizeOf(rq.md5) && ValidUpload(rq)
    ensures U.SizeKept(After(EMPTY_WORLD, events).server.store, rq)
  {
    SizesInRuns(events, (md5, size) => size == sizeOf(md5));
    AfterKeepsInv(EMPTY_WORLD, events);
    var s := After(EMPTY_WORLD, events).server.store;
    var found := FirstId(s.files, 1, s.nextId, AtPathWith(DiskPath(rq.uid, rq.dir, rq.md5), rq.md5));
    if found.Some? {
      assert SoundRow(s.disk, s.files[found.value]);
    }
  }

  // ---------------------------------------------------------------- finished and whole

  /** While the row of an upload has the size of the source, an unfinished upload is not whole yet. */
  ghost predicate NotYetWhole(s: Server, key: int, c: U.Session) {
    c.fid in s.store.files && s.store.files[c.fid].size == |c.source| ==>
      && (key in s.tasks ==> s.tasks[key].size == |c.source|)
      && (s.store.files[c.fid].state == 0 && |c.source| > 0 ==> |FileOf(s, U.PathOf(c))| < |c.source|)
  }

  ghost predicate NotYetInv(w: World) {
    forall k :: k in w.ups ==> NotYetWhole(w.server, k, w.ups[k])
  }

  lemma BlockNotYet(s: Server, key: int, c: U.Session, k: nat, written: int)
    requires U.SessionInv(s, key, c) && NotYetWhole(s, key, c) && key in s.tasks
    requires U.Within(c, s.tasks[key].pos, k) && -1 <= written <= k
    ensures NotYetWhole(U.BlockReceived(s, key, c.fid, U.BlockOf(c, s.tasks[key].pos, k), written).0, key, c)
  {}

  /** A late block, sent for another place, is written in part and happens to hold just the end of the source. */
  ghost predicate EndsInPart(s: Server, key: int, c: U.Session, u: U.Step) {
    u.LateBlock? && Live(s, key) && 0 < u.written < u.k && s.tasks[key].pos + u.written == |c.source|
  }

  lemma LateBlockNotYet(s: Server, key: int, c: U.Session, u: U.Step)
    requires U.SessionInv(s, key, c) && NotYetWhole(s, key, c) && u.LateBlock? && U.CanStep(s, key, c, u) && !EndsInPart(s, key, c, u)
    ensures NotYetWhole(U.Stepped(s, key, c, u).0, key, c)
  {}

  /** Such a block makes the file whole, and the row does not say so. */
  lemma EndsInPartIsUnfinished(s: Server, key: int, c: U.Session, u: U.Step)
    requires U.SessionInv(s, key, c) && U.CanStep(s, key, c, u) && EndsInPart(s, key, c, u) && s.store.files[c.fid].state == 0
    ensures var t := U.Stepped(s, key, c, u).0;
            FileOf(t, U.PathOf(c)) == c.source && c.fid in t.store.files && t.store.files[c.fid].state == 0
  {
    var t := U.Stepped(s, key, c, u).0;
    U.LateBlockKeepsFile(c.source, s.bytes[U.PathOf(c)], s.tasks[key].pos, u.at, u.k, u.written);
    assert t.store == s.store && FileOf(t, U.PathOf(c))
        == WriteAt(s.bytes[U.PathOf(c)], s.tasks[key].pos, U.BlockOf(c, u.at, u.k)[..u.written]);
  }

  lemma StepNotYet(s: Server, key: int, c: U.Session, u: U.Step)
    requires U.SessionInv(s, key, c) && NotYetWhole(s, key, c) && U.CanStep(s, key, c, u) && !EndsInPart(s, key, c, u)
    ensures var (t, d) := U.Stepped(s, key, c, u);
            NotYetWhole(t, key, d)
  {
    match u
    case ServerBlock(written) =>
      if key in s.tasks {
        assert U.BlockOf(c, c.phase.c, c.phase.k) == U.BlockOf(c, s.tasks[key].pos, c.phase.k);
        BlockNotYet(s, key, c, c.phase.k, written);
      }
    case LateBlock(_, _, _) => LateBlockNotYet(s, key, c, u);
    case _ =>
  }

  /** Another session whose file, row, task are untouched. */
  lemma SameNotYet(s: Server, t: Server, k: int, c: U.Session)
    requires NotYetWhole(s, k, c) && SameTransfer(s, t, k)
    requires Get(t.bytes, U.PathOf(c)) == Get(s.bytes, U.PathOf(c)) && Get(t.store.files, c.fid) == Get(s.store.files, c.fid)
    ensures NotYetWhole(t, k, c)
  {}

  lemma UpLeavesNotYet(w: World, key: int, u: U.Step, k: int)
    requires WorldInv(w) && NotYetInv(w) && key in w.ups && U.CanStep(w.server, key, w.ups[key], u) && k in w.ups && k != key
    ensures NotYetWhole(U.Stepped(w.server, key, w.ups[key], u).0, k, w.ups[k])
  {
    var s, c := w.server, w.ups[key];
    var t := U.Stepped(s, key, c, u).0;
    assert U.SessionInv(s, key, c);
    U.StepOnlyAt(s, key, c, u);
    assert SameTransfer(s, t, k);
    SameNotYet(s, t, k, w.ups[k]);
  }

  lemma UpKeepsNotYet(w: World, key: int, u: U.Step)
    requires key in w.ups && !EndsInPart(w.server, key, w.ups[key], u)
    requires WorldInv(w) && NotYetInv(w) && key in w.ups && U.CanStep(w.server, key, w.ups[key], u)
    ensures NotYetInv(UpStepped(w, key, u))
  {
    var s, c := w.server, w.ups[key];
    var t := U.Stepped(s, key, c, u).0;
    assert U.SessionInv(s, key, c);
    StepNotYet(s, key, c, u);
    forall k | k in w.ups && k != key
      ensures NotYetWhole(t, k, w.ups[k])
    {
      UpLeavesNotYet(w, key, u, k);
    }
  }

  lemma QuietKeepsNotYet(w: World, t: Server, key: int, downs: map<int, D.Session>)
    requires NotYetInv(w) && D.Quiet(w.server, t, key) && key !in w.ups
    ensures NotYetInv(w.(server := t, downs := downs))
  {
    forall k | k in w.ups
      ensures NotYetWhole(t, k, w.ups[k])
    {
      assert SameTransfer(w.server, t, k);
      SameNotYet(w.server, t, k, w.ups[k]);
    }
  }

  lemma StartKeepsNotYet(w: World, rq: UploadRq, source: Bytes, fd: int)
    requires WorldInv(w) && NotYetInv(w) && CanStartUpload(w, rq, source, fd)
    ensures NotYetInv(UploadStarted(w, rq, source, fd))
  {
    var (t, reply) := U.Started(w.server, rq, fd);
    U.StartOnlyAt(w.server, rq, fd);
    forall k | k in w.ups
      ensures NotYetWhole(t, k, w.ups[k])
    {
      StartLeavesUp(w, rq, source, fd, k);
      assert SameTransfer(w.server, t, k);
      assert U.SessionInv(w.server, k, w.ups[k]) && w.ups[k].fid < w.server.store.nextId;
      SameNotYet(w.server, t, k, w.ups[k]);
    }
  }

  lemma TablesKeepNotYet(w: World, step: Step)
    requires WorldInv(w) && NotYetInv(w) && OtherHandler(step)
    ensures NotYetInv(TablesChanged(w, Apply(w.server.store, step)))
  {
    var v := TablesChanged(w, Apply(w.server.store, step));
    OtherHandlers(w.server.store, step);
    forall k | k in v.ups
      ensures NotYetWhole(v.server, k, v.ups[k])
    {
      assert U.SessionInv(w.server, k, w.ups[k]);
      SameNotYet(w.server, v.server, k, w.ups[k]);
    }
  }

  lemma NextKeepsNotYet(w: World, e: Event)
    requires WorldInv(w) && NotYetInv(w)
    requires e.Up? && e.key in w.ups ==> !EndsInPart(w.server, e.key, w.ups[e.key], e.u)
    ensures NotYetInv(Next(w, e))
  {
    if Enabled(w, e) {
      match e
      case StartUpload(rq, source, fd) => StartKeepsNotYet(w, rq, source, fd);
      case Up(key, u) => UpKeepsNotYet(w, key, u);
      case StartDownload(uid, timestamp, fid, dir, o) =>
        D.RequestOnlyAt(w.server, uid, timestamp, fid, dir, o);
        QuietKeepsNotYet(w, D.Requested(w.server, uid, timestamp, fid, dir, o).0, TaskKey(uid, timestamp), Next(w, e).downs);
      case Down(key, d) =>
        D.StepOnlyAt(w.server, key, w.downs[key], d);
        QuietKeepsNotYet(w, D.Stepped(w.server, key, w.downs[key], d).0, key, Next(w, e).downs);
      case OnTables(step) => TablesKeepNotYet(w, step);
      case Leave(_) =>
      case Reboot => RebootKeepsNotYet(w);
    }
  }

  lemma RebootKeepsNotYet(w: World)
    requires NotYetInv(w)
    ensures NotYetInv(w.(server := Restarted(w.server)))
  {
    forall k | k in w.ups
      ensures NotYetWhole(Restarted(w.server), k, w.ups[k])
    {
      assert NotYetWhole(w.server, k, w.ups[k]);
    }
  }

  /** No late block of the run ends a file in part. */
  ghost predicate NoneEndsInPart(events: seq<Event>)
    decreases |events|
  {
    events != [] ==>
      var before, e := events[..|events| - 1], events[|events| - 1];
      var w := After(EMPTY_WORLD, before);
      NoneEndsInPart(before) && (e.Up? && e.key in w.ups ==> !EndsInPart(w.server, e.key, w.ups[e.key], e.u))
  }

  lemma {:induction false} AfterKeepsNotYet(events: seq<Event>)
    requires NoneEndsInPart(events)
    ensures WorldInv(After(EMPTY_WORLD, events)) && NotYetInv(After(EMPTY_WORLD, events))
    decreases |events|
  {
    AfterKeepsInv(EMPTY_WORLD, events);
    if events != [] {
      AfterKeepsNotYet(events[..|events| - 1]);
      NextKeepsNotYet(After(EMPTY_WORLD, events[..|events| - 1]), events[|events| - 1]);
    }
  }

  /**
   Over whole runs an upload of a non-empty source whose row has the right size is marked finished
   exactly when the file is the whole source: not before, and not later than that. The one exception is
   `EndsInPartIsUnfinished`: a late block that completes the file by coincidence, in a write that was short.
   */
  lemma FinishedIffWhole(events: seq<Event>, key: int)
    requires NoneEndsInPart(events)
    requires key in After(EMPTY_WORLD, events).ups
    requires var w := After(EMPTY_WORLD, events);
             var c := w.ups[key];
             |c.source| > 0 && c.fid in w.server.store.files && w.server.store.files[c.fid].size == |c.source|
    ensures var w := After(EMPTY_WORLD, events);
            var s, c := w.server, w.ups[key];
            s.store.files[c.fid].state == 1 <==> FileOf(s, U.PathOf(c)) == c.source
  {
    AfterKeepsNotYet(events);
    var w := After(EMPTY_WORLD, events);
    assert U.SessionInv(w.server, key, w.ups[key]) && NotYetWhole(w.server, key, w.ups[key]);
  }
}
