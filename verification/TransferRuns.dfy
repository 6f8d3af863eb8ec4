/**
 Whole runs of the server: any number of uploads and downloads side by side on one task map, handlers
 that change the tables, deletions among them, and restarts.
 */
module TransferRuns {
  import opened Tables
  import opened Transfer
  import opened DeleteTree
  import opened Storage
  import opened TransferState
  import U = Upload
  import D = Download

  /** `dropped` counts, path by path, how often the row of a finished file has been deleted. */
  datatype World = World(server: Server, ups: map<int, U.Session>, downs: map<int, D.Session>, dropped: multiset<string>)

  datatype Event =
    | StartUpload(rq: UploadRq, source: Bytes, fd: int)
    | Up(key: int, u: U.Step)
    | StartDownload(uid: int, timestamp: int, fid: int, dir: string, o: D.Opening)
    | Down(key: int, d: D.Step)
    | Leave(key: int)                  // a client turns away for good
    | OnTables(step: Step)             // a new folder, a share, a received share or a deletion
    | Reboot

  // ---------------------------------------------------------------- which events can happen

  /** Somebody uploads an unfinished file to this path. */
  ghost predicate Busy(w: World, path: string) {
    exists k :: k in w.ups && U.PathOf(w.ups[k]) == path && !FinishedRow(w.server.store.files, w.ups[k].fid)
  }

  /** The client of a download has nothing, and nothing is on its way to it. */
  predicate Untaken(c: D.Session) {
    c.accepted == [] && (c.phase.Carried? ==> c.phase.block.len <= 0)
  }

  /** An upload that truncates the file takes nothing away from those who download it unfinished. */
  ghost predicate NothingTaken(w: World, path: string) {
    forall k :: k in w.downs && w.downs[k].path == path && !FinishedRow(w.server.store.files, w.downs[k].fid) ==> Untaken(w.downs[k])
  }

  predicate FinishedRow(files: Files, fid: int) {
    fid in files && files[fid].state == 1
  }

  /** The paths of finished files. */
  function DonePaths(files: Files): set<string> {
    set f | f in files && files[f].kind == FILE && files[f].state == 1 :: files[f].path
  }

  ghost predicate CanStartUpload(w: World, rq: UploadRq, source: Bytes, fd: int) {
    && ValidUpload(rq) && rq.size == |source| && FreshFd(w.server, fd)
    && TaskKey(rq.uid, rq.timestamp) !in w.ups && TaskKey(rq.uid, rq.timestamp) !in w.downs
    && !Busy(w, DiskPath(rq.uid, rq.dir, rq.md5)) && NothingTaken(w, DiskPath(rq.uid, rq.dir, rq.md5))
  }

  predicate CanStartDownload(w: World, uid: int, timestamp: int, o: D.Opening) {
    && TaskKey(uid, timestamp) !in w.ups && TaskKey(uid, timestamp) !in w.downs
    && (o.Refused? || FreshFd(w.server, o.fd))
  }

  /** Neither the row nor the path of a session goes. */
  predicate Stays(s: Store, t: Store, fid: int, path: string) {
    fid in t.files && !(path in s.disk && path !in t.disk)
  }

  predicate OtherHandler(step: Step) {
    step.AddFolder? || step.Share? || step.Receive? || step.Delete?
  }

  /** Files that are being uploaded or downloaded are not deleted. */
  ghost predicate CanChangeTables(w: World, step: Step) {
    && OtherHandler(step) && Allowed(w.server.store, step)
    && var s, t := w.server.store, Apply(w.server.store, step);
       && (forall k :: k in w.ups && !FinishedRow(s.files, w.ups[k].fid) ==> Stays(s, t, w.ups[k].fid, U.PathOf(w.ups[k])))
       && (forall k :: k in w.downs && k in w.server.tasks ==> Stays(s, t, w.downs[k].fid, w.downs[k].path))
  }

  ghost predicate Enabled(w: World, e: Event) {
    match e
    case StartUpload(rq, source, fd) => CanStartUpload(w, rq, source, fd) && U.SizeKept(w.server.store, rq)
    case Up(key, u) => key in w.ups && U.CanStep(w.server, key, w.ups[key], u)
    case StartDownload(uid, timestamp, fid, dir, o) => CanStartDownload(w, uid, timestamp, o)
    case Down(key, d) => key in w.downs && D.CanStep(w.server, key, w.downs[key], d)
    case OnTables(step) => CanChangeTables(w, step)
    case _ => true
  }

  // ---------------------------------------------------------------- what they do

  function UploadStarted(w: World, rq: UploadRq, source: Bytes, fd: int): World {
    var (t, reply) := U.Started(w.server, rq, fd);
    w.(server := t,
       ups := if reply.Accepted? then w.ups[TaskKey(rq.uid, rq.timestamp) := U.SessionOf(rq, source, reply.fid)] else w.ups)
  }

  function UpStepped(w: World, key: int, u: U.Step): World
    requires key in w.ups && U.CanStep(w.server, key, w.ups[key], u)
  {
    var (t, c) := U.Stepped(w.server, key, w.ups[key], u);
    w.(server := t, ups := w.ups[key := c])
  }

  function DownloadStarted(w: World, uid: int, timestamp: int, fid: int, dir: string, o: D.Opening): World {
    var (t, header) := D.Requested(w.server, uid, timestamp, fid, dir, o);
    if header.None? then w
    else w.(server := t, downs := w.downs[TaskKey(uid, timestamp) := D.SessionOf(t, uid, timestamp, fid, dir, header.value)])
  }

  function DownStepped(w: World, key: int, d: D.Step): World
    requires key in w.downs && D.CanStep(w.server, key, w.downs[key], d)
  {
    var (t, c) := D.Stepped(w.server, key, w.downs[key], d);
    w.(server := t, downs := w.downs[key := c])
  }

  /** Unlinked files go from the disk, and sessions of deleted files end. */
  ghost function TablesChanged(w: World, t: Store): World {
    var s := w.server.store;
    World(w.server.(store := t, bytes := map p | p in w.server.bytes && !(p in s.disk && p !in t.disk) :: w.server.bytes[p]),
          map k | k in w.ups && Stays(s, t, w.ups[k].fid, U.PathOf(w.ups[k])) :: w.ups[k],
          map k | k in w.downs && Stays(s, t, w.downs[k].fid, w.downs[k].path) :: w.downs[k],
          w.dropped + multiset(DonePaths(s.files) - DonePaths(t.files)))
  }

  /** The process ends and starts again: files and tables stay. */
  function Restarted(s: Server): Server {
    s.(fds := map[], tasks := map[], store := s.store.(uploads := map[]))
  }

  ghost function Next(w: World, e: Event): World {
    if !Enabled(w, e) then w
    else
      match e
      case StartUpload(rq, source, fd) => UploadStarted(w, rq, source, fd)
      case Up(key, u) => UpStepped(w, key, u)
      case StartDownload(uid, timestamp, fid, dir, o) => DownloadStarted(w, uid, timestamp, fid, dir, o)
      case Down(key, d) => DownStepped(w, key, d)
      case Leave(key) => w.(ups := w.ups - {key}, downs := w.downs - {key})
      case OnTables(step) => TablesChanged(w, Apply(w.server.store, step))
      case Reboot => w.(server := Restarted(w.server))
  }

  ghost function After(w: World, events: seq<Event>): World {
    if events == [] then w else Next(After(w, events[..|events| - 1]), events[|events| - 1])
  }

  const EMPTY_WORLD := World(Server(EMPTY_STORE, map[], map[], map[], []), map[], map[], multiset{})

  // ---------------------------------------------------------------- the invariant

  ghost predicate ServerInv(s: Server) {
    StorageInv(s.store) && LinkInv(s.store.users) && DescriptorsInv(s)
  }

  ghost predicate UpsInv(s: Server, ups: map<int, U.Session>) {
    forall k :: k in ups ==> U.SessionInv(s, k, ups[k])
  }

  ghost predicate DownsInv(s: Server, downs: map<int, D.Session>) {
    forall k :: k in downs ==> D.SessionInv(s, k, downs[k])
  }

  /** No two uploads share a path or a row, and no key is used twice. */
  ghost predicate Apart(w: World) {
    && (forall k, l :: k in w.ups && l in w.ups && k != l ==>
          U.PathOf(w.ups[k]) != U.PathOf(w.ups[l]) && w.ups[k].fid != w.ups[l].fid)
    && (forall k :: k in w.downs ==> k !in w.ups)
  }

  ghost predicate WorldInv(w: World) {
    ServerInv(w.server) && UpsInv(w.server, w.ups) && DownsInv(w.server, w.downs) && Apart(w)
  }

  // ---------------------------------------------------------------- a step of an upload

  /** A download next to an upload: its file may grow, and its row may be marked finished. */
  lemma UpLeavesDown(s: Server, t: Server, key: int, c: U.Session, k: int, d: D.Session)
    requires OnlyAt(s, t, key, {U.PathOf(c)}, {c.fid}) && k != key && D.SessionInv(s, k, d)
    requires IsPrefix(FileOf(s, U.PathOf(c)), FileOf(t, U.PathOf(c)))
    requires c.fid in s.store.files && c.fid in t.store.files
    requires t.store.files[c.fid].path == s.store.files[c.fid].path && t.store.files[c.fid].size == s.store.files[c.fid].size
    ensures D.Undisturbed(s, t, k, d) && D.SessionInv(t, k, d)
  {
    assert SameTransfer(s, t, k);
    assert d.path != U.PathOf(c) ==> Get(t.bytes, d.path) == Get(s.bytes, d.path);
    assert d.fid != c.fid ==> Get(t.store.files, d.fid) == Get(s.store.files, d.fid);
    D.Untouched(s, t, k, d);
  }

  lemma UpLeavesUp(s: Server, t: Server, key: int, c: U.Session, k: int, d: U.Session)
    requires OnlyAt(s, t, key, {U.PathOf(c)}, {c.fid}) && k != key && U.SessionInv(s, k, d)
    requires U.PathOf(d) != U.PathOf(c) && d.fid != c.fid
    ensures U.SessionInv(t, k, d)
  {
    assert SameTransfer(s, t, k);
    assert Get(t.bytes, U.PathOf(d)) == Get(s.bytes, U.PathOf(d)) && Get(t.store.files, d.fid) == Get(s.store.files, d.fid);
    U.Untouched(s, t, k, d);
  }

  lemma UpKeepsUps(w: World, key: int, u: U.Step)
    requires WorldInv(w) && key in w.ups && U.CanStep(w.server, key, w.ups[key], u)
    ensures var (t, d) := U.Stepped(w.server, key, w.ups[key], u);
            UpsInv(t, w.ups[key := d])
  {
    var s, c := w.server, w.ups[key];
    var (t, d) := U.Stepped(s, key, c, u);
    U.StepKeepsSession(s, key, c, u);
    U.StepOnlyAt(s, key, c, u);
    forall k | k in w.ups && k != key
      ensures U.SessionInv(t, k, w.ups[k])
    {
      UpLeavesUp(s, t, key, c, k, w.ups[k]);
    }
  }

  lemma UpKeepsDowns(w: World, key: int, u: U.Step)
    requires WorldInv(w) && key in w.ups && U.CanStep(w.server, key, w.ups[key], u)
    ensures DownsInv(U.Stepped(w.server, key, w.ups[key], u).0, w.downs)
  {
    var s, c := w.server, w.ups[key];
    var (t, d) := U.Stepped(s, key, c, u);
    assert U.SessionInv(s, key, c);
    U.StepKeepsSession(s, key, c, u);
    U.StepOnlyAt(s, key, c, u);
    U.StepKeepsStore(s, key, c, u);
    forall k | k in w.downs
      ensures D.SessionInv(t, k, w.downs[k])
    {
      UpLeavesDown(s, t, key, c, k, w.downs[k]);
    }
  }

  lemma UpKeepsServer(w: World, key: int, u: U.Step)
    requires WorldInv(w) && key in w.ups && U.CanStep(w.server, key, w.ups[key], u)
    ensures var (t, d) := U.Stepped(w.server, key, w.ups[key], u);
            ServerInv(t) && U.PathOf(d) == U.PathOf(w.ups[key]) && d.fid == w.ups[key].fid
  {
    var c := w.ups[key];
    assert U.SessionInv(w.server, key, c);
    U.StepKeepsSession(w.server, key, c, u);
    U.StepOnlyAt(w.server, key, c, u);
    U.StepKeepsStore(w.server, key, c, u);
  }

  lemma UpKeepsInv(w: World, key: int, u: U.Step)
    requires WorldInv(w) && key in w.ups && U.CanStep(w.server, key, w.ups[key], u)
    ensures WorldInv(UpStepped(w, key, u))
  {
    UpKeepsServer(w, key, u);
    UpKeepsUps(w, key, u);
    UpKeepsDowns(w, key, u);
  }

  // ---------------------------------------------------------------- a step of a download

  lemma QuietLeavesUp(s: Server, t: Server, key: int, k: int, c: U.Session)
    requires D.Quiet(s, t, key) && k != key && U.SessionInv(s, k, c)
    ensures U.SessionInv(t, k, c)
  {
    assert SameTransfer(s, t, k);
    U.Untouched(s, t, k, c);
  }

  lemma QuietLeavesDown(s: Server, t: Server, key: int, k: int, c: D.Session)
    requires D.Quiet(s, t, key) && k != key && D.SessionInv(s, k, c)
    ensures D.SessionInv(t, k, c)
  {
    assert SameTransfer(s, t, k);
    D.Untouched(s, t, k, c);
  }

  /** A step of a download of its own key, after which it is sound. */
  lemma QuietKeepsInv(w: World, t: Server, key: int, c: D.Session)
    requires WorldInv(w) && D.Quiet(w.server, t, key) && key !in w.ups && D.SessionInv(t, key, c)
    ensures WorldInv(w.(server := t, downs := w.downs[key := c]))
  {
    forall k | k in w.ups
      ensures U.SessionInv(t, k, w.ups[k])
    {
      QuietLeavesUp(w.server, t, key, k, w.ups[k]);
    }
    forall k | k in w.downs && k != key
      ensures D.SessionInv(t, k, w.downs[k])
    {
      QuietLeavesDown(w.server, t, key, k, w.downs[k]);
    }
  }

  lemma DownKeepsInv(w: World, key: int, d: D.Step)
    requires WorldInv(w) && key in w.downs && D.CanStep(w.server, key, w.downs[key], d)
    ensures WorldInv(DownStepped(w, key, d))
  {
    var c := w.downs[key];
    assert D.SessionInv(w.server, key, c);
    D.StepKeepsSession(w.server, key, c, d);
    D.StepOnlyAt(w.server, key, c, d);
    var (t, x) := D.Stepped(w.server, key, c, d);
    QuietKeepsInv(w, t, key, x);
  }

  lemma DownloadStartKeepsInv(w: World, uid: int, timestamp: int, fid: int, dir: string, o: D.Opening)
    requires WorldInv(w) && CanStartDownload(w, uid, timestamp, o)
    ensures WorldInv(DownloadStarted(w, uid, timestamp, fid, dir, o))
  {
    var (t, header) := D.Requested(w.server, uid, timestamp, fid, dir, o);
    if header.Some? {
      D.RequestOnlyAt(w.server, uid, timestamp, fid, dir, o);
      QuietKeepsInv(w, t, TaskKey(uid, timestamp), D.SessionOf(t, uid, timestamp, fid, dir, header.value));
    }
  }

  // ---------------------------------------------------------------- the start of an upload

  /** An accepted upload opens a path that no other session works on: finished files are found by md5. */
  lemma StartIsElsewhere(w: World, rq: UploadRq, fd: int, path: string, fid: int)
    requires WorldInv(w) && ValidUpload(rq) && U.Started(w.server, rq, fd).1.Accepted?
    requires fid in w.server.store.files && w.server.store.files[fid].path == path
    requires FinishedRow(w.server.store.files, fid)
    ensures path != DiskPath(rq.uid, rq.dir, rq.md5)
  {
    NeverTruncatesFinished(w.server.store, rq, fid);
  }

  lemma StartLeavesUp(w: World, rq: UploadRq, source: Bytes, fd: int, k: int)
    requires WorldInv(w) && CanStartUpload(w, rq, source, fd) && k in w.ups
    ensures var (t, reply) := U.Started(w.server, rq, fd);
            && U.SessionInv(t, k, w.ups[k])
            && (reply.Accepted? ==> U.PathOf(w.ups[k]) != DiskPath(rq.uid, rq.dir, rq.md5) && w.ups[k].fid != reply.fid)
  {
    var (t, reply) := U.Started(w.server, rq, fd);
    var c := w.ups[k];
    assert U.SessionInv(w.server, k, c);
    U.StartOnlyAt(w.server, rq, fd);
    if reply.Accepted? {
      if FinishedRow(w.server.store.files, c.fid) {
        StartIsElsewhere(w, rq, fd, U.PathOf(c), c.fid);
      }
      AcceptedId(w.server.store, rq);
    }
    assert SameTransfer(w.server, t, k);
    assert c.fid < w.server.store.nextId;
    assert Get(t.store.files, c.fid) == Get(w.server.store.files, c.fid);
    assert Get(t.bytes, U.PathOf(c)) == Get(w.server.bytes, U.PathOf(c));
    U.Untouched(w.server, t, k, c);
  }

  lemma StartLeavesDown(w: World, rq: UploadRq, source: Bytes, fd: int, k: int)
    requires WorldInv(w) && CanStartUpload(w, rq, source, fd) && k in w.downs
    ensures D.SessionInv(U.Started(w.server, rq, fd).0, k, w.downs[k])
  {
    var (t, reply) := U.Started(w.server, rq, fd);
    var c := w.downs[k];
    assert D.SessionInv(w.server, k, c);
    U.StartOnlyAt(w.server, rq, fd);
    if reply.Accepted? && FinishedRow(w.server.store.files, c.fid) {
      StartIsElsewhere(w, rq, fd, c.path, c.fid);
    }
    assert SameTransfer(w.server, t, k);
    assert c.fid < w.server.store.nextId;
    assert Get(t.store.files, c.fid) == Get(w.server.store.files, c.fid);
    if reply.Accepted? && c.path == DiskPath(rq.uid, rq.dir, rq.md5) {
      assert Untaken(c);
    } else {
      assert Get(t.bytes, c.path) == Get(w.server.bytes, c.path);
      D.Untouched(w.server, t, k, c);
    }
  }

  lemma StartKeepsServer(s: Server, rq: UploadRq, fd: int)
    requires ServerInv(s) && ValidUpload(rq) && FreshFd(s, fd)
    ensures ServerInv(U.Started(s, rq, fd).0)
  {
    ApplyKeepsInvs(s.store, Step.Upload(rq, fd >= 0));
    U.StartOnlyAt(s, rq, fd);
  }

  lemma NewUp(w: World, t: Server, key: int, c: U.Session)
    requires Apart(w) && UpsInv(t, w.ups) && U.SessionInv(t, key, c) && key !in w.ups && key !in w.downs
    requires forall k :: k in w.ups ==> U.PathOf(w.ups[k]) != U.PathOf(c) && w.ups[k].fid != c.fid
    ensures UpsInv(t, w.ups[key := c]) && Apart(w.(server := t, ups := w.ups[key := c]))
  {}

  lemma UploadStartKeepsUps(w: World, rq: UploadRq, source: Bytes, fd: int)
    requires WorldInv(w) && CanStartUpload(w, rq, source, fd) && U.SizeKept(w.server.store, rq)
    ensures var v := UploadStarted(w, rq, source, fd);
            UpsInv(v.server, v.ups) && Apart(v)
  {
    var (t, reply) := U.Started(w.server, rq, fd);
    forall k | k in w.ups
      ensures U.SessionInv(t, k, w.ups[k])
      ensures reply.Accepted? ==> U.PathOf(w.ups[k]) != DiskPath(rq.uid, rq.dir, rq.md5) && w.ups[k].fid != reply.fid
    {
      StartLeavesUp(w, rq, source, fd, k);
    }
    assert UpsInv(t, w.ups);
    if reply.Accepted? {
      U.FreshSession(w.server, rq, source, fd);
      NewUp(w, t, TaskKey(rq.uid, rq.timestamp), U.SessionOf(rq, source, reply.fid));
    }
  }

  lemma UploadStartKeepsDowns(w: World, rq: UploadRq, source: Bytes, fd: int)
    requires WorldInv(w) && CanStartUpload(w, rq, source, fd)
    ensures DownsInv(U.Started(w.server, rq, fd).0, w.downs)
  {
    forall k | k in w.downs
      ensures D.SessionInv(U.Started(w.server, rq, fd).0, k, w.downs[k])
    {
      StartLeavesDown(w, rq, source, fd, k);
    }
  }

  lemma UploadStartKeepsInv(w: World, rq: UploadRq, source: Bytes, fd: int)
    requires WorldInv(w) && CanStartUpload(w, rq, source, fd) && U.SizeKept(w.server.store, rq)
    ensures WorldInv(UploadStarted(w, rq, source, fd))
  {
    StartKeepsServer(w.server, rq, fd);
    UploadStartKeepsUps(w, rq, source, fd);
    UploadStartKeepsDowns(w, rq, source, fd);
  }

  // ---------------------------------------------------------------- tables and restarts

  /** Rows that survive a deletion are as they were. */
  lemma {:induction false} DeletedRows(s: Store, uid: int, ids: seq<int>, dir: string)
    ensures var t := Deleted(s, uid, ids, dir);
            t.uploads == s.uploads && forall f :: f in t.files ==> f in s.files && t.files[f] == s.files[f]
    decreases |ids|
  {
    if ids != [] {
      DeletedRows(s, uid, ids[..|ids| - 1], dir);
    }
  }

  /** What another handler does to the tables. */
  lemma OtherHandlers(s: Store, step: Step)
    requires StorageInv(s) && LinkInv(s.users) && OtherHandler(step)
    ensures var t := Apply(s, step);
            && StorageInv(t) && LinkInv(t.users) && t.uploads == s.uploads
            && (forall f :: f in t.files ==> if f in s.files then t.files[f] == s.files[f] else t.files[f].kind != FILE)
  {
    ApplyKeepsInvs(s, step);
    if step.Delete? {
      DeletedRows(s, step.uid, step.ids, step.dir);
    }
  }

  lemma TablesLeaveUp(w: World, t: Store, k: int)
    requires UpsInv(w.server, w.ups) && k in TablesChanged(w, t).ups && t.uploads == w.server.store.uploads
    requires forall f :: f in t.files && f in w.server.store.files ==> t.files[f] == w.server.store.files[f]
    ensures U.SessionInv(TablesChanged(w, t).server, k, w.ups[k])
  {
    var c := w.ups[k];
    assert U.SessionInv(w.server, k, c);
    U.Untouched(w.server, TablesChanged(w, t).server, k, c);
  }

  lemma TablesLeaveDown(w: World, t: Store, k: int)
    requires DownsInv(w.server, w.downs) && k in TablesChanged(w, t).downs && t.uploads == w.server.store.uploads
    requires forall f :: f in t.files && f in w.server.store.files ==> t.files[f] == w.server.store.files[f]
    ensures D.SessionInv(TablesChanged(w, t).server, k, w.downs[k])
  {
    var c := w.downs[k];
    assert D.SessionInv(w.server, k, c);
    D.Untouched(w.server, TablesChanged(w, t).server, k, c);
  }

  lemma TablesKeepInv(w: World, step: Step)
    requires WorldInv(w) && OtherHandler(step)
    ensures WorldInv(TablesChanged(w, Apply(w.server.store, step)))
  {
    var t := Apply(w.server.store, step);
    var v := TablesChanged(w, t);
    OtherHandlers(w.server.store, step);
    forall k | k in v.ups
      ensures U.SessionInv(v.server, k, v.ups[k])
    {
      TablesLeaveUp(w, t, k);
    }
    forall k | k in v.downs
      ensures D.SessionInv(v.server, k, v.downs[k])
    {
      TablesLeaveDown(w, t, k);
    }
  }

  lemma RebootKeepsUp(s: Server, k: int, c: U.Session)
    requires U.SessionInv(s, k, c)
    ensures U.SessionInv(Restarted(s), k, c)
  {}

  lemma RebootKeepsDown(s: Server, k: int, c: D.Session)
    requires D.SessionInv(s, k, c)
    ensures D.SessionInv(Restarted(s), k, c)
  {}

  lemma RebootKeepsInv(w: World)
    requires WorldInv(w)
    ensures WorldInv(w.(server := Restarted(w.server)))
  {
    ApplyKeepsInvs(w.server.store, Step.Restart);
    forall k | k in w.ups
      ensures U.SessionInv(Restarted(w.server), k, w.ups[k])
    {
      RebootKeepsUp(w.server, k, w.ups[k]);
    }
    forall k | k in w.downs
      ensures D.SessionInv(Restarted(w.server), k, w.downs[k])
    {
      RebootKeepsDown(w.server, k, w.downs[k]);
    }
  }

  // ---------------------------------------------------------------- whole runs

  lemma NextKeepsInv(w: World, e: Event)
    requires WorldInv(w)
    ensures WorldInv(Next(w, e))
  {
    if Enabled(w, e) {
      match e
      case StartUpload(rq, source, fd) => UploadStartKeepsInv(w, rq, source, fd);
      case Up(key, u) => UpKeepsInv(w, key, u);
      case StartDownload(uid, timestamp, fid, dir, o) => DownloadStartKeepsInv(w, uid, timestamp, fid, dir, o);
      case Down(key, d) => DownKeepsInv(w, key, d);
      case Leave(_) =>
      case OnTables(step) => TablesKeepInv(w, step);
      case Reboot => RebootKeepsInv(w);
    }
  }

  lemma {:induction false} AfterKeepsInv(w: World, events: seq<Event>)
    requires WorldInv(w)
    ensures WorldInv(After(w, events))
    decreases |events|
  {
    if events != [] {
      AfterKeepsInv(w, events[..|events| - 1]);
      NextKeepsInv(After(w, events[..|events| - 1]), events[|events| - 1]);
    }
  }

  /**
   Upload safety over whole runs. Any number of uploads and downloads run side by side, with full and
   short writes, write errors, lost answers, harmless late requests, restarts, resumptions, new folders, shares and
   deletions in between. Every file is a prefix of its client's source, the descriptor of a live task
   stands at its `pos`, which is also where a client that is in touch stands, and a file whose row says
   f_state=1 is the whole source.
   */
  lemma UploadSafety(events: seq<Event>, key: int)
    requires key in After(EMPTY_WORLD, events).ups
    ensures var w := After(EMPTY_WORLD, events);
            var s, c := w.server, w.ups[key];
            && U.PathOf(c) in s.bytes && c.fid in s.store.files
            && IsPrefix(s.bytes[U.PathOf(c)], c.source)
            && (s.store.files[c.fid].state == 1 ==> s.bytes[U.PathOf(c)] == c.source)
            && (key in s.tasks ==>
                  var task := s.tasks[key];
                  && task.fd in s.fds && s.fds[task.fd].path == U.PathOf(c) && s.fds[task.fd].offset == task.pos
                  && task.pos <= |s.bytes[U.PathOf(c)]| <= |c.source|
                  && (c.phase.Synced? ==> c.phase.c == task.pos))
  {
    AfterKeepsInv(EMPTY_WORLD, events);
    assert U.SessionInv(After(EMPTY_WORLD, events).server, key, After(EMPTY_WORLD, events).ups[key]);
  }

  /** How much the server has read beyond `pos`. */
  function OutstandingLength(p: D.Phase): nat {
    match p
    case Carried(block) => |block.content|
    case Answered(len, _) => len
    case _ => 0
  }

  /**
   What the client has accepted is the beginning of the file. Unless the client has lost touch, the offset
   of the task's descriptor is `pos` plus the block that is on its way, and `pos` is what the client had
   accepted before it answered.
   */
  ghost predicate DownloadSafe(w: World, key: int) {
    key in w.downs ==>
    var s, c := w.server, w.downs[key];
    && IsPrefix(c.accepted, FileOf(s, c.path))
    && (D.Seekable(s, key) && !D.MustAsk(c.phase) ==>
          var task := s.tasks[key];
          && s.fds[task.fd].path == c.path
          && s.fds[task.fd].offset == task.pos + OutstandingLength(c.phase)
          && |c.accepted| == task.pos + (if c.phase.Answered? && c.phase.ok then c.phase.len else 0))
  }

  /** Download safety over the same runs, for files that are finished and for files still being uploaded. */
  lemma DownloadSafety(events: seq<Event>, key: int)
    requires key in After(EMPTY_WORLD, events).downs
    ensures DownloadSafe(After(EMPTY_WORLD, events), key)
  {
    AfterKeepsInv(EMPTY_WORLD, events);
    SoundIsSafe(After(EMPTY_WORLD, events), key);
  }

  lemma SoundIsSafe(w: World, key: int)
    requires WorldInv(w)
    ensures DownloadSafe(w, key)
  {
    assert key in w.downs ==> D.SessionInv(w.server, key, w.downs[key]);
  }

  /**
   An answer erases the task exactly if it is positive and the client then has as many bytes as the
   header promised; when that is the size of the file, it has the whole file.
   */
  lemma ErasedIffWhole(events: seq<Event>, key: int, limit: int)
    requires key in After(EMPTY_WORLD, events).downs
    requires After(EMPTY_WORLD, events).downs[key].phase.Answered? && Live(After(EMPTY_WORLD, events).server, key)
    ensures var w := After(EMPTY_WORLD, events);
            var s, c := w.server, w.downs[key];
            var t := D.ContentAnswered(s, key, c.phase.len, D.Result(c.phase.ok), limit).0;
            && (key !in t.tasks <==> c.phase.ok && |c.accepted| >= c.size)
            && (key !in t.tasks ==> s.tasks[key].fd !in t.fds)
            && (c.size == |FileOf(s, c.path)| ==> (key !in t.tasks <==> c.phase.ok && c.accepted == FileOf(s, c.path)))
  {
    AfterKeepsInv(EMPTY_WORLD, events);
    var w := After(EMPTY_WORLD, events);
    assert D.SessionInv(w.server, key, w.downs[key]);
  }

  /** What a client downloads while, or after, another uploads it is the beginning of what the other uploads. */
  lemma DownloadOfUpload(events: seq<Event>, up: int, down: int)
    requires up in After(EMPTY_WORLD, events).ups && down in After(EMPTY_WORLD, events).downs
    requires After(EMPTY_WORLD, events).downs[down].path == U.PathOf(After(EMPTY_WORLD, events).ups[up])
    ensures IsPrefix(After(EMPTY_WORLD, events).downs[down].accepted, After(EMPTY_WORLD, events).ups[up].source)
  {
    UploadSafety(events, up);
    DownloadSafety(events, down);
    var w := After(EMPTY_WORLD, events);
    var file, n := FileOf(w.server, w.downs[down].path), |w.downs[down].accepted|;
    assert file[..n] == w.ups[up].source[..n];
  }

  // ---------------------------------------------------------------- what some run leads to

  ghost predicate LeadsTo(w: World, bad: World -> bool) {
    exists events :: bad(After(w, events))
  }

  lemma AfterLast(w: World, events: seq<Event>, e: Event)
    ensures After(w, events + [e]) == Next(After(w, events), e)
  {
    assert (events + [e])[..|events|] == events;
  }

  lemma {:induction false} AfterFrom(w: World, e: Event, rest: seq<Event>)
    ensures After(w, [e] + rest) == After(Next(w, e), rest)
    decreases |rest|
  {
    if rest == [] {
      AfterLast(w, [], e);
      assert [] + [e] == [e] + rest;
    } else {
      var front, last := rest[..|rest| - 1], rest[|rest| - 1];
      assert rest == front + [last] && [e] + rest == ([e] + front) + [last];
      AfterFrom(w, e, front);
      AfterLast(w, [e] + front, last);
      AfterLast(Next(w, e), front, last);
    }
  }

  lemma StepBack(w: World, e: Event, bad: World -> bool)
    requires LeadsTo(Next(w, e), bad)
    ensures LeadsTo(w, bad)
  {
    var rest :| bad(After(Next(w, e), rest));
    AfterFrom(w, e, rest);
    assert bad(After(w, [e] + rest));
  }

  lemma Arrived(w: World, bad: World -> bool)
    requires bad(w)
    ensures LeadsTo(w, bad)
  {
    assert After(w, []) == w;
  }
}
