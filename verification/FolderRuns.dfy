/** Folder downloads in whole runs: every file that a walk announces is a download like any other. */
module FolderRuns {
  import opened Wrappers
  import opened Tables
  import opened TransferRuns
  import D = Download
  import FD = FolderDownload

  /** The session that the client of an announced file begins. */
  function SessionFor(uid: int, p: FD.Pending): D.Session {
    D.Session(uid, p.fid, p.dir, p.path, p.size, [], D.Headed)
  }

  /** The sessions are those there were, and one for every file announced. */
  ghost predicate Announced(base: map<int, D.Session>, uid: int, p: FD.Progress, downs: map<int, D.Session>) {
    && downs.Keys == base.Keys + p.tasks.Keys
    && (forall k :: k in p.tasks ==> downs[k] == SessionFor(uid, p.tasks[k]))
    && (forall k :: k in base && k !in p.tasks ==> downs[k] == base[k])
  }

  predicate IsFile(files: Files, r: UserFile) {
    r.fid in files && files[r.fid].kind == FILE
  }

  /** `opens` is what open returns, row by row, and the keys that the walk hands out are free. */
  ghost predicate CanWalk(w: World, uid: int, t: int, rows: seq<UserFile>, opens: seq<int>)
    decreases |rows|
  {
    |opens| == |rows| &&
    (rows != [] ==>
       var r := rows[0];
       if IsFile(w.server.store.files, r) && opens[0] > 0 then
         && CanStartDownload(w, uid, t + 1, D.Opened(opens[0]))
         && CanWalk(DownloadStarted(w, uid, t + 1, r.fid, r.dir, D.Opened(opens[0])), uid, t + 1, rows[1..], opens[1..])
       else CanWalk(w, uid, if IsFolder(w.server.store.files, r) then t + 1 else t, rows[1..], opens[1..]))
  }

  /** The set of paths that open is in keeping with what it returns. */
  predicate Opens(files: Files, rows: seq<UserFile>, opens: seq<int>, canOpen: set<string>)
    requires |opens| == |rows|
  {
    forall i :: 0 <= i < |rows| && IsFile(files, rows[i]) ==> (files[rows[i].fid].path in canOpen <==> opens[i] > 0)
  }

  lemma OpensRest(files: Files, rows: seq<UserFile>, opens: seq<int>, canOpen: set<string>)
    requires |opens| == |rows| && rows != [] && Opens(files, rows, opens, canOpen)
    ensures Opens(files, rows[1..], opens[1..], canOpen)
  {
    assert forall i :: 0 <= i < |rows[1..]| ==> rows[1..][i] == rows[i + 1] && opens[1..][i] == opens[i + 1];
  }

  lemma RequestAnnounces(w: World, base: map<int, D.Session>, uid: int, p: FD.Progress, r: UserFile, fd: int, canOpen: set<string>)
    requires IsFile(w.server.store.files, r) && fd > 0 && r in w.server.store.users && r.uid == uid
    requires CanStartDownload(w, uid, p.timestamp + 1, D.Opened(fd)) && Announced(base, uid, p, w.downs)
    requires w.server.store.files[r.fid].path in canOpen
    ensures var v := DownloadStarted(w, uid, p.timestamp + 1, r.fid, r.dir, D.Opened(fd));
            Announced(base, uid, FD.See(w.server.store.files, uid, canOpen, p, r), v.downs) && v.server.store == w.server.store
  {
    assert Matches(uid, r.fid, r.dir)(r);
    assert r in Hits(w.server.store, uid, r.fid, r.dir);
  }

  lemma SkipAnnounces(w: World, base: map<int, D.Session>, uid: int, p: FD.Progress, r: UserFile, fd: int, canOpen: set<string>)
    requires !(IsFile(w.server.store.files, r) && fd > 0) && Announced(base, uid, p, w.downs)
    requires IsFile(w.server.store.files, r) ==> w.server.store.files[r.fid].path !in canOpen
    ensures var q := FD.See(w.server.store.files, uid, canOpen, p, r);
            && Announced(base, uid, q, w.downs)
            && q.timestamp == if IsFolder(w.server.store.files, r) then p.timestamp + 1 else p.timestamp
  {}

  /** The first row of a walk: a download request if it is a file that opens, and otherwise nothing. */
  lemma FirstRowIsRun(w: World, base: map<int, D.Session>, uid: int, p: FD.Progress, rows: seq<UserFile>,
                      opens: seq<int>, canOpen: set<string>) returns (first: Option<Event>)
    requires rows != [] && CanWalk(w, uid, p.timestamp, rows, opens) && Announced(base, uid, p, w.downs)
    requires Opens(w.server.store.files, rows, opens, canOpen)
    requires forall r :: r in rows ==> r in w.server.store.users && r.uid == uid
    ensures first.Some? ==> first.value.StartDownload?
    ensures var v := if first.Some? then Next(w, first.value) else w;
            var q := FD.See(w.server.store.files, uid, canOpen, p, rows[0]);
            v.server.store == w.server.store && CanWalk(v, uid, q.timestamp, rows[1..], opens[1..]) && Announced(base, uid, q, v.downs)
  {
    var r := rows[0];
    assert r in rows;
    if IsFile(w.server.store.files, r) && opens[0] > 0 {
      first := Some(StartDownload(uid, p.timestamp + 1, r.fid, r.dir, D.Opened(opens[0])));
      RequestAnnounces(w, base, uid, p, r, opens[0], canOpen);
    } else {
      first := None;
      SkipAnnounces(w, base, uid, p, r, opens[0], canOpen);
    }
  }

  /**
   What a folder download does to task map and clients is a run of single download requests, one for every
   file that opens, under the timestamp of its header; so all that holds of downloads holds of these.
   */
  lemma {:induction false} FolderDownloadIsRun(w: World, base: map<int, D.Session>, uid: int, p: FD.Progress, rows: seq<UserFile>,
                                               opens: seq<int>, canOpen: set<string>) returns (events: seq<Event>)
    requires CanWalk(w, uid, p.timestamp, rows, opens) && Announced(base, uid, p, w.downs)
    requires Opens(w.server.store.files, rows, opens, canOpen)
    requires forall r :: r in rows ==> r in w.server.store.users && r.uid == uid
    ensures Announced(base, uid, FD.SeeAll(w.server.store.files, uid, canOpen, p, rows), After(w, events).downs)
    ensures forall e :: e in events ==> e.StartDownload?
    decreases |rows|
  {
    if rows == [] {
      events := [];
    } else {
      var files := w.server.store.files;
      OpensRest(files, rows, opens, canOpen);
      var first := FirstRowIsRun(w, base, uid, p, rows, opens, canOpen);
      var v := if first.Some? then Next(w, first.value) else w;
      events := FolderDownloadIsRun(v, base, uid, FD.See(files, uid, canOpen, p, rows[0]), rows[1..], opens[1..], canOpen);
      if first.Some? {
        AfterFrom(w, first.value, events);
        events := [first.value] + events;
      }
    }
  }
}
