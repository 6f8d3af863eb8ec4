/**
 What the safety of the runs does not say: that clients get anywhere. From every state that a run reaches, an
 unfinished upload can still be finished, and a download can still be completed.
 */
module TransferProgress {
  import opened Wrappers
  import opened TransferState
  import opened TransferRuns
  import opened Answers
  import U = Upload
  import D = Download
  import R = ResumeSize

  /** A number that open may return: one beyond all descriptors in use. */
  lemma {:induction false} Beyond(fds: set<int>) returns (n: int)
    ensures n > 0 && forall fd :: fd in fds ==> fd < n
    decreases |fds|
  {
    if fd :| fd in fds {
      var m := Beyond(fds - {fd});
      n := if fd < m then m else fd + 1;
      assert forall x :: x in fds ==> x == fd || x in fds - {fd};
    } else {
      n := 1;
    }
  }

  // ---------------------------------------------------------------- uploads

  /** The file is whole, its row says so, and the client has been told. */
  ghost predicate Uploaded(w: World, key: int) {
    && key in w.ups && w.ups[key].phase == U.Synced(|w.ups[key].source|) && key !in w.server.tasks
    && FinishedRow(w.server.store.files, w.ups[key].fid) && FileOf(w.server, U.PathOf(w.ups[key])) == w.ups[key].source
  }

  ghost function UploadedAt(key: int): World -> bool {
    w => Uploaded(w, key)
  }

  lemma {:induction false} SendRest(w: World, key: int, n: nat)
    requires key in w.ups && R.InStep(w, key, n, |w.ups[key].source|)
    ensures LeadsTo(w, UploadedAt(key))
    decreases |w.ups[key].source| - n
  {
    var size := |w.ups[key].source|;
    var k := if size - n <= DEF_BUFFER then size - n else DEF_BUFFER;
    R.BlockArrives(w, key, n, size, k);
    var v := UpStepped(w, key, U.SendBlock(k));
    var u := UpStepped(v, key, U.ServerBlock(k));
    if n + k == size {
      assert w.ups[key].source[..n + k] == w.ups[key].source;
      Arrived(UpStepped(u, key, U.TakeReply), UploadedAt(key));
    } else {
      SendRest(UpStepped(u, key, U.TakeReply), key, n + k);
    }
    StepBack(u, Up(key, U.TakeReply), UploadedAt(key));
    StepBack(v, Up(key, U.ServerBlock(k)), UploadedAt(key));
    StepBack(w, Up(key, U.SendBlock(k)), UploadedAt(key));
  }

  /** The task, or the row from which it can be made again. */
  ghost predicate CanGoOn(s: Server, key: int, uid: int, fid: int, dir: string, size: int) {
    if key in s.tasks then s.tasks[key].size == size else HasRow(s.store, uid, fid, dir) && s.store.files[fid].size == size
  }

  /** The answer to a resume request, and what the client does with it. */
  lemma ContinueTells(s: Server, key: int, c: U.Session, fd: int)
    requires U.SessionInv(s, key, c) && c.phase.Asked? && s.store.files[c.fid].state == 0 && fd > 0 && FreshFd(s, fd)
    requires CanGoOn(s, key, c.uid, c.fid, c.dir, |c.source|)
    ensures var n := |FileOf(s, U.PathOf(c))|;
            var (t, end) := U.Continued(s, key, c.uid, c.fid, c.dir, fd);
            && end == Some(n) && n <= |c.source| && c.fid in t.store.files && t.bytes == s.bytes && t.bytes[U.PathOf(c)] == c.source[..n]
            && key in t.tasks && t.tasks[key].size == |c.source| && t.tasks[key].pos == n
            && t.tasks[key].fd in t.fds && t.fds[t.tasks[key].fd] == Handle(U.PathOf(c), n)
  {
    U.ContinueKeepsSession(s, key, c, fd);
    if key in s.tasks {
      ResumedFromTask(s, key, c.uid, c.fid, c.dir, fd);
    } else {
      ResumedFromRow(s, key, c.uid, c.fid, c.dir, fd);
    }
  }

  lemma AskBrings(w: World, key: int, fd: int) returns (x: World, n: nat)
    requires WorldInv(w) && key in w.ups && w.ups[key].phase.Asked? && !FinishedRow(w.server.store.files, w.ups[key].fid)
    requires fd > 0 && FreshFd(w.server, fd)
    requires var c := w.ups[key]; CanGoOn(w.server, key, c.uid, c.fid, c.dir, |c.source|)
    ensures key in x.ups && x.ups[key].source == w.ups[key].source && R.InStep(x, key, n, |x.ups[key].source|)
    ensures LeadsTo(x, UploadedAt(key)) ==> LeadsTo(w, UploadedAt(key))
  {
    assert U.SessionInv(w.server, key, w.ups[key]);
    ContinueTells(w.server, key, w.ups[key], fd);
    n := |FileOf(w.server, U.PathOf(w.ups[key]))|;
    var u := UpStepped(w, key, U.ServerContinue(fd));
    x := UpStepped(u, key, U.TakePosition);
    if LeadsTo(x, UploadedAt(key)) {
      UpBack(u, key, U.TakePosition, UploadedAt(key));
      UpBack(w, key, U.ServerContinue(fd), UploadedAt(key));
    }
  }

  lemma UpBack(w: World, key: int, u: U.Step, good: World -> bool)
    requires key in w.ups && U.CanStep(w.server, key, w.ups[key], u) && LeadsTo(UpStepped(w, key, u), good)
    ensures LeadsTo(w, good)
  {
    StepBack(w, Up(key, u), good);
  }

  /**
   In every state of every run, whatever was lost or given up before: a client whose upload is unfinished can
   finish it by asking where to go on and sending the rest.
   */
  lemma UploadCanBeFinished(events: seq<Event>, key: int)
    requires key in After(EMPTY_WORLD, events).ups
    requires var w := After(EMPTY_WORLD, events);
             var c := w.ups[key];
             !FinishedRow(w.server.store.files, c.fid) && CanGoOn(w.server, key, c.uid, c.fid, c.dir, |c.source|)
    ensures LeadsTo(After(EMPTY_WORLD, events), UploadedAt(key))
  {
    var w := After(EMPTY_WORLD, events);
    AfterKeepsInv(EMPTY_WORLD, events);
    var fd := Beyond(w.server.fds.Keys);
    UpKeepsInv(w, key, U.Ask);
    var x, n := AskBrings(UpStepped(w, key, U.Ask), key, fd);
    SendRest(x, key, n);
    UpBack(w, key, U.Ask, UploadedAt(key));
  }

  // ---------------------------------------------------------------- downloads

  /** The client has the whole file. */
  ghost predicate Downloaded(w: World, key: int) {
    key in w.downs && w.downs[key].accepted == FileOf(w.server, w.downs[key].path)
  }

  ghost function DownloadedAt(key: int): World -> bool {
    w => Downloaded(w, key)
  }

  /** The file is there, and there is a task that reads it or a row from which one can be made. */
  ghost predicate CanReadOn(s: Server, key: int, c: D.Session) {
    c.path in s.bytes && if key in s.tasks then Live(s, key) else HasRow(s.store, c.uid, c.fid, c.dir)
  }

  lemma DownBack(w: World, key: int, d: D.Step, good: World -> bool)
    requires key in w.downs && D.CanStep(w.server, key, w.downs[key], d) && LeadsTo(DownStepped(w, key, d), good)
    ensures LeadsTo(w, good)
  {
    StepBack(w, Down(key, d), good);
  }

  /** The answer to a resume request of a client that has not got everything. */
  lemma ContinueSends(s: Server, key: int, c: D.Session, fd: int)
    requires D.SessionInv(s, key, c) && CanReadOn(s, key, c) && fd > 0 && FreshFd(s, fd) && |c.accepted| < |FileOf(s, c.path)|
    ensures var (t, block) := D.Continued(s, key, c.uid, c.fid, c.dir, |c.accepted|, fd, DEF_BUFFER);
            && block.Some? && block.value.len == |block.value.content| > 0 && t.bytes == s.bytes && Live(t, key)
  {
    if key in s.tasks {
      DownloadResumedFromTask(s, key, c.uid, c.fid, c.dir, |c.accepted|, fd, DEF_BUFFER);
    } else {
      DownloadResumedFromRow(s, key, c.uid, c.fid, c.dir, |c.accepted|, fd, DEF_BUFFER);
    }
  }

  /** Asking brings the next block, and the client takes it. */
  lemma NextBlockComes(w: World, key: int, fd: int) returns (x: World)
    requires WorldInv(w) && key in w.downs && CanReadOn(w.server, key, w.downs[key]) && fd > 0 && FreshFd(w.server, fd)
    requires w.downs[key].phase.Asking? && |w.downs[key].accepted| < |FileOf(w.server, w.downs[key].path)|
    ensures WorldInv(x) && key in x.downs && x.downs[key].path == w.downs[key].path && CanReadOn(x.server, key, x.downs[key])
    ensures |x.downs[key].accepted| > |w.downs[key].accepted| && FileOf(x.server, x.downs[key].path) == FileOf(w.server, w.downs[key].path)
    ensures LeadsTo(x, DownloadedAt(key)) ==> LeadsTo(w, DownloadedAt(key))
  {
    assert D.SessionInv(w.server, key, w.downs[key]);
    ContinueSends(w.server, key, w.downs[key], fd);
    DownKeepsInv(w, key, D.ServerContinue(fd, DEF_BUFFER));
    var u := DownStepped(w, key, D.ServerContinue(fd, DEF_BUFFER));
    DownKeepsInv(u, key, D.TakeBlock(true));
    x := DownStepped(u, key, D.TakeBlock(true));
    if LeadsTo(x, DownloadedAt(key)) {
      DownBack(u, key, D.TakeBlock(true), DownloadedAt(key));
      DownBack(w, key, D.ServerContinue(fd, DEF_BUFFER), DownloadedAt(key));
    }
  }

  lemma {:induction false} ReadRest(w: World, key: int)
    requires WorldInv(w) && key in w.downs && CanReadOn(w.server, key, w.downs[key])
    ensures LeadsTo(w, DownloadedAt(key))
    decreases |FileOf(w.server, w.downs[key].path)| - |w.downs[key].accepted|
  {
    assert D.SessionInv(w.server, key, w.downs[key]);
    if |w.downs[key].accepted| == |FileOf(w.server, w.downs[key].path)| {
      Arrived(w, DownloadedAt(key));
    } else {
      var fd := Beyond(w.server.fds.Keys);
      DownKeepsInv(w, key, D.Ask);
      var x := NextBlockComes(DownStepped(w, key, D.Ask), key, fd);
      ReadRest(x, key);
      DownBack(w, key, D.Ask, DownloadedAt(key));
    }
  }

  /**
   In every state of every run: a client whose file is there can get all of it, by asking for what it has not
   got until it has.
   */
  lemma DownloadCanBeCompleted(events: seq<Event>, key: int)
    requires key in After(EMPTY_WORLD, events).downs
    requires CanReadOn(After(EMPTY_WORLD, events).server, key, After(EMPTY_WORLD, events).downs[key])
    ensures LeadsTo(After(EMPTY_WORLD, events), DownloadedAt(key))
  {
    AfterKeepsInv(EMPTY_WORLD, events);
    ReadRest(After(EMPTY_WORLD, events), key);
  }
}
