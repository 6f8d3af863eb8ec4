/**
 Download requests that arrive late: header answers, block answers and resume requests that the client has
 given up and that the server processes afterwards; and uploads that truncate what others download.
 */
module LateDownloads {
  import opened Transfer
  import opened Storage
  import opened TransferState
  import opened TransferRuns
  import U = Upload
  import D = Download

  ghost function UnsafeAt(key: int): World -> bool {
    w => !DownloadSafe(w, key)
  }

  /** The server processes a header answer that the client does not wait to see taken. */
  function HeaderProcessed(w: World, key: int, limit: int): World {
    w.(server := D.HeaderAnswered(w.server, key, limit).0)
  }

  function AnswerProcessed(w: World, key: int, len: nat, ok: bool, limit: int): World {
    w.(server := D.ContentAnswered(w.server, key, len, D.Result(ok), limit).0)
  }

  function AskProcessed(w: World, key: int, at: nat, fd: int, limit: int): World
    requires key in w.downs
  {
    var c := w.downs[key];
    w.(server := D.Continued(w.server, key, c.uid, c.fid, c.dir, at, fd, limit).0)
  }

  lemma NeverUnsafe(w: World, key: int)
    requires WorldInv(w)
    ensures !LeadsTo(w, UnsafeAt(key))
  {
    forall events
      ensures DownloadSafe(After(w, events), key)
    {
      AfterKeepsInv(w, events);
      SoundIsSafe(After(w, events), key);
    }
  }

  /** A task that does not stand where the client takes it to be. */
  lemma AstrayIsUnsafe(w: World, t: Server, key: int, pos: int, offset: int)
    requires WorldInv(w) && key in w.downs && D.StandsAt(t, key, w.downs[key], pos, offset)
    requires !D.MustAsk(w.downs[key].phase) && !D.Stands(w.downs[key], pos, offset)
    ensures LeadsTo(w.(server := t), UnsafeAt(key))
  {
    assert D.SessionInv(w.server, key, w.downs[key]);
    Arrived(w.(server := t), UnsafeAt(key));
  }

  // ---------------------------------------------------------------- three kinds of requests

  lemma LateHeaderIsStep(w: World, key: int, limit: int)
    requires WorldInv(w) && key in w.downs && D.HeaderIsHarmless(w.server, key, w.downs[key], limit)
    ensures WorldInv(HeaderProcessed(w, key, limit))
  {
    DownKeepsInv(w, key, D.LateHeader(limit));
    assert w.downs[key := w.downs[key]] == w.downs;
  }

  /** A header answer that was given up leaves the download safe in all runs if and only if it is harmless. */
  lemma LateHeaderSafeIff(w: World, key: int, limit: int)
    requires WorldInv(w) && key in w.downs
    ensures D.HeaderIsHarmless(w.server, key, w.downs[key], limit) <==> !LeadsTo(HeaderProcessed(w, key, limit), UnsafeAt(key))
  {
    var s, c := w.server, w.downs[key];
    if D.HeaderIsHarmless(s, key, c, limit) {
      LateHeaderIsStep(w, key, limit);
      NeverUnsafe(HeaderProcessed(w, key, limit), key);
    } else {
      assert D.SessionInv(s, key, c);
      D.HeaderMoves(s, key, c, limit);
      var pos, offset := s.tasks[key].pos, s.fds[s.tasks[key].fd].offset;
      AstrayIsUnsafe(w, HeaderProcessed(w, key, limit).server, key, pos, offset + D.Got(FileOf(s, c.path), offset, limit));
    }
  }

  lemma LateAnswerIsStep(w: World, key: int, len: nat, ok: bool, limit: int)
    requires WorldInv(w) && key in w.downs && D.AnswerIsHarmless(w.server, key, w.downs[key], len, ok, limit)
    ensures WorldInv(AnswerProcessed(w, key, len, ok, limit))
  {
    DownKeepsInv(w, key, D.LateAnswer(len, ok, limit));
    assert w.downs[key := w.downs[key]] == w.downs;
  }

  /** So does an answer to a block. */
  lemma LateAnswerSafeIff(w: World, key: int, len: nat, ok: bool, limit: int)
    requires WorldInv(w) && key in w.downs
    ensures D.AnswerIsHarmless(w.server, key, w.downs[key], len, ok, limit)
       <==> !LeadsTo(AnswerProcessed(w, key, len, ok, limit), UnsafeAt(key))
  {
    var s, c := w.server, w.downs[key];
    if D.AnswerIsHarmless(s, key, c, len, ok, limit) {
      LateAnswerIsStep(w, key, len, ok, limit);
      NeverUnsafe(AnswerProcessed(w, key, len, ok, limit), key);
    } else {
      assert D.SessionInv(s, key, c);
      D.AnswerMoves(s, key, c, len, ok, limit);
      var pos, offset := s.tasks[key].pos, s.fds[s.tasks[key].fd].offset;
      var back := if ok || offset < len then offset else offset - len;
      AstrayIsUnsafe(w, AnswerProcessed(w, key, len, ok, limit).server, key,
                     if ok then pos + len else pos, back + D.Got(FileOf(s, c.path), back, limit));
    }
  }

  lemma LateAskIsStep(w: World, key: int, at: nat, fd: int, limit: int)
    requires WorldInv(w) && key in w.downs && FreshFd(w.server, fd) && D.AskIsHarmless(w.server, key, w.downs[key], at, fd, limit)
    ensures WorldInv(AskProcessed(w, key, at, fd, limit))
  {
    DownKeepsInv(w, key, D.LateAsk(at, fd, limit));
    assert w.downs[key := w.downs[key]] == w.downs;
  }

  /** And so does a resume request. */
  lemma LateAskSafeIff(w: World, key: int, at: nat, fd: int, limit: int)
    requires WorldInv(w) && key in w.downs && FreshFd(w.server, fd)
    ensures D.AskIsHarmless(w.server, key, w.downs[key], at, fd, limit)
       <==> !LeadsTo(AskProcessed(w, key, at, fd, limit), UnsafeAt(key))
  {
    var s, c := w.server, w.downs[key];
    if D.AskIsHarmless(s, key, c, at, fd, limit) {
      LateAskIsStep(w, key, at, fd, limit);
      NeverUnsafe(AskProcessed(w, key, at, fd, limit), key);
    } else {
      assert D.SessionInv(s, key, c);
      D.AskMoves(s, key, c, at, fd, limit);
      AstrayIsUnsafe(w, AskProcessed(w, key, at, fd, limit).server, key, at, at + D.Got(FileOf(s, c.path), at, limit));
    }
  }

  // ---------------------------------------------------------------- wrong bytes

  /** The next block comes from wherever the descriptor stands. */
  lemma NextBlockFrom(w: World, key: int, more: nat)
    requires key in w.downs && w.downs[key].phase.Answered? && w.downs[key].phase.ok && Live(w.server, key)
    requires w.server.fds[w.server.tasks[key].fd].path == w.downs[key].path
    requires w.server.tasks[key].pos + w.downs[key].phase.len < w.server.tasks[key].size && 0 < more <= DEF_BUFFER
    requires w.server.fds[w.server.tasks[key].fd].offset < |FileOf(w.server, w.downs[key].path)|
    ensures var s, c := w.server, w.downs[key];
            var file, offset := FileOf(s, c.path), s.fds[s.tasks[key].fd].offset;
            var n := D.Got(file, offset, more);
            var v := DownStepped(w, key, D.ServerAnswer(more));
            && v.downs[key].phase.Carried? && v.downs[key].phase.block.len == n
            && var u := DownStepped(v, key, D.TakeBlock(true));
               && u.downs[key].accepted == c.accepted + file[offset..offset + n]
               && FileOf(u.server, u.downs[key].path) == file
  {}

  lemma PrefixIff(a: Bytes, block: Bytes, file: Bytes)
    requires IsPrefix(a, file)
    ensures IsPrefix(a + block, file) <==> |a| + |block| <= |file| && file[|a|..|a| + |block|] == block
  {
    if |a| + |block| <= |file| {
      assert file[..|a| + |block|] == file[..|a|] + file[|a|..|a| + |block|];
    }
  }

  lemma NextBlockFits(w: World, key: int, more: nat)
    requires key in w.downs && w.downs[key].phase.Answered? && w.downs[key].phase.ok && Live(w.server, key)
    requires w.server.fds[w.server.tasks[key].fd].path == w.downs[key].path
    requires w.server.tasks[key].pos + w.downs[key].phase.len < w.server.tasks[key].size && 0 < more <= DEF_BUFFER
    requires w.server.fds[w.server.tasks[key].fd].offset < |FileOf(w.server, w.downs[key].path)|
    requires IsPrefix(w.downs[key].accepted, FileOf(w.server, w.downs[key].path))
    ensures var s, c := w.server, w.downs[key];
            var file, from := FileOf(s, c.path), s.fds[s.tasks[key].fd].offset;
            var n := D.Got(file, from, more);
            var v := DownStepped(w, key, D.ServerAnswer(more));
            && v.downs[key].phase.Carried? && v.downs[key].phase.block.len >= 0
            && var u := DownStepped(v, key, D.TakeBlock(true));
               IsPrefix(u.downs[key].accepted, FileOf(u.server, u.downs[key].path))
               <==> |c.accepted| + n <= |file| && file[|c.accepted|..|c.accepted| + n] == file[from..from + n]
  {
    var c, file := w.downs[key], FileOf(w.server, w.downs[key].path);
    var from := w.server.fds[w.server.tasks[key].fd].offset;
    NextBlockFrom(w, key, more);
    PrefixIff(c.accepted, file[from..from + D.Got(file, from, more)], file);
  }

  /**
   The run: the client has accepted a block and answered, and a resume request that it had given up comes
   first. The block that it gets next is the one that belongs there only if the file happens to hold the
   same bytes at both places.
   */
  lemma GivenUpAskCorruptsUnless(w: World, key: int, at: nat, limit: int, more: nat)
    requires WorldInv(w) && key in w.downs && w.downs[key].phase.Answered? && w.downs[key].phase.ok && Live(w.server, key)
    requires at + w.downs[key].phase.len < w.downs[key].size && 0 < more <= DEF_BUFFER
    requires at + D.Got(FileOf(w.server, w.downs[key].path), at, limit) < |FileOf(w.server, w.downs[key].path)|
    ensures var c, file := w.downs[key], FileOf(w.server, w.downs[key].path);
            var from := at + D.Got(file, at, limit);
            var n := D.Got(file, from, more);
            var w1 := AskProcessed(w, key, at, -1, limit);
            var w2 := DownStepped(w1, key, D.ServerAnswer(more));
            && w2.downs[key].phase.Carried? && w2.downs[key].phase.block.len >= 0
            && var w3 := DownStepped(w2, key, D.TakeBlock(true));
               IsPrefix(w3.downs[key].accepted, FileOf(w3.server, w3.downs[key].path))
               <==> |c.accepted| + n <= |file| && file[|c.accepted|..|c.accepted| + n] == file[from..from + n]
  {
    AskedMeanwhile(w, key, at, limit);
    NextBlockFits(AskProcessed(w, key, at, -1, limit), key, more);
  }

  lemma AskedMeanwhile(w: World, key: int, at: nat, limit: int)
    requires WorldInv(w) && key in w.downs && Live(w.server, key)
    ensures var c, file := w.downs[key], FileOf(w.server, w.downs[key].path);
            var v := AskProcessed(w, key, at, -1, limit);
            && v.downs == w.downs && Live(v.server, key) && FileOf(v.server, c.path) == file && IsPrefix(c.accepted, file)
            && v.server.tasks[key].pos == at && v.server.tasks[key].size == c.size
            && v.server.fds[v.server.tasks[key].fd] == Handle(c.path, at + D.Got(file, at, limit))
  {
    var s, c := w.server, w.downs[key];
    assert D.SessionInv(s, key, c);
    assert forall fd :: fd in s.fds ==> fd >= 0;
    D.AskMoves(s, key, c, at, -1, limit);
  }

  // ---------------------------------------------------------------- truncated while it is downloaded

  /** Without the new upload's own session: its start, whoever downloads the path. */
  ghost predicate Startable(w: World, rq: UploadRq, source: Bytes, fd: int) {
    && ValidUpload(rq) && rq.size == |source| && FreshFd(w.server, fd)
    && TaskKey(rq.uid, rq.timestamp) !in w.ups && TaskKey(rq.uid, rq.timestamp) !in w.downs
    && !Busy(w, DiskPath(rq.uid, rq.dir, rq.md5)) && U.SizeKept(w.server.store, rq)
  }

  lemma TakenIsUnsafe(w: World, rq: UploadRq, source: Bytes, fd: int, k: int)
    requires WorldInv(w) && Startable(w, rq, source, fd) && U.Started(w.server, rq, fd).1.Accepted?
    requires k in w.downs && w.downs[k].path == DiskPath(rq.uid, rq.dir, rq.md5) && !Untaken(w.downs[k])
    ensures LeadsTo(UploadStarted(w, rq, source, fd), UnsafeAt(k))
  {
    var v, c := UploadStarted(w, rq, source, fd), w.downs[k];
    assert D.SessionInv(w.server, k, c);
    assert FileOf(v.server, c.path) == [];
    if c.accepted == [] {
      var u := DownStepped(v, k, D.TakeBlock(true));
      assert Next(v, Down(k, D.TakeBlock(true))) == u;
      assert u.downs[k].accepted == [] + c.phase.block.content;
      Arrived(u, UnsafeAt(k));
      StepBack(v, Down(k, D.TakeBlock(true)), UnsafeAt(k));
    } else {
      Arrived(v, UnsafeAt(k));
    }
  }

  /**
   An upload that starts over a file leaves those who download it safe in all runs if and only if they have
   accepted nothing yet and nothing is on its way to them.
   */
  lemma StartSafeIff(w: World, rq: UploadRq, source: Bytes, fd: int)
    requires WorldInv(w) && Startable(w, rq, source, fd) && U.Started(w.server, rq, fd).1.Accepted?
    ensures (forall k :: k in w.downs && w.downs[k].path == DiskPath(rq.uid, rq.dir, rq.md5) ==> Untaken(w.downs[k]))
       <==> (forall k :: k in w.downs ==> !LeadsTo(UploadStarted(w, rq, source, fd), UnsafeAt(k)))
  {
    var v := UploadStarted(w, rq, source, fd);
    if k :| k in w.downs && w.downs[k].path == DiskPath(rq.uid, rq.dir, rq.md5) && !Untaken(w.downs[k]) {
      TakenIsUnsafe(w, rq, source, fd, k);
    } else {
      UploadStartKeepsInv(w, rq, source, fd);
      forall k | k in w.downs
        ensures !LeadsTo(v, UnsafeAt(k))
      {
        NeverUnsafe(v, k);
      }
    }
  }
}
