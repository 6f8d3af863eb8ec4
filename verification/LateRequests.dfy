/**
 Upload requests that arrive late. Blocks and resume requests of one client can travel on different
 connections and are handled by different workers, so one that the client has given up may be processed at
 any time afterwards. Here is exactly when that does no harm.
 */
module LateRequests {
  import opened Wrappers
  import opened TransferState
  import opened TransferRuns
  import U = Upload

  /** The file of an upload is no prefix of its source any more. */
  ghost predicate Spoilt(w: World, key: int) {
    key in w.ups && !IsPrefix(FileOf(w.server, U.PathOf(w.ups[key])), w.ups[key].source)
  }

  ghost function SpoiltAt(key: int): World -> bool {
    w => Spoilt(w, key)
  }

  /** The server processes the block [at, at + k) of a client that does not wait for it. */
  function BlockProcessed(w: World, key: int, at: nat, k: nat, written: int): World
    requires key in w.ups && U.Within(w.ups[key], at, k) && -1 <= written <= k
  {
    w.(server := U.BlockReceived(w.server, key, w.ups[key].fid, U.BlockOf(w.ups[key], at, k), written).0)
  }

  /** The server processes a resume request of a client that does not wait for it. */
  function ResumeProcessed(w: World, key: int, fd: int): World
    requires key in w.ups
  {
    var c := w.ups[key];
    w.(server := U.Continued(w.server, key, c.uid, c.fid, c.dir, fd).0)
  }

  lemma SoundIsNotSpoilt(w: World, events: seq<Event>, key: int)
    requires WorldInv(w)
    ensures !Spoilt(After(w, events), key)
  {
    AfterKeepsInv(w, events);
    var v := After(w, events);
    assert key in v.ups ==> U.SessionInv(v.server, key, v.ups[key]);
  }

  lemma NeverSpoilt(w: World, key: int)
    requires WorldInv(w)
    ensures !LeadsTo(w, SpoiltAt(key))
  {
    forall events
      ensures !Spoilt(After(w, events), key)
    {
      SoundIsNotSpoilt(w, events, key);
    }
  }

  // ---------------------------------------------------------------- a task that has outrun its client

  /** The server is d bytes ahead of the client, which is about to send. */
  ghost predicate Ahead(w: World, key: int, n: nat, d: nat) {
    && 0 < d && key in w.ups && Live(w.server, key)
    && var s, c := w.server, w.ups[key];
       var task := s.tasks[key];
       && c.phase == U.Synced(n) && n + d <= |c.source| <= task.size
       && task.pos == n + d && s.fds[task.fd] == Handle(U.PathOf(c), n + d)
       && n + d <= |s.bytes[U.PathOf(c)]|
  }

  lemma AheadBlock(w: World, key: int, n: nat, d: nat, b: nat)
    requires Ahead(w, key, n, d) && n + b <= |w.ups[key].source| && 0 < b <= DEF_BUFFER
    ensures var v := UpStepped(w, key, U.SendBlock(b));
            && U.CanStep(v.server, key, v.ups[key], U.ServerBlock(b))
            && var u := UpStepped(v, key, U.ServerBlock(b));
               && key in u.ups && u.ups[key].source == w.ups[key].source
               && (n + b + d > |w.ups[key].source| ==> Spoilt(u, key))
               && (n + b + d < |w.ups[key].source| ==>
                     u.ups[key].phase == U.Replied(n, b, 1)
                     && Ahead(UpStepped(u, key, U.TakeReply), key, n + b, d)
                     && UpStepped(u, key, U.TakeReply).ups[key].source == w.ups[key].source)
  {
    var c := w.ups[key];
    var content := c.source[n..n + b];
    assert content[..b] == content;
    assert |WriteAt(w.server.bytes[U.PathOf(c)], n + d, content)| >= n + d + b;
  }

  /** A client that is behind its server ends with a file longer than its source. */
  lemma {:induction false} AheadSpoils(w: World, key: int, n: nat, d: nat)
    requires Ahead(w, key, n, d)
    ensures LeadsTo(w, SpoiltAt(key))
    decreases |w.ups[key].source| - n
  {
    var left := |w.ups[key].source| - n;
    var b := if left <= DEF_BUFFER then left else if left == DEF_BUFFER + d then DEF_BUFFER - 1 else DEF_BUFFER;
    AheadBlock(w, key, n, d, b);
    var v := UpStepped(w, key, U.SendBlock(b));
    var u := UpStepped(v, key, U.ServerBlock(b));
    if b + d > left {
      Arrived(u, SpoiltAt(key));
    } else {
      AheadSpoils(UpStepped(u, key, U.TakeReply), key, n + b, d);
      StepBack(u, Up(key, U.TakeReply), SpoiltAt(key));
    }
    StepBack(v, Up(key, U.ServerBlock(b)), SpoiltAt(key));
    StepBack(w, Up(key, U.SendBlock(b)), SpoiltAt(key));
  }

  /** The same for a client in any phase in which it goes on without asking. */
  ghost predicate Outrun(w: World, key: int, d: nat) {
    && 0 < d && key in w.ups && Live(w.server, key)
    && var s, c := w.server, w.ups[key];
       var task, n := s.tasks[key], U.Position(c.phase);
       && !U.MustAsk(c.phase) && 0 <= n && n + d <= |c.source| <= task.size
       && task.pos == n + d && s.fds[task.fd] == Handle(U.PathOf(c), n + d)
       && n + d <= |s.bytes[U.PathOf(c)]|
       && (c.phase.Sent? ==> U.Within(c, c.phase.c, c.phase.k) && (c.phase.k > 0 || task.pos < task.size))
  }

  /** The block that is on its way is not written; then the client goes on. */
  lemma SentIsAhead(w: World, key: int, d: nat)
    requires Outrun(w, key, d) && w.ups[key].phase.Sent?
    ensures U.CanStep(w.server, key, w.ups[key], U.ServerBlock(0))
    ensures var v := UpStepped(w, key, U.ServerBlock(0));
            v.ups[key].phase.Replied? && Ahead(UpStepped(v, key, U.TakeReply), key, U.Position(w.ups[key].phase), d)
  {
    var c := w.ups[key];
    assert U.BlockOf(c, c.phase.c, c.phase.k)[..0] == [];
  }

  lemma OutrunSpoils(w: World, key: int, d: nat)
    requires Outrun(w, key, d)
    ensures LeadsTo(w, SpoiltAt(key))
  {
    var n := U.Position(w.ups[key].phase);
    match w.ups[key].phase
    case Synced(_) => AheadSpoils(w, key, n, d);
    case Told(_) =>
      AheadSpoils(UpStepped(w, key, U.TakePosition), key, n, d);
      StepBack(w, Up(key, U.TakePosition), SpoiltAt(key));
    case Replied(_, _, _) =>
      AheadSpoils(UpStepped(w, key, U.TakeReply), key, n, d);
      StepBack(w, Up(key, U.TakeReply), SpoiltAt(key));
    case Sent(_, _) =>
      SentIsAhead(w, key, d);
      var v := UpStepped(w, key, U.ServerBlock(0));
      AheadSpoils(UpStepped(v, key, U.TakeReply), key, n, d);
      StepBack(v, Up(key, U.TakeReply), SpoiltAt(key));
      StepBack(w, Up(key, U.ServerBlock(0)), SpoiltAt(key));
  }

  // ---------------------------------------------------------------- late blocks

  lemma MisfitBytes(source: Bytes, stored: Bytes, n: nat, at: nat, written: nat)
    requires n <= |stored| && at + written <= |source| && !U.Fits(source, n, at, written)
    ensures !IsPrefix(WriteAt(stored, n, source[at..at + written]), source)
  {
    var r := WriteAt(stored, n, source[at..at + written]);
    assert r[n..n + written] == source[at..at + written];
    SliceIfPrefix(r, source, n, n + written);
  }

  /** Bytes that do not belong there spoil the file at once. */
  lemma MisfitSpoils(s: Server, key: int, c: U.Session, at: nat, k: nat, written: nat)
    requires U.SessionInv(s, key, c) && key in s.tasks
    requires U.Within(c, at, k) && written <= k && !U.Fits(c.source, s.tasks[key].pos, at, written)
    ensures var t := U.BlockReceived(s, key, c.fid, U.BlockOf(c, at, k), written).0;
            !IsPrefix(FileOf(t, U.PathOf(c)), c.source)
  {
    SliceStart(c.source, at, k, written);
    MisfitBytes(c.source, s.bytes[U.PathOf(c)], s.tasks[key].pos, at, written);
  }

  lemma LateBlockIsStep(w: World, key: int, at: nat, k: nat, written: int)
    requires WorldInv(w) && key in w.ups && U.CanStep(w.server, key, w.ups[key], U.LateBlock(at, k, written))
    ensures WorldInv(BlockProcessed(w, key, at, k, written))
  {
    UpKeepsInv(w, key, U.LateBlock(at, k, written));
    assert BlockProcessed(w, key, at, k, written) == UpStepped(w, key, U.LateBlock(at, k, written));
  }

  lemma FullBlockOutruns(w: World, key: int, at: nat, k: nat)
    requires WorldInv(w) && key in w.ups && key in w.server.tasks && U.Within(w.ups[key], at, k)
    requires !U.BlockIsHarmless(w.server, key, w.ups[key], at, k, k) && U.Fits(w.ups[key].source, w.server.tasks[key].pos, at, k)
    ensures Outrun(BlockProcessed(w, key, at, k, k), key, k)
  {
    var s, c := w.server, w.ups[key];
    assert U.SessionInv(s, key, c);
    FullBlockMoves(s, key, c, at, k);
  }

  lemma FullBlockMoves(s: Server, key: int, c: U.Session, at: nat, k: nat)
    requires U.SessionInv(s, key, c) && key in s.tasks && U.Within(c, at, k) && s.tasks[key].pos + k < s.tasks[key].size
    ensures var t := U.BlockReceived(s, key, c.fid, U.BlockOf(c, at, k), k).0;
            && t.tasks == s.tasks[key := s.tasks[key].(pos := s.tasks[key].pos + k)]
            && t.fds == s.fds[s.tasks[key].fd := Handle(U.PathOf(c), s.tasks[key].pos + k)]
            && U.PathOf(c) in t.bytes && |t.bytes[U.PathOf(c)]| >= s.tasks[key].pos + k
  {
    assert U.BlockOf(c, at, k)[..k] == U.BlockOf(c, at, k);
    assert |WriteAt(s.bytes[U.PathOf(c)], s.tasks[key].pos, U.BlockOf(c, at, k))| >= s.tasks[key].pos + k;
  }

  /**
   A block that the client has given up and that is processed in whatever phase the client is by then leaves
   the upload safe in all runs if and only if it is harmless.
   */
  lemma LateBlockSafeIff(w: World, key: int, at: nat, k: nat, written: int)
    requires WorldInv(w) && key in w.ups && U.Within(w.ups[key], at, k) && -1 <= written <= k
    ensures U.BlockIsHarmless(w.server, key, w.ups[key], at, k, written)
       <==> !LeadsTo(BlockProcessed(w, key, at, k, written), SpoiltAt(key))
  {
    var s, c := w.server, w.ups[key];
    var v := BlockProcessed(w, key, at, k, written);
    assert U.SessionInv(s, key, c);
    if U.BlockIsHarmless(s, key, c, at, k, written) {
      LateBlockIsStep(w, key, at, k, written);
      NeverSpoilt(v, key);
    } else if !U.Fits(c.source, s.tasks[key].pos, at, written) {
      MisfitSpoils(s, key, c, at, k, written);
      Arrived(v, SpoiltAt(key));
    } else {
      FullBlockOutruns(w, key, at, k);
      OutrunSpoils(v, key, k);
    }
  }

  /** The block that a client has just given up is harmless until something else moves the task. */
  lemma JustGivenUpIsHarmless(w: World, key: int, u: U.Step, written: int)
    requires WorldInv(w) && key in w.ups && w.ups[key].phase.Sent? && (u.Lose? || u.Ask?) && -1 <= written <= w.ups[key].phase.k
    ensures var v, sent := UpStepped(w, key, u), w.ups[key].phase;
            && U.Within(v.ups[key], sent.c, sent.k)
            && U.BlockIsHarmless(v.server, key, v.ups[key], sent.c, sent.k, written)
  {
    assert U.SessionInv(w.server, key, w.ups[key]);
  }

  // ---------------------------------------------------------------- late resume requests

  lemma LateResumeIsStep(w: World, key: int, fd: int)
    requires WorldInv(w) && key in w.ups && FreshFd(w.server, fd) && U.ResumeIsHarmless(w.server, key, w.ups[key], fd)
    ensures WorldInv(ResumeProcessed(w, key, fd))
  {
    LateResumeStepped(w, key, fd);
    UpKeepsInv(w, key, U.LateResume(fd));
  }

  lemma LateResumeStepped(w: World, key: int, fd: int)
    requires key in w.ups && U.CanStep(w.server, key, w.ups[key], U.LateResume(fd))
    ensures UpStepped(w, key, U.LateResume(fd)) == ResumeProcessed(w, key, fd)
  {
    assert w.ups[key := w.ups[key]] == w.ups;
  }

  lemma LateResumeOutruns(w: World, key: int, fd: int) returns (d: nat)
    requires WorldInv(w) && key in w.ups && FreshFd(w.server, fd) && !U.ResumeIsHarmless(w.server, key, w.ups[key], fd)
    ensures Outrun(ResumeProcessed(w, key, fd), key, d)
  {
    var s, c := w.server, w.ups[key];
    assert U.SessionInv(s, key, c);
    U.ContinueKeepsSession(s, key, c, fd);
    d := |FileOf(s, U.PathOf(c))| - U.Position(c.phase);
  }

  /**
   A resume request that the client has given up and that is processed in whatever phase the client is by
   then leaves the upload safe in all runs if and only if it is harmless.
   */
  lemma LateResumeSafeIff(w: World, key: int, fd: int)
    requires WorldInv(w) && key in w.ups && FreshFd(w.server, fd)
    ensures U.ResumeIsHarmless(w.server, key, w.ups[key], fd) <==> !LeadsTo(ResumeProcessed(w, key, fd), SpoiltAt(key))
  {
    if U.ResumeIsHarmless(w.server, key, w.ups[key], fd) {
      LateResumeIsStep(w, key, fd);
      NeverSpoilt(ResumeProcessed(w, key, fd), key);
    } else {
      var d := LateResumeOutruns(w, key, fd);
      OutrunSpoils(ResumeProcessed(w, key, fd), key, d);
    }
  }

  // ---------------------------------------------------------------- it happens

  lemma AskedThenTold(w: World, key: int, n: nat)
    requires WorldInv(w) && key in w.ups && key in w.server.tasks && |FileOf(w.server, U.PathOf(w.ups[key]))| == n
    ensures var w1 := Next(w, Up(key, U.Ask));
            var w2 := Next(w1, Up(key, U.ServerContinue(-1)));
            var w3 := Next(w2, Up(key, U.TakePosition));
            && WorldInv(w3) && key in w3.ups && w3.ups[key].source == w.ups[key].source && w3.ups[key].phase == U.Synced(n)
            && key in w3.server.tasks && w3.server.tasks[key].pos == n
            && w3.server.tasks[key].size == w.server.tasks[key].size && FileOf(w3.server, U.PathOf(w3.ups[key])) == FileOf(w.server, U.PathOf(w.ups[key]))
  {
    var w1 := Next(w, Up(key, U.Ask));
    assert w1 == UpStepped(w, key, U.Ask);
    UpKeepsInv(w, key, U.Ask);
    ToldByTask(w1, key, n);
    var w2 := Next(w1, Up(key, U.ServerContinue(-1)));
    assert Next(w2, Up(key, U.TakePosition)) == UpStepped(w2, key, U.TakePosition);
    UpKeepsInv(w2, key, U.TakePosition);
  }

  lemma ToldByTask(w: World, key: int, n: nat)
    requires WorldInv(w) && key in w.ups && w.ups[key].phase.Asked? && key in w.server.tasks && |FileOf(w.server, U.PathOf(w.ups[key]))| == n
    ensures var v := Next(w, Up(key, U.ServerContinue(-1)));
            && WorldInv(v) && v.ups.Keys == w.ups.Keys && v.ups[key] == w.ups[key].(phase := U.Told(n))
            && key in v.server.tasks && v.server.tasks[key].pos == n
            && v.server.tasks[key].size == w.server.tasks[key].size && v.server.bytes == w.server.bytes
  {
    assert U.SessionInv(w.server, key, w.ups[key]);
    assert forall fd :: fd in w.server.fds ==> fd >= 0;
    U.ContinueKeepsSession(w.server, key, w.ups[key], -1);
    assert Next(w, Up(key, U.ServerContinue(-1))) == UpStepped(w, key, U.ServerContinue(-1));
    UpKeepsInv(w, key, U.ServerContinue(-1));
  }

  /**
   The run: a block is on its way, the client gives it up and asks, is told where to go on, and then the
   block arrives. Unless it was the last one, some continuation spoils the file.
   */
  lemma GivenUpBlockSpoils(w: World, key: int, n: nat, k: nat)
    requires WorldInv(w) && key in w.ups && w.ups[key].phase == U.Sent(n, k) && key in w.server.tasks
    requires |FileOf(w.server, U.PathOf(w.ups[key]))| == n && 0 < k && n + k < |w.ups[key].source|
    ensures var w1 := Next(w, Up(key, U.Ask));
            var w2 := Next(w1, Up(key, U.ServerContinue(-1)));
            var w3 := Next(w2, Up(key, U.TakePosition));
            && key in w3.ups && w3.ups[key].source == w.ups[key].source && w3.ups[key].phase == U.Synced(n)
            && LeadsTo(BlockProcessed(w3, key, n, k, k), SpoiltAt(key))
  {
    AskedThenTold(w, key, n);
    assert U.SessionInv(w.server, key, w.ups[key]);
    var w3 := Next(Next(Next(w, Up(key, U.Ask)), Up(key, U.ServerContinue(-1))), Up(key, U.TakePosition));
    LateBlockSafeIff(w3, key, n, k, k);
  }

  lemma ShortWrite(w: World, key: int, n: nat, k: nat, d: nat)
    requires WorldInv(w) && key in w.ups && w.ups[key].phase == U.Sent(n, k) && key in w.server.tasks
    requires |FileOf(w.server, U.PathOf(w.ups[key]))| == n && 0 < d < k
    ensures var v := Next(w, Up(key, U.ServerBlock(d)));
            && WorldInv(v) && key in v.ups && v.ups[key].phase == U.Replied(n, k, 0) && key in v.server.tasks
            && U.PathOf(v.ups[key]) == U.PathOf(w.ups[key]) && |FileOf(v.server, U.PathOf(v.ups[key]))| == n + d
  {
    var c := w.ups[key];
    assert U.SessionInv(w.server, key, c);
    PartWritten(w.server, key, c, n, k, d);
    UpKeepsInv(w, key, U.ServerBlock(d));
    assert Next(w, Up(key, U.ServerBlock(d))) == UpStepped(w, key, U.ServerBlock(d));
  }

  lemma PartWritten(s: Server, key: int, c: U.Session, n: nat, k: nat, d: nat)
    requires U.SessionInv(s, key, c) && c.phase == U.Sent(n, k) && key in s.tasks
    requires |FileOf(s, U.PathOf(c))| == n && 0 < d < k
    ensures var (t, reply) := U.BlockReceived(s, key, c.fid, U.BlockOf(c, n, k), d);
            reply == Some(U.Reply(k, 0)) && key in t.tasks && |FileOf(t, U.PathOf(c))| == n + d
  {}

  /** A short write leaves the file longer than the task's position. */
  lemma ShortWriteGrows(w: World, key: int, n: nat, k: nat, d: nat)
    requires WorldInv(w) && key in w.ups && w.ups[key].phase == U.Synced(n) && key in w.server.tasks
    requires |FileOf(w.server, U.PathOf(w.ups[key]))| == n && 0 < d < k <= DEF_BUFFER && n + k <= |w.ups[key].source|
    ensures var w1 := Next(w, Up(key, U.SendBlock(k)));
            var w2 := Next(w1, Up(key, U.ServerBlock(d)));
            var w3 := Next(w2, Up(key, U.TakeReply));
            && WorldInv(w3) && key in w3.ups && w3.ups[key].phase == U.Synced(n) && key in w3.server.tasks
            && |FileOf(w3.server, U.PathOf(w3.ups[key]))| == n + d
  {
    var c := w.ups[key];
    assert U.SessionInv(w.server, key, c);
    var w1 := Next(w, Up(key, U.SendBlock(k)));
    assert w1 == UpStepped(w, key, U.SendBlock(k));
    NextKeepsInv(w, Up(key, U.SendBlock(k)));
    ShortWrite(w1, key, n, k, d);
    var w2 := Next(w1, Up(key, U.ServerBlock(d)));
    assert Next(w2, Up(key, U.TakeReply)) == UpStepped(w2, key, U.TakeReply);
    NextKeepsInv(w2, Up(key, U.TakeReply));
  }

  /**
   The run: the client asks twice, is told where to go on and sends a block, which is written in part. When
   the first of its resume requests is processed then, some continuation spoils the file.
   */
  lemma GivenUpResumeSpoils(w: World, key: int, n: nat, k: nat, d: nat)
    requires WorldInv(w) && key in w.ups && w.ups[key].phase == U.Asked && key in w.server.tasks
    requires |FileOf(w.server, U.PathOf(w.ups[key]))| == n && 0 < d < k <= DEF_BUFFER && n + k <= |w.ups[key].source|
    ensures var w1 := Next(w, Up(key, U.Ask));
            var w2 := Next(w1, Up(key, U.ServerContinue(-1)));
            var w3 := Next(w2, Up(key, U.TakePosition));
            var w4 := Next(w3, Up(key, U.SendBlock(k)));
            var w5 := Next(w4, Up(key, U.ServerBlock(d)));
            var w6 := Next(w5, Up(key, U.TakeReply));
            key in w6.ups && LeadsTo(ResumeProcessed(w6, key, -1), SpoiltAt(key))
  {
    AskedThenTold(w, key, n);
    ResumeAfterShortWrite(Next(Next(Next(w, Up(key, U.Ask)), Up(key, U.ServerContinue(-1))), Up(key, U.TakePosition)), key, n, k, d);
  }

  lemma ResumeAfterShortWrite(w: World, key: int, n: nat, k: nat, d: nat)
    requires WorldInv(w) && key in w.ups && w.ups[key].phase == U.Synced(n) && key in w.server.tasks
    requires |FileOf(w.server, U.PathOf(w.ups[key]))| == n && 0 < d < k <= DEF_BUFFER && n + k <= |w.ups[key].source|
    ensures var w1 := Next(w, Up(key, U.SendBlock(k)));
            var w2 := Next(w1, Up(key, U.ServerBlock(d)));
            var w3 := Next(w2, Up(key, U.TakeReply));
            key in w3.ups && LeadsTo(ResumeProcessed(w3, key, -1), SpoiltAt(key))
  {
    ShortWriteGrows(w, key, n, k, d);
    ResumeBehind(Next(Next(Next(w, Up(key, U.SendBlock(k))), Up(key, U.ServerBlock(d))), Up(key, U.TakeReply)), key, n);
  }

  /** A late resume request when more is stored than the client knows of. */
  lemma ResumeBehind(w: World, key: int, n: nat)
    requires WorldInv(w) && key in w.ups && w.ups[key].phase == U.Synced(n) && key in w.server.tasks
    requires |FileOf(w.server, U.PathOf(w.ups[key]))| > n
    ensures LeadsTo(ResumeProcessed(w, key, -1), SpoiltAt(key))
  {
    assert forall fd :: fd in w.server.fds ==> fd >= 0;
    LateResumeSafeIff(w, key, -1);
  }

  // ---------------------------------------------------------------- two uploads of one path

  /**
   A block of an upload that another one of the same path has just truncated, be it of a client that goes on
   or of one that has left for good: it is written where the first upload was, so the new file is spoilt
   unless its source begins with that many zeros and then with this block.
   */
  lemma LeftBlockSpoilsUnless(w: World, left: int, key: int, fileid: int, n: nat, content: Bytes)
    requires key in w.ups && left != key && Live(w.server, left)
    requires w.server.fds[w.server.tasks[left].fd] == Handle(U.PathOf(w.ups[key]), n)
    requires FileOf(w.server, U.PathOf(w.ups[key])) == []
    ensures var t := U.BlockReceived(w.server, left, fileid, content, |content|).0;
            IsPrefix(Zeros(n) + content, w.ups[key].source) <==> !Spoilt(w.(server := t), key)
  {
    assert content[..|content|] == content;
    assert WriteAt([], n, content) == Zeros(n) + content;
    var t := U.BlockReceived(w.server, left, fileid, content, |content|).0;
    assert FileOf(t, U.PathOf(w.ups[key])) == Zeros(n) + content;
  }
}
