/**
 Resumable upload: HandleUpFileRq, FileContentRq and ContinueUploadRq on the server, the clients that
 send blocks of their sources, and everything that can go wrong between them.
 */
module Upload {
  import opened Text
  import opened Wrappers
  import opened Tables
  import opened Transfer
  import opened Storage
  import opened TransferState

  datatype Reply = Reply(len: nat, result: int)

  // ---------------------------------------------------------------- the handlers

  /** HandleUpFileRq; `fd` is what open returns. */
  function Started(s: Server, rq: UploadRq, fd: int): (Server, UploadReply) {
    var (store, reply) := Uploaded(s.store, rq, fd >= 0);
    match reply
    case Accepted(fid) =>
      var path := DiskPath(rq.uid, rq.dir, rq.md5);
      (s.(store := store, bytes := s.bytes[path := []], fds := s.fds[fd := Handle(path, 0)],
          tasks := s.tasks[TaskKey(rq.uid, rq.timestamp) := Task(path, rq.size, fid, fd, 0)]), reply)
    case _ => (s.(store := store), reply)
  }

  /** FileContentRq; `written` is what write returns: -1, or at most the length of the block. */
  function BlockReceived(s: Server, key: int, fileid: int, content: Bytes, written: int): (Server, Option<Reply>)
    requires -1 <= written <= |content|
  {
    if !Live(s, key) || written == -1 then (s, None)
    else
      var task := s.tasks[key];
      var h := s.fds[task.fd];
      var bytes := s.bytes[h.path := WriteAt(s.bytes[h.path], h.offset, content[..written])];
      if written != |content| then
        (s.(bytes := bytes), Some(Reply(|content|, 0)))
      else if task.pos + written >= task.size then
        (Server(Completed(s.store, key, fileid), bytes, s.fds - {task.fd}, s.tasks - {key}, s.transfers + [h.path]),
         Some(Reply(|content|, 1)))
      else
        (s.(bytes := bytes, fds := s.fds[task.fd := Handle(h.path, h.offset + written)],
            tasks := s.tasks[key := task.(pos := task.pos + written)]),
         Some(Reply(|content|, 1)))
  }

  /** lseek(fd, 0, SEEK_END) and the position it yields, which is -1 for a descriptor that does not work. */
  function AtEnd(s: Server, key: int): (Server, int)
    requires key in s.tasks
  {
    var task := s.tasks[key];
    var end := if Live(s, key) then |s.bytes[s.fds[task.fd].path]| else -1;
    (s.(fds := Placed(s.fds, task.fd, end), tasks := s.tasks[key := task.(pos := end)]), end)
  }

  /** ContinueUploadRq; `fd` is what open returns if the task has to be made again. */
  function Continued(s: Server, key: int, uid: int, fileid: int, dir: string, fd: int): (Server, Option<int>) {
    if key in s.tasks then
      var (t, end) := AtEnd(s, key);
      (t, Some(end))
    else if CannotReopen(s, uid, fileid, dir, fd) then (s, None)
    else
      var (t, end) := AtEnd(Reopened(s, key, uid, fileid, dir, fd), key);
      (t, Some(end))
  }

  /** No unfinished row, or no file to open. */
  predicate CannotReopen(s: Server, uid: int, fileid: int, dir: string, fd: int) {
    Hits(s.store, uid, fileid, dir) == [] || s.store.files[fileid].state != 0 || fd <= 0 || s.store.files[fileid].path !in s.bytes
  }

  /** The task made again from the row. */
  function Reopened(s: Server, key: int, uid: int, fileid: int, dir: string, fd: int): Server
    requires fileid in s.store.files
  {
    var row := s.store.files[fileid];
    s.(store := Resumed(s.store, key, uid, fileid, dir), fds := s.fds[fd := Handle(row.path, 0)],
       tasks := s.tasks[key := Task(row.path, row.size, fileid, fd, 0)])
  }

  // ---------------------------------------------------------------- the clients

  /** Where a client is with its upload; requests and replies in flight are part of it. */
  datatype Phase =
    | Synced(c: nat)                              // everything before c is acknowledged
    | Sent(c: nat, k: nat)                        // the block [c, c + k) is on its way
    | Replied(c: nat, k: nat, result: int)        // the answer to it is on its way back
    | Lost                                        // connection or answer lost: must ask where to go on
    | Asked                                       // ContinueUploadRq is on its way
    | Told(pos: int)                              // its answer is on its way back

  datatype Session = Session(uid: int, timestamp: int, fid: int, dir: string, md5: string, source: Bytes, phase: Phase)

  function PathOf(c: Session): string {
    DiskPath(c.uid, c.dir, c.md5)
  }

  /** The client waits for nothing, and goes on only after it has asked where. */
  predicate MustAsk(phase: Phase) {
    phase.Lost? || phase.Asked?
  }

  /** Where the client will be when what is in flight has arrived. */
  function Position(phase: Phase): int {
    match phase
    case Synced(c) => c
    case Sent(c, _) => c
    case Replied(c, k, result) => if result == 1 then c + k else c
    case Told(pos) => pos
    case _ => 0
  }

  // ---------------------------------------------------------------- late requests

  /** The bytes written are those that belong at pos. */
  predicate Fits(source: Bytes, pos: int, at: nat, written: nat)
    requires at + written <= |source|
  {
    0 <= pos && pos + written <= |source| && source[at..at + written] == source[pos..pos + written]
  }

  /**
   A block that the client has given up does no harm when it is processed if nothing of it is written, or if
   what is written belongs where the task stands and the task does not run ahead of a client that waits
   for something else: the write was short, or it completed the upload.
   */
  predicate BlockIsHarmless(s: Server, key: int, c: Session, at: nat, k: nat, written: int)
    requires Within(c, at, k) && -1 <= written <= k
  {
    key !in s.tasks || written <= 0 ||
    var task := s.tasks[key];
    Fits(c.source, task.pos, at, written) && (MustAsk(c.phase) || written < k || task.pos + k >= task.size)
  }

  /**
   A resume request that the client has given up does no harm if the client must ask again anyway, if it
   finds nothing to resume, if the file ends where the client is, or if the client is about to complete the
   upload with an empty block.
   */
  predicate ResumeIsHarmless(s: Server, key: int, c: Session, fd: int) {
    || MustAsk(c.phase)
    || (key !in s.tasks && CannotReopen(s, c.uid, c.fid, c.dir, fd))
    || |FileOf(s, PathOf(c))| == Position(c.phase)
    || (c.phase.Sent? && c.phase.k == 0 && |FileOf(s, PathOf(c))| >= SizeToReach(s, key, c))
  }

  /** The size at which the task counts the upload as complete, as it is or made again from the row. */
  function SizeToReach(s: Server, key: int, c: Session): int {
    if key in s.tasks then s.tasks[key].size else if c.fid in s.store.files then s.store.files[c.fid].size else 0
  }

  // ---------------------------------------------------------------- the steps

  /** What the client and the server do for one upload. */
  datatype Step =
    | SendBlock(k: nat)
    | ServerBlock(written: int)
    | TakeReply
    | Lose
    | Ask
    | ServerContinue(fd: int)
    | TakePosition
    | LateBlock(at: nat, k: nat, written: int)
    | LateResume(fd: int)

  predicate CanStep(s: Server, key: int, c: Session, e: Step) {
    match e
    case SendBlock(k) => c.phase.Synced? && c.phase.c + k <= |c.source| && k <= DEF_BUFFER
    case ServerBlock(written) => c.phase.Sent? && Within(c, c.phase.c, c.phase.k) && -1 <= written <= c.phase.k
    case TakeReply => c.phase.Replied?
    case ServerContinue(fd) => c.phase.Asked? && FreshFd(s, fd)
    case TakePosition => c.phase.Told? && c.phase.pos >= 0
    case LateBlock(at, k, written) => Within(c, at, k) && -1 <= written <= k && BlockIsHarmless(s, key, c, at, k, written)
    case LateResume(fd) => FreshFd(s, fd) && ResumeIsHarmless(s, key, c, fd)
    case _ => true
  }

  predicate Within(c: Session, at: nat, k: nat) {
    at + k <= |c.source|
  }

  /** The bytes of a block. */
  function BlockOf(c: Session, at: nat, k: nat): Bytes
    requires Within(c, at, k)
  {
    c.source[at..at + k]
  }

  function AfterBlock(at: nat, reply: Option<Reply>): Phase {
    if reply.Some? then Replied(at, reply.value.len, reply.value.result) else Lost
  }

  function AfterContinue(pos: Option<int>): Phase {
    if pos.Some? then Told(pos.value) else Lost
  }

  function Stepped(s: Server, key: int, c: Session, e: Step): (Server, Session)
    requires CanStep(s, key, c, e)
  {
    match e
    case SendBlock(k) => (s, c.(phase := Sent(c.phase.c, k)))
    case ServerBlock(written) =>
      var (t, reply) := BlockReceived(s, key, c.fid, BlockOf(c, c.phase.c, c.phase.k), written);
      (t, c.(phase := AfterBlock(c.phase.c, reply)))
    case TakeReply => (s, c.(phase := if c.phase.result == 1 then Synced(c.phase.c + c.phase.k) else Synced(c.phase.c)))
    case Lose => (s, c.(phase := Lost))
    case Ask => (s, c.(phase := Asked))
    case ServerContinue(fd) =>
      var (t, pos) := Continued(s, key, c.uid, c.fid, c.dir, fd);
      (t, c.(phase := AfterContinue(pos)))
    case TakePosition => (s, c.(phase := Synced(c.phase.pos)))
    case LateBlock(at, k, written) => (BlockReceived(s, key, c.fid, BlockOf(c, at, k), written).0, c)
    case LateResume(fd) => (Continued(s, key, c.uid, c.fid, c.dir, fd).0, c)
  }

  // ---------------------------------------------------------------- what holds of one upload

  /** The position the client believes in is the server's, or an empty block is about to complete the upload. */
  ghost predicate Agree(phase: Phase, task: Task) {
    MustAsk(phase) || Position(phase) == task.pos || (phase.Sent? && phase.k == 0 && task.pos >= task.size)
  }

  /** The task of a session: its descriptor is open on the session's file, at `pos`. */
  ghost predicate TaskInv(s: Server, c: Session, task: Task) {
    && task.path == PathOf(c) && task.size >= |c.source| && task.fid == c.fid
    && task.fd in s.fds && PathOf(c) in s.bytes
    && 0 <= task.pos <= |s.bytes[PathOf(c)]|
    && s.fds[task.fd] == Handle(PathOf(c), task.pos)
  }

  ghost predicate TaskSound(s: Server, key: int, c: Session) {
    if key in s.tasks then TaskInv(s, c, s.tasks[key]) && Get(s.store.uploads, key) == Some(c.fid)
    else key !in s.store.uploads
  }

  /** The client and the task are at one position, and whatever the client is told is stored. */
  ghost predicate InTouch(s: Server, key: int, c: Session) {
    && (c.phase.Sent? ==> Within(c, c.phase.c, c.phase.k))
    && 0 <= Position(c.phase) <= |FileOf(s, PathOf(c))|
    && (key in s.tasks ==> Agree(c.phase, s.tasks[key]))
  }

  /** The file of a session: a prefix of the source, and all of it once the row says so. */
  ghost predicate FileInv(s: Server, c: Session) {
    && PathOf(c) in s.bytes && IsPrefix(s.bytes[PathOf(c)], c.source)
    && c.fid in s.store.files
    && var row := s.store.files[c.fid];
       && row.path == PathOf(c) && row.md5 == c.md5 && row.size >= |c.source|
       && (row.state == 0 || row.state == 1)
       && (row.state == 1 ==> s.bytes[PathOf(c)] == c.source)
  }

  ghost predicate SessionInv(s: Server, key: int, c: Session) {
    IsDir(c.dir) && IsSegment(c.md5) && FileInv(s, c) && TaskSound(s, key, c) && InTouch(s, key, c)
  }

  // ---------------------------------------------------------------- one step

  /** Writing the client's bytes over a prefix of the source leaves a longer prefix of the source. */
  lemma WritePrefix(source: Bytes, stored: Bytes, offset: nat, w: nat)
    requires IsPrefix(stored, source) && offset <= |stored| && offset + w <= |source|
    ensures var r := WriteAt(stored, offset, source[offset..offset + w]);
            IsPrefix(r, source) && IsPrefix(stored, r) && |r| >= offset + w
            && (|r| == |stored| || |r| == offset + w)
  {
    var r := WriteAt(stored, offset, source[offset..offset + w]);
    assert r == source[..|r|];
    assert stored == r[..|stored|];
  }

  /** A step that does not touch a session's file, row, task and descriptor keeps what holds of it. */
  lemma Untouched(s: Server, t: Server, key: int, c: Session)
    requires SessionInv(s, key, c) && SameTransfer(s, t, key)
    requires Get(t.bytes, PathOf(c)) == Get(s.bytes, PathOf(c)) && Get(t.store.files, c.fid) == Get(s.store.files, c.fid)
    ensures SessionInv(t, key, c)
  {}

  /** What the file holds after a block for the position of the task. */
  lemma BlockKeepsFile(s: Server, key: int, c: Session, k: nat, written: nat)
    requires SessionInv(s, key, c) && key in s.tasks && Within(c, s.tasks[key].pos, k) && written <= k
    ensures var old_ := s.bytes[PathOf(c)];
            var stored := WriteAt(old_, s.tasks[key].pos, BlockOf(c, s.tasks[key].pos, k)[..written]);
            && IsPrefix(stored, c.source) && IsPrefix(old_, stored) && |stored| >= s.tasks[key].pos + written
            && (|stored| >= |c.source| ==> stored == c.source)
  {
    var at := s.tasks[key].pos;
    SliceStart(c.source, at, k, written);
    WritePrefix(c.source, s.bytes[PathOf(c)], at, written);
  }

  /** A block for the position of the task, with any outcome of write: file, task and position move together. */
  lemma BlockAtPosition(s: Server, key: int, c: Session, k: nat, written: int)
    requires SessionInv(s, key, c) && key in s.tasks && Within(c, s.tasks[key].pos, k) && -1 <= written <= k
    ensures var (t, reply) := BlockReceived(s, key, c.fid, BlockOf(c, s.tasks[key].pos, k), written);
            && FileInv(t, c) && TaskSound(t, key, c)
            && IsPrefix(s.bytes[PathOf(c)], t.bytes[PathOf(c)])
            && (reply.Some? ==> reply.value.len == k)
            && (key in t.tasks ==>
                  t.tasks[key].pos == s.tasks[key].pos + if reply.Some? && reply.value.result == 1 then k else 0)
  {
    if written != -1 {
      BlockKeepsFile(s, key, c, k, written);
    }
  }

  /** The block that the task waits for, with any outcome of write. */
  lemma BlockKeepsSession(s: Server, key: int, c: Session, written: int)
    requires SessionInv(s, key, c) && CanStep(s, key, c, ServerBlock(written))
    ensures var (t, d) := Stepped(s, key, c, ServerBlock(written));
            SessionInv(t, key, d) && IsPrefix(FileOf(s, PathOf(c)), FileOf(t, PathOf(c)))
  {
    if key in s.tasks {
      assert BlockOf(c, c.phase.c, c.phase.k) == BlockOf(c, s.tasks[key].pos, c.phase.k);
      BlockAtPosition(s, key, c, c.phase.k, written);
    }
  }

  lemma LateBlockKeepsFile(source: Bytes, stored: Bytes, pos: nat, at: nat, k: nat, written: nat)
    requires IsPrefix(stored, source) && pos <= |stored|
    requires at + k <= |source| && written <= k && (written == 0 || Fits(source, pos, at, written))
    ensures var more := WriteAt(stored, pos, source[at..at + k][..written]);
            && IsPrefix(more, source) && IsPrefix(stored, more) && |more| >= pos + written
            && (|more| >= |source| ==> more == source)
  {
    SliceStart(source, at, k, written);
    assert source[at..at + written] == source[pos..pos + written];
    WritePrefix(source, stored, pos, written);
  }

  /** A block that was given up and does no harm. */
  lemma LateBlockKeepsSession(s: Server, key: int, c: Session, at: nat, k: nat, written: int)
    requires SessionInv(s, key, c) && CanStep(s, key, c, LateBlock(at, k, written))
    ensures var t := Stepped(s, key, c, LateBlock(at, k, written)).0;
            SessionInv(t, key, c) && IsPrefix(FileOf(s, PathOf(c)), FileOf(t, PathOf(c)))
  {
    if key in s.tasks && written >= 0 {
      LateBlockKeepsFile(c.source, s.bytes[PathOf(c)], s.tasks[key].pos, at, k, written);
    }
  }

  /** A resume request ends with `pos` and offset at the end of the file, which is what the client is told. */
  lemma ContinueKeepsSession(s: Server, key: int, c: Session, fd: int)
    requires SessionInv(s, key, c) && FreshFd(s, fd)
    ensures var (t, pos) := Continued(s, key, c.uid, c.fid, c.dir, fd);
            && SessionInv(t, key, c.(phase := AfterContinue(pos)))
            && (pos.Some? ==> key in t.tasks && pos.value == t.tasks[key].pos == |t.bytes[PathOf(c)]|)
            && (pos.None? ==> t == s && key !in s.tasks && CannotReopen(s, c.uid, c.fid, c.dir, fd))
  {}

  /** A resume request that was given up and does no harm. */
  lemma LateResumeKeepsSession(s: Server, key: int, c: Session, fd: int)
    requires SessionInv(s, key, c) && CanStep(s, key, c, LateResume(fd))
    ensures var t := Stepped(s, key, c, LateResume(fd)).0;
            SessionInv(t, key, c) && FileOf(t, PathOf(c)) == FileOf(s, PathOf(c))
  {
    ContinueKeepsSession(s, key, c, fd);
  }

  lemma StepKeepsSession(s: Server, key: int, c: Session, e: Step)
    requires SessionInv(s, key, c) && CanStep(s, key, c, e)
    ensures var (t, d) := Stepped(s, key, c, e);
            && SessionInv(t, key, d) && PathOf(d) == PathOf(c) && d.fid == c.fid && d.source == c.source
            && IsPrefix(FileOf(s, PathOf(c)), FileOf(t, PathOf(c)))
  {
    match e
    case ServerBlock(written) => BlockKeepsSession(s, key, c, written);
    case ServerContinue(fd) => ContinueKeepsSession(s, key, c, fd);
    case LateBlock(at, k, written) => LateBlockKeepsSession(s, key, c, at, k, written);
    case LateResume(fd) => LateResumeKeepsSession(s, key, c, fd);
    case _ =>
  }

  // ---------------------------------------------------------------- what a step leaves alone

  lemma BlockOnlyAt(s: Server, key: int, c: Session, content: Bytes, written: int)
    requires DescriptorsInv(s) && SessionInv(s, key, c) && -1 <= written <= |content|
    ensures var t := BlockReceived(s, key, c.fid, content, written).0;
            DescriptorsInv(t) && OnlyAt(s, t, key, {PathOf(c)}, {c.fid})
  {}

  lemma AtEndOnlyAt(s: Server, key: int)
    requires DescriptorsInv(s) && key in s.tasks
    ensures var t := AtEnd(s, key).0;
            DescriptorsInv(t) && OnlyAt(s, t, key, {}, {})
  {}

  lemma ReopenedOnlyAt(s: Server, key: int, uid: int, fid: int, dir: string, fd: int)
    requires DescriptorsInv(s) && key !in s.tasks && fd > 0 && FreshFd(s, fd) && fid in s.store.files
    ensures var t := Reopened(s, key, uid, fid, dir, fd);
            DescriptorsInv(t) && OnlyAt(s, t, key, {}, {})
  {}

  lemma ContinueOnlyAt(s: Server, key: int, c: Session, fd: int)
    requires DescriptorsInv(s) && FreshFd(s, fd)
    ensures var t := Continued(s, key, c.uid, c.fid, c.dir, fd).0;
            DescriptorsInv(t) && OnlyAt(s, t, key, {}, {})
  {
    if key in s.tasks {
      AtEndOnlyAt(s, key);
    } else if !CannotReopen(s, c.uid, c.fid, c.dir, fd) {
      var u := Reopened(s, key, c.uid, c.fid, c.dir, fd);
      ReopenedOnlyAt(s, key, c.uid, c.fid, c.dir, fd);
      AtEndOnlyAt(u, key);
      OnlyAtThen(s, u, AtEnd(u, key).0, key, {}, {});
    }
  }

  lemma StepOnlyAt(s: Server, key: int, c: Session, e: Step)
    requires DescriptorsInv(s) && SessionInv(s, key, c) && CanStep(s, key, c, e)
    ensures var t := Stepped(s, key, c, e).0;
            DescriptorsInv(t) && OnlyAt(s, t, key, {PathOf(c)}, {c.fid})
  {
    match e
    case ServerBlock(written) => BlockOnlyAt(s, key, c, BlockOf(c, c.phase.c, c.phase.k), written);
    case ServerContinue(fd) => ContinueOnlyAt(s, key, c, fd);
    case LateBlock(at, k, written) => BlockOnlyAt(s, key, c, BlockOf(c, at, k), written);
    case LateResume(fd) => ContinueOnlyAt(s, key, c, fd);
    case _ =>
  }

  /** The tables stay sound, and the row keeps path and size. */
  lemma BlockKeepsStore(s: Server, key: int, c: Session, content: Bytes, written: int)
    requires StorageInv(s.store) && SessionInv(s, key, c) && -1 <= written <= |content|
    ensures var t := BlockReceived(s, key, c.fid, content, written).0;
            StorageInv(t.store) && t.store.users == s.store.users
  {
    if key in s.tasks {
      CompleteKeepsInv(s.store, key);
    }
  }

  lemma StepKeepsStore(s: Server, key: int, c: Session, e: Step)
    requires StorageInv(s.store) && SessionInv(s, key, c) && CanStep(s, key, c, e)
    ensures var t := Stepped(s, key, c, e).0;
            && StorageInv(t.store) && t.store.users == s.store.users && c.fid in t.store.files
            && t.store.files[c.fid].path == s.store.files[c.fid].path && t.store.files[c.fid].size == s.store.files[c.fid].size
  {
    match e
    case ServerBlock(written) => BlockKeepsStore(s, key, c, BlockOf(c, c.phase.c, c.phase.k), written);
    case ServerContinue(fd) => ResumeKeepsInv(s.store, key, c.uid, c.fid, c.dir);
    case LateBlock(at, k, written) => BlockKeepsStore(s, key, c, BlockOf(c, at, k), written);
    case LateResume(fd) => ResumeKeepsInv(s.store, key, c.uid, c.fid, c.dir);
    case _ =>
  }

  // ---------------------------------------------------------------- the start of an upload

  /**
   The row that the upload will be recorded under, if it is an old one, is not of a smaller file. The
   handler inserts a row with the new size but uses the oldest row at the path, whose size a later
   resumption trusts.
   */
  predicate SizeKept(s: Store, rq: UploadRq) {
    var found := FirstId(s.files, 1, s.nextId, AtPathWith(DiskPath(rq.uid, rq.dir, rq.md5), rq.md5));
    found.Some? ==> s.files[found.value].size >= rq.size
  }

  function SessionOf(rq: UploadRq, source: Bytes, fid: int): Session {
    Session(rq.uid, rq.timestamp, fid, rq.dir, rq.md5, source, Synced(0))
  }

  /** An accepted upload is recorded under the oldest row at its path, old or new. */
  lemma RecordedUnder(s: Store, rq: UploadRq)
    requires StorageInv(s) && ValidUpload(rq) && Uploaded(s, rq, true).1.Accepted?
    ensures var t, fid := Uploaded(s, rq, true).0, Uploaded(s, rq, true).1.fid;
            fid in t.files && (t.files[fid].size < rq.size <==> !SizeKept(s, rq))
  {
    var t, fid := Uploaded(s, rq, true).0, Uploaded(s, rq, true).1.fid;
    var p := AtPathWith(DiskPath(rq.uid, rq.dir, rq.md5), rq.md5);
    var found := FirstId(s.files, 1, s.nextId, p);
    if found.Some? {
      assert p(t.files[found.value]);
      assert fid == found.value;
    } else {
      assert p(t.files[s.nextId]);
      assert fid == s.nextId;
    }
  }

  lemma FreshSession(s: Server, rq: UploadRq, source: Bytes, fd: int)
    requires StorageInv(s.store) && ValidUpload(rq) && rq.size == |source| && Started(s, rq, fd).1.Accepted?
    requires SizeKept(s.store, rq)
    ensures var (t, reply) := Started(s, rq, fd);
            SessionInv(t, TaskKey(rq.uid, rq.timestamp), SessionOf(rq, source, reply.fid))
  {
    AcceptedId(s.store, rq);
    RecordedUnder(s.store, rq);
  }

  /** A start touches its own key, its own path and a new row. */
  lemma StartOnlyAt(s: Server, rq: UploadRq, fd: int)
    requires DescriptorsInv(s) && StorageInv(s.store) && FreshFd(s, fd)
    ensures var (t, reply) := Started(s, rq, fd);
            && DescriptorsInv(t) && t.transfers == s.transfers
            && OnlyAt(s, t, TaskKey(rq.uid, rq.timestamp), {DiskPath(rq.uid, rq.dir, rq.md5)}, {s.store.nextId})
            && (!reply.Accepted? ==> t.bytes == s.bytes)
  {
    var (t, reply) := Started(s, rq, fd);
    forall k | k != TaskKey(rq.uid, rq.timestamp)
      ensures SameTransfer(s, t, k)
    {
      assert k in s.tasks ==> s.tasks[k].fd in s.fds || s.tasks[k].fd < 0;
    }
  }
}
