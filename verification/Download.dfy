/**
 Resumable download: DownloadFileRq, FileHeaderRs, FileContentRs and ContinueDownloadRq on the server,
 the clients that take or refuse blocks, and everything that can go wrong between them.
 */
module Download {
  import opened Wrappers
  import opened Tables
  import opened Transfer
  import opened TransferState
  import FD = FolderDownload

  /** What a content packet carries: `len` is what read returned. */
  datatype Block = Block(len: int, content: Bytes)

  /**
   How DownloadFileRq comes by its descriptor. When open fails it has the distributed store deliver the
   file, which ends up under its bare md5 name in the working directory, and opens the path again.
   */
  datatype Opening = Opened(fd: int) | Refused | Fetched(fd: int)

  // ---------------------------------------------------------------- the handlers

  /** No such row, or no way to open the file. */
  predicate CannotOpen(s: Server, uid: int, fid: int, dir: string, o: Opening) {
    Hits(s.store, uid, fid, dir) == [] || o.Refused? || (o.Opened? && o.fd <= 0)
  }

  /** DownloadFileRq; a descriptor that is opened again after a fetch is not checked. */
  function Requested(s: Server, uid: int, timestamp: int, fid: int, dir: string, o: Opening): (Server, Option<FD.Header>) {
    if CannotOpen(s, uid, fid, dir, o) then (s, None)
    else
      var row := s.store.files[fid];
      (s.(fds := if o.fd >= 0 then s.fds[o.fd := Handle(row.path, 0)] else s.fds,
          tasks := s.tasks[TaskKey(uid, timestamp) := Task(row.path, row.size, fid, o.fd, 0)]),
       Some(FD.FileHeader(timestamp, fid, dir, Hits(s.store, uid, fid, dir)[0].name, row.md5, row.size)))
  }

  /** read(fd, .., _DEF_BUFFER) of a task; `limit` bounds what it yields, and is -1 for an error. */
  function ReadBlock(s: Server, key: int, limit: int): (Server, Block)
    requires key in s.tasks
  {
    var fd := s.tasks[key].fd;
    if !Live(s, key) then (s, Block(-1, []))
    else
      var h := s.fds[fd];
      var n := ReadLen(s.bytes[h.path], h.offset, limit);
      if n <= 0 then (s, Block(n, []))
      else (s.(fds := s.fds[fd := Handle(h.path, h.offset + n)]), Block(n, s.bytes[h.path][h.offset..h.offset + n]))
  }

  /** FileHeaderRs: the first block, which may be empty. */
  function HeaderAnswered(s: Server, key: int, limit: int): (Server, Option<Block>) {
    if key !in s.tasks then (s, None)
    else
      var (t, block) := ReadBlock(s, key, limit);
      (t, if block.len < 0 then None else Some(block))
  }

  /** FileContentRs up to the read: the task moves on, moves back, or is erased. */
  function Acknowledged(s: Server, key: int, len: int, result: int): Server
    requires key in s.tasks
  {
    var task := s.tasks[key];
    if result != 1 then s.(fds := Moved(s.fds, task.fd, -len))
    else if task.pos + len >= task.size then s.(fds := s.fds - {task.fd}, tasks := s.tasks - {key})
    else s.(tasks := s.tasks[key := task.(pos := task.pos + len)])
  }

  /** FileContentRs */
  function ContentAnswered(s: Server, key: int, len: int, result: int, limit: int): (Server, Option<Block>) {
    if key !in s.tasks then (s, None)
    else
      var t := Acknowledged(s, key, len, result);
      if key !in t.tasks then (t, None)
      else
        var (u, block) := ReadBlock(t, key, limit);
        (u, if block.len <= 0 then None else Some(block))
  }

  /** The end of ContinueDownloadRq, which sends whatever read returned. */
  function SentFrom(s: Server, key: int, pos: int, limit: int): (Server, Option<Block>)
    requires key in s.tasks
  {
    var task := s.tasks[key];
    var (t, block) := ReadBlock(s.(fds := Placed(s.fds, task.fd, pos), tasks := s.tasks[key := task.(pos := pos)]), key, limit);
    (t, Some(block))
  }

  /** ContinueDownloadRq; `fd` is what open returns if the task has to be made again. */
  function Continued(s: Server, key: int, uid: int, fid: int, dir: string, pos: int, fd: int, limit: int): (Server, Option<Block>) {
    if key in s.tasks then SentFrom(s, key, pos, limit)
    else if CannotReopen(s, uid, fid, dir, fd) then (s, None)
    else SentFrom(Reopened(s, key, fid, fd), key, pos, limit)
  }

  /** No such row, or no file to open. */
  predicate CannotReopen(s: Server, uid: int, fid: int, dir: string, fd: int) {
    Hits(s.store, uid, fid, dir) == [] || fd <= 0
  }

  /** The task made again from the row. */
  function Reopened(s: Server, key: int, fid: int, fd: int): Server
    requires fid in s.store.files
  {
    var row := s.store.files[fid];
    s.(fds := s.fds[fd := Handle(row.path, 0)], tasks := s.tasks[key := Task(row.path, row.size, fid, fd, 0)])
  }

  // ---------------------------------------------------------------- the clients

  datatype Phase =
    | Headed                            // the header, or the answer to it, is on its way
    | Carried(block: Block)             // a block is on its way to the client
    | Answered(len: nat, ok: bool)      // the answer to it is on its way back
    | Lost                              // nothing will come any more: the client must ask
    | Asking                            // ContinueDownloadRq is on its way

  /** `size` is what the header says. */
  datatype Session = Session(uid: int, fid: int, dir: string, path: string, size: int, accepted: Bytes, phase: Phase)

  /** The client waits for nothing, and goes on only after it has asked for what it has not got. */
  predicate MustAsk(phase: Phase) {
    phase.Lost? || phase.Asking?
  }

  /** `pos` and the offset of the descriptor, as far as what is in flight determines them. */
  predicate Stands(c: Session, pos: int, offset: int) {
    match c.phase
    case Headed => pos == offset == |c.accepted| == 0
    case Carried(block) => pos == |c.accepted| && offset == pos + |block.content|
    case Answered(len, true) => pos + len == offset == |c.accepted|
    case Answered(len, false) => pos == |c.accepted| && offset == pos + len
    case _ => true
  }

  // ---------------------------------------------------------------- late requests

  /** The descriptor of the task is one that lseek moves. */
  predicate Seekable(s: Server, key: int) {
    key in s.tasks && s.tasks[key].fd in s.fds
  }

  /** A resume request finds a task, or makes one. */
  predicate Resumes(s: Server, key: int, c: Session, fd: int) {
    if key in s.tasks then Seekable(s, key) else !CannotReopen(s, c.uid, c.fid, c.dir, fd)
  }

  /** How far a read moves the offset. */
  function Got(file: Bytes, offset: nat, limit: int): nat {
    var n := ReadLen(file, offset, limit);
    if n <= 0 then 0 else n
  }

  /** The header answered once more: no harm if nothing is read, or if the client must ask again anyway. */
  predicate HeaderIsHarmless(s: Server, key: int, c: Session, limit: int) {
    || MustAsk(c.phase) || !Seekable(s, key)
    || Got(FileOf(s, c.path), s.fds[s.tasks[key].fd].offset, limit) == 0
  }

  /**
   An answer that was given up. A positive one does no harm if it erases the task or neither moves `pos` nor
   reads anything, a negative one if the block that it takes back is read again in full.
   */
  predicate AnswerIsHarmless(s: Server, key: int, c: Session, len: nat, ok: bool, limit: int) {
    || MustAsk(c.phase) || !Seekable(s, key)
    || var pos, offset := s.tasks[key].pos, s.fds[s.tasks[key].fd].offset;
       if ok then pos + len >= s.tasks[key].size || (len == 0 && Got(FileOf(s, c.path), offset, limit) == 0)
       else
         var back := if offset < len then offset else offset - len;
         back + Got(FileOf(s, c.path), back, limit) == offset
  }

  /**
   A resume request that was given up: no harm if the client must ask again anyway, if nothing is resumed,
   or if it leaves the task where the client takes it to be.
   */
  predicate AskIsHarmless(s: Server, key: int, c: Session, at: nat, fd: int, limit: int) {
    || MustAsk(c.phase)
    || !Resumes(s, key, c, fd)
    || Stands(c, at, at + Got(FileOf(s, c.path), at, limit))
  }

  // ---------------------------------------------------------------- the steps

  /** What the client and the server do for one download. */
  datatype Step =
    | ServerHeader(limit: int)
    | TakeBlock(ok: bool)
    | ServerAnswer(limit: int)
    | Lose
    | Ask
    | ServerContinue(fd: int, limit: int)
    | LateHeader(limit: int)
    | LateAnswer(len: nat, ok: bool, limit: int)
    | LateAsk(at: nat, fd: int, limit: int)

  predicate CanStep(s: Server, key: int, c: Session, e: Step) {
    match e
    case ServerHeader(limit) => c.phase.Headed? && limit <= DEF_BUFFER
    case TakeBlock(_) => c.phase.Carried? && c.phase.block.len >= 0
    case ServerAnswer(limit) => c.phase.Answered? && limit <= DEF_BUFFER
    case ServerContinue(fd, limit) => c.phase.Asking? && FreshFd(s, fd) && limit <= DEF_BUFFER
    case LateHeader(limit) => HeaderIsHarmless(s, key, c, limit)
    case LateAnswer(len, ok, limit) => AnswerIsHarmless(s, key, c, len, ok, limit)
    case LateAsk(at, fd, limit) => FreshFd(s, fd) && AskIsHarmless(s, key, c, at, fd, limit)
    case _ => true
  }

  function After(block: Option<Block>): Phase {
    if block.Some? then Carried(block.value) else Lost
  }

  function Result(ok: bool): int {
    if ok then 1 else 0
  }

  function Stepped(s: Server, key: int, c: Session, e: Step): (Server, Session)
    requires CanStep(s, key, c, e)
  {
    match e
    case ServerHeader(limit) =>
      var (t, block) := HeaderAnswered(s, key, limit);
      (t, c.(phase := After(block)))
    case TakeBlock(ok) =>
      // the client keeps a block that it can write, and answers in either case
      (s, c.(accepted := if ok then c.accepted + c.phase.block.content else c.accepted, phase := Answered(c.phase.block.len, ok)))
    case ServerAnswer(limit) =>
      var (t, block) := ContentAnswered(s, key, c.phase.len, Result(c.phase.ok), limit);
      (t, c.(phase := After(block)))
    case Lose => (s, c.(phase := Lost))
    case Ask => (s, c.(phase := Asking))
    case ServerContinue(fd, limit) =>
      var (t, block) := Continued(s, key, c.uid, c.fid, c.dir, |c.accepted|, fd, limit);
      (t, c.(phase := After(block)))
    case LateHeader(limit) => (HeaderAnswered(s, key, limit).0, c)
    case LateAnswer(len, ok, limit) => (ContentAnswered(s, key, len, Result(ok), limit).0, c)
    case LateAsk(at, fd, limit) => (Continued(s, key, c.uid, c.fid, c.dir, at, fd, limit).0, c)
  }

  function SessionOf(s: Server, uid: int, timestamp: int, fid: int, dir: string, header: FD.Header): Session
    requires TaskKey(uid, timestamp) in s.tasks && header.FileHeader?
  {
    Session(uid, fid, dir, s.tasks[TaskKey(uid, timestamp)].path, header.size, [], Headed)
  }

  // ---------------------------------------------------------------- what holds of one download

  ghost predicate TaskInv(s: Server, c: Session, task: Task) {
    && task.size == c.size
    && (task.fd in s.fds ==> s.fds[task.fd].path == c.path && Stands(c, task.pos, s.fds[task.fd].offset))
  }

  /** A block in flight continues what the client has. */
  ghost predicate BlockInv(file: Bytes, c: Session, block: Block) {
    if block.len < 0 then block.content == []
    else |c.accepted| + block.len <= |file| && block.content == file[|c.accepted|..|c.accepted| + block.len]
  }

  ghost predicate SessionInv(s: Server, key: int, c: Session) {
    && c.fid in s.store.files && s.store.files[c.fid].path == c.path && s.store.files[c.fid].size == c.size
    && IsPrefix(c.accepted, FileOf(s, c.path)) && (c.phase.Headed? ==> c.accepted == [])
    && (c.phase.Carried? ==> BlockInv(FileOf(s, c.path), c, c.phase.block))
    && (key in s.tasks ==> TaskInv(s, c, s.tasks[key]))
  }

  /** The file may grow, but the row, the task and the descriptor of this download stay as they are. */
  ghost predicate Undisturbed(s: Server, t: Server, key: int, c: Session) {
    && c.fid in s.store.files && c.fid in t.store.files
    && t.store.files[c.fid].path == s.store.files[c.fid].path && t.store.files[c.fid].size == s.store.files[c.fid].size
    && IsPrefix(FileOf(s, c.path), FileOf(t, c.path))
    && SameTransfer(s, t, key)
  }

  lemma Untouched(s: Server, t: Server, key: int, c: Session)
    requires SessionInv(s, key, c) && Undisturbed(s, t, key, c)
    ensures SessionInv(t, key, c)
  {
    var file, more := FileOf(s, c.path), FileOf(t, c.path);
    SliceOfPrefix(file, more, 0, |c.accepted|);
    if c.phase.Carried? && c.phase.block.len >= 0 {
      SliceOfPrefix(file, more, |c.accepted|, |c.accepted| + c.phase.block.len);
    }
  }

  // ---------------------------------------------------------------- one step

  /** A read that follows what the client has sends the next bytes of the file. */
  lemma ReadKeepsSession(s: Server, key: int, c: Session, limit: int)
    requires SessionInv(s, key, c.(phase := Lost)) && key in s.tasks
    requires s.tasks[key].pos == |c.accepted|
    requires s.tasks[key].fd in s.fds ==> s.fds[s.tasks[key].fd].offset == |c.accepted|
    ensures var (t, block) := ReadBlock(s, key, limit);
            SessionInv(t, key, c.(phase := Carried(block))) && SessionInv(t, key, c.(phase := Lost))
  {}

  lemma HeaderKeepsSession(s: Server, key: int, c: Session, limit: int)
    requires SessionInv(s, key, c) && c.phase.Headed?
    ensures var (t, block) := HeaderAnswered(s, key, limit);
            SessionInv(t, key, c.(phase := After(block)))
  {
    if key in s.tasks && s.tasks[key].fd in s.fds {
      ReadKeepsSession(s, key, c, limit);
    }
  }

  lemma AnswerKeepsSession(s: Server, key: int, c: Session, limit: int)
    requires SessionInv(s, key, c) && c.phase.Answered?
    ensures var (t, block) := ContentAnswered(s, key, c.phase.len, Result(c.phase.ok), limit);
            SessionInv(t, key, c.(phase := After(block)))
  {
    if key in s.tasks {
      var t := Acknowledged(s, key, c.phase.len, Result(c.phase.ok));
      assert SessionInv(t, key, c.(phase := Lost));
      if key in t.tasks && Live(s, key) {
        ReadKeepsSession(t, key, c, limit);
      }
    }
  }

  lemma SentKeepsSession(s: Server, key: int, c: Session, limit: int)
    requires SessionInv(s, key, c.(phase := Lost)) && key in s.tasks
    ensures var (t, block) := SentFrom(s, key, |c.accepted|, limit);
            SessionInv(t, key, c.(phase := After(block)))
  {
    var task := s.tasks[key];
    var u := s.(fds := Placed(s.fds, task.fd, |c.accepted|), tasks := s.tasks[key := task.(pos := |c.accepted|)]);
    ReadKeepsSession(u, key, c, limit);
  }

  lemma ContinueKeepsSession(s: Server, key: int, c: Session, fd: int, limit: int)
    requires SessionInv(s, key, c)
    ensures var (t, block) := Continued(s, key, c.uid, c.fid, c.dir, |c.accepted|, fd, limit);
            SessionInv(t, key, c.(phase := After(block)))
  {
    if key in s.tasks {
      SentKeepsSession(s, key, c, limit);
    } else if !CannotReopen(s, c.uid, c.fid, c.dir, fd) {
      SentKeepsSession(Reopened(s, key, c.fid, fd), key, c, limit);
    }
  }

  lemma TakeKeepsSession(s: Server, key: int, c: Session, ok: bool)
    requires SessionInv(s, key, c) && c.phase.Carried? && c.phase.block.len >= 0
    ensures SessionInv(s, key, Stepped(s, key, c, TakeBlock(ok)).1)
  {
    var file, at, len := FileOf(s, c.path), |c.accepted|, c.phase.block.len;
    assert file[..at] + file[at..at + len] == file[..at + len];
  }

  /** The task stands there, on a descriptor of its own. */
  ghost predicate StandsAt(t: Server, key: int, c: Session, pos: int, offset: int) {
    && key in t.tasks && t.tasks[key].size == c.size && t.tasks[key].pos == pos
    && t.tasks[key].fd in t.fds && t.fds[t.tasks[key].fd].path == c.path && t.fds[t.tasks[key].fd].offset == offset
  }

  /** What a header answer does to the task, whoever sends it. */
  lemma HeaderMoves(s: Server, key: int, c: Session, limit: int)
    requires SessionInv(s, key, c) && Seekable(s, key)
    ensures var t := HeaderAnswered(s, key, limit).0;
            var offset := s.fds[s.tasks[key].fd].offset;
            && t.store == s.store && t.bytes == s.bytes
            && StandsAt(t, key, c, s.tasks[key].pos, offset + Got(FileOf(s, c.path), offset, limit))
  {}

  lemma LateHeaderKeepsSession(s: Server, key: int, c: Session, limit: int)
    requires SessionInv(s, key, c) && HeaderIsHarmless(s, key, c, limit)
    ensures SessionInv(HeaderAnswered(s, key, limit).0, key, c)
  {}

  /** What an answer does to the task, whoever sends it. */
  lemma AnswerMoves(s: Server, key: int, c: Session, len: nat, ok: bool, limit: int)
    requires SessionInv(s, key, c) && Seekable(s, key)
    ensures var t := ContentAnswered(s, key, len, Result(ok), limit).0;
            var pos, offset := s.tasks[key].pos, s.fds[s.tasks[key].fd].offset;
            var back := if ok || offset < len then offset else offset - len;
            && t.store == s.store && t.bytes == s.bytes
            && if ok && pos + len >= c.size then key !in t.tasks
               else StandsAt(t, key, c, if ok then pos + len else pos, back + Got(FileOf(s, c.path), back, limit))
  {}

  lemma LateAnswerKeepsSession(s: Server, key: int, c: Session, len: nat, ok: bool, limit: int)
    requires SessionInv(s, key, c) && AnswerIsHarmless(s, key, c, len, ok, limit)
    ensures SessionInv(ContentAnswered(s, key, len, Result(ok), limit).0, key, c)
  {
    if Seekable(s, key) {
      AnswerMoves(s, key, c, len, ok, limit);
    }
  }

  /** What a resume request does to the task, whoever sends it. */
  lemma AskMoves(s: Server, key: int, c: Session, at: nat, fd: int, limit: int)
    requires SessionInv(s, key, c) && FreshFd(s, fd) && Resumes(s, key, c, fd)
    ensures var t := Continued(s, key, c.uid, c.fid, c.dir, at, fd, limit).0;
            t.store == s.store && t.bytes == s.bytes && StandsAt(t, key, c, at, at + Got(FileOf(s, c.path), at, limit))
  {}

  lemma LateAskKeepsSession(s: Server, key: int, c: Session, at: nat, fd: int, limit: int)
    requires SessionInv(s, key, c) && FreshFd(s, fd) && AskIsHarmless(s, key, c, at, fd, limit)
    ensures SessionInv(Continued(s, key, c.uid, c.fid, c.dir, at, fd, limit).0, key, c)
  {
    if Resumes(s, key, c, fd) {
      AskMoves(s, key, c, at, fd, limit);
    }
  }

  lemma StepKeepsSession(s: Server, key: int, c: Session, e: Step)
    requires SessionInv(s, key, c) && CanStep(s, key, c, e)
    ensures var (t, d) := Stepped(s, key, c, e);
            SessionInv(t, key, d) && d.path == c.path && d.fid == c.fid && d.size == c.size
  {
    match e
    case ServerHeader(limit) => HeaderKeepsSession(s, key, c, limit);
    case TakeBlock(ok) => TakeKeepsSession(s, key, c, ok);
    case ServerAnswer(limit) => AnswerKeepsSession(s, key, c, limit);
    case ServerContinue(fd, limit) => ContinueKeepsSession(s, key, c, fd, limit);
    case LateHeader(limit) => LateHeaderKeepsSession(s, key, c, limit);
    case LateAnswer(len, ok, limit) => LateAnswerKeepsSession(s, key, c, len, ok, limit);
    case LateAsk(at, fd, limit) => LateAskKeepsSession(s, key, c, at, fd, limit);
    case _ =>
  }

  // ---------------------------------------------------------------- what a step leaves alone

  /** Tables, files and transfer list stay, and so do the other transfers. */
  ghost predicate Quiet(s: Server, t: Server, key: int) {
    && DescriptorsInv(t) && OnlyAt(s, t, key, {}, {})
    && t.store == s.store && t.bytes == s.bytes && t.transfers == s.transfers
  }

  lemma ReadOnlyAt(s: Server, key: int, limit: int)
    requires DescriptorsInv(s) && key in s.tasks
    ensures var t := ReadBlock(s, key, limit).0;
            Quiet(s, t, key)
  {}

  lemma HeaderOnlyAt(s: Server, key: int, limit: int)
    requires DescriptorsInv(s)
    ensures var t := HeaderAnswered(s, key, limit).0;
            Quiet(s, t, key)
  {
    if key in s.tasks {
      ReadOnlyAt(s, key, limit);
    }
  }

  lemma AckOnlyAt(s: Server, key: int, len: int, result: int)
    requires DescriptorsInv(s) && key in s.tasks
    ensures var t := Acknowledged(s, key, len, result);
            Quiet(s, t, key)
  {}

  lemma AnswerOnlyAt(s: Server, key: int, len: int, result: int, limit: int)
    requires DescriptorsInv(s)
    ensures var t := ContentAnswered(s, key, len, result, limit).0;
            Quiet(s, t, key)
  {
    if key in s.tasks {
      AckOnlyAt(s, key, len, result);
      var t := Acknowledged(s, key, len, result);
      if key in t.tasks {
        ReadOnlyAt(t, key, limit);
        OnlyAtThen(s, t, ReadBlock(t, key, limit).0, key, {}, {});
      }
    }
  }

  lemma PlacedOnlyAt(s: Server, key: int, pos: int)
    requires DescriptorsInv(s) && key in s.tasks
    ensures var task := s.tasks[key];
            var t := s.(fds := Placed(s.fds, task.fd, pos), tasks := s.tasks[key := task.(pos := pos)]);
            Quiet(s, t, key)
  {}

  lemma SendOnlyAt(s: Server, key: int, pos: int, limit: int)
    requires DescriptorsInv(s) && key in s.tasks
    ensures var t := SentFrom(s, key, pos, limit).0;
            Quiet(s, t, key)
  {
    var task := s.tasks[key];
    var t := s.(fds := Placed(s.fds, task.fd, pos), tasks := s.tasks[key := task.(pos := pos)]);
    PlacedOnlyAt(s, key, pos);
    ReadOnlyAt(t, key, limit);
    OnlyAtThen(s, t, ReadBlock(t, key, limit).0, key, {}, {});
  }

  lemma ReopenedOnlyAt(s: Server, key: int, fid: int, fd: int)
    requires DescriptorsInv(s) && key !in s.tasks && fd > 0 && FreshFd(s, fd) && fid in s.store.files
    ensures var t := Reopened(s, key, fid, fd);
            Quiet(s, t, key)
  {}

  lemma ContinueOnlyAt(s: Server, key: int, uid: int, fid: int, dir: string, pos: int, fd: int, limit: int)
    requires DescriptorsInv(s) && FreshFd(s, fd)
    ensures var t := Continued(s, key, uid, fid, dir, pos, fd, limit).0;
            Quiet(s, t, key)
  {
    if key in s.tasks {
      SendOnlyAt(s, key, pos, limit);
    } else if !CannotReopen(s, uid, fid, dir, fd) {
      var u := Reopened(s, key, fid, fd);
      ReopenedOnlyAt(s, key, fid, fd);
      SendOnlyAt(u, key, pos, limit);
      OnlyAtThen(s, u, SentFrom(u, key, pos, limit).0, key, {}, {});
    }
  }

  lemma RequestOnlyAt(s: Server, uid: int, timestamp: int, fid: int, dir: string, o: Opening)
    requires DescriptorsInv(s) && (o.Refused? || FreshFd(s, o.fd))
    ensures var t := Requested(s, uid, timestamp, fid, dir, o).0;
            Quiet(s, t, TaskKey(uid, timestamp))
  {
    var t := Requested(s, uid, timestamp, fid, dir, o).0;
    forall k | k != TaskKey(uid, timestamp)
      ensures SameTransfer(s, t, k)
    {
      assert k in s.tasks ==> s.tasks[k].fd in s.fds || s.tasks[k].fd < 0;
    }
  }

  /** No step of a download touches tables, files or the transfer list. */
  lemma StepOnlyAt(s: Server, key: int, c: Session, e: Step)
    requires DescriptorsInv(s) && CanStep(s, key, c, e)
    ensures var t := Stepped(s, key, c, e).0;
            Quiet(s, t, key)
  {
    match e
    case ServerHeader(limit) => HeaderOnlyAt(s, key, limit);
    case ServerAnswer(limit) => AnswerOnlyAt(s, key, c.phase.len, Result(c.phase.ok), limit);
    case ServerContinue(fd, limit) => ContinueOnlyAt(s, key, c.uid, c.fid, c.dir, |c.accepted|, fd, limit);
    case LateHeader(limit) => HeaderOnlyAt(s, key, limit);
    case LateAnswer(len, ok, limit) => AnswerOnlyAt(s, key, len, Result(ok), limit);
    case LateAsk(at, fd, limit) => ContinueOnlyAt(s, key, c.uid, c.fid, c.dir, at, fd, limit);
    case _ =>
  }

  // ---------------------------------------------------------------- a file that is not there

  /**
   A file that had to be fetched from the distributed store is announced in any case. A block of it is sent
   if and only if the second open succeeded, on a path that exists; the fetch does not see to that, as it
   writes to the working directory.
   */
  lemma FetchedIsSentIff(s: Server, uid: int, timestamp: int, fid: int, dir: string, fd: int, limit: nat)
    requires Hits(s.store, uid, fid, dir) != [] && DescriptorsInv(s) && FreshFd(s, fd)
    ensures var (t, header) := Requested(s, uid, timestamp, fid, dir, Fetched(fd));
            && header.Some?
            && (HeaderAnswered(t, TaskKey(uid, timestamp), limit).1.Some? <==> fd >= 0 && s.store.files[fid].path in s.bytes)
  {}

  /** The task has no descriptor that works. */
  predicate Unreadable(s: Server, key: int) {
    key in s.tasks && !Live(s, key)
  }

  /**
   Such a task sends no byte in answer to anything, and it stays like that until it is erased: resuming does
   not open the file again as long as there is a task.
   */
  lemma UnreadableSendsNothing(s: Server, key: int, c: Session, e: Step)
    requires Unreadable(s, key) && CanStep(s, key, c, e)
    requires c.phase.Carried? ==> c.phase.block.content == []
    ensures var (t, d) := Stepped(s, key, c, e);
            && (key in t.tasks ==> Unreadable(t, key))
            && d.accepted == c.accepted && (d.phase.Carried? ==> d.phase.block.content == [])
  {}
}
