/**
 What the transfer handlers answer, request by request: said of tables, files and descriptors alone, whatever
 the tasks are for and whether or not a client is in step with them.
 */
module Answers {
  import opened Wrappers
  import opened Sequences
  import opened Tables
  import opened Transfer
  import opened Storage
  import opened TransferState
  import U = Upload
  import D = Download

  /** The i-th row of t_user_file is the first one of this user for this file in this directory. */
  ghost predicate IsFirstRow(users: seq<UserFile>, uid: int, fid: int, dir: string, i: nat) {
    && i < |users| && users[i].uid == uid && users[i].fid == fid && users[i].dir == dir
    && forall j :: 0 <= j < i ==> !(users[j].uid == uid && users[j].fid == fid && users[j].dir == dir)
  }

  /** user_file_info has a row of this user for this file in this directory. */
  ghost predicate HasRow(s: Store, uid: int, fid: int, dir: string) {
    fid in s.files && exists r :: r in s.users && r.uid == uid && r.fid == fid && r.dir == dir
  }

  lemma FirstBehind(users: seq<UserFile>, uid: int, fid: int, dir: string, k: nat)
    requires users != [] && !(users[0].uid == uid && users[0].fid == fid && users[0].dir == dir)
    requires IsFirstRow(users[1..], uid, fid, dir, k)
    ensures IsFirstRow(users, uid, fid, dir, k + 1)
  {
    forall j | 0 <= j < k + 1
      ensures !(users[j].uid == uid && users[j].fid == fid && users[j].dir == dir)
    {
      if j > 0 {
        assert users[j] == users[1..][j - 1];
      }
    }
  }

  lemma {:induction false} FirstMatch(users: seq<UserFile>, uid: int, fid: int, dir: string) returns (i: nat)
    requires exists r :: r in users && r.uid == uid && r.fid == fid && r.dir == dir
    ensures IsFirstRow(users, uid, fid, dir, i)
    ensures Filter(users, Matches(uid, fid, dir)) != [] && Filter(users, Matches(uid, fid, dir))[0] == users[i]
  {
    if Matches(uid, fid, dir)(users[0]) {
      i := 0;
    } else {
      var r :| r in users && r.uid == uid && r.fid == fid && r.dir == dir;
      assert r in users[1..];
      var k := FirstMatch(users[1..], uid, fid, dir);
      FirstBehind(users, uid, fid, dir, k);
      i := k + 1;
    }
  }

  lemma HitsIff(s: Store, uid: int, fid: int, dir: string)
    ensures Hits(s, uid, fid, dir) != [] <==> HasRow(s, uid, fid, dir)
  {
    var hits := Hits(s, uid, fid, dir);
    if hits != [] {
      assert hits[0] in hits;
    }
    if HasRow(s, uid, fid, dir) {
      var _ := FirstMatch(s.users, uid, fid, dir);
    }
  }

  // ---------------------------------------------------------------- uploads

  /**
   FileContentRq is answered if and only if there is a task with a descriptor on an existing file and write
   does not fail, whatever becomes of the task: with the length of the block, and with 1 exactly if it was
   written in full.
   */
  lemma BlockAnswer(s: Server, key: int, fileid: int, content: Bytes, written: int)
    requires -1 <= written <= |content|
    ensures var reply := U.BlockReceived(s, key, fileid, content, written).1;
            && (reply.Some? <==> key in s.tasks && s.tasks[key].fd in s.fds && s.fds[s.tasks[key].fd].path in s.bytes && written >= 0)
            && (reply.Some? ==> reply.value.len == |content| && (reply.value.result == 1 <==> written == |content|)
                                && (reply.value.result == 0 <==> written < |content|))
  {}

  /**
   What an answered block changes. What was written is in the file where the descriptor stood. The upload is
   complete if and only if the block was written in full and reaches the size: then the task is gone, its descriptor
   closed, the row finished and the name on the list. Otherwise a full block moves `pos` and offset on by its
   length, and a short one leaves both where they were.
   */
  lemma BlockEffect(s: Server, key: int, fileid: int, content: Bytes, written: int)
    requires 0 <= written <= |content| && key in s.tasks && s.tasks[key].fd in s.fds && s.fds[s.tasks[key].fd].path in s.bytes
    requires s.fds[s.tasks[key].fd].offset <= |s.bytes[s.fds[s.tasks[key].fd].path]|
    ensures var t := U.BlockReceived(s, key, fileid, content, written).0;
            var task, h := s.tasks[key], s.fds[s.tasks[key].fd];
            var full := written == |content|;
            var done := full && task.pos + written >= task.size;
            && t.bytes.Keys == s.bytes.Keys && (forall p :: p in s.bytes && p != h.path ==> t.bytes[p] == s.bytes[p])
            && |t.bytes[h.path]| >= h.offset + written && t.bytes[h.path][h.offset..h.offset + written] == content[..written]
            && (forall i :: 0 <= i < |s.bytes[h.path]| && !(h.offset <= i < h.offset + written) ==> t.bytes[h.path][i] == s.bytes[h.path][i])
            && (key !in t.tasks <==> done)
            && (done ==>
                  && task.fd !in t.fds && t.transfers == s.transfers + [h.path]
                  && (fileid in s.store.files ==> t.store.files == s.store.files[fileid := s.store.files[fileid].(state := 1)]))
            && (!done ==>
                  && t.store == s.store && t.transfers == s.transfers
                  && t.tasks == s.tasks[key := task.(pos := if full then task.pos + written else task.pos)]
                  && t.fds == s.fds[task.fd := Handle(h.path, if full then h.offset + written else h.offset)])
  {
    var h := s.fds[s.tasks[key].fd];
    var stored := WriteAt(s.bytes[h.path], h.offset, content[..written]);
    assert stored[h.offset..h.offset + written] == content[..written];
  }

  /**
   A resumption without a task is answered if and only if the user has the file in this directory, it is
   unfinished and can be opened: with the length of what is stored, where the new task then stands.
   */
  lemma ResumedFromRow(s: Server, key: int, uid: int, fid: int, dir: string, fd: int)
    requires key !in s.tasks && FreshFd(s, fd)
    ensures var (t, end) := U.Continued(s, key, uid, fid, dir, fd);
            && (end.Some? <==> HasRow(s.store, uid, fid, dir) && s.store.files[fid].state == 0 && fd > 0 && s.store.files[fid].path in s.bytes)
            && (end.None? ==> t == s)
            && (end.Some? ==>
                  var path, n := s.store.files[fid].path, |s.bytes[s.store.files[fid].path]|;
                  && end.value == n && t.bytes == s.bytes
                  && t.tasks == s.tasks[key := Task(path, s.store.files[fid].size, fid, fd, n)] && t.fds == s.fds[fd := Handle(path, n)])
  {
    HitsIff(s.store, uid, fid, dir);
  }

  /** With a task it is always answered: with the length of what is stored, or -1 if the descriptor does not work. */
  lemma ResumedFromTask(s: Server, key: int, uid: int, fid: int, dir: string, fd: int)
    requires key in s.tasks
    ensures var (t, end) := U.Continued(s, key, uid, fid, dir, fd);
            && end.Some? && t.store == s.store && t.bytes == s.bytes
            && t.tasks == s.tasks[key := s.tasks[key].(pos := end.value)]
            && var task := s.tasks[key];
               if task.fd in s.fds && s.fds[task.fd].path in s.bytes then
                 && end.value == |s.bytes[s.fds[task.fd].path]|
                 && t.fds == s.fds[task.fd := Handle(s.fds[task.fd].path, end.value)]
               else end.value == -1 && t.fds == s.fds
  {}

  // ---------------------------------------------------------------- downloads

  /** What read yields at an offset: as much as is asked for and there, or nothing. */
  function Readable(file: Bytes, offset: nat, limit: nat): nat {
    if offset >= |file| then 0 else if limit <= |file| - offset then limit else |file| - offset
  }

  /**
   DownloadFileRq is answered if and only if the user has the file in this directory and it opens, or had to
   be fetched and was. The header names the request, the first row found and the file's md5 value and size,
   and the new task stands at the beginning.
   */
  lemma RequestAnswer(s: Server, uid: int, timestamp: int, fid: int, dir: string, o: D.Opening)
    ensures var (t, header) := D.Requested(s, uid, timestamp, fid, dir, o);
            && (header.Some? <==> HasRow(s.store, uid, fid, dir) && !o.Refused? && (o.Opened? ==> o.fd > 0))
            && (header.None? ==> t == s)
            && (header.Some? ==>
                  var row := s.store.files[fid];
                  && header.value.FileHeader? && header.value.timestamp == timestamp && header.value.fileid == fid && header.value.dir == dir
                  && header.value.md5 == row.md5 && header.value.size == row.size
                  && (exists i: nat :: IsFirstRow(s.store.users, uid, fid, dir, i) && header.value.fileName == s.store.users[i].name)
                  && t.tasks == s.tasks[TaskKey(uid, timestamp) := Task(row.path, row.size, fid, o.fd, 0)]
                  && (o.fd >= 0 ==> t.fds == s.fds[o.fd := Handle(row.path, 0)]))
  {
    HitsIff(s.store, uid, fid, dir);
    if HasRow(s.store, uid, fid, dir) {
      var i := FirstMatch(s.store.users, uid, fid, dir);
      assert IsFirstRow(s.store.users, uid, fid, dir, i);
    }
  }

  /** A header that is answered gets the first bytes from where the descriptor stands, be they none, unless read fails. */
  lemma HeaderAnswer(s: Server, key: int, limit: int)
    ensures var (t, block) := D.HeaderAnswered(s, key, limit);
            && (block.Some? <==> key in s.tasks && s.tasks[key].fd in s.fds && s.fds[s.tasks[key].fd].path in s.bytes && limit >= 0)
            && (block.None? ==> t == s)
            && (block.Some? ==>
                  var h := s.fds[s.tasks[key].fd];
                  var n := Readable(s.bytes[h.path], h.offset, limit);
                  && block.value.len == n && (n > 0 ==> block.value.content == s.bytes[h.path][h.offset..h.offset + n])
                  && t.fds == s.fds[s.tasks[key].fd := Handle(h.path, h.offset + n)])
  {}

  /**
   An accepted block is answered with the bytes behind it, unless it was the last one, there are none, or read
   fails. A refused one is sent again, from as far back as the client says.
   */
  lemma ContentAnswer(s: Server, key: int, len: nat, ok: bool, limit: int)
    requires key in s.tasks && s.tasks[key].fd in s.fds && s.fds[s.tasks[key].fd].path in s.bytes
    requires s.fds[s.tasks[key].fd].offset >= len
    ensures var (t, block) := D.ContentAnswered(s, key, len, if ok then 1 else 0, limit);
            var task := s.tasks[key];
            var file, offset := s.bytes[s.fds[task.fd].path], s.fds[task.fd].offset;
            var from := if ok then offset else offset - len;
            var n := if limit < 0 then 0 else Readable(file, from, limit);
            && (ok && task.pos + len >= task.size ==> block.None? && key !in t.tasks && task.fd !in t.fds)
            && (!(ok && task.pos + len >= task.size) ==>
                  && (block.Some? <==> n > 0) && (n > 0 ==> block.value.len == n && block.value.content == file[from..from + n])
                  && key in t.tasks && t.tasks[key].pos == (if ok then task.pos + len else task.pos)
                  && task.fd in t.fds && t.fds[task.fd].offset == from + n)
  {}

  /**
   A resumption of a download with a task is always answered: with the bytes from the position on, or with the
   length -1 if the descriptor does not work or read fails.
   */
  lemma DownloadResumedFromTask(s: Server, key: int, uid: int, fid: int, dir: string, pos: nat, fd: int, limit: int)
    requires key in s.tasks
    ensures var (t, block) := D.Continued(s, key, uid, fid, dir, pos, fd, limit);
            && block.Some? && t.store == s.store && t.bytes == s.bytes && t.tasks == s.tasks[key := s.tasks[key].(pos := pos)]
            && var task := s.tasks[key];
               if task.fd in s.fds && s.fds[task.fd].path in s.bytes && limit >= 0 then
                 var path := s.fds[task.fd].path;
                 var n := Readable(s.bytes[path], pos, limit);
                 && block.value.len == n && block.value.content == (if n == 0 then [] else s.bytes[path][pos..pos + n])
                 && t.fds == s.fds[task.fd := Handle(path, pos + n)]
               else block.value.len == -1 && block.value.content == []
  {}

  /**
   Without a task it is answered if and only if the user has the file in this directory and it opens: with the
   bytes from the position on, or with the length -1 if the file is not there or read fails.
   */
  lemma DownloadResumedFromRow(s: Server, key: int, uid: int, fid: int, dir: string, pos: nat, fd: int, limit: int)
    requires key !in s.tasks && FreshFd(s, fd)
    ensures var (t, block) := D.Continued(s, key, uid, fid, dir, pos, fd, limit);
            && (block.Some? <==> HasRow(s.store, uid, fid, dir) && fd > 0)
            && (block.None? ==> t == s)
            && (block.Some? ==>
                  var row := s.store.files[fid];
                  && t.store == s.store && t.bytes == s.bytes && t.tasks == s.tasks[key := Task(row.path, row.size, fid, fd, pos)]
                  && if row.path in s.bytes && limit >= 0 then
                       var n := Readable(s.bytes[row.path], pos, limit);
                       && block.value.len == n && block.value.content == (if n == 0 then [] else s.bytes[row.path][pos..pos + n])
                       && t.fds == s.fds[fd := Handle(row.path, pos + n)]
                     else block.value.len == -1 && block.value.content == [])
  {
    HitsIff(s.store, uid, fid, dir);
    if !D.CannotReopen(s, uid, fid, dir, fd) {
      DownloadResumedFromTask(D.Reopened(s, key, fid, fd), key, uid, fid, dir, pos, fd, limit);
    }
  }
}
