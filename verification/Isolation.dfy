/** Transfers next to one another: handlers called for different users or timestamps share nothing. */
module Isolation {
  import opened Transfer
  import opened Storage
  import opened TransferState
  import U = Upload
  import D = Download

  /** A call of one of the handlers that take a task key, with what the kernel answers. */
  datatype Call =
    | HandleUpFile(rq: UploadRq, fd: int)
    | FileContent(userid: int, timestamp: int, fileid: int, content: Bytes, room: int)
    | ContinueUpload(userid: int, timestamp: int, fileid: int, dir: string, fd: int)
    | DownloadFile(userid: int, timestamp: int, fileid: int, dir: string, o: D.Opening)
    | FileHeader(userid: int, timestamp: int, limit: int)
    | FileContentAnswer(userid: int, timestamp: int, len: int, result: int, limit: int)
    | ContinueDownload(userid: int, timestamp: int, fileid: int, dir: string, pos: int, fd: int, limit: int)

  function UserOf(call: Call): int {
    if call.HandleUpFile? then call.rq.uid else call.userid
  }

  function TimestampOf(call: Call): int {
    if call.HandleUpFile? then call.rq.timestamp else call.timestamp
  }

  predicate Possible(s: Server, call: Call) {
    match call
    case HandleUpFile(_, fd) => FreshFd(s, fd)
    case FileContent(_, _, _, content, room) => -1 <= room <= |content|
    case ContinueUpload(_, _, _, _, fd) => FreshFd(s, fd)
    case DownloadFile(_, _, _, _, o) => o.Refused? || FreshFd(s, o.fd)
    case ContinueDownload(_, _, _, _, _, fd, _) => FreshFd(s, fd)
    case _ => true
  }

  function Called(s: Server, call: Call): Server
    requires Possible(s, call)
  {
    var key := TaskKey(UserOf(call), TimestampOf(call));
    match call
    case HandleUpFile(rq, fd) => U.Started(s, rq, fd).0
    case FileContent(_, _, fileid, content, room) => U.BlockReceived(s, key, fileid, content, room).0
    case ContinueUpload(userid, _, fileid, dir, fd) => U.Continued(s, key, userid, fileid, dir, fd).0
    case DownloadFile(userid, timestamp, fileid, dir, o) => D.Requested(s, userid, timestamp, fileid, dir, o).0
    case FileHeader(_, _, limit) => D.HeaderAnswered(s, key, limit).0
    case FileContentAnswer(_, _, len, result, limit) => D.ContentAnswered(s, key, len, result, limit).0
    case ContinueDownload(userid, _, fileid, dir, pos, fd, limit) => D.Continued(s, key, userid, fileid, dir, pos, fd, limit).0
  }

  lemma BlockIsolated(s: Server, key: int, fileid: int, content: Bytes, room: int, k: int)
    requires DescriptorsInv(s) && k != key && -1 <= room <= |content|
    ensures SameTransfer(s, U.BlockReceived(s, key, fileid, content, room).0, k)
  {}

  lemma ContinueUploadIsolated(s: Server, key: int, uid: int, fid: int, dir: string, fd: int, k: int)
    requires DescriptorsInv(s) && k != key && FreshFd(s, fd)
    ensures SameTransfer(s, U.Continued(s, key, uid, fid, dir, fd).0, k)
  {
    if key in s.tasks {
      U.AtEndOnlyAt(s, key);
    } else if !U.CannotReopen(s, uid, fid, dir, fd) {
      var u := U.Reopened(s, key, uid, fid, dir, fd);
      U.ReopenedOnlyAt(s, key, uid, fid, dir, fd);
      U.AtEndOnlyAt(u, key);
      OnlyAtThen(s, u, U.AtEnd(u, key).0, key, {}, {});
    }
  }

  lemma StartIsolated(s: Server, rq: UploadRq, fd: int, k: int)
    requires DescriptorsInv(s) && FreshFd(s, fd) && k != TaskKey(rq.uid, rq.timestamp)
    ensures SameTransfer(s, U.Started(s, rq, fd).0, k)
  {}

  /**
   A handler that is called for one user and timestamp leaves the task and the descriptor of every
   other user and timestamp as they are.
   */
  lemma HandlersIsolated(s: Server, call: Call, userid: int, timestamp: int)
    requires DescriptorsInv(s) && Possible(s, call)
    requires IsInt32(timestamp) && IsInt32(TimestampOf(call)) && (userid, timestamp) != (UserOf(call), TimestampOf(call))
    ensures SameTransfer(s, Called(s, call), TaskKey(userid, timestamp))
  {
    var key, k := TaskKey(UserOf(call), TimestampOf(call)), TaskKey(userid, timestamp);
    if key == k {
      KeyInjective(UserOf(call), TimestampOf(call), userid, timestamp);
      assert false;
    }
    match call
    case HandleUpFile(rq, fd) => StartIsolated(s, rq, fd, k);
    case FileContent(_, _, fileid, content, room) => BlockIsolated(s, key, fileid, content, room, k);
    case ContinueUpload(uid, _, fileid, dir, fd) => ContinueUploadIsolated(s, key, uid, fileid, dir, fd, k);
    case DownloadFile(uid, ts, fileid, dir, o) => D.RequestOnlyAt(s, uid, ts, fileid, dir, o);
    case FileHeader(_, _, limit) => D.HeaderOnlyAt(s, key, limit);
    case FileContentAnswer(_, _, len, result, limit) => D.AnswerOnlyAt(s, key, len, result, limit);
    case ContinueDownload(uid, _, fileid, dir, pos, fd, limit) => D.ContinueOnlyAt(s, key, uid, fileid, dir, pos, fd, limit);
  }
}
