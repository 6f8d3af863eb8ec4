/** The upload and download handlers of CLogic as they change the task map, the kernel and the tables. */
module TransferHandlers {
  import opened Wrappers
  import opened Tables
  import opened LockedMap
  import opened Transfer
  import opened TransferList
  import opened Storage
  import opened TransferState
  import U = Upload
  import D = Download
  import FD = FolderDownload

  class FileInfo {
    var absolutePath: string
    var size: int
    var fid: int
    var filefd: int
    var pos: int

    constructor ()
      ensures AsTask() == Task("", 0, 0, 0, 0)
    {
      absolutePath, size, fid, filefd, pos := "", 0, 0, 0, 0;
    }

    function AsTask(): Task
      reads this
    {
      Task(absolutePath, size, fid, filefd, pos)
    }
  }

  class CLogic {
    const m_sql: NetDisk
    const kernel: Kernel
    const m_UidTimeToFileinfo: MyMap<int, FileInfo?>
    var transferList: string

    ghost var infos: set<FileInfo>
    ghost var tasks: map<int, Task>
    ghost var transfers: seq<string>

    constructor (m_sql: NetDisk, kernel: Kernel)
      ensures Valid() && this.m_sql == m_sql && this.kernel == kernel
      ensures Abs() == Server(m_sql.Abs(), kernel.bytes, kernel.fds, map[], [])
    {
      this.m_sql, this.kernel := m_sql, kernel;
      m_UidTimeToFileinfo := new MyMap();
      transferList := "";
      infos, tasks, transfers := {}, map[], [];
    }

    /** `tasks` is what the map holds, one FileInfo for each, and `transfers` what the list file says. */
    ghost predicate Valid()
      reads this, m_UidTimeToFileinfo, infos
    {
      var m := m_UidTimeToFileinfo.m_map;
      && m.Keys == tasks.Keys
      && (forall k :: k in m ==> m[k] in infos && m[k].AsTask() == tasks[k])
      && (forall k, l :: k in m && l in m && k != l ==> m[k] != m[l])
      && transferList == Printed(transfers)
    }

    ghost function Abs(): Server
      reads this, m_sql, kernel
    {
      Server(m_sql.Abs(), kernel.bytes, kernel.fds, tasks, transfers)
    }

    // -------------------------------------------------------------- the task map

    /** m_UidTimeToFileinfo.insert */
    method AddTask(user_time: int, info: FileInfo)
      requires Valid() && info !in infos
      modifies m_UidTimeToFileinfo, this`infos, this`tasks
      ensures Valid() && infos == old(infos) + {info}
      ensures user_time in m_UidTimeToFileinfo.m_map && m_UidTimeToFileinfo.m_map[user_time] == info
      ensures tasks == old(tasks)[user_time := info.AsTask()]
    {
      m_UidTimeToFileinfo.Insert(user_time, info);
      infos := infos + {info};
      tasks := tasks[user_time := info.AsTask()];
    }

    /** m_UidTimeToFileinfo.erase */
    method DropTask(user_time: int)
      requires Valid()
      modifies m_UidTimeToFileinfo, this`tasks
      ensures Valid() && tasks == old(tasks) - {user_time}
    {
      m_UidTimeToFileinfo.Erase(user_time);
      tasks := tasks - {user_time};
    }

    /** m_UidTimeToFileinfo.find */
    method FindTask(user_time: int) returns (info: FileInfo?)
      requires Valid()
      ensures info == null <==> user_time !in tasks
      ensures info != null ==>
                && user_time in m_UidTimeToFileinfo.m_map && m_UidTimeToFileinfo.m_map[user_time] == info
                && info in infos && tasks[user_time] == info.AsTask()
    {
      var found;
      found, info := m_UidTimeToFileinfo.Find(user_time, null);
    }

    /** info->pos=.. */
    method SetPos(ghost user_time: int, info: FileInfo, pos: int)
      requires Valid() && user_time in m_UidTimeToFileinfo.m_map && m_UidTimeToFileinfo.m_map[user_time] == info
      modifies info`pos, this`tasks
      ensures Valid() && info.pos == pos
      ensures tasks == old(tasks)[user_time := old(tasks)[user_time].(pos := pos)]
    {
      info.pos := pos;
      tasks := tasks[user_time := tasks[user_time].(pos := pos)];
    }

    /** A new FileInfo for the file that `fd` was opened on. */
    method NewTask(user_time: int, path: string, size: int, fid: int, fd: int) returns (info: FileInfo)
      requires Valid()
      modifies m_UidTimeToFileinfo, this`infos, this`tasks
      ensures Valid() && fresh(infos - old(infos))
      ensures tasks == old(tasks)[user_time := Task(path, size, fid, fd, 0)]
      ensures user_time in m_UidTimeToFileinfo.m_map && m_UidTimeToFileinfo.m_map[user_time] == info && fresh(info)
    {
      info := new FileInfo();
      info.absolutePath := path;
      info.size := size;
      info.fid := fid;
      info.filefd := fd;
      AddTask(user_time, info);
    }

    // -------------------------------------------------------------- uploads

    /** HandleUpFileRq; `fd` is what open returns. */
    method HandleUpFileRq(rq: UploadRq, fd: int) returns (reply: UploadReply)
      requires Valid() && fd !in kernel.fds
      modifies this`infos, this`tasks, m_sql, kernel, m_UidTimeToFileinfo
      ensures Valid() && fresh(infos - old(infos))
      ensures (Abs(), reply) == U.Started(old(Abs()), rq, fd)
    {
      reply := RecordUpload(m_sql, rq, fd >= 0);
      if reply.Accepted? {
        var path := DiskPath(rq.uid, rq.dir, rq.md5);
        kernel.OpenFile(path, true, fd);
        var _ := NewTask(TaskKey(rq.uid, rq.timestamp), path, rq.size, reply.fid, fd);
      }
    }

    /** update t_file set f_state=1 */
    method MarkFinished(user_time: int, fileid: int)
      modifies m_sql
      ensures m_sql.Abs() == Completed(old(m_sql.Abs()), user_time, fileid)
    {
      if fileid in m_sql.files {
        m_sql.files := m_sql.files[fileid := m_sql.files[fileid].(state := 1)];
      }
      m_sql.uploads := m_sql.uploads - {user_time};
    }

    /** The name of the descriptor's file is appended to the transfer list. */
    method HandOver(fd: int, path: string)
      requires Valid()
      modifies this`transferList, this`transfers
      ensures Valid() && transfers == old(transfers) + [path]
    {
      var writer := new FileWriter(transferList);
      var task := new FileTransferTask(writer);
      task.AddFd(fd, Some(path));
      task.Execute();
      transferList := writer.ofs;
      PrintedAppend(transfers, [path]);
      transfers := transfers + [path];
    }

    /** The whole upload has been written. */
    method Finish(user_time: int, fd: int, fileid: int)
      requires Valid() && Open(kernel.bytes, kernel.fds, fd)
      modifies m_sql, kernel, m_UidTimeToFileinfo, this`tasks, this`transferList, this`transfers
      ensures Valid()
      ensures var s := old(Abs());
              Abs() == Server(Completed(s.store, user_time, fileid), s.bytes, s.fds - {fd}, s.tasks - {user_time}, s.transfers + [s.fds[fd].path])
    {
      MarkFinished(user_time, fileid);
      HandOver(fd, kernel.fds[fd].path);
      kernel.Close(fd);
      DropTask(user_time);
    }

    /** FileContentRq; `room` is what write manages to take, or -1. */
    method FileContentRq(userid: int, timestamp: int, fileid: int, content: Bytes, room: int) returns (rs: Option<U.Reply>)
      requires Valid() && -1 <= room <= |content|
      modifies m_sql, kernel, m_UidTimeToFileinfo, infos, this`tasks, this`transferList, this`transfers
      ensures Valid()
      ensures (Abs(), rs) == U.BlockReceived(old(Abs()), TaskKey(userid, timestamp), fileid, content, room)
    {
      ghost var s := Abs();
      var user_time := TaskKey(userid, timestamp);
      var info := FindTask(user_time);
      if info == null {
        return None;
      }
      var len := kernel.Write(info.filefd, content, room);
      if len == -1 {
        return None;
      }
      if len != |content| {
        kernel.SeekBy(info.filefd, -len);
        assert kernel.fds == s.fds;
        return Some(U.Reply(|content|, 0));
      }
      SetPos(user_time, info, info.pos + len);
      if info.pos >= info.size {
        Finish(user_time, info.filefd, fileid);
        assert kernel.fds == s.fds - {info.filefd};
        assert tasks == s.tasks - {user_time};
      }
      return Some(U.Reply(|content|, 1));
    }

    /** The last lines of ContinueUploadRq. */
    method SendPosition(user_time: int, info: FileInfo) returns (end: int)
      requires Valid() && user_time in m_UidTimeToFileinfo.m_map && m_UidTimeToFileinfo.m_map[user_time] == info
      modifies kernel, info`pos, this`tasks
      ensures Valid()
      ensures (Abs(), end) == U.AtEnd(old(Abs()), user_time)
    {
      end := kernel.SeekEnd(info.filefd);
      SetPos(user_time, info, end);
    }

    /** The branch of ContinueUploadRq that makes the task again. */
    method ReopenUpload(user_time: int, userid: int, fileid: int, dir: string, fd: int) returns (info: FileInfo?)
      requires Valid() && user_time !in tasks && fd !in kernel.fds
      modifies m_sql, kernel, m_UidTimeToFileinfo, this`infos, this`tasks
      ensures Valid() && fresh(infos - old(infos))
      ensures info == null <==> U.CannotReopen(old(Abs()), userid, fileid, dir, fd)
      ensures info == null ==> Abs() == old(Abs())
      ensures info != null ==>
                && user_time in m_UidTimeToFileinfo.m_map && m_UidTimeToFileinfo.m_map[user_time] == info && fresh(info)
                && Abs() == U.Reopened(old(Abs()), user_time, userid, fileid, dir, fd)
    {
      var rows := Hits(m_sql.Abs(), userid, fileid, dir);
      if rows == [] || m_sql.files[fileid].state != 0 {
        return null;
      }
      var row := m_sql.files[fileid];
      if fd <= 0 || row.path !in kernel.bytes {
        return null;
      }
      kernel.OpenFile(row.path, false, fd);
      m_sql.uploads := if user_time in m_sql.uploads then m_sql.uploads else m_sql.uploads[user_time := fileid];
      info := NewTask(user_time, row.path, row.size, fileid, fd);
    }

    /** ContinueUploadRq; `fd` is what open returns if the task has to be made again. */
    method ContinueUploadRq(userid: int, timestamp: int, fileid: int, dir: string, fd: int) returns (rs: Option<int>)
      requires Valid() && fd !in kernel.fds
      modifies m_sql, kernel, m_UidTimeToFileinfo, infos, this`infos, this`tasks
      ensures Valid() && fresh(infos - old(infos))
      ensures (Abs(), rs) == U.Continued(old(Abs()), TaskKey(userid, timestamp), userid, fileid, dir, fd)
    {
      var user_time := TaskKey(userid, timestamp);
      var info := FindTask(user_time);
      if info == null {
        info := ReopenUpload(user_time, userid, fileid, dir, fd);
        if info == null {
          return None;
        }
      }
      var end := SendPosition(user_time, info);
      return Some(end);
    }

    // -------------------------------------------------------------- downloads

    /** DownloadFileRq; `o` says what open and, if that fails, FileTran.downloadFile come to. */
    method DownloadFileRq(userid: int, timestamp: int, fileid: int, dir: string, o: D.Opening) returns (headrq: Option<FD.Header>)
      requires Valid() && (o.Refused? || (o.fd !in kernel.fds && o.fd >= -1))
      modifies kernel, m_UidTimeToFileinfo, this`infos, this`tasks
      ensures Valid() && fresh(infos - old(infos))
      ensures (Abs(), headrq) == D.Requested(old(Abs()), userid, timestamp, fileid, dir, o)
    {
      var rows := Hits(m_sql.Abs(), userid, fileid, dir);
      if rows == [] {
        return None;
      }
      var row := m_sql.files[fileid];
      match o {
        case Refused =>
          return None;
        case Opened(fd) =>
          if fd <= 0 {
            return None;
          }
          kernel.OpenFile(row.path, false, fd);
        case Fetched(fd) =>
          kernel.OpenFile(row.path, false, fd);
      }
      var _ := NewTask(TaskKey(userid, timestamp), row.path, row.size, fileid, o.fd);
      return Some(FD.FileHeader(timestamp, fileid, dir, rows[0].name, row.md5, row.size));
    }

    /** The next block of the task's file; `limit` bounds what read yields, and is -1 for an error. */
    method ReadFile(ghost user_time: int, info: FileInfo, limit: int) returns (block: D.Block)
      requires Valid() && user_time in m_UidTimeToFileinfo.m_map && m_UidTimeToFileinfo.m_map[user_time] == info && -1 <= limit
      modifies kernel
      ensures Valid() && (Abs(), block) == D.ReadBlock(old(Abs()), user_time, limit)
    {
      var len, content := kernel.Read(info.filefd, limit);
      return D.Block(len, content);
    }

    /** FileHeaderRs; `limit` bounds what read yields, and is -1 for an error. */
    method FileHeaderRs(userid: int, timestamp: int, limit: int) returns (rq: Option<D.Block>)
      requires Valid() && -1 <= limit
      modifies kernel
      ensures Valid() && (Abs(), rq) == D.HeaderAnswered(old(Abs()), TaskKey(userid, timestamp), limit)
    {
      var info := FindTask(TaskKey(userid, timestamp));
      if info == null {
        return None;
      }
      var block := ReadFile(TaskKey(userid, timestamp), info, limit);
      if block.len < 0 {
        return None;
      }
      return Some(block);
    }

    /** FileContentRs up to the read. */
    method Acknowledge(user_time: int, info: FileInfo, len: int, result: int) returns (done: bool)
      requires Valid() && user_time in m_UidTimeToFileinfo.m_map && m_UidTimeToFileinfo.m_map[user_time] == info
      modifies kernel, m_UidTimeToFileinfo, info`pos, this`tasks
      ensures Valid() && Abs() == D.Acknowledged(old(Abs()), user_time, len, result)
      ensures done <==> user_time !in tasks
      ensures !done ==> user_time in m_UidTimeToFileinfo.m_map && m_UidTimeToFileinfo.m_map[user_time] == info
    {
      ghost var before := tasks;
      if result != 1 {
        kernel.SeekBy(info.filefd, -len);
      } else {
        SetPos(user_time, info, info.pos + len);
        if info.pos >= info.size {
          kernel.Close(info.filefd);
          DropTask(user_time);
          assert tasks == before - {user_time};
          return true;
        }
      }
      return false;
    }

    /** FileContentRs; `limit` bounds what read yields, and is -1 for an error. */
    method FileContentRs(userid: int, timestamp: int, len: int, result: int, limit: int) returns (rq: Option<D.Block>)
      requires Valid() && -1 <= limit
      modifies kernel, m_UidTimeToFileinfo, infos, this`tasks
      ensures Valid() && (Abs(), rq) == D.ContentAnswered(old(Abs()), TaskKey(userid, timestamp), len, result, limit)
    {
      var user_time := TaskKey(userid, timestamp);
      var info := FindTask(user_time);
      if info == null {
        return None;
      }
      var done := Acknowledge(user_time, info, len, result);
      if done {
        return None;
      }
      var block := ReadFile(user_time, info, limit);
      if block.len <= 0 {
        return None;
      }
      return Some(block);
    }

    /** The branch of ContinueDownloadRq that makes the task again. */
    method ReopenDownload(user_time: int, userid: int, fileid: int, dir: string, fd: int) returns (info: FileInfo?)
      requires Valid() && user_time !in tasks && fd !in kernel.fds
      modifies kernel, m_UidTimeToFileinfo, this`infos, this`tasks
      ensures Valid() && fresh(infos - old(infos))
      ensures info == null <==> D.CannotReopen(old(Abs()), userid, fileid, dir, fd)
      ensures info == null ==> Abs() == old(Abs())
      ensures info != null ==>
                && user_time in m_UidTimeToFileinfo.m_map && m_UidTimeToFileinfo.m_map[user_time] == info && fresh(info)
                && Abs() == D.Reopened(old(Abs()), user_time, fileid, fd)
    {
      var rows := Hits(m_sql.Abs(), userid, fileid, dir);
      if rows == [] {
        return null;
      }
      var row := m_sql.files[fileid];
      if fd <= 0 {
        return null;
      }
      kernel.OpenFile(row.path, false, fd);
      info := NewTask(user_time, row.path, row.size, fileid, fd);
    }

    /** ContinueDownloadRq; `fd` is what open returns if the task has to be made again. */
    method ContinueDownloadRq(userid: int, timestamp: int, fileid: int, dir: string, pos: int, fd: int, limit: int) returns (rq: Option<D.Block>)
      requires Valid() && fd !in kernel.fds && -1 <= limit
      modifies kernel, m_UidTimeToFileinfo, infos, this`infos, this`tasks
      ensures Valid() && fresh(infos - old(infos))
      ensures (Abs(), rq) == D.Continued(old(Abs()), TaskKey(userid, timestamp), userid, fileid, dir, pos, fd, limit)
    {
      var user_time := TaskKey(userid, timestamp);
      var info := FindTask(user_time);
      if info == null {
        info := ReopenDownload(user_time, userid, fileid, dir, fd);
        if info == null {
          return None;
        }
      }
      kernel.SeekTo(info.filefd, pos);
      SetPos(user_time, info, pos);
      var block := ReadFile(user_time, info, limit);
      return Some(block);
    }
  }
}
