/**
 What uploads and downloads work on: the tables, the files and descriptors of the kernel, the task map
 m_UidTimeToFileinfo and the transfer list.
 */
module TransferState {
  import opened Wrappers
  import opened Tables

  type Bytes = seq<int>

  const DEF_BUFFER := 40960

  /** An open file: which one, and the offset of the next read or write. */
  datatype Handle = Handle(path: string, offset: nat)

  /** What a FileInfo says of a transfer. */
  datatype Task = Task(path: string, size: int, fid: int, fd: int, pos: int)

  /** `transfers` are the names printed to the transfer list. */
  datatype Server = Server(store: Store, bytes: map<string, Bytes>, fds: map<int, Handle>, tasks: map<int, Task>, transfers: seq<string>)

  /** A descriptor that read, write and lseek accept. */
  predicate Open(bytes: map<string, Bytes>, fds: map<int, Handle>, fd: int) {
    fd in fds && fds[fd].path in bytes
  }

  /** The descriptor of the task works. */
  predicate Live(s: Server, key: int) {
    key in s.tasks && Open(s.bytes, s.fds, s.tasks[key].fd)
  }

  function Get<K, V>(m: map<K, V>, k: K): Option<V> {
    if k in m then Some(m[k]) else None
  }

  /** What is stored at a path. */
  function FileOf(s: Server, path: string): Bytes {
    if path in s.bytes then s.bytes[path] else []
  }

  ghost predicate IsPrefix(a: Bytes, b: Bytes) {
    |a| <= |b| && a == b[..|a|]
  }

  lemma SliceOfPrefix(a: Bytes, b: Bytes, i: nat, j: nat)
    requires IsPrefix(a, b) && i <= j <= |a|
    ensures b[i..j] == a[i..j]
  {}

  lemma SliceIfPrefix(a: Bytes, b: Bytes, i: nat, j: nat)
    requires i <= j <= |a|
    ensures IsPrefix(a, b) ==> b[i..j] == a[i..j]
  {
    if IsPrefix(a, b) {
      SliceOfPrefix(a, b, i, j);
    }
  }

  lemma SliceStart(source: Bytes, at: nat, k: nat, n: nat)
    requires at + k <= |source| && n <= k
    ensures source[at..at + k][..n] == source[at..at + n]
  {}

  /** open returns a descriptor that is not in use, or fails. */
  predicate FreshFd(s: Server, fd: int) {
    fd !in s.fds && fd >= -1
  }

  /** An open descriptor belongs to one task; a task without one has a negative number for it. */
  ghost predicate DescriptorsInv(s: Server) {
    && (forall k :: k in s.tasks ==> s.tasks[k].fd in s.fds || s.tasks[k].fd < 0)
    && (forall k, l :: k in s.tasks && l in s.tasks && k != l && s.tasks[k].fd in s.fds ==> s.tasks[k].fd != s.tasks[l].fd)
    && (forall fd :: fd in s.fds ==> fd >= 0)
  }

  /** The task is there before and after or neither, and it and its descriptor are the same. */
  ghost predicate SameTransfer(s: Server, t: Server, k: int) {
    && Get(t.tasks, k) == Get(s.tasks, k) && Get(t.store.uploads, k) == Get(s.store.uploads, k)
    && (k in s.tasks ==> Get(t.fds, s.tasks[k].fd) == Get(s.fds, s.tasks[k].fd))
  }

  /** Nothing changes but the transfer with this key, the files at these paths and the rows with these ids. */
  ghost predicate OnlyAt(s: Server, t: Server, key: int, paths: set<string>, fids: set<int>) {
    && (forall p :: p !in paths ==> Get(t.bytes, p) == Get(s.bytes, p))
    && (forall f :: f !in fids ==> Get(t.store.files, f) == Get(s.store.files, f))
    && (forall k :: k != key ==> SameTransfer(s, t, k))
  }

  lemma OnlyAtThen(s: Server, t: Server, u: Server, key: int, paths: set<string>, fids: set<int>)
    requires OnlyAt(s, t, key, paths, fids) && OnlyAt(t, u, key, paths, fids)
    ensures OnlyAt(s, u, key, paths, fids)
  {
    forall k | k != key
      ensures SameTransfer(s, u, k)
    {
      assert SameTransfer(s, t, k) && SameTransfer(t, u, k);
    }
  }

  function Zeros(n: nat): Bytes {
    seq(n, _ => 0)
  }

  /** write at an offset: bytes are replaced, a gap is filled with zeros. */
  function WriteAt(stored: Bytes, offset: nat, data: Bytes): Bytes {
    if offset + |data| <= |stored| then stored[..offset] + data + stored[offset + |data|..]
    else if offset <= |stored| then stored[..offset] + data
    else stored + Zeros(offset - |stored|) + data
  }

  /** How much read(fd, .., limit) yields at an offset; a negative limit stands for an error. */
  function ReadLen(stored: Bytes, offset: nat, limit: int): (n: int)
    ensures limit >= 0 ==> 0 <= n <= limit && (n > 0 ==> offset + n <= |stored|)
  {
    if limit < 0 then -1
    else if offset >= |stored| then 0
    else if limit <= |stored| - offset then limit
    else |stored| - offset
  }

  /** The files of the data directory and the descriptors the process has open. */
  class Kernel {
    var bytes: map<string, Bytes>
    var fds: map<int, Handle>

    constructor ()
      ensures bytes == map[] && fds == map[]
    {
      bytes, fds := map[], map[];
    }

    /** open; `fd` is what it returns, and a negative `fd` is a failure. */
    method OpenFile(path: string, truncate: bool, fd: int)
      modifies this
      ensures bytes == if fd >= 0 && truncate then old(bytes)[path := []] else old(bytes)
      ensures fds == if fd >= 0 then old(fds)[fd := Handle(path, 0)] else old(fds)
    {
      if fd >= 0 {
        if truncate {
          bytes := bytes[path := []];
        }
        fds := fds[fd := Handle(path, 0)];
      }
    }

    method Close(fd: int)
      modifies this
      ensures fds == old(fds) - {fd} && bytes == old(bytes)
    {
      fds := fds - {fd};
    }

    /** write; `room` is how much of the block it manages to write, or -1 for an error. */
    method Write(fd: int, content: Bytes, room: int) returns (len: int)
      requires -1 <= room <= |content|
      modifies this
      ensures len == if Open(old(bytes), old(fds), fd) then room else -1
      ensures len == -1 ==> bytes == old(bytes) && fds == old(fds)
      ensures len >= 0 ==>
                var h := old(fds)[fd];
                && bytes == old(bytes)[h.path := WriteAt(old(bytes)[h.path], h.offset, content[..len])]
                && fds == old(fds)[fd := Handle(h.path, h.offset + len)]
    {
      if room == -1 || !Open(bytes, fds, fd) {
        return -1;
      }
      var h := fds[fd];
      bytes := bytes[h.path := WriteAt(bytes[h.path], h.offset, content[..room])];
      fds := fds[fd := Handle(h.path, h.offset + room)];
      return room;
    }

    /** read; `limit` bounds what it yields, and is -1 for an error. */
    method Read(fd: int, limit: int) returns (len: int, content: Bytes)
      requires -1 <= limit
      modifies this
      ensures bytes == old(bytes)
      ensures !Open(bytes, old(fds), fd) ==> len == -1 && content == [] && fds == old(fds)
      ensures Open(bytes, old(fds), fd) ==>
                var h := old(fds)[fd];
                && len == ReadLen(bytes[h.path], h.offset, limit)
                && (len <= 0 ==> content == [] && fds == old(fds))
                && (len > 0 ==> content == bytes[h.path][h.offset..h.offset + len]
                                && fds == old(fds)[fd := Handle(h.path, h.offset + len)])
    {
      if !Open(bytes, fds, fd) {
        return -1, [];
      }
      var h := fds[fd];
      len := ReadLen(bytes[h.path], h.offset, limit);
      content := [];
      if len > 0 {
        content := bytes[h.path][h.offset..h.offset + len];
        fds := fds[fd := Handle(h.path, h.offset + len)];
      }
    }

    /** lseek(fd, delta, SEEK_CUR) */
    method SeekBy(fd: int, delta: int)
      modifies this
      ensures bytes == old(bytes)
      ensures fds == Moved(old(fds), fd, delta)
    {
      if fd in fds && fds[fd].offset + delta >= 0 {
        fds := fds[fd := fds[fd].(offset := fds[fd].offset + delta)];
      }
    }

    /** lseek(fd, pos, SEEK_SET) */
    method SeekTo(fd: int, pos: int)
      modifies this
      ensures bytes == old(bytes)
      ensures fds == Placed(old(fds), fd, pos)
    {
      if fd in fds && pos >= 0 {
        fds := fds[fd := fds[fd].(offset := pos)];
      }
    }

    /** lseek(fd, 0, SEEK_END) */
    method SeekEnd(fd: int) returns (pos: int)
      modifies this
      ensures bytes == old(bytes)
      ensures pos == if Open(bytes, old(fds), fd) then |bytes[old(fds)[fd].path]| else -1
      ensures fds == Placed(old(fds), fd, pos)
    {
      if !Open(bytes, fds, fd) {
        return -1;
      }
      pos := |bytes[fds[fd].path]|;
      fds := fds[fd := fds[fd].(offset := pos)];
    }
  }

  /** The descriptors after lseek(fd, delta, SEEK_CUR), which fails when it would go below zero. */
  function Moved(fds: map<int, Handle>, fd: int, delta: int): map<int, Handle> {
    if fd in fds && fds[fd].offset + delta >= 0 then fds[fd := fds[fd].(offset := fds[fd].offset + delta)] else fds
  }

  /** The descriptors after lseek(fd, pos, SEEK_SET). */
  function Placed(fds: map<int, Handle>, fd: int, pos: int): map<int, Handle> {
    if fd in fds && pos >= 0 then fds[fd := fds[fd].(offset := pos)] else fds
  }
}
