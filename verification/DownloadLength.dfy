/** A download in which nothing fails: how many blocks the server sends, and what they add up to. */
module DownloadLength {
  import opened Wrappers
  import opened Sequences
  import opened TransferState
  import opened Download

  function Stored(s: Server, key: int): Bytes
    requires Live(s, key)
  {
    s.bytes[s.fds[s.tasks[key].fd].path]
  }

  /** A full block from `pos` on has been read and not been answered. */
  predicate InFlight(s: Server, key: int, block: Block) {
    && Live(s, key)
    && var task := s.tasks[key];
       var file := Stored(s, key);
       && 0 <= task.pos <= |file| && task.size == |file|
       && block.len == ReadLen(file, task.pos, DEF_BUFFER) && block.content == file[task.pos..task.pos + block.len]
       && s.fds[task.fd].offset == task.pos + block.len
  }

  /** What is still to be delivered. */
  function Left(s: Server, key: int): nat
    requires Live(s, key) && s.tasks[key].pos <= s.tasks[key].size
  {
    s.tasks[key].size - s.tasks[key].pos
  }

  /** The answer to a block leads to the next one, or to the end of the task. */
  lemma AnswerAdvances(s: Server, key: int, block: Block)
    requires InFlight(s, key, block)
    ensures var (t, next) := ContentAnswered(s, key, block.len, 1, DEF_BUFFER);
            if Left(s, key) <= DEF_BUFFER then
              next == None && key !in t.tasks && s.tasks[key].fd !in t.fds && block.content == Stored(s, key)[s.tasks[key].pos..]
            else
              && next.Some? && InFlight(t, key, next.value) && Stored(t, key) == Stored(s, key)
              && Left(t, key) == Left(s, key) - DEF_BUFFER && |block.content| == DEF_BUFFER
  {}

  /** All blocks from this one on. */
  function Blocks(s: Server, key: int, block: Block): seq<Block>
    requires InFlight(s, key, block)
    decreases Left(s, key)
  {
    AnswerAdvances(s, key, block);
    var (t, next) := ContentAnswered(s, key, block.len, 1, DEF_BUFFER);
    if next.None? then [block] else [block] + Blocks(t, key, next.value)
  }

  function ContentOf(block: Block): Bytes {
    block.content
  }

  /** At least one block, and no more than it takes. */
  function BlockCount(n: nat): nat {
    if n == 0 then 1 else (n + DEF_BUFFER - 1) / DEF_BUFFER
  }

  lemma OneLess(n: nat)
    requires n > DEF_BUFFER
    ensures BlockCount(n) == 1 + BlockCount(n - DEF_BUFFER)
  {}

  lemma {:induction false} BlocksAddUp(s: Server, key: int, block: Block)
    requires InFlight(s, key, block)
    ensures var blocks := Blocks(s, key, block);
            |blocks| == BlockCount(Left(s, key)) && Collect(blocks, ContentOf) == Stored(s, key)[s.tasks[key].pos..]
    decreases Left(s, key)
  {
    AnswerAdvances(s, key, block);
    var (t, next) := ContentAnswered(s, key, block.len, 1, DEF_BUFFER);
    var file, pos := Stored(s, key), s.tasks[key].pos;
    if next.None? {
      assert Collect([block], ContentOf) == block.content;
    } else {
      var rest := Blocks(t, key, next.value);
      BlocksAddUp(t, key, next.value);
      OneLess(Left(s, key));
      assert ([block] + rest)[1..] == rest;
      assert file[pos..] == file[pos..pos + block.len] + file[pos + block.len..];
    }
  }

  /**
   Without failures the blocks after the header are max(1, ceil(size / 40960)) many, and together they
   are the file.
   */
  lemma FailureFreeDownload(s: Server, key: int)
    requires Live(s, key) && s.tasks[key].pos == 0 && s.fds[s.tasks[key].fd].offset == 0
    requires s.tasks[key].size == |Stored(s, key)|
    ensures var (t, first) := HeaderAnswered(s, key, DEF_BUFFER);
            && first.Some? && InFlight(t, key, first.value)
            && var blocks := Blocks(t, key, first.value);
               && Collect(blocks, ContentOf) == Stored(s, key)
               && |blocks| == (if |Stored(s, key)| == 0 then 1 else (|Stored(s, key)| + 40959) / 40960)
  {
    var (t, first) := HeaderAnswered(s, key, DEF_BUFFER);
    BlocksAddUp(t, key, first.value);
    assert Stored(s, key)[0..] == Stored(s, key);
  }
}
