/**
 Length-prefixed packets. SendData puts a 4-byte little-endian length before the payload; recv_task
 reads the length and then loops over recv until the payload is complete or the connection ends.
 */
module Framing {
  import opened Sequences

  type byte = x: int | 0 <= x < 256

  const INT_MAX := 0x7fff_ffff

  /** *(int*)tmp = n on a little-endian machine, for the lengths SendData is given. */
  function Encode32(n: nat): (b: seq<byte>)
    requires n <= INT_MAX
    ensures |b| == 4
  {
    [n % 256, n / 256 % 256, n / 65536 % 256, n / 16777216]
  }

  /** The int that four received bytes are taken for; the top bit makes it negative. */
  function Decode32(b: seq<byte>): (n: int)
    requires |b| == 4
  {
    var u := b[0] as int + 256 * b[1] as int + 65536 * b[2] as int + 16777216 * b[3] as int;
    if u <= INT_MAX then u else u - 0x1_0000_0000
  }

  lemma Digits256(n: nat)
    ensures n == n % 256 + 256 * (n / 256 % 256) + 65536 * (n / 65536 % 256) + 16777216 * (n / 16777216)
  {
    assert n / 65536 == n / 256 / 256 && n / 16777216 == n / 65536 / 256;
  }

  lemma LengthRoundTrip(n: nat)
    requires n <= INT_MAX
    ensures Decode32(Encode32(n)) == n
  {
    Digits256(n);
  }

  /** The lowest byte goes first, and a length is taken for a negative one exactly if the last byte has its top bit set. */
  lemma LittleEndian(n: nat, b: seq<byte>)
    requires n <= INT_MAX && |b| == 4
    ensures var e := Encode32(n);
            n == e[0] as int + 256 * e[1] as int + 65536 * e[2] as int + 16777216 * e[3] as int
    ensures Decode32(b) < 0 <==> b[3] >= 128
  {
    Digits256(n);
  }

  /** A payload as SendData puts it on the wire. */
  function Frame(payload: seq<byte>): (f: seq<byte>)
    requires |payload| <= INT_MAX
    ensures |f| == 4 + |payload|
  {
    Encode32(|payload|) + payload
  }

  predicate Sendable(payloads: seq<seq<byte>>) {
    forall p :: p in payloads ==> |p| <= INT_MAX
  }

  function Frames(payloads: seq<seq<byte>>): seq<byte>
    requires Sendable(payloads)
  {
    if payloads == [] then [] else Frame(payloads[0]) + Frames(payloads[1..])
  }

  /** The int that a shorter read of the length leaves in nPackSize, whose bytes were zero before. */
  function PartialLength(b: seq<byte>): (n: int)
    requires |b| <= 4
    ensures |b| < 4 ==> n >= 0
  {
    Decode32(b + seq(4 - |b|, _ => 0 as byte))
  }

  /**
   How the read calls of a connection turn out: the k-th call returns at most head(k) bytes if it is for a
   length, and at most body(k) if it is for a payload; zero or less is an error return.
   */
  datatype Chunking = Chunking(head: nat -> int, body: nat -> int)

  ghost predicate WholeLengths(chunk: Chunking) {
    forall k :: chunk.head(k) >= 4
  }

  ghost predicate NoErrors(chunk: Chunking) {
    forall k :: chunk.body(k) > 0
  }

  function Min(a: int, b: int): int {
    if a <= b then a else b
  }

  function BytesRead(stream: seq<byte>, want: nat, calls: nat, chunk: Chunking): (n: int)
    ensures n <= want && n <= |stream|
  {
    if stream == [] then 0 else Min(chunk.body(calls), Min(want, |stream|))
  }

  /** What the read of a length returns. */
  function HeadRead(stream: seq<byte>, calls: nat, chunk: Chunking): (n: int)
    ensures n <= 4 && n <= |stream|
  {
    if stream == [] then 0 else Min(chunk.head(calls), Min(4, |stream|))
  }

  /** One end of a connection: what has still to be read, and what has been sent. */
  class Socket {
    var stream: seq<byte>
    var calls: nat
    var sent: seq<byte>
    const chunk: Chunking

    constructor (stream: seq<byte>, chunk: Chunking)
      ensures this.stream == stream && this.chunk == chunk && calls == 0 && sent == []
    {
      this.stream, this.chunk, calls, sent := stream, chunk, 0, [];
    }

    /** recv(fd, buf + off, want, 0) */
    method Recv(buf: array<byte>, off: nat, want: nat) returns (n: int)
      requires off + want <= buf.Length
      modifies this`stream, this`calls, buf
      ensures n == BytesRead(old(stream), want, old(calls), chunk) && calls == old(calls) + 1
      ensures n <= 0 ==> stream == old(stream)
      ensures n > 0 ==> stream == old(stream)[n..]
      ensures forall i :: 0 <= i < buf.Length ==> buf[i] == if off <= i < off + n then old(stream)[i - off] else old(buf[i])
    {
      n := BytesRead(stream, want, calls, chunk);
      calls := calls + 1;
      if n > 0 {
        forall i | 0 <= i < n { buf[off + i] := stream[i]; }
        stream := stream[n..];
      }
    }

    /** read(fd, &nPackSize, 4) */
    method ReadLength() returns (n: int, size: int)
      modifies this`stream, this`calls
      ensures n == HeadRead(old(stream), old(calls), chunk) && calls == old(calls) + 1
      ensures n <= 0 ==> stream == old(stream)
      ensures n > 0 ==> size == PartialLength(old(stream)[..n]) && stream == old(stream)[n..]
    {
      n := HeadRead(stream, calls, chunk);
      size := 0;
      calls := calls + 1;
      if n > 0 {
        size := PartialLength(stream[..n]);
        stream := stream[n..];
      }
    }

    /** Length and payload go into one buffer, which is sent as a whole. */
    method SendData(szbuf: array<byte>)
      requires szbuf.Length <= INT_MAX
      modifies this`sent
      ensures sent == old(sent) + Frame(szbuf[..])
    {
      var nlen := szbuf.Length;
      var vecbuf := new byte[nlen + 4](_ => 0);
      var length := Encode32(nlen);
      forall i | 0 <= i < 4 { vecbuf[i] := length[i]; }
      forall i | 0 <= i < nlen { vecbuf[4 + i] := szbuf[i]; }
      assert vecbuf[..] == Frame(szbuf[..]);
      sent := sent + vecbuf[..];
    }
  }

  /** The bytes the inner loop of recv_task gathers, and the number of the next read call. */
  function Gather(stream: seq<byte>, want: nat, calls: nat, chunk: Chunking): (r: (seq<byte>, nat))
    ensures |r.0| <= want && |r.0| <= |stream| && r.0 == stream[..|r.0|]
    decreases want
  {
    if want == 0 then ([], calls)
    else
      var n := BytesRead(stream, want, calls, chunk);
      if n <= 0 then ([], calls + 1)
      else
        var later := Gather(stream[n..], want - n, calls + 1, chunk);
        (stream[..n] + later.0, later.1)
  }

  /** Gather when the first `off` bytes of `body` are in the buffer and `want` are still missing. */
  ghost function Onward(body: seq<byte>, off: nat, want: nat, calls: nat, chunk: Chunking): (seq<byte>, nat)
    requires off <= |body|
  {
    var later := Gather(body[off..], want, calls, chunk);
    (body[..off] + later.0, later.1)
  }

  lemma GatherStart(body: seq<byte>, want: nat, calls: nat, chunk: Chunking)
    ensures Gather(body, want, calls, chunk) == Onward(body, 0, want, calls, chunk)
  {
    var all := Gather(body, want, calls, chunk).0;
    assert body[0..] == body && body[..0] == [] && [] + all == all;
  }

  lemma GatherStep(body: seq<byte>, off: nat, want: nat, calls: nat, chunk: Chunking)
    requires off <= |body| && want > 0
    ensures var n := BytesRead(body[off..], want, calls, chunk);
            if n <= 0 then Onward(body, off, want, calls, chunk) == (body[..off], calls + 1)
            else && body[off..][n..] == body[off + n..] && body[..off] + body[off..][..n] == body[..off + n]
                 && Onward(body, off, want, calls, chunk) == Onward(body, off + n, want - n, calls + 1, chunk)
  {
    var n := BytesRead(body[off..], want, calls, chunk);
    if n <= 0 {
      assert body[..off] + [] == body[..off];
    } else {
      var later := Gather(body[off + n..], want - n, calls + 1, chunk);
      assert body[off..][n..] == body[off + n..];
      assert body[..off] + (body[off..][..n] + later.0) == body[..off + n] + later.0;
    }
  }

  /** `Terminated`: new char[nPackSize] throws on a negative length, which nothing catches. */
  datatype Outcome = Closed | Packet(content: seq<byte>) | Terminated

  /** One turn of the inner loop, which leaves the result of the whole loop what it was. */
  method RecvSome(s: Socket, buf: array<byte>, nOffSet: nat, nPackSize: nat, ghost body: seq<byte>) returns (n: int)
    requires nOffSet + nPackSize == buf.Length && nPackSize > 0
    requires nOffSet <= |body| && s.stream == body[nOffSet..] && buf[..nOffSet] == body[..nOffSet]
    modifies s`stream, s`calls, buf
    ensures n <= nPackSize && nOffSet + n <= |body|
    ensures n <= 0 ==> s.stream == body[nOffSet..] && buf[..nOffSet] == body[..nOffSet]
    ensures n <= 0 ==> Onward(body, nOffSet, nPackSize, old(s.calls), s.chunk) == (body[..nOffSet], s.calls)
    ensures n > 0 ==> s.stream == body[nOffSet + n..] && buf[..nOffSet + n] == body[..nOffSet + n]
    ensures n > 0 ==> Onward(body, nOffSet, nPackSize, old(s.calls), s.chunk) == Onward(body, nOffSet + n, nPackSize - n, s.calls, s.chunk)
  {
    GatherStep(body, nOffSet, nPackSize, s.calls, s.chunk);
    n := s.Recv(buf, nOffSet, nPackSize);
    assert forall i :: 0 <= i < nOffSet ==> body[..nOffSet][i] == buf[i];
  }

  /** The inner loop of recv_task: fill a new buffer of the announced size until recv gives up. */
  method ReceivePayload(s: Socket, size: nat) returns (pSzBuf: array<byte>, nOffSet: nat)
    modifies s`stream, s`calls
    ensures fresh(pSzBuf) && pSzBuf.Length == size && nOffSet <= size && nOffSet <= |old(s.stream)|
    ensures var got := Gather(old(s.stream), size, old(s.calls), s.chunk);
            pSzBuf[..nOffSet] == got.0 && s.calls == got.1
    ensures s.stream == old(s.stream)[nOffSet..]
  {
    pSzBuf := new byte[size](_ => 0);
    nOffSet := 0;
    var nPackSize, nRelReadNum := size, 0;
    ghost var body, got := s.stream, Gather(s.stream, size, s.calls, s.chunk);
    GatherStart(body, size, s.calls, s.chunk);
    while nPackSize != 0
      invariant 0 <= nPackSize && nOffSet + nPackSize == size == pSzBuf.Length
      invariant nOffSet <= |body| && s.stream == body[nOffSet..] && pSzBuf[..nOffSet] == body[..nOffSet]
      invariant got == Onward(body, nOffSet, nPackSize, s.calls, s.chunk)
      modifies s`stream, s`calls, pSzBuf
      decreases nPackSize
    {
      nRelReadNum := RecvSome(s, pSzBuf, nOffSet, nPackSize, body);
      if nRelReadNum <= 0 {
        break;
      }
      nOffSet := nOffSet + nRelReadNum;
      nPackSize := nPackSize - nRelReadNum;
    }
  }

  /** recv_task up to the point where it hands the buffer on, or finds the connection over. */
  method ReceivePacket(s: Socket) returns (out: Outcome)
    modifies s`stream, s`calls
    ensures (out, s.stream, s.calls) == Received(old(s.stream), old(s.calls), s.chunk)
  {
    var nRelReadNum, nPackSize := s.ReadLength();
    if nRelReadNum <= 0 {
      return Closed;
    }
    if nPackSize < 0 {
      return Terminated;
    }
    var pSzBuf, nOffSet := ReceivePayload(s, nPackSize);
    out := Packet(pSzBuf[..nOffSet]);
  }

  /** What recv_task makes of the unread bytes: outcome, bytes left, number of the next read call. */
  function Received(stream: seq<byte>, calls: nat, chunk: Chunking): (r: (Outcome, seq<byte>, nat))
    ensures r.0.Packet? ==> |r.1| < |stream|
  {
    var n := HeadRead(stream, calls, chunk);
    if n <= 0 then (Closed, stream, calls + 1)
    else
      var size, body := PartialLength(stream[..n]), stream[n..];
      if size < 0 then (Terminated, body, calls + 1)
      else
        var got := Gather(body, size, calls + 1, chunk);
        (Packet(got.0), body[|got.0|..], got.1)
  }

  /** Without read errors the loop stops short only when the stream does. */
  lemma {:induction false} GatherAll(stream: seq<byte>, want: nat, calls: nat, chunk: Chunking)
    requires NoErrors(chunk)
    ensures Gather(stream, want, calls, chunk).0 == stream[..Min(want, |stream|)]
    decreases want
  {
    if want > 0 {
      var n := BytesRead(stream, want, calls, chunk);
      if n > 0 {
        GatherAll(stream[n..], want - n, calls + 1, chunk);
        assert stream[..n] + stream[n..][..Min(want - n, |stream| - n)] == stream[..Min(want, |stream|)];
      }
    }
  }

  lemma WholeIff(stream: seq<byte>, n: nat, later: seq<byte>)
    requires n <= |stream|
    ensures stream[..n] + later == stream <==> later == stream[n..]
  {
    assert (stream[..n] + later)[n..] == later;
    assert stream == stream[..n] + stream[n..];
  }

  /** A packet shorter than announced means that the stream ended or that the last read failed. */
  lemma {:induction false} ShortOnlyAtEnd(stream: seq<byte>, want: nat, calls: nat, chunk: Chunking)
    ensures var r := Gather(stream, want, calls, chunk);
            && (|r.0| < want ==> r.1 > calls && (r.0 == stream || chunk.body(r.1 - 1) <= 0))
            && (r.1 > calls && chunk.body(r.1 - 1) <= 0 && r.0 != stream ==> |r.0| < want)
    decreases want
  {
    if want > 0 {
      var n := BytesRead(stream, want, calls, chunk);
      if n > 0 {
        ShortOnlyAtEnd(stream[n..], want - n, calls + 1, chunk);
        WholeIff(stream, n, Gather(stream[n..], want - n, calls + 1, chunk).0);
      }
    }
  }

  lemma WholeLength(payload: seq<byte>, rest: seq<byte>)
    requires |payload| <= INT_MAX
    ensures var stream := Frame(payload) + rest;
            |stream| >= 4 && PartialLength(stream[..4]) == |payload| && stream[4..] == payload + rest
  {
    var stream := Frame(payload) + rest;
    assert stream[..4] == Encode32(|payload|);
    assert stream[..4] + seq(0, _ => 0 as byte) == stream[..4];
    LengthRoundTrip(|payload|);
    assert stream[4..] == payload + rest;
  }

  /**
   One frame, with anything after it: exactly the payload is received and the rest stays unread if and
   only if the four bytes of the length come in one read.
   */
  lemma FrameReceivedIff(payload: seq<byte>, rest: seq<byte>, calls: nat, chunk: Chunking)
    requires |payload| <= INT_MAX && NoErrors(chunk) && chunk.head(calls) > 0
    ensures var r := Received(Frame(payload) + rest, calls, chunk);
            r.0 == Packet(payload) && r.1 == rest <==> chunk.head(calls) >= 4
  {
    if chunk.head(calls) >= 4 {
      WholeLength(payload, rest);
      GatherAll(payload + rest, |payload|, calls + 1, chunk);
    }
  }

  /** A frame cut inside its payload: exactly the bytes that arrived, and nothing is left. */
  lemma CutFrameReceived(payload: seq<byte>, n: nat, calls: nat, chunk: Chunking)
    requires |payload| <= INT_MAX && n < |payload| && NoErrors(chunk) && WholeLengths(chunk)
    ensures var r := Received(Frame(payload)[..4 + n], calls, chunk);
            r.0 == Packet(payload[..n]) && r.1 == []
  {
    var stream := Frame(payload)[..4 + n];
    WholeLength(payload, []);
    assert Frame(payload) + [] == Frame(payload);
    assert stream[..4] == Frame(payload)[..4] && stream[4..] == payload[..n];
    GatherAll(stream[4..], |payload|, calls + 1, chunk);
  }

  /** A frame cut inside its length: an empty packet, which nobody sent. */
  lemma CutLengthReceived(payload: seq<byte>, n: nat, calls: nat, chunk: Chunking)
    requires |payload| <= INT_MAX && 0 < n < 4 && WholeLengths(chunk)
    ensures var r := Received(Frame(payload)[..n], calls, chunk);
            r.0 == Packet([]) && r.1 == []
  {}

  /** Every packet of a connection, one recv_task after another, until it is found closed. */
  function Session(stream: seq<byte>, calls: nat, chunk: Chunking): seq<seq<byte>>
    decreases |stream|
  {
    var (out, rest, next) := Received(stream, calls, chunk);
    if out.Packet? then [out.content] + Session(rest, next, chunk) else []
  }

  lemma SessionStep(payload: seq<byte>, rest: seq<byte>, calls: nat, chunk: Chunking) returns (next: nat)
    requires |payload| <= INT_MAX && NoErrors(chunk) && WholeLengths(chunk)
    ensures Session(Frame(payload) + rest, calls, chunk) == [payload] + Session(rest, next, chunk)
  {
    FrameReceivedIff(payload, rest, calls, chunk);
    next := Received(Frame(payload) + rest, calls, chunk).2;
  }

  lemma FramesCons(payloads: seq<seq<byte>>, tail: seq<byte>)
    requires Sendable(payloads) && payloads != []
    ensures payloads[0] in payloads && Sendable(payloads[1..])
    ensures Frames(payloads) + tail == Frame(payloads[0]) + (Frames(payloads[1..]) + tail)
  {}

  lemma FirstPeels(payloads: seq<seq<byte>>, tail: seq<byte>, calls: nat, chunk: Chunking) returns (next: nat)
    requires Sendable(payloads) && payloads != [] && NoErrors(chunk) && WholeLengths(chunk)
    ensures Sendable(payloads[1..])
    ensures Session(Frames(payloads) + tail, calls, chunk) == [payloads[0]] + Session(Frames(payloads[1..]) + tail, next, chunk)
  {
    FramesCons(payloads, tail);
    next := SessionStep(payloads[0], Frames(payloads[1..]) + tail, calls, chunk);
  }

  /** The frames in front of a stream are received first, each as its payload. */
  lemma {:induction false} SessionPeels(payloads: seq<seq<byte>>, tail: seq<byte>, calls: nat, chunk: Chunking)
    returns (next: nat)
    requires Sendable(payloads) && NoErrors(chunk) && WholeLengths(chunk)
    ensures Session(Frames(payloads) + tail, calls, chunk) == payloads + Session(tail, next, chunk)
    decreases |payloads|
  {
    if payloads == [] {
      next := calls;
      assert Frames(payloads) + tail == tail;
    } else {
      var second := FirstPeels(payloads, tail, calls, chunk);
      next := SessionPeels(payloads[1..], tail, second, chunk);
      ConsAppend(payloads, Session(tail, next, chunk));
    }
  }

  /** Whatever the chunking of the reads, receiving what SendData sent for a list gives that list. */
  lemma SessionRoundTrip(payloads: seq<seq<byte>>, calls: nat, chunk: Chunking)
    requires Sendable(payloads) && NoErrors(chunk) && WholeLengths(chunk)
    ensures Session(Frames(payloads), calls, chunk) == payloads
  {
    var next := SessionPeels(payloads, [], calls, chunk);
    assert Frames(payloads) + [] == Frames(payloads);
    assert Session([], next, chunk) == [];
  }

  /**
   A connection that ends inside a packet: after the whole packets comes the received prefix of the last
   payload, or an empty packet if the connection ended inside the length.
   */
  lemma CutSession(payloads: seq<seq<byte>>, last: seq<byte>, n: nat, calls: nat, chunk: Chunking)
    requires Sendable(payloads) && |last| <= INT_MAX && 0 < n < 4 + |last|
    requires NoErrors(chunk) && WholeLengths(chunk)
    ensures Session(Frames(payloads) + Frame(last)[..n], calls, chunk) == payloads + [last[..if n < 4 then 0 else n - 4]]
  {
    var cut := Frame(last)[..n];
    var next := SessionPeels(payloads, cut, calls, chunk);
    if n < 4 {
      CutLengthReceived(last, n, next, chunk);
    } else {
      CutFrameReceived(last, n - 4, next, chunk);
    }
    assert Session([], Received(cut, next, chunk).2, chunk) == [];
  }
}
