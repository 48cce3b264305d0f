/** MessageQueue of message_queue.cc, used by one caller at a time: a queue of byte strings in
    one circular buffer. */
module MessageQueue {
  import opened ByteRing

  const HEAD_BYTES: nat := 12      // sizeof(QueueHead)

  /** memcpy between two different buffers. */
  method Memcpy(dst: array<byte>, d: nat, src: array<byte>, s: nat, n: nat)
    requires dst != src && d + n <= dst.Length && s + n <= src.Length
    modifies dst
    ensures forall k :: 0 <= k < dst.Length ==> dst[k] == if d <= k < d + n then src[s + k - d] else old(dst[k])
  {
    var i := 0;
    while i < n
      invariant 0 <= i <= n
      invariant forall k :: 0 <= k < dst.Length ==> dst[k] == if d <= k < d + i then src[s + k - d] else old(dst[k])
    {
      dst[d + i] := src[s + i];
      i := i + 1;
    }
  }

  /** The shared memory that a queue is attached to: QueueHead, then the bytes of the ring. */
  class Region {
    var headIdx: int
    var tailIdx: int
    var size: int
    const buff: array<byte>
    ghost var msgs: seq<Message>    // accepted and not yet received, oldest first

    ghost predicate Valid()
      reads this, buff
    {
      buff.Length == size && 0 <= headIdx && 0 <= tailIdx && Queued(buff[..], headIdx, tailIdx, msgs)
    }

    /** And no frame that can ever be accepted is copied outside the ring. */
    ghost predicate Safe()
      reads this, buff
    {
      Valid() && NoneOverflows(size)
    }

    /** Memory of which nothing is known but that it is there. */
    constructor (bytes: nat, headIdx: int, tailIdx: int, size: int, content: seq<byte>)
      requires HEAD_BYTES <= bytes && |content| == bytes - HEAD_BYTES
      ensures this.headIdx == headIdx && this.tailIdx == tailIdx && this.size == size && fresh(buff) && buff[..] == content
    {
      this.headIdx, this.tailIdx, this.size, msgs := headIdx, tailIdx, size, [];
      buff := new byte[|content|](i requires 0 <= i < |content| => content[i]);
    }
  }

  datatype Outcome =
    | Sent
    | Refused
    | Outside   // the frame was accepted, but its copy would pass the end of the ring

  class MessageQueue {
    var queue: Region?

    constructor ()
      ensures queue == null
    {
      queue := null;
    }

    /** Attach to a region of the given number of bytes. With initHead it becomes an empty queue if
        its size fits an int, and one that is safe for all messages exactly up to SAFE_SIZE;
        otherwise it is taken as the other process has left it. */
    method Attach(region: Region, bytes: nat, initHead: bool)
      requires bytes < LIMIT && (bytes >= HEAD_BYTES ==> region.buff.Length == bytes - HEAD_BYTES)
      modifies this, region
      ensures queue == if bytes >= HEAD_BYTES + VACUUM then region else old(queue)
      ensures bytes >= HEAD_BYTES + VACUUM && initHead ==>
        && region.msgs == [] && (region.Valid() <==> bytes - HEAD_BYTES < INT_LIMIT)
        && (region.Safe() <==> bytes - HEAD_BYTES <= SAFE_SIZE)
      ensures bytes < HEAD_BYTES + VACUUM || !initHead ==> unchanged(region)
    {
      if bytes < HEAD_BYTES + VACUUM {
        return;
      }
      queue := region;
      if initHead {
        region.headIdx, region.tailIdx, region.size := 0, 0, Signed(bytes - HEAD_BYTES);
        region.msgs := [];
        if bytes - HEAD_BYTES < INT_LIMIT {
          SafeSizes(bytes - HEAD_BYTES);
        }
      }
    }

    /** GetLeftSize never goes negative, and the two indices meet only when the queue is empty. */
    static lemma Sizes(q: Region)
      requires q.Valid()
      ensures UsedSize(q.size, q.headIdx, q.tailIdx) == |Frames(q.msgs)|
      ensures LeftSize(q.size, q.headIdx, q.tailIdx) == q.size - VACUUM - |Frames(q.msgs)| >= 0
      ensures q.headIdx == q.tailIdx <==> q.msgs == []
    {
      if q.msgs != [] {
        assert |Frames(q.msgs)| >= |Frame(q.msgs[0])| >= HEADER;
      }
    }

    /** SendMsg: the message is accepted exactly if its frame fits, and then queued exactly if the
        sum of its length and its place does not overflow. If it does, the source goes on to write
        beyond the ring and nothing is said of the queue; a safe queue never comes to that. */
    method SendMsg(buf: array?<byte>, length: nat) returns (r: Outcome)
      requires queue != null && queue.Valid() && length < LIMIT
      requires buf != null ==> length <= buf.Length && buf != queue.buff
      modifies queue`tailIdx, queue`msgs, queue.buff
      ensures queue == old(queue) && queue.headIdx == old(queue.headIdx) && queue.size == old(queue.size)
      ensures r == Refused <==> buf == null || |Frames(old(queue.msgs))| + HEADER + length + VACUUM > queue.size
      ensures r == Outside ==> Overflows(old(queue.tailIdx), length, queue.size) && queue.size > SAFE_SIZE
      ensures r == Sent ==> !Overflows(old(queue.tailIdx), length, queue.size)
      ensures r != Outside ==> queue.Valid()
      ensures r == Sent ==> queue.msgs == old(queue.msgs) + [buf[..length]]
      ensures r == Refused ==> queue.msgs == old(queue.msgs) && queue.tailIdx == old(queue.tailIdx) && queue.buff[..] == old(queue.buff[..])
    {
      if buf == null {
        return Refused;
      }
      Sizes(queue);
      var left := LeftSize(queue.size, queue.headIdx, queue.tailIdx);
      if Unsigned(left) < length + HEADER {
        return Refused;
      }
      SafeSizes(queue.size);
      r := Accept(buf, length);
    }

    /** SendMsg from line 109 on: a frame that fits. */
    method Accept(buf: array<byte>, length: nat) returns (r: Outcome)
      requires queue != null && queue.Valid() && length <= buf.Length && buf != queue.buff
      requires |Frames(queue.msgs)| + HEADER + length + VACUUM <= queue.size
      modifies queue`tailIdx, queue`msgs, queue.buff
      ensures queue == old(queue) && queue.headIdx == old(queue.headIdx) && queue.size == old(queue.size)
      ensures r == if Overflows(old(queue.tailIdx), length, queue.size) then Outside else Sent
      ensures r == Sent ==> queue.Valid() && queue.msgs == old(queue.msgs) + [buf[..length]]
    {
      ghost var b0, m := queue.buff[..], buf[..length];
      var inside, tail := WriteFrame(buf, length);
      if !inside {
        return Outside;
      }
      QueuedWritten(b0, queue.buff[..], queue.headIdx, queue.tailIdx, queue.msgs, m);
      queue.tailIdx := tail;
      queue.msgs := queue.msgs + [m];
      return Sent;
    }

    /** Writes the length and the payload at the tail; answers where the next frame will start. */
    method WriteFrame(buf: array<byte>, length: nat) returns (inside: bool, tail: nat)
      requires queue != null && queue.buff.Length == queue.size < INT_LIMIT && 0 <= queue.tailIdx < queue.size && HEADER + length <= queue.size
      requires length < LIMIT && length <= buf.Length && buf != queue.buff
      modifies queue.buff
      ensures inside <==> !Overflows(queue.tailIdx, length, queue.size)
      ensures inside ==> tail == Wrap(queue.tailIdx + HEADER + length, queue.size)
      ensures inside ==> Written(old(queue.buff[..]), queue.buff[..], queue.tailIdx, Frame(buf[..length]))
    {
      ghost var b0 := queue.buff[..];
      tail := WriteHeader(queue.tailIdx, length);
      ghost var b1 := queue.buff[..];
      inside := CopyIn(buf, length, tail);
      if inside {
        WrittenJoin(b0, b1, queue.buff[..], queue.tailIdx, Encode(length), buf[..length]);
        tail := Advance(tail, length, queue.size);
      }
    }

    /** The loop that writes the length byte by byte; answers the index after it. */
    method WriteHeader(start: nat, length: nat) returns (tail: nat)
      requires queue != null && queue.buff.Length == queue.size >= HEADER && start < queue.size && length < LIMIT
      modifies queue.buff
      ensures tail == Wrap(start + HEADER, queue.size) && Written(old(queue.buff[..]), queue.buff[..], start, Encode(length))
    {
      ghost var b0 := queue.buff[..];
      var bytes := Encode(length);
      tail := start;
      var i := 0;
      while i < HEADER
        invariant 0 <= i <= HEADER && tail == Wrap(start + i, queue.size)
        invariant Written(b0, queue.buff[..], start, bytes[..i])
      {
        ghost var b1 := queue.buff[..];
        queue.buff[tail] := bytes[i];
        assert Written(b1, queue.buff[..], tail, [bytes[i]]);
        WrittenJoin(b0, b1, queue.buff[..], start, bytes[..i], [bytes[i]]);
        assert bytes[..i] + [bytes[i]] == bytes[..i + 1];
        tail := Advance(tail, 1, queue.size);
        i := i + 1;
      }
      assert bytes[..i] == bytes;
    }

    /** The loop that reads the length byte by byte; answers the index after it. */
    method ReadHeader(start: nat, ghost n: nat) returns (head: nat, length: nat)
      requires queue != null && queue.buff.Length == queue.size >= HEADER && start < queue.size
      requires n < LIMIT && Holds(queue.buff[..], start, Encode(n))
      ensures head == Wrap(start + HEADER, queue.size) && length == n
    {
      ghost var bytes := Encode(n);
      var dst: seq<byte> := [];
      head := start;
      var i := 0;
      while i < HEADER
        invariant 0 <= i <= HEADER && head == Wrap(start + i, queue.size) && dst == bytes[..i]
      {
        assert queue.buff[..][Wrap(start + i, queue.size)] == bytes[i];
        dst := dst + [queue.buff[head]];
        head := Advance(head, 1, queue.size);
        i := i + 1;
      }
      assert bytes[..i] == bytes;
      length := Decode(dst);
      DecodeEncode(n);
    }

    /** The payload's way in, in two pieces when the sum says that it passes the end of the ring.
        When the sum overflows it does not say so, and the single copy would pass the end: there
        the model stops. */
    method CopyIn(buf: array<byte>, length: nat, tail: nat) returns (inside: bool)
      requires queue != null && queue.buff.Length == queue.size < INT_LIMIT && tail < queue.size
      requires length <= queue.size && length <= buf.Length && buf != queue.buff
      modifies queue.buff
      ensures inside <==> length + tail < INT_LIMIT
      ensures inside ==> Written(old(queue.buff[..]), queue.buff[..], tail, buf[..length])
      ensures !inside ==> tail + length > queue.size && queue.buff[..] == old(queue.buff[..])
    {
      SumInside(length, tail, queue.size);
      if Sum32(length, tail) > queue.size {
        Memcpy(queue.buff, tail, buf, 0, queue.size - tail);
        Memcpy(queue.buff, 0, buf, queue.size - tail, length - (queue.size - tail));
        return true;
      }
      if tail + length > queue.size {
        return false;
      }
      Memcpy(queue.buff, tail, buf, 0, length);
      return true;
    }

    /** The payload's way out. The sum does not overflow for a frame that has come in. */
    method CopyOut(buf: array<byte>, length: nat, head: nat, ghost m: seq<byte>)
      requires queue != null && queue.buff.Length == queue.size < INT_LIMIT && length <= buf.Length && buf != queue.buff
      requires |m| == length && Holds(queue.buff[..], head, m) && head + length < INT_LIMIT
      modifies buf
      ensures buf[..length] == m
      ensures forall k :: length <= k < buf.Length ==> buf[k] == old(buf[k])
    {
      ghost var b := queue.buff[..];
      SumInside(length, head, queue.size);
      if Sum32(head, length) > queue.size {
        Memcpy(buf, 0, queue.buff, head, queue.size - head);
        Memcpy(buf, queue.size - head, queue.buff, 0, length - (queue.size - head));
      } else {
        Memcpy(buf, 0, queue.buff, head, length);
      }
      forall i | 0 <= i < length
        ensures buf[i] == m[i]
      {
        assert b[Wrap(head + i, queue.size)] == m[i];
      }
    }

    /** RecvMsg into a buffer that is large enough for the oldest message. Its exits for a frame
        that is cut short are never taken. The caller's length was before. */
    method RecvMsg(buf: array?<byte>, before: nat) returns (ok: bool, length: nat)
      requires queue != null && queue.Valid()
      requires buf != null ==> buf != queue.buff && (queue.msgs != [] ==> |queue.msgs[0]| <= buf.Length)
      modifies queue`headIdx, queue`msgs, buf
      ensures queue == old(queue) && queue.Valid() && queue.tailIdx == old(queue.tailIdx) && queue.size == old(queue.size)
      ensures queue.buff[..] == old(queue.buff[..])
      ensures ok <==> buf != null && old(queue.msgs) != []
      ensures ok ==> length == |old(queue.msgs)[0]| && buf[..length] == old(queue.msgs)[0] && queue.msgs == old(queue.msgs)[1..]
      ensures ok ==> forall k :: length <= k < buf.Length ==> buf[k] == old(buf[k])
      ensures !ok ==> queue.msgs == old(queue.msgs) && length == (if buf == null then before else 0)
      ensures !ok ==> (buf != null ==> buf[..] == old(buf[..]))
    {
      length := before;
      if buf == null {
        return false, length;
      }
      length := 0;
      Sizes(queue);
      if queue.headIdx == queue.tailIdx {
        return false, length;
      }
      var used := UsedSize(queue.size, queue.headIdx, queue.tailIdx);
      ghost var head := queue.headIdx;
      queue.headIdx, length := ReadFrame(buf, used, queue.msgs[0], Frames(queue.msgs[1..]));
      QueuedLess(queue.buff[..], head, queue.tailIdx, queue.msgs);
      queue.msgs := queue.msgs[1..];
      return true, length;
    }

    /** Reads the frame of message m at the head; used is how many bytes are there to be read.
        The exits for too few bytes are never taken. Answers where the next frame starts. */
    method ReadFrame(buf: array<byte>, used: nat, ghost m: Message, ghost rest: seq<byte>) returns (head: nat, length: nat)
      requires queue != null && queue.buff.Length == queue.size < INT_LIMIT && buf != queue.buff && |m| <= buf.Length
      requires 0 <= queue.headIdx < queue.size && !Overflows(queue.headIdx, |m|, queue.size)
      requires Holds(queue.buff[..], queue.headIdx, Frame(m) + rest) && used == |Frame(m) + rest| < queue.size
      modifies buf
      ensures length == |m| && buf[..length] == m && (forall k :: length <= k < buf.Length ==> buf[k] == old(buf[k]))
      ensures head == Wrap(queue.headIdx + HEADER + |m|, queue.size)
    {
      if used < HEADER {
        assert false;
      }
      FrameHeld(queue.buff[..], queue.headIdx, m, rest);
      head, length := ReadHeader(queue.headIdx, |m|);
      if length > used - HEADER {
        assert false;
      }
      ghost var b := queue.buff[..];
      CopyOut(buf, length, head, m);
      assert queue.buff[..] == b;
      head := Advance(head, length, queue.size);
    }
  }

  /** Where the parts of the oldest frame are. */
  lemma FrameHeld(b: seq<byte>, h: nat, m: Message, rest: seq<byte>)
    requires Holds(b, h, Frame(m) + rest) && |Frame(m) + rest| < |b|
    ensures Holds(b, h, Encode(|m|)) && Holds(b, Wrap(h + HEADER, |b|), m)
    ensures Holds(b, Wrap(h + HEADER + |m|, |b|), rest)
    ensures Wrap(Wrap(h + HEADER, |b|) + |m|, |b|) == Wrap(h + HEADER + |m|, |b|)
    ensures Wrap(Wrap(h + HEADER + |m|, |b|) + |rest|, |b|) == Wrap(h + |Frame(m) + rest|, |b|)
  {
    assert Frame(m) + rest == Encode(|m|) + (m + rest);
    HoldsPart(b, h, Encode(|m|), m + rest);
    HoldsPart(b, Wrap(h + HEADER, |b|), m, rest);
  }
}
