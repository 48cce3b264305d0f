/** One sending and one receiving process on the same message queue, interleaved byte by byte.

    Each process reads its own index and a snapshot of the other's, which may be stale by the
    time it is used, then moves single bytes, then publishes its own index. Every step is taken
    to be atomic and seen by the other process in the order taken (the source has no fences);
    every interleaving of such steps is considered. */
module SpscRing {
  import opened ByteRing

  /** Where SendMsg is: idle; has read head_idx; has written k bytes of the frame of msg. The
      number seen counts the messages that had been received when head_idx was read; it records
      history and is not looked at by any step. */
  datatype Sender =
    | SIdle
    | SGotHead(msg: Message, head: nat, seen: nat)
    | SWriting(msg: Message, at: nat, k: nat)

  /** Where RecvMsg is: idle; has read head_idx; has read bytes got of the avail bytes that the
      snapshot of tail_idx allows. The number seen counts the messages sent at that moment. */
  datatype Receiver =
    | RIdle
    | RGotHead(head: nat)
    | RReading(head: nat, avail: nat, got: seq<byte>, seen: nat)

  datatype State = State(
    head: nat, tail: nat, buff: seq<byte>,   // shared memory
    sender: Sender, receiver: Receiver,
    sent: seq<Message>, received: seq<Message>,
    malformed: bool,                          // RecvMsg has left by one of its exits for bad frames
    outside: bool)                            // a byte has been placed beyond the end of the ring

  function Init(buff: seq<byte>): State {
    State(0, 0, buff, SIdle, RIdle, [], [], false, false)
  }

  /** The bytes the sender may not touch: published and not yet released. */
  function Unread(s: State): seq<Message>
    requires |s.received| <= |s.sent|
  {
    s.sent[|s.received|..]
  }

  ghost predicate Shape(s: State) {
    && VACUUM <= |s.buff| && s.head < |s.buff| && s.tail < |s.buff| && s.received <= s.sent
    && (s.sender.SGotHead? ==> s.sender.head < |s.buff|)
    && (s.sender.SWriting? ==> s.sender.at < |s.buff|)
    && (s.receiver.RGotHead? ==> s.receiver.head < |s.buff|)
    && (s.receiver.RReading? ==> s.receiver.head < |s.buff|)
  }

  /** One step of the sending process; msg is the next message when it is idle. */
  function SenderStep(s: State, msg: Message): State
    requires Shape(s)
  {
    match s.sender
    case SIdle => s.(sender := SGotHead(msg, s.head, |s.received|))
    case SGotHead(m, h, _) =>
      if Unsigned(LeftSize(|s.buff|, h, s.tail)) < |m| + HEADER then s.(sender := SIdle)
      else s.(sender := SWriting(m, s.tail, 0))
    case SWriting(m, t, k) =>
      if k < |Frame(m)| then
        var p := Place(t, k, |m|, |s.buff|);
        if p >= |s.buff| then s.(outside := true)
        else s.(buff := s.buff[p := Frame(m)[k]], sender := SWriting(m, t, k + 1))
      else
        s.(tail := Advance(t, k, |s.buff|), sender := SIdle, sent := s.sent + [m])
  }

  /** The length announced by the first four bytes read. */
  function Announced(got: seq<byte>): nat
    requires HEADER <= |got|
  {
    Decode(got[..HEADER])
  }

  /** One step of the receiving process. */
  function ReceiverStep(s: State): State
    requires Shape(s)
  {
    match s.receiver
    case RIdle => s.(receiver := RGotHead(s.head))
    case RGotHead(h) =>
      var used := UsedSize(|s.buff|, h, s.tail);
      if h == s.tail then s.(receiver := RIdle)
      else if used < HEADER then s.(receiver := RIdle, malformed := true)
      else s.(receiver := RReading(h, used, [], |s.sent|))
    case RReading(h, avail, got, seen) =>
      if |got| < HEADER || (Announced(got) <= avail - HEADER && |got| < HEADER + Announced(got)) then
        var p := Place(h, |got|, if |got| < HEADER then 0 else Announced(got), |s.buff|);
        if p >= |s.buff| then s.(outside := true)
        else s.(receiver := RReading(h, avail, got + [s.buff[p]], seen))
      else if Announced(got) > avail - HEADER then
        s.(receiver := RIdle, malformed := true)
      else
        var n := Announced(got);
        s.(head := Advance(h, HEADER + n, |s.buff|), receiver := RIdle,
           received := s.received + [got[HEADER..HEADER + n]])
  }

  // ---------- the invariant ----------

  ghost predicate SenderInv(s: State)
    requires |s.received| <= |s.sent| && s.tail < |s.buff|
  {
    var n := |s.buff|;
    match s.sender
    case SIdle => true
    case SGotHead(_, h, seen) =>
      && seen <= |s.received| && h < n && |Frames(s.sent[seen..])| + VACUUM <= n
      && s.tail == Wrap(h + |Frames(s.sent[seen..])|, n)
    case SWriting(m, t, k) =>
      && t == s.tail && k <= |Frame(m)| && |Frames(Unread(s))| + |Frame(m)| + VACUUM <= n
      && Holds(s.buff, t, Frame(m)[..k])
      && (Overflows(t, |m|, n) ==> k <= HEADER + (n - Advance(t, HEADER, n)))
  }

  ghost predicate ReceiverInv(s: State)
    requires |s.received| <= |s.sent|
  {
    match s.receiver
    case RIdle => true
    case RGotHead(h) => h == s.head
    case RReading(h, avail, got, seen) =>
      && h == s.head && |s.received| < seen <= |s.sent|
      && avail == |Frames(s.sent[|s.received|..seen])|
      && |got| <= |Frame(s.sent[|s.received|])| && got == Frame(s.sent[|s.received|])[..|got|]
  }

  /** The buffer holds exactly the frames of the unread messages between the two indices, and
      nothing has been placed outside it. */
  ghost predicate Inv(s: State) {
    && !s.outside && !s.malformed && s.received <= s.sent && Queued(s.buff, s.head, s.tail, Unread(s))
    && SenderInv(s) && ReceiverInv(s)
  }

  lemma InvShape(s: State)
    requires Inv(s)
    ensures Shape(s)
  {
  }

  /** Fewer messages, fewer bytes. */
  lemma FramesSuffix(ms: seq<Message>, i: nat, j: nat)
    requires i <= j <= |ms|
    ensures |Frames(ms[j..])| <= |Frames(ms[i..])|
  {
    FramesAppend(ms[i..j], ms[j..]);
    assert ms[i..] == ms[i..j] + ms[j..];
  }

  lemma LeftExact(n: nat, h: nat, t: nat, used: nat)
    requires h < n && used + VACUUM <= n && t == Wrap(h + used, n)
    ensures LeftSize(n, h, t) == n - VACUUM - used >= 0 && UsedSize(n, h, t) == used
    ensures h == t <==> used == 0
  {
  }

  lemma SenderChecks(s: State, msg: Message)
    requires Inv(s) && s.sender.SGotHead? && Shape(s)
    ensures Inv(SenderStep(s, msg))
  {
    var SGotHead(m, h, seen) := s.sender;
    FramesSuffix(s.sent, seen, |s.received|);
    LeftExact(|s.buff|, h, s.tail, |Frames(s.sent[seen..])|);
  }

  /** The byte written lies beyond all unread ones, and beyond what was written of the frame. */
  lemma SenderWritesFreeByte(s: State)
    requires Inv(s) && s.sender.SWriting? && s.sender.k < |Frame(s.sender.msg)|
    ensures var p := Advance(s.sender.at, s.sender.k, |s.buff|);
      Ahead(s.head, p, |s.buff|) >= |Frames(Unread(s))| && Ahead(s.sender.at, p, |s.buff|) == s.sender.k
  {
  }

  /** The next byte of the frame goes outside the ring: the sum has overflowed, and what fits
      before the end has been written. */
  ghost predicate Leaving(s: State) {
    s.sender.SWriting? && s.sender.at < |s.buff| && s.sender.k < |Frame(s.sender.msg)|
    && Overflows(s.sender.at, |s.sender.msg|, |s.buff|) && s.sender.k == HEADER + (|s.buff| - Advance(s.sender.at, HEADER, |s.buff|))
  }

  lemma SenderPlaces(s: State)
    requires Inv(s) && s.sender.SWriting? && s.sender.k < |Frame(s.sender.msg)|
    ensures var p := Place(s.sender.at, s.sender.k, |s.sender.msg|, |s.buff|);
      if Leaving(s) then p >= |s.buff| else p == Advance(s.sender.at, s.sender.k, |s.buff|)
  {
    PlaceExact(s.sender.at, s.sender.k, |s.sender.msg|, |s.buff|);
  }

  lemma SenderWrites(s: State, msg: Message)
    requires Inv(s) && s.sender.SWriting? && s.sender.k < |Frame(s.sender.msg)| && Shape(s) && !Leaving(s)
    ensures Inv(SenderStep(s, msg))
  {
    var SWriting(m, t, k) := s.sender;
    SenderPlaces(s);
    WrittenInv(s, s.(buff := s.buff[Advance(t, k, |s.buff|) := Frame(m)[k]], sender := SWriting(m, t, k + 1)));
  }

  lemma WrittenInv(s: State, r: State)
    requires Inv(s) && s.sender.SWriting? && s.sender.k < |Frame(s.sender.msg)| && !Leaving(s)
    requires var SWriting(m, t, k) := s.sender;
      r == s.(buff := s.buff[Advance(t, k, |s.buff|) := Frame(m)[k]], sender := SWriting(m, t, k + 1))
    ensures Inv(r)
  {
    var SWriting(m, t, k) := s.sender;
    var p, v := Advance(t, k, |s.buff|), Frame(m)[k];
    SenderWritesFreeByte(s);
    QueuedUpdate(s.buff, s.head, s.tail, Unread(s), p, v);
    HoldsUpdate(s.buff, t, Frame(m)[..k], p, v);
    HoldsExtend(r.buff, t, Frame(m)[..k], v);
    assert Frame(m)[..k] + [v] == Frame(m)[..k + 1];
  }

  lemma SenderPublishes(s: State, msg: Message)
    requires Inv(s) && s.sender.SWriting? && s.sender.k == |Frame(s.sender.msg)| && Shape(s)
    ensures Inv(SenderStep(s, msg))
  {
    var m := s.sender.msg;
    var r := SenderStep(s, msg);
    assert Frame(m)[..s.sender.k] == Frame(m);
    assert Unread(r) == Unread(s) + [m];
    QueuedMore(s.buff, s.head, s.tail, Unread(s), m);
    if s.receiver.RReading? {
      assert r.sent[|s.received|..s.receiver.seen] == s.sent[|s.received|..s.receiver.seen];
    }
  }

  /** A step of the sender keeps the invariant, but for one that leaves the ring, and that can
      happen only in a ring of more than SAFE_SIZE bytes. */
  lemma SenderKeeps(s: State, msg: Message)
    requires Inv(s)
    ensures Shape(s)
    ensures if Leaving(s) then SenderStep(s, msg) == s.(outside := true) else Inv(SenderStep(s, msg))
    ensures Leaving(s) ==> |s.buff| > SAFE_SIZE
  {
    if Leaving(s) {
      SenderPlaces(s);
      SafeSizes(|s.buff|);
    } else {
      match s.sender
      case SIdle =>
      case SGotHead(_, _, _) => SenderChecks(s, msg);
      case SWriting(m, _, k) => if k < |Frame(m)| { SenderWrites(s, msg); } else { SenderPublishes(s, msg); }
    }
  }

  // ---------- the receiver ----------

  lemma FramesFirst(ms: seq<Message>, k: nat)
    requires 0 < k <= |ms|
    ensures |Frame(ms[0])| <= |Frames(ms[..k])| && |Frame(ms[0])| >= HEADER
    ensures Frames(ms) == Frame(ms[0]) + Frames(ms[1..])
  {
    assert ms[..k][0] == ms[0];
  }

  lemma HeaderRead(m: Message, got: seq<byte>)
    requires HEADER <= |got| <= |Frame(m)| && got == Frame(m)[..|got|]
    ensures Announced(got) == |m|
  {
    assert got[..HEADER] == Encode(|m|);
    DecodeEncode(|m|);
  }

  lemma ReceiverChecks(s: State)
    requires Inv(s) && s.receiver.RGotHead? && Shape(s)
    ensures Inv(ReceiverStep(s))
  {
    var h := s.receiver.head;
    LeftExact(|s.buff|, h, s.tail, |Frames(Unread(s))|);
    if h != s.tail {
      FramesFirst(Unread(s), |Unread(s)|);
      assert Unread(s)[..|Unread(s)|] == Unread(s) == s.sent[|s.received|..|s.sent|];
    }
  }

  /** What the receiver has read of the oldest unread message decides its next step: read on
      while bytes are missing, then release. The exit for a malformed frame is not taken. */
  lemma ReceiverDecides(s: State)
    requires Inv(s) && s.receiver.RReading? && Shape(s)
    ensures |s.received| < |s.sent|
    ensures var m := s.sent[|s.received|]; var RReading(h, avail, got, seen) := s.receiver;
      && (HEADER <= |got| ==> Announced(got) == |m| && Announced(got) <= avail - HEADER)
      && (|got| < |Frame(m)| <==>
            |got| < HEADER || (Announced(got) <= avail - HEADER && |got| < HEADER + Announced(got)))
      && |Frame(m)| <= avail <= |Frames(Unread(s))|
  {
    var m, got := s.sent[|s.received|], s.receiver.got;
    var ms, k := Unread(s), s.receiver.seen - |s.received|;
    assert ms[0] == m && ms[..k] == s.sent[|s.received|..s.receiver.seen];
    FramesFirst(ms, k);
    FramesAppend(ms[..k], ms[k..]);
    assert ms == ms[..k] + ms[k..];
    if HEADER <= |got| {
      HeaderRead(m, got);
    }
  }

  /** Each byte read lies among the published ones and is the next byte of the oldest message. */
  lemma ReceiverReadsPublishedByte(s: State)
    requires Inv(s) && s.receiver.RReading? && |s.received| < |s.sent|
    requires |s.receiver.got| < |Frame(s.sent[|s.received|])|
    ensures |s.receiver.got| < |Frames(Unread(s))|
    ensures Place(s.receiver.head, |s.receiver.got|, |s.sent[|s.received|]|, |s.buff|) == Advance(s.receiver.head, |s.receiver.got|, |s.buff|)
    ensures s.buff[Advance(s.receiver.head, |s.receiver.got|, |s.buff|)] == Frame(s.sent[|s.received|])[|s.receiver.got|]
  {
    FramesFirst(Unread(s), 1);
    PlaceExact(s.receiver.head, |s.receiver.got|, |s.sent[|s.received|]|, |s.buff|);
    HoldsAt(s.buff, s.head, Frames(Unread(s)), |s.receiver.got|);
  }

  lemma ReceiverReads(s: State)
    requires Inv(s) && s.receiver.RReading? && |s.received| < |s.sent| && Shape(s)
    requires |s.receiver.got| < |Frame(s.sent[|s.received|])|
    ensures Inv(ReceiverStep(s))
    ensures var r := ReceiverStep(s);
      r.receiver.RReading? && |r.receiver.got| == |s.receiver.got| + 1 && r.sent == s.sent && r.received == s.received
  {
    ReceiverDecides(s);
    ReceiverReadsPublishedByte(s);
    OneByteMore(s, Frame(s.sent[|s.received|])[|s.receiver.got|]);
    assert ReceiverStep(s) == s.(receiver := s.receiver.(got := s.receiver.got + [Frame(s.sent[|s.received|])[|s.receiver.got|]]));
  }

  lemma OneByteMore(s: State, b: byte)
    requires Inv(s) && s.receiver.RReading? && |s.received| < |s.sent|
    requires |s.receiver.got| < |Frame(s.sent[|s.received|])| && b == Frame(s.sent[|s.received|])[|s.receiver.got|]
    ensures Inv(s.(receiver := s.receiver.(got := s.receiver.got + [b])))
  {
    var u, k := Frame(s.sent[|s.received|]), |s.receiver.got|;
    assert u[..k] + [b] == u[..k + 1];
  }

  lemma WholeFrame(m: Message, got: seq<byte>)
    requires |got| == |Frame(m)| && got == Frame(m)[..|got|]
    ensures got == Frame(m) && Announced(got) == |m| && got[HEADER..HEADER + |m|] == m
  {
    HeaderRead(m, got);
  }

  lemma ReceiverReleases(s: State)
    requires Inv(s) && s.receiver.RReading? && |s.received| < |s.sent| && Shape(s)
    requires |s.receiver.got| == |Frame(s.sent[|s.received|])|
    ensures Inv(ReceiverStep(s)) && ReceiverStep(s).received == s.received + [s.sent[|s.received|]]
    ensures ReceiverStep(s).receiver == RIdle && ReceiverStep(s).sent == s.sent
  {
    var m, got := s.sent[|s.received|], s.receiver.got;
    ReceiverDecides(s);
    WholeFrame(m, got);
    ReleasedInv(s);
    assert ReceiverStep(s) == Released(s);
  }

  /** The oldest unread message is handed over and its bytes are given back. */
  function Released(s: State): State
    requires Shape(s) && |s.received| < |s.sent|
  {
    var m := s.sent[|s.received|];
    s.(head := Advance(s.head, HEADER + |m|, |s.buff|), receiver := RIdle, received := s.received + [m])
  }

  lemma ReleasedInv(s: State)
    requires Inv(s) && |s.received| < |s.sent| && Shape(s)
    ensures Inv(Released(s))
  {
    var r := Released(s);
    assert Unread(r) == Unread(s)[1..] && Unread(s)[0] == s.sent[|s.received|];
    QueuedLess(s.buff, s.head, s.tail, Unread(s));
  }

  lemma ReceiverKeeps(s: State)
    requires Inv(s)
    ensures Shape(s) && Inv(ReceiverStep(s))
  {
    match s.receiver
    case RIdle =>
    case RGotHead(_) => ReceiverChecks(s);
    case RReading(_, _, got, _) =>
      ReceiverDecides(s);
      if |got| < |Frame(s.sent[|s.received|])| { ReceiverReads(s); } else { ReceiverReleases(s); }
  }

  // ---------- all interleavings ----------

  /** A schedule says who moves next; a sender that is idle starts on the given message. */
  datatype Move = Send(msg: Message) | Recv

  /** Once a byte has been placed outside the ring nothing is said of what follows. */
  ghost predicate Known(s: State) { s.outside || Inv(s) }

  ghost function Step(s: State, move: Move): (r: State)
    requires Known(s)
    ensures Known(r) && |r.buff| == |s.buff| && (r.outside && !s.outside ==> |s.buff| > SAFE_SIZE)
  {
    if s.outside then s else
      InvShape(s);
      match move
      case Send(msg) => SenderKeeps(s, msg); SenderStep(s, msg)
      case Recv => ReceiverKeeps(s); ReceiverStep(s)
  }

  ghost function Run(s: State, moves: seq<Move>): (r: State)
    requires Known(s)
    ensures Known(r) && |r.buff| == |s.buff| && (r.outside && !s.outside ==> |s.buff| > SAFE_SIZE)
    decreases |moves|
  {
    if moves == [] then s else Run(Step(s, moves[0]), moves[1..])
  }

  /** Under every interleaving, unless a frame has left the ring, the messages received are a
      prefix of those sent, in order and byte for byte, no frame looks malformed, and the indices
      meet only when all that was sent has been received. No frame leaves a ring of up to
      SAFE_SIZE bytes. */
  lemma ReceivedIsPrefixOfSent(buff: seq<byte>, moves: seq<Move>)
    requires VACUUM <= |buff| < INT_LIMIT
    ensures Inv(Init(buff))
    ensures var r := Run(Init(buff), moves);
      && (|buff| <= SAFE_SIZE ==> !r.outside)
      && (!r.outside ==>
            && r.received <= r.sent && !r.malformed && (r.head == r.tail <==> r.received == r.sent)
            && Holds(r.buff, r.head, Frames(r.sent[|r.received|..])))
  {
    var r := Run(Init(buff), moves);
    if !r.outside {
      LeftExact(|r.buff|, r.head, r.tail, |Frames(Unread(r))|);
      if r.received != r.sent {
        FramesFirst(Unread(r), |Unread(r)|);
      }
    }
  }

  // ---------- each process by itself ----------

  function Repeat(move: Move, n: nat): seq<Move> {
    seq(n, _ => move)
  }

  lemma RunMore(s: State, move: Move, n: nat)
    requires Known(s) && n > 0
    ensures Run(s, Repeat(move, n)) == Run(Step(s, move), Repeat(move, n - 1))
  {
    assert Repeat(move, n)[1..] == Repeat(move, n - 1);
  }

  lemma {:induction false} RunOutside(s: State, moves: seq<Move>)
    requires s.outside
    ensures Run(s, moves) == s
    decreases |moves|
  {
    if moves != [] {
      RunOutside(s, moves[1..]);
    }
  }

  /** A message has been sent, or its frame has left the ring before it was. */
  ghost predicate SentOrLeft(s: State, r: State, m: Message) {
    r.sent == (if r.outside then s.sent else s.sent + [m]) && (!r.outside ==> r.sender == SIdle)
    && r.received == s.received && r.receiver == s.receiver && r.head == s.head
  }

  lemma WriteGoesOn(s: State, m: Message)
    requires Inv(s) && s.sender.SWriting? && s.sender.msg == m && s.sender.k < |Frame(m)| && !Leaving(s)
    ensures var r := Step(s, Send(m));
      Inv(r) && |r.buff| == |s.buff| && r == s.(buff := r.buff, sender := SWriting(m, s.tail, s.sender.k + 1))
  {
    SenderKeeps(s, m);
    SenderPlaces(s);
  }

  lemma WriteLeaves(s: State, m: Message)
    requires Inv(s) && Leaving(s) && s.sender.msg == m
    ensures Step(s, Send(m)) == s.(outside := true) && Overflows(s.tail, |m|, |s.buff|)
  {
    SenderKeeps(s, m);
  }

  lemma WriteEnds(s: State, m: Message)
    requires Inv(s) && s.sender.SWriting? && s.sender.msg == m && s.sender.k == |Frame(m)|
    ensures var r := Step(s, Send(m)); !r.outside && SentOrLeft(s, r, m) && !Overflows(s.tail, |m|, |s.buff|)
  {
    SenderKeeps(s, m);
  }

  lemma {:induction false} WritesToTheEnd(s: State, m: Message, left: nat)
    requires Inv(s) && left <= |Frame(m)| && s.sender == SWriting(m, s.tail, |Frame(m)| - left)
    ensures var r := Run(s, Repeat(Send(m), left + 1));
      SentOrLeft(s, r, m) && (r.outside <==> Overflows(s.tail, |m|, |s.buff|))
    decreases left
  {
    RunMore(s, Send(m), left + 1);
    var s1 := Step(s, Send(m));
    if Leaving(s) {
      WriteLeaves(s, m);
      RunOutside(s1, Repeat(Send(m), left));
    } else if left > 0 {
      WriteGoesOn(s, m);
      WritesToTheEnd(s1, m, left - 1);
    } else {
      WriteEnds(s, m);
      assert Repeat(Send(m), 0) == [];
    }
  }

  /** The first two steps of a sender: it looks at the indices and decides. */
  lemma SenderStarts(s: State, m: Message)
    requires Inv(s) && s.sender == SIdle
    ensures var r := Step(Step(s, Send(m)), Send(m));
      && Inv(r) && r.sent == s.sent && r.received == s.received && r.receiver == s.receiver && r.tail == s.tail && r.head == s.head
      && r.sender == if |Frames(Unread(s))| + |Frame(m)| + VACUUM <= |s.buff| then SWriting(m, s.tail, 0) else SIdle
  {
    LeftExact(|s.buff|, s.head, s.tail, |Frames(Unread(s))|);
    SenderKeeps(s, m);
    SenderKeeps(Step(s, Send(m)), m);
  }

  lemma SendFits(s: State, m: Message)
    requires Inv(s) && s.sender == SIdle && |Frames(Unread(s))| + |Frame(m)| + VACUUM <= |s.buff|
    ensures var r := Run(s, Repeat(Send(m), |Frame(m)| + 3));
      SentOrLeft(s, r, m) && (r.outside <==> Overflows(s.tail, |m|, |s.buff|))
  {
    RunMore(s, Send(m), |Frame(m)| + 3);
    RunMore(Step(s, Send(m)), Send(m), |Frame(m)| + 2);
    SenderStarts(s, m);
    WritesToTheEnd(Step(Step(s, Send(m)), Send(m)), m, |Frame(m)|);
  }

  lemma SendDoesNotFit(s: State, m: Message)
    requires Inv(s) && s.sender == SIdle && |Frames(Unread(s))| + |Frame(m)| + VACUUM > |s.buff|
    ensures var r := Run(s, Repeat(Send(m), 2));
      r.sender == SIdle && r.received == s.received && r.sent == s.sent && !r.outside
  {
    RunMore(s, Send(m), 2);
    RunMore(Step(s, Send(m)), Send(m), 1);
    SenderStarts(s, m);
    assert Repeat(Send(m), 0) == [];
  }

  /** A sender that runs by itself does what SendMsg does: it starts to write exactly if the frame
      fits beside the unread ones, and then the message is sent exactly if the sum of its length
      and its place does not overflow; if it does the frame leaves the ring. */
  lemma SendAlone(s: State, m: Message)
    requires Inv(s) && s.sender == SIdle
    ensures var fits := |Frames(Unread(s))| + |Frame(m)| + VACUUM <= |s.buff|;
      var r := Run(s, Repeat(Send(m), if fits then |Frame(m)| + 3 else 2));
      && (r.outside <==> fits && Overflows(s.tail, |m|, |s.buff|))
      && (!r.outside ==> r.sender == SIdle && r.received == s.received && r.sent == if fits then s.sent + [m] else s.sent)
  {
    if |Frames(Unread(s))| + |Frame(m)| + VACUUM <= |s.buff| {
      SendFits(s, m);
    } else {
      SendDoesNotFit(s, m);
    }
  }

  lemma {:induction false} ReadsToTheEnd(s: State, left: nat)
    requires Inv(s) && s.receiver.RReading? && |s.received| < |s.sent|
    requires |s.receiver.got| + left == |Frame(s.sent[|s.received|])|
    ensures Taken(s, Run(s, Repeat(Recv, left + 1)))
    decreases left
  {
    RunMore(s, Recv, left + 1);
    ReadStep(s);
    if left > 0 {
      ReadsToTheEnd(Step(s, Recv), left - 1);
    } else {
      assert Repeat(Recv, 0) == [];
    }
  }

  lemma ReadStep(s: State)
    requires Inv(s) && s.receiver.RReading? && |s.received| < |s.sent|
    ensures var r := Step(s, Recv); var n := |Frame(s.sent[|s.received|])|;
      && |s.receiver.got| <= n && Inv(r) && r.sent == s.sent && r.sender == s.sender && r.tail == s.tail
      && (|s.receiver.got| < n ==>
            r.received == s.received && r.receiver.RReading? && |r.receiver.got| == |s.receiver.got| + 1)
      && (|s.receiver.got| == n ==> Taken(s, r))
  {
    InvShape(s);
    ReceiverKeeps(s);
    if |s.receiver.got| < |Frame(s.sent[|s.received|])| {
      ReceiverReads(s);
    } else {
      ReceiverReleases(s);
    }
  }

  /** The oldest unread message has been received. */
  ghost predicate Taken(s: State, r: State)
    requires |s.received| < |s.sent|
  {
    r.receiver == RIdle && r.sent == s.sent && r.received == s.received + [s.sent[|s.received|]] && !r.outside
    && r.sender == s.sender && r.tail == s.tail
  }

  lemma ReceiveNothing(s: State)
    requires Inv(s) && s.receiver == RIdle && s.received == s.sent
    ensures var r := Run(s, Repeat(Recv, 2)); r.receiver == RIdle && r.sent == s.sent && r.received == s.received
  {
    RunMore(s, Recv, 2);
    RunMore(Step(s, Recv), Recv, 1);
    LeftExact(|s.buff|, s.head, s.tail, |Frames(Unread(s))|);
    assert Run(Step(Step(s, Recv), Recv), Repeat(Recv, 0)) == Step(Step(s, Recv), Recv);
  }

  lemma ReceiveOne(s: State)
    requires Inv(s) && s.receiver == RIdle && |s.received| < |s.sent|
    ensures Taken(s, Run(s, Repeat(Recv, |Frame(s.sent[|s.received|])| + 3)))
  {
    var n := |Frame(s.sent[|s.received|])| + 3;
    RunMore(s, Recv, n);
    RunMore(Step(s, Recv), Recv, n - 1);
    ReceiverStarts(s);
    ReadsToTheEnd(Step(Step(s, Recv), Recv), n - 3);
  }

  /** The first two steps of a receiver: it looks at the indices and decides. */
  lemma ReceiverStarts(s: State)
    requires Inv(s) && s.receiver == RIdle && |s.received| < |s.sent|
    ensures var r := Step(Step(s, Recv), Recv);
      && Inv(r) && r.receiver.RReading? && r.receiver.got == [] && r.sent == s.sent && r.received == s.received
      && r.sender == s.sender && r.tail == s.tail
  {
    LeftExact(|s.buff|, s.head, s.tail, |Frames(Unread(s))|);
    FramesFirst(Unread(s), 1);
    ReceiverKeeps(s);
    ReceiverKeeps(Step(s, Recv));
  }

  /** A receiver that runs by itself does what RecvMsg does: it takes the oldest unread message,
      and nothing exactly if there is none. */
  lemma ReceiveAlone(s: State)
    requires Inv(s) && s.receiver == RIdle
    ensures var some := s.received != s.sent;
      (some ==> |s.received| < |s.sent|) &&
      var r := Run(s, Repeat(Recv, if some then |Frame(s.sent[|s.received|])| + 3 else 2));
      r.receiver == RIdle && r.sent == s.sent
      && r.received == if some then s.received + [s.sent[|s.received|]] else s.received
  {
    if s.received != s.sent {
      ReceiveOne(s);
    } else {
      ReceiveNothing(s);
    }
  }

  // ---------- rings that are too large ----------

  lemma {:induction false} RunJoin(s: State, moves: seq<Move>, more: seq<Move>)
    requires Known(s)
    ensures Run(s, moves + more) == Run(Run(s, moves), more)
    decreases |moves|
  {
    if moves == [] {
      assert moves + more == more;
    } else {
      assert (moves + more)[1..] == moves[1..] + more;
      RunJoin(Step(s, moves[0]), moves[1..], more);
    }
  }

  /** An idle, empty queue whose indices stand at a given place. */
  ghost predicate EmptyAt(s: State, at: nat) {
    Inv(s) && s.sender == SIdle && s.receiver == RIdle && s.received == s.sent && s.tail == at
  }

  /** From an empty queue, a message sent and received. */
  lemma PassOne(s: State, at: nat, m: Message) returns (moves: seq<Move>)
    requires EmptyAt(s, at) && |Frame(m)| + VACUUM <= |s.buff| && !Overflows(at, |m|, |s.buff|)
    ensures EmptyAt(Run(s, moves), Advance(at, |Frame(m)|, |s.buff|)) && |Run(s, moves).buff| == |s.buff|
  {
    assert Unread(s) == [];
    SendFits(s, m);
    var send := Repeat(Send(m), |Frame(m)| + 3);
    var s1 := Run(s, send);
    assert Unread(s1) == [m];
    FramesOne([], m);
    assert [] + [m] == [m];
    assert s.sent[|s.received|..] == [];
    HeadAtTail(s);
    ReceiveOne(s1);
    var receive := Repeat(Recv, |Frame(m)| + 3);
    RunJoin(s, send, receive);
    moves := send + receive;
  }

  lemma HeadAtTail(s: State)
    requires Inv(s) && s.received == s.sent
    ensures s.head == s.tail
  {
    assert Unread(s) == [];
  }

  /** In every larger ring some schedule makes an accepted frame leave the ring: two messages bring
      the indices to five bytes before the end, and the third is as long as an empty ring takes. */
  lemma LargeRingsLeave(buff: seq<byte>) returns (moves: seq<Move>)
    requires SAFE_SIZE < |buff| < INT_LIMIT
    ensures Inv(Init(buff)) && Run(Init(buff), moves).outside
  {
    var n := |buff|;
    var s := Init(buff);
    var first := PassOne(s, 0, []);
    var s1 := Run(s, first);
    var second := PassOne(s1, HEADER, seq(n - 13, _ => 0));
    var s2 := Run(s1, second);
    assert EmptyAt(s2, n - 5);
    var m: Message := seq(n - 12, _ => 0);
    assert Overflows(n - 5, |m|, n);
    assert Unread(s2) == [];
    SendFits(s2, m);
    var third := Repeat(Send(m), |Frame(m)| + 3);
    RunJoin(s, first, second);
    RunJoin(s, first + second, third);
    moves := first + second + third;
  }
}
