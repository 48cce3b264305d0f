/** Byte strings laid out in a circular buffer, and the frames of the message queue: each
    message is preceded by its length as a 32-bit number in the byte order of the host. */
module ByteRing {

  type byte = n: nat | n < 256

  const HEADER: nat := 4          // sizeof(unsigned int)
  const VACUUM: nat := 8          // QUEUE_VACUUM_SLOT
  const LIMIT: nat := 0x1_0000_0000

  type Message = m: seq<byte> | |m| < LIMIT

  /** The bytes of a 32-bit number, least significant first. */
  function Encode(n: nat): (s: seq<byte>)
    requires n < LIMIT
    ensures |s| == HEADER
  {
    [n % 256, n / 256 % 256, n / 65536 % 256, n / 16777216]
  }

  function Decode(s: seq<byte>): (n: nat)
    requires |s| == HEADER
    ensures n < LIMIT
  {
    (s[0] as int) + 256 * (s[1] as int) + 65536 * (s[2] as int) + 16777216 * (s[3] as int)
  }

  lemma DecodeEncode(n: nat)
    requires n < LIMIT
    ensures Decode(Encode(n)) == n
  {
    var n1 := n / 256;
    var n2 := n1 / 256;
    assert n2 == n / 65536;
    assert n2 / 256 == n / 16777216;
    assert n1 == 256 * n2 + n1 % 256 && n2 == 256 * (n2 / 256) + n2 % 256;
  }

  function Frame(m: Message): seq<byte> { Encode(|m|) + m }

  function Frames(ms: seq<Message>): seq<byte> {
    if ms == [] then [] else Frame(ms[0]) + Frames(ms[1..])
  }

  lemma {:induction false} FramesAppend(ms: seq<Message>, ns: seq<Message>)
    ensures Frames(ms + ns) == Frames(ms) + Frames(ns)
  {
    if ms == [] {
      assert ms + ns == ns;
    } else {
      assert (ms + ns)[1..] == ms[1..] + ns;
      FramesAppend(ms[1..], ns);
    }
  }

  lemma FramesOne(ms: seq<Message>, m: Message)
    ensures Frames(ms + [m]) == Frames(ms) + Frame(m)
  {
    FramesAppend(ms, [m]);
    assert Frames([m]) == Frame(m) + Frames([]);
  }

  // ---------- positions in a buffer of n bytes ----------

  function Wrap(x: nat, n: nat): nat
    requires x < 2 * n
  {
    if x < n then x else x - n
  }

  /** (idx + step) % size, the way every index moves. */
  function Advance(idx: nat, step: nat, size: nat): (r: nat)
    requires idx < size
    ensures r < size && (step <= size ==> r == Wrap(idx + step, size))
  {
    ModOnce(idx + step, size);
    (idx + step) % size
  }

  lemma ModOnce(x: nat, n: nat)
    requires 0 < n
    ensures x % n < n && (x < 2 * n ==> x % n == if x < n then x else x - n)
  {
    var q := x / n;
    assert x == q * n + x % n;
    if x < 2 * n {
      if q >= 2 {
        Multiple(q, 2, n);
      }
      if q < 0 {
        Multiple(0, q, n);
      }
    }
  }

  lemma Multiple(p: int, q: int, n: nat)
    requires p >= q
    ensures p * n >= q * n
  {
  }

  lemma AdvanceTwice(idx: nat, a: nat, b: nat, size: nat)
    requires idx < size && a + b <= size
    ensures Advance(Advance(idx, a, size), b, size) == Advance(idx, a + b, size)
  {
  }

  // ---------- 32-bit arithmetic ----------

  const INT_LIMIT: nat := 0x8000_0000

  /** Conversion of an int to unsigned int. */
  function Unsigned(x: int): int { if x < 0 then x + LIMIT else x }

  /** Conversion of an unsigned int to int. */
  function Signed(n: nat): int { if n < INT_LIMIT then n else n - LIMIT }

  /** The sum of two ints, which wraps when it leaves int. */
  function Sum32(x: nat, y: nat): int { Signed((x + y) % LIMIT) }

  /** Where SendMsg and RecvMsg place byte k of the frame of a payload of length bytes that starts
      at t: the header byte by byte, the payload in two pieces if the signed sum says that it
      passes the end of the ring. */
  function Place(t: nat, k: nat, length: nat, n: nat): nat
    requires t < n
  {
    if k < HEADER then Advance(t, k, n) else
      var start, j := Advance(t, HEADER, n), k - HEADER;
      if Sum32(length, start) > n && j >= n - start then j - (n - start) else start + j
  }

  /** The signed sum for that payload leaves int. */
  predicate Overflows(t: nat, length: nat, n: nat)
    requires t < n
  {
    Advance(t, HEADER, n) + length >= INT_LIMIT
  }

  lemma SumInside(x: nat, y: nat, n: nat)
    requires n < INT_LIMIT && x <= n && y < n
    ensures Sum32(x, y) == if x + y < INT_LIMIT then x + y else x + y - LIMIT
    ensures x + y >= INT_LIMIT ==> Sum32(x, y) < 0
  {
  }

  /** Each byte is placed where the indices go, or beyond the end of the ring; the latter exactly
      from the first byte that does not fit before the end, when the sum overflows. */
  lemma PlaceExact(t: nat, k: nat, length: nat, n: nat)
    requires t < n < INT_LIMIT && HEADER + length <= n && k < HEADER + length
    ensures Place(t, k, length, n) >= n <==> Overflows(t, length, n) && k >= HEADER + (n - Advance(t, HEADER, n))
    ensures Place(t, k, length, n) < n ==> Place(t, k, length, n) == Advance(t, k, n)
  {
    SumInside(length, Advance(t, HEADER, n), n);
    if k >= HEADER {
      AdvanceTwice(t, HEADER, k - HEADER, n);
    }
  }

  /** The largest ring in which no frame that fits makes the sum overflow. */
  const SAFE_SIZE: nat := 0x4000_0006

  ghost predicate NoneOverflows(n: nat) {
    forall t: nat, length: nat | t < n && HEADER + length + VACUUM <= n :: !Overflows(t, length, n)
  }

  lemma SafeSizes(n: nat)
    requires n < INT_LIMIT
    ensures NoneOverflows(n) <==> n <= SAFE_SIZE
  {
    if n > SAFE_SIZE {
      assert Advance(n - 5, HEADER, n) == n - 1;
      assert Overflows(n - 5, n - 12, n);
    }
  }

  /** None of the frames of ms, laid out from h on, makes the sum overflow. */
  ghost predicate Placed(h: nat, ms: seq<Message>, n: nat)
    requires h < n
    decreases |ms|
  {
    ms == [] || (!Overflows(h, |ms[0]|, n) && Placed(Advance(h, |Frame(ms[0])|, n), ms[1..], n))
  }

  lemma {:induction false} PlacedMore(h: nat, ms: seq<Message>, m: Message, n: nat)
    requires h < n && |Frames(ms)| <= n && Placed(h, ms, n) && !Overflows(Advance(h, |Frames(ms)|, n), |m|, n)
    ensures Placed(h, ms + [m], n)
    decreases |ms|
  {
    if ms == [] {
      assert [m][1..] == [];
    } else {
      AdvanceTwice(h, |Frame(ms[0])|, |Frames(ms[1..])|, n);
      PlacedMore(Advance(h, |Frame(ms[0])|, n), ms[1..], m, n);
      assert (ms + [m])[1..] == ms[1..] + [m];
    }
  }

  /** GetLeftSize. */
  function LeftSize(size: int, h: int, t: int): int {
    if t >= h then size - t + h - VACUUM else h - t - VACUUM
  }

  /** GetSize. */
  function UsedSize(size: int, h: int, t: int): int {
    if t >= h then t - h else size - h + t
  }

  /** How far k lies ahead of t. */
  function Ahead(t: nat, k: nat, n: nat): nat
    requires t < n && k < n
  {
    if k >= t then k - t else k + n - t
  }

  /** The buffer b holds the bytes s from position h on. */
  ghost predicate Holds(b: seq<byte>, h: nat, s: seq<byte>) {
    h < |b| && |s| <= |b| && forall i :: 0 <= i < |s| ==> b[Wrap(h + i, |b|)] == s[i]
  }

  /** b is b0 with the bytes s written from position t on, and nothing else changed. */
  ghost predicate Written(b0: seq<byte>, b: seq<byte>, t: nat, s: seq<byte>) {
    t < |b| == |b0| && |s| <= |b| &&
    forall k :: 0 <= k < |b| ==> b[k] == if Ahead(t, k, |b|) < |s| then s[Ahead(t, k, |b|)] else b0[k]
  }

  lemma WrittenJoin(b0: seq<byte>, b1: seq<byte>, b: seq<byte>, t: nat, s: seq<byte>, u: seq<byte>)
    requires Written(b0, b1, t, s) && |s| + |u| <= |b0| && Written(b1, b, Wrap(t + |s|, |b0|), u)
    ensures Written(b0, b, t, s + u)
  {
  }

  lemma HoldsJoin(b0: seq<byte>, b: seq<byte>, h: nat, s: seq<byte>, u: seq<byte>)
    requires Holds(b0, h, s) && |s| + |u| <= |b0| && Written(b0, b, Wrap(h + |s|, |b0|), u)
    ensures Holds(b, h, s + u)
  {
    forall i | 0 <= i < |s + u|
      ensures b[Wrap(h + i, |b|)] == (s + u)[i]
    {
      if i < |s| {
        assert b0[Wrap(h + i, |b|)] == s[i];
      }
    }
  }

  lemma HoldsPart(b: seq<byte>, h: nat, s: seq<byte>, u: seq<byte>)
    requires Holds(b, h, s + u)
    ensures Holds(b, h, s) && (|s| < |b| ==> Holds(b, Wrap(h + |s|, |b|), u))
  {
    forall i | 0 <= i < |s|
      ensures b[Wrap(h + i, |b|)] == s[i]
    {
      assert (s + u)[i] == s[i];
    }
    if |s| < |b| {
      forall i | 0 <= i < |u|
        ensures b[Wrap(Wrap(h + |s|, |b|) + i, |b|)] == u[i]
      {
        assert (s + u)[|s| + i] == u[i];
      }
    }
  }

  lemma HoldsConcat(b: seq<byte>, h: nat, s: seq<byte>, u: seq<byte>)
    requires Holds(b, h, s) && |s| + |u| <= |b| && |s| < |b| && Holds(b, Wrap(h + |s|, |b|), u)
    ensures Holds(b, h, s + u)
  {
    forall i | 0 <= i < |s + u|
      ensures b[Wrap(h + i, |b|)] == (s + u)[i]
    {
      if i < |s| {
        assert b[Wrap(h + i, |b|)] == s[i];
      } else {
        assert b[Wrap(Wrap(h + |s|, |b|) + (i - |s|), |b|)] == u[i - |s|];
      }
    }
  }

  lemma HoldsUpdate(b: seq<byte>, h: nat, s: seq<byte>, p: nat, v: byte)
    requires Holds(b, h, s) && p < |b| && Ahead(h, p, |b|) >= |s|
    ensures Holds(b[p := v], h, s)
  {
    forall i | 0 <= i < |s|
      ensures b[p := v][Wrap(h + i, |b|)] == s[i]
    {
      assert b[Wrap(h + i, |b|)] == s[i];
    }
  }

  lemma HoldsExtend(b: seq<byte>, h: nat, s: seq<byte>, v: byte)
    requires Holds(b, h, s) && |s| < |b| && b[Wrap(h + |s|, |b|)] == v
    ensures Holds(b, h, s + [v])
  {
    forall i | 0 <= i < |s| + 1
      ensures b[Wrap(h + i, |b|)] == (s + [v])[i]
    {
      if i < |s| {
        assert b[Wrap(h + i, |b|)] == s[i];
      }
    }
  }

  lemma HoldsAt(b: seq<byte>, h: nat, s: seq<byte>, i: nat)
    requires Holds(b, h, s) && i < |s|
    ensures b[Wrap(h + i, |b|)] == s[i]
  {
  }

  // ---------- the queue ----------

  /** The ring b holds the frames of ms from index h up to index t, none of which overflows. */
  ghost predicate Queued(b: seq<byte>, h: nat, t: nat, ms: seq<Message>) {
    && VACUUM <= |b| < INT_LIMIT && h < |b| && t < |b| && |Frames(ms)| + VACUUM <= |b|
    && t == Wrap(h + |Frames(ms)|, |b|) && Holds(b, h, Frames(ms)) && Placed(h, ms, |b|)
  }

  /** A frame written behind those queued. */
  lemma QueuedWritten(b0: seq<byte>, b: seq<byte>, h: nat, t: nat, ms: seq<Message>, m: Message)
    requires Queued(b0, h, t, ms) && |Frames(ms)| + |Frame(m)| + VACUUM <= |b0|
    requires Written(b0, b, t, Frame(m)) && !Overflows(t, |m|, |b0|)
    ensures Queued(b, h, Wrap(t + HEADER + |m|, |b|), ms + [m])
  {
    FramesOne(ms, m);
    HoldsJoin(b0, b, h, Frames(ms), Frame(m));
    PlacedMore(h, ms, m, |b0|);
  }

  /** A frame that is held behind those queued. */
  lemma QueuedMore(b: seq<byte>, h: nat, t: nat, ms: seq<Message>, m: Message)
    requires Queued(b, h, t, ms) && |Frames(ms)| + |Frame(m)| + VACUUM <= |b|
    requires Holds(b, t, Frame(m)) && !Overflows(t, |m|, |b|)
    ensures Queued(b, h, Advance(t, |Frame(m)|, |b|), ms + [m])
  {
    FramesOne(ms, m);
    HoldsConcat(b, h, Frames(ms), Frame(m));
    PlacedMore(h, ms, m, |b|);
  }

  /** The oldest frame taken away. */
  lemma QueuedLess(b: seq<byte>, h: nat, t: nat, ms: seq<Message>)
    requires Queued(b, h, t, ms) && ms != []
    ensures |Frame(ms[0])| + VACUUM <= |b| && Queued(b, Advance(h, HEADER + |ms[0]|, |b|), t, ms[1..])
  {
    HoldsPart(b, h, Frame(ms[0]), Frames(ms[1..]));
  }

  /** A byte changed beyond those queued. */
  lemma QueuedUpdate(b: seq<byte>, h: nat, t: nat, ms: seq<Message>, p: nat, v: byte)
    requires Queued(b, h, t, ms) && p < |b| && Ahead(h, p, |b|) >= |Frames(ms)|
    ensures Queued(b[p := v], h, t, ms)
  {
    HoldsUpdate(b, h, Frames(ms), p, v);
  }
}
