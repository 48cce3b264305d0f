/** How the wheel of buckets stands for the list of pending timers, and how the iterator of a
    bucket walk stands for a position in it. */
module TimerWheel {
  import opened Sequences
  import opened ArrayList
  import opened TimerModel
  import opened TimerLaws
  import TimerId

  /** Each bucket's ring holds the pending timers that hash to it, in queueing order. */
  ghost predicate Wheel(l: seq<Cell>, m: Sched) {
    forall b :: 0 <= b < BUCKETS ==> Ring(l, b, Bucket(m, b))
  }

  /** The links of the whole queue: the wheel, the free stack, and the node being run. */
  ghost predicate Links(l: seq<Cell>, top: int, m: Sched) {
    && |l| == BUCKETS + |m.nodes| && Wheel(l, m) && Stack(l, top, m.free)
    && (m.run.Some? && m.run.value < |m.nodes| ==> l[NodeCell(m.run.value)] == Cell(ORPHAN, ORPHAN))
  }

  lemma BucketOf(m: Sched, x: nat)
    requires Part(m) && x in m.pend
    ensures x in Bucket(m, Hash(m.nodes[x].expire))
    ensures forall b :: b != Hash(m.nodes[x].expire) ==> x !in Bucket(m, b)
  {
  }

  lemma BucketDistinct(m: Sched, b: nat)
    requires Part(m)
    ensures Distinct(Bucket(m, b))
  {
    FilterDistinct(m.pend, HashesTo(m.nodes, b));
  }

  /** The three tests that Cancel makes on a node's links tell where the node is. */
  lemma FlagsTell(l: seq<Cell>, top: int, m: Sched, x: nat)
    requires Part(m) && Links(l, top, m) && x < |m.nodes|
    ensures l[NodeCell(x)].next == ORPHAN <==> m.run == Some(x)
    ensures l[NodeCell(x)].next == IDLE <==> x in m.free
  {
    if x in m.free {
      var i :| 0 <= i < |m.free| && m.free[i] == x;
      StackNodeFlag(l, top, m.free, i);
    } else if x in m.pend {
      var b := Hash(m.nodes[x].expire);
      BucketOf(m, x);
      BucketDistinct(m, b);
      var i :| 0 <= i < |Bucket(m, b)| && Bucket(m, b)[i] == x;
      RingNodeFlags(l, b, Bucket(m, b), i);
    }
  }

  /** Buckets after a node has been queued. */
  lemma BucketPush(m: Sched, m2: Sched, x: nat, b: nat)
    requires Part(m) && x !in m.pend && x < |m.nodes| && m2.pend == m.pend + [x]
    requires |m2.nodes| == |m.nodes| && forall y :: 0 <= y < |m.nodes| && y != x ==> m2.nodes[y] == m.nodes[y]
    ensures Bucket(m2, b) == Bucket(m, b) + if b == Hash(m2.nodes[x].expire) then [x] else []
  {
    var f := HashesTo(m2.nodes, b);
    FilterAppend(m.pend, [x], f);
    FilterSame(m.pend, HashesTo(m.nodes, b), f);
    assert Filter([x], f) == if f(x) then [x] else [];
  }

  /** Buckets after a node has been taken out; its own data may change. */
  lemma BucketRemove(m: Sched, m2: Sched, x: nat, b: nat)
    requires Part(m) && x in m.pend && m2.pend == Remove(m.pend, x)
    requires |m2.nodes| == |m.nodes| && forall y :: 0 <= y < |m.nodes| && y != x ==> m2.nodes[y] == m.nodes[y]
    ensures Bucket(m2, b) == Remove(Bucket(m, b), x)
  {
    RemoveDistinct(m.pend, x);
    FilterRemove(m.pend, x, HashesTo(m.nodes, b));
    FilterSame(m2.pend, HashesTo(m.nodes, b), HashesTo(m2.nodes, b));
  }

  lemma BucketSame(m: Sched, m2: Sched, b: nat)
    requires (forall y :: y in m.pend ==> y < |m.nodes|) && m2.pend == m.pend && |m2.nodes| == |m.nodes|
    requires forall x :: x in m.pend ==> m2.nodes[x].expire == m.nodes[x].expire
    ensures Bucket(m2, b) == Bucket(m, b)
  {
    FilterSame(m.pend, HashesTo(m.nodes, b), HashesTo(m2.nodes, b));
  }

  /** l2 differs from l only in the cells of bucket b's ring and of node x. */
  ghost predicate OnlyBucket(l: seq<Cell>, l2: seq<Cell>, m: Sched, b: nat, x: nat) {
    && |l2| == |l|
    && (forall k :: 0 <= k < BUCKETS && k != b && k < |l| ==> l2[k] == l[k])
    && (forall y :: 0 <= y < |m.nodes| && y != x && y !in Bucket(m, b) && NodeCell(y) < |l| ==> l2[NodeCell(y)] == l[NodeCell(y)])
  }

  lemma OtherRings(l: seq<Cell>, l2: seq<Cell>, m: Sched, b: nat, x: nat, b2: nat)
    requires Part(m) && Wheel(l, m) && OnlyBucket(l, l2, m, b, x) && b2 < BUCKETS && b2 != b
    requires x !in Bucket(m, b2)
    ensures Ring(l2, b2, Bucket(m, b2))
  {
    assert Ring(l, b2, Bucket(m, b2));
    forall y | y in Bucket(m, b2)
      ensures SameAt(l, l2, NodeCell(y))
    {
      assert y !in Bucket(m, b);
    }
    RingFrame(l, l2, b2, Bucket(m, b2));
  }

  lemma FreeUntouched(l: seq<Cell>, l2: seq<Cell>, top: int, m: Sched, free: seq<nat>, b: nat, x: nat)
    requires Part(m) && Stack(l, top, free) && OnlyBucket(l, l2, m, b, x) && x !in free
    requires |l| == BUCKETS + |m.nodes| && forall y :: y in free ==> y !in m.pend
    ensures Stack(l2, top, free)
  {
    forall y | y in free
      ensures SameAt(l, l2, NodeCell(y))
    {
      assert y !in Bucket(m, b);
    }
    StackFrame(l, l2, top, free);
  }

  lemma WheelPushAt(l: seq<Cell>, l2: seq<Cell>, m: Sched, m2: Sched, x: nat, b: nat, b2: nat)
    requires Part(m) && Wheel(l, m) && x !in m.pend && x < |m.nodes| && m2.pend == m.pend + [x]
    requires |m2.nodes| == |m.nodes| && forall y :: 0 <= y < |m.nodes| && y != x ==> m2.nodes[y] == m.nodes[y]
    requires b == Hash(m2.nodes[x].expire) && OnlyBucket(l, l2, m, b, x) && Ring(l2, b, Bucket(m, b) + [x])
    requires b2 < BUCKETS
    ensures Ring(l2, b2, Bucket(m2, b2))
  {
    BucketPush(m, m2, x, b2);
    if b2 != b {
      OtherRings(l, l2, m, b, x, b2);
      assert Bucket(m2, b2) == Bucket(m, b2);
    }
  }

  lemma WheelPush(l: seq<Cell>, l2: seq<Cell>, m: Sched, m2: Sched, x: nat, b: nat)
    requires Part(m) && Wheel(l, m) && x !in m.pend && x < |m.nodes| && m2.pend == m.pend + [x]
    requires |m2.nodes| == |m.nodes| && forall y :: 0 <= y < |m.nodes| && y != x ==> m2.nodes[y] == m.nodes[y]
    requires b == Hash(m2.nodes[x].expire) && OnlyBucket(l, l2, m, b, x) && Ring(l2, b, Bucket(m, b) + [x])
    ensures Wheel(l2, m2)
  {
    forall b2 | 0 <= b2 < BUCKETS
      ensures Ring(l2, b2, Bucket(m2, b2))
    {
      WheelPushAt(l, l2, m, m2, x, b, b2);
    }
  }

  lemma WheelEraseAt(l: seq<Cell>, l2: seq<Cell>, m: Sched, m2: Sched, x: nat, b: nat, b2: nat)
    requires Part(m) && Wheel(l, m) && x in m.pend && m2.pend == Remove(m.pend, x)
    requires |m2.nodes| == |m.nodes| && forall y :: 0 <= y < |m.nodes| && y != x ==> m2.nodes[y] == m.nodes[y]
    requires b == Hash(m.nodes[x].expire) && OnlyBucket(l, l2, m, b, x) && Ring(l2, b, Remove(Bucket(m, b), x))
    requires b2 < BUCKETS
    ensures Ring(l2, b2, Bucket(m2, b2))
  {
    BucketRemove(m, m2, x, b2);
    if b2 != b {
      assert x !in Bucket(m, b2);
      OtherRings(l, l2, m, b, x, b2);
    }
  }

  lemma WheelErase(l: seq<Cell>, l2: seq<Cell>, m: Sched, m2: Sched, x: nat, b: nat)
    requires Part(m) && Wheel(l, m) && x in m.pend && m2.pend == Remove(m.pend, x)
    requires |m2.nodes| == |m.nodes| && forall y :: 0 <= y < |m.nodes| && y != x ==> m2.nodes[y] == m.nodes[y]
    requires b == Hash(m.nodes[x].expire) && OnlyBucket(l, l2, m, b, x) && Ring(l2, b, Remove(Bucket(m, b), x))
    ensures Wheel(l2, m2)
  {
    forall b2 | 0 <= b2 < BUCKETS
      ensures Ring(l2, b2, Bucket(m2, b2))
    {
      WheelEraseAt(l, l2, m, m2, x, b, b2);
    }
  }

  lemma WheelSame(l: seq<Cell>, m: Sched, m2: Sched)
    requires (forall y :: y in m.pend ==> y < |m.nodes|) && Wheel(l, m) && m2.pend == m.pend && |m2.nodes| == |m.nodes|
    requires forall x :: x in m.pend ==> m2.nodes[x].expire == m.nodes[x].expire
    ensures Wheel(l, m2)
  {
    forall b | 0 <= b < BUCKETS
      ensures Ring(l, b, Bucket(m2, b))
    {
      BucketSame(m, m2, b);
    }
  }

  /** Links of nodes outside the wheel do not matter to it. */
  lemma WheelFrame(l: seq<Cell>, l2: seq<Cell>, m: Sched, x: nat)
    requires (forall y :: y in m.pend ==> y < |m.nodes|) && Wheel(l, m) && |l2| == |l| && x !in m.pend
    requires forall k :: 0 <= k < |l| && k != NodeCell(x) ==> l2[k] == l[k]
    ensures Wheel(l2, m)
  {
    forall b | 0 <= b < BUCKETS
      ensures Ring(l2, b, Bucket(m, b))
    {
      assert Ring(l, b, Bucket(m, b));
      RingFrame(l, l2, b, Bucket(m, b));
    }
  }

  /** Changes confined to the cells around place i of a ring are confined to its bucket. */
  lemma OnlyRing(l: seq<Cell>, l2: seq<Cell>, m: Sched, b: nat, x: nat, i: nat, j: nat)
    requires i <= |Bucket(m, b)| && j <= |Bucket(m, b)| + 1 && |l2| == |l| && b < BUCKETS
    requires forall k :: 0 <= k < |l| && k != b && k != NodeCell(x) && k != At(b, Bucket(m, b), i) && k != At(b, Bucket(m, b), j) ==>
      l2[k] == l[k]
    ensures OnlyBucket(l, l2, m, b, x)
  {
    var ring := Bucket(m, b);
    assert 0 < i ==> ring[i - 1] in ring;
    assert 0 < j <= |ring| ==> ring[j - 1] in ring;
  }

  /** m2 is m with node x queued last; x came from the top of the free stack, or it was the node
      being run, so that nothing else refers to it. */
  ghost predicate Queued(m: Sched, m2: Sched, x: nat) {
    && x < |m.nodes| == |m2.nodes| && x !in m.pend && m2.pend == m.pend + [x]
    && (forall y :: 0 <= y < |m.nodes| && y != x ==> m2.nodes[y] == m.nodes[y])
    && (forall y :: y in m2.free ==> y != x && y !in m.pend)
    && (m2.run.Some? ==> m2.run == m.run && m2.run != Some(x))
  }

  lemma ScheduleQueues(m: Sched, ty: nat, delay: u32, period: u32, repeat: u32)
    requires Part(m) && ty < MAX_TYPES && m.free != [] && !(period == 0 && repeat > 1)
    ensures Queued(m, DoSchedule(m, ty, delay, period, repeat).0, m.free[0])
  {
    assert m.free[0] in m.free;
    DistinctTail(m.free);
  }

  lemma ScheduleFields(m: Sched, ty: nat, delay: u32, period: u32, repeat: u32, d: nat, x: nat)
    requires Part(m) && ty < MAX_TYPES && m.free != [] && !(period == 0 && repeat > 1)
    requires d == Max1(delay) && x == m.free[0]
    ensures x < |m.nodes|
    ensures var r := DoSchedule(m, ty, delay, period, repeat);
      var node := Node(Expiry(m.now, d), period, repeat, ty, TimerId.StepSeq(m.nodes[x].seqNo));
      && r.0.nodes == m.nodes[x := node] && r.0.counts == m.counts[ty := m.counts[ty] + 1]
      && r.0.free == m.free[1..] && r.0.run == m.run && r.0.fired == m.fired && r.0.now == m.now && r.0.cur == m.cur
      && r.1 == TimerId.Encode(TimerId.Parts(ty, x + 1, node.seqNo))
  {
    assert m.free[0] in m.free;
  }

  lemma EndQueues(m: Sched, rebase: bool)
    requires Part(m) && m.run.Some? && m.nodes[m.run.value].repeat != 0
    ensures Queued(m, End(m, rebase), m.run.value)
  {
  }

  /** The links after node x has been pushed on its bucket b. */
  lemma LinksPush(l: seq<Cell>, l2: seq<Cell>, top: int, m: Sched, m2: Sched, x: nat, b: nat)
    requires Part(m) && |l| == BUCKETS + |m.nodes| == |l2| && Wheel(l, m) && Stack(l, top, m2.free)
    requires Queued(m, m2, x)
    requires m.run.Some? ==> l[NodeCell(m.run.value)] == Cell(ORPHAN, ORPHAN)
    requires b == Hash(m2.nodes[x].expire) && Ring(l2, b, Bucket(m, b) + [x])
    requires forall k :: 0 <= k < |l| && k != b && k != NodeCell(x) && k != At(b, Bucket(m, b), |Bucket(m, b)|) ==>
      l2[k] == l[k]
    ensures Links(l2, top, m2)
  {
    OnlyRing(l, l2, m, b, x, |Bucket(m, b)|, |Bucket(m, b)|);
    WheelPush(l, l2, m, m2, x, b);
    FreeUntouched(l, l2, top, m, m2.free, b, x);
    if m2.run.Some? {
      assert m2.run.value !in Bucket(m, b);
    }
  }

  /** m2 is m with the pending node x taken out of the queue. */
  ghost predicate Unqueued(m: Sched, m2: Sched, x: nat) {
    && x < |m.nodes| == |m2.nodes| && x in m.pend && m2.pend == Remove(m.pend, x) && m2.free == m.free
    && (forall y :: 0 <= y < |m.nodes| && y != x ==> m2.nodes[y] == m.nodes[y])
    && (m2.run == m.run || m2.run == Some(x))
  }

  /** The links after the i-th node of a bucket has been erased from it. */
  lemma LinksErase(l: seq<Cell>, l2: seq<Cell>, top: int, m: Sched, m2: Sched, x: nat, b: nat, i: nat)
    requires Part(m) && Links(l, top, m) && |l2| == |l| && Unqueued(m, m2, x)
    requires b == Hash(m.nodes[x].expire) && i < |Bucket(m, b)| && Bucket(m, b)[i] == x
    requires Ring(l2, b, Bucket(m, b)[..i] + Bucket(m, b)[i + 1..]) && l2[NodeCell(x)] == Cell(ORPHAN, ORPHAN)
    requires forall k :: 0 <= k < |l| && k != b && k != NodeCell(x) && k != At(b, Bucket(m, b), i) && k != At(b, Bucket(m, b), i + 2) ==>
      l2[k] == l[k]
    ensures Links(l2, top, m2)
  {
    BucketDistinct(m, b);
    RemoveAt(Bucket(m, b), i);
    OnlyRing(l, l2, m, b, x, i, i + 2);
    WheelErase(l, l2, m, m2, x, b);
    FreeUntouched(l, l2, top, m, m.free, b, x);
    if m.run.Some? {
      assert m.run.value !in Bucket(m, b);
    }
  }

  /** The links after the orphan x has been put on the free stack. */
  lemma LinksFree(l: seq<Cell>, l2: seq<Cell>, top: int, m: Sched, m2: Sched, x: nat)
    requires (forall y :: y in m.pend ==> y < |m.nodes|) && x < |m.nodes| && x !in m.pend
    requires |l| == BUCKETS + |m.nodes| == |l2| && Wheel(l, m)
    requires m2.pend == m.pend && m2.nodes == m.nodes && Stack(l2, top, m2.free)
    requires m2.run.Some? ==> m2.run.value != x && m2.run.value < |m.nodes| && l[NodeCell(m2.run.value)] == Cell(ORPHAN, ORPHAN)
    requires forall k :: 0 <= k < |l| && k != NodeCell(x) ==> l2[k] == l[k]
    ensures Links(l2, top, m2)
  {
    WheelFrame(l, l2, m, x);
    WheelSame(l2, m, m2);
  }

  // ---------- the iterator of a walk over bucket pos at tick t ----------

  /** The iterator it stands at the j-th place of the bucket, and nothing before it is due. */
  ghost predicate StandsAt(m: Sched, pos: nat, t: nat, it: int, j: nat) {
    var ring := Bucket(m, pos);
    j <= |ring| && it == At(pos, ring, j + 1)
    && forall i :: 0 <= i < j ==> !DueAt(m.nodes, t)(ring[i])
  }

  ghost predicate Stands(m: Sched, pos: nat, t: nat, it: int) {
    exists j: nat :: StandsAt(m, pos, t, it, j)
  }

  /** Queueing a timer that is not due keeps the iterator where it is, even at the end. */
  lemma StandsPush(m: Sched, m2: Sched, x: nat, pos: nat, t: nat, it: int)
    requires Part(m) && Stands(m, pos, t, it) && x !in m.pend && x < |m.nodes| && m2.pend == m.pend + [x]
    requires |m2.nodes| == |m.nodes| && forall y :: 0 <= y < |m.nodes| && y != x ==> m2.nodes[y] == m.nodes[y]
    requires m2.nodes[x].expire != t
    ensures Stands(m2, pos, t, it)
  {
    var j: nat :| StandsAt(m, pos, t, it, j);
    BucketPush(m, m2, x, pos);
    var ring, ring2 := Bucket(m, pos), Bucket(m2, pos);
    var j2 := if j < |ring| then j else |ring2|;
    forall i | 0 <= i < j2
      ensures !DueAt(m2.nodes, t)(ring2[i])
    {
      if i < |ring| {
        assert ring2[i] == ring[i] && ring[i] in m.pend;
      }
    }
    assert StandsAt(m2, pos, t, it, j2);
  }

  /** Where the iterator goes when node x is erased from its bucket. */
  ghost function Stepped(m: Sched, x: nat, it: int): int
    requires Part(m) && x in m.pend
  {
    if it != NodeCell(x) then it else
      var b := Hash(m.nodes[x].expire);
      BucketOf(m, x);
      var i :| 0 <= i < |Bucket(m, b)| && Bucket(m, b)[i] == x;
      At(b, Bucket(m, b), i + 2)
  }

  /** A place in a ring after its k-th node is erased. */
  lemma PlaceAfterErase(ring: seq<nat>, k: nat, j: nat, b: nat)
    requires k < |ring| && j <= |ring| && Distinct(ring)
    ensures var ring2 := ring[..k] + ring[k + 1..]; var j2 := if k < j then j - 1 else j;
      j2 <= |ring2| && At(b, ring2, j2 + 1) == if j == k then At(b, ring, j + 2) else At(b, ring, j + 1)
  {
  }

  lemma SteppedTo(m: Sched, x: nat, it: int, k: nat)
    requires Part(m) && x in m.pend
    requires k < |Bucket(m, Hash(m.nodes[x].expire))| && Bucket(m, Hash(m.nodes[x].expire))[k] == x
    ensures var b := Hash(m.nodes[x].expire);
      Stepped(m, x, it) == if it == NodeCell(x) then At(b, Bucket(m, b), k + 2) else it
  {
    BucketDistinct(m, Hash(m.nodes[x].expire));
  }

  lemma NotDueAfterErase(m: Sched, m2: Sched, ring: seq<nat>, ring2: seq<nat>, k: nat, j: nat, t: nat)
    requires k < |ring| && j <= |ring| && Distinct(ring) && (forall y :: y in ring ==> y < |m.nodes|)
    requires |m2.nodes| == |m.nodes| && forall y :: 0 <= y < |m.nodes| && y != ring[k] ==> m2.nodes[y] == m.nodes[y]
    requires ring2 == ring[..k] + ring[k + 1..]
    requires forall i :: 0 <= i < j ==> !DueAt(m.nodes, t)(ring[i])
    ensures forall i :: 0 <= i < (if k < j then j - 1 else j) ==> !DueAt(m2.nodes, t)(ring2[i])
  {
    forall i | 0 <= i < (if k < j then j - 1 else j)
      ensures !DueAt(m2.nodes, t)(ring2[i])
    {
      var i1 := if i < k then i else i + 1;
      assert ring2[i] == ring[i1] && ring[i1] in ring;
    }
  }

  lemma StandsRemoveHere(m: Sched, m2: Sched, x: nat, t: nat, it: int)
    requires Part(m) && x in m.pend && Stands(m, Hash(m.nodes[x].expire), t, it) && m2.pend == Remove(m.pend, x)
    requires |m2.nodes| == |m.nodes| && forall y :: 0 <= y < |m.nodes| && y != x ==> m2.nodes[y] == m.nodes[y]
    ensures Stands(m2, Hash(m.nodes[x].expire), t, Stepped(m, x, it))
  {
    var pos := Hash(m.nodes[x].expire);
    var j: nat :| StandsAt(m, pos, t, it, j);
    var ring := Bucket(m, pos);
    BucketRemove(m, m2, x, pos);
    BucketDistinct(m, pos);
    BucketOf(m, x);
    var k :| 0 <= k < |ring| && ring[k] == x;
    RemoveAt(ring, k);
    PlaceAfterErase(ring, k, j, pos);
    SteppedTo(m, x, it, k);
    NotDueAfterErase(m, m2, ring, Bucket(m2, pos), k, j, t);
    AtNode(ring, k, j, pos);
    assert StandsAt(m2, pos, t, Stepped(m, x, it), if k < j then j - 1 else j);
  }

  lemma AtNode(ring: seq<nat>, k: nat, j: nat, b: nat)
    requires k < |ring| && j <= |ring| && Distinct(ring) && b < BUCKETS
    ensures At(b, ring, j + 1) == NodeCell(ring[k]) <==> j == k
  {
  }

  /** Where the iterator goes when Cancel is called with an id. */
  ghost function AfterCancel(m: Sched, id: nat, it: int): int
    requires Part(m)
  {
    match Resolve(m, id)
    case None => it
    case Some(x) => if m.run != Some(x) && x in m.pend then Stepped(m, x, it) else it
  }

  /** Erasing any node, the one under the iterator included, leaves the iterator in order. */
  lemma StandsRemove(m: Sched, m2: Sched, x: nat, pos: nat, t: nat, it: int)
    requires Part(m) && Stands(m, pos, t, it) && x in m.pend && m2.pend == Remove(m.pend, x) && pos < BUCKETS
    requires |m2.nodes| == |m.nodes| && forall y :: 0 <= y < |m.nodes| && y != x ==> m2.nodes[y] == m.nodes[y]
    ensures Stands(m2, pos, t, Stepped(m, x, it))
  {
    if pos == Hash(m.nodes[x].expire) {
      StandsRemoveHere(m, m2, x, t, it);
    } else {
      BucketRemove(m, m2, x, pos);
      BucketOf(m, x);
      StandsElsewhere(m, m2, x, pos, t, it);
    }
  }

  /** When the node under the iterator starts to run. */
  lemma BeginStands(m: Sched, x: nat, pos: nat, t: nat, h: Horizon)
    requires Walking(m, t, h) && m.run == None && x in m.pend && m.nodes[x].expire == t && pos < BUCKETS
    requires Stands(m, pos, t, NodeCell(x))
    ensures Walking(Begin(m, x, t), t, h) && Stands(Begin(m, x, t), pos, t, Stepped(m, x, NodeCell(x)))
  {
    BeginWalks(m, x, t, h);
    StandsRemove(m, Begin(m, x, t), x, pos, t, NodeCell(x));
  }

  lemma StandsElsewhere(m: Sched, m2: Sched, x: nat, pos: nat, t: nat, it: int)
    requires Stands(m, pos, t, it) && x in m.pend && x !in Bucket(m, pos) && pos < BUCKETS && Part(m)
    requires Bucket(m2, pos) == Bucket(m, pos)
    requires |m2.nodes| == |m.nodes| && forall y :: 0 <= y < |m.nodes| && y != x ==> m2.nodes[y] == m.nodes[y]
    ensures it != NodeCell(x) && Stands(m2, pos, t, it)
  {
    var j: nat :| StandsAt(m, pos, t, it, j);
    var ring := Bucket(m, pos);
    assert j < |ring| ==> ring[j] in ring;
    forall i | 0 <= i < j
      ensures !DueAt(m2.nodes, t)(ring[i])
    {
      assert ring[i] in ring && ring[i] in m.pend;
    }
    assert StandsAt(m2, pos, t, it, j);
  }

  lemma StandsSame(m: Sched, m2: Sched, pos: nat, t: nat, it: int)
    requires Part(m) && Stands(m, pos, t, it) && m2.pend == m.pend && |m2.nodes| == |m.nodes|
    requires forall x :: x in m.pend ==> m2.nodes[x].expire == m.nodes[x].expire
    ensures Stands(m2, pos, t, it)
  {
    var j: nat :| StandsAt(m, pos, t, it, j);
    BucketSame(m, m2, pos);
    forall i | 0 <= i < j
      ensures !DueAt(m2.nodes, t)(Bucket(m2, pos)[i])
    {
      assert Bucket(m, pos)[i] in m.pend;
    }
    assert StandsAt(m2, pos, t, it, j);
  }

  /** Nothing a task does disturbs the walk. */
  lemma StandsAct(m: Sched, a: Action, pos: nat, t: nat, h: Horizon, it: int)
    requires Walking(m, t, h) && ActionFits(a, m.now, h) && Stands(m, pos, t, it) && pos < BUCKETS
    ensures Stands(Act(m, a), pos, t, if a.Schedule? then it else AfterCancel(m, a.id, it))
  {
    match a
    case Schedule(ty, delay, period, repeat) =>
      if m.free != [] && !(period == 0 && repeat > 1) {
        ScheduleQueues(m, ty, delay, period, repeat);
        StandsPush(m, Act(m, a), m.free[0], pos, t, it);
      }
    case Cancel(id) =>
      var r := Resolve(m, id);
      if r.Some? {
        if m.run == r {
          StandsSame(m, Act(m, a), pos, t, it);
        } else if r.value in m.pend {
          StandsRemove(m, Act(m, a), r.value, pos, t, it);
        }
      }
  }

  lemma StandsEnd(m: Sched, rebase: bool, pos: nat, t: nat, h: Horizon, it: int)
    requires Walking(m, t, h) && Jumped(m, rebase, h) && m.run.Some? && Stands(m, pos, t, it)
    ensures Stands(End(m, rebase), pos, t, it)
  {
    if m.nodes[m.run.value].repeat != 0 {
      EndQueues(m, rebase);
      EndFits(m, rebase, t, h);
      StandsPush(m, End(m, rebase), m.run.value, pos, t, it);
    } else {
      StandsSame(m, End(m, rebase), pos, t, it);
    }
  }

  /** The due timers are found by scanning the one bucket of their tick. */
  lemma DueInBucket(m: Sched, t: nat)
    requires Part(m)
    ensures Due(m, t) == Filter(Bucket(m, Hash(t)), DueAt(m.nodes, t))
  {
    FilterFilter(m.pend, HashesTo(m.nodes, Hash(t)), DueAt(m.nodes, t));
  }

  /** The first due timer from the iterator on is the first due timer of all. */
  lemma DueAtIterator(m: Sched, t: nat, it: int, j: nat)
    requires Part(m) && StandsAt(m, Hash(t), t, it, j)
    ensures j == |Bucket(m, Hash(t))| ==> Due(m, t) == []
    ensures j < |Bucket(m, Hash(t))| && DueAt(m.nodes, t)(Bucket(m, Hash(t))[j]) ==>
      Due(m, t) != [] && Due(m, t)[0] == Bucket(m, Hash(t))[j]
  {
    var ring, f := Bucket(m, Hash(t)), DueAt(m.nodes, t);
    DueInBucket(m, t);
    assert ring == ring[..j] + ring[j..];
    FilterAppend(ring[..j], ring[j..], f);
    FilterNone(ring[..j], f);
  }

  /** A due node under the iterator is the one the ideal scheduler fires next. */
  lemma ScanFires(m: Sched, x: nat, t: nat, h: Horizon, rebase: bool, cb: Tasks, it: int, j: nat)
    requires Walking(m, t, h) && Jumped(m, rebase, h) && m.run == None && TasksFit(cb, h) && StandsAt(m, Hash(t), t, it, j)
    requires j < |Bucket(m, Hash(t))| && x == Bucket(m, Hash(t))[j] && x < |m.nodes| && m.nodes[x].expire == t
    ensures x in m.pend
    ensures var r := FireOne(m, x, t, rebase, cb(|m.fired|, m.now));
      && Walking(r, t, h) && r.run == None && r.now == m.now && |r.fired| == |m.fired| + 1
      && |Due(r, t)| < |Due(m, t)| && FireTick(m, t, h, rebase, cb) == FireTick(r, t, h, rebase, cb)
  {
    assert DueAt(m.nodes, t)(x);
    DueAtIterator(m, t, it, j);
    FireOneWalks(m, t, h, rebase, cb(|m.fired|, m.now));
    SubLength(Due(FireOne(m, Due(m, t)[0], t, rebase, cb(|m.fired|, m.now)), t), Due(m, t)[1..]);
  }

  /** The node under the iterator: its place, its due test, and the step past it. */
  lemma ScanNode(l: seq<Cell>, m: Sched, t: nat, h: Horizon, it: int, j: nat)
    requires Walking(m, t, h) && |l| == BUCKETS + |m.nodes| && Wheel(l, m) && StandsAt(m, Hash(t), t, it, j) && it != Hash(t)
    ensures BUCKETS <= it < |l| && j < |Bucket(m, Hash(t))| && Bucket(m, Hash(t))[j] == it - BUCKETS
    ensures it - BUCKETS in m.pend
    ensures t >= m.nodes[it - BUCKETS].expire <==> m.nodes[it - BUCKETS].expire == t
    ensures CellAt(it, l[it].next) != it
    ensures m.nodes[it - BUCKETS].expire != t ==> StandsAt(m, Hash(t), t, CellAt(it, l[it].next), j + 1)
  {
    var ring := Bucket(m, Hash(t));
    assert ring[j] in ring;
    BucketDistinct(m, Hash(t));
    assert Ring(l, Hash(t), ring);
    RingNodeFlags(l, Hash(t), ring, j);
    AtNode(ring, j, j, Hash(t));
    if j + 1 < |ring| {
      assert ring[j] != ring[j + 1];
    }
  }

  /** A walk starts at the first place and, at the list head again, leaves nothing due. */
  lemma ScanEnds(l: seq<Cell>, m: Sched, t: nat)
    requires Part(m) && |l| == BUCKETS + |m.nodes| && Wheel(l, m)
    ensures StandsAt(m, Hash(t), t, CellAt(Hash(t), l[Hash(t)].next), 0)
    ensures forall j: nat :: StandsAt(m, Hash(t), t, Hash(t), j) ==> Due(m, t) == []
  {
    assert Ring(l, Hash(t), Bucket(m, Hash(t)));
    RingHead(l, Hash(t), Bucket(m, Hash(t)));
    forall j: nat | StandsAt(m, Hash(t), t, Hash(t), j)
      ensures Due(m, t) == []
    {
      DueAtIterator(m, t, Hash(t), j);
    }
  }
}
