/** The cleanup chunks of each thread always hold, newest first, exactly what the thread has
    registered, whatever the other threads do; so CleanupList runs it in reverse. */
module ArenaCleanup {
  import opened Sequences
  import opened ArenaState
  import opened ArenaSafety
  import opened ArenaRuns

  // ---------- the chunks of one thread ----------

  /** The order in which CleanupList runs what is in the chunks. */
  function RunOrder(chunks: seq<Chunk>): seq<nat> {
    if chunks == [] then [] else Reversed(chunks[0].nodes) + RunOrder(chunks[1..])
  }

  predicate NeedsChunk(chunks: seq<Chunk>) {
    chunks == [] || |chunks[0].nodes| == chunks[0].size
  }

  /** Each chunk has the size its place calls for, all but the newest are full, none is empty. */
  ghost predicate Grown(chunks: seq<Chunk>) {
    chunks == [] ||
    (&& 1 <= |chunks[0].nodes| <= chunks[0].size == NextChunkSize(chunks[1..])
     && NeedsChunk(chunks[1..]) && Grown(chunks[1..]))
  }

  /** The k-th oldest chunk, counted from 0, has 8, 16, 32 and then always 64 places. */
  lemma {:induction false} ChunkSizes(chunks: seq<Chunk>, k: nat)
    requires Grown(chunks) && k < |chunks|
    ensures var i := |chunks| - 1 - k;
      chunks[i].size == (if k == 0 then 8 else if k == 1 then 16 else if k == 2 then 32 else 64)
  {
    if k < |chunks| - 1 {
      ChunkSizes(chunks[1..], k);
    } else if k > 0 {
      ChunkSizes(chunks[1..], k - 1);
    }
  }

  ghost predicate Recorded(chunks: seq<Chunk>, registered: seq<nat>) {
    Grown(chunks) && RunOrder(chunks) == Reversed(registered)
  }

  lemma PutInChunk(chunks: seq<Chunk>, registered: seq<nat>, elem: nat)
    requires Recorded(chunks, registered) && !NeedsChunk(chunks)
    ensures Recorded([chunks[0].(nodes := chunks[0].nodes + [elem])] + chunks[1..], registered + [elem])
  {
    ReversedSnoc(chunks[0].nodes, elem);
    ReversedSnoc(registered, elem);
  }

  lemma PutInNewChunk(chunks: seq<Chunk>, registered: seq<nat>, elem: nat)
    requires Recorded(chunks, registered) && NeedsChunk(chunks)
    ensures Recorded([Chunk(NextChunkSize(chunks), [elem])] + chunks, registered + [elem])
  {
    var r := [Chunk(NextChunkSize(chunks), [elem])] + chunks;
    ReversedSnoc(registered, elem);
    assert r[1..] == chunks;
    assert Reversed([elem]) == [elem];
    SizesPositive(chunks);
  }

  lemma SizesPositive(chunks: seq<Chunk>)
    requires Grown(chunks)
    ensures NextChunkSize(chunks) >= 1
  {
  }

  // ---------- every step ----------

  /** What holds of thread t: its chunks are its registrations; it asks for memory for a chunk
      only when it needs one; and it has chunks only when CleanupList will meet it. */
  ghost predicate Book(s: State, t: nat) {
    t < |s.threads| == |s.registered| &&
    var th := s.threads[t];
    && Recorded(th.chunks, s.registered[t])
    && (!th.pc.Idle? && th.pc.goal.Grow? ==> NeedsChunk(th.chunks))
    && (th.chunks != [] ==> t in s.order)
  }

  ghost predicate Booked(s: State) {
    |s.registered| == |s.threads| && forall t :: 0 <= t < |s.threads| ==> Book(s, t)
  }

  /** The other threads' chunks, places and registrations are as they were. */
  ghost predicate OthersKept(s: State, r: State, t: nat) {
    && t < |s.threads| == |r.threads| == |s.registered| == |r.registered|
    && (forall u :: 0 <= u < |s.threads| && u != t ==> r.threads[u] == s.threads[u] && r.registered[u] == s.registered[u])
    && (forall u :: u in s.order ==> u in r.order)
  }

  ghost predicate Kept(s: State, r: State, t: nat) { OthersKept(s, r, t) && Book(r, t) }

  lemma BookedAfter(s: State, r: State, t: nat)
    requires Booked(s) && Kept(s, r, t)
    ensures Booked(r)
  {
    forall u | 0 <= u < |r.threads|
      ensures Book(r, u)
    {
      assert Book(s, u);
    }
  }

  lemma AppendBook(s: State, t: nat, elem: nat)
    requires t < |s.threads| == |s.registered| && t in s.order
    requires Recorded(s.threads[t].chunks, s.registered[t]) && !NeedsChunk(s.threads[t].chunks)
    ensures Kept(s, Append(s, t, elem), t)
  {
    PutInChunk(s.threads[t].chunks, s.registered[t], elem);
  }

  lemma AddChunkBook(s: State, t: nat, a: nat, elem: nat)
    requires t < |s.threads| == |s.registered| && t in s.order && a in s.blocks
    requires Recorded(s.threads[t].chunks, s.registered[t]) && NeedsChunk(s.threads[t].chunks)
    ensures var r := Append(AddChunk(s, t, a), t, elem); Kept(s, r, t)
  {
    var chunks := s.threads[t].chunks;
    PutInNewChunk(chunks, s.registered[t], elem);
    var r := Append(AddChunk(s, t, a), t, elem);
    assert AddChunk(s, t, a).threads[t].chunks[1..] == chunks;
    assert r.threads[t].chunks == [Chunk(NextChunkSize(chunks), [] + [elem])] + chunks;
    assert [] + [elem] == [elem];
  }

  lemma RegisterBook(s: State, t: nat, a: nat, elem: nat)
    requires t < |s.threads| == |s.registered| && t in s.order && a in s.blocks
    requires Recorded(s.threads[t].chunks, s.registered[t])
    ensures Kept(s, RegisterIn(s, t, a, elem), t)
  {
    if !NeedsChunk(s.threads[t].chunks) {
      AppendBook(s, t, elem);
    } else if Avail(s.blocks[a]) >= ChunkBytes(NextChunkSize(s.threads[t].chunks)) {
      AddChunkBook(s, t, a, elem);
    }
  }

  lemma TakeRegisterBook(s: State, r: State, t: nat, a: nat, n: nat, elem: nat)
    requires t < |s.threads| == |s.registered| && t in s.order && a in s.blocks
    requires Recorded(s.threads[t].chunks, s.registered[t]) && r == RegisterIn(Take(s, a, n, User), t, a, elem)
    ensures Kept(s, r, t)
  {
    RegisterBook(Take(s, a, n, User), t, a, elem);
  }

  lemma UseBook(s: State, t: nat, a: nat, goal: Goal)
    requires t < |s.threads| == |s.registered| && t in s.order && a in s.blocks
    requires Recorded(s.threads[t].chunks, s.registered[t]) && (goal.Grow? ==> NeedsChunk(s.threads[t].chunks))
    ensures Kept(s, Use(s, t, a, goal), t)
  {
    match goal
    case Allocate(n) =>
    case AllocateWithCleanup(n) => TakeRegisterBook(s, Use(s, t, a, goal), t, a, n, a + s.blocks[a].pos);
    case Register(elem) => RegisterBook(s, t, a, elem);
    case Grow(elem) => AddChunkBook(s, t, a, elem);
  }

  lemma StartBook(s: State, t: nat)
    requires Safe(s) && Shape(s) && t < |s.threads| && s.threads[t].pc.Start? && Book(s, t)
    ensures Kept(s, StepStart(s, t), t)
  {
    var th := s.threads[t];
    assert ThreadOk(s, t);
    if th.cache.lifecycle == s.lifecycle && Avail(s.blocks[th.cache.block]) >= Need(th.pc.goal, th.chunks) {
      UseBook(s, t, th.cache.block, th.pc.goal);
    }
  }

  lemma HintBook(s: State, t: nat)
    requires Safe(s) && Shape(s) && t < |s.threads| && s.threads[t].pc.CheckHint? && Book(s, t)
    ensures Kept(s, StepHint(s, t), t)
  {
    var th := s.threads[t];
    assert ThreadOk(s, t);
    if s.hint.Some? && s.blocks[s.hint.value].owner == t && Avail(s.blocks[s.hint.value]) >= Need(th.pc.goal, th.chunks) {
      UseBook(s, t, s.hint.value, th.pc.goal);
    }
  }

  lemma PublishBook(s: State, t: nat)
    requires Safe(s) && Shape(s) && t < |s.threads| && s.threads[t].pc.Publish? && Book(s, t)
    ensures Kept(s, StepPublish(s, t), t)
  {
    var th := s.threads[t];
    assert ThreadOk(s, t) && ThreadShape(s, th);
    var s1 := s.(threads := s.threads[t := th.(cache := Cache(s.lifecycle, th.blocks[0]))], hint := Some(th.blocks[0]));
    UseBook(s1, t, th.blocks[0], th.pc.goal);
  }

  lemma StepBook(s: State, t: nat, a: nat)
    requires Safe(s) && Shape(s) && t < |s.threads| && Book(s, t)
    ensures Kept(s, Step(s, t, a), t)
  {
    match s.threads[t].pc
    case Idle =>
    case Start(_) => StartBook(s, t);
    case CheckHint(_, _) => HintBook(s, t);
    case Slow(_, _) => SlowBook(s, t);
    case First(_) => FirstBook(s, t, a);
    case Load(_) => LoadBook(s, t);
    case Cas(_, _) => CasBook(s, t);
    case Room(_) => RoomBook(s, t, a);
    case Publish(_) => PublishBook(s, t);
  }

  lemma FirstBook(s: State, t: nat, a: nat)
    requires Shape(s) && t < |s.threads| && s.threads[t].pc.First? && Book(s, t)
    ensures Kept(s, StepFirst(s, t, a), t)
  {
  }

  lemma SlowBook(s: State, t: nat)
    requires t < |s.threads| && s.threads[t].pc.Slow? && Book(s, t)
    ensures Kept(s, StepSlow(s, t), t)
  {
  }

  lemma LoadBook(s: State, t: nat)
    requires t < |s.threads| && s.threads[t].pc.Load? && Book(s, t)
    ensures Kept(s, StepLoad(s, t), t)
  {
  }

  lemma CasBook(s: State, t: nat)
    requires t < |s.threads| && s.threads[t].pc.Cas? && Book(s, t)
    ensures Kept(s, StepCas(s, t), t)
  {
  }

  lemma RoomBook(s: State, t: nat, a: nat)
    requires Shape(s) && t < |s.threads| && s.threads[t].pc.Room? && Book(s, t)
    ensures Kept(s, StepRoom(s, t, a), t)
  {
  }

  lemma InitBooked(s: State, t: nat)
    requires t < |s.threads| == |s.registered| && Quiet(s)
    ensures Booked(Init(s, t))
  {
    var r := Init(s, t);
    forall u | 0 <= u < |r.threads|
      ensures Book(r, u)
    {
      assert s.threads[u].pc == Idle;
    }
  }

  lemma DoBooked(s: State, m: Move)
    requires Safe(s) && MoveOk(s, m) && Booked(s)
    ensures Booked(Do(s, m))
  {
    match m
    case Call(t, goal) =>
      assert Book(s, t);
      BookedAfter(s, Do(s, m), t);
    case Go(t, a) =>
      assert Book(s, t);
      StepBook(s, t, a);
      BookedAfter(s, Do(s, m), t);
    case Elsewhere(t, _, _) =>
      assert Book(s, t);
      BookedAfter(s, Do(s, m), t);
    case Reset(t) => InitBooked(s, t);
  }

  lemma {:induction false} RunBooked(s: State, moves: seq<Move>)
    requires Safe(s) && OptionsOk(s.options) && Booked(s)
    ensures Booked(Run(s, moves))
    decreases |moves|
  {
    if moves == [] {
    } else if !MoveOk(s, moves[0]) {
      RunBooked(s, moves[1..]);
    } else {
      DoSafe(s, moves[0]);
      DoOptions(s, moves[0]);
      DoBooked(s, moves[0]);
      RunBooked(Do(s, moves[0]), moves[1..]);
    }
  }

  // ---------- CleanupList ----------

  /** The registrations of the listed threads, each thread's newest first. */
  ghost function Undone(order: seq<nat>, registered: seq<seq<nat>>): seq<nat> {
    if order == [] then [] else UndoneBy(order[0], registered) + Undone(order[1..], registered)
  }

  ghost function UndoneBy(t: nat, registered: seq<seq<nat>>): seq<nat> {
    if t < |registered| then Reversed(registered[t]) else []
  }

  lemma {:induction false} UndoneSnoc(order: seq<nat>, t: nat, registered: seq<seq<nat>>)
    requires t < |registered|
    ensures Undone(order + [t], registered) == Undone(order, registered) + Reversed(registered[t])
  {
    var last := UndoneBy(t, registered);
    if order == [] {
      assert [t][1..] == [];
      assert Undone([t], registered) == last + [];
    } else {
      UndoneSnoc(order[1..], t, registered);
      assert (order + [t])[0] == order[0] && (order + [t])[1..] == order[1..] + [t];
      ConcatAssociates(UndoneBy(order[0], registered), Undone(order[1..], registered), last);
    }
  }

  /** How often e is registered by thread t. */
  ghost function Times(registered: seq<seq<nat>>, e: nat): nat -> int {
    (t: nat) => if t < |registered| then multiset(registered[t])[e] else 0
  }

  lemma {:induction false} UndoneTimes(order: seq<nat>, registered: seq<seq<nat>>, e: nat)
    ensures multiset(Undone(order, registered))[e] == Total(order, Times(registered, e))
  {
    if order != [] {
      UndoneTimes(order[1..], registered, e);
      if order[0] < |registered| {
        ReversedMultiset(registered[order[0]]);
      }
    }
  }

  function UpTo(n: nat): (xs: seq<nat>)
    ensures |xs| == n && forall i :: 0 <= i < n ==> xs[i] == i
  {
    seq(n, i => i)
  }

  /** CleanupList runs what is registered as often as it was registered, by all threads together. */
  lemma UndoneIsAll(s: State, e: nat)
    requires Safe(s) && Booked(s)
    ensures multiset(Undone(s.order, s.registered))[e] == Total(UpTo(|s.threads|), Times(s.registered, e))
  {
    UndoneTimes(s.order, s.registered, e);
    forall t | t in UpTo(|s.threads|) && t !in s.order
      ensures Times(s.registered, e)(t) == 0
    {
      assert Book(s, t);
      ReversedMultiset(s.registered[t]);
    }
    forall t | t in s.order
      ensures t in UpTo(|s.threads|)
    {
      var i :| 0 <= i < |s.order| && s.order[i] == t;
      assert NextOk(s, i);
      assert UpTo(|s.threads|)[t] == t;
    }
    TotalPermuted(s.order, UpTo(|s.threads|), Times(s.registered, e));
  }

  /** The nodes of one chunk, from the last to the first. */
  method RunChunk(c: Chunk) returns (ran: seq<nat>)
    requires |c.nodes| > 0
    ensures ran == Reversed(c.nodes)
  {
    ran := [];
    var node := |c.nodes| - 1;
    for i := 0 to |c.nodes|
      invariant node == |c.nodes| - 1 - i
      invariant ran == Reversed(c.nodes[|c.nodes| - i..])
    {
      assert c.nodes[node..][1..] == c.nodes[|c.nodes| - i..];
      ran := ran + [c.nodes[node]];
      node := node - 1;
    }
  }

  lemma {:induction false} RunOrderSnoc(chunks: seq<Chunk>, k: nat)
    requires k < |chunks|
    ensures RunOrder(chunks[..k]) + Reversed(chunks[k].nodes) == RunOrder(chunks[..k + 1])
  {
    if k == 0 {
      assert chunks[..1][1..] == [];
    } else {
      RunOrderSnoc(chunks[1..], k - 1);
      assert chunks[..k][1..] == chunks[1..][..k - 1] && chunks[..k + 1][1..] == chunks[1..][..k];
      assert chunks[..k][0] == chunks[0] == chunks[..k + 1][0];
    }
  }

  lemma {:induction false} NoneEmpty(chunks: seq<Chunk>, k: nat)
    requires Grown(chunks) && k < |chunks|
    ensures |chunks[k].nodes| > 0
  {
    if k > 0 {
      NoneEmpty(chunks[1..], k - 1);
    }
  }

  /** The chunks of one thread. */
  method RunChunks(chunks: seq<Chunk>) returns (ran: seq<nat>)
    requires Grown(chunks)
    ensures ran == RunOrder(chunks)
  {
    ran := [];
    var list := 0;
    while list < |chunks|
      invariant list <= |chunks| && ran == RunOrder(chunks[..list])
    {
      NoneEmpty(chunks, list);
      var last := RunChunk(chunks[list]);
      RunOrderSnoc(chunks, list);
      ran := ran + last;
      list := list + 1;
    }
    assert chunks[..list] == chunks;
  }

  /** What CleanupList finds at the i-th thread of the list. */
  lemma Visit(s: State, i: nat)
    requires Safe(s) && Booked(s) && i < |s.order|
    ensures var t := s.order[i];
      && t < |s.threads| && s.threads[t].next == EntryAt(s.order, i + 1) && Grown(s.threads[t].chunks)
      && Undone(s.order[..i + 1], s.registered) == Undone(s.order[..i], s.registered) + RunOrder(s.threads[t].chunks)
  {
    var t := s.order[i];
    assert NextOk(s, i) && Book(s, t);
    UndoneSnoc(s.order[..i], t, s.registered);
    assert s.order[..i] + [t] == s.order[..i + 1];
  }

  /** Runs every registration, each thread's in reverse; see UndoneIsAll for how often. */
  method CleanupList(s: State) returns (ran: seq<nat>)
    requires Safe(s) && Booked(s)
    ensures ran == Undone(s.order, s.registered)
    ensures forall e :: multiset(ran)[e] == Total(UpTo(|s.threads|), Times(s.registered, e))
  {
    ran := [];
    var info := s.head;
    ghost var i := 0;
    while info.Some?
      invariant i <= |s.order| && info == EntryAt(s.order, i) && ran == Undone(s.order[..i], s.registered)
      decreases |s.order| - i
    {
      Visit(s, i);
      var one := RunChunks(s.threads[info.value].chunks);
      ran := ran + one;
      info := s.threads[info.value].next;
      i := i + 1;
    }
    assert s.order[..i] == s.order;
    forall e
      ensures multiset(ran)[e] == Total(UpTo(|s.threads|), Times(s.registered, e))
    {
      UndoneIsAll(s, e);
    }
  }

  /** FindThreadInfo: the walk along the list finds a thread exactly if it has been pushed. */
  method FindThreadInfo(s: State, me: nat) returns (info: Option<nat>)
    requires Safe(s)
    ensures info == if me in s.order then Some(me) else None
  {
    info := s.head;
    ghost var i := 0;
    while info.Some?
      invariant i <= |s.order| && info == EntryAt(s.order, i) && me !in s.order[..i]
      decreases |s.order| - i
    {
      if info.value == me {
        return;
      }
      assert NextOk(s, i);
      info := s.threads[info.value].next;
      i := i + 1;
    }
    assert s.order[..i] == s.order;
  }
}
