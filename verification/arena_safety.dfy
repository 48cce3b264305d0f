/** What every interleaving keeps: the blocks and what was handed out of them lie apart, caches
    and hint name live blocks of the right owner, and no ThreadInfo is lost. */
module ArenaSafety {
  import opened Sequences
  import opened ArenaState

  // ---------- memory ----------

  /** The allocator answers aligned blocks; the initial block is where the caller has put it. */
  ghost predicate MayStart(s: State, a: nat) { a % 8 == 0 || s.options.initialBlock == Some(a) }

  ghost predicate BlockOk(s: State, a: nat)
    requires a in s.blocks
  {
    var b := s.blocks[a];
    MayStart(s, a) && b.pos % 8 == 0 && HEADER <= b.pos <= b.size && b.owner < |s.threads|
  }

  ghost predicate Apart(s: State, a: nat, b: nat)
    requires a in s.blocks && b in s.blocks
  {
    a + s.blocks[a].size <= b || b + s.blocks[b].size <= a
  }

  ghost predicate Blocks(s: State) {
    && (forall a :: a in s.blocks ==> BlockOk(s, a))
    && (forall a, b :: a in s.blocks && b in s.blocks && a != b ==> Apart(s, a, b))
  }

  ghost predicate OwnsList(s: State, t: nat)
    requires t < |s.threads|
  {
    Distinct(s.threads[t].blocks) && forall a :: a in s.threads[t].blocks ==> a in s.blocks && s.blocks[a].owner == t
  }

  /** The block lists of the threads share nothing and hold every block. */
  ghost predicate Lists(s: State) {
    && (forall t :: 0 <= t < |s.threads| ==> OwnsList(s, t))
    && (forall a :: a in s.blocks ==> s.blocks[a].owner < |s.threads| && a in s.threads[s.blocks[a].owner].blocks)
  }

  ghost predicate PieceOk(s: State, p: Piece) {
    p.block in s.blocks && p.off % 8 == 0 && HEADER <= p.off && p.off + p.n <= s.blocks[p.block].pos
  }

  ghost predicate Pieces(s: State) {
    && (forall i :: 0 <= i < |s.pieces| ==> PieceOk(s, s.pieces[i]))
    && (forall i, j :: 0 <= i < j < |s.pieces| && s.pieces[i].block == s.pieces[j].block ==>
          s.pieces[i].off + s.pieces[i].n <= s.pieces[j].off)
  }

  ghost predicate Memory(s: State) { Blocks(s) && Lists(s) && Pieces(s) }

  lemma TakeMemory(s: State, a: nat, n: nat, kind: PieceKind)
    requires Memory(s) && a in s.blocks && n % 8 == 0 && n <= Avail(s.blocks[a])
    ensures Memory(Take(s, a, n, kind))
  {
    var r := Take(s, a, n, kind);
    assert BlockOk(s, a);
    forall b | b in r.blocks
      ensures BlockOk(r, b)
    {
      assert BlockOk(s, b);
    }
    forall b, c | b in r.blocks && c in r.blocks && b != c
      ensures Apart(r, b, c)
    {
      assert Apart(s, b, c);
    }
    forall t | 0 <= t < |r.threads|
      ensures OwnsList(r, t)
    {
      assert OwnsList(s, t);
    }
    forall i | 0 <= i < |r.pieces|
      ensures PieceOk(r, r.pieces[i])
    {
      if i < |s.pieces| {
        assert PieceOk(s, s.pieces[i]);
      }
    }
    forall i, j | 0 <= i < j < |r.pieces| && r.pieces[i].block == r.pieces[j].block
      ensures r.pieces[i].off + r.pieces[i].n <= r.pieces[j].off
    {
      assert PieceOk(s, s.pieces[i]);
    }
  }

  lemma FreshIsNew(s: State, a: nat, size: nat)
    requires Blocks(s) && Vacant(s, a, size) && size > 0
    ensures a !in s.blocks
  {
    assert a in s.blocks ==> BlockOk(s, a);
  }

  lemma NewBlockMemory(s: State, t: nat, a: nat, size: nat)
    requires Memory(s) && t < |s.threads| && Vacant(s, a, size) && MayStart(s, a) && HEADER <= size
    ensures a !in s.blocks && Memory(NewBlock(s, t, a, size))
  {
    FreshIsNew(s, a, size);
    var r := NewBlock(s, t, a, size);
    forall b | b in r.blocks
      ensures BlockOk(r, b)
    {
      assert b != a ==> BlockOk(s, b);
    }
    forall b, c | b in r.blocks && c in r.blocks && b != c
      ensures Apart(r, b, c)
    {
      assert b != a && c != a ==> Apart(s, b, c);
    }
    NewBlockLists(s, t, a, size);
    forall i | 0 <= i < |r.pieces|
      ensures PieceOk(r, r.pieces[i])
    {
      assert PieceOk(s, s.pieces[i]);
    }
  }

  lemma NewBlockLists(s: State, t: nat, a: nat, size: nat)
    requires Lists(s) && t < |s.threads| && a !in s.blocks
    ensures Lists(NewBlock(s, t, a, size))
  {
    var r := NewBlock(s, t, a, size);
    forall u | 0 <= u < |r.threads|
      ensures OwnsList(r, u)
    {
      assert OwnsList(s, u);
    }
    forall b | b in r.blocks
      ensures r.blocks[b].owner < |r.threads| && b in r.threads[r.blocks[b].owner].blocks
    {
      if b != a {
        assert b in s.threads[s.blocks[b].owner].blocks;
      }
    }
  }

  /** Memory depends on nothing but blocks, block lists and pieces. */
  lemma MemorySame(s: State, r: State)
    requires Memory(s) && r.blocks == s.blocks && r.pieces == s.pieces && |r.threads| == |s.threads| && r.options == s.options
    requires forall t :: 0 <= t < |s.threads| ==> r.threads[t].blocks == s.threads[t].blocks
    ensures Memory(r)
  {
    forall a | a in r.blocks
      ensures BlockOk(r, a)
    {
      assert BlockOk(s, a);
    }
    forall a, b | a in r.blocks && b in r.blocks && a != b
      ensures Apart(r, a, b)
    {
      assert Apart(s, a, b);
    }
    forall t | 0 <= t < |r.threads|
      ensures OwnsList(r, t)
    {
      assert OwnsList(s, t);
    }
    forall i | 0 <= i < |r.pieces|
      ensures PieceOk(r, r.pieces[i])
    {
      assert PieceOk(s, s.pieces[i]);
    }
  }

  /** Where a piece is in memory. */
  function Address(p: Piece): nat { p.block + p.off }

  /** All that was ever handed out since Init lies inside a live block behind its header, aligned
      as that block is, and overlaps nothing else that was handed out, in that block or another. */
  lemma PiecesLieApart(s: State, i: nat, j: nat)
    requires Memory(s) && i < j < |s.pieces|
    ensures var p, q := s.pieces[i], s.pieces[j];
      && p.block in s.blocks && Address(p) % 8 == p.block % 8 && MayStart(s, p.block)
      && p.block + HEADER <= Address(p) && Address(p) + p.n <= p.block + s.blocks[p.block].size
      && (Address(p) + p.n <= Address(q) || Address(q) + q.n <= Address(p))
  {
    var p, q := s.pieces[i], s.pieces[j];
    assert PieceOk(s, p) && PieceOk(s, q);
    assert BlockOk(s, p.block) && BlockOk(s, q.block);
    if p.block != q.block {
      assert Apart(s, p.block, q.block);
    }
  }

  // ---------- caches, hint and the list of threads ----------

  predicate Pushing(pc: Pc) { pc.Load? || pc.Cas? }

  function MineOf(pc: Pc): Option<nat> {
    match pc
    case CheckHint(_, mine) => mine
    case Slow(_, mine) => mine
    case _ => None
  }

  ghost predicate PcGoalOk(pc: Pc) { pc.Idle? || GoalOk(pc.goal) }

  /** One thread: it has blocks exactly if its ThreadInfo is on the list or about to be pushed;
      its cache, when its lifecycle id is this arena's, names one of its own blocks. */
  ghost predicate ThreadOk(s: State, t: nat)
    requires t < |s.threads|
  {
    var th := s.threads[t];
    && (th.blocks != [] <==> t in s.order || Pushing(th.pc))
    && !(t in s.order && Pushing(th.pc))
    && th.cache.lifecycle < s.nextLifecycle
    && (th.cache.lifecycle == s.lifecycle ==> t in s.order && th.cache.block in th.blocks)
    && (MineOf(th.pc).Some? ==> t in s.order && MineOf(th.pc).value in th.blocks)
    && (th.pc.Room? || th.pc.Publish? ==> t in s.order)
    && (th.pc.First? ==> t !in s.order)
    && (th.pc.Publish? ==>
          th.blocks != [] && th.blocks[0] in s.blocks && Avail(s.blocks[th.blocks[0]]) >= Need(th.pc.goal, th.chunks))
    && (th.pc.Cas? ==> th.next == th.pc.seen)
    && PcGoalOk(th.pc)
  }

  /** The hint names a live block of a thread on the list. */
  ghost predicate HintOk(s: State) {
    s.hint.Some? ==> s.hint.value in s.blocks && s.blocks[s.hint.value].owner in s.order
  }

  function EntryAt(xs: seq<nat>, i: nat): Option<nat> {
    if i < |xs| then Some(xs[i]) else None
  }

  ghost predicate NextOk(s: State, i: nat)
    requires i < |s.order|
  {
    s.order[i] < |s.threads| && s.threads[s.order[i]].next == EntryAt(s.order, i + 1)
  }

  /** Following threads_ and the next links meets exactly the threads that have been pushed. */
  ghost predicate OrderOk(s: State) {
    && Distinct(s.order) && s.head == EntryAt(s.order, 0)
    && forall i :: 0 <= i < |s.order| ==> NextOk(s, i)
  }

  ghost predicate Control(s: State) {
    && |s.registered| == |s.threads| && s.lifecycle < s.nextLifecycle
    && HintOk(s) && OrderOk(s)
    && forall t :: 0 <= t < |s.threads| ==> ThreadOk(s, t)
  }

  ghost predicate Safe(s: State) { Memory(s) && Control(s) }

  /** From s to r only what belongs to thread t has changed, shared words aside. */
  ghost predicate OnlyOwn(s: State, r: State, t: nat) {
    && t < |s.threads| == |r.threads| == |r.registered| == |s.registered|
    && r.order == s.order && r.head == s.head && r.lifecycle == s.lifecycle && r.nextLifecycle == s.nextLifecycle
    && (forall u :: 0 <= u < |s.threads| && u != t ==> r.threads[u] == s.threads[u])
    && (t in s.order ==> r.threads[t].next == s.threads[t].next)
    && (forall a :: a in s.blocks ==> a in r.blocks && r.blocks[a].owner == s.blocks[a].owner)
    && (forall a :: a in s.blocks && s.blocks[a].owner != t ==> r.blocks[a] == s.blocks[a])
  }

  lemma OwnTrans(s: State, r: State, q: State, t: nat)
    requires OnlyOwn(s, r, t) && OnlyOwn(r, q, t)
    ensures OnlyOwn(s, q, t)
  {
  }

  lemma ControlKept(s: State, r: State, t: nat)
    requires Safe(s) && OnlyOwn(s, r, t) && HintOk(r) && ThreadOk(r, t)
    ensures Control(r)
  {
    forall i | 0 <= i < |r.order|
      ensures NextOk(r, i)
    {
      assert NextOk(s, i);
    }
    forall u | 0 <= u < |r.threads|
      ensures ThreadOk(r, u)
    {
      if u != t {
        assert ThreadOk(s, u) && OwnsList(s, u);
        if s.threads[u].pc.Publish? {
          assert s.threads[u].blocks[0] in s.threads[u].blocks;
        }
      }
    }
  }

  lemma SafeShape(s: State)
    requires Safe(s)
    ensures Shape(s)
  {
    forall t | 0 <= t < |s.threads|
      ensures ThreadShape(s, s.threads[t])
    {
      assert ThreadOk(s, t) && OwnsList(s, t);
    }
  }

  // ---------- using a block ----------

  /** Thread t may use block a: it is its own, and its ThreadInfo is on the list. */
  ghost predicate MayUse(s: State, t: nat, a: nat) {
    t < |s.threads| == |s.registered| && t in s.order && a in s.threads[t].blocks && a in s.blocks && s.blocks[a].owner == t
  }

  /** Nothing of thread t has changed but the contents of its blocks, its chunks and its place. */
  ghost predicate Touched(s: State, r: State, t: nat) {
    OnlyOwn(s, r, t) && r.hint == s.hint
    && r.threads[t].blocks == s.threads[t].blocks && r.threads[t].cache == s.threads[t].cache
  }

  /** After a use the thread is idle, or asks for memory for a new chunk. */
  ghost predicate Used(s: State, r: State, t: nat) {
    && Touched(s, r, t) && Memory(r)
    && (r.threads[t].pc == Idle || (r.threads[t].pc.Start? && r.threads[t].pc.goal.Grow?))
  }

  lemma UsedAfter(s: State, r: State, q: State, t: nat)
    requires Touched(s, r, t) && Used(r, q, t)
    ensures Used(s, q, t)
  {
    OwnTrans(s, r, q, t);
  }

  lemma TakeTouched(s: State, t: nat, a: nat, n: nat, kind: PieceKind)
    requires Memory(s) && MayUse(s, t, a) && n % 8 == 0 && n <= Avail(s.blocks[a])
    ensures Memory(Take(s, a, n, kind)) && Touched(s, Take(s, a, n, kind), t) && MayUse(Take(s, a, n, kind), t, a)
  {
    TakeMemory(s, a, n, kind);
  }

  lemma IdleUsed(s: State, t: nat, pc: Pc)
    requires Memory(s) && t < |s.threads| == |s.registered| && (pc == Idle || (pc.Start? && pc.goal.Grow?))
    ensures Used(s, WithPc(s, t, pc), t)
  {
    MemorySame(s, WithPc(s, t, pc));
  }

  lemma AppendUsed(s: State, t: nat, elem: nat)
    requires Memory(s) && t < |s.threads| == |s.registered| && s.threads[t].chunks != []
    ensures Used(s, Append(s, t, elem), t)
  {
    MemorySame(s, Append(s, t, elem));
  }

  lemma AddChunkTouched(s: State, t: nat, a: nat)
    requires Memory(s) && MayUse(s, t, a) && Avail(s.blocks[a]) >= ChunkBytes(NextChunkSize(s.threads[t].chunks))
    ensures Memory(AddChunk(s, t, a)) && Touched(s, AddChunk(s, t, a), t)
  {
    var n := ChunkBytes(NextChunkSize(s.threads[t].chunks));
    TakeTouched(s, t, a, n, ChunkMemory);
    MemorySame(Take(s, a, n, ChunkMemory), AddChunk(s, t, a));
  }

  lemma AddChunkUsed(s: State, t: nat, a: nat, elem: nat)
    requires Memory(s) && MayUse(s, t, a) && Avail(s.blocks[a]) >= ChunkBytes(NextChunkSize(s.threads[t].chunks))
    ensures Used(s, Append(AddChunk(s, t, a), t, elem), t)
  {
    AddChunkTouched(s, t, a);
    AppendUsed(AddChunk(s, t, a), t, elem);
    UsedAfter(s, AddChunk(s, t, a), Append(AddChunk(s, t, a), t, elem), t);
  }

  lemma RegisterUsed(s: State, t: nat, a: nat, elem: nat)
    requires Memory(s) && MayUse(s, t, a)
    ensures Used(s, RegisterIn(s, t, a, elem), t)
  {
    var chunks := s.threads[t].chunks;
    if chunks != [] && |chunks[0].nodes| != chunks[0].size {
      AppendUsed(s, t, elem);
    } else if Avail(s.blocks[a]) < ChunkBytes(NextChunkSize(chunks)) {
      IdleUsed(s, t, Start(Grow(elem)));
    } else {
      AddChunkUsed(s, t, a, elem);
    }
  }

  lemma AllocateUsed(s: State, t: nat, a: nat, n: nat)
    requires Memory(s) && MayUse(s, t, a) && n % 8 == 0 && Avail(s.blocks[a]) >= n
    ensures Used(s, WithPc(Take(s, a, n, User), t, Idle), t)
  {
    TakeTouched(s, t, a, n, User);
    IdleUsed(Take(s, a, n, User), t, Idle);
    UsedAfter(s, Take(s, a, n, User), WithPc(Take(s, a, n, User), t, Idle), t);
  }

  lemma AllocateWithCleanupUsed(s: State, r: State, t: nat, a: nat, n: nat, elem: nat)
    requires Memory(s) && MayUse(s, t, a) && n % 8 == 0 && Avail(s.blocks[a]) >= n
    requires r == RegisterIn(Take(s, a, n, User), t, a, elem)
    ensures Used(s, r, t)
  {
    TakeTouched(s, t, a, n, User);
    RegisterUsed(Take(s, a, n, User), t, a, elem);
    UsedAfter(s, Take(s, a, n, User), r, t);
  }

  lemma UseUsed(s: State, t: nat, a: nat, goal: Goal)
    requires Memory(s) && MayUse(s, t, a) && GoalOk(goal) && Avail(s.blocks[a]) >= Need(goal, s.threads[t].chunks)
    ensures Used(s, Use(s, t, a, goal), t)
  {
    var r := Use(s, t, a, goal);
    match goal
    case Allocate(n) => AllocateUsed(s, t, a, n);
    case AllocateWithCleanup(n) => AllocateWithCleanupUsed(s, r, t, a, n, a + s.blocks[a].pos);
    case Register(elem) => RegisterUsed(s, t, a, elem);
    case Grow(elem) => AddChunkUsed(s, t, a, elem);
  }

  lemma UsedSafe(s: State, r: State, t: nat)
    requires Safe(s) && t in s.order && Used(s, r, t)
    ensures Safe(r)
  {
    assert ThreadOk(s, t);
    ControlKept(s, r, t);
  }

  // ---------- each step ----------

  lemma PcSafe(s: State, t: nat, pc: Pc)
    requires Safe(s) && t < |s.threads| && ThreadOk(WithPc(s, t, pc), t)
    ensures Safe(WithPc(s, t, pc))
  {
    MemorySame(s, WithPc(s, t, pc));
    ControlKept(s, WithPc(s, t, pc), t);
  }

  /** The thread's cache, when it is this arena's, names a live block of this thread. */
  lemma CacheNamesOwnBlock(s: State, t: nat)
    requires Safe(s) && t < |s.threads| && s.threads[t].cache.lifecycle == s.lifecycle
    ensures MayUse(s, t, s.threads[t].cache.block)
  {
    assert ThreadOk(s, t) && OwnsList(s, t);
  }

  /** The hint, when its block's owner is this thread, names a live block of this thread. */
  lemma HintNamesOwnBlock(s: State, t: nat)
    requires Safe(s) && t < |s.threads| && s.hint.Some? && s.hint.value in s.blocks && s.blocks[s.hint.value].owner == t
    ensures MayUse(s, t, s.hint.value)
  {
  }

  lemma StartSafe(s: State, t: nat)
    requires Safe(s) && Shape(s) && t < |s.threads| && s.threads[t].pc.Start?
    ensures Safe(StepStart(s, t))
  {
    var th := s.threads[t];
    assert ThreadOk(s, t);
    if th.cache.lifecycle == s.lifecycle {
      CacheNamesOwnBlock(s, t);
      if Avail(s.blocks[th.cache.block]) >= Need(th.pc.goal, th.chunks) {
        UseUsed(s, t, th.cache.block, th.pc.goal);
        UsedSafe(s, StepStart(s, t), t);
      } else {
        PcSafe(s, t, CheckHint(th.pc.goal, Some(th.cache.block)));
      }
    } else {
      PcSafe(s, t, CheckHint(th.pc.goal, None));
    }
  }

  lemma HintSafe(s: State, t: nat)
    requires Safe(s) && Shape(s) && t < |s.threads| && s.threads[t].pc.CheckHint?
    ensures Safe(StepHint(s, t))
  {
    var th := s.threads[t];
    assert ThreadOk(s, t);
    if s.hint.Some? && s.blocks[s.hint.value].owner == t {
      HintNamesOwnBlock(s, t);
      if Avail(s.blocks[s.hint.value]) >= Need(th.pc.goal, th.chunks) {
        UseUsed(s, t, s.hint.value, th.pc.goal);
        UsedSafe(s, StepHint(s, t), t);
      } else {
        PcSafe(s, t, Slow(th.pc.goal, s.hint));
      }
    } else {
      PcSafe(s, t, Slow(th.pc.goal, th.pc.mine));
    }
  }

  ghost predicate Granted(s: State, t: nat, a: nat)
    requires Shape(s) && t < |s.threads|
  {
    Asks(s, t).Some? ==> Fresh(s, a, Asks(s, t).value)
  }

  lemma SlowSafe(s: State, t: nat)
    requires Safe(s) && t < |s.threads| && s.threads[t].pc.Slow?
    ensures Safe(StepSlow(s, t))
  {
    assert ThreadOk(s, t);
    var Slow(goal, mine) := s.threads[t].pc;
    PcSafe(s, t, if mine.Some? || t in s.order then Room(goal) else First(goal));
  }

  lemma NewBlockOwn(s: State, t: nat, a: nat, size: nat)
    requires t < |s.threads| == |s.registered| && a !in s.blocks
    ensures OnlyOwn(s, NewBlock(s, t, a, size), t)
  {
  }

  lemma TakeOwn(s: State, t: nat, a: nat, n: nat, kind: PieceKind)
    requires t < |s.threads| == |s.registered| && a in s.blocks && s.blocks[a].owner == t
    ensures OnlyOwn(s, Take(s, a, n, kind), t)
  {
  }

  lemma PcOwn(s: State, t: nat, pc: Pc)
    requires t < |s.threads| == |s.registered|
    ensures OnlyOwn(s, WithPc(s, t, pc), t)
  {
  }

  lemma FirstBlockMemory(s: State, t: nat, a: nat, size: nat, goal: Goal)
    requires Memory(s) && t < |s.threads| == |s.registered| && Fresh(s, a, size) && size >= HEADER + INFO_BYTES
    ensures Memory(FirstBlock(s, t, a, size, goal)) && OnlyOwn(s, FirstBlock(s, t, a, size, goal), t)
  {
    NewBlockMemory(s, t, a, size);
    var s1 := NewBlock(s, t, a, size);
    TakeMemory(s1, a, INFO_BYTES, Info);
    var s2 := Take(s1, a, INFO_BYTES, Info);
    var s3 := WithPc(s2, t, Load(goal));
    MemorySame(s2, s3);
    NewBlockOwn(s, t, a, size);
    TakeOwn(s1, t, a, INFO_BYTES, Info);
    PcOwn(s2, t, Load(goal));
    OwnTrans(s, s1, s2, t);
    OwnTrans(s, s2, s3, t);
  }

  /** The first block of a thread: it is new, all the thread has, and holds its ThreadInfo; the
      rest of it has room for what was asked. */
  lemma FirstBlockSafe(s: State, t: nat, a: nat)
    requires Safe(s) && Shape(s) && t < |s.threads| && s.threads[t].pc.First? && Granted(s, t, a)
    ensures Safe(StepFirst(s, t, a))
    ensures var r := StepFirst(s, t, a);
      && a !in s.blocks && r.threads[t].blocks == [a] && a in r.blocks && r.blocks[a].owner == t
      && r.pieces == s.pieces + [Piece(Info, a, HEADER, INFO_BYTES)]
      && Avail(r.blocks[a]) >= Need(s.threads[t].pc.goal, s.threads[t].chunks)
  {
    var goal := s.threads[t].pc.goal;
    var size := NewSize(s, None, INFO_BYTES + Need(goal, s.threads[t].chunks));
    assert ThreadOk(s, t);
    FreshIsNew(s, a, size);
    FirstBlockFacts(s, t, a, size, goal);
    FirstBlockKeepsSafe(s, StepFirst(s, t, a), t, a, size, goal);
  }

  lemma FirstBlockFacts(s: State, t: nat, a: nat, size: nat, goal: Goal)
    requires t < |s.threads| && s.threads[t].blocks == [] && HEADER + INFO_BYTES <= size
    ensures var r := FirstBlock(s, t, a, size, goal);
      && r.threads[t] == s.threads[t].(blocks := [a], pc := Load(goal))
      && a in r.blocks && r.blocks[a] == Block(t, HEADER + INFO_BYTES, size)
      && r.pieces == s.pieces + [Piece(Info, a, HEADER, INFO_BYTES)]
  {
  }

  lemma FirstBlockKeepsSafe(s: State, r: State, t: nat, a: nat, size: nat, goal: Goal)
    requires Safe(s) && t < |s.threads| && s.threads[t].pc == First(goal) && s.threads[t].blocks == []
    requires Fresh(s, a, size) && size >= HEADER + INFO_BYTES && r == FirstBlock(s, t, a, size, goal)
    ensures Safe(r)
  {
    FirstBlockMemory(s, t, a, size, goal);
    FirstBlockFacts(s, t, a, size, goal);
    FirstBlockThread(s, r, t, a);
    ControlKept(s, r, t);
  }

  lemma FirstBlockThread(s: State, r: State, t: nat, a: nat)
    requires t < |s.threads| && ThreadOk(s, t) && s.threads[t].pc.First? && OnlyOwn(s, r, t)
    requires r.threads[t] == s.threads[t].(blocks := [a] + s.threads[t].blocks, pc := Load(s.threads[t].pc.goal))
    ensures ThreadOk(r, t)
  {
  }

  lemma LoadSafe(s: State, t: nat)
    requires Safe(s) && t < |s.threads| && s.threads[t].pc.Load?
    ensures Safe(StepLoad(s, t))
  {
    assert ThreadOk(s, t);
    MemorySame(s, StepLoad(s, t));
    ControlKept(s, StepLoad(s, t), t);
  }

  /** The compare-and-swap either fails, and is tried again, or puts the ThreadInfo in front of
      all those pushed before. */
  lemma CasSafe(s: State, t: nat)
    requires Safe(s) && t < |s.threads| && s.threads[t].pc.Cas?
    ensures Safe(StepCas(s, t))
    ensures StepCas(s, t).order == if s.head == s.threads[t].pc.seen then [t] + s.order else s.order
  {
    assert ThreadOk(s, t);
    var Cas(goal, seen) := s.threads[t].pc;
    var r := StepCas(s, t);
    if s.head == seen {
      MemorySame(s, r);
      forall i | 0 <= i < |r.order|
        ensures NextOk(r, i)
      {
        assert i > 0 ==> NextOk(s, i - 1);
      }
      forall u | 0 <= u < |r.threads|
        ensures ThreadOk(r, u)
      {
        assert ThreadOk(s, u);
      }
    } else {
      PcSafe(s, t, Load(goal));
    }
  }

  lemma RoomSafe(s: State, t: nat, a: nat)
    requires Safe(s) && Shape(s) && t < |s.threads| && s.threads[t].pc.Room? && Granted(s, t, a)
    ensures Safe(StepRoom(s, t, a))
  {
    var th := s.threads[t];
    assert ThreadOk(s, t) && OwnsList(s, t);
    var goal := th.pc.goal;
    var need := Need(goal, th.chunks);
    assert th.blocks[0] in th.blocks;
    if Avail(s.blocks[th.blocks[0]]) < need {
      AnotherBlockSafe(s, StepRoom(s, t, a), t, a, NewSize(s, Some(th.blocks[0]), need), goal);
    } else {
      PcSafe(s, t, Publish(goal));
    }
  }

  lemma AnotherBlockSafe(s: State, r: State, t: nat, a: nat, size: nat, goal: Goal)
    requires Safe(s) && t < |s.threads| && s.threads[t].pc == Room(goal) && Fresh(s, a, size)
    requires size >= HEADER + Need(goal, s.threads[t].chunks)
    requires r == WithPc(NewBlock(s, t, a, size), t, Publish(goal))
    ensures Safe(r)
  {
    NewBlockMemory(s, t, a, size);
    MemorySame(NewBlock(s, t, a, size), r);
    AnotherBlockThread(s, r, t, a, size, goal);
    ControlKept(s, r, t);
  }

  lemma AnotherBlockThread(s: State, r: State, t: nat, a: nat, size: nat, goal: Goal)
    requires Control(s) && t < |s.threads| && s.threads[t].pc == Room(goal) && a !in s.blocks
    requires size >= HEADER + Need(goal, s.threads[t].chunks)
    requires r == WithPc(NewBlock(s, t, a, size), t, Publish(goal))
    ensures ThreadOk(r, t) && HintOk(r) && OnlyOwn(s, r, t)
  {
    assert ThreadOk(s, t);
  }

  lemma PublishSafe(s: State, t: nat)
    requires Safe(s) && Shape(s) && t < |s.threads| && s.threads[t].pc.Publish?
    ensures Safe(StepPublish(s, t))
  {
    var th := s.threads[t];
    assert ThreadOk(s, t) && OwnsList(s, t);
    var a, goal := th.blocks[0], th.pc.goal;
    assert a in th.blocks;
    var s1 := s.(threads := s.threads[t := th.(cache := Cache(s.lifecycle, a))], hint := Some(a));
    MemorySame(s, s1);
    ControlKept(s, s1, t);
    UseUsed(s1, t, a, goal);
    UsedSafe(s1, StepPublish(s, t), t);
  }

  /** Every step of every thread keeps the arena safe. */
  lemma StepSafe(s: State, t: nat, a: nat)
    requires Safe(s) && t < |s.threads|
    ensures Shape(s)
    ensures Granted(s, t, a) ==> Safe(Step(s, t, a))
  {
    SafeShape(s);
    if Granted(s, t, a) {
      match s.threads[t].pc
      case Idle =>
      case Start(_) => StartSafe(s, t);
      case CheckHint(_, _) => HintSafe(s, t);
      case Slow(_, _) => SlowSafe(s, t);
      case First(_) => FirstBlockSafe(s, t, a);
      case Load(_) => LoadSafe(s, t);
      case Cas(_, _) => CasSafe(s, t);
      case Room(_) => RoomSafe(s, t, a);
      case Publish(_) => PublishSafe(s, t);
    }
  }
}
