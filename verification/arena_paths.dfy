/** Which way a request takes through GetBlock, in bytes: the thread's cache serves what fits its
    block, then the hint, and the allocator is asked only when the newest block is too full. */
module ArenaPaths {
  import opened Sequences
  import opened ArenaState
  import opened ArenaSafety
  import opened ArenaCalls
  import opened ArenaCleanup

  /** The bytes a request has to find in a block. */
  function Wanted(goal: Goal, chunks: seq<Chunk>): nat {
    match goal
    case Allocate(n) => n
    case AllocateWithCleanup(n) => n
    case Register(_) => 0
    case Grow(_) => if chunks == [] then 152 else if chunks[0].size >= 32 then 1048 else 24 + 32 * chunks[0].size
  }

  lemma WantedIsNeeded(goal: Goal, chunks: seq<Chunk>)
    ensures Need(goal, chunks) == Wanted(goal, chunks)
  {
  }

  predicate Holds(b: Block, n: nat) { b.pos + n <= b.size }

  /** A request served from block a: what the caller gets starts where the block was filled to. */
  lemma ServedFrom(s: State, t: nat, a: nat, goal: Goal)
    requires t < |s.threads| == |s.registered| && a in s.blocks && s.blocks[a].owner == t
    ensures var r := Use(s, t, a, goal);
      && Delivered(s, r, t, goal) && r.head == s.head && r.hint == s.hint && r.space == s.space
      && (goal.Allocate? || goal.AllocateWithCleanup? ==> r.pieces[|s.pieces|] == Piece(User, a, s.blocks[a].pos, goal.n))
  {
    UseDelivers(s, t, a, goal);
  }

  /** A valid cache serves what fits its block at once, touching no shared word; what does not fit
      goes on to the hint. */
  lemma CacheServes(s: State, t: nat)
    requires Safe(s) && Shape(s) && t < |s.threads| && s.threads[t].pc.Start?
    ensures var th := s.threads[t]; var goal := th.pc.goal; var r := StepStart(s, t);
      if th.cache.lifecycle == s.lifecycle && th.cache.block in s.blocks && Holds(s.blocks[th.cache.block], Wanted(goal, th.chunks))
      then r == Use(s, t, th.cache.block, goal) && Delivered(s, r, t, goal) && r.head == s.head && r.hint == s.hint && r.space == s.space
      else r == WithPc(s, t, CheckHint(goal, if th.cache.lifecycle == s.lifecycle then Some(th.cache.block) else None))
  {
    var th := s.threads[t];
    WantedIsNeeded(th.pc.goal, th.chunks);
    if th.cache.lifecycle == s.lifecycle {
      CacheNamesOwnBlock(s, t);
      assert BlockOk(s, th.cache.block);
      if Holds(s.blocks[th.cache.block], Wanted(th.pc.goal, th.chunks)) {
        ServedFrom(s, t, th.cache.block, th.pc.goal);
      }
    }
  }

  /** So does a hint that names a block of the thread. */
  lemma HintServes(s: State, t: nat)
    requires Safe(s) && Shape(s) && t < |s.threads| && s.threads[t].pc.CheckHint?
    ensures var th := s.threads[t]; var goal := th.pc.goal; var r := StepHint(s, t);
      if s.hint.Some? && s.blocks[s.hint.value].owner == t && Holds(s.blocks[s.hint.value], Wanted(goal, th.chunks))
      then r == Use(s, t, s.hint.value, goal) && Delivered(s, r, t, goal)
      else r.threads[t].pc.Slow? && r.threads[t].pc.goal == goal && r == WithPc(s, t, r.threads[t].pc)
  {
    var th := s.threads[t];
    WantedIsNeeded(th.pc.goal, th.chunks);
    if s.hint.Some? {
      assert BlockOk(s, s.hint.value);
      if s.blocks[s.hint.value].owner == t && Holds(s.blocks[s.hint.value], Wanted(th.pc.goal, th.chunks)) {
        ServedFrom(s, t, s.hint.value, th.pc.goal);
      }
    }
  }

  /** The allocator is asked for a thread's first block, or when its newest block is too full, and
      never else. What is asked for is the start size, or twice the newest block up to the largest
      size, unless the request with the header, and the ThreadInfo in a first block, needs more. */
  lemma AsksWhenFull(s: State, t: nat)
    requires Safe(s) && Shape(s) && t < |s.threads|
    ensures var th := s.threads[t];
      Asks(s, t).Some? <==> th.pc.First? || (th.pc.Room? && th.blocks[0] in s.blocks
                                             && !Holds(s.blocks[th.blocks[0]], Wanted(th.pc.goal, th.chunks)))
    ensures s.threads[t].pc.First? ==>
      LargerOf(Asks(s, t).value, s.options.startBlockSize, 72 + Wanted(s.threads[t].pc.goal, s.threads[t].chunks))
    ensures s.threads[t].pc.Room? && Asks(s, t).Some? ==>
      var twice := 2 * s.blocks[s.threads[t].blocks[0]].size;
      LargerOf(Asks(s, t).value, if twice < s.options.maxBlockSize then twice else s.options.maxBlockSize,
               40 + Wanted(s.threads[t].pc.goal, s.threads[t].chunks))
  {
    var th := s.threads[t];
    assert ThreadShape(s, th);
    if !th.pc.Idle? {
      WantedIsNeeded(th.pc.goal, th.chunks);
    }
    if th.pc.Room? {
      assert th.blocks[0] in s.blocks;
      assert BlockOk(s, th.blocks[0]);
    }
  }

  predicate LargerOf(n: nat, x: nat, y: nat) { n >= x && n >= y && (n == x || n == y) }

  /** The slow path leaves the block it ends with in the thread's cache and in the hint, so that
      the next request that fits that block is served at once. */
  lemma SlowPathCaches(s: State, t: nat)
    requires Safe(s) && Shape(s) && t < |s.threads| && s.threads[t].pc.Publish?
    ensures var r := StepPublish(s, t); var a := s.threads[t].blocks[0];
      s.threads[t].blocks != [] && r.hint == Some(a) && r.threads[t].cache == Cache(r.lifecycle, a) && r.lifecycle == s.lifecycle
  {
    assert ThreadShape(s, s.threads[t]);
  }

  /** So does Init with an initial block, for the thread that calls it. */
  lemma InitCaches(s: State, t: nat)
    requires t < |s.threads| == |s.registered|
    ensures s.options.initialBlock.Some? ==>
      var r := Init(s, t);
      r.hint == s.options.initialBlock && r.threads[t].cache == Cache(r.lifecycle, s.options.initialBlock.value)
      && r.space == s.options.initialBlockSize
  {
  }

  /** A cleanup is registered at once if the newest chunk has a place left or the block has room for
      a new chunk, which then is made in that very block; else memory for one is asked for. */
  lemma RegistersInBlock(s: State, t: nat, a: nat, elem: nat)
    requires t < |s.threads| == |s.registered| && a in s.blocks && s.blocks[a].pos <= s.blocks[a].size
    ensures var r := RegisterIn(s, t, a, elem); var chunks := s.threads[t].chunks;
      if chunks != [] && |chunks[0].nodes| != chunks[0].size then r.threads[t].pc == Idle && r.pieces == s.pieces
      else if Holds(s.blocks[a], Wanted(Grow(elem), chunks))
      then r.threads[t].pc == Idle && r.pieces == s.pieces + [Piece(ChunkMemory, a, s.blocks[a].pos, Wanted(Grow(elem), chunks))]
      else r == WithPc(s, t, Start(Grow(elem)))
  {
    WantedIsNeeded(Grow(elem), s.threads[t].chunks);
  }
}
