/** ArenaImpl of the protobuf arena, with many threads allocating from it at once.

    Block lists, cleanup chunks and the thread cache belong to one thread; the words threads_,
    hint_ and space_allocated_ are shared. One step of a thread touches at most one shared word,
    and every interleaving of steps is considered, each step being seen by the others at once.
    Memory is named by address: the allocator picks the address of a new block. */
module ArenaState {
  import opened Sequences

  const HEADER: nat := 40          // kHeaderSize
  const INFO_BYTES: nat := 32      // sizeof(ThreadInfo)
  const MIN_CHUNK: nat := 8        // kMinCleanupListElements
  const MAX_CHUNK: nat := 64       // kMaxCleanupListElements

  /** Block, without the link to the next block of its thread: the thread keeps the list. */
  datatype Block = Block(owner: nat, pos: nat, size: nat)

  /** CleanupChunk: len is the number of nodes present. */
  datatype Chunk = Chunk(size: nat, nodes: seq<nat>)

  /** ThreadCache. */
  datatype Cache = Cache(lifecycle: int, block: nat)

  /** What a thread wants a block for. */
  datatype Goal =
    | Allocate(n: nat)              // AllocateAligned
    | AllocateWithCleanup(n: nat)   // AllocateAlignedAndAddCleanup
    | Register(elem: nat)           // AddCleanup
    | Grow(elem: nat)               // a new chunk for elem, inside ExpandCleanupList

  /** Where a thread is in GetBlock. */
  datatype Pc =
    | Idle
    | Start(goal: Goal)                          // about to look at its own cache
    | CheckHint(goal: Goal, mine: Option<nat>)   // about to read hint_
    | Slow(goal: Goal, mine: Option<nat>)        // GetBlockSlow, about to look for its ThreadInfo
    | First(goal: Goal)                          // it has none; about to make its first block
    | Load(goal: Goal)                           // about to read threads_ for the push
    | Cas(goal: Goal, seen: Option<nat>)         // next is set, about to compare and swap
    | Room(goal: Goal)                           // its ThreadInfo is on the list
    | Publish(goal: Goal)                        // about to cache the block and store hint_

  /** A thread; its ThreadInfo exists once blocks is not empty. */
  datatype Thread = Thread(blocks: seq<nat>, chunks: seq<Chunk>, next: Option<nat>, cache: Cache, pc: Pc)

  /** A piece of a block handed out, and what for. */
  datatype Piece = Piece(kind: PieceKind, block: nat, off: nat, n: nat)
  datatype PieceKind = User | Info | ChunkMemory

  datatype Options = Options(startBlockSize: nat, maxBlockSize: nat, initialBlock: Option<nat>, initialBlockSize: nat)

  datatype State = State(
    options: Options,
    blocks: map<nat, Block>,
    threads: seq<Thread>,
    head: Option<nat>,           // threads_
    hint: Option<nat>,           // hint_
    space: nat,                  // space_allocated_
    lifecycle: int,              // lifecycle_id_
    nextLifecycle: int,          // lifecycle_id_generator_
    order: seq<nat>,             // history: the threads pushed on threads_, last first
    pieces: seq<Piece>,          // history: all that was handed out since Init, oldest first
    registered: seq<seq<nat>>)   // history: the cleanups each thread has registered since Init

  function ChunkBytes(size: nat): int { 24 + 16 * size }

  const UINT64: int := 0x1_0000_0000_0000_0000

  /** avail(), of an unsigned type: were pos beyond the end it would be huge. */
  function Avail(b: Block): int {
    if b.pos <= b.size then b.size - b.pos else b.size - b.pos + UINT64
  }

  /** The size of the chunk that follows those present. */
  function NextChunkSize(chunks: seq<Chunk>): nat {
    if chunks == [] then MIN_CHUNK else if chunks[0].size * 2 < MAX_CHUNK then chunks[0].size * 2 else MAX_CHUNK
  }

  function Need(goal: Goal, chunks: seq<Chunk>): nat {
    match goal
    case Allocate(n) => n
    case AllocateWithCleanup(n) => n
    case Register(_) => 0
    case Grow(_) => ChunkBytes(NextChunkSize(chunks))
  }

  ghost predicate GoalOk(goal: Goal) {
    match goal
    case Allocate(n) => n % 8 == 0
    case AllocateWithCleanup(n) => n % 8 == 0
    case _ => true
  }

  // ---------- small changes ----------

  function WithPc(s: State, t: nat, pc: Pc): State
    requires t < |s.threads|
  {
    s.(threads := s.threads[t := s.threads[t].(pc := pc)])
  }

  /** AllocFromBlock. */
  function Take(s: State, a: nat, n: nat, kind: PieceKind): State
    requires a in s.blocks
  {
    var b := s.blocks[a];
    s.(blocks := s.blocks[a := b.(pos := b.pos + n)], pieces := s.pieces + [Piece(kind, a, b.pos, n)])
  }

  /** NewBlock at address a, put at the front of the thread's list. */
  function NewBlock(s: State, t: nat, a: nat, size: nat): State
    requires t < |s.threads|
  {
    s.(blocks := s.blocks[a := Block(t, HEADER, size)],
       threads := s.threads[t := s.threads[t].(blocks := [a] + s.threads[t].blocks)],
       space := s.space + size)
  }

  /** The first block of a thread, with its ThreadInfo, which is to be pushed next. */
  function FirstBlock(s: State, t: nat, a: nat, size: nat, goal: Goal): State
    requires t < |s.threads|
  {
    WithPc(Take(NewBlock(s, t, a, size), a, INFO_BYTES, Info), t, Load(goal))
  }

  function NewSize(s: State, last: Option<nat>, minBytes: nat): nat
    requires last.Some? ==> last.value in s.blocks
  {
    var size := if last.None? then s.options.startBlockSize
                else if 2 * s.blocks[last.value].size < s.options.maxBlockSize then 2 * s.blocks[last.value].size
                else s.options.maxBlockSize;
    if size < HEADER + minBytes then HEADER + minBytes else size
  }

  /** What the allocator guarantees of the memory it answers. */
  ghost predicate Fresh(s: State, a: nat, size: nat) { a % 8 == 0 && a > 0 && Vacant(s, a, size) }

  ghost predicate Vacant(s: State, a: nat, size: nat) {
    forall b :: b in s.blocks ==> a + size <= b || b + s.blocks[b].size <= a
  }

  function Append(s: State, t: nat, elem: nat): State
    requires t < |s.threads| && t < |s.registered| && s.threads[t].chunks != []
  {
    var c := s.threads[t].chunks[0];
    s.(threads := s.threads[t := s.threads[t].(chunks := [c.(nodes := c.nodes + [elem])] + s.threads[t].chunks[1..], pc := Idle)],
       registered := s.registered[t := s.registered[t] + [elem]])
  }

  /** A new chunk in block a, as ExpandCleanupList makes it. */
  function AddChunk(s: State, t: nat, a: nat): State
    requires t < |s.threads| && a in s.blocks
  {
    var size := NextChunkSize(s.threads[t].chunks);
    var s1 := Take(s, a, ChunkBytes(size), ChunkMemory);
    s1.(threads := s1.threads[t := s1.threads[t].(chunks := [Chunk(size, [])] + s1.threads[t].chunks)])
  }

  /** AddCleanupInBlock, up to a call of GetBlock for more memory. */
  function RegisterIn(s: State, t: nat, a: nat, elem: nat): State
    requires t < |s.threads| && t < |s.registered| && a in s.blocks
  {
    var chunks := s.threads[t].chunks;
    if chunks != [] && |chunks[0].nodes| != chunks[0].size then Append(s, t, elem)
    else if Avail(s.blocks[a]) < ChunkBytes(NextChunkSize(chunks)) then WithPc(s, t, Start(Grow(elem)))
    else Append(AddChunk(s, t, a), t, elem)
  }

  /** What the thread does with the block it got. */
  function Use(s: State, t: nat, a: nat, goal: Goal): State
    requires t < |s.threads| && t < |s.registered| && a in s.blocks
  {
    match goal
    case Allocate(n) => WithPc(Take(s, a, n, User), t, Idle)
    case AllocateWithCleanup(n) => RegisterIn(Take(s, a, n, User), t, a, a + s.blocks[a].pos)
    case Register(elem) => RegisterIn(s, t, a, elem)
    case Grow(elem) => Append(AddChunk(s, t, a), t, elem)
  }

  // ---------- the steps of GetBlock ----------

  ghost predicate Shape(s: State) {
    && |s.registered| == |s.threads|
    && (s.hint.Some? ==> s.hint.value in s.blocks)
    && (forall t :: 0 <= t < |s.threads| ==> ThreadShape(s, s.threads[t]))
  }

  ghost predicate ThreadShape(s: State, th: Thread) {
    && (forall i :: 0 <= i < |th.blocks| ==> th.blocks[i] in s.blocks)
    && (th.cache.lifecycle == s.lifecycle ==> th.cache.block in s.blocks)
    && (th.pc.Room? || th.pc.Publish? ==> th.blocks != [])
  }

  /** The fast path over the thread's own cache. */
  function StepStart(s: State, t: nat): State
    requires Shape(s) && t < |s.threads| && s.threads[t].pc.Start?
  {
    var th := s.threads[t];
    var goal := th.pc.goal;
    if th.cache.lifecycle == s.lifecycle then
      if Avail(s.blocks[th.cache.block]) >= Need(goal, th.chunks) then Use(s, t, th.cache.block, goal)
      else WithPc(s, t, CheckHint(goal, Some(th.cache.block)))
    else WithPc(s, t, CheckHint(goal, None))
  }

  /** The fast path over hint_. */
  function StepHint(s: State, t: nat): State
    requires Shape(s) && t < |s.threads| && s.threads[t].pc.CheckHint?
  {
    var th := s.threads[t];
    var CheckHint(goal, mine) := th.pc;
    if s.hint.Some? && s.blocks[s.hint.value].owner == t then
      if Avail(s.blocks[s.hint.value]) >= Need(goal, th.chunks) then Use(s, t, s.hint.value, goal)
      else WithPc(s, t, Slow(goal, s.hint))
    else WithPc(s, t, Slow(goal, mine))
  }

  /** GetBlockSlow, up to the answer of FindThreadInfo: a thread found neither by a block of its
      own nor on the list of threads gets its first block. */
  function StepSlow(s: State, t: nat): State
    requires t < |s.threads| && s.threads[t].pc.Slow?
  {
    var Slow(goal, mine) := s.threads[t].pc;
    WithPc(s, t, if mine.Some? || t in s.order then Room(goal) else First(goal))
  }

  /** GetThreadInfo for a thread that has none. */
  function StepFirst(s: State, t: nat, a: nat): State
    requires t < |s.threads| && s.threads[t].pc.First?
  {
    var goal := s.threads[t].pc.goal;
    FirstBlock(s, t, a, NewSize(s, None, INFO_BYTES + Need(goal, s.threads[t].chunks)), goal)
  }

  function StepLoad(s: State, t: nat): State
    requires t < |s.threads| && s.threads[t].pc.Load?
  {
    s.(threads := s.threads[t := s.threads[t].(next := s.head, pc := Cas(s.threads[t].pc.goal, s.head))])
  }

  function StepCas(s: State, t: nat): State
    requires t < |s.threads| && s.threads[t].pc.Cas?
  {
    var Cas(goal, seen) := s.threads[t].pc;
    if s.head == seen then WithPc(s, t, Room(goal)).(head := Some(t), order := [t] + s.order)
    else WithPc(s, t, Load(goal))
  }

  /** The newest block of the thread is used if it has room; otherwise another one is added. */
  function StepRoom(s: State, t: nat, a: nat): State
    requires Shape(s) && t < |s.threads| && s.threads[t].pc.Room?
  {
    var th := s.threads[t];
    assert ThreadShape(s, th);
    var goal := th.pc.goal;
    var need := Need(goal, th.chunks);
    assert th.blocks[0] in s.blocks;
    if Avail(s.blocks[th.blocks[0]]) < need then
      WithPc(NewBlock(s, t, a, NewSize(s, Some(th.blocks[0]), need)), t, Publish(goal))
    else WithPc(s, t, Publish(goal))
  }

  /** CacheBlock, and the use of the block. */
  function StepPublish(s: State, t: nat): State
    requires Shape(s) && t < |s.threads| && s.threads[t].pc.Publish?
  {
    var th := s.threads[t];
    assert ThreadShape(s, th);
    var a := th.blocks[0];
    Use(s.(threads := s.threads[t := th.(cache := Cache(s.lifecycle, a))], hint := Some(a)), t, a, th.pc.goal)
  }

  /** The size of the block that the next step of thread t asks the allocator for, if any. */
  function Asks(s: State, t: nat): Option<nat>
    requires Shape(s) && t < |s.threads|
  {
    var th := s.threads[t];
    match th.pc
    case First(goal) => Some(NewSize(s, None, INFO_BYTES + Need(goal, th.chunks)))
    case Room(goal) =>
      assert ThreadShape(s, th);
      assert th.blocks[0] in s.blocks;
      if Avail(s.blocks[th.blocks[0]]) < Need(goal, th.chunks) then Some(NewSize(s, Some(th.blocks[0]), Need(goal, th.chunks)))
      else None
    case _ => None
  }

  function Step(s: State, t: nat, a: nat): State
    requires Shape(s) && t < |s.threads|
  {
    match s.threads[t].pc
    case Idle => s
    case Start(_) => StepStart(s, t)
    case CheckHint(_, _) => StepHint(s, t)
    case Slow(_, _) => StepSlow(s, t)
    case First(_) => StepFirst(s, t, a)
    case Load(_) => StepLoad(s, t)
    case Cas(_, _) => StepCas(s, t)
    case Room(_) => StepRoom(s, t, a)
    case Publish(_) => StepPublish(s, t)
  }

  // ---------- Init and Reset ----------

  /** An arena with no blocks, under a new lifecycle id. */
  function Cleared(s: State): State {
    s.(blocks := map[], head := None, hint := None, space := 0, order := [], pieces := [],
       lifecycle := s.nextLifecycle, nextLifecycle := s.nextLifecycle + 1,
       registered := seq(|s.threads|, _ => []),
       threads := seq(|s.threads|, i requires 0 <= i < |s.threads| => s.threads[i].(blocks := [], chunks := [], next := None)))
  }

  /** Init, called by thread t, which comes to own the initial block if there is one. */
  function Init(s: State, t: nat): State
    requires t < |s.threads| && |s.registered| == |s.threads|
  {
    match s.options.initialBlock
    case None => Cleared(s)
    case Some(a) =>
      var s1 := Take(NewBlock(Cleared(s), t, a, s.options.initialBlockSize), a, INFO_BYTES, Info);
      s1.(head := Some(t), order := [t], hint := Some(a),
          threads := s1.threads[t := s1.threads[t].(cache := Cache(s1.lifecycle, a))])
  }
}
