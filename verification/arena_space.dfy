/** The arena's accounts: space_allocated_ is the sum of the sizes of the live blocks, and what
    the blocks have handed out, less one ThreadInfo per thread, is what the callers and the
    cleanup chunks got. */
module ArenaSpace {
  import opened Sequences
  import opened ArenaState
  import opened ArenaSafety
  import opened ArenaRuns
  import opened ArenaCleanup

  // ---------- the accounts of one thread ----------

  ghost function SizeIn(s: State): nat -> int {
    (a: nat) => if a in s.blocks then s.blocks[a].size else 0
  }

  ghost function FilledIn(s: State): nat -> int {
    (a: nat) => if a in s.blocks then s.blocks[a].pos - HEADER else 0
  }

  /** The bytes of all blocks of thread t. */
  ghost function Size(s: State, t: nat): int {
    if t < |s.threads| then Total(s.threads[t].blocks, SizeIn(s)) else 0
  }

  /** The bytes handed out of the blocks of thread t, but for its ThreadInfo. */
  ghost function Net(s: State, t: nat): int {
    if t < |s.threads| && s.threads[t].blocks != [] then Total(s.threads[t].blocks, FilledIn(s)) - INFO_BYTES else 0
  }

  ghost function Sizes(s: State): nat -> int { (t: nat) => Size(s, t) }
  ghost function Nets(s: State): nat -> int { (t: nat) => Net(s, t) }

  /** The bytes handed out to callers and for cleanup chunks. */
  function Handed(pieces: seq<Piece>): int {
    if pieces == [] then 0
    else Handed(pieces[..|pieces| - 1]) + (if pieces[|pieces| - 1].kind == Info then 0 else pieces[|pieces| - 1].n)
  }

  ghost predicate Accounted(s: State) {
    && s.space == Total(UpTo(|s.threads|), Sizes(s))
    && Handed(s.pieces) == Total(UpTo(|s.threads|), Nets(s))
    && forall t :: 0 <= t < |s.threads| ==> Net(s, t) >= 0 && (Pushing(s.threads[t].pc) ==> Net(s, t) == 0)
  }

  // ---------- every step ----------

  /** From s to r thread t's accounts have changed by as much as the arena's, the others' not at all. */
  ghost predicate Balanced(s: State, r: State, t: nat) {
    && t < |s.threads| == |r.threads|
    && (forall u :: 0 <= u < |s.threads| && u != t ==>
          r.threads[u] == s.threads[u] && Size(r, u) == Size(s, u) && Net(r, u) == Net(s, u))
    && r.space - s.space == Size(r, t) - Size(s, t)
    && Handed(r.pieces) - Handed(s.pieces) == Net(r, t) - Net(s, t) >= 0
  }

  /** And a thread that is not on the list yet has handed out nothing but its ThreadInfo. */
  ghost predicate Sound(s: State, r: State, t: nat) {
    Balanced(s, r, t) && (Pushing(r.threads[t].pc) ==> Net(r, t) == 0)
  }

  lemma BalancedTrans(s: State, r: State, q: State, t: nat)
    requires Balanced(s, r, t) && Balanced(r, q, t)
    ensures Balanced(s, q, t)
  {
  }

  lemma AccountedAfter(s: State, r: State, t: nat)
    requires Accounted(s) && Sound(s, r, t)
    ensures Accounted(r)
  {
    var all := UpTo(|s.threads|);
    assert all[t] == t;
    TotalChange(all, t, Sizes(s), Sizes(r));
    TotalChange(all, t, Nets(s), Nets(r));
  }

  /** Neither blocks nor pieces have changed. */
  lemma SameBalanced(s: State, r: State, t: nat)
    requires t < |s.threads| == |r.threads| && r.blocks == s.blocks && r.pieces == s.pieces && r.space == s.space
    requires forall u :: 0 <= u < |s.threads| && u != t ==> r.threads[u] == s.threads[u]
    requires r.threads[t].blocks == s.threads[t].blocks
    ensures Balanced(s, r, t) && Net(r, t) == Net(s, t)
  {
    forall u | 0 <= u < |s.threads|
      ensures Size(r, u) == Size(s, u) && Net(r, u) == Net(s, u)
    {
      TotalSame(s.threads[u].blocks, SizeIn(s), SizeIn(r));
      TotalSame(s.threads[u].blocks, FilledIn(s), FilledIn(r));
    }
  }

  lemma HandedSnoc(pieces: seq<Piece>, p: Piece)
    ensures Handed(pieces + [p]) == Handed(pieces) + if p.kind == Info then 0 else p.n
  {
    assert (pieces + [p])[..|pieces|] == pieces;
  }

  lemma OthersBlocks(s: State, t: nat, u: nat, a: nat)
    requires Lists(s) && t < |s.threads| && u < |s.threads| && t != u && (a in s.blocks ==> s.blocks[a].owner == t)
    ensures a !in s.threads[u].blocks
  {
    assert OwnsList(s, u);
  }

  lemma TakeBalanced(s: State, t: nat, a: nat, n: nat, kind: PieceKind)
    requires Memory(s) && t < |s.threads| && a in s.blocks && a in s.threads[t].blocks && kind != Info
    ensures Balanced(s, Take(s, a, n, kind), t)
  {
    var r := Take(s, a, n, kind);
    assert OwnsList(s, t);
    forall u | 0 <= u < |s.threads| && u != t
      ensures a !in s.threads[u].blocks
    {
      OthersBlocks(s, t, u, a);
    }
    TakeOthers(s, t, a, n, kind);
    TakeTotals(s, t, a, n, kind);
    HandedSnoc(s.pieces, Piece(kind, a, s.blocks[a].pos, n));
  }

  lemma TakeTotals(s: State, t: nat, a: nat, n: nat, kind: PieceKind)
    requires t < |s.threads| && a in s.blocks && a in s.threads[t].blocks && Distinct(s.threads[t].blocks)
    ensures var r := Take(s, a, n, kind); Size(r, t) == Size(s, t) && Net(r, t) == Net(s, t) + n
  {
    var r := Take(s, a, n, kind);
    TotalSame(s.threads[t].blocks, SizeIn(s), SizeIn(r));
    TotalChange(s.threads[t].blocks, a, FilledIn(s), FilledIn(r));
  }

  /** A further block for thread t. */
  lemma NewBlockBalanced(s: State, t: nat, a: nat, size: nat)
    requires Memory(s) && t < |s.threads| && a !in s.blocks && s.threads[t].blocks != []
    ensures Balanced(s, NewBlock(s, t, a, size), t)
  {
    NewBlockOthers(s, t, a, size);
    NewBlockTotals(s, t, a, size);
  }

  lemma NewBlockOthers(s: State, t: nat, a: nat, size: nat)
    requires Memory(s) && t < |s.threads| && a !in s.blocks
    ensures var r := NewBlock(s, t, a, size);
      forall u :: 0 <= u < |s.threads| && u != t ==>
        r.threads[u] == s.threads[u] && Size(r, u) == Size(s, u) && Net(r, u) == Net(s, u)
  {
    var r := NewBlock(s, t, a, size);
    forall u | 0 <= u < |s.threads| && u != t
      ensures Size(r, u) == Size(s, u) && Net(r, u) == Net(s, u)
    {
      OthersBlocks(s, t, u, a);
      TotalSame(s.threads[u].blocks, SizeIn(s), SizeIn(r));
      TotalSame(s.threads[u].blocks, FilledIn(s), FilledIn(r));
    }
  }

  lemma NewBlockTotals(s: State, t: nat, a: nat, size: nat)
    requires Memory(s) && t < |s.threads| && a !in s.blocks
    ensures var r := NewBlock(s, t, a, size);
      && Size(r, t) == Size(s, t) + size
      && Total(r.threads[t].blocks, FilledIn(r)) == Total(s.threads[t].blocks, FilledIn(s))
  {
    var r := NewBlock(s, t, a, size);
    assert OwnsList(s, t);
    assert r.threads[t].blocks[1..] == s.threads[t].blocks;
    TotalSame(s.threads[t].blocks, SizeIn(s), SizeIn(r));
    TotalSame(s.threads[t].blocks, FilledIn(s), FilledIn(r));
  }

  lemma TakeOthers(s: State, t: nat, a: nat, n: nat, kind: PieceKind)
    requires t < |s.threads| && a in s.blocks && forall u :: 0 <= u < |s.threads| && u != t ==> a !in s.threads[u].blocks
    ensures var r := Take(s, a, n, kind);
      forall u :: 0 <= u < |s.threads| && u != t ==>
        r.threads[u] == s.threads[u] && Size(r, u) == Size(s, u) && Net(r, u) == Net(s, u)
  {
    var r := Take(s, a, n, kind);
    forall u | 0 <= u < |s.threads| && u != t
      ensures Size(r, u) == Size(s, u) && Net(r, u) == Net(s, u)
    {
      TotalSame(s.threads[u].blocks, SizeIn(s), SizeIn(r));
      TotalSame(s.threads[u].blocks, FilledIn(s), FilledIn(r));
    }
  }

  /** The first block of thread t, with its ThreadInfo. */
  lemma FirstBlockBalanced(s: State, t: nat, a: nat, size: nat)
    requires Memory(s) && t < |s.threads| && a !in s.blocks && s.threads[t].blocks == []
    ensures var r := Take(NewBlock(s, t, a, size), a, INFO_BYTES, Info); Balanced(s, r, t) && Net(r, t) == 0
  {
    var s1 := NewBlock(s, t, a, size);
    var r := Take(s1, a, INFO_BYTES, Info);
    NewBlockOthers(s, t, a, size);
    forall u | 0 <= u < |s.threads| && u != t
      ensures a !in s1.threads[u].blocks
    {
      OthersBlocks(s, t, u, a);
    }
    TakeOthers(s1, t, a, INFO_BYTES, Info);
    FirstBlockTotals(s, t, a, size);
  }

  lemma FirstBlockTotals(s: State, t: nat, a: nat, size: nat)
    requires t < |s.threads| && a !in s.blocks && s.threads[t].blocks == []
    ensures var r := Take(NewBlock(s, t, a, size), a, INFO_BYTES, Info);
      && Size(s, t) == 0 && Size(r, t) == size && Net(s, t) == 0 && Net(r, t) == 0
      && r.space == s.space + size && Handed(r.pieces) == Handed(s.pieces)
  {
    var r := Take(NewBlock(s, t, a, size), a, INFO_BYTES, Info);
    HandedSnoc(s.pieces, Piece(Info, a, HEADER, INFO_BYTES));
    TotalOne(a, SizeIn(r));
    TotalOne(a, FilledIn(r));
    assert r.threads[t].blocks == [a];
  }

  lemma TotalOne(a: nat, f: nat -> int)
    ensures Total([a], f) == f(a)
  {
    assert [a][1..] == [];
  }

  lemma ChunkSound(s: State, t: nat, a: nat, elem: nat)
    requires Memory(s) && MayUse(s, t, a)
    ensures Sound(s, Append(AddChunk(s, t, a), t, elem), t)
  {
    var s1 := Take(s, a, ChunkBytes(NextChunkSize(s.threads[t].chunks)), ChunkMemory);
    TakeBalanced(s, t, a, ChunkBytes(NextChunkSize(s.threads[t].chunks)), ChunkMemory);
    var r := Append(AddChunk(s, t, a), t, elem);
    SameBalanced(s1, r, t);
    BalancedTrans(s, s1, r, t);
  }

  lemma RegisterSound(s: State, t: nat, a: nat, elem: nat)
    requires Memory(s) && MayUse(s, t, a)
    ensures Sound(s, RegisterIn(s, t, a, elem), t)
  {
    var chunks := s.threads[t].chunks;
    if !NeedsChunk(chunks) || Avail(s.blocks[a]) < ChunkBytes(NextChunkSize(chunks)) {
      SameBalanced(s, RegisterIn(s, t, a, elem), t);
    } else {
      ChunkSound(s, t, a, elem);
    }
  }

  lemma AllocateSound(s: State, t: nat, a: nat, n: nat)
    requires Memory(s) && MayUse(s, t, a)
    ensures Sound(s, WithPc(Take(s, a, n, User), t, Idle), t)
  {
    var s1 := Take(s, a, n, User);
    TakeBalanced(s, t, a, n, User);
    SameBalanced(s1, WithPc(s1, t, Idle), t);
    BalancedTrans(s, s1, WithPc(s1, t, Idle), t);
  }

  lemma AllocateWithCleanupSound(s: State, r: State, t: nat, a: nat, n: nat, elem: nat)
    requires Memory(s) && MayUse(s, t, a) && n % 8 == 0 && Avail(s.blocks[a]) >= n
    requires r == RegisterIn(Take(s, a, n, User), t, a, elem)
    ensures Sound(s, r, t)
  {
    var s1 := Take(s, a, n, User);
    TakeTouched(s, t, a, n, User);
    TakeBalanced(s, t, a, n, User);
    RegisterSound(s1, t, a, elem);
    BalancedTrans(s, s1, r, t);
  }

  lemma UseSound(s: State, t: nat, a: nat, goal: Goal)
    requires Memory(s) && MayUse(s, t, a) && GoalOk(goal) && Avail(s.blocks[a]) >= Need(goal, s.threads[t].chunks)
    ensures Sound(s, Use(s, t, a, goal), t)
  {
    var r := Use(s, t, a, goal);
    match goal
    case Allocate(n) => AllocateSound(s, t, a, n);
    case AllocateWithCleanup(n) => AllocateWithCleanupSound(s, r, t, a, n, a + s.blocks[a].pos);
    case Register(elem) => RegisterSound(s, t, a, elem);
    case Grow(elem) => ChunkSound(s, t, a, elem);
  }

  lemma PcSound(s: State, t: nat, pc: Pc)
    requires t < |s.threads| && !Pushing(pc)
    ensures Sound(s, WithPc(s, t, pc), t)
  {
    SameBalanced(s, WithPc(s, t, pc), t);
  }

  lemma StartSound(s: State, t: nat)
    requires Safe(s) && Shape(s) && t < |s.threads| && s.threads[t].pc.Start?
    ensures Sound(s, StepStart(s, t), t)
  {
    var th := s.threads[t];
    var r := StepStart(s, t);
    assert ThreadOk(s, t);
    if th.cache.lifecycle == s.lifecycle {
      CacheNamesOwnBlock(s, t);
      if Avail(s.blocks[th.cache.block]) >= Need(th.pc.goal, th.chunks) {
        UseSound(s, t, th.cache.block, th.pc.goal);
        assert r == Use(s, t, th.cache.block, th.pc.goal);
      } else {
        PcSound(s, t, CheckHint(th.pc.goal, Some(th.cache.block)));
      }
    } else {
      PcSound(s, t, CheckHint(th.pc.goal, None));
    }
  }

  lemma HintSound(s: State, t: nat)
    requires Safe(s) && Shape(s) && t < |s.threads| && s.threads[t].pc.CheckHint?
    ensures Sound(s, StepHint(s, t), t)
  {
    var th := s.threads[t];
    var r := StepHint(s, t);
    assert ThreadOk(s, t);
    if s.hint.Some? && s.blocks[s.hint.value].owner == t {
      HintNamesOwnBlock(s, t);
      if Avail(s.blocks[s.hint.value]) >= Need(th.pc.goal, th.chunks) {
        UseSound(s, t, s.hint.value, th.pc.goal);
        assert r == Use(s, t, s.hint.value, th.pc.goal);
      } else {
        PcSound(s, t, Slow(th.pc.goal, s.hint));
      }
    } else {
      PcSound(s, t, Slow(th.pc.goal, th.pc.mine));
    }
  }

  lemma FirstSound(s: State, t: nat, a: nat)
    requires Safe(s) && Shape(s) && t < |s.threads| && s.threads[t].pc.First? && Granted(s, t, a)
    ensures Sound(s, StepFirst(s, t, a), t)
  {
    var goal := s.threads[t].pc.goal;
    assert ThreadOk(s, t);
    var size := NewSize(s, None, INFO_BYTES + Need(goal, s.threads[t].chunks));
    FreshIsNew(s, a, size);
    FirstBlockSound(s, StepFirst(s, t, a), t, a, size, goal);
  }

  lemma FirstBlockSound(s: State, r: State, t: nat, a: nat, size: nat, goal: Goal)
    requires Memory(s) && t < |s.threads| && a !in s.blocks && s.threads[t].blocks == []
    requires r == FirstBlock(s, t, a, size, goal)
    ensures Sound(s, r, t)
  {
    FirstBlockBalanced(s, t, a, size);
    var s1 := Take(NewBlock(s, t, a, size), a, INFO_BYTES, Info);
    SameBalanced(s1, r, t);
    BalancedTrans(s, s1, r, t);
  }

  lemma AnotherBlockSound(s: State, r: State, t: nat, a: nat, size: nat, goal: Goal)
    requires Memory(s) && t < |s.threads| && a !in s.blocks && s.threads[t].blocks != []
    requires r == WithPc(NewBlock(s, t, a, size), t, Publish(goal))
    ensures Sound(s, r, t)
  {
    NewBlockBalanced(s, t, a, size);
    SameBalanced(NewBlock(s, t, a, size), r, t);
    BalancedTrans(s, NewBlock(s, t, a, size), r, t);
  }

  lemma RoomSound(s: State, t: nat, a: nat)
    requires Safe(s) && Shape(s) && t < |s.threads| && s.threads[t].pc.Room? && Granted(s, t, a)
    ensures Sound(s, StepRoom(s, t, a), t)
  {
    var th := s.threads[t];
    assert ThreadOk(s, t) && ThreadShape(s, th);
    var r := StepRoom(s, t, a);
    var need := Need(th.pc.goal, th.chunks);
    if Avail(s.blocks[th.blocks[0]]) < need {
      var size := NewSize(s, Some(th.blocks[0]), need);
      FreshIsNew(s, a, size);
      AnotherBlockSound(s, r, t, a, size, th.pc.goal);
    } else {
      PcSound(s, t, Publish(th.pc.goal));
    }
  }

  lemma PublishSound(s: State, t: nat)
    requires Safe(s) && Shape(s) && t < |s.threads| && s.threads[t].pc.Publish?
    ensures Sound(s, StepPublish(s, t), t)
  {
    var th := s.threads[t];
    assert ThreadOk(s, t) && OwnsList(s, t) && ThreadShape(s, th);
    var a := th.blocks[0];
    assert a in th.blocks;
    var s1 := s.(threads := s.threads[t := th.(cache := Cache(s.lifecycle, a))], hint := Some(a));
    MemorySame(s, s1);
    CachedUseSound(s, s1, StepPublish(s, t), t, a, th.pc.goal);
  }

  lemma CachedUseSound(s: State, s1: State, r: State, t: nat, a: nat, goal: Goal)
    requires t < |s.threads| == |s1.threads| && s1.threads == s.threads[t := s.threads[t].(cache := s1.threads[t].cache)]
    requires s1.blocks == s.blocks && s1.pieces == s.pieces && s1.space == s.space
    requires Memory(s1) && MayUse(s1, t, a) && GoalOk(goal) && Avail(s.blocks[a]) >= Need(goal, s.threads[t].chunks)
    requires r == Use(s1, t, a, goal)
    ensures Sound(s, r, t)
  {
    SameBalanced(s, s1, t);
    UseSound(s1, t, a, goal);
    BalancedTrans(s, s1, r, t);
  }

  lemma IdleSound(s: State, t: nat)
    requires t < |s.threads| && !Pushing(s.threads[t].pc)
    ensures Sound(s, s, t)
  {
  }

  lemma SlowSound(s: State, t: nat)
    requires t < |s.threads| && s.threads[t].pc.Slow?
    ensures Sound(s, StepSlow(s, t), t)
  {
    var Slow(goal, mine) := s.threads[t].pc;
    PcSound(s, t, if mine.Some? || t in s.order then Room(goal) else First(goal));
  }

  lemma LoadSound(s: State, t: nat)
    requires Accounted(s) && t < |s.threads| && s.threads[t].pc.Load?
    ensures Sound(s, StepLoad(s, t), t)
  {
    SameBalanced(s, StepLoad(s, t), t);
  }

  lemma CasSound(s: State, t: nat)
    requires Accounted(s) && t < |s.threads| && s.threads[t].pc.Cas?
    ensures Sound(s, StepCas(s, t), t)
  {
    SameBalanced(s, StepCas(s, t), t);
  }

  lemma StepSound(s: State, t: nat, a: nat)
    requires Safe(s) && Accounted(s) && Shape(s) && t < |s.threads| && Granted(s, t, a)
    ensures Sound(s, Step(s, t, a), t)
  {
    match s.threads[t].pc
    case Idle => IdleSound(s, t);
    case Start(_) => StartSound(s, t);
    case CheckHint(_, _) => HintSound(s, t);
    case Slow(_, _) => SlowSound(s, t);
    case First(_) => FirstSound(s, t, a);
    case Load(_) => LoadSound(s, t);
    case Cas(_, _) => CasSound(s, t);
    case Room(_) => RoomSound(s, t, a);
    case Publish(_) => PublishSound(s, t);
  }

  lemma DoAccounted(s: State, m: Move)
    requires Safe(s) && OptionsOk(s.options) && MoveOk(s, m) && Accounted(s)
    ensures Accounted(Do(s, m))
  {
    match m
    case Call(t, goal) =>
      PcSound(s, t, Start(goal));
      AccountedAfter(s, Do(s, m), t);
    case Go(t, a) =>
      StepSound(s, t, a);
      AccountedAfter(s, Do(s, m), t);
    case Elsewhere(t, _, _) =>
      SameBalanced(s, Do(s, m), t);
      AccountedAfter(s, Do(s, m), t);
    case Reset(t) =>
      forall u | 0 <= u < |s.threads|
        ensures s.threads[u].cache.lifecycle < s.nextLifecycle
      {
        assert ThreadOk(s, u);
      }
      InitAccounted(s, t);
  }

  lemma ClearedAccounted(s: State)
    requires Quiet(s)
    ensures Accounted(Cleared(s))
  {
    var r := Cleared(s);
    var all := UpTo(|r.threads|);
    TotalZero(all, Sizes(r));
    TotalZero(all, Nets(r));
  }

  lemma {:induction false} TotalZero(xs: seq<nat>, f: nat -> int)
    requires forall i :: 0 <= i < |xs| ==> f(xs[i]) == 0
    ensures Total(xs, f) == 0
  {
    if xs != [] {
      TotalZero(xs[1..], f);
    }
  }

  lemma InitAccounted(s: State, t: nat)
    requires t < |s.threads| == |s.registered| && OptionsOk(s.options) && Quiet(s)
    requires forall u :: 0 <= u < |s.threads| ==> s.threads[u].cache.lifecycle < s.nextLifecycle
    ensures Accounted(Init(s, t))
  {
    var s0 := Cleared(s);
    ClearedAccounted(s);
    ClearedSafe(s);
    if s.options.initialBlock.Some? {
      var a, size := s.options.initialBlock.value, s.options.initialBlockSize;
      InitialBlockAccounted(s0, Take(NewBlock(s0, t, a, size), a, INFO_BYTES, Info), Init(s, t), t, a, size);
    }
  }

  lemma InitialBlockAccounted(s: State, s1: State, r: State, t: nat, a: nat, size: nat)
    requires Memory(s) && t < |s.threads| && s.blocks == map[] && s.threads[t].blocks == [] && Accounted(s)
    requires s1 == Take(NewBlock(s, t, a, size), a, INFO_BYTES, Info)
    requires |r.threads| == |s1.threads| && r.blocks == s1.blocks && r.pieces == s1.pieces && r.space == s1.space
    requires forall u :: 0 <= u < |s1.threads| && u != t ==> r.threads[u] == s1.threads[u]
    requires r.threads[t].blocks == s1.threads[t].blocks
    ensures Accounted(r)
  {
    FirstBlockBalanced(s, t, a, size);
    SameBalanced(s1, r, t);
    BalancedTrans(s, s1, r, t);
    AccountedAfter(s, r, t);
  }

  lemma {:induction false} RunAccounted(s: State, moves: seq<Move>)
    requires Safe(s) && OptionsOk(s.options) && Accounted(s)
    ensures Accounted(Run(s, moves))
    decreases |moves|
  {
    if moves == [] {
    } else if !MoveOk(s, moves[0]) {
      RunAccounted(s, moves[1..]);
    } else {
      DoSafe(s, moves[0]);
      DoOptions(s, moves[0]);
      DoAccounted(s, moves[0]);
      RunAccounted(Do(s, moves[0]), moves[1..]);
    }
  }

  /** In every reachable state the records of cleanups and the accounts are right. */
  lemma ArenaKeepsBooks(options: Options, n: nat, t: nat, moves: seq<Move>)
    requires t < n && OptionsOk(options)
    ensures Safe(Created(options, n, t)) && Created(options, n, t).options == options
    ensures var r := Run(Created(options, n, t), moves); Safe(r) && Booked(r) && Accounted(r)
  {
    CreatedSafe(options, n, t);
    var s := State(options, map[], seq(n, _ => Thread([], [], None, Cache(-1, 0), Idle)), None, None, 0, -1, 0, [], [],
                   seq(n, _ => []));
    InitBooked(s, t);
    InitAccounted(s, t);
    RunBooked(Created(options, n, t), moves);
    RunAccounted(Created(options, n, t), moves);
  }

  // ---------- FreeBlocks ----------

  /** The walk along threads_ adds up what all threads have, if those not on the list add nothing. */
  lemma ListedIsAll(s: State, f: nat -> int)
    requires Safe(s) && forall t :: 0 <= t < |s.threads| && t !in s.order ==> f(t) == 0
    ensures Total(s.order, f) == Total(UpTo(|s.threads|), f)
  {
    forall t | t in s.order
      ensures t in UpTo(|s.threads|)
    {
      var i :| 0 <= i < |s.order| && s.order[i] == t;
      assert NextOk(s, i);
      assert UpTo(|s.threads|)[t] == t;
    }
    TotalPermuted(s.order, UpTo(|s.threads|), f);
  }

  lemma TotalUpTo(xs: seq<nat>, k: nat, f: nat -> int)
    requires k < |xs|
    ensures Total(xs[..k + 1], f) == Total(xs[..k], f) + f(xs[k])
  {
    TotalSnoc(xs[..k], xs[k], f);
    assert xs[..k] + [xs[k]] == xs[..k + 1];
  }

  lemma NetsAreHanded(s: State)
    requires Safe(s) && Accounted(s)
    ensures Total(s.order, Nets(s)) == Handed(s.pieces)
  {
    forall t | 0 <= t < |s.threads| && t !in s.order
      ensures Nets(s)(t) == 0
    {
      assert ThreadOk(s, t);
    }
    ListedIsAll(s, Nets(s));
  }

  lemma OwnBlocksLive(s: State, t: nat)
    requires Safe(s) && t < |s.threads|
    ensures forall i :: 0 <= i < |s.threads[t].blocks| ==> s.threads[t].blocks[i] in s.blocks
  {
    assert OwnsList(s, t);
  }

  /** FreeBlocks on one list of blocks: all are given back but the initial one. */
  method FreeThread(s: State, blocks: seq<nat>) returns (space: int, freed: seq<nat>)
    requires forall i :: 0 <= i < |blocks| ==> blocks[i] in s.blocks
    ensures space == Total(blocks, SizeIn(s))
    ensures freed == Filter(blocks, NotInitial(s))
  {
    space, freed := 0, [];
    var b := 0;
    while b < |blocks|
      invariant b <= |blocks| && space == Total(blocks[..b], SizeIn(s)) && freed == Filter(blocks[..b], NotInitial(s))
    {
      TotalUpTo(blocks, b, SizeIn(s));
      FilterUpTo(blocks, b, NotInitial(s));
      space := space + s.blocks[blocks[b]].size;
      if s.options.initialBlock != Some(blocks[b]) {
        freed := freed + [blocks[b]];
      }
      b := b + 1;
    }
    assert blocks[..b] == blocks;
  }

  ghost function NotInitial(s: State): nat -> bool {
    (a: nat) => s.options.initialBlock != Some(a)
  }

  /** What FreeBlocks gives back for the first i threads of the list, in that order. */
  ghost function Given(s: State, i: nat): seq<nat>
    requires i <= |s.order|
  {
    if i == 0 then [] else Given(s, i - 1) + GivenBy(s, s.order[i - 1])
  }

  ghost function GivenBy(s: State, t: nat): seq<nat> {
    if t < |s.threads| then Filter(s.threads[t].blocks, NotInitial(s)) else []
  }

  lemma GivenByThread(s: State, t: nat)
    requires Lists(s) && t < |s.threads|
    ensures Distinct(GivenBy(s, t))
    ensures forall a :: a in GivenBy(s, t) <==> a in s.blocks && s.blocks[a].owner == t && NotInitial(s)(a)
  {
    assert OwnsList(s, t);
    FilterDistinct(s.threads[t].blocks, NotInitial(s));
  }

  lemma {:induction false} GivenMember(s: State, i: nat, a: nat)
    requires Lists(s) && OrderOk(s) && i <= |s.order|
    ensures a in Given(s, i) <==> a in s.blocks && s.blocks[a].owner in s.order[..i] && NotInitial(s)(a)
  {
    if i > 0 {
      GivenMember(s, i - 1, a);
      assert NextOk(s, i - 1);
      GivenByThread(s, s.order[i - 1]);
      assert s.order[..i] == s.order[..i - 1] + [s.order[i - 1]];
    }
  }

  lemma {:induction false} GivenDistinct(s: State, i: nat)
    requires Lists(s) && OrderOk(s) && i <= |s.order|
    ensures Distinct(Given(s, i))
  {
    if i > 0 {
      var t := s.order[i - 1];
      GivenDistinct(s, i - 1);
      assert NextOk(s, i - 1);
      GivenByThread(s, t);
      assert t !in s.order[..i - 1];
      forall a | a in Given(s, i - 1)
        ensures a !in GivenBy(s, t)
      {
        GivenMember(s, i - 1, a);
      }
      DistinctConcat(Given(s, i - 1), GivenBy(s, t));
    }
  }

  /** The bytes of the blocks of the first i threads of the list. */
  ghost function ListedSize(s: State, i: nat): int
    requires i <= |s.order|
  {
    if i == 0 then 0 else ListedSize(s, i - 1) + Size(s, s.order[i - 1])
  }

  lemma {:induction false} ListedSizeTotal(s: State, i: nat)
    requires i <= |s.order|
    ensures ListedSize(s, i) == Total(s.order[..i], Sizes(s))
  {
    if i > 0 {
      ListedSizeTotal(s, i - 1);
      TotalUpTo(s.order, i - 1, Sizes(s));
    }
  }

  /** What a walk along the list of threads finds at the i-th. */
  ghost predicate Listed(s: State, i: nat) {
    i < |s.order| && s.order[i] < |s.threads| && s.threads[s.order[i]].next == EntryAt(s.order, i + 1)
    && forall b :: 0 <= b < |s.threads[s.order[i]].blocks| ==> s.threads[s.order[i]].blocks[b] in s.blocks
  }

  ghost predicate Listing(s: State) {
    s.head == EntryAt(s.order, 0) && forall i :: 0 <= i < |s.order| ==> Listed(s, i)
  }

  lemma SafeListing(s: State)
    requires Safe(s)
    ensures Listing(s)
  {
    forall i | 0 <= i < |s.order|
      ensures Listed(s, i)
    {
      assert NextOk(s, i);
      OwnBlocksLive(s, s.order[i]);
    }
  }

  lemma FreeVisit(s: State, i: nat)
    requires Listing(s) && i < |s.order|
    ensures Listed(s, i)
    ensures ListedSize(s, i + 1) == ListedSize(s, i) + Total(s.threads[s.order[i]].blocks, SizeIn(s))
    ensures Given(s, i + 1) == Given(s, i) + Filter(s.threads[s.order[i]].blocks, NotInitial(s))
  {
    assert Listed(s, i);
  }

  lemma DistinctConcat(xs: seq<nat>, ys: seq<nat>)
    requires Distinct(xs) && Distinct(ys) && forall x :: x in xs ==> x !in ys
    ensures Distinct(xs + ys)
  {
    forall i, j | 0 <= i < j < |xs + ys|
      ensures (xs + ys)[i] != (xs + ys)[j]
    {
      if i < |xs| <= j {
        assert xs[i] in xs && ys[j - |xs|] in ys;
      }
    }
  }

  /** FreeBlocks, when no thread is inside the arena: it gives back every block but the initial
      one, each once, and answers space_allocated_. */
  method FreeBlocks(s: State) returns (space: int, freed: seq<nat>)
    requires Safe(s) && Accounted(s) && Quiet(s)
    ensures space == s.space
    ensures Distinct(freed) && forall a :: a in freed <==> a in s.blocks && s.options.initialBlock != Some(a)
  {
    SafeListing(s);
    space, freed := FreeListed(s);
    ListedSizeTotal(s, |s.order|);
    GivenDistinct(s, |s.order|);
    assert s.order[..|s.order|] == s.order;
    forall a
      ensures a in freed <==> a in s.blocks && s.blocks[a].owner in s.order && NotInitial(s)(a)
    {
      GivenMember(s, |s.order|, a);
    }
    QuietListed(s);
  }

  /** The loop of FreeBlocks, along the list of threads. */
  method FreeListed(s: State) returns (space: int, freed: seq<nat>)
    requires Listing(s)
    ensures space == ListedSize(s, |s.order|) && freed == Given(s, |s.order|)
  {
    space, freed := 0, [];
    var info := s.head;
    ghost var i := 0;
    while info.Some?
      invariant i <= |s.order| && info == EntryAt(s.order, i)
      invariant space == ListedSize(s, i) && freed == Given(s, i)
      decreases |s.order| - i
    {
      FreeVisit(s, i);
      var next := s.threads[info.value].next;
      var one, given := FreeThread(s, s.threads[info.value].blocks);
      space, freed := space + one, freed + given;
      info := next;
      i := i + 1;
    }
  }

  /** When no thread is inside the arena every block is on a listed thread's list. */
  lemma QuietListed(s: State)
    requires Safe(s) && Accounted(s) && Quiet(s)
    ensures Total(s.order, Sizes(s)) == s.space
    ensures forall a :: a in s.blocks ==> s.blocks[a].owner in s.order
  {
    forall t | 0 <= t < |s.threads| && t !in s.order
      ensures Sizes(s)(t) == 0
    {
      assert ThreadOk(s, t);
      assert s.threads[t].pc == Idle;
    }
    ListedIsAll(s, Sizes(s));
    forall a | a in s.blocks
      ensures s.blocks[a].owner in s.order
    {
      assert ThreadOk(s, s.blocks[a].owner);
      assert s.threads[s.blocks[a].owner].pc == Idle;
    }
  }

  /** Reset, called by thread t when no thread is inside the arena: the cleanups run, then every
      block is given back, then the arena starts afresh; the answer is what was allocated. */
  method Reset(s: State, t: nat) returns (r: State, ran: seq<nat>, freed: seq<nat>, space: int)
    requires Safe(s) && Booked(s) && Accounted(s) && OptionsOk(s.options) && Quiet(s) && t < |s.threads|
    ensures r == Do(s, Move.Reset(t)) && Safe(r) && Booked(r) && Accounted(r)
    ensures ran == Undone(s.order, s.registered) && space == s.space
    ensures Distinct(freed) && forall a :: a in freed <==> a in s.blocks && s.options.initialBlock != Some(a)
    ensures r.space == (if s.options.initialBlock.None? then 0 else s.options.initialBlockSize)
  {
    ran := CleanupList(s);
    space, freed := FreeBlocks(s);
    r := Init(s, t);
    DoSafe(s, Move.Reset(t));
    DoBooked(s, Move.Reset(t));
    DoAccounted(s, Move.Reset(t));
  }
}
