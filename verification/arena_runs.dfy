/** Runs of the arena: any number of threads, each doing one call after another, their steps
    interleaved in any way, other arenas taking over thread caches, and Reset in between. */
module ArenaRuns {
  import opened Sequences
  import opened ArenaState
  import opened ArenaSafety

  datatype Move =
    | Call(thread: nat, goal: Goal)                    // a thread enters an arena function
    | Go(thread: nat, address: nat)                    // its next step; the address the allocator would answer
    | Elsewhere(thread: nat, lifecycle: int, block: nat)  // it uses another arena, whose id is unique
    | Reset(thread: nat)

  ghost predicate Quiet(s: State) {
    forall t :: 0 <= t < |s.threads| ==> s.threads[t].pc == Idle
  }

  ghost predicate OptionsOk(o: Options) {
    o.initialBlock.Some? ==> HEADER + INFO_BYTES <= o.initialBlockSize
  }

  ghost predicate MoveOk(s: State, m: Move) {
    match m
    case Call(t, goal) => t < |s.threads| && s.threads[t].pc == Idle && GoalOk(goal) && !goal.Grow?
    case Go(t, a) => t < |s.threads| && Shape(s) && Granted(s, t, a)
    case Elsewhere(t, id, _) => t < |s.threads| && s.threads[t].pc == Idle && id != s.lifecycle
    case Reset(t) => t < |s.threads| && Quiet(s)
  }

  ghost function Do(s: State, m: Move): State
    requires |s.registered| == |s.threads| && MoveOk(s, m)
  {
    match m
    case Call(t, goal) => WithPc(s, t, Start(goal))
    case Go(t, a) => Step(s, t, a)
    case Elsewhere(t, id, a) =>
      s.(threads := s.threads[t := s.threads[t].(cache := Cache(id, a))],
         nextLifecycle := if id < s.nextLifecycle then s.nextLifecycle else id + 1)
    case Reset(t) => Init(s, t)
  }

  /** Init on an arena of which nothing is in use. */
  lemma InitSafe(s: State, t: nat)
    requires t < |s.threads| == |s.registered| && OptionsOk(s.options) && Quiet(s)
    requires forall u :: 0 <= u < |s.threads| ==> s.threads[u].cache.lifecycle < s.nextLifecycle
    ensures Safe(Init(s, t))
  {
    var s0 := Cleared(s);
    ClearedSafe(s);
    if s.options.initialBlock.Some? {
      InitialBlockSafe(s0, Init(s, t), t);
    } else {
      assert Init(s, t) == s0;
    }
  }

  lemma ClearedSafe(s: State)
    requires Quiet(s) && forall u :: 0 <= u < |s.threads| ==> s.threads[u].cache.lifecycle < s.nextLifecycle
    ensures Safe(Cleared(s)) && Quiet(Cleared(s))
  {
    var r := Cleared(s);
    forall u | 0 <= u < |r.threads|
      ensures ThreadOk(r, u) && r.threads[u].pc == Idle
    {
      assert s.threads[u].pc == Idle;
    }
  }

  lemma InitialBlockSafe(s: State, r: State, t: nat)
    requires Safe(s) && t < |s.threads| && OptionsOk(s.options) && s.options.initialBlock.Some? && s.blocks == map[]
    requires s.order == [] && Quiet(s) && s.threads[t].next == None
    requires var a := s.options.initialBlock.value;
      var s1 := Take(NewBlock(s, t, a, s.options.initialBlockSize), a, INFO_BYTES, Info);
      r == s1.(head := Some(t), order := [t], hint := Some(a),
               threads := s1.threads[t := s1.threads[t].(cache := Cache(s1.lifecycle, a))])
    ensures Safe(r)
  {
    var a, size := s.options.initialBlock.value, s.options.initialBlockSize;
    NewBlockMemory(s, t, a, size);
    var s0 := NewBlock(s, t, a, size);
    TakeMemory(s0, a, INFO_BYTES, Info);
    var s1 := Take(s0, a, INFO_BYTES, Info);
    MemorySame(s1, r);
    forall u | 0 <= u < |r.threads|
      ensures ThreadOk(r, u)
    {
      assert ThreadOk(s, u);
    }
    assert ThreadOk(s, t);
    assert NextOk(r, 0);
  }

  /** The initial block must hold a ThreadInfo besides its header. With a smaller one, which the
      constructor lets through, the ThreadInfo passes the end of the block, avail() wraps, and the
      next Allocate is served from beyond the end as well, whatever its size. */
  lemma InitialBlockTooSmall(s: State, t: nat, a: nat, n: nat)
    requires t < |s.threads| == |s.registered| && Quiet(s) && forall u :: 0 <= u < |s.threads| ==> s.threads[u].cache.lifecycle < s.nextLifecycle
    requires s.options.initialBlock == Some(a) && HEADER <= s.options.initialBlockSize && n <= UINT64 - INFO_BYTES
    ensures var r := Init(s, t);
      r.pieces == [Piece(Info, a, HEADER, INFO_BYTES)]
      && (Inside(r, r.pieces[0]) <==> HEADER + INFO_BYTES <= s.options.initialBlockSize)
    ensures s.options.initialBlockSize < HEADER + INFO_BYTES ==>
      var q := WithPc(Init(s, t), t, Start(Allocate(n)));
      Shape(q) && a in q.blocks && q.blocks[a].size < HEADER + INFO_BYTES
      && StepStart(q, t).pieces == q.pieces + [Piece(User, a, HEADER + INFO_BYTES, n)]
  {
    if s.options.initialBlockSize < HEADER + INFO_BYTES {
      var r := Init(s, t);
      var q := WithPc(r, t, Start(Allocate(n)));
      forall u | 0 <= u < |q.threads|
        ensures ThreadShape(q, q.threads[u])
      {
        assert s.threads[u].pc == Idle;
      }
      assert q.blocks[a] == Block(t, HEADER + INFO_BYTES, s.options.initialBlockSize);
      assert Avail(q.blocks[a]) >= n;
    }
  }

  /** A new arena, made by thread t of n. */
  ghost function Created(options: Options, n: nat, t: nat): State
    requires t < n
  {
    Init(State(options, map[], seq(n, _ => Thread([], [], None, Cache(-1, 0), Idle)), None, None, 0, -1, 0, [], [],
               seq(n, _ => [])), t)
  }

  lemma CreatedSafe(options: Options, n: nat, t: nat)
    requires t < n && OptionsOk(options)
    ensures Safe(Created(options, n, t)) && Created(options, n, t).options == options
  {
    InitSafe(State(options, map[], seq(n, _ => Thread([], [], None, Cache(-1, 0), Idle)), None, None, 0, -1, 0, [], [],
                   seq(n, _ => [])), t);
  }

  lemma CallSafe(s: State, t: nat, goal: Goal)
    requires Safe(s) && t < |s.threads| && s.threads[t].pc == Idle && GoalOk(goal)
    ensures Safe(WithPc(s, t, Start(goal)))
  {
    assert ThreadOk(s, t);
    PcSafe(s, t, Start(goal));
  }

  lemma ElsewhereSafe(s: State, t: nat, id: int, a: nat)
    requires Safe(s) && t < |s.threads| && s.threads[t].pc == Idle && id != s.lifecycle
    ensures Safe(Do(s, Elsewhere(t, id, a)))
  {
    var r := Do(s, Elsewhere(t, id, a));
    MemorySame(s, r);
    forall u | 0 <= u < |r.threads|
      ensures ThreadOk(r, u)
    {
      assert ThreadOk(s, u);
    }
    forall i | 0 <= i < |r.order|
      ensures NextOk(r, i)
    {
      assert NextOk(s, i);
    }
  }

  lemma StepOptions(s: State, t: nat, a: nat)
    requires Shape(s) && t < |s.threads|
    ensures Step(s, t, a).options == s.options
  {
  }

  lemma DoOptions(s: State, m: Move)
    requires |s.registered| == |s.threads| && MoveOk(s, m)
    ensures Do(s, m).options == s.options
  {
    if m.Go? {
      StepOptions(s, m.thread, m.address);
    }
  }

  lemma DoSafe(s: State, m: Move)
    requires Safe(s) && OptionsOk(s.options) && MoveOk(s, m)
    ensures Safe(Do(s, m))
  {
    match m
    case Call(t, goal) => CallSafe(s, t, goal);
    case Go(t, a) => StepSafe(s, t, a);
    case Elsewhere(t, id, a) => ElsewhereSafe(s, t, id, a);
    case Reset(t) =>
      forall u | 0 <= u < |s.threads|
        ensures s.threads[u].cache.lifecycle < s.nextLifecycle
      {
        assert ThreadOk(s, u);
      }
      InitSafe(s, t);
  }

  /** Moves that are not possible when their turn comes are passed over. */
  ghost function Run(s: State, moves: seq<Move>): (r: State)
    requires Safe(s) && OptionsOk(s.options)
    ensures Safe(r) && r.options == s.options
    decreases |moves|
  {
    if moves == [] then s
    else if !MoveOk(s, moves[0]) then Run(s, moves[1..])
    else DoSafe(s, moves[0]); DoOptions(s, moves[0]); Run(Do(s, moves[0]), moves[1..])
  }

  /** In every reachable state, after any number of Resets too: whatever has been handed out is
      aligned as its block is, inside that live block and apart from everything else handed out; a thread cache
      with this arena's lifecycle id, and the hint for the thread that owns its block, name live
      blocks on that thread's own list; and a thread that has a ThreadInfo is on the list of
      threads unless it is still about to push itself. */
  lemma ArenaIsSafe(options: Options, n: nat, t: nat, moves: seq<Move>)
    requires t < n && OptionsOk(options)
    ensures Safe(Created(options, n, t)) && Created(options, n, t).options == options
    ensures var r := Run(Created(options, n, t), moves);
      && (forall i, j :: 0 <= i < j < |r.pieces| ==> Disjoint(r.pieces[i], r.pieces[j]))
      && (forall i :: 0 <= i < |r.pieces| ==> Inside(r, r.pieces[i]))
      && (InitialAligned(options) ==> forall i :: 0 <= i < |r.pieces| ==> Address(r.pieces[i]) % 8 == 0)
      && (forall u :: 0 <= u < |r.threads| ==>
            && (r.threads[u].cache.lifecycle == r.lifecycle ==> MayUse(r, u, r.threads[u].cache.block))
            && (r.hint.Some? && r.hint.value in r.blocks && r.blocks[r.hint.value].owner == u ==> MayUse(r, u, r.hint.value))
            && (r.threads[u].blocks != [] ==> u in r.order || Pushing(r.threads[u].pc)))
      && OrderOk(r)
  {
    CreatedSafe(options, n, t);
    var r := Run(Created(options, n, t), moves);
    forall u | 0 <= u < |r.threads|
      ensures r.threads[u].cache.lifecycle == r.lifecycle ==> MayUse(r, u, r.threads[u].cache.block)
      ensures r.threads[u].blocks != [] ==> u in r.order || Pushing(r.threads[u].pc)
    {
      assert ThreadOk(r, u);
      if r.threads[u].cache.lifecycle == r.lifecycle {
        CacheNamesOwnBlock(r, u);
      }
    }
    AllPieces(r);
  }

  lemma AllPieces(r: State)
    requires Safe(r)
    ensures forall i, j :: 0 <= i < j < |r.pieces| ==> Disjoint(r.pieces[i], r.pieces[j])
    ensures forall i :: 0 <= i < |r.pieces| ==> Inside(r, r.pieces[i])
    ensures InitialAligned(r.options) ==> forall i :: 0 <= i < |r.pieces| ==> Address(r.pieces[i]) % 8 == 0
  {
    forall i, j | 0 <= i < j < |r.pieces|
      ensures Disjoint(r.pieces[i], r.pieces[j])
    {
      PiecesLieApart(r, i, j);
    }
    forall i | 0 <= i < |r.pieces|
      ensures Inside(r, r.pieces[i])
    {
      assert PieceOk(r, r.pieces[i]) && BlockOk(r, r.pieces[i].block);
    }
  }

  /** The initial block, if there is one, starts at a multiple of 8. */
  predicate InitialAligned(o: Options) { o.initialBlock.Some? ==> o.initialBlock.value % 8 == 0 }

  predicate Disjoint(p: Piece, q: Piece) {
    Address(p) + p.n <= Address(q) || Address(q) + q.n <= Address(p)
  }

  ghost predicate Inside(s: State, p: Piece) {
    p.block in s.blocks && Address(p) % 8 == p.block % 8 && MayStart(s, p.block)
    && p.block + HEADER <= Address(p) && Address(p) + p.n <= p.block + s.blocks[p.block].size
  }
}
