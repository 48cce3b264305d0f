/** Over whole runs: each thread has got, in the order of its calls, what it called for, and a
    call that is left to itself comes to an end. */
module ArenaLog {
  import opened Sequences
  import opened ArenaState
  import opened ArenaSafety
  import opened ArenaRuns
  import opened ArenaCalls
  import opened ArenaPieces
  import opened ArenaCleanup
  import opened ArenaGrowth
  import opened ArenaWatch

  // ---------- what a thread has got ----------

  /** The pieces and registrations are what the calls ask for, call by call. */
  ghost predicate Fulfilled(goals: seq<Goal>, pieces: seq<Piece>, registered: seq<nat>)
    decreases |goals|
  {
    if goals == [] then pieces == [] && registered == []
    else match Last(goals)
      case Allocate(n) => pieces != [] && Last(pieces).n == n && Fulfilled(Front(goals), Front(pieces), registered)
      case AllocateWithCleanup(n) =>
        pieces != [] && registered != [] && Last(pieces).n == n && Last(registered) == Address(Last(pieces))
        && Fulfilled(Front(goals), Front(pieces), Front(registered))
      case Register(elem) => registered != [] && Last(registered) == elem && Fulfilled(Front(goals), pieces, Front(registered))
      case Grow(_) => false
  }

  /** Thread t has got all it has called for, in order, but for the call it is in. */
  ghost predicate ThreadServed(s: State, t: nat, goals: seq<Goal>) {
    t < |s.threads| == |s.registered| && Got(s.threads[t].pc, goals, Mine(s.blocks, s.pieces, t, User), s.registered[t])
  }

  ghost predicate Got(pc: Pc, goals: seq<Goal>, pieces: seq<Piece>, registered: seq<nat>) {
    if pc.Idle? then Fulfilled(goals, pieces, registered)
    else if pc.goal.Grow? then Fulfilled(goals, pieces, registered + [pc.goal.elem])
    else goals != [] && Last(goals) == pc.goal && Fulfilled(Front(goals), pieces, registered)
  }

  ghost predicate Served(s: State, log: seq<seq<Goal>>) {
    |log| == |s.threads| && forall t :: 0 <= t < |log| ==> ThreadServed(s, t, log[t])
  }

  // ---------- a step ----------

  lemma FulfilledMore(goals: seq<Goal>, goal: Goal, pieces: seq<Piece>, registered: seq<nat>, p: Piece, elem: nat)
    requires Fulfilled(goals, pieces, registered) && !goal.Grow?
    requires !goal.Register? ==> p.n == goal.n
    requires goal.AllocateWithCleanup? ==> elem == Address(p)
    requires goal.Register? ==> elem == goal.elem
    ensures Fulfilled(goals + [goal], if goal.Register? then pieces else pieces + [p],
                      if goal.Allocate? then registered else registered + [elem])
  {
    assert Front(goals + [goal]) == goals;
    assert Front(pieces + [p]) == pieces && Front(registered + [elem]) == registered;
  }

  /** A step of thread t hands out something for its caller. */
  ghost predicate Gives(s: State, r: State, t: nat)
    requires Progress(s, r, t)
  {
    !Underway(s, r, t, s.threads[t].pc.goal) && (s.threads[t].pc.goal.Allocate? || s.threads[t].pc.goal.AllocateWithCleanup?)
  }

  /** Nothing for thread u. */
  lemma StepGivesNone(s: State, r: State, t: nat, u: nat)
    requires Safe(s) && Progress(s, r, t) && OwnersKept(s, r) && (u != t || !Gives(s, r, t))
    ensures Mine(r.blocks, r.pieces, u, User) == Mine(s.blocks, s.pieces, u, User)
  {
    MineKept(s, r, u, User);
    assert r.pieces[..|s.pieces|] == s.pieces;
    MineMore(r.blocks, r.pieces, |s.pieces|, u, User);
  }

  /** One piece for the thread itself. */
  lemma StepGives(s: State, r: State, t: nat)
    requires Safe(s) && Progress(s, r, t) && OwnersKept(s, r) && Gives(s, r, t)
    ensures |s.pieces| < |r.pieces| && Mine(r.blocks, r.pieces, t, User) == Mine(s.blocks, s.pieces, t, User) + [r.pieces[|s.pieces|]]
  {
    var k := |s.pieces|;
    MineKept(s, r, t, User);
    MineMore(r.blocks, r.pieces, k + 1, t, User);
    assert Front(r.pieces[..k + 1]) == r.pieces[..k] == s.pieces;
  }

  /** The thread that moves. */
  lemma ServedOwn(s: State, r: State, t: nat, goals: seq<Goal>)
    requires Safe(s) && Progress(s, r, t) && ThreadServed(s, t, goals) && |r.threads| == |r.registered| == |s.threads|
    requires OwnersKept(s, r)
    ensures ThreadServed(r, t, goals)
  {
    if Gives(s, r, t) {
      ServedByPiece(s, r, t, goals);
    } else {
      StepGivesNone(s, r, t, t);
      if !Underway(s, r, t, s.threads[t].pc.goal) && s.threads[t].pc.goal.Register? {
        ServedByNote(s, r, t, goals);
      }
    }
  }

  lemma ServedByPiece(s: State, r: State, t: nat, goals: seq<Goal>)
    requires Safe(s) && Progress(s, r, t) && ThreadServed(s, t, goals) && |r.threads| == |r.registered| == |s.threads|
    requires OwnersKept(s, r) && Gives(s, r, t)
    ensures ThreadServed(r, t, goals)
  {
    StepGives(s, r, t);
    var p := r.pieces[|s.pieces|];
    GotByPiece(s.threads[t].pc, r.threads[t].pc, goals, Mine(s.blocks, s.pieces, t, User), s.registered[t], r.registered[t], p);
  }

  lemma GotByPiece(from: Pc, to: Pc, goals: seq<Goal>, pieces: seq<Piece>, before: seq<nat>, after: seq<nat>, p: Piece)
    requires !from.Idle? && (from.goal.Allocate? || from.goal.AllocateWithCleanup?) && p.n == from.goal.n
    requires Got(from, goals, pieces, before)
    requires from.goal.Allocate? ==> to.Idle? && after == before
    requires from.goal.AllocateWithCleanup? ==>
      (to.Idle? && after == before + [Address(p)]) || (to == Start(Grow(Address(p))) && after == before)
    ensures Got(to, goals, pieces + [p], after)
  {
    FulfilledMore(Front(goals), from.goal, pieces, before, p, Address(p));
    assert Front(goals) + [from.goal] == goals;
  }

  lemma ServedByNote(s: State, r: State, t: nat, goals: seq<Goal>)
    requires Safe(s) && Progress(s, r, t) && ThreadServed(s, t, goals) && |r.threads| == |r.registered| == |s.threads|
    requires Mine(r.blocks, r.pieces, t, User) == Mine(s.blocks, s.pieces, t, User)
    requires s.threads[t].pc.goal.Register? && !Underway(s, r, t, s.threads[t].pc.goal)
    ensures ThreadServed(r, t, goals)
  {
    var goal := s.threads[t].pc.goal;
    FulfilledMore(Front(goals), goal, Mine(s.blocks, s.pieces, t, User), s.registered[t], Piece(User, 0, 0, 0), goal.elem);
    assert Front(goals) + [goal] == goals;
  }

  /** The others. */
  lemma ServedOther(s: State, r: State, t: nat, u: nat, goals: seq<Goal>)
    requires Safe(s) && Progress(s, r, t) && ThreadServed(s, u, goals) && u != t && |r.threads| == |r.registered| == |s.threads|
    requires OwnersKept(s, r)
    requires r.threads[u] == s.threads[u] && r.registered[u] == s.registered[u]
    ensures ThreadServed(r, u, goals)
  {
    StepGivesNone(s, r, t, u);
  }

  lemma StepServed(s: State, t: nat, a: nat, log: seq<seq<Goal>>)
    requires Safe(s) && Shape(s) && Booked(s) && t < |s.threads| && Granted(s, t, a) && Served(s, log)
    ensures Served(Step(s, t, a), log)
  {
    if s.threads[t].pc != Idle {
      var r := Step(s, t, a);
      assert Book(s, t);
      StepBook(s, t, a);
      StepDelivers(s, t, a);
      StepGetsWhatItAsks(s, t, a);
      ServedAll(s, r, t, log);
    }
  }

  lemma ServedAll(s: State, r: State, t: nat, log: seq<seq<Goal>>)
    requires Safe(s) && Served(s, log) && Progress(s, r, t) && OthersKept(s, r, t)
    requires OwnersKept(s, r)
    ensures Served(r, log)
  {
    forall u | 0 <= u < |log|
      ensures ThreadServed(r, u, log[u])
    {
      if u == t {
        ServedOwn(s, r, t, log[t]);
      } else {
        ServedOther(s, r, t, u, log[u]);
      }
    }
  }

  // ---------- runs ----------

  /** What each thread has called for since the arena was made or last reset. */
  ghost function LogAfter(log: seq<seq<Goal>>, m: Move): seq<seq<Goal>> {
    match m
    case Call(t, goal) => if t < |log| then log[t := log[t] + [goal]] else log
    case Reset(_) => seq(|log|, _ => [])
    case _ => log
  }

  lemma InitServed(s: State, t: nat)
    requires t < |s.threads| == |s.registered| && Quiet(s)
    ensures Served(Init(s, t), seq(|s.threads|, _ => []))
  {
    var r := Init(s, t);
    forall u | 0 <= u < |r.threads|
      ensures ThreadServed(r, u, [])
    {
      assert s.threads[u].pc == Idle;
      MineMore(r.blocks, r.pieces, 0, u, User);
    }
  }

  lemma CallServed(s: State, t: nat, goal: Goal, log: seq<seq<Goal>>)
    requires t < |s.threads| && s.threads[t].pc == Idle && !goal.Grow? && Served(s, log)
    ensures Served(WithPc(s, t, Start(goal)), log[t := log[t] + [goal]])
  {
    var r := WithPc(s, t, Start(goal));
    var log2 := log[t := log[t] + [goal]];
    assert Front(log2[t]) == log[t];
    forall u | 0 <= u < |log2|
      ensures ThreadServed(r, u, log2[u])
    {
      assert ThreadServed(s, u, log[u]);
    }
  }

  lemma DoServed(s: State, m: Move, log: seq<seq<Goal>>)
    requires Safe(s) && Booked(s) && MoveOk(s, m) && Served(s, log)
    ensures Served(Do(s, m), LogAfter(log, m))
  {
    match m
    case Call(t, goal) => CallServed(s, t, goal, log);
    case Go(t, a) => StepServed(s, t, a, log);
    case Elsewhere(t, _, _) =>
      var r := Do(s, m);
      forall u | 0 <= u < |log|
        ensures ThreadServed(r, u, log[u])
      {
        assert ThreadServed(s, u, log[u]);
      }
    case Reset(t) => InitServed(s, t);
  }

  ghost function RunLog(s: State, log: seq<seq<Goal>>, moves: seq<Move>): seq<seq<Goal>>
    requires Safe(s) && OptionsOk(s.options)
    decreases |moves|
  {
    if moves == [] then log
    else if !MoveOk(s, moves[0]) then RunLog(s, log, moves[1..])
    else
      DoSafe(s, moves[0]);
      DoOptions(s, moves[0]);
      RunLog(Do(s, moves[0]), LogAfter(log, moves[0]), moves[1..])
  }

  lemma {:induction false} RunServed(s: State, log: seq<seq<Goal>>, moves: seq<Move>)
    requires Safe(s) && OptionsOk(s.options) && Booked(s) && Served(s, log)
    ensures Served(Run(s, moves), RunLog(s, log, moves))
    decreases |moves|
  {
    if moves == [] {
    } else if !MoveOk(s, moves[0]) {
      RunServed(s, log, moves[1..]);
    } else {
      DoSafe(s, moves[0]);
      DoOptions(s, moves[0]);
      DoBooked(s, moves[0]);
      DoServed(s, moves[0], log);
      RunServed(Do(s, moves[0]), LogAfter(log, moves[0]), moves[1..]);
    }
  }

  /** In every reachable state each thread has got, call by call in the order of its calls since
      the last Reset, the bytes and the registrations it called for, and nothing else, up to the
      call it is in the middle of. */
  lemma CallsAreServed(options: Options, n: nat, t: nat, moves: seq<Move>)
    requires t < n && OptionsOk(options)
    ensures Safe(Created(options, n, t)) && Created(options, n, t).options == options
    ensures var s := Created(options, n, t); Served(Run(s, moves), RunLog(s, seq(n, _ => []), moves))
  {
    CreatedSafe(options, n, t);
    var s := State(options, map[], seq(n, _ => Thread([], [], None, Cache(-1, 0), Idle)), None, None, 0, -1, 0, [], [],
                   seq(n, _ => []));
    InitBooked(s, t);
    InitServed(s, t);
    RunServed(Created(options, n, t), seq(n, _ => []), moves);
  }

  // ---------- alignment ----------

  /** The ThreadInfo in the initial block is the first piece handed out. */
  ghost predicate StartsInitial(s: State) {
    s.options.initialBlock.Some? ==> s.pieces != [] && s.pieces[0].block == s.options.initialBlock.value
  }

  lemma DoStartsInitial(s: State, m: Move)
    requires Safe(s) && MoveOk(s, m) && StartsInitial(s)
    ensures StartsInitial(Do(s, m))
  {
    DoOptions(s, m);
    if m.Go? && s.threads[m.thread].pc != Idle {
      StepDelivers(s, m.thread, m.address);
      var r := Do(s, m);
      if s.pieces != [] {
        assert r.pieces[0] == r.pieces[..|s.pieces|][0];
      }
    }
  }

  lemma {:induction false} RunStartsInitial(s: State, moves: seq<Move>)
    requires Safe(s) && OptionsOk(s.options) && StartsInitial(s)
    ensures StartsInitial(Run(s, moves))
    decreases |moves|
  {
    if moves == [] {
    } else if !MoveOk(s, moves[0]) {
      RunStartsInitial(s, moves[1..]);
    } else {
      DoSafe(s, moves[0]);
      DoOptions(s, moves[0]);
      DoStartsInitial(s, moves[0]);
      RunStartsInitial(Do(s, moves[0]), moves[1..]);
    }
  }

  /** In every reachable state all that was handed out is aligned exactly if the initial block is:
      the constructor does not look at the address it is given. */
  lemma AlignedExactly(options: Options, n: nat, t: nat, moves: seq<Move>)
    requires t < n && OptionsOk(options)
    ensures Safe(Created(options, n, t)) && Created(options, n, t).options == options
    ensures var r := Run(Created(options, n, t), moves);
      (forall i :: 0 <= i < |r.pieces| ==> Address(r.pieces[i]) % 8 == 0) <==> InitialAligned(options)
  {
    ArenaIsSafe(options, n, t, moves);
    var r := Run(Created(options, n, t), moves);
    RunStartsInitial(Created(options, n, t), moves);
    if options.initialBlock.Some? {
      assert Inside(r, r.pieces[0]);
    }
  }

  // ---------- a call left to itself ----------

  /** How many steps a thread may still need when no other thread moves. */
  function Rank(pc: Pc): nat {
    (if pc.Idle? || pc.goal.Grow? then 0 else 8) +
    match pc
    case Idle => 0
    case Start(_) => 8
    case CheckHint(_, _) => 7
    case Slow(_, _) => 6
    case First(_) => 5
    case Load(_) => 4
    case Cas(_, _) => 3
    case Room(_) => 2
    case Publish(_) => 1
  }

  /** The head of the list is as the thread has seen it. */
  ghost predicate UpToDate(s: State, t: nat) {
    t < |s.threads| && (s.threads[t].pc.Cas? ==> s.head == s.threads[t].pc.seen)
  }

  lemma DeliveredRank(s: State, r: State, t: nat, goal: Goal)
    requires Delivered(s, r, t, goal) && t < |r.threads|
    ensures Rank(r.threads[t].pc) <= (if goal.Grow? then 0 else 8) && !r.threads[t].pc.Cas?
  {
  }

  ghost predicate Nearer(s: State, r: State, t: nat) {
    t < |s.threads| == |r.threads| && UpToDate(r, t) && Rank(r.threads[t].pc) < Rank(s.threads[t].pc)
  }

  lemma UseNearer(s: State, t: nat, a: nat)
    requires t < |s.threads| == |s.registered| && a in s.blocks && s.blocks[a].owner == t && s.threads[t].pc != Idle
    ensures Nearer(s, Use(s, t, a, s.threads[t].pc.goal), t)
  {
    UseDelivers(s, t, a, s.threads[t].pc.goal);
    UseOrder(s, t, a, s.threads[t].pc.goal);
    DeliveredRank(s, Use(s, t, a, s.threads[t].pc.goal), t, s.threads[t].pc.goal);
  }

  lemma StartNearer(s: State, t: nat)
    requires Safe(s) && Shape(s) && t < |s.threads| && s.threads[t].pc.Start?
    ensures Nearer(s, StepStart(s, t), t)
  {
    var th := s.threads[t];
    if th.cache.lifecycle == s.lifecycle {
      CacheNamesOwnBlock(s, t);
      if Avail(s.blocks[th.cache.block]) >= Need(th.pc.goal, th.chunks) {
        UseNearer(s, t, th.cache.block);
      }
    }
  }

  lemma HintNearer(s: State, t: nat)
    requires Shape(s) && t < |s.threads| && s.threads[t].pc.CheckHint?
    ensures Nearer(s, StepHint(s, t), t)
  {
    var th := s.threads[t];
    if s.hint.Some? && s.blocks[s.hint.value].owner == t && Avail(s.blocks[s.hint.value]) >= Need(th.pc.goal, th.chunks) {
      UseNearer(s, t, s.hint.value);
    }
  }

  lemma PublishNearer(s: State, t: nat)
    requires Safe(s) && Shape(s) && t < |s.threads| && s.threads[t].pc.Publish?
    ensures Nearer(s, StepPublish(s, t), t)
  {
    var th := s.threads[t];
    assert ThreadShape(s, th) && OwnsList(s, t);
    assert th.blocks[0] in th.blocks;
    UseNearer(s.(threads := s.threads[t := th.(cache := Cache(s.lifecycle, th.blocks[0]))], hint := Some(th.blocks[0])), t, th.blocks[0]);
  }

  lemma SlowNearer(s: State, t: nat)
    requires t < |s.threads| && s.threads[t].pc.Slow?
    ensures Nearer(s, StepSlow(s, t), t)
  {
  }

  lemma FirstNearer(s: State, t: nat, a: nat)
    requires t < |s.threads| && s.threads[t].pc.First?
    ensures Nearer(s, StepFirst(s, t, a), t)
  {
  }

  lemma PushNearer(s: State, t: nat)
    requires UpToDate(s, t)
    ensures s.threads[t].pc.Load? ==> Nearer(s, StepLoad(s, t), t)
    ensures s.threads[t].pc.Cas? ==> Nearer(s, StepCas(s, t), t)
  {
  }

  lemma RoomNearer(s: State, t: nat, a: nat)
    requires Shape(s) && t < |s.threads| && s.threads[t].pc.Room?
    ensures Nearer(s, StepRoom(s, t, a), t)
  {
  }

  lemma StepAlone(s: State, t: nat, a: nat)
    requires Safe(s) && Shape(s) && UpToDate(s, t) && s.threads[t].pc != Idle
    ensures Nearer(s, Step(s, t, a), t)
  {
    match s.threads[t].pc
    case Start(_) => StartNearer(s, t);
    case CheckHint(_, _) => HintNearer(s, t);
    case Slow(_, _) => SlowNearer(s, t);
    case First(_) => FirstNearer(s, t, a);
    case Load(_) => PushNearer(s, t);
    case Cas(_, _) => PushNearer(s, t);
    case Room(_) => RoomNearer(s, t, a);
    case Publish(_) => PublishNearer(s, t);
  }

  /** A thread whose view of the head is up to date. */
  lemma CallEndsSoon(s: State, t: nat, allocator: State -> nat) returns (moves: seq<Move>)
    requires Safe(s) && OptionsOk(s.options) && UpToDate(s, t)
    requires forall q :: Safe(q) && Shape(q) && t < |q.threads| ==> Granted(q, t, allocator(q))
    ensures |moves| <= Rank(s.threads[t].pc) && forall i :: 0 <= i < |moves| ==> moves[i].Go? && moves[i].thread == t
    ensures var r := Run(s, moves); t < |r.threads| && r.threads[t].pc == Idle
    decreases Rank(s.threads[t].pc)
  {
    moves := [];
    if s.threads[t].pc != Idle {
      SafeShape(s);
      var m := Go(t, allocator(s));
      assert MoveOk(s, m);
      StepAlone(s, t, allocator(s));
      DoSafe(s, m);
      DoOptions(s, m);
      var rest := CallEndsSoon(Do(s, m), t, allocator);
      moves := [m] + rest;
      assert moves[1..] == rest;
    }
  }

  /** A compare-and-swap with an old view of the head fails, and the head is read again. */
  lemma RetryLoads(s: State, t: nat)
    requires t < |s.threads| && s.threads[t].pc.Cas? && !UpToDate(s, t)
    ensures StepCas(s, t).threads[t].pc == Load(s.threads[t].pc.goal) && |StepCas(s, t).threads| == |s.threads|
    ensures Rank(StepCas(s, t).threads[t].pc) <= 12
  {
  }

  /** A thread in a call that moves while no other does comes to the end of it in at most 16
      steps, whatever addresses the allocator answers, even if another thread has been pushed
      since it last looked at the list. */
  lemma CallEnds(s: State, t: nat, allocator: State -> nat) returns (moves: seq<Move>)
    requires Safe(s) && OptionsOk(s.options) && t < |s.threads|
    requires forall q :: Safe(q) && Shape(q) && t < |q.threads| ==> Granted(q, t, allocator(q))
    ensures |moves| <= 16 && forall i :: 0 <= i < |moves| ==> moves[i].Go? && moves[i].thread == t
    ensures var r := Run(s, moves); t < |r.threads| && r.threads[t].pc == Idle
  {
    if UpToDate(s, t) {
      moves := CallEndsSoon(s, t, allocator);
    } else {
      SafeShape(s);
      RetryLoads(s, t);
      var m := Go(t, allocator(s));
      assert MoveOk(s, m);
      DoSafe(s, m);
      DoOptions(s, m);
      var rest := CallEndsSoon(Do(s, m), t, allocator);
      moves := [m] + rest;
      assert moves[1..] == rest;
    }
  }
}
