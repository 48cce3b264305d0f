/** How the blocks of a thread grow: each is at least twice as large as the one before it, until
    the largest block size of the options is reached. */
module ArenaGrowth {
  import opened Sequences
  import opened ArenaState
  import opened ArenaSafety
  import opened ArenaRuns

  function Min(x: nat, y: nat): nat { if x < y then x else y }

  /** The block newer follows the block older on its thread's list. */
  ghost predicate Doubled(s: State, newer: nat, older: nat) {
    newer in s.blocks && older in s.blocks
    && s.blocks[newer].size >= Min(2 * s.blocks[older].size, s.options.maxBlockSize)
  }

  ghost predicate Grows(s: State, t: nat)
    requires t < |s.threads|
  {
    forall i :: 0 < i < |s.threads[t].blocks| ==> Doubled(s, s.threads[t].blocks[i - 1], s.threads[t].blocks[i])
  }

  ghost predicate Growing(s: State) {
    forall t :: 0 <= t < |s.threads| ==> Grows(s, t)
  }

  /** The same blocks of the same sizes on the same lists. */
  ghost predicate SameBlocks(s: State, r: State) {
    && r.blocks.Keys == s.blocks.Keys && r.options == s.options && |r.threads| == |s.threads|
    && (forall b :: b in s.blocks ==>
          r.blocks[b].size == s.blocks[b].size && r.blocks[b].owner == s.blocks[b].owner && r.blocks[b].pos >= s.blocks[b].pos)
    && (forall u :: 0 <= u < |s.threads| ==> r.threads[u].blocks == s.threads[u].blocks)
  }

  lemma UseSame(s: State, t: nat, a: nat, goal: Goal)
    requires t < |s.threads| == |s.registered| && a in s.blocks
    ensures SameBlocks(s, Use(s, t, a, goal))
  {
    if goal.AllocateWithCleanup? {
      TakeRegisterSame(s, Use(s, t, a, goal), t, a, goal.n, a + s.blocks[a].pos);
    }
  }

  lemma TakeRegisterSame(s: State, r: State, t: nat, a: nat, n: nat, elem: nat)
    requires t < |s.threads| == |s.registered| && a in s.blocks && r == RegisterIn(Take(s, a, n, User), t, a, elem)
    ensures SameBlocks(s, r)
  {
    RegisterSame(Take(s, a, n, User), t, a, elem);
  }

  lemma RegisterSame(s: State, t: nat, a: nat, elem: nat)
    requires t < |s.threads| == |s.registered| && a in s.blocks
    ensures SameBlocks(s, RegisterIn(s, t, a, elem))
  {
  }

  /** A step that asks the allocator for a block puts just that block, of the size asked for, in
      front of its thread's list; any other step leaves all blocks, sizes and lists as they were. */
  lemma StepGetsWhatItAsks(s: State, t: nat, a: nat)
    requires Safe(s) && Shape(s) && t < |s.threads| && Granted(s, t, a)
    ensures Asks(s, t).None? ==> SameBlocks(s, Step(s, t, a))
    ensures Asks(s, t).Some? ==> Added(s, Step(s, t, a), t, a, Asks(s, t).value)
  {
    assert ThreadOk(s, t) && ThreadShape(s, s.threads[t]);
    match s.threads[t].pc
    case Start(_) => StartSame(s, t);
    case CheckHint(_, _) => HintSame(s, t);
    case Publish(_) => PublishSame(s, t);
    case First(_) => FirstAdds(s, t, a);
    case Room(_) => RoomAdds(s, t, a);
    case _ =>
  }

  lemma FirstAdds(s: State, t: nat, a: nat)
    requires Blocks(s) && Shape(s) && t < |s.threads| && Granted(s, t, a) && s.threads[t].pc.First?
    ensures Asks(s, t).Some? && Added(s, Step(s, t, a), t, a, Asks(s, t).value)
  {
    FreshIsNew(s, a, Asks(s, t).value);
  }

  lemma RoomAdds(s: State, t: nat, a: nat)
    requires Blocks(s) && Shape(s) && t < |s.threads| && Granted(s, t, a) && s.threads[t].pc.Room?
    ensures Asks(s, t).None? ==> SameBlocks(s, Step(s, t, a))
    ensures Asks(s, t).Some? ==> Added(s, Step(s, t, a), t, a, Asks(s, t).value)
  {
    assert ThreadShape(s, s.threads[t]);
    if Asks(s, t).Some? {
      FreshIsNew(s, a, Asks(s, t).value);
    }
  }

  ghost predicate Added(s: State, r: State, t: nat, a: nat, size: nat) {
    && r.blocks.Keys == s.blocks.Keys + {a} && a !in s.blocks && r.options == s.options
    && r.blocks[a].size == size && t < |s.threads| == |r.threads| && r.blocks[a].owner == t
    && (forall b :: b in s.blocks ==> r.blocks[b] == s.blocks[b])
    && (forall u :: 0 <= u < |s.threads| && u != t ==> r.threads[u].blocks == s.threads[u].blocks)
    && r.threads[t].blocks == [a] + s.threads[t].blocks
  }

  lemma StartSame(s: State, t: nat)
    requires Shape(s) && t < |s.threads| && s.threads[t].pc.Start?
    ensures SameBlocks(s, StepStart(s, t))
  {
    var th := s.threads[t];
    if th.cache.lifecycle == s.lifecycle && Avail(s.blocks[th.cache.block]) >= Need(th.pc.goal, th.chunks) {
      UseSame(s, t, th.cache.block, th.pc.goal);
    }
  }

  lemma HintSame(s: State, t: nat)
    requires Shape(s) && t < |s.threads| && s.threads[t].pc.CheckHint?
    ensures SameBlocks(s, StepHint(s, t))
  {
    var th := s.threads[t];
    if s.hint.Some? && s.blocks[s.hint.value].owner == t && Avail(s.blocks[s.hint.value]) >= Need(th.pc.goal, th.chunks) {
      UseSame(s, t, s.hint.value, th.pc.goal);
    }
  }

  lemma PublishSame(s: State, t: nat)
    requires Shape(s) && t < |s.threads| && s.threads[t].pc.Publish?
    ensures SameBlocks(s, StepPublish(s, t))
  {
    var th := s.threads[t];
    assert ThreadShape(s, th);
    var s1 := s.(threads := s.threads[t := th.(cache := Cache(s.lifecycle, th.blocks[0]))], hint := Some(th.blocks[0]));
    UseSame(s1, t, th.blocks[0], th.pc.goal);
  }

  lemma SameGrows(s: State, r: State)
    requires Growing(s) && SameBlocks(s, r)
    ensures Growing(r)
  {
    forall t | 0 <= t < |r.threads|
      ensures Grows(r, t)
    {
      assert Grows(s, t);
      forall i | 0 < i < |r.threads[t].blocks|
        ensures Doubled(r, r.threads[t].blocks[i - 1], r.threads[t].blocks[i])
      {
        assert Doubled(s, s.threads[t].blocks[i - 1], s.threads[t].blocks[i]);
      }
    }
  }

  lemma AddedGrows(s: State, r: State, t: nat, a: nat, size: nat)
    requires Growing(s) && Added(s, r, t, a, size)
    requires s.threads[t].blocks != [] ==>
      var last := s.threads[t].blocks[0];
      last in s.blocks && size >= Min(2 * s.blocks[last].size, s.options.maxBlockSize)
    ensures Growing(r)
  {
    forall u | 0 <= u < |r.threads|
      ensures Grows(r, u)
    {
      assert Grows(s, u);
      forall i | 0 < i < |r.threads[u].blocks|
        ensures Doubled(r, r.threads[u].blocks[i - 1], r.threads[u].blocks[i])
      {
        if u != t {
          assert Doubled(s, s.threads[u].blocks[i - 1], s.threads[u].blocks[i]);
        } else if i > 1 {
          assert Doubled(s, s.threads[u].blocks[i - 2], s.threads[u].blocks[i - 1]);
        }
      }
    }
  }

  lemma StepGrows(s: State, t: nat, a: nat)
    requires Safe(s) && Shape(s) && t < |s.threads| && Granted(s, t, a) && Growing(s)
    ensures Growing(Step(s, t, a))
  {
    assert ThreadOk(s, t);
    StepGetsWhatItAsks(s, t, a);
    if Asks(s, t).None? {
      SameGrows(s, Step(s, t, a));
    } else {
      AddedGrows(s, Step(s, t, a), t, a, Asks(s, t).value);
    }
  }

  lemma DoGrows(s: State, m: Move)
    requires Safe(s) && MoveOk(s, m) && Growing(s)
    ensures Growing(Do(s, m))
  {
    match m
    case Call(_, _) => SameGrows(s, Do(s, m));
    case Go(t, a) => StepGrows(s, t, a);
    case Elsewhere(_, _, _) => SameGrows(s, Do(s, m));
    case Reset(t) => InitGrows(s, t);
  }

  lemma InitGrows(s: State, t: nat)
    requires t < |s.threads| == |s.registered|
    ensures Growing(Init(s, t))
  {
    var r := Init(s, t);
    assert forall u :: 0 <= u < |r.threads| ==> |r.threads[u].blocks| <= 1;
  }

  lemma {:induction false} RunGrows(s: State, moves: seq<Move>)
    requires Safe(s) && OptionsOk(s.options) && Growing(s)
    ensures Growing(Run(s, moves))
    decreases |moves|
  {
    if moves == [] {
    } else if !MoveOk(s, moves[0]) {
      RunGrows(s, moves[1..]);
    } else {
      DoSafe(s, moves[0]);
      DoOptions(s, moves[0]);
      DoGrows(s, moves[0]);
      RunGrows(Do(s, moves[0]), moves[1..]);
    }
  }

  /** In every reachable state the sizes along a thread's list double, newest to oldest, up to
      the largest block size. */
  lemma BlocksDouble(options: Options, n: nat, t: nat, moves: seq<Move>)
    requires t < n && OptionsOk(options)
    ensures Safe(Created(options, n, t)) && Created(options, n, t).options == options
    ensures Growing(Run(Created(options, n, t), moves))
  {
    CreatedSafe(options, n, t);
    InitGrows(State(options, map[], seq(n, _ => Thread([], [], None, Cache(-1, 0), Idle)), None, None, 0, -1, 0, [], [],
                    seq(n, _ => [])), t);
    RunGrows(Created(options, n, t), moves);
  }
}
