/** What a call of an arena function comes to: each step either leaves what was asked for to a
    later step, or hands it out, exactly once. */
module ArenaCalls {
  import opened Sequences
  import opened ArenaState
  import opened ArenaSafety

  ghost predicate InBlockOf(r: State, t: nat, p: Piece) {
    p.block in r.blocks && r.blocks[p.block].owner == t
  }

  /** A piece of n bytes for the caller, in a block of thread t, is the first thing handed out
      since s. */
  ghost predicate Gave(s: State, r: State, t: nat, n: nat) {
    |s.pieces| < |r.pieces| && r.pieces[..|s.pieces|] == s.pieces
    && r.pieces[|s.pieces|].kind == User && r.pieces[|s.pieces|].n == n && InBlockOf(r, t, r.pieces[|s.pieces|])
  }

  /** No piece for a caller has been handed out since s. */
  ghost predicate GaveNone(s: State, r: State, from: nat) {
    |r.pieces| >= from && forall i :: from <= i < |r.pieces| ==> r.pieces[i].kind != User
  }

  /** The registrations of thread t have grown by elem, if elem is not still to be registered. */
  ghost predicate Noted(s: State, r: State, t: nat, elem: nat) {
    t < |s.threads| == |r.threads| == |s.registered| == |r.registered| &&
    (|| (r.threads[t].pc == Idle && r.registered == s.registered[t := s.registered[t] + [elem]])
     || (r.threads[t].pc == Start(Grow(elem)) && r.registered == s.registered))
  }

  /** Thread t has got what the goal is for; a cleanup may have been put off until there is
      memory for a chunk. */
  ghost predicate Delivered(s: State, r: State, t: nat, goal: Goal) {
    match goal
    case Allocate(n) =>
      Gave(s, r, t, n) && |r.pieces| == |s.pieces| + 1 && r.registered == s.registered && t < |r.threads| && r.threads[t].pc == Idle
    case AllocateWithCleanup(n) =>
      Gave(s, r, t, n) && GaveNone(s, r, |s.pieces| + 1) && Noted(s, r, t, Address(r.pieces[|s.pieces|]))
    case Register(elem) => GaveNone(s, r, |s.pieces|) && r.pieces[..|s.pieces|] == s.pieces && Noted(s, r, t, elem)
    case Grow(elem) =>
      GaveNone(s, r, |s.pieces|) && r.pieces[..|s.pieces|] == s.pieces && Noted(s, r, t, elem) && r.threads[t].pc == Idle
  }

  /** Thread t is still on the way to a block for the goal. */
  ghost predicate Underway(s: State, r: State, t: nat, goal: Goal) {
    && t < |r.threads| && !r.threads[t].pc.Idle? && r.threads[t].pc.goal == goal && r.registered == s.registered
    && GaveNone(s, r, |s.pieces|) && r.pieces[..|s.pieces|] == s.pieces
  }

  lemma RegisterNotes(s: State, t: nat, a: nat, elem: nat)
    requires t < |s.threads| == |s.registered| && a in s.blocks
    ensures var r := RegisterIn(s, t, a, elem);
      GaveNone(s, r, |s.pieces|) && r.pieces[..|s.pieces|] == s.pieces && Noted(s, r, t, elem)
      && r.blocks.Keys == s.blocks.Keys && forall b :: b in s.blocks ==> r.blocks[b].owner == s.blocks[b].owner
  {
  }

  lemma UseDelivers(s: State, t: nat, a: nat, goal: Goal)
    requires t < |s.threads| == |s.registered| && a in s.blocks && s.blocks[a].owner == t
    ensures Delivered(s, Use(s, t, a, goal), t, goal)
  {
    match goal
    case Allocate(_) =>
    case AllocateWithCleanup(n) =>
      var s1 := Take(s, a, n, User);
      RegisterNotes(s1, t, a, a + s.blocks[a].pos);
      assert s1.pieces[..|s.pieces|] == s.pieces;
      var r := Use(s, t, a, goal);
      assert r.pieces[|s.pieces|] == r.pieces[..|s1.pieces|][|s.pieces|];
      assert r.pieces[..|s.pieces|] == r.pieces[..|s1.pieces|][..|s.pieces|];
    case Register(elem) => RegisterNotes(s, t, a, elem);
    case Grow(_) =>
  }

  /** A step of a thread inside a call: what was asked for is handed out, or is still underway. */
  ghost predicate Progress(s: State, r: State, t: nat) {
    t < |s.threads| && s.threads[t].pc != Idle &&
    (Delivered(s, r, t, s.threads[t].pc.goal) || Underway(s, r, t, s.threads[t].pc.goal))
  }

  /** Every step of a thread inside a call. */
  lemma StepDelivers(s: State, t: nat, a: nat)
    requires Safe(s) && Shape(s) && t < |s.threads| && s.threads[t].pc != Idle
    ensures Progress(s, Step(s, t, a), t)
  {
    match s.threads[t].pc
    case Start(_) => StartDelivers(s, t);
    case CheckHint(_, _) => HintDelivers(s, t);
    case Slow(goal, _) => assert Underway(s, StepSlow(s, t), t, goal);
    case First(goal) => FirstDelivers(s, t, a);
    case Load(goal) => assert Underway(s, StepLoad(s, t), t, goal);
    case Cas(goal, _) => assert Underway(s, StepCas(s, t), t, goal);
    case Room(goal) => assert Underway(s, StepRoom(s, t, a), t, goal);
    case Publish(_) => PublishDelivers(s, t);
  }

  lemma FirstDelivers(s: State, t: nat, a: nat)
    requires Shape(s) && t < |s.threads| && s.threads[t].pc.First?
    ensures Underway(s, StepFirst(s, t, a), t, s.threads[t].pc.goal)
  {
  }

  lemma StartDelivers(s: State, t: nat)
    requires Safe(s) && Shape(s) && t < |s.threads| && s.threads[t].pc.Start?
    ensures Progress(s, StepStart(s, t), t)
  {
    var th := s.threads[t];
    if th.cache.lifecycle == s.lifecycle {
      CacheNamesOwnBlock(s, t);
      if Avail(s.blocks[th.cache.block]) >= Need(th.pc.goal, th.chunks) {
        UseDelivers(s, t, th.cache.block, th.pc.goal);
      }
    }
  }

  lemma HintDelivers(s: State, t: nat)
    requires Shape(s) && t < |s.threads| && s.threads[t].pc.CheckHint?
    ensures Progress(s, StepHint(s, t), t)
  {
    var th := s.threads[t];
    if s.hint.Some? && s.blocks[s.hint.value].owner == t && Avail(s.blocks[s.hint.value]) >= Need(th.pc.goal, th.chunks) {
      UseDelivers(s, t, s.hint.value, th.pc.goal);
    }
  }

  lemma PublishDelivers(s: State, t: nat)
    requires Safe(s) && Shape(s) && t < |s.threads| && s.threads[t].pc.Publish?
    ensures Delivered(s, StepPublish(s, t), t, s.threads[t].pc.goal)
  {
    var th := s.threads[t];
    assert ThreadShape(s, th) && OwnsList(s, t);
    var a, goal := th.blocks[0], th.pc.goal;
    assert a in th.blocks;
    CachedDelivers(s, s.(threads := s.threads[t := th.(cache := Cache(s.lifecycle, a))], hint := Some(a)), t, a, goal);
  }

  lemma CachedDelivers(s: State, s1: State, t: nat, a: nat, goal: Goal)
    requires t < |s.threads| == |s1.threads| && s1.pieces == s.pieces && s1.registered == s.registered && |s.registered| == |s.threads|
    requires a in s1.blocks && s1.blocks[a].owner == t
    ensures Delivered(s, Use(s1, t, a, goal), t, goal)
  {
    UseDelivers(s1, t, a, goal);
  }
}
