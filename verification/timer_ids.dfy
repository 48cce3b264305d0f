/** Timer ids over time: Cancel with an id takes effect exactly while the very timer it was
    answered for is alive, at every moment, inside tasks and walks as well as between calls. */
module TimerIds {
  import opened Sequences
  import opened TimerModel
  import opened TimerLaws
  import opened TimerTheorems
  import TimerId

  /** Cancel with an id changes the queue just when the id names a node in use, with the type
      and the place in the sequence cycle that the id carries. */
  lemma CancelHits(q: Sched, p: TimerId.Parts)
    requires Part(q) && TimerId.Legal(p)
    ensures var x := p.pos - 1; var r := DoCancel(q, TimerId.Encode(p));
      r.1 == TimerId.INVALID <==>
        x < |q.nodes| && (x in q.pend || q.run == Some(x))
        && q.nodes[x].ty == p.ty && TimerId.SeqAfter(q.uses[x]) == p.seqNo
    ensures DoCancel(q, TimerId.Encode(p)).1 != TimerId.INVALID ==>
      DoCancel(q, TimerId.Encode(p)) == (q, TimerId.Encode(p))
  {
    TimerId.DecodeEncode(p);
  }

  /** The id Schedule answers is legal and names the node it queued. */
  lemma ScheduleId(m: Sched, ty: nat, delay: u32, period: u32, repeat: u32)
    requires Part(m) && ty < MAX_TYPES && m.free != [] && !(period == 0 && repeat > 1)
    ensures m.free[0] < |m.uses| && Part(DoSchedule(m, ty, delay, period, repeat).0)
    ensures var (r, id) := DoSchedule(m, ty, delay, period, repeat); var x := m.free[0];
      && id == TimerId.Encode(TimerId.Parts(ty, x + 1, TimerId.SeqAfter(m.uses[x] + 1)))
      && TimerId.Legal(TimerId.Parts(ty, x + 1, TimerId.SeqAfter(m.uses[x] + 1)))
      && TimerId.INVALID < id < U32 * U32 && r.uses[x] == m.uses[x] + 1
      && DoCancel(r, id).1 == TimerId.INVALID
  {
    var x := m.free[0];
    assert x in m.free;
    TimerId.StepSeqCounts(m.uses[x]);
    var p := TimerId.Parts(ty, x + 1, TimerId.SeqAfter(m.uses[x] + 1));
    TimerId.DecodeEncode(p);
    SchedulePart(m, ty, delay, period, repeat);
    CancelHits(DoSchedule(m, ty, delay, period, repeat).0, p);
  }

  // ---------- moments ----------

  /** The smallest things that happen to a queue: a call, from a task or not; a due node leaves
      its bucket and its task starts; the task ends; a clock is set. */
  datatype Event =
    | Called(action: Action)
    | Started(x: nat, t: nat)
    | Finished(rebase: bool)
    | Clock(now: nat, cur: nat)

  ghost predicate Possible(m: Sched, e: Event) {
    match e
    case Called(a) => ActionOk(a)
    case Started(x, _) => m.run == None && x in m.pend
    case Finished(_) => m.run.Some?
    case Clock(_, _) => true
  }

  ghost function Happens(m: Sched, e: Event): Sched
    requires Part(m) && Possible(m, e)
  {
    match e
    case Called(a) => Act(m, a)
    case Started(x, t) => Begin(m, x, t)
    case Finished(rebase) => End(m, rebase)
    case Clock(now, cur) => m.(now := now, cur := cur)
  }

  /** From m to q no node has been used less often, and one used as often carries the same type
      and has not come back to life. */
  ghost predicate Later(m: Sched, q: Sched) {
    && |q.uses| == |m.uses| && |q.nodes| == |m.nodes|
    && forall x :: 0 <= x < |m.uses| ==> NodeLater(m, q, x)
  }

  ghost predicate NodeLater(m: Sched, q: Sched, x: nat) {
    x < |m.uses| == |q.uses| && x < |m.nodes| == |q.nodes| && m.uses[x] <= q.uses[x]
    && (m.uses[x] == q.uses[x] ==> q.nodes[x].ty == m.nodes[x].ty && (x in m.free ==> x in q.free))
  }

  lemma LaterTrans(m: Sched, q: Sched, r: Sched)
    requires Later(m, q) && Later(q, r)
    ensures Later(m, r)
  {
    forall x | 0 <= x < |m.uses|
      ensures NodeLater(m, r, x)
    {
      assert NodeLater(m, q, x) && NodeLater(q, r, x);
    }
  }

  lemma EventLater(m: Sched, e: Event)
    requires Part(m) && Possible(m, e)
    ensures Part(Happens(m, e)) && Later(m, Happens(m, e))
  {
    match e
    case Called(a) =>
      ActPart(m, a);
      if m.free != [] {
        DistinctTail(m.free);
      }
    case Started(x, t) => BeginPart(m, x, t);
    case Finished(rebase) => EndPart(m, rebase);
    case Clock(_, _) =>
  }

  /** Events that are not possible when their turn comes are passed over. */
  ghost function After(m: Sched, es: seq<Event>): (q: Sched)
    requires Part(m)
    ensures Part(q) && Later(m, q)
    decreases |es|
  {
    if es == [] then m
    else if !Possible(m, es[0]) then After(m, es[1..])
    else
      EventLater(m, es[0]);
      var m1 := Happens(m, es[0]);
      LaterTrans(m, m1, After(m1, es[1..]));
      After(m1, es[1..])
  }

  lemma {:induction false} AfterJoin(m: Sched, es: seq<Event>, fs: seq<Event>)
    requires Part(m)
    ensures After(m, es + fs) == After(After(m, es), fs)
    decreases |es|
  {
    if es == [] {
      assert es + fs == fs;
    } else {
      assert (es + fs)[1..] == es[1..] + fs;
      if Possible(m, es[0]) {
        EventLater(m, es[0]);
        AfterJoin(Happens(m, es[0]), es[1..], fs);
      } else {
        AfterJoin(m, es[1..], fs);
      }
    }
  }

  /** Within one cycle of sequence numbers, Cancel with the id that Schedule answered takes effect
      exactly while that timer is alive, that is, while its node has neither been freed nor been
      scheduled anew; otherwise it changes nothing. This holds at every moment after any events,
      wherever the id was answered and wherever Cancel is called. */
  lemma IdLivesWithItsTimer(m: Sched, ty: nat, delay: u32, period: u32, repeat: u32, id: nat, r: Sched, es: seq<Event>)
    requires Part(m) && ty < MAX_TYPES && (r, id) == DoSchedule(m, ty, delay, period, repeat) && id != TimerId.INVALID
    ensures Part(r) && m.free != [] && m.free[0] < |r.uses| == |After(r, es).uses|
    ensures var x := m.free[0]; var q := After(r, es);
      q.uses[x] < r.uses[x] + TimerId.SEQ_CYCLE ==>
        && (DoCancel(q, id).1 == TimerId.INVALID <==> q.uses[x] == r.uses[x] && x !in q.free)
        && (DoCancel(q, id).1 != TimerId.INVALID ==> DoCancel(q, id) == (q, id))
  {
    ScheduleId(m, ty, delay, period, repeat);
    var x := m.free[0];
    assert r.nodes[x].ty == ty;
    IdAt(r, After(r, es), x, ty);
  }

  lemma IdAt(r: Sched, q: Sched, x: nat, ty: nat)
    requires Part(r) && Part(q) && Later(r, q) && x < |r.uses| && r.nodes[x].ty == ty < MAX_TYPES
    ensures var id := TimerId.Encode(TimerId.Parts(ty, x + 1, TimerId.SeqAfter(r.uses[x])));
      q.uses[x] < r.uses[x] + TimerId.SEQ_CYCLE ==>
        && (DoCancel(q, id).1 == TimerId.INVALID <==> q.uses[x] == r.uses[x] && x !in q.free)
        && (DoCancel(q, id).1 != TimerId.INVALID ==> DoCancel(q, id) == (q, id))
  {
    assert NodeLater(r, q, x);
    CancelHits(q, TimerId.Parts(ty, x + 1, TimerId.SeqAfter(r.uses[x])));
    if q.uses[x] < r.uses[x] + TimerId.SEQ_CYCLE {
      TimerId.SeqDiffers(r.uses[x], q.uses[x] - r.uses[x]);
    }
  }

  /** The bound is exact: a live timer of the same type on a node that has been scheduled 59999
      more times is cancelled by the old id. */
  lemma IdRevives(r: Sched, q: Sched, x: nat, ty: nat)
    requires Part(r) && Part(q) && |q.uses| == |r.uses| && x < |r.uses| && x !in q.free && q.nodes[x].ty == ty < MAX_TYPES
    requires q.uses[x] == r.uses[x] + TimerId.SEQ_CYCLE
    ensures DoCancel(q, TimerId.Encode(TimerId.Parts(ty, x + 1, TimerId.SeqAfter(r.uses[x])))).1 == TimerId.INVALID
  {
    CancelHits(q, TimerId.Parts(ty, x + 1, TimerId.SeqAfter(r.uses[x])));
    TimerId.SeqRepeats(r.uses[x], TimerId.SEQ_CYCLE);
  }

  // ---------- every operation is made of events ----------

  ghost function Calls(acts: seq<Action>): seq<Event> {
    if acts == [] then [] else [Called(acts[0])] + Calls(acts[1..])
  }

  lemma {:induction false} ActAllEvents(m: Sched, acts: seq<Action>)
    requires Part(m) && AllOk(acts)
    ensures After(m, Calls(acts)) == ActAll(m, acts)
    decreases |acts|
  {
    if acts != [] {
      EventLater(m, Called(acts[0]));
      ActAllEvents(Act(m, acts[0]), acts[1..]);
      assert Calls(acts)[1..] == Calls(acts[1..]);
    }
  }

  /** A firing: the events up to any moment inside the task are a prefix of these. */
  ghost function Firing(x: nat, t: nat, rebase: bool, acts: seq<Action>): seq<Event> {
    [Started(x, t)] + Calls(acts) + [Finished(rebase)]
  }

  lemma FireOneEvents(m: Sched, x: nat, t: nat, rebase: bool, acts: seq<Action>)
    requires Part(m) && m.run == None && x in m.pend && AllOk(acts)
    ensures After(m, Firing(x, t, rebase, acts)) == FireOne(m, x, t, rebase, acts)
  {
    BeginPart(m, x, t);
    var m1 := Begin(m, x, t);
    var m2 := ActAll(m1, acts);
    One(m, Started(x, t));
    AfterJoin(m, [Started(x, t)], Calls(acts));
    ActAllEvents(m1, acts);
    AfterJoin(m, [Started(x, t)] + Calls(acts), [Finished(rebase)]);
    One(m2, Finished(rebase));
  }

  lemma One(m: Sched, e: Event)
    requires Part(m) && Possible(m, e)
    ensures After(m, [e]) == Happens(m, e)
  {
    EventLater(m, e);
    assert [e][1..] == [];
    assert After(Happens(m, e), []) == Happens(m, e);
  }

  ghost predicate OfTasks(a: Action, cb: Tasks) { exists n: nat, now: nat :: a in cb(n, now) }

  /** An event of a walk: its calls are the tasks' own, its firings end as this walk ends them. */
  ghost predicate InWalk(e: Event, rebase: bool, cb: Tasks) {
    (e.Called? ==> OfTasks(e.action, cb)) && (e.Finished? ==> e.rebase == rebase)
  }

  /** An event of a run: its calls are the tasks' or the callers', and only a SkipTick makes a
      period count from the tick jumped to. */
  ghost predicate InRun(e: Event, ops: seq<Op>, cb: Tasks) {
    && (e.Called? ==> OfTasks(e.action, cb) || Call(e.action) in ops)
    && (e.Finished? && e.rebase ==> exists c :: Skip(c) in ops)
  }

  lemma CallsOf(acts: seq<Action>, n: nat, now: nat, rebase: bool, cb: Tasks, x: nat, t: nat)
    requires acts == cb(n, now)
    ensures forall e :: e in Firing(x, t, rebase, acts) ==> InWalk(e, rebase, cb)
  {
    CallsMember(acts);
    forall e | e in Firing(x, t, rebase, acts)
      ensures InWalk(e, rebase, cb)
    {
      if e.Called? {
        assert e in Calls(acts) && e.action in cb(n, now);
      }
    }
  }

  lemma {:induction false} CallsMember(acts: seq<Action>)
    ensures forall e :: e in Calls(acts) ==> e.Called? && e.action in acts
  {
    if acts != [] {
      CallsMember(acts[1..]);
    }
  }

  lemma FireTickEvents(m: Sched, t: nat, h: Horizon, rebase: bool, cb: Tasks) returns (es: seq<Event>)
    requires Walking(m, t, h) && Jumped(m, rebase, h) && m.run == None && TasksFit(cb, h)
    ensures After(m, es) == FireTick(m, t, h, rebase, cb) && forall e :: e in es ==> InWalk(e, rebase, cb)
    decreases |Due(m, t)|
  {
    es := [];
    var due := Due(m, t);
    if due != [] {
      var acts := cb(|m.fired|, m.now);
      FireOneWalks(m, t, h, rebase, acts);
      var m1 := FireOne(m, due[0], t, rebase, acts);
      SubLength(Due(m1, t), due[1..]);
      var rest := FireTickEvents(m1, t, h, rebase, cb);
      es := Firing(due[0], t, rebase, acts) + rest;
      FireOneEvents(m, due[0], t, rebase, acts);
      CallsOf(acts, |m.fired|, m.now, rebase, cb, due[0], t);
      AfterJoin(m, Firing(due[0], t, rebase, acts), rest);
    }
  }

  lemma RoundEvents(m: Sched, h: Horizon, rebase: bool, cb: Tasks) returns (es: seq<Event>)
    requires Ready(m, h) && m.cur < h.last && TasksFit(cb, h) && (rebase ==> m.cur <= m.now <= h.skip)
    ensures After(m, es) == Round(m, h, rebase, cb) && forall e :: e in es ==> InWalk(e, rebase, cb)
  {
    var m1 := Clocked(m, h, rebase);
    One(m, Clock(m1.now, m.cur));
    assert Happens(m, Clock(m1.now, m.cur)) == m1;
    var walk := FireTickEvents(m1, m.cur, h, rebase, cb);
    var m2 := FireTick(m1, m.cur, h, rebase, cb);
    AfterJoin(m, [Clock(m1.now, m.cur)], walk);
    FireTickWalks(m1, m.cur, h, rebase, cb);
    One(m2, Clock(m2.now, m.cur + 1));
    es := [Clock(m1.now, m.cur)] + walk + [Clock(m2.now, m.cur + 1)];
    AfterJoin(m, [Clock(m1.now, m.cur)] + walk, [Clock(m2.now, m.cur + 1)]);
  }

  lemma RunToEvents(m: Sched, c: nat, h: Horizon, rebase: bool, cb: Tasks) returns (es: seq<Event>)
    requires Ready(m, h) && c <= h.last && TasksFit(cb, h) && (rebase && m.cur < c ==> m.now == c <= h.skip)
    ensures After(m, es) == RunTo(m, c, h, rebase, cb) && forall e :: e in es ==> InWalk(e, rebase, cb)
    decreases c - m.cur
  {
    es := [];
    if m.cur < c {
      es := RoundEvents(m, h, rebase, cb);
      var m1 := Round(m, h, rebase, cb);
      var rest := RunToEvents(m1, c, h, rebase, cb);
      AfterJoin(m, es, rest);
      es := es + rest;
    }
  }

  lemma DoEvents(m: Sched, op: Op, h: Horizon, cb: Tasks) returns (es: seq<Event>)
    requires Ready(m, h) && TasksFit(cb, h) && OpOk(m, op, h)
    ensures After(m, es) == Do(m, op, h, cb)
    ensures forall e :: e in es ==> (if op.Call? then e == Called(op.action) else InWalk(e, op.Skip?, cb))
  {
    match op
    case Call(a) =>
      es := [Called(a)];
      One(m, Called(a));
    case Tick(c) =>
      es := RunToEvents(m, c, h, false, cb);
    case Skip(c) =>
      var walk := RunToEvents(m.(now := c), c, h, true, cb);
      One(m, Clock(c, m.cur));
      assert m.(now := c, cur := m.cur) == m.(now := c);
      AfterJoin(m, [Clock(c, m.cur)], walk);
      es := [Clock(c, m.cur)] + walk;
  }

  /** Every run of operations is a run of events, so every moment of it is covered above. */
  lemma RunEvents(m: Sched, ops: seq<Op>, h: Horizon, cb: Tasks) returns (es: seq<Event>)
    requires Ready(m, h) && TasksFit(cb, h)
    ensures After(m, es) == Run(m, ops, h, cb) && forall e :: e in es ==> InRun(e, ops, cb)
    decreases |ops|
  {
    es := [];
    if ops != [] && OpOk(m, ops[0], h) {
      es := DoEvents(m, ops[0], h, cb);
      DoReady(m, ops[0], h, cb);
      var first := es;
      var rest := RunEvents(Do(m, ops[0], h, cb), ops[1..], h, cb);
      AfterJoin(m, first, rest);
      es := first + rest;
      FromOps(ops, first, rest, cb);
    }
  }

  lemma FromOps(ops: seq<Op>, first: seq<Event>, rest: seq<Event>, cb: Tasks)
    requires ops != [] && forall e :: e in rest ==> InRun(e, ops[1..], cb)
    requires forall e :: e in first ==> if ops[0].Call? then e == Called(ops[0].action) else InWalk(e, ops[0].Skip?, cb)
    ensures forall e :: e in first + rest ==> InRun(e, ops, cb)
  {
    assert ops[0] in ops && forall op :: op in ops[1..] ==> op in ops;
    forall e | e in first + rest
      ensures InRun(e, ops, cb)
    {
      if e in first {
        if e.Finished? && e.rebase {
          assert Skip(ops[0].clock) in ops;
        }
      } else {
        assert InRun(e, ops[1..], cb);
      }
    }
  }

  /** Between two calls: the id answered to a caller does nothing after any run of operations in
      which its node was freed or used again, short of 59999 more uses. */
  lemma DeadIdDoesNothing(m: Sched, ty: nat, delay: u32, period: u32, repeat: u32, id: nat, r: Sched,
                          ops: seq<Op>, h: Horizon, cb: Tasks)
    requires Part(m) && ty < MAX_TYPES && (r, id) == DoSchedule(m, ty, delay, period, repeat) && id != TimerId.INVALID
    requires Ready(r, h) && TasksFit(cb, h)
    ensures m.free != [] && m.free[0] < |r.uses| == |Run(r, ops, h, cb).uses|
    ensures var x := m.free[0]; var q := Run(r, ops, h, cb);
      q.uses[x] < r.uses[x] + TimerId.SEQ_CYCLE && (q.uses[x] > r.uses[x] || x in q.free) ==> DoCancel(q, id) == (q, id)
  {
    var es := RunEvents(r, ops, h, cb);
    IdLivesWithItsTimer(m, ty, delay, period, repeat, id, r, es);
  }
}
