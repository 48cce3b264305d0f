/** What callers of the timer queue may rely on, over every run from creation, and the exact
    conditions under which they may not. */
module TimerTheorems {
  import opened Sequences
  import opened TimerModel
  import opened TimerLaws
  import opened TimerLedger
  import opened TimerRuns
  import TimerId

  lemma CreateBooks(n: nat)
    requires 0 < n < TimerId.MAX_NODES
    ensures Books(Create(n))
  {
  }

  datatype Op = Call(action: Action) | Tick(clock: nat) | Skip(clock: nat)

  /** What the callers of one operation owe: no 32-bit wrap below the horizon, no timer with
      period 0 and repeat count 0, and no SkipTick into the past. */
  ghost predicate OpOk(m: Sched, op: Op, h: Horizon) {
    match op
    case Call(a) => ActionFits(a, m.now, h)
    case Tick(c) => c <= h.last
    case Skip(c) => m.cur <= c + 1 && c <= h.last && c <= h.skip
  }

  ghost function Do(m: Sched, op: Op, h: Horizon, cb: Tasks): Sched
    requires Ready(m, h) && TasksFit(cb, h) && OpOk(m, op, h)
  {
    match op
    case Call(a) => Act(m, a)
    case Tick(c) => RunTo(m, c, h, false, cb)
    case Skip(c) => RunTo(m.(now := c), c, h, true, cb)
  }

  lemma CallReady(m: Sched, a: Action, h: Horizon)
    requires Ready(m, h) && ActionFits(a, m.now, h)
    ensures Ready(Act(m, a), h)
  {
    ActPart(m, a);
    if m.free != [] {
      assert m.free[0] in m.free;
    }
  }

  lemma DoReady(m: Sched, op: Op, h: Horizon, cb: Tasks)
    requires Ready(m, h) && TasksFit(cb, h) && OpOk(m, op, h)
    ensures Ready(Do(m, op, h, cb), h)
  {
    if op.Call? {
      CallReady(m, op.action, h);
    }
  }

  lemma DoBooks(m: Sched, op: Op, h: Horizon, cb: Tasks)
    requires Ready(m, h) && TasksFit(cb, h) && OpOk(m, op, h) && Books(m)
    ensures Books(Do(m, op, h, cb))
  {
    match op
    case Call(a) =>
      ActBooks(m, a);
    case Tick(c) =>
      RunToBooks(m, c, h, false, cb);
    case Skip(c) =>
      ClockIrrelevant(m, m.(now := c));
      RunToBooks(m.(now := c), c, h, true, cb);
  }

  /** A run of operations; one that breaks the callers' duties ends it. */
  ghost function Run(m: Sched, ops: seq<Op>, h: Horizon, cb: Tasks): (r: Sched)
    requires Ready(m, h) && TasksFit(cb, h)
    ensures Ready(r, h)
    decreases |ops|
  {
    if ops == [] || !OpOk(m, ops[0], h) then m else
      DoReady(m, ops[0], h, cb);
      Run(Do(m, ops[0], h, cb), ops[1..], h, cb)
  }

  lemma {:induction false} RunBooks(m: Sched, ops: seq<Op>, h: Horizon, cb: Tasks)
    requires Ready(m, h) && TasksFit(cb, h) && Books(m)
    ensures Books(Run(m, ops, h, cb))
    decreases |ops|
  {
    if ops != [] && OpOk(m, ops[0], h) {
      DoReady(m, ops[0], h, cb);
      DoBooks(m, ops[0], h, cb);
      var m1 := Do(m, ops[0], h, cb);
      RunBooks(m1, ops[1..], h, cb);
    }
  }

  /** In every run from creation each queueing of a timer has had exactly one fate: it was fired
      once, at the very tick it expired; or it was cancelled; or it is pending, for a tick not
      yet processed. Every node is in exactly one place, and m_timerCount is exact. */
  lemma NeverEarlyLateOrSkipped(n: nat, ops: seq<Op>, h: Horizon, cb: Tasks)
    requires 0 < n < TimerId.MAX_NODES && TasksFit(cb, h)
    ensures var r := Run(Create(n), ops, h, cb);
      && Part(r) && Counted(r) && OnTime(r)
      && (forall a :: a in r.armed ==>
            multiset(r.fired)[a] + r.dropped[a] + PendArms(r)[a] == 1
            && (a.expire < r.cur ==> PendArms(r)[a] == 0))
      && (forall a :: a in r.fired || a in r.dropped || a in PendArms(r) ==> a in r.armed)
  {
    CreateBooks(n);
    RunBooks(Create(n), ops, h, cb);
    var r := Run(Create(n), ops, h, cb);
    forall a | a in r.armed
      ensures multiset(r.fired)[a] + r.dropped[a] + PendArms(r)[a] == 1
      ensures a.expire < r.cur ==> PendArms(r)[a] == 0
    {
      LedgerAt(r, a);
      PendAfter(r, a, r.cur);
    }
  }

  // ---------- where the callers' duties are needed ----------

  /** After a SkipTick to a tick c, a timer set with a given delay is queued for a tick already
      processed exactly if c + delay is behind the wheel. With the least delay, 1, this is why
      SkipTick must not be called with c + 1 < m_currentTick, and need not be restricted more. */
  lemma SkipIntoThePast(m: Sched, c: nat, ty: nat, delay: u32, period: u32, repeat: u32)
    requires Part(m) && NoneBefore(m, m.cur) && ty < MAX_TYPES && m.free != [] && !(period == 0 && repeat > 1)
    requires c + Max1(delay) < U32
    ensures NoneBefore(DoSchedule(m.(now := c), ty, delay, period, repeat).0, m.cur) <==> m.cur <= c + Max1(delay)
  {
    var x := m.free[0];
    assert x in m.free;
    var r := DoSchedule(m.(now := c), ty, delay, period, repeat).0;
    assert r.pend == m.pend + [x] && r.pend[|m.pend|] == x;
    assert r.nodes[x].expire == c + Max1(delay);
    forall y | y in r.pend && y != x
      ensures y < |r.nodes| && m.cur <= r.nodes[y].expire
    {
      assert y in m.pend;
    }
  }

  /** Of the pairs Schedule accepts, exactly period 0 with repeat count 0 makes a timer that is
      due again at the tick at which it has just run. */
  lemma ZeroPeriodZeroRepeat(m: Sched, x: nat, t: nat)
    requires Part(m) && m.run == None && x in m.pend && m.nodes[x].expire == t
    requires !(m.nodes[x].period == 0 && m.nodes[x].repeat > 1) && t + m.nodes[x].period < U32
    ensures Part(Begin(m, x, t))
    ensures x in Due(End(Begin(m, x, t), false), t) <==> m.nodes[x].period == 0 && m.nodes[x].repeat == 0
  {
    BeginPart(m, x, t);
    RemoveDistinct(m.pend, x);
    var r := End(Begin(m, x, t), false);
    assert r.nodes[x].repeat != 0 ==> r.pend[|r.pend| - 1] == x;
  }

  /** A new timer expires after the tick at which it is set exactly if the sum does not wrap. */
  lemma ScheduleWraps(m: Sched, ty: nat, delay: u32, period: u32, repeat: u32)
    requires Part(m) && ty < MAX_TYPES && m.free != [] && !(period == 0 && repeat > 1) && m.now < U32
    ensures m.free[0] < |DoSchedule(m, ty, delay, period, repeat).0.nodes|
    ensures DoSchedule(m, ty, delay, period, repeat).0.nodes[m.free[0]].expire > m.now <==> m.now + Max1(delay) < U32
  {
    assert m.free[0] in m.free;
  }

  /** A timer queued again after it has run expires later than the tick its period counts from
      exactly if it has a period and the sum does not wrap. */
  lemma RepeatWraps(m: Sched, rebase: bool)
    requires Part(m) && m.run.Some? && m.nodes[m.run.value].repeat != 0 && m.now < U32
    ensures var x := m.run.value; var base := if rebase then m.now else m.nodes[x].expire;
      End(m, rebase).nodes[x].expire > base <==> m.nodes[x].period > 0 && base + m.nodes[x].period < U32
  {
  }
}
