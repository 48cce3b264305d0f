/** The life of one timer, told from the numbers its caller gave: when it is set, how often and
    when it is fired, and that it is never fired again once it has been cancelled. */
module TimerLife {
  import opened Sequences
  import opened TimerModel
  import opened TimerLaws
  import opened TimerLedger
  import opened TimerRuns
  import opened TimerTheorems
  import opened TimerIds
  import TimerId

  // ---------- Schedule in numbers ----------

  /** Schedule refuses exactly for want of a node or for a repeat without a period, changing
      nothing; otherwise the timer is queued last, to expire delay ticks from now, or one tick
      from now if the delay is 0, with the period and the count given. */
  lemma ScheduleExact(m: Sched, ty: nat, delay: u32, period: u32, repeat: u32)
    requires Part(m) && ty < MAX_TYPES
    ensures var (r, id) := DoSchedule(m, ty, delay, period, repeat);
      && (id == 0 <==> m.free == [] || (period == 0 && repeat > 1))
      && (id == 0 ==> r == m)
      && (id != 0 ==> Scheduled(m, r, m.free[0], ty, delay, period, repeat))
  {
    if m.free != [] && !(period == 0 && repeat > 1) {
      ScheduleId(m, ty, delay, period, repeat);
      ScheduleFills(m, ty, delay, period, repeat);
    }
  }

  lemma ScheduleFills(m: Sched, ty: nat, delay: u32, period: u32, repeat: u32)
    requires Part(m) && ty < MAX_TYPES && m.free != [] && !(period == 0 && repeat > 1)
    ensures Scheduled(m, DoSchedule(m, ty, delay, period, repeat).0, m.free[0], ty, delay, period, repeat)
  {
    assert m.free[0] in m.free;
  }

  ghost predicate Scheduled(m: Sched, r: Sched, x: nat, ty: nat, delay: u32, period: u32, repeat: u32) {
    && |r.nodes| == |m.nodes| && x < |m.nodes| && |r.uses| == |m.uses| && x < |m.uses| && m.free != [] && m.free[0] == x
    && (0 < delay && m.now + delay < 0x1_0000_0000 ==> r.nodes[x].expire == m.now + delay)
    && (delay == 0 && m.now + 1 < 0x1_0000_0000 ==> r.nodes[x].expire == m.now + 1)
    && r.nodes[x].ty == ty && r.nodes[x].period == period && r.nodes[x].repeat == repeat
    && r.pend == m.pend + [x] && r.free == m.free[1..] && r.run == m.run && r.fired == m.fired && r.dropped == m.dropped
    && r.uses[x] == m.uses[x] + 1 && r.armed == m.armed + multiset{Arm(x, r.uses[x], r.nodes[x].expire)}
    && (forall y :: 0 <= y < |m.nodes| && y != x ==> r.nodes[y] == m.nodes[y])
    && (forall y :: 0 <= y < |m.uses| && y != x ==> r.uses[y] == m.uses[y])
  }

  /** The first 36001 ticks, half an hour and one tick, go to the buckets in order, and then two
      ticks share a bucket exactly if they are a multiple of that apart. */
  lemma HashExact(t: nat, u: nat)
    ensures Hash(t) < 36001 && (Hash(t) == Hash(u) <==> (t - u) % 36001 == 0)
    ensures t < 36001 ==> Hash(t) == t
  {
  }

  // ---------- how often and when a timer is fired ----------

  /** What was asked for: the first expiry, the period, and how many firings (0 stands for 2^32). */
  datatype Timer = Timer(slot: nat, gen: nat, ty: nat, first: nat, period: nat, count: nat)

  function Total(t: Timer): nat { if t.count == 0 then 0x1_0000_0000 else t.count }

  /** The expiry of the j-th firing, counted from 0, when periods count from the last expiry. */
  function When(t: Timer, j: nat): nat {
    if j == 0 then t.first else (When(t, j - 1) + t.period) % 0x1_0000_0000
  }

  /** How many firings are left after k of them, as a 32-bit number. */
  function Left(t: Timer, k: nat): int { if k == 0 then t.count else Total(t) - k }

  /** The expiries of the firings of the timer, oldest first. */
  ghost function Firings(fired: seq<Arm>, slot: nat, gen: nat): seq<nat> {
    if fired == [] then [] else
      var a := fired[|fired| - 1];
      Firings(fired[..|fired| - 1], slot, gen) + if a.slot == slot && a.gen == gen then [a.expire] else []
  }

  lemma FiringsMore(fired: seq<Arm>, a: Arm, slot: nat, gen: nat)
    ensures Firings(fired + [a], slot, gen)
         == Firings(fired, slot, gen) + if a.slot == slot && a.gen == gen then [a.expire] else []
  {
    assert (fired + [a])[..|fired|] == fired;
  }

  ghost predicate Alive(q: Sched, t: Timer) {
    t.slot < |q.uses| && q.uses[t.slot] == t.gen && t.slot !in q.free
  }

  /** k of the firings have happened. While the timer is alive its node shows the period and how
      many are left, and none are left when its task has run for the last time; it dies exactly
      after the last one. With exact, expiries follow the period. */
  ghost predicate Living(q: Sched, t: Timer, k: nat, exact: bool) {
    && t.slot < |q.uses| == |q.nodes| && t.gen <= q.uses[t.slot] && k <= Total(t)
    && (!Alive(q, t) ==> k == Total(t))
    && (Alive(q, t) ==>
          var n := q.nodes[t.slot];
          && n.period == t.period && n.ty == t.ty && n.repeat == Left(t, k)
          && (t.slot in q.pend ==> k < Total(t) && (exact ==> n.expire == When(t, k)))
          && (q.run == Some(t.slot) ==> k > 0 && (exact ==> n.expire == When(t, k - 1))))
  }

  ghost predicate Told(q: Sched, t: Timer, before: seq<nat>, exact: bool) {
    var fs := Firings(q.fired, t.slot, t.gen);
    |before| <= |fs| && fs[..|before|] == before && Living(q, t, |fs| - |before|, exact)
    && (exact ==> forall j :: |before| <= j < |fs| ==> fs[j] == When(t, j - |before|))
  }

  /** The id that Schedule answered for the timer. */
  function IdOf(t: Timer): nat { TimerId.Encode(TimerId.Parts(t.ty, t.slot + 1, TimerId.SeqAfter(t.gen))) }

  /** Only its own id names a living timer. */
  lemma OnlyOwnId(q: Sched, t: Timer, id: nat)
    requires Part(q) && Alive(q, t) && q.nodes[t.slot].ty == t.ty < MAX_TYPES && Resolve(q, id) == Some(t.slot)
    ensures id == IdOf(t)
  {
    LargeId(id);
    TimerId.EncodeDecode(id);
  }

  /** The type in a number beyond 64 bits is beyond 16 bits. */
  lemma LargeId(id: nat)
    ensures id >= TimerId.U32 * TimerId.U32 ==> TimerId.Decode(id).1.ty >= 0x1_0000
  {
  }

  ghost predicate Harmless(e: Event, t: Timer, exact: bool) {
    e != Called(Cancel(IdOf(t))) && (exact ==> e != Finished(true))
  }

  lemma CallTold(q: Sched, a: Action, t: Timer, k: nat, exact: bool)
    requires Part(q) && ActionOk(a) && Living(q, t, k, exact) && t.ty < MAX_TYPES && a != Cancel(IdOf(t))
    ensures Living(Act(q, a), t, k, exact)
  {
    match a
    case Schedule(ty, delay, period, repeat) =>
      if q.free != [] {
        DistinctTail(q.free);
      }
    case Cancel(id) =>
      if Alive(q, t) && Resolve(q, id) == Some(t.slot) {
        OnlyOwnId(q, t, id);
      }
  }

  lemma StartTold(q: Sched, x: nat, now: nat, t: Timer, k: nat, exact: bool)
    requires Part(q) && q.run == None && x in q.pend && Living(q, t, k, exact)
    ensures var mine := x == t.slot && q.uses[x] == t.gen;
      Living(Begin(q, x, now), t, if mine then k + 1 else k, exact)
  {
    RemoveDistinct(q.pend, x);
  }

  lemma FinishTold(q: Sched, rebase: bool, t: Timer, k: nat, exact: bool)
    requires Part(q) && q.run.Some? && Living(q, t, k, exact) && (exact ==> !rebase)
    ensures Living(End(q, rebase), t, k, exact)
  {
  }

  lemma EventStarts(q: Sched, x: nat, now: nat, t: Timer, before: seq<nat>, exact: bool)
    requires Part(q) && q.run == None && x in q.pend && Told(q, t, before, exact)
    ensures Told(Begin(q, x, now), t, before, exact)
  {
    FiringsMore(q.fired, ArmOf(q, x), t.slot, t.gen);
    StartTold(q, x, now, t, |Firings(q.fired, t.slot, t.gen)| - |before|, exact);
  }

  lemma EventTold(q: Sched, e: Event, t: Timer, before: seq<nat>, exact: bool)
    requires Part(q) && Possible(q, e) && Told(q, t, before, exact) && Harmless(e, t, exact) && t.ty < MAX_TYPES
    ensures Told(Happens(q, e), t, before, exact)
  {
    var k := |Firings(q.fired, t.slot, t.gen)| - |before|;
    match e
    case Called(a) =>
      ActPart(q, a);
      CallTold(q, a, t, k, exact);
    case Started(x, now) => EventStarts(q, x, now, t, before, exact);
    case Finished(rebase) => FinishTold(q, rebase, t, k, exact);
    case Clock(_, _) =>
  }

  lemma {:induction false} AfterTold(q: Sched, es: seq<Event>, t: Timer, before: seq<nat>, exact: bool)
    requires Part(q) && Told(q, t, before, exact) && t.ty < MAX_TYPES
    requires forall i :: 0 <= i < |es| ==> Harmless(es[i], t, exact)
    ensures Told(After(q, es), t, before, exact)
    decreases |es|
  {
    if es != [] {
      if Possible(q, es[0]) {
        EventLater(q, es[0]);
        EventTold(q, es[0], t, before, exact);
        AfterTold(Happens(q, es[0]), es[1..], t, before, exact);
      } else {
        AfterTold(q, es[1..], t, before, exact);
      }
    }
  }

  /** The timer that Schedule has just queued. */
  ghost function NewTimer(m: Sched, r: Sched, ty: nat, period: u32, repeat: u32): Timer
    requires Part(m) && m.free != [] && |r.nodes| == |m.nodes| && |r.uses| == |m.uses|
  {
    assert m.free[0] in m.free;
    Timer(m.free[0], r.uses[m.free[0]], ty, r.nodes[m.free[0]].expire, period, repeat)
  }

  /** A timer that nobody cancels is fired exactly as often as was asked for, and then its node is
      free: at every moment after it was set, inside tasks and walks too, as many firings are
      left as its node shows, and it is in use just while some are left or its last task runs.
      As long as no SkipTick shifts its period, the j-th firing is for the first expiry plus j
      periods. */
  lemma FiredAsOftenAsAsked(m: Sched, ty: nat, delay: u32, period: u32, repeat: u32, r: Sched, id: nat, es: seq<Event>, exact: bool)
    requires Part(m) && ty < MAX_TYPES && (r, id) == DoSchedule(m, ty, delay, period, repeat) && id != 0
    requires forall i :: 0 <= i < |es| ==> es[i] != Called(Cancel(id)) && (exact ==> es[i] != Finished(true))
    ensures Part(r) && m.free != [] && |r.nodes| == |m.nodes| && |r.uses| == |m.uses|
    ensures var t := NewTimer(m, r, ty, period, repeat);
      Told(After(r, es), t, Firings(r.fired, t.slot, t.gen), exact)
  {
    ScheduleExact(m, ty, delay, period, repeat);
    ScheduleId(m, ty, delay, period, repeat);
    var t := NewTimer(m, r, ty, period, repeat);
    assert r.pend[|m.pend|] == t.slot;
    DistinctTail(m.free);
    assert IdOf(t) == id;
    AfterTold(r, es, t, Firings(r.fired, t.slot, t.gen), exact);
  }

  // ---------- over runs of Tick ----------

  /** The closed form: as long as the expiries do not fall, nothing has wrapped. */
  lemma {:induction false} WhenClosed(t: Timer, j: nat)
    requires t.first < 0x1_0000_0000 && t.period < 0x1_0000_0000
    requires forall i :: 0 < i <= j ==> When(t, i - 1) <= When(t, i)
    ensures When(t, j) == t.first + j * t.period
  {
    if j > 0 {
      WhenClosed(t, j - 1);
      assert When(t, j - 1) <= When(t, j);
      WhenNext(t, j - 1);
      assert j * t.period == (j - 1) * t.period + t.period;
    }
  }

  lemma WhenNext(t: Timer, j: nat)
    requires t.first < 0x1_0000_0000 && t.period < 0x1_0000_0000 && When(t, j) <= When(t, j + 1)
    ensures When(t, j + 1) == When(t, j) + t.period
  {
  }

  lemma {:induction false} FiringsNone(fired: seq<Arm>, slot: nat, gen: nat)
    requires forall i :: 0 <= i < |fired| ==> !(fired[i].slot == slot && fired[i].gen == gen)
    ensures Firings(fired, slot, gen) == []
  {
    if fired != [] {
      FiringsNone(fired[..|fired| - 1], slot, gen);
    }
  }

  /** Of firings in order of expiry those of one timer are. */
  lemma {:induction false} FiringsInOrder(fired: seq<Arm>, n: nat, slot: nat, gen: nat, c: nat)
    requires n <= |fired| && Firings(fired[..n], slot, gen) == []
    requires forall i :: n <= i < |fired| ==> fired[i].expire < c
    requires forall i, j :: n <= i <= j < |fired| ==> fired[i].expire <= fired[j].expire
    ensures var fs := Firings(fired, slot, gen);
      Rising(fs, c) && forall i :: 0 <= i < |fs| ==> n < |fired| && fs[i] <= fired[|fired| - 1].expire
    decreases |fired|
  {
    if n == |fired| {
      assert fired[..n] == fired;
    } else {
      var front := fired[..|fired| - 1];
      assert front[..n] == fired[..n];
      FiringsInOrder(front, n, slot, gen, c);
      var gs, last := Firings(front, slot, gen), fired[|fired| - 1].expire;
      forall i | 0 <= i < |gs|
        ensures gs[i] <= last
      {
        assert front[|front| - 1] == fired[|fired| - 2];
      }
    }
  }

  lemma DoInOrder(m: Sched, op: Op, h: Horizon, cb: Tasks)
    requires Ready(m, h) && TasksFit(cb, h) && OpOk(m, op, h)
    ensures var r := Do(m, op, h, cb); m.fired <= r.fired && m.cur <= r.cur && FiredWithin(m, r, m.cur, r.cur)
  {
    match op
    case Call(a) => ActPart(m, a);
    case Tick(c) => RunToGrows(m, c, h, false, cb, 0);
    case Skip(c) => RunToGrows(m.(now := c), c, h, true, cb, 0);
  }

  /** Over a run firings come in order of expiry, between the first tick processed and the last. */
  lemma {:induction false} RunInOrder(m: Sched, ops: seq<Op>, h: Horizon, cb: Tasks)
    requires Ready(m, h) && TasksFit(cb, h)
    ensures var r := Run(m, ops, h, cb); m.fired <= r.fired && m.cur <= r.cur && FiredWithin(m, r, m.cur, r.cur)
    decreases |ops|
  {
    if ops != [] && OpOk(m, ops[0], h) {
      DoReady(m, ops[0], h, cb);
      DoInOrder(m, ops[0], h, cb);
      RunInOrder(Do(m, ops[0], h, cb), ops[1..], h, cb);
    }
  }

  /** Nobody skips, and neither callers nor tasks cancel with this id. */
  ghost predicate Undisturbed(ops: seq<Op>, cb: Tasks, id: nat) {
    && (forall c :: Skip(c) !in ops) && Call(Cancel(id)) !in ops
    && (forall n: nat, now: nat :: Cancel(id) !in cb(n, now))
  }

  lemma RunTold(m: Sched, ty: nat, delay: u32, period: u32, repeat: u32, r: Sched, id: nat, ops: seq<Op>, h: Horizon, cb: Tasks)
    requires Part(m) && ty < MAX_TYPES && (r, id) == DoSchedule(m, ty, delay, period, repeat) && id != 0
    requires Ready(r, h) && TasksFit(cb, h) && Undisturbed(ops, cb, id)
    ensures m.free != [] && |r.nodes| == |m.nodes| && |r.uses| == |m.uses|
    ensures var t := NewTimer(m, r, ty, period, repeat);
      Told(Run(r, ops, h, cb), t, Firings(r.fired, t.slot, t.gen), true)
  {
    var es := RunEvents(r, ops, h, cb);
    forall i | 0 <= i < |es|
      ensures es[i] != Called(Cancel(id)) && es[i] != Finished(true)
    {
      assert InRun(es[i], ops, cb);
    }
    FiredAsOftenAsAsked(m, ty, delay, period, repeat, r, id, es, true);
  }

  lemma NoneFiredYet(m: Sched, x: nat, gen: nat)
    requires Ledger(m) && x < |m.uses| && gen > m.uses[x]
    ensures Firings(m.fired, x, gen) == []
  {
    forall i | 0 <= i < |m.fired|
      ensures !(m.fired[i].slot == x && m.fired[i].gen == gen)
    {
      assert m.fired[i] in m.armed;
    }
    FiringsNone(m.fired, x, gen);
  }

  /** How far a timer has come when the wheel stands at tick c: it has been fired for every one of
      its times before c, and for no other, and it is pending for the next one, or done. */
  ghost predicate OnSchedule(q: Sched, t: Timer) {
    var fs := Firings(q.fired, t.slot, t.gen);
    && |fs| <= Total(t) && t.slot < |q.uses|
    && (forall j :: 0 <= j < |fs| ==> fs[j] == t.first + j * t.period < q.cur)
    && (if |fs| < Total(t) then t.first + |fs| * t.period >= q.cur && t.slot in q.pend && q.uses[t.slot] == t.gen
        else t.slot in q.free || q.uses[t.slot] > t.gen)
  }

  lemma ToldIsOnSchedule(r: Sched, q: Sched, t: Timer, h: Horizon)
    requires Ready(q, h) && Told(q, t, [], true) && Firings(r.fired, t.slot, t.gen) == []
    requires r.fired <= q.fired && FiredWithin(r, q, r.cur, q.cur)
    requires t.first < 0x1_0000_0000 && t.period < 0x1_0000_0000
    ensures OnSchedule(q, t)
  {
    var fs := Firings(q.fired, t.slot, t.gen);
    assert q.fired[..|r.fired|] == r.fired;
    FiringsInOrder(q.fired, |r.fired|, t.slot, t.gen, q.cur);
    TimesClosed(t, fs, q.cur);
    if |fs| < Total(t) {
      assert Alive(q, t) && t.slot in q.pend;
      assert q.nodes[t.slot].expire == When(t, |fs|) >= q.cur;
      NextClosed(t, fs, q.cur);
    } else {
      assert t.slot in q.pend ==> !Alive(q, t);
      assert t.slot in q.free || q.uses[t.slot] > t.gen;
    }
  }

  ghost predicate Rising(fs: seq<nat>, c: nat) {
    (forall i :: 0 <= i < |fs| ==> fs[i] < c) && forall i, j :: 0 <= i <= j < |fs| ==> fs[i] <= fs[j]
  }

  lemma TimesClosed(t: Timer, fs: seq<nat>, c: nat)
    requires t.first < 0x1_0000_0000 && t.period < 0x1_0000_0000 && Rising(fs, c)
    requires forall j :: 0 <= j < |fs| ==> fs[j] == When(t, j)
    ensures forall j :: 0 <= j < |fs| ==> fs[j] == t.first + j * t.period
  {
    forall j | 0 <= j < |fs|
      ensures fs[j] == t.first + j * t.period
    {
      forall i | 0 < i <= j
        ensures When(t, i - 1) <= When(t, i)
      {
        assert fs[i - 1] <= fs[i];
      }
      WhenClosed(t, j);
    }
  }

  lemma NextClosed(t: Timer, fs: seq<nat>, c: nat)
    requires t.first < 0x1_0000_0000 && t.period < 0x1_0000_0000 && Rising(fs, c) && When(t, |fs|) >= c
    requires forall j :: 0 <= j < |fs| ==> fs[j] == When(t, j)
    ensures When(t, |fs|) == t.first + |fs| * t.period
  {
    forall i | 0 < i <= |fs|
      ensures When(t, i - 1) <= When(t, i)
    {
      assert fs[i - 1] == When(t, i - 1) && fs[i - 1] < c;
      assert i < |fs| ==> fs[i - 1] <= fs[i];
    }
    WhenClosed(t, |fs|);
  }

  /** A timer set delay ticks ahead, or one tick if the delay is 0, with a period and a count, which
      nobody cancels while no SkipTick is made: it is fired at its first tick and then every
      period ticks, at these very ticks, as often as was asked for, and then its node is free. */
  lemma FiresOnSchedule(m: Sched, a: Action, r: Sched, id: nat, ops: seq<Op>, h: Horizon, cb: Tasks)
    requires Ready(m, h) && Books(m) && TasksFit(cb, h) && a.Schedule? && ActionFits(a, m.now, h)
    requires (r, id) == DoSchedule(m, a.ty, a.delay, a.period, a.repeat) && id != 0 && Undisturbed(ops, cb, id)
    ensures Ready(r, h) && m.free != [] && m.free[0] < |r.uses|
    ensures var x := m.free[0]; var first := m.now + (if a.delay == 0 then 1 else a.delay);
      OnSchedule(Run(r, ops, h, cb), Timer(x, r.uses[x], a.ty, first, a.period, a.repeat)) && OnTime(Run(r, ops, h, cb))
  {
    ScheduledBooks(m, a, h);
    NewTimerIs(m, a, r, id);
    var t := NewTimer(m, r, a.ty, a.period, a.repeat);
    RunTold(m, a.ty, a.delay, a.period, a.repeat, r, id, ops, h, cb);
    NoneFiredYet(m, t.slot, t.gen);
    RunInOrder(r, ops, h, cb);
    RunBooks(r, ops, h, cb);
    ToldIsOnSchedule(r, Run(r, ops, h, cb), t, h);
  }

  lemma NewTimerIs(m: Sched, a: Action, r: Sched, id: nat)
    requires Part(m) && a.Schedule? && ActionOk(a) && (r, id) == DoSchedule(m, a.ty, a.delay, a.period, a.repeat) && id != 0
    requires m.now + (if a.delay == 0 then 1 else a.delay) < 0x1_0000_0000
    ensures m.free != [] && |r.nodes| == |m.nodes| && |r.uses| == |m.uses| && m.free[0] < |m.uses|
    ensures NewTimer(m, r, a.ty, a.period, a.repeat)
         == Timer(m.free[0], r.uses[m.free[0]], a.ty, m.now + (if a.delay == 0 then 1 else a.delay), a.period, a.repeat)
    ensures r.fired == m.fired && r.uses[m.free[0]] > m.uses[m.free[0]]
  {
    ScheduleExact(m, a.ty, a.delay, a.period, a.repeat);
  }

  lemma ScheduledBooks(m: Sched, a: Action, h: Horizon)
    requires Ready(m, h) && Books(m) && ActionFits(a, m.now, h)
    ensures Ready(Act(m, a), h) && Books(Act(m, a))
  {
    CallReady(m, a, h);
    ActBooks(m, a);
  }

  // ---------- a timer that is cancelled ----------

  /** Node x, at its use gen, will not be queued again. */
  ghost predicate Doomed(q: Sched, x: nat, gen: nat) {
    x < |q.uses| == |q.nodes| && gen <= q.uses[x]
    && (q.uses[x] == gen ==> x in q.free || (q.run == Some(x) && q.nodes[x].repeat == 0))
  }

  ghost predicate NoMore(q: Sched, r: Sched, x: nat, gen: nat) {
    && Firings(r.fired, x, gen) == Firings(q.fired, x, gen)
    && (forall a: Arm :: a.slot == x && a.gen == gen ==> r.armed[a] == q.armed[a])
  }

  lemma EventDoomed(q: Sched, e: Event, x: nat, gen: nat)
    requires Part(q) && Possible(q, e) && Doomed(q, x, gen)
    ensures Doomed(Happens(q, e), x, gen) && NoMore(q, Happens(q, e), x, gen)
    ensures e.Finished? && q.run == Some(x) && q.uses[x] == gen ==> x in Happens(q, e).free
  {
    match e
    case Called(a) =>
      ActPart(q, a);
      if q.free != [] {
        DistinctTail(q.free);
      }
    case Started(y, now) => FiringsMore(q.fired, ArmOf(q, y), x, gen);
    case Finished(_) =>
    case Clock(_, _) =>
  }

  lemma {:induction false} AfterDoomed(q: Sched, es: seq<Event>, x: nat, gen: nat)
    requires Part(q) && Doomed(q, x, gen)
    ensures Doomed(After(q, es), x, gen) && NoMore(q, After(q, es), x, gen)
    decreases |es|
  {
    if es != [] {
      if Possible(q, es[0]) {
        EventLater(q, es[0]);
        EventDoomed(q, es[0], x, gen);
        AfterDoomed(Happens(q, es[0]), es[1..], x, gen);
      } else {
        AfterDoomed(q, es[1..], x, gen);
      }
    }
  }

  /** After a Cancel that takes effect, of a queued timer or of the one whose task is running, that
      timer is never fired and never queued again, whatever happens; the node of a queued one is
      free at once, that of a running one when its task has ended. */
  lemma CancelledForGood(m: Sched, id: nat, es: seq<Event>)
    requires Part(m) && id != 0 && DoCancel(m, id).1 == 0
    ensures Part(DoCancel(m, id).0) && Resolve(m, id).Some? && Resolve(m, id).value < |m.uses|
    ensures var x := Resolve(m, id).value; var r := DoCancel(m, id).0; var q := After(r, es);
      && NoMore(m, q, x, m.uses[x]) && Doomed(q, x, m.uses[x])
      && (m.run != Some(x) ==> x in r.free)
  {
    CancelPart(m, id);
    var x := Resolve(m, id).value;
    AfterDoomed(DoCancel(m, id).0, es, x, m.uses[x]);
  }
}
