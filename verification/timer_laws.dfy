/** Running the ideal scheduler: firing a tick, catching up over many ticks, and what stays
    true meanwhile. The horizon h is the largest tick a run will see. So that no 32-bit expiry
    wraps, a new timer must expire below 2^32, and a timer that repeats within the horizon must
    have a period that leaves room above it. */
module TimerLaws {
  import opened Sequences
  import opened TimerModel
  import TimerId

  // ---------- firing ----------

  /** What the tasks do: the actions of the n-th task run, given the tick it sees. */
  type Tasks = (nat, nat) -> seq<Action>

  /** How far a run goes: no tick from last on is processed, and no SkipTick goes beyond skip. */
  datatype Horizon = Horizon(last: nat, skip: nat)

  /** A timer that expires at this tick never wraps in a run: it is beyond the run, or has no repeat
      left, or may be queued again from wherever its period may then count: from its expiry, or
      from the tick that a SkipTick is jumping to. */
  ghost predicate PeriodFits(expire: nat, period: nat, repeat: u32, h: Horizon)
    decreases if expire < h.last then h.last - expire else 0, 1
  {
    expire >= h.last || repeat == 1 ||
    (period > 0 && forall base: nat :: base == expire || expire < base <= h.skip ==> RepeatFits(base, period, Less1(repeat), h))
  }

  ghost predicate RepeatFits(base: nat, period: nat, repeat: u32, h: Horizon)
    decreases if base < h.last then h.last - base else 0, 0
  {
    base + period < U32 && (period > 0 && base < h.last ==> PeriodFits(base + period, period, repeat, h))
  }

  /** It is enough that the period leaves room above the horizon. */
  lemma {:induction false} RoomAbove(expire: nat, period: nat, repeat: u32, h: Horizon)
    requires period > 0 && h.last + period < U32 && h.skip <= h.last
    ensures PeriodFits(expire, period, repeat, h)
    decreases if expire < h.last then h.last - expire else 0
  {
    if expire < h.last {
      forall base: nat | base == expire || expire < base <= h.skip
        ensures RepeatFits(base, period, Less1(repeat), h)
      {
        if base < h.last {
          RoomAbove(base + period, period, Less1(repeat), h);
        }
      }
    }
  }

  /** The clock that tasks see when a walk counts periods from it is the target of a SkipTick. */
  ghost predicate Jumped(m: Sched, rebase: bool, h: Horizon) { rebase ==> m.now <= h.skip }

  ghost predicate NodeFits(n: Node, h: Horizon) { PeriodFits(n.expire, n.period, n.repeat, h) }

  /** An action at tick now: a Schedule that its guard lets through does not wrap. */
  ghost predicate ActionFits(a: Action, now: nat, h: Horizon) {
    ActionOk(a) &&
    (a.Schedule? && !(a.period == 0 && a.repeat > 1) ==>
       now + Max1(a.delay) < U32 && PeriodFits(now + Max1(a.delay), a.period, a.repeat, h))
  }

  ghost predicate AllOk(acts: seq<Action>) {
    forall i :: 0 <= i < |acts| ==> ActionOk(acts[i])
  }

  ghost predicate AllFit(acts: seq<Action>, now: nat, h: Horizon)
    ensures AllFit(acts, now, h) ==> AllOk(acts)
  {
    forall i :: 0 <= i < |acts| ==> ActionFits(acts[i], now, h)
  }

  /** Whatever the tasks do, they do it within the horizon. */
  ghost predicate TasksFit(cb: Tasks, h: Horizon) {
    forall n: nat, now: nat :: now <= h.last ==> AllFit(cb(n, now), now, h)
  }

  /** The state between two calls: nothing pending is overdue. */
  ghost predicate Ready(m: Sched, h: Horizon) {
    && Part(m) && m.run == None
    && m.cur <= m.now + 1 && m.now <= h.last && m.cur <= h.last
    && forall x :: x in m.pend ==> m.cur <= m.nodes[x].expire && NodeFits(m.nodes[x], h)
  }

  /** CreateTimerQueue, normal start: all n nodes on the free stack, first node on top. */
  ghost function Create(n: nat): (m: Sched)
    requires 0 < n < TimerId.MAX_NODES
    ensures Part(m) && forall h: Horizon :: Ready(m, h)
  {
    var free := seq(n, i => i);
    assert forall x :: 0 <= x < n ==> x in free by {
      forall x | 0 <= x < n ensures x in free { assert free[x] == x; }
    }
    Sched(0, 0, seq(n, _ => Node(0, 0, 0, 0, 1)), [], free, None, seq(MAX_TYPES, _ => 0),
          seq(n, _ => 0), multiset{}, multiset{}, [], [])
  }

  /** The running timer, its repeat count already lowered, may be queued again. */
  ghost predicate RunFits(n: Node, t: nat, h: Horizon) {
    n.period > 0 && forall base: nat :: base == t || t < base <= h.skip ==> RepeatFits(base, n.period, n.repeat, h)
  }

  /** The state while tick t is being processed. */
  ghost predicate Walking(m: Sched, t: nat, h: Horizon) {
    && Part(m) && m.cur == t <= m.now <= h.last && t < h.last
    && (forall x :: x in m.pend ==> t <= m.nodes[x].expire && NodeFits(m.nodes[x], h))
    && (m.run.Some? ==>
          var n := m.nodes[m.run.value];
          n.expire == t && (n.repeat == 0 || RunFits(n, t, h)))
  }

  ghost function ActAll(m: Sched, acts: seq<Action>): (r: Sched)
    requires Part(m) && AllOk(acts)
    ensures Part(r) && r.run == m.run && |r.nodes| == |m.nodes|
    ensures r.cur == m.cur && r.now == m.now && r.fired == m.fired && r.ticks == m.ticks
    decreases |acts|
  {
    if acts == [] then m else
      ActPart(m, acts[0]);
      ActAll(Act(m, acts[0]), acts[1..])
  }

  /** One firing of node x at tick t, its task performing acts. */
  ghost function FireOne(m: Sched, x: nat, t: nat, rebase: bool, acts: seq<Action>): Sched
    requires Part(m) && m.run == None && x in m.pend && AllOk(acts)
  {
    BeginPart(m, x, t);
    End(ActAll(Begin(m, x, t), acts), rebase)
  }

  lemma ScheduleWalks(m: Sched, ty: nat, delay: u32, period: u32, repeat: u32, t: nat, h: Horizon)
    requires Walking(m, t, h) && ActionFits(Schedule(ty, delay, period, repeat), m.now, h)
    ensures Walking(DoSchedule(m, ty, delay, period, repeat).0, t, h)
  {
    SchedulePart(m, ty, delay, period, repeat);
    if m.free != [] {
      assert m.free[0] in m.free;
    }
  }

  lemma ScheduleNotDue(m: Sched, ty: nat, delay: u32, period: u32, repeat: u32, t: nat, h: Horizon)
    requires Walking(m, t, h) && ActionFits(Schedule(ty, delay, period, repeat), m.now, h)
    ensures Due(DoSchedule(m, ty, delay, period, repeat).0, t) == Due(m, t)
  {
    var r := DoSchedule(m, ty, delay, period, repeat).0;
    if r != m {
      var x := m.free[0];
      assert x in m.free && r.nodes[x].expire > t;
      NotDueAppended(m, r.nodes, x, t);
    }
  }

  lemma NotDueAppended(m: Sched, nodes: seq<Node>, x: nat, t: nat)
    requires |nodes| == |m.nodes| && x < |nodes| && x !in m.pend && nodes[x].expire != t
    requires forall y :: 0 <= y < |nodes| && y != x ==> nodes[y] == m.nodes[y]
    ensures Filter(m.pend + [x], DueAt(nodes, t)) == Due(m, t)
  {
    FilterAppend(m.pend, [x], DueAt(nodes, t));
    FilterSame(m.pend, DueAt(m.nodes, t), DueAt(nodes, t));
    assert Filter([x], DueAt(nodes, t)) == [];
  }

  lemma DropWalks(m: Sched, x: nat, t: nat, h: Horizon)
    requires Walking(m, t, h) && x in m.pend
    ensures Walking(Drop(m, x), t, h)
    ensures Due(Drop(m, x), t) == Remove(Due(m, t), x)
  {
    DropPart(m, x);
    RemoveDistinct(m.pend, x);
    FilterRemove(m.pend, x, DueAt(m.nodes, t));
  }

  lemma ActWalks(m: Sched, a: Action, t: nat, h: Horizon)
    requires Walking(m, t, h) && ActionFits(a, m.now, h)
    ensures Walking(Act(m, a), t, h) && Sub(Due(Act(m, a), t), Due(m, t))
  {
    SubSelf(Due(m, t));
    match a
    case Schedule(ty, delay, period, repeat) =>
      ScheduleWalks(m, ty, delay, period, repeat, t, h);
      ScheduleNotDue(m, ty, delay, period, repeat, t, h);
    case Cancel(id) =>
      CancelPart(m, id);
      var r := Resolve(m, id);
      if r.Some? {
        if m.run == r {
          FilterSame(m.pend, DueAt(m.nodes, t), DueAt(Act(m, a).nodes, t));
        } else if r.value in m.pend {
          DropWalks(m, r.value, t, h);
          SubRemove(Due(m, t), r.value);
        }
      }
  }

  lemma {:induction false} ActAllWalks(m: Sched, acts: seq<Action>, t: nat, h: Horizon)
    requires Walking(m, t, h) && AllFit(acts, m.now, h)
    ensures Walking(ActAll(m, acts), t, h) && Sub(Due(ActAll(m, acts), t), Due(m, t))
    decreases |acts|
  {
    if acts == [] {
      SubSelf(Due(m, t));
    } else {
      var m1 := Act(m, acts[0]);
      ActWalks(m, acts[0], t, h);
      ActAllWalks(m1, acts[1..], t, h);
      SubTrans(Due(ActAll(m1, acts[1..]), t), Due(m1, t), Due(m, t));
    }
  }

  /** The actions from the i-th on. */
  ghost function ActFrom(m: Sched, acts: seq<Action>, i: nat): Sched
    requires Part(m) && AllOk(acts) && i <= |acts|
    decreases |acts| - i
  {
    if i == |acts| then m else
      ActPart(m, acts[i]);
      ActFrom(Act(m, acts[i]), acts, i + 1)
  }

  lemma {:induction false} ActFromAll(m: Sched, acts: seq<Action>, i: nat)
    requires Part(m) && AllOk(acts) && i <= |acts|
    ensures AllOk(acts[i..]) && ActFrom(m, acts, i) == ActAll(m, acts[i..])
    decreases |acts| - i
  {
    if i < |acts| {
      ActPart(m, acts[i]);
      ActFromAll(Act(m, acts[i]), acts, i + 1);
      assert acts[i..][0] == acts[i] && acts[i..][1..] == acts[i + 1..];
    }
  }

  /** The i-th of the actions, and then the rest. */
  lemma ActNext(m: Sched, acts: seq<Action>, i: nat, t: nat, h: Horizon)
    requires Walking(m, t, h) && AllFit(acts, m.now, h) && i < |acts|
    ensures ActionFits(acts[i], m.now, h) && Part(Act(m, acts[i])) && Act(m, acts[i]).now == m.now
    ensures ActFrom(m, acts, i) == ActFrom(Act(m, acts[i]), acts, i + 1)
  {
    assert ActionFits(acts[i], m.now, h);
    ActPart(m, acts[i]);
  }

  lemma BeginWalks(m: Sched, x: nat, t: nat, h: Horizon)
    requires Walking(m, t, h) && m.run == None && x in m.pend && m.nodes[x].expire == t
    ensures Walking(Begin(m, x, t), t, h) && Due(Begin(m, x, t), t) == Remove(Due(m, t), x)
  {
    BeginPart(m, x, t);
    RemoveDistinct(m.pend, x);
    var r := Begin(m, x, t);
    FilterRemove(m.pend, x, DueAt(r.nodes, t));
    FilterSame(m.pend, DueAt(m.nodes, t), DueAt(r.nodes, t));
  }

  /** A timer queued again expires later than the tick its period counts from, without wrapping. */
  lemma EndFits(m: Sched, rebase: bool, t: nat, h: Horizon)
    requires Walking(m, t, h) && Jumped(m, rebase, h) && m.run.Some? && m.nodes[m.run.value].repeat != 0
    ensures var x := m.run.value; var base := if rebase then m.now else m.nodes[x].expire; var n := End(m, rebase).nodes[x];
      t <= base < n.expire == base + n.period && NodeFits(n, h)
  {
    var x := m.run.value;
    var base := if rebase then m.now else m.nodes[x].expire;
    assert RepeatFits(base, m.nodes[x].period, m.nodes[x].repeat, h);
  }

  lemma EndWalks(m: Sched, rebase: bool, t: nat, h: Horizon)
    requires Walking(m, t, h) && Jumped(m, rebase, h) && m.run.Some?
    ensures Walking(End(m, rebase), t, h)
  {
    EndPart(m, rebase);
    if m.nodes[m.run.value].repeat != 0 {
      EndFits(m, rebase, t, h);
    }
  }

  lemma EndNotDue(m: Sched, rebase: bool, t: nat, h: Horizon)
    requires Walking(m, t, h) && Jumped(m, rebase, h) && m.run.Some?
    ensures Due(End(m, rebase), t) == Due(m, t)
  {
    var r, x := End(m, rebase), m.run.value;
    if m.nodes[x].repeat != 0 {
      EndFits(m, rebase, t, h);
      NotDueAppended(m, r.nodes, x, t);
    }
  }

  lemma FireOneWalks(m: Sched, t: nat, h: Horizon, rebase: bool, acts: seq<Action>)
    requires Walking(m, t, h) && Jumped(m, rebase, h) && m.run == None && Due(m, t) != []
    requires AllFit(acts, m.now, h)
    ensures Due(m, t)[0] in m.pend && m.nodes[Due(m, t)[0]].expire == t
    ensures Walking(FireOne(m, Due(m, t)[0], t, rebase, acts), t, h)
    ensures Sub(Due(FireOne(m, Due(m, t)[0], t, rebase, acts), t), Due(m, t)[1..])
  {
    var x := Due(m, t)[0];
    assert x in Due(m, t);
    BeginWalks(m, x, t, h);
    var m1 := Begin(m, x, t);
    ActAllWalks(m1, acts, t, h);
    EndWalks(ActAll(m1, acts), rebase, t, h);
    EndNotDue(ActAll(m1, acts), rebase, t, h);
  }

  /** Processing tick t: as long as something pending is due at t, fire the one queued first. */
  ghost function FireTick(m: Sched, t: nat, h: Horizon, rebase: bool, cb: Tasks): Sched
    requires Walking(m, t, h) && Jumped(m, rebase, h) && m.run == None && TasksFit(cb, h)
    decreases |Due(m, t)|
  {
    var due := Due(m, t);
    if due == [] then m else
      var acts := cb(|m.fired|, m.now);
      FireOneWalks(m, t, h, rebase, acts);
      var m1 := FireOne(m, due[0], t, rebase, acts);
      SubLength(Due(m1, t), due[1..]);
      FireTick(m1, t, h, rebase, cb)
  }

  lemma {:induction false} FireTickWalks(m: Sched, t: nat, h: Horizon, rebase: bool, cb: Tasks)
    requires Walking(m, t, h) && Jumped(m, rebase, h) && m.run == None && TasksFit(cb, h)
    ensures Walking(FireTick(m, t, h, rebase, cb), t, h)
    ensures FireTick(m, t, h, rebase, cb).run == None
    ensures FireTick(m, t, h, rebase, cb).now == m.now
    ensures Due(FireTick(m, t, h, rebase, cb), t) == []
    decreases |Due(m, t)|
  {
    var due := Due(m, t);
    if due != [] {
      var acts := cb(|m.fired|, m.now);
      FireOneWalks(m, t, h, rebase, acts);
      var m1 := FireOne(m, due[0], t, rebase, acts);
      SubLength(Due(m1, t), due[1..]);
      FireTickWalks(m1, t, h, rebase, cb);
    }
  }

  /** Setting the tasks' clock for the tick about to be processed. */
  ghost function Clocked(m: Sched, h: Horizon, rebase: bool): (r: Sched)
    requires Ready(m, h) && m.cur < h.last && (rebase ==> m.cur <= m.now <= h.skip)
    ensures Walking(r, m.cur, h) && Jumped(r, rebase, h) && r.run == None && r == m.(now := r.now)
  {
    m.(now := if rebase then m.now else m.cur)
  }

  lemma TickDone(m: Sched, t: nat, h: Horizon)
    requires Walking(m, t, h) && m.run == None && Due(m, t) == [] && t < h.last
    ensures Ready(m.(cur := t + 1), h)
  {
    forall x | x in m.pend
      ensures t + 1 <= m.nodes[x].expire
    {
      assert x !in Due(m, t);
    }
  }

  /** One round of the loop of Tick (rebase false) or of SkipTick (rebase true). */
  ghost function Round(m: Sched, h: Horizon, rebase: bool, cb: Tasks): (r: Sched)
    requires Ready(m, h) && m.cur < h.last && TasksFit(cb, h) && (rebase ==> m.cur <= m.now <= h.skip)
    ensures Ready(r, h) && r.cur == m.cur + 1 && r.now == if rebase then m.now else m.cur
  {
    var m1 := Clocked(m, h, rebase);
    FireTickWalks(m1, m.cur, h, rebase, cb);
    var m2 := FireTick(m1, m.cur, h, rebase, cb);
    TickDone(m2, m.cur, h);
    m2.(cur := m.cur + 1)
  }

  /** The whole loop: process every tick below c. */
  ghost function RunTo(m: Sched, c: nat, h: Horizon, rebase: bool, cb: Tasks): (r: Sched)
    requires Ready(m, h) && c <= h.last && TasksFit(cb, h)
    requires rebase && m.cur < c ==> m.now == c <= h.skip
    ensures Ready(r, h) && r.cur == (if m.cur < c then c else m.cur)
    ensures r.now == if m.cur >= c || rebase then m.now else c - 1
    decreases c - m.cur
  {
    if m.cur >= c then m else RunTo(Round(m, h, rebase, cb), c, h, rebase, cb)
  }
}
