/** Whole runs of the ideal scheduler: every timer that falls due is fired exactly once or was
    cancelled first, on its tick and in queueing order, and ids of dead timers do nothing. */
module TimerRuns {
  import opened Sequences
  import opened TimerModel
  import opened TimerLaws
  import opened TimerLedger

  ghost predicate Books(m: Sched) { Ledger(m) && Counted(m) }

  /** From m to r the ledgers only grew, and nothing was queued to expire by lo. */
  ghost predicate Grew(m: Sched, r: Sched, lo: nat) {
    && m.fired <= r.fired && m.dropped <= r.dropped && m.armed <= r.armed
    && forall a: Arm :: a.expire <= lo ==> r.armed[a] == m.armed[a]
  }

  lemma GrewTrans(m: Sched, r: Sched, s: Sched, lo: nat)
    requires Grew(m, r, lo) && Grew(r, s, lo)
    ensures Grew(m, s, lo)
  {
  }

  // ---------- one step ----------

  lemma ActBooks(m: Sched, a: Action)
    requires Books(m) && ActionOk(a)
    ensures Books(Act(m, a))
  {
    ActLedger(m, a);
    ActCounts(m, a);
  }

  lemma ActGrows(m: Sched, a: Action, h: Horizon)
    requires Part(m) && m.now <= h.last && ActionFits(a, m.now, h)
    ensures Grew(m, Act(m, a), m.now)
  {
    assert m.free != [] ==> m.free[0] in m.free;
  }

  lemma {:induction false} ActAllBooks(m: Sched, acts: seq<Action>)
    requires Books(m) && AllOk(acts)
    ensures Books(ActAll(m, acts))
    decreases |acts|
  {
    if acts != [] {
      var m1 := Act(m, acts[0]);
      ActBooks(m, acts[0]);
      ActAllBooks(m1, acts[1..]);
    }
  }

  lemma {:induction false} ActAllGrows(m: Sched, acts: seq<Action>, h: Horizon)
    requires Part(m) && m.now <= h.last && AllFit(acts, m.now, h)
    ensures Grew(m, ActAll(m, acts), m.now)
    decreases |acts|
  {
    if acts != [] {
      var m1 := Act(m, acts[0]);
      ActGrows(m, acts[0], h);
      ActPart(m, acts[0]);
      ActAllGrows(m1, acts[1..], h);
      GrewTrans(m, m1, ActAll(m1, acts[1..]), m.now);
    }
  }

  lemma BeginKeeps(m: Sched, x: nat, t: nat)
    requires Books(m) && m.run == None && x in m.pend && m.nodes[x].expire == t
    ensures Books(Begin(m, x, t))
  {
    BeginLedger(m, x, t);
    BeginCounts(m, x, t);
  }

  lemma EndGrows(m: Sched, rebase: bool, t: nat, h: Horizon, lo: nat)
    requires Walking(m, t, h) && Jumped(m, rebase, h) && m.run.Some? && lo <= m.now && (rebase || lo <= t)
    ensures Grew(m, End(m, rebase), lo)
  {
    if m.nodes[m.run.value].repeat != 0 {
      EndFits(m, rebase, t, h);
    }
  }

  lemma FireOneBooks(m: Sched, t: nat, h: Horizon, rebase: bool, acts: seq<Action>)
    requires Books(m) && Walking(m, t, h) && Jumped(m, rebase, h) && m.run == None && Due(m, t) != [] && AllFit(acts, m.now, h)
    ensures Due(m, t)[0] in m.pend
    ensures Books(FireOne(m, Due(m, t)[0], t, rebase, acts))
  {
    var x := Due(m, t)[0];
    assert x in Due(m, t);
    var m1 := Begin(m, x, t);
    BeginKeeps(m, x, t);
    BeginWalks(m, x, t, h);
    var m2 := ActAll(m1, acts);
    ActAllBooks(m1, acts);
    ActAllWalks(m1, acts, t, h);
    EndLedger(m2, rebase, t, h);
    EndCounts(m2, rebase);
  }

  lemma FireOneGrows(m: Sched, t: nat, h: Horizon, rebase: bool, acts: seq<Action>, lo: nat)
    requires Walking(m, t, h) && Jumped(m, rebase, h) && m.run == None && Due(m, t) != [] && AllFit(acts, m.now, h)
    requires lo <= m.now && (rebase || lo <= t)
    ensures Due(m, t)[0] in m.pend
    ensures var r := FireOne(m, Due(m, t)[0], t, rebase, acts);
      Grew(m, r, lo) && r.now == m.now && r.run == None && r.fired == m.fired + [ArmOf(m, Due(m, t)[0])]
  {
    var x := Due(m, t)[0];
    assert x in Due(m, t);
    var m1 := Begin(m, x, t);
    BeginWalks(m, x, t, h);
    var m2 := ActAll(m1, acts);
    ActAllGrows(m1, acts, h);
    ActAllWalks(m1, acts, t, h);
    EndGrows(m2, rebase, t, h, lo);
    assert Grew(m, m1, lo);
    assert Grew(m1, m2, lo);
    GrewTrans(m, m1, m2, lo);
    GrewTrans(m, m2, End(m2, rebase), lo);
  }

  // ---------- one tick ----------

  function Slots(arms: seq<Arm>): seq<nat> {
    seq(|arms|, i requires 0 <= i < |arms| => arms[i].slot)
  }

  /** The firings from m to a later state r. */
  function NewFired(m: Sched, r: Sched): seq<Arm> {
    if |m.fired| <= |r.fired| then r.fired[|m.fired|..] else []
  }

  /** How often arming a was fired or dropped from m to r. */
  ghost function Settled(m: Sched, r: Sched, a: Arm): int {
    multiset(NewFired(m, r))[a] + (r.dropped - m.dropped)[a]
  }

  lemma {:induction false} FireTickBooks(m: Sched, t: nat, h: Horizon, rebase: bool, cb: Tasks)
    requires Books(m) && Walking(m, t, h) && Jumped(m, rebase, h) && m.run == None && TasksFit(cb, h)
    ensures Books(FireTick(m, t, h, rebase, cb))
    decreases |Due(m, t)|
  {
    var due := Due(m, t);
    if due != [] {
      var acts := cb(|m.fired|, m.now);
      FireOneWalks(m, t, h, rebase, acts);
      FireOneBooks(m, t, h, rebase, acts);
      var m1 := FireOne(m, due[0], t, rebase, acts);
      SubLength(Due(m1, t), due[1..]);
      FireTickBooks(m1, t, h, rebase, cb);
    }
  }

  lemma {:induction false} FireTickGrows(m: Sched, t: nat, h: Horizon, rebase: bool, cb: Tasks, lo: nat)
    requires Walking(m, t, h) && Jumped(m, rebase, h) && m.run == None && TasksFit(cb, h)
    requires lo <= m.now && (rebase || lo <= t)
    ensures Grew(m, FireTick(m, t, h, rebase, cb), lo)
    decreases |Due(m, t)|
  {
    var due := Due(m, t);
    if due != [] {
      var acts := cb(|m.fired|, m.now);
      FireOneWalks(m, t, h, rebase, acts);
      FireOneGrows(m, t, h, rebase, acts, lo);
      var m1 := FireOne(m, due[0], t, rebase, acts);
      SubLength(Due(m1, t), due[1..]);
      FireTickGrows(m1, t, h, rebase, cb, lo);
      GrewTrans(m, m1, FireTick(m1, t, h, rebase, cb), lo);
    }
  }

  /** The firings from m to r are of tick t, and in the order of due. */
  ghost predicate InOrder(m: Sched, r: Sched, t: nat, due: seq<nat>) {
    && m.fired <= r.fired && Sub(Slots(NewFired(m, r)), due)
    && forall a :: a in NewFired(m, r) ==> a.expire == t
  }

  lemma {:induction false} FireTickOrder(m: Sched, t: nat, h: Horizon, rebase: bool, cb: Tasks)
    requires Walking(m, t, h) && Jumped(m, rebase, h) && m.run == None && TasksFit(cb, h)
    ensures InOrder(m, FireTick(m, t, h, rebase, cb), t, Due(m, t))
    decreases |Due(m, t)|
  {
    var due := Due(m, t);
    if due == [] {
      assert NewFired(m, m) == [];
    } else {
      var acts := cb(|m.fired|, m.now);
      FireOneWalks(m, t, h, rebase, acts);
      FireOneGrows(m, t, h, rebase, acts, 0);
      var m1 := FireOne(m, due[0], t, rebase, acts);
      SubLength(Due(m1, t), due[1..]);
      FireTickOrder(m1, t, h, rebase, cb);
      OneMoreInOrder(m, m1, FireTick(m1, t, h, rebase, cb), t, due, Due(m1, t));
    }
  }

  lemma OneMoreInOrder(m: Sched, m1: Sched, r: Sched, t: nat, due: seq<nat>, due1: seq<nat>)
    requires due != [] && due[0] < |m.nodes| && due[0] < |m.uses| && m.nodes[due[0]].expire == t
    requires m1.fired == m.fired + [ArmOf(m, due[0])] && InOrder(m1, r, t, due1) && Sub(due1, due[1..])
    ensures InOrder(m, r, t, due)
  {
    SlotsAfter(m, m1, r, due);
    SubTrans(Slots(NewFired(m1, r)), due1, due[1..]);
    assert Slots(NewFired(m, r))[1..] == Slots(NewFired(m1, r));
  }

  lemma SlotsAfter(m: Sched, m1: Sched, r: Sched, due: seq<nat>)
    requires due != [] && due[0] < |m.nodes| && due[0] < |m.uses|
    requires m1.fired == m.fired + [ArmOf(m, due[0])] && m1.fired <= r.fired
    ensures Slots(NewFired(m, r)) == [due[0]] + Slots(NewFired(m1, r))
    ensures NewFired(m, r) == [ArmOf(m, due[0])] + NewFired(m1, r)
  {
    assert NewFired(m, r) == [ArmOf(m, due[0])] + NewFired(m1, r);
  }

  lemma LedgerAt(m: Sched, a: Arm)
    requires m.armed == multiset(m.fired) + m.dropped + PendArms(m)
    ensures m.armed[a] == multiset(m.fired)[a] + m.dropped[a] + PendArms(m)[a]
  {
  }

  lemma FiredAt(m: Sched, r: Sched, a: Arm)
    requires m.fired <= r.fired
    ensures multiset(r.fired)[a] == multiset(m.fired)[a] + multiset(NewFired(m, r))[a]
  {
    assert r.fired == m.fired + NewFired(m, r);
  }

  /** The books of r against those of m, for one arming. */
  lemma Balance(m: Sched, r: Sched, a: Arm)
    requires m.armed == multiset(m.fired) + m.dropped + PendArms(m)
    requires r.armed == multiset(r.fired) + r.dropped + PendArms(r)
    requires m.fired <= r.fired && m.dropped <= r.dropped && m.armed <= r.armed
    ensures Settled(m, r, a) + PendArms(r)[a] == PendArms(m)[a] + (r.armed - m.armed)[a]
  {
    LedgerAt(m, a);
    LedgerAt(r, a);
    FiredAt(m, r, a);
    Difference(m.armed, r.armed, a);
    Difference(m.dropped, r.dropped, a);
  }

  lemma Difference(x: multiset<Arm>, y: multiset<Arm>, a: Arm)
    requires x <= y
    ensures (y - x)[a] + x[a] == y[a]
  {
  }

  /** Nothing is pending for a tick before c. */
  ghost predicate NoneBefore(m: Sched, c: nat) {
    forall x :: x in m.pend ==> x < |m.nodes| && c <= m.nodes[x].expire
  }

  lemma PendAfter(m: Sched, a: Arm, c: nat)
    requires Part(m) && NoneBefore(m, c)
    ensures a.expire < c ==> PendArms(m)[a] == 0
  {
    ArmsMember(m.pend, m.nodes, m.uses, a);
  }

  lemma NothingDue(m: Sched, t: nat, h: Horizon)
    requires Walking(m, t, h) && Due(m, t) == []
    ensures NoneBefore(m, t + 1)
  {
    forall x | x in m.pend
      ensures t + 1 <= m.nodes[x].expire
    {
      assert x !in Due(m, t);
    }
  }

  /** Of what was newly fired, every arming that had not been queued since was pending before. */
  lemma FiredWasPending(m: Sched, r: Sched, a: Arm)
    requires Ledger(m) && Ledger(r) && m.fired <= r.fired && m.dropped <= r.dropped && m.armed <= r.armed
    requires a in NewFired(m, r) && r.armed[a] == m.armed[a]
    ensures a in PendArms(m) && multiset(NewFired(m, r))[a] == 1
  {
    Balance(m, r, a);
    assert multiset(NewFired(m, r))[a] > 0;
    assert PendArms(m)[a] > 0;
    assert a in m.armed && m.armed[a] == 1;
  }

  /** Processing tick t fires exactly the timers pending for t that no task cancels first: each
      such arming is fired or dropped, once; nothing else is fired; the order is the order in
      which they were queued; and nothing pending is left due. */
  lemma TickFiresWhatIsDue(m: Sched, t: nat, h: Horizon, rebase: bool, cb: Tasks)
    requires Books(m) && Walking(m, t, h) && Jumped(m, rebase, h) && m.run == None && TasksFit(cb, h)
    ensures var r := FireTick(m, t, h, rebase, cb);
      && m.fired <= r.fired && m.dropped <= r.dropped
      && (forall a: Arm :: a.expire == t ==> Settled(m, r, a) == PendArms(m)[a])
      && (forall a :: a in NewFired(m, r) ==> a.expire == t && a in PendArms(m))
      && Sub(Slots(NewFired(m, r)), Due(m, t))
      && NoneBefore(r, t + 1)
  {
    var r := FireTick(m, t, h, rebase, cb);
    FireTickGrows(m, t, h, rebase, cb, t);
    FireTickOrder(m, t, h, rebase, cb);
    FireTickBooks(m, t, h, rebase, cb);
    FireTickWalks(m, t, h, rebase, cb);
    NothingDue(r, t, h);
    TickSettles(m, r, t);
  }

  /** The account of tick t, from the books before and after it. */
  lemma TickSettles(m: Sched, r: Sched, t: nat)
    requires Ledger(m) && Ledger(r) && Grew(m, r, t)
    requires forall a :: a in NewFired(m, r) ==> a.expire == t
    requires NoneBefore(r, t + 1)
    ensures forall a: Arm :: a.expire == t ==> Settled(m, r, a) == PendArms(m)[a]
    ensures forall a :: a in NewFired(m, r) ==> a in PendArms(m)
  {
    forall a: Arm | a.expire == t
      ensures Settled(m, r, a) == PendArms(m)[a]
    {
      Balance(m, r, a);
      PendAfter(r, a, t + 1);
    }
    forall a | a in NewFired(m, r)
      ensures a in PendArms(m)
    {
      FiredWasPending(m, r, a);
    }
  }

  // ---------- catching up ----------

  lemma ClockIrrelevant(m: Sched, r: Sched)
    requires Books(m) && r == m.(now := r.now, cur := r.cur)
    ensures Books(r) && PendArms(r) == PendArms(m)
  {
    assert forall ty :: Live(r, ty) == Live(m, ty);
  }

  lemma TickThenStep(m: Sched, r: Sched, h: Horizon, rebase: bool, cb: Tasks)
    requires Books(m) && Walking(m, m.cur, h) && Jumped(m, rebase, h) && m.run == None && TasksFit(cb, h)
    requires r == FireTick(m, m.cur, h, rebase, cb).(cur := m.cur + 1)
    ensures Books(r)
  {
    FireTickBooks(m, m.cur, h, rebase, cb);
    ClockIrrelevant(FireTick(m, m.cur, h, rebase, cb), r);
  }

  lemma RoundBooks(m: Sched, h: Horizon, rebase: bool, cb: Tasks)
    requires Books(m) && Ready(m, h) && m.cur < h.last && TasksFit(cb, h) && (rebase ==> m.cur <= m.now <= h.skip)
    ensures Books(Round(m, h, rebase, cb))
  {
    ClockedBooks(m, h, rebase);
    TickThenStep(Clocked(m, h, rebase), Round(m, h, rebase, cb), h, rebase, cb);
  }

  lemma ClockedBooks(m: Sched, h: Horizon, rebase: bool)
    requires Books(m) && Ready(m, h) && m.cur < h.last && (rebase ==> m.cur <= m.now <= h.skip)
    ensures Books(Clocked(m, h, rebase))
  {
    ClockIrrelevant(m, Clocked(m, h, rebase));
  }

  lemma RoundGrows(m: Sched, h: Horizon, rebase: bool, cb: Tasks, lo: nat)
    requires Ready(m, h) && m.cur < h.last && TasksFit(cb, h) && (rebase ==> m.cur <= m.now <= h.skip)
    requires lo <= if rebase then m.now else m.cur
    ensures Grew(m, Round(m, h, rebase, cb), lo)
    ensures forall a :: a in NewFired(m, Round(m, h, rebase, cb)) ==> a.expire == m.cur
  {
    var m1 := Clocked(m, h, rebase);
    FireTickGrows(m1, m.cur, h, rebase, cb, lo);
    FireTickOrder(m1, m.cur, h, rebase, cb);
  }

  lemma {:induction false} RunToBooks(m: Sched, c: nat, h: Horizon, rebase: bool, cb: Tasks)
    requires Books(m) && Ready(m, h) && c <= h.last && TasksFit(cb, h) && (rebase && m.cur < c ==> m.now == c <= h.skip)
    ensures Books(RunTo(m, c, h, rebase, cb))
    decreases c - m.cur
  {
    if m.cur < c {
      var m1 := Round(m, h, rebase, cb);
      RoundBooks(m, h, rebase, cb);
      RunToBooks(m1, c, h, rebase, cb);
    }
  }

  /** The firings from m on are on or after lo, before c, and in order of expiry. */
  ghost predicate FiredWithin(m: Sched, r: Sched, lo: nat, c: nat) {
    && (forall i :: |m.fired| <= i < |r.fired| ==> lo <= r.fired[i].expire < c)
    && (forall i, j :: |m.fired| <= i <= j < |r.fired| ==> r.fired[i].expire <= r.fired[j].expire)
  }

  lemma {:induction false} RunToGrows(m: Sched, c: nat, h: Horizon, rebase: bool, cb: Tasks, lo: nat)
    requires Ready(m, h) && c <= h.last && TasksFit(cb, h) && (rebase && m.cur < c ==> m.now == c <= h.skip)
    requires lo <= (if rebase then m.now else m.cur)
    ensures Grew(m, RunTo(m, c, h, rebase, cb), lo) && FiredWithin(m, RunTo(m, c, h, rebase, cb), m.cur, c)
    decreases c - m.cur
  {
    if m.cur < c {
      var m1 := Round(m, h, rebase, cb);
      RoundGrows(m, h, rebase, cb, lo);
      RunToGrows(m1, c, h, rebase, cb, lo);
      GrewTrans(m, m1, RunTo(m1, c, h, rebase, cb), lo);
      FiredJoin(m, m1, RunTo(m1, c, h, rebase, cb), m.cur, c);
    }
  }

  lemma FiredJoin(m: Sched, r: Sched, s: Sched, t: nat, c: nat)
    requires m.fired <= r.fired <= s.fired && t < c
    requires forall a :: a in NewFired(m, r) ==> a.expire == t
    requires FiredWithin(r, s, t + 1, c)
    ensures FiredWithin(m, s, t, c)
  {
    forall i | |m.fired| <= i < |r.fired|
      ensures s.fired[i].expire == t
    {
      assert NewFired(m, r)[i - |m.fired|] == s.fired[i];
    }
  }

  /** Catching up to tick c, by Tick or by SkipTick: of every arming that expires before c, as
      many are fired or dropped as were pending or queued meanwhile; the firings happen on
      their ticks, in order; and nothing pending is left before c. */
  lemma CatchUpFiresWhatIsDue(m: Sched, c: nat, h: Horizon, rebase: bool, cb: Tasks)
    requires Books(m) && Ready(m, h) && m.cur <= c <= h.last && TasksFit(cb, h) && (rebase && m.cur < c ==> m.now == c <= h.skip)
    ensures var r := RunTo(m, c, h, rebase, cb);
      && m.fired <= r.fired && m.dropped <= r.dropped && m.armed <= r.armed && FiredWithin(m, r, m.cur, c)
      && (forall a: Arm :: a.expire < c ==> Settled(m, r, a) == PendArms(m)[a] + (r.armed - m.armed)[a])
      && OnTime(r) && NoneBefore(r, c)
  {
    RunToGrows(m, c, h, rebase, cb, 0);
    RunToBooks(m, c, h, rebase, cb);
    var r := RunTo(m, c, h, rebase, cb);
    forall a: Arm | a.expire < c
      ensures Settled(m, r, a) == PendArms(m)[a] + (r.armed - m.armed)[a]
    {
      Balance(m, r, a);
      PendAfter(r, a, c);
    }
  }

  /** SkipTick fires each timer pending at entry with an expiry before c at most once, exactly
      once unless a task cancels it first, and fires nothing else: repeats and new timers count
      from the tick jumped to. */
  lemma SkipFiresOnlyOldTimers(m: Sched, c: nat, h: Horizon, cb: Tasks)
    requires Books(m) && Ready(m, h) && m.cur < c <= h.last && TasksFit(cb, h) && m.now == c <= h.skip
    ensures var r := RunTo(m, c, h, true, cb);
      && m.fired <= r.fired && m.dropped <= r.dropped
      && (forall a: Arm :: a.expire < c ==> Settled(m, r, a) == PendArms(m)[a])
      && (forall a :: a in NewFired(m, r) ==> a in PendArms(m) && multiset(NewFired(m, r))[a] == 1)
  {
    CatchUpFiresWhatIsDue(m, c, h, true, cb);
    RunToGrows(m, c, h, true, cb, c);
    RunToBooks(m, c, h, true, cb);
    OnlyOld(m, RunTo(m, c, h, true, cb), c);
  }

  lemma OnlyOld(m: Sched, r: Sched, c: nat)
    requires Ledger(m) && Ledger(r) && Grew(m, r, c) && FiredWithin(m, r, m.cur, c)
    ensures forall a :: a in NewFired(m, r) ==> a in PendArms(m) && multiset(NewFired(m, r))[a] == 1
    ensures forall a: Arm :: a.expire < c ==> (r.armed - m.armed)[a] == 0
  {
    forall a | a in NewFired(m, r)
      ensures a in PendArms(m) && multiset(NewFired(m, r))[a] == 1
    {
      var i :| 0 <= i < |NewFired(m, r)| && NewFired(m, r)[i] == a;
      assert r.fired[|m.fired| + i] == a;
      FiredWasPending(m, r, a);
    }
  }
}
