/** What holds over every run of the ideal scheduler: the books balance. Each queueing of a
    timer is fired once, cancelled once, or still pending, and each firing is on time. */
module TimerLedger {
  import opened Sequences
  import opened TimerModel
  import opened TimerLaws
  import TimerId

  // ---------- the books ----------

  ghost function ArmsOf(xs: seq<nat>, nodes: seq<Node>, uses: seq<nat>): multiset<Arm> {
    if xs == [] then multiset{} else
      (if xs[0] < |nodes| && xs[0] < |uses| then multiset{Arm(xs[0], uses[xs[0]], nodes[xs[0]].expire)} else multiset{})
      + ArmsOf(xs[1..], nodes, uses)
  }

  ghost function PendArms(m: Sched): multiset<Arm> {
    ArmsOf(m.pend, m.nodes, m.uses)
  }

  /** The marks of past armings never clash with those still to come. */
  ghost predicate ArmsPast(m: Sched) {
    forall a :: a in m.armed ==>
      m.armed[a] == 1 && a.slot < |m.nodes| == |m.uses| && a.gen <= m.uses[a.slot]
      && (a.gen == m.uses[a.slot] ==> a.expire <= m.nodes[a.slot].expire)
  }

  /** Each firing happened at the tick its arming asked for. */
  ghost predicate OnTime(m: Sched) {
    |m.ticks| == |m.fired| && forall i :: 0 <= i < |m.fired| ==> m.ticks[i] == m.fired[i].expire
  }

  ghost predicate Ledger(m: Sched) {
    && Part(m)
    && m.armed == multiset(m.fired) + m.dropped + PendArms(m)
    && ArmsPast(m)
    && OnTime(m)
  }

  /** How many nodes of a type are in use. */
  ghost function Live(m: Sched, ty: nat): nat {
    |Filter(m.pend, HasType(m.nodes, ty))|
    + if m.run.Some? && m.run.value < |m.nodes| && m.nodes[m.run.value].ty == ty then 1 else 0
  }

  ghost predicate Counted(m: Sched) {
    |m.counts| == MAX_TYPES && forall ty :: 0 <= ty < MAX_TYPES ==> m.counts[ty] == Live(m, ty)
  }

  lemma {:induction false} ArmsAppend(xs: seq<nat>, x: nat, nodes: seq<Node>, uses: seq<nat>)
    requires x < |nodes| == |uses|
    ensures ArmsOf(xs + [x], nodes, uses) == ArmsOf(xs, nodes, uses) + multiset{Arm(x, uses[x], nodes[x].expire)}
  {
    if xs == [] {
      assert xs + [x] == [x];
    } else {
      assert (xs + [x])[1..] == xs[1..] + [x];
      ArmsAppend(xs[1..], x, nodes, uses);
    }
  }

  lemma {:induction false} ArmsRemove(xs: seq<nat>, x: nat, nodes: seq<Node>, uses: seq<nat>)
    requires x in xs && x < |nodes| == |uses|
    ensures ArmsOf(xs, nodes, uses) == ArmsOf(Remove(xs, x), nodes, uses) + multiset{Arm(x, uses[x], nodes[x].expire)}
  {
    if xs[0] != x {
      ArmsRemove(xs[1..], x, nodes, uses);
      assert Remove(xs, x)[1..] == Remove(xs[1..], x);
    }
  }

  lemma {:induction false} ArmsSame(xs: seq<nat>, n1: seq<Node>, u1: seq<nat>, n2: seq<Node>, u2: seq<nat>)
    requires |n1| == |u1| == |n2| == |u2|
    requires forall x :: x in xs && x < |n1| ==> n1[x].expire == n2[x].expire && u1[x] == u2[x]
    ensures ArmsOf(xs, n1, u1) == ArmsOf(xs, n2, u2)
  {
    if xs != [] {
      assert xs[0] in xs && forall x :: x in xs[1..] ==> x in xs;
      ArmsSame(xs[1..], n1, u1, n2, u2);
    }
  }

  /** A pending arming is the present one of a pending node. */
  lemma {:induction false} ArmsMember(xs: seq<nat>, nodes: seq<Node>, uses: seq<nat>, a: Arm)
    requires |nodes| == |uses|
    ensures a in ArmsOf(xs, nodes, uses) <==>
      a.slot in xs && a.slot < |nodes| && a == Arm(a.slot, uses[a.slot], nodes[a.slot].expire)
  {
    if xs != [] {
      assert xs == [xs[0]] + xs[1..];
      ArmsMember(xs[1..], nodes, uses, a);
    }
  }

  /** A new arming, later than all of its node's, joins the past ones. */
  lemma NewArm(m: Sched, r: Sched, a: Arm)
    requires ArmsPast(m) && |m.nodes| == |m.uses| == |r.nodes| == |r.uses|
    requires r.armed == m.armed + multiset{a} && a.slot < |m.nodes|
    requires forall x :: 0 <= x < |m.nodes| && x != a.slot ==> r.nodes[x] == m.nodes[x] && r.uses[x] == m.uses[x]
    requires r.uses[a.slot] == a.gen && r.nodes[a.slot].expire == a.expire
    requires m.uses[a.slot] < a.gen || (m.uses[a.slot] == a.gen && m.nodes[a.slot].expire < a.expire)
    ensures ArmsPast(r)
  {
    assert a !in m.armed;
  }

  // ---------- every operation keeps them ----------

  lemma ScheduleLedger(m: Sched, ty: nat, delay: u32, period: u32, repeat: u32)
    requires Ledger(m) && ty < MAX_TYPES
    ensures Ledger(DoSchedule(m, ty, delay, period, repeat).0)
  {
    SchedulePart(m, ty, delay, period, repeat);
    var r := DoSchedule(m, ty, delay, period, repeat).0;
    if r != m {
      var x := m.free[0];
      assert x in m.free;
      ArmsSame(m.pend, m.nodes, m.uses, r.nodes, r.uses);
      ArmsAppend(m.pend, x, r.nodes, r.uses);
      NewArm(m, r, ArmOf(r, x));
    }
  }

  lemma DropLedger(m: Sched, x: nat)
    requires Ledger(m) && x in m.pend
    ensures Ledger(Drop(m, x))
  {
    DropPart(m, x);
    ArmsRemove(m.pend, x, m.nodes, m.uses);
  }

  lemma ActLedger(m: Sched, a: Action)
    requires Ledger(m) && ActionOk(a)
    ensures Ledger(Act(m, a))
  {
    match a
    case Schedule(ty, delay, period, repeat) => ScheduleLedger(m, ty, delay, period, repeat);
    case Cancel(id) =>
      CancelPart(m, id);
      var r := Resolve(m, id);
      if r.Some? {
        if m.run == r {
          ArmsSame(m.pend, m.nodes, m.uses, Act(m, a).nodes, m.uses);
        } else if r.value in m.pend {
          DropLedger(m, r.value);
        }
      }
  }

  lemma BeginLedger(m: Sched, x: nat, t: nat)
    requires Ledger(m) && m.run == None && x in m.pend && m.nodes[x].expire == t
    ensures Ledger(Begin(m, x, t))
  {
    BeginPart(m, x, t);
    var r := Begin(m, x, t);
    ArmsRemove(m.pend, x, m.nodes, m.uses);
    ArmsSame(r.pend, m.nodes, m.uses, r.nodes, r.uses);
  }

  /** A timer that is queued again gets a later expiry. */
  lemma EndLater(m: Sched, rebase: bool, t: nat, h: Horizon)
    requires Walking(m, t, h) && Jumped(m, rebase, h) && m.run.Some? && m.nodes[m.run.value].repeat != 0
    ensures m.nodes[m.run.value].expire < End(m, rebase).nodes[m.run.value].expire
  {
    EndFits(m, rebase, t, h);
  }

  lemma EndLedger(m: Sched, rebase: bool, t: nat, h: Horizon)
    requires Ledger(m) && Walking(m, t, h) && Jumped(m, rebase, h) && m.run.Some?
    ensures Ledger(End(m, rebase))
  {
    EndPart(m, rebase);
    var r, x := End(m, rebase), m.run.value;
    if m.nodes[x].repeat != 0 {
      ArmsSame(m.pend, m.nodes, m.uses, r.nodes, r.uses);
      ArmsAppend(m.pend, x, r.nodes, r.uses);
      EndLater(m, rebase, t, h);
      NewArm(m, r, ArmOf(r, x));
      assert r.armed == multiset(r.fired) + r.dropped + PendArms(r);
    } else {
      assert PendArms(r) == PendArms(m);
    }
  }

  // ---------- m_timerCount ----------

  lemma LiveSame(m: Sched, nodes: seq<Node>, ty: nat)
    requires forall x :: x in m.pend ==> x < |m.nodes| && x < |nodes| && nodes[x].ty == m.nodes[x].ty
    ensures Filter(m.pend, HasType(m.nodes, ty)) == Filter(m.pend, HasType(nodes, ty))
  {
    FilterSame(m.pend, HasType(m.nodes, ty), HasType(nodes, ty));
  }

  lemma ScheduleCounts(m: Sched, ty: nat, delay: u32, period: u32, repeat: u32)
    requires Part(m) && Counted(m) && ty < MAX_TYPES
    ensures Counted(DoSchedule(m, ty, delay, period, repeat).0)
  {
    var r := DoSchedule(m, ty, delay, period, repeat).0;
    if r != m {
      var x := m.free[0];
      assert x in m.free;
      forall k | 0 <= k < MAX_TYPES
        ensures r.counts[k] == Live(r, k)
      {
        LiveSame(m, r.nodes, k);
        FilterAppend(m.pend, [x], HasType(r.nodes, k));
      }
    }
  }

  /** Taking x out lowers the count of its type by one and no other. */
  lemma RemoveCounts(m: Sched, x: nat, k: nat)
    requires Part(m) && x in m.pend
    ensures |Filter(Remove(m.pend, x), HasType(m.nodes, k))|
         == |Filter(m.pend, HasType(m.nodes, k))| - if m.nodes[x].ty == k then 1 else 0
  {
    FilterRemove(m.pend, x, HasType(m.nodes, k));
    FilterDistinct(m.pend, HasType(m.nodes, k));
    RemoveDistinct(Filter(m.pend, HasType(m.nodes, k)), x);
  }

  lemma DropCounts(m: Sched, x: nat)
    requires Part(m) && Counted(m) && x in m.pend
    ensures Counted(Drop(m, x)) && m.counts[m.nodes[x].ty] > 0
  {
    forall k | 0 <= k < MAX_TYPES
      ensures Drop(m, x).counts[k] == Live(Drop(m, x), k)
    {
      RemoveCounts(m, x, k);
    }
    RemoveCounts(m, x, m.nodes[x].ty);
  }

  /** The counts depend on nothing but which nodes are in use and their types. */
  lemma CountsSame(m: Sched, r: Sched)
    requires Part(m) && Counted(m) && r.pend == m.pend && r.run == m.run && r.counts == m.counts && |r.nodes| == |m.nodes|
    requires forall x :: 0 <= x < |m.nodes| ==> r.nodes[x].ty == m.nodes[x].ty
    ensures Counted(r)
  {
    forall k | 0 <= k < MAX_TYPES
      ensures r.counts[k] == Live(r, k)
    {
      LiveSame(m, r.nodes, k);
    }
  }

  lemma CreateCounted(n: nat)
    requires 0 < n < TimerId.MAX_NODES
    ensures Counted(Create(n))
  {
  }

  lemma ActCounts(m: Sched, a: Action)
    requires Part(m) && Counted(m) && ActionOk(a)
    ensures Counted(Act(m, a))
  {
    match a
    case Schedule(ty, delay, period, repeat) => ScheduleCounts(m, ty, delay, period, repeat);
    case Cancel(id) =>
      var r := Resolve(m, id);
      if r.Some? {
        if m.run == r {
          CountsSame(m, Act(m, a));
        } else if r.value in m.pend {
          DropCounts(m, r.value);
        }
      }
  }

  lemma BeginCounts(m: Sched, x: nat, t: nat)
    requires Part(m) && Counted(m) && m.run == None && x in m.pend
    ensures Counted(Begin(m, x, t))
  {
    var r := Begin(m, x, t);
    BeginPart(m, x, t);
    forall k | 0 <= k < MAX_TYPES
      ensures r.counts[k] == Live(r, k)
    {
      RemoveCounts(m, x, k);
      FilterSame(r.pend, HasType(m.nodes, k), HasType(r.nodes, k));
    }
  }

  /** Freeing the node that ran never meets the clamp of DecTimerCount. */
  lemma EndCounts(m: Sched, rebase: bool)
    requires Part(m) && Counted(m) && m.run.Some?
    ensures Counted(End(m, rebase)) && m.counts[m.nodes[m.run.value].ty] > 0
  {
    var r, x := End(m, rebase), m.run.value;
    forall k | 0 <= k < MAX_TYPES
      ensures r.counts[k] == Live(r, k)
    {
      LiveSame(m, r.nodes, k);
      FilterAppend(m.pend, [x], HasType(r.nodes, k));
    }
  }
}
