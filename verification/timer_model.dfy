/** The ideal scheduler that the timing wheel stands for.

    It has no buckets, links or iterator: pending timers form one list in the order in which
    they were queued, and processing a tick means looking through that list. Three ledgers
    record every arming of a timer, every firing and every cancellation of a queued timer. */
module TimerModel {
  import opened Sequences
  import ArrayList
  import TimerId

  const U32: nat := TimerId.U32
  const MAX_TYPES: nat := 200

  type u32 = n: nat | n < U32

  /** tagTimerNode without its opaque task data. */
  datatype Node = Node(expire: u32, period: u32, repeat: u32, ty: nat, seqNo: nat)

  /** One queueing of a timer: the node, how often that node has been scheduled, the expiry. */
  datatype Arm = Arm(slot: nat, gen: nat, expire: nat)

  /** What a task may do to the queue while it runs. */
  datatype Action =
    | Schedule(ty: nat, delay: u32, period: u32, repeat: u32)
    | Cancel(id: nat)

  datatype Sched = Sched(
    now: nat,              // the tick that tasks see, framework::s_currentTick
    cur: nat,              // m_currentTick
    nodes: seq<Node>,
    pend: seq<nat>,        // nodes waiting in the queue, earliest queued first
    free: seq<nat>,        // unused nodes, next one to use first
    run: Option<nat>,      // the node whose task is running
    counts: seq<int>,      // m_timerCount
    uses: seq<nat>,        // how often each node has been scheduled
    armed: multiset<Arm>,
    dropped: multiset<Arm>,
    fired: seq<Arm>,
    ticks: seq<nat>)       // the tick at which each firing happened

  function Hash(tick: nat): nat { tick % ArrayList.BUCKETS }

  function ArmOf(m: Sched, x: nat): Arm
    requires x < |m.nodes| && x < |m.uses|
  {
    Arm(x, m.uses[x], m.nodes[x].expire)
  }

  function DueAt(nodes: seq<Node>, t: nat): nat -> bool {
    (x: nat) => x < |nodes| && nodes[x].expire == t
  }

  function HashesTo(nodes: seq<Node>, b: nat): nat -> bool {
    (x: nat) => x < |nodes| && Hash(nodes[x].expire) == b
  }

  function HasType(nodes: seq<Node>, ty: nat): nat -> bool {
    (x: nat) => x < |nodes| && nodes[x].ty == ty
  }

  /** The timers pending for tick t, in queueing order. */
  function Due(m: Sched, t: nat): seq<nat> { Filter(m.pend, DueAt(m.nodes, t)) }

  /** What the bucket b of the wheel has to hold. */
  function Bucket(m: Sched, b: nat): seq<nat> { Filter(m.pend, HashesTo(m.nodes, b)) }

  /** Each node is in exactly one place: pending, free, or running. */
  ghost predicate Part(m: Sched) {
    && 0 < |m.nodes| == |m.uses| < TimerId.MAX_NODES && |m.counts| == MAX_TYPES
    && Distinct(m.pend) && Distinct(m.free)
    && (forall x :: x in m.pend ==> x < |m.nodes| && x !in m.free && m.nodes[x].ty < MAX_TYPES)
    && (forall x :: x in m.free ==> x < |m.nodes|)
    && (m.run.Some? ==> m.run.value < |m.nodes| && m.run.value !in m.pend && m.run.value !in m.free
                        && m.nodes[m.run.value].ty < MAX_TYPES)
    && (forall x :: 0 <= x < |m.nodes| ==> x in m.pend || x in m.free || m.run == Some(x))
    && (forall x :: 0 <= x < |m.nodes| ==> m.nodes[x].seqNo == TimerId.SeqAfter(m.uses[x]))
  }

  // ---------- the operations ----------

  function Max1(delay: nat): nat { if delay == 0 then 1 else delay }

  /** 32-bit addition of a delay or period to a tick. */
  function Expiry(tick: nat, span: nat): u32 { (tick + span) % U32 }

  /** 32-bit decrement. */
  function Less1(n: u32): u32 { if n == 0 then U32 - 1 else n - 1 }

  function Clamped(n: int): int { if 0 >= n then n else n - 1 }

  /** CTimerQueue::Schedule; answers the new state and the timer id, 0 on refusal. */
  function DoSchedule(m: Sched, ty: nat, delay: u32, period: u32, repeat: u32): (r: (Sched, nat))
    requires Part(m) && ty < MAX_TYPES
  {
    if m.free == [] || (period == 0 && repeat > 1) then (m, TimerId.INVALID) else
    var x := m.free[0];
    assert x in m.free;
    var node := Node(Expiry(m.now, Max1(delay)), period, repeat, ty, TimerId.StepSeq(m.nodes[x].seqNo));
    (m.(nodes := m.nodes[x := node],
        pend := m.pend + [x],
        free := m.free[1..],
        counts := m.counts[ty := m.counts[ty] + 1],
        uses := m.uses[x := m.uses[x] + 1],
        armed := m.armed + multiset{Arm(x, m.uses[x] + 1, node.expire)}),
     TimerId.Encode(TimerId.Parts(ty, x + 1, node.seqNo)))
  }

  /** The node an id names, if the id is well formed and carries that node's present marks. */
  function Resolve(m: Sched, id: nat): Option<nat> {
    var (ok, p) := TimerId.Decode(id);
    if id != TimerId.INVALID && ok && p.pos - 1 < |m.nodes|
       && p.seqNo == m.nodes[p.pos - 1].seqNo && p.ty == m.nodes[p.pos - 1].ty
    then Some(p.pos - 1) else None
  }

  /** Taking the pending node x out for good. */
  function Drop(m: Sched, x: nat): Sched
    requires Part(m) && x in m.pend
  {
    m.(pend := Remove(m.pend, x),
       free := [x] + m.free,
       counts := m.counts[m.nodes[x].ty := Clamped(m.counts[m.nodes[x].ty])],
       dropped := m.dropped + multiset{ArmOf(m, x)})
  }

  /** CTimerQueue::Cancel; answers the new state and the value left in the caller's id. */
  function DoCancel(m: Sched, id: nat): (r: (Sched, nat))
    requires Part(m)
  {
    match Resolve(m, id)
    case None => (m, id)
    case Some(x) =>
      if m.run == Some(x) then (m.(nodes := m.nodes[x := m.nodes[x].(repeat := 0)]), TimerId.INVALID)
      else if x in m.pend then (Drop(m, x), TimerId.INVALID)
      else (m, id)
  }

  ghost predicate ActionOk(a: Action) { a.Schedule? ==> a.ty < MAX_TYPES }

  function Act(m: Sched, a: Action): Sched
    requires Part(m) && ActionOk(a)
  {
    match a
    case Schedule(ty, delay, period, repeat) => DoSchedule(m, ty, delay, period, repeat).0
    case Cancel(id) => DoCancel(m, id).0
  }

  /** The node leaves the queue and its task is about to run. */
  function Begin(m: Sched, x: nat, t: nat): Sched
    requires Part(m) && x in m.pend
  {
    var n := m.nodes[x];
    m.(nodes := m.nodes[x := n.(repeat := Less1(n.repeat))],
       pend := Remove(m.pend, x),
       run := Some(x),
       fired := m.fired + [ArmOf(m, x)],
       ticks := m.ticks + [t])
  }

  /** The task is done: the node is queued again or freed. With rebase (SkipTickArray) the next
      expiry counts from the tick jumped to, otherwise (CheckTickArray) from the last expiry. */
  function End(m: Sched, rebase: bool): Sched
    requires Part(m) && m.run.Some?
  {
    var x := m.run.value;
    var n := m.nodes[x];
    if n.repeat != 0 then
      var e := Expiry(if rebase then m.now else n.expire, n.period);
      m.(nodes := m.nodes[x := n.(expire := e)], pend := m.pend + [x], run := None,
         armed := m.armed + multiset{Arm(x, m.uses[x], e)})
    else
      m.(counts := m.counts[n.ty := Clamped(m.counts[n.ty])], free := [x] + m.free, run := None)
  }

  // ---------- the partition survives every operation ----------

  lemma SchedulePart(m: Sched, ty: nat, delay: u32, period: u32, repeat: u32)
    requires Part(m) && ty < MAX_TYPES
    ensures Part(DoSchedule(m, ty, delay, period, repeat).0)
  {
    if !(m.free == [] || (period == 0 && repeat > 1)) {
      var x := m.free[0];
      assert x in m.free;
      TimerId.StepSeqCounts(m.uses[x]);
      DistinctTail(m.free);
    }
  }

  lemma DropPart(m: Sched, x: nat)
    requires Part(m) && x in m.pend
    ensures Part(Drop(m, x))
  {
    RemoveDistinct(m.pend, x);
  }

  lemma CancelPart(m: Sched, id: nat)
    requires Part(m)
    ensures Part(DoCancel(m, id).0)
  {
    var r := Resolve(m, id);
    if r.Some? && r.value in m.pend {
      DropPart(m, r.value);
    }
  }

  lemma ActPart(m: Sched, a: Action)
    requires Part(m) && ActionOk(a)
    ensures Part(Act(m, a)) && |Act(m, a).nodes| == |m.nodes| && Act(m, a).run == m.run
    ensures Act(m, a).cur == m.cur && Act(m, a).now == m.now
    ensures Act(m, a).fired == m.fired && Act(m, a).ticks == m.ticks
  {
    match a
    case Schedule(ty, delay, period, repeat) =>
      SchedulePart(m, ty, delay, period, repeat);
      assert m.free != [] ==> m.free[0] in m.free;
    case Cancel(id) => CancelPart(m, id);
  }

  lemma BeginPart(m: Sched, x: nat, t: nat)
    requires Part(m) && x in m.pend && m.run == None
    ensures Part(Begin(m, x, t))
  {
    RemoveDistinct(m.pend, x);
  }

  lemma EndPart(m: Sched, rebase: bool)
    requires Part(m) && m.run.Some?
    ensures Part(End(m, rebase))
  {
  }
}
