/** CTimerQueue of timer_queue.cc: the hashed timing wheel, updated in place.

    The ghost field m is the ideal scheduler the queue stands for; every method is proved to
    take it from one ideal state to the next. What task code does when it runs is given by the
    constant field tasks: the actions of the n-th task run, whatever they may be. */
module TimerQueue {
  import opened Sequences
  import opened ArrayList
  import opened TimerModel
  import opened TimerLaws
  import opened TimerLedger
  import opened TimerWheel
  import TimerId

  const NO_ITERATOR: int := -1

  /** The array holds the elements of the sequence. */
  ghost predicate Same<T>(a: array<T>, s: seq<T>)
    reads a
  {
    a.Length == |s| && forall i :: 0 <= i < a.Length ==> a[i] == s[i]
  }

  datatype RunFlag = QuitAfterKickAllUser | QuitCoredump

  /** How many nodes DoBadTimeList looks at before it gives up. */
  const MAX_REPAIR_STEPS: nat := 10000

  class CTimerQueue {
    const links: array<Cell>       // the list heads m_bucket, then the links of m_nodeBase
    const data: array<Node>        // m_data of m_nodeBase
    const timerCount: array<int>
    const count: nat
    const tasks: Tasks
    var taskRuns: nat
    var runFlags: set<RunFlag>     // the flags of m_runFlag that the queue may raise
    var top: int                   // m_freeList
    var tickIterator: int          // the cell under m_tickIterator
    var currentTick: nat
    var now: nat                   // framework::s_currentTick
    ghost var m: Sched

    ghost predicate Valid()
      reads this, links, data, timerCount
    {
      && Part(m) && Counted(m) && Links(links[..], top, m)
      && Same(data, m.nodes) && Same(timerCount, m.counts) && count == |m.nodes|
      && now == m.now && currentTick == m.cur && taskRuns == |m.fired|
    }

    /** CreateTimerQueue, normal start, with count nodes. */
    constructor (count: nat, tasks: Tasks)
      requires 0 < count < TimerId.MAX_NODES
      ensures Valid() && m == Create(count) && this.tasks == tasks
      ensures fresh(links) && fresh(data) && fresh(timerCount)
    {
      this.count := count;
      this.tasks := tasks;
      taskRuns := 0;
      runFlags := {};
      tickIterator := NO_ITERATOR;
      currentTick, now := 0, 0;
      links := new Cell[BUCKETS + count](_ => Cell(0, 0));
      data := new Node[count](_ => Node(0, 0, 0, 0, 1));
      timerCount := new int[MAX_TYPES](_ => 0);
      m := Create(count);
      CreateCounted(count);
      new;
      top := Reset(links, count);
      var b := 0;
      while b < BUCKETS
        invariant 0 <= b <= BUCKETS
        invariant Stack(links[..], top, m.free)
        invariant forall k :: 0 <= k < b ==> Ring(links[..], k, [])
        invariant m == Create(count) && Same(data, m.nodes) && Same(timerCount, m.counts)
        invariant taskRuns == 0 && currentTick == now == 0
      {
        ghost var l := links[..];
        Init(links, b);
        StackFrame(l, links[..], top, m.free);
        forall k | 0 <= k < b
          ensures Ring(links[..], k, [])
        {
          RingFrame(l, links[..], k, []);
        }
        b := b + 1;
      }
    }

    /** Links node x into the bucket of its expiry, taking the links from those of m0, less x,
        to those of m2. */
    method PushOnBucket(x: nat, ghost m0: Sched, ghost m2: Sched)
      requires Part(m0) && Same(data, m2.nodes) && links.Length == BUCKETS + |m0.nodes|
      requires Wheel(links[..], m0) && Stack(links[..], top, m2.free) && Queued(m0, m2, x)
      requires m0.run.Some? ==> links[NodeCell(m0.run.value)] == Cell(ORPHAN, ORPHAN)
      modifies links
      ensures Links(links[..], top, m2)
    {
      ghost var l0 := links[..];
      var b := Hash(data[x].expire);
      BucketDistinct(m0, b);
      PushBack(links, b, x, Bucket(m0, b));
      LinksPush(l0, links[..], top, m0, m2, x, b);
    }

    /** Schedule: the new timer, or id 0 on refusal, as the ideal scheduler has it. */
    method Schedule(ty: nat, delay: u32, period: u32, repeat: u32) returns (id: nat)
      requires Valid() && ty < MAX_TYPES
      modifies this`top, this`m, links, data, timerCount
      ensures Valid() && (m, id) == DoSchedule(old(m), ty, delay, period, repeat)
    {
      if top == TAIL || (period == 0 && repeat > 1) {
        return TimerId.INVALID;
      }
      var d := Max1(delay);
      ghost var m0, m2 := m, DoSchedule(m, ty, delay, period, repeat).0;
      var x: nat := top;
      ScheduleFields(m0, ty, delay, period, repeat, d, x);
      ScheduleQueues(m0, ty, delay, period, repeat);
      SchedulePart(m0, ty, delay, period, repeat);
      ScheduleCounts(m0, ty, delay, period, repeat);
      top := Pop(links, top, m0.free);
      id := FillNode(x, ty, Expiry(now, d), period, repeat);
      m := m2;
      PushOnBucket(x, m0, m2);
    }

    /** The part of Schedule that writes the node's data and counts it. */
    method FillNode(x: nat, ty: nat, expire: u32, period: u32, repeat: u32) returns (id: nat)
      requires x < data.Length && ty < timerCount.Length
      modifies data, timerCount
      ensures data[x] == Node(expire, period, repeat, ty, TimerId.StepSeq(old(data[x].seqNo)))
      ensures forall k :: 0 <= k < data.Length && k != x ==> data[k] == old(data[k])
      ensures timerCount[ty] == old(timerCount[ty]) + 1
      ensures forall k :: 0 <= k < timerCount.Length && k != ty ==> timerCount[k] == old(timerCount[k])
      ensures id == TimerId.Encode(TimerId.Parts(ty, x + 1, TimerId.StepSeq(old(data[x].seqNo))))
    {
      data[x] := Node(expire, period, repeat, ty, TimerId.StepSeq(data[x].seqNo));
      id := TimerId.Encode(TimerId.Parts(data[x].ty, x + 1, data[x].seqNo));
      AddTimerCount(ty);
    }

    /** Unlinks the pending node x from its bucket; answers the cell that followed it. */
    method Unlink(x: nat, ghost m0: Sched, ghost m2: Sched) returns (next: nat)
      requires Part(m0) && Links(links[..], top, m0) && Unqueued(m0, m2, x)
      requires x < data.Length && data[x].expire == m0.nodes[x].expire
      modifies links
      ensures Links(links[..], top, m2) && links[NodeCell(x)] == Cell(ORPHAN, ORPHAN)
      ensures next == Stepped(m0, x, NodeCell(x))
    {
      ghost var l0, b := links[..], Hash(m0.nodes[x].expire);
      ghost var ring := Bucket(m0, b);
      BucketDistinct(m0, b);
      BucketOf(m0, x);
      ghost var i :| 0 <= i < |ring| && ring[i] == x;
      next := Erase(links, x, b, ring, i);
      SteppedTo(m0, x, NodeCell(x), i);
      LinksErase(l0, links[..], top, m0, m2, x, b, i);
    }

    /** Puts the orphan x on the free stack. */
    method Release(x: nat, ghost m0: Sched, ghost m2: Sched)
      requires |links[..]| == BUCKETS + |m0.nodes| && Wheel(links[..], m0) && Stack(links[..], top, m0.free)
      requires x < |m0.nodes| && x !in m0.pend && x !in m0.free && links[NodeCell(x)] == Cell(ORPHAN, ORPHAN)
      requires forall y :: y in m0.pend ==> y < |m0.nodes|
      requires m2.pend == m0.pend && m2.nodes == m0.nodes && m2.free == [x] + m0.free && m2.run != Some(x)
      requires m2.run.Some? ==> m2.run.value < |m0.nodes| && links[NodeCell(m2.run.value)] == Cell(ORPHAN, ORPHAN)
      modifies links, this`top
      ensures Links(links[..], top, m2)
    {
      ghost var l0 := links[..];
      top := Push(links, top, x, m0.free);
      LinksFree(l0, links[..], top, m0, m2, x);
    }

    /** Cancel: what becomes of the caller's id is the result. The iterator moves on if the node
        under it goes away. */
    method Cancel(id: nat) returns (r: nat)
      requires Valid()
      modifies this`top, this`m, this`tickIterator, links, data, timerCount
      ensures Valid() && (m, r) == DoCancel(old(m), id)
      ensures tickIterator == AfterCancel(old(m), id, old(tickIterator))
    {
      var found := Find(id);
      if found == None {
        return id;
      }
      var x := found.value;
      FlagsTell(links[..], top, m, x);
      if links[NodeCell(x)].next == ORPHAN {
        CancelRunning(x);
      } else if links[NodeCell(x)].next != IDLE {
        CancelPending(x);
      } else {
        return id;
      }
      return TimerId.INVALID;
    }

    /** The checks that Cancel makes on an id, and the node it names if it passes them. */
    method Find(id: nat) returns (found: Option<nat>)
      requires Valid()
      ensures found == Resolve(m, id)
    {
      if id == TimerId.INVALID {
        return None;
      }
      var (ok, p) := TimerId.Decode(id);
      if !ok || p.pos - 1 >= count {
        return None;
      }
      var x := p.pos - 1;
      if p.seqNo != data[x].seqNo || p.ty != data[x].ty {
        return None;
      }
      return Some(x);
    }

    /** The branch of Cancel for the node whose task is running: it will not be queued again. */
    method CancelRunning(x: nat)
      requires Valid() && m.run == Some(x)
      modifies this`m, data
      ensures Valid() && m == old(m).(nodes := old(m).nodes[x := old(m).nodes[x].(repeat := 0)])
    {
      ghost var m0 := m;
      data[x] := data[x].(repeat := 0);
      m := m.(nodes := m.nodes[x := m.nodes[x].(repeat := 0)]);
      WheelSame(links[..], m0, m);
      CountsSame(m0, m);
    }

    /** The branch of Cancel for a node that is queued. */
    method CancelPending(x: nat)
      requires Valid() && x in m.pend
      modifies this`top, this`m, this`tickIterator, links, timerCount
      ensures Valid() && m == Drop(old(m), x) && tickIterator == Stepped(old(m), x, old(tickIterator))
    {
      ghost var m2 := Drop(m, x);
      DropPart(m, x);
      DropCounts(m, x);
      TakeOut(x, m, m2);
      assert timerCount[data[x].ty] > 0;
      DecTimerCount(data[x].ty);
      m := m2;
    }

    /** The pending node x goes to the free stack, and the iterator, if it stands there, moves on. */
    method TakeOut(x: nat, ghost m0: Sched, ghost m2: Sched)
      requires Part(m0) && Links(links[..], top, m0) && x in m0.pend && m2 == Drop(m0, x)
      requires x < data.Length && data[x].expire == m0.nodes[x].expire
      modifies this`top, this`tickIterator, links
      ensures Links(links[..], top, m2) && tickIterator == Stepped(m0, x, old(tickIterator))
    {
      ghost var m1 := m0.(pend := Remove(m0.pend, x));
      RemoveDistinct(m0.pend, x);
      var next := Unlink(x, m0, m1);
      if tickIterator == NodeCell(x) {
        tickIterator := next;
      }
      Release(x, m1, m2);
    }

    /** RunTask: the task performs its actions on the queue. */
    method RunTask(acts: seq<Action>, ghost pos: nat, ghost t: nat, ghost h: Horizon)
      requires Valid() && Walking(m, t, h) && AllFit(acts, m.now, h) && pos < BUCKETS && Stands(m, pos, t, tickIterator)
      modifies this`top, this`m, this`tickIterator, links, data, timerCount
      ensures Valid() && m == ActAll(old(m), acts) && Walking(m, t, h) && Stands(m, pos, t, tickIterator)
    {
      var i := 0;
      ActFromAll(m, acts, 0);
      assert acts[0..] == acts;
      while i < |acts|
        invariant 0 <= i <= |acts| && AllFit(acts, m.now, h)
        invariant Valid() && Walking(m, t, h) && Stands(m, pos, t, tickIterator)
        invariant ActAll(old(m), acts) == ActFrom(m, acts, i)
      {
        ActNext(m, acts, i, t, h);
        RunAction(acts[i], pos, t, h);
        i := i + 1;
      }
    }

    /** One call of the task on the queue. */
    method RunAction(a: Action, ghost pos: nat, ghost t: nat, ghost h: Horizon)
      requires Valid() && Walking(m, t, h) && ActionFits(a, m.now, h) && pos < BUCKETS && Stands(m, pos, t, tickIterator)
      modifies this`top, this`m, this`tickIterator, links, data, timerCount
      ensures Valid() && Walking(m, t, h) && m == Act(old(m), a) && Stands(m, pos, t, tickIterator)
    {
      ghost var m0, it0 := m, tickIterator;
      ActWalks(m, a, t, h);
      match a {
        case Schedule(ty, delay, period, repeat) => var _ := Schedule(ty, delay, period, repeat);
        case Cancel(id) => var _ := Cancel(id);
      }
      StandsAct(m0, a, pos, t, h, it0);
    }

    /** The end of a firing: the node is queued again or freed. */
    method FinishNode(x: nat, rebase: bool)
      requires Valid() && m.run == Some(x)
      modifies this`top, this`m, links, data, timerCount
      ensures Valid() && m == End(old(m), rebase)
    {
      ghost var m0, m2 := m, End(m, rebase);
      EndPart(m0, rebase);
      EndCounts(m0, rebase);
      if data[x].repeat != 0 {
        EndQueues(m0, rebase);
        data[x] := data[x].(expire := Expiry(if rebase then now else data[x].expire, data[x].period));
        m := m2;
        PushOnBucket(x, m0, m2);
      } else {
        FreeNode(x, m2);
      }
    }

    /** The branch of the end of a firing for a timer that has no repeats left. */
    method FreeNode(x: nat, ghost m2: Sched)
      requires Valid() && m.run == Some(x) && m.nodes[x].repeat == 0 && m2 == End(m, false)
      modifies this`top, this`m, links, timerCount
      ensures Valid() && m == m2
    {
      ghost var m0 := m;
      EndPart(m0, false);
      EndCounts(m0, false);
      assert timerCount[data[x].ty] > 0;
      DecTimerCount(data[x].ty);
      m := m2;
      Release(x, m0, m2);
    }

    /** The start of a firing: the node under the iterator leaves its bucket. */
    method StartNode(x: nat, ghost t: nat)
      requires Valid() && m.run == None && x in m.pend && tickIterator == NodeCell(x)
      modifies this`m, this`tickIterator, this`taskRuns, links, data
      ensures Valid() && m == Begin(old(m), x, t) && tickIterator == Stepped(old(m), x, old(tickIterator))
    {
      ghost var m0, m2 := m, Begin(m, x, t);
      BeginPart(m0, x, t);
      BeginCounts(m0, x, t);
      RemoveDistinct(m0.pend, x);
      data[x] := data[x].(repeat := Less1(data[x].repeat));
      tickIterator := Unlink(x, m0, m2);
      taskRuns := taskRuns + 1;
      m := m2;
    }

    /** What CheckTickArray and SkipTickArray do with a node that is due. */
    method FireNode(x: nat, rebase: bool, ghost pos: nat, ghost t: nat, ghost h: Horizon)
      requires Valid() && Walking(m, t, h) && Jumped(m, rebase, h) && m.run == None && TasksFit(tasks, h) && pos < BUCKETS
      requires x in m.pend && m.nodes[x].expire == t && tickIterator == NodeCell(x) && Stands(m, pos, t, tickIterator)
      modifies this`top, this`m, this`tickIterator, this`taskRuns, links, data, timerCount
      ensures Valid() && Stands(m, pos, t, tickIterator)
      ensures m == FireOne(old(m), x, t, rebase, tasks(|old(m).fired|, old(m).now))
    {
      var acts := tasks(taskRuns, now);
      StartTask(x, acts, pos, t, h);
      StandsEnd(m, rebase, pos, t, h, tickIterator);
      FinishNode(x, rebase);
    }

    /** The node leaves its bucket and its task runs. */
    method StartTask(x: nat, acts: seq<Action>, ghost pos: nat, ghost t: nat, ghost h: Horizon)
      requires Valid() && Walking(m, t, h) && m.run == None && AllFit(acts, m.now, h) && pos < BUCKETS
      requires x in m.pend && m.nodes[x].expire == t && tickIterator == NodeCell(x) && Stands(m, pos, t, tickIterator)
      modifies this`top, this`m, this`tickIterator, this`taskRuns, links, data, timerCount
      ensures Valid() && Walking(m, t, h) && Stands(m, pos, t, tickIterator)
      ensures Part(Begin(old(m), x, t)) && m == ActAll(Begin(old(m), x, t), acts) && m.run == Some(x) && m.now == old(m).now
    {
      BeginStands(m, x, pos, t, h);
      StartNode(x, t);
      RunTask(acts, pos, t, h);
    }

    /** The node under the iterator is due: fire it. */
    method FireHere(rebase: bool, ghost pos: nat, ghost t: nat, ghost h: Horizon, ghost j: nat) returns (ghost k: nat)
      requires Valid() && Walking(m, t, h) && Jumped(m, rebase, h) && m.run == None && TasksFit(tasks, h) && pos == Hash(t)
      requires StandsAt(m, pos, t, tickIterator, j) && tickIterator != pos
      requires BUCKETS <= tickIterator < links.Length && t >= data[tickIterator - BUCKETS].expire
      modifies this`top, this`m, this`tickIterator, this`taskRuns, links, data, timerCount
      ensures Valid() && Walking(m, t, h) && m.now == old(m).now && m.run == None && StandsAt(m, pos, t, tickIterator, k)
      ensures |Due(m, t)| < |Due(old(m), t)| && |m.fired| == |old(m).fired| + 1
      ensures FireTick(m, t, h, rebase, tasks) == FireTick(old(m), t, h, rebase, tasks)
    {
      ScanNode(links[..], m, t, h, tickIterator, j);
      var x: nat := tickIterator - BUCKETS;
      ScanFires(m, x, t, h, rebase, tasks, tickIterator, j);
      FireNode(x, rebase, pos, t, h);
      k :| StandsAt(m, pos, t, tickIterator, k);
    }

    /** m_tickIterator = m_bucket[pos].begin(). */
    method StartWalk(pos: nat, ghost t: nat)
      requires Valid() && pos == Hash(t)
      modifies this`tickIterator
      ensures Valid() && StandsAt(m, pos, t, tickIterator, 0)
    {
      ScanEnds(links[..], m, t);
      tickIterator := CellAt(pos, links[pos].next);
    }

    /** ++m_tickIterator, past a node that is not due; it never stays where it was. */
    method Advance(ghost pos: nat, ghost t: nat, ghost h: Horizon, ghost j: nat)
      requires Valid() && Walking(m, t, h) && pos == Hash(t) && StandsAt(m, pos, t, tickIterator, j) && tickIterator != pos
      requires BUCKETS <= tickIterator < links.Length && !(t >= data[tickIterator - BUCKETS].expire)
      modifies this`tickIterator
      ensures Valid() && j < |Bucket(m, pos)| && StandsAt(m, pos, t, tickIterator, j + 1)
      ensures tickIterator != old(tickIterator)
    {
      ScanNode(links[..], m, t, h, tickIterator, j);
      tickIterator := CellAt(tickIterator, links[tickIterator].next);
    }

    /** CheckTickArray: walks the bucket of a tick while tasks may change it. The iterator test
        for a node linked to itself never succeeds, so DoBadTimeList is not called. */
    method CheckTickArray(tick: nat, pos: nat, ghost h: Horizon) returns (fired: nat)
      requires Valid() && Walking(m, tick, h) && m.run == None && TasksFit(tasks, h) && pos == Hash(tick)
      modifies this`top, this`m, this`tickIterator, this`taskRuns, links, data, timerCount
      ensures Valid() && m == FireTick(old(m), tick, h, false, tasks) && tickIterator == pos
      ensures fired + |old(m).fired| == |m.fired|
    {
      fired := 0;
      StartWalk(pos, tick);
      ghost var j: nat := 0;
      while tickIterator != pos
        invariant Valid() && Walking(m, tick, h) && m.run == None && StandsAt(m, pos, tick, tickIterator, j)
        invariant FireTick(m, tick, h, false, tasks) == FireTick(old(m), tick, h, false, tasks)
        invariant fired + |old(m).fired| == |m.fired|
        decreases |Due(m, tick)|, |Bucket(m, pos)| - j
      {
        ScanNode(links[..], m, tick, h, tickIterator, j);
        if tick >= data[tickIterator - BUCKETS].expire {
          fired := fired + 1;
          j := FireHere(false, pos, tick, h, j);
        } else {
          var oldIterator := tickIterator;
          Advance(pos, tick, h, j);
          if oldIterator == tickIterator && tickIterator != pos {
            assert false;
          }
          j := j + 1;
        }
      }
      ScanEnds(links[..], m, tick);
    }

    /** SkipTickArray: the same walk, with repeats counted from the tasks' clock. */
    method SkipTickArray(tick: nat, pos: nat, ghost h: Horizon) returns (fired: nat)
      requires Valid() && Walking(m, tick, h) && Jumped(m, true, h) && m.run == None && TasksFit(tasks, h) && pos == Hash(tick)
      modifies this`top, this`m, this`tickIterator, this`taskRuns, links, data, timerCount
      ensures Valid() && m == FireTick(old(m), tick, h, true, tasks) && tickIterator == pos
      ensures fired + |old(m).fired| == |m.fired|
    {
      fired := 0;
      StartWalk(pos, tick);
      ghost var j: nat := 0;
      while tickIterator != pos
        invariant Valid() && Walking(m, tick, h) && Jumped(m, true, h) && m.run == None && StandsAt(m, pos, tick, tickIterator, j)
        invariant FireTick(m, tick, h, true, tasks) == FireTick(old(m), tick, h, true, tasks)
        invariant fired + |old(m).fired| == |m.fired|
        decreases |Due(m, tick)|, |Bucket(m, pos)| - j
      {
        ScanNode(links[..], m, tick, h, tickIterator, j);
        if tick >= data[tickIterator - BUCKETS].expire {
          fired := fired + 1;
          j := FireHere(true, pos, tick, h, j);
        } else {
          Advance(pos, tick, h, j);
          j := j + 1;
        }
      }
      ScanEnds(links[..], m, tick);
    }

    /** Setting framework::s_currentTick. */
    method SetClock(tick: nat)
      requires Valid()
      modifies this`now, this`m
      ensures Valid() && m == old(m).(now := tick) && currentTick == old(currentTick)
    {
      ghost var m0 := m;
      now := tick;
      m := m.(now := tick);
      WheelSame(links[..], m0, m);
      CountsSame(m0, m);
    }

    /** The body of the loop of Tick. */
    method TickOnce(ghost h: Horizon) returns (n: nat)
      requires Valid() && Ready(m, h) && TasksFit(tasks, h) && m.cur < h.last
      modifies this, links, data, timerCount
      ensures Valid() && m == Round(old(m), h, false, tasks) && n + |old(m).fired| == |m.fired|
    {
      ghost var m1 := Clocked(m, h, false);
      SetClock(currentTick);
      assert m == m1;
      n := CheckTickArray(currentTick, Hash(currentTick), h);
      StepTick();
    }

    /** The body of the loop of SkipTick. */
    method SkipOnce(ghost h: Horizon) returns (n: nat)
      requires Valid() && Ready(m, h) && TasksFit(tasks, h) && m.cur < h.last && m.cur <= m.now <= h.skip
      modifies this, links, data, timerCount
      ensures Valid() && m == Round(old(m), h, true, tasks) && n + |old(m).fired| == |m.fired|
    {
      assert Clocked(m, h, true) == m;
      n := SkipTickArray(currentTick, Hash(currentTick), h);
      StepTick();
    }

    /** Tick, given the tick that the wall clock stands at. */
    method Tick(currTick: nat, ghost h: Horizon) returns (fired: nat)
      requires Valid() && Ready(m, h) && TasksFit(tasks, h) && currTick <= h.last
      modifies this, links, data, timerCount
      ensures Valid() && m == RunTo(old(m), currTick, h, false, tasks)
      ensures fired + |old(m).fired| == |m.fired|
    {
      fired := 0;
      if currTick > currentTick {
        while currentTick < currTick
          invariant Valid() && Ready(m, h)
          invariant RunTo(old(m), currTick, h, false, tasks) == RunTo(m, currTick, h, false, tasks)
          invariant fired + |old(m).fired| == |m.fired|
          decreases currTick - currentTick
        {
          var n := TickOnce(h);
          fired := fired + n;
        }
      }
    }

    /** SkipTick, given the tick to jump to. */
    method SkipTick(currTick: nat, ghost h: Horizon) returns (fired: nat)
      requires Valid() && Ready(m, h) && TasksFit(tasks, h) && m.cur <= currTick + 1 && currTick <= h.last && currTick <= h.skip
      modifies this, links, data, timerCount
      ensures Valid() && Ready(old(m).(now := currTick), h)
      ensures m == RunTo(old(m).(now := currTick), currTick, h, true, tasks)
      ensures fired + |old(m).fired| == |m.fired|
    {
      fired := 0;
      SetClock(currTick);
      ghost var start := m;
      if currTick > currentTick {
        while currentTick < currTick
          invariant Valid() && Ready(m, h) && m.now == currTick && currentTick <= currTick
          invariant RunTo(start, currTick, h, true, tasks) == RunTo(m, currTick, h, true, tasks)
          invariant fired + |old(m).fired| == |m.fired|
          decreases currTick - currentTick
        {
          var n := SkipOnce(h);
          fired := fired + n;
        }
      }
    }

    /** ++m_currentTick. */
    method StepTick()
      requires Valid()
      modifies this`currentTick, this`m
      ensures Valid() && m == old(m).(cur := old(m).cur + 1) && currentTick == old(currentTick) + 1
    {
      ghost var m0 := m;
      currentTick := currentTick + 1;
      m := m.(cur := m.cur + 1);
      WheelSame(links[..], m0, m);
      CountsSame(m0, m);
    }

    /** IsValidNodePointer. */
    predicate IsValidNodePointer(cell: nat) {
      var a := Addr(cell) - NODE_OFFSET;
      0 <= a <= NODE_BYTES * count && a % NODE_BYTES == 0
    }

    /** DoBadTimeList: the next link of node cell cur, the i-th of bucket pos, points at the node
        itself, while the prev chain and the other next links are as in the ring of nodes xs.
        The list is repaired exactly if fixing is asked for and the node is near enough to the
        end; otherwise it is left alone and the server is told to quit. */
    method DoBadTimeList(pos: nat, cur: nat, doFix: bool, ghost xs: seq<nat>, ghost i: nat) returns (r: int)
      requires i < |xs| && Distinct(xs) && cur == NodeCell(xs[i]) && InRegion(links[..], pos, xs)
      requires links.Length == BUCKETS + count && links[cur].next == 0
      requires PrevChain(links[..], pos, xs) && NextLinksBut(links[..], pos, xs, i + 1)
      modifies links, this`runFlags
      ensures r == (if doFix && |xs| - 1 - i <= MAX_REPAIR_STEPS then 0 else -1)
      ensures r == 0 ==> Ring(links[..], pos, xs) && runFlags == old(runFlags)
      ensures r != 0 ==> links[..] == old(links[..])
      ensures r != 0 ==> runFlags == if QuitAfterKickAllUser in old(runFlags) then old(runFlags)
                                     else old(runFlags) + {QuitAfterKickAllUser, QuitCoredump}
      ensures forall k :: 0 <= k < links.Length && k != cur ==> links[k] == old(links[k])
    {
      if doFix {
        var fixed := TryFix(pos, cur, xs, i);
        if fixed {
          return 0;
        }
      }
      if QuitAfterKickAllUser !in runFlags {
        runFlags := runFlags + {QuitAfterKickAllUser, QuitCoredump};
      }
      return -1;
    }

    /** The search backwards from the end of the list, and the repair. */
    method TryFix(pos: nat, cur: nat, ghost xs: seq<nat>, ghost i: nat) returns (ok: bool)
      requires i < |xs| && Distinct(xs) && cur == NodeCell(xs[i]) && InRegion(links[..], pos, xs)
      requires links.Length == BUCKETS + count && links[cur].next == 0
      requires PrevChain(links[..], pos, xs) && NextLinksBut(links[..], pos, xs, i + 1)
      modifies links
      ensures ok <==> |xs| - 1 - i <= MAX_REPAIR_STEPS
      ensures ok ==> Ring(links[..], pos, xs)
      ensures !ok ==> links[..] == old(links[..])
      ensures forall k :: 0 <= k < links.Length && k != cur ==> links[k] == old(links[k])
    {
      var steps := 0;
      var fixed := false;
      ghost var l := links[..];
      BackFrom(l, pos, xs, |xs|);
      var it: nat := CellAt(pos, links[pos].prev);
      var next := pos;
      ghost var j := |xs|;
      while it != pos
        invariant i < j <= |xs| && it == At(pos, xs, j) && next == At(pos, xs, j + 1)
        invariant steps == |xs| - j <= MAX_REPAIR_STEPS && !fixed && links[..] == l
        decreases j
      {
        NodeIsValid(xs[j - 1]);
        if !IsValidNodePointer(it) {
          break;
        }
        if it == cur {
          assert xs[j - 1] == xs[i] && j == i + 1;
          BackFrom(l, pos, xs, j);
          Link(links, cur, next);
          assert links[next] == l[next];
          MendedRing(l, links[..], pos, xs, i + 1);
          fixed := true;
          break;
        }
        next := it;
        BackFrom(l, pos, xs, j - 1);
        it := CellAt(it, links[it].prev);
        j := j - 1;
        steps := steps + 1;
        if steps > MAX_REPAIR_STEPS {
          break;
        }
      }
      return fixed && cur != next;
    }

    lemma NodeIsValid(x: nat)
      requires x < count
      ensures IsValidNodePointer(NodeCell(x))
    {
    }

    method AddTimerCount(ty: nat)
      requires ty < timerCount.Length
      modifies timerCount
      ensures timerCount[ty] == old(timerCount[ty]) + 1
      ensures forall k :: 0 <= k < timerCount.Length && k != ty ==> timerCount[k] == old(timerCount[k])
    {
      timerCount[ty] := timerCount[ty] + 1;
    }

    method DecTimerCount(ty: nat)
      requires ty < timerCount.Length
      modifies timerCount
      ensures timerCount[ty] == Clamped(old(timerCount[ty]))
      ensures forall k :: 0 <= k < timerCount.Length && k != ty ==> timerCount[k] == old(timerCount[k])
    {
      if 0 >= timerCount[ty] {
        return;
      }
      timerCount[ty] := timerCount[ty] - 1;
    }
  }
}
