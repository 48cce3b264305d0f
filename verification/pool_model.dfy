/** The object pool as a value: which slots are free, in which order they will be used, and how
    often each has been allocated. */
module PoolModel {
  import opened Sequences
  import opened ObjHandle

  datatype Pool = Pool(
    objType: nat,
    base: nat,              // offset of slot 0 in shared memory
    unit: nat,              // bytes of a slot
    free: seq<nat>,         // free slots, next one to use first
    gens: seq<nat>)         // how often each slot has been allocated

  ghost predicate Part(p: Pool) {
    && 0 < p.objType < 256 && 0 < p.base && 0 < p.unit && Distinct(p.free)
    && forall x :: x in p.free ==> x < |p.gens|
  }

  /** A pool of n slots, none of them ever used. */
  function New(objType: nat, base: nat, unit: nat, n: nat): Pool {
    Pool(objType, base, unit, seq(n, i => i), seq(n, _ => 0))
  }

  predicate Busy(p: Pool, x: nat) { x < |p.gens| && x !in p.free }

  datatype Op = Allocate | Deallocate(slot: nat)

  /** Allocate takes the first free slot; without one it answers NULL. */
  function DoAllocate(p: Pool): Pool
    requires Part(p)
  {
    if p.free == [] then p else
      assert p.free[0] in p.free;
      p.(free := p.free[1..], gens := p.gens[p.free[0] := p.gens[p.free[0]] + 1])
  }

  /** Deallocate of a slot that is not busy does nothing. */
  function DoDeallocate(p: Pool, x: nat): Pool {
    if Busy(p, x) then p.(free := [x] + p.free) else p
  }

  function Do(p: Pool, op: Op): Pool
    requires Part(p)
  {
    match op
    case Allocate => DoAllocate(p)
    case Deallocate(x) => DoDeallocate(p, x)
  }

  function Offset(p: Pool, x: nat): nat { p.base + p.unit * x }

  /** The handle of the object in slot x. */
  function HandleOf(p: Pool, x: nat): ObjId
    requires x < |p.gens|
  {
    ObjId(Offset(p, x), p.objType, SeqAfter(p.gens[x]))
  }

  /** m_type of the object in slot x: the destructor has cleared it in a free slot. */
  function TypeAt(p: Pool, x: nat): nat {
    if Busy(p, x) then p.objType else 0
  }

  /** GetObject, for a handle whose offset is that of slot x of this pool. */
  function Resolve(p: Pool, h: ObjId, x: nat): Option<nat>
    requires x < |p.gens| && h.id == Offset(p, x)
  {
    if h.id == 0 || TypeAt(p, x) == 0 || h.ty != TypeAt(p, x) || h.seqNo != SeqAfter(p.gens[x]) then None
    else Some(x)
  }

  /** From p to q no free slot came back to life without being allocated. */
  ghost predicate Aged(p: Pool, q: Pool) {
    && |q.gens| == |p.gens| && q.objType == p.objType && q.base == p.base && q.unit == p.unit
    && forall x :: 0 <= x < |p.gens| ==>
         p.gens[x] <= q.gens[x] && (p.gens[x] == q.gens[x] && x in p.free ==> x in q.free)
  }

  lemma DoKeeps(p: Pool, op: Op)
    requires Part(p)
    ensures Part(Do(p, op)) && Aged(p, Do(p, op))
  {
    if op.Allocate? && p.free != [] {
      DistinctTail(p.free);
    }
  }

  /** Allocate on a pool with a free slot makes the first free one busy, for one more incarnation,
      and gives it a handle that resolves; nothing else changes. Without a free slot nothing does. */
  lemma AllocateExact(p: Pool)
    requires Part(p)
    ensures var q := Do(p, Allocate);
      && q.objType == p.objType && q.base == p.base && q.unit == p.unit && |q.gens| == |p.gens|
      && (p.free == [] ==> q == p)
      && (p.free != [] ==>
            var x := p.free[0];
            && x < |p.gens| && p.free == [x] + q.free
            && Busy(q, x) && q.gens[x] == p.gens[x] + 1 && HandleOf(q, x).seqNo == p.gens[x] % 0x80_0000 + 1
            && Resolve(q, HandleOf(q, x), x) == Some(x)
            && forall y :: 0 <= y < |p.gens| && y != x ==> q.gens[y] == p.gens[y] && (Busy(q, y) <==> Busy(p, y)))
  {
    if p.free != [] {
      DistinctTail(p.free);
      assert p.free == [p.free[0]] + p.free[1..];
    }
  }

  /** Deallocate of a busy slot puts it in front of the free ones: its handle resolves to nothing
      from then on. Of any other slot, or of none of this pool's, it changes nothing. */
  lemma DeallocateExact(p: Pool, x: nat)
    requires Part(p)
    ensures var q := Do(p, Deallocate(x));
      && q.objType == p.objType && q.base == p.base && q.unit == p.unit && q.gens == p.gens
      && (x >= |p.gens| || x in p.free ==> q == p)
      && (x < |p.gens| && x !in p.free ==>
            q.free == [x] + p.free && forall h: ObjId :: h.id == Offset(p, x) ==> Resolve(q, h, x) == None)
  {
  }

  /** What was freed last is used first, as a new incarnation: unlike the old handle, which is
      dead, the new one resolves. */
  lemma FreedIsUsedNext(p: Pool, x: nat)
    requires Part(p) && BusyUsed(p) && Busy(p, x)
    ensures var q := Do(p, Deallocate(x));
      && Part(q)
      && var r := Do(q, Allocate);
         && r.free == p.free && Busy(r, x) && r.gens[x] == p.gens[x] + 1
         && Resolve(r, HandleOf(r, x), x) == Some(x) && Resolve(r, HandleOf(p, x), x) == None
         && forall y :: 0 <= y < |p.gens| && y != x ==> r.gens[y] == p.gens[y] && (Busy(r, y) <==> Busy(p, y))
  {
    var q := Do(p, Deallocate(x));
    DoKeeps(p, Deallocate(x));
    DeallocateExact(p, x);
    AllocateExact(q);
    SeqRepeats(p.gens[x], 1);
  }

  /** The slots lie one after another from the base on, a unit each; so no two have the same offset,
      and none has the offset of the nil handle. */
  lemma {:induction false} SlotsApart(p: Pool, x: nat, y: nat)
    requires Part(p) && x < y
    ensures 0 < p.base == Offset(p, 0) <= Offset(p, x) && Offset(p, x) + p.unit == Offset(p, x + 1) <= Offset(p, y)
  {
    if x + 1 < y {
      SlotsApart(p, x, y - 1);
    } else if x > 0 {
      SlotsApart(p, x - 1, x);
    }
    assert p.unit * y == p.unit * (y - 1) + p.unit && p.unit * (x + 1) == p.unit * x + p.unit;
  }

  /** Of all handles with the offset of a slot just one resolves, while its object lives. */
  lemma ResolveExact(p: Pool, h: ObjId, x: nat)
    requires Part(p) && x < |p.gens| && h.id == Offset(p, x)
    ensures Resolve(p, h, x) == if h == HandleOf(p, x) && x !in p.free then Some(x) else None
  {
    assert Offset(p, x) > 0;
  }

  ghost function Run(p: Pool, ops: seq<Op>): (q: Pool)
    requires Part(p)
    ensures Part(q) && Aged(p, q)
    decreases |ops|
  {
    if ops == [] then p else
      DoKeeps(p, ops[0]);
      var p1 := Do(p, ops[0]);
      var q := Run(p1, ops[1..]);
      AgedTrans(p, p1, q);
      q
  }

  lemma AgedTrans(p: Pool, q: Pool, r: Pool)
    requires Aged(p, q) && Aged(q, r)
    ensures Aged(p, r)
  {
    forall x | 0 <= x < |p.gens|
      ensures p.gens[x] <= r.gens[x] && (p.gens[x] == r.gens[x] && x in p.free ==> x in r.free)
    {
      assert p.gens[x] <= q.gens[x] <= r.gens[x];
    }
  }

  /** A busy slot is only ever freed by Deallocate and has been allocated before. */
  ghost predicate BusyUsed(p: Pool) {
    forall x :: 0 <= x < |p.gens| && x !in p.free ==> p.gens[x] > 0
  }

  lemma {:induction false} RunBusyUsed(p: Pool, ops: seq<Op>)
    requires Part(p) && BusyUsed(p)
    ensures BusyUsed(Run(p, ops))
    decreases |ops|
  {
    if ops != [] {
      DoKeeps(p, ops[0]);
      var p1 := Do(p, ops[0]);
      forall x | 0 <= x < |p1.gens| && x !in p1.free
        ensures p1.gens[x] > 0
      {
        if ops[0].Allocate? && p.free != [] {
          DistinctTail(p.free);
        }
        assert x !in p.free || p1.gens[x] == p.gens[x] + 1;
      }
      RunBusyUsed(p1, ops[1..]);
    }
  }

  /** A handle of an object resolves, over every later run in which its slot is allocated fewer
      than 0x800000 further times, exactly as long as that very incarnation is alive. */
  lemma HandleResolvesToItsIncarnation(p: Pool, x: nat, ops: seq<Op>)
    requires Part(p) && BusyUsed(p) && Busy(p, x)
    requires Run(p, ops).gens[x] < p.gens[x] + SEQ_CYCLE
    ensures var q := Run(p, ops);
      Resolve(q, HandleOf(p, x), x) == if Busy(q, x) && q.gens[x] == p.gens[x] then Some(x) else None
  {
    var q := Run(p, ops);
    SeqRepeats(p.gens[x], q.gens[x] - p.gens[x]);
  }

  /** Once the object is gone the handle resolves to nothing, whatever follows within the cycle. */
  lemma DeadHandleStaysDead(p: Pool, x: nat, before: seq<Op>, after: seq<Op>)
    requires Part(p) && BusyUsed(p) && Busy(p, x)
    requires Run(p, before).gens[x] == p.gens[x] && x in Run(p, before).free
    requires Run(Run(p, before), after).gens[x] < p.gens[x] + SEQ_CYCLE
    ensures Resolve(Run(Run(p, before), after), HandleOf(p, x), x) == None
  {
    var f := Run(p, before);
    DeadLater(p, f, Run(f, after), x);
  }

  lemma DeadLater(p: Pool, f: Pool, q: Pool, x: nat)
    requires Part(p) && Busy(p, x) && p.gens[x] > 0 && Aged(p, f) && Aged(f, q) && Part(q)
    requires f.gens[x] == p.gens[x] && x in f.free && q.gens[x] < p.gens[x] + SEQ_CYCLE
    ensures Resolve(q, HandleOf(p, x), x) == None
  {
    SeqRepeats(p.gens[x], q.gens[x] - p.gens[x]);
  }

  lemma NewPart(objType: nat, base: nat, unit: nat, n: nat)
    requires 0 < objType < 256 && 0 < base && 0 < unit
    ensures var p := New(objType, base, unit, n); Part(p) && BusyUsed(p) && forall x :: 0 <= x < n ==> x in p.free
  {
    var p := New(objType, base, unit, n);
    forall x | 0 <= x < n
      ensures x in p.free
    {
      assert p.free[x] == x;
    }
  }

  /** From a new pool, over every run: a handle taken at any point of an object then alive
      resolves, at any later point short of the cycle, exactly if that incarnation is alive. */
  lemma HandlesOverRuns(objType: nat, base: nat, unit: nat, n: nat, before: seq<Op>, x: nat, after: seq<Op>)
    requires 0 < objType < 256 && 0 < base && 0 < unit
    ensures Part(New(objType, base, unit, n))
    ensures var p := Run(New(objType, base, unit, n), before); var q := Run(p, after);
      Busy(p, x) && q.gens[x] < p.gens[x] + SEQ_CYCLE ==>
        Resolve(q, HandleOf(p, x), x) == if Busy(q, x) && q.gens[x] == p.gens[x] then Some(x) else None
  {
    var p0 := New(objType, base, unit, n);
    NewPart(objType, base, unit, n);
    RunBusyUsed(p0, before);
    var p := Run(p0, before);
    if Busy(p, x) && Run(p, after).gens[x] < p.gens[x] + SEQ_CYCLE {
      HandleResolvesToItsIncarnation(p, x, after);
    }
  }

  /** The bound is exact: after 0x800000 more allocations a live slot answers the old handle. */
  lemma HandleRevives(p: Pool, q: Pool, x: nat)
    requires Part(p) && Busy(p, x) && p.gens[x] > 0 && Aged(p, q) && Part(q) && Busy(q, x)
    requires q.gens[x] == p.gens[x] + SEQ_CYCLE
    ensures Resolve(q, HandleOf(p, x), x) == Some(x)
  {
    SeqRepeats(p.gens[x], SEQ_CYCLE);
  }
}
