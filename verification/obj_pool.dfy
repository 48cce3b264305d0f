/** CObjPoolBase and TObjPool, updated in place. The free list is threaded through the busy map:
    an entry of 0 marks a busy slot, any other entry is the next free slot counted from one, or
    the end mark. */
module ObjPool {
  import opened Sequences
  import opened ObjHandle
  import opened PoolModel

  const BUSY: int := 0
  const TAIL: int := -1
  const MAX_ALLOCATE_COUNT: nat := 0x0FFF_FFFF

  /** The list entry that names the i-th of the free slots xs, or the end. */
  function Entry(xs: seq<nat>, i: nat): int {
    if i < |xs| then xs[i] + 1 else TAIL
  }

  /** The chain from freeNode runs through exactly the slots xs, and no other slot is free. */
  ghost predicate Chain(bits: seq<int>, freeNode: int, xs: seq<nat>) {
    && freeNode == Entry(xs, 0)
    && (forall i :: 0 <= i < |xs| ==> LinkOk(bits, xs, i))
    && (forall k :: 0 <= k < |bits| ==> (bits[k] == BUSY <==> k !in xs))
  }

  predicate LinkOk(bits: seq<int>, xs: seq<nat>, i: nat)
    requires i < |xs|
  {
    xs[i] < |bits| && bits[xs[i]] == Entry(xs, i + 1)
  }

  lemma ChainPush(m: seq<int>, freeNode: int, xs: seq<nat>, k: nat)
    requires Chain(m, freeNode, xs) && k < |m| && k !in xs
    ensures Chain(m[k := freeNode], k + 1, [k] + xs)
  {
    var m2, ys := m[k := freeNode], [k] + xs;
    forall i | 0 <= i < |ys|
      ensures LinkOk(m2, ys, i)
    {
      if i > 0 {
        assert xs[i - 1] in xs && LinkOk(m, xs, i - 1);
      }
    }
  }

  lemma ChainPop(m: seq<int>, freeNode: int, xs: seq<nat>)
    requires Chain(m, freeNode, xs) && xs != [] && Distinct(xs)
    ensures xs[0] < |m| && freeNode == xs[0] + 1 && m[xs[0]] != BUSY
    ensures Chain(m[xs[0] := BUSY], m[xs[0]], xs[1..])
  {
    DistinctTail(xs);
    assert LinkOk(m, xs, 0);
    var m2, ys := m[xs[0] := BUSY], xs[1..];
    forall i | 0 <= i < |ys|
      ensures LinkOk(m2, ys, i)
    {
      assert ys[i] == xs[i + 1] && LinkOk(m, xs, i + 1);
    }
  }

  /** The free slots from k on, in ascending order. */
  function FreeFrom(bits: seq<int>, k: nat): (xs: seq<nat>)
    requires k <= |bits|
    ensures forall x :: x in xs <==> k <= x < |bits| && bits[x] != BUSY
    decreases |bits| - k
  {
    if k == |bits| then [] else (if bits[k] != BUSY then [k] else []) + FreeFrom(bits, k + 1)
  }

  /** The busy slots of [first, last), in ascending order. */
  function BusyBetween(bits: seq<int>, first: nat, last: nat): (xs: seq<nat>)
    requires first <= last <= |bits|
    ensures forall x :: x in xs <==> first <= x < last && bits[x] == BUSY
    decreases last - first
  {
    if first == last then [] else (if bits[first] == BUSY then [first] else []) + BusyBetween(bits, first + 1, last)
  }

  lemma {:induction false} FreeFromDistinct(bits: seq<int>, k: nat)
    requires k <= |bits|
    ensures Distinct(FreeFrom(bits, k))
    decreases |bits| - k
  {
    if k < |bits| {
      FreeFromDistinct(bits, k + 1);
    }
  }

  function BusySlots(p: Pool): set<nat> { set x | x in FirstN(|p.gens|) && Busy(p, x) }

  function FirstN(n: nat): (s: set<nat>)
    ensures forall x :: x in s <==> 0 <= x < n
  {
    if n == 0 then {} else FirstN(n - 1) + {n - 1}
  }

  lemma {:induction false} FirstNSize(n: nat)
    ensures |FirstN(n)| == n
  {
    if n > 0 {
      FirstNSize(n - 1);
    }
  }

  function Outside(n: nat, free: seq<nat>): set<nat> { set x | x in FirstN(n) && x !in free }

  /** There are as many busy slots as slots that are not on the free list. */
  lemma {:induction false} BusyCount(n: nat, free: seq<nat>)
    requires Distinct(free) && forall x :: x in free ==> x < n
    ensures |Outside(n, free)| == n - |free|
    decreases |free|
  {
    if free == [] {
      FirstNSize(n);
      assert Outside(n, free) == FirstN(n);
    } else {
      DistinctTail(free);
      BusyCount(n, free[1..]);
      assert Outside(n, free[1..]) == Outside(n, free) + {free[0]};
    }
  }

  /** tagObjectBase: type and incarnation number, the head of every object. */
  datatype Header = Header(ty: nat, seqNo: nat)

  /** A walk over [first, last) has come to f and has met the busy slots visited. */
  ghost predicate Walked(bits: seq<int>, first: nat, f: nat, last: nat, visited: seq<nat>) {
    first <= f <= last <= |bits| && visited + BusyBetween(bits, f, last) == BusyBetween(bits, first, last)
  }

  lemma WalkStep(bits: seq<int>, first: nat, f: nat, last: nat, visited: seq<nat>)
    requires Walked(bits, first, f, last, visited) && f < last
    ensures bits[f] == BUSY ==>
      visited + [f] <= BusyBetween(bits, first, last) && Walked(bits, first, f + 1, last, visited + [f])
    ensures bits[f] != BUSY ==> Walked(bits, first, f + 1, last, visited)
  {
    if bits[f] == BUSY {
      assert BusyBetween(bits, f, last) == [f] + BusyBetween(bits, f + 1, last);
      assert (visited + [f]) + BusyBetween(bits, f + 1, last) == visited + ([f] + BusyBetween(bits, f + 1, last));
    } else {
      assert BusyBetween(bits, f, last) == [] + BusyBetween(bits, f + 1, last) == BusyBetween(bits, f + 1, last);
    }
  }

  lemma WalkEnds(bits: seq<int>, first: nat, f: nat, last: nat, visited: seq<nat>)
    requires Walked(bits, first, f, last, visited) && forall x :: f <= x < last ==> bits[x] != BUSY
    ensures visited == BusyBetween(bits, first, last)
  {
    NoneBusy(bits, f, last);
    assert visited + [] == visited;
  }

  /** The walk does not stop after its i-th object. */
  predicate GoesOn(visited: seq<nat>, i: nat, func: nat -> int, limit: Option<nat>)
    requires i < |visited|
  {
    func(visited[i]) > 0 && (limit.Some? ==> i + 1 < limit.value)
  }

  predicate AllGoOn(visited: seq<nat>, func: nat -> int, limit: Option<nat>) {
    forall i :: 0 <= i < |visited| ==> GoesOn(visited, i, func, limit)
  }

  /** What a walk over [first, last) visits: the busy slots in ascending order, all of them or up
      to the one after which it stops, and it does not pass one after which it has to stop. */
  ghost predicate Visits(bits: seq<int>, first: nat, last: nat, visited: seq<nat>, func: nat -> int, limit: Option<nat>) {
    && first <= last <= |bits| && visited <= BusyBetween(bits, first, last)
    && (forall i :: 0 <= i < |visited| - 1 ==> GoesOn(visited, i, func, limit))
    && (visited != BusyBetween(bits, first, last) ==> visited != [] && !GoesOn(visited, |visited| - 1, func, limit))
  }

  lemma VisitBusy(bits: seq<int>, first: nat, f: nat, last: nat, visited: seq<nat>, func: nat -> int, limit: Option<nat>)
    requires Walked(bits, first, f, last, visited) && f < last && bits[f] == BUSY && AllGoOn(visited, func, limit)
    ensures Walked(bits, first, f + 1, last, visited + [f])
    ensures if (limit.Some? && |visited + [f]| >= limit.value) || func(f) <= 0
            then Visits(bits, first, last, visited + [f], func, limit) else AllGoOn(visited + [f], func, limit)
  {
    WalkStep(bits, first, f, last, visited);
    forall i | 0 <= i < |visited|
      ensures GoesOn(visited + [f], i, func, limit)
    {
      assert GoesOn(visited, i, func, limit);
    }
  }

  lemma {:induction false} NoneBusy(bits: seq<int>, first: nat, last: nat)
    requires first <= last <= |bits| && forall x :: first <= x < last ==> bits[x] != BUSY
    ensures BusyBetween(bits, first, last) == []
    decreases last - first
  {
    if first < last {
      NoneBusy(bits, first + 1, last);
    }
  }

  class TObjPool {
    const objType: nat
    const count: nat
    const bitMap: array<int>
    const headers: array<Header>
    var freeNode: int
    var maxUsedNode: int
    var allocateCount: nat
    var deallocateCount: nat
    ghost var p: Pool

    ghost predicate Shape()
      reads this, bitMap, headers
    {
      bitMap.Length == count == headers.Length == |p.gens| && 0 < count < MAX_ALLOCATE_COUNT
    }

    ghost predicate Valid()
      reads this, bitMap, headers
    {
      && Shape() && Part(p) && BusyUsed(p) && p.objType == objType
      && Chain(bitMap[..], freeNode, p.free)
      && (forall x :: 0 <= x < count ==> headers[x].seqNo == SeqAfter(p.gens[x]) && headers[x].ty == TypeAt(p, x))
      && (forall x :: 0 <= x < count && x !in p.free ==> x < maxUsedNode) && 0 <= maxUsedNode <= count
      && deallocateCount <= allocateCount && allocateCount - deallocateCount == count - |p.free|
    }

    /** CreatePool and ConstructFreeList, normal start, on memory that is all zero. The pool's
        objects begin at a given offset of shared memory. */
    constructor (objType: nat, base: nat, unit: nat, count: nat)
      requires 0 < objType < 256 && 0 < base && 0 < unit && 0 < count < MAX_ALLOCATE_COUNT
      ensures Valid() && p == PoolModel.New(objType, base, unit, count)
      ensures fresh(bitMap) && fresh(headers)
    {
      this.objType := objType;
      this.count := count;
      bitMap := new int[count](_ => 0);
      headers := new Header[count](_ => Header(0, 0));
      freeNode, maxUsedNode, allocateCount, deallocateCount := TAIL, 0, 0, 0;
      p := PoolModel.New(objType, base, unit, count);
      new;
      AllFree(count, 0);
      NewPart(objType, base, unit, count);
      assert FreeFrom(seq(count, _ => 1), 0) == p.free;
      ConstructFreeList();
    }

    /** ConstructFreeList, on a busy map that is all zero. */
    method ConstructFreeList()
      requires bitMap.Length == count && freeNode == TAIL && forall x :: 0 <= x < count ==> bitMap[x] == BUSY
      modifies bitMap, this`freeNode
      ensures Chain(bitMap[..], freeNode, FreeFrom(seq(count, _ => 1), 0))
    {
      ghost var ones := seq(count, _ => 1);
      var i := count;
      while i > 0
        invariant 0 <= i <= count && Chain(bitMap[..], freeNode, FreeFrom(ones, i))
      {
        i := i - 1;
        SetFreeNode(i, FreeFrom(ones, i + 1));
      }
    }

    /** SetFreeNode: slot index goes to the front of the free list xs. */
    method SetFreeNode(index: nat, ghost xs: seq<nat>)
      requires index < bitMap.Length && Chain(bitMap[..], freeNode, xs) && index !in xs
      modifies bitMap, this`freeNode
      ensures Chain(bitMap[..], freeNode, [index] + xs)
    {
      ghost var bits := bitMap[..];
      ChainPush(bits, freeNode, xs, index);
      bitMap[index] := freeNode;
      assert bitMap[..] == bits[index := freeNode];
      freeNode := index + 1;
    }

    /** GetFreeNode: the slot taken, or none. The branch that calls FixFreeList is never taken. */
    method GetFreeNode() returns (slot: Option<nat>)
      requires bitMap.Length == count && Chain(bitMap[..], freeNode, p.free) && Part(p) && |p.gens| == count
      modifies bitMap, this`freeNode, this`maxUsedNode
      ensures slot == None <==> p.free == []
      ensures slot == None ==> bitMap[..] == old(bitMap[..]) && freeNode == old(freeNode) && maxUsedNode == old(maxUsedNode)
      ensures slot.Some? ==> slot.value == p.free[0] < count && Chain(bitMap[..], freeNode, p.free[1..])
      ensures slot.Some? ==> maxUsedNode == if slot.value + 1 > old(maxUsedNode) then slot.value + 1 else old(maxUsedNode)
    {
      if freeNode == TAIL {
        return None;
      }
      ghost var bits := bitMap[..];
      ChainPop(bits, freeNode, p.free);
      if freeNode > maxUsedNode {
        maxUsedNode := freeNode;
      }
      var curr := freeNode - 1;
      if bitMap[curr] == BUSY {
        assert false;
      }
      freeNode := bitMap[curr];
      bitMap[curr] := BUSY;
      assert bitMap[..] == bits[curr := BUSY];
      return Some(curr);
    }

    /** Allocate: the slot of the new object, or none when all are busy. */
    method Allocate() returns (slot: Option<nat>)
      requires Valid()
      modifies this, bitMap, headers
      ensures Valid() && p == DoAllocate(old(p))
      ensures slot == if old(p).free == [] then None else Some(old(p).free[0])
    {
      slot := GetFreeNode();
      if slot.Some? {
        var x := slot.value;
        DoKeeps(p, PoolModel.Allocate);
        DistinctTail(p.free);
        IncSeqCounts(p.gens[x]);
        allocateCount := allocateCount + 1;
        if allocateCount >= MAX_ALLOCATE_COUNT {
          allocateCount := allocateCount - deallocateCount;
          deallocateCount := 0;
        }
        headers[x] := Header(objType, IncSeq(headers[x].seqNo));
        p := DoAllocate(p);
      }
    }

    /** Deallocate of the object in a slot; nothing happens when the slot is free. */
    method Deallocate(index: nat)
      requires Valid() && index < count
      modifies this, bitMap, headers
      ensures Valid() && p == DoDeallocate(old(p), index)
    {
      if bitMap[index] != BUSY {
        return;
      }
      DoKeeps(p, PoolModel.Deallocate(index));
      deallocateCount := deallocateCount + 1;
      SetFreeNode(index, p.free);
      headers[index] := headers[index].(ty := 0);
      p := DoDeallocate(p, index);
      PigeonHole(p);
    }

    /** Size: the number of busy slots, also after the counters have been rebased. */
    method Size() returns (n: nat)
      requires Valid()
      ensures n == |BusySlots(p)|
    {
      BusyCount(count, p.free);
      assert BusySlots(p) == Outside(count, p.free);
      return allocateCount - deallocateCount;
    }

    /** GetObject for a handle that is nil, lies beyond the end of shared memory, or names slot x
        of this pool. */
    method GetObject(h: ObjId, x: nat, poolEnd: nat) returns (slot: Option<nat>)
      requires Valid() && x < count && Offset(p, x) <= poolEnd && (h.id == 0 || h.id > poolEnd || h.id == Offset(p, x))
      ensures slot == if h.id == Offset(p, x) then Resolve(p, h, x) else None
    {
      if h.id == 0 || h.id > poolEnd || headers[x].ty == 0 || h.ty != headers[x].ty || h.seqNo != headers[x].seqNo {
        return None;
      }
      return Some(x);
    }

    /** ForeachObj: func gives what the callback answers for each slot, limit is *max_for_num.
        The busy slots of the range are visited in ascending order until the callback answers 0
        or less, or the limit is reached. */
    method ForeachObj(first: nat, last: nat, func: nat -> int, limit: Option<nat>) returns (visited: seq<nat>)
      requires Valid() && first <= last <= count && first <= maxUsedNode
      ensures Visits(bitMap[..], first, last, visited, func, limit)
    {
      assert forall x :: maxUsedNode <= x < count ==> bitMap[x] != BUSY;
      visited := Walk(first, last, func, limit);
    }

    /** The loop of ForeachObj. */
    method Walk(first: nat, last: nat, func: nat -> int, limit: Option<nat>) returns (visited: seq<nat>)
      requires bitMap.Length == count && first <= last <= count && first <= maxUsedNode <= count
      requires forall x :: maxUsedNode <= x < count ==> bitMap[x] != BUSY
      ensures Visits(bitMap[..], first, last, visited, func, limit)
    {
      var f, l := first, last;
      if l > maxUsedNode {
        l := maxUsedNode;
      }
      ghost var bits := bitMap[..];
      visited := [];
      while f != l
        invariant f <= l && Walked(bits, first, f, last, visited) && AllGoOn(visited, func, limit)
        decreases l - f
      {
        if bitMap[f] == BUSY {
          VisitBusy(bits, first, f, last, visited, func, limit);
          visited := visited + [f];
          if limit.Some? && |visited| >= limit.value {
            return;
          }
          if func(f) <= 0 {
            return;
          }
        } else {
          WalkStep(bits, first, f, last, visited);
        }
        f := f + 1;
      }
      WalkEnds(bits, first, f, last, visited);
    }

    /** ResumeNode: whatever the entries of the busy map were, the free list is rebuilt over the
        slots that are not busy, in ascending order, and no slot becomes busy or free. */
    method ResumeNode() returns (ghost xs: seq<nat>)
      requires bitMap.Length == count
      modifies bitMap, this`freeNode
      ensures xs == FreeFrom(old(bitMap[..]), 0) && Distinct(xs)
      ensures Chain(bitMap[..], freeNode, xs)
      ensures forall k :: 0 <= k < count ==> (bitMap[k] == BUSY <==> old(bitMap[k]) == BUSY)
    {
      ghost var bits := bitMap[..];
      freeNode := TAIL;
      var i := count;
      while i > 0
        invariant 0 <= i <= count
        invariant freeNode == Entry(FreeFrom(bits, i), 0)
        invariant forall j :: 0 <= j < |FreeFrom(bits, i)| ==> LinkOk(bitMap[..], FreeFrom(bits, i), j)
        invariant forall k :: 0 <= k < i ==> bitMap[k] == bits[k]
        invariant forall k :: i <= k < count ==> (bitMap[k] == BUSY <==> bits[k] == BUSY)
      {
        i := i - 1;
        ghost var m, ys := bitMap[..], FreeFrom(bits, i + 1);
        if bitMap[i] != BUSY {
          bitMap[i] := freeNode;
          ghost var zs := [i] + ys;
          assert FreeFrom(bits, i) == zs;
          assert bitMap[..] == m[i := freeNode];
          LinkInFront(m, bitMap[..], freeNode, i, ys);
          freeNode := i + 1;
        } else {
          assert FreeFrom(bits, i) == ys;
        }
      }
      xs := FreeFrom(bits, 0);
      FreeFromDistinct(bits, 0);
    }
  }

  /** Slot i put in front of the free slots ys, all of which lie behind it. */
  lemma LinkInFront(m: seq<int>, m2: seq<int>, freeNode: int, i: nat, ys: seq<nat>)
    requires i < |m| && freeNode == Entry(ys, 0) && m2 == m[i := freeNode]
    requires forall j :: 0 <= j < |ys| ==> LinkOk(m, ys, j)
    requires forall y :: y in ys ==> y > i
    ensures forall j :: 0 <= j < |[i] + ys| ==> LinkOk(m2, [i] + ys, j)
  {
    var zs := [i] + ys;
    forall j | 0 <= j < |zs|
      ensures LinkOk(m2, zs, j)
    {
      assert j > 0 ==> LinkOk(m, ys, j - 1) && ys[j - 1] == zs[j] && ys[j - 1] in ys;
    }
  }

  /** Of a pool without busy slots all are free, in ascending order. */
  lemma {:induction false} AllFree(n: nat, k: nat)
    requires k <= n
    ensures FreeFrom(seq(n, _ => 1), k) == seq(n - k, i => i + k)
    decreases n - k
  {
    if k < n {
      AllFree(n, k + 1);
    }
  }

  lemma PigeonHole(p: Pool)
    requires Part(p)
    ensures |p.free| <= |p.gens|
  {
    BusyCount(|p.gens|, p.free);
  }
}
