/** SpaceUsed while other threads go on allocating: the reads of its walk are spread over time, so
    each may find a later state of the arena. */
module ArenaWatch {
  import opened Sequences
  import opened ArenaState
  import opened ArenaSafety
  import opened ArenaRuns
  import opened ArenaGrowth
  import opened ArenaSpace

  // ---------- what only grows between two Resets ----------

  ghost predicate ThreadOnward(s: State, r: State, t: nat) {
    && t < |s.threads| == |r.threads|
    && |s.threads[t].blocks| <= |r.threads[t].blocks|
    && r.threads[t].blocks[|r.threads[t].blocks| - |s.threads[t].blocks|..] == s.threads[t].blocks
    && (t in s.order ==> r.threads[t].next == s.threads[t].next)
  }

  ghost predicate BlocksOnward(s: State, r: State) {
    forall a :: a in s.blocks ==> a in r.blocks && r.blocks[a].pos >= s.blocks[a].pos
  }

  ghost predicate OrderOnward(s: State, r: State) {
    |s.order| <= |r.order| && r.order[|r.order| - |s.order|..] == s.order
  }

  /** From s to r the lists have only grown at the front, and blocks have only been filled. */
  ghost predicate Onward(s: State, r: State) {
    && |s.threads| == |r.threads| && OrderOnward(s, r) && BlocksOnward(s, r)
    && forall t :: 0 <= t < |s.threads| ==> ThreadOnward(s, r, t)
  }

  lemma OnwardSelf(s: State)
    ensures Onward(s, s)
  {
  }

  lemma SuffixTrans<T>(xs: seq<T>, ys: seq<T>, zs: seq<T>)
    requires |xs| <= |ys| <= |zs| && ys[|ys| - |xs|..] == xs && zs[|zs| - |ys|..] == ys
    ensures zs[|zs| - |xs|..] == xs
  {
    assert zs[|zs| - |xs|..] == zs[|zs| - |ys|..][|ys| - |xs|..];
  }

  lemma OnwardTrans(s: State, r: State, q: State)
    requires Onward(s, r) && Onward(r, q)
    ensures Onward(s, q)
  {
    SuffixTrans(s.order, r.order, q.order);
    forall t | 0 <= t < |s.threads|
      ensures ThreadOnward(s, q, t)
    {
      assert ThreadOnward(s, r, t) && ThreadOnward(r, q, t);
      SuffixTrans(s.threads[t].blocks, r.threads[t].blocks, q.threads[t].blocks);
      if t in s.order {
        var i :| 0 <= i < |s.order| && s.order[i] == t;
        assert r.order[|r.order| - |s.order|..][i] == t;
      }
    }
  }

  lemma UseOrder(s: State, t: nat, a: nat, goal: Goal)
    requires t < |s.threads| == |s.registered| && a in s.blocks
    ensures var r := Use(s, t, a, goal);
      r.order == s.order && |r.threads| == |s.threads| && forall u :: 0 <= u < |s.threads| ==> r.threads[u].next == s.threads[u].next
  {
  }

  /** The list of threads has at most grown at the front, and links of listed threads are as before. */
  ghost predicate ListOnward(s: State, r: State) {
    && OrderOnward(s, r) && |r.threads| == |s.threads|
    && forall u :: 0 <= u < |s.threads| && u in s.order ==> r.threads[u].next == s.threads[u].next
  }

  lemma StartOrder(s: State, t: nat)
    requires Shape(s) && t < |s.threads| && s.threads[t].pc.Start?
    ensures ListOnward(s, StepStart(s, t))
  {
    var th := s.threads[t];
    assert ThreadShape(s, th);
    if th.cache.lifecycle == s.lifecycle && Avail(s.blocks[th.cache.block]) >= Need(th.pc.goal, th.chunks) {
      UseOrder(s, t, th.cache.block, th.pc.goal);
    }
  }

  lemma HintOrder(s: State, t: nat)
    requires Shape(s) && t < |s.threads| && s.threads[t].pc.CheckHint?
    ensures ListOnward(s, StepHint(s, t))
  {
    var th := s.threads[t];
    if s.hint.Some? && s.blocks[s.hint.value].owner == t && Avail(s.blocks[s.hint.value]) >= Need(th.pc.goal, th.chunks) {
      UseOrder(s, t, s.hint.value, th.pc.goal);
    }
  }

  lemma PublishOrder(s: State, t: nat)
    requires Shape(s) && t < |s.threads| && s.threads[t].pc.Publish?
    ensures ListOnward(s, StepPublish(s, t))
  {
    var th := s.threads[t];
    assert ThreadShape(s, th);
    var s1 := s.(threads := s.threads[t := th.(cache := Cache(s.lifecycle, th.blocks[0]))], hint := Some(th.blocks[0]));
    UseOrder(s1, t, th.blocks[0], th.pc.goal);
  }

  lemma LoadOrder(s: State, t: nat)
    requires t < |s.threads| && ThreadOk(s, t) && s.threads[t].pc.Load?
    ensures ListOnward(s, StepLoad(s, t))
  {
    assert StepLoad(s, t).order == s.order;
    assert s.order[0..] == s.order;
  }

  lemma CasOrder(s: State, t: nat)
    requires t < |s.threads| && s.threads[t].pc.Cas?
    ensures ListOnward(s, StepCas(s, t))
  {
    var r := StepCas(s, t);
    assert r.order == s.order || r.order == [t] + s.order;
    Prepended(t, s.order);
    assert s.order[0..] == s.order;
  }

  lemma Prepended(x: nat, xs: seq<nat>)
    ensures ([x] + xs)[1..] == xs
  {
  }

  lemma RoomOrder(s: State, t: nat, a: nat)
    requires Shape(s) && t < |s.threads|
    ensures s.threads[t].pc.First? ==> ListOnward(s, StepFirst(s, t, a))
    ensures s.threads[t].pc.Room? ==> ListOnward(s, StepRoom(s, t, a))
  {
  }

  lemma StepOrder(s: State, t: nat, a: nat)
    requires Safe(s) && Shape(s) && t < |s.threads|
    ensures ListOnward(s, Step(s, t, a))
  {
    assert ThreadOk(s, t);
    match s.threads[t].pc
    case Start(_) => StartOrder(s, t);
    case CheckHint(_, _) => HintOrder(s, t);
    case Publish(_) => PublishOrder(s, t);
    case Load(_) => LoadOrder(s, t);
    case Cas(_, _) => CasOrder(s, t);
    case First(_) => RoomOrder(s, t, a);
    case Room(_) => RoomOrder(s, t, a);
    case _ =>
  }

  lemma StepOnward(s: State, t: nat, a: nat)
    requires Safe(s) && Shape(s) && t < |s.threads| && Granted(s, t, a)
    ensures Onward(s, Step(s, t, a))
  {
    StepOrder(s, t, a);
    StepGetsWhatItAsks(s, t, a);
    var r := Step(s, t, a);
    forall u | 0 <= u < |s.threads|
      ensures ThreadOnward(s, r, u)
    {
      if Asks(s, t).Some? && u == t {
        assert ([a] + s.threads[t].blocks)[1..] == s.threads[t].blocks;
      }
    }
  }

  lemma DoOnward(s: State, m: Move)
    requires Safe(s) && MoveOk(s, m) && !m.Reset?
    ensures Onward(s, Do(s, m))
  {
    if m.Go? {
      StepOnward(s, m.thread, m.address);
    }
  }

  /** The state after k moves of an endless schedule. */
  ghost function At(s: State, moves: nat -> Move, k: nat): (r: State)
    requires Safe(s) && Accounted(s) && OptionsOk(s.options)
    ensures Safe(r) && Accounted(r) && OptionsOk(r.options)
  {
    if k == 0 then s else
      var r := At(s, moves, k - 1);
      if MoveOk(r, moves(k - 1)) then
        DoSafe(r, moves(k - 1));
        DoOptions(r, moves(k - 1));
        DoAccounted(r, moves(k - 1));
        Do(r, moves(k - 1))
      else r
  }

  ghost predicate SoundAt(world: nat -> State, k: nat) { Safe(world(k)) && Accounted(world(k)) }

  ghost predicate OnwardAt(world: nat -> State, i: nat, j: nat) { Onward(world(i), world(j)) }

  /** What a reader may find, read by read: sound states, each going on from those before. */
  ghost predicate Watched(world: nat -> State) {
    && (forall k: nat :: SoundAt(world, k))
    && (forall i: nat, j: nat :: i <= j ==> OnwardAt(world, i, j))
  }

  lemma Later(world: nat -> State, i: nat, j: nat)
    requires Watched(world) && i <= j
    ensures Onward(world(i), world(j)) && Safe(world(i)) && Accounted(world(i)) && Safe(world(j)) && Accounted(world(j))
  {
    assert OnwardAt(world, i, j) && SoundAt(world, i) && SoundAt(world, j);
  }

  lemma AtNext(s: State, moves: nat -> Move, k: nat)
    requires Safe(s) && Accounted(s) && OptionsOk(s.options) && forall k :: !moves(k).Reset?
    ensures Onward(At(s, moves, k), At(s, moves, k + 1))
  {
    var r := At(s, moves, k);
    if MoveOk(r, moves(k)) {
      DoOnward(r, moves(k));
    } else {
      OnwardSelf(r);
    }
  }

  ghost predicate NextAt(world: nat -> State, k: nat) { OnwardAt(world, k, k + 1) }

  lemma {:induction false} OnwardChain(world: nat -> State, i: nat, j: nat)
    requires i <= j && forall k: nat :: NextAt(world, k)
    ensures OnwardAt(world, i, j)
    decreases j - i
  {
    if i == j {
      OnwardSelf(world(i));
    } else {
      OnwardChain(world, i, j - 1);
      assert NextAt(world, j - 1);
      OnwardTrans(world(i), world(j - 1), world(j));
    }
  }

  /** Reads made at any later and later points of any run without a Reset find such states. */
  lemma RunsAreWatched(s: State, moves: nat -> Move, when: nat -> nat, world: nat -> State)
    requires Safe(s) && Accounted(s) && OptionsOk(s.options) && forall k :: !moves(k).Reset?
    requires forall i: nat, j: nat :: i <= j ==> when(i) <= when(j)
    requires forall k: nat :: world(k) == At(s, moves, when(k))
    ensures Watched(world)
  {
    var all := (k: nat) => At(s, moves, k);
    forall k: nat
      ensures NextAt(all, k)
    {
      AtNext(s, moves, k);
    }
    forall i: nat, j: nat | i <= j
      ensures OnwardAt(world, i, j)
    {
      OnwardChain(all, when(i), when(j));
    }
  }

  // ---------- sums over what has grown ----------

  lemma {:induction false} TotalMonotone(xs: seq<nat>, f: nat -> int, g: nat -> int)
    requires forall i :: 0 <= i < |xs| ==> f(xs[i]) <= g(xs[i])
    ensures Total(xs, f) <= Total(xs, g)
  {
    if xs != [] {
      TotalMonotone(xs[1..], f, g);
    }
  }

  lemma {:induction false} TotalSuffix(xs: seq<nat>, k: nat, f: nat -> int)
    requires k <= |xs| && forall i :: 0 <= i < k ==> f(xs[i]) >= 0
    ensures Total(xs[k..], f) <= Total(xs, f)
  {
    if k > 0 {
      TotalSuffix(xs[1..], k - 1, f);
      assert xs[1..][k - 1..] == xs[k..];
    }
  }

  lemma FilledGrows(s: State, r: State, blocks: seq<nat>)
    requires BlocksOnward(s, r) && forall i :: 0 <= i < |blocks| ==> blocks[i] in s.blocks
    ensures Total(blocks, FilledIn(s)) <= Total(blocks, FilledIn(r))
  {
    TotalMonotone(blocks, FilledIn(s), FilledIn(r));
  }

  /** Later the blocks on a thread's list hold at least what an earlier part of the list holds. */
  lemma ListGrows(r: State, t: nat, blocks: seq<nat>)
    requires Safe(r) && t < |r.threads| && |blocks| <= |r.threads[t].blocks|
    requires r.threads[t].blocks[|r.threads[t].blocks| - |blocks|..] == blocks
    ensures Total(blocks, FilledIn(r)) <= Total(r.threads[t].blocks, FilledIn(r))
  {
    NoneNegative(r, t);
    SuffixLess(r.threads[t].blocks, blocks, FilledIn(r));
  }

  lemma SuffixLess(xs: seq<nat>, ys: seq<nat>, f: nat -> int)
    requires |ys| <= |xs| && xs[|xs| - |ys|..] == ys && forall i :: 0 <= i < |xs| ==> f(xs[i]) >= 0
    ensures Total(ys, f) <= Total(xs, f)
  {
    TotalSuffix(xs, |xs| - |ys|, f);
  }

  lemma NoneNegative(r: State, t: nat)
    requires Safe(r) && t < |r.threads|
    ensures forall i :: 0 <= i < |r.threads[t].blocks| ==> FilledIn(r)(r.threads[t].blocks[i]) >= 0
  {
    OwnBlocksLive(r, t);
    forall i | 0 <= i < |r.threads[t].blocks|
      ensures FilledIn(r)(r.threads[t].blocks[i]) >= 0
    {
      assert BlockOk(r, r.threads[t].blocks[i]);
    }
  }

  lemma NetGrows(s: State, r: State, t: nat)
    requires Safe(s) && Safe(r) && Accounted(r) && Onward(s, r) && t < |s.threads|
    ensures Net(s, t) <= Net(r, t)
  {
    assert ThreadOnward(s, r, t);
    if s.threads[t].blocks != [] {
      OwnBlocksLive(s, t);
      FilledGrows(s, r, s.threads[t].blocks);
      ListGrows(r, t, s.threads[t].blocks);
    }
  }

  /** The threads listed earlier have at least got what was handed out then, at most all. */
  lemma ListedGrows(s: State, r: State)
    requires Safe(s) && Accounted(s) && Safe(r) && Accounted(r) && Onward(s, r)
    ensures Total(s.order, Nets(s)) == Handed(s.pieces) && Total(s.order, Nets(r)) <= Handed(r.pieces)
  {
    NetsAreHanded(s);
    NetsAreHanded(r);
    forall i | 0 <= i < |r.order|
      ensures Nets(r)(r.order[i]) >= 0
    {
      assert NextOk(r, i);
    }
    TotalSuffix(r.order, |r.order| - |s.order|, Nets(r));
  }

  // ---------- the walk, in 64-bit arithmetic that wraps ----------

  /** The 64-bit word holds the sum, but for wrapping. */
  ghost predicate Word(word: int, sum: int) {
    0 <= word < UINT64 && exists k: int :: WordOff(word, sum, k)
  }

  ghost predicate WordOff(word: int, sum: int, k: int) { sum == word + k * UINT64 }

  /** A word that wraps, x added to it. */
  method Add(word: int, x: int, ghost sum: int) returns (r: int, ghost total: int)
    requires Word(word, sum)
    ensures Word(r, total) && total == sum + x
  {
    r, total := (word + x) % UINT64, sum + x;
    ghost var k :| WordOff(word, sum, k);
    assert WordOff(r, total, k + (word + x) / UINT64);
  }

  /** Of a sum that fits a word, the word is the sum. */
  lemma WordFits(word: int, sum: int)
    requires Word(word, sum) && 0 <= sum < UINT64
    ensures word == sum
  {
  }

  /** How far the walk has come: total is what it has added up of the first i threads listed at
      the start, at least what they had then and at most what they have by now. */
  ghost predicate Come(first: State, now: State, i: nat, total: int) {
    && i <= |first.order|
    && Total(first.order[..i], Nets(first)) <= total <= Total(first.order[..i], Nets(now))
  }

  /** One thread: total + part - INFO_BYTES is what the walk has after it. The thread's list was
      read at the state start, the fill of its blocks from then until now. */
  lemma OneThread(first: State, before: State, start: State, now: State, i: nat, total: int, part: int)
    requires Safe(first) && Safe(start) && Safe(now) && Accounted(start) && Accounted(now) && Safe(before)
    requires Onward(first, before) && Onward(before, now) && Onward(first, start) && Onward(start, now)
    requires i < |first.order| && first.order[i] < |first.threads| && Come(first, before, i, total)
    requires var blocks := start.threads[first.order[i]].blocks;
      blocks != [] && Total(blocks, FilledIn(start)) <= part <= Total(blocks, FilledIn(now))
    ensures Come(first, now, i + 1, total + part - INFO_BYTES)
  {
    var t := first.order[i];
    TotalUpTo(first.order, i, Nets(first));
    TotalUpTo(first.order, i, Nets(now));
    NetGrows(first, start, t);
    assert ThreadOnward(start, now, t);
    ListGrows(now, t, start.threads[t].blocks);
    EarlierGrow(first, before, now, i);
  }

  lemma ThreadRead(world: nat -> State, before: nat, start: nat, now: nat, i: nat, total: int, part: int)
    requires Watched(world) && before <= start <= now && Come(world(0), world(before), i, total)
    requires i < |world(0).order| && world(0).order[i] < |world(0).threads| == |world(start).threads|
    requires var blocks := world(start).threads[world(0).order[i]].blocks;
      blocks != [] && Total(blocks, FilledIn(world(start))) <= part <= Total(blocks, FilledIn(world(now)))
    ensures Come(world(0), world(now), i + 1, total + part - INFO_BYTES)
  {
    Later(world, 0, before);
    Later(world, 0, start);
    Later(world, before, now);
    Later(world, start, now);
    OneThread(world(0), world(before), world(start), world(now), i, total, part);
  }

  lemma EarlierGrow(first: State, before: State, now: State, i: nat)
    requires Safe(first) && Safe(before) && Safe(now) && Accounted(now) && Onward(first, before) && Onward(before, now) && i <= |first.order|
    ensures Total(first.order[..i], Nets(before)) <= Total(first.order[..i], Nets(now))
  {
    forall k | 0 <= k < i
      ensures Nets(before)(first.order[k]) <= Nets(now)(first.order[k])
    {
      assert NextOk(first, k);
      NetGrows(before, now, first.order[k]);
    }
    TotalMonotone(first.order[..i], Nets(before), Nets(now));
  }

  /** The inner loop, over one list of blocks read at the state world(from). */
  method UsedByBlocks(world: nat -> State, from: nat, blocks: seq<nat>, before: int, ghost sum: int)
      returns (used: int, clock: nat, ghost total: int)
    requires Watched(world) && Word(before, sum) && forall i :: 0 <= i < |blocks| ==> blocks[i] in world(from).blocks
    ensures clock >= from && Word(used, total)
    ensures Total(blocks, FilledIn(world(from))) <= total - sum <= Total(blocks, FilledIn(world(clock)))
  {
    used, clock, total := before, from, sum;
    var b := 0;
    while b < |blocks|
      invariant b <= |blocks| && clock >= from && Word(used, total)
      invariant Total(blocks[..b], FilledIn(world(from))) <= total - sum <= Total(blocks[..b], FilledIn(world(clock)))
    {
      BlockRead(world, from, blocks, b, clock, clock + 1);
      clock := clock + 1;
      var filled := world(clock).blocks[blocks[b]].pos - HEADER;
      used, total := Add(used, filled, total);
      b := b + 1;
    }
    assert blocks[..b] == blocks;
  }

  lemma OneBlock(from: State, was: State, now: State, blocks: seq<nat>, b: nat)
    requires BlocksOnward(from, was) && BlocksOnward(was, now) && b < |blocks|
    requires forall i :: 0 <= i < |blocks| ==> blocks[i] in from.blocks
    ensures blocks[b] in now.blocks
    ensures var filled := now.blocks[blocks[b]].pos - HEADER;
      && Total(blocks[..b + 1], FilledIn(from)) <= Total(blocks[..b], FilledIn(from)) + filled
      && Total(blocks[..b], FilledIn(was)) + filled <= Total(blocks[..b + 1], FilledIn(now))
  {
    TotalUpTo(blocks, b, FilledIn(from));
    TotalUpTo(blocks, b, FilledIn(now));
    FilledGrows(was, now, blocks[..b]);
  }

  lemma BlockRead(world: nat -> State, from: nat, blocks: seq<nat>, b: nat, was: nat, now: nat)
    requires Watched(world) && from <= was <= now && b < |blocks|
    requires forall i :: 0 <= i < |blocks| ==> blocks[i] in world(from).blocks
    ensures blocks[b] in world(now).blocks
    ensures var filled := world(now).blocks[blocks[b]].pos - HEADER;
      && Total(blocks[..b + 1], FilledIn(world(from))) <= Total(blocks[..b], FilledIn(world(from))) + filled
      && Total(blocks[..b], FilledIn(world(was))) + filled <= Total(blocks[..b + 1], FilledIn(world(now)))
  {
    assert OnwardAt(world, from, was) && OnwardAt(world, was, now);
    OneBlock(world(from), world(was), world(now), blocks, b);
  }

  /** SpaceUsed: although it starts by subtracting, and leaves out threads that are just pushing
      themselves, it answers the bytes handed out to callers and for cleanup chunks: at least
      those when it is called, at most those when it returns; exactly, if nothing happens
      meanwhile. */
  method SpaceUsed(world: nat -> State) returns (used: int, clock: nat, ghost total: int)
    requires Watched(world)
    ensures Word(used, total) && Handed(world(0).pieces) <= total <= Handed(world(clock).pieces)
    ensures Handed(world(clock).pieces) < UINT64 ==> Handed(world(0).pieces) <= used <= Handed(world(clock).pieces)
  {
    used, clock, total := 0, 0, 0;
    assert WordOff(0, 0, 0);
    Later(world, 0, 0);
    ghost var first := world(0);
    var info := world(0).head;
    ghost var i := 0;
    while info.Some?
      invariant i <= |first.order| && info == EntryAt(first.order, i) && Word(used, total)
      invariant Come(first, world(clock), i, total)
      decreases |first.order| - i
    {
      var t := info.value;
      ghost var before, start, was := clock, clock + 1, total;
      clock := clock + 1;
      ListRead(world, clock, i);
      used, total := Add(used, 0 - INFO_BYTES, total);
      used, clock, total := UsedByBlocks(world, clock, world(clock).threads[t].blocks, used, total);
      ThreadRead(world, before, start, clock, i, was, total - was + INFO_BYTES);
      ListRead(world, clock, i);
      info := world(clock).threads[t].next;
      i := i + 1;
    }
    assert first.order[..i] == first.order;
    Later(world, 0, clock);
    ListedGrows(first, world(clock));
    HandedNonNegative(first.pieces);
    if total < UINT64 {
      WordFits(used, total);
    }
  }

  lemma {:induction false} HandedNonNegative(pieces: seq<Piece>)
    ensures Handed(pieces) >= 0
  {
    if pieces != [] {
      HandedNonNegative(pieces[..|pieces| - 1]);
    }
  }

  /** What a read of the i-th thread's ThreadInfo finds, at any later time. */
  lemma ListRead(world: nat -> State, k: nat, i: nat)
    requires Watched(world) && i < |world(0).order|
    ensures var t := world(0).order[i];
      && t < |world(0).threads| == |world(k).threads| && world(k).threads[t].next == EntryAt(world(0).order, i + 1)
      && world(k).threads[t].blocks != []
      && forall b :: 0 <= b < |world(k).threads[t].blocks| ==> world(k).threads[t].blocks[b] in world(k).blocks
  {
    Later(world, 0, k);
    var t := world(0).order[i];
    assert NextOk(world(0), i);
    assert ThreadOnward(world(0), world(k), t) && ThreadOk(world(0), t);
    OwnBlocksLive(world(k), t);
  }
}
