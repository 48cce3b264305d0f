/** Every cleanup chunk has memory of its own, with room for all its nodes. */
module ArenaChunks {
  import opened Sequences
  import opened ArenaState
  import opened ArenaSafety
  import opened ArenaRuns
  import opened ArenaCleanup
  import opened ArenaGrowth
  import opened ArenaPieces

  // ---------- chunks and pieces ----------

  /** The chunks, newest first, against the pieces made for them, oldest first: each piece is as
      large as the head of a chunk, three words, and its nodes of two words each. */
  ghost predicate Housed(chunks: seq<Chunk>, pieces: seq<Piece>) {
    if chunks == [] then pieces == []
    else pieces != [] && Last(pieces).n == 24 + 16 * chunks[0].size && Housed(chunks[1..], Front(pieces))
  }

  lemma HousedMore(chunks: seq<Chunk>, pieces: seq<Piece>, c: Chunk, p: Piece)
    requires Housed(chunks, pieces) && p.n == 24 + 16 * c.size
    ensures Housed([c] + chunks, pieces + [p])
  {
    assert ([c] + chunks)[1..] == chunks && Front(pieces + [p]) == pieces;
  }

  lemma HousedPut(chunks: seq<Chunk>, pieces: seq<Piece>, c: Chunk)
    requires Housed(chunks, pieces) && chunks != [] && c.size == chunks[0].size
    ensures Housed([c] + chunks[1..], pieces)
  {
    assert ([c] + chunks[1..])[1..] == chunks[1..];
  }

  ghost function Rooms(s: State, t: nat): seq<Piece> { Mine(s.blocks, s.pieces, t, ChunkMemory) }

  ghost predicate ThreadHoused(s: State, t: nat) {
    t < |s.threads| && Housed(s.threads[t].chunks, Rooms(s, t))
  }

  ghost predicate AllHoused(s: State) {
    forall t :: 0 <= t < |s.threads| ==> ThreadHoused(s, t)
  }

  ghost predicate PiecesLive(s: State) {
    forall i :: 0 <= i < |s.pieces| ==> s.pieces[i].block in s.blocks
  }

  lemma SafeLive(s: State)
    requires Safe(s)
    ensures PiecesLive(s)
  {
    forall i | 0 <= i < |s.pieces|
      ensures s.pieces[i].block in s.blocks
    {
      assert PieceOk(s, s.pieces[i]);
    }
  }

  // ---------- the small changes ----------

  lemma RoomsTake(s: State, a: nat, n: nat, kind: PieceKind, u: nat)
    requires PiecesLive(s) && a in s.blocks
    ensures PiecesLive(Take(s, a, n, kind))
    ensures Rooms(Take(s, a, n, kind), u)
         == Rooms(s, u) + if kind == ChunkMemory && s.blocks[a].owner == u then [Piece(kind, a, s.blocks[a].pos, n)] else []
  {
    var r := Take(s, a, n, kind);
    MineSame(s.blocks, r.blocks, s.pieces, u, ChunkMemory);
    assert Front(r.pieces) == s.pieces;
  }

  /** Nothing for chunks, and no chunk. */
  ghost predicate ChunksKept(s: State, r: State) {
    && PiecesLive(r) && |r.threads| == |s.threads|
    && forall u :: 0 <= u < |s.threads| ==> r.threads[u].chunks == s.threads[u].chunks && Rooms(r, u) == Rooms(s, u)
  }

  lemma KeptHoused(s: State, r: State)
    requires AllHoused(s) && ChunksKept(s, r)
    ensures AllHoused(r)
  {
    forall u | 0 <= u < |r.threads|
      ensures ThreadHoused(r, u)
    {
      assert ThreadHoused(s, u);
    }
  }

  lemma SamePieces(s: State, r: State)
    requires PiecesLive(s) && r.pieces == s.pieces && |r.threads| == |s.threads| && OwnersKept(s, r)
    requires forall u :: 0 <= u < |s.threads| ==> r.threads[u].chunks == s.threads[u].chunks
    ensures ChunksKept(s, r)
  {
    forall u | 0 <= u < |s.threads|
      ensures Rooms(r, u) == Rooms(s, u)
    {
      MineSame(s.blocks, r.blocks, s.pieces, u, ChunkMemory);
    }
  }

  lemma TakeKept(s: State, a: nat, n: nat, kind: PieceKind)
    requires PiecesLive(s) && a in s.blocks && kind != ChunkMemory
    ensures ChunksKept(s, Take(s, a, n, kind))
  {
    forall u | 0 <= u < |s.threads|
      ensures Rooms(Take(s, a, n, kind), u) == Rooms(s, u)
    {
      RoomsTake(s, a, n, kind, u);
    }
  }

  lemma AppendHoused(s: State, t: nat, elem: nat)
    requires PiecesLive(s) && AllHoused(s) && t < |s.threads| == |s.registered| && s.threads[t].chunks != []
    ensures AllHoused(Append(s, t, elem)) && PiecesLive(Append(s, t, elem))
  {
    var r := Append(s, t, elem);
    forall u | 0 <= u < |r.threads|
      ensures ThreadHoused(r, u)
    {
      assert ThreadHoused(s, u);
      if u == t {
        HousedPut(s.threads[t].chunks, Rooms(s, t), r.threads[t].chunks[0]);
      }
    }
  }

  lemma AddChunkHoused(s: State, t: nat, a: nat)
    requires PiecesLive(s) && AllHoused(s) && t < |s.threads| && a in s.blocks && s.blocks[a].owner == t
    ensures AllHoused(AddChunk(s, t, a)) && PiecesLive(AddChunk(s, t, a))
  {
    var size := NextChunkSize(s.threads[t].chunks);
    var s1, r := Take(s, a, ChunkBytes(size), ChunkMemory), AddChunk(s, t, a);
    RoomsTake(s, a, ChunkBytes(size), ChunkMemory, t);
    forall u | 0 <= u < |r.threads|
      ensures ThreadHoused(r, u)
    {
      RoomsTake(s, a, ChunkBytes(size), ChunkMemory, u);
      OneMoreChunk(s, s1, r, t, size, u);
    }
  }

  lemma OneMoreChunk(s: State, s1: State, r: State, t: nat, size: nat, u: nat)
    requires t < |s.threads| && u < |s.threads| && ThreadHoused(s, u) && s1.threads == s.threads
    requires u != t ==> Rooms(s1, u) == Rooms(s, u)
    requires u == t ==> Rooms(s1, u) != [] && Front(Rooms(s1, u)) == Rooms(s, u) && Last(Rooms(s1, u)).n == 24 + 16 * size
    requires r == s1.(threads := s1.threads[t := s1.threads[t].(chunks := [Chunk(size, [])] + s1.threads[t].chunks)])
    ensures ThreadHoused(r, u)
  {
    if u == t {
      var ps := Rooms(s1, t);
      HousedMore(s.threads[t].chunks, Rooms(s, t), Chunk(size, []), Last(ps));
      assert ps == Rooms(s, t) + [Last(ps)];
    }
  }

  lemma RegisterHoused(s: State, t: nat, a: nat, elem: nat)
    requires PiecesLive(s) && AllHoused(s) && t < |s.threads| == |s.registered| && a in s.blocks && s.blocks[a].owner == t
    ensures AllHoused(RegisterIn(s, t, a, elem))
  {
    var chunks := s.threads[t].chunks;
    if !NeedsChunk(chunks) {
      AppendHoused(s, t, elem);
    } else if Avail(s.blocks[a]) < ChunkBytes(NextChunkSize(chunks)) {
      SamePieces(s, WithPc(s, t, Start(Grow(elem))));
      KeptHoused(s, WithPc(s, t, Start(Grow(elem))));
    } else {
      AddChunkHoused(s, t, a);
      AppendHoused(AddChunk(s, t, a), t, elem);
    }
  }

  lemma UseHoused(s: State, t: nat, a: nat, goal: Goal)
    requires PiecesLive(s) && AllHoused(s) && t < |s.threads| == |s.registered| && a in s.blocks && s.blocks[a].owner == t
    ensures AllHoused(Use(s, t, a, goal))
  {
    match goal
    case Allocate(n) =>
      TakeKept(s, a, n, User);
      var s1 := Take(s, a, n, User);
      KeptHoused(s, s1);
      SamePieces(s1, WithPc(s1, t, Idle));
      KeptHoused(s1, WithPc(s1, t, Idle));
    case AllocateWithCleanup(n) =>
      TakeKept(s, a, n, User);
      KeptHoused(s, Take(s, a, n, User));
      RegisterHoused(Take(s, a, n, User), t, a, a + s.blocks[a].pos);
    case Register(elem) => RegisterHoused(s, t, a, elem);
    case Grow(elem) =>
      AddChunkHoused(s, t, a);
      AppendHoused(AddChunk(s, t, a), t, elem);
  }

  // ---------- the steps ----------

  lemma StartHoused(s: State, t: nat)
    requires Safe(s) && Shape(s) && AllHoused(s) && t < |s.threads| && s.threads[t].pc.Start?
    ensures AllHoused(StepStart(s, t))
  {
    var th := s.threads[t];
    SafeLive(s);
    if th.cache.lifecycle == s.lifecycle {
      CacheNamesOwnBlock(s, t);
      if Avail(s.blocks[th.cache.block]) >= Need(th.pc.goal, th.chunks) {
        UseHoused(s, t, th.cache.block, th.pc.goal);
      } else {
        PcHoused(s, t, CheckHint(th.pc.goal, Some(th.cache.block)));
      }
    } else {
      PcHoused(s, t, CheckHint(th.pc.goal, None));
    }
  }

  lemma PcHoused(s: State, t: nat, pc: Pc)
    requires PiecesLive(s) && AllHoused(s) && t < |s.threads|
    ensures AllHoused(WithPc(s, t, pc))
  {
    SamePieces(s, WithPc(s, t, pc));
    KeptHoused(s, WithPc(s, t, pc));
  }

  lemma HintHoused(s: State, t: nat)
    requires Safe(s) && Shape(s) && AllHoused(s) && t < |s.threads| && s.threads[t].pc.CheckHint?
    ensures AllHoused(StepHint(s, t))
  {
    var th := s.threads[t];
    SafeLive(s);
    if s.hint.Some? && s.blocks[s.hint.value].owner == t {
      if Avail(s.blocks[s.hint.value]) >= Need(th.pc.goal, th.chunks) {
        UseHoused(s, t, s.hint.value, th.pc.goal);
      } else {
        PcHoused(s, t, Slow(th.pc.goal, s.hint));
      }
    } else {
      PcHoused(s, t, Slow(th.pc.goal, th.pc.mine));
    }
  }

  lemma FirstHoused(s: State, t: nat, a: nat)
    requires Safe(s) && Shape(s) && AllHoused(s) && t < |s.threads| && s.threads[t].pc.First? && Granted(s, t, a)
    ensures AllHoused(StepFirst(s, t, a))
  {
    var goal := s.threads[t].pc.goal;
    var size := NewSize(s, None, INFO_BYTES + Need(goal, s.threads[t].chunks));
    SafeLive(s);
    FreshIsNew(s, a, size);
    FirstBlockHoused(s, t, a, size, goal);
  }

  lemma FirstBlockHoused(s: State, t: nat, a: nat, size: nat, goal: Goal)
    requires PiecesLive(s) && AllHoused(s) && t < |s.threads| && a !in s.blocks
    ensures AllHoused(FirstBlock(s, t, a, size, goal))
  {
    var s1 := NewBlock(s, t, a, size);
    SamePieces(s, s1);
    KeptHoused(s, s1);
    TakeKept(s1, a, INFO_BYTES, Info);
    KeptHoused(s1, Take(s1, a, INFO_BYTES, Info));
    PcHoused(Take(s1, a, INFO_BYTES, Info), t, Load(goal));
  }

  lemma RoomHoused(s: State, t: nat, a: nat)
    requires Safe(s) && Shape(s) && AllHoused(s) && t < |s.threads| && s.threads[t].pc.Room? && Granted(s, t, a)
    ensures AllHoused(StepRoom(s, t, a))
  {
    SafeLive(s);
    assert ThreadShape(s, s.threads[t]);
    if Asks(s, t).Some? {
      FreshIsNew(s, a, Asks(s, t).value);
      NextBlockHoused(s, t, a, Asks(s, t).value, Publish(s.threads[t].pc.goal));
    } else {
      PcHoused(s, t, Publish(s.threads[t].pc.goal));
    }
  }

  lemma NextBlockHoused(s: State, t: nat, a: nat, size: nat, pc: Pc)
    requires PiecesLive(s) && AllHoused(s) && t < |s.threads| && a !in s.blocks
    ensures AllHoused(WithPc(NewBlock(s, t, a, size), t, pc))
  {
    var s1 := NewBlock(s, t, a, size);
    SamePieces(s, s1);
    KeptHoused(s, s1);
    PcHoused(s1, t, pc);
  }

  lemma PublishHoused(s: State, t: nat)
    requires Safe(s) && Shape(s) && AllHoused(s) && t < |s.threads| && s.threads[t].pc.Publish?
    ensures AllHoused(StepPublish(s, t))
  {
    var th := s.threads[t];
    assert ThreadShape(s, th) && OwnsList(s, t);
    assert th.blocks[0] in th.blocks;
    SafeLive(s);
    var s1 := s.(threads := s.threads[t := th.(cache := Cache(s.lifecycle, th.blocks[0]))], hint := Some(th.blocks[0]));
    SamePieces(s, s1);
    KeptHoused(s, s1);
    UseHoused(s1, t, th.blocks[0], th.pc.goal);
  }

  lemma PushHoused(s: State, t: nat)
    requires PiecesLive(s) && AllHoused(s) && t < |s.threads|
    ensures s.threads[t].pc.Load? ==> AllHoused(StepLoad(s, t))
    ensures s.threads[t].pc.Cas? ==> AllHoused(StepCas(s, t))
  {
    if s.threads[t].pc.Load? {
      SamePieces(s, StepLoad(s, t));
      KeptHoused(s, StepLoad(s, t));
    } else if s.threads[t].pc.Cas? {
      SamePieces(s, StepCas(s, t));
      KeptHoused(s, StepCas(s, t));
    }
  }

  lemma StepHoused(s: State, t: nat, a: nat)
    requires Safe(s) && Shape(s) && AllHoused(s) && t < |s.threads| && Granted(s, t, a)
    ensures AllHoused(Step(s, t, a))
  {
    SafeLive(s);
    match s.threads[t].pc
    case Idle =>
    case Start(_) => StartHoused(s, t);
    case CheckHint(_, _) => HintHoused(s, t);
    case Slow(goal, mine) => PcHoused(s, t, if mine.Some? || t in s.order then Room(goal) else First(goal));
    case First(_) => FirstHoused(s, t, a);
    case Load(_) => PushHoused(s, t);
    case Cas(_, _) => PushHoused(s, t);
    case Room(_) => RoomHoused(s, t, a);
    case Publish(_) => PublishHoused(s, t);
  }

  // ---------- runs ----------

  /** No chunks, and no memory for any. */
  ghost predicate NoChunks(r: State) {
    && (forall u :: 0 <= u < |r.threads| ==> r.threads[u].chunks == [])
    && (forall i :: 0 <= i < |r.pieces| ==> r.pieces[i].kind != ChunkMemory)
  }

  lemma InitNoChunks(s: State, t: nat)
    requires t < |s.threads| == |s.registered|
    ensures NoChunks(Init(s, t))
  {
  }

  lemma NoChunksHoused(r: State)
    requires NoChunks(r)
    ensures AllHoused(r)
  {
    forall u | 0 <= u < |r.threads|
      ensures ThreadHoused(r, u)
    {
      MineMore(r.blocks, r.pieces, 0, u, ChunkMemory);
    }
  }

  lemma InitHoused(s: State, t: nat)
    requires t < |s.threads| == |s.registered|
    ensures AllHoused(Init(s, t))
  {
    InitNoChunks(s, t);
    NoChunksHoused(Init(s, t));
  }

  lemma DoHoused(s: State, m: Move)
    requires Safe(s) && MoveOk(s, m) && AllHoused(s)
    ensures AllHoused(Do(s, m))
  {
    SafeLive(s);
    match m
    case Call(t, goal) => PcHoused(s, t, Start(goal));
    case Go(t, a) => StepHoused(s, t, a);
    case Elsewhere(_, _, _) =>
      SamePieces(s, Do(s, m));
      KeptHoused(s, Do(s, m));
    case Reset(t) => InitHoused(s, t);
  }

  lemma {:induction false} RunHoused(s: State, moves: seq<Move>)
    requires Safe(s) && OptionsOk(s.options) && AllHoused(s)
    ensures AllHoused(Run(s, moves))
    decreases |moves|
  {
    if moves == [] {
    } else if !MoveOk(s, moves[0]) {
      RunHoused(s, moves[1..]);
    } else {
      DoSafe(s, moves[0]);
      DoOptions(s, moves[0]);
      DoHoused(s, moves[0]);
      RunHoused(Do(s, moves[0]), moves[1..]);
    }
  }

  /** The piece has room for the head and all the nodes of the k-th chunk, and no more. */
  ghost predicate RoomFor(c: Chunk, p: Piece, k: nat) {
    p.n == 24 + 16 * c.size && p.n == if k == 0 then 152 else if k == 1 then 280 else if k == 2 then 536 else 1048
  }

  lemma {:induction false} HousedAt(chunks: seq<Chunk>, pieces: seq<Piece>, k: nat)
    requires Housed(chunks, pieces) && Grown(chunks) && k < |chunks|
    ensures |pieces| == |chunks|
    ensures RoomFor(chunks[|chunks| - 1 - k], pieces[k], k)
  {
    ChunkSizes(chunks, k);
    if k < |chunks| - 1 {
      HousedAt(chunks[1..], Front(pieces), k);
    } else if k > 0 {
      HousedAt(chunks[1..], Front(pieces), k - 1);
    } else {
      assert Front(pieces) == [];
    }
  }

  /** In every reachable state the k-th oldest chunk of each thread has a piece of memory of its
      own, in a block of that thread, of 152, 280, 536 and then always 1048 bytes: room for its
      head and for all its 8, 16, 32 or 64 nodes. By ArenaIsSafe no other piece overlaps it. */
  lemma ChunksHaveRoom(options: Options, n: nat, t: nat, moves: seq<Move>, u: nat, k: nat)
    requires t < n && OptionsOk(options)
    ensures Safe(Created(options, n, t)) && Created(options, n, t).options == options
    ensures var r := Run(Created(options, n, t), moves);
      u < |r.threads| && k < |r.threads[u].chunks| ==>
        var c, ps := r.threads[u].chunks[|r.threads[u].chunks| - 1 - k], Rooms(r, u);
        && |ps| == |r.threads[u].chunks| && ps[k] in r.pieces && IsMine(r.blocks, ps[k], u, ChunkMemory)
        && RoomFor(c, ps[k], k)
  {
    CreatedSafe(options, n, t);
    CreatedHoused(options, n, t);
    RunBooked(Created(options, n, t), moves);
    RunHoused(Created(options, n, t), moves);
    RoomOfChunk(Run(Created(options, n, t), moves), u, k);
  }

  lemma CreatedHoused(options: Options, n: nat, t: nat)
    requires t < n && OptionsOk(options)
    ensures Booked(Created(options, n, t)) && AllHoused(Created(options, n, t))
  {
    var s := State(options, map[], seq(n, _ => Thread([], [], None, Cache(-1, 0), Idle)), None, None, 0, -1, 0, [], [],
                   seq(n, _ => []));
    InitBooked(s, t);
    InitHoused(s, t);
  }

  lemma RoomOfChunk(r: State, u: nat, k: nat)
    requires Booked(r) && AllHoused(r)
    ensures u < |r.threads| && k < |r.threads[u].chunks| ==>
      var c, ps := r.threads[u].chunks[|r.threads[u].chunks| - 1 - k], Rooms(r, u);
      && |ps| == |r.threads[u].chunks| && ps[k] in r.pieces && IsMine(r.blocks, ps[k], u, ChunkMemory)
      && RoomFor(c, ps[k], k)
  {
    if u < |r.threads| && k < |r.threads[u].chunks| {
      BookedGrown(r, u);
      assert ThreadHoused(r, u);
      RoomAt(r.blocks, r.pieces, Rooms(r, u), r.threads[u].chunks, u, k);
    }
  }

  lemma BookedGrown(r: State, u: nat)
    requires Booked(r) && u < |r.threads|
    ensures Grown(r.threads[u].chunks)
  {
    assert Book(r, u);
  }

  lemma RoomAt(blocks: map<nat, Block>, pieces: seq<Piece>, ps: seq<Piece>, chunks: seq<Chunk>, u: nat, k: nat)
    requires ps == Mine(blocks, pieces, u, ChunkMemory) && Housed(chunks, ps) && Grown(chunks) && k < |chunks|
    ensures |ps| == |chunks| && ps[k] in pieces && IsMine(blocks, ps[k], u, ChunkMemory)
    ensures RoomFor(chunks[|chunks| - 1 - k], ps[k], k)
  {
    HousedAt(chunks, ps, k);
    MineAt(blocks, pieces, u, k);
  }

  lemma MineAt(blocks: map<nat, Block>, pieces: seq<Piece>, u: nat, k: nat)
    requires k < |Mine(blocks, pieces, u, ChunkMemory)|
    ensures var p := Mine(blocks, pieces, u, ChunkMemory)[k]; p in pieces && IsMine(blocks, p, u, ChunkMemory)
  {
    MineMember(blocks, pieces, u, ChunkMemory);
    assert Mine(blocks, pieces, u, ChunkMemory)[k] in Mine(blocks, pieces, u, ChunkMemory);
  }

  ghost predicate Apart(pieces: seq<Piece>) {
    forall i, j :: 0 <= i < j < |pieces| ==> Disjoint(pieces[i], pieces[j])
  }

  lemma {:induction false} RoomsApart(blocks: map<nat, Block>, pieces: seq<Piece>, t: nat)
    requires Apart(pieces)
    ensures Apart(Mine(blocks, pieces, t, ChunkMemory))
  {
    if pieces != [] {
      var front, ps := Front(pieces), Mine(blocks, Front(pieces), t, ChunkMemory);
      RoomsApart(blocks, front, t);
      MineMember(blocks, front, t, ChunkMemory);
      forall i | 0 <= i < |ps|
        ensures Disjoint(ps[i], Last(pieces))
      {
        assert ps[i] in front;
        var k :| 0 <= k < |front| && front[k] == ps[i];
        assert Disjoint(pieces[k], pieces[|pieces| - 1]);
      }
      ApartMore(ps, Last(pieces));
    }
  }

  lemma ApartMore(ps: seq<Piece>, p: Piece)
    requires Apart(ps) && forall i :: 0 <= i < |ps| ==> Disjoint(ps[i], p)
    ensures Apart(ps + [p])
  {
  }

  /** And no two chunks of a thread share memory. */
  lemma ChunksLieApart(options: Options, n: nat, t: nat, moves: seq<Move>, u: nat)
    requires t < n && OptionsOk(options)
    ensures Safe(Created(options, n, t)) && Created(options, n, t).options == options
    ensures Apart(Rooms(Run(Created(options, n, t), moves), u))
  {
    ArenaIsSafe(options, n, t, moves);
    var r := Run(Created(options, n, t), moves);
    RoomsApart(r.blocks, r.pieces, u);
  }
}
