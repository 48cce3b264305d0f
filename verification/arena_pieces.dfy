/** The pieces that were handed out of the blocks of one thread, by what they are for. */
module ArenaPieces {
  import opened ArenaState
  import opened ArenaSafety

  /** Of the given pieces those of a kind in blocks of thread t, oldest first. */
  ghost function Mine(blocks: map<nat, Block>, pieces: seq<Piece>, t: nat, kind: PieceKind): seq<Piece> {
    if pieces == [] then [] else
      Mine(blocks, Front(pieces), t, kind) + if IsMine(blocks, Last(pieces), t, kind) then [Last(pieces)] else []
  }

  ghost predicate IsMine(blocks: map<nat, Block>, p: Piece, t: nat, kind: PieceKind) {
    p.kind == kind && p.block in blocks && blocks[p.block].owner == t
  }

  function Front<T>(xs: seq<T>): seq<T>
    requires xs != []
  {
    xs[..|xs| - 1]
  }

  function Last<T>(xs: seq<T>): T
    requires xs != []
  {
    xs[|xs| - 1]
  }

  lemma {:induction false} MineSame(blocks: map<nat, Block>, blocks2: map<nat, Block>, pieces: seq<Piece>, t: nat, kind: PieceKind)
    requires forall i :: 0 <= i < |pieces| ==>
      pieces[i].block in blocks && pieces[i].block in blocks2 && blocks2[pieces[i].block].owner == blocks[pieces[i].block].owner
    ensures Mine(blocks2, pieces, t, kind) == Mine(blocks, pieces, t, kind)
  {
    if pieces != [] {
      MineSame(blocks, blocks2, Front(pieces), t, kind);
    }
  }

  lemma {:induction false} MineMore(blocks: map<nat, Block>, pieces: seq<Piece>, k: nat, t: nat, kind: PieceKind)
    requires k <= |pieces| && forall i :: k <= i < |pieces| ==> !IsMine(blocks, pieces[i], t, kind)
    ensures Mine(blocks, pieces, t, kind) == Mine(blocks, pieces[..k], t, kind)
    decreases |pieces|
  {
    if k == |pieces| {
      assert pieces[..k] == pieces;
    } else {
      MineMore(blocks, Front(pieces), k, t, kind);
      assert Front(pieces)[..k] == pieces[..k];
    }
  }

  ghost predicate OwnersKept(s: State, r: State) {
    forall b :: b in s.blocks ==> b in r.blocks && r.blocks[b].owner == s.blocks[b].owner
  }

  lemma MineKept(s: State, r: State, u: nat, kind: PieceKind)
    requires Pieces(s) && OwnersKept(s, r)
    ensures Mine(r.blocks, s.pieces, u, kind) == Mine(s.blocks, s.pieces, u, kind)
  {
    forall i | 0 <= i < |s.pieces|
      ensures s.pieces[i].block in s.blocks
    {
      assert PieceOk(s, s.pieces[i]);
    }
    MineSame(s.blocks, r.blocks, s.pieces, u, kind);
  }

  lemma {:induction false} MineMember(blocks: map<nat, Block>, pieces: seq<Piece>, t: nat, kind: PieceKind)
    ensures forall p :: p in Mine(blocks, pieces, t, kind) <==> p in pieces && IsMine(blocks, p, t, kind)
  {
    if pieces != [] {
      MineMember(blocks, Front(pieces), t, kind);
      assert pieces == Front(pieces) + [Last(pieces)];
    }
  }
}
