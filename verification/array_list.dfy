/** The intrusive lists of array_list.h, over one region of link cells.

    A queue object holds BUCKETS list heads (m_base of each array_list) followed by its node
    array. A link is not a pointer but the signed byte distance to the neighbour, so cells are
    numbered in address order and Addr gives each cell its byte offset in the object: cell
    c < BUCKETS is the head of bucket c, cell BUCKETS + x is node x. */
module ArrayList {
  import opened Sequences

  const BUCKETS: nat := 36001
  const BUCKET_OFFSET: int := 816
  const HEAD_BYTES: int := 16
  const NODE_OFFSET: int := 576872
  const NODE_BYTES: int := 96

  /** ORPHAN_NODE_DIFF: the link value of a node that is in no list. */
  const ORPHAN: int := 0x7FFFFFFF
  /** C_IDLE_NODE_FLAG: the next link of a node on the free stack. */
  const IDLE: int := 0
  /** C_TAIL_OF_STACK. */
  const TAIL: int := -1

  /** array_list_node_base. */
  datatype Cell = Cell(next: int, prev: int)

  function Addr(c: nat): int {
    if c < BUCKETS then BUCKET_OFFSET + HEAD_BYTES * c else NODE_OFFSET + NODE_BYTES * (c - BUCKETS)
  }

  /** next_node: the cell found at a byte distance from cell c. */
  function CellAt(c: nat, distance: int): int {
    var a := Addr(c) + distance;
    if a < NODE_OFFSET then (a - BUCKET_OFFSET) / HEAD_BYTES else BUCKETS + (a - NODE_OFFSET) / NODE_BYTES
  }

  /** Following the stored distance between two cells arrives at the second one; a stored
      distance is 0 only from a cell to itself, and never the odd orphan mark. */
  lemma LinkArrives(c: nat, d: nat)
    ensures CellAt(c, Addr(d) - Addr(c)) == d
    ensures Addr(d) - Addr(c) == IDLE <==> c == d
    ensures Addr(d) - Addr(c) != ORPHAN
  {
  }

  predicate Linked(l: seq<Cell>, c: nat, d: nat)
    requires c < |l| && d < |l|
  {
    l[c].next == Addr(d) - Addr(c) && l[d].prev == -l[c].next
  }

  function NodeCell(x: nat): nat { BUCKETS + x }

  /** The i-th cell of the ring of bucket b holding nodes xs: the head, the nodes, the head. */
  function At(b: nat, xs: seq<nat>, i: nat): nat
    requires i <= |xs| + 1
  {
    if 0 < i <= |xs| then NodeCell(xs[i - 1]) else b
  }

  predicate InRegion(l: seq<Cell>, b: nat, xs: seq<nat>) {
    b < BUCKETS <= |l| && forall x :: x in xs ==> NodeCell(x) < |l|
  }

  /** The list headed by cell b holds exactly the nodes xs, in this order. */
  ghost predicate Ring(l: seq<Cell>, b: nat, xs: seq<nat>) {
    InRegion(l, b, xs) &&
    forall i :: 0 <= i <= |xs| ==> Linked(l, At(b, xs, i), At(b, xs, i + 1))
  }

  /** What lies under the i-th entry of a stack, counted from the top. */
  function Below(xs: seq<nat>, i: nat): int {
    if i + 1 < |xs| then xs[i + 1] else TAIL
  }

  /** The stack whose top is top holds exactly the nodes xs, topmost first. */
  ghost predicate Stack(l: seq<Cell>, top: int, xs: seq<nat>) {
    BUCKETS <= |l| && (forall x :: x in xs ==> NodeCell(x) < |l|) &&
    top == (if xs == [] then TAIL else xs[0]) &&
    forall i :: 0 <= i < |xs| ==>
      l[NodeCell(xs[i])] == Cell(IDLE, Below(xs, i))
  }

  ghost predicate SameAt(l: seq<Cell>, m: seq<Cell>, c: nat) {
    c < |l| == |m| && l[c] == m[c]
  }

  lemma RingFrame(l: seq<Cell>, m: seq<Cell>, b: nat, xs: seq<nat>)
    requires Ring(l, b, xs) && SameAt(l, m, b)
    requires forall x :: x in xs ==> SameAt(l, m, NodeCell(x))
    ensures Ring(m, b, xs)
  {
    forall i | 0 <= i <= |xs|
      ensures Linked(m, At(b, xs, i), At(b, xs, i + 1))
    {
      assert Linked(l, At(b, xs, i), At(b, xs, i + 1));
      assert SameAt(l, m, At(b, xs, i)) && SameAt(l, m, At(b, xs, i + 1));
    }
  }

  lemma StackFrame(l: seq<Cell>, m: seq<Cell>, top: int, xs: seq<nat>)
    requires Stack(l, top, xs)
    requires |l| == |m| && forall x :: x in xs ==> SameAt(l, m, NodeCell(x))
    ensures Stack(m, top, xs)
  {
    forall i | 0 <= i < |xs|
      ensures m[NodeCell(xs[i])] == Cell(IDLE, Below(xs, i))
    {
      assert SameAt(l, m, NodeCell(xs[i]));
    }
  }

  lemma StackNodeFlag(l: seq<Cell>, top: int, xs: seq<nat>, i: nat)
    requires Stack(l, top, xs) && i < |xs|
    ensures NodeCell(xs[i]) < |l| && l[NodeCell(xs[i])].next == IDLE
  {
    assert xs[i] in xs;
  }

  /** IsOrphanNode and is_in_stack both answer no for every node of a ring. */
  lemma RingNodeFlags(l: seq<Cell>, b: nat, xs: seq<nat>, i: nat)
    requires Ring(l, b, xs) && i < |xs|
    requires Distinct(xs)
    ensures l[NodeCell(xs[i])].next != IDLE && l[NodeCell(xs[i])].next != ORPHAN
    ensures CellAt(NodeCell(xs[i]), l[NodeCell(xs[i])].next) == At(b, xs, i + 2)
    ensures CellAt(NodeCell(xs[i]), l[NodeCell(xs[i])].prev) == At(b, xs, i)
  {
    var c, d, p := At(b, xs, i + 1), At(b, xs, i + 2), At(b, xs, i);
    assert Linked(l, c, d) && Linked(l, p, c);
    LinkArrives(c, d);
    LinkArrives(c, p);
  }

  lemma RingHead(l: seq<Cell>, b: nat, xs: seq<nat>)
    requires Ring(l, b, xs)
    ensures CellAt(b, l[b].next) == At(b, xs, 1)
    ensures CellAt(b, l[b].prev) == At(b, xs, |xs|)
  {
    assert Linked(l, At(b, xs, 0), At(b, xs, 1)) && Linked(l, At(b, xs, |xs|), At(b, xs, |xs| + 1));
    LinkArrives(b, At(b, xs, 1));
    LinkArrives(b, At(b, xs, |xs|));
  }

  /** Going backwards from the head meets the nodes xs in reverse. */
  ghost predicate PrevChain(l: seq<Cell>, b: nat, xs: seq<nat>)
    requires InRegion(l, b, xs)
  {
    forall i :: 0 <= i <= |xs| ==> l[At(b, xs, i + 1)].prev == Addr(At(b, xs, i)) - Addr(At(b, xs, i + 1))
  }

  /** The next links of the ring are in order, that of its j-th cell excepted. */
  ghost predicate NextLinksBut(l: seq<Cell>, b: nat, xs: seq<nat>, j: nat)
    requires InRegion(l, b, xs)
  {
    forall i :: 0 <= i <= |xs| && i != j ==> l[At(b, xs, i)].next == Addr(At(b, xs, i + 1)) - Addr(At(b, xs, i))
  }

  lemma BackFrom(l: seq<Cell>, b: nat, xs: seq<nat>, i: nat)
    requires InRegion(l, b, xs) && PrevChain(l, b, xs) && i <= |xs|
    ensures CellAt(At(b, xs, i + 1), l[At(b, xs, i + 1)].prev) == At(b, xs, i)
    ensures l[At(b, xs, i + 1)].prev == Addr(At(b, xs, i)) - Addr(At(b, xs, i + 1))
  {
    LinkArrives(At(b, xs, i + 1), At(b, xs, i));
  }

  /** Once the next link of the j-th cell is set right, the ring is whole. */
  lemma MendedRing(l: seq<Cell>, m: seq<Cell>, b: nat, xs: seq<nat>, j: nat)
    requires InRegion(l, b, xs) && PrevChain(l, b, xs) && NextLinksBut(l, b, xs, j) && 0 < j <= |xs| && |m| == |l|
    requires Distinct(xs)
    requires m[At(b, xs, j)] == Cell(Addr(At(b, xs, j + 1)) - Addr(At(b, xs, j)), l[At(b, xs, j)].prev)
    requires forall k :: 0 <= k < |l| && k != At(b, xs, j) ==> m[k] == l[k]
    ensures Ring(m, b, xs)
  {
    forall i | 0 <= i <= |xs|
      ensures Linked(m, At(b, xs, i), At(b, xs, i + 1))
    {
      BackFrom(l, b, xs, i);
      if i < j {
        AtDistinct(b, xs, i, j);
      } else if j < i {
        AtDistinct(b, xs, j, i);
      }
    }
  }

  method Link(links: array<Cell>, c: nat, d: nat)
    requires c < links.Length && d < links.Length
    modifies links
    ensures c != d ==> links[c] == Cell(Addr(d) - Addr(c), old(links[c].prev))
    ensures c != d ==> links[d] == Cell(old(links[d].next), Addr(c) - Addr(d))
    ensures c == d ==> links[c] == Cell(0, 0)
    ensures forall k :: 0 <= k < links.Length && k != c && k != d ==> links[k] == old(links[k])
  {
    links[c] := links[c].(next := Addr(d) - Addr(c));
    links[d] := links[d].(prev := -links[c].next);
  }

  /** array_list::init. */
  method Init(links: array<Cell>, b: nat)
    requires b < BUCKETS <= links.Length
    modifies links
    ensures Ring(links[..], b, [])
    ensures forall k :: 0 <= k < links.Length && k != b ==> links[k] == old(links[k])
  {
    Link(links, b, b);
  }

  /** array_list::push_back of node x on bucket b, whose ring holds xs. */
  method PushBack(links: array<Cell>, b: nat, x: nat, ghost xs: seq<nat>)
    requires Ring(links[..], b, xs) && NodeCell(x) < links.Length && x !in xs
    requires Distinct(xs)
    modifies links
    ensures Ring(links[..], b, xs + [x])
    ensures forall k :: 0 <= k < links.Length && k != b && k != NodeCell(x) && k != At(b, xs, |xs|) ==>
      links[k] == old(links[k])
  {
    RingHead(links[..], b, xs);
    var tail := CellAt(b, links[b].prev);
    ghost var l := links[..];
    Link(links, tail, NodeCell(x));
    Link(links, NodeCell(x), b);
    ghost var m, ys := links[..], xs + [x];
    forall i | 0 <= i <= |ys|
      ensures Linked(m, At(b, ys, i), At(b, ys, i + 1))
    {
      if i < |xs| {
        assert Linked(l, At(b, xs, i), At(b, xs, i + 1));
      }
    }
  }

  lemma AtDistinct(b: nat, xs: seq<nat>, i: nat, j: nat)
    requires b < BUCKETS && i < j <= |xs|
    requires Distinct(xs)
    ensures At(b, xs, i) != At(b, xs, j)
  {
  }

  /** Bypassing the i-th node leaves the ring of the others. */
  lemma EraseRing(l: seq<Cell>, m: seq<Cell>, b: nat, xs: seq<nat>, i: nat)
    requires Ring(l, b, xs) && i < |xs| && |m| == |l|
    requires Distinct(xs)
    requires m[At(b, xs, i)].next == Addr(At(b, xs, i + 2)) - Addr(At(b, xs, i))
    requires m[At(b, xs, i + 2)].prev == Addr(At(b, xs, i)) - Addr(At(b, xs, i + 2))
    requires forall k :: 0 <= k < |l| && k != At(b, xs, i) && k != At(b, xs, i + 1) ==> m[k].next == l[k].next
    requires forall k :: 0 <= k < |l| && k != At(b, xs, i + 2) && k != At(b, xs, i + 1) ==> m[k].prev == l[k].prev
    ensures Ring(m, b, xs[..i] + xs[i + 1..])
  {
    var ys := xs[..i] + xs[i + 1..];
    forall j | 0 <= j <= |ys|
      ensures Linked(m, At(b, ys, j), At(b, ys, j + 1))
    {
      AtBypassed(b, xs, i, j);
      AtBypassed(b, xs, i, j + 1);
      if j != i {
        var k := if j < i then j else j + 1;
        assert Linked(l, At(b, xs, k), At(b, xs, k + 1));
        KeepsLink(b, xs, i, k);
      }
    }
  }

  lemma AtBypassed(b: nat, xs: seq<nat>, i: nat, j: nat)
    requires i < |xs| && j <= |xs|
    ensures At(b, xs[..i] + xs[i + 1..], j) == At(b, xs, if j <= i then j else j + 1)
  {
  }

  /** Only the link into and the link out of the i-th node end at it. */
  lemma KeepsLink(b: nat, xs: seq<nat>, i: nat, k: nat)
    requires b < BUCKETS && i < |xs| && k <= |xs| && k != i && k != i + 1
    requires Distinct(xs)
    ensures At(b, xs, k) != At(b, xs, i) && At(b, xs, k) != At(b, xs, i + 1)
    ensures At(b, xs, k + 1) != At(b, xs, i + 1) && At(b, xs, k + 1) != At(b, xs, i + 2)
  {
    if k < i {
      AtDistinct(b, xs, k, i);
      AtDistinct(b, xs, k, i + 1);
    } else {
      AtDistinct(b, xs, i, k);
      AtDistinct(b, xs, i + 1, k);
    }
  }

  /** array_list::erase of the i-th node of bucket b; answers the cell that followed it. */
  method Erase(links: array<Cell>, x: nat, ghost b: nat, ghost xs: seq<nat>, ghost i: nat) returns (next: nat)
    requires Ring(links[..], b, xs) && i < |xs| && xs[i] == x
    requires Distinct(xs)
    modifies links
    ensures Ring(links[..], b, xs[..i] + xs[i + 1..])
    ensures next == At(b, xs, i + 2)
    ensures NodeCell(x) < links.Length && links[NodeCell(x)] == Cell(ORPHAN, ORPHAN)
    ensures forall k :: 0 <= k < links.Length && k != b && k != NodeCell(x) && k != At(b, xs, i) && k != At(b, xs, i + 2) ==>
      links[k] == old(links[k])
  {
    ghost var l := links[..];
    RingNodeFlags(l, b, xs, i);
    var c := NodeCell(x);
    var prev := CellAt(c, links[c].prev);
    next := CellAt(c, links[c].next);
    Link(links, prev, next);
    links[c] := Cell(ORPHAN, ORPHAN);
    EraseRing(l, links[..], b, xs, i);
  }

  /** stack_array_list::reset over the first count nodes. */
  method Reset(links: array<Cell>, count: nat) returns (top: int)
    requires 0 < count && links.Length == BUCKETS + count
    modifies links
    ensures Stack(links[..], top, seq(count, i => i))
    ensures forall k :: 0 <= k < BUCKETS ==> links[k] == old(links[k])
  {
    var i := 0;
    while i < count - 1
      invariant 0 <= i <= count - 1
      invariant forall k :: 0 <= k < i ==> links[NodeCell(k)] == Cell(IDLE, k + 1)
      invariant forall k :: 0 <= k < BUCKETS ==> links[k] == old(links[k])
    {
      links[NodeCell(i)] := Cell(IDLE, i + 1);
      i := i + 1;
    }
    links[NodeCell(count - 1)] := Cell(IDLE, TAIL);
    top := 0;
  }

  /** stack_array_list::pop_back. */
  method Pop(links: array<Cell>, top: int, ghost xs: seq<nat>) returns (newTop: int)
    requires Stack(links[..], top, xs) && xs != []
    ensures Stack(links[..], newTop, xs[1..])
  {
    newTop := links[NodeCell(top)].prev;
    assert links[..][NodeCell(xs[0])] == Cell(IDLE, Below(xs, 0));
    forall i | 0 <= i < |xs| - 1
      ensures links[..][NodeCell(xs[1..][i])] == Cell(IDLE, Below(xs, i + 1))
    {
      assert xs[1..][i] == xs[i + 1];
    }
  }

  /** stack_array_list::push_back of an orphan node. */
  method Push(links: array<Cell>, top: int, x: nat, ghost xs: seq<nat>) returns (newTop: int)
    requires Stack(links[..], top, xs) && x !in xs && NodeCell(x) < links.Length
    requires links[NodeCell(x)] == Cell(ORPHAN, ORPHAN)
    modifies links
    ensures Stack(links[..], newTop, [x] + xs)
    ensures forall k :: 0 <= k < links.Length && k != NodeCell(x) ==> links[k] == old(links[k])
  {
    ghost var l := links[..];
    links[NodeCell(x)] := Cell(IDLE, top);
    newTop := x;
    forall i | 0 < i < |xs| + 1
      ensures links[..][NodeCell(([x] + xs)[i])] == Cell(IDLE, Below(xs, i - 1))
    {
      assert xs[i - 1] in xs && SameAt(l, links[..], NodeCell(xs[i - 1]));
    }
  }
}
