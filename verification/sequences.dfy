/** Facts about finite sequences that several models share. */
module Sequences {

  /** An optional value; stands for a nullable pointer. */
  datatype Option<+T> = None | Some(value: T)

  ghost predicate Distinct<T>(xs: seq<T>) {
    forall i, j :: 0 <= i < j < |xs| ==> xs[i] != xs[j]
  }

  /** The elements of xs that satisfy f, in order. */
  function Filter<T(!new)>(xs: seq<T>, f: T -> bool): (ys: seq<T>)
    ensures forall y :: y in ys <==> y in xs && f(y)
  {
    if xs == [] then [] else
      var rest := Filter(xs[1..], f);
      if f(xs[0]) then [xs[0]] + rest else rest
  }

  /** xs without the first occurrence of x. */
  function Remove<T(==,!new)>(xs: seq<T>, x: T): (ys: seq<T>)
    ensures x !in xs ==> ys == xs
    ensures forall y :: y != x ==> (y in ys <==> y in xs)
  {
    if xs == [] then [] else if xs[0] == x then xs[1..] else [xs[0]] + Remove(xs[1..], x)
  }

  lemma DistinctTail<T(!new)>(xs: seq<T>)
    requires xs != [] && Distinct(xs)
    ensures Distinct(xs[1..]) && xs[0] !in xs[1..]
    ensures forall y :: y in xs <==> y == xs[0] || y in xs[1..]
  {
    assert xs == [xs[0]] + xs[1..];
  }

  lemma {:induction false} RemoveAt<T(!new)>(xs: seq<T>, k: nat)
    requires k < |xs| && Distinct(xs)
    ensures Remove(xs, xs[k]) == xs[..k] + xs[k + 1..]
  {
    if k > 0 {
      RemoveAt(xs[1..], k - 1);
      calc {
        Remove(xs, xs[k]);
        [xs[0]] + Remove(xs[1..], xs[1..][k - 1]);
        [xs[0]] + (xs[1..][..k - 1] + xs[1..][k..]);
        { assert [xs[0]] + xs[1..][..k - 1] == xs[..k]; assert xs[1..][k..] == xs[k + 1..]; }
        xs[..k] + xs[k + 1..];
      }
    }
  }

  lemma {:induction false} RemoveDistinct<T(!new)>(xs: seq<T>, x: T)
    requires Distinct(xs)
    ensures Distinct(Remove(xs, x)) && x !in Remove(xs, x)
    ensures x in xs ==> |Remove(xs, x)| == |xs| - 1
  {
    if x in xs {
      var k :| 0 <= k < |xs| && xs[k] == x;
      RemoveAt(xs, k);
    }
  }

  lemma {:induction false} FilterAppend<T(!new)>(xs: seq<T>, ys: seq<T>, f: T -> bool)
    ensures Filter(xs + ys, f) == Filter(xs, f) + Filter(ys, f)
  {
    if xs == [] {
      assert xs + ys == ys;
    } else {
      FilterAppend(xs[1..], ys, f);
      assert (xs + ys)[0] == xs[0] && (xs + ys)[1..] == xs[1..] + ys;
      if f(xs[0]) {
        ConcatAssociates([xs[0]], Filter(xs[1..], f), Filter(ys, f));
      }
    }
  }

  lemma FilterUpTo<T(!new)>(xs: seq<T>, k: nat, f: T -> bool)
    requires k < |xs|
    ensures Filter(xs[..k + 1], f) == Filter(xs[..k], f) + if f(xs[k]) then [xs[k]] else []
  {
    FilterAppend(xs[..k], [xs[k]], f);
    assert xs[..k] + [xs[k]] == xs[..k + 1];
  }

  lemma {:induction false} FilterRemove<T(!new)>(xs: seq<T>, x: T, f: T -> bool)
    ensures Filter(Remove(xs, x), f) == Remove(Filter(xs, f), x)
  {
    if xs == [] {
    } else if xs[0] == x {
      if !f(x) {
        assert x !in Filter(xs, f);
      } else {
        assert Filter(xs, f)[1..] == Filter(xs[1..], f);
      }
    } else {
      FilterRemove(xs[1..], x, f);
      var ys := Remove(xs, x);
      assert ys[0] == xs[0] && ys[1..] == Remove(xs[1..], x);
      if f(xs[0]) {
        assert Filter(xs, f)[1..] == Filter(xs[1..], f);
      }
    }
  }

  lemma {:induction false} FilterSame<T(!new)>(xs: seq<T>, f: T -> bool, g: T -> bool)
    requires forall x :: x in xs ==> f(x) == g(x)
    ensures Filter(xs, f) == Filter(xs, g)
  {
    if xs != [] {
      FilterSame(xs[1..], f, g);
      assert xs[0] in xs;
    }
  }

  lemma {:induction false} FilterNone<T(!new)>(xs: seq<T>, f: T -> bool)
    requires forall i :: 0 <= i < |xs| ==> !f(xs[i])
    ensures Filter(xs, f) == []
  {
    if xs != [] {
      FilterNone(xs[1..], f);
    }
  }

  lemma {:induction false} FilterDistinct<T(!new)>(xs: seq<T>, f: T -> bool)
    requires Distinct(xs)
    ensures Distinct(Filter(xs, f))
  {
    if xs != [] {
      FilterDistinct(xs[1..], f);
      assert xs[0] !in xs[1..];
    }
  }

  /** Filtering by the weaker test first changes nothing. */
  lemma {:induction false} FilterFilter<T(!new)>(xs: seq<T>, f: T -> bool, g: T -> bool)
    requires forall x :: x in xs && g(x) ==> f(x)
    ensures Filter(Filter(xs, f), g) == Filter(xs, g)
  {
    if xs != [] {
      FilterFilter(xs[1..], f, g);
      assert xs[0] in xs;
      if f(xs[0]) {
        assert Filter(xs, f)[1..] == Filter(xs[1..], f);
      }
    }
  }

  /** xs can be got from ys by leaving elements out. */
  ghost predicate Sub<T(!new)>(xs: seq<T>, ys: seq<T>)
    decreases |ys|
  {
    xs == [] || (ys != [] && (Sub(xs, ys[1..]) || (xs[0] == ys[0] && Sub(xs[1..], ys[1..]))))
  }

  lemma {:induction false} SubSelf<T(!new)>(xs: seq<T>)
    ensures Sub(xs, xs)
  {
    if xs != [] {
      SubSelf(xs[1..]);
    }
  }

  lemma {:induction false} SubTrans<T(!new)>(xs: seq<T>, ys: seq<T>, zs: seq<T>)
    requires Sub(xs, ys) && Sub(ys, zs)
    ensures Sub(xs, zs)
    decreases |zs|
  {
    if xs != [] && ys != [] {
      if Sub(ys, zs[1..]) {
        SubTrans(xs, ys, zs[1..]);
      } else if Sub(xs, ys[1..]) {
        SubTrans(xs, ys[1..], zs[1..]);
      } else {
        SubTrans(xs[1..], ys[1..], zs[1..]);
      }
    }
  }

  lemma {:induction false} SubRemove<T(!new)>(xs: seq<T>, x: T)
    ensures Sub(Remove(xs, x), xs)
  {
    if xs == [] {
    } else if xs[0] == x {
      SubSelf(xs[1..]);
    } else {
      SubRemove(xs[1..], x);
      assert Remove(xs, x)[1..] == Remove(xs[1..], x);
    }
  }

  lemma {:induction false} SubLength<T(!new)>(xs: seq<T>, ys: seq<T>)
    requires Sub(xs, ys)
    ensures |xs| <= |ys|
    decreases |ys|
  {
    if xs != [] {
      if Sub(xs, ys[1..]) {
        SubLength(xs, ys[1..]);
      } else {
        SubLength(xs[1..], ys[1..]);
      }
    }
  }

  lemma ConcatAssociates<T>(xs: seq<T>, ys: seq<T>, zs: seq<T>)
    ensures xs + (ys + zs) == (xs + ys) + zs
  {
  }

  function Reversed<T>(xs: seq<T>): (ys: seq<T>) {
    if xs == [] then [] else Reversed(xs[1..]) + [xs[0]]
  }

  lemma {:induction false} ReversedSnoc<T>(xs: seq<T>, x: T)
    ensures Reversed(xs + [x]) == [x] + Reversed(xs)
  {
    if xs != [] {
      ReversedSnoc(xs[1..], x);
      assert (xs + [x])[1..] == xs[1..] + [x];
    }
  }

  lemma {:induction false} ReversedMultiset<T>(xs: seq<T>)
    ensures multiset(Reversed(xs)) == multiset(xs)
  {
    if xs != [] {
      ReversedMultiset(xs[1..]);
      assert xs == [xs[0]] + xs[1..];
    }
  }

  /** The sum of f over xs. */
  ghost function Total(xs: seq<nat>, f: nat -> int): int {
    if xs == [] then 0 else f(xs[0]) + Total(xs[1..], f)
  }

  lemma {:induction false} TotalSnoc(xs: seq<nat>, x: nat, f: nat -> int)
    ensures Total(xs + [x], f) == Total(xs, f) + f(x)
  {
    if xs != [] {
      TotalSnoc(xs[1..], x, f);
      assert (xs + [x])[1..] == xs[1..] + [x];
    }
  }

  lemma {:induction false} TotalSame(xs: seq<nat>, f: nat -> int, g: nat -> int)
    requires forall i :: 0 <= i < |xs| ==> f(xs[i]) == g(xs[i])
    ensures Total(xs, f) == Total(xs, g)
  {
    if xs != [] {
      TotalSame(xs[1..], f, g);
    }
  }

  lemma {:induction false} TotalRemove(xs: seq<nat>, x: nat, f: nat -> int)
    requires x in xs
    ensures Total(xs, f) == f(x) + Total(Remove(xs, x), f)
  {
    if xs[0] != x {
      TotalRemove(xs[1..], x, f);
      assert Remove(xs, x)[1..] == Remove(xs[1..], x);
    }
  }

  /** A change of f at one place changes the sum by as much. */
  lemma TotalChange(xs: seq<nat>, x: nat, f: nat -> int, g: nat -> int)
    requires Distinct(xs) && x in xs && forall y :: y in xs && y != x ==> f(y) == g(y)
    ensures Total(xs, g) - Total(xs, f) == g(x) - f(x)
  {
    TotalRemove(xs, x, f);
    TotalRemove(xs, x, g);
    RemoveDistinct(xs, x);
    var rest := Remove(xs, x);
    forall i | 0 <= i < |rest|
      ensures f(rest[i]) == g(rest[i])
    {
      assert rest[i] in rest;
    }
    TotalSame(rest, f, g);
  }

  /** The sum depends neither on the order nor on elements at which f is zero. */
  lemma {:induction false} TotalPermuted(xs: seq<nat>, ys: seq<nat>, f: nat -> int)
    requires Distinct(xs) && Distinct(ys)
    requires forall x :: x in xs && x !in ys ==> f(x) == 0
    requires forall y :: y in ys && y !in xs ==> f(y) == 0
    ensures Total(xs, f) == Total(ys, f)
    decreases |xs| + |ys|
  {
    if xs == [] {
      if ys != [] {
        DistinctTail(ys);
        assert ys[0] in ys;
        TotalPermuted(xs, ys[1..], f);
      }
    } else {
      DistinctTail(xs);
      var x := xs[0];
      assert x in xs;
      if x in ys {
        TotalRemove(ys, x, f);
        RemoveDistinct(ys, x);
        TotalPermuted(xs[1..], Remove(ys, x), f);
      } else {
        TotalPermuted(xs[1..], ys, f);
      }
    }
  }
}
