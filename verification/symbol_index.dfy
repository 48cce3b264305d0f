/** The by_symbol_ index of SimpleDescriptorDatabase::DescriptorIndex: an ordered map from symbol
    names to the files that define them, searched by predecessor. */
module SymbolIndex {
  import opened Sequences
  import opened SymbolNames

  /** std::map<string, Value>, as its entries in key order. */
  type Entries<V> = seq<(string, V)>

  ghost predicate Sorted<V>(es: Entries<V>) {
    forall i, j :: 0 <= i < j < |es| ==> Less(es[i].0, es[j].0)
  }

  ghost predicate LegalKeys<V>(es: Entries<V>) {
    forall i :: 0 <= i < |es| ==> Legal(es[i].0)
  }

  /** The map invariant of the header: no key is a dotted ancestor of another. */
  ghost predicate AncestorFree<V>(es: Entries<V>) {
    forall i, j :: 0 <= i < |es| && 0 <= j < |es| && i != j ==> !Encloses(es[i].0, es[j].0)
  }

  /** std::map::upper_bound: how many keys sort no later than name. */
  function UpperBound<V>(es: Entries<V>, name: string): (u: nat)
    ensures u <= |es|
    ensures forall i :: 0 <= i < u ==> !Less(name, es[i].0)
    ensures u < |es| ==> Less(name, es[u].0)
  {
    if es == [] || Less(name, es[0].0) then 0 else
      var u := 1 + UpperBound(es[1..], name);
      assert forall i :: 0 < i < u ==> es[i] == es[1..][i - 1];
      u
  }

  /** FindLastLessOrEqual; the end iterator is the number of entries. */
  function FindLastLessOrEqual<V>(es: Entries<V>, name: string): (i: nat)
    ensures i <= |es| && (i == |es| <==> es == [])
  {
    var u := UpperBound(es, name);
    if u != 0 then u - 1 else u
  }

  /** FindSymbol; None stands for the default value that marks a failed search. */
  function FindSymbol<V>(es: Entries<V>, name: string): Option<V> {
    var i := FindLastLessOrEqual(es, name);
    if i != |es| && Encloses(es[i].0, name) then Some(es[i].1) else None
  }

  // ---------- the lookup argument ----------

  lemma AtMostBound<V>(es: Entries<V>, name: string, i: nat)
    requires Sorted(es) && i < |es|
    ensures i < UpperBound(es, name) <==> AtMost(es[i].0, name)
  {
    var u := UpperBound(es, name);
    LessTotal(es[i].0, name);
    if u < i {
      LessTrans(name, es[u].0, es[i].0);
    }
  }

  lemma EnclosingAtMost(outer: string, inner: string)
    requires Encloses(outer, inner)
    ensures AtMost(outer, inner)
  {
    if outer != inner {
      EnclosingIsLess(outer, inner);
    }
  }

  /** If a key encloses the name searched for, it is the last key that sorts no later. */
  lemma MatchIsPredecessor<V>(es: Entries<V>, name: string, i: nat)
    requires Sorted(es) && LegalKeys(es) && AncestorFree(es) && i < |es| && Encloses(es[i].0, name)
    ensures i == FindLastLessOrEqual(es, name)
  {
    var f := FindLastLessOrEqual(es, name);
    EnclosingAtMost(es[i].0, name);
    AtMostBound(es, name, i);
    if i < f {
      AtMostBound(es, name, f);
      LessTotal(es[i].0, es[f].0);
      LessTotal(es[f].0, name);
      Between(es[i].0, es[f].0, name);
    }
  }

  /** For every search string at most one key equals or encloses it, and FindSymbol answers that
      key's value exactly when it exists. */
  lemma FindSymbolFindsTheMatch<V>(es: Entries<V>, name: string)
    requires Sorted(es) && LegalKeys(es) && AncestorFree(es)
    ensures forall i, j :: 0 <= i < |es| && 0 <= j < |es| && Encloses(es[i].0, name) && Encloses(es[j].0, name) ==> i == j
    ensures forall i :: 0 <= i < |es| && Encloses(es[i].0, name) ==> FindSymbol(es, name) == Some(es[i].1)
    ensures FindSymbol(es, name) == None <==> forall i :: 0 <= i < |es| ==> !Encloses(es[i].0, name)
  {
    forall i | 0 <= i < |es| && Encloses(es[i].0, name)
      ensures i == FindLastLessOrEqual(es, name)
    {
      MatchIsPredecessor(es, name, i);
    }
  }

  // ---------- adding ----------

  ghost predicate Conflict(key: string, name: string) {
    Encloses(key, name) || Encloses(name, key)
  }

  /** The key that AddSymbol passes over: the first one, when the name sorts before it. */
  ghost predicate PassedOver<V>(es: Entries<V>, name: string, i: nat) {
    i == 0 && es != [] && Less(name, es[0].0)
  }

  ghost predicate ConflictFree<V>(es: Entries<V>, name: string) {
    forall i :: 0 <= i < |es| ==> !Conflict(es[i].0, name)
  }

  function Inserted<V>(es: Entries<V>, name: string, value: V): Entries<V> {
    var u := UpperBound(es, name);
    es[..u] + [(name, value)] + es[u..]
  }

  /** A key that conflicts with the name is its predecessor, or its successor does too. */
  lemma ConflictIsNear<V>(es: Entries<V>, name: string, i: nat)
    requires Sorted(es) && LegalKeys(es) && AncestorFree(es) && Legal(name) && i < |es| && Conflict(es[i].0, name)
    ensures var u := UpperBound(es, name);
      (i < u && i == u - 1 && Encloses(es[i].0, name)) || (u <= i && u < |es| && Encloses(name, es[u].0))
  {
    var u := UpperBound(es, name);
    AtMostBound(es, name, i);
    if Encloses(es[i].0, name) {
      MatchIsPredecessor(es, name, i);
      EnclosingAtMost(es[i].0, name);
    } else {
      EnclosingAtMost(name, es[i].0);
      LessTotal(es[i].0, name);
      if u < i {
        Between(name, es[u].0, es[i].0);
      }
    }
  }

  lemma InsertedSorted<V>(es: Entries<V>, name: string, value: V)
    requires Sorted(es) && LegalKeys(es) && Legal(name) && forall i :: 0 <= i < |es| ==> es[i].0 != name
    ensures Sorted(Inserted(es, name, value)) && LegalKeys(Inserted(es, name, value))
  {
    var u, r := UpperBound(es, name), Inserted(es, name, value);
    forall i, j | 0 <= i < j < |r|
      ensures Less(r[i].0, r[j].0)
    {
      if j == u {
        AtMostBound(es, name, i);
      } else if i == u {
        AtMostBound(es, name, j - 1);
        LessTotal(es[j - 1].0, name);
      }
    }
  }

  /** The entries of the map after inserting are those from before and the new one. */
  lemma InsertedEntries<V(!new)>(es: Entries<V>, name: string, value: V, e: (string, V))
    ensures e in Inserted(es, name, value) <==> e in es || e == (name, value)
  {
    var u := UpperBound(es, name);
    assert es == es[..u] + es[u..];
  }

  /** After inserting a name that conflicts with no key, FindSymbol answers its value for the name
      and all that it encloses, and for everything else what it answered before. */
  lemma FoundAfterInserting<V(!new)>(es: Entries<V>, name: string, value: V, search: string)
    requires Sorted(es) && LegalKeys(es) && AncestorFree(es) && Legal(name) && ConflictFree(es, name)
    ensures var r := Inserted(es, name, value);
      && Sorted(r) && LegalKeys(r) && AncestorFree(r)
      && FindSymbol(r, search) ==
           if search == name || exists rest: string :: search == name + "." + rest then Some(value) else FindSymbol(es, search)
  {
    var u, r := UpperBound(es, name), Inserted(es, name, value);
    assert forall i :: 0 <= i < |es| && es[i].0 == name ==> Conflict(es[i].0, name);
    InsertedSorted(es, name, value);
    InsertedAncestorFree(es, name, value);
    EnclosesExact(name, search);
    forall j | 0 <= j < |r| && j != u
      ensures r[j] == es[if j < u then j else j - 1]
    {
    }
    FindSymbolFindsTheMatch(es, search);
    FindSymbolFindsTheMatch(r, search);
    assert r[u] == (name, value);
    forall i | 0 <= i < |es| && Encloses(es[i].0, search)
      ensures FindSymbol(r, search) == FindSymbol(es, search)
    {
      assert r[if i < u then i else i + 1] == es[i];
    }
  }

  /** After inserting, the map invariant holds exactly if it held before and nothing conflicts. */
  lemma InsertedAncestorFree<V>(es: Entries<V>, name: string, value: V)
    ensures AncestorFree(Inserted(es, name, value)) <==> AncestorFree(es) && ConflictFree(es, name)
  {
    var u, r := UpperBound(es, name), Inserted(es, name, value);
    assert r[u].0 == name;
    forall i | 0 <= i < |es|
      ensures Conflict(es[i].0, name) ==> !AncestorFree(r)
    {
      assert es[i] == r[if i < u then i else i + 1];
    }
    forall i, j | 0 <= i < |es| && 0 <= j < |es| && i != j && Encloses(es[i].0, es[j].0)
      ensures !AncestorFree(r)
    {
      assert es[i] == r[if i < u then i else i + 1] && es[j] == r[if j < u then j else j + 1];
    }
    if AncestorFree(es) && ConflictFree(es, name) {
      forall i, j | 0 <= i < |r| && 0 <= j < |r| && i != j
        ensures !Encloses(r[i].0, r[j].0)
      {
        var i1, j1 := if i < u then i else i - 1, if j < u then j else j - 1;
        assert i != u ==> r[i] == es[i1];
        assert j != u ==> r[j] == es[j1];
        assert i != u && j == u ==> !Conflict(es[i1].0, name);
        assert j != u && i == u ==> !Conflict(es[j1].0, name);
      }
    }
  }

  class DescriptorIndex<V> {
    var bySymbol: Entries<V>

    ghost predicate Valid()
      reads this
    {
      Sorted(bySymbol) && LegalKeys(bySymbol)
    }

    constructor ()
      ensures Valid() && bySymbol == []
    {
      bySymbol := [];
    }

    /** ValidateSymbolName. */
    method ValidateSymbolName(name: string) returns (ok: bool)
      ensures ok <==> Legal(name)
    {
      var i := 0;
      while i < |name|
        invariant 0 <= i <= |name| && forall j :: 0 <= j < i ==> LegalChar(name[j])
      {
        if !LegalChar(name[i]) {
          return false;
        }
        i := i + 1;
      }
      return true;
    }

    /** AddSymbol: it looks at two neighbours only. From an ancestor-free map it accepts exactly
        the legal names that conflict with no key but possibly the one it passes over. */
    method AddSymbol(name: string, value: V) returns (ok: bool)
      requires Valid()
      modifies this
      ensures Valid()
      ensures bySymbol == if ok then Inserted(old(bySymbol), name, value) else old(bySymbol)
      ensures AncestorFree(old(bySymbol)) ==>
        (ok <==> Legal(name) && forall i :: 0 <= i < |old(bySymbol)| && Conflict(old(bySymbol)[i].0, name) ==>
                   PassedOver(old(bySymbol), name, i))
      ensures ok ==> (AncestorFree(bySymbol) <==> AncestorFree(old(bySymbol)) && ConflictFree(old(bySymbol), name))
    {
      var valid := ValidateSymbolName(name);
      if !valid {
        return false;
      }
      ghost var es := bySymbol;
      var iter := FindLastLessOrEqual(bySymbol, name);
      InsertedAncestorFree(es, name, value);
      NameIsNew(es, name);
      if AncestorFree(es) {
        Neighbours(es, name);
      }
      if iter == |bySymbol| {
        InsertedSorted(es, name, value);
        bySymbol := Inserted(bySymbol, name, value);
        return true;
      }
      if Encloses(bySymbol[iter].0, name) {
        return false;
      }
      iter := iter + 1;
      if iter != |bySymbol| && Encloses(name, bySymbol[iter].0) {
        return false;
      }
      InsertedSorted(es, name, value);
      bySymbol := Inserted(bySymbol, name, value);
      return true;
    }
  }

  /** A name that is a key already is found at its predecessor place. */
  lemma NameIsNew<V>(es: Entries<V>, name: string)
    requires Sorted(es)
    ensures var f := FindLastLessOrEqual(es, name);
      f == |es| || !Encloses(es[f].0, name) ==> forall i :: 0 <= i < |es| ==> es[i].0 != name
  {
    var f := FindLastLessOrEqual(es, name);
    forall i | 0 <= i < |es| && es[i].0 == name
      ensures i == f
    {
      AtMostBound(es, name, i);
      AtMostBound(es, name, f);
      LessTotal(es[f].0, name);
    }
  }

  /** What the two neighbours tell about all keys. */
  lemma Neighbours<V>(es: Entries<V>, name: string)
    requires Sorted(es) && LegalKeys(es) && AncestorFree(es) && Legal(name)
    ensures var f := FindLastLessOrEqual(es, name);
      (forall i :: 0 <= i < |es| && Conflict(es[i].0, name) ==> PassedOver(es, name, i)) <==>
        f == |es| || (!Encloses(es[f].0, name) && (f + 1 == |es| || !Encloses(name, es[f + 1].0)))
  {
    var f, u := FindLastLessOrEqual(es, name), UpperBound(es, name);
    if es != [] {
      AtMostBound(es, name, f);
      LessTotal(name, es[0].0);
      forall i | 0 <= i < |es| && Conflict(es[i].0, name)
        ensures PassedOver(es, name, i) || Encloses(es[f].0, name) || (f + 1 < |es| && Encloses(name, es[f + 1].0))
      {
        ConflictIsNear(es, name, i);
        if u == 0 && i > 0 {
          EnclosingOfLater(es, name, i);
        }
      }
      if Encloses(es[f].0, name) {
        EnclosingAtMost(es[f].0, name);
        LessTotal(name, es[f].0);
      }
    }
  }

  /** A key after the first that the name encloses shows in the second key. */
  lemma EnclosingOfLater<V>(es: Entries<V>, name: string, i: nat)
    requires Sorted(es) && LegalKeys(es) && 0 < i < |es| && UpperBound(es, name) == 0 && Conflict(es[i].0, name)
    ensures Encloses(name, es[1].0)
  {
    AtMostBound(es, name, i);
    AtMostBound(es, name, 1);
    if Encloses(es[i].0, name) {
      EnclosingAtMost(es[i].0, name);
    } else {
      EnclosingAtMost(name, es[i].0);
      LessTotal(es[1].0, name);
      Between(name, es[1].0, es[i].0);
    }
  }

  /** The passed-over key makes AddSymbol break the map invariant, and then a search misses: with
      foo.bar in the map, foo is accepted, and foo.x is no longer found under foo. */
  lemma PassedOverKeySlips()
    ensures var es := [("foo.bar", 1)]; var r := Inserted(es, "foo", 2);
      && Sorted(es) && LegalKeys(es) && AncestorFree(es) && PassedOver(es, "foo", 0) && Conflict("foo.bar", "foo")
      && r == [("foo", 2), ("foo.bar", 1)] && !AncestorFree(r)
      && Encloses("foo", "foo.x") && FindSymbol(r, "foo.x") == None
  {
    var es := [("foo.bar", 1)];
    var r := [("foo", 2), ("foo.bar", 1)];
    EnclosingIsLess("foo", "foo.bar");
    LessTotal("foo", "foo.bar");
    assert r[0].0 == "foo" && r[1].0 == "foo.bar";
    assert "foo" + ".bar" == "foo.bar" && "foo" + ".x" == "foo.x";
    assert Encloses(r[0].0, r[1].0);
    assert Less("bar", "x");
    LessUnder("foo.", "bar", "x");
    assert "foo." + "bar" == "foo.bar" && "foo." + "x" == "foo.x";
    LessTotal("foo.bar", "foo.x");
    EnclosingIsLess("foo", "foo.x");
    LessTotal("foo", "foo.x");
    assert UpperBound(r[1..], "foo.x") == 1 + UpperBound(r[2..], "foo.x");
  }
}
