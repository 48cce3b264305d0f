/** Symbol names of descriptor_database.cc: which are valid, how they are ordered, and when one
    names a scope that encloses another. */
module SymbolNames {

  predicate LegalChar(c: char) {
    c == '.' || c == '_' || '0' <= c <= '9' || 'A' <= c <= 'Z' || 'a' <= c <= 'z'
  }

  /** ValidateSymbolName. */
  predicate Legal(name: string) {
    forall i :: 0 <= i < |name| ==> LegalChar(name[i])
  }

  /** The order of std::string. */
  predicate Less(a: string, b: string) {
    b != [] && (a == [] || a[0] < b[0] || (a[0] == b[0] && Less(a[1..], b[1..])))
  }

  predicate AtMost(a: string, b: string) { a == b || Less(a, b) }

  /** IsSubSymbol: outer is inner or a dotted ancestor of it. */
  predicate Encloses(outer: string, inner: string) {
    outer == inner || (outer < inner && inner[|outer|] == '.')
  }

  lemma {:induction false} LessTrans(a: string, b: string, c: string)
    requires Less(a, b) && Less(b, c)
    ensures Less(a, c)
  {
    if a != [] && a[0] == b[0] && b[0] == c[0] {
      LessTrans(a[1..], b[1..], c[1..]);
    }
  }

  lemma {:induction false} LessTotal(a: string, b: string)
    ensures Less(a, b) || a == b || Less(b, a)
    ensures !(Less(a, b) && (a == b || Less(b, a)))
    decreases a
  {
    if a == [] || b == [] {
    } else if a[0] == b[0] {
      LessTotal(a[1..], b[1..]);
      assert a == [a[0]] + a[1..] && b == [b[0]] + b[1..];
    }
  }

  lemma TailIsPrefix(outer: string, inner: string)
    requires outer != [] && outer < inner
    ensures inner[0] == outer[0] && outer[1..] < inner[1..]
  {
    assert outer == inner[..|outer|];
    assert outer[1..] == inner[1..][..|outer| - 1];
  }

  /** A scope sorts no later than what it encloses. */
  lemma {:induction false} EnclosingIsLess(outer: string, inner: string)
    requires outer < inner
    ensures Less(outer, inner)
  {
    if outer != [] {
      TailIsPrefix(outer, inner);
      EnclosingIsLess(outer[1..], inner[1..]);
    }
  }

  lemma {:induction false} LessUnder(prefix: string, a: string, b: string)
    requires Less(a, b)
    ensures Less(prefix + a, prefix + b)
  {
    if prefix == [] {
      assert prefix + a == a && prefix + b == b;
    } else {
      LessUnder(prefix[1..], a, b);
      assert (prefix + a)[1..] == prefix[1..] + a && (prefix + b)[1..] == prefix[1..] + b;
    }
  }

  /** Since '.' sorts below every other legal character, a legal name that sorts between a scope
      and something the scope encloses is enclosed by it as well. */
  lemma {:induction false} Between(outer: string, mid: string, inner: string)
    requires outer < inner && inner[|outer|] == '.' && Legal(mid)
    requires AtMost(outer, mid) && AtMost(mid, inner)
    ensures Encloses(outer, mid)
  {
    if outer == mid {
    } else if outer == [] {
      assert LegalChar(mid[0]);
    } else {
      TailIsPrefix(outer, inner);
      assert Less(outer, mid) && (mid == inner || Less(mid, inner));
      assert mid != [] && outer[0] <= mid[0] <= inner[0];
      assert inner[1..][|outer[1..]|] == '.';
      assert forall i :: 0 <= i < |mid[1..]| ==> LegalChar(mid[1..][i]) by {
        forall i | 0 <= i < |mid[1..]| ensures LegalChar(mid[1..][i]) { assert mid[1..][i] == mid[i + 1]; }
      }
      assert mid == [mid[0]] + mid[1..] && inner == [inner[0]] + inner[1..] && outer == [outer[0]] + outer[1..];
      Between(outer[1..], mid[1..], inner[1..]);
    }
  }

  const DIGITS := "0123456789"
  const CAPITALS := "ABCDEFGHIJKLMNOPQRSTUVWXYZ"
  const LETTERS := "abcdefghijklmnopqrstuvwxyz"

  /** Names of these characters only are legal, the empty name included. */
  lemma LegalExact(name: string)
    ensures Legal(name) <==> forall c :: c in name ==> c in "._" || c in DIGITS || c in CAPITALS || c in LETTERS
  {
    forall c
      ensures LegalChar(c) <==> c in "._" || c in DIGITS || c in CAPITALS || c in LETTERS
    {
      Digits(c);
      Capitals(c);
      Letters(c);
    }
    assert forall i :: 0 <= i < |name| ==> name[i] in name;
  }

  lemma Digits(c: char)
    ensures '0' <= c <= '9' <==> c in DIGITS
  {
    if '0' <= c <= '9' {
      assert DIGITS[c as int - '0' as int] == c;
    }
  }

  lemma Capitals(c: char)
    ensures 'A' <= c <= 'Z' <==> c in CAPITALS
  {
    if 'A' <= c <= 'Z' {
      assert CAPITALS[c as int - 'A' as int] == c;
    }
  }

  lemma Letters(c: char)
    ensures 'a' <= c <= 'z' <==> c in LETTERS
  {
    if 'a' <= c <= 'z' {
      assert LETTERS[c as int - 'a' as int] == c;
    }
  }

  /** A name encloses itself and whatever continues it after a dot. */
  lemma EnclosesExact(outer: string, inner: string)
    ensures Encloses(outer, inner) <==> inner == outer || exists rest: string :: inner == outer + "." + rest
  {
    if outer < inner && inner[|outer|] == '.' {
      assert inner == outer + "." + inner[|outer| + 1..];
    }
    forall rest: string | inner == outer + "." + rest
      ensures Encloses(outer, inner)
    {
      assert inner[..|outer|] == outer && inner[|outer|] == '.';
    }
  }

  /** The order is decided at the first place where the names differ, the end coming first. */
  ghost predicate DiffersAt(a: string, b: string, k: int) {
    0 <= k <= |a| && k < |b| && a[..k] == b[..k] && (k == |a| || a[k] < b[k])
  }

  lemma {:induction false} LessExact(a: string, b: string)
    ensures Less(a, b) <==> exists k :: DiffersAt(a, b, k)
    decreases a
  {
    if b != [] {
      if a == [] || a[0] < b[0] {
        assert DiffersAt(a, b, 0);
      } else if a[0] == b[0] {
        LessExact(a[1..], b[1..]);
        forall k | DiffersAt(a[1..], b[1..], k)
          ensures DiffersAt(a, b, k + 1)
        {
          assert a[..k + 1] == [a[0]] + a[1..][..k] && b[..k + 1] == [b[0]] + b[1..][..k];
        }
        forall k | DiffersAt(a, b, k)
          ensures k > 0 && DiffersAt(a[1..], b[1..], k - 1)
        {
          assert a[1..][..k - 1] == a[..k][1..] && b[1..][..k - 1] == b[..k][1..];
        }
      } else {
        SameStart(a, b);
      }
    }
  }

  lemma SameStart(a: string, b: string)
    requires a != [] && b != []
    ensures forall k :: DiffersAt(a, b, k) && k > 0 ==> a[0] == b[0]
  {
    forall k | DiffersAt(a, b, k) && k > 0
      ensures a[0] == b[0]
    {
      assert a[..k][0] == b[..k][0];
    }
  }
}
