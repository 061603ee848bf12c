/**
  Python's `sorted`: a stable insertion sort over any total preorder, and the code-point
  order on strings that the keys are compared with.
 */
module Sorting {
  import opened Common

  predicate StrLe(a: string, b: string) {
    if a == [] then true
    else if b == [] then false
    else if a[0] != b[0] then a[0] < b[0]
    else StrLe(a[1..], b[1..])
  }

  lemma {:induction false} StrTotal(a: string, b: string)
    ensures StrLe(a, b) || StrLe(b, a)
    ensures StrLe(a, b) && StrLe(b, a) ==> a == b
  {
    if a != [] && b != [] && a[0] == b[0] {
      StrTotal(a[1..], b[1..]);
      assert a == [a[0]] + a[1..] && b == [b[0]] + b[1..];
    }
  }

  lemma {:induction false} StrRefl(a: string)
    ensures StrLe(a, a)
  {
    if a != [] {
      StrRefl(a[1..]);
    }
  }

  lemma {:induction false} StrTrans(a: string, b: string, c: string)
    requires StrLe(a, b) && StrLe(b, c)
    ensures StrLe(a, c)
  {
    if a != [] && b != [] && c != [] && a[0] == b[0] == c[0] {
      StrTrans(a[1..], b[1..], c[1..]);
    }
  }

  /** One text is the beginning of the other, or smaller in the first character in which they differ. */
  predicate CodePointLe(a: string, b: string) {
    a <= b || exists i :: 0 <= i < |a| && i < |b| && a[..i] == b[..i] && a[i] < b[i]
  }

  lemma {:induction false} StrLeExact(a: string, b: string)
    ensures StrLe(a, b) <==> CodePointLe(a, b)
  {
    if a != [] && b != [] && a[0] == b[0] {
      StrLeExact(a[1..], b[1..]);
      SameStart(a, b);
    } else if a != [] && b != [] && a[0] < b[0] {
      assert a[..0] == b[..0];
    } else if a != [] && CodePointLe(a, b) {
      DiffersAtStart(a, b);
    }
  }

  lemma DiffersAtStart(a: string, b: string)
    requires a != [] && CodePointLe(a, b)
    ensures b != [] && a[0] <= b[0]
  {
    if !(a <= b) {
      var i :| 0 <= i < |a| && i < |b| && a[..i] == b[..i] && a[i] < b[i];
      assert i > 0 ==> a[..i][0] == b[..i][0];
    }
  }

  lemma SameStart(a: string, b: string)
    requires a != [] && b != [] && a[0] == b[0]
    ensures CodePointLe(a, b) <==> CodePointLe(a[1..], b[1..])
  {
    assert a == [a[0]] + a[1..] && b == [b[0]] + b[1..];
    if i :| 0 <= i < |a| && i < |b| && a[..i] == b[..i] && a[i] < b[i] {
      assert a[1..][..i - 1] == a[..i][1..] && b[1..][..i - 1] == b[..i][1..];
    }
    if i :| 0 <= i < |a[1..]| && i < |b[1..]| && a[1..][..i] == b[1..][..i] && a[1..][i] < b[1..][i] {
      assert a[..i + 1] == [a[0]] + a[1..][..i] && b[..i + 1] == [b[0]] + b[1..][..i];
      assert a[i + 1] < b[i + 1];
    }
  }

  ghost predicate Preorder<T(!new)>(le: (T, T) -> bool) {
    && (forall a, b :: le(a, b) || le(b, a))
    && (forall a, b, c :: le(a, b) && le(b, c) ==> le(a, c))
  }

  predicate Sorted<T>(s: seq<T>, le: (T, T) -> bool) {
    forall i, j :: 0 <= i < j < |s| ==> le(s[i], s[j])
  }

  /** Put `x` after every element of `s` that may stand before it. */
  function Insert<T>(s: seq<T>, x: T, le: (T, T) -> bool): (r: seq<T>)
    ensures multiset(r) == multiset(s) + multiset{x}
    ensures |r| == |s| + 1
  {
    if s == [] then [x]
    else if le(Last(s), x) then s + [x]
    else
      assert s == Front(s) + [Last(s)];
      Insert(Front(s), x, le) + [Last(s)]
  }

  function Sort<T>(s: seq<T>, le: (T, T) -> bool): (r: seq<T>)
    ensures multiset(r) == multiset(s)
    ensures |r| == |s|
  {
    if s == [] then []
    else
      assert s == Front(s) + [Last(s)];
      Insert(Sort(Front(s), le), Last(s), le)
  }

  lemma InsertMember<T>(s: seq<T>, x: T, le: (T, T) -> bool, y: T)
    requires y in Insert(s, x, le)
    ensures y in s || y == x
  {
    assert y in multiset(Insert(s, x, le));
  }

  lemma SnocSorted<T>(s: seq<T>, x: T, le: (T, T) -> bool)
    requires Sorted(s, le) && forall y :: y in s ==> le(y, x)
    ensures Sorted(s + [x], le)
  {
  }

  lemma {:induction false} InsertSorted<T(!new)>(s: seq<T>, x: T, le: (T, T) -> bool)
    requires Preorder(le) && Sorted(s, le)
    ensures Sorted(Insert(s, x, le), le)
  {
    if s != [] {
      var front, last := Front(s), Last(s);
      forall y | y in front ensures le(y, last) {
        var i :| 0 <= i < |front| && front[i] == y;
        assert s[i] == y && s[|s| - 1] == last;
      }
      if le(last, x) {
        SnocSorted(s, x, le);
      } else {
        InsertSorted(front, x, le);
        forall y | y in Insert(front, x, le) ensures le(y, last) {
          InsertMember(front, x, le, y);
        }
        SnocSorted(Insert(front, x, le), last, le);
      }
    }
  }

  lemma {:induction false} SortSorted<T(!new)>(s: seq<T>, le: (T, T) -> bool)
    requires Preorder(le)
    ensures Sorted(Sort(s, le), le)
  {
    if s != [] {
      SortSorted(Front(s), le);
      InsertSorted(Sort(Front(s), le), Last(s), le);
    }
  }

  lemma LastIsGreatest<T(!new)>(s: seq<T>, le: (T, T) -> bool, x: T)
    requires Preorder(le) && Sorted(s, le) && x in s
    ensures le(x, Last(s))
  {
    var i :| 0 <= i < |s| && s[i] == x;
    assert i == |s| - 1 || le(s[i], s[|s| - 1]);
    assert le(x, x) || le(x, x);
  }

  lemma FrontElements<T>(s: seq<T>)
    requires s != []
    ensures multiset(Front(s)) == multiset(s) - multiset{Last(s)}
    ensures Last(s) in multiset(s)
  {
    assert s == Front(s) + [Last(s)];
  }

  ghost predicate NoTies<T(!new)>(s: seq<T>, le: (T, T) -> bool) {
    forall x, y :: x in s && y in s && le(x, y) && le(y, x) ==> x == y
  }

  lemma FrontStays<T(!new)>(s: seq<T>, le: (T, T) -> bool)
    requires s != [] && Sorted(s, le) && NoTies(s, le)
    ensures Sorted(Front(s), le) && NoTies(Front(s), le)
  {
    forall x | x in Front(s) ensures x in s {
      var i :| 0 <= i < |s| - 1 && Front(s)[i] == x;
      assert s[i] == x;
    }
  }

  lemma SameLast<T(!new)>(a: seq<T>, b: seq<T>, le: (T, T) -> bool)
    requires Preorder(le) && Sorted(a, le) && Sorted(b, le) && multiset(a) == multiset(b)
    requires NoTies(a, le) && a != [] && b != []
    ensures Last(a) == Last(b)
  {
    FrontElements(a);
    FrontElements(b);
    assert Last(b) in a && Last(a) in b;
    LastIsGreatest(a, le, Last(b));
    LastIsGreatest(b, le, Last(a));
  }

  /** Two sorted arrangements of the same elements agree when no two of them tie. */
  lemma {:induction false} SortedIsUnique<T(!new)>(a: seq<T>, b: seq<T>, le: (T, T) -> bool)
    requires Preorder(le) && Sorted(a, le) && Sorted(b, le) && multiset(a) == multiset(b)
    requires NoTies(a, le)
    ensures a == b
  {
    SameSize(a, b);
    if a != [] {
      SameLast(a, b, le);
      FrontsAgree(a, b);
      FrontStays(a, le);
      FrontOfSorted(b, le);
      SortedIsUnique(Front(a), Front(b), le);
      SameEnds(a, b);
    }
  }

  lemma SameSize<T>(a: seq<T>, b: seq<T>)
    requires multiset(a) == multiset(b)
    ensures |a| == |b|
  {
    assert |multiset(a)| == |a| && |multiset(b)| == |b|;
  }

  lemma FrontsAgree<T>(a: seq<T>, b: seq<T>)
    requires a != [] && b != [] && Last(a) == Last(b) && multiset(a) == multiset(b)
    ensures multiset(Front(a)) == multiset(Front(b))
  {
    FrontElements(a);
    FrontElements(b);
  }

  lemma SameEnds<T>(a: seq<T>, b: seq<T>)
    requires a != [] && b != [] && Last(a) == Last(b) && Front(a) == Front(b)
    ensures a == b
  {
    assert a == Front(a) + [Last(a)] && b == Front(b) + [Last(b)];
  }

  lemma FrontOfSorted<T>(s: seq<T>, le: (T, T) -> bool)
    requires s != [] && Sorted(s, le)
    ensures Sorted(Front(s), le)
  {
  }

  /** Sorting depends only on the elements, not on the order they came in. */
  lemma SortIsCanonical<T(!new)>(a: seq<T>, b: seq<T>, le: (T, T) -> bool)
    requires Preorder(le) && multiset(a) == multiset(b) && NoTies(a, le)
    ensures Sort(a, le) == Sort(b, le)
  {
    SortSorted(a, le);
    SortSorted(b, le);
    forall x | x in Sort(a, le) ensures x in a {
      assert x in multiset(Sort(a, le));
    }
    SortedIsUnique(Sort(a, le), Sort(b, le), le);
  }

  lemma StrPreorder()
    ensures Preorder(StrLe)
  {
    forall a, b ensures StrLe(a, b) || StrLe(b, a) {
      StrTotal(a, b);
    }
    forall a, b, c | StrLe(a, b) && StrLe(b, c) ensures StrLe(a, c) {
      StrTrans(a, b, c);
    }
  }

  /** The elements of a set in some order, each once. */
  ghost function Enumerate<T>(s: set<T>): (r: seq<T>)
    ensures multiset(r) == multiset(s)
  {
    if s == {} then []
    else
      var x :| x in s;
      assert s == (s - {x}) + {x};
      Enumerate(s - {x}) + [x]
  }

  /** The strings of a set in code-point order. */
  ghost function InOrder(s: set<string>): (r: seq<string>)
    ensures multiset(r) == multiset(s)
  {
    Sort(Enumerate(s), StrLe)
  }

  /** Whatever order the elements of a set come in, sorting them gives the same list. */
  lemma SortingASet(s: set<string>, arranged: seq<string>)
    requires multiset(arranged) == multiset(s)
    ensures Sort(arranged, StrLe) == InOrder(s)
  {
    StrPreorder();
    forall x, y | x in arranged && y in arranged && StrLe(x, y) && StrLe(y, x) ensures x == y {
      StrTotal(x, y);
    }
    SortIsCanonical(arranged, Enumerate(s), StrLe);
  }

  lemma InOrderMembers(s: set<string>)
    ensures forall x :: x in InOrder(s) <==> x in s
  {
    forall x ensures x in InOrder(s) <==> x in s {
      assert x in InOrder(s) <==> x in multiset(InOrder(s));
    }
  }
}
