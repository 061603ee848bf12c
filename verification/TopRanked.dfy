/**
  The first few of a sorted list: when they depend only on the elements, and when ties at the
  cut let the order of arrival decide.
 */
module TopRanked {
  import opened Common
  import opened Sorting

  /** Some kept element ties with a dropped one that differs from it. */
  ghost predicate TieAt<T(!new)>(all: seq<T>, m: nat, le: (T, T) -> bool) {
    exists i, j :: 0 <= i < m <= j < |all| && le(all[j], all[i]) && all[i] != all[j]
  }

  // ---- Filters ----

  lemma {:induction false} FilterCounts<T>(s: seq<T>, p: T -> bool, x: T)
    ensures multiset(Gather(s, Keep(p)))[x] == if p(x) then multiset(s)[x] else 0
  {
    if s != [] {
      FilterCounts(Front(s), p, x);
      CountNext(s, x);
      MultisetSum(Gather(Front(s), Keep(p)), Keep(p)(Last(s)));
    }
  }

  lemma CountNext<T>(s: seq<T>, x: T)
    requires s != []
    ensures multiset(s)[x] == multiset(Front(s))[x] + if x == Last(s) then 1 else 0
  {
    assert s == Front(s) + [Last(s)];
  }

  lemma MultisetSum<T>(a: seq<T>, b: seq<T>)
    ensures multiset(a + b) == multiset(a) + multiset(b)
  {
  }

  lemma FilterPermutes<T(!new)>(a: seq<T>, b: seq<T>, p: T -> bool)
    requires multiset(a) == multiset(b)
    ensures multiset(Gather(a, Keep(p))) == multiset(Gather(b, Keep(p)))
    ensures |Gather(a, Keep(p))| == |Gather(b, Keep(p))|
  {
    forall x ensures multiset(Gather(a, Keep(p)))[x] == multiset(Gather(b, Keep(p)))[x] {
      FilterCounts(a, p, x);
      FilterCounts(b, p, x);
    }
    SameSize(Gather(a, Keep(p)), Gather(b, Keep(p)));
  }

  lemma FilterMembers<T(!new)>(s: seq<T>, p: T -> bool)
    ensures forall x :: x in Gather(s, Keep(p)) <==> x in s && p(x)
  {
    forall x ensures x in Gather(s, Keep(p)) <==> x in s && p(x) {
      FilterCounts(s, p, x);
      assert x in Gather(s, Keep(p)) <==> x in multiset(Gather(s, Keep(p)));
      assert x in s <==> x in multiset(s);
    }
  }

  ghost predicate DownClosed<T(!new)>(p: T -> bool, le: (T, T) -> bool) {
    forall x, y :: le(x, y) && p(y) ==> p(x)
  }

  /** What `p` keeps of a list is its first `n` elements. */
  predicate KeepsPrefix<T(==)>(s: seq<T>, p: T -> bool, n: nat) {
    n <= |s| && Gather(s, Keep(p)) == s[..n]
    && (forall i :: 0 <= i < n ==> p(s[i])) && (forall i :: n <= i < |s| ==> !p(s[i]))
  }

  lemma {:induction false} AllKept<T>(s: seq<T>, p: T -> bool)
    requires forall i :: 0 <= i < |s| ==> p(s[i])
    ensures Gather(s, Keep(p)) == s
  {
    if s != [] {
      AllKept(Front(s), p);
      assert p(s[|s| - 1]);
      assert s == Front(s) + [Last(s)];
    }
  }

  /** A downward-closed test keeps a prefix of a sorted list. */
  lemma {:induction false} SortedPrefix<T(!new)>(s: seq<T>, le: (T, T) -> bool, p: T -> bool) returns (n: nat)
    requires Sorted(s, le) && DownClosed(p, le)
    ensures KeepsPrefix(s, p, n)
  {
    if s == [] {
      n := 0;
    } else if p(Last(s)) {
      forall i | 0 <= i < |s| ensures p(s[i]) {
        assert i == |s| - 1 || le(s[i], s[|s| - 1]);
      }
      AllKept(s, p);
      n := |s|;
    } else {
      FrontOfSorted(s, le);
      n := SortedPrefix(Front(s), le, p);
      PrefixOfFront(s, p, n);
    }
  }

  lemma PrefixOfFront<T>(s: seq<T>, p: T -> bool, n: nat)
    requires s != [] && KeepsPrefix(Front(s), p, n) && !p(Last(s))
    ensures KeepsPrefix(s, p, n)
  {
    assert Front(s)[..n] == s[..n];
    forall i | n <= i < |s| ensures !p(s[i]) {
      assert i < |s| - 1 ==> Front(s)[i] == s[i];
    }
    forall i | 0 <= i < n ensures p(s[i]) {
      assert Front(s)[i] == s[i];
    }
  }

  // ---- No tie at the cut ----

  function AtMost<T>(c: T, le: (T, T) -> bool): T -> bool {
    (x: T) => le(x, c)
  }

  function Below<T>(c: T, le: (T, T) -> bool): T -> bool {
    (x: T) => le(x, c) && !le(c, x)
  }

  lemma Closed<T(!new)>(c: T, le: (T, T) -> bool)
    requires Preorder(le)
    ensures DownClosed(AtMost(c, le), le) && DownClosed(Below(c, le), le)
  {
  }

  /** The same test keeps prefixes of equal length of two sorted arrangements. */
  lemma SamePrefix<T(!new)>(a: seq<T>, b: seq<T>, le: (T, T) -> bool, p: T -> bool) returns (n: nat)
    requires Sorted(a, le) && Sorted(b, le) && multiset(a) == multiset(b) && DownClosed(p, le)
    ensures KeepsPrefix(a, p, n) && KeepsPrefix(b, p, n) && multiset(a[..n]) == multiset(b[..n])
  {
    n := SortedPrefix(a, le, p);
    var k := SortedPrefix(b, le, p);
    FilterPermutes(a, b, p);
    assert |a[..n]| == n && |b[..k]| == k;
  }

  /** In both arrangements the elements that tie at the cut are one and the same. */
  lemma OneAtTheCut<T(!new)>(a: seq<T>, b: seq<T>, le: (T, T) -> bool, m: nat, lo: nat, hi: nat, i: nat)
    requires Preorder(le) && multiset(a) == multiset(b) && 0 < m < |a| && !TieAt(a, m, le) && |b| == |a|
    requires KeepsPrefix(a, Below(a[m - 1], le), lo) && KeepsPrefix(a, AtMost(a[m - 1], le), hi) && m < hi
    requires KeepsPrefix(b, Below(a[m - 1], le), lo) && KeepsPrefix(b, AtMost(a[m - 1], le), hi)
    requires lo <= i < m
    ensures a[i] == a[m - 1] == b[i]
  {
    var c := a[m - 1];
    assert !Below(c, le)(a[i]) && AtMost(c, le)(a[i]) && AtMost(c, le)(a[m]);
    assert !Below(c, le)(b[i]) && AtMost(c, le)(b[i]);
    TiedAreOne(a, le, m, i, m);
    TiedAreOne(a, le, m, m - 1, m);
    assert b[i] in multiset(a);
    var k :| 0 <= k < |a| && a[k] == b[i];
    if k < m {
      TiedAreOne(a, le, m, k, m);
    } else {
      TiedAreOne(a, le, m, m - 1, k);
    }
  }

  lemma TiedAreOne<T(!new)>(a: seq<T>, le: (T, T) -> bool, m: nat, i: nat, j: nat)
    requires Preorder(le) && !TieAt(a, m, le) && 0 < m && i < m <= j < |a|
    requires le(a[j], a[m - 1]) && le(a[m - 1], a[i])
    ensures a[i] == a[j]
  {
    assert le(a[j], a[i]);
  }

  lemma GluedPrefix<T>(a: seq<T>, b: seq<T>, lo: nat, m: nat)
    requires lo <= m <= |a| && m <= |b| && multiset(a[..lo]) == multiset(b[..lo])
    requires forall i :: lo <= i < m ==> a[i] == b[i]
    ensures multiset(a[..m]) == multiset(b[..m])
  {
    assert a[..m] == a[..lo] + a[lo..m] && b[..m] == b[..lo] + b[lo..m];
    assert a[lo..m] == b[lo..m];
  }

  lemma CutBetween<T(!new)>(a: seq<T>, le: (T, T) -> bool, m: nat, lo: nat, hi: nat)
    requires Preorder(le) && Sorted(a, le) && 0 < m <= |a|
    requires KeepsPrefix(a, Below(a[m - 1], le), lo) && KeepsPrefix(a, AtMost(a[m - 1], le), hi)
    ensures lo < m <= hi
  {
    var c := a[m - 1];
    assert le(c, c);
    assert !Below(c, le)(a[m - 1]) && AtMost(c, le)(a[m - 1]);
  }

  /** Without a tie at the cut the first `m` are the same elements, however the list arrived. */
  lemma KeptIsStable<T(!new)>(a: seq<T>, b: seq<T>, le: (T, T) -> bool, m: nat)
    requires Preorder(le) && Sorted(a, le) && Sorted(b, le) && multiset(a) == multiset(b)
    requires m <= |a| && !TieAt(a, m, le)
    ensures m <= |b| && multiset(a[..m]) == multiset(b[..m])
  {
    SameSize(a, b);
    if m == 0 {
      assert a[..m] == b[..m];
    } else if m == |a| {
      assert a[..m] == a && b[..m] == b;
    } else {
      var c := a[m - 1];
      Closed(c, le);
      var lo := SamePrefix(a, b, le, Below(c, le));
      var hi := SamePrefix(a, b, le, AtMost(c, le));
      CutBetween(a, le, m, lo, hi);
      if m < hi {
        forall i | lo <= i < m ensures a[i] == b[i] {
          OneAtTheCut(a, b, le, m, lo, hi, i);
        }
        GluedPrefix(a, b, lo, m);
      }
    }
  }

  // ---- A tie at the cut ----

  function Swapped<T>(s: seq<T>, i: nat, j: nat): (r: seq<T>)
    requires i < |s| && j < |s|
    ensures |r| == |s|
  {
    s[i := s[j]][j := s[i]]
  }

  lemma SwappedSorted<T(!new)>(s: seq<T>, i: nat, j: nat, le: (T, T) -> bool)
    requires Preorder(le) && Sorted(s, le) && i < j < |s| && le(s[j], s[i])
    ensures Sorted(Swapped(s, i, j), le)
  {
    var r := Swapped(s, i, j);
    forall x, y | 0 <= x < y < |r| ensures le(r[x], r[y]) {
      SwappedOrder(s, i, j, le, x);
      SwappedOrder(s, i, j, le, y);
      assert le(s[x], s[y]);
    }
  }

  /** Every position holds an element that ties with the one it held. */
  lemma SwappedOrder<T(!new)>(s: seq<T>, i: nat, j: nat, le: (T, T) -> bool, x: nat)
    requires Preorder(le) && Sorted(s, le) && i < j < |s| && le(s[j], s[i]) && x < |s|
    ensures le(Swapped(s, i, j)[x], s[x]) && le(s[x], Swapped(s, i, j)[x])
  {
    assert le(s[i], s[j]);
    assert le(s[x], s[x]);
  }

  lemma SwappedElements<T>(s: seq<T>, i: nat, j: nat)
    requires i < j < |s|
    ensures multiset(Swapped(s, i, j)) == multiset(s)
  {
  }

  lemma {:induction false} SortOfSorted<T(!new)>(s: seq<T>, le: (T, T) -> bool)
    requires Sorted(s, le)
    ensures Sort(s, le) == s
  {
    if s != [] {
      FrontOfSorted(s, le);
      SortOfSorted(Front(s), le);
      assert s == Front(s) + [Last(s)];
      if |s| > 1 {
        assert le(s[|s| - 2], s[|s| - 1]);
        assert Last(Front(s)) == s[|s| - 2];
      }
    }
  }

  lemma SwappedKeeps<T>(s: seq<T>, i: nat, j: nat, m: nat)
    requires i < m <= j < |s| && s[i] != s[j]
    ensures multiset(Swapped(s, i, j)[..m]) != multiset(s[..m])
  {
    var r := Swapped(s, i, j);
    assert r[..m] == s[..m][i := s[j]];
    assert multiset(r[..m])[s[i]] == multiset(s[..m])[s[i]] - 1;
  }

  /** With a tie at the cut, the sorted list itself can arrive in an order that keeps others. */
  lemma KeptIsUnstable<T(!new)>(all: seq<T>, le: (T, T) -> bool, m: nat) returns (other: seq<T>)
    requires Preorder(le) && Sorted(all, le) && m <= |all| && TieAt(all, m, le)
    ensures multiset(other) == multiset(all) && Sort(other, le) == other && |other| == |all|
    ensures multiset(other[..m]) != multiset(all[..m])
  {
    var i, j :| 0 <= i < m <= j < |all| && le(all[j], all[i]) && all[i] != all[j];
    other := Swapped(all, i, j);
    SwappedSorted(all, i, j, le);
    SwappedElements(all, i, j);
    SortOfSorted(other, le);
    SwappedKeeps(all, i, j, m);
  }
}
