module Common {

  datatype Option<+T> = None | Some(value: T)

  function Max(a: int, b: int): int {
    if a < b then b else a
  }

  function Min(a: int, b: int): int {
    if a < b then a else b
  }

  predicate Digit(c: char) {
    '0' <= c <= '9'
  }

  predicate LowerAlnum(c: char) {
    'a' <= c <= 'z' || Digit(c)
  }

  function Last<T>(s: seq<T>): T
    requires s != []
  {
    s[|s| - 1]
  }

  function Front<T>(s: seq<T>): seq<T>
    requires s != []
  {
    s[..|s| - 1]
  }

  lemma Snoc<T>(s: seq<T>, x: T)
    ensures Front(s + [x]) == s && Last(s + [x]) == x
  {
  }

  /** What a loop collects that appends a few items for every element. */
  function Gather<A, B>(xs: seq<A>, f: A -> seq<B>): seq<B> {
    if xs == [] then [] else Gather(Front(xs), f) + f(Last(xs))
  }

  lemma GatherOne<A, B>(x: A, f: A -> seq<B>)
    ensures Gather([x], f) == f(x)
  {
    assert Front([x]) == [];
    assert Gather([x], f) == Gather([], f) + f(x);
  }

  lemma GatherNext<A, B>(xs: seq<A>, i: nat, f: A -> seq<B>)
    requires i < |xs|
    ensures Gather(xs[..i + 1], f) == Gather(xs[..i], f) + f(xs[i])
  {
    assert Front(xs[..i + 1]) == xs[..i];
  }

  lemma Associative<T>(a: seq<T>, b: seq<T>, c: seq<T>)
    ensures a + b + c == a + (b + c)
  {
  }

  lemma {:induction false} GatherConcat<A, B>(a: seq<A>, b: seq<A>, f: A -> seq<B>)
    ensures Gather(a + b, f) == Gather(a, f) + Gather(b, f)
  {
    if b == [] {
      assert a + b == a;
    } else {
      assert Front(a + b) == a + Front(b) && Last(a + b) == Last(b);
      GatherConcat(a, Front(b), f);
      Associative(Gather(a, f), Gather(Front(b), f), f(Last(b)));
    }
  }

  /** Collecting from what was collected is collecting, element by element, from each element's items. */
  lemma {:induction false} GatherGather<A, B, C>(xs: seq<A>, f: A -> seq<B>, g: B -> seq<C>, h: A -> seq<C>)
    requires forall i :: 0 <= i < |xs| ==> Gather(f(xs[i]), g) == h(xs[i])
    ensures Gather(Gather(xs, f), g) == Gather(xs, h)
  {
    if xs != [] {
      GatherGather(Front(xs), f, g, h);
      GatherConcat(Gather(Front(xs), f), f(Last(xs)), g);
      assert Gather(f(xs[|xs| - 1]), g) == h(xs[|xs| - 1]);
    }
  }

  /** If no element before the i-th contributes, its items come first; if none after it does either, they are all. */
  lemma {:induction false} GatherFirst<A, B>(xs: seq<A>, i: nat, f: A -> seq<B>)
    requires i < |xs| && forall j :: 0 <= j < i ==> f(xs[j]) == []
    ensures f(xs[i]) <= Gather(xs, f)
    ensures (forall j :: i < j < |xs| ==> f(xs[j]) == []) ==> Gather(xs, f) == f(xs[i])
  {
    if i == |xs| - 1 {
      NothingGathered(Front(xs), f);
    } else {
      GatherFirst(Front(xs), i, f);
      assert Last(xs) == xs[|xs| - 1];
    }
  }

  /** Exactly the items that some element contributes are collected. */
  lemma {:induction false} GatherMember<A, B>(xs: seq<A>, f: A -> seq<B>, y: B)
    ensures y in Gather(xs, f) <==> exists i :: 0 <= i < |xs| && y in f(xs[i])
  {
    if xs != [] {
      GatherMember(Front(xs), f, y);
      if y in Gather(Front(xs), f) {
        var i :| 0 <= i < |xs| - 1 && y in f(Front(xs)[i]);
        assert y in f(xs[i]);
      } else if i :| 0 <= i < |xs| && y in f(xs[i]) {
        assert i < |xs| - 1 ==> y in f(Front(xs)[i]);
      }
    }
  }

  /** The filter that keeps the elements satisfying `p`. */
  function Keep<T>(p: T -> bool): T -> seq<T> {
    x => if p(x) then [x] else []
  }

  /** The positions of the elements satisfying `p`. */
  function Where<T>(s: seq<T>, p: T -> bool): set<nat> {
    set i: nat | i < |s| && p(s[i])
  }

  lemma WhereNext<T>(s: seq<T>, p: T -> bool)
    requires s != []
    ensures |Where(s, p)| == |Where(Front(s), p)| + if p(Last(s)) then 1 else 0
  {
    assert Where(s, p) == Where(Front(s), p) + if p(Last(s)) then {|s| - 1} else {};
  }

  /** Filtering keeps one element for each such position. */
  lemma {:induction false} KeepCard<T>(s: seq<T>, p: T -> bool)
    ensures |Gather(s, Keep(p))| == |Where(s, p)|
  {
    if s == [] {
      assert Where(s, p) == {};
    } else {
      KeepCard(Front(s), p);
      WhereNext(s, p);
    }
  }

  lemma {:induction false} KeepTwice<T(!new)>(s: seq<T>, p: T -> bool, q: T -> bool, both: T -> bool)
    requires forall x :: both(x) <==> p(x) && q(x)
    ensures Gather(Gather(s, Keep(p)), Keep(q)) == Gather(s, Keep(both))
  {
    if s != [] {
      KeepTwice(Front(s), p, q, both);
      GatherConcat(Gather(Front(s), Keep(p)), Keep(p)(Last(s)), Keep(q));
      assert Gather([Last(s)], Keep(q)) == Keep(q)(Last(s));
    }
  }

  /** What a loop builds that adds a few entries for every element, a later one winning. */
  function Merge<A, K, V>(xs: seq<A>, f: A -> map<K, V>): map<K, V> {
    if xs == [] then map[] else Merge(Front(xs), f) + f(Last(xs))
  }

  lemma PutIsMerge<K, V>(m: map<K, V>, k: K, v: V)
    ensures m[k := v] == m + map[k := v]
  {
  }

  lemma MergeNext<A, K, V>(xs: seq<A>, i: nat, f: A -> map<K, V>)
    requires i < |xs|
    ensures Merge(xs[..i + 1], f) == Merge(xs[..i], f) + f(xs[i])
  {
    assert Front(xs[..i + 1]) == xs[..i];
  }

  lemma {:induction false} MergeConcat<A, K, V>(a: seq<A>, b: seq<A>, f: A -> map<K, V>)
    ensures Merge(a + b, f) == Merge(a, f) + Merge(b, f)
  {
    if b == [] {
      assert a + b == a;
    } else {
      assert Front(a + b) == a + Front(b);
      MergeConcat(a, Front(b), f);
    }
  }

  /** Merging what a gathered list gives is merging, element by element, what each element's items give. */
  lemma {:induction false} MergeGather<A, B, K, V>(xs: seq<A>, g: A -> seq<B>, f: B -> map<K, V>, h: A -> map<K, V>)
    requires forall i :: 0 <= i < |xs| ==> Merge(g(xs[i]), f) == h(xs[i])
    ensures Merge(Gather(xs, g), f) == Merge(xs, h)
  {
    if xs != [] {
      MergeGather(Front(xs), g, f, h);
      MergeConcat(Gather(Front(xs), g), g(Last(xs)), f);
      assert Merge(g(xs[|xs| - 1]), f) == h(xs[|xs| - 1]);
    }
  }

  lemma MergeOne<A, K, V>(x: A, f: A -> map<K, V>)
    ensures Merge([x], f) == f(x)
  {
    assert Front([x]) == [];
    assert Merge([], f) + f(x) == f(x);
  }

  lemma {:induction false} MergeMember<A, K, V>(xs: seq<A>, f: A -> map<K, V>, key: K)
    ensures key in Merge(xs, f) <==> exists i :: 0 <= i < |xs| && key in f(xs[i])
  {
    if xs != [] {
      MergeMember(Front(xs), f, key);
      if key in Merge(Front(xs), f) {
        var i :| 0 <= i < |xs| - 1 && key in f(Front(xs)[i]);
        assert key in f(xs[i]);
      } else if i :| 0 <= i < |xs| && key in f(xs[i]) {
        assert i < |xs| - 1 ==> key in f(Front(xs)[i]);
      }
    }
  }

  lemma {:induction false} NothingGathered<A, B>(s: seq<A>, f: A -> seq<B>)
    ensures Gather(s, f) == [] <==> forall i :: 0 <= i < |s| ==> f(s[i]) == []
  {
    if s != [] {
      NothingGathered(Front(s), f);
      assert forall i :: 0 <= i < |s| - 1 ==> Front(s)[i] == s[i];
      assert Last(s) == s[|s| - 1];
    }
  }
}
