/**
  When the tool list depends on the order of the operations in the specification: exactly
  when ranked trimming cuts between operations of one rank.
 */
module McpOrder {
  import opened Common
  import opened McpTools
  import opened Sorting
  import opened TopRanked

  /** No two different operations share a tool name. */
  predicate NamesApart(ops: seq<Operation>) {
    forall a, b :: a in ops && b in ops && ToolName(a) == ToolName(b) ==> a == b
  }

  predicate IsTrimmed(ops: seq<Operation>, policy: Policy) {
    policy.ranked && |Selected(Eligible(ops, policy))| > policy.maxTools
  }

  /** Trimming applies, and an operation it keeps has the rank of a different one it drops. */
  ghost predicate TieAtCap(ops: seq<Operation>, policy: Policy) {
    IsTrimmed(ops, policy)
    && TieAt(Sort(Selected(Eligible(ops, policy)), RankLe), |Surface(ops, policy)|, RankLe)
  }

  // ---- No tie ----

  lemma SelectedPermutes(a: seq<Operation>, b: seq<Operation>)
    requires multiset(a) == multiset(b)
    ensures multiset(Selected(a)) == multiset(Selected(b))
  {
    FilterPermutes(a, b, OptedIn());
    FilterPermutes(a, b, ReadByDefault());
  }

  lemma ChosenPermute(a: seq<Operation>, b: seq<Operation>, policy: Policy)
    requires multiset(a) == multiset(b)
    ensures multiset(Selected(Eligible(a, policy))) == multiset(Selected(Eligible(b, policy)))
    ensures |Selected(Eligible(a, policy))| == |Selected(Eligible(b, policy))|
  {
    FilterPermutes(a, b, EligibleBy(policy));
    SelectedPermutes(Eligible(a, policy), Eligible(b, policy));
    SameSize(Selected(Eligible(a, policy)), Selected(Eligible(b, policy)));
  }

  lemma UpToSlices<T>(a: seq<T>, b: seq<T>, cap: int) returns (m: nat)
    requires |a| == |b|
    ensures m <= |a| && |UpTo(a, cap)| == m && UpTo(a, cap) == a[..m] && UpTo(b, cap) == b[..m]
  {
    m := |UpTo(a, cap)|;
  }

  lemma CutStable<T(!new)>(a: seq<T>, b: seq<T>, le: (T, T) -> bool, cap: int)
    requires Preorder(le) && Sorted(a, le) && Sorted(b, le) && multiset(a) == multiset(b)
    requires !TieAt(a, |UpTo(a, cap)|, le)
    ensures multiset(UpTo(a, cap)) == multiset(UpTo(b, cap))
  {
    SameSize(a, b);
    var m := UpToSlices(a, b, cap);
    KeptIsStable(a, b, le, m);
  }

  lemma CutUnstable<T(!new)>(s: seq<T>, le: (T, T) -> bool, cap: int) returns (other: seq<T>)
    requires Preorder(le) && Sorted(s, le) && TieAt(s, |UpTo(s, cap)|, le)
    ensures multiset(other) == multiset(s) && |other| == |s| && Sort(other, le) == other
    ensures multiset(UpTo(other, cap)) != multiset(UpTo(s, cap))
  {
    other := KeptIsUnstable(s, le, |UpTo(s, cap)|);
    var m := UpToSlices(s, other, cap);
  }

  lemma TrimPermutes(a: seq<Operation>, b: seq<Operation>, policy: Policy)
    requires multiset(a) == multiset(b) && |a| == |b|
    requires !TieAt(Sort(a, RankLe), |Trimmed(a, policy)|, RankLe)
    ensures multiset(Trimmed(a, policy)) == multiset(Trimmed(b, policy))
  {
    RankIsPreorder();
    SortSorted(a, RankLe);
    SortSorted(b, RankLe);
    CutStable(Sort(a, RankLe), Sort(b, RankLe), RankLe, policy.maxTools);
  }

  /** Without a tie at the cap the same operations become tools, whatever the order. */
  lemma SurfacePermutes(a: seq<Operation>, b: seq<Operation>, policy: Policy)
    requires multiset(a) == multiset(b) && !TieAtCap(a, policy)
    ensures multiset(Surface(a, policy)) == multiset(Surface(b, policy))
  {
    ChosenPermute(a, b, policy);
    if IsTrimmed(a, policy) {
      TrimPermutes(Selected(Eligible(a, policy)), Selected(Eligible(b, policy)), policy);
    }
  }

  lemma ToolListPermutes(a: seq<Operation>, b: seq<Operation>)
    requires multiset(a) == multiset(b) && NamesApart(a)
    ensures ToolList(a) == ToolList(b)
  {
    OperationsPreorder();
    EachSort(a, Project, OperationLe, NameLe);
    EachSort(b, Project, OperationLe, NameLe);
    forall x, y | x in a && y in a && OperationLe(x, y) && OperationLe(y, x) ensures x == y {
      StrTotal(ToolName(x), ToolName(y));
    }
    SortIsCanonical(a, b, OperationLe);
  }

  lemma ToolsAreCanonical(a: seq<Operation>, b: seq<Operation>, policy: Policy)
    requires multiset(a) == multiset(b) && NamesApart(a) && !TieAtCap(a, policy)
    ensures ToolList(Surface(a, policy)) == ToolList(Surface(b, policy))
  {
    SurfacePermutes(a, b, policy);
    SurfaceMembers(a, policy);
    ToolListPermutes(Surface(a, policy), Surface(b, policy));
  }

  // ---- A tie ----

  /** What selection tests one operation for, given whether some eligible one opts in. */
  function Choice(optIn: bool, policy: Policy): Operation -> bool {
    (op: Operation) => EligibleBy(policy)(op) && if optIn then OptedIn()(op) else ReadByDefault()(op)
  }

  predicate SomeOptIn(ops: seq<Operation>, policy: Policy) {
    Gather(Eligible(ops, policy), Keep(OptedIn())) != []
  }

  lemma SelectionFilters(ops: seq<Operation>, policy: Policy)
    ensures Selected(Eligible(ops, policy)) == Gather(ops, Keep(Choice(SomeOptIn(ops, policy), policy)))
  {
    var optIn := SomeOptIn(ops, policy);
    var pick := if optIn then OptedIn() else ReadByDefault();
    KeepTwice(ops, EligibleBy(policy), pick, Choice(optIn, policy));
  }

  function Others<T>(p: T -> bool): T -> bool {
    (x: T) => !p(x)
  }

  lemma SplitByFilter<T(!new)>(s: seq<T>, p: T -> bool)
    ensures multiset(Gather(s, Keep(p)) + Gather(s, Keep(Others(p)))) == multiset(s)
  {
    MultisetSum(Gather(s, Keep(p)), Gather(s, Keep(Others(p))));
    forall x ensures multiset(Gather(s, Keep(p)) + Gather(s, Keep(Others(p))))[x] == multiset(s)[x] {
      FilterCounts(s, p, x);
      FilterCounts(s, Others(p), x);
    }
  }

  /** `s` rearranged so that `front` is what the filter keeps. */
  lemma Rearranged<T(!new)>(s: seq<T>, p: T -> bool, front: seq<T>) returns (r: seq<T>)
    requires multiset(front) == multiset(Gather(s, Keep(p)))
    ensures multiset(r) == multiset(s) && Gather(r, Keep(p)) == front
  {
    var rest := Gather(s, Keep(Others(p)));
    r := front + rest;
    SplitByFilter(s, p);
    MultisetSum(front, rest);
    MultisetSum(Gather(s, Keep(p)), rest);
    FilterMembers(s, p);
    FilterMembers(s, Others(p));
    forall i | 0 <= i < |front| ensures p(front[i]) {
      assert front[i] in multiset(front);
      assert front[i] in Gather(s, Keep(p));
    }
    AllKept(front, p);
    forall i | 0 <= i < |rest| ensures Keep(p)(rest[i]) == [] {
      assert rest[i] in rest;
    }
    NothingGathered(rest, Keep(p));
    GatherConcat(front, rest, Keep(p));
  }

  /** The operations reordered so that `front` is what is selected. */
  lemma Reordered(ops: seq<Operation>, policy: Policy, front: seq<Operation>) returns (r: seq<Operation>)
    requires multiset(front) == multiset(Selected(Eligible(ops, policy)))
    ensures multiset(r) == multiset(ops) && Selected(Eligible(r, policy)) == front
  {
    SelectionFilters(ops, policy);
    r := Rearranged(ops, Choice(SomeOptIn(ops, policy), policy), front);
    SelectionFilters(r, policy);
    FilterPermutes(ops, r, EligibleBy(policy));
    FilterPermutes(Eligible(ops, policy), Eligible(r, policy), OptedIn());
  }

  lemma TieMatters(ops: seq<Operation>, policy: Policy) returns (r: seq<Operation>)
    requires TieAtCap(ops, policy)
    ensures multiset(r) == multiset(ops) && multiset(Surface(r, policy)) != multiset(Surface(ops, policy))
  {
    var selected := Selected(Eligible(ops, policy));
    RankIsPreorder();
    SortSorted(selected, RankLe);
    var front := CutUnstable(Sort(selected, RankLe), RankLe, policy.maxTools);
    r := Reordered(ops, policy, front);
  }

  lemma InFront<T>(s: seq<T>)
    requires s != []
    ensures Last(s) in s && forall y :: y in Front(s) ==> y in s
  {
  }

  lemma EachNext<A, B>(s: seq<A>, f: A -> B, y: B)
    requires s != []
    ensures multiset(Each(s, f))[y] == multiset(Each(Front(s), f))[y] + if y == f(Last(s)) then 1 else 0
  {
    MultisetSum(Each(Front(s), f), [f(Last(s))]);
  }

  lemma {:induction false} EachCounts<A, B>(s: seq<A>, f: A -> B, x: A)
    requires forall y :: y in s && f(y) == f(x) ==> y == x
    ensures multiset(Each(s, f))[f(x)] == multiset(s)[x]
  {
    if s != [] {
      InFront(s);
      EachCounts(Front(s), f, x);
      CountNext(s, x);
      EachNext(s, f, f(x));
      assert f(Last(s)) == f(x) <==> Last(s) == x;
    }
  }

  lemma SameTools(ops: seq<Operation>, a: seq<Operation>, b: seq<Operation>)
    requires NamesApart(ops) && ToolList(a) == ToolList(b)
    requires (forall x :: x in a ==> x in ops) && forall x :: x in b ==> x in ops
    ensures multiset(a) == multiset(b)
  {
    assert multiset(Each(a, Project)) == multiset(ToolList(a)) == multiset(Each(b, Project));
    forall x ensures multiset(a)[x] == multiset(b)[x] {
      if x in ops {
        forall y | y in ops && Project(y) == Project(x) ensures y == x {
          assert ToolName(y) == Project(y).name;
        }
        EachCounts(a, Project, x);
        EachCounts(b, Project, x);
      } else {
        assert x !in a && x !in b;
      }
    }
  }

  lemma ReorderedMembers(ops: seq<Operation>, r: seq<Operation>, policy: Policy)
    requires multiset(r) == multiset(ops)
    ensures forall x :: x in Surface(r, policy) ==> x in ops
  {
    SurfaceMembers(r, policy);
    forall x | x in r ensures x in ops {
      assert x in multiset(ops);
    }
  }

  /** Every order of the operations gives the same tools. */
  ghost predicate OrderIrrelevant(ops: seq<Operation>, policy: Policy) {
    forall r :: multiset(r) == multiset(ops) ==> ToolList(Surface(r, policy)) == ToolList(Surface(ops, policy))
  }

  /** Exactly without a tie at the cap the tools do not depend on the order of the specification. */
  lemma ToolsCanonicalExactly(ops: seq<Operation>, policy: Policy)
    requires NamesApart(ops)
    ensures OrderIrrelevant(ops, policy) <==> !TieAtCap(ops, policy)
  {
    if TieAtCap(ops, policy) {
      var r := TieMatters(ops, policy);
      ReorderedMembers(ops, r, policy);
      ReorderedMembers(ops, ops, policy);
      if ToolList(Surface(r, policy)) == ToolList(Surface(ops, policy)) {
        SameTools(ops, Surface(r, policy), Surface(ops, policy));
      }
    } else {
      forall r | multiset(r) == multiset(ops)
        ensures ToolList(Surface(r, policy)) == ToolList(Surface(ops, policy))
      {
        ToolsAreCanonical(ops, r, policy);
      }
    }
  }

  // ---- A specification that ties ----

  lemma KeepPair<T>(x: T, y: T, p: T -> bool)
    requires p(x) && p(y)
    ensures Gather([x, y], Keep(p)) == [x, y]
  {
    GatherOne(x, Keep(p));
    assert Front([x, y]) == [x];
  }

  lemma PairSurface(x: Operation, y: Operation, policy: Policy)
    requires x.expose == y.expose == Some(true) && !Excluded(x, policy) && !Excluded(y, policy)
    requires policy.ranked && policy.maxTools == 1 && RankLe(x, y) && RankLe(y, x)
    ensures Selected(Eligible([x, y], policy)) == [x, y] == Sort([x, y], RankLe) && |Surface([x, y], policy)| == 1
  {
    KeepPair(x, y, EligibleBy(policy));
    KeepPair(x, y, OptedIn());
    assert Front([x, y]) == [x] && Front([x]) == [];
    assert Sort([x], RankLe) == [x];
  }

  lemma PairTies(x: Operation, y: Operation, policy: Policy)
    requires x.expose == y.expose == Some(true) && !Excluded(x, policy) && !Excluded(y, policy)
    requires policy.ranked && policy.maxTools == 1 && RankLe(x, y) && RankLe(y, x) && x != y
    ensures TieAtCap([x, y], policy)
  {
    PairSurface(x, y, policy);
    var all := [x, y];
    assert RankLe(all[1], all[0]) && all[0] != all[1];
  }

  lemma SamePlace(x: Operation, y: Operation)
    requires PriorityOf(x) == PriorityOf(y) && x.path == y.path && x.verb == y.verb
    ensures RankLe(x, y)
  {
    StrRefl(x.verb);
  }

  lemma PairMatters(x: Operation, y: Operation, policy: Policy)
    requires x.expose == y.expose == Some(true) && !Excluded(x, policy) && !Excluded(y, policy)
    requires policy.ranked && policy.maxTools == 1 && RankLe(x, y) && RankLe(y, x) && ToolName(x) != ToolName(y)
    ensures NamesApart([x, y]) && !OrderIrrelevant([x, y], policy)
  {
    PairTies(x, y, policy);
    ToolsCanonicalExactly([x, y], policy);
  }

  /** The keys `get` and `GET` of one path item give two operations with one path and one method. */
  function GetAs(id: string): Operation {
    Operation("/status", "get", Some(id), "", "", false, {}, Some(true), None, "")
  }

  const ONE_TOOL := Policy(1, 0, true, {}, {}, {}, false)

  lemma BothGetsTie()
    ensures NamesApart([GetAs("read"), GetAs("peek")])
    ensures !OrderIrrelevant([GetAs("read"), GetAs("peek")], ONE_TOOL)
  {
    var x, y := GetAs("read"), GetAs("peek");
    assert x.id.value[0] != y.id.value[0];
    SamePlace(x, y);
    SamePlace(y, x);
    PairMatters(x, y, ONE_TOOL);
  }
}
