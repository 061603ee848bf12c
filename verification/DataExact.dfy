/**
  The reconciler's lookups, gaps and stubs in the fields of the declarations and of the
  provisioned entries.
 */
module DataExact {
  import opened Common
  import opened DataTier
  import opened TextLines

  // ---- Taking out a suffix ----

  predicate OccursAt(s: string, part: string, i: nat) {
    i + |part| <= |s| && s[i..i + |part|] == part
  }

  /** Place `i` is the first at which the part occurs. */
  predicate OccursFirst(s: string, part: string, i: nat) {
    OccursAt(s, part, i) && forall j :: 0 <= j < i ==> !OccursAt(s, part, j)
  }

  lemma OccursLater(s: string, part: string, j: nat)
    requires s != ""
    ensures OccursAt(s[1..], part, j) <==> OccursAt(s, part, j + 1)
  {
    if j + |part| <= |s| - 1 {
      assert s[1..][j..j + |part|] == s[j + 1..j + 1 + |part|];
    }
  }

  lemma EraseNext(s: string, part: string)
    requires part != "" && s != ""
    ensures Erase(s, part) == if OccursAt(s, part, 0) then Erase(s[|part|..], part) else [s[0]] + Erase(s[1..], part)
  {
    if |s| >= |part| {
      assert s[..|part|] == s[0..0 + |part|];
    } else {
      assert s == [s[0]] + s[1..];
    }
  }

  lemma FirstLater(s: string, part: string, i: nat)
    requires s != "" && i > 0 && OccursFirst(s, part, i)
    ensures OccursFirst(s[1..], part, i - 1) && !OccursAt(s, part, 0)
  {
    OccursLater(s, part, i - 1);
    forall j: nat | j < i - 1 ensures !OccursAt(s[1..], part, j) {
      OccursLater(s, part, j);
    }
  }

  lemma Shifted(s: string, i: nat, n: nat)
    requires 0 < i && i + n <= |s|
    ensures s[1..][i - 1 + n..] == s[i + n..] && s[..i] == [s[0]] + s[1..][..i - 1]
  {
  }

  lemma ErasesLater(s: string, part: string, i: nat)
    requires part != "" && 0 < i && i + |part| <= |s| && !OccursAt(s, part, 0)
    requires Erase(s[1..], part) == s[1..][..i - 1] + Erase(s[1..][i - 1 + |part|..], part)
    ensures Erase(s, part) == s[..i] + Erase(s[i + |part|..], part)
  {
    EraseNext(s, part);
    Shifted(s, i, |part|);
    Associative([s[0]], s[1..][..i - 1], Erase(s[i + |part|..], part));
  }

  lemma {:induction false} ErasesFirst(s: string, part: string, i: nat)
    requires part != "" && OccursFirst(s, part, i)
    ensures Erase(s, part) == s[..i] + Erase(s[i + |part|..], part)
    decreases i
  {
    if i == 0 {
      EraseNext(s, part);
      assert s[..0] == [];
    } else {
      FirstLater(s, part, i);
      ErasesFirst(s[1..], part, i - 1);
      ErasesLater(s, part, i);
    }
  }

  predicate Lacking(s: string, part: string) {
    forall j :: 0 <= j <= |s| ==> !OccursAt(s, part, j)
  }

  lemma {:induction false} ErasesNothing(s: string, part: string)
    requires part != "" && Lacking(s, part)
    ensures Erase(s, part) == s
  {
    if |s| >= |part| {
      assert !OccursAt(s, part, 0) && s[..|part|] == s[0..0 + |part|];
      forall j: nat | j <= |s| - 1 ensures !OccursAt(s[1..], part, j) {
        OccursLater(s, part, j);
      }
      ErasesNothing(s[1..], part);
    }
  }

  /** Every occurrence goes, from the left; what has none stays as it is. */
  lemma EraseExact(s: string, part: string)
    requires part != ""
    ensures forall i: nat :: OccursFirst(s, part, i) ==> Erase(s, part) == s[..i] + Erase(s[i + |part|..], part)
    ensures Lacking(s, part) ==> Erase(s, part) == s
  {
    forall i: nat | OccursFirst(s, part, i) ensures Erase(s, part) == s[..i] + Erase(s[i + |part|..], part) {
      ErasesFirst(s, part, i);
    }
    if Lacking(s, part) {
      ErasesNothing(s, part);
    }
  }

  // ---- Lookups ----

  /** The entry is found under its role, which neo4j has none of, and under its name, in lower case. */
  predicate Under(e: Entry, store: Store, key: string) {
    key != "" && ((!store.Neo4j? && LowerAll(e.role) == key) || LowerAll(e.name) == key)
  }

  /** The last entry found under the key. */
  predicate LastUnder(entries: seq<Entry>, store: Store, key: string, i: nat) {
    i < |entries| && Under(entries[i], store, key) && forall j :: i < j < |entries| ==> !Under(entries[j], store, key)
  }

  function IndexedBy(store: Store): Entry -> Index {
    if store.Neo4j? then NameOf() else KeysOf()
  }

  lemma UnderExact(e: Entry, store: Store, key: string)
    ensures key in IndexedBy(store)(e) <==> Under(e, store, key)
    ensures Under(e, store, key) ==> IndexedBy(store)(e)[key] == e
  {
    assert LowerAll("") == "";
    assert |LowerAll(e.role)| == |e.role| && |LowerAll(e.name)| == |e.name|;
  }

  lemma LastUnderFront(entries: seq<Entry>, store: Store, key: string, i: nat)
    requires entries != [] && !Under(Last(entries), store, key)
    ensures LastUnder(entries, store, key, i) <==> LastUnder(Front(entries), store, key, i)
  {
    if LastUnder(Front(entries), store, key, i) {
      forall j | i < j < |entries| ensures !Under(entries[j], store, key) {
        assert j < |entries| - 1 ==> Front(entries)[j] == entries[j];
      }
    } else if LastUnder(entries, store, key, i) {
      assert i < |entries| - 1;
      forall j | i < j < |entries| - 1 ensures !Under(Front(entries)[j], store, key) {
        assert Front(entries)[j] == entries[j];
      }
    }
  }

  /** The index has the key exactly when some entry is under it, and gives the last one that is. */
  predicate IndexesLast(index: Index, entries: seq<Entry>, store: Store, key: string) {
    && (key in index <==> exists i :: 0 <= i < |entries| && LastUnder(entries, store, key, i))
    && forall i :: 0 <= i < |entries| && LastUnder(entries, store, key, i) ==> key in index && index[key] == entries[i]
  }

  lemma {:induction false} IndexExact(entries: seq<Entry>, store: Store, key: string)
    ensures IndexesLast(Merge(entries, IndexedBy(store)), entries, store, key)
  {
    if entries != [] {
      IndexExact(Front(entries), store, key);
      NextIndex(Merge(Front(entries), IndexedBy(store)), entries, store, key);
    }
  }

  lemma NextIndex(index: Index, entries: seq<Entry>, store: Store, key: string)
    requires entries != [] && IndexesLast(index, Front(entries), store, key)
    ensures IndexesLast(index + IndexedBy(store)(Last(entries)), entries, store, key)
  {
    UnderExact(Last(entries), store, key);
    if Under(Last(entries), store, key) {
      assert LastUnder(entries, store, key, |entries| - 1);
    } else {
      forall i: nat ensures LastUnder(entries, store, key, i) <==> LastUnder(Front(entries), store, key, i) {
        LastUnderFront(entries, store, key, i);
      }
    }
  }

  /** The text that a declaration is looked up by in its `c`-th place: its own, then without one suffix or the other. */
  predicate LookedUpBy(store: Store, need: Need, c: nat, key: string) {
    match store
    case Neo4j => c == 0 && key == LowerAll(need.instance)
    case Mongo =>
      (c == 0 && key == LowerAll(need.role)) || (c == 1 && key == LowerAll(Erase(need.role, "_app")))
      || (c == 2 && key == LowerAll(Erase(need.role, "_svc")))
    case _ =>
      (c == 0 && key == LowerAll(need.role)) || (c == 1 && key == LowerAll(Erase(need.role, "_svc")))
      || (c == 2 && key == LowerAll(Erase(need.role, "_app")))
  }

  lemma LookedUpExact(store: Store, need: Need, c: nat, key: string)
    ensures LookedUpBy(store, need, c, key) <==> c < |Candidates(store, need)| && Candidates(store, need)[c] == key
  {
  }

  predicate AnyUnder(entries: seq<Entry>, store: Store, key: string) {
    exists i :: 0 <= i < |entries| && Under(entries[i], store, key)
  }

  /** Entry `i` is the last under the `c`-th text, and nothing is found under the texts before. */
  ghost predicate FoundAt(values: Values, store: Store, need: Need, c: nat, i: nat) {
    var entries := Entries(values, store);
    && (exists key :: LookedUpBy(store, need, c, key) && LastUnder(entries, store, key, i))
    && forall d: nat, key :: d < c && LookedUpBy(store, need, d, key) ==> !AnyUnder(entries, store, key)
  }

  lemma {:induction false} SomeLastUnder(entries: seq<Entry>, store: Store, key: string)
    ensures AnyUnder(entries, store, key) <==> exists i: nat :: LastUnder(entries, store, key, i)
  {
    if entries != [] {
      SomeLastUnder(Front(entries), store, key);
      if Under(Last(entries), store, key) {
        assert LastUnder(entries, store, key, |entries| - 1);
        assert Under(entries[|entries| - 1], store, key);
      } else if AnyUnder(entries, store, key) {
        var k :| 0 <= k < |entries| && Under(entries[k], store, key);
        assert Under(Front(entries)[k], store, key);
        var i: nat :| LastUnder(Front(entries), store, key, i);
        LastUnderFront(entries, store, key, i);
      }
    }
  }

  lemma KeyInIndex(values: Values, store: Store, key: string)
    ensures key in IndexOf(values, store) <==> AnyUnder(Entries(values, store), store, key)
    ensures forall i: nat :: LastUnder(Entries(values, store), store, key, i)
              ==> key in IndexOf(values, store) && IndexOf(values, store)[key] == Entries(values, store)[i]
  {
    IndexExact(Entries(values, store), store, key);
    SomeLastUnder(Entries(values, store), store, key);
  }

  /** The first of the keys that has an entry. */
  lemma {:induction false} LooksUpFirst(index: Index, keys: seq<string>) returns (c: nat)
    requires Lookup(index, keys).Some?
    ensures c < |keys| && keys[c] in index && Lookup(index, keys) == Some(index[keys[c]])
    ensures forall d :: 0 <= d < c ==> keys[d] !in index
  {
    if keys[0] in index {
      c := 0;
    } else {
      var b := LooksUpFirst(index, keys[1..]);
      c := b + 1;
      forall d | 0 <= d < c ensures keys[d] !in index {
        assert d > 0 ==> keys[d] == keys[1..][d - 1];
      }
    }
  }

  /** What a declaration resolves to is the entry found by the first of its texts that finds any. */
  lemma ResolveFinds(values: Values, store: Store, need: Need) returns (c: nat, i: nat)
    requires Resolve(values, store, need).Some?
    ensures FoundAt(values, store, need, c, i) && i < |Entries(values, store)|
    ensures Resolve(values, store, need) == Some(Entries(values, store)[i])
  {
    var entries, keys := Entries(values, store), Candidates(store, need);
    c := LooksUpFirst(IndexOf(values, store), keys);
    KeyInIndex(values, store, keys[c]);
    SomeLastUnder(entries, store, keys[c]);
    i :| LastUnder(entries, store, keys[c], i);
    LookedUpExact(store, need, c, keys[c]);
    forall d: nat, key | d < c && LookedUpBy(store, need, d, key) ensures !AnyUnder(entries, store, key) {
      LookedUpExact(store, need, d, key);
      KeyInIndex(values, store, key);
    }
  }

  /** It resolves to nothing exactly when none of its texts finds an entry. */
  lemma ResolveMisses(values: Values, store: Store, need: Need)
    ensures Resolve(values, store, need).None?
            <==> forall c: nat, key :: LookedUpBy(store, need, c, key) ==> !AnyUnder(Entries(values, store), store, key)
  {
    var keys := Candidates(store, need);
    LookupExact(IndexOf(values, store), keys);
    forall c: nat, key | LookedUpBy(store, need, c, key)
      ensures c < |keys| && keys[c] == key
      ensures key in IndexOf(values, store) <==> AnyUnder(Entries(values, store), store, key)
    {
      LookedUpExact(store, need, c, key);
      KeyInIndex(values, store, key);
    }
    forall c: nat | c < |keys| ensures LookedUpBy(store, need, c, keys[c]) {
      LookedUpExact(store, need, c, keys[c]);
    }
  }

  // ---- Gaps ----

  /** The name by which a declaration asks for a store. */
  function WrittenAs(store: Store): string {
    match store
    case Postgres => "postgres"
    case Mariadb => "mariadb"
    case Mongo => "mongo"
    case Neo4j => "neo4j"
  }

  /** The declaration has this gap: no entry, a disabled one, or one of another database or without the grant. */
  predicate Lacks(need: Need, store: Store, status: Status, values: Values) {
    var e := Resolve(values, store, need);
    match status
    case Absent => e.None?
    case Disabled => e.Some? && !e.value.enabled
    case DbMismatch => (store.Postgres? || store.Mariadb?) && e.Some? && e.value.database != Some(need.database)
    case GrantMissing => store.Mongo? && e.Some? && need.database !in e.value.grants
  }

  predicate GapAbout(gap: Gap, repo: string, need: Need) {
    && gap.repo == repo && need.store == WrittenAs(gap.store)
    && gap.role == (if gap.store.Neo4j? then need.instance else need.role)
    && gap.database == (if gap.store.Neo4j? then "" else need.database)
  }

  lemma StoreExact(need: Need, store: Store)
    ensures StoreOf(need) == Some(store) <==> need.store == WrittenAs(store)
  {
    assert "postgres"[0] != "mariadb"[0] && "postgres"[0] != "mongo"[0] && "postgres"[0] != "neo4j"[0];
    assert "mariadb"[1] != "mongo"[1] && "mariadb"[0] != "neo4j"[0] && "mongo"[0] != "neo4j"[0];
  }

  lemma CheckLacks(repo: string, values: Values, need: Need, store: Store, gap: Gap)
    requires need.store == WrittenAs(store)
    ensures gap in CheckNeed(repo, store, need, IndexOf(values, store))
            <==> gap.store == store && GapAbout(gap, repo, need) && Lacks(need, store, gap.status, values)
  {
  }

  lemma NeedLacks(repo: string, values: Values, need: Need, gap: Gap)
    ensures gap in GapsOf(repo, values)(need)
            <==> GapAbout(gap, repo, need) && Lacks(need, gap.store, gap.status, values)
  {
    StoreExact(need, gap.store);
    if StoreOf(need).Some? {
      StoreExact(need, StoreOf(need).value);
      CheckLacks(repo, values, need, StoreOf(need).value, gap);
    }
  }

  /** Exactly the gaps of the declarations are reported. */
  lemma GapsExact(repo: string, needs: seq<Need>, values: Values, gap: Gap)
    ensures gap in Gaps(repo, needs, values)
            <==> exists need :: need in needs && GapAbout(gap, repo, need) && Lacks(need, gap.store, gap.status, values)
  {
    GatherMember(needs, GapsOf(repo, values), gap);
    if gap in Gaps(repo, needs, values) {
      var n :| 0 <= n < |needs| && gap in GapsOf(repo, values)(needs[n]);
      NeedLacks(repo, values, needs[n], gap);
      assert needs[n] in needs;
    } else if need :| need in needs && GapAbout(gap, repo, need) && Lacks(need, gap.store, gap.status, values) {
      var n :| 0 <= n < |needs| && needs[n] == need;
      NeedLacks(repo, values, needs[n], gap);
    }
  }

  /** A run fails on the gaps of declarations without an entry or without the grant, and on no others. */
  lemma BlockingExact(repos: seq<Repo>, values: Values, gap: Gap)
    ensures gap in Gather(AllGaps(repos, values), Keep(Blocks)) <==>
            && (gap.status == Absent || gap.status == GrantMissing)
            && exists r, need :: 0 <= r < |repos| && need in repos[r].needs
                                 && GapAbout(gap, repos[r].name, need) && Lacks(need, gap.store, gap.status, values)
  {
    GatherMember(repos, RepoGaps(values), gap);
    forall r | 0 <= r < |repos|
      ensures gap in RepoGaps(values)(repos[r])
              <==> exists need :: need in repos[r].needs
                                  && GapAbout(gap, repos[r].name, need) && Lacks(need, gap.store, gap.status, values)
    {
      GapsExact(repos[r].name, repos[r].needs, values, gap);
    }
    KeptMember(AllGaps(repos, values), gap);
  }

  lemma KeptMember(gaps: seq<Gap>, gap: Gap)
    ensures gap in Gather(gaps, Keep(Blocks)) <==> gap in gaps && Blocks(gap)
  {
    GatherMember(gaps, Keep(Blocks), gap);
    if gap in gaps {
      var i :| 0 <= i < |gaps| && gaps[i] == gap;
      assert gap in Keep(Blocks)(gaps[i]) <==> Blocks(gap);
    }
  }

  // ---- Stubs ----

  /** The part of a repository's name behind its first slash, if it has one, in lower case. */
  predicate IsShortName(repo: string, short: string) {
    if '/' in repo then
      exists i :: 0 <= i < |repo| && repo[i] == '/' && '/' !in repo[..i] && short == LowerAll(repo[i + 1..])
    else short == LowerAll(repo)
  }

  lemma {:induction false} AfterFirstSlash(s: string) returns (i: nat)
    requires '/' in s
    ensures i < |s| && s[i] == '/' && '/' !in s[..i] && AfterSlash(s) == s[i + 1..]
  {
    if s[0] == '/' {
      i := 0;
    } else {
      assert s == [s[0]] + s[1..];
      var k := AfterFirstSlash(s[1..]);
      i := k + 1;
      assert s[..i] == [s[0]] + s[1..][..k];
    }
  }

  /** The stub carries what its declaration asked for, and is disabled. */
  predicate Answers(stub: Entry, repo: string, store: Store, need: Need) {
    && IsShortName(repo, stub.name) && stub.role == need.role && !stub.enabled
    && stub.database == Some(need.database) && (store.Mongo? ==> need.database in stub.grants)
  }

  lemma StubAnswers(repo: string, store: Store, need: Need)
    requires !store.Neo4j?
    ensures Answers(Stub(GapFor(repo, store, Absent, need)), repo, store, need)
  {
    if '/' in repo {
      var i := AfterFirstSlash(repo);
    }
  }

  /** The entries that a run adds to a store. */
  function AddedBy(repos: seq<Repo>, values: Values, store: Store): seq<Entry> {
    Stubs(store, Gather(AllGaps(repos, values), Keep(Blocks)))
  }

  lemma ReconciledEntries(repos: seq<Repo>, values: Values, store: Store)
    requires !store.Neo4j?
    ensures Entries(Reconciled(repos, values), store) == AddedBy(repos, values, store) + Entries(values, store)
  {
    ApplyExtends(Gather(AllGaps(repos, values), Keep(Blocks)), values, store);
  }

  /**
    A declaration that a run made a stub for has afterwards one gap, that the stub is disabled,
    if every stub under its role was made for the same database.
   */
  lemma StubLeavesDisabled(repos: seq<Repo>, values: Values, r: nat, n: nat, store: Store)
    requires r < |repos| && n < |repos[r].needs| && !store.Neo4j?
    requires var need := repos[r].needs[n];
             need.store == WrittenAs(store) && need.role != "" && Resolve(values, store, need).None?
    requires forall e :: e in AddedBy(repos, values, store) && Under(e, store, LowerAll(repos[r].needs[n].role)) ==>
               e.database == Some(repos[r].needs[n].database)
               && (store.Mongo? ==> repos[r].needs[n].database in e.grants)
    ensures GapsOf(repos[r].name, Reconciled(repos, values))(repos[r].needs[n])
            == [GapFor(repos[r].name, store, Disabled, repos[r].needs[n])]
  {
    var need, after := repos[r].needs[n], Reconciled(repos, values);
    var key := LowerAll(need.role);
    StoreExact(need, store);
    RoleIsFirst(repos, values, r, n, store);
    KeyInIndex(after, store, key);
    ReconciledEntries(repos, values, store);
    ResolveMisses(values, store, need);
    assert LookedUpBy(store, need, 0, key);
    IndexExact(Entries(after, store), store, key);
    var i: nat :| LastUnder(Entries(after, store), store, key, i);
    LastIsStub(AddedBy(repos, values, store), Entries(values, store), store, key, i);
    StubsDisabled(Gather(AllGaps(repos, values), Keep(Blocks)), store);
  }

  lemma LastIsStub(stubs: seq<Entry>, entries: seq<Entry>, store: Store, key: string, i: nat)
    requires LastUnder(stubs + entries, store, key, i) && !AnyUnder(entries, store, key)
    ensures i < |stubs| && (stubs + entries)[i] == stubs[i]
  {
    assert forall p :: 0 <= p < |entries| ==>
        (stubs + entries)[p + |stubs|] == entries[p] && !Under(entries[p], store, key);
  }

  /** After the run the declaration is found by its role. */
  lemma RoleIsFirst(repos: seq<Repo>, values: Values, r: nat, n: nat, store: Store)
    requires r < |repos| && n < |repos[r].needs| && !store.Neo4j?
    requires var need := repos[r].needs[n];
             StoreOf(need) == Some(store) && need.role != "" && Resolve(values, store, need).None?
    ensures var key, index := LowerAll(repos[r].needs[n].role), IndexOf(Reconciled(repos, values), store);
            key in index && Resolve(Reconciled(repos, values), store, repos[r].needs[n]) == Some(index[key])
  {
    var need := repos[r].needs[n];
    var gap := GapFor(repos[r].name, store, Absent, need);
    assert gap in GapsOf(repos[r].name, values)(need);
    GapsMember(repos, values, r, n, gap);
    StubIndexed(Gather(AllGaps(repos, values), Keep(Blocks)), values, gap);
    assert Candidates(store, need)[0] == LowerAll(need.role);
  }
}
