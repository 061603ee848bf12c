/**
  When a run of the reconciler takes a resolved declaration away from its entry: exactly when
  an unresolved one of the same store brings a stub whose role or name is looked up earlier.
 */
module DataShadow {
  import opened Common
  import opened DataTier
  import opened TextLines

  function StubGaps(repos: seq<Repo>, values: Values): seq<Gap> {
    Gather(AllGaps(repos, values), Keep(Blocks))
  }

  function StubKeys(repos: seq<Repo>, values: Values, store: Store): Index {
    Merge(Stubs(store, StubGaps(repos, values)), KeysOf())
  }

  /** A declaration of a repository that has no entry, so a run makes a stub for it. */
  predicate Unresolved(need: Need, values: Values, store: Store) {
    StoreOf(need) == Some(store) && Resolve(values, store, need).None?
  }

  /** The stub is found under its role and under the short name of its repository. */
  predicate StubTakes(repo: string, need: Need, key: string) {
    key != "" && (LowerAll(need.role) == key || LowerAll(ShortName(repo)) == key)
  }

  predicate Brings(repo: Repo, n: nat, values: Values, store: Store, key: string) {
    n < |repo.needs| && Unresolved(repo.needs[n], values, store) && StubTakes(repo.name, repo.needs[n], key)
  }

  ghost predicate Taken(repos: seq<Repo>, values: Values, store: Store, key: string) {
    exists r, n: nat :: 0 <= r < |repos| && Brings(repos[r], n, values, store, key)
  }

  lemma StubIsTaken(repo: string, store: Store, need: Need, key: string)
    requires !store.Neo4j?
    ensures key in KeysOf()(Stub(GapFor(repo, store, Absent, need))) <==> StubTakes(repo, need, key)
  {
  }

  lemma GapOfNeed(repo: string, values: Values, need: Need, gap: Gap, store: Store)
    requires gap in GapsOf(repo, values)(need) && gap.status == Absent && gap.store == store
    ensures Unresolved(need, values, store) && gap == GapFor(repo, store, Absent, need)
  {
  }

  lemma NeedHasGap(repo: string, values: Values, need: Need, store: Store)
    requires Unresolved(need, values, store)
    ensures GapFor(repo, store, Absent, need) in GapsOf(repo, values)(need)
  {
  }

  lemma TakenHasStub(repos: seq<Repo>, values: Values, store: Store, key: string, r: nat, n: nat)
    requires !store.Neo4j? && r < |repos| && Brings(repos[r], n, values, store, key)
    ensures key in StubKeys(repos, values, store)
  {
    var need := repos[r].needs[n];
    var gap := GapFor(repos[r].name, store, Absent, need);
    NeedHasGap(repos[r].name, values, need, store);
    GapsMember(repos, values, r, n, gap);
    StubIsTaken(repos[r].name, store, need, key);
    StubUnderKey(StubGaps(repos, values), store, gap, key);
  }

  lemma StubUnderKey(gaps: seq<Gap>, store: Store, gap: Gap, key: string)
    requires gap in gaps && gap.status == Absent && gap.store == store && key in KeysOf()(Stub(gap))
    ensures key in Merge(Stubs(store, gaps), KeysOf())
  {
    var k :| 0 <= k < |gaps| && gaps[k] == gap;
    assert Stub(gap) in StubFor(store)(gaps[k]);
    GatherMember(gaps, StubFor(store), Stub(gap));
    var stubs := Stubs(store, gaps);
    var i :| 0 <= i < |stubs| && stubs[i] == Stub(gap);
    MergeMember(stubs, KeysOf(), key);
  }

  lemma KeyHasStub(gaps: seq<Gap>, store: Store, key: string) returns (gap: Gap)
    requires key in Merge(Stubs(store, gaps), KeysOf())
    ensures gap in gaps && gap.status == Absent && gap.store == store && key in KeysOf()(Stub(gap))
  {
    var stubs := Stubs(store, gaps);
    MergeMember(stubs, KeysOf(), key);
    var i :| 0 <= i < |stubs| && key in KeysOf()(stubs[i]);
    gap := StubHasGap(gaps, store, stubs[i]);
  }

  lemma StubHasGap(gaps: seq<Gap>, store: Store, stub: Entry) returns (gap: Gap)
    requires stub in Stubs(store, gaps)
    ensures gap in gaps && gap.status == Absent && gap.store == store && stub == Stub(gap)
  {
    GatherMember(gaps, StubFor(store), stub);
    var k :| 0 <= k < |gaps| && stub in StubFor(store)(gaps[k]);
    gap := gaps[k];
  }

  lemma StubIsOfNeed(repos: seq<Repo>, values: Values, store: Store, key: string)
    requires !store.Neo4j? && key in StubKeys(repos, values, store)
    ensures Taken(repos, values, store, key)
  {
    var gap := KeyHasStub(StubGaps(repos, values), store, key);
    BlockingPending(repos, values, gap);
    var r, n := GapHasSource(repos, values, gap);
    var need := repos[r].needs[n];
    GapOfNeed(repos[r].name, values, need, gap, store);
    StubIsTaken(repos[r].name, store, need, key);
    assert Brings(repos[r], n, values, store, key);
  }

  /** The keys of the stubs of a run, in terms of the declarations and the entries before it. */
  lemma StubKeysExact(repos: seq<Repo>, values: Values, store: Store, key: string)
    requires !store.Neo4j?
    ensures key in StubKeys(repos, values, store) <==> Taken(repos, values, store, key)
  {
    if key in StubKeys(repos, values, store) {
      StubIsOfNeed(repos, values, store, key);
    } else if Taken(repos, values, store, key) {
      var r, n: nat :| 0 <= r < |repos| && Brings(repos[r], n, values, store, key);
      TakenHasStub(repos, values, store, key, r, n);
    }
  }

  /** A stub takes a key that the declaration is looked up by before the one it resolves through. */
  ghost predicate TakenEarlier(repos: seq<Repo>, values: Values, store: Store, need: Need) {
    exists i :: 0 <= i < FirstHit(IndexOf(values, store), Candidates(store, need))
                && Taken(repos, values, store, Candidates(store, need)[i])
  }

  /** A run keeps the entry of a resolved declaration, or else leaves it a disabled stub. */
  lemma RunKeepsEntry(repos: seq<Repo>, values: Values, store: Store, need: Need)
    requires !store.Neo4j? && Resolve(values, store, need).Some?
    ensures var after := Resolve(Reconciled(repos, values), store, need);
            if TakenEarlier(repos, values, store, need) then after.Some? && !after.value.enabled
            else after == Resolve(values, store, need)
  {
    var keys := Candidates(store, need);
    var hit := FirstHit(IndexOf(values, store), keys);
    ResolvedEntryStays(StubGaps(repos, values), values, store, need);
    var stubs := StubKeys(repos, values, store);
    if TakenEarlier(repos, values, store, need) {
      var i :| 0 <= i < hit && Taken(repos, values, store, keys[i]);
      StubKeysExact(repos, values, store, keys[i]);
      assert Shadowed(stubs, keys, hit);
    } else if Shadowed(stubs, keys, hit) {
      var i :| 0 <= i < hit && i < |keys| && keys[i] in stubs;
      StubKeysExact(repos, values, store, keys[i]);
    }
  }

  // ---- A run that shadows ----

  /** The stub of a repository whose short name is the role of a declaration that has an entry under a later key. */
  lemma NamesakeShadows(repos: seq<Repo>, values: Values, store: Store, need: Need, r: nat, n: nat)
    requires !store.Neo4j? && Resolve(values, store, need).Some? && need.role != ""
    requires LowerAll(need.role) !in IndexOf(values, store)
    requires r < |repos| && n < |repos[r].needs| && Unresolved(repos[r].needs[n], values, store)
    requires LowerAll(ShortName(repos[r].name)) == LowerAll(need.role)
    ensures var after := Resolve(Reconciled(repos, values), store, need);
            after.Some? && !after.value.enabled
  {
    var key := Candidates(store, need)[0];
    assert Brings(repos[r], n, values, store, key);
    assert Taken(repos, values, store, key);
    RunKeepsEntry(repos, values, store, need);
  }

  const SHOP := Entry("p", "p", true, Some("d"), {})
  const VALUES := Values([SHOP], [], [], [])
  const RESOLVED := Need("postgres", "p_svc", "d", "")
  const MISSING := Need("postgres", "z", "d", "")
  const REPOS := [Repo("o/p_svc", [MISSING]), Repo("b", [RESOLVED])]

  lemma SmallStays(s: string)
    requires forall i :: 0 <= i < |s| ==> !('A' <= s[i] <= 'Z')
    ensures LowerAll(s) == s
  {
  }

  lemma Suffixes()
    ensures Erase("p_svc", "_svc") == "p" && Erase("p_svc", "_app") == "p_svc"
  {
    var s := "p_svc";
    assert s[1..] == "_svc" && s[..4] == "p_sv";
    assert Erase("_svc", "_svc") == Erase("", "_svc") by {
      assert "_svc"[..4] == "_svc" && "_svc"[4..] == "";
    }
    assert Erase("_svc", "_app") == ['_'] + Erase("svc", "_app") by {
      assert "_svc"[..4] == "_svc" && "_svc"[1..] == "svc";
      assert "_svc"[1] != "_app"[1];
    }
    assert "p_sv"[0] != "_svc"[0] && "p_sv"[0] != "_app"[0];
  }

  lemma RoleKeys(need: Need, svc: string, app: string)
    requires Erase(need.role, "_svc") == svc && Erase(need.role, "_app") == app
    requires LowerAll(need.role) == need.role && LowerAll(svc) == svc && LowerAll(app) == app
    ensures Candidates(Postgres, need) == [need.role, svc, app]
  {
  }

  lemma ShopKeys()
    ensures Candidates(Postgres, RESOLVED) == ["p_svc", "p", "p_svc"]
    ensures Candidates(Postgres, MISSING) == ["z", "z", "z"]
  {
    Suffixes();
    SmallStays("p_svc");
    SmallStays("p");
    RoleKeys(RESOLVED, "p", "p_svc");
    SmallStays("z");
    RoleKeys(MISSING, "z", "z");
  }

  lemma ShopIndex()
    ensures IndexOf(VALUES, Postgres) == map["p" := SHOP]
  {
    MergeOne(SHOP, KeysOf());
    SmallStays("p");
  }

  lemma ShopShortName()
    ensures ShortName("o/p_svc") == "p_svc"
  {
    var s := "o/p_svc";
    assert s[1] == '/' && s[1..][1..] == "p_svc";
    assert AfterSlash(s) == AfterSlash(s[1..]) == "p_svc";
    SmallStays("p_svc");
  }

  lemma LookupThree(index: Index, a: string, b: string, c: string)
    ensures Lookup(index, [a, b, c]) == if a in index then Some(index[a]) else if b in index then Some(index[b])
                                        else if c in index then Some(index[c]) else None
  {
    assert [a, b, c][1..] == [b, c] && [b, c][1..] == [c] && [c][1..] == [];
    assert Lookup(index, [c]) == if c in index then Some(index[c]) else None;
    assert Lookup(index, [b, c]) == if b in index then Some(index[b]) else Lookup(index, [c]);
  }

  lemma ShopLookups()
    ensures Resolve(VALUES, Postgres, RESOLVED) == Some(SHOP)
    ensures Unresolved(MISSING, VALUES, Postgres)
    ensures "p_svc" !in IndexOf(VALUES, Postgres)
  {
    ShopKeys();
    ShopIndex();
    var index := map["p" := SHOP];
    assert |"p_svc"| != |"p"| && "z"[0] != "p"[0];
    LookupThree(index, "p_svc", "p", "p_svc");
    LookupThree(index, "z", "z", "z");
    assert StoreOf(MISSING) == Some(Postgres);
    assert Resolve(VALUES, Postgres, MISSING) == Lookup(index, ["z", "z", "z"]);
  }

  lemma ShopRepos()
    ensures |REPOS| == 2 && REPOS[0].needs == [MISSING] && REPOS[0].name == "o/p_svc" && RESOLVED.role == "p_svc"
  {
  }

  /** A declaration in order loses its enabled entry to the stub of another repository. */
  lemma RunShadows()
    ensures Resolve(VALUES, Postgres, RESOLVED) == Some(SHOP) && SHOP.enabled
    ensures var after := Resolve(Reconciled(REPOS, VALUES), Postgres, RESOLVED);
            after.Some? && !after.value.enabled
  {
    ShopLookups();
    ShopRepos();
    ShopShortName();
    SmallStays("p_svc");
    NamesakeShadows(REPOS, VALUES, Postgres, RESOLVED, 0, 0);
  }
}
