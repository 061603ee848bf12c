/**
  The reconciler of declared data stores with the provisioned ones: the indexes of the
  provisioned entries, the gaps, and the stub entries that close them.
 */
module DataTier {
  import opened Common
  import opened TextLines

  datatype Store = Postgres | Mariadb | Mongo | Neo4j

  /** `role` is the role or the user of the entry; a missing text is empty. */
  datatype Entry = Entry(name: string, role: string, enabled: bool, database: Option<string>, grants: set<string>)

  datatype Values = Values(postgres: seq<Entry>, mariadb: seq<Entry>, mongo: seq<Entry>, neo4j: seq<Entry>)

  /** One declaration; `store` is its store in lower case as written. */
  datatype Need = Need(store: string, role: string, database: string, instance: string)

  datatype Status = Absent | Disabled | DbMismatch | GrantMissing

  datatype Gap = Gap(repo: string, store: Store, status: Status, role: string, database: string)

  datatype Repo = Repo(name: string, needs: seq<Need>)

  // ---- The indexes ----

  type Index = map<string, Entry>

  function Keyed(key: string, e: Entry): Index {
    if key == "" then map[] else map[LowerAll(key) := e]
  }

  function KeysOf(): Entry -> Index {
    (e: Entry) => Keyed(e.role, e) + Keyed(e.name, e)
  }

  function NameOf(): Entry -> Index {
    (e: Entry) => Keyed(e.name, e)
  }

  function Entries(values: Values, store: Store): seq<Entry> {
    match store
    case Postgres => values.postgres
    case Mariadb => values.mariadb
    case Mongo => values.mongo
    case Neo4j => values.neo4j
  }

  /** Entries by role and by name, a later entry taking the key. */
  function IndexOf(values: Values, store: Store): Index {
    Merge(Entries(values, store), if store.Neo4j? then NameOf() else KeysOf())
  }

  method Enter(index: Index, key: string, e: Entry) returns (next: Index)
    ensures next == index + Keyed(key, e)
  {
    next := index;
    if key != "" {
      PutIsMerge(next, LowerAll(key), e);
      next := next[LowerAll(key) := e];
    }
  }

  method BuildIndex(entries: seq<Entry>) returns (index: Index)
    ensures index == Merge(entries, KeysOf())
  {
    index := map[];
    for i := 0 to |entries|
      invariant index == Merge(entries[..i], KeysOf())
    {
      MergeNext(entries, i, KeysOf());
      index := Enter(index, entries[i].role, entries[i]);
      index := Enter(index, entries[i].name, entries[i]);
    }
    assert entries[..|entries|] == entries;
  }

  method BuildNameIndex(entries: seq<Entry>) returns (index: Index)
    ensures index == Merge(entries, NameOf())
  {
    index := map[];
    for i := 0 to |entries|
      invariant index == Merge(entries[..i], NameOf())
    {
      MergeNext(entries, i, NameOf());
      index := Enter(index, entries[i].name, entries[i]);
    }
    assert entries[..|entries|] == entries;
  }

  // ---- Lookups ----

  /** Every occurrence of `part`, from the left, taken out. */
  function Erase(s: string, part: string): string
    requires part != ""
  {
    if |s| < |part| then s
    else if s[..|part|] == part then Erase(s[|part|..], part)
    else [s[0]] + Erase(s[1..], part)
  }

  /** The keys a declaration is looked up by, in order. */
  function Candidates(store: Store, need: Need): seq<string> {
    match store
    case Neo4j => [LowerAll(need.instance)]
    case Mongo => [LowerAll(need.role), LowerAll(Erase(need.role, "_app")), LowerAll(Erase(need.role, "_svc"))]
    case _ => [LowerAll(need.role), LowerAll(Erase(need.role, "_svc")), LowerAll(Erase(need.role, "_app"))]
  }

  /** The first key with an entry. */
  function Lookup(index: Index, keys: seq<string>): Option<Entry> {
    if keys == [] then None
    else if keys[0] in index then Some(index[keys[0]])
    else Lookup(index, keys[1..])
  }

  function StoreOf(need: Need): Option<Store> {
    if need.store == "postgres" then Some(Postgres)
    else if need.store == "mariadb" then Some(Mariadb)
    else if need.store == "mongo" then Some(Mongo)
    else if need.store == "neo4j" then Some(Neo4j)
    else None
  }

  function Resolve(values: Values, store: Store, need: Need): Option<Entry> {
    Lookup(IndexOf(values, store), Candidates(store, need))
  }

  // ---- Gaps ----

  function GapFor(repo: string, store: Store, status: Status, need: Need): Gap {
    if store.Neo4j? then Gap(repo, store, status, need.instance, "")
    else Gap(repo, store, status, need.role, need.database)
  }

  function Mismatch(store: Store, e: Entry, need: Need): Option<Status> {
    match store
    case Neo4j => None
    case Mongo => if need.database in e.grants then None else Some(GrantMissing)
    case _ => if e.database == Some(need.database) then None else Some(DbMismatch)
  }

  function CheckNeed(repo: string, store: Store, need: Need, index: Index): seq<Gap> {
    match Lookup(index, Candidates(store, need))
    case None => [GapFor(repo, store, Absent, need)]
    case Some(e) =>
      (if e.enabled then [] else [GapFor(repo, store, Disabled, need)])
      + (match Mismatch(store, e, need) case None => [] case Some(status) => [GapFor(repo, store, status, need)])
  }

  function GapsOf(repo: string, values: Values): Need -> seq<Gap> {
    (need: Need) =>
      match StoreOf(need)
      case None => []
      case Some(store) => CheckNeed(repo, store, need, IndexOf(values, store))
  }

  function Gaps(repo: string, needs: seq<Need>, values: Values): seq<Gap> {
    Gather(needs, GapsOf(repo, values))
  }

  method DetectGaps(repo: string, needs: seq<Need>, values: Values) returns (gaps: seq<Gap>)
    ensures gaps == Gaps(repo, needs, values)
  {
    var postgres := BuildIndex(values.postgres);
    var mariadb := BuildIndex(values.mariadb);
    var mongo := BuildIndex(values.mongo);
    var neo4j := BuildNameIndex(values.neo4j);
    gaps := [];
    for i := 0 to |needs|
      invariant gaps == Gather(needs[..i], GapsOf(repo, values))
    {
      GatherNext(needs, i, GapsOf(repo, values));
      var need := needs[i];
      var store := StoreOf(need);
      if store.None? {
        continue;
      }
      var index :=
        match store.value
        case Postgres => postgres
        case Mariadb => mariadb
        case Mongo => mongo
        case Neo4j => neo4j;
      gaps := gaps + CheckNeed(repo, store.value, need, index);
    }
    assert needs[..|needs|] == needs;
  }

  function RepoGaps(values: Values): Repo -> seq<Gap> {
    (r: Repo) => Gaps(r.name, r.needs, values)
  }

  function AllGaps(repos: seq<Repo>, values: Values): seq<Gap> {
    Gather(repos, RepoGaps(values))
  }

  // ---- Stubs ----

  function ShortName(repo: string): string {
    LowerAll(if '/' in repo then AfterSlash(repo) else repo)
  }

  function AfterSlash(s: string): string {
    if s == "" then "" else if s[0] == '/' then s[1..] else AfterSlash(s[1..])
  }

  function Stub(gap: Gap): Entry {
    Entry(ShortName(gap.repo), gap.role, false, Some(gap.database), if gap.store.Mongo? then {gap.database} else {})
  }

  function StubFor(store: Store): Gap -> seq<Entry> {
    (gap: Gap) => if gap.status == Absent && gap.store == store then [Stub(gap)] else []
  }

  function Stubs(store: Store, gaps: seq<Gap>): seq<Entry> {
    Gather(gaps, StubFor(store))
  }

  /** The stubs go in front of the entries that are there; no stub is made for neo4j. */
  function Applied(gaps: seq<Gap>, values: Values): Values {
    Values(Stubs(Postgres, gaps) + values.postgres, Stubs(Mariadb, gaps) + values.mariadb,
           Stubs(Mongo, gaps) + values.mongo, values.neo4j)
  }

  method ApplyGaps(gaps: seq<Gap>, values: Values) returns (result: Values)
    ensures result == Applied(gaps, values)
  {
    var postgres, mariadb, mongo := [], [], [];
    for i := 0 to |gaps|
      invariant postgres == Stubs(Postgres, gaps[..i])
      invariant mariadb == Stubs(Mariadb, gaps[..i])
      invariant mongo == Stubs(Mongo, gaps[..i])
    {
      StubsNext(gaps, i);
      var gap := gaps[i];
      if gap.status != Absent {
        continue;
      }
      match gap.store
      case Postgres => postgres := postgres + [Stub(gap)];
      case Mariadb => mariadb := mariadb + [Stub(gap)];
      case Mongo => mongo := mongo + [Stub(gap)];
      case Neo4j =>
    }
    assert gaps[..|gaps|] == gaps;
    if postgres == [] && mariadb == [] && mongo == [] {
      assert [] + values.postgres == values.postgres && [] + values.mariadb == values.mariadb
             && [] + values.mongo == values.mongo;
      return values;
    }
    result := Values(postgres + values.postgres, mariadb + values.mariadb, mongo + values.mongo, values.neo4j);
  }

  lemma StubsNext(gaps: seq<Gap>, i: nat)
    requires i < |gaps|
    ensures forall store :: Stubs(store, gaps[..i + 1]) == Stubs(store, gaps[..i]) + StubFor(store)(gaps[i])
  {
    forall store ensures Stubs(store, gaps[..i + 1]) == Stubs(store, gaps[..i]) + StubFor(store)(gaps[i]) {
      GatherNext(gaps, i, StubFor(store));
    }
  }

  predicate Blocks(gap: Gap) {
    gap.status in {Absent, GrantMissing}
  }

  /** A run that applies: the blocking gaps of all repositories. */
  function Reconciled(repos: seq<Repo>, values: Values): Values {
    Applied(Gather(AllGaps(repos, values), Keep(Blocks)), values)
  }

  // ---- Convergence ----

  lemma ApplyExtends(gaps: seq<Gap>, values: Values, store: Store)
    requires !store.Neo4j?
    ensures Entries(Applied(gaps, values), store) == Stubs(store, gaps) + Entries(values, store)
    ensures IndexOf(Applied(gaps, values), store) == Merge(Stubs(store, gaps), KeysOf()) + IndexOf(values, store)
  {
    MergeConcat(Stubs(store, gaps), Entries(values, store), KeysOf());
  }

  /** A key that had an entry keeps that very entry: the stubs come first and the last one wins. */
  lemma StubsShadowNothing(gaps: seq<Gap>, values: Values, store: Store, key: string)
    requires key in IndexOf(values, store)
    ensures key in IndexOf(Applied(gaps, values), store)
    ensures IndexOf(Applied(gaps, values), store)[key] == IndexOf(values, store)[key]
  {
    if !store.Neo4j? {
      ApplyExtends(gaps, values, store);
    }
  }

  lemma {:induction false} LookupExact(index: Index, keys: seq<string>)
    ensures Lookup(index, keys).Some? <==> exists i :: 0 <= i < |keys| && keys[i] in index
  {
    if keys != [] && keys[0] !in index {
      LookupExact(index, keys[1..]);
      if Lookup(index, keys[1..]).Some? {
        var i :| 0 <= i < |keys| - 1 && keys[1..][i] in index;
        assert keys[i + 1] in index;
      } else {
        forall i | 0 <= i < |keys| ensures keys[i] !in index {
          assert i > 0 ==> keys[1..][i - 1] == keys[i];
        }
      }
    }
  }

  /** What resolved before an apply resolves after it. */
  lemma ResolvedStays(gaps: seq<Gap>, values: Values, store: Store, need: Need)
    requires Resolve(values, store, need).Some?
    ensures Resolve(Applied(gaps, values), store, need).Some?
  {
    var keys := Candidates(store, need);
    LookupExact(IndexOf(values, store), keys);
    LookupExact(IndexOf(Applied(gaps, values), store), keys);
    var i :| 0 <= i < |keys| && keys[i] in IndexOf(values, store);
    StubsShadowNothing(gaps, values, store, keys[i]);
  }

  lemma StubIndexed(gaps: seq<Gap>, values: Values, gap: Gap)
    requires gap in gaps && gap.status == Absent && !gap.store.Neo4j? && gap.role != ""
    ensures LowerAll(gap.role) in IndexOf(Applied(gaps, values), gap.store)
  {
    var stubs := Stubs(gap.store, gaps);
    GatherMember(gaps, StubFor(gap.store), Stub(gap));
    var k :| 0 <= k < |gaps| && gaps[k] == gap;
    assert Stub(gap) in StubFor(gap.store)(gaps[k]);
    var i :| 0 <= i < |stubs| && stubs[i] == Stub(gap);
    assert LowerAll(gap.role) in KeysOf()(stubs[i]);
    MergeMember(stubs, KeysOf(), LowerAll(gap.role));
    ApplyExtends(gaps, values, gap.store);
  }

  lemma GapsMember(repos: seq<Repo>, values: Values, r: nat, n: nat, gap: Gap)
    requires r < |repos| && n < |repos[r].needs|
    requires gap in GapsOf(repos[r].name, values)(repos[r].needs[n])
    ensures gap in AllGaps(repos, values)
    ensures Blocks(gap) ==> gap in Gather(AllGaps(repos, values), Keep(Blocks))
  {
    GatherMember(repos[r].needs, GapsOf(repos[r].name, values), gap);
    assert gap in RepoGaps(values)(repos[r]);
    GatherMember(repos, RepoGaps(values), gap);
    var gaps := AllGaps(repos, values);
    GatherMember(gaps, Keep(Blocks), gap);
    var i :| 0 <= i < |gaps| && gaps[i] == gap;
    assert Blocks(gap) ==> gap in Keep(Blocks)(gaps[i]);
  }

  /** After a run that applies, a declaration that names a role resolves. */
  lemma DeclaredResolves(repos: seq<Repo>, values: Values, r: nat, n: nat)
    requires r < |repos| && n < |repos[r].needs|
    requires var need := repos[r].needs[n];
             StoreOf(need).Some? && !StoreOf(need).value.Neo4j? && need.role != ""
    ensures var need := repos[r].needs[n];
            Resolve(Reconciled(repos, values), StoreOf(need).value, need).Some?
  {
    var need := repos[r].needs[n];
    var store := StoreOf(need).value;
    var gaps := Gather(AllGaps(repos, values), Keep(Blocks));
    if Resolve(values, store, need).Some? {
      ResolvedStays(gaps, values, store, need);
    } else {
      var gap := GapFor(repos[r].name, store, Absent, need);
      assert gap in GapsOf(repos[r].name, values)(need);
      GapsMember(repos, values, r, n, gap);
      StubIndexed(gaps, values, gap);
      var keys := Candidates(store, need);
      assert keys[0] == LowerAll(need.role);
      LookupExact(IndexOf(Applied(gaps, values), store), keys);
    }
  }

  lemma {:induction false} EraseNothing(part: string)
    requires part != ""
    ensures Erase("", part) == ""
  {
  }

  lemma KeysAreNotEmpty(entries: seq<Entry>)
    ensures "" !in Merge(entries, KeysOf())
  {
    MergeMember(entries, KeysOf(), "");
    forall i | 0 <= i < |entries| ensures "" !in KeysOf()(entries[i]) {
      var e := entries[i];
      assert e.role != "" ==> |LowerAll(e.role)| > 0;
      assert e.name != "" ==> |LowerAll(e.name)| > 0;
    }
  }

  /** A declaration without a role resolves to nothing, whatever is provisioned. */
  lemma RolelessNeverResolves(values: Values, store: Store, need: Need)
    requires !store.Neo4j? && need.role == ""
    ensures Resolve(values, store, need).None?
  {
    KeysAreNotEmpty(Entries(values, store));
    EraseNothing("_svc");
    EraseNothing("_app");
    assert LowerAll("") == "";
    LookupExact(IndexOf(values, store), Candidates(store, need));
    forall i | 0 <= i < |Candidates(store, need)| ensures Candidates(store, need)[i] == "" {
    }
  }

  /** The declaration is for a store that stubs are made for. */
  predicate Provisionable(need: Need) {
    StoreOf(need).Some? && !StoreOf(need).value.Neo4j?
  }

  predicate NamesRole(need: Need) {
    Provisionable(need) ==> need.role != ""
  }

  predicate AllNameRoles(repos: seq<Repo>) {
    forall r, n :: 0 <= r < |repos| && 0 <= n < |repos[r].needs| ==> NamesRole(repos[r].needs[n])
  }

  predicate Pending(gap: Gap) {
    gap.status == Absent && !gap.store.Neo4j?
  }

  ghost predicate NothingPending(repos: seq<Repo>, values: Values) {
    forall gap :: gap in AllGaps(repos, values) ==> !Pending(gap)
  }

  lemma PendingGap(repo: string, need: Need, values: Values, gap: Gap)
    requires gap in GapsOf(repo, values)(need) && Pending(gap)
    ensures Provisionable(need) && Resolve(values, StoreOf(need).value, need).None?
  {
  }

  lemma GapHasSource(repos: seq<Repo>, values: Values, gap: Gap) returns (r: nat, n: nat)
    requires gap in AllGaps(repos, values)
    ensures r < |repos| && n < |repos[r].needs| && gap in GapsOf(repos[r].name, values)(repos[r].needs[n])
  {
    GatherMember(repos, RepoGaps(values), gap);
    r :| 0 <= r < |repos| && gap in RepoGaps(values)(repos[r]);
    GatherMember(repos[r].needs, GapsOf(repos[r].name, values), gap);
    n :| 0 <= n < |repos[r].needs| && gap in GapsOf(repos[r].name, values)(repos[r].needs[n]);
  }

  lemma RolelessIsPending(repos: seq<Repo>, values: Values, r: nat, n: nat)
    requires r < |repos| && n < |repos[r].needs| && !NamesRole(repos[r].needs[n])
    ensures exists gap :: gap in AllGaps(repos, values) && Pending(gap)
  {
    var need := repos[r].needs[n];
    var store := StoreOf(need).value;
    RolelessNeverResolves(values, store, need);
    var gap := GapFor(repos[r].name, store, Absent, need);
    assert gap in GapsOf(repos[r].name, values)(need);
    GapsMember(repos, values, r, n, gap);
    assert Pending(gap);
  }

  /** After a run that applies, nothing provisionable is missing, exactly when every such declaration names a role. */
  lemma ApplyConverges(repos: seq<Repo>, values: Values)
    ensures NothingPending(repos, Reconciled(repos, values)) <==> AllNameRoles(repos)
  {
    var after := Reconciled(repos, values);
    if AllNameRoles(repos) {
      forall gap | gap in AllGaps(repos, after) ensures !Pending(gap) {
        var r, n := GapHasSource(repos, after, gap);
        assert NamesRole(repos[r].needs[n]);
        if Pending(gap) {
          PendingGap(repos[r].name, repos[r].needs[n], after, gap);
          DeclaredResolves(repos, values, r, n);
        }
      }
    } else {
      var r, n :| 0 <= r < |repos| && 0 <= n < |repos[r].needs| && !NamesRole(repos[r].needs[n]);
      RolelessIsPending(repos, after, r, n);
    }
  }

  lemma NoStubs(gaps: seq<Gap>, store: Store)
    requires forall gap :: gap in gaps ==> !Pending(gap)
    requires !store.Neo4j?
    ensures Stubs(store, gaps) == []
  {
    forall i | 0 <= i < |gaps| ensures StubFor(store)(gaps[i]) == [] {
      assert gaps[i] in gaps;
    }
    NothingGathered(gaps, StubFor(store));
  }

  lemma SomeStub(gaps: seq<Gap>, gap: Gap)
    requires gap in gaps && Pending(gap)
    ensures Stubs(gap.store, gaps) != []
  {
    var k :| 0 <= k < |gaps| && gaps[k] == gap;
    assert StubFor(gap.store)(gaps[k]) != [];
    NothingGathered(gaps, StubFor(gap.store));
  }

  lemma BlockingPending(repos: seq<Repo>, values: Values, gap: Gap)
    requires Pending(gap)
    ensures gap in Gather(AllGaps(repos, values), Keep(Blocks)) <==> gap in AllGaps(repos, values)
  {
    var gaps := AllGaps(repos, values);
    GatherMember(gaps, Keep(Blocks), gap);
    if gap in gaps {
      var i :| 0 <= i < |gaps| && gaps[i] == gap;
      assert gap in Keep(Blocks)(gaps[i]);
    }
  }

  lemma ReconciledChanges(repos: seq<Repo>, values: Values)
    ensures Reconciled(repos, values) == values <==> NothingPending(repos, values)
  {
    var gaps := Gather(AllGaps(repos, values), Keep(Blocks));
    if NothingPending(repos, values) {
      forall gap | gap in gaps ensures !Pending(gap) {
        if Pending(gap) {
          BlockingPending(repos, values, gap);
        }
      }
      NoStubs(gaps, Postgres);
      NoStubs(gaps, Mariadb);
      NoStubs(gaps, Mongo);
      assert Reconciled(repos, values) == values;
    } else {
      var gap :| gap in AllGaps(repos, values) && Pending(gap);
      BlockingPending(repos, values, gap);
      SomeStub(gaps, gap);
      ApplyExtends(gaps, values, gap.store);
      assert |Entries(Reconciled(repos, values), gap.store)| > |Entries(values, gap.store)|;
    }
  }

  /** A second run adds nothing, exactly when every provisionable declaration names a role. */
  lemma SecondApplyAddsNothing(repos: seq<Repo>, values: Values)
    ensures Reconciled(repos, Reconciled(repos, values)) == Reconciled(repos, values) <==> AllNameRoles(repos)
  {
    ReconciledChanges(repos, Reconciled(repos, values));
    ApplyConverges(repos, values);
  }

  // ---- What an apply does not disturb ----

  /** Neo4j entries and gaps stay as they are. */
  lemma Neo4jUntouched(gaps: seq<Gap>, values: Values, repo: string, need: Need)
    requires StoreOf(need) == Some(Neo4j)
    ensures Applied(gaps, values).neo4j == values.neo4j
    ensures GapsOf(repo, Applied(gaps, values))(need) == GapsOf(repo, values)(need)
  {
  }

  function FirstHit(index: Index, keys: seq<string>): (n: nat)
    ensures n <= |keys|
  {
    if keys == [] || keys[0] in index then 0 else 1 + FirstHit(index, keys[1..])
  }

  /** Some key before position `n` is the role or the name of a stub. */
  predicate Shadowed(stubs: Index, keys: seq<string>, n: nat) {
    exists i :: 0 <= i < n && i < |keys| && keys[i] in stubs
  }

  lemma {:induction false} ExtendedLookup(stubs: Index, index: Index, keys: seq<string>)
    requires Lookup(index, keys).Some?
    ensures var after := Lookup(stubs + index, keys);
            if Shadowed(stubs, keys, FirstHit(index, keys)) then after.Some? && after.value in stubs.Values
            else after == Lookup(index, keys)
  {
    var n := FirstHit(index, keys);
    if keys[0] in index {
    } else if keys[0] in stubs {
      assert Shadowed(stubs, keys, n);
    } else {
      ExtendedLookup(stubs, index, keys[1..]);
      if Shadowed(stubs, keys[1..], n - 1) {
        var i :| 0 <= i < n - 1 && i < |keys| - 1 && keys[1..][i] in stubs;
        assert keys[i + 1] in stubs;
      } else {
        forall i | 0 <= i < n && i < |keys| ensures keys[i] !in stubs {
          assert i > 0 ==> keys[1..][i - 1] == keys[i];
        }
      }
    }
  }

  /**
    A declaration that resolved keeps its entry, unless a stub takes a key that is looked up
    earlier; then it resolves to a stub, which is disabled.
   */
  lemma ResolvedEntryStays(gaps: seq<Gap>, values: Values, store: Store, need: Need)
    requires !store.Neo4j? && Resolve(values, store, need).Some?
    ensures var stubs, index, keys :=
              Merge(Stubs(store, gaps), KeysOf()), IndexOf(values, store), Candidates(store, need);
            var after := Resolve(Applied(gaps, values), store, need);
            if Shadowed(stubs, keys, FirstHit(index, keys)) then after.Some? && !after.value.enabled
            else after == Resolve(values, store, need)
  {
    var stubs := Merge(Stubs(store, gaps), KeysOf());
    ApplyExtends(gaps, values, store);
    ExtendedLookup(stubs, IndexOf(values, store), Candidates(store, need));
    forall e | e in stubs.Values ensures !e.enabled {
      var key :| key in stubs && stubs[key] == e;
      StubsDisabled(gaps, store);
      IndexedEntry(Stubs(store, gaps), key);
    }
  }

  lemma {:induction false} IndexedEntry(entries: seq<Entry>, key: string)
    requires key in Merge(entries, KeysOf())
    ensures Merge(entries, KeysOf())[key] in entries
  {
    assert entries == Front(entries) + [Last(entries)];
    if key !in KeysOf()(Last(entries)) {
      IndexedEntry(Front(entries), key);
    }
  }

  lemma {:induction false} StubsDisabled(gaps: seq<Gap>, store: Store)
    ensures forall e :: e in Stubs(store, gaps) ==> !e.enabled
  {
    if gaps != [] {
      StubsDisabled(Front(gaps), store);
    }
  }
}
