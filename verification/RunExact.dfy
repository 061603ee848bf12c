/**
  What a run sees, matches, files and leaves open, exactly, said in the fields of the issues, the
  findings and the snapshot.
 */
module RunExact {
  import opened Common
  import opened DarkLadder
  import opened Detection
  import opened Tracker
  import opened Watchdog
  import opened PlanFacts
  import opened RunFacts
  import opened IssueIndex
  import opened FilingCaps
  import opened CeilingExact

  // ---- The keys of an issue ----

  /** The first key marker of this kind in the body has this subject. */
  predicate FirstKeyIs(body: Text, kind: Kind, subject: string) {
    exists i :: 0 <= i < |body| && FirstKeyAt(body, i, kind) && body[i].key.subject == subject
  }

  predicate FirstKeyAt(body: Text, i: nat, kind: Kind) {
    && i < |body| && body[i].KeyMarker? && body[i].key.kind == kind
    && forall j :: 0 <= j < i ==> !(body[j].KeyMarker? && body[j].key.kind == kind)
  }

  lemma {:induction false} FoundKeyIsFirst(body: Text, i: nat, kind: Kind)
    requires FirstKeyAt(body, i, kind)
    ensures FirstKey(body, kind) == Some(body[i].key.subject)
    decreases i
  {
    if i > 0 {
      assert !(body[0].KeyMarker? && body[0].key.kind == kind);
      forall j | 0 <= j < i - 1 ensures !(body[1..][j].KeyMarker? && body[1..][j].key.kind == kind) {
        assert body[1..][j] == body[j + 1];
      }
      FoundKeyIsFirst(body[1..], i - 1, kind);
    }
  }

  lemma {:induction false} FindsFirstKey(body: Text, kind: Kind) returns (i: nat)
    requires FirstKey(body, kind).Some?
    ensures FirstKeyAt(body, i, kind) && body[i].key.subject == FirstKey(body, kind).value
  {
    if body[0].KeyMarker? && body[0].key.kind == kind {
      i := 0;
    } else {
      var k := FindsFirstKey(body[1..], kind);
      i := k + 1;
      forall j | 0 < j < i ensures !(body[j].KeyMarker? && body[j].key.kind == kind) {
        assert body[j] == body[1..][j - 1];
      }
    }
  }

  lemma FirstKeyExact(body: Text, kind: Kind, subject: string)
    ensures FirstKey(body, kind) == Some(subject) <==> FirstKeyIs(body, kind, subject)
  {
    if FirstKey(body, kind) == Some(subject) {
      var i := FindsFirstKey(body, kind);
    } else if FirstKeyIs(body, kind, subject) {
      var i :| 0 <= i < |body| && FirstKeyAt(body, i, kind) && body[i].key.subject == subject;
      FoundKeyIsFirst(body, i, kind);
    }
  }

  // ---- The list ----

  /** The issue is open, and fewer than 100 newer ones are. */
  predicate AmongNewest(issues: seq<Issue>, n: nat) {
    n < |issues| && issues[n].open && |Newer(issues, n)| < 100
  }

  function Newer(issues: seq<Issue>, n: nat): set<nat> {
    set m: nat | n < m < |issues| && issues[m].open
  }

  lemma NewerNext(issues: seq<Issue>, n: nat)
    requires issues != [] && n < |issues| - 1
    ensures |Newer(issues, n)| == |Newer(Front(issues), n)| + if Last(issues).open then 1 else 0
  {
    var here := if Last(issues).open then {|issues| - 1} else {};
    assert Newer(issues, n) == Newer(Front(issues), n) + here;
  }

  /** The open issues come newest first: before each stand those that are newer. */
  lemma {:induction false} NewestFirst(issues: seq<Issue>, k: nat)
    requires k < |OpenIssues(issues)|
    ensures |Newer(issues, OpenIssues(issues)[k])| == k
  {
    var n := OpenIssues(issues)[k];
    OpenIssuesExact(issues, n);
    var shift := if Last(issues).open then 1 else 0;
    if Last(issues).open && k == 0 {
      assert Newer(issues, n) == {};
    } else {
      NewestFirst(Front(issues), k - shift);
      OpenIssuesExact(Front(issues), n);
      NewerNext(issues, n);
    }
  }

  /** A run sees exactly the hundred newest open issues. */
  lemma ListingExact(issues: seq<Issue>, n: nat)
    ensures n in Listing(issues) <==> AmongNewest(issues, n)
  {
    OpenIssuesExact(issues, n);
    if n in OpenIssues(issues) {
      var k: nat :| k < |OpenIssues(issues)| && OpenIssues(issues)[k] == n;
      NewestFirst(issues, k);
      ListedFrom(issues, n, k);
    }
  }

  lemma ListedFrom(issues: seq<Issue>, n: nat, k: nat)
    requires k < |OpenIssues(issues)| && OpenIssues(issues)[k] == n
    ensures n in Listing(issues) <==> k < LIST_LIMIT
  {
    var listed := Listing(issues);
    if k < LIST_LIMIT {
      assert listed[k] == n;
    }
    if n in listed {
      var j: nat :| j < |listed| && listed[j] == n;
      NewestFirst(issues, j);
      NewestFirst(issues, k);
    }
  }

  // ---- Conditions that still hold ----

  predicate OpReported(app: string, fs: seq<Finding>) {
    exists f :: f in fs && f.OpFinding? && f.app == app
  }

  predicate CreatingReported(workload: string, fs: seq<Finding>) {
    exists f :: f in fs && f.CreatingFinding? && f.workload == workload
  }

  predicate CrashReported(container: string, fs: seq<Finding>) {
    exists f :: f in fs && f.CrashFinding? && f.container == container
  }

  predicate NodeUnknown(name: string, nodes: seq<Node>) {
    name != "" && exists i :: 0 <= i < |nodes| && nodes[i].name == name && FirstIs(nodes[i], "Ready", "Unknown")
  }

  /**
    Every key of the issue still names a condition. An Argo key counts only when the cluster
    gave a list of applications, the key of a dark node only in a run that found something.
   */
  ghost predicate AllStillHold(body: Text, cfg: Config, snap: Snapshot) {
    && AllReported(body, cfg, snap)
    && (Findings(cfg, snap) != [] ==> forall x :: FirstKeyIs(body, DarkNode, x) ==> NodeUnknown(x, snap.nodes))
  }

  /** The same without the keys of dark nodes. */
  ghost predicate AllReported(body: Text, cfg: Config, snap: Snapshot) {
    var fs := Findings(cfg, snap);
    && (snap.apps.Some? ==> forall x :: FirstKeyIs(body, StuckArgoOp, x) ==> OpReported(x, fs))
    && (forall x :: FirstKeyIs(body, StuckContainerCreating, x) ==> CreatingReported(x, fs))
    && (forall x :: FirstKeyIs(body, ChronicCrashloop, x) ==> CrashReported(x, fs))
  }

  lemma ActiveExact(fs: seq<Finding>, x: string)
    ensures x in Active(fs, StuckArgoOp) <==> OpReported(x, fs)
    ensures x in Active(fs, StuckContainerCreating) <==> CreatingReported(x, fs)
    ensures x in Active(fs, ChronicCrashloop) <==> CrashReported(x, fs)
  {
    if f :| f in fs && f.OpFinding? && f.app == x {
      assert f.Kind() == StuckArgoOp && f.Subject() == x;
    }
    if f :| f in fs && f.CreatingFinding? && f.workload == x {
      assert f.Kind() == StuckContainerCreating && f.Subject() == x;
    }
    if f :| f in fs && f.CrashFinding? && f.container == x {
      assert f.Kind() == ChronicCrashloop && f.Subject() == x;
    }
  }

  lemma UnknownExact(nodes: seq<Node>, x: string)
    ensures x in UnknownNames(nodes) <==> NodeUnknown(x, nodes)
  {
    forall i | 0 <= i < |nodes|
      ensures HasStatus(nodes[i], "Ready", "Unknown") <==> FirstIs(nodes[i], "Ready", "Unknown")
    {
      StatusIsFirst(nodes[i], "Ready", "Unknown");
    }
  }

  /** The pass for one kind closes exactly the issues whose first key of that kind is not active. */
  lemma ResolvedExact(issues: seq<Issue>, n: nat, kind: Kind, active: set<string>)
    requires n < |issues|
    ensures Resolved(issues, n, kind, active) <==> exists x :: FirstKeyIs(issues[n].body, kind, x) && x !in active
  {
    var key := FirstKey(issues[n].body, kind);
    if key.Some? {
      FirstKeyExact(issues[n].body, kind, key.value);
    }
    if x :| FirstKeyIs(issues[n].body, kind, x) && x !in active {
      FirstKeyExact(issues[n].body, kind, x);
    }
  }

  lemma ClosedUnlessAllHold(cfg: Config, snap: Snapshot, issues: seq<Issue>, n: nat)
    requires n < |issues| && n in Listing(issues)
    ensures PlannedClose(n, cfg, snap, issues) <==> !AllStillHold(issues[n].body, cfg, snap)
  {
    var fs := Findings(cfg, snap);
    ResolvedExact(issues, n, StuckArgoOp, Active(fs, StuckArgoOp));
    ResolvedExact(issues, n, StuckContainerCreating, Active(fs, StuckContainerCreating));
    ResolvedExact(issues, n, ChronicCrashloop, Active(fs, ChronicCrashloop));
    ResolvedExact(issues, n, DarkNode, UnknownNames(snap.nodes));
    forall x
      ensures x in Active(fs, StuckArgoOp) <==> OpReported(x, fs)
      ensures x in Active(fs, StuckContainerCreating) <==> CreatingReported(x, fs)
      ensures x in Active(fs, ChronicCrashloop) <==> CrashReported(x, fs)
      ensures x in UnknownNames(snap.nodes) <==> NodeUnknown(x, snap.nodes)
    {
      ActiveExact(fs, x);
      UnknownExact(snap.nodes, x);
    }
  }

  /**
    A completed run that meets no refusal at the comment cap leaves a listed issue open exactly
    when every condition it stands for still holds.
   */
  lemma StaysOpenExactly(w: World, cfg: Config, snap: Snapshot, n: nat, g: Replies)
    requires Completed(w, cfg, snap, g) && NoCapRefusals(g) && AmongNewest(w.issues, n)
    ensures n < |Run(w, cfg, snap, g).issues|
    ensures Run(w, cfg, snap, g).issues[n].open <==> AllStillHold(w.issues[n].body, cfg, snap)
  {
    ListingExact(w.issues, n);
    CompletedParts(w, cfg, snap, g);
    RunMakes(w, cfg, snap, g);
    ClosedUnlessAllHold(cfg, snap, w.issues, n);
    if PlannedClose(n, cfg, snap, w.issues) {
      PlannedIsClosed(w, cfg, snap, n, g);
    } else {
      UnplannedStaysOpen(w, cfg, snap, n, g);
    }
  }

  // ---- Which issue tracks a finding ----

  /** The key of a finding: its kind, and what of it stays the same from run to run. */
  predicate Names(key: Key, f: Finding) {
    match f
    case OpFinding(app, _, _) => key == Key(StuckArgoOp, app)
    case NodeFinding(facts, _) => key == Key(DarkNode, facts.node)
    case VolumeFinding(claim, _) => key == Key(PvcNearingFull, claim)
    case CreatingFinding(workload, _, _) => key == Key(StuckContainerCreating, workload)
    case CrashFinding(container, _, _) => key == Key(ChronicCrashloop, container)
  }

  /** Place `k` of the list is the first issue that carries the key in its body or as its title. */
  predicate FirstCarrier(key: Key, issues: seq<Issue>, listed: seq<nat>, k: nat) {
    && k < |listed| && Carries(issues, listed[k], key)
    && forall j :: 0 <= j < k ==> !Carries(issues, listed[j], key)
  }

  predicate Carries(issues: seq<Issue>, n: nat, key: Key) {
    n < |issues| && (KeyMarker(key) in issues[n].body || issues[n].title == Some(key))
  }

  /** A finding is tracked by the first listed issue that carries its key, and by none when none does. */
  lemma {:induction false} MatchExact(f: Finding, key: Key, issues: seq<Issue>, listed: seq<nat>)
    requires Names(key, f)
    ensures forall n :: Match(f, issues, listed) == Some(n)
              <==> exists k: nat :: FirstCarrier(key, issues, listed, k) && listed[k] == n
    ensures Match(f, issues, listed).None? <==> forall j :: 0 <= j < |listed| ==> !Carries(issues, listed[j], key)
  {
    var m := Match(f, issues, listed);
    if listed == [] {
    } else if Carries(issues, listed[0], key) {
      assert FirstCarrier(key, issues, listed, 0);
      forall k: nat | FirstCarrier(key, issues, listed, k) ensures k == 0 {
      }
    } else {
      MatchExact(f, key, issues, listed[1..]);
      forall k: nat
        ensures FirstCarrier(key, issues, listed, k) <==> k > 0 && FirstCarrier(key, issues, listed[1..], k - 1)
      {
        CarrierAfter(key, issues, listed, k);
      }
      forall n | m == Some(n) ensures exists k: nat :: FirstCarrier(key, issues, listed, k) && listed[k] == n {
        var k: nat :| FirstCarrier(key, issues, listed[1..], k) && listed[1..][k] == n;
        assert FirstCarrier(key, issues, listed, k + 1);
      }
      forall k: nat | FirstCarrier(key, issues, listed, k) ensures m == Some(listed[k]) {
        assert FirstCarrier(key, issues, listed[1..], k - 1) && listed[1..][k - 1] == listed[k];
      }
    }
  }

  lemma CarrierAfter(key: Key, issues: seq<Issue>, listed: seq<nat>, k: nat)
    requires listed != [] && !Carries(issues, listed[0], key)
    ensures FirstCarrier(key, issues, listed, k) <==> k > 0 && FirstCarrier(key, issues, listed[1..], k - 1)
  {
    if k > 0 && FirstCarrier(key, issues, listed[1..], k - 1) {
      forall j | 0 <= j < k ensures !Carries(issues, listed[j], key) {
        assert j > 0 ==> listed[j] == listed[1..][j - 1];
      }
    }
  }

  /** The text of a key, by kind. */
  lemma KeyTextIs(subject: string)
    ensures KeyText(Key(StuckArgoOp, subject)) == "stuck-argo-op:" + subject
    ensures KeyText(Key(DarkNode, subject)) == "dark-node:" + subject
    ensures KeyText(Key(PvcNearingFull, subject)) == "pvc-nearing-full:" + subject
    ensures KeyText(Key(StuckContainerCreating, subject)) == "stuck-containercreating:" + subject
    ensures KeyText(Key(ChronicCrashloop, subject)) == "chronic-crashloop:" + subject
  {
    assert KindName(DarkNode) + ":" == "dark-node:" && KindName(PvcNearingFull) + ":" == "pvc-nearing-full:";
    assert KindName(StuckContainerCreating) + ":" == "stuck-containercreating:";
  }

  lemma KindNamesDiffer(a: Kind, b: Kind)
    requires a != b
    ensures exists i :: 0 <= i < |KindName(a)| && i < |KindName(b)| && KindName(a)[i] != KindName(b)[i]
  {
    var x, y := KindName(a), KindName(b);
    assert x[0] != y[0] || (|x| > 6 && |y| > 6 && x[6] != y[6]);
  }

  /** The text of a key, which is what an issue's body and title hold, tells any two keys apart. */
  lemma KeyTextIdentifies(a: Key, b: Key)
    ensures KeyText(a) == KeyText(b) <==> a == b
  {
    if a.kind != b.kind {
      KindNamesDiffer(a.kind, b.kind);
      var i :| 0 <= i < |KindName(a.kind)| && i < |KindName(b.kind)| && KindName(a.kind)[i] != KindName(b.kind)[i];
      assert KeyText(a)[i] == KindName(a.kind)[i] && KeyText(b)[i] == KindName(b.kind)[i];
    } else {
      var n := |KindName(a.kind)| + 1;
      assert KeyText(a)[n..] == a.subject && KeyText(b)[n..] == b.subject;
    }
  }

  // ---- How many findings are filed ----

  /** The listed issues that the closing phases keep. */
  ghost function StillListed(cfg: Config, snap: Snapshot, issues: seq<Issue>): set<nat> {
    set n: nat | n < |issues| && AmongNewest(issues, n) && AllReported(issues[n].body, cfg, snap)
  }

  lemma StillOpenExact(cfg: Config, snap: Snapshot, issues: seq<Issue>, n: nat)
    ensures n in StillOpen(cfg, snap, issues) <==> n in StillListed(cfg, snap, issues)
  {
    var fs := Findings(cfg, snap);
    ListingExact(issues, n);
    KeptExact(issues, Listing(issues), StuckArgoOp, Active(fs, StuckArgoOp), n);
    KeptExact(issues, AfterArgo(cfg, snap, issues), StuckContainerCreating, Active(fs, StuckContainerCreating), n);
    KeptExact(issues, AfterCreating(cfg, snap, issues), ChronicCrashloop, Active(fs, ChronicCrashloop), n);
    if n < |issues| {
      ResolvedExact(issues, n, StuckArgoOp, Active(fs, StuckArgoOp));
      ResolvedExact(issues, n, StuckContainerCreating, Active(fs, StuckContainerCreating));
      ResolvedExact(issues, n, ChronicCrashloop, Active(fs, ChronicCrashloop));
      forall x
        ensures x in Active(fs, StuckArgoOp) <==> OpReported(x, fs)
        ensures x in Active(fs, StuckContainerCreating) <==> CreatingReported(x, fs)
        ensures x in Active(fs, ChronicCrashloop) <==> CrashReported(x, fs)
      {
        ActiveExact(fs, x);
      }
    }
  }

  predicate Distinct(s: seq<nat>) {
    forall i, j :: 0 <= i < j < |s| ==> s[i] != s[j]
  }

  lemma ListingDistinct(issues: seq<Issue>)
    ensures Distinct(Listing(issues))
  {
    forall i, j | 0 <= i < j < |Listing(issues)| ensures Listing(issues)[i] != Listing(issues)[j] {
      NewestFirst(issues, i);
      NewestFirst(issues, j);
    }
  }

  lemma {:induction false} KeptDistinct(issues: seq<Issue>, listed: seq<nat>, kind: Kind, active: set<string>)
    requires Distinct(listed)
    ensures Distinct(Kept(issues, listed, kind, active))
  {
    if listed != [] {
      KeptDistinct(issues, Front(listed), kind, active);
      KeptExact(issues, Front(listed), kind, active, Last(listed));
      assert Last(listed) !in Front(listed);
    }
  }

  lemma {:induction false} DistinctCard(s: seq<nat>, elements: set<nat>)
    requires Distinct(s) && forall n :: n in s <==> n in elements
    ensures |s| == |elements|
  {
    if s == [] {
      assert elements == {};
    } else {
      assert Last(s) == s[|s| - 1] && Last(s) !in Front(s) && s == Front(s) + [Last(s)];
      DistinctCard(Front(s), elements - {Last(s)});
    }
  }

  lemma StillOpenCount(cfg: Config, snap: Snapshot, issues: seq<Issue>)
    ensures |StillOpen(cfg, snap, issues)| == |StillListed(cfg, snap, issues)|
  {
    var fs := Findings(cfg, snap);
    ListingDistinct(issues);
    KeptDistinct(issues, Listing(issues), StuckArgoOp, Active(fs, StuckArgoOp));
    KeptDistinct(issues, AfterArgo(cfg, snap, issues), StuckContainerCreating, Active(fs, StuckContainerCreating));
    KeptDistinct(issues, AfterCreating(cfg, snap, issues), ChronicCrashloop, Active(fs, ChronicCrashloop));
    forall n ensures n in StillOpen(cfg, snap, issues) <==> n in StillListed(cfg, snap, issues) {
      StillOpenExact(cfg, snap, issues, n);
    }
    DistinctCard(StillOpen(cfg, snap, issues), StillListed(cfg, snap, issues));
  }

  /** As many of the first as the cap allows, and then of the others as the cap and the room do. */
  predicate Fills(filed: seq<Finding>, ops: seq<Finding>, rest: seq<Finding>, cap: nat, room: int) {
    exists k, m :: 0 <= k <= |ops| && 0 <= m <= |rest| && FillsBy(filed, ops, rest, cap, room, k, m)
  }

  predicate FillsBy(filed: seq<Finding>, ops: seq<Finding>, rest: seq<Finding>, cap: nat, room: int, k: nat, m: nat)
    requires k <= |ops| && m <= |rest|
  {
    && filed == ops[..k] + rest[..m]
    && k <= cap && (k == |ops| || k == cap)
    && k + m <= cap && (m == 0 || m <= room)
    && (m == |rest| || k + m == cap || m >= room)
  }

  lemma FilesTo(ordered: seq<Finding>, openCount: nat, cfg: Config, room: int)
    requires room == cfg.maxOpen - openCount
    ensures Fills(ToFile(ordered, openCount, cfg), Gather(ordered, IfOp), Gather(ordered, IfNotOp), cfg.maxPerRun, room)
  {
    var ops, rest := Gather(ordered, IfOp), Gather(ordered, IfNotOp);
    var k := |Take(ops, cfg.maxPerRun)|;
    var m := |Take(rest, RestSlots(k, openCount, cfg))|;
    assert Take(ops, cfg.maxPerRun) == ops[..k] && Take(rest, RestSlots(k, openCount, cfg)) == rest[..m];
    assert FillsBy(ToFile(ordered, openCount, cfg), ops, rest, cfg.maxPerRun, room, k, m);
  }

  /** Argo findings in order up to the cap, then the others in order up to the cap and the ceiling on open issues. */
  lemma FiledExact(cfg: Config, snap: Snapshot, issues: seq<Issue>, room: int)
    requires room == cfg.maxOpen - |StillListed(cfg, snap, issues)|
    ensures Fills(Filed(cfg, snap, issues), Gather(OrderedNew(cfg, snap, issues), IfOp),
                  Gather(OrderedNew(cfg, snap, issues), IfNotOp), cfg.maxPerRun, room)
  {
    StillOpenCount(cfg, snap, issues);
    FilesTo(OrderedNew(cfg, snap, issues), |StillOpen(cfg, snap, issues)|, cfg, room);
  }
}
