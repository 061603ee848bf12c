/**
  The issue table as an index of active conditions: which issues a completed run leaves open,
  that every finding is accounted for, and that no key is tracked twice.
 */
module IssueIndex {
  import opened Common
  import opened DarkLadder
  import opened Detection
  import opened Tracker
  import opened Watchdog
  import opened PlanFacts
  import opened RunFacts
  import Sorting

  // ---- Every finding is tracked, filed or reported as overflow ----

  predicate IsTracked(f: Finding, cfg: Config, snap: Snapshot, issues: seq<Issue>) {
    exists d :: d in DupsOf(cfg, snap, issues) && d.finding == f
  }

  /** Each finding is in exactly one of the three groups, and the groups hold nothing else. */
  lemma EveryFindingIsAccounted(cfg: Config, snap: Snapshot, issues: seq<Issue>, f: Finding)
    ensures var filed := Filed(cfg, snap, issues);
            var over := Overflow(OrderedNew(cfg, snap, issues), filed);
            && (f in Findings(cfg, snap) <==> IsTracked(f, cfg, snap, issues) || f in filed || f in over)
            && !(IsTracked(f, cfg, snap, issues) && f in filed)
            && !(IsTracked(f, cfg, snap, issues) && f in over)
            && !(f in filed && f in over)
  {
    var fs, still := Findings(cfg, snap), StillOpen(cfg, snap, issues);
    var ordered, filed := OrderedNew(cfg, snap, issues), Filed(cfg, snap, issues);
    OverflowMember(ordered, filed, f);
    OrderedMember(NewOnes(fs, issues, still), cfg.priority, f);
    NewSound(fs, issues, still, f);
    if f in filed {
      FiledIsNew(cfg, snap, issues, f);
    }
    forall d | d in DupsOf(cfg, snap, issues)
      ensures d.finding in fs && Match(d.finding, issues, still) == Some(d.issue)
    {
      DuplicateSound(fs, issues, still, d);
    }
    if f in fs && Match(f, issues, still).Some? {
      DuplicateSound(fs, issues, still, Tracked(f, Match(f, issues, still).value));
    }
  }

  lemma OverflowMember(ordered: seq<Finding>, filed: seq<Finding>, f: Finding)
    ensures f in Overflow(ordered, filed) <==> f in ordered && f !in filed
  {
    GatherMember(ordered, NotIn(filed), f);
  }

  // ---- New issues are filed findings ----

  predicate MadeFrom(issue: Issue, f: Finding, cfg: Config) {
    IssueEvolves(IssueFor(f, f.OpFinding? && cfg.autoTerminate), issue)
  }

  predicate FromSome(issue: Issue, fs: seq<Finding>, cfg: Config) {
    exists f :: f in fs && MadeFrom(issue, f, cfg)
  }

  predicate HasIssue(w: World, start: nat, f: Finding, cfg: Config) {
    exists n :: start <= n < |w.issues| && w.issues[n].open && MadeFrom(w.issues[n], f, cfg)
  }

  function FileLoop(w: World, fs: seq<Finding>, cfg: Config, now: real, g: Replies): World {
    ExecAll(w, Gather(fs, FileStep), cfg, now, g)
  }

  /** What the last turn of a filing loop adds. */
  predicate AddsOnly(u: World, v: World, f: Finding, cfg: Config) {
    && Evolves(u, v) && |v.issues| <= |u.issues| + 1
    && (|v.issues| > |u.issues| ==> v.issues[|u.issues|].open && MadeFrom(v.issues[|u.issues|], f, cfg))
    && (v.alive ==> u.alive && |v.issues| > |u.issues|)
    && (forall n :: 0 <= n < |u.issues| ==> v.issues[n].open == u.issues[n].open)
  }

  lemma LastFiling(w: World, fs: seq<Finding>, cfg: Config, now: real, g: Replies)
    requires fs != []
    ensures AddsOnly(FileLoop(w, Front(fs), cfg, now, g), FileLoop(w, fs, cfg, now, g), Last(fs), cfg)
  {
    var u := FileLoop(w, Front(fs), cfg, now, g);
    Snoc(Gather(Front(fs), FileStep), File(Last(fs)));
    FileEvolves(u, Last(fs), cfg, now, g);
    if RunFile(u, Last(fs), cfg, now, g).alive {
      FiledIfAlive(u, Last(fs), cfg, now, g);
    }
  }

  lemma AddedFrom(u: World, v: World, start: nat, front: seq<Finding>, last: Finding, cfg: Config)
    requires AddsOnly(u, v, last, cfg)
    requires forall n :: start <= n < |u.issues| ==> FromSome(u.issues[n], front, cfg)
    ensures forall n :: start <= n < |v.issues| ==> FromSome(v.issues[n], front + [last], cfg)
  {
    forall n | start <= n < |v.issues| ensures FromSome(v.issues[n], front + [last], cfg) {
      if n < |u.issues| {
        assert FromSome(u.issues[n], front, cfg) && IssueEvolves(u.issues[n], v.issues[n]);
        var f :| f in front && MadeFrom(u.issues[n], f, cfg);
        assert f in front + [last] && MadeFrom(v.issues[n], f, cfg);
      } else {
        assert last in front + [last] && MadeFrom(v.issues[n], last, cfg);
      }
    }
  }

  /** Every issue a filing loop adds is the issue of one of its findings. */
  lemma {:induction false} FilingMakes(w: World, fs: seq<Finding>, cfg: Config, now: real, g: Replies)
    ensures var v := FileLoop(w, fs, cfg, now, g);
            && Evolves(w, v)
            && (forall n :: 0 <= n < |w.issues| ==> v.issues[n].open == w.issues[n].open)
            && forall n :: |w.issues| <= n < |v.issues| ==> FromSome(v.issues[n], fs, cfg)
  {
    if fs != [] {
      FilingMakes(w, Front(fs), cfg, now, g);
      LastFiling(w, fs, cfg, now, g);
      EvolvesTransitive(w, FileLoop(w, Front(fs), cfg, now, g), FileLoop(w, fs, cfg, now, g));
      assert fs == Front(fs) + [Last(fs)];
      AddedFrom(FileLoop(w, Front(fs), cfg, now, g), FileLoop(w, fs, cfg, now, g), |w.issues|,
                Front(fs), Last(fs), cfg);
    }
  }

  lemma StillHasIssue(u: World, v: World, start: nat, f: Finding, cfg: Config)
    requires HasIssue(u, start, f, cfg) && Evolves(u, v)
    requires forall n :: 0 <= n < |u.issues| ==> v.issues[n].open == u.issues[n].open
    ensures HasIssue(v, start, f, cfg)
  {
    var n :| start <= n < |u.issues| && u.issues[n].open && MadeFrom(u.issues[n], f, cfg);
    assert IssueEvolves(u.issues[n], v.issues[n]) && v.issues[n].open && MadeFrom(v.issues[n], f, cfg);
  }

  /** A filing loop that the run survives leaves every one of its findings with an open issue. */
  lemma {:induction false} FilingIsComplete(w: World, fs: seq<Finding>, cfg: Config, now: real, f: Finding, g: Replies)
    requires FileLoop(w, fs, cfg, now, g).alive && f in fs
    ensures HasIssue(FileLoop(w, fs, cfg, now, g), |w.issues|, f, cfg)
  {
    var u, v := FileLoop(w, Front(fs), cfg, now, g), FileLoop(w, fs, cfg, now, g);
    FilingMakes(w, Front(fs), cfg, now, g);
    LastFiling(w, fs, cfg, now, g);
    assert fs == Front(fs) + [Last(fs)];
    if f in Front(fs) {
      FilingIsComplete(w, Front(fs), cfg, now, f, g);
      StillHasIssue(u, v, |w.issues|, f, cfg);
    } else {
      assert v.issues[|u.issues|].open && MadeFrom(v.issues[|u.issues|], f, cfg);
    }
  }

  // ---- Open issues are active conditions ----

  /** The kinds whose resolved issues a run closes; Argo only if the cluster gave a list. */
  predicate Swept(kind: Kind, snap: Snapshot) {
    kind.StuckContainerCreating? || kind.ChronicCrashloop? || (kind.StuckArgoOp? && snap.apps.Some?)
  }

  lemma KeptIsActive(cfg: Config, snap: Snapshot, issues: seq<Issue>, n: nat, kind: Kind)
    requires n in StillOpen(cfg, snap, issues) && Swept(kind, snap)
    ensures !Resolved(issues, n, kind, Active(Findings(cfg, snap), kind))
  {
    var fs := Findings(cfg, snap);
    KeptExact(issues, AfterCreating(cfg, snap, issues), ChronicCrashloop, Active(fs, ChronicCrashloop), n);
    KeptExact(issues, AfterArgo(cfg, snap, issues), StuckContainerCreating, Active(fs, StuckContainerCreating), n);
    KeptExact(issues, Listing(issues), StuckArgoOp, Active(fs, StuckArgoOp), n);
  }

  lemma FirstKeyOfBody(f: Finding, terminated: bool, kind: Kind)
    ensures FirstKey(BodyOf(f, terminated), kind) == if kind == f.Kind() then Some(f.Subject()) else None
  {
    var body := BodyOf(f, terminated);
    assert body[0] == KeyMarker(f.DedupKey());
    if kind != f.Kind() && |body| > 1 {
      assert FirstKey(body[1..], kind) == FirstKey(body[1..][1..], kind);
      assert body[1..][1..] == [];
    }
  }

  lemma CompletedParts(w: World, cfg: Config, snap: Snapshot, g: Replies)
    requires Completed(w, cfg, snap, g)
    ensures AfterClosing(w, cfg, snap, g).alive && AfterActing(w, cfg, snap, g).alive
  {
    var start := Read(w.(alive := true), g);
    var closing := ClosingSteps(cfg, snap, w.issues);
    RunInParts(w, cfg, snap, g);
    if Findings(cfg, snap) != [] {
      var acting, filing := ActingSteps(cfg, snap, w.issues), FilingSteps(cfg, snap, w.issues);
      if !AfterActing(w, cfg, snap, g).alive {
        DeadStays(AfterActing(w, cfg, snap, g), filing, cfg, snap.now, g);
      }
      if !AfterClosing(w, cfg, snap, g).alive {
        DeadStays(AfterClosing(w, cfg, snap, g), acting, cfg, snap.now, g);
      }
    }
  }

  /** Filing ends the run: what it adds are issues of filed findings. */
  lemma RunMakes(w: World, cfg: Config, snap: Snapshot, g: Replies)
    ensures var u, v := AfterActing(w, cfg, snap, g), Run(w, cfg, snap, g);
            && |u.issues| == |w.issues| <= |v.issues| && Evolves(u, v)
            && (forall n :: 0 <= n < |w.issues| ==> v.issues[n].open == u.issues[n].open)
            && (forall n :: |w.issues| <= n < |v.issues| ==> FromSome(v.issues[n], Filed(cfg, snap, w.issues), cfg))
            && (Findings(cfg, snap) == [] || !u.alive ==> v.issues == u.issues)
  {
    PartsEvolve(w, cfg, snap, g);
    RunInParts(w, cfg, snap, g);
    var u, filed := AfterActing(w, cfg, snap, g), Filed(cfg, snap, w.issues);
    if Findings(cfg, snap) != [] {
      LabelThenFile(u, filed, cfg, snap.now, g);
      if !u.alive {
        DeadStays(u, FilingSteps(cfg, snap, w.issues), cfg, snap.now, g);
      }
      if filed != [] {
        var labelled := Tolerated(u, g);
        FilingMakes(labelled, filed, cfg, snap.now, g);
      }
    }
  }

  /** The filing phase is one tolerated call and the loop, or nothing at all. */
  lemma LabelThenFile(u: World, filed: seq<Finding>, cfg: Config, now: real, g: Replies)
    ensures ExecAll(u, (if filed == [] then [] else [EnsureLabel]) + Gather(filed, FileStep), cfg, now, g)
            == if filed == [] then u else FileLoop(Tolerated(u, g), filed, cfg, now, g)
  {
    if filed != [] {
      ExecAllConcat(u, [EnsureLabel], Gather(filed, FileStep), cfg, now, g);
      Snoc<Step>([], EnsureLabel);
    }
  }

  /**
    After any completed run, clean or not, every open issue that carries a key of a swept kind
    names a condition among that run's findings, if the run's list showed it or the run filed it.
   */
  lemma OpenIssuesAreActive(w: World, cfg: Config, snap: Snapshot, kind: Kind, n: nat, g: Replies)
    requires Completed(w, cfg, snap, g) && Swept(kind, snap)
    requires n in Listing(w.issues) || n >= |w.issues|
    requires n < |Run(w, cfg, snap, g).issues| && Run(w, cfg, snap, g).issues[n].open
    ensures var key := FirstKey(Run(w, cfg, snap, g).issues[n].body, kind);
            key.Some? ==> exists f :: f in Findings(cfg, snap) && f.DedupKey() == Key(kind, key.value)
  {
    var v := Run(w, cfg, snap, g);
    var key := FirstKey(v.issues[n].body, kind);
    CompletedParts(w, cfg, snap, g);
    RunMakes(w, cfg, snap, g);
    PartsEvolve(w, cfg, snap, g);
    if key.Some? {
      if n < |w.issues| {
        OpenSinceClosing(w, cfg, snap, n, g);
        assert IssueEvolves(w.issues[n], v.issues[n]);
        OpenAfterClosingWasKept(w, cfg, snap, g, n);
        KeptIsActive(cfg, snap, w.issues, n, kind);
        var f :| f in Findings(cfg, snap) && f.Kind() == kind && f.Subject() == key.value;
        assert f.DedupKey() == Key(kind, key.value);
      } else {
        assert FromSome(v.issues[n], Filed(cfg, snap, w.issues), cfg);
        var f :| f in Filed(cfg, snap, w.issues) && MadeFrom(v.issues[n], f, cfg);
        FirstKeyOfBody(f, f.OpFinding? && cfg.autoTerminate, kind);
        FiledIsNew(cfg, snap, w.issues, f);
        assert f.DedupKey() == Key(kind, key.value);
      }
    }
  }

  /** With a complete list that is every open issue. */
  lemma AllOpenIssuesAreActive(w: World, cfg: Config, snap: Snapshot, kind: Kind, n: nat, g: Replies)
    requires Completed(w, cfg, snap, g) && ListedInFull(w.issues) && Swept(kind, snap)
    requires n < |Run(w, cfg, snap, g).issues| && Run(w, cfg, snap, g).issues[n].open
    ensures var key := FirstKey(Run(w, cfg, snap, g).issues[n].body, kind);
            key.Some? ==> exists f :: f in Findings(cfg, snap) && f.DedupKey() == Key(kind, key.value)
  {
    if n < |w.issues| {
      OpenSinceClosing(w, cfg, snap, n, g);
      FullListing(w.issues, n);
    }
    OpenIssuesAreActive(w, cfg, snap, kind, n, g);
  }

  lemma OpenSinceClosing(w: World, cfg: Config, snap: Snapshot, n: nat, g: Replies)
    requires n < |w.issues| && n < |Run(w, cfg, snap, g).issues| && Run(w, cfg, snap, g).issues[n].open
    ensures n < |AfterClosing(w, cfg, snap, g).issues| && AfterClosing(w, cfg, snap, g).issues[n].open
    ensures w.issues[n].open
  {
    PartsEvolve(w, cfg, snap, g);
    RunMakes(w, cfg, snap, g);
    var c, u := AfterClosing(w, cfg, snap, g), AfterActing(w, cfg, snap, g);
    if Findings(cfg, snap) != [] {
      ExecAllEvolves(c, ActingSteps(cfg, snap, w.issues), cfg, snap.now, g);
    }
    assert IssueEvolves(c.issues[n], u.issues[n]) && IssueEvolves(w.issues[n], c.issues[n]);
  }

  lemma FiledHasIssue(w: World, cfg: Config, snap: Snapshot, f: Finding, g: Replies)
    requires Completed(w, cfg, snap, g) && f in Filed(cfg, snap, w.issues)
    ensures HasIssue(Run(w, cfg, snap, g), |w.issues|, f, cfg)
  {
    var u, filed := AfterActing(w, cfg, snap, g), Filed(cfg, snap, w.issues);
    FiledIsNew(cfg, snap, w.issues, f);
    RunInParts(w, cfg, snap, g);
    PartsEvolve(w, cfg, snap, g);
    LabelThenFile(u, filed, cfg, snap.now, g);
    FilingIsComplete(Tolerated(u, g), filed, cfg, snap.now, f, g);
  }

  /** The new issue `n` tracks the finding and records the terminate dispatched for it. */
  predicate Covers(issue: Issue, f: Finding, cfg: Config) {
    && issue.open && Tracks(issue, f.DedupKey())
    && (f.OpFinding? && cfg.autoTerminate ==> TerminatedMarker(f.app, f.startedAt) in issue.body)
  }

  /** After a completed run every filed finding is tracked by an open issue. */
  lemma FiledIsTracked(w: World, cfg: Config, snap: Snapshot, f: Finding, g: Replies)
    requires Completed(w, cfg, snap, g) && f in Filed(cfg, snap, w.issues)
    ensures var v := Run(w, cfg, snap, g);
            exists n :: |w.issues| <= n < |v.issues| && Covers(v.issues[n], f, cfg)
  {
    FiledHasIssue(w, cfg, snap, f, g);
    var v := Run(w, cfg, snap, g);
    var n :| |w.issues| <= n < |v.issues| && v.issues[n].open && MadeFrom(v.issues[n], f, cfg);
    assert Covers(v.issues[n], f, cfg);
  }

  // ---- No key is tracked twice ----

  predicate OpenOn(issue: Issue, key: Key) {
    issue.open && Tracks(issue, key)
  }

  predicate UniqueOpen(issues: seq<Issue>, key: Key) {
    forall i, j :: 0 <= i < |issues| && 0 <= j < |issues| && OpenOn(issues[i], key) && OpenOn(issues[j], key) ==> i == j
  }

  predicate NoneOpen(issues: seq<Issue>, key: Key) {
    forall i :: 0 <= i < |issues| && issues[i].open ==> !Tracks(issues[i], key)
  }

  /** At most one finding of the batch has this key. */
  predicate AtMostOnce(fs: seq<Finding>, key: Key) {
    forall i, j :: 0 <= i < |fs| && 0 <= j < |fs| && fs[i].DedupKey() == key && fs[j].DedupKey() == key ==> i == j
  }

  function CountKey(fs: seq<Finding>, key: Key): nat {
    if fs == [] then 0 else CountKey(Front(fs), key) + (if Last(fs).DedupKey() == key then 1 else 0)
  }

  lemma {:induction false} CountOfUnique(fs: seq<Finding>, key: Key)
    requires AtMostOnce(fs, key)
    ensures CountKey(fs, key) <= 1
    ensures CountKey(fs, key) == 1 ==> exists f :: f in fs && f.DedupKey() == key
  {
    if fs != [] {
      CountOfUnique(Front(fs), key);
      if CountKey(Front(fs), key) == 1 {
        var f :| f in Front(fs) && f.DedupKey() == key;
        assert f in fs;
        var i :| 0 <= i < |fs| - 1 && Front(fs)[i] == f;
        assert fs[i].DedupKey() == key;
      }
    }
  }

  lemma {:induction false} CountKeyConcat(a: seq<Finding>, b: seq<Finding>, key: Key)
    ensures CountKey(a + b, key) == CountKey(a, key) + CountKey(b, key)
  {
    if b == [] {
      assert a + b == a;
    } else {
      assert Front(a + b) == a + Front(b);
      CountKeyConcat(a, Front(b), key);
    }
  }

  /** Filtering cannot raise a count. */
  lemma {:induction false} FilterCount(fs: seq<Finding>, keep: Finding -> seq<Finding>, key: Key)
    requires forall f :: keep(f) == [] || keep(f) == [f]
    ensures CountKey(Gather(fs, keep), key) <= CountKey(fs, key)
  {
    if fs != [] {
      FilterCount(Front(fs), keep, key);
      CountKeyConcat(Gather(Front(fs), keep), keep(Last(fs)), key);
      assert keep(Last(fs)) == [Last(fs)] ==> Front(keep(Last(fs))) == [];
    }
  }

  lemma {:induction false} InsertCount(s: seq<Finding>, x: Finding, le: (Finding, Finding) -> bool, key: Key)
    ensures CountKey(Sorting.Insert(s, x, le), key) == CountKey(s, key) + if x.DedupKey() == key then 1 else 0
  {
    if s == [] {
      assert Front([x]) == [];
    } else if le(Last(s), x) {
      Snoc(s, x);
    } else {
      InsertCount(Front(s), x, le, key);
      Snoc(Sorting.Insert(Front(s), x, le), Last(s));
    }
  }

  lemma {:induction false} SortCount(s: seq<Finding>, le: (Finding, Finding) -> bool, key: Key)
    ensures CountKey(Sorting.Sort(s, le), key) == CountKey(s, key)
  {
    if s != [] {
      SortCount(Front(s), le, key);
      InsertCount(Sorting.Sort(Front(s), le), Last(s), le, key);
    }
  }

  lemma TakeCount(s: seq<Finding>, n: nat, key: Key)
    ensures CountKey(Take(s, n), key) <= CountKey(s, key)
  {
    if n <= |s| {
      assert s == s[..n] + s[n..];
      CountKeyConcat(s[..n], s[n..], key);
    }
  }

  lemma {:induction false} SplitCount(fs: seq<Finding>, key: Key)
    ensures CountKey(Gather(fs, IfOp), key) + CountKey(Gather(fs, IfNotOp), key) == CountKey(fs, key)
  {
    if fs != [] {
      SplitCount(Front(fs), key);
      CountKeyConcat(Gather(Front(fs), IfOp), IfOp(Last(fs)), key);
      CountKeyConcat(Gather(Front(fs), IfNotOp), IfNotOp(Last(fs)), key);
      assert Front([Last(fs)]) == [];
    }
  }

  /** What is filed has each key at most as often as the batch. */
  lemma FiledCount(cfg: Config, snap: Snapshot, issues: seq<Issue>, key: Key)
    ensures CountKey(Filed(cfg, snap, issues), key) <= CountKey(Findings(cfg, snap), key)
  {
    var still, ordered := StillOpen(cfg, snap, issues), OrderedNew(cfg, snap, issues);
    var untracked := NewOnes(Findings(cfg, snap), issues, still);
    FilterCount(Findings(cfg, snap), UntrackedIn(issues, still), key);
    SortCount(untracked, (a, b) => RanksBefore(Order(cfg.priority), a, b), key);
    var ops := Take(Gather(ordered, IfOp), cfg.maxPerRun);
    var rest := Take(Gather(ordered, IfNotOp), RestSlots(|ops|, |still|, cfg));
    SplitCount(ordered, key);
    TakeCount(Gather(ordered, IfOp), cfg.maxPerRun, key);
    TakeCount(Gather(ordered, IfNotOp), RestSlots(|ops|, |still|, cfg), key);
    CountKeyConcat(ops, rest, key);
  }

  lemma {:induction false} CountIsZero(fs: seq<Finding>, key: Key)
    ensures CountKey(fs, key) == 0 <==> forall f :: f in fs ==> f.DedupKey() != key
  {
    if fs != [] {
      CountIsZero(Front(fs), key);
      assert fs == Front(fs) + [Last(fs)];
    }
  }

  lemma AddingKeepsUnique(u: World, v: World, f: Finding, cfg: Config, key: Key)
    requires AddsOnly(u, v, f, cfg) && UniqueOpen(u.issues, key)
    ensures f.DedupKey() != key || NoneOpen(u.issues, key) ==> UniqueOpen(v.issues, key)
    ensures f.DedupKey() != key && NoneOpen(u.issues, key) ==> NoneOpen(v.issues, key)
  {
    forall n | 0 <= n < |u.issues| ensures Tracks(v.issues[n], key) == Tracks(u.issues[n], key) {
      assert IssueEvolves(u.issues[n], v.issues[n]);
    }
    if |v.issues| > |u.issues| {
      assert Tracks(v.issues[|u.issues|], key) <==> f.DedupKey() == key;
    }
  }

  lemma {:induction false} FilingKeepsUnique(w: World, fs: seq<Finding>, cfg: Config, now: real, key: Key, g: Replies)
    requires UniqueOpen(w.issues, key) && CountKey(fs, key) <= 1
    requires NoneOpen(w.issues, key) || CountKey(fs, key) == 0
    ensures UniqueOpen(FileLoop(w, fs, cfg, now, g).issues, key)
    ensures NoneOpen(w.issues, key) && CountKey(fs, key) == 0 ==> NoneOpen(FileLoop(w, fs, cfg, now, g).issues, key)
  {
    if fs != [] {
      FilingKeepsUnique(w, Front(fs), cfg, now, key, g);
      LastFiling(w, fs, cfg, now, g);
      AddingKeepsUnique(FileLoop(w, Front(fs), cfg, now, g), FileLoop(w, fs, cfg, now, g), Last(fs), cfg, key);
    }
  }

  lemma EvolvedUnique(w: World, u: World, key: Key)
    requires Evolves(w, u) && |u.issues| == |w.issues| && UniqueOpen(w.issues, key)
    ensures UniqueOpen(u.issues, key)
  {
    forall n | 0 <= n < |w.issues|
      ensures Tracks(u.issues[n], key) == Tracks(w.issues[n], key) && (u.issues[n].open ==> w.issues[n].open)
    {
      assert IssueEvolves(w.issues[n], u.issues[n]);
    }
  }

  /** The open issues on a key. */
  function OpenSet(issues: seq<Issue>, key: Key): set<nat> {
    set n: nat | n < |issues| && OpenOn(issues[n], key)
  }

  lemma UniqueIsSmall(issues: seq<Issue>, key: Key)
    ensures UniqueOpen(issues, key) <==> |OpenSet(issues, key)| <= 1
  {
    var open := OpenSet(issues, key);
    if UniqueOpen(issues, key) {
      if n :| n in open {
        assert open == {n};
      }
    } else {
      var i, j :| 0 <= i < |issues| && 0 <= j < |issues| && OpenOn(issues[i], key) && OpenOn(issues[j], key) && i != j;
      PairInSet(open, i, j);
    }
  }

  lemma PairInSet(s: set<nat>, i: nat, j: nat)
    requires i in s && j in s && i != j
    ensures |s| >= 2
  {
    assert s == (s - {i, j}) + {i, j};
    assert |{i, j}| == 2;
  }

  lemma AddsToSet(u: World, v: World, f: Finding, cfg: Config, key: Key)
    requires AddsOnly(u, v, f, cfg) && v.alive
    ensures OpenSet(v.issues, key) == OpenSet(u.issues, key) + if f.DedupKey() == key then {|u.issues|} else {}
  {
    forall n | 0 <= n < |u.issues| ensures OpenOn(v.issues[n], key) == OpenOn(u.issues[n], key) {
      assert IssueEvolves(u.issues[n], v.issues[n]);
    }
    assert Tracks(v.issues[|u.issues|], key) <==> f.DedupKey() == key;
  }

  /** A filing loop that the run survives opens one issue on the key for each finding with it. */
  lemma {:induction false} FilingOpens(w: World, fs: seq<Finding>, cfg: Config, now: real, key: Key, g: Replies)
    requires FileLoop(w, fs, cfg, now, g).alive
    ensures |OpenSet(FileLoop(w, fs, cfg, now, g).issues, key)| == |OpenSet(w.issues, key)| + CountKey(fs, key)
  {
    if fs != [] {
      LastFiling(w, fs, cfg, now, g);
      FilingOpens(w, Front(fs), cfg, now, key, g);
      AddsToSet(FileLoop(w, Front(fs), cfg, now, g), FileLoop(w, fs, cfg, now, g), Last(fs), cfg, key);
    }
  }

  /** The open issues on a key that the list does not show. */
  function UnlistedOn(issues: seq<Issue>, key: Key): set<nat> {
    set n: nat | n < |issues| && OpenOn(issues[n], key) && n !in Listing(issues)
  }

  lemma FullListHidesNone(issues: seq<Issue>, key: Key)
    requires ListedInFull(issues)
    ensures UnlistedOn(issues, key) == {}
  {
    forall n | n in UnlistedOn(issues, key) ensures false {
      FullListing(issues, n);
    }
  }

  lemma ActingStartsAlive(w: World, cfg: Config, snap: Snapshot, g: Replies)
    requires AfterActing(w, cfg, snap, g).alive
    ensures AfterClosing(w, cfg, snap, g).alive
  {
    var c := AfterClosing(w, cfg, snap, g);
    if Findings(cfg, snap) != [] && !c.alive {
      DeadStays(c, ActingSteps(cfg, snap, w.issues), cfg, snap.now, g);
    }
  }

  /** A listed issue that is still open when filing starts was kept. */
  lemma OpenWasKept(w: World, cfg: Config, snap: Snapshot, i: nat, g: Replies)
    requires AfterActing(w, cfg, snap, g).alive && i in Listing(w.issues)
    requires i < |AfterActing(w, cfg, snap, g).issues| && AfterActing(w, cfg, snap, g).issues[i].open
    ensures i in StillOpen(cfg, snap, w.issues)
  {
    var c := AfterClosing(w, cfg, snap, g);
    ActingStartsAlive(w, cfg, snap, g);
    PartsEvolve(w, cfg, snap, g);
    if Findings(cfg, snap) != [] {
      ExecAllEvolves(c, ActingSteps(cfg, snap, w.issues), cfg, snap.now, g);
      assert IssueEvolves(c.issues[i], AfterActing(w, cfg, snap, g).issues[i]);
    }
    OpenAfterClosingWasKept(w, cfg, snap, g, i);
  }

  lemma EvolvedTracks(a: Issue, b: Issue, key: Key)
    requires IssueEvolves(a, b)
    ensures Tracks(b, key) == Tracks(a, key) && (b.open ==> a.open)
  {
  }

  lemma UnlistedSame(w: World, cfg: Config, snap: Snapshot, key: Key, i: nat, g: Replies)
    requires i < |w.issues| == |AfterActing(w, cfg, snap, g).issues| && i !in Listing(w.issues)
    ensures OpenOn(AfterActing(w, cfg, snap, g).issues[i], key) == OpenOn(w.issues[i], key)
  {
    PartsEvolve(w, cfg, snap, g);
    EvolvedTracks(w.issues[i], AfterActing(w, cfg, snap, g).issues[i], key);
    UnlistedStaysOpen(w, cfg, snap, i, g);
  }

  lemma ListedGone(w: World, cfg: Config, snap: Snapshot, f: Finding, i: nat, g: Replies)
    requires AfterActing(w, cfg, snap, g).alive && Match(f, w.issues, StillOpen(cfg, snap, w.issues)).None?
    requires i < |w.issues| == |AfterActing(w, cfg, snap, g).issues| && i in Listing(w.issues)
    ensures !OpenOn(AfterActing(w, cfg, snap, g).issues[i], f.DedupKey())
  {
    var u := AfterActing(w, cfg, snap, g);
    PartsEvolve(w, cfg, snap, g);
    EvolvedTracks(w.issues[i], u.issues[i], f.DedupKey());
    MatchSound(f, w.issues, StillOpen(cfg, snap, w.issues));
    if u.issues[i].open {
      OpenWasKept(w, cfg, snap, i, g);
    }
  }

  lemma OpenWhenUnlisted(w: World, cfg: Config, snap: Snapshot, f: Finding, i: nat, g: Replies)
    requires AfterActing(w, cfg, snap, g).alive && Match(f, w.issues, StillOpen(cfg, snap, w.issues)).None?
    requires i < |w.issues| == |AfterActing(w, cfg, snap, g).issues|
    ensures OpenOn(AfterActing(w, cfg, snap, g).issues[i], f.DedupKey()) <==> i in UnlistedOn(w.issues, f.DedupKey())
  {
    if i in Listing(w.issues) {
      ListedGone(w, cfg, snap, f, i, g);
    } else {
      UnlistedSame(w, cfg, snap, f.DedupKey(), i, g);
    }
  }

  lemma OpenSetIs(issues: seq<Issue>, key: Key, s: set<nat>)
    requires forall i :: i in s ==> i < |issues|
    requires forall i :: 0 <= i < |issues| ==> (OpenOn(issues[i], key) <==> i in s)
    ensures OpenSet(issues, key) == s
  {
  }

  /** When a finding with this key is about to be filed, the open issues on the key are the unlisted ones. */
  lemma FiledKeyIsUnlisted(w: World, cfg: Config, snap: Snapshot, f: Finding, g: Replies)
    requires f in Filed(cfg, snap, w.issues) && AfterActing(w, cfg, snap, g).alive
    ensures OpenSet(AfterActing(w, cfg, snap, g).issues, f.DedupKey()) == UnlistedOn(w.issues, f.DedupKey())
  {
    FiledIsNew(cfg, snap, w.issues, f);
    PartsEvolve(w, cfg, snap, g);
    forall i | 0 <= i < |w.issues|
      ensures OpenOn(AfterActing(w, cfg, snap, g).issues[i], f.DedupKey())
              <==> i in UnlistedOn(w.issues, f.DedupKey())
    {
      OpenWhenUnlisted(w, cfg, snap, f, i, g);
    }
    OpenSetIs(AfterActing(w, cfg, snap, g).issues, f.DedupKey(), UnlistedOn(w.issues, f.DedupKey()));
  }

  lemma NoneOpenIsEmpty(issues: seq<Issue>, key: Key)
    ensures NoneOpen(issues, key) <==> OpenSet(issues, key) == {}
  {
    if OpenSet(issues, key) == {} {
      forall i: nat | i < |issues| && issues[i].open ensures !Tracks(issues[i], key) {
        assert i !in OpenSet(issues, key);
      }
    }
  }

  /**
    No run, completed or not, gives a key two open issues, if it had none or one before and the
    findings it files on the key, with the open issue its list does not show, are one at most.
   */
  lemma KeysStayUnique(w: World, cfg: Config, snap: Snapshot, key: Key, g: Replies)
    requires UniqueOpen(w.issues, key)
    requires CountKey(Filed(cfg, snap, w.issues), key) + |UnlistedOn(w.issues, key)| <= 1
    ensures UniqueOpen(Run(w, cfg, snap, g).issues, key)
  {
    var u, filed := AfterActing(w, cfg, snap, g), Filed(cfg, snap, w.issues);
    PartsEvolve(w, cfg, snap, g);
    EvolvedUnique(w, u, key);
    RunMakes(w, cfg, snap, g);
    if Findings(cfg, snap) != [] && u.alive {
      RunInParts(w, cfg, snap, g);
      LabelThenFile(u, filed, cfg, snap.now, g);
      FiledKeyIsFree(w, cfg, snap, key, g);
      FilingKeepsUnique(Tolerated(u, g), filed, cfg, snap.now, key, g);
    }
  }

  lemma FiledKeyIsFree(w: World, cfg: Config, snap: Snapshot, key: Key, g: Replies)
    requires AfterActing(w, cfg, snap, g).alive
    requires CountKey(Filed(cfg, snap, w.issues), key) + |UnlistedOn(w.issues, key)| <= 1
    ensures NoneOpen(AfterActing(w, cfg, snap, g).issues, key) || CountKey(Filed(cfg, snap, w.issues), key) == 0
  {
    var filed := Filed(cfg, snap, w.issues);
    CountIsZero(filed, key);
    if CountKey(filed, key) != 0 {
      var f :| f in filed && f.DedupKey() == key;
      FiledKeyIsUnlisted(w, cfg, snap, f, g);
      NoneOpenIsEmpty(AfterActing(w, cfg, snap, g).issues, key);
    }
  }

  lemma NoFindingsNoneFiled(cfg: Config, snap: Snapshot, issues: seq<Issue>, key: Key)
    requires Findings(cfg, snap) == []
    ensures CountKey(Filed(cfg, snap, issues), key) == 0
  {
    FiledCount(cfg, snap, issues, key);
  }

  /** A completed run leaves on a key what its acting steps left open and one issue for each finding it files. */
  lemma RunOpens(w: World, cfg: Config, snap: Snapshot, key: Key, g: Replies)
    requires Completed(w, cfg, snap, g) && Findings(cfg, snap) != []
    ensures |OpenSet(Run(w, cfg, snap, g).issues, key)|
            == |OpenSet(AfterActing(w, cfg, snap, g).issues, key)| + CountKey(Filed(cfg, snap, w.issues), key)
  {
    var u, filed := AfterActing(w, cfg, snap, g), Filed(cfg, snap, w.issues);
    RunInParts(w, cfg, snap, g);
    LabelThenFile(u, filed, cfg, snap.now, g);
    if filed != [] {
      FilingOpens(Tolerated(u, g), filed, cfg, snap.now, key, g);
    }
  }

  lemma FiledAboveOneOpensTwo(w: World, cfg: Config, snap: Snapshot, key: Key, g: Replies)
    requires Completed(w, cfg, snap, g) && CountKey(Filed(cfg, snap, w.issues), key) >= 1
    requires CountKey(Filed(cfg, snap, w.issues), key) + |UnlistedOn(w.issues, key)| >= 2
    ensures !UniqueOpen(Run(w, cfg, snap, g).issues, key)
  {
    var filed := Filed(cfg, snap, w.issues);
    if Findings(cfg, snap) == [] {
      NoFindingsNoneFiled(cfg, snap, w.issues, key);
    }
    CompletedParts(w, cfg, snap, g);
    CountIsZero(filed, key);
    var f :| f in filed && f.DedupKey() == key;
    FiledKeyIsUnlisted(w, cfg, snap, f, g);
    RunOpens(w, cfg, snap, key, g);
    UniqueIsSmall(Run(w, cfg, snap, g).issues, key);
  }

  lemma UnlistedIsOpen(issues: seq<Issue>, key: Key)
    requires UniqueOpen(issues, key)
    ensures |UnlistedOn(issues, key)| <= 1
  {
    UniqueIsSmall(issues, key);
    var open, hidden := OpenSet(issues, key), UnlistedOn(issues, key);
    assert open == hidden + (open - hidden);
  }

  /**
    A completed run leaves a key with one open issue at most exactly when the findings it files
    on the key, with the open issue that its list does not show, are one at most: findings are
    compared with the listed issues and never with each other.
   */
  lemma UniqueExactly(w: World, cfg: Config, snap: Snapshot, key: Key, g: Replies)
    requires Completed(w, cfg, snap, g) && UniqueOpen(w.issues, key)
    ensures UniqueOpen(Run(w, cfg, snap, g).issues, key)
            <==> CountKey(Filed(cfg, snap, w.issues), key) + |UnlistedOn(w.issues, key)| <= 1
  {
    UnlistedIsOpen(w.issues, key);
    if CountKey(Filed(cfg, snap, w.issues), key) + |UnlistedOn(w.issues, key)| <= 1 {
      KeysStayUnique(w, cfg, snap, key, g);
    } else {
      FiledAboveOneOpensTwo(w, cfg, snap, key, g);
    }
  }

  /** A key that the batch holds at most once is filed at most once. */
  lemma DistinctKeysFiledOnce(cfg: Config, snap: Snapshot, issues: seq<Issue>, key: Key)
    requires AtMostOnce(Findings(cfg, snap), key)
    ensures CountKey(Filed(cfg, snap, issues), key) <= 1
  {
    CountOfUnique(Findings(cfg, snap), key);
    FiledCount(cfg, snap, issues, key);
  }

  // ---- Recovered nodes ----

  /** The issue carries the key of a dark node and no key of another kind. */
  predicate DarkOnly(issue: Issue) {
    && FirstKey(issue.body, DarkNode).Some?
    && FirstKey(issue.body, StuckArgoOp).None?
    && FirstKey(issue.body, StuckContainerCreating).None?
    && FirstKey(issue.body, ChronicCrashloop).None?
  }

  lemma CleanRunClosesNoDark(w: World, cfg: Config, snap: Snapshot, n: nat, g: Replies)
    requires n < |w.issues| && DarkOnly(w.issues[n]) && Findings(cfg, snap) == []
    ensures n < |Run(w, cfg, snap, g).issues| && Run(w, cfg, snap, g).issues[n].open == w.issues[n].open
  {
    RunInParts(w, cfg, snap, g);
    PartsEvolve(w, cfg, snap, g);
    var closing := ClosingSteps(cfg, snap, w.issues);
    forall s | s in closing ensures !MayClose(s, n) {
      ClosingStepPlanned(s, cfg, snap, w.issues);
    }
    ExecAllEvolves(Read(w.(alive := true), g), closing, cfg, snap.now, g);
  }

  lemma DarkOnlyIsKept(cfg: Config, snap: Snapshot, issues: seq<Issue>, n: nat)
    requires n in Listing(issues) && n < |issues| && DarkOnly(issues[n])
    ensures n in StillOpen(cfg, snap, issues)
  {
    var fs := Findings(cfg, snap);
    KeptExact(issues, Listing(issues), StuckArgoOp, Active(fs, StuckArgoOp), n);
    KeptExact(issues, AfterArgo(cfg, snap, issues), StuckContainerCreating, Active(fs, StuckContainerCreating), n);
    KeptExact(issues, AfterCreating(cfg, snap, issues), ChronicCrashloop, Active(fs, ChronicCrashloop), n);
  }

  /**
    A completed run closes the issue of a recovered node exactly when it found anything at
    all: the early return of a clean run never reaches the recovery phase.
   */
  lemma RecoveredNodeIssueCloses(w: World, cfg: Config, snap: Snapshot, n: nat, g: Replies)
    requires Completed(w, cfg, snap, g) && n in Listing(w.issues) && n < |w.issues| && w.issues[n].open
    requires DarkOnly(w.issues[n]) && FirstKey(w.issues[n].body, DarkNode).value !in UnknownNames(snap.nodes)
    ensures n < |Run(w, cfg, snap, g).issues|
    ensures !Run(w, cfg, snap, g).issues[n].open <==> Findings(cfg, snap) != []
  {
    PartsEvolve(w, cfg, snap, g);
    if Findings(cfg, snap) == [] {
      CleanRunClosesNoDark(w, cfg, snap, n, g);
    } else {
      DarkOnlyIsKept(cfg, snap, w.issues, n);
      CloserMember(w.issues, StillOpen(cfg, snap, w.issues), DarkNode, UnknownNames(snap.nodes), CloseResolved(n));
      assert CloseResolved(n) in ActingSteps(cfg, snap, w.issues);
      CompletedParts(w, cfg, snap, g);
      CloseHappens(AfterClosing(w, cfg, snap, g), ActingSteps(cfg, snap, w.issues), n, cfg, snap.now, g);
      RunMakes(w, cfg, snap, g);
    }
  }
}
