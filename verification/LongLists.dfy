/**
  Trackers in which a run goes past the ceiling on open issues: more are open than its list shows.
 */
module LongLists {
  import opened Common
  import opened DarkLadder
  import opened Detection
  import opened Tracker
  import opened Watchdog
  import opened PlanFacts
  import opened RunFacts
  import opened IssueIndex
  import opened LadderHistory
  import opened FilingCaps
  import opened CeilingExact
  import opened Scenarios

  // ---- A long list ----

  /** Open issues without any key of the watchdog, such as ones that people filed under its label. */
  predicate Keyless(issues: seq<Issue>) {
    forall n :: 0 <= n < |issues| ==> issues[n].open && issues[n].title == None && issues[n].body == []
  }

  lemma KeylessIsUnresolved(issues: seq<Issue>, n: nat, kind: Kind, active: set<string>)
    requires Keyless(issues)
    ensures !Resolved(issues, n, kind, active)
  {
  }

  lemma {:induction false} KeptWhole(issues: seq<Issue>, listed: seq<nat>, kind: Kind, active: set<string>)
    requires Keyless(issues)
    ensures Kept(issues, listed, kind, active) == listed && Closers(issues, listed, kind, active) == []
  {
    if listed != [] {
      KeptWhole(issues, Front(listed), kind, active);
      KeylessIsUnresolved(issues, Last(listed), kind, active);
      assert listed == Front(listed) + [Last(listed)];
    }
  }

  lemma KeylessIsKept(cfg: Config, snap: Snapshot, issues: seq<Issue>)
    requires Keyless(issues)
    ensures StillOpen(cfg, snap, issues) == Listing(issues) && ClosingSteps(cfg, snap, issues) == []
  {
    var fs := Findings(cfg, snap);
    KeptWhole(issues, Listing(issues), StuckArgoOp, Active(fs, StuckArgoOp));
    KeptWhole(issues, Listing(issues), StuckContainerCreating, Active(fs, StuckContainerCreating));
    KeptWhole(issues, Listing(issues), ChronicCrashloop, Active(fs, ChronicCrashloop));
  }

  lemma {:induction false} KeylessMatchesNone(f: Finding, issues: seq<Issue>, listed: seq<nat>)
    requires Keyless(issues)
    ensures Match(f, issues, listed) == None
  {
    if listed != [] {
      KeylessMatchesNone(f, issues, listed[1..]);
    }
  }

  lemma KeylessTracksNone(f: Finding, issues: seq<Issue>, listed: seq<nat>)
    requires Keyless(issues)
    ensures Duplicates([f], issues, listed) == [] && NewOnes([f], issues, listed) == [f]
  {
    KeylessMatchesNone(f, issues, listed);
    GatherOne(f, TrackedIn(issues, listed));
    GatherOne(f, UntrackedIn(issues, listed));
  }

  lemma KeylessActing(cfg: Config, snap: Snapshot, issues: seq<Issue>, f: Finding)
    requires Keyless(issues) && Findings(cfg, snap) == [f]
    ensures ActingSteps(cfg, snap, issues) == [] && OrderedNew(cfg, snap, issues) == [f]
  {
    KeylessIsKept(cfg, snap, issues);
    KeylessTracksNone(f, issues, Listing(issues));
    KeptWhole(issues, Listing(issues), DarkNode, UnknownNames(snap.nodes));
    OneIsSorted(f, cfg.priority);
  }

  lemma SlotBelow(f: Finding, openCount: nat, cfg: Config)
    requires !f.OpFinding? && cfg.maxPerRun >= 1 && openCount < cfg.maxOpen
    ensures ToFile([f], openCount, cfg) == [f]
  {
    GatherOne(f, IfOp);
    GatherOne(f, IfNotOp);
  }

  lemma {:induction false} KeylessRest(issues: seq<Issue>)
    requires Keyless(issues)
    ensures |OpenRest(issues)| == |issues| && |OpenIssues(issues)| == |issues|
  {
    AllOpenAllListed(issues);
    if issues == [] {
      assert OpenRest(issues) == {};
    } else {
      KeylessRest(Front(issues));
      assert OpenRest(issues) == OpenRest(Front(issues)) + {|issues| - 1};
    }
  }

  lemma KeylessFiled(cfg: Config, snap: Snapshot, issues: seq<Issue>, f: Finding)
    requires Keyless(issues) && Findings(cfg, snap) == [f] && !f.OpFinding? && cfg.maxPerRun >= 1
    requires |issues| > LIST_LIMIT && cfg.maxOpen > LIST_LIMIT
    ensures Filed(cfg, snap, issues) == [f]
  {
    KeylessIsKept(cfg, snap, issues);
    KeylessActing(cfg, snap, issues, f);
    KeylessRest(issues);
    SlotBelow(f, |Listing(issues)|, cfg);
  }

  lemma KeylessUntouched(w: World, cfg: Config, snap: Snapshot, f: Finding, g: Replies)
    requires Keyless(w.issues) && Findings(cfg, snap) == [f]
    ensures AfterActing(w, cfg, snap, g).issues == w.issues
  {
    KeylessIsKept(cfg, snap, w.issues);
    KeylessActing(cfg, snap, w.issues, f);
  }

  /** With more than the listed issues open and a ceiling above the list, a run goes past both. */
  lemma CeilingExceeded(w: World, cfg: Config, snap: Snapshot, f: Finding, g: Replies)
    requires Keyless(w.issues) && |w.issues| >= cfg.maxOpen > LIST_LIMIT && cfg.maxPerRun >= 1
    requires Findings(cfg, snap) == [f] && !f.OpFinding? && Completed(w, cfg, snap, g)
    ensures |OpenRest(w.issues)| == |w.issues|
    ensures |OpenRest(Run(w, cfg, snap, g).issues)| == |w.issues| + 1 > Max(|OpenRest(w.issues)|, cfg.maxOpen)
  {
    KeylessRest(w.issues);
    KeylessFiled(cfg, snap, w.issues, f);
    KeylessUntouched(w, cfg, snap, f, g);
    RestGrowsExactly(w, cfg, snap, g);
    GatherOne(f, IfNotOp);
  }

  // ---- A concrete one ----

  function Handmade(): Issue {
    Issue(None, [], [], true)
  }

  function Crowded(): World {
    World(seq(101, _ => Handmade()), [], 0, true)
  }

  function OneFullVolume(now: real): Snapshot {
    Snapshot(now, Some([]), [], [], [], [VolumeFault("db", "")])
  }

  lemma VolumeIsFound(cfg: Config, now: real)
    ensures Findings(cfg, OneFullVolume(now)) == [VolumeFinding("db", "")]
  {
    var snap := OneFullVolume(now);
    assert StuckOps(AppsOf(snap), cfg, now) == [] && DarkNodes(snap.nodes, cfg, now) == [];
    assert CrashFindings(snap.crashes) == [] && CreatingFindings(snap.creating) == [];
    assert VolumeFindings(snap.volumes) == [VolumeFinding("db", "")];
  }

  lemma VolumeRunCompletes(w: World, cfg: Config, now: real)
    ensures Completed(w, cfg, OneFullVolume(now), AllOk())
  {
    VolumeIsFound(cfg, now);
    RunCompletes(w, cfg, OneFullVolume(now));
  }

  lemma CrowdedIsKeyless()
    ensures Keyless(Crowded().issues) && |Crowded().issues| == 101
  {
  }

  lemma OneMoreVolume(w: World, cfg: Config)
    requires Keyless(w.issues) && |w.issues| == cfg.maxOpen == 101 && cfg.maxPerRun >= 1
    ensures |OpenRest(w.issues)| == 101
    ensures |OpenRest(Run(w, cfg, OneFullVolume(60.0), AllOk()).issues)| == 102
  {
    VolumeIsFound(cfg, 60.0);
    VolumeRunCompletes(w, cfg, 60.0);
    CeilingExceeded(w, cfg, OneFullVolume(60.0), VolumeFinding("db", ""), AllOk());
  }

  /** 101 issues open, a ceiling of 101, and a 102nd is filed. */
  lemma OneTooMany()
    ensures |OpenRest(Crowded().issues)| == 101
    ensures |OpenRest(Run(Crowded(), CONFIG.(maxOpen := 101), OneFullVolume(60.0), AllOk()).issues)| == 102
  {
    CrowdedIsKeyless();
    OneMoreVolume(Crowded(), CONFIG.(maxOpen := 101));
  }

  // ---- Issues hidden below resolved ones ----

  predicate ListedIsResolved(cfg: Config, snap: Snapshot, issues: seq<Issue>) {
    snap.apps.Some?
    && forall n :: n in Listing(issues) ==> Resolved(issues, n, StuckArgoOp, Active(Findings(cfg, snap), StuckArgoOp))
  }

  lemma {:induction false} NoneKept(issues: seq<Issue>, listed: seq<nat>, kind: Kind, active: set<string>)
    requires forall n :: n in listed ==> Resolved(issues, n, kind, active)
    ensures Kept(issues, listed, kind, active) == []
  {
    if listed != [] {
      assert listed == Front(listed) + [Last(listed)];
      NoneKept(issues, Front(listed), kind, active);
    }
  }

  lemma NothingStillOpen(cfg: Config, snap: Snapshot, issues: seq<Issue>)
    requires ListedIsResolved(cfg, snap, issues)
    ensures StillOpen(cfg, snap, issues) == []
  {
    NoneKept(issues, Listing(issues), StuckArgoOp, Active(Findings(cfg, snap), StuckArgoOp));
    assert AfterArgo(cfg, snap, issues) == [];
    assert AfterCreating(cfg, snap, issues) == [];
  }

  lemma FiledBelowNone(cfg: Config, snap: Snapshot, issues: seq<Issue>, f: Finding)
    requires ListedIsResolved(cfg, snap, issues) && Findings(cfg, snap) == [f] && !f.OpFinding?
    requires cfg.maxPerRun >= 1 && cfg.maxOpen >= 1
    ensures FiledRest(cfg, snap, issues) == 1
  {
    NothingStillOpen(cfg, snap, issues);
    AllNew([f], issues);
    OneIsSorted(f, cfg.priority);
    SlotBelow(f, 0, cfg);
    GatherOne(f, IfNotOp);
  }

  lemma NoRestClosed(cfg: Config, snap: Snapshot, issues: seq<Issue>)
    requires ListedIsResolved(cfg, snap, issues)
    ensures ClosedRest(cfg, snap, issues) == {}
  {
  }

  /**
    When every listed issue is about an operation that ended, the run closes them all, takes the
    tracker for empty and files one more, however many issues are open below.
   */
  lemma HiddenIssuesExceed(w: World, cfg: Config, snap: Snapshot, f: Finding, g: Replies)
    requires ListedIsResolved(cfg, snap, w.issues) && |OpenRest(w.issues)| >= cfg.maxOpen >= 1 && cfg.maxPerRun >= 1
    requires Findings(cfg, snap) == [f] && !f.OpFinding? && Completed(w, cfg, snap, g) && NoCapRefusals(g)
    ensures !FitsCeiling(cfg, snap, w.issues)
    ensures |OpenRest(Run(w, cfg, snap, g).issues)| == |OpenRest(w.issues)| + 1
  {
    FiledBelowNone(cfg, snap, w.issues, f);
    NoRestClosed(cfg, snap, w.issues);
    RestBalances(w, cfg, snap, g);
  }

  lemma {:induction false} AllOpenDescending(issues: seq<Issue>, k: nat)
    requires k < |issues| && forall n :: 0 <= n < |issues| ==> issues[n].open
    ensures |OpenIssues(issues)| == |issues| && OpenIssues(issues)[k] == |issues| - 1 - k
  {
    AllOpenAllListed(issues);
    if k > 0 {
      AllOpenDescending(Front(issues), k - 1);
    }
  }

  lemma ListedIsNewest(issues: seq<Issue>, n: nat)
    requires n in Listing(issues) && forall n :: 0 <= n < |issues| ==> issues[n].open
    ensures |issues| - LIST_LIMIT <= n < |issues|
  {
    var k :| 0 <= k < |Listing(issues)| && Listing(issues)[k] == n;
    AllOpenAllListed(issues);
    AllOpenDescending(issues, k);
  }

  /** Open issues about operations of applications that are not reported any more. */
  predicate AllEnded(issues: seq<Issue>) {
    forall n :: 0 <= n < |issues| ==> issues[n].open && FirstKey(issues[n].body, StuckArgoOp).Some?
  }

  lemma RestOfOlder(older: seq<Issue>, newer: seq<Issue>)
    requires Keyless(older) && AllEnded(newer)
    ensures |OpenRest(older + newer)| == |older|
  {
    KeylessRest(older);
    assert OpenRest(older + newer) == OpenRest(older);
  }

  lemma NewerIsListed(cfg: Config, snap: Snapshot, older: seq<Issue>, newer: seq<Issue>)
    requires Keyless(older) && AllEnded(newer) && |newer| == LIST_LIMIT && snap.apps.Some?
    requires Active(Findings(cfg, snap), StuckArgoOp) == {}
    ensures ListedIsResolved(cfg, snap, older + newer)
  {
    var issues := older + newer;
    forall n | n in Listing(issues) ensures Resolved(issues, n, StuckArgoOp, {}) {
      ListedIsNewest(issues, n);
      assert issues[n] == newer[n - |older|];
    }
  }

  function EndedIssue(): Issue {
    IssueFor(OpFinding("old", "t0", ""), false)
  }

  function Older(): seq<Issue> {
    seq(20, _ => Handmade())
  }

  function Newer(): seq<Issue> {
    seq(100, _ => EndedIssue())
  }

  function Buried(): World {
    World(Older() + Newer(), [], 0, true)
  }

  lemma OlderAndNewer()
    ensures Keyless(Older()) && |Older()| == 20 && AllEnded(Newer()) && |Newer()| == LIST_LIMIT
  {
    FirstKeyOfBody(OpFinding("old", "t0", ""), false, StuckArgoOp);
  }

  lemma AllOkNeverRefuses()
    ensures NoCapRefusals(AllOk())
  {
  }

  lemma VolumeListsResolved(cfg: Config, now: real, older: seq<Issue>, newer: seq<Issue>)
    requires Keyless(older) && AllEnded(newer) && |newer| == LIST_LIMIT
    ensures ListedIsResolved(cfg, OneFullVolume(now), older + newer)
  {
    VolumeIsFound(cfg, now);
    NewerIsListed(cfg, OneFullVolume(now), older, newer);
  }

  lemma VolumeOverHidden(w: World, cfg: Config, now: real)
    requires ListedIsResolved(cfg, OneFullVolume(now), w.issues)
    requires |OpenRest(w.issues)| >= cfg.maxOpen >= 1 && cfg.maxPerRun >= 1
    ensures |OpenRest(Run(w, cfg, OneFullVolume(now), AllOk()).issues)| == |OpenRest(w.issues)| + 1
  {
    VolumeIsFound(cfg, now);
    VolumeRunCompletes(w, cfg, now);
    AllOkNeverRefuses();
    HiddenIssuesExceed(w, cfg, OneFullVolume(now), VolumeFinding("db", ""), AllOk());
  }

  lemma FiledOverHidden(w: World, cfg: Config, now: real, older: seq<Issue>, newer: seq<Issue>)
    requires w.issues == older + newer && Keyless(older) && AllEnded(newer) && |newer| == LIST_LIMIT
    requires |older| >= cfg.maxOpen >= 1 && cfg.maxPerRun >= 1
    ensures |OpenRest(w.issues)| == |older|
    ensures |OpenRest(Run(w, cfg, OneFullVolume(now), AllOk()).issues)| == |older| + 1
  {
    RestOfOlder(older, newer);
    VolumeListsResolved(cfg, now, older, newer);
    VolumeOverHidden(w, cfg, now);
  }

  /** Under a ceiling of 20, with 20 issues open below 100 of ended operations, a 21st is filed. */
  lemma TwentyFirstIsFiled()
    ensures |OpenRest(Buried().issues)| == 20 == CONFIG.maxOpen
    ensures |OpenRest(Run(Buried(), CONFIG, OneFullVolume(60.0), AllOk()).issues)| == 21
  {
    OlderAndNewer();
    FiledOverHidden(Buried(), CONFIG, 60.0, Older(), Newer());
  }
}
