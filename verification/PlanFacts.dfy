/** What the steps of a plan are: which issues and findings each kind of step concerns. */
module PlanFacts {
  import opened Common
  import opened DarkLadder
  import opened Detection
  import opened Tracker
  import opened Watchdog
  import Sorting

  lemma OrderedMember(findings: seq<Finding>, priority: seq<Kind>, f: Finding)
    ensures f in Prioritize(findings, priority) <==> f in findings
  {
    assert f in multiset(Prioritize(findings, priority)) <==> f in multiset(findings);
  }

  lemma ToFileMember(ordered: seq<Finding>, openCount: nat, cfg: Config, f: Finding)
    requires f in ToFile(ordered, openCount, cfg)
    ensures f in ordered
  {
    GatherMember(ordered, IfOp, f);
    GatherMember(ordered, IfNotOp, f);
  }

  /** Only findings that no listed issue tracks are filed. */
  lemma FiledIsNew(cfg: Config, snap: Snapshot, issues: seq<Issue>, f: Finding)
    requires f in Filed(cfg, snap, issues)
    ensures f in Findings(cfg, snap) && Match(f, issues, StillOpen(cfg, snap, issues)).None?
  {
    var still := StillOpen(cfg, snap, issues);
    ToFileMember(OrderedNew(cfg, snap, issues), |still|, cfg, f);
    OrderedMember(NewOnes(Findings(cfg, snap), issues, still), cfg.priority, f);
    NewSound(Findings(cfg, snap), issues, still, f);
  }

  /** The issue's key of this kind is no longer active. */
  predicate Closable(n: nat, kind: Kind, active: set<string>, issues: seq<Issue>) {
    n in Listing(issues) && Resolved(issues, n, kind, active)
  }

  predicate PlannedClose(n: nat, cfg: Config, snap: Snapshot, issues: seq<Issue>) {
    var fs := Findings(cfg, snap);
    || (snap.apps.Some? && Closable(n, StuckArgoOp, Active(fs, StuckArgoOp), issues))
    || Closable(n, StuckContainerCreating, Active(fs, StuckContainerCreating), issues)
    || Closable(n, ChronicCrashloop, Active(fs, ChronicCrashloop), issues)
    || (fs != [] && Closable(n, DarkNode, UnknownNames(snap.nodes), issues))
  }

  predicate Planned(step: Step, cfg: Config, snap: Snapshot, issues: seq<Issue>) {
    match step
    case CloseResolved(n) => PlannedClose(n, cfg, snap, issues)
    case UpdateInstance(n, pod) =>
      exists d :: d in DupsOf(cfg, snap, issues) && d.issue == n && InstanceStep(d) == [step]
    case TerminateTracked(n, app, startedAt) =>
      cfg.autoTerminate && exists d :: d in DupsOf(cfg, snap, issues) && d.issue == n && TerminateStep(d) == [step]
    case ClimbTracked(n, facts) =>
      exists d :: d in DupsOf(cfg, snap, issues) && d.issue == n && ClimbStep(d) == [step]
    case EnsureLabel => true
    case File(f) => f in Filed(cfg, snap, issues)
  }

  lemma KeptIsListed(cfg: Config, snap: Snapshot, issues: seq<Issue>, n: nat)
    ensures n in AfterArgo(cfg, snap, issues) ==> n in Listing(issues)
    ensures n in AfterCreating(cfg, snap, issues) ==> n in Listing(issues)
    ensures n in StillOpen(cfg, snap, issues) ==> n in Listing(issues)
  {
    var fs := Findings(cfg, snap);
    KeptExact(issues, Listing(issues), StuckArgoOp, Active(fs, StuckArgoOp), n);
    KeptExact(issues, AfterArgo(cfg, snap, issues), StuckContainerCreating, Active(fs, StuckContainerCreating), n);
    KeptExact(issues, AfterCreating(cfg, snap, issues), ChronicCrashloop, Active(fs, ChronicCrashloop), n);
  }

  /** Closing steps close resolved issues of the list they were given, and all of them. */
  lemma CloserMember(issues: seq<Issue>, listed: seq<nat>, kind: Kind, active: set<string>, step: Step)
    ensures step in Closers(issues, listed, kind, active)
            <==> step.CloseResolved? && step.issue in listed && Resolved(issues, step.issue, kind, active)
  {
    GatherMember(listed, CloseIfResolved(issues, kind, active), step);
    if step.CloseResolved? && step.issue in listed && Resolved(issues, step.issue, kind, active) {
      var i :| 0 <= i < |listed| && listed[i] == step.issue;
      assert step in CloseIfResolved(issues, kind, active)(listed[i]);
    }
  }

  lemma ClosingStepPlanned(step: Step, cfg: Config, snap: Snapshot, issues: seq<Issue>)
    requires step in ClosingSteps(cfg, snap, issues)
    ensures step.CloseResolved? && PlannedClose(step.issue, cfg, snap, issues)
  {
    var fs := Findings(cfg, snap);
    CloserMember(issues, Listing(issues), StuckArgoOp, Active(fs, StuckArgoOp), step);
    CloserMember(issues, AfterArgo(cfg, snap, issues), StuckContainerCreating, Active(fs, StuckContainerCreating),
                 step);
    CloserMember(issues, AfterCreating(cfg, snap, issues), ChronicCrashloop, Active(fs, ChronicCrashloop), step);
    if step.CloseResolved? {
      KeptIsListed(cfg, snap, issues, step.issue);
    }
  }

  lemma InstancePlanned(step: Step, cfg: Config, snap: Snapshot, issues: seq<Issue>)
    requires step in Gather(DupsOf(cfg, snap, issues), InstanceStep)
    ensures Planned(step, cfg, snap, issues)
  {
    InstanceFrom(DupsOf(cfg, snap, issues), step);
  }

  lemma InstanceFrom(dups: seq<Tracked>, step: Step)
    requires step in Gather(dups, InstanceStep)
    ensures step.UpdateInstance? && exists d :: d in dups && d.issue == step.issue && InstanceStep(d) == [step]
  {
    GatherMember(dups, InstanceStep, step);
    var i :| 0 <= i < |dups| && step in InstanceStep(dups[i]);
    assert dups[i] in dups;
  }

  lemma TerminatePlanned(step: Step, cfg: Config, snap: Snapshot, issues: seq<Issue>)
    requires step in Gather(DupsOf(cfg, snap, issues), TerminateStep) && cfg.autoTerminate
    ensures Planned(step, cfg, snap, issues)
  {
    TerminateFrom(DupsOf(cfg, snap, issues), step);
  }

  lemma TerminateFrom(dups: seq<Tracked>, step: Step)
    requires step in Gather(dups, TerminateStep)
    ensures step.TerminateTracked? && exists d :: d in dups && d.issue == step.issue && TerminateStep(d) == [step]
  {
    GatherMember(dups, TerminateStep, step);
    var i :| 0 <= i < |dups| && step in TerminateStep(dups[i]);
    assert dups[i] in dups;
  }

  lemma ClimbPlanned(step: Step, cfg: Config, snap: Snapshot, issues: seq<Issue>)
    requires step in Gather(DupsOf(cfg, snap, issues), ClimbStep)
    ensures Planned(step, cfg, snap, issues)
  {
    ClimbFrom(DupsOf(cfg, snap, issues), step);
  }

  lemma ClimbFrom(dups: seq<Tracked>, step: Step)
    requires step in Gather(dups, ClimbStep)
    ensures step.ClimbTracked? && exists d :: d in dups && d.issue == step.issue && ClimbStep(d) == [step]
  {
    GatherMember(dups, ClimbStep, step);
    var i :| 0 <= i < |dups| && step in ClimbStep(dups[i]);
    assert dups[i] in dups;
  }

  lemma DarkClosePlanned(step: Step, cfg: Config, snap: Snapshot, issues: seq<Issue>)
    requires step in Closers(issues, StillOpen(cfg, snap, issues), DarkNode, UnknownNames(snap.nodes))
    requires Findings(cfg, snap) != []
    ensures Planned(step, cfg, snap, issues)
  {
    CloserMember(issues, StillOpen(cfg, snap, issues), DarkNode, UnknownNames(snap.nodes), step);
    KeptIsListed(cfg, snap, issues, step.issue);
  }

  lemma ActingStepPlanned(step: Step, cfg: Config, snap: Snapshot, issues: seq<Issue>)
    requires step in ActingSteps(cfg, snap, issues) && Findings(cfg, snap) != []
    ensures Planned(step, cfg, snap, issues)
  {
    var dups := DupsOf(cfg, snap, issues);
    if step in Gather(dups, InstanceStep) {
      InstancePlanned(step, cfg, snap, issues);
    } else if step in Gather(dups, ClimbStep) {
      ClimbPlanned(step, cfg, snap, issues);
    } else if cfg.autoTerminate && step in Gather(dups, TerminateStep) {
      TerminatePlanned(step, cfg, snap, issues);
    } else {
      DarkClosePlanned(step, cfg, snap, issues);
    }
  }

  lemma FilingStepPlanned(step: Step, cfg: Config, snap: Snapshot, issues: seq<Issue>)
    requires step in FilingSteps(cfg, snap, issues)
    ensures step == EnsureLabel || (step.File? && step.finding in Filed(cfg, snap, issues))
  {
    GatherMember(Filed(cfg, snap, issues), FileStep, step);
  }

  lemma StepPlanned(step: Step, cfg: Config, snap: Snapshot, issues: seq<Issue>)
    requires step in Plan(cfg, snap, issues)
    ensures Planned(step, cfg, snap, issues)
  {
    if step in ClosingSteps(cfg, snap, issues) {
      ClosingStepPlanned(step, cfg, snap, issues);
    } else if step in ActingSteps(cfg, snap, issues) {
      ActingStepPlanned(step, cfg, snap, issues);
    } else {
      FilingStepPlanned(step, cfg, snap, issues);
    }
  }

  /** The finding and the issue a tracked pair stands for. */
  lemma DupFacts(d: Tracked, cfg: Config, snap: Snapshot, issues: seq<Issue>)
    requires d in DupsOf(cfg, snap, issues)
    ensures d.finding in Findings(cfg, snap) && d.issue < |issues|
    ensures d.issue in StillOpen(cfg, snap, issues) && Tracks(issues[d.issue], d.finding.DedupKey())
  {
    DuplicateSound(Findings(cfg, snap), issues, StillOpen(cfg, snap, issues), d);
    MatchSound(d.finding, issues, StillOpen(cfg, snap, issues));
  }
}
