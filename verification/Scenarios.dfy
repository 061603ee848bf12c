/**
  Concrete situations: a usual configuration, replies that all succeed, and what a run does
  when nothing is open. They give the inputs at which the narrower promises fail.
 */
module Scenarios {
  import opened Common
  import opened DarkLadder
  import opened Detection
  import opened Tracker
  import opened Watchdog
  import opened PlanFacts
  import opened RunFacts
  import opened IssueIndex
  import Sorting

  const LADDER := LadderConfig(true, true, 2, 30.0, 120.0, true, 2)
  const CONFIG := Config(true, 45.0, true, LADDER, 10.0, {}, 10, 20, [])

  function AllOk(): Replies {
    (i: nat) => Ok
  }

  // ---- Runs in which every call succeeds ----

  /** The names a step may dispatch for are ones the dispatch accepts. */
  predicate SafeStep(step: Step) {
    && (step.TerminateTracked? ==> SafeName(step.app))
    && (step.ClimbTracked? ==> SafeName(step.facts.node))
    && (step.File? ==> SafeFinding(step.finding))
  }

  predicate SafeFinding(f: Finding) {
    (f.OpFinding? ==> SafeName(f.app)) && (f.NodeFinding? ==> SafeName(f.facts.node))
  }

  lemma ActStaysAlive(w: World, n: nat, facts: DarkFacts, state: LadderState, cfg: LadderConfig, now: real)
    requires w.alive && SafeName(facts.node)
    ensures Act(w, n, facts, state, cfg, now, AllOk()).alive
  {
  }

  lemma StepStaysAlive(w: World, step: Step, cfg: Config, now: real)
    requires w.alive && SafeStep(step)
    ensures Exec(w, step, cfg, now, AllOk()).alive
  {
    match step
    case CloseResolved(n) =>
    case UpdateInstance(n, pod) =>
    case TerminateTracked(n, app, s) =>
    case ClimbTracked(n, facts) =>
      if n < |w.issues| {
        ActStaysAlive(Read(w, AllOk()), n, facts, ThreadState(w.issues[n].comments), cfg.ladder, now);
      }
    case EnsureLabel =>
    case File(f) =>
      if f.NodeFinding? {
        ActStaysAlive(Create(w, IssueFor(f, false), AllOk()), |w.issues|, f.facts, DEFAULT_STATE, cfg.ladder, now);
      }
  }

  lemma {:induction false} StepsStayAlive(w: World, steps: seq<Step>, cfg: Config, now: real)
    requires w.alive && forall t :: t in steps ==> SafeStep(t)
    ensures ExecAll(w, steps, cfg, now, AllOk()).alive
  {
    if steps != [] {
      StepsStayAlive(w, Front(steps), cfg, now);
      assert Last(steps) in steps;
      StepStaysAlive(ExecAll(w, Front(steps), cfg, now, AllOk()), Last(steps), cfg, now);
    }
  }

  lemma PlanIsSafe(step: Step, cfg: Config, snap: Snapshot, issues: seq<Issue>)
    requires forall f :: f in Findings(cfg, snap) ==> SafeFinding(f)
    requires step in Plan(cfg, snap, issues)
    ensures SafeStep(step)
  {
    StepPlanned(step, cfg, snap, issues);
    if step.TerminateTracked? {
      var d :| d in DupsOf(cfg, snap, issues) && d.issue == step.issue && TerminateStep(d) == [step];
      DupFacts(d, cfg, snap, issues);
    } else if step.ClimbTracked? {
      var d :| d in DupsOf(cfg, snap, issues) && d.issue == step.issue && ClimbStep(d) == [step];
      DupFacts(d, cfg, snap, issues);
    } else if step.File? {
      FiledIsNew(cfg, snap, issues, step.finding);
    }
  }

  /** A run completes when every call succeeds and every name is one the dispatches accept. */
  lemma RunCompletes(w: World, cfg: Config, snap: Snapshot)
    requires forall f :: f in Findings(cfg, snap) ==> SafeFinding(f)
    ensures Completed(w, cfg, snap, AllOk())
  {
    forall t | t in Plan(cfg, snap, w.issues) ensures SafeStep(t) {
      PlanIsSafe(t, cfg, snap, w.issues);
    }
    StepsStayAlive(Read(w.(alive := true), AllOk()), Plan(cfg, snap, w.issues), cfg, snap.now);
  }

  // ---- Runs that find nothing open ----

  lemma {:induction false} AllNew(fs: seq<Finding>, issues: seq<Issue>)
    ensures NewOnes(fs, issues, []) == fs && Duplicates(fs, issues, []) == []
  {
    if fs != [] {
      AllNew(Front(fs), issues);
    }
  }

  lemma NothingOpen(cfg: Config, snap: Snapshot, issues: seq<Issue>)
    requires OpenIssues(issues) == []
    ensures StillOpen(cfg, snap, issues) == [] && DupsOf(cfg, snap, issues) == []
    ensures ClosingSteps(cfg, snap, issues) == [] && ActingSteps(cfg, snap, issues) == []
    ensures OrderedNew(cfg, snap, issues) == Prioritize(Findings(cfg, snap), cfg.priority)
  {
    assert Listing(issues) == [];
    assert AfterArgo(cfg, snap, issues) == [];
    assert AfterCreating(cfg, snap, issues) == [];
    assert StillOpen(cfg, snap, issues) == [];
    AllNew(Findings(cfg, snap), issues);
  }

  /** The only finding of a run is filed when nothing is open. */
  lemma OnlyFindingIsFiled(cfg: Config, snap: Snapshot, issues: seq<Issue>, f: Finding)
    requires OpenIssues(issues) == [] && Findings(cfg, snap) == [f] && cfg.maxPerRun >= 1 && cfg.maxOpen >= 1
    ensures Filed(cfg, snap, issues) == [f]
  {
    NothingOpen(cfg, snap, issues);
    OneIsSorted(f, cfg.priority);
    OneIsFiled(f, cfg);
  }

  lemma OneIsFiled(f: Finding, cfg: Config)
    requires cfg.maxPerRun >= 1 && cfg.maxOpen >= 1
    ensures ToFile([f], 0, cfg) == [f]
  {
    GatherOne(f, IfOp);
    GatherOne(f, IfNotOp);
  }

  lemma OneIsSorted(f: Finding, priority: seq<Kind>)
    ensures Prioritize([f], priority) == [f]
  {
    assert Front([f]) == [];
    var le := (a, b) => RanksBefore(Order(priority), a, b);
    assert Sorting.Sort([f], le) == Sorting.Insert(Sorting.Sort([], le), f, le);
  }

  // ---- Runs with short plans ----

  lemma OneStepRun(w: World, cfg: Config, snap: Snapshot, step: Step, g: Replies)
    requires Plan(cfg, snap, w.issues) == [step]
    ensures Run(w, cfg, snap, g) == Exec(Read(w.(alive := true), g), step, cfg, snap.now, g)
  {
    OneStep(Read(w.(alive := true), g), step, cfg, snap.now, g);
  }

  lemma OneStep(w: World, step: Step, cfg: Config, now: real, g: Replies)
    ensures ExecAll(w, [step], cfg, now, g) == Exec(w, step, cfg, now, g)
  {
    assert Front([step]) == [];
  }

  lemma TwoStepRun(w: World, cfg: Config, snap: Snapshot, a: Step, b: Step, g: Replies)
    requires Plan(cfg, snap, w.issues) == [a, b]
    ensures Run(w, cfg, snap, g) == Exec(Exec(Read(w.(alive := true), g), a, cfg, snap.now, g), b, cfg, snap.now, g)
  {
    var start := Read(w.(alive := true), g);
    assert Front([a, b]) == [a];
    OneStep(start, a, cfg, snap.now, g);
  }

  // ---- Lengths of lists ----

  lemma {:induction false} NoMoreOpenThanIssues(issues: seq<Issue>)
    ensures |OpenIssues(issues)| <= |issues|
  {
    if issues != [] {
      NoMoreOpenThanIssues(Front(issues));
    }
  }

  lemma {:induction false} AllOpenAllListed(issues: seq<Issue>)
    requires forall n :: 0 <= n < |issues| ==> issues[n].open
    ensures |OpenIssues(issues)| == |issues|
  {
    if issues != [] {
      AllOpenAllListed(Front(issues));
    }
  }

  // ---- A dark node ----

  const NODE := Node("vmi1", true, [Condition("Ready", "Unknown", Some(0.0), None)], "")

  function DarkSnap(now: real): Snapshot {
    Snapshot(now, Some([]), [NODE], [], [], [])
  }

  lemma NodeIsDark(now: real)
    requires now > 10.0
    ensures Findings(CONFIG, DarkSnap(now)) == [NodeFinding(DarkFactsOf(NODE, 0, now), "")]
    ensures "vmi1" in UnknownNames([NODE])
  {
    var snap := DarkSnap(now);
    assert HasStatus(NODE, "Ready", "Unknown");
    StatusIsFirst(NODE, "Ready", "Unknown");
    StatusIsFirst(NODE, "Ready", "True");
    assert CountReady([NODE]) == 0 by {
      UnknownIsNotReady(NODE);
      assert Front([NODE]) == [];
    }
    var piece := DarkIfLong(0, CONFIG, now);
    assert Front([NODE]) == [];
    assert Gather([NODE], piece) == Gather([], piece) + piece(NODE);
    assert StuckOps(AppsOf(snap), CONFIG, now) == [] && CrashFindings(snap.crashes) == [];
    assert CreatingFindings(snap.creating) == [] && VolumeFindings(snap.volumes) == [];
    assert [NODE][0].name in UnknownNames([NODE]);
  }

  lemma NodeNameIsSafe()
    ensures SafeName("vmi1")
  {
    assert SafeCore("vmi1");
  }
}
