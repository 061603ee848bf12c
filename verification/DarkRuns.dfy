/**
  Runs that find one dark node and nothing else: what they plan from an empty tracker, and when
  the node's issue is the only one.
 */
module DarkRuns {
  import opened Common
  import opened DarkLadder
  import opened Detection
  import opened Tracker
  import opened Watchdog
  import opened IssueIndex
  import opened Scenarios

  /** The snapshot shows one dark node and nothing else. */
  predicate OnlyDark(cfg: Config, snap: Snapshot, f: Finding) {
    && f.NodeFinding? && Findings(cfg, snap) == [f]
    && SafeName(f.facts.node) && f.facts.node in UnknownNames(snap.nodes)
    && cfg.maxPerRun >= 1 && cfg.maxOpen >= 1
  }

  function NodeKey(node: string): Key {
    Key(DarkNode, node)
  }

  /** The issue of a dark node, as the watchdog files it, with any thread. */
  function NodeIssue(node: string, comments: seq<Text>): Issue {
    Issue(Some(NodeKey(node)), [KeyMarker(NodeKey(node))], comments, true)
  }

  lemma FiledForNode(f: Finding)
    requires f.NodeFinding?
    ensures IssueFor(f, false) == NodeIssue(f.facts.node, [])
  {
  }

  // ---- The first run ----

  lemma PlanParts(cfg: Config, snap: Snapshot, issues: seq<Issue>, closing: seq<Step>, acting: seq<Step>,
                  filing: seq<Step>)
    requires Findings(cfg, snap) != [] && ClosingSteps(cfg, snap, issues) == closing
    requires ActingSteps(cfg, snap, issues) == acting && FilingSteps(cfg, snap, issues) == filing
    ensures Plan(cfg, snap, issues) == closing + (acting + filing)
  {
  }

  lemma FilingOfOne(cfg: Config, snap: Snapshot, issues: seq<Issue>, f: Finding)
    requires Filed(cfg, snap, issues) == [f]
    ensures FilingSteps(cfg, snap, issues) == [EnsureLabel, File(f)]
  {
    GatherOne(f, FileStep);
  }

  lemma FirstSteps(cfg: Config, snap: Snapshot, f: Finding)
    requires OnlyDark(cfg, snap, f)
    ensures FilingSteps(cfg, snap, []) == [EnsureLabel, File(f)]
  {
    OnlyFindingIsFiled(cfg, snap, [], f);
    FilingOfOne(cfg, snap, [], f);
  }

  lemma FirstPlan(cfg: Config, snap: Snapshot, f: Finding)
    requires OnlyDark(cfg, snap, f)
    ensures Plan(cfg, snap, []) == [EnsureLabel, File(f)]
  {
    NothingOpen(cfg, snap, []);
    FirstSteps(cfg, snap, f);
    PlanParts(cfg, snap, [], [], [], [EnsureLabel, File(f)]);
  }

  // ---- Every later run ----

  lemma NotResolvedYet(node: string, comments: seq<Text>, kind: Kind, active: set<string>)
    requires kind == DarkNode ==> node in active
    ensures !Resolved([NodeIssue(node, comments)], 0, kind, active)
  {
    var body := [KeyMarker(NodeKey(node))];
    assert body[1..] == [];
    assert FirstKey(body, kind) == if kind == DarkNode then Some(node) else None;
  }

  lemma KeptAlone(node: string, comments: seq<Text>, kind: Kind, active: set<string>)
    requires kind == DarkNode ==> node in active
    ensures Kept([NodeIssue(node, comments)], [0], kind, active) == [0]
    ensures Closers([NodeIssue(node, comments)], [0], kind, active) == []
  {
    var issues := [NodeIssue(node, comments)];
    NotResolvedYet(node, comments, kind, active);
    var first: nat := 0;
    GatherOne(first, KeepUnlessResolved(issues, kind, active));
    GatherOne(first, CloseIfResolved(issues, kind, active));
  }

  lemma OnlyListed(issue: Issue)
    requires issue.open
    ensures Listing([issue]) == [0]
  {
    assert Front([issue]) == [];
    assert OpenIssues([issue]) == [0];
  }

  lemma LaterClosing(cfg: Config, snap: Snapshot, node: string, comments: seq<Text>)
    ensures StillOpen(cfg, snap, [NodeIssue(node, comments)]) == [0]
    ensures ClosingSteps(cfg, snap, [NodeIssue(node, comments)]) == []
  {
    var fs := Findings(cfg, snap);
    OnlyListed(NodeIssue(node, comments));
    KeptAlone(node, comments, StuckArgoOp, Active(fs, StuckArgoOp));
    KeptAlone(node, comments, StuckContainerCreating, Active(fs, StuckContainerCreating));
    KeptAlone(node, comments, ChronicCrashloop, Active(fs, ChronicCrashloop));
  }

  lemma LaterMatch(f: Finding, comments: seq<Text>)
    requires f.NodeFinding?
    ensures Duplicates([f], [NodeIssue(f.facts.node, comments)], [0]) == [Tracked(f, 0)]
    ensures NewOnes([f], [NodeIssue(f.facts.node, comments)], [0]) == []
  {
    var issues := [NodeIssue(f.facts.node, comments)];
    assert KeyMarker(f.DedupKey()) == issues[0].body[0];
    assert Match(f, issues, [0]) == Some(0);
    GatherOne(f, TrackedIn(issues, [0]));
    GatherOne(f, UntrackedIn(issues, [0]));
  }

  lemma StepsForOne(f: Finding)
    requires f.NodeFinding?
    ensures Gather([Tracked(f, 0)], InstanceStep) == [] && Gather([Tracked(f, 0)], TerminateStep) == []
    ensures Gather([Tracked(f, 0)], ClimbStep) == [ClimbTracked(0, f.facts)]
  {
    GatherOne(Tracked(f, 0), InstanceStep);
    GatherOne(Tracked(f, 0), TerminateStep);
    GatherOne(Tracked(f, 0), ClimbStep);
  }

  lemma LaterDups(cfg: Config, snap: Snapshot, f: Finding, comments: seq<Text>)
    requires OnlyDark(cfg, snap, f)
    ensures DupsOf(cfg, snap, [NodeIssue(f.facts.node, comments)]) == [Tracked(f, 0)]
    ensures OrderedNew(cfg, snap, [NodeIssue(f.facts.node, comments)]) == []
  {
    LaterClosing(cfg, snap, f.facts.node, comments);
    LaterMatch(f, comments);
  }

  lemma LaterActing(cfg: Config, snap: Snapshot, f: Finding, comments: seq<Text>)
    requires OnlyDark(cfg, snap, f)
    ensures ActingSteps(cfg, snap, [NodeIssue(f.facts.node, comments)]) == [ClimbTracked(0, f.facts)]
  {
    LaterClosing(cfg, snap, f.facts.node, comments);
    LaterDups(cfg, snap, f, comments);
    StepsForOne(f);
    KeptAlone(f.facts.node, comments, DarkNode, UnknownNames(snap.nodes));
  }

  lemma NothingToFile(openCount: nat, cfg: Config)
    ensures ToFile([], openCount, cfg) == []
  {
  }

  lemma LaterFiling(cfg: Config, snap: Snapshot, f: Finding, comments: seq<Text>)
    requires OnlyDark(cfg, snap, f)
    ensures FilingSteps(cfg, snap, [NodeIssue(f.facts.node, comments)]) == []
  {
    LaterDups(cfg, snap, f, comments);
    NothingToFile(|StillOpen(cfg, snap, [NodeIssue(f.facts.node, comments)])|, cfg);
  }

  lemma LaterPlan(cfg: Config, snap: Snapshot, f: Finding, comments: seq<Text>)
    requires OnlyDark(cfg, snap, f)
    ensures Plan(cfg, snap, [NodeIssue(f.facts.node, comments)]) == [ClimbTracked(0, f.facts)]
  {
    LaterClosing(cfg, snap, f.facts.node, comments);
    LaterActing(cfg, snap, f, comments);
    LaterFiling(cfg, snap, f, comments);
    PlanParts(cfg, snap, [NodeIssue(f.facts.node, comments)], [], [ClimbTracked(0, f.facts)], []);
  }

  lemma ClimbActs(w: World, n: nat, facts: DarkFacts, cfg: LadderConfig, now: real, g: Replies)
    requires w.alive && n < |w.issues| && Read(w, g).alive
    ensures RunClimb(w, n, facts, cfg, now, g)
            == Act(Read(w, g), n, facts, ThreadState(w.issues[n].comments), cfg, now, g)
  {
  }

  // ---- Runs in which every call succeeds ----

  /** The only issue is that of the node, and its thread holds this state. */
  predicate Watching(w: World, node: string, s: LadderState) {
    |w.issues| == 1 && w.issues[0] == NodeIssue(node, w.issues[0].comments) && ThreadState(w.issues[0].comments) == s
  }

  predicate Dispatches(d: Decision) {
    d.action.Reboot? || d.action.Reinstall?
  }

  function Done(action: Action, facts: DarkFacts, now: real): seq<Event> {
    [Sent(0, action, facts, now), Recorded(0, action, facts, now)]
  }

  lemma NextThreadState(comments: seq<Text>, s: LadderState)
    ensures ThreadState(comments + [[StateMarker(Render(s))]]) == s
  {
    var text := [StateMarker(Render(s))];
    MarksConcat(comments, [text]);
    assert Marks([text]) == [Render(s)];
    RenderThenRead(DEFAULT_STATE, Marks(comments), s);
  }

  /** A decision that is dispatched and recorded. */
  lemma ActIsRecorded(w: World, facts: DarkFacts, s: LadderState, cfg: LadderConfig, now: real)
    requires w.alive && SafeName(facts.node) && Watching(w, facts.node, s) && Dispatches(Decide(facts, s, cfg, now))
    ensures var d := Decide(facts, s, cfg, now);
            var v := Act(w, 0, facts, s, cfg, now, AllOk());
            Watching(v, facts.node, d.state) && v.log == w.log + Done(d.action, facts, now)
  {
    var d := Decide(facts, s, cfg, now);
    NextThreadState(w.issues[0].comments, d.state);
    assert w.log + [Sent(0, d.action, facts, now)] + [Recorded(0, d.action, facts, now)]
        == w.log + Done(d.action, facts, now);
  }

  lemma ReadOk(w: World)
    requires w.alive
    ensures var v := Read(w, AllOk()); v.alive && v.issues == w.issues && v.log == w.log
  {
  }

  lemma ClimbIsRecorded(w: World, facts: DarkFacts, s: LadderState, cfg: LadderConfig, now: real)
    requires w.alive && SafeName(facts.node) && Watching(w, facts.node, s) && Dispatches(Decide(facts, s, cfg, now))
    ensures var d := Decide(facts, s, cfg, now);
            var v := RunClimb(w, 0, facts, cfg, now, AllOk());
            Watching(v, facts.node, d.state) && v.log == w.log + Done(d.action, facts, now)
  {
    ReadOk(w);
    ClimbActs(w, 0, facts, cfg, now, AllOk());
    ActIsRecorded(Read(w, AllOk()), facts, s, cfg, now);
  }

  lemma ListThenClimb(w: World, cfg: Config, facts: DarkFacts, s: LadderState, now: real)
    requires w.alive && SafeName(facts.node) && Watching(w, facts.node, s)
    requires Dispatches(Decide(facts, s, cfg.ladder, now))
    ensures var d := Decide(facts, s, cfg.ladder, now);
            var v := Exec(Read(w, AllOk()), ClimbTracked(0, facts), cfg, now, AllOk());
            Watching(v, facts.node, d.state) && v.log == w.log + Done(d.action, facts, now)
  {
    ReadOk(w);
    ClimbIsRecorded(Read(w, AllOk()), facts, s, cfg.ladder, now);
  }

  lemma LaterIsOneStep(w: World, cfg: Config, snap: Snapshot, f: Finding, s: LadderState)
    requires OnlyDark(cfg, snap, f) && Watching(w, f.facts.node, s)
    ensures Run(w, cfg, snap, AllOk())
            == Exec(Read(w.(alive := true), AllOk()), ClimbTracked(0, f.facts), cfg, snap.now, AllOk())
  {
    assert w.issues == [NodeIssue(f.facts.node, w.issues[0].comments)];
    LaterPlan(cfg, snap, f, w.issues[0].comments);
    OneStepRun(w, cfg, snap, ClimbTracked(0, f.facts), AllOk());
  }

  /** A run on a tracked node dispatches and records what the state in its thread decides. */
  lemma LaterRunActs(w: World, cfg: Config, snap: Snapshot, f: Finding, s: LadderState)
    requires OnlyDark(cfg, snap, f) && Watching(w, f.facts.node, s)
    requires Dispatches(Decide(f.facts, s, cfg.ladder, snap.now))
    ensures var d := Decide(f.facts, s, cfg.ladder, snap.now);
            var v := Run(w, cfg, snap, AllOk());
            Watching(v, f.facts.node, d.state) && v.log == w.log + Done(d.action, f.facts, snap.now)
  {
    LaterIsOneStep(w, cfg, snap, f, s);
    ListThenClimb(w.(alive := true), cfg, f.facts, s, snap.now);
  }

  lemma FilingActs(w: World, cfg: Config, f: Finding, now: real)
    requires f.NodeFinding? && SafeName(f.facts.node) && w.alive && w.issues == []
    requires Dispatches(Decide(f.facts, DEFAULT_STATE, cfg.ladder, now))
    ensures var d := Decide(f.facts, DEFAULT_STATE, cfg.ladder, now);
            var v := RunFile(w, f, cfg, now, AllOk());
            Watching(v, f.facts.node, d.state) && v.log == w.log + Done(d.action, f.facts, now)
  {
    FiledForNode(f);
    assert Marks([]) == [];
    ActIsRecorded(Create(w, IssueFor(f, false), AllOk()), f.facts, DEFAULT_STATE, cfg.ladder, now);
  }

  lemma LabelThenFiling(w: World, cfg: Config, f: Finding, now: real)
    requires f.NodeFinding? && SafeName(f.facts.node) && w.alive && w.issues == []
    requires Dispatches(Decide(f.facts, DEFAULT_STATE, cfg.ladder, now))
    ensures var d := Decide(f.facts, DEFAULT_STATE, cfg.ladder, now);
            var v := Exec(Exec(Read(w, AllOk()), EnsureLabel, cfg, now, AllOk()), File(f), cfg, now, AllOk());
            Watching(v, f.facts.node, d.state) && v.log == w.log + Done(d.action, f.facts, now)
  {
    FilingActs(Tolerated(Read(w, AllOk()), AllOk()), cfg, f, now);
  }

  lemma FirstIsTwoSteps(w: World, cfg: Config, snap: Snapshot, f: Finding)
    requires OnlyDark(cfg, snap, f) && w.issues == []
    ensures Run(w, cfg, snap, AllOk())
            == Exec(Exec(Read(w.(alive := true), AllOk()), EnsureLabel, cfg, snap.now, AllOk()),
                    File(f), cfg, snap.now, AllOk())
  {
    FirstPlan(cfg, snap, f);
    TwoStepRun(w, cfg, snap, EnsureLabel, File(f), AllOk());
  }

  /** The run that files the node's issue takes the first rung. */
  lemma FirstRunActs(w: World, cfg: Config, snap: Snapshot, f: Finding)
    requires OnlyDark(cfg, snap, f) && w.issues == []
    requires Dispatches(Decide(f.facts, DEFAULT_STATE, cfg.ladder, snap.now))
    ensures var d := Decide(f.facts, DEFAULT_STATE, cfg.ladder, snap.now);
            var v := Run(w, cfg, snap, AllOk());
            Watching(v, f.facts.node, d.state) && v.log == w.log + Done(d.action, f.facts, snap.now)
  {
    FirstIsTwoSteps(w, cfg, snap, f);
    LabelThenFiling(w.(alive := true), cfg, f, snap.now);
  }
}
