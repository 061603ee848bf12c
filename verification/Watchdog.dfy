/**
  One run of the watchdog. What a run will do follows from its snapshot and from the list of
  open issues it fetches first, so a run is a plan of steps; each step then makes calls that
  may fail, and reads the threads it needs as it goes.
 */
module Watchdog {
  import opened Common
  import opened DarkLadder
  import opened Detection
  import opened Tracker
  import Sorting

  const LIST_LIMIT := 100

  // ---- The plan ----

  datatype Step =
    | CloseResolved(issue: nat)
    | UpdateInstance(issue: nat, pod: string)
    | TerminateTracked(issue: nat, app: string, startedAt: string)
    | ClimbTracked(issue: nat, facts: DarkFacts)
    | EnsureLabel
    | File(finding: Finding)

  /** Open issues, newest first. */
  function OpenIssues(issues: seq<Issue>): seq<nat> {
    if issues == [] then []
    else (if Last(issues).open then [|issues| - 1] else []) + OpenIssues(Front(issues))
  }

  function Take<T>(s: seq<T>, n: nat): seq<T> {
    if n <= |s| then s[..n] else s
  }

  function Listing(issues: seq<Issue>): seq<nat> {
    Take(OpenIssues(issues), LIST_LIMIT)
  }

  /** The issue carries a key of this kind whose subject is not active any more. */
  predicate Resolved(issues: seq<Issue>, n: nat, kind: Kind, active: set<string>) {
    n < |issues| && FirstKey(issues[n].body, kind).Some? && FirstKey(issues[n].body, kind).value !in active
  }

  function KeepUnlessResolved(issues: seq<Issue>, kind: Kind, active: set<string>): nat -> seq<nat> {
    (n: nat) => if Resolved(issues, n, kind, active) then [] else [n]
  }

  function CloseIfResolved(issues: seq<Issue>, kind: Kind, active: set<string>): nat -> seq<Step> {
    (n: nat) => if Resolved(issues, n, kind, active) then [CloseResolved(n)] else []
  }

  function Kept(issues: seq<Issue>, listed: seq<nat>, kind: Kind, active: set<string>): seq<nat> {
    Gather(listed, KeepUnlessResolved(issues, kind, active))
  }

  function Closers(issues: seq<Issue>, listed: seq<nat>, kind: Kind, active: set<string>): seq<Step> {
    Gather(listed, CloseIfResolved(issues, kind, active))
  }

  function Active(findings: seq<Finding>, kind: Kind): set<string> {
    set f | f in findings && f.Kind() == kind :: f.Subject()
  }

  /** The first listed issue that carries the finding's marker or its exact title. */
  function Match(f: Finding, issues: seq<Issue>, listed: seq<nat>): Option<nat> {
    if listed == [] then None
    else if listed[0] < |issues| && Tracks(issues[listed[0]], f.DedupKey()) then Some(listed[0])
    else Match(f, issues, listed[1..])
  }

  datatype Tracked = Tracked(finding: Finding, issue: nat)

  function TrackedIn(issues: seq<Issue>, listed: seq<nat>): Finding -> seq<Tracked> {
    f => var m := Match(f, issues, listed); if m.Some? then [Tracked(f, m.value)] else []
  }

  function UntrackedIn(issues: seq<Issue>, listed: seq<nat>): Finding -> seq<Finding> {
    f => if Match(f, issues, listed).None? then [f] else []
  }

  function Duplicates(findings: seq<Finding>, issues: seq<Issue>, listed: seq<nat>): seq<Tracked> {
    Gather(findings, TrackedIn(issues, listed))
  }

  function NewOnes(findings: seq<Finding>, issues: seq<Issue>, listed: seq<nat>): seq<Finding> {
    Gather(findings, UntrackedIn(issues, listed))
  }

  function InstanceStep(d: Tracked): seq<Step> {
    if (d.finding.CreatingFinding? || d.finding.CrashFinding?) && d.finding.pod != ""
    then [UpdateInstance(d.issue, d.finding.pod)] else []
  }

  function TerminateStep(d: Tracked): seq<Step> {
    if d.finding.OpFinding? then [TerminateTracked(d.issue, d.finding.app, d.finding.startedAt)] else []
  }

  function ClimbStep(d: Tracked): seq<Step> {
    if d.finding.NodeFinding? then [ClimbTracked(d.issue, d.finding.facts)] else []
  }

  // ---- Filing order and caps ----

  const DEFAULT_PRIORITY := [StuckArgoOp, DarkNode, PvcNearingFull, StuckContainerCreating, ChronicCrashloop]

  function Position(order: seq<Kind>, kind: Kind): nat {
    if order == [] || order[0] == kind then 0 else 1 + Position(order[1..], kind)
  }

  function KindName(kind: Kind): string {
    match kind
    case StuckArgoOp => "stuck-argo-op"
    case DarkNode => "dark-node"
    case PvcNearingFull => "pvc-nearing-full"
    case StuckContainerCreating => "stuck-containercreating"
    case ChronicCrashloop => "chronic-crashloop"
  }

  function KeyText(key: Key): string {
    KindName(key.kind) + ":" + key.subject
  }

  predicate RanksBefore(order: seq<Kind>, a: Finding, b: Finding) {
    var pa, pb := Position(order, a.Kind()), Position(order, b.Kind());
    pa < pb || (pa == pb && Sorting.StrLe(KeyText(a.DedupKey()), KeyText(b.DedupKey())))
  }

  function Order(priority: seq<Kind>): seq<Kind> {
    if priority == [] then DEFAULT_PRIORITY else priority
  }

  function Prioritize(findings: seq<Finding>, priority: seq<Kind>): seq<Finding> {
    Sorting.Sort(findings, (a, b) => RanksBefore(Order(priority), a, b))
  }

  function IfOp(f: Finding): seq<Finding> {
    if f.OpFinding? then [f] else []
  }

  function IfNotOp(f: Finding): seq<Finding> {
    if f.OpFinding? then [] else [f]
  }

  function RestSlots(ops: nat, openCount: nat, cfg: Config): nat {
    Max(0, Min(cfg.maxPerRun - ops, cfg.maxOpen - openCount))
  }

  /** Argo findings first and exempt from the ceiling on open issues; the rest in what is left. */
  function ToFile(ordered: seq<Finding>, openCount: nat, cfg: Config): seq<Finding> {
    var ops := Take(Gather(ordered, IfOp), cfg.maxPerRun);
    ops + Take(Gather(ordered, IfNotOp), RestSlots(|ops|, openCount, cfg))
  }

  function NotIn(filed: seq<Finding>): Finding -> seq<Finding> {
    f => if f in filed then [] else [f]
  }

  /** What is reported but not filed: the findings not equal to any filed one. */
  function Overflow(ordered: seq<Finding>, filed: seq<Finding>): seq<Finding> {
    Gather(ordered, NotIn(filed))
  }

  function FileStep(f: Finding): seq<Step> {
    [File(f)]
  }

  /** The listed issues after the Argo closing phase, skipped when the cluster gave no list. */
  function AfterArgo(cfg: Config, snap: Snapshot, issues: seq<Issue>): seq<nat> {
    if snap.apps.Some? then Kept(issues, Listing(issues), StuckArgoOp, Active(Findings(cfg, snap), StuckArgoOp))
    else Listing(issues)
  }

  function AfterCreating(cfg: Config, snap: Snapshot, issues: seq<Issue>): seq<nat> {
    Kept(issues, AfterArgo(cfg, snap, issues), StuckContainerCreating,
         Active(Findings(cfg, snap), StuckContainerCreating))
  }

  /** The issues a run still treats as open after its closing phases. */
  function StillOpen(cfg: Config, snap: Snapshot, issues: seq<Issue>): seq<nat> {
    Kept(issues, AfterCreating(cfg, snap, issues), ChronicCrashloop, Active(Findings(cfg, snap), ChronicCrashloop))
  }

  function ClosingSteps(cfg: Config, snap: Snapshot, issues: seq<Issue>): seq<Step> {
    var fs := Findings(cfg, snap);
    (if snap.apps.Some? then Closers(issues, Listing(issues), StuckArgoOp, Active(fs, StuckArgoOp)) else [])
    + Closers(issues, AfterArgo(cfg, snap, issues), StuckContainerCreating, Active(fs, StuckContainerCreating))
    + Closers(issues, AfterCreating(cfg, snap, issues), ChronicCrashloop, Active(fs, ChronicCrashloop))
  }

  function DupsOf(cfg: Config, snap: Snapshot, issues: seq<Issue>): seq<Tracked> {
    Duplicates(Findings(cfg, snap), issues, StillOpen(cfg, snap, issues))
  }

  function OrderedNew(cfg: Config, snap: Snapshot, issues: seq<Issue>): seq<Finding> {
    Prioritize(NewOnes(Findings(cfg, snap), issues, StillOpen(cfg, snap, issues)), cfg.priority)
  }

  function Filed(cfg: Config, snap: Snapshot, issues: seq<Issue>): seq<Finding> {
    ToFile(OrderedNew(cfg, snap, issues), |StillOpen(cfg, snap, issues)|, cfg)
  }

  function ActingSteps(cfg: Config, snap: Snapshot, issues: seq<Issue>): seq<Step> {
    var dups := DupsOf(cfg, snap, issues);
    Gather(dups, InstanceStep)
    + (if cfg.autoTerminate then Gather(dups, TerminateStep) else [])
    + Closers(issues, StillOpen(cfg, snap, issues), DarkNode, UnknownNames(snap.nodes))
    + Gather(dups, ClimbStep)
  }

  function FilingSteps(cfg: Config, snap: Snapshot, issues: seq<Issue>): seq<Step> {
    var filed := Filed(cfg, snap, issues);
    (if filed == [] then [] else [EnsureLabel]) + Gather(filed, FileStep)
  }

  function Plan(cfg: Config, snap: Snapshot, issues: seq<Issue>): seq<Step> {
    ClosingSteps(cfg, snap, issues)
    + if Findings(cfg, snap) == [] then []
      else ActingSteps(cfg, snap, issues) + FilingSteps(cfg, snap, issues)
  }

  // ---- Executing a step ----

  function TerminateText(app: string, startedAt: string): Text {
    [TerminatedMarker(app, startedAt)]
  }

  function DispatchTerminate(w: World, app: string, startedAt: string, g: Replies): World {
    Dispatch(w, app, Terminated(app, startedAt), TerminateLost(app, startedAt), g)
  }

  function RunTerminate(w: World, n: nat, app: string, startedAt: string, g: Replies): World {
    if !w.alive || n >= |w.issues| || TerminatedMarker(app, startedAt) in w.issues[n].body then w
    else
      var read := Read(w, g);
      if !read.alive || HasMark(w.issues[n], TerminatedMarker(app, startedAt)) then read
      else
        var sent := DispatchTerminate(read, app, startedAt, g);
        if !sent.alive then sent
        else
          var said := Comment(sent, n, TerminateText(app, startedAt), g);
          if TookEffect(g(sent.calls)) then said
          else said.(log := said.log + [TerminateLost(app, startedAt)])
  }

  function RunInstance(w: World, n: nat, pod: string, g: Replies): World {
    if !w.alive || n >= |w.issues| then w
    else
      var read := Read(w, g);
      if !read.alive || LatestInstance(w.issues[n].body + Flatten(w.issues[n].comments)) == Some(pod) then read
      else
        var said := CommentBestEffort(read, n, [InstanceMarker(pod)], g);
        if g(read.calls).CapRefused? then CloseBestEffort(said, n, g) else said
  }

  /** Decide on one dark node, dispatch, then write the new state into the thread. */
  function Act(w: World, n: nat, facts: DarkFacts, state: LadderState, cfg: LadderConfig, now: real,
               g: Replies): World {
    var d := Decide(facts, state, cfg, now);
    if !w.alive || d.action.Stay? then w
    else
      var sent :=
        if d.action.Reboot? || d.action.Reinstall?
        then Dispatch(w, facts.node, Sent(n, d.action, facts, now), RecordLost(n, d.action), g)
        else w;
      if !sent.alive then sent
      else
        var said := Comment(sent, n, [StateMarker(Render(d.state))], g);
        said.(log := said.log + [if TookEffect(g(sent.calls)) then Recorded(n, d.action, facts, now)
                                 else RecordLost(n, d.action)])
  }

  function RunClimb(w: World, n: nat, facts: DarkFacts, cfg: LadderConfig, now: real, g: Replies): World {
    if !w.alive || n >= |w.issues| then w
    else
      var read := Read(w, g);
      if !read.alive then read
      else Act(read, n, facts, ThreadState(w.issues[n].comments), cfg, now, g)
  }

  function BodyOf(f: Finding, terminated: bool): Text {
    [KeyMarker(f.DedupKey())]
    + (if (f.CreatingFinding? || f.CrashFinding?) && f.pod != "" then [InstanceMarker(f.pod)] else [])
    + (if f.OpFinding? && terminated then TerminateText(f.app, f.startedAt) else [])
  }

  function IssueFor(f: Finding, terminated: bool): Issue {
    Issue(Some(f.DedupKey()), BodyOf(f, terminated), [], true)
  }

  function RunFile(w: World, f: Finding, cfg: Config, now: real, g: Replies): World {
    if !w.alive then w
    else
      var terminate := f.OpFinding? && cfg.autoTerminate;
      var sent := if terminate then DispatchTerminate(w, f.app, f.startedAt, g) else w;
      if !sent.alive then sent
      else
        var made := Create(sent, IssueFor(f, terminate), g);
        if !made.alive then
          if terminate && !TookEffect(g(sent.calls))
          then made.(log := made.log + [TerminateLost(f.app, f.startedAt)])
          else made
        else if f.NodeFinding? then Act(made, |sent.issues|, f.facts, DEFAULT_STATE, cfg.ladder, now, g)
        else made
  }

  function Exec(w: World, step: Step, cfg: Config, now: real, g: Replies): World {
    match step
    case CloseResolved(n) => Close(CommentBestEffort(w, n, [], g), n, g)
    case UpdateInstance(n, pod) => RunInstance(w, n, pod, g)
    case TerminateTracked(n, app, startedAt) => RunTerminate(w, n, app, startedAt, g)
    case ClimbTracked(n, facts) => RunClimb(w, n, facts, cfg.ladder, now, g)
    case EnsureLabel => Tolerated(w, g)
    case File(f) => RunFile(w, f, cfg, now, g)
  }

  function ExecAll(w: World, steps: seq<Step>, cfg: Config, now: real, g: Replies): World {
    if steps == [] then w
    else Exec(ExecAll(w, Front(steps), cfg, now, g), Last(steps), cfg, now, g)
  }

  /** A whole run: fetch the open issues, then carry out the plan as far as the calls allow. */
  function Run(w: World, cfg: Config, snap: Snapshot, g: Replies): World {
    ExecAll(Read(w.(alive := true), g), Plan(cfg, snap, w.issues), cfg, snap.now, g)
  }

  predicate Completed(w: World, cfg: Config, snap: Snapshot, g: Replies) {
    Run(w, cfg, snap, g).alive
  }

  lemma {:induction false} ExecAllConcat(w: World, a: seq<Step>, b: seq<Step>, cfg: Config, now: real, g: Replies)
    ensures ExecAll(w, a + b, cfg, now, g) == ExecAll(ExecAll(w, a, cfg, now, g), b, cfg, now, g)
  {
    if b == [] {
      assert a + b == a;
    } else {
      assert Front(a + b) == a + Front(b);
      ExecAllConcat(w, a, Front(b), cfg, now, g);
    }
  }

  /** Once a run has died nothing more happens. */
  lemma DeadStays(w: World, steps: seq<Step>, cfg: Config, now: real, g: Replies)
    requires !w.alive
    ensures ExecAll(w, steps, cfg, now, g) == w
  {
    if steps != [] {
      DeadStays(w, Front(steps), cfg, now, g);
    }
  }

  /** A run that dies in the middle of a loop ends as it would having tried the rest. */
  lemma DiedOnTheWay<A>(w: World, xs: seq<A>, i: nat, f: A -> seq<Step>, cfg: Config, now: real, g: Replies)
    requires i <= |xs| && !ExecAll(w, Gather(xs[..i], f), cfg, now, g).alive
    ensures ExecAll(w, Gather(xs, f), cfg, now, g) == ExecAll(w, Gather(xs[..i], f), cfg, now, g)
  {
    assert xs[..i] + xs[i..] == xs;
    GatherConcat(xs[..i], xs[i..], f);
    ExecAllConcat(w, Gather(xs[..i], f), Gather(xs[i..], f), cfg, now, g);
    DeadStays(ExecAll(w, Gather(xs[..i], f), cfg, now, g), Gather(xs[i..], f), cfg, now, g);
  }

  /** One more turn of a loop that contributes at most one step per element. */
  lemma NextStep<A>(w: World, xs: seq<A>, i: nat, f: A -> seq<Step>, cfg: Config, now: real, g: Replies)
    requires i < |xs| && |f(xs[i])| <= 1
    ensures ExecAll(w, Gather(xs[..i + 1], f), cfg, now, g)
            == var here := ExecAll(w, Gather(xs[..i], f), cfg, now, g);
               if f(xs[i]) == [] then here else Exec(here, f(xs[i])[0], cfg, now, g)
  {
    GatherNext(xs, i, f);
    if f(xs[i]) == [] {
      assert Gather(xs[..i], f) + [] == Gather(xs[..i], f);
    } else {
      assert f(xs[i]) == [f(xs[i])[0]];
      Snoc(Gather(xs[..i], f), f(xs[i])[0]);
    }
  }

  // ---- Where the pieces of a plan point ----

  predicate InRange(listed: seq<nat>, issues: seq<Issue>) {
    forall i :: 0 <= i < |listed| ==> listed[i] < |issues|
  }

  lemma {:induction false} OpenIssuesExact(issues: seq<Issue>, n: nat)
    ensures n in OpenIssues(issues) <==> n < |issues| && issues[n].open
  {
    if issues != [] {
      OpenIssuesExact(Front(issues), n);
    }
  }

  lemma ListingInRange(issues: seq<Issue>)
    ensures InRange(Listing(issues), issues)
  {
    forall i | 0 <= i < |Listing(issues)| ensures Listing(issues)[i] < |issues| {
      assert Listing(issues)[i] == OpenIssues(issues)[i];
      OpenIssuesExact(issues, OpenIssues(issues)[i]);
    }
  }

  /** Keeping drops exactly the resolved ones. */
  lemma KeptExact(issues: seq<Issue>, listed: seq<nat>, kind: Kind, active: set<string>, n: nat)
    ensures n in Kept(issues, listed, kind, active) <==> n in listed && !Resolved(issues, n, kind, active)
  {
    GatherMember(listed, KeepUnlessResolved(issues, kind, active), n);
  }

  lemma KeptInRange(issues: seq<Issue>, listed: seq<nat>, kind: Kind, active: set<string>)
    requires InRange(listed, issues)
    ensures InRange(Kept(issues, listed, kind, active), issues)
  {
    forall i | 0 <= i < |Kept(issues, listed, kind, active)|
      ensures Kept(issues, listed, kind, active)[i] < |issues|
    {
      KeptExact(issues, listed, kind, active, Kept(issues, listed, kind, active)[i]);
    }
  }

  lemma {:induction false} MatchSound(f: Finding, issues: seq<Issue>, listed: seq<nat>)
    ensures var m := Match(f, issues, listed);
            && (m.Some? ==> m.value in listed && m.value < |issues| && Tracks(issues[m.value], f.DedupKey()))
            && (m.None? ==> forall n :: n in listed && n < |issues| ==> !Tracks(issues[n], f.DedupKey()))
  {
    if listed != [] {
      MatchSound(f, issues, listed[1..]);
    }
  }

  lemma DuplicateSound(findings: seq<Finding>, issues: seq<Issue>, listed: seq<nat>, d: Tracked)
    ensures d in Duplicates(findings, issues, listed)
            <==> d.finding in findings && Match(d.finding, issues, listed) == Some(d.issue)
  {
    GatherMember(findings, TrackedIn(issues, listed), d);
  }

  lemma NewSound(findings: seq<Finding>, issues: seq<Issue>, listed: seq<nat>, f: Finding)
    ensures f in NewOnes(findings, issues, listed) <==> f in findings && Match(f, issues, listed).None?
  {
    GatherMember(findings, UntrackedIn(issues, listed), f);
  }

  lemma StillOpenInRange(cfg: Config, snap: Snapshot, issues: seq<Issue>)
    ensures InRange(AfterArgo(cfg, snap, issues), issues)
    ensures InRange(AfterCreating(cfg, snap, issues), issues)
    ensures InRange(StillOpen(cfg, snap, issues), issues)
    ensures forall d :: d in DupsOf(cfg, snap, issues) ==> d.issue < |issues|
  {
    var fs := Findings(cfg, snap);
    ListingInRange(issues);
    KeptInRange(issues, Listing(issues), StuckArgoOp, Active(fs, StuckArgoOp));
    KeptInRange(issues, AfterArgo(cfg, snap, issues), StuckContainerCreating, Active(fs, StuckContainerCreating));
    KeptInRange(issues, AfterCreating(cfg, snap, issues), ChronicCrashloop, Active(fs, ChronicCrashloop));
    forall d | d in DupsOf(cfg, snap, issues) ensures d.issue < |issues| {
      DuplicateSound(fs, issues, StillOpen(cfg, snap, issues), d);
      MatchSound(d.finding, issues, StillOpen(cfg, snap, issues));
    }
  }
}
