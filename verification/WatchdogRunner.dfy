/**
  The run as the program performs it: loops over issues and findings that call GitHub one
  call at a time and stop at the first strict failure. Every method is tied to the plan
  semantics of module Watchdog.
 */
module WatchdogRunner {
  import opened Common
  import opened DarkLadder
  import opened Detection
  import opened Tracker
  import W = Watchdog

  class GitHub {
    var issues: seq<Issue>
    var log: seq<Event>
    var calls: nat
    const replies: Replies

    constructor (replies: Replies)
      ensures View(true) == World([], [], 0, true)
      ensures this.replies == replies
    {
      issues, log, calls := [], [], 0;
      this.replies := replies;
    }

    /** The tracker as a value, together with whether the current run is still going. */
    function View(alive: bool): World
      reads this
    {
      World(issues, log, calls, alive)
    }

    method NextReply() returns (r: Reply)
      modifies this`calls
      ensures r == replies(old(calls)) && calls == old(calls) + 1
    {
      r := replies(calls);
      calls := calls + 1;
    }

    // ---- One call each ----

    method ReadCall() returns (alive: bool)
      modifies this
      ensures View(alive) == Read(old(View(true)), replies)
    {
      var r := NextReply();
      alive := r.Ok?;
    }

    method PostComment(n: nat, text: Text) returns (r: Reply)
      requires n < |issues|
      modifies this
      ensures r == replies(old(calls))
      ensures View(r.Ok?) == Comment(old(View(true)), n, text, replies)
    {
      r := NextReply();
      if TookEffect(r) {
        issues := issues[n := issues[n].(comments := issues[n].comments + [text])];
      }
    }

    method PostCommentBestEffort(n: nat, text: Text) returns (r: Reply)
      requires n < |issues|
      modifies this
      ensures r == replies(old(calls)) && |issues| == old(|issues|)
      ensures View(!r.Killed?) == CommentBestEffort(old(View(true)), n, text, replies)
    {
      r := PostComment(n, text);
    }

    method CloseIssue(n: nat) returns (r: Reply)
      requires n < |issues|
      modifies this
      ensures View(r.Ok?) == Close(old(View(true)), n, replies)
      ensures View(!r.Killed?) == CloseBestEffort(old(View(true)), n, replies)
    {
      r := NextReply();
      if TookEffect(r) {
        issues := issues[n := issues[n].(open := false)];
      }
    }

    method CreateIssue(issue: Issue) returns (r: Reply)
      modifies this
      ensures r == replies(old(calls))
      ensures View(r.Ok?) == Create(old(View(true)), issue, replies)
    {
      r := NextReply();
      if TookEffect(r) {
        issues := issues + [issue];
      }
    }

    method DispatchWorkflow(name: string, done: Event, lost: Event) returns (alive: bool)
      modifies this
      ensures View(alive) == Dispatch(old(View(true)), name, done, lost, replies)
    {
      if !SafeName(name) {
        return false;
      }
      var r := NextReply();
      alive := r.Ok?;
      if r.Ok? {
        log := log + [done];
      } else if r.Late? {
        log := log + [done, lost];
      }
    }

    // ---- Closing resolved issues ----

    /** Close every listed issue whose key of this kind is not active; the rest stay listed. */
    method CloseResolved(listed: seq<Issue>, open: seq<nat>, kind: Kind, active: set<string>,
                         ghost cfg: Config, ghost now: real)
      returns (still: seq<nat>, alive: bool)
      requires |listed| == |issues| && Valid(open)
      modifies this
      ensures |listed| == |issues|
      ensures alive ==> still == W.Kept(listed, open, kind, active)
      ensures View(alive) == W.ExecAll(old(View(true)), W.Closers(listed, open, kind, active), cfg, now, replies)
    {
      ghost var before, piece := View(true), W.CloseIfResolved(listed, kind, active);
      still, alive := [], true;
      for i := 0 to |open|
        invariant |issues| == |listed| && alive
        invariant still == W.Kept(listed, open[..i], kind, active)
        invariant View(true) == W.ExecAll(before, Gather(open[..i], piece), cfg, now, replies)
      {
        W.NextStep(before, open, i, piece, cfg, now, replies);
        GatherNext(open, i, W.KeepUnlessResolved(listed, kind, active));
        var subject := FirstKey(listed[open[i]].body, kind);
        if subject.None? || subject.value in active {
          still := still + [open[i]];
          continue;
        }
        alive := CommentAndClose(open[i], cfg, now);
        if !alive {
          W.DiedOnTheWay(before, open, i + 1, piece, cfg, now, replies);
          return;
        }
      }
      assert open[..|open|] == open;
    }

    /** The comment is a courtesy; the close is what matters and stays strict. */
    method CommentAndClose(n: nat, ghost cfg: Config, ghost now: real) returns (alive: bool)
      requires n < |issues|
      modifies this
      ensures |issues| == old(|issues|)
      ensures View(alive) == W.Exec(old(View(true)), W.CloseResolved(n), cfg, now, replies)
    {
      var said := PostCommentBestEffort(n, []);
      alive := !said.Killed?;
      if alive {
        var closed := CloseIssue(n);
        alive := closed.Ok?;
      }
    }

    predicate Valid(open: seq<nat>)
      reads this
    {
      forall i :: 0 <= i < |open| ==> open[i] < |issues|
    }

    predicate ValidDups(dups: seq<W.Tracked>)
      reads this
    {
      forall i :: 0 <= i < |dups| ==> dups[i].issue < |issues|
    }

    // ---- Acting on tracked findings ----

    method UpdateInstances(dups: seq<W.Tracked>, ghost cfg: Config, ghost now: real) returns (alive: bool)
      requires ValidDups(dups)
      modifies this
      ensures |issues| == old(|issues|)
      ensures View(alive) == W.ExecAll(old(View(true)), Gather(dups, W.InstanceStep), cfg, now, replies)
    {
      ghost var before := View(true);
      alive := true;
      for i := 0 to |dups|
        invariant |issues| == old(|issues|) && alive
        invariant View(true) == W.ExecAll(before, Gather(dups[..i], W.InstanceStep), cfg, now, replies)
      {
        W.NextStep(before, dups, i, W.InstanceStep, cfg, now, replies);
        var f, n := dups[i].finding, dups[i].issue;
        if !(f.CreatingFinding? || f.CrashFinding?) || f.pod == "" {
          continue;
        }
        alive := UpdateInstance(n, f.pod);
        if !alive {
          W.DiedOnTheWay(before, dups, i + 1, W.InstanceStep, cfg, now, replies);
          return;
        }
      }
      assert dups[..|dups|] == dups;
    }

    method UpdateInstance(n: nat, pod: string) returns (alive: bool)
      requires n < |issues|
      modifies this
      ensures |issues| == old(|issues|)
      ensures View(alive) == W.RunInstance(old(View(true)), n, pod, replies)
    {
      alive := ReadCall();
      if !alive || LatestInstance(issues[n].body + Flatten(issues[n].comments)) == Some(pod) {
        return;
      }
      var said := PostCommentBestEffort(n, [InstanceMarker(pod)]);
      alive := !said.Killed?;
      if said.CapRefused? {
        var closed := CloseIssue(n);
        alive := !closed.Killed?;
      }
    }

    method TerminateTracked(dups: seq<W.Tracked>, ghost cfg: Config, ghost now: real) returns (alive: bool)
      requires ValidDups(dups)
      modifies this
      ensures |issues| == old(|issues|)
      ensures View(alive) == W.ExecAll(old(View(true)), Gather(dups, W.TerminateStep), cfg, now, replies)
    {
      ghost var before := View(true);
      alive := true;
      for i := 0 to |dups|
        invariant |issues| == old(|issues|) && alive
        invariant View(true) == W.ExecAll(before, Gather(dups[..i], W.TerminateStep), cfg, now, replies)
      {
        W.NextStep(before, dups, i, W.TerminateStep, cfg, now, replies);
        var f, n := dups[i].finding, dups[i].issue;
        if !f.OpFinding? {
          continue;
        }
        alive := TerminateOnce(n, f.app, f.startedAt);
        if !alive {
          W.DiedOnTheWay(before, dups, i + 1, W.TerminateStep, cfg, now, replies);
          return;
        }
      }
      assert dups[..|dups|] == dups;
    }

    method TerminateOnce(n: nat, app: string, startedAt: string) returns (alive: bool)
      requires n < |issues|
      modifies this
      ensures |issues| == old(|issues|)
      ensures View(alive) == W.RunTerminate(old(View(true)), n, app, startedAt, replies)
    {
      alive := true;
      var marker := TerminatedMarker(app, startedAt);
      if marker in issues[n].body {
        return;
      }
      alive := ReadCall();
      if !alive || exists i :: 0 <= i < |issues[n].comments| && marker in issues[n].comments[i] {
        return;
      }
      alive := DispatchWorkflow(app, Terminated(app, startedAt), TerminateLost(app, startedAt));
      if !alive {
        return;
      }
      var said := PostComment(n, W.TerminateText(app, startedAt));
      alive := said.Ok?;
      if !TookEffect(said) {
        log := log + [TerminateLost(app, startedAt)];
      }
    }

    // ---- The dark-node ladder ----

    method ActOnDarkNode(n: nat, facts: DarkFacts, state: LadderState, cfg: LadderConfig, now: real)
      returns (alive: bool)
      requires n < |issues|
      modifies this
      ensures |issues| == old(|issues|)
      ensures View(alive) == W.Act(old(View(true)), n, facts, state, cfg, now, replies)
    {
      var d := Decide(facts, state, cfg, now);
      alive := true;
      if d.action.Stay? {
        return;
      }
      if d.action.Reboot? || d.action.Reinstall? {
        alive := DispatchWorkflow(facts.node, Sent(n, d.action, facts, now), RecordLost(n, d.action));
        if !alive {
          return;
        }
      }
      var said := PostComment(n, [StateMarker(Render(d.state))]);
      alive := said.Ok?;
      log := log + [if TookEffect(said) then Recorded(n, d.action, facts, now) else RecordLost(n, d.action)];
    }

    method ClimbOnce(n: nat, facts: DarkFacts, cfg: LadderConfig, now: real) returns (alive: bool)
      requires n < |issues|
      modifies this
      ensures |issues| == old(|issues|)
      ensures View(alive) == W.RunClimb(old(View(true)), n, facts, cfg, now, replies)
    {
      alive := ReadCall();
      if alive {
        var state := ParseDarkNodeState(Marks(issues[n].comments));
        alive := ActOnDarkNode(n, facts, state, cfg, now);
      }
    }

    method ClimbTracked(dups: seq<W.Tracked>, cfg: Config, now: real) returns (alive: bool)
      requires ValidDups(dups)
      modifies this
      ensures |issues| == old(|issues|)
      ensures View(alive) == W.ExecAll(old(View(true)), Gather(dups, W.ClimbStep), cfg, now, replies)
    {
      ghost var before := View(true);
      alive := true;
      for i := 0 to |dups|
        invariant |issues| == old(|issues|) && alive
        invariant View(true) == W.ExecAll(before, Gather(dups[..i], W.ClimbStep), cfg, now, replies)
      {
        W.NextStep(before, dups, i, W.ClimbStep, cfg, now, replies);
        var f, n := dups[i].finding, dups[i].issue;
        if !f.NodeFinding? {
          continue;
        }
        alive := ClimbOnce(n, f.facts, cfg.ladder, now);
        if !alive {
          W.DiedOnTheWay(before, dups, i + 1, W.ClimbStep, cfg, now, replies);
          return;
        }
      }
      assert dups[..|dups|] == dups;
    }

    // ---- Filing ----

    method FileFinding(f: Finding, cfg: Config, now: real) returns (alive: bool)
      modifies this
      ensures View(alive) == W.RunFile(old(View(true)), f, cfg, now, replies)
    {
      alive := true;
      var terminate := f.OpFinding? && cfg.autoTerminate;
      if terminate {
        alive := DispatchWorkflow(f.app, Terminated(f.app, f.startedAt), TerminateLost(f.app, f.startedAt));
        if !alive {
          return;
        }
      }
      var number := |issues|;
      var made := CreateIssue(W.IssueFor(f, terminate));
      alive := made.Ok?;
      if !alive {
        if terminate && !TookEffect(made) {
          log := log + [TerminateLost(f.app, f.startedAt)];
        }
        return;
      }
      if f.NodeFinding? {
        alive := ActOnDarkNode(number, f.facts, DEFAULT_STATE, cfg.ladder, now);
      }
    }

    method FileAll(findings: seq<Finding>, cfg: Config, now: real) returns (alive: bool)
      modifies this
      ensures View(alive) == W.ExecAll(old(View(true)), Gather(findings, W.FileStep), cfg, now, replies)
    {
      ghost var before := View(true);
      alive := true;
      for i := 0 to |findings|
        invariant alive
        invariant View(true) == W.ExecAll(before, Gather(findings[..i], W.FileStep), cfg, now, replies)
      {
        W.NextStep(before, findings, i, W.FileStep, cfg, now, replies);
        alive := FileFinding(findings[i], cfg, now);
        if !alive {
          W.DiedOnTheWay(before, findings, i + 1, W.FileStep, cfg, now, replies);
          return;
        }
      }
      assert findings[..|findings|] == findings;
    }

    // ---- The whole run ----

    method ClosingPhases(cfg: Config, snap: Snapshot, findings: seq<Finding>)
      returns (still: seq<nat>, alive: bool)
      requires findings == Findings(cfg, snap)
      modifies this
      ensures |issues| == old(|issues|)
      ensures alive ==> still == W.StillOpen(cfg, snap, old(issues))
      ensures View(alive)
              == W.ExecAll(old(View(true)), W.ClosingSteps(cfg, snap, old(issues)), cfg, snap.now, replies)
    {
      var listed := issues;
      ghost var w, now := View(true), snap.now;
      ghost var a := if snap.apps.Some?
        then W.Closers(listed, W.Listing(listed), StuckArgoOp, W.Active(findings, StuckArgoOp)) else [];
      ghost var c := W.Closers(listed, W.AfterArgo(cfg, snap, listed), StuckContainerCreating,
                               W.Active(findings, StuckContainerCreating));
      ghost var l := W.Closers(listed, W.AfterCreating(cfg, snap, listed), ChronicCrashloop,
                               W.Active(findings, ChronicCrashloop));
      W.ExecAllConcat(w, a + c, l, cfg, now, replies);
      W.ExecAllConcat(w, a, c, cfg, now, replies);
      W.StillOpenInRange(cfg, snap, listed);
      W.ListingInRange(listed);
      still, alive := W.Listing(listed), true;
      if snap.apps.Some? {
        still, alive := CloseResolved(listed, still, StuckArgoOp, W.Active(findings, StuckArgoOp), cfg, now);
        if !alive {
          W.DeadStays(View(false), c, cfg, now, replies);
          W.DeadStays(View(false), l, cfg, now, replies);
          return;
        }
      }
      still, alive := CloseResolved(listed, still, StuckContainerCreating,
                                    W.Active(findings, StuckContainerCreating), cfg, now);
      if !alive {
        W.DeadStays(View(false), l, cfg, now, replies);
        return;
      }
      still, alive := CloseResolved(listed, still, ChronicCrashloop,
                                    W.Active(findings, ChronicCrashloop), cfg, now);
    }

    method ActingPhases(cfg: Config, snap: Snapshot, listed: seq<Issue>, still: seq<nat>, dups: seq<W.Tracked>)
      returns (alive: bool)
      requires |listed| == |issues| && still == W.StillOpen(cfg, snap, listed) && dups == W.DupsOf(cfg, snap, listed)
      modifies this
      ensures |issues| == old(|issues|)
      ensures View(alive) == W.ExecAll(old(View(true)), W.ActingSteps(cfg, snap, listed), cfg, snap.now, replies)
    {
      ghost var w, now := View(true), snap.now;
      ghost var i := Gather(dups, W.InstanceStep);
      ghost var t := if cfg.autoTerminate then Gather(dups, W.TerminateStep) else [];
      ghost var r := W.Closers(listed, still, DarkNode, UnknownNames(snap.nodes));
      ghost var c := Gather(dups, W.ClimbStep);
      W.ExecAllConcat(w, i + t + r, c, cfg, now, replies);
      W.ExecAllConcat(w, i + t, r, cfg, now, replies);
      W.ExecAllConcat(w, i, t, cfg, now, replies);
      W.StillOpenInRange(cfg, snap, listed);
      alive := UpdateInstances(dups, cfg, now);
      if !alive {
        W.DeadStays(View(false), t, cfg, now, replies);
        W.DeadStays(View(false), r, cfg, now, replies);
        W.DeadStays(View(false), c, cfg, now, replies);
        return;
      }
      if cfg.autoTerminate {
        alive := TerminateTracked(dups, cfg, now);
        if !alive {
          W.DeadStays(View(false), r, cfg, now, replies);
          W.DeadStays(View(false), c, cfg, now, replies);
          return;
        }
      }
      var _, recovered := CloseResolved(listed, still, DarkNode, UnknownNames(snap.nodes), cfg, now);
      if !recovered {
        W.DeadStays(View(false), c, cfg, now, replies);
        return false;
      }
      alive := ClimbTracked(dups, cfg, snap.now);
    }

    method FilingPhase(cfg: Config, snap: Snapshot, filed: seq<Finding>) returns (alive: bool)
      modifies this
      ensures View(alive) == W.ExecAll(old(View(true)),
                (if filed == [] then [] else [W.EnsureLabel]) + Gather(filed, W.FileStep), cfg, snap.now, replies)
    {
      ghost var w, now := View(true), snap.now;
      ghost var label_ := if filed == [] then [] else [W.EnsureLabel];
      W.ExecAllConcat(w, label_, Gather(filed, W.FileStep), cfg, now, replies);
      alive := true;
      if filed != [] {
        Snoc<W.Step>([], W.EnsureLabel);
        var r := NextReply();
        alive := !r.Killed?;
        if !alive {
          W.DeadStays(View(false), Gather(filed, W.FileStep), cfg, now, replies);
          return;
        }
      }
      alive := FileAll(filed, cfg, snap.now);
    }

    /** One invocation of the program with the repository named and no dry run. */
    method Run(cfg: Config, snap: Snapshot) returns (alive: bool)
      modifies this
      ensures View(alive) == W.Run(old(View(true)), cfg, snap, replies)
    {
      ghost var w, now := View(true), snap.now;
      var findings := DetectStuckArgoOps(AppsOf(snap), cfg, snap.now);
      var dark := DetectDarkNodes(snap.nodes, cfg, snap.now);
      findings := findings + dark + CrashFindings(snap.crashes) + CreatingFindings(snap.creating)
                  + VolumeFindings(snap.volumes);
      var listed := issues;
      ghost var closing := W.ClosingSteps(cfg, snap, listed);
      ghost var acting := W.ActingSteps(cfg, snap, listed);
      ghost var filing := W.FilingSteps(cfg, snap, listed);
      ghost var rest := if findings == [] then [] else acting + filing;
      W.ExecAllConcat(Read(w, replies), closing, rest, cfg, now, replies);
      alive := ReadCall();
      if !alive {
        W.DeadStays(View(false), closing, cfg, now, replies);
        W.DeadStays(View(false), rest, cfg, now, replies);
        return;
      }
      var still;
      still, alive := ClosingPhases(cfg, snap, findings);
      if !alive {
        W.DeadStays(View(false), rest, cfg, now, replies);
        return;
      }
      if findings == [] {
        return;
      }
      W.ExecAllConcat(View(true), acting, filing, cfg, now, replies);
      var new_, dups := FilterNewFindings(findings, listed, still);
      alive := ActingPhases(cfg, snap, listed, still, dups);
      if !alive {
        W.DeadStays(View(false), filing, cfg, now, replies);
        return;
      }
      var ordered := W.Prioritize(new_, cfg.priority);
      var toFile := W.ToFile(ordered, |still|, cfg);
      alive := FilingPhase(cfg, snap, toFile);
    }
  }

  /** Split findings into those no listed issue tracks and those some listed issue tracks. */
  method FilterNewFindings(findings: seq<Finding>, issues: seq<Issue>, open: seq<nat>)
    returns (new_: seq<Finding>, dups: seq<W.Tracked>)
    ensures new_ == W.NewOnes(findings, issues, open)
    ensures dups == W.Duplicates(findings, issues, open)
  {
    new_, dups := [], [];
    for i := 0 to |findings|
      invariant new_ == W.NewOnes(findings[..i], issues, open)
      invariant dups == W.Duplicates(findings[..i], issues, open)
    {
      GatherNext(findings, i, W.UntrackedIn(issues, open));
      GatherNext(findings, i, W.TrackedIn(issues, open));
      var m := W.Match(findings[i], issues, open);
      if m.None? {
        new_ := new_ + [findings[i]];
      } else {
        dups := dups + [W.Tracked(findings[i], m.value)];
      }
    }
    assert findings[..|findings|] == findings;
  }
}
