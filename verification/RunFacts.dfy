/** How a run changes the tracker: what it never touches, what it closes, what it files. */
module RunFacts {
  import opened Common
  import opened DarkLadder
  import opened Detection
  import opened Tracker
  import opened Watchdog
  import opened PlanFacts

  /** Titles and bodies stay, threads only grow, nothing reopens, no issue disappears. */
  predicate Evolves(w: World, v: World) {
    && |w.issues| <= |v.issues| && w.log <= v.log
    && forall n :: 0 <= n < |w.issues| ==> IssueEvolves(w.issues[n], v.issues[n])
  }

  predicate IssueEvolves(a: Issue, b: Issue) {
    a.title == b.title && a.body == b.body && a.comments <= b.comments && (b.open ==> a.open)
  }

  lemma EvolvesTransitive(u: World, v: World, w: World)
    requires Evolves(u, v) && Evolves(v, w)
    ensures Evolves(u, w)
  {
    forall n | 0 <= n < |u.issues| ensures IssueEvolves(u.issues[n], w.issues[n]) {
      assert IssueEvolves(u.issues[n], v.issues[n]) && IssueEvolves(v.issues[n], w.issues[n]);
    }
  }

  lemma ActEvolves(w: World, n: nat, facts: DarkFacts, state: LadderState, cfg: LadderConfig, now: real, g: Replies)
    ensures Evolves(w, Act(w, n, facts, state, cfg, now, g))
    ensures |Act(w, n, facts, state, cfg, now, g).issues| == |w.issues|
    ensures forall k :: 0 <= k < |w.issues| ==> Act(w, n, facts, state, cfg, now, g).issues[k].open == w.issues[k].open
  {
  }

  lemma FileEvolves(w: World, f: Finding, cfg: Config, now: real, g: Replies)
    ensures var v := RunFile(w, f, cfg, now, g);
            && Evolves(w, v) && |v.issues| <= |w.issues| + 1
            && (forall k :: 0 <= k < |w.issues| ==> v.issues[k].open == w.issues[k].open)
            && (|v.issues| > |w.issues| ==>
                  IssueEvolves(IssueFor(f, f.OpFinding? && cfg.autoTerminate), v.issues[|w.issues|])
                  && v.issues[|w.issues|].open)
  {
    if w.alive {
      var terminate := f.OpFinding? && cfg.autoTerminate;
      var sent := if terminate then DispatchTerminate(w, f.app, f.startedAt, g) else w;
      if sent.alive {
        var made := Create(sent, IssueFor(f, terminate), g);
        assert Evolves(w, made);
        if made.alive && f.NodeFinding? {
          ActEvolves(made, |sent.issues|, f.facts, DEFAULT_STATE, cfg.ladder, now, g);
          EvolvesTransitive(w, made, RunFile(w, f, cfg, now, g));
        }
      }
    }
  }

  lemma FiledIfAlive(w: World, f: Finding, cfg: Config, now: real, g: Replies)
    requires RunFile(w, f, cfg, now, g).alive
    ensures |RunFile(w, f, cfg, now, g).issues| > |w.issues|
  {
  }

  /** The issue, if any, that a step may close. */
  predicate MayClose(step: Step, n: nat) {
    (step.CloseResolved? || step.UpdateInstance?) && step.issue == n
  }

  lemma InstanceEvolves(w: World, k: nat, pod: string, g: Replies)
    ensures Evolves(w, RunInstance(w, k, pod, g))
    ensures |RunInstance(w, k, pod, g).issues| == |w.issues|
    ensures forall n :: 0 <= n < |w.issues| && n != k ==> RunInstance(w, k, pod, g).issues[n].open == w.issues[n].open
  {
  }

  lemma TerminateEvolves(w: World, k: nat, app: string, s: string, g: Replies)
    ensures Evolves(w, RunTerminate(w, k, app, s, g))
    ensures |RunTerminate(w, k, app, s, g).issues| == |w.issues|
    ensures forall n :: 0 <= n < |w.issues| ==> RunTerminate(w, k, app, s, g).issues[n].open == w.issues[n].open
  {
  }

  lemma ExecEvolves(w: World, step: Step, cfg: Config, now: real, g: Replies)
    ensures var v := Exec(w, step, cfg, now, g);
            && Evolves(w, v)
            && (!step.File? ==> |v.issues| == |w.issues|)
            && |v.issues| <= |w.issues| + 1
            && (forall n :: 0 <= n < |w.issues| && !MayClose(step, n) ==> v.issues[n].open == w.issues[n].open)
  {
    match step
    case CloseResolved(k) =>
    case UpdateInstance(k, pod) => InstanceEvolves(w, k, pod, g);
    case TerminateTracked(k, app, s) => TerminateEvolves(w, k, app, s, g);
    case ClimbTracked(k, facts) =>
      if w.alive && k < |w.issues| && Read(w, g).alive {
        ActEvolves(Read(w, g), k, facts, ThreadState(w.issues[k].comments), cfg.ladder, now, g);
      }
    case EnsureLabel =>
    case File(f) => FileEvolves(w, f, cfg, now, g);
  }

  lemma {:induction false} ExecAllEvolves(w: World, steps: seq<Step>, cfg: Config, now: real, g: Replies)
    ensures var v := ExecAll(w, steps, cfg, now, g);
            && Evolves(w, v)
            && ((forall s :: s in steps ==> !s.File?) ==> |v.issues| == |w.issues|)
            && |v.issues| <= |w.issues| + |steps|
            && forall n :: 0 <= n < |w.issues| && (forall s :: s in steps ==> !MayClose(s, n)) ==>
                             v.issues[n].open == w.issues[n].open
  {
    if steps != [] {
      var u := ExecAll(w, Front(steps), cfg, now, g);
      ExecAllEvolves(w, Front(steps), cfg, now, g);
      ExecEvolves(u, Last(steps), cfg, now, g);
      EvolvesTransitive(w, u, ExecAll(w, steps, cfg, now, g));
      assert Last(steps) in steps;
    }
  }

  lemma AliveSoFar(w: World, a: seq<Step>, b: seq<Step>, cfg: Config, now: real, g: Replies)
    requires ExecAll(w, a + b, cfg, now, g).alive
    ensures ExecAll(w, a, cfg, now, g).alive
    ensures ExecAll(ExecAll(w, a, cfg, now, g), b, cfg, now, g).alive
  {
    ExecAllConcat(w, a, b, cfg, now, g);
    if !ExecAll(w, a, cfg, now, g).alive {
      DeadStays(ExecAll(w, a, cfg, now, g), b, cfg, now, g);
    }
  }

  /** A run that survives a closing step leaves that issue closed. */
  lemma {:induction false} CloseHappens(w: World, steps: seq<Step>, n: nat, cfg: Config, now: real, g: Replies)
    requires CloseResolved(n) in steps && n < |w.issues| && ExecAll(w, steps, cfg, now, g).alive
    ensures n < |ExecAll(w, steps, cfg, now, g).issues| && !ExecAll(w, steps, cfg, now, g).issues[n].open
  {
    var before := Front(steps);
    assert steps == before + [Last(steps)];
    AliveSoFar(w, before, [Last(steps)], cfg, now, g);
    var u := ExecAll(w, before, cfg, now, g);
    ExecAllEvolves(w, before, cfg, now, g);
    ExecEvolves(u, Last(steps), cfg, now, g);
    if CloseResolved(n) in before {
      CloseHappens(w, before, n, cfg, now, g);
    }
  }

  // ---- The listed issues after the closing phases ----

  /** Every listed issue that is not kept has its closing step. */
  lemma NotKeptIsClosed(cfg: Config, snap: Snapshot, issues: seq<Issue>, n: nat)
    requires n in Listing(issues) && n !in StillOpen(cfg, snap, issues)
    ensures CloseResolved(n) in ClosingSteps(cfg, snap, issues)
  {
    var fs := Findings(cfg, snap);
    KeptExact(issues, Listing(issues), StuckArgoOp, Active(fs, StuckArgoOp), n);
    KeptExact(issues, AfterArgo(cfg, snap, issues), StuckContainerCreating, Active(fs, StuckContainerCreating), n);
    KeptExact(issues, AfterCreating(cfg, snap, issues), ChronicCrashloop, Active(fs, ChronicCrashloop), n);
    CloserMember(issues, Listing(issues), StuckArgoOp, Active(fs, StuckArgoOp), CloseResolved(n));
    CloserMember(issues, AfterArgo(cfg, snap, issues), StuckContainerCreating, Active(fs, StuckContainerCreating),
                 CloseResolved(n));
    CloserMember(issues, AfterCreating(cfg, snap, issues), ChronicCrashloop, Active(fs, ChronicCrashloop),
                 CloseResolved(n));
  }

  predicate ListedInFull(issues: seq<Issue>) {
    |OpenIssues(issues)| <= LIST_LIMIT
  }

  lemma FullListing(issues: seq<Issue>, n: nat)
    requires ListedInFull(issues) && n < |issues| && issues[n].open
    ensures n in Listing(issues)
  {
    OpenIssuesExact(issues, n);
  }

  /** The parts of a plan, and the world after each part. */
  function AfterClosing(w: World, cfg: Config, snap: Snapshot, g: Replies): World {
    ExecAll(Read(w.(alive := true), g), ClosingSteps(cfg, snap, w.issues), cfg, snap.now, g)
  }

  function AfterActing(w: World, cfg: Config, snap: Snapshot, g: Replies): World {
    if Findings(cfg, snap) == [] then AfterClosing(w, cfg, snap, g)
    else ExecAll(AfterClosing(w, cfg, snap, g), ActingSteps(cfg, snap, w.issues), cfg, snap.now, g)
  }

  lemma RunInParts(w: World, cfg: Config, snap: Snapshot, g: Replies)
    ensures Run(w, cfg, snap, g)
            == if Findings(cfg, snap) == [] then AfterActing(w, cfg, snap, g)
               else ExecAll(AfterActing(w, cfg, snap, g), FilingSteps(cfg, snap, w.issues), cfg, snap.now, g)
  {
    var start := Read(w.(alive := true), g);
    var closing, acting := ClosingSteps(cfg, snap, w.issues), ActingSteps(cfg, snap, w.issues);
    var filing := FilingSteps(cfg, snap, w.issues);
    if Findings(cfg, snap) == [] {
      assert Plan(cfg, snap, w.issues) == closing;
    } else {
      ExecAllConcat(start, closing, acting + filing, cfg, snap.now, g);
      ExecAllConcat(AfterClosing(w, cfg, snap, g), acting, filing, cfg, snap.now, g);
    }
  }

  /** Before the filing phase no issue has been added, and nothing reopened. */
  lemma PartsEvolve(w: World, cfg: Config, snap: Snapshot, g: Replies)
    ensures Evolves(w, AfterClosing(w, cfg, snap, g)) && |AfterClosing(w, cfg, snap, g).issues| == |w.issues|
    ensures Evolves(w, AfterActing(w, cfg, snap, g)) && |AfterActing(w, cfg, snap, g).issues| == |w.issues|
    ensures Evolves(AfterActing(w, cfg, snap, g), Run(w, cfg, snap, g))
    ensures Evolves(w, Run(w, cfg, snap, g))
  {
    var start := Read(w.(alive := true), g);
    var closing, acting := ClosingSteps(cfg, snap, w.issues), ActingSteps(cfg, snap, w.issues);
    forall s | s in closing ensures !s.File? {
      ClosingStepPlanned(s, cfg, snap, w.issues);
    }
    ExecAllEvolves(start, closing, cfg, snap.now, g);
    assert Evolves(w, start);
    EvolvesTransitive(w, start, AfterClosing(w, cfg, snap, g));
    RunInParts(w, cfg, snap, g);
    if Findings(cfg, snap) != [] {
      forall s | s in acting ensures !s.File? {
        ActingHasNoFile(s, cfg, snap, w.issues);
      }
      ExecAllEvolves(AfterClosing(w, cfg, snap, g), acting, cfg, snap.now, g);
      EvolvesTransitive(w, AfterClosing(w, cfg, snap, g), AfterActing(w, cfg, snap, g));
      ExecAllEvolves(AfterActing(w, cfg, snap, g), FilingSteps(cfg, snap, w.issues), cfg, snap.now, g);
    }
    EvolvesTransitive(w, AfterActing(w, cfg, snap, g), Run(w, cfg, snap, g));
  }

  lemma ActingHasNoFile(step: Step, cfg: Config, snap: Snapshot, issues: seq<Issue>)
    requires step in ActingSteps(cfg, snap, issues)
    ensures !step.File?
  {
    var dups := DupsOf(cfg, snap, issues);
    if step in Gather(dups, InstanceStep) {
      InstanceFrom(dups, step);
    } else if step in Gather(dups, TerminateStep) {
      TerminateFrom(dups, step);
    } else if step in Gather(dups, ClimbStep) {
      ClimbFrom(dups, step);
    }
    CloserMember(issues, StillOpen(cfg, snap, issues), DarkNode, UnknownNames(snap.nodes), step);
  }

  /** Once the closing phases are through, a listed issue that is still open was kept. */
  lemma OpenAfterClosingWasKept(w: World, cfg: Config, snap: Snapshot, g: Replies, n: nat)
    requires AfterClosing(w, cfg, snap, g).alive && n in Listing(w.issues)
    requires n < |AfterClosing(w, cfg, snap, g).issues| && AfterClosing(w, cfg, snap, g).issues[n].open
    ensures n in StillOpen(cfg, snap, w.issues)
  {
    if n !in StillOpen(cfg, snap, w.issues) {
      NotKeptIsClosed(cfg, snap, w.issues, n);
      PartsEvolve(w, cfg, snap, g);
      CloseHappens(Read(w.(alive := true), g), ClosingSteps(cfg, snap, w.issues), n, cfg, snap.now, g);
    }
  }

  // ---- Issues beyond the list ----

  /** No step of a plan concerns an issue that the list did not show. */
  lemma StepSkipsUnlisted(step: Step, cfg: Config, snap: Snapshot, issues: seq<Issue>, n: nat)
    requires step in Plan(cfg, snap, issues) && n !in Listing(issues)
    ensures !MayClose(step, n)
  {
    StepPlanned(step, cfg, snap, issues);
    if step.UpdateInstance? && step.issue == n {
      var d :| d in DupsOf(cfg, snap, issues) && d.issue == n && InstanceStep(d) == [step];
      DupFacts(d, cfg, snap, issues);
      KeptIsListed(cfg, snap, issues, n);
    }
  }

  lemma UnlistedStaysOpen(w: World, cfg: Config, snap: Snapshot, n: nat, g: Replies)
    requires n < |w.issues| && n !in Listing(w.issues)
    ensures n < |AfterActing(w, cfg, snap, g).issues|
    ensures AfterActing(w, cfg, snap, g).issues[n].open == w.issues[n].open
  {
    var start := Read(w.(alive := true), g);
    var closing, acting := ClosingSteps(cfg, snap, w.issues), ActingSteps(cfg, snap, w.issues);
    PartsEvolve(w, cfg, snap, g);
    forall s | s in closing || (Findings(cfg, snap) != [] && s in acting) ensures !MayClose(s, n) {
      assert s in Plan(cfg, snap, w.issues);
      StepSkipsUnlisted(s, cfg, snap, w.issues, n);
    }
    ExecAllEvolves(start, closing, cfg, snap.now, g);
    if Findings(cfg, snap) != [] {
      ExecAllEvolves(AfterClosing(w, cfg, snap, g), acting, cfg, snap.now, g);
    }
  }
}
