/**
  Argo terminates over whole histories: each stuck operation is terminated once, up to lost
  records, and a completed run leaves no tracked operation without its terminate.
 */
module TerminateHistory {
  import opened Common
  import opened DarkLadder
  import opened Detection
  import opened Tracker
  import opened Watchdog
  import opened PlanFacts
  import opened RunFacts
  import opened IssueIndex
  import opened LadderHistory

  function OpKey(app: string): Key {
    Key(StuckArgoOp, app)
  }

  predicate IsOp(f: Finding, app: string, s: string) {
    f.OpFinding? && f.app == app && f.startedAt == s
  }

  predicate Reported(cfg: Config, snap: Snapshot, app: string, s: string) {
    exists f :: f in Findings(cfg, snap) && IsOp(f, app, s)
  }

  /** Dispatches whose record was not lost. */
  function Outstanding(log: seq<Event>, app: string, s: string): int {
    Count(log, Terminates(app, s)) - Count(log, LostTerminates(app, s))
  }

  predicate AtMostOne(w: World, app: string, s: string) {
    0 <= Outstanding(w.log, app, s) <= 1
  }

  // ---- Issues as the watchdog writes them ----

  /** Title and key markers agree on one key, or there is no key at all. */
  predicate Tidy(issue: Issue) {
    && (issue.title.Some? ==> KeyMarker(issue.title.value) in issue.body)
    && forall m :: m in issue.body && m.KeyMarker? ==> issue.title == Some(m.key)
  }

  predicate AllTidy(issues: seq<Issue>) {
    forall i :: 0 <= i < |issues| ==> Tidy(issues[i])
  }

  lemma {:induction false} FirstKeyIsMarker(body: Text, kind: Kind)
    requires FirstKey(body, kind).Some?
    ensures KeyMarker(Key(kind, FirstKey(body, kind).value)) in body
  {
    if !(body[0].KeyMarker? && body[0].key.kind == kind) {
      FirstKeyIsMarker(body[1..], kind);
    }
  }

  lemma TidyKey(issue: Issue, kind: Kind)
    requires Tidy(issue)
    ensures FirstKey(issue.body, kind).Some? ==> issue.title == Some(Key(kind, FirstKey(issue.body, kind).value))
    ensures forall k :: Tracks(issue, k) <==> issue.title == Some(k)
  {
    if FirstKey(issue.body, kind).Some? {
      FirstKeyIsMarker(issue.body, kind);
    }
  }

  lemma MadeIsTidy(issue: Issue, f: Finding, cfg: Config)
    requires MadeFrom(issue, f, cfg)
    ensures Tidy(issue)
  {
  }

  lemma FromSomeIsTidy(issue: Issue, fs: seq<Finding>, cfg: Config)
    requires FromSome(issue, fs, cfg)
    ensures Tidy(issue)
  {
    var f :| f in fs && MadeFrom(issue, f, cfg);
    MadeIsTidy(issue, f, cfg);
  }

  lemma EvolvedIsTidy(a: Issue, b: Issue)
    requires IssueEvolves(a, b) && Tidy(a)
    ensures Tidy(b)
  {
  }

  lemma RunKeepsTidy(w: World, cfg: Config, snap: Snapshot, g: Replies)
    requires AllTidy(w.issues)
    ensures AllTidy(Run(w, cfg, snap, g).issues)
  {
    RunMakes(w, cfg, snap, g);
    PartsEvolve(w, cfg, snap, g);
    var v := Run(w, cfg, snap, g);
    forall i | 0 <= i < |v.issues| ensures Tidy(v.issues[i]) {
      if i < |w.issues| {
        EvolvedIsTidy(w.issues[i], v.issues[i]);
      } else {
        FromSomeIsTidy(v.issues[i], Filed(cfg, snap, w.issues), cfg);
      }
    }
  }

  /** An open issue on this app that carries the operation's marker. */
  predicate StandsAt(issue: Issue, app: string, s: string) {
    issue.open && issue.title == Some(OpKey(app)) && HasMark(issue, TerminatedMarker(app, s))
  }

  predicate Standing(w: World, app: string, s: string) {
    exists n :: 0 <= n < |w.issues| && StandsAt(w.issues[n], app, s)
  }

  lemma MarkPersists(a: Issue, b: Issue, m: Marker)
    requires IssueEvolves(a, b) && HasMark(a, m)
    ensures HasMark(b, m)
  {
    if m !in a.body {
      var i :| 0 <= i < |a.comments| && m in a.comments[i];
      assert m in b.comments[i];
    }
  }

  // ---- Steps that leave the operation alone ----

  predicate Touches(step: Step, app: string, s: string) {
    || (step.TerminateTracked? && step.app == app && step.startedAt == s)
    || (step.File? && IsOp(step.finding, app, s))
  }

  predicate QuietOp(w: World, v: World, app: string, s: string) {
    && w.log <= v.log
    && forall i :: |w.log| <= i < |v.log| ==>
                     v.log[i] != Terminated(app, s) && v.log[i] != TerminateLost(app, s)
  }

  lemma {:induction false} QuietOpCounts(a: seq<Event>, b: seq<Event>, app: string, s: string)
    requires a <= b
    requires forall i :: |a| <= i < |b| ==> b[i] != Terminated(app, s) && b[i] != TerminateLost(app, s)
    ensures Outstanding(b, app, s) == Outstanding(a, app, s)
    ensures Count(b, Terminates(app, s)) == Count(a, Terminates(app, s))
  {
    if |a| == |b| {
      assert a == b;
    } else {
      QuietOpCounts(a, Front(b), app, s);
    }
  }

  lemma ActQuietOp(w: World, n: nat, facts: DarkFacts, state: LadderState, cfg: LadderConfig, now: real,
                   app: string, s: string, g: Replies)
    requires n < |w.issues|
    ensures QuietOp(w, Act(w, n, facts, state, cfg, now, g), app, s)
  {
    ActOutcome(w, n, facts, state, cfg, now, g);
  }

  lemma FileQuietOp(w: World, f: Finding, cfg: Config, now: real, app: string, s: string, g: Replies)
    requires !IsOp(f, app, s)
    ensures QuietOp(w, RunFile(w, f, cfg, now, g), app, s)
  {
    if w.alive && f.NodeFinding? {
      var made := Create(w, IssueFor(f, false), g);
      if made.alive {
        ActQuietOp(made, |w.issues|, f.facts, DEFAULT_STATE, cfg.ladder, now, app, s, g);
      }
    }
  }

  lemma OtherStepQuietOp(w: World, step: Step, cfg: Config, now: real, app: string, s: string, g: Replies)
    requires !Touches(step, app, s)
    ensures QuietOp(w, Exec(w, step, cfg, now, g), app, s)
  {
    if step.ClimbTracked? {
      if w.alive && step.issue < |w.issues| {
        ActQuietOp(Read(w, g), step.issue, step.facts, ThreadState(w.issues[step.issue].comments), cfg.ladder, now,
                   app, s, g);
      }
    } else if step.File? {
      FileQuietOp(w, step.finding, cfg, now, app, s, g);
    }
  }

  lemma {:induction false} QuietStepsKeep(w: World, steps: seq<Step>, cfg: Config, now: real, app: string, s: string,
                                          g: Replies)
    requires forall t :: t in steps ==> !Touches(t, app, s)
    ensures Outstanding(ExecAll(w, steps, cfg, now, g).log, app, s) == Outstanding(w.log, app, s)
  {
    if steps != [] {
      var u := ExecAll(w, Front(steps), cfg, now, g);
      QuietStepsKeep(w, Front(steps), cfg, now, app, s, g);
      OtherStepQuietOp(u, Last(steps), cfg, now, app, s, g);
      QuietOpCounts(u.log, Exec(u, Last(steps), cfg, now, g).log, app, s);
    }
  }

  // ---- Steps that terminate the operation ----

  lemma LogPair(log: seq<Event>, app: string, s: string)
    ensures Outstanding(log + [Terminated(app, s)], app, s) == Outstanding(log, app, s) + 1
    ensures Outstanding(log + [Terminated(app, s), TerminateLost(app, s)], app, s) == Outstanding(log, app, s)
    ensures Count(log + [Terminated(app, s)], Terminates(app, s)) == Count(log, Terminates(app, s)) + 1
  {
    var done, lost := Terminated(app, s), TerminateLost(app, s);
    Snoc(log, done);
    Snoc(log + [done], lost);
    assert log + [done, lost] == log + [done] + [lost];
  }

  /** All that a terminate on a tracked issue does to the operation. */
  lemma TerminateOutcome(w: World, n: nat, app: string, s: string, g: Replies)
    requires n < |w.issues|
    ensures var v := RunTerminate(w, n, app, s, g);
            var mark := TerminatedMarker(app, s);
            || (v.log == w.log && v.issues == w.issues && (v.alive && w.alive ==> HasMark(w.issues[n], mark)))
            || (!HasMark(w.issues[n], mark) && v.log == w.log + [Terminated(app, s), TerminateLost(app, s)]
                && v.issues == w.issues && !v.alive)
            || (!HasMark(w.issues[n], mark) && v.log == w.log + [Terminated(app, s)]
                && v.issues == WithComment(w.issues, n, TerminateText(app, s)))
  {
    var read := Read(w, g);
    if w.alive && read.alive && !HasMark(w.issues[n], TerminatedMarker(app, s)) {
      var sent := DispatchTerminate(read, app, s, g);
      assert w.log + [Terminated(app, s)] + [TerminateLost(app, s)]
          == w.log + [Terminated(app, s), TerminateLost(app, s)];
    }
  }

  lemma CommentMarks(issues: seq<Issue>, n: nat, app: string, s: string)
    requires n < |issues|
    ensures HasMark(WithComment(issues, n, TerminateText(app, s))[n], TerminatedMarker(app, s))
  {
    var after := WithComment(issues, n, TerminateText(app, s))[n];
    assert TerminatedMarker(app, s) in after.comments[|after.comments| - 1];
  }

  /** The marker on the issue stops a second dispatch. */
  predicate Guarded(w: World, n: nat, app: string, s: string) {
    && n < |w.issues| && AtMostOne(w, app, s)
    && (Outstanding(w.log, app, s) == 1 ==> HasMark(w.issues[n], TerminatedMarker(app, s)))
  }

  lemma TerminateKeepsGuard(w: World, n: nat, app: string, s: string, g: Replies)
    requires Guarded(w, n, app, s)
    ensures Guarded(RunTerminate(w, n, app, s, g), n, app, s)
  {
    TerminateOutcome(w, n, app, s, g);
    LogPair(w.log, app, s);
    CommentMarks(w.issues, n, app, s);
  }

  lemma {:induction false} StepsKeepGuard(w: World, steps: seq<Step>, cfg: Config, now: real, n: nat,
                                          app: string, s: string, g: Replies)
    requires Guarded(w, n, app, s)
    requires forall t :: t in steps ==> !Touches(t, app, s) || t == TerminateTracked(n, app, s)
    ensures Guarded(ExecAll(w, steps, cfg, now, g), n, app, s)
  {
    if steps != [] {
      var u := ExecAll(w, Front(steps), cfg, now, g);
      StepsKeepGuard(w, Front(steps), cfg, now, n, app, s, g);
      assert Last(steps) in steps;
      if Touches(Last(steps), app, s) {
        TerminateKeepsGuard(u, n, app, s, g);
      } else {
        QuietStepKeepsGuard(u, Last(steps), cfg, now, n, app, s, g);
      }
    }
  }

  lemma QuietStepKeepsGuard(u: World, step: Step, cfg: Config, now: real, n: nat, app: string, s: string, g: Replies)
    requires Guarded(u, n, app, s) && !Touches(step, app, s)
    ensures Guarded(Exec(u, step, cfg, now, g), n, app, s)
  {
    var v := Exec(u, step, cfg, now, g);
    OtherStepQuietOp(u, step, cfg, now, app, s, g);
    QuietOpCounts(u.log, v.log, app, s);
    ExecEvolves(u, step, cfg, now, g);
    assert IssueEvolves(u.issues[n], v.issues[n]);
    if HasMark(u.issues[n], TerminatedMarker(app, s)) {
      MarkPersists(u.issues[n], v.issues[n], TerminatedMarker(app, s));
    }
  }

  // ---- Filing the operation ----

  lemma MadeMark(f: Finding, terminated: bool, app: string, s: string)
    ensures HasMark(IssueFor(f, terminated), TerminatedMarker(app, s)) <==> IsOp(f, app, s) && terminated
  {
  }

  /** What filing the operation does: nothing, a lost dispatch, or a new issue, marked if one was dispatched for it. */
  predicate OpFiled(w: World, v: World, marked: bool, app: string, s: string) {
    || (v.issues == w.issues && v.log == w.log)
    || (v.issues == w.issues && v.log == w.log + [Terminated(app, s), TerminateLost(app, s)])
    || (|v.issues| == |w.issues| + 1 && v.issues[..|w.issues|] == w.issues
        && (HasMark(v.issues[|w.issues|], TerminatedMarker(app, s)) <==> marked)
        && v.log == w.log + if marked then [Terminated(app, s)] else [])
  }

  lemma FileOutcome(w: World, f: Finding, cfg: Config, now: real, app: string, s: string, g: Replies)
    requires IsOp(f, app, s)
    ensures OpFiled(w, RunFile(w, f, cfg, now, g), cfg.autoTerminate, app, s)
  {
    MadeMark(f, cfg.autoTerminate, app, s);
    if w.alive && cfg.autoTerminate {
      var sent := DispatchTerminate(w, app, s, g);
      assert w.log + [Terminated(app, s)] + [TerminateLost(app, s)]
          == w.log + [Terminated(app, s), TerminateLost(app, s)];
    } else {
      assert w.log + [] == w.log;
    }
  }

  /** One of the issues from `start` on stands for the operation. */
  predicate StandsFrom(w: World, start: nat, app: string, s: string) {
    exists n :: start <= n < |w.issues| && StandsAt(w.issues[n], app, s)
  }

  lemma StandsOn(u: World, v: World, start: nat, f: Finding, cfg: Config, app: string, s: string)
    requires AddsOnly(u, v, f, cfg) && StandsFrom(u, start, app, s)
    ensures StandsFrom(v, start, app, s)
  {
    var n :| start <= n < |u.issues| && StandsAt(u.issues[n], app, s);
    assert IssueEvolves(u.issues[n], v.issues[n]);
    MarkPersists(u.issues[n], v.issues[n], TerminatedMarker(app, s));
    assert StandsAt(v.issues[n], app, s);
  }

  lemma FilingTurn(w: World, fs: seq<Finding>, cfg: Config, now: real, app: string, s: string, g: Replies)
    requires fs != []
    ensures var u, v := FileLoop(w, Front(fs), cfg, now, g), FileLoop(w, fs, cfg, now, g);
            && (!IsOp(Last(fs), app, s) ==> Outstanding(v.log, app, s) == Outstanding(u.log, app, s))
            && (IsOp(Last(fs), app, s) ==>
                  Outstanding(v.log, app, s) == Outstanding(u.log, app, s)
                  || (Outstanding(v.log, app, s) == Outstanding(u.log, app, s) + 1
                      && cfg.autoTerminate && |v.issues| > |u.issues|))
  {
    var u := FileLoop(w, Front(fs), cfg, now, g);
    var v := RunFile(u, Last(fs), cfg, now, g);
    Snoc(Gather(Front(fs), FileStep), File(Last(fs)));
    if IsOp(Last(fs), app, s) {
      FileOutcome(u, Last(fs), cfg, now, app, s, g);
      LogPair(u.log, app, s);
      assert u.log + [] == u.log;
    } else {
      FileQuietOp(u, Last(fs), cfg, now, app, s, g);
      QuietOpCounts(u.log, v.log, app, s);
    }
  }

  lemma {:induction false} FilingTerminatesOnce(w: World, fs: seq<Finding>, cfg: Config, now: real,
                                                app: string, s: string, g: Replies)
    requires Outstanding(w.log, app, s) == 0 && CountKey(fs, OpKey(app)) <= 1
    ensures var v := FileLoop(w, fs, cfg, now, g);
            && AtMostOne(v, app, s)
            && (CountKey(fs, OpKey(app)) == 0 ==> Outstanding(v.log, app, s) == 0)
            && (Outstanding(v.log, app, s) == 1 ==> StandsFrom(v, |w.issues|, app, s))
  {
    if fs != [] {
      var u, v := FileLoop(w, Front(fs), cfg, now, g), FileLoop(w, fs, cfg, now, g);
      FilingTerminatesOnce(w, Front(fs), cfg, now, app, s, g);
      FilingTurn(w, fs, cfg, now, app, s, g);
      LastFiling(w, fs, cfg, now, g);
      FilingMakes(w, Front(fs), cfg, now, g);
      if Outstanding(v.log, app, s) == 1 {
        if Outstanding(u.log, app, s) == 1 {
          StandsOn(u, v, |w.issues|, Last(fs), cfg, app, s);
        } else {
          var issue := v.issues[|u.issues|];
          assert TerminatedMarker(app, s) in issue.body;
          assert StandsAt(issue, app, s);
        }
      }
    }
  }

  // ---- One run ----

  predicate AppReported(cfg: Config, snap: Snapshot, app: string) {
    app in Active(Findings(cfg, snap), StuckArgoOp)
  }

  /** The run leaves an issue on the app open: it could not list applications, or it reports the app. */
  predicate Lasting(cfg: Config, snap: Snapshot, app: string) {
    snap.apps.Some? ==> AppReported(cfg, snap, app)
  }

  lemma ReportedLasts(cfg: Config, snap: Snapshot, app: string, s: string)
    requires Reported(cfg, snap, app, s)
    ensures AppReported(cfg, snap, app) && Lasting(cfg, snap, app)
  {
    var f :| f in Findings(cfg, snap) && IsOp(f, app, s);
    assert f.Kind() == StuckArgoOp && f.Subject() == app;
  }

  /** What the once-per-operation argument needs of the world a run starts in. */
  predicate Ready(w: World, cfg: Config, snap: Snapshot, app: string) {
    && AllTidy(w.issues) && ListedInFull(w.issues)
    && UniqueOpen(w.issues, OpKey(app)) && AtMostOnce(Findings(cfg, snap), OpKey(app))
  }

  lemma SameFinding(fs: seq<Finding>, key: Key, a: Finding, b: Finding)
    requires AtMostOnce(fs, key) && a in fs && b in fs && a.DedupKey() == key && b.DedupKey() == key
    ensures a == b
  {
  }

  lemma {:induction false} SameMatch(a: Finding, b: Finding, issues: seq<Issue>, listed: seq<nat>)
    requires a.DedupKey() == b.DedupKey()
    ensures Match(a, issues, listed) == Match(b, issues, listed)
  {
    if listed != [] {
      SameMatch(a, b, issues, listed[1..]);
    }
  }

  lemma NotResolved(issues: seq<Issue>, n: nat, app: string, kind: Kind, active: set<string>)
    requires n < |issues| && Tidy(issues[n]) && issues[n].title == Some(OpKey(app))
    requires kind == StuckArgoOp ==> app in active
    ensures !Resolved(issues, n, kind, active)
  {
    TidyKey(issues[n], kind);
  }

  lemma NotPlannedClose(issues: seq<Issue>, cfg: Config, snap: Snapshot, app: string, n: nat)
    requires n < |issues| && Tidy(issues[n]) && issues[n].title == Some(OpKey(app))
    requires snap.apps.Some? ==> app in Active(Findings(cfg, snap), StuckArgoOp)
    ensures !PlannedClose(n, cfg, snap, issues)
  {
    var fs := Findings(cfg, snap);
    if snap.apps.Some? {
      NotResolved(issues, n, app, StuckArgoOp, Active(fs, StuckArgoOp));
    }
    NotResolved(issues, n, app, StuckContainerCreating, Active(fs, StuckContainerCreating));
    NotResolved(issues, n, app, ChronicCrashloop, Active(fs, ChronicCrashloop));
    NotResolved(issues, n, app, DarkNode, UnknownNames(snap.nodes));
  }

  lemma ChurnIsElsewhere(issues: seq<Issue>, cfg: Config, snap: Snapshot, app: string, d: Tracked)
    requires d in DupsOf(cfg, snap, issues) && InstanceStep(d) != []
    requires d.issue < |issues| && Tidy(issues[d.issue])
    ensures issues[d.issue].title != Some(OpKey(app))
  {
    DupFacts(d, cfg, snap, issues);
    InstanceKind(d);
    TidyTracking(issues[d.issue], d.finding.DedupKey(), app);
  }

  lemma InstanceKind(d: Tracked)
    requires InstanceStep(d) != []
    ensures d.finding.DedupKey().kind != StuckArgoOp
  {
  }

  lemma TidyTracking(issue: Issue, key: Key, app: string)
    requires Tidy(issue) && Tracks(issue, key) && key.kind != StuckArgoOp
    ensures issue.title != Some(OpKey(app))
  {
    TidyKey(issue, StuckArgoOp);
  }

  /** A tidy issue on an active app is closed by no step of the run. */
  lemma ActiveAppIsNotClosed(w: World, cfg: Config, snap: Snapshot, app: string, n: nat, step: Step)
    requires n < |w.issues| && Tidy(w.issues[n]) && w.issues[n].title == Some(OpKey(app))
    requires snap.apps.Some? ==> app in Active(Findings(cfg, snap), StuckArgoOp)
    requires step in Plan(cfg, snap, w.issues)
    ensures !MayClose(step, n)
  {
    StepPlanned(step, cfg, snap, w.issues);
    NotPlannedClose(w.issues, cfg, snap, app, n);
    if step.UpdateInstance? && step.issue == n {
      var d :| d in DupsOf(cfg, snap, w.issues) && d.issue == n && InstanceStep(d) == [step];
      ChurnIsElsewhere(w.issues, cfg, snap, app, d);
    }
  }

  lemma StandingStays(w: World, cfg: Config, snap: Snapshot, app: string, s: string, n: nat, g: Replies)
    requires n < |w.issues| && Tidy(w.issues[n]) && w.issues[n].open && w.issues[n].title == Some(OpKey(app))
    requires snap.apps.Some? ==> app in Active(Findings(cfg, snap), StuckArgoOp)
    ensures var v := Run(w, cfg, snap, g);
            n < |v.issues| && v.issues[n].open && v.issues[n].title == Some(OpKey(app))
            && IssueEvolves(w.issues[n], v.issues[n])
  {
    PartsEvolve(w, cfg, snap, g);
    assert IssueEvolves(w.issues[n], Run(w, cfg, snap, g).issues[n]);
    var steps := Plan(cfg, snap, w.issues);
    forall t | t in steps ensures !MayClose(t, n) {
      ActiveAppIsNotClosed(w, cfg, snap, app, n, t);
    }
    ExecAllEvolves(Read(w.(alive := true), g), steps, cfg, snap.now, g);
  }

  /** In a run that does not report the operation nothing is dispatched for it. */
  lemma UnreportedIsUntouched(w: World, cfg: Config, snap: Snapshot, app: string, s: string, g: Replies)
    requires !Reported(cfg, snap, app, s)
    ensures Outstanding(Run(w, cfg, snap, g).log, app, s) == Outstanding(w.log, app, s)
  {
    var steps := Plan(cfg, snap, w.issues);
    forall t | t in steps ensures !Touches(t, app, s) {
      StepPlanned(t, cfg, snap, w.issues);
      if t.TerminateTracked? {
        var d :| d in DupsOf(cfg, snap, w.issues) && d.issue == t.issue && TerminateStep(d) == [t];
        DupFacts(d, cfg, snap, w.issues);
      } else if t.File? {
        FiledIsNew(cfg, snap, w.issues, t.finding);
      }
    }
    QuietStepsKeep(Read(w.(alive := true), g), steps, cfg, snap.now, app, s, g);
  }

  /** A reported operation on a tracked app: only that issue is acted on. */
  lemma TrackedTouch(w: World, cfg: Config, snap: Snapshot, f: Finding, n: nat, step: Step)
    requires f in Findings(cfg, snap) && f.OpFinding? && AtMostOnce(Findings(cfg, snap), OpKey(f.app))
    requires Match(f, w.issues, StillOpen(cfg, snap, w.issues)) == Some(n) && step in Plan(cfg, snap, w.issues)
    ensures !Touches(step, f.app, f.startedAt) || step == TerminateTracked(n, f.app, f.startedAt)
  {
    var fs, still := Findings(cfg, snap), StillOpen(cfg, snap, w.issues);
    StepPlanned(step, cfg, snap, w.issues);
    if step.TerminateTracked? && step.app == f.app {
      var d :| d in DupsOf(cfg, snap, w.issues) && d.issue == step.issue && TerminateStep(d) == [step];
      DuplicateSound(fs, w.issues, still, d);
      SameFinding(fs, OpKey(f.app), d.finding, f);
    } else if step.File? && IsOp(step.finding, f.app, f.startedAt) {
      FiledIsNew(cfg, snap, w.issues, step.finding);
      SameMatch(step.finding, f, w.issues, still);
    }
  }

  lemma TrackedIsOpen(cfg: Config, snap: Snapshot, issues: seq<Issue>, f: Finding, n: nat)
    requires Match(f, issues, StillOpen(cfg, snap, issues)) == Some(n)
    ensures n < |issues| && issues[n].open && Tracks(issues[n], f.DedupKey())
  {
    MatchSound(f, issues, StillOpen(cfg, snap, issues));
    KeptIsListed(cfg, snap, issues, n);
    var k :| 0 <= k < |Listing(issues)| && Listing(issues)[k] == n;
    assert n == OpenIssues(issues)[k];
    OpenIssuesExact(issues, n);
  }

  lemma TrackedRun(w: World, cfg: Config, snap: Snapshot, f: Finding, n: nat, g: Replies)
    requires f in Findings(cfg, snap) && f.OpFinding? && Ready(w, cfg, snap, f.app)
    requires Match(f, w.issues, StillOpen(cfg, snap, w.issues)) == Some(n)
    requires AtMostOne(w, f.app, f.startedAt)
    requires Outstanding(w.log, f.app, f.startedAt) == 1 ==> Standing(w, f.app, f.startedAt)
    ensures var v := Run(w, cfg, snap, g);
            AtMostOne(v, f.app, f.startedAt)
            && (Outstanding(v.log, f.app, f.startedAt) == 1 ==> Standing(v, f.app, f.startedAt))
  {
    var app, s := f.app, f.startedAt;
    var steps, start := Plan(cfg, snap, w.issues), Read(w.(alive := true), g);
    TrackedIsOpen(cfg, snap, w.issues, f, n);
    TidyKey(w.issues[n], StuckArgoOp);
    if Outstanding(w.log, app, s) == 1 {
      var k :| 0 <= k < |w.issues| && StandsAt(w.issues[k], app, s);
      TidyKey(w.issues[k], StuckArgoOp);
      assert OpenOn(w.issues[k], OpKey(app)) && OpenOn(w.issues[n], OpKey(app));
    }
    assert Guarded(start, n, app, s);
    forall t | t in steps ensures !Touches(t, app, s) || t == TerminateTracked(n, app, s) {
      TrackedTouch(w, cfg, snap, f, n, t);
    }
    StepsKeepGuard(start, steps, cfg, snap.now, n, app, s, g);
    StandingStays(w, cfg, snap, app, s, n, g);
    var v := Run(w, cfg, snap, g);
    assert Outstanding(v.log, app, s) == 1 ==> StandsAt(v.issues[n], app, s);
  }

  /** If the operation stands, its app is tracked: the issue is listed and kept. */
  lemma StandingIsTracked(w: World, cfg: Config, snap: Snapshot, f: Finding)
    requires f in Findings(cfg, snap) && f.OpFinding? && Ready(w, cfg, snap, f.app)
    requires Standing(w, f.app, f.startedAt)
    ensures Match(f, w.issues, StillOpen(cfg, snap, w.issues)).Some?
  {
    var n :| 0 <= n < |w.issues| && StandsAt(w.issues[n], f.app, f.startedAt);
    TidyKey(w.issues[n], StuckArgoOp);
    TidyKey(w.issues[n], StuckContainerCreating);
    TidyKey(w.issues[n], ChronicCrashloop);
    FullListing(w.issues, n);
    var fs := Findings(cfg, snap);
    assert f.app in Active(fs, StuckArgoOp);
    KeptExact(w.issues, Listing(w.issues), StuckArgoOp, Active(fs, StuckArgoOp), n);
    KeptExact(w.issues, AfterArgo(cfg, snap, w.issues), StuckContainerCreating, Active(fs, StuckContainerCreating), n);
    KeptExact(w.issues, AfterCreating(cfg, snap, w.issues), ChronicCrashloop, Active(fs, ChronicCrashloop), n);
    MatchSound(f, w.issues, StillOpen(cfg, snap, w.issues));
  }

  lemma NewTouch(w: World, cfg: Config, snap: Snapshot, f: Finding, step: Step)
    requires f in Findings(cfg, snap) && f.OpFinding? && AtMostOnce(Findings(cfg, snap), OpKey(f.app))
    requires Match(f, w.issues, StillOpen(cfg, snap, w.issues)).None?
    requires step in ClosingSteps(cfg, snap, w.issues) || step in ActingSteps(cfg, snap, w.issues)
    ensures !Touches(step, f.app, f.startedAt)
  {
    var fs, still := Findings(cfg, snap), StillOpen(cfg, snap, w.issues);
    if step in ClosingSteps(cfg, snap, w.issues) {
      ClosingStepPlanned(step, cfg, snap, w.issues);
    } else {
      ActingHasNoFile(step, cfg, snap, w.issues);
      ActingStepPlanned(step, cfg, snap, w.issues);
      if step.TerminateTracked? && step.app == f.app {
        var d :| d in DupsOf(cfg, snap, w.issues) && d.issue == step.issue && TerminateStep(d) == [step];
        DuplicateSound(fs, w.issues, still, d);
        SameMatch(d.finding, f, w.issues, still);
      }
    }
  }

  lemma NewRun(w: World, cfg: Config, snap: Snapshot, f: Finding, g: Replies)
    requires f in Findings(cfg, snap) && f.OpFinding? && Ready(w, cfg, snap, f.app)
    requires Match(f, w.issues, StillOpen(cfg, snap, w.issues)).None?
    requires Outstanding(w.log, f.app, f.startedAt) == 0
    ensures var v := Run(w, cfg, snap, g);
            AtMostOne(v, f.app, f.startedAt)
            && (Outstanding(v.log, f.app, f.startedAt) == 1 ==> Standing(v, f.app, f.startedAt))
  {
    var app, s := f.app, f.startedAt;
    var start, filed := Read(w.(alive := true), g), Filed(cfg, snap, w.issues);
    var closing, acting := ClosingSteps(cfg, snap, w.issues), ActingSteps(cfg, snap, w.issues);
    forall t | t in closing || t in acting ensures !Touches(t, app, s) {
      NewTouch(w, cfg, snap, f, t);
    }
    QuietStepsKeep(start, closing, cfg, snap.now, app, s, g);
    QuietStepsKeep(AfterClosing(w, cfg, snap, g), acting, cfg, snap.now, app, s, g);
    var u := AfterActing(w, cfg, snap, g);
    RunInParts(w, cfg, snap, g);
    LabelThenFile(u, filed, cfg, snap.now, g);
    CountOfUnique(Findings(cfg, snap), OpKey(app));
    FiledCount(cfg, snap, w.issues, OpKey(app));
    FilingTerminatesOnce(Tolerated(u, g), filed, cfg, snap.now, app, s, g);
  }

  lemma StandsAfter(w: World, cfg: Config, snap: Snapshot, app: string, s: string, g: Replies)
    requires AllTidy(w.issues) && Standing(w, app, s) && Lasting(cfg, snap, app)
    ensures Standing(Run(w, cfg, snap, g), app, s)
  {
    var n :| 0 <= n < |w.issues| && StandsAt(w.issues[n], app, s);
    var v := Run(w, cfg, snap, g);
    StandingStays(w, cfg, snap, app, s, n, g);
    MarkPersists(w.issues[n], v.issues[n], TerminatedMarker(app, s));
    assert StandsAt(v.issues[n], app, s);
  }

  /**
    One run: at most one dispatch of an operation is outstanding, and a run that reports its app
    or could not list applications leaves it standing on an open issue.
   */
  lemma RunTerminatesOnce(w: World, cfg: Config, snap: Snapshot, app: string, s: string, g: Replies)
    requires Ready(w, cfg, snap, app) && AtMostOne(w, app, s)
    requires Outstanding(w.log, app, s) == 1 && Lasting(cfg, snap, app) ==> Standing(w, app, s)
    ensures var v := Run(w, cfg, snap, g);
            && AtMostOne(v, app, s)
            && (!Reported(cfg, snap, app, s) ==> Outstanding(v.log, app, s) == Outstanding(w.log, app, s))
            && (Outstanding(v.log, app, s) == 1 && Lasting(cfg, snap, app) ==> Standing(v, app, s))
  {
    if Reported(cfg, snap, app, s) {
      ReportedLasts(cfg, snap, app, s);
      var f :| f in Findings(cfg, snap) && IsOp(f, app, s);
      var m := Match(f, w.issues, StillOpen(cfg, snap, w.issues));
      if m.Some? {
        TrackedRun(w, cfg, snap, f, m.value, g);
      } else {
        if Standing(w, app, s) {
          StandingIsTracked(w, cfg, snap, f);
        }
        NewRun(w, cfg, snap, f, g);
      }
    } else {
      UnreportedIsUntouched(w, cfg, snap, app, s, g);
      if Lasting(cfg, snap, app) && Outstanding(w.log, app, s) == 1 {
        StandsAfter(w, cfg, snap, app, s, g);
      }
    }
  }

  // ---- Whole histories ----

  /** People comment and file issues without watchdog keys; they close, reopen and edit nothing. */
  predicate HandsOff(before: seq<Issue>, after: seq<Issue>) {
    && |before| <= |after|
    && (forall n :: 0 <= n < |before| ==>
          IssueEvolves(before[n], after[n]) && after[n].open == before[n].open)
    && (forall n :: |before| <= n < |after| ==>
          after[n].title == None && forall m :: m in after[n].body ==> !m.KeyMarker?)
  }

  /** People leave the issues alone, and a run sees all open issues and a batch with this key at most once. */
  predicate OrderlyAt(es: seq<Episode>, i: nat, cfg: Config, key: Key, g: Replies)
    requires i < |es|
  {
    var before := After(START, es[..i], cfg, g).issues;
    if es[i].RunOn? then ListedInFull(before) && AtMostOnce(Findings(cfg, es[i].snap), key)
    else HandsOff(before, es[i].issues)
  }

  predicate OrderlyFor(es: seq<Episode>, cfg: Config, key: Key, g: Replies) {
    forall i :: 0 <= i < |es| ==> OrderlyAt(es, i, cfg, key, g)
  }

  /** Each episode is a hands-off edit, or a run that saw all open issues and distinct app names. */
  predicate Orderly(es: seq<Episode>, cfg: Config, app: string, g: Replies) {
    OrderlyFor(es, cfg, OpKey(app), g)
  }

  predicate CompletesAt(es: seq<Episode>, i: nat, cfg: Config, g: Replies)
    requires i < |es|
  {
    es[i].RunOn? ==> Completed(After(START, es[..i], cfg, g), cfg, es[i].snap, g)
  }

  predicate ReportedAt(es: seq<Episode>, i: nat, cfg: Config, app: string, s: string) {
    i < |es| && es[i].RunOn? && Reported(cfg, es[i].snap, app, s)
  }

  /** A run that listed the applications and reports none stuck of this name: its issue closes. */
  predicate SweptAt(es: seq<Episode>, j: nat, cfg: Config, app: string) {
    j < |es| && es[j].RunOn? && !Lasting(cfg, es[j].snap, app)
  }

  /** The operation is reported, then its app by one run not, then the operation again. */
  predicate ComesBack(es: seq<Episode>, i: nat, j: nat, k: nat, cfg: Config, app: string, s: string) {
    i < j < k && ReportedAt(es, i, cfg, app, s) && SweptAt(es, j, cfg, app) && ReportedAt(es, k, cfg, app, s)
  }

  /** An operation whose app was reported clear does not come back. */
  predicate EndsForGood(es: seq<Episode>, cfg: Config, app: string, s: string) {
    forall i, j, k | 0 <= i < j < k < |es| :: !ComesBack(es, i, j, k, cfg, app, s)
  }

  predicate OverBy(es: seq<Episode>, i: nat, cfg: Config, app: string, s: string) {
    forall k :: i <= k < |es| ==> !ReportedAt(es, k, cfg, app, s)
  }

  lemma HandsOffTidy(before: seq<Issue>, after: seq<Issue>, key: Key)
    requires HandsOff(before, after) && AllTidy(before)
    ensures AllTidy(after)
    ensures forall n :: |before| <= n < |after| ==> !Tracks(after[n], key)
  {
    forall n | 0 <= n < |after| ensures Tidy(after[n]) && (n >= |before| ==> !Tracks(after[n], key)) {
      if n < |before| {
        assert IssueEvolves(before[n], after[n]);
      }
    }
  }

  lemma HandsOffStanding(w: World, after: seq<Issue>, app: string, s: string)
    requires HandsOff(w.issues, after) && AllTidy(w.issues) && UniqueOpen(w.issues, OpKey(app))
    ensures AllTidy(after) && UniqueOpen(after, OpKey(app))
    ensures Standing(w, app, s) ==> Standing(w.(issues := after), app, s)
  {
    HandsOffTidy(w.issues, after, OpKey(app));
    forall n | 0 <= n < |w.issues| ensures OpenOn(after[n], OpKey(app)) == OpenOn(w.issues[n], OpKey(app)) {
      assert IssueEvolves(w.issues[n], after[n]);
    }
    if Standing(w, app, s) {
      var n :| 0 <= n < |w.issues| && StandsAt(w.issues[n], app, s);
      MarkPersists(w.issues[n], after[n], TerminatedMarker(app, s));
      assert StandsAt(after[n], app, s);
    }
  }

  /** What holds after the first `i` episodes of a history. */
  predicate OnceSoFar(es: seq<Episode>, i: nat, cfg: Config, app: string, s: string, g: Replies)
    requires i <= |es|
  {
    var w := After(START, es[..i], cfg, g);
    && AllTidy(w.issues) && UniqueOpen(w.issues, OpKey(app)) && AtMostOne(w, app, s)
    && (Outstanding(w.log, app, s) == 1 ==>
          && (exists j :: 0 <= j < i && ReportedAt(es, j, cfg, app, s))
          && (Standing(w, app, s) || OverBy(es, i, cfg, app, s)))
  }

  lemma AfterNext(es: seq<Episode>, i: nat, cfg: Config, g: Replies)
    requires i < |es|
    ensures After(START, es[..i + 1], cfg, g)
            == var v := After(START, es[..i], cfg, g);
               if es[i].RunOn? then Run(v, cfg, es[i].snap, g) else v.(issues := es[i].issues)
  {
    assert Front(es[..i + 1]) == es[..i];
  }

  lemma RunStep(es: seq<Episode>, i: nat, cfg: Config, app: string, s: string, g: Replies)
    requires i < |es| && es[i].RunOn? && OnceSoFar(es, i, cfg, app, s, g)
    requires Orderly(es, cfg, app, g) && EndsForGood(es, cfg, app, s)
    ensures OnceSoFar(es, i + 1, cfg, app, s, g)
  {
    var w, snap := After(START, es[..i], cfg, g), es[i].snap;
    var v := Run(w, cfg, snap, g);
    AfterNext(es, i, cfg, g);
    assert OrderlyAt(es, i, cfg, OpKey(app), g);
    RunKeepsTidy(w, cfg, snap, g);
    DistinctKeysFiledOnce(cfg, snap, w.issues, OpKey(app));
    FullListHidesNone(w.issues, OpKey(app));
    KeysStayUnique(w, cfg, snap, OpKey(app), g);
    assert ReportedAt(es, i, cfg, app, s) == Reported(cfg, snap, app, s);
    if Outstanding(w.log, app, s) == 1 && !Standing(w, app, s) {
      assert OverBy(es, i, cfg, app, s);
      assert !Reported(cfg, snap, app, s);
      UnreportedIsUntouched(w, cfg, snap, app, s, g);
      assert OverBy(es, i + 1, cfg, app, s);
    } else {
      RunTerminatesOnce(w, cfg, snap, app, s, g);
      if Outstanding(v.log, app, s) == 1 && !Lasting(cfg, snap, app) {
        SweptIsOver(es, i, cfg, app, s);
      }
    }
  }

  lemma SweptIsOver(es: seq<Episode>, i: nat, cfg: Config, app: string, s: string)
    requires SweptAt(es, i, cfg, app) && EndsForGood(es, cfg, app, s)
    requires exists j :: 0 <= j < i && ReportedAt(es, j, cfg, app, s)
    ensures OverBy(es, i + 1, cfg, app, s)
  {
    var j :| 0 <= j < i && ReportedAt(es, j, cfg, app, s);
    forall k | i + 1 <= k < |es| ensures !ReportedAt(es, k, cfg, app, s) {
      assert !ComesBack(es, j, i, k, cfg, app, s);
    }
  }

  lemma PeopleStep(es: seq<Episode>, i: nat, cfg: Config, app: string, s: string, g: Replies)
    requires i < |es| && es[i].People? && OnceSoFar(es, i, cfg, app, s, g) && Orderly(es, cfg, app, g)
    ensures OnceSoFar(es, i + 1, cfg, app, s, g)
  {
    AfterNext(es, i, cfg, g);
    assert OrderlyAt(es, i, cfg, OpKey(app), g);
    HandsOffStanding(After(START, es[..i], cfg, g), es[i].issues, app, s);
    assert OverBy(es, i, cfg, app, s) ==> OverBy(es, i + 1, cfg, app, s);
  }

  lemma {:induction false} OnceThroughout(es: seq<Episode>, i: nat, cfg: Config, app: string, s: string, g: Replies)
    requires i <= |es| && Orderly(es, cfg, app, g) && EndsForGood(es, cfg, app, s)
    ensures OnceSoFar(es, i, cfg, app, s, g)
  {
    if i == 0 {
      OnceAtStart(es, cfg, app, s, g);
    } else {
      OnceThroughout(es, i - 1, cfg, app, s, g);
      OnceNext(es, i - 1, cfg, app, s, g);
    }
  }

  lemma OnceNext(es: seq<Episode>, i: nat, cfg: Config, app: string, s: string, g: Replies)
    requires i < |es| && OnceSoFar(es, i, cfg, app, s, g)
    requires Orderly(es, cfg, app, g) && EndsForGood(es, cfg, app, s)
    ensures OnceSoFar(es, i + 1, cfg, app, s, g)
  {
    if es[i].RunOn? {
      RunStep(es, i, cfg, app, s, g);
    } else {
      PeopleStep(es, i, cfg, app, s, g);
    }
  }

  lemma OnceAtStart(es: seq<Episode>, cfg: Config, app: string, s: string, g: Replies)
    ensures OnceSoFar(es, 0, cfg, app, s, g)
  {
    assert es[..0] == [];
  }

  /**
    Each operation is terminated at most once, plus once for every record of its terminate
    that was lost, over every orderly history in which it ends for good.
   */
  lemma TerminatedOncePerOperation(es: seq<Episode>, cfg: Config, app: string, s: string, g: Replies)
    requires Orderly(es, cfg, app, g) && EndsForGood(es, cfg, app, s)
    ensures var log := After(START, es, cfg, g).log;
            Count(log, LostTerminates(app, s)) <= Count(log, Terminates(app, s))
            <= 1 + Count(log, LostTerminates(app, s))
  {
    OnceThroughout(es, |es|, cfg, app, s, g);
    assert es[..|es|] == es;
  }

  // ---- Every tracked operation is acted on ----

  lemma TerminateMarks(w: World, n: nat, app: string, s: string, g: Replies)
    requires n < |w.issues| && w.alive && RunTerminate(w, n, app, s, g).alive
    ensures n < |RunTerminate(w, n, app, s, g).issues|
            && HasMark(RunTerminate(w, n, app, s, g).issues[n], TerminatedMarker(app, s))
  {
    TerminateOutcome(w, n, app, s, g);
    CommentMarks(w.issues, n, app, s);
  }

  lemma {:induction false} MarkHappens(w: World, steps: seq<Step>, n: nat, cfg: Config, now: real,
                                       app: string, s: string, g: Replies)
    requires TerminateTracked(n, app, s) in steps && n < |w.issues| && ExecAll(w, steps, cfg, now, g).alive
    ensures n < |ExecAll(w, steps, cfg, now, g).issues|
            && HasMark(ExecAll(w, steps, cfg, now, g).issues[n], TerminatedMarker(app, s))
  {
    var before := Front(steps);
    var u := ExecAll(w, before, cfg, now, g);
    assert steps == before + [Last(steps)];
    AliveSoFar(w, before, [Last(steps)], cfg, now, g);
    ExecAllEvolves(w, before, cfg, now, g);
    ExecEvolves(u, Last(steps), cfg, now, g);
    if TerminateTracked(n, app, s) in before {
      MarkHappens(w, before, n, cfg, now, app, s, g);
      MarkPersists(u.issues[n], ExecAll(w, steps, cfg, now, g).issues[n], TerminatedMarker(app, s));
    } else {
      TerminateMarks(u, n, app, s, g);
    }
  }

  lemma {:induction false} CountGrows(a: seq<Event>, b: seq<Event>, what: What)
    requires a <= b
    ensures Count(a, what) <= Count(b, what)
  {
    if |a| == |b| {
      assert a == b;
    } else {
      CountGrows(a, Front(b), what);
    }
  }

  lemma OtherCommentMarks(issues: seq<Issue>, k: nat, text: Text, n: nat, m: Marker)
    requires n < |issues| && m !in text
    ensures HasMark(WithComment(issues, k, text)[n], m) == HasMark(issues[n], m)
  {
    var a, b := issues[n], WithComment(issues, k, text)[n];
    if HasMark(a, m) && m !in a.body {
      var i :| 0 <= i < |a.comments| && m in a.comments[i];
      assert m in b.comments[i];
    }
  }

  /** A step that does not touch the operation adds its marker to no existing issue. */
  lemma OtherStepMarks(w: World, step: Step, cfg: Config, now: real, n: nat, app: string, s: string, g: Replies)
    requires n < |w.issues| && !Touches(step, app, s)
    ensures n < |Exec(w, step, cfg, now, g).issues|
    ensures HasMark(Exec(w, step, cfg, now, g).issues[n], TerminatedMarker(app, s))
            == HasMark(w.issues[n], TerminatedMarker(app, s))
  {
    var m := TerminatedMarker(app, s);
    match step
    case CloseResolved(k) => OtherCommentMarks(w.issues, k, [], n, m);
    case UpdateInstance(k, pod) => OtherCommentMarks(w.issues, k, [InstanceMarker(pod)], n, m);
    case TerminateTracked(k, a, t) =>
      OtherCommentMarks(w.issues, k, TerminateText(a, t), n, m);
      if k < |w.issues| {
        TerminateOutcome(w, k, a, t, g);
      }
    case ClimbTracked(k, facts) =>
      if w.alive && k < |w.issues| {
        var state := ThreadState(w.issues[k].comments);
        ActOutcome(Read(w, g), k, facts, state, cfg.ladder, now, g);
        OtherCommentMarks(w.issues, k, [StateMarker(Render(Decide(facts, state, cfg.ladder, now).state))], n, m);
      }
    case EnsureLabel =>
    case File(f) => FileTouchesNoOld(w, f, cfg, now, n, g);
  }

  lemma FileTouchesNoOld(w: World, f: Finding, cfg: Config, now: real, n: nat, g: Replies)
    requires n < |w.issues|
    ensures n < |RunFile(w, f, cfg, now, g).issues| && RunFile(w, f, cfg, now, g).issues[n] == w.issues[n]
  {
    if w.alive && f.NodeFinding? {
      var made := Create(w, IssueFor(f, false), g);
      if made.alive {
        ActOutcome(made, |w.issues|, f.facts, DEFAULT_STATE, cfg.ladder, now, g);
      }
    }
  }

  /** A marker that appeared on an issue was preceded by a dispatch. */
  lemma {:induction false} MarkMeansDispatch(w: World, steps: seq<Step>, n: nat, cfg: Config, now: real,
                                             app: string, s: string, g: Replies)
    requires n < |w.issues| && !HasMark(w.issues[n], TerminatedMarker(app, s))
    requires forall t :: t in steps ==> !(t.File? && IsOp(t.finding, app, s))
    ensures var v := ExecAll(w, steps, cfg, now, g);
            && n < |v.issues| && w.log <= v.log
            && (HasMark(v.issues[n], TerminatedMarker(app, s)) ==>
                  Count(v.log, Terminates(app, s)) > Count(w.log, Terminates(app, s)))
  {
    if steps != [] {
      var u, last := ExecAll(w, Front(steps), cfg, now, g), Last(steps);
      var v := Exec(u, last, cfg, now, g);
      MarkMeansDispatch(w, Front(steps), n, cfg, now, app, s, g);
      assert last in steps;
      ExecEvolves(u, last, cfg, now, g);
      CountGrows(w.log, u.log, Terminates(app, s));
      CountGrows(u.log, v.log, Terminates(app, s));
      if !Touches(last, app, s) {
        OtherStepMarks(u, last, cfg, now, n, app, s, g);
      } else if last.issue < |u.issues| {
        TerminateOutcome(u, last.issue, app, s, g);
        LogPair(u.log, app, s);
      }
    }
  }

  /**
    With automatic termination on, a completed run leaves the marker of every stuck operation
    on the issue that tracks its app; and an operation not yet marked there, such as a new one
    on an app already tracked, was dispatched in this very run.
   */
  lemma TrackedOpIsTerminated(w: World, cfg: Config, snap: Snapshot, f: Finding, n: nat, g: Replies)
    requires Completed(w, cfg, snap, g) && cfg.autoTerminate
    requires f in Findings(cfg, snap) && f.OpFinding?
    requires Match(f, w.issues, StillOpen(cfg, snap, w.issues)) == Some(n)
    ensures var v := Run(w, cfg, snap, g);
            && n < |v.issues| && HasMark(v.issues[n], TerminatedMarker(f.app, f.startedAt))
            && (n < |w.issues| && !HasMark(w.issues[n], TerminatedMarker(f.app, f.startedAt)) ==>
                  Count(v.log, Terminates(f.app, f.startedAt)) > Count(w.log, Terminates(f.app, f.startedAt)))
  {
    var steps, dups := Plan(cfg, snap, w.issues), DupsOf(cfg, snap, w.issues);
    var start, step := Read(w.(alive := true), g), TerminateTracked(n, f.app, f.startedAt);
    TrackedIsOpen(cfg, snap, w.issues, f, n);
    DuplicateSound(Findings(cfg, snap), w.issues, StillOpen(cfg, snap, w.issues), Tracked(f, n));
    var i :| 0 <= i < |dups| && dups[i] == Tracked(f, n);
    assert step in TerminateStep(dups[i]);
    GatherMember(dups, TerminateStep, step);
    assert step in ActingSteps(cfg, snap, w.issues);
    assert step in steps;
    MarkHappens(start, steps, n, cfg, snap.now, f.app, f.startedAt, g);
    if !HasMark(w.issues[n], TerminatedMarker(f.app, f.startedAt)) {
      forall t | t in steps ensures !(t.File? && IsOp(t.finding, f.app, f.startedAt)) {
        StepPlanned(t, cfg, snap, w.issues);
        if t.File? && IsOp(t.finding, f.app, f.startedAt) {
          FiledIsNew(cfg, snap, w.issues, t.finding);
          SameMatch(t.finding, f, w.issues, StillOpen(cfg, snap, w.issues));
        }
      }
      MarkMeansDispatch(start, steps, n, cfg, snap.now, f.app, f.startedAt, g);
    }
  }
}
