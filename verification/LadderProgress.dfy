/**
  Progress: over runs that complete, the thread of a tracked node climbs the ladder by exactly
  the looks those runs take at it, so a node that stays dark reaches the top.
 */
module LadderProgress {
  import opened Common
  import opened DarkLadder
  import opened Detection
  import opened Tracker
  import opened Watchdog
  import opened LadderHistory

  function LookAt(n: nat, now: real): Step -> seq<Look> {
    (s: Step) => if s.ClimbTracked? && s.issue == n then [Look(s.facts, now)] else []
  }

  lemma {:induction false} ClimbConcat(s: LadderState, a: seq<Look>, b: seq<Look>, cfg: LadderConfig)
    ensures Climb(s, a + b, cfg) == Climb(Climb(s, a, cfg), b, cfg)
  {
    if b == [] {
      assert a + b == a;
    } else {
      assert Front(a + b) == a + Front(b);
      ClimbConcat(s, a, Front(b), cfg);
    }
  }

  function StateOf(w: World, n: nat): LadderState
    requires n < |w.issues|
  {
    ThreadState(w.issues[n].comments)
  }

  lemma QuietState(w: World, v: World, n: nat)
    requires n < |w.issues| && Quiet(w, v, n)
    ensures n < |v.issues| && StateOf(v, n) == StateOf(w, n)
  {
    QuietThread(w.issues[n].comments, v.issues[n].comments);
  }

  /** A climb that the run survives moves the thread to the decided state. */
  lemma ClimbAdvances(w: World, n: nat, facts: DarkFacts, cfg: LadderConfig, now: real, g: Replies)
    requires n < |w.issues| && RunClimb(w, n, facts, cfg, now, g).alive
    ensures var v := RunClimb(w, n, facts, cfg, now, g);
            n < |v.issues| && StateOf(v, n) == Decide(facts, StateOf(w, n), cfg, now).state
  {
    var d := Decide(facts, StateOf(w, n), cfg, now);
    MarkedThread(w.issues[n].comments, d.state);
    assert d.action.Stay? ==> d.state == StateOf(w, n);
  }

  lemma FileQuiet(w: World, f: Finding, cfg: Config, now: real, n: nat, g: Replies)
    requires n < |w.issues|
    ensures Quiet(w, RunFile(w, f, cfg, now, g), n)
  {
    if w.alive {
      var terminate := f.OpFinding? && cfg.autoTerminate;
      var sent := if terminate then DispatchTerminate(w, f.app, f.startedAt, g) else w;
      var made := Create(sent, IssueFor(f, terminate), g);
      CreateQuiet(sent, IssueFor(f, terminate), n, g);
      QuietTransitive(w, sent, made, n);
      if f.NodeFinding? {
        ActKeepsOthers(made, |sent.issues|, f.facts, DEFAULT_STATE, cfg.ladder, now, n, g);
      }
    }
  }

  lemma ExecClimbs(w: World, step: Step, cfg: Config, now: real, n: nat, g: Replies)
    requires n < |w.issues| && Exec(w, step, cfg, now, g).alive
    ensures var v := Exec(w, step, cfg, now, g);
            n < |v.issues| && StateOf(v, n) == Climb(StateOf(w, n), LookAt(n, now)(step), cfg.ladder)
  {
    var v := Exec(w, step, cfg, now, g);
    match step
    case CloseResolved(k) => CloseResolvedQuiet(w, k, n, g); QuietState(w, v, n);
    case UpdateInstance(k, pod) => InstanceQuiet(w, k, pod, n, g); QuietState(w, v, n);
    case TerminateTracked(k, app, s) => TerminateQuiet(w, k, app, s, n, g); QuietState(w, v, n);
    case ClimbTracked(k, facts) =>
      if k == n {
        ClimbAdvances(w, n, facts, cfg.ladder, now, g);
      } else {
        if k < |w.issues| {
          ActKeepsOthers(Read(w, g), k, facts, ThreadState(w.issues[k].comments), cfg.ladder, now, n, g);
        }
        QuietState(w, v, n);
      }
    case EnsureLabel =>
    case File(f) => FileQuiet(w, f, cfg, now, n, g); QuietState(w, v, n);
  }

  lemma {:induction false} ExecAllClimbs(w: World, steps: seq<Step>, cfg: Config, now: real, n: nat, g: Replies)
    requires n < |w.issues| && ExecAll(w, steps, cfg, now, g).alive
    ensures var v := ExecAll(w, steps, cfg, now, g);
            n < |v.issues| && StateOf(v, n) == Climb(StateOf(w, n), Gather(steps, LookAt(n, now)), cfg.ladder)
  {
    if steps != [] {
      var u := ExecAll(w, Front(steps), cfg, now, g);
      if !u.alive {
        DeadStays(u, [Last(steps)], cfg, now, g);
        Snoc<Step>([], Last(steps));
      }
      ExecAllClimbs(w, Front(steps), cfg, now, n, g);
      ExecClimbs(u, Last(steps), cfg, now, n, g);
      ClimbConcat(StateOf(w, n), Gather(Front(steps), LookAt(n, now)), LookAt(n, now)(Last(steps)), cfg.ladder);
    }
  }

  /** The looks a run takes at issue `n`. */
  function LooksIn(cfg: Config, snap: Snapshot, issues: seq<Issue>, n: nat): seq<Look> {
    Gather(Plan(cfg, snap, issues), LookAt(n, snap.now))
  }

  /** A completed run applies to the thread the decisions of its looks, and nothing else. */
  lemma RunClimbsThread(w: World, cfg: Config, snap: Snapshot, n: nat, g: Replies)
    requires n < |w.issues| && Completed(w, cfg, snap, g)
    ensures var v := Run(w, cfg, snap, g);
            n < |v.issues| && StateOf(v, n) == Climb(StateOf(w, n), LooksIn(cfg, snap, w.issues, n), cfg.ladder)
  {
    ExecAllClimbs(Read(w.(alive := true), g), Plan(cfg, snap, w.issues), cfg, snap.now, n, g);
  }

  /** A run looks at issue `n` once for each dark finding that the issue tracks. */
  lemma DarkTrackedNodeIsLookedAt(cfg: Config, snap: Snapshot, issues: seq<Issue>, n: nat, f: Finding)
    requires f in Findings(cfg, snap) && f.NodeFinding?
    requires Match(f, issues, StillOpen(cfg, snap, issues)) == Some(n)
    ensures Look(f.facts, snap.now) in LooksIn(cfg, snap, issues, n)
  {
    DuplicateSound(Findings(cfg, snap), issues, StillOpen(cfg, snap, issues), Tracked(f, n));
    ClimbIsGathered(DupsOf(cfg, snap, issues), f, n);
    assert ClimbTracked(n, f.facts) in ActingSteps(cfg, snap, issues);
    ClimbIsLook(Plan(cfg, snap, issues), n, f.facts, snap.now);
  }

  lemma ClimbIsGathered(dups: seq<Tracked>, f: Finding, n: nat)
    requires Tracked(f, n) in dups && f.NodeFinding?
    ensures ClimbTracked(n, f.facts) in Gather(dups, ClimbStep)
  {
    var i :| 0 <= i < |dups| && dups[i] == Tracked(f, n);
    assert ClimbTracked(n, f.facts) in ClimbStep(dups[i]);
    GatherMember(dups, ClimbStep, ClimbTracked(n, f.facts));
  }

  lemma ClimbIsLook(steps: seq<Step>, n: nat, facts: DarkFacts, now: real)
    requires ClimbTracked(n, facts) in steps
    ensures Look(facts, now) in Gather(steps, LookAt(n, now))
  {
    var k :| 0 <= k < |steps| && steps[k] == ClimbTracked(n, facts);
    assert Look(facts, now) in LookAt(n, now)(steps[k]);
    GatherMember(steps, LookAt(n, now), Look(facts, now));
  }

  predicate AllComplete(w: World, es: seq<Episode>, cfg: Config, g: Replies) {
    es == []
    || (&& AllComplete(w, Front(es), cfg, g)
        && (Last(es).RunOn? ==> Completed(After(w, Front(es), cfg, g), cfg, Last(es).snap, g)))
  }

  function LooksOver(w: World, es: seq<Episode>, cfg: Config, n: nat, g: Replies): seq<Look> {
    if es == [] then []
    else
      LooksOver(w, Front(es), cfg, n, g)
      + (if Last(es).RunOn? then LooksIn(cfg, Last(es).snap, After(w, Front(es), cfg, g).issues, n) else [])
  }

  /** Over completed runs and neutral edits a thread holds the climb of all its looks. */
  lemma {:induction false} HistoryClimbs(w: World, es: seq<Episode>, cfg: Config, n: nat, g: Replies)
    requires n < |w.issues| && AllComplete(w, es, cfg, g) && OnlyWatchdogWritesState(w, es, cfg, g)
    ensures var v := After(w, es, cfg, g);
            n < |v.issues| && StateOf(v, n) == Climb(StateOf(w, n), LooksOver(w, es, cfg, n, g), cfg.ladder)
  {
    if es != [] {
      HistoryClimbs(w, Front(es), cfg, n, g);
      var u := After(w, Front(es), cfg, g);
      match Last(es)
      case RunOn(snap) =>
        RunClimbsThread(u, cfg, snap, n, g);
        ClimbConcat(StateOf(w, n), LooksOver(w, Front(es), cfg, n, g), LooksIn(cfg, snap, u.issues, n), cfg.ladder);
      case People(issues) =>
        QuietState(u, u.(issues := issues), n);
        var before := LooksOver(w, Front(es), cfg, n, g);
        assert before + [] == before;
    }
  }

  // ---- Any run, also one that dies ----

  /** A state later in a run at `now`: no further from the top, and rebooted only by getting closer. */
  predicate Moved(s: LadderState, t: LadderState, now: real, cfg: LadderConfig) {
    && LeftToClimb(t, cfg) <= LeftToClimb(s, cfg)
    && (t.lastRebootAt == s.lastRebootAt || (t.lastRebootAt == At(now) && LeftToClimb(t, cfg) < LeftToClimb(s, cfg)))
  }

  lemma DecideMoves(facts: DarkFacts, s: LadderState, cfg: LadderConfig, now: real)
    ensures Moved(s, Decide(facts, s, cfg, now).state, now, cfg)
  {
  }

  lemma ActMoves(w: World, n: nat, facts: DarkFacts, cfg: LadderConfig, now: real, g: Replies)
    requires n < |w.issues|
    ensures var v := Act(w, n, facts, StateOf(w, n), cfg, now, g);
            n < |v.issues| && Moved(StateOf(w, n), StateOf(v, n), now, cfg)
  {
    var d := Decide(facts, StateOf(w, n), cfg, now);
    ActOutcome(w, n, facts, StateOf(w, n), cfg, now, g);
    MarkedThread(w.issues[n].comments, d.state);
    DecideMoves(facts, StateOf(w, n), cfg, now);
  }

  lemma QuietMoves(w: World, v: World, n: nat, now: real, cfg: LadderConfig)
    requires n < |w.issues| && Quiet(w, v, n)
    ensures n < |v.issues| && Moved(StateOf(w, n), StateOf(v, n), now, cfg)
  {
    QuietState(w, v, n);
  }

  lemma RunClimbMoves(w: World, k: nat, facts: DarkFacts, cfg: LadderConfig, now: real, n: nat, g: Replies)
    requires n < |w.issues|
    ensures var v := RunClimb(w, k, facts, cfg, now, g);
            n < |v.issues| && Moved(StateOf(w, n), StateOf(v, n), now, cfg)
  {
    var read := Read(w, g);
    if w.alive && k < |w.issues| && read.alive {
      if k == n {
        ActMoves(read, n, facts, cfg, now, g);
      } else {
        ActKeepsOthers(read, k, facts, ThreadState(w.issues[k].comments), cfg, now, n, g);
        QuietMoves(read, RunClimb(w, k, facts, cfg, now, g), n, now, cfg);
      }
    }
  }

  lemma ExecMoves(w: World, step: Step, cfg: Config, now: real, n: nat, g: Replies)
    requires n < |w.issues|
    ensures var v := Exec(w, step, cfg, now, g);
            n < |v.issues| && Moved(StateOf(w, n), StateOf(v, n), now, cfg.ladder)
  {
    var v := Exec(w, step, cfg, now, g);
    match step
    case CloseResolved(k) => CloseResolvedQuiet(w, k, n, g); QuietMoves(w, v, n, now, cfg.ladder);
    case UpdateInstance(k, pod) => InstanceQuiet(w, k, pod, n, g); QuietMoves(w, v, n, now, cfg.ladder);
    case TerminateTracked(k, app, s) => TerminateQuiet(w, k, app, s, n, g); QuietMoves(w, v, n, now, cfg.ladder);
    case ClimbTracked(k, facts) => RunClimbMoves(w, k, facts, cfg.ladder, now, n, g);
    case EnsureLabel =>
    case File(f) => FileQuiet(w, f, cfg, now, n, g); QuietMoves(w, v, n, now, cfg.ladder);
  }

  /** Wherever a run dies, it has not moved a thread away from the top. */
  lemma {:induction false} ExecAllMoves(w: World, steps: seq<Step>, cfg: Config, now: real, n: nat, g: Replies)
    requires n < |w.issues|
    ensures var v := ExecAll(w, steps, cfg, now, g);
            n < |v.issues| && Moved(StateOf(w, n), StateOf(v, n), now, cfg.ladder)
  {
    if steps != [] {
      ExecAllMoves(w, Front(steps), cfg, now, n, g);
      ExecMoves(ExecAll(w, Front(steps), cfg, now, g), Last(steps), cfg, now, n, g);
    }
  }

  // ---- A completed run that finds the node dark past the threshold ----

  /** The run completes, and finds a node dark past the threshold that it tracks on issue `n`. */
  predicate GoodRun(w: World, cfg: Config, snap: Snapshot, n: nat, g: Replies) {
    && Completed(w, cfg, snap, g)
    && exists f :: f in Findings(cfg, snap) && LongDarkOn(f, cfg, snap, w.issues, n)
  }

  predicate LongDarkOn(f: Finding, cfg: Config, snap: Snapshot, issues: seq<Issue>, n: nat) {
    && f.NodeFinding? && f.facts.unknownMinutes >= cfg.ladder.escalateAfter
    && Match(f, issues, StillOpen(cfg, snap, issues)) == Some(n)
  }

  lemma {:induction false} ClimbMoves(s: LadderState, looks: seq<Look>, cfg: LadderConfig, now: real)
    requires forall i :: 0 <= i < |looks| ==> looks[i].at == now
    ensures Moved(s, Climb(s, looks, cfg), now, cfg)
  {
    if looks != [] {
      ClimbMoves(s, Front(looks), cfg, now);
      DecideMoves(Last(looks).facts, Climb(s, Front(looks), cfg), cfg, now);
    }
  }

  lemma {:induction false} ClimbWithLook(
      s: LadderState, looks: seq<Look>, facts: DarkFacts, cfg: LadderConfig, now: real)
    requires forall i :: 0 <= i < |looks| ==> looks[i].at == now
    requires Look(facts, now) in looks && facts.unknownMinutes >= cfg.escalateAfter && Armed(cfg)
    requires !CoolingDown(s, cfg, now)
    ensures LeftToClimb(Climb(s, looks, cfg), cfg) <= Max(0, LeftToClimb(s, cfg) - 1)
  {
    var before, last := Front(looks), Last(looks);
    var mid := Climb(s, before, cfg);
    assert looks == before + [last];
    ClimbMoves(s, before, cfg, now);
    DecideMoves(last.facts, mid, cfg, now);
    if Look(facts, now) in before {
      ClimbWithLook(s, before, facts, cfg, now);
    } else if LeftToClimb(mid, cfg) == LeftToClimb(s, cfg) {
      LookShortensLadder(facts, mid, cfg, now);
    }
  }

  lemma {:induction false} LooksAreNow(steps: seq<Step>, n: nat, now: real)
    ensures forall i :: 0 <= i < |Gather(steps, LookAt(n, now))| ==> Gather(steps, LookAt(n, now))[i].at == now
  {
    if steps != [] {
      LooksAreNow(Front(steps), n, now);
    }
  }

  lemma GoodRunClimbs(w: World, cfg: Config, snap: Snapshot, n: nat, g: Replies)
    requires n < |w.issues| && GoodRun(w, cfg, snap, n, g) && Armed(cfg.ladder)
    requires !CoolingDown(StateOf(w, n), cfg.ladder, snap.now)
    ensures n < |Run(w, cfg, snap, g).issues|
    ensures LeftToClimb(StateOf(Run(w, cfg, snap, g), n), cfg.ladder)
            <= Max(0, LeftToClimb(StateOf(w, n), cfg.ladder) - 1)
  {
    var f :| f in Findings(cfg, snap) && LongDarkOn(f, cfg, snap, w.issues, n);
    RunClimbsThread(w, cfg, snap, n, g);
    DarkTrackedNodeIsLookedAt(cfg, snap, w.issues, n, f);
    LooksAreNow(Plan(cfg, snap, w.issues), n, snap.now);
    ClimbWithLook(StateOf(w, n), LooksIn(cfg, snap, w.issues, n), f.facts, cfg.ladder, snap.now);
  }

  // ---- Histories with runs that die in between ----

  /** The times of the good runs. */
  function GoodTimes(w: World, es: seq<Episode>, cfg: Config, n: nat, g: Replies): seq<real> {
    if es == [] then []
    else
      GoodTimes(w, Front(es), cfg, n, g)
      + (if Last(es).RunOn? && GoodRun(After(w, Front(es), cfg, g), cfg, Last(es).snap, n, g)
         then [Last(es).snap.now] else [])
  }

  /** The clock does not run backwards from run to run. */
  predicate ClockForward(es: seq<Episode>) {
    forall i, j :: 0 <= i < j < |es| && es[i].RunOn? && es[j].RunOn? ==> es[i].snap.now <= es[j].snap.now
  }

  /** A reboot since the last good run, or since the start: it stands for one step towards the top. */
  predicate RebootedSince(start: LadderState, s: LadderState, times: seq<real>) {
    && s.lastRebootAt.At? && s.lastRebootAt != start.lastRebootAt
    && (times == [] || s.lastRebootAt.instant > Last(times))
  }

  /** Every good run so far, and such a reboot, has been a step towards the top. */
  predicate Climbed(start: LadderState, s: LadderState, times: seq<real>, cfg: LadderConfig) {
    LeftToClimb(s, cfg) == 0
    || LeftToClimb(s, cfg) + |times| + (if RebootedSince(start, s, times) then 1 else 0) <= LeftToClimb(start, cfg)
  }

  /** The time of the last reboot is that of the start, or not after `now`. */
  predicate StampBefore(start: LadderState, s: LadderState, now: real) {
    s.lastRebootAt == start.lastRebootAt || (s.lastRebootAt.At? && s.lastRebootAt.instant <= now)
  }

  lemma IdleStep(start: LadderState, s: LadderState, t: LadderState, times: seq<real>, now: real, cfg: LadderConfig)
    requires Climbed(start, s, times, cfg) && Moved(s, t, now, cfg)
    ensures Climbed(start, t, times, cfg)
  {
  }

  lemma GoodStep(start: LadderState, s: LadderState, t: LadderState, times: seq<real>, now: real, cfg: LadderConfig)
    requires Climbed(start, s, times, cfg) && Moved(s, t, now, cfg) && StampBefore(start, s, now)
    requires !CoolingDown(s, cfg, now) ==> LeftToClimb(t, cfg) <= Max(0, LeftToClimb(s, cfg) - 1)
    requires !CoolingDown(start, cfg, now) && (times == [] || now - Last(times) >= cfg.cooldown)
    ensures Climbed(start, t, times + [now], cfg)
  {
    assert Last(times + [now]) == now;
    assert CoolingDown(s, cfg, now) ==> RebootedSince(start, s, times);
    assert !RebootedSince(start, t, times + [now]);
  }

  /** The good runs are a cooldown apart, the first one not cooling down from before the history. */
  predicate WellSpaced(start: LadderState, times: seq<real>, cfg: LadderConfig) {
    && (forall i, j :: 0 <= i < j < |times| ==> times[j] - times[i] >= cfg.cooldown)
    && (forall i :: 0 <= i < |times| ==> !CoolingDown(start, cfg, times[i]))
  }

  /** The time of the last reboot is that of the start or of some run. */
  predicate StampOfRun(start: LadderState, s: LadderState, es: seq<Episode>) {
    s.lastRebootAt == start.lastRebootAt
    || exists i :: 0 <= i < |es| && es[i].RunOn? && s.lastRebootAt == At(es[i].snap.now)
  }

  lemma StampStays(start: LadderState, s: LadderState, t: LadderState, es: seq<Episode>)
    requires es != [] && StampOfRun(start, s, Front(es))
    requires t.lastRebootAt == s.lastRebootAt || (Last(es).RunOn? && t.lastRebootAt == At(Last(es).snap.now))
    ensures StampOfRun(start, t, es)
  {
    if t.lastRebootAt == s.lastRebootAt && s.lastRebootAt != start.lastRebootAt {
      var i :| 0 <= i < |es| - 1 && Front(es)[i].RunOn? && s.lastRebootAt == At(Front(es)[i].snap.now);
      assert es[i].RunOn? && t.lastRebootAt == At(es[i].snap.now);
    } else if t.lastRebootAt != s.lastRebootAt {
      assert es[|es| - 1].RunOn? && t.lastRebootAt == At(es[|es| - 1].snap.now);
    }
  }

  /** What the induction over a history keeps. */
  predicate OnTheWay(w: World, es: seq<Episode>, cfg: Config, n: nat, g: Replies)
    requires n < |w.issues|
  {
    var v := After(w, es, cfg, g);
    && n < |v.issues|
    && Climbed(StateOf(w, n), StateOf(v, n), GoodTimes(w, es, cfg, n, g), cfg.ladder)
    && StampOfRun(StateOf(w, n), StateOf(v, n), es)
  }

  /** One run, good or not, on the state it found. */
  lemma RunClimbed(u: World, start: LadderState, times: seq<real>, cfg: Config, snap: Snapshot, n: nat, g: Replies)
    requires n < |u.issues| && Armed(cfg.ladder) && Climbed(start, StateOf(u, n), times, cfg.ladder)
    requires StampBefore(start, StateOf(u, n), snap.now)
    requires GoodRun(u, cfg, snap, n, g) ==> WellSpaced(start, times + [snap.now], cfg.ladder)
    ensures var v := Run(u, cfg, snap, g);
            && n < |v.issues| && Moved(StateOf(u, n), StateOf(v, n), snap.now, cfg.ladder)
            && Climbed(start, StateOf(v, n),
                       if GoodRun(u, cfg, snap, n, g) then times + [snap.now] else times, cfg.ladder)
  {
    var s := StateOf(u, n);
    ExecAllMoves(Read(u.(alive := true), g), Plan(cfg, snap, u.issues), cfg, snap.now, n, g);
    var t := StateOf(Run(u, cfg, snap, g), n);
    if GoodRun(u, cfg, snap, n, g) {
      SpacedLast(start, times, snap.now, cfg.ladder);
      if !CoolingDown(s, cfg.ladder, snap.now) {
        GoodRunClimbs(u, cfg, snap, n, g);
      }
      GoodStep(start, s, t, times, snap.now, cfg.ladder);
    } else {
      IdleStep(start, s, t, times, snap.now, cfg.ladder);
    }
  }

  lemma TimesNext(w: World, es: seq<Episode>, cfg: Config, n: nat, g: Replies)
    requires es != []
    ensures GoodTimes(w, es, cfg, n, g)
            == GoodTimes(w, Front(es), cfg, n, g)
               + if Last(es).RunOn? && GoodRun(After(w, Front(es), cfg, g), cfg, Last(es).snap, n, g)
                 then [Last(es).snap.now] else []
  {
  }

  lemma RunOnTheWay(w: World, es: seq<Episode>, cfg: Config, n: nat, g: Replies)
    requires n < |w.issues| && es != [] && Last(es).RunOn? && OnTheWay(w, Front(es), cfg, n, g)
    requires Armed(cfg.ladder) && ClockForward(es)
    requires WellSpaced(StateOf(w, n), GoodTimes(w, es, cfg, n, g), cfg.ladder)
    ensures OnTheWay(w, es, cfg, n, g)
  {
    var u, snap := After(w, Front(es), cfg, g), Last(es).snap;
    var start, times := StateOf(w, n), GoodTimes(w, Front(es), cfg, n, g);
    TimesNext(w, es, cfg, n, g);
    assert times + [] == times;
    StampsBefore(start, StateOf(u, n), es, snap.now);
    RunClimbed(u, start, times, cfg, snap, n, g);
    StampStays(start, StateOf(u, n), StateOf(Run(u, cfg, snap, g), n), es);
  }

  lemma StampsBefore(start: LadderState, s: LadderState, es: seq<Episode>, now: real)
    requires es != [] && Last(es).RunOn? && Last(es).snap.now == now && ClockForward(es)
    requires StampOfRun(start, s, Front(es))
    ensures StampBefore(start, s, now)
  {
    if s.lastRebootAt != start.lastRebootAt {
      var i :| 0 <= i < |es| - 1 && Front(es)[i].RunOn? && s.lastRebootAt == At(Front(es)[i].snap.now);
      assert es[i].RunOn? && es[|es| - 1].RunOn?;
    }
  }

  lemma SpacedLast(start: LadderState, times: seq<real>, now: real, cfg: LadderConfig)
    requires WellSpaced(start, times + [now], cfg)
    ensures !CoolingDown(start, cfg, now) && (times == [] || now - Last(times) >= cfg.cooldown)
    ensures WellSpaced(start, times, cfg)
  {
    var all := times + [now];
    assert all[|times|] == now;
    assert times != [] ==> all[|times| - 1] == Last(times);
    assert forall i :: 0 <= i < |times| ==> all[i] == times[i];
  }

  lemma SpacedBefore(w: World, es: seq<Episode>, cfg: Config, n: nat, g: Replies)
    requires n < |w.issues| && es != [] && WellSpaced(StateOf(w, n), GoodTimes(w, es, cfg, n, g), cfg.ladder)
    ensures WellSpaced(StateOf(w, n), GoodTimes(w, Front(es), cfg, n, g), cfg.ladder)
  {
    var times := GoodTimes(w, Front(es), cfg, n, g);
    if GoodTimes(w, es, cfg, n, g) != times {
      SpacedLast(StateOf(w, n), times, Last(es).snap.now, cfg.ladder);
    }
  }

  lemma StartOnTheWay(w: World, cfg: Config, n: nat, g: Replies)
    requires n < |w.issues|
    ensures OnTheWay(w, [], cfg, n, g)
  {
  }

  lemma {:induction false} HistoryOnTheWay(w: World, es: seq<Episode>, cfg: Config, n: nat, g: Replies)
    requires n < |w.issues| && OnlyWatchdogWritesState(w, es, cfg, g) && Armed(cfg.ladder) && ClockForward(es)
    requires WellSpaced(StateOf(w, n), GoodTimes(w, es, cfg, n, g), cfg.ladder)
    ensures OnTheWay(w, es, cfg, n, g)
  {
    if es == [] {
      StartOnTheWay(w, cfg, n, g);
    } else {
      SpacedBefore(w, es, cfg, n, g);
      HistoryOnTheWay(w, Front(es), cfg, n, g);
      if Last(es).RunOn? {
        RunOnTheWay(w, es, cfg, n, g);
      } else {
        PeopleOnTheWay(w, es, cfg, n, g);
      }
    }
  }

  lemma PeopleOnTheWay(w: World, es: seq<Episode>, cfg: Config, n: nat, g: Replies)
    requires n < |w.issues| && es != [] && Last(es).People? && OnTheWay(w, Front(es), cfg, n, g)
    requires NeutralEdit(After(w, Front(es), cfg, g).issues, Last(es).issues)
    ensures OnTheWay(w, es, cfg, n, g)
  {
    var u := After(w, Front(es), cfg, g);
    QuietState(u, u.(issues := Last(es).issues), n);
    TimesNext(w, es, cfg, n, g);
    assert GoodTimes(w, Front(es), cfg, n, g) + [] == GoodTimes(w, Front(es), cfg, n, g);
    StampStays(StateOf(w, n), StateOf(u, n), StateOf(u, n), es);
  }

  lemma TopReached(start: LadderState, s: LadderState, times: seq<real>, cfg: LadderConfig)
    requires Climbed(start, s, times, cfg) && |times| >= Max(0, cfg.maxAttempts - start.attempts) + 1
    ensures AtTop(s, cfg)
  {
  }

  /**
    The ladder ends: with both automatic actions on, as many completed runs as attempts left and
    one more, a cooldown apart, that each find the node dark past the threshold and track it on
    this issue, leave the issue escalated or refused, whatever other runs die in between.
   */
  lemma LadderTerminates(w: World, es: seq<Episode>, cfg: Config, n: nat, g: Replies)
    requires n < |w.issues| && OnlyWatchdogWritesState(w, es, cfg, g) && Armed(cfg.ladder) && ClockForward(es)
    requires WellSpaced(StateOf(w, n), GoodTimes(w, es, cfg, n, g), cfg.ladder)
    requires |GoodTimes(w, es, cfg, n, g)| >= Max(0, cfg.ladder.maxAttempts - StateOf(w, n).attempts) + 1
    ensures n < |After(w, es, cfg, g).issues| && AtTop(StateOf(After(w, es, cfg, g), n), cfg.ladder)
  {
    HistoryOnTheWay(w, es, cfg, n, g);
    TopReached(StateOf(w, n), StateOf(After(w, es, cfg, g), n), GoodTimes(w, es, cfg, n, g), cfg.ladder);
  }
}
