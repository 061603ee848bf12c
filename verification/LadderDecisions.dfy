/**
  What a completed run does about a dark node, in the fields of the state its thread holds, of
  the configuration and of the finding: which action it dispatches or refuses, and that it does
  nothing else.
 */
module LadderDecisions {
  import opened Common
  import opened DarkLadder
  import opened Detection
  import opened Tracker
  import opened Watchdog
  import opened PlanFacts
  import opened RunFacts
  import opened IssueIndex
  import opened LadderHistory
  import opened LadderProgress

  // ---- What is due ----

  /** Below the budget a reboot is due, whatever the age, once the cooldown is over. */
  predicate RebootDue(s: LadderState, cfg: LadderConfig, now: real) {
    && cfg.enabled && cfg.autoRestart && !s.escalated && s.attempts < cfg.maxAttempts
    && (s.lastRebootAt.At? ==> now - s.lastRebootAt.instant >= cfg.cooldown)
  }

  /** The reboots are used up, and the node has been dark for long enough to be reinstalled. */
  predicate PastReboots(facts: DarkFacts, s: LadderState, cfg: LadderConfig) {
    && cfg.enabled && cfg.autoRestart && cfg.autoReinstall && !s.escalated
    && s.attempts >= cfg.maxAttempts && facts.unknownMinutes >= cfg.escalateAfter
  }

  predicate ReinstallDue(facts: DarkFacts, s: LadderState, cfg: LadderConfig) {
    && PastReboots(facts, s, cfg) && facts.controlPlane
    && (facts.etcdVoter ==> facts.otherReady >= cfg.minOtherReady)
  }

  /** A refusal is due once for each reason. */
  predicate ElasticRefusalDue(facts: DarkFacts, s: LadderState, cfg: LadderConfig) {
    PastReboots(facts, s, cfg) && !facts.controlPlane && s.refusedReason != Some(NotControlPlane)
  }

  predicate QuorumRefusalDue(facts: DarkFacts, s: LadderState, cfg: LadderConfig) {
    && PastReboots(facts, s, cfg) && facts.controlPlane
    && facts.etcdVoter && facts.otherReady < cfg.minOtherReady
    && s.refusedReason != Some(QuorumTooSmall(facts.otherReady, cfg.minOtherReady))
  }

  /** The entries that the log of dispatches and records owes to one look. */
  function Entries(n: nat, facts: DarkFacts, s: LadderState, cfg: LadderConfig, now: real): seq<Event> {
    if RebootDue(s, cfg, now) then [Sent(n, Reboot, facts, now), Recorded(n, Reboot, facts, now)]
    else if ReinstallDue(facts, s, cfg) then [Sent(n, Reinstall, facts, now), Recorded(n, Reinstall, facts, now)]
    else if ElasticRefusalDue(facts, s, cfg) then [Recorded(n, RefuseElastic, facts, now)]
    else if QuorumRefusalDue(facts, s, cfg) then [Recorded(n, RefuseQuorum, facts, now)]
    else []
  }

  /** The state that the thread holds after one look. */
  function StateAfter(facts: DarkFacts, s: LadderState, cfg: LadderConfig, now: real): LadderState {
    if RebootDue(s, cfg, now) then LadderState(s.attempts + 1, At(now), false, s.escalatedAt, None)
    else if ReinstallDue(facts, s, cfg) then LadderState(s.attempts, s.lastRebootAt, true, At(now), None)
    else if ElasticRefusalDue(facts, s, cfg) then s.(refusedReason := Some(NotControlPlane))
    else if QuorumRefusalDue(facts, s, cfg) then
      s.(refusedReason := Some(QuorumTooSmall(facts.otherReady, cfg.minOtherReady)))
    else s
  }

  // ---- One look ----

  function OfIssue(n: nat): Event -> seq<Event> {
    (e: Event) => if (e.Sent? || e.Recorded? || e.RecordLost?) && e.issue == n then [e] else []
  }

  /** What a log says about issue `n`, in order. */
  function EventsOn(log: seq<Event>, n: nat): seq<Event> {
    Gather(log, OfIssue(n))
  }

  lemma EventsConcat(a: seq<Event>, b: seq<Event>, n: nat)
    ensures EventsOn(a + b, n) == EventsOn(a, n) + EventsOn(b, n)
  {
    GatherConcat(a, b, OfIssue(n));
  }

  lemma AllOfIssue(n: nat, facts: DarkFacts, s: LadderState, cfg: LadderConfig, now: real)
    ensures EventsOn(Entries(n, facts, s, cfg, now), n) == Entries(n, facts, s, cfg, now)
  {
    var es := Entries(n, facts, s, cfg, now);
    if |es| == 1 {
      GatherOne(es[0], OfIssue(n));
      assert es == [es[0]];
    } else if |es| == 2 {
      GatherOne(es[0], OfIssue(n));
      GatherOne(es[1], OfIssue(n));
      assert es == [es[0]] + [es[1]];
      EventsConcat([es[0]], [es[1]], n);
    }
  }

  lemma {:induction false} QuietEvents(w: World, v: World, n: nat)
    requires Quiet(w, v, n)
    ensures EventsOn(v.log, n) == EventsOn(w.log, n)
  {
    var added := v.log[|w.log|..];
    assert v.log == w.log + added;
    EventsConcat(w.log, added, n);
    forall i | 0 <= i < |added| ensures OfIssue(n)(added[i]) == [] {
      assert added[i] == v.log[|w.log| + i];
    }
    NothingGathered(added, OfIssue(n));
  }

  /** The decision in the fields it is taken on. */
  lemma DecisionExact(facts: DarkFacts, s: LadderState, cfg: LadderConfig, now: real)
    ensures var d := Decide(facts, s, cfg, now);
            && (d.action == Reboot <==> RebootDue(s, cfg, now))
            && (d.action == Reinstall <==> ReinstallDue(facts, s, cfg))
            && (d.action == RefuseElastic <==> ElasticRefusalDue(facts, s, cfg))
            && (d.action == RefuseQuorum <==> QuorumRefusalDue(facts, s, cfg))
            && d.state == StateAfter(facts, s, cfg, now)
  {
  }

  /** Acting, if the run survives it, leaves the entries in the log and the state in the thread. */
  lemma ActTells(w: World, n: nat, facts: DarkFacts, cfg: LadderConfig, now: real, g: Replies)
    requires w.alive && n < |w.issues| && Act(w, n, facts, StateOf(w, n), cfg, now, g).alive
    ensures var s, v := StateOf(w, n), Act(w, n, facts, StateOf(w, n), cfg, now, g);
            && n < |v.issues| && v.log == w.log + Entries(n, facts, s, cfg, now)
            && StateOf(v, n) == StateAfter(facts, s, cfg, now)
  {
    var s := StateOf(w, n);
    DecisionExact(facts, s, cfg, now);
    MarkedThread(w.issues[n].comments, StateAfter(facts, s, cfg, now));
  }

  lemma ClimbTells(w: World, n: nat, facts: DarkFacts, cfg: LadderConfig, now: real, g: Replies)
    requires n < |w.issues| && RunClimb(w, n, facts, cfg, now, g).alive
    ensures var s, v := StateOf(w, n), RunClimb(w, n, facts, cfg, now, g);
            EventsOn(v.log, n) == EventsOn(w.log, n) + Entries(n, facts, s, cfg, now)
  {
    ActTells(Read(w, g), n, facts, cfg, now, g);
    EventsConcat(w.log, Entries(n, facts, StateOf(w, n), cfg, now), n);
    AllOfIssue(n, facts, StateOf(w, n), cfg, now);
  }

  // ---- A whole run on a tracked issue ----

  /** What the log owes to several looks, each on the state that the one before left. */
  function Story(n: nat, s: LadderState, looks: seq<Look>, cfg: LadderConfig): seq<Event> {
    if looks == [] then []
    else
      Story(n, s, Front(looks), cfg)
      + Entries(n, Last(looks).facts, Climb(s, Front(looks), cfg), cfg, Last(looks).at)
  }

  lemma StoryOfOne(n: nat, s: LadderState, look: Look, cfg: LadderConfig)
    ensures Story(n, s, [look], cfg) == Entries(n, look.facts, s, cfg, look.at)
    ensures Climb(s, [look], cfg) == StateAfter(look.facts, s, cfg, look.at)
  {
    assert Front([look]) == [] && Last([look]) == look;
    assert Story(n, s, [look], cfg) == [] + Entries(n, look.facts, s, cfg, look.at);
    assert Climb(s, [look], cfg) == Decide(look.facts, s, cfg, look.at).state;
    DecisionExact(look.facts, s, cfg, look.at);
  }

  lemma {:induction false} StoryBegins(n: nat, s: LadderState, looks: seq<Look>, cfg: LadderConfig)
    requires looks != []
    ensures Entries(n, looks[0].facts, s, cfg, looks[0].at) <= Story(n, s, looks, cfg)
  {
    if |looks| == 1 {
      assert looks == [looks[0]];
      StoryOfOne(n, s, looks[0], cfg);
    } else {
      StoryBegins(n, s, Front(looks), cfg);
    }
  }

  lemma OtherStepQuiet(w: World, step: Step, cfg: Config, now: real, n: nat, g: Replies)
    requires n < |w.issues| && !(step.ClimbTracked? && step.issue == n)
    ensures Quiet(w, Exec(w, step, cfg, now, g), n)
  {
    match step
    case CloseResolved(k) => CloseResolvedQuiet(w, k, n, g);
    case UpdateInstance(k, pod) => InstanceQuiet(w, k, pod, n, g);
    case TerminateTracked(k, app, s) => TerminateQuiet(w, k, app, s, n, g);
    case ClimbTracked(k, facts) =>
      if k < |w.issues| {
        ActKeepsOthers(Read(w, g), k, facts, ThreadState(w.issues[k].comments), cfg.ladder, now, n, g);
      }
    case EnsureLabel =>
    case File(f) => FileQuiet(w, f, cfg, now, n, g);
  }

  lemma StepTells(w: World, step: Step, cfg: Config, now: real, n: nat, g: Replies)
    requires n < |w.issues| && Exec(w, step, cfg, now, g).alive
    ensures EventsOn(Exec(w, step, cfg, now, g).log, n)
            == EventsOn(w.log, n)
               + if step.ClimbTracked? && step.issue == n then Entries(n, step.facts, StateOf(w, n), cfg.ladder, now)
                 else []
  {
    if step.ClimbTracked? && step.issue == n {
      ClimbTells(w, n, step.facts, cfg.ladder, now, g);
    } else {
      OtherStepQuiet(w, step, cfg, now, n, g);
      QuietEvents(w, Exec(w, step, cfg, now, g), n);
    }
  }

  lemma StoryNext(n: nat, s: LadderState, before: seq<Look>, step: Step, cfg: LadderConfig, now: real)
    ensures Story(n, s, before + LookAt(n, now)(step), cfg)
            == Story(n, s, before, cfg)
               + if step.ClimbTracked? && step.issue == n then Entries(n, step.facts, Climb(s, before, cfg), cfg, now)
                 else []
  {
    if step.ClimbTracked? && step.issue == n {
      Snoc(before, Look(step.facts, now));
    } else {
      assert before + [] == before;
    }
  }

  lemma LastStepTells(u: World, step: Step, before: seq<Look>, told: seq<Event>, s: LadderState, cfg: Config,
                      now: real, n: nat, g: Replies)
    requires n < |u.issues| && Exec(u, step, cfg, now, g).alive && StateOf(u, n) == Climb(s, before, cfg.ladder)
    requires EventsOn(u.log, n) == told + Story(n, s, before, cfg.ladder)
    ensures EventsOn(Exec(u, step, cfg, now, g).log, n)
            == told + Story(n, s, before + LookAt(n, now)(step), cfg.ladder)
  {
    StepTells(u, step, cfg, now, n, g);
    StoryNext(n, s, before, step, cfg.ladder, now);
    Associative(told, Story(n, s, before, cfg.ladder),
                if step.ClimbTracked? && step.issue == n then Entries(n, step.facts, StateOf(u, n), cfg.ladder, now)
                else []);
  }

  /** What the steps of a run say about an issue is the story of their looks at it. */
  lemma {:induction false} StepsTell(w: World, steps: seq<Step>, cfg: Config, now: real, n: nat, g: Replies)
    requires n < |w.issues| && ExecAll(w, steps, cfg, now, g).alive
    ensures EventsOn(ExecAll(w, steps, cfg, now, g).log, n)
            == EventsOn(w.log, n) + Story(n, StateOf(w, n), Gather(steps, LookAt(n, now)), cfg.ladder)
  {
    if steps != [] {
      FrontAlive(w, steps, cfg, now, g);
      StepsTell(w, Front(steps), cfg, now, n, g);
      ExecAllClimbs(w, Front(steps), cfg, now, n, g);
      LastStepTells(ExecAll(w, Front(steps), cfg, now, g), Last(steps), Gather(Front(steps), LookAt(n, now)),
                    EventsOn(w.log, n), StateOf(w, n), cfg, now, n, g);
    }
  }

  lemma FrontAlive(w: World, steps: seq<Step>, cfg: Config, now: real, g: Replies)
    requires steps != [] && ExecAll(w, steps, cfg, now, g).alive
    ensures ExecAll(w, Front(steps), cfg, now, g).alive
  {
    assert steps == Front(steps) + [Last(steps)];
    AliveSoFar(w, Front(steps), [Last(steps)], cfg, now, g);
  }

  // ---- The looks of a run ----

  /** The finding is of a dark node, and the first open issue that carries its key is `n`. */
  predicate TrackedOn(f: Finding, cfg: Config, snap: Snapshot, issues: seq<Issue>, n: nat) {
    f.NodeFinding? && Match(f, issues, StillOpen(cfg, snap, issues)) == Some(n)
  }

  function LookFor(cfg: Config, snap: Snapshot, issues: seq<Issue>, n: nat): Finding -> seq<Look> {
    f => if TrackedOn(f, cfg, snap, issues, n) then [Look(f.facts, snap.now)] else []
  }

  lemma NoLooks(steps: seq<Step>, n: nat, now: real)
    requires forall s :: s in steps ==> !s.ClimbTracked?
    ensures Gather(steps, LookAt(n, now)) == []
  {
    forall i | 0 <= i < |steps| ensures LookAt(n, now)(steps[i]) == [] {
      assert steps[i] in steps;
    }
    NothingGathered(steps, LookAt(n, now));
  }

  lemma ClosingHasNoLooks(cfg: Config, snap: Snapshot, issues: seq<Issue>, n: nat)
    ensures Gather(ClosingSteps(cfg, snap, issues), LookAt(n, snap.now)) == []
  {
    forall s | s in ClosingSteps(cfg, snap, issues) ensures !s.ClimbTracked? {
      ClosingStepPlanned(s, cfg, snap, issues);
    }
    NoLooks(ClosingSteps(cfg, snap, issues), n, snap.now);
  }

  lemma FilingHasNoLooks(cfg: Config, snap: Snapshot, issues: seq<Issue>, n: nat)
    ensures Gather(FilingSteps(cfg, snap, issues), LookAt(n, snap.now)) == []
  {
    forall s | s in FilingSteps(cfg, snap, issues) ensures !s.ClimbTracked? {
      FilingStepPlanned(s, cfg, snap, issues);
    }
    NoLooks(FilingSteps(cfg, snap, issues), n, snap.now);
  }

  /** The looks among the steps for the tracked findings, one finding after the other. */
  lemma LooksOfDups(fs: seq<Finding>, issues: seq<Issue>, still: seq<nat>, n: nat, now: real,
                    lookFor: Finding -> seq<Look>)
    requires forall f :: lookFor(f)
               == if f.NodeFinding? && Match(f, issues, still) == Some(n) then [Look(f.facts, now)] else []
    ensures Gather(Gather(Duplicates(fs, issues, still), ClimbStep), LookAt(n, now)) == Gather(fs, lookFor)
  {
    var looks := (d: Tracked) => if d.finding.NodeFinding? && d.issue == n then [Look(d.finding.facts, now)] else [];
    forall d: Tracked ensures Gather(ClimbStep(d), LookAt(n, now)) == looks(d) {
      if d.finding.NodeFinding? {
        GatherOne(ClimbTracked(d.issue, d.finding.facts), LookAt(n, now));
      }
    }
    GatherGather(Duplicates(fs, issues, still), ClimbStep, LookAt(n, now), looks);
    forall f: Finding ensures Gather(TrackedIn(issues, still)(f), looks) == lookFor(f) {
      if Match(f, issues, still).Some? {
        GatherOne(Tracked(f, Match(f, issues, still).value), looks);
      }
    }
    GatherGather(fs, TrackedIn(issues, still), looks, lookFor);
  }

  lemma NoLooksBefore(step: Step, cfg: Config, issues: seq<Issue>, dups: seq<Tracked>, still: seq<nat>,
                      unknown: set<string>)
    requires step in Gather(dups, InstanceStep)
             || (cfg.autoTerminate && step in Gather(dups, TerminateStep))
             || step in Closers(issues, still, DarkNode, unknown)
    ensures !step.ClimbTracked?
  {
    if step in Gather(dups, InstanceStep) {
      InstanceFrom(dups, step);
    } else if step in Gather(dups, TerminateStep) {
      TerminateFrom(dups, step);
    }
    CloserMember(issues, still, DarkNode, unknown, step);
  }

  lemma LooksBehind(others: seq<Step>, climbs: seq<Step>, n: nat, now: real)
    requires forall s :: s in others ==> !s.ClimbTracked?
    ensures Gather(others + climbs, LookAt(n, now)) == Gather(climbs, LookAt(n, now))
  {
    NoLooks(others, n, now);
    GatherConcat(others, climbs, LookAt(n, now));
  }

  lemma BeforeClimbs(cfg: Config, snap: Snapshot, issues: seq<Issue>, n: nat)
    ensures Gather(ActingSteps(cfg, snap, issues), LookAt(n, snap.now))
            == Gather(Gather(DupsOf(cfg, snap, issues), ClimbStep), LookAt(n, snap.now))
  {
    var dups, still, unknown := DupsOf(cfg, snap, issues), StillOpen(cfg, snap, issues), UnknownNames(snap.nodes);
    var others := Gather(dups, InstanceStep) + (if cfg.autoTerminate then Gather(dups, TerminateStep) else [])
                  + Closers(issues, still, DarkNode, unknown);
    forall s | s in others ensures !s.ClimbTracked? {
      NoLooksBefore(s, cfg, issues, dups, still, unknown);
    }
    LooksBehind(others, Gather(dups, ClimbStep), n, snap.now);
  }

  /** A run looks at issue `n` once for each finding that it tracks, in the order of the findings. */
  lemma LooksExact(cfg: Config, snap: Snapshot, issues: seq<Issue>, n: nat)
    ensures LooksIn(cfg, snap, issues, n) == Gather(Findings(cfg, snap), LookFor(cfg, snap, issues, n))
  {
    var closing, acting, filing := ClosingSteps(cfg, snap, issues), ActingSteps(cfg, snap, issues),
                                   FilingSteps(cfg, snap, issues);
    ClosingHasNoLooks(cfg, snap, issues, n);
    if Findings(cfg, snap) == [] {
      assert Plan(cfg, snap, issues) == closing;
    } else {
      assert Plan(cfg, snap, issues) == closing + (acting + filing);
      GatherConcat(closing, acting + filing, LookAt(n, snap.now));
      GatherConcat(acting, filing, LookAt(n, snap.now));
      FilingHasNoLooks(cfg, snap, issues, n);
      BeforeClimbs(cfg, snap, issues, n);
      LooksOfDups(Findings(cfg, snap), issues, StillOpen(cfg, snap, issues), n, snap.now,
                  LookFor(cfg, snap, issues, n));
    }
  }

  // ---- A completed run on a tracked node ----

  /** Finding `i` of the run is the first that issue `n` tracks. */
  predicate FirstOn(cfg: Config, snap: Snapshot, issues: seq<Issue>, n: nat, i: nat) {
    var fs := Findings(cfg, snap);
    i < |fs| && TrackedOn(fs[i], cfg, snap, issues, n)
    && forall j :: 0 <= j < i ==> !TrackedOn(fs[j], cfg, snap, issues, n)
  }

  /** It is the only one. */
  predicate OnlyOn(cfg: Config, snap: Snapshot, issues: seq<Issue>, n: nat, i: nat) {
    var fs := Findings(cfg, snap);
    FirstOn(cfg, snap, issues, n, i) && forall j :: i < j < |fs| ==> !TrackedOn(fs[j], cfg, snap, issues, n)
  }

  /** What a run added to the log about issue `n`. */
  function Added(w: World, v: World, n: nat): seq<Event>
    requires w.log <= v.log
  {
    EventsOn(v.log[|w.log|..], n)
  }

  lemma AddedIsRest(w: World, v: World, n: nat, told: seq<Event>)
    requires w.log <= v.log && EventsOn(v.log, n) == EventsOn(w.log, n) + told
    ensures Added(w, v, n) == told
  {
    assert v.log == w.log + v.log[|w.log|..];
    EventsConcat(w.log, v.log[|w.log|..], n);
    assert EventsOn(w.log, n) + Added(w, v, n) == EventsOn(w.log, n) + told;
    assert told == (EventsOn(w.log, n) + told)[|EventsOn(w.log, n)|..];
  }

  lemma RunTells(w: World, cfg: Config, snap: Snapshot, n: nat, g: Replies)
    requires n < |w.issues| && Completed(w, cfg, snap, g)
    ensures w.log <= Run(w, cfg, snap, g).log
    ensures Added(w, Run(w, cfg, snap, g), n) == Story(n, StateOf(w, n), LooksIn(cfg, snap, w.issues, n), cfg.ladder)
  {
    PartsEvolve(w, cfg, snap, g);
    StepsTell(Read(w.(alive := true), g), Plan(cfg, snap, w.issues), cfg, snap.now, n, g);
    AddedIsRest(w, Run(w, cfg, snap, g), n,
                Story(n, StateOf(w, n), LooksIn(cfg, snap, w.issues, n), cfg.ladder));
  }

  lemma LooksOfFirst(cfg: Config, snap: Snapshot, issues: seq<Issue>, n: nat, i: nat)
    requires FirstOn(cfg, snap, issues, n, i)
    ensures var looks := LooksIn(cfg, snap, issues, n);
            && looks != [] && looks[0] == Look(Findings(cfg, snap)[i].facts, snap.now)
            && (OnlyOn(cfg, snap, issues, n, i) ==> |looks| == 1)
  {
    LooksExact(cfg, snap, issues, n);
    GatherFirst(Findings(cfg, snap), i, LookFor(cfg, snap, issues, n));
  }

  /**
    A completed run that finds a dark node tracked on issue `n` adds to the log, on that issue,
    first the entries due on the state in the thread; they are all, and the thread holds the
    state after them, when no other finding is tracked there.
   */
  lemma RunDoesWhatIsDue(w: World, cfg: Config, snap: Snapshot, n: nat, i: nat, g: Replies)
    requires n < |w.issues| && Completed(w, cfg, snap, g) && FirstOn(cfg, snap, w.issues, n, i)
    ensures var v, facts, s := Run(w, cfg, snap, g), Findings(cfg, snap)[i].facts, StateOf(w, n);
            && w.log <= v.log && n < |v.issues|
            && Entries(n, facts, s, cfg.ladder, snap.now) <= Added(w, v, n)
            && (OnlyOn(cfg, snap, w.issues, n, i) ==>
                  Added(w, v, n) == Entries(n, facts, s, cfg.ladder, snap.now)
                  && StateOf(v, n) == StateAfter(facts, s, cfg.ladder, snap.now))
  {
    var looks, s := LooksIn(cfg, snap, w.issues, n), StateOf(w, n);
    RunTells(w, cfg, snap, n, g);
    RunClimbsThread(w, cfg, snap, n, g);
    LooksOfFirst(cfg, snap, w.issues, n, i);
    StoryBegins(n, s, looks, cfg.ladder);
    if OnlyOn(cfg, snap, w.issues, n, i) {
      assert looks == [looks[0]];
      StoryOfOne(n, s, looks[0], cfg.ladder);
    }
  }

  lemma InAdded(w: World, v: World, n: nat, e: Event)
    requires w.log <= v.log && (e.Sent? || e.Recorded?) && e.issue == n
    ensures e in v.log[|w.log|..] <==> e in Added(w, v, n)
  {
    GatherMember(v.log[|w.log|..], OfIssue(n), e);
  }

  /** Among these entries a reboot, a reinstall and each refusal stands exactly when it is due. */
  predicate DoneWhenDue(added: seq<Event>, n: nat, facts: DarkFacts, s: LadderState, cfg: LadderConfig, now: real) {
    && (Sent(n, Reboot, facts, now) in added <==> RebootDue(s, cfg, now))
    && (Sent(n, Reinstall, facts, now) in added <==> ReinstallDue(facts, s, cfg))
    && (Recorded(n, RefuseElastic, facts, now) in added <==> ElasticRefusalDue(facts, s, cfg))
    && (Recorded(n, RefuseQuorum, facts, now) in added <==> QuorumRefusalDue(facts, s, cfg))
  }

  lemma EntriesAreWhatIsDue(n: nat, facts: DarkFacts, s: LadderState, cfg: LadderConfig, now: real)
    ensures DoneWhenDue(Entries(n, facts, s, cfg, now), n, facts, s, cfg, now)
  {
  }

  lemma AddedIsWhatIsDue(
      w: World, v: World, n: nat, facts: DarkFacts, s: LadderState, cfg: LadderConfig, now: real)
    requires w.log <= v.log && Added(w, v, n) == Entries(n, facts, s, cfg, now)
    ensures DoneWhenDue(v.log[|w.log|..], n, facts, s, cfg, now)
  {
    EntriesAreWhatIsDue(n, facts, s, cfg, now);
    InAdded(w, v, n, Sent(n, Reboot, facts, now));
    InAdded(w, v, n, Sent(n, Reinstall, facts, now));
    InAdded(w, v, n, Recorded(n, RefuseElastic, facts, now));
    InAdded(w, v, n, Recorded(n, RefuseQuorum, facts, now));
  }

  /** A completed run makes a reboot, a reinstall and each refusal exactly when it is due. */
  lemma ActsExactlyWhenDue(w: World, cfg: Config, snap: Snapshot, n: nat, i: nat, g: Replies)
    requires n < |w.issues| && Completed(w, cfg, snap, g) && OnlyOn(cfg, snap, w.issues, n, i)
    ensures w.log <= Run(w, cfg, snap, g).log
    ensures DoneWhenDue(Run(w, cfg, snap, g).log[|w.log|..], n, Findings(cfg, snap)[i].facts, StateOf(w, n),
                        cfg.ladder, snap.now)
  {
    RunDoesWhatIsDue(w, cfg, snap, n, i, g);
    AddedIsWhatIsDue(w, Run(w, cfg, snap, g), n, Findings(cfg, snap)[i].facts, StateOf(w, n), cfg.ladder, snap.now);
  }

  // ---- A newly filed node ----

  /** Nothing is logged about an issue that is not there yet, except by filing it. */
  lemma EarlierStepQuiet(w: World, step: Step, cfg: Config, now: real, n: nat, g: Replies)
    requires |w.issues| <= n && !step.File?
    ensures Quiet(w, Exec(w, step, cfg, now, g), n) && |Exec(w, step, cfg, now, g).issues| == |w.issues|
  {
    ExecEvolves(w, step, cfg, now, g);
    match step
    case CloseResolved(k) => CloseResolvedQuiet(w, k, n, g);
    case UpdateInstance(k, pod) => InstanceQuiet(w, k, pod, n, g);
    case TerminateTracked(k, app, s) => TerminateQuiet(w, k, app, s, n, g);
    case ClimbTracked(k, facts) =>
      if k < |w.issues| {
        ActKeepsOthers(Read(w, g), k, facts, ThreadState(w.issues[k].comments), cfg.ladder, now, n, g);
      }
    case EnsureLabel =>
  }

  lemma {:induction false} EarlierStepsQuiet(w: World, steps: seq<Step>, cfg: Config, now: real, n: nat, g: Replies)
    requires |w.issues| <= n && forall s :: s in steps ==> !s.File?
    ensures var v := ExecAll(w, steps, cfg, now, g); Quiet(w, v, n) && |v.issues| == |w.issues|
  {
    if steps != [] {
      EarlierStepsQuiet(w, Front(steps), cfg, now, n, g);
      assert Last(steps) in steps;
      EarlierStepQuiet(ExecAll(w, Front(steps), cfg, now, g), Last(steps), cfg, now, n, g);
      QuietTransitive(w, ExecAll(w, Front(steps), cfg, now, g), ExecAll(w, steps, cfg, now, g), n);
    }
  }

  lemma OtherFileQuiet(w: World, f: Finding, cfg: Config, now: real, n: nat, g: Replies)
    requires n != |w.issues|
    ensures Quiet(w, RunFile(w, f, cfg, now, g), n)
  {
    if w.alive {
      var terminate := f.OpFinding? && cfg.autoTerminate;
      var sent := if terminate then DispatchTerminate(w, f.app, f.startedAt, g) else w;
      var made := Create(sent, IssueFor(f, terminate), g);
      CreateQuiet(sent, IssueFor(f, terminate), n, g);
      QuietTransitive(w, sent, made, n);
      if f.NodeFinding? {
        ActKeepsOthers(made, |sent.issues|, f.facts, DEFAULT_STATE, cfg.ladder, now, n, g);
      }
    }
  }

  lemma FileTells(w: World, f: Finding, cfg: Config, now: real, g: Replies)
    requires f.NodeFinding? && RunFile(w, f, cfg, now, g).alive
    ensures var n, v := |w.issues|, RunFile(w, f, cfg, now, g);
            && n < |v.issues| && v.log == w.log + Entries(n, f.facts, DEFAULT_STATE, cfg.ladder, now)
            && StateOf(v, n) == StateAfter(f.facts, DEFAULT_STATE, cfg.ladder, now)
  {
    var made := Create(w, IssueFor(f, false), g);
    assert Marks(made.issues[|w.issues|].comments) == [];
    ActTells(made, |w.issues|, f.facts, cfg.ladder, now, g);
  }

  /** A filing loop that the run survives gives every finding its issue, in order. */
  lemma FilingInOrder(w: World, fs: seq<Finding>, cfg: Config, now: real, g: Replies)
    requires FileLoop(w, fs, cfg, now, g).alive
    ensures |FileLoop(w, fs, cfg, now, g).issues| == |w.issues| + |fs|
  {
    if fs != [] {
      LastFiling(w, fs, cfg, now, g);
      FilingInOrder(w, Front(fs), cfg, now, g);
    }
  }

  lemma LastTurn(w: World, fs: seq<Finding>, cfg: Config, now: real, g: Replies)
    requires fs != []
    ensures FileLoop(w, fs, cfg, now, g) == RunFile(FileLoop(w, Front(fs), cfg, now, g), Last(fs), cfg, now, g)
  {
    Snoc(Gather(Front(fs), FileStep), File(Last(fs)));
  }

  lemma {:induction false} FilingQuiet(w: World, fs: seq<Finding>, cfg: Config, now: real, n: nat, g: Replies)
    requires FileLoop(w, fs, cfg, now, g).alive && |w.issues| + |fs| <= n
    ensures Quiet(w, FileLoop(w, fs, cfg, now, g), n)
  {
    if fs != [] {
      LastFiling(w, fs, cfg, now, g);
      LastTurn(w, fs, cfg, now, g);
      FilingQuiet(w, Front(fs), cfg, now, n, g);
      FilingInOrder(w, Front(fs), cfg, now, g);
      OtherFileQuiet(FileLoop(w, Front(fs), cfg, now, g), Last(fs), cfg, now, n, g);
      QuietTransitive(w, FileLoop(w, Front(fs), cfg, now, g), FileLoop(w, fs, cfg, now, g), n);
    }
  }

  /** The log and the thread of issue `n` after its first rung. */
  predicate Rung(w: World, v: World, n: nat, facts: DarkFacts, cfg: LadderConfig, now: real) {
    && n < |v.issues| && StateOf(v, n) == StateAfter(facts, DEFAULT_STATE, cfg, now)
    && EventsOn(v.log, n) == EventsOn(w.log, n) + Entries(n, facts, DEFAULT_STATE, cfg, now)
  }

  lemma LastRung(w: World, u: World, f: Finding, cfg: Config, now: real, g: Replies)
    requires Quiet(w, u, |u.issues|) && f.NodeFinding? && RunFile(u, f, cfg, now, g).alive
    ensures Rung(w, RunFile(u, f, cfg, now, g), |u.issues|, f.facts, cfg.ladder, now)
  {
    var n, es := |u.issues|, Entries(|u.issues|, f.facts, DEFAULT_STATE, cfg.ladder, now);
    FileTells(u, f, cfg, now, g);
    QuietEvents(w, u, n);
    EventsConcat(u.log, es, n);
    AllOfIssue(n, f.facts, DEFAULT_STATE, cfg.ladder, now);
  }

  lemma RungStays(w: World, u: World, v: World, n: nat, facts: DarkFacts, cfg: LadderConfig, now: real)
    requires Rung(w, u, n, facts, cfg, now) && Quiet(u, v, n)
    ensures Rung(w, v, n, facts, cfg, now)
  {
    QuietEvents(u, v, n);
    QuietState(u, v, n);
  }

  lemma NextRung(w: World, u: World, f: Finding, n: nat, facts: DarkFacts, cfg: Config, now: real, g: Replies)
    requires Rung(w, u, n, facts, cfg.ladder, now) && n < |u.issues|
    ensures Rung(w, RunFile(u, f, cfg, now, g), n, facts, cfg.ladder, now)
  {
    OtherFileQuiet(u, f, cfg, now, n, g);
    RungStays(w, u, RunFile(u, f, cfg, now, g), n, facts, cfg.ladder, now);
  }

  lemma LoopFront(w: World, fs: seq<Finding>, cfg: Config, now: real, g: Replies)
    requires fs != [] && FileLoop(w, fs, cfg, now, g).alive
    ensures FileLoop(w, Front(fs), cfg, now, g).alive
    ensures |FileLoop(w, Front(fs), cfg, now, g).issues| == |w.issues| + |fs| - 1
  {
    LastFiling(w, fs, cfg, now, g);
    FilingInOrder(w, Front(fs), cfg, now, g);
  }

  lemma RungOfLast(w: World, fs: seq<Finding>, cfg: Config, now: real, g: Replies)
    requires fs != [] && Last(fs).NodeFinding? && FileLoop(w, fs, cfg, now, g).alive
    ensures Rung(w, FileLoop(w, fs, cfg, now, g), |w.issues| + |fs| - 1, Last(fs).facts, cfg.ladder, now)
  {
    LoopFront(w, fs, cfg, now, g);
    LastTurn(w, fs, cfg, now, g);
    FilingQuiet(w, Front(fs), cfg, now, |w.issues| + |fs| - 1, g);
    LastRung(w, FileLoop(w, Front(fs), cfg, now, g), Last(fs), cfg, now, g);
  }

  lemma RungOfEarlier(w: World, fs: seq<Finding>, n: nat, facts: DarkFacts, cfg: Config, now: real, g: Replies)
    requires fs != [] && Rung(w, FileLoop(w, Front(fs), cfg, now, g), n, facts, cfg.ladder, now)
    ensures Rung(w, FileLoop(w, fs, cfg, now, g), n, facts, cfg.ladder, now)
  {
    LastTurn(w, fs, cfg, now, g);
    NextRung(w, FileLoop(w, Front(fs), cfg, now, g), Last(fs), n, facts, cfg, now, g);
  }

  /** Finding `i` of the loop has its issue, with its first rung. */
  predicate RungOf(w: World, v: World, fs: seq<Finding>, i: nat, cfg: LadderConfig, now: real) {
    i < |fs| && fs[i].NodeFinding? && Rung(w, v, |w.issues| + i, fs[i].facts, cfg, now)
  }

  lemma LastTells(w: World, fs: seq<Finding>, cfg: Config, now: real, g: Replies)
    requires fs != [] && Last(fs).NodeFinding? && FileLoop(w, fs, cfg, now, g).alive
    ensures RungOf(w, FileLoop(w, fs, cfg, now, g), fs, |fs| - 1, cfg.ladder, now)
  {
    RungOfLast(w, fs, cfg, now, g);
  }

  lemma EarlierTells(w: World, fs: seq<Finding>, i: nat, cfg: Config, now: real, g: Replies)
    requires fs != [] && RungOf(w, FileLoop(w, Front(fs), cfg, now, g), Front(fs), i, cfg.ladder, now)
    ensures RungOf(w, FileLoop(w, fs, cfg, now, g), fs, i, cfg.ladder, now)
  {
    RungOfEarlier(w, fs, |w.issues| + i, fs[i].facts, cfg, now, g);
  }

  lemma {:induction false} FilingTells(w: World, fs: seq<Finding>, i: nat, cfg: Config, now: real, g: Replies)
    requires i < |fs| && fs[i].NodeFinding? && FileLoop(w, fs, cfg, now, g).alive
    ensures RungOf(w, FileLoop(w, fs, cfg, now, g), fs, i, cfg.ladder, now)
  {
    if i == |fs| - 1 {
      LastTells(w, fs, cfg, now, g);
    } else {
      LoopFront(w, fs, cfg, now, g);
      FilingTells(w, Front(fs), i, cfg, now, g);
      EarlierTells(w, fs, i, cfg, now, g);
    }
  }

  lemma ActingQuiet(w: World, cfg: Config, snap: Snapshot, n: nat, g: Replies)
    requires |w.issues| <= n
    ensures Quiet(w, AfterActing(w, cfg, snap, g), n) && |AfterActing(w, cfg, snap, g).issues| == |w.issues|
  {
    var start, closed := Read(w.(alive := true), g), AfterClosing(w, cfg, snap, g);
    forall s | s in ClosingSteps(cfg, snap, w.issues) ensures !s.File? {
      ClosingStepPlanned(s, cfg, snap, w.issues);
    }
    EarlierStepsQuiet(start, ClosingSteps(cfg, snap, w.issues), cfg, snap.now, n, g);
    QuietTransitive(w, start, closed, n);
    if Findings(cfg, snap) != [] {
      forall s | s in ActingSteps(cfg, snap, w.issues) ensures !s.File? {
        ActingHasNoFile(s, cfg, snap, w.issues);
      }
      EarlierStepsQuiet(closed, ActingSteps(cfg, snap, w.issues), cfg, snap.now, n, g);
      QuietTransitive(w, closed, AfterActing(w, cfg, snap, g), n);
    }
  }

  /** What is due on a state with no reboot was added about issue `n`, and the thread holds the state after it. */
  predicate FirstRung(w: World, v: World, n: nat, facts: DarkFacts, cfg: LadderConfig, now: real) {
    && w.log <= v.log && n < |v.issues|
    && Added(w, v, n) == Entries(n, facts, DEFAULT_STATE, cfg, now)
    && StateOf(v, n) == StateAfter(facts, DEFAULT_STATE, cfg, now)
  }

  lemma RungSinceStart(w: World, u: World, v: World, n: nat, facts: DarkFacts, cfg: LadderConfig, now: real)
    requires Quiet(w, u, n) && Rung(u, v, n, facts, cfg, now) && w.log <= v.log
    ensures FirstRung(w, v, n, facts, cfg, now)
  {
    QuietEvents(w, u, n);
    AddedIsRest(w, v, n, Entries(n, facts, DEFAULT_STATE, cfg, now));
  }

  lemma PhaseTells(u: World, filed: seq<Finding>, i: nat, cfg: Config, now: real, g: Replies)
    requires i < |filed| && filed[i].NodeFinding? && FileLoop(Tolerated(u, g), filed, cfg, now, g).alive
    ensures Rung(u, FileLoop(Tolerated(u, g), filed, cfg, now, g), |u.issues| + i, filed[i].facts, cfg.ladder, now)
  {
    FilingTells(Tolerated(u, g), filed, i, cfg, now, g);
  }

  lemma RungOfLoop(w: World, u: World, v: World, filed: seq<Finding>, i: nat, cfg: Config, now: real, g: Replies)
    requires i < |filed| && filed[i].NodeFinding? && |u.issues| == |w.issues| && Quiet(w, u, |w.issues| + i)
    requires v == FileLoop(Tolerated(u, g), filed, cfg, now, g) && v.alive && w.log <= v.log
    ensures FirstRung(w, v, |w.issues| + i, filed[i].facts, cfg.ladder, now)
  {
    PhaseTells(u, filed, i, cfg, now, g);
    RungSinceStart(w, u, v, |w.issues| + i, filed[i].facts, cfg.ladder, now);
  }

  lemma RunEndsFiling(w: World, cfg: Config, snap: Snapshot, g: Replies)
    requires Filed(cfg, snap, w.issues) != []
    ensures Run(w, cfg, snap, g)
            == FileLoop(Tolerated(AfterActing(w, cfg, snap, g), g), Filed(cfg, snap, w.issues), cfg, snap.now, g)
  {
    FiledIsNew(cfg, snap, w.issues, Filed(cfg, snap, w.issues)[0]);
    RunInParts(w, cfg, snap, g);
    LabelThenFile(AfterActing(w, cfg, snap, g), Filed(cfg, snap, w.issues), cfg, snap.now, g);
  }

  /**
    A completed run takes the first rung for each dark node that it files: the i-th finding
    filed gets the i-th new issue, and on it what is due on a state with no reboot, all of it
    and nothing else.
   */
  lemma FirstRungIsTaken(w: World, cfg: Config, snap: Snapshot, i: nat, g: Replies)
    requires Completed(w, cfg, snap, g)
    requires i < |Filed(cfg, snap, w.issues)| && Filed(cfg, snap, w.issues)[i].NodeFinding?
    ensures FirstRung(w, Run(w, cfg, snap, g), |w.issues| + i, Filed(cfg, snap, w.issues)[i].facts,
                      cfg.ladder, snap.now)
  {
    PartsEvolve(w, cfg, snap, g);
    ActingQuiet(w, cfg, snap, |w.issues| + i, g);
    RunEndsFiling(w, cfg, snap, g);
    RungOfLoop(w, AfterActing(w, cfg, snap, g), Run(w, cfg, snap, g), Filed(cfg, snap, w.issues), i, cfg, snap.now, g);
  }
}
