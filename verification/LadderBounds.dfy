/**
  What the in-memory ladder implies for the actions dispatched: how many reboots and
  reinstalls there can be, in what order, how far apart, and on what evidence.
 */
module LadderBounds {
  import opened Common
  import opened DarkLadder
  import opened Detection
  import opened Tracker
  import opened Watchdog
  import opened LadderHistory
  import opened PlanFacts

  function Budget(cfg: LadderConfig): nat {
    Max(0, cfg.maxAttempts)
  }

  /** The counters in the state are the counts of recorded actions. */
  lemma {:induction false} MemoryCounts(log: seq<Event>, n: nat, cfg: LadderConfig)
    requires Justified(log, n, cfg)
    ensures var m := Memory(log, n, cfg);
            && m.attempts == Count(log, Records(n, Reboot)) <= Budget(cfg)
            && Count(log, Records(n, Reinstall)) == (if m.escalated then 1 else 0)
            && (m.escalated ==> m.attempts == Budget(cfg))
  {
    if log != [] {
      MemoryCounts(Front(log), n, cfg);
    }
  }

  /**
    Over every history: reboots are at most the budget plus the lost records, reinstalls at
    most one plus the lost records; exactly the recorded ones when no record was lost.
   */
  lemma LadderIsBounded(es: seq<Episode>, cfg: Config, n: nat, g: Replies)
    requires OnlyWatchdogWritesState(START, es, cfg, g)
    ensures var log := After(START, es, cfg, g).log;
            var m := Memory(log, n, cfg.ladder);
            && Count(log, Sends(n, Reboot)) == m.attempts + Count(log, LostRecords(n, Reboot))
            && Count(log, Sends(n, Reboot)) <= Budget(cfg.ladder) + Count(log, LostRecords(n, Reboot))
            && Count(log, Sends(n, Reinstall)) == (if m.escalated then 1 else 0) + Count(log, LostRecords(n, Reinstall))
  {
    ThreadRefinesLadder(es, cfg, n, g);
    MemoryCounts(After(START, es, cfg, g).log, n, cfg.ladder);
  }

  // ---- Prefixes of the log ----

  lemma {:induction false} JustifiedPrefix(log: seq<Event>, n: nat, cfg: LadderConfig, i: nat)
    requires Justified(log, n, cfg) && i <= |log|
    ensures Justified(log[..i], n, cfg)
    ensures i < |log| && (log[i].Sent? || log[i].Recorded?) && log[i].issue == n ==>
              Decide(log[i].facts, Memory(log[..i], n, cfg), cfg, log[i].at).action == log[i].action != Stay
    ensures Memory(log[..i], n, cfg).attempts <= Memory(log, n, cfg).attempts
  {
    if i == |log| {
      assert log[..i] == log;
    } else {
      JustifiedPrefix(Front(log), n, cfg, i);
      assert log[..i] == Front(log)[..i];
      if i < |log| - 1 {
        assert log[i] == Front(log)[i];
      }
    }
  }

  /** The position of a dispatched action about issue `n`. */
  predicate SentAt(log: seq<Event>, i: nat, n: nat, action: Action) {
    i < |log| && log[i].Sent? && log[i].issue == n && log[i].action == action
  }

  /**
    Every dispatched reinstall comes after exactly the budgeted number of recorded reboots,
    with the reported dark time past the threshold, on a control-plane node, and with the
    configured number of other Ready control-plane nodes if it is an etcd voter.
   */
  lemma ReinstallEvidence(log: seq<Event>, n: nat, cfg: LadderConfig, i: nat)
    requires Justified(log, n, cfg) && SentAt(log, i, n, Reinstall)
    ensures Count(log[..i], Records(n, Reboot)) == Budget(cfg)
    ensures Count(log[..i], Records(n, Reinstall)) == 0
    ensures log[i].facts.unknownMinutes >= cfg.escalateAfter && log[i].facts.controlPlane
    ensures log[i].facts.etcdVoter ==> log[i].facts.otherReady >= cfg.minOtherReady
  {
    JustifiedPrefix(log, n, cfg, i);
    MemoryCounts(log[..i], n, cfg);
  }

  /** No reboot follows a reinstall, not even one whose record was lost. */
  lemma NoRebootAfterReinstall(log: seq<Event>, n: nat, cfg: LadderConfig, i: nat, j: nat)
    requires Justified(log, n, cfg) && SentAt(log, i, n, Reinstall) && i < j
    ensures !SentAt(log, j, n, Reboot)
  {
    if j < |log| {
      JustifiedPrefix(log, n, cfg, j);
      assert log[..j][..i] == log[..i] && log[..j][i] == log[i];
      JustifiedPrefix(log[..j], n, cfg, i);
    }
  }

  // ---- Spacing of the recorded reboots ----

  function RebootTimes(log: seq<Event>, n: nat): seq<real> {
    if log == [] then []
    else RebootTimes(Front(log), n) + (if Is(Last(log), Records(n, Reboot)) then [Last(log).at] else [])
  }

  /** The reboot times are as many as the recorded reboots, spaced, and the state holds the last one. */
  predicate RebootsKnown(log: seq<Event>, n: nat, cfg: LadderConfig) {
    var times := RebootTimes(log, n);
    && |times| == Count(log, Records(n, Reboot))
    && Memory(log, n, cfg).lastRebootAt == (if times == [] then NoStamp else At(Last(times)))
    && forall k :: 0 < k < |times| ==> times[k] - times[k - 1] >= cfg.cooldown
  }

  /** Only a reboot changes the time of the last reboot, and only after the cooldown. */
  lemma DecisionAndStamp(facts: DarkFacts, m: LadderState, cfg: LadderConfig, at: real)
    ensures var d := Decide(facts, m, cfg, at);
            if d.action == Reboot then
              d.state.lastRebootAt == At(at) && (m.lastRebootAt.At? ==> at - m.lastRebootAt.instant >= cfg.cooldown)
            else d.state.lastRebootAt == m.lastRebootAt
  {
  }

  lemma RebootsNext(log: seq<Event>, n: nat, cfg: LadderConfig)
    requires log != [] && Justified(log, n, cfg) && RebootsKnown(Front(log), n, cfg)
    ensures RebootsKnown(log, n, cfg)
  {
    var e, m := Last(log), Memory(Front(log), n, cfg);
    if e.Recorded? && e.issue == n {
      DecisionAndStamp(e.facts, m, cfg, e.at);
    }
  }

  lemma {:induction false} RebootsAreSpaced(log: seq<Event>, n: nat, cfg: LadderConfig)
    requires Justified(log, n, cfg)
    ensures RebootsKnown(log, n, cfg)
  {
    if log != [] {
      RebootsAreSpaced(Front(log), n, cfg);
      RebootsNext(log, n, cfg);
    }
  }

  /** The j-th recorded reboot comes at least j cooldowns after the first. */
  lemma {:induction false} RebootsTakeTime(log: seq<Event>, n: nat, cfg: LadderConfig, j: nat)
    requires Justified(log, n, cfg) && j < |RebootTimes(log, n)|
    ensures RebootTimes(log, n)[j] - RebootTimes(log, n)[0] >= j as real * cfg.cooldown
  {
    var times := RebootTimes(log, n);
    if j == 0 {
      assert times[0] - times[0] == 0.0;
    } else {
      RebootsTakeTime(log, n, cfg, j - 1);
      RebootsAreSpaced(log, n, cfg);
      assert times[j] - times[j - 1] >= cfg.cooldown;
      OneMore(j, cfg.cooldown);
    }
  }

  lemma OneMore(j: nat, c: real)
    requires j > 0
    ensures j as real * c == (j - 1) as real * c + c
  {
    assert j as real == (j - 1) as real + 1.0;
  }

  // ---- Refusals are reported once ----

  /** The reasons given in the recorded refusals, in order. */
  function Refusals(log: seq<Event>, n: nat, cfg: LadderConfig): seq<Option<Reason>> {
    if log == [] then []
    else
      var e := Last(log);
      Refusals(Front(log), n, cfg)
      + (if e.Recorded? && e.issue == n && (e.action.RefuseQuorum? || e.action.RefuseElastic?)
         then [Memory(log, n, cfg).refusedReason] else [])
  }

  /** No two successive refusal comments carry the same reason. */
  lemma {:induction false} RefusalsDiffer(log: seq<Event>, n: nat, cfg: LadderConfig)
    requires Justified(log, n, cfg)
    ensures var rs := Refusals(log, n, cfg);
            && (forall k :: 0 < k < |rs| ==> rs[k] != rs[k - 1])
            && (rs != [] ==>
                  Memory(log, n, cfg).attempts >= cfg.maxAttempts
                  && (Memory(log, n, cfg).escalated || Memory(log, n, cfg).refusedReason == Last(rs)))
  {
    if log != [] {
      RefusalsDiffer(Front(log), n, cfg);
    }
  }

  // ---- The evidence is the snapshot's ----

  /** From `start` on, the log holds no dispatch about a node except on these facts at this time. */
  predicate SendsOnly(log: seq<Event>, start: nat, facts: DarkFacts, now: real) {
    forall i :: start <= i < |log| && log[i].Sent? ==> log[i].facts == facts && log[i].at == now
  }

  lemma ActSends(w: World, n: nat, facts: DarkFacts, state: LadderState, cfg: LadderConfig, now: real, g: Replies)
    requires n < |w.issues|
    ensures var v := Act(w, n, facts, state, cfg, now, g);
            w.log <= v.log && SendsOnly(v.log, |w.log|, facts, now)
  {
    ActOutcome(w, n, facts, state, cfg, now, g);
  }

  lemma FileSends(w: World, f: Finding, cfg: Config, now: real, facts: DarkFacts, g: Replies)
    requires f.NodeFinding? ==> facts == f.facts
    ensures var v := RunFile(w, f, cfg, now, g);
            w.log <= v.log && SendsOnly(v.log, |w.log|, facts, now)
  {
    if w.alive && f.NodeFinding? {
      var made := Create(w, IssueFor(f, false), g);
      if made.alive {
        ActSends(made, |w.issues|, f.facts, DEFAULT_STATE, cfg.ladder, now, g);
      }
    }
  }

  /** The facts a step may act on; steps that act on no node get arbitrary facts. */
  function ActsOn(step: Step): DarkFacts {
    if step.ClimbTracked? then step.facts
    else if step.File? && step.finding.NodeFinding? then step.finding.facts
    else DarkFacts("", 0.0, false, false, 0)
  }

  lemma ExecSends(w: World, step: Step, cfg: Config, now: real, g: Replies)
    ensures var v := Exec(w, step, cfg, now, g);
            w.log <= v.log && SendsOnly(v.log, |w.log|, ActsOn(step), now)
            && (!step.ClimbTracked? && !step.File? ==> forall i :: |w.log| <= i < |v.log| ==> !v.log[i].Sent?)
  {
    if step.ClimbTracked? && w.alive && step.issue < |w.issues| {
      var read := Read(w, g);
      ActSends(read, step.issue, step.facts, ThreadState(w.issues[step.issue].comments), cfg.ladder, now, g);
    } else if step.File? {
      FileSends(w, step.finding, cfg, now, ActsOn(step), g);
    }
  }

  /** Every dispatch logged from `start` on rests on a dark-node finding of this snapshot. */
  predicate FromSnapshot(log: seq<Event>, start: nat, cfg: Config, snap: Snapshot) {
    forall i :: start <= i < |log| && log[i].Sent? ==>
      log[i].at == snap.now
      && exists f :: f in Findings(cfg, snap) && f.NodeFinding? && f.facts == log[i].facts
  }

  predicate StepFrom(step: Step, cfg: Config, snap: Snapshot) {
    step.ClimbTracked? || (step.File? && step.finding.NodeFinding?) ==>
      exists f :: f in Findings(cfg, snap) && f.NodeFinding? && f.facts == ActsOn(step)
  }

  lemma ExecFrom(w: World, step: Step, start: nat, cfg: Config, snap: Snapshot, g: Replies)
    requires start <= |w.log| && FromSnapshot(w.log, start, cfg, snap) && StepFrom(step, cfg, snap)
    ensures var v := Exec(w, step, cfg, snap.now, g);
            start <= |v.log| && FromSnapshot(v.log, start, cfg, snap)
  {
    ExecSends(w, step, cfg, snap.now, g);
  }

  lemma {:induction false} ExecAllFrom(w: World, steps: seq<Step>, start: nat, cfg: Config, snap: Snapshot, g: Replies)
    requires start <= |w.log| && FromSnapshot(w.log, start, cfg, snap)
    requires forall s :: s in steps ==> StepFrom(s, cfg, snap)
    ensures var v := ExecAll(w, steps, cfg, snap.now, g);
            start <= |v.log| && FromSnapshot(v.log, start, cfg, snap)
  {
    if steps != [] {
      ExecAllFrom(w, Front(steps), start, cfg, snap, g);
      ExecFrom(ExecAll(w, Front(steps), cfg, snap.now, g), Last(steps), start, cfg, snap, g);
    }
  }

  lemma PlanFrom(step: Step, cfg: Config, snap: Snapshot, issues: seq<Issue>)
    requires step in Plan(cfg, snap, issues)
    ensures StepFrom(step, cfg, snap)
  {
    StepPlanned(step, cfg, snap, issues);
    if step.ClimbTracked? {
      var d :| d in DupsOf(cfg, snap, issues) && d.issue == step.issue && ClimbStep(d) == [step];
      DupFacts(d, cfg, snap, issues);
    } else if step.File? {
      FiledIsNew(cfg, snap, issues, step.finding);
    }
  }

  /** Every dispatch a run adds to the log rests on a finding of its snapshot. */
  lemma RunFrom(w: World, cfg: Config, snap: Snapshot, g: Replies)
    ensures FromSnapshot(Run(w, cfg, snap, g).log, |w.log|, cfg, snap)
  {
    forall s | s in Plan(cfg, snap, w.issues) ensures StepFrom(s, cfg, snap) {
      PlanFrom(s, cfg, snap, w.issues);
    }
    ExecAllFrom(Read(w.(alive := true), g), Plan(cfg, snap, w.issues), |w.log|, cfg, snap, g);
  }

  /** Node `k` of the snapshot, dark by its condition `c`, justifies a reinstall on the given facts. */
  predicate ReinstallSeen(nodes: seq<Node>, k: nat, c: nat, facts: DarkFacts, cfg: Config, now: real) {
    && k < |nodes| && ReportsBy(NodeFinding(facts, nodes[k].detail), nodes, k, c, cfg, now)
    && nodes[k].controlPlane && facts.unknownMinutes >= cfg.ladder.escalateAfter
    && (FirstIs(nodes[k], "EtcdIsVoter", "True") ==> |OtherReadyAt(nodes, k)| >= cfg.ladder.minOtherReady)
  }

  /**
    A reinstall dispatched in a run rests on that run's snapshot: the node is a control-plane
    node seen Unknown for the configured time (to a rounded tenth), and if it is an etcd voter
    the snapshot shows enough Ready control-plane nodes other than it.
   */
  lemma ReinstallSeesQuorum(w: World, cfg: Config, snap: Snapshot, n: nat, i: nat, g: Replies)
    requires LadderInv(w, n, cfg.ladder)
    requires |w.log| <= i && SentAt(Run(w, cfg, snap, g).log, i, n, Reinstall)
    ensures exists k: nat, c: nat :: ReinstallSeen(snap.nodes, k, c, Run(w, cfg, snap, g).log[i].facts, cfg, snap.now)
  {
    var log := Run(w, cfg, snap, g).log;
    RunKeepsLadder(Read(w.(alive := true), g), Plan(cfg, snap, w.issues), cfg, snap.now, n, g);
    assert Justified(log, n, cfg.ladder);
    RunFrom(w, cfg, snap, g);
    SeenOnFacts(log, cfg, snap, n, i);
  }

  lemma SeenOnFacts(log: seq<Event>, cfg: Config, snap: Snapshot, n: nat, i: nat)
    requires Justified(log, n, cfg.ladder) && SentAt(log, i, n, Reinstall)
    requires exists f :: f in Findings(cfg, snap) && f.NodeFinding? && f.facts == log[i].facts
    ensures exists k: nat, c: nat :: ReinstallSeen(snap.nodes, k, c, log[i].facts, cfg, snap.now)
  {
    ReinstallEvidence(log, n, cfg.ladder, i);
    var f :| f in Findings(cfg, snap) && f.NodeFinding? && f.facts == log[i].facts;
    FindingsExact(cfg, snap, f);
    var k: nat :| Reports(f, snap.nodes, k, cfg, snap.now);
    var c: nat :| ReportsBy(f, snap.nodes, k, c, cfg, snap.now);
    assert ReinstallSeen(snap.nodes, k, c, log[i].facts, cfg, snap.now);
  }

  /** It is early by three seconds at most. */
  lemma ReinstallIsHardlyEarly(nodes: seq<Node>, k: nat, c: nat, facts: DarkFacts, cfg: Config, now: real)
    requires ReinstallSeen(nodes, k, c, facts, cfg, now)
    ensures now - SinceOf(nodes[k].conditions[c]).value >= cfg.ladder.escalateAfter - 0.05
  {
    RoundTenthClose(now - SinceOf(nodes[k].conditions[c]).value);
  }
}
