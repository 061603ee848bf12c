/**
  Lost records have no bound: a thread that refuses every state comment has its node rebooted in
  every run, whatever the budget.
 */
module LostRecords {
  import opened Common
  import opened DarkLadder
  import opened Detection
  import opened Tracker
  import opened Watchdog
  import opened LadderHistory
  import opened Scenarios
  import opened DarkRuns

  /** The comment that ends each run is refused; every other call succeeds. */
  function CommentsRefused(): Replies {
    (i: nat) => if i > 0 && i % 4 == 0 then Refused else Ok
  }

  /** The snapshot shows one dark node and nothing else, and the ladder is at its first rung for it. */
  predicate OneDark(cfg: Config, snap: Snapshot, f: Finding) {
    OnlyDark(cfg, snap, f) && cfg.ladder.enabled && cfg.ladder.autoRestart && cfg.ladder.maxAttempts > 0
  }

  /** The tracker holds the node's issue with an empty thread, whatever has been dispatched. */
  predicate Unwritten(w: World, node: string) {
    w.issues == [NodeIssue(node, [])] && w.calls % 4 == 1
  }

  function Attempt(facts: DarkFacts, now: real): seq<Event> {
    [Sent(0, Reboot, facts, now), RecordLost(0, Reboot)]
  }

  lemma FirstRung(cfg: Config, snap: Snapshot, f: Finding)
    requires OneDark(cfg, snap, f)
    ensures Decide(f.facts, DEFAULT_STATE, cfg.ladder, snap.now).action == Reboot
    ensures ThreadState([]) == DEFAULT_STATE
  {
    assert Marks([]) == [];
  }

  /** Acting when the dispatch succeeds and the comment after it is refused. */
  lemma RefusedAct(w: World, f: Finding, cfg: Config, snap: Snapshot)
    requires OneDark(cfg, snap, f) && w.alive && w.calls % 4 == 3
    ensures var v := Act(w, 0, f.facts, DEFAULT_STATE, cfg.ladder, snap.now, CommentsRefused());
            v.issues == w.issues && v.log == w.log + Attempt(f.facts, snap.now) && v.calls == w.calls + 2
  {
    FirstRung(cfg, snap, f);
    assert w.log + [Sent(0, Reboot, f.facts, snap.now)] + [RecordLost(0, Reboot)] == w.log + Attempt(f.facts, snap.now);
  }

  lemma CallsNext(calls: nat)
    requires calls % 4 == 3
    ensures (calls + 2) % 4 == 1
  {
  }

  lemma ActLeaves(w: World, cfg: Config, snap: Snapshot, f: Finding)
    requires OneDark(cfg, snap, f) && w.alive && w.issues == [NodeIssue(f.facts.node, [])] && w.calls % 4 == 3
    ensures var v := Act(w, 0, f.facts, DEFAULT_STATE, cfg.ladder, snap.now, CommentsRefused());
            Unwritten(v, f.facts.node) && v.log == w.log + Attempt(f.facts, snap.now)
  {
    RefusedAct(w, f, cfg, snap);
    CallsNext(w.calls);
  }

  // ---- The first run files the issue ----

  lemma FirstFiling(w: World, f: Finding, cfg: Config, snap: Snapshot)
    requires OneDark(cfg, snap, f) && w.alive && w.issues == [] && w.calls == 2
    ensures var v := RunFile(w, f, cfg, snap.now, CommentsRefused());
            Unwritten(v, f.facts.node) && v.log == w.log + Attempt(f.facts, snap.now)
  {
    var made := Create(w, IssueFor(f, false), CommentsRefused());
    FiledForNode(f);
    ActLeaves(made, cfg, snap, f);
  }

  lemma FirstRun(w: World, cfg: Config, snap: Snapshot, f: Finding)
    requires OneDark(cfg, snap, f) && w.issues == [] && w.calls == 0
    ensures var v := Run(w, cfg, snap, CommentsRefused());
            Unwritten(v, f.facts.node) && v.log == w.log + Attempt(f.facts, snap.now)
  {
    FirstPlan(cfg, snap, f);
    TwoStepRun(w, cfg, snap, EnsureLabel, File(f), CommentsRefused());
    LabelAndFile(w.(alive := true), f, cfg, snap);
  }

  lemma LabelAndFile(w: World, f: Finding, cfg: Config, snap: Snapshot)
    requires OneDark(cfg, snap, f) && w.alive && w.issues == [] && w.calls == 0
    ensures var v := Exec(Exec(Read(w, CommentsRefused()), EnsureLabel, cfg, snap.now, CommentsRefused()),
                          File(f), cfg, snap.now, CommentsRefused());
            Unwritten(v, f.facts.node) && v.log == w.log + Attempt(f.facts, snap.now)
  {
    FirstFiling(Tolerated(Read(w, CommentsRefused()), CommentsRefused()), f, cfg, snap);
  }

  // ---- Every later run reboots again ----

  lemma RefusedRead(w: World)
    requires w.alive && w.calls % 4 == 2
    ensures var u := Read(w, CommentsRefused());
            u.alive && u.calls % 4 == 3 && u.issues == w.issues && u.log == w.log
  {
  }

  lemma RefusedClimb(w: World, cfg: Config, snap: Snapshot, f: Finding)
    requires OneDark(cfg, snap, f) && w.alive && w.issues == [NodeIssue(f.facts.node, [])] && w.calls % 4 == 2
    ensures var v := RunClimb(w, 0, f.facts, cfg.ladder, snap.now, CommentsRefused());
            Unwritten(v, f.facts.node) && v.log == w.log + Attempt(f.facts, snap.now)
  {
    RefusedRead(w);
    ClimbActs(w, 0, f.facts, cfg.ladder, snap.now, CommentsRefused());
    FirstRung(cfg, snap, f);
    ActLeaves(Read(w, CommentsRefused()), cfg, snap, f);
  }

  lemma RefusedList(w: World, cfg: Config, snap: Snapshot, f: Finding)
    requires OneDark(cfg, snap, f) && w.alive && Unwritten(w, f.facts.node)
    ensures var v := Exec(Read(w, CommentsRefused()), ClimbTracked(0, f.facts), cfg, snap.now, CommentsRefused());
            Unwritten(v, f.facts.node) && v.log == w.log + Attempt(f.facts, snap.now)
  {
    RefusedClimb(Read(w, CommentsRefused()), cfg, snap, f);
  }

  lemma LaterRun(w: World, cfg: Config, snap: Snapshot, f: Finding)
    requires OneDark(cfg, snap, f) && Unwritten(w, f.facts.node)
    ensures var v := Run(w, cfg, snap, CommentsRefused());
            Unwritten(v, f.facts.node) && v.log == w.log + Attempt(f.facts, snap.now)
  {
    LaterPlan(cfg, snap, f, []);
    OneStepRun(w, cfg, snap, ClimbTracked(0, f.facts), CommentsRefused());
    RefusedList(w.(alive := true), cfg, snap, f);
  }

  // ---- Histories ----

  lemma OneMoreReboot(log: seq<Event>, facts: DarkFacts, now: real)
    ensures Count(log + Attempt(facts, now), Sends(0, Reboot)) == Count(log, Sends(0, Reboot)) + 1
    ensures Count(log + Attempt(facts, now), LostRecords(0, Reboot)) == Count(log, LostRecords(0, Reboot)) + 1
  {
    TraceCount(log, 0, Reboot, facts, now, false, Sends(0, Reboot));
    TraceCount(log, 0, Reboot, facts, now, false, LostRecords(0, Reboot));
    assert Attempt(facts, now) == Trace(0, Reboot, facts, now, false);
  }

  /** One more run is one more reboot. */
  lemma NextRun(w: World, cfg: Config, snap: Snapshot, f: Finding)
    requires OneDark(cfg, snap, f) && (w == START || Unwritten(w, f.facts.node))
    ensures var v := Run(w, cfg, snap, CommentsRefused());
            Unwritten(v, f.facts.node) && v.log == w.log + Attempt(f.facts, snap.now)
  {
    if w == START {
      FirstRun(w, cfg, snap, f);
    } else {
      LaterRun(w, cfg, snap, f);
    }
  }

  /** There have been k reboots, each with its record lost. */
  predicate LostReboots(w: World, node: string, k: nat) {
    && Count(w.log, Sends(0, Reboot)) == k && Count(w.log, LostRecords(0, Reboot)) == k
    && (w == START || Unwritten(w, node))
  }

  lemma LostRebootsNext(w: World, cfg: Config, snap: Snapshot, f: Finding, k: nat)
    requires OneDark(cfg, snap, f) && LostReboots(w, f.facts.node, k)
    ensures LostReboots(Run(w, cfg, snap, CommentsRefused()), f.facts.node, k + 1)
  {
    NextRun(w, cfg, snap, f);
    OneMoreReboot(w.log, f.facts, snap.now);
  }

  /** The episode is a run that finds this node dark and nothing else. */
  ghost predicate FindsOnly(e: Episode, cfg: Config, node: string) {
    e.RunOn? && exists f :: OneDark(cfg, e.snap, f) && f.facts.node == node
  }

  lemma OneMoreRun(w: World, e: Episode, cfg: Config, node: string, k: nat)
    requires FindsOnly(e, cfg, node) && LostReboots(w, node, k)
    ensures LostReboots(Run(w, cfg, e.snap, CommentsRefused()), node, k + 1)
  {
    var f :| OneDark(cfg, e.snap, f) && f.facts.node == node;
    LostRebootsNext(w, cfg, e.snap, f, k);
  }

  lemma NoneYet(cfg: Config, node: string)
    ensures LostReboots(After(START, [], cfg, CommentsRefused()), node, 0)
  {
  }

  lemma AfterRun(es: seq<Episode>, cfg: Config, g: Replies)
    requires es != [] && Last(es).RunOn?
    ensures After(START, es, cfg, g) == Run(After(START, Front(es), cfg, g), cfg, Last(es).snap, g)
  {
  }

  /**
    Runs that find one node dark, each on its own snapshot and at its own time, and whose state
    comments are refused, are as many reboots, whatever the budget and the cooldown.
   */
  lemma {:induction false} RebootsWithoutEnd(es: seq<Episode>, cfg: Config, node: string)
    requires forall i :: 0 <= i < |es| ==> FindsOnly(es[i], cfg, node)
    ensures LostReboots(After(START, es, cfg, CommentsRefused()), node, |es|)
    decreases |es|
  {
    if es == [] {
      NoneYet(cfg, node);
    } else {
      RebootsWithoutEnd(Front(es), cfg, node);
      assert FindsOnly(es[|es| - 1], cfg, node);
      AfterRun(es, cfg, CommentsRefused());
      OneMoreRun(After(START, Front(es), cfg, CommentsRefused()), Last(es), cfg, node, |es| - 1);
    }
  }

  // ---- A concrete one ----

  /** A run every quarter of an hour. */
  function Quarterly(k: nat): seq<Episode> {
    seq(k, i requires 0 <= i < k => RunOn(DarkSnap(60.0 + 15.0 * (i as real))))
  }

  lemma FindsNode(now: real)
    requires now > 10.0
    ensures FindsOnly(RunOn(DarkSnap(now)), CONFIG, "vmi1")
  {
    NodeIsDark(now);
    NodeNameIsSafe();
    var f := NodeFinding(DarkFactsOf(NODE, 0, now), "");
    assert OneDark(CONFIG, DarkSnap(now), f);
  }

  lemma QuarterlyAt(k: nat, i: nat)
    requires i < k
    ensures |Quarterly(k)| == k && Quarterly(k)[i] == RunOn(DarkSnap(60.0 + 15.0 * (i as real)))
  {
  }

  lemma QuarterlyFindsAt(k: nat, i: nat)
    requires i < |Quarterly(k)|
    ensures FindsOnly(Quarterly(k)[i], CONFIG, "vmi1")
  {
    QuarterlyAt(k, i);
    FindsNode(60.0 + 15.0 * (i as real));
  }

  lemma QuarterlyFinds(k: nat)
    ensures forall i :: 0 <= i < |Quarterly(k)| ==> FindsOnly(Quarterly(k)[i], CONFIG, "vmi1")
  {
    forall i | 0 <= i < |Quarterly(k)| ensures FindsOnly(Quarterly(k)[i], CONFIG, "vmi1") {
      QuarterlyFindsAt(k, i);
    }
  }

  /** With a budget of two reboots and a cooldown of 30 minutes one node is rebooted every 15 minutes without end. */
  lemma TwoAttemptsManyReboots(k: nat)
    ensures Count(After(START, Quarterly(k), CONFIG, CommentsRefused()).log, Sends(0, Reboot)) == k
  {
    QuarterlyFinds(k);
    RebootsWithoutEnd(Quarterly(k), CONFIG, "vmi1");
  }
}
