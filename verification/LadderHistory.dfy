/**
  The dark-node ladder over whole histories: runs that may die at any call, humans who edit
  and comment, nodes that recover. The state read back from a thread is compared with an
  in-memory ladder that is stepped by the recorded decisions in the log.
 */
module LadderHistory {
  import opened Common
  import opened DarkLadder
  import opened Detection
  import opened Tracker
  import opened Watchdog

  // ---- The in-memory ladder of one issue ----

  predicate About(e: Event, n: nat) {
    (e.Sent? || e.Recorded? || e.RecordLost?) && e.issue == n
  }

  /** The ladder variable, stepped by every recorded decision. */
  function Memory(log: seq<Event>, n: nat, cfg: LadderConfig): LadderState {
    if log == [] then DEFAULT_STATE
    else
      var m, e := Memory(Front(log), n, cfg), Last(log);
      if e.Recorded? && e.issue == n then Decide(e.facts, m, cfg, e.at).state else m
  }

  /** Every dispatch and every record is what the in-memory ladder decides at that point. */
  predicate Justified(log: seq<Event>, n: nat, cfg: LadderConfig) {
    log == []
    || (&& Justified(Front(log), n, cfg)
        && var e := Last(log);
           ((e.Sent? || e.Recorded?) && e.issue == n) ==>
             Decide(e.facts, Memory(Front(log), n, cfg), cfg, e.at).action == e.action != Stay)
  }

  /** Every dispatch was either recorded or its record was lost. */
  predicate Balanced(log: seq<Event>, n: nat) {
    BalancedFor(log, n, Reboot) && BalancedFor(log, n, Reinstall)
  }

  predicate BalancedFor(log: seq<Event>, n: nat, a: Action) {
    Count(log, Sends(n, a)) == Count(log, Records(n, a)) + Count(log, LostRecords(n, a))
  }

  predicate LadderInv(w: World, n: nat, cfg: LadderConfig) {
    && Justified(w.log, n, cfg)
    && Balanced(w.log, n)
    && Memory(w.log, n, cfg) == if n < |w.issues| then ThreadState(w.issues[n].comments) else DEFAULT_STATE
  }

  // ---- Steps that do not concern the ladder of issue n ----

  predicate Unmarked(comments: seq<Text>, start: nat) {
    forall i :: start <= i < |comments| ==> !MarkOf(comments[i]).Mark?
  }

  /** Nothing about `n` was logged, and its thread gained only comments without a state. */
  predicate Quiet(w: World, v: World, n: nat) {
    && w.log <= v.log
    && (forall i :: |w.log| <= i < |v.log| ==> !About(v.log[i], n))
    && |w.issues| <= |v.issues|
    && (n < |w.issues| ==>
          w.issues[n].comments <= v.issues[n].comments && Unmarked(v.issues[n].comments, |w.issues[n].comments|))
    && (|w.issues| <= n < |v.issues| ==> Unmarked(v.issues[n].comments, 0))
  }

  lemma QuietTransitive(u: World, v: World, w: World, n: nat)
    requires Quiet(u, v, n) && Quiet(v, w, n)
    ensures Quiet(u, w, n)
  {
  }

  lemma {:induction false} QuietLog(a: seq<Event>, b: seq<Event>, n: nat, cfg: LadderConfig)
    requires a <= b && forall i :: |a| <= i < |b| ==> !About(b[i], n)
    ensures Memory(b, n, cfg) == Memory(a, n, cfg)
    ensures Justified(b, n, cfg) == Justified(a, n, cfg)
    ensures Balanced(b, n) == Balanced(a, n)
  {
    if |a| == |b| {
      assert a == b;
    } else {
      QuietLog(a, Front(b), n, cfg);
    }
  }

  lemma QuietThread(a: seq<Text>, b: seq<Text>)
    requires a <= b && Unmarked(b, |a|)
    ensures ThreadState(b) == ThreadState(a)
  {
    var rest := b[|a|..];
    assert b == a + rest;
    MarksConcat(a, rest);
    FoldConcat(DEFAULT_STATE, Marks(a), Marks(rest));
    FoldNoise(ThreadState(a), Marks(rest));
  }

  lemma QuietKeeps(w: World, v: World, n: nat, cfg: LadderConfig)
    requires Quiet(w, v, n) && LadderInv(w, n, cfg)
    ensures LadderInv(v, n, cfg)
  {
    QuietLog(w.log, v.log, n, cfg);
    if n < |w.issues| {
      QuietThread(w.issues[n].comments, v.issues[n].comments);
    } else if n < |v.issues| {
      QuietThread([], v.issues[n].comments);
    }
  }

  lemma CloseResolvedQuiet(w: World, k: nat, n: nat, g: Replies)
    ensures Quiet(w, Close(CommentBestEffort(w, k, [], g), k, g), n)
  {
    var v := CommentBestEffort(w, k, [], g);
    assert Quiet(w, v, n);
    assert Quiet(v, Close(v, k, g), n);
  }

  lemma InstanceQuiet(w: World, k: nat, pod: string, n: nat, g: Replies)
    ensures Quiet(w, RunInstance(w, k, pod, g), n)
  {
    if w.alive && k < |w.issues| {
      var read := Read(w, g);
      var text := [InstanceMarker(pod)];
      assert MarkOf(text) == MarkOf(text[1..]) == NoMark;
      var said := CommentBestEffort(read, k, text, g);
      assert Quiet(w, said, n);
      assert Quiet(said, CloseBestEffort(said, k, g), n);
    }
  }

  lemma TerminateQuiet(w: World, k: nat, app: string, startedAt: string, n: nat, g: Replies)
    ensures Quiet(w, RunTerminate(w, k, app, startedAt, g), n)
  {
    if w.alive && k < |w.issues| {
      var text := TerminateText(app, startedAt);
      assert MarkOf(text) == MarkOf(text[1..]) == NoMark;
      var sent := DispatchTerminate(Read(w, g), app, startedAt, g);
      assert Quiet(w, sent, n);
      assert Quiet(sent, Comment(sent, k, text, g), n);
    }
  }

  lemma CreateQuiet(w: World, issue: Issue, n: nat, g: Replies)
    requires issue.comments == []
    ensures Quiet(w, Create(w, issue, g), n)
  {
  }

  // ---- Acting on issue k ----

  lemma ActKeepsOthers(w: World, k: nat, facts: DarkFacts, state: LadderState, cfg: LadderConfig, now: real,
                       n: nat, g: Replies)
    requires k != n
    ensures Quiet(w, Act(w, k, facts, state, cfg, now, g), n)
  {
  }

  lemma Append(log: seq<Event>, e: Event, n: nat, cfg: LadderConfig)
    ensures Memory(log + [e], n, cfg)
            == if e.Recorded? && e.issue == n then Decide(e.facts, Memory(log, n, cfg), cfg, e.at).state
               else Memory(log, n, cfg)
    ensures Justified(log + [e], n, cfg) <==>
            Justified(log, n, cfg)
            && (((e.Sent? || e.Recorded?) && e.issue == n) ==>
                  Decide(e.facts, Memory(log, n, cfg), cfg, e.at).action == e.action != Stay)
  {
    Snoc(log, e);
  }

  lemma AppendCount(log: seq<Event>, e: Event, what: What)
    ensures Count(log + [e], what) == Count(log, what) + if Is(e, what) then 1 else 0
  {
    Snoc(log, e);
  }

  /** What a decision leaves in the log: its dispatch, if it has one, and the fate of its record. */
  function Trace(n: nat, action: Action, facts: DarkFacts, at: real, recorded: bool): seq<Event> {
    var fate := if recorded then Recorded(n, action, facts, at) else RecordLost(n, action);
    if action.Reboot? || action.Reinstall? then [Sent(n, action, facts, at), fate] else [fate]
  }

  lemma TraceCount(log: seq<Event>, n: nat, action: Action, facts: DarkFacts, at: real, recorded: bool, what: What)
    ensures var t := Trace(n, action, facts, at, recorded);
            Count(log + t, what) == Count(log, what) + (if Is(t[0], what) then 1 else 0)
                                    + (if |t| == 2 && Is(t[1], what) then 1 else 0)
  {
    var t := Trace(n, action, facts, at, recorded);
    AppendCount(log, t[0], what);
    if |t| == 2 {
      AppendCount(log + [t[0]], t[1], what);
      assert log + t == log + [t[0]] + [t[1]];
    } else {
      assert t == [t[0]];
    }
  }

  lemma TraceBalanced(log: seq<Event>, n: nat, action: Action, facts: DarkFacts, at: real, recorded: bool, a: Action)
    requires BalancedFor(log, n, a) && (a.Reboot? || a.Reinstall?)
    ensures BalancedFor(log + Trace(n, action, facts, at, recorded), n, a)
  {
    TraceCount(log, n, action, facts, at, recorded, Sends(n, a));
    TraceCount(log, n, action, facts, at, recorded, Records(n, a));
    TraceCount(log, n, action, facts, at, recorded, LostRecords(n, a));
  }

  lemma TraceKeeps(log: seq<Event>, n: nat, d: Decision, facts: DarkFacts, cfg: LadderConfig, at: real, recorded: bool)
    requires Justified(log, n, cfg) && Balanced(log, n)
    requires d == Decide(facts, Memory(log, n, cfg), cfg, at) && !d.action.Stay?
    ensures var grown := log + Trace(n, d.action, facts, at, recorded);
            && Justified(grown, n, cfg) && Balanced(grown, n)
            && Memory(grown, n, cfg) == if recorded then d.state else Memory(log, n, cfg)
  {
    var t := Trace(n, d.action, facts, at, recorded);
    Append(log, t[0], n, cfg);
    if |t| == 2 {
      Append(log + [t[0]], t[1], n, cfg);
      assert log + t == log + [t[0]] + [t[1]];
    } else {
      assert t == [t[0]];
    }
    TraceBalanced(log, n, d.action, facts, at, recorded, Reboot);
    TraceBalanced(log, n, d.action, facts, at, recorded, Reinstall);
  }

  /** All that acting does: nothing, or a trace in the log with the mark in the thread if recorded. */
  lemma ActOutcome(w: World, n: nat, facts: DarkFacts, state: LadderState, cfg: LadderConfig, now: real, g: Replies)
    requires n < |w.issues|
    ensures var d := Decide(facts, state, cfg, now);
            var v := Act(w, n, facts, state, cfg, now, g);
            var mark := [StateMarker(Render(d.state))];
            || (v.log == w.log && v.issues == w.issues)
            || (!d.action.Stay? && v.issues == w.issues && v.log == w.log + Trace(n, d.action, facts, now, false))
            || (!d.action.Stay? && v.issues == WithComment(w.issues, n, mark)
                && v.log == w.log + Trace(n, d.action, facts, now, true))
  {
  }

  lemma MarkedThread(comments: seq<Text>, state: LadderState)
    ensures ThreadState(comments + [[StateMarker(Render(state))]]) == state
  {
    var mark := [StateMarker(Render(state))];
    MarksConcat(comments, [mark]);
    assert Marks([mark]) == [Render(state)];
    RenderThenRead(DEFAULT_STATE, Marks(comments), state);
  }

  /** Acting on the state that was read keeps the thread and the in-memory ladder in step. */
  lemma ActKeeps(w: World, n: nat, facts: DarkFacts, cfg: LadderConfig, now: real, g: Replies)
    requires LadderInv(w, n, cfg) && n < |w.issues|
    ensures LadderInv(Act(w, n, facts, ThreadState(w.issues[n].comments), cfg, now, g), n, cfg)
  {
    var state := ThreadState(w.issues[n].comments);
    ActOutcome(w, n, facts, state, cfg, now, g);
    var d := Decide(facts, state, cfg, now);
    if !d.action.Stay? {
      TraceKeeps(w.log, n, d, facts, cfg, now, true);
      TraceKeeps(w.log, n, d, facts, cfg, now, false);
      MarkedThread(w.issues[n].comments, d.state);
    }
  }

  // ---- Every step, every run, every history ----

  lemma FileKeeps(w: World, f: Finding, cfg: Config, now: real, n: nat, g: Replies)
    requires LadderInv(w, n, cfg.ladder)
    ensures LadderInv(RunFile(w, f, cfg, now, g), n, cfg.ladder)
  {
    if w.alive {
      var terminate := f.OpFinding? && cfg.autoTerminate;
      var sent := if terminate then DispatchTerminate(w, f.app, f.startedAt, g) else w;
      assert Quiet(w, sent, n);
      var made := Create(sent, IssueFor(f, terminate), g);
      CreateQuiet(sent, IssueFor(f, terminate), n, g);
      QuietTransitive(w, sent, made, n);
      QuietKeeps(w, made, n, cfg.ladder);
      if sent.alive && made.alive && f.NodeFinding? {
        FirstClimbKeeps(sent, made, f, cfg, now, n, g);
      } else {
        assert Quiet(w, RunFile(w, f, cfg, now, g), n);
        QuietKeeps(w, RunFile(w, f, cfg, now, g), n, cfg.ladder);
      }
    }
  }

  /** The first look at a node follows the filing of its issue, whose thread is empty. */
  lemma FirstClimbKeeps(sent: World, made: World, f: Finding, cfg: Config, now: real, n: nat, g: Replies)
    requires sent.alive && f.NodeFinding? && made == Create(sent, IssueFor(f, false), g) && made.alive
    requires LadderInv(made, n, cfg.ladder)
    ensures LadderInv(Act(made, |sent.issues|, f.facts, DEFAULT_STATE, cfg.ladder, now, g), n, cfg.ladder)
  {
    var k := |sent.issues|;
    if k == n {
      assert Marks(made.issues[n].comments) == [];
      ActKeeps(made, n, f.facts, cfg.ladder, now, g);
    } else {
      ActKeepsOthers(made, k, f.facts, DEFAULT_STATE, cfg.ladder, now, n, g);
      QuietKeeps(made, Act(made, k, f.facts, DEFAULT_STATE, cfg.ladder, now, g), n, cfg.ladder);
    }
  }

  lemma ClimbKeeps(w: World, k: nat, facts: DarkFacts, cfg: LadderConfig, now: real, n: nat, g: Replies)
    requires LadderInv(w, n, cfg)
    ensures LadderInv(RunClimb(w, k, facts, cfg, now, g), n, cfg)
  {
    if w.alive && k < |w.issues| {
      var read := Read(w, g);
      if k == n {
        ActKeeps(read, n, facts, cfg, now, g);
      } else {
        ActKeepsOthers(read, k, facts, ThreadState(w.issues[k].comments), cfg, now, n, g);
        QuietKeeps(w, RunClimb(w, k, facts, cfg, now, g), n, cfg);
      }
    }
  }

  lemma ExecKeepsLadder(w: World, step: Step, cfg: Config, now: real, n: nat, g: Replies)
    requires LadderInv(w, n, cfg.ladder)
    ensures LadderInv(Exec(w, step, cfg, now, g), n, cfg.ladder)
  {
    match step
    case CloseResolved(k) =>
      CloseResolvedQuiet(w, k, n, g);
      QuietKeeps(w, Exec(w, step, cfg, now, g), n, cfg.ladder);
    case UpdateInstance(k, pod) =>
      InstanceQuiet(w, k, pod, n, g);
      QuietKeeps(w, Exec(w, step, cfg, now, g), n, cfg.ladder);
    case TerminateTracked(k, app, startedAt) =>
      TerminateQuiet(w, k, app, startedAt, n, g);
      QuietKeeps(w, Exec(w, step, cfg, now, g), n, cfg.ladder);
    case ClimbTracked(k, facts) =>
      ClimbKeeps(w, k, facts, cfg.ladder, now, n, g);
    case EnsureLabel =>
    case File(f) =>
      FileKeeps(w, f, cfg, now, n, g);
  }

  /**
    At every point of every run, wherever it dies, the state a later run reads from a thread
    is the state of the last recorded decision.
   */
  lemma {:induction false} RunKeepsLadder(w: World, steps: seq<Step>, cfg: Config, now: real, n: nat, g: Replies)
    requires LadderInv(w, n, cfg.ladder)
    ensures LadderInv(ExecAll(w, steps, cfg, now, g), n, cfg.ladder)
  {
    if steps != [] {
      RunKeepsLadder(w, Front(steps), cfg, now, n, g);
      ExecKeepsLadder(ExecAll(w, Front(steps), cfg, now, g), Last(steps), cfg, now, n, g);
    }
  }

  /** What happens between and in runs: a run on a snapshot, or people changing the tracker. */
  datatype Episode = RunOn(snap: Snapshot) | People(issues: seq<Issue>)

  function After(w: World, es: seq<Episode>, cfg: Config, g: Replies): World {
    if es == [] then w
    else
      var v := After(w, Front(es), cfg, g);
      match Last(es)
      case RunOn(snap) => Run(v, cfg, snap, g)
      case People(issues) => v.(issues := issues)
  }

  /** People may edit, close, reopen, file and comment at will; they write no state markers. */
  predicate NeutralEdit(before: seq<Issue>, after: seq<Issue>) {
    && |before| <= |after|
    && (forall n :: 0 <= n < |before| ==>
          before[n].comments <= after[n].comments && Unmarked(after[n].comments, |before[n].comments|))
    && (forall n :: |before| <= n < |after| ==> Unmarked(after[n].comments, 0))
  }

  predicate OnlyWatchdogWritesState(w: World, es: seq<Episode>, cfg: Config, g: Replies) {
    es == []
    || (&& OnlyWatchdogWritesState(w, Front(es), cfg, g)
        && (Last(es).People? ==> NeutralEdit(After(w, Front(es), cfg, g).issues, Last(es).issues)))
  }

  const START := World([], [], 0, true)

  /** The thread refines the in-memory ladder over every history from an empty tracker. */
  lemma {:induction false} ThreadRefinesLadder(es: seq<Episode>, cfg: Config, n: nat, g: Replies)
    requires OnlyWatchdogWritesState(START, es, cfg, g)
    ensures LadderInv(After(START, es, cfg, g), n, cfg.ladder)
  {
    if es != [] {
      ThreadRefinesLadder(Front(es), cfg, n, g);
      var v := After(START, Front(es), cfg, g);
      match Last(es)
      case RunOn(snap) =>
        RunKeepsLadder(Read(v.(alive := true), g), Plan(cfg, snap, v.issues), cfg, snap.now, n, g);
      case People(issues) =>
        QuietKeeps(v, v.(issues := issues), n, cfg.ladder);
    }
  }
}
