/**
  The evidence behind reinstalls over whole histories: which run sent one, what its snapshot
  showed, and what came before and after.
 */
module LadderEvidence {
  import opened Common
  import opened DarkLadder
  import opened Detection
  import opened Tracker
  import opened Watchdog
  import opened RunFacts
  import opened LadderHistory
  import opened LadderBounds
  import opened Scenarios
  import opened DarkRuns

  lemma LogGrows(es: seq<Episode>, cfg: Config, g: Replies)
    requires es != []
    ensures After(START, Front(es), cfg, g).log <= After(START, es, cfg, g).log
  {
    if Last(es).RunOn? {
      PartsEvolve(After(START, Front(es), cfg, g), cfg, Last(es).snap, g);
    }
  }

  /**
    Over every history a dispatched reinstall comes after exactly the budgeted recorded reboots
    and no recorded reinstall, on a control-plane node reported dark long enough and with the
    quorum left, and no reboot of the issue follows it.
   */
  lemma ReinstallInHistory(es: seq<Episode>, cfg: Config, n: nat, i: nat, g: Replies)
    requires OnlyWatchdogWritesState(START, es, cfg, g) && SentAt(After(START, es, cfg, g).log, i, n, Reinstall)
    ensures var log := After(START, es, cfg, g).log;
            && Count(log[..i], Records(n, Reboot)) == Budget(cfg.ladder) && Count(log[..i], Records(n, Reinstall)) == 0
            && log[i].facts.unknownMinutes >= cfg.ladder.escalateAfter && log[i].facts.controlPlane
            && (log[i].facts.etcdVoter ==> log[i].facts.otherReady >= cfg.ladder.minOtherReady)
            && forall j: nat :: i < j ==> !SentAt(log, j, n, Reboot)
  {
    var log := After(START, es, cfg, g).log;
    ThreadRefinesLadder(es, cfg, n, g);
    ReinstallEvidence(log, n, cfg.ladder, i);
    forall j: nat | i < j ensures !SentAt(log, j, n, Reboot) {
      NoRebootAfterReinstall(log, n, cfg.ladder, i, j);
    }
  }

  function LogAfter(es: seq<Episode>, cfg: Config, g: Replies): seq<Event> {
    After(START, es, cfg, g).log
  }

  /** Entry `i` of the log lies from `lo` to `hi`, and node `k`, dark by condition `c`, justifies its reinstall. */
  ghost predicate SeenBy(log: seq<Event>, snap: Snapshot, lo: nat, hi: nat, i: nat, k: nat, c: nat, cfg: Config) {
    && lo <= i < hi && i < |log| && log[i].Sent?
    && ReinstallSeen(snap.nodes, k, c, log[i].facts, cfg, snap.now)
  }

  /** Episode `j` is the run that wrote entry `i` of the log, and node `k` of its snapshot justifies it. */
  ghost predicate SentBy(es: seq<Episode>, j: nat, k: nat, c: nat, cfg: Config, i: nat, g: Replies) {
    && j < |es| && es[j].RunOn?
    && SeenBy(LogAfter(es, cfg, g), es[j].snap, |LogAfter(es[..j], cfg, g)|, |LogAfter(es[..j + 1], cfg, g)|,
              i, k, c, cfg)
  }

  lemma SeenLater(log: seq<Event>, longer: seq<Event>, snap: Snapshot, lo: nat, hi: nat, i: nat, k: nat, c: nat,
                  cfg: Config)
    requires log <= longer && SeenBy(log, snap, lo, hi, i, k, c, cfg)
    ensures SeenBy(longer, snap, lo, hi, i, k, c, cfg)
  {
  }

  lemma SlicesAtEnd<T>(s: seq<T>)
    requires s != []
    ensures s[..|s| - 1] == Front(s) && s[..|s|] == s
  {
  }

  lemma LastRunSent(es: seq<Episode>, cfg: Config, n: nat, i: nat, g: Replies) returns (k: nat, c: nat)
    requires es != [] && Last(es).RunOn? && OnlyWatchdogWritesState(START, es, cfg, g)
    requires |After(START, Front(es), cfg, g).log| <= i && SentAt(After(START, es, cfg, g).log, i, n, Reinstall)
    ensures SentBy(es, |es| - 1, k, c, cfg, i, g)
  {
    var w, snap := After(START, Front(es), cfg, g), Last(es).snap;
    ThreadRefinesLadder(Front(es), cfg, n, g);
    ReinstallSeesQuorum(w, cfg, snap, n, i, g);
    k, c :| ReinstallSeen(snap.nodes, k, c, Run(w, cfg, snap, g).log[i].facts, cfg, snap.now);
    SlicesAtEnd(es);
  }

  lemma {:induction false} WritesStateBefore(es: seq<Episode>, j: nat, cfg: Config, g: Replies)
    requires j <= |es| && OnlyWatchdogWritesState(START, es, cfg, g)
    ensures OnlyWatchdogWritesState(START, es[..j], cfg, g)
  {
    if j == |es| {
      assert es[..j] == es;
    } else {
      WritesStateBefore(Front(es), j, cfg, g);
      assert es[..j] == Front(es)[..j];
    }
  }

  lemma PrefixTransitive<T>(a: seq<T>, b: seq<T>, c: seq<T>)
    requires a <= b <= c
    ensures a <= c
  {
  }

  lemma {:induction false} LogsGrow(es: seq<Episode>, j: nat, cfg: Config, g: Replies)
    requires j <= |es|
    ensures LogAfter(es[..j], cfg, g) <= LogAfter(es, cfg, g)
  {
    if j == |es| {
      assert es[..j] == es;
    } else {
      LogGrows(es, cfg, g);
      LogsGrow(Front(es), j, cfg, g);
      assert es[..j] == Front(es)[..j];
      PrefixTransitive(LogAfter(es[..j], cfg, g), LogAfter(Front(es), cfg, g), LogAfter(es, cfg, g));
    }
  }

  /** Where a sequence of numbers passes `i`. */
  lemma {:induction false} WhereItPasses(sizes: seq<nat>, i: nat) returns (j: nat)
    requires sizes != [] && sizes[0] <= i < Last(sizes)
    ensures j + 1 < |sizes| && sizes[j] <= i < sizes[j + 1]
  {
    if |sizes| >= 2 && i < sizes[|sizes| - 2] {
      j := WhereItPasses(Front(sizes), i);
    } else {
      j := |sizes| - 2;
    }
  }

  function Sizes(es: seq<Episode>, cfg: Config, g: Replies): seq<nat> {
    seq(|es| + 1, j requires 0 <= j <= |es| => |LogAfter(es[..j], cfg, g)|)
  }

  lemma NothingLoggedYet(cfg: Config, g: Replies)
    ensures LogAfter([], cfg, g) == []
  {
  }

  /** The episode that wrote entry `i`. */
  lemma WhoWrote(es: seq<Episode>, cfg: Config, i: nat, g: Replies) returns (j: nat)
    requires i < |LogAfter(es, cfg, g)|
    ensures j < |es| && |LogAfter(es[..j], cfg, g)| <= i < |LogAfter(es[..j + 1], cfg, g)|
  {
    assert es[..0] == [] && es[..|es|] == es;
    NothingLoggedYet(cfg, g);
    j := WhereItPasses(Sizes(es, cfg, g), i);
  }

  lemma OnlyRunsWrite(es: seq<Episode>, cfg: Config, i: nat, g: Replies)
    requires es != [] && |After(START, Front(es), cfg, g).log| <= i < |After(START, es, cfg, g).log|
    ensures Last(es).RunOn?
  {
  }

  lemma SlicesOfNext<T>(s: seq<T>, j: nat)
    requires j < |s|
    ensures s[..j + 1][..j] == s[..j] && s[..j + 1][..j + 1] == s[..j + 1] && s[..j + 1][j] == s[j]
  {
  }

  lemma SentByPrefix(es: seq<Episode>, j: nat, k: nat, c: nat, cfg: Config, i: nat, g: Replies)
    requires j < |es| && SentBy(es[..j + 1], j, k, c, cfg, i, g)
    requires LogAfter(es[..j + 1], cfg, g) <= LogAfter(es, cfg, g)
    ensures SentBy(es, j, k, c, cfg, i, g)
  {
    SlicesOfNext(es, j);
    SeenLater(LogAfter(es[..j + 1], cfg, g), LogAfter(es, cfg, g), es[j].snap, |LogAfter(es[..j], cfg, g)|,
              |LogAfter(es[..j + 1], cfg, g)|, i, k, c, cfg);
  }

  lemma SentWithin(es: seq<Episode>, j: nat, cfg: Config, n: nat, i: nat, g: Replies)
    requires j <= |es| && SentAt(LogAfter(es, cfg, g), i, n, Reinstall) && i < |LogAfter(es[..j], cfg, g)|
    ensures SentAt(LogAfter(es[..j], cfg, g), i, n, Reinstall)
  {
    LogsGrow(es, j, cfg, g);
  }

  lemma LastSent(es: seq<Episode>, cfg: Config, n: nat, i: nat, g: Replies) returns (k: nat, c: nat)
    requires es != [] && OnlyWatchdogWritesState(START, es, cfg, g)
    requires SentAt(LogAfter(es, cfg, g), i, n, Reinstall) && |LogAfter(Front(es), cfg, g)| <= i
    ensures SentBy(es, |es| - 1, k, c, cfg, i, g)
  {
    OnlyRunsWrite(es, cfg, i, g);
    k, c := LastRunSent(es, cfg, n, i, g);
  }

  lemma FrontOfNext<T>(s: seq<T>, j: nat)
    requires j < |s|
    ensures Front(s[..j + 1]) == s[..j] && |s[..j + 1]| == j + 1
  {
  }

  lemma RunSent(es: seq<Episode>, j: nat, cfg: Config, n: nat, i: nat, g: Replies) returns (k: nat, c: nat)
    requires j < |es| && OnlyWatchdogWritesState(START, es, cfg, g) && SentAt(LogAfter(es, cfg, g), i, n, Reinstall)
    requires |LogAfter(es[..j], cfg, g)| <= i < |LogAfter(es[..j + 1], cfg, g)|
    ensures SentBy(es[..j + 1], j, k, c, cfg, i, g)
  {
    WritesStateBefore(es, j + 1, cfg, g);
    SentWithin(es, j + 1, cfg, n, i, g);
    FrontOfNext(es, j);
    k, c := LastSent(es[..j + 1], cfg, n, i, g);
  }

  lemma WhoSent(es: seq<Episode>, cfg: Config, n: nat, i: nat, g: Replies) returns (j: nat, k: nat, c: nat)
    requires OnlyWatchdogWritesState(START, es, cfg, g) && SentAt(After(START, es, cfg, g).log, i, n, Reinstall)
    ensures SentBy(es, j, k, c, cfg, i, g)
  {
    j := WhoWrote(es, cfg, i, g);
    k, c := RunSent(es, j, cfg, n, i, g);
    LogsGrow(es, j + 1, cfg, g);
    SentByPrefix(es, j, k, c, cfg, i, g);
  }

  lemma SeenHardlyEarly(log: seq<Event>, snap: Snapshot, lo: nat, hi: nat, i: nat, k: nat, c: nat, cfg: Config)
    requires SeenBy(log, snap, lo, hi, i, k, c, cfg)
    ensures snap.now - SinceOf(snap.nodes[k].conditions[c]).value >= cfg.ladder.escalateAfter - 0.05
  {
    ReinstallIsHardlyEarly(snap.nodes, k, c, log[i].facts, cfg, snap.now);
  }

  /**
    Over every history each reinstall was dispatched by some run whose own snapshot shows the
    node dark for the configured time, to three seconds, and enough other Ready control-plane
    nodes if it is an etcd voter.
   */
  lemma ReinstallWasSeen(es: seq<Episode>, cfg: Config, n: nat, i: nat, g: Replies) returns (j: nat, k: nat, c: nat)
    requires OnlyWatchdogWritesState(START, es, cfg, g) && SentAt(After(START, es, cfg, g).log, i, n, Reinstall)
    ensures SentBy(es, j, k, c, cfg, i, g)
    ensures es[j].snap.now - SinceOf(es[j].snap.nodes[k].conditions[c]).value >= cfg.ladder.escalateAfter - 0.05
  {
    j, k, c := WhoSent(es, cfg, n, i, g);
    SeenHardlyEarly(LogAfter(es, cfg, g), es[j].snap, |LogAfter(es[..j], cfg, g)|, |LogAfter(es[..j + 1], cfg, g)|,
                    i, k, c, cfg);
  }

  // ---- Early by those seconds ----

  /** The run dispatches a reinstall of a control-plane node whose age only reaches the threshold when rounded. */
  lemma RunReinstallsEarly(w: World, cfg: Config, snap: Snapshot, node: Node, ready: int, s: LadderState)
    requires SeenEarly(node, snap.now, cfg.ladder) && Armed(cfg.ladder) && node.controlPlane
    requires !s.escalated && s.attempts >= cfg.ladder.maxAttempts
    requires HasStatus(node, "EtcdIsVoter", "True") ==> ready >= cfg.ladder.minOtherReady
    requires OnlyDark(cfg, snap, NodeFinding(DarkFactsOf(node, ready, snap.now), node.detail))
    requires Watching(w, NameOr(node.name), s)
    ensures Run(w, cfg, snap, AllOk()).log
            == w.log + Done(Reinstall, DarkFactsOf(node, ready, snap.now), snap.now)
  {
    EscalatesEarly(node, ready, snap.now, s, cfg.ladder);
    LaterRunActs(w, cfg, snap, NodeFinding(DarkFactsOf(node, ready, snap.now), node.detail), s);
  }

  function Facts(now: real): DarkFacts {
    DarkFactsOf(NODE, 0, now)
  }

  lemma OnlyNodeIsDark(now: real)
    requires now > 10.0
    ensures OnlyDark(CONFIG, DarkSnap(now), NodeFinding(Facts(now), "")) && Facts(now).node == "vmi1"
  {
    NodeIsDark(now);
    NodeNameIsSafe();
  }

  function RebootedAt(attempts: int, at: real): LadderState {
    DEFAULT_STATE.(attempts := attempts, lastRebootAt := At(at))
  }

  lemma FirstReboot()
    ensures var w := Run(START, CONFIG, DarkSnap(20.0), AllOk());
            Watching(w, "vmi1", RebootedAt(1, 20.0)) && w.log == Done(Reboot, Facts(20.0), 20.0)
  {
    OnlyNodeIsDark(20.0);
    assert Decide(Facts(20.0), DEFAULT_STATE, LADDER, 20.0) == Decision(Reboot, RebootedAt(1, 20.0));
    FirstRunActs(START, CONFIG, DarkSnap(20.0), NodeFinding(Facts(20.0), ""));
  }

  lemma SecondReboot(w: World)
    requires Watching(w, "vmi1", RebootedAt(1, 20.0))
    ensures var v := Run(w, CONFIG, DarkSnap(60.0), AllOk());
            Watching(v, "vmi1", RebootedAt(2, 60.0)) && v.log == w.log + Done(Reboot, Facts(60.0), 60.0)
  {
    OnlyNodeIsDark(60.0);
    assert Decide(Facts(60.0), RebootedAt(1, 20.0), LADDER, 60.0) == Decision(Reboot, RebootedAt(2, 60.0));
    LaterRunActs(w, CONFIG, DarkSnap(60.0), NodeFinding(Facts(60.0), ""), RebootedAt(1, 20.0));
  }

  lemma EarlyReinstall(w: World)
    requires Watching(w, "vmi1", RebootedAt(2, 60.0))
    ensures Run(w, CONFIG, DarkSnap(119.96), AllOk()).log == w.log + Done(Reinstall, Facts(119.96), 119.96)
    ensures 119.96 - UnknownSince(NODE).value < LADDER.escalateAfter
  {
    OnlyNodeIsDark(119.96);
    assert TenthsUp(120.0) == 1200;
    assert !HasStatus(NODE, "EtcdIsVoter", "True") by {
      assert "Ready"[0] != "EtcdIsVoter"[0];
    }
    RunReinstallsEarly(w, CONFIG, DarkSnap(119.96), NODE, 0, RebootedAt(2, 60.0));
  }

  function ThreeLooks(): seq<Episode> {
    [RunOn(DarkSnap(20.0)), RunOn(DarkSnap(60.0)), RunOn(DarkSnap(119.96))]
  }

  lemma ThreeRuns(a: Snapshot, b: Snapshot, c: Snapshot, cfg: Config, g: Replies)
    ensures After(START, [RunOn(a), RunOn(b), RunOn(c)], cfg, g)
            == Run(Run(Run(START, cfg, a, g), cfg, b, g), cfg, c, g)
  {
    var x, y, z := RunOn(a), RunOn(b), RunOn(c);
    assert Front([x, y, z]) == [x, y] && Front([x, y]) == [x] && Front([x]) == [];
    assert After(START, [x], cfg, g) == Run(START, cfg, a, g);
    assert After(START, [x, y], cfg, g) == Run(Run(START, cfg, a, g), cfg, b, g);
  }

  /** Two reboots, and a reinstall 119.96 minutes after the node went dark under a threshold of 120. */
  lemma NodeIsReinstalledEarly()
    ensures After(START, ThreeLooks(), CONFIG, AllOk()).log
            == Done(Reboot, Facts(20.0), 20.0) + Done(Reboot, Facts(60.0), 60.0)
               + Done(Reinstall, Facts(119.96), 119.96)
    ensures 119.96 - UnknownSince(NODE).value < LADDER.escalateAfter
  {
    ThreeRuns(DarkSnap(20.0), DarkSnap(60.0), DarkSnap(119.96), CONFIG, AllOk());
    FirstReboot();
    var w := Run(START, CONFIG, DarkSnap(20.0), AllOk());
    SecondReboot(w);
    EarlyReinstall(Run(w, CONFIG, DarkSnap(60.0), AllOk()));
  }
}
