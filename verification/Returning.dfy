/**
  A history in which an operation is terminated twice: it is stuck, its application is clear for
  one run, and it is stuck again with the same start time.
 */
module Returning {
  import opened Common
  import opened DarkLadder
  import opened Detection
  import opened Tracker
  import opened Watchdog
  import opened RunFacts
  import opened IssueIndex
  import opened FilingCaps
  import opened LadderHistory
  import opened TerminateHistory
  import opened TerminateBalance
  import opened TerminateExact
  import opened Scenarios

  /** Three snapshots: the operation is stuck, nothing is, and the same operation is stuck again. */
  predicate Interrupted(cfg: Config, stuck: Snapshot, clear: Snapshot, again: Snapshot, f: Finding) {
    && f.OpFinding? && SafeFinding(f) && cfg.autoTerminate && 1 <= cfg.maxPerRun && 2 * cfg.maxPerRun <= LIST_LIMIT
    && Findings(cfg, stuck) == [f] && Findings(cfg, again) == [f]
    && Findings(cfg, clear) == [] && clear.apps.Some?
  }

  function History(stuck: Snapshot, clear: Snapshot, again: Snapshot): seq<Episode> {
    [RunOn(stuck), RunOn(clear), RunOn(again)]
  }

  lemma NextIsRun(es: seq<Episode>, i: nat, cfg: Config, g: Replies)
    requires i < |es| && es[i].RunOn?
    ensures |WorldAt(es, i + 1, cfg, g).issues| <= |WorldAt(es, i, cfg, g).issues| + cfg.maxPerRun
  {
    AfterNext(es, i, cfg, g);
    PerRunCap(WorldAt(es, i, cfg, g), cfg, es[i].snap, g);
  }

  predicate AllRunsOn(es: seq<Episode>) {
    forall i :: 0 <= i < |es| ==> es[i].RunOn?
  }

  lemma {:induction false} IssuesGrow(es: seq<Episode>, i: nat, cfg: Config, g: Replies)
    requires i <= |es| && AllRunsOn(es)
    ensures |WorldAt(es, i, cfg, g).issues| <= i * cfg.maxPerRun
    decreases i
  {
    if i == 0 {
      assert es[..0] == [];
    } else {
      IssuesGrow(es, i - 1, cfg, g);
      NextIsRun(es, i - 1, cfg, g);
      OneMoreTime(i - 1, cfg.maxPerRun);
    }
  }

  lemma OneMoreTime(i: nat, n: nat)
    ensures i * n + n == (i + 1) * n
  {
  }

  lemma TwiceAtMost(i: nat, n: nat)
    requires i <= 2
    ensures i * n <= 2 * n
  {
  }

  lemma FewIssues(es: seq<Episode>, i: nat, cfg: Config, g: Replies)
    requires i <= 2 && i <= |es| && AllRunsOn(es) && 2 * cfg.maxPerRun <= LIST_LIMIT
    ensures ListedInFull(WorldAt(es, i, cfg, g).issues)
  {
    IssuesGrow(es, i, cfg, g);
    TwiceAtMost(i, cfg.maxPerRun);
    NoMoreOpenThanIssues(WorldAt(es, i, cfg, g).issues);
  }

  predicate ShortBatch(cfg: Config, snap: Snapshot) {
    |Findings(cfg, snap)| <= 1 && forall f :: f in Findings(cfg, snap) ==> SafeFinding(f)
  }

  lemma OneAtMost(fs: seq<Finding>, key: Key)
    requires |fs| <= 1
    ensures AtMostOnce(fs, key) && |Gather(fs, IfOp)| <= 1
  {
    if fs != [] {
      assert fs == [fs[0]];
      GatherOne(fs[0], IfOp);
    }
  }

  lemma ShortBatchFits(cfg: Config, snap: Snapshot, key: Key)
    requires ShortBatch(cfg, snap) && 1 <= cfg.maxPerRun
    ensures AtMostOnce(Findings(cfg, snap), key) && RoomForOps(cfg, snap)
  {
    OneAtMost(Findings(cfg, snap), key);
  }

  lemma ShortRunIsOrderly(es: seq<Episode>, i: nat, cfg: Config, app: string)
    requires i <= 2 && i < |es| && AllRunsOn(es) && ShortBatch(cfg, es[i].snap)
    requires 1 <= cfg.maxPerRun && 2 * cfg.maxPerRun <= LIST_LIMIT
    ensures OrderlyAt(es, i, cfg, OpKey(app), AllOk())
  {
    ShortBatchFits(cfg, es[i].snap, OpKey(app));
    FewIssues(es, i, cfg, AllOk());
  }

  lemma ShortRunIsFull(es: seq<Episode>, i: nat, cfg: Config)
    requires i < |es| && AllRunsOn(es) && ShortBatch(cfg, es[i].snap) && 1 <= cfg.maxPerRun
    ensures FullRunAt(es, i, cfg, AllOk())
  {
    ShortBatchFits(cfg, es[i].snap, OpKey(""));
    RunCompletes(WorldAt(es, i, cfg, AllOk()), cfg, es[i].snap);
  }

  lemma RunsOnlyMark(es: seq<Episode>, cfg: Config, app: string, s: string, g: Replies)
    requires AllRunsOn(es)
    ensures OnlyWatchdogMarks(START, es, cfg, app, s, g)
  {
    if es != [] {
      RunsOnlyMark(Front(es), cfg, app, s, g);
    }
  }

  lemma AllRuns(cfg: Config, stuck: Snapshot, clear: Snapshot, again: Snapshot, f: Finding)
    requires Interrupted(cfg, stuck, clear, again, f)
    ensures forall i :: 0 <= i < 3 ==>
              OrderlyAt(History(stuck, clear, again), i, cfg, OpKey(f.app), AllOk())
              && FullRunAt(History(stuck, clear, again), i, cfg, AllOk())
  {
    var es := History(stuck, clear, again);
    forall i | 0 <= i < 3
      ensures OrderlyAt(es, i, cfg, OpKey(f.app), AllOk()) && FullRunAt(es, i, cfg, AllOk())
    {
      ShortRunIsOrderly(es, i, cfg, f.app);
      ShortRunIsFull(es, i, cfg);
    }
  }

  lemma ItComesBack(cfg: Config, stuck: Snapshot, clear: Snapshot, again: Snapshot, f: Finding)
    requires Interrupted(cfg, stuck, clear, again, f)
    ensures ComesBack(History(stuck, clear, again), 0, 1, 2, cfg, f.app, f.startedAt)
  {
    assert f in Findings(cfg, stuck) && f in Findings(cfg, again);
    assert IsOp(f, f.app, f.startedAt);
  }

  lemma TerminatedTwice(cfg: Config, stuck: Snapshot, clear: Snapshot, again: Snapshot, f: Finding)
    requires Interrupted(cfg, stuck, clear, again, f)
    ensures var log := After(START, History(stuck, clear, again), cfg, AllOk()).log;
            Count(log, Terminates(f.app, f.startedAt)) >= 2 + Count(log, LostTerminates(f.app, f.startedAt))
  {
    var es := History(stuck, clear, again);
    AllRuns(cfg, stuck, clear, again, f);
    RunsOnlyMark(es, cfg, f.app, f.startedAt, AllOk());
    ItComesBack(cfg, stuck, clear, again, f);
    ComingBackTerminatesTwice(es, 0, 1, 2, cfg, f.app, f.startedAt, AllOk());
  }

  // ---- A concrete one ----

  const APP := App("shop", "Running", "t0", Some(0.0), "")

  function Snap(now: real, apps: seq<App>): Snapshot {
    Snapshot(now, Some(apps), [], [], [], [])
  }

  lemma OneOp(now: real)
    requires now > 45.0
    ensures Findings(CONFIG, Snap(now, [APP])) == [OpFinding("shop", "t0", "")]
    ensures Findings(CONFIG, Snap(now, [])) == []
  {
    assert Front([APP]) == [];
    assert Gather([APP], OpIfStuck(CONFIG, now)) == OpIfStuck(CONFIG, now)(APP);
  }

  lemma ShopIsSafe()
    ensures SafeName("shop")
  {
    assert SafeCore("shop");
  }

  lemma ShopIsInterrupted()
    ensures Interrupted(CONFIG, Snap(60.0, [APP]), Snap(75.0, []), Snap(90.0, [APP]), OpFinding("shop", "t0", ""))
  {
    OneOp(60.0);
    OneOp(75.0);
    OneOp(90.0);
    ShopIsSafe();
  }

  /** The application `shop` is stuck at minute 60, fine at minute 75 and stuck again at minute 90. */
  lemma ShopIsTerminatedTwice()
    ensures var log := After(START, History(Snap(60.0, [APP]), Snap(75.0, []), Snap(90.0, [APP])), CONFIG, AllOk()).log;
            Count(log, Terminates("shop", "t0")) >= 2 + Count(log, LostTerminates("shop", "t0"))
  {
    ShopIsInterrupted();
    TerminatedTwice(CONFIG, Snap(60.0, [APP]), Snap(75.0, []), Snap(90.0, [APP]), OpFinding("shop", "t0", ""));
  }
}
