/**
  When an operation is terminated more than once: exactly when its app is reported clear by a
  run between two runs that report the operation.
 */
module TerminateExact {
  import opened Common
  import opened DarkLadder
  import opened Detection
  import opened Tracker
  import opened Watchdog
  import opened PlanFacts
  import opened RunFacts
  import opened IssueIndex
  import opened FilingCaps
  import opened LadderHistory
  import opened TerminateHistory
  import opened TerminateBalance
  import Sorting

  // ---- Every new operation is filed ----

  lemma {:induction false} FewerNewOps(fs: seq<Finding>, issues: seq<Issue>, listed: seq<nat>)
    ensures |Gather(NewOnes(fs, issues, listed), IfOp)| <= |Gather(fs, IfOp)|
  {
    if fs != [] {
      FewerNewOps(Front(fs), issues, listed);
      GatherConcat(NewOnes(Front(fs), issues, listed), UntrackedIn(issues, listed)(Last(fs)), IfOp);
      GatherOne(Last(fs), IfOp);
    }
  }

  lemma {:induction false} InsertedOps(s: seq<Finding>, x: Finding, le: (Finding, Finding) -> bool)
    ensures |Gather(Sorting.Insert(s, x, le), IfOp)| == |Gather(s, IfOp)| + |IfOp(x)|
  {
    if s == [] {
      GatherOne(x, IfOp);
    } else if le(Last(s), x) {
      Snoc(s, x);
    } else {
      InsertedOps(Front(s), x, le);
      Snoc(Sorting.Insert(Front(s), x, le), Last(s));
    }
  }

  lemma {:induction false} SortedOps(s: seq<Finding>, le: (Finding, Finding) -> bool)
    ensures |Gather(Sorting.Sort(s, le), IfOp)| == |Gather(s, IfOp)|
  {
    if s != [] {
      SortedOps(Front(s), le);
      InsertedOps(Sorting.Sort(Front(s), le), Last(s), le);
    }
  }

  /** The run may file all operations it finds. */
  predicate RoomForOps(cfg: Config, snap: Snapshot) {
    |Gather(Findings(cfg, snap), IfOp)| <= cfg.maxPerRun
  }

  /** Operations go first and are exempt from the ceiling, so each that no issue tracks is filed. */
  lemma NewOpIsFiled(cfg: Config, snap: Snapshot, issues: seq<Issue>, f: Finding)
    requires RoomForOps(cfg, snap) && f in Findings(cfg, snap) && f.OpFinding?
    requires Match(f, issues, StillOpen(cfg, snap, issues)).None?
    ensures f in Filed(cfg, snap, issues)
  {
    var still, ordered := StillOpen(cfg, snap, issues), OrderedNew(cfg, snap, issues);
    var untracked := NewOnes(Findings(cfg, snap), issues, still);
    NewSound(Findings(cfg, snap), issues, still, f);
    OrderedMember(untracked, cfg.priority, f);
    FewerNewOps(Findings(cfg, snap), issues, still);
    SortedOps(untracked, (a, b) => RanksBefore(Order(cfg.priority), a, b));
    FiledSplits(cfg, snap, issues);
    InGathered(ordered, f);
    assert f in Gather(Filed(cfg, snap, issues), IfOp);
    GatherMember(Filed(cfg, snap, issues), IfOp, f);
  }

  lemma InGathered(fs: seq<Finding>, f: Finding)
    requires f in fs && f.OpFinding?
    ensures f in Gather(fs, IfOp)
  {
    var i :| 0 <= i < |fs| && fs[i] == f;
    assert f in IfOp(fs[i]);
    GatherMember(fs, IfOp, f);
  }

  // ---- One run ----

  /** An issue marked by a run that reports the operation: new, or open on its app before the run. */
  predicate MarkedHere(w: World, v: World, n: nat, app: string, s: string) {
    && n in Marked(v.issues, app, s)
    && (n < |w.issues| ==> OpenOn(w.issues[n], OpKey(app)))
  }

  /** A completed run leaves every operation it reports marked on such an issue. */
  lemma ReportMarks(w: World, cfg: Config, snap: Snapshot, app: string, s: string, g: Replies) returns (n: nat)
    requires Completed(w, cfg, snap, g) && cfg.autoTerminate && RoomForOps(cfg, snap) && Reported(cfg, snap, app, s)
    ensures MarkedHere(w, Run(w, cfg, snap, g), n, app, s)
  {
    var f :| f in Findings(cfg, snap) && IsOp(f, app, s);
    var m := Match(f, w.issues, StillOpen(cfg, snap, w.issues));
    if m.Some? {
      n := m.value;
      TrackedOpIsTerminated(w, cfg, snap, f, n, g);
      TrackedIsOpen(cfg, snap, w.issues, f, n);
    } else {
      NewOpIsFiled(cfg, snap, w.issues, f);
      n := FiledIsMarked(w, cfg, snap, f, g);
    }
  }

  lemma FiledIsMarked(w: World, cfg: Config, snap: Snapshot, f: Finding, g: Replies) returns (n: nat)
    requires Completed(w, cfg, snap, g) && f in Filed(cfg, snap, w.issues) && f.OpFinding? && cfg.autoTerminate
    ensures |w.issues| <= n && n in Marked(Run(w, cfg, snap, g).issues, f.app, f.startedAt)
  {
    FiledIsTracked(w, cfg, snap, f, g);
    var v := Run(w, cfg, snap, g);
    n :| |w.issues| <= n < |v.issues| && Covers(v.issues[n], f, cfg);
  }

  lemma {:induction false} MarkerHasKey(body: Text, kind: Kind, subject: string)
    requires KeyMarker(Key(kind, subject)) in body
    ensures FirstKey(body, kind).Some?
  {
    if !(body[0].KeyMarker? && body[0].key.kind == kind) {
      MarkerHasKey(body[1..], kind, subject);
    }
  }

  lemma TidyNamesApp(issue: Issue, app: string)
    requires Tidy(issue) && Tracks(issue, OpKey(app))
    ensures FirstKey(issue.body, StuckArgoOp) == Some(app)
  {
    TidyKey(issue, StuckArgoOp);
    MarkerHasKey(issue.body, StuckArgoOp, app);
  }

  /** An issue that a completed run leaves open on an app it could look up is about an app it reports. */
  lemma OpenIsReported(w: World, cfg: Config, snap: Snapshot, app: string, n: nat, g: Replies)
    requires Completed(w, cfg, snap, g) && ListedInFull(w.issues) && AllTidy(w.issues) && snap.apps.Some?
    requires n < |Run(w, cfg, snap, g).issues| && OpenOn(Run(w, cfg, snap, g).issues[n], OpKey(app))
    ensures AppReported(cfg, snap, app)
  {
    RunKeepsTidy(w, cfg, snap, g);
    TidyNamesApp(Run(w, cfg, snap, g).issues[n], app);
    AllOpenIssuesAreActive(w, cfg, snap, StuckArgoOp, n, g);
    var f :| f in Findings(cfg, snap) && f.DedupKey() == OpKey(app);
    assert f.Kind() == StuckArgoOp && f.Subject() == app;
  }

  /** A completed run that lists the applications and reports none of this name leaves no open issue on it. */
  lemma SweepCloses(w: World, cfg: Config, snap: Snapshot, app: string, g: Replies)
    requires Completed(w, cfg, snap, g) && ListedInFull(w.issues) && AllTidy(w.issues) && !Lasting(cfg, snap, app)
    ensures NoneOpen(Run(w, cfg, snap, g).issues, OpKey(app))
  {
    var v := Run(w, cfg, snap, g);
    forall n: nat | n < |v.issues| && v.issues[n].open ensures !Tracks(v.issues[n], OpKey(app)) {
      if Tracks(v.issues[n], OpKey(app)) {
        OpenIsReported(w, cfg, snap, app, n, g);
      }
    }
  }

  // ---- Histories ----

  function WorldAt(es: seq<Episode>, i: nat, cfg: Config, g: Replies): World
    requires i <= |es|
  {
    After(START, es[..i], cfg, g)
  }

  lemma EvolvesNext(es: seq<Episode>, i: nat, cfg: Config, app: string, g: Replies)
    requires i < |es| && Orderly(es, cfg, app, g)
    ensures Evolves(WorldAt(es, i, cfg, g), WorldAt(es, i + 1, cfg, g))
    ensures AllTidy(WorldAt(es, i, cfg, g).issues) ==> AllTidy(WorldAt(es, i + 1, cfg, g).issues)
  {
    var w := WorldAt(es, i, cfg, g);
    AfterNext(es, i, cfg, g);
    assert OrderlyAt(es, i, cfg, OpKey(app), g);
    if es[i].RunOn? {
      PartsEvolve(w, cfg, es[i].snap, g);
      if AllTidy(w.issues) {
        RunKeepsTidy(w, cfg, es[i].snap, g);
      }
    } else if AllTidy(w.issues) {
      HandsOffTidy(w.issues, es[i].issues, OpKey(app));
    }
  }

  lemma {:induction false} EvolvesFrom(es: seq<Episode>, i: nat, j: nat, cfg: Config, app: string, g: Replies)
    requires i <= j <= |es| && Orderly(es, cfg, app, g)
    ensures Evolves(WorldAt(es, i, cfg, g), WorldAt(es, j, cfg, g))
    decreases j
  {
    if i < j {
      EvolvesFrom(es, i, j - 1, cfg, app, g);
      EvolvesNext(es, j - 1, cfg, app, g);
      EvolvesTransitive(WorldAt(es, i, cfg, g), WorldAt(es, j - 1, cfg, g), WorldAt(es, j, cfg, g));
    }
  }

  lemma {:induction false} TidyAt(es: seq<Episode>, i: nat, cfg: Config, app: string, g: Replies)
    requires i <= |es| && Orderly(es, cfg, app, g)
    ensures AllTidy(WorldAt(es, i, cfg, g).issues)
    decreases i
  {
    if i == 0 {
      assert es[..0] == [];
    } else {
      TidyAt(es, i - 1, cfg, app, g);
      EvolvesNext(es, i - 1, cfg, app, g);
    }
  }

  /** A run that completes and has room for the operations it finds. */
  predicate FullRunAt(es: seq<Episode>, i: nat, cfg: Config, g: Replies) {
    i < |es| && (es[i].RunOn? ==> CompletesAt(es, i, cfg, g) && RoomForOps(cfg, es[i].snap))
  }

  lemma MarkedAt(es: seq<Episode>, i: nat, cfg: Config, app: string, s: string, g: Replies) returns (n: nat)
    requires FullRunAt(es, i, cfg, g) && ReportedAt(es, i, cfg, app, s) && cfg.autoTerminate
    ensures MarkedHere(WorldAt(es, i, cfg, g), WorldAt(es, i + 1, cfg, g), n, app, s)
  {
    AfterNext(es, i, cfg, g);
    n := ReportMarks(WorldAt(es, i, cfg, g), cfg, es[i].snap, app, s, g);
  }

  lemma ClearedAt(es: seq<Episode>, j: nat, cfg: Config, app: string, g: Replies)
    requires FullRunAt(es, j, cfg, g) && SweptAt(es, j, cfg, app) && Orderly(es, cfg, app, g)
    ensures NoneOpen(WorldAt(es, j + 1, cfg, g).issues, OpKey(app))
  {
    AfterNext(es, j, cfg, g);
    TidyAt(es, j, cfg, app, g);
    assert OrderlyAt(es, j, cfg, OpKey(app), g);
    SweepCloses(WorldAt(es, j, cfg, g), cfg, es[j].snap, app, g);
  }

  /** An issue open on the app after the sweep was filed after it. */
  lemma OpenIsLater(swept: World, w: World, n: nat, app: string)
    requires Evolves(swept, w) && NoneOpen(swept.issues, OpKey(app))
    requires n < |w.issues| ==> OpenOn(w.issues[n], OpKey(app))
    ensures |swept.issues| <= n
  {
    var key := OpKey(app);
    assert forall m :: 0 <= m < |swept.issues| && OpenOn(w.issues[m], key) ==> OpenOn(swept.issues[m], key) by {
      forall m | 0 <= m < |swept.issues| ensures IssueEvolves(swept.issues[m], w.issues[m]) {
      }
    }
  }

  lemma StaysMarked(w: World, v: World, n: nat, app: string, s: string)
    requires Evolves(w, v) && n in Marked(w.issues, app, s)
    ensures n in Marked(v.issues, app, s)
  {
    assert IssueEvolves(w.issues[n], v.issues[n]);
    MarkPersists(w.issues[n], v.issues[n], TerminatedMarker(app, s));
  }

  lemma MarkedLater(es: seq<Episode>, i: nat, n: nat, cfg: Config, app: string, s: string, g: Replies)
    requires i < |es| && Orderly(es, cfg, app, g) && n in Marked(WorldAt(es, i + 1, cfg, g).issues, app, s)
    ensures n in Marked(After(START, es, cfg, g).issues, app, s)
  {
    assert es[..|es|] == es;
    EvolvesFrom(es, i + 1, |es|, cfg, app, g);
    StaysMarked(WorldAt(es, i + 1, cfg, g), WorldAt(es, |es|, cfg, g), n, app, s);
  }

  /** Marked before a sweep and marked after it are different issues. */
  lemma MarkedApart(first: World, marked: World, swept: World, later: World, again: World, a: nat, b: nat,
                    app: string, s: string)
    requires MarkedHere(first, marked, a, app, s) && Evolves(marked, swept)
    requires NoneOpen(swept.issues, OpKey(app)) && Evolves(swept, later) && MarkedHere(later, again, b, app, s)
    ensures a < b
  {
    OpenIsLater(swept, later, b, app);
  }

  lemma EvolvesBetween(es: seq<Episode>, i: nat, j: nat, k: nat, cfg: Config, app: string, g: Replies)
    requires i < j < k < |es| && Orderly(es, cfg, app, g)
    ensures Evolves(WorldAt(es, i + 1, cfg, g), WorldAt(es, j + 1, cfg, g))
    ensures Evolves(WorldAt(es, j + 1, cfg, g), WorldAt(es, k, cfg, g))
  {
    EvolvesFrom(es, i + 1, j + 1, cfg, app, g);
    EvolvesFrom(es, j + 1, k, cfg, app, g);
  }

  predicate FullRunsAt(es: seq<Episode>, i: nat, j: nat, k: nat, cfg: Config, g: Replies) {
    FullRunAt(es, i, cfg, g) && FullRunAt(es, j, cfg, g) && FullRunAt(es, k, cfg, g)
  }

  /** Two different issues come to carry the marker of an operation that comes back. */
  lemma TwoGetMarked(es: seq<Episode>, i: nat, j: nat, k: nat, cfg: Config, app: string, s: string, g: Replies)
    returns (a: nat, b: nat)
    requires Orderly(es, cfg, app, g) && cfg.autoTerminate && ComesBack(es, i, j, k, cfg, app, s)
    requires FullRunsAt(es, i, j, k, cfg, g)
    ensures a < b && a in Marked(WorldAt(es, i + 1, cfg, g).issues, app, s)
    ensures b in Marked(WorldAt(es, k + 1, cfg, g).issues, app, s)
  {
    a := MarkedAt(es, i, cfg, app, s, g);
    b := MarkedAt(es, k, cfg, app, s, g);
    ClearedAt(es, j, cfg, app, g);
    EvolvesBetween(es, i, j, k, cfg, app, g);
    MarkedApart(WorldAt(es, i, cfg, g), WorldAt(es, i + 1, cfg, g), WorldAt(es, j + 1, cfg, g),
                WorldAt(es, k, cfg, g), WorldAt(es, k + 1, cfg, g), a, b, app, s);
  }

  lemma TwoAreMarked(es: seq<Episode>, i: nat, j: nat, k: nat, cfg: Config, app: string, s: string, g: Replies)
    requires Orderly(es, cfg, app, g) && cfg.autoTerminate && ComesBack(es, i, j, k, cfg, app, s)
    requires FullRunsAt(es, i, j, k, cfg, g)
    ensures |Marked(After(START, es, cfg, g).issues, app, s)| >= 2
  {
    var a, b := TwoGetMarked(es, i, j, k, cfg, app, s, g);
    MarkedLater(es, i, a, cfg, app, s, g);
    MarkedLater(es, k, b, cfg, app, s, g);
    PairInSet(Marked(After(START, es, cfg, g).issues, app, s), a, b);
  }

  /**
    An operation that comes back after its app was reported clear is terminated a second time,
    with no lost record to explain it, if the three runs complete and have room to file.
   */
  lemma ComingBackTerminatesTwice(es: seq<Episode>, i: nat, j: nat, k: nat, cfg: Config, app: string, s: string,
                                  g: Replies)
    requires Orderly(es, cfg, app, g) && OnlyWatchdogMarks(START, es, cfg, app, s, g) && cfg.autoTerminate
    requires ComesBack(es, i, j, k, cfg, app, s)
    requires FullRunsAt(es, i, j, k, cfg, g)
    ensures var log := After(START, es, cfg, g).log;
            Count(log, Terminates(app, s)) >= 2 + Count(log, LostTerminates(app, s))
  {
    TwoAreMarked(es, i, j, k, cfg, app, s, g);
    TerminatesAreMarked(es, cfg, app, s, g);
  }

  /**
    Over histories of completed runs an operation is terminated at most once, up to lost records,
    exactly when its app is never reported clear between two reports of the operation.
   */
  lemma TerminatedOnceExactly(es: seq<Episode>, cfg: Config, app: string, s: string, g: Replies)
    requires Orderly(es, cfg, app, g) && OnlyWatchdogMarks(START, es, cfg, app, s, g) && cfg.autoTerminate
    requires forall i :: 0 <= i < |es| ==> FullRunAt(es, i, cfg, g)
    ensures var log := After(START, es, cfg, g).log;
            Count(log, Terminates(app, s)) <= 1 + Count(log, LostTerminates(app, s))
            <==> EndsForGood(es, cfg, app, s)
  {
    if EndsForGood(es, cfg, app, s) {
      TerminatedOncePerOperation(es, cfg, app, s, g);
    } else {
      var i, j, k :| 0 <= i < j < k < |es| && ComesBack(es, i, j, k, cfg, app, s);
      ComingBackTerminatesTwice(es, i, j, k, cfg, app, s, g);
    }
  }
}
