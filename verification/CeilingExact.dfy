/**
  Exactly when a run keeps the ceiling on open issues, from the issue table and the findings
  alone, for one run and over whole histories.
 */
module CeilingExact {
  import opened Common
  import opened DarkLadder
  import opened Detection
  import opened Tracker
  import opened Watchdog
  import opened PlanFacts
  import opened RunFacts
  import opened IssueIndex
  import opened LadderHistory
  import opened FilingCaps

  // ---- Exactly what filing adds ----

  lemma AddsToRest(u: World, v: World, f: Finding, cfg: Config)
    requires AddsOnly(u, v, f, cfg) && v.alive
    ensures OpenRest(v.issues) == OpenRest(u.issues) + if f.OpFinding? then {} else {|u.issues|}
  {
    FirstKeyOfBody(f, f.OpFinding? && cfg.autoTerminate, StuckArgoOp);
    forall n | 0 <= n < |u.issues| ensures n in OpenRest(v.issues) <==> n in OpenRest(u.issues) {
      assert IssueEvolves(u.issues[n], v.issues[n]);
    }
  }

  lemma {:induction false} FilingAdds(w: World, fs: seq<Finding>, cfg: Config, now: real, g: Replies)
    requires FileLoop(w, fs, cfg, now, g).alive
    ensures |OpenRest(FileLoop(w, fs, cfg, now, g).issues)| == |OpenRest(w.issues)| + |Gather(fs, IfNotOp)|
  {
    if fs != [] {
      LastFiling(w, fs, cfg, now, g);
      FilingAdds(w, Front(fs), cfg, now, g);
      AddsToRest(FileLoop(w, Front(fs), cfg, now, g), FileLoop(w, fs, cfg, now, g), Last(fs), cfg);
    }
  }

  lemma PhaseAdds(u: World, filed: seq<Finding>, cfg: Config, now: real, g: Replies)
    requires ExecAll(u, (if filed == [] then [] else [EnsureLabel]) + Gather(filed, FileStep), cfg, now, g).alive
    ensures |OpenRest(ExecAll(u, (if filed == [] then [] else [EnsureLabel]) + Gather(filed, FileStep),
                              cfg, now, g).issues)|
            == |OpenRest(u.issues)| + |Gather(filed, IfNotOp)|
  {
    LabelThenFile(u, filed, cfg, now, g);
    if filed != [] {
      FilingAdds(Tolerated(u, g), filed, cfg, now, g);
    }
  }

  /** A completed run with findings adds one open issue for each other finding it files. */
  lemma RestGrowsExactly(w: World, cfg: Config, snap: Snapshot, g: Replies)
    requires Completed(w, cfg, snap, g) && Findings(cfg, snap) != []
    ensures |OpenRest(Run(w, cfg, snap, g).issues)|
            == |OpenRest(AfterActing(w, cfg, snap, g).issues)| + |Gather(Filed(cfg, snap, w.issues), IfNotOp)|
  {
    RunInParts(w, cfg, snap, g);
    PhaseAdds(AfterActing(w, cfg, snap, g), Filed(cfg, snap, w.issues), cfg, snap.now, g);
  }

  // ---- Exactly what is closed before ----

  /** No reply is the refusal of a comment at the cap, on which a run closes and replaces the issue. */
  ghost predicate NoCapRefusals(g: Replies) {
    forall i: nat :: !g(i).CapRefused?
  }

  lemma InstanceKeepsOpen(w: World, k: nat, pod: string, n: nat, g: Replies)
    requires NoCapRefusals(g) && n < |w.issues|
    ensures n < |RunInstance(w, k, pod, g).issues| && RunInstance(w, k, pod, g).issues[n].open == w.issues[n].open
  {
    InstanceEvolves(w, k, pod, g);
  }

  lemma StepKeepsOpen(w: World, step: Step, n: nat, cfg: Config, now: real, g: Replies)
    requires NoCapRefusals(g) && n < |w.issues| && step != CloseResolved(n)
    ensures n < |Exec(w, step, cfg, now, g).issues| && Exec(w, step, cfg, now, g).issues[n].open == w.issues[n].open
  {
    ExecEvolves(w, step, cfg, now, g);
    if step.UpdateInstance? {
      InstanceKeepsOpen(w, step.issue, step.pod, n, g);
    }
  }

  lemma {:induction false} StepsKeepOpen(w: World, steps: seq<Step>, n: nat, cfg: Config, now: real, g: Replies)
    requires NoCapRefusals(g) && n < |w.issues| && CloseResolved(n) !in steps
    ensures n < |ExecAll(w, steps, cfg, now, g).issues|
    ensures ExecAll(w, steps, cfg, now, g).issues[n].open == w.issues[n].open
  {
    if steps != [] {
      StepsKeepOpen(w, Front(steps), n, cfg, now, g);
      assert Last(steps) in steps;
      StepKeepsOpen(ExecAll(w, Front(steps), cfg, now, g), Last(steps), n, cfg, now, g);
    }
  }

  lemma UnplannedStaysOpen(w: World, cfg: Config, snap: Snapshot, n: nat, g: Replies)
    requires NoCapRefusals(g) && n < |w.issues| && !PlannedClose(n, cfg, snap, w.issues)
    ensures n < |AfterActing(w, cfg, snap, g).issues|
    ensures AfterActing(w, cfg, snap, g).issues[n].open == w.issues[n].open
  {
    var closing, acting := ClosingSteps(cfg, snap, w.issues), ActingSteps(cfg, snap, w.issues);
    if CloseResolved(n) in closing || (Findings(cfg, snap) != [] && CloseResolved(n) in acting) {
      StepPlanned(CloseResolved(n), cfg, snap, w.issues);
    }
    StepsKeepOpen(Read(w.(alive := true), g), closing, n, cfg, snap.now, g);
    if Findings(cfg, snap) != [] {
      StepsKeepOpen(AfterClosing(w, cfg, snap, g), acting, n, cfg, snap.now, g);
    }
  }

  /** The resolved issue has its closing step in one of the two phases. */
  lemma PlannedHasStep(cfg: Config, snap: Snapshot, issues: seq<Issue>, n: nat)
    requires PlannedClose(n, cfg, snap, issues)
    ensures CloseResolved(n) in ClosingSteps(cfg, snap, issues)
            || (Findings(cfg, snap) != [] && CloseResolved(n) in ActingSteps(cfg, snap, issues))
  {
    var fs, still := Findings(cfg, snap), StillOpen(cfg, snap, issues);
    if n in still {
      KeptIsActive(cfg, snap, issues, n, StuckContainerCreating);
      KeptIsActive(cfg, snap, issues, n, ChronicCrashloop);
      if snap.apps.Some? {
        KeptIsActive(cfg, snap, issues, n, StuckArgoOp);
      }
      CloserMember(issues, still, DarkNode, UnknownNames(snap.nodes), CloseResolved(n));
    } else {
      NotKeptIsClosed(cfg, snap, issues, n);
    }
  }

  lemma PlannedIsClosed(w: World, cfg: Config, snap: Snapshot, n: nat, g: Replies)
    requires AfterActing(w, cfg, snap, g).alive && n < |w.issues| && PlannedClose(n, cfg, snap, w.issues)
    ensures n < |AfterActing(w, cfg, snap, g).issues| && !AfterActing(w, cfg, snap, g).issues[n].open
  {
    var c, closing, acting := AfterClosing(w, cfg, snap, g), ClosingSteps(cfg, snap, w.issues),
                              ActingSteps(cfg, snap, w.issues);
    PlannedHasStep(cfg, snap, w.issues, n);
    PartsEvolve(w, cfg, snap, g);
    if Findings(cfg, snap) != [] {
      if !c.alive {
        DeadStays(c, acting, cfg, snap.now, g);
      }
      ExecAllEvolves(c, acting, cfg, snap.now, g);
    }
    if CloseResolved(n) in closing {
      CloseHappens(Read(w.(alive := true), g), closing, n, cfg, snap.now, g);
      assert Findings(cfg, snap) != [] ==> IssueEvolves(c.issues[n], AfterActing(w, cfg, snap, g).issues[n]);
    } else {
      CloseHappens(c, acting, n, cfg, snap.now, g);
    }
  }

  /** The open non-Argo issues that the run finds resolved in its list. */
  function ClosedRest(cfg: Config, snap: Snapshot, issues: seq<Issue>): set<nat> {
    set n | n in OpenRest(issues) && PlannedClose(n, cfg, snap, issues)
  }

  lemma LeftOpen(w: World, cfg: Config, snap: Snapshot, n: nat, g: Replies)
    requires AfterActing(w, cfg, snap, g).alive && n in OpenRest(AfterActing(w, cfg, snap, g).issues)
    ensures n in OpenRest(w.issues) && n !in ClosedRest(cfg, snap, w.issues)
  {
    PartsEvolve(w, cfg, snap, g);
    assert IssueEvolves(w.issues[n], AfterActing(w, cfg, snap, g).issues[n]);
    if PlannedClose(n, cfg, snap, w.issues) {
      PlannedIsClosed(w, cfg, snap, n, g);
    }
  }

  lemma StillThere(w: World, cfg: Config, snap: Snapshot, n: nat, g: Replies)
    requires NoCapRefusals(g) && n in OpenRest(w.issues) && n !in ClosedRest(cfg, snap, w.issues)
    ensures n in OpenRest(AfterActing(w, cfg, snap, g).issues)
  {
    PartsEvolve(w, cfg, snap, g);
    assert IssueEvolves(w.issues[n], AfterActing(w, cfg, snap, g).issues[n]);
    UnplannedStaysOpen(w, cfg, snap, n, g);
  }

  lemma RestAfterActing(w: World, cfg: Config, snap: Snapshot, g: Replies)
    requires AfterActing(w, cfg, snap, g).alive
    ensures OpenRest(AfterActing(w, cfg, snap, g).issues)
            <= OpenRest(w.issues) - ClosedRest(cfg, snap, w.issues)
    ensures NoCapRefusals(g) ==>
              OpenRest(AfterActing(w, cfg, snap, g).issues) == OpenRest(w.issues) - ClosedRest(cfg, snap, w.issues)
  {
    var left := OpenRest(AfterActing(w, cfg, snap, g).issues);
    forall n | n in left ensures n in OpenRest(w.issues) - ClosedRest(cfg, snap, w.issues) {
      LeftOpen(w, cfg, snap, n, g);
    }
    if NoCapRefusals(g) {
      forall n | n in OpenRest(w.issues) - ClosedRest(cfg, snap, w.issues) ensures n in left {
        StillThere(w, cfg, snap, n, g);
      }
    }
  }

  // ---- Exactly when the ceiling holds ----

  function FiledRest(cfg: Config, snap: Snapshot, issues: seq<Issue>): nat {
    |Gather(Filed(cfg, snap, issues), IfNotOp)|
  }

  lemma ClosedAmongOpen(cfg: Config, snap: Snapshot, issues: seq<Issue>)
    ensures |OpenRest(issues) - ClosedRest(cfg, snap, issues)| == |OpenRest(issues)| - |ClosedRest(cfg, snap, issues)|
  {
    var open, closed := OpenRest(issues), ClosedRest(cfg, snap, issues);
    assert open == (open - closed) + closed;
  }

  lemma CleanRunFilesNone(cfg: Config, snap: Snapshot, issues: seq<Issue>)
    requires Findings(cfg, snap) == []
    ensures FiledRest(cfg, snap, issues) == 0
  {
    var filed := Filed(cfg, snap, issues);
    if f :| f in filed {
      FiledIsNew(cfg, snap, issues, f);
    }
    assert filed == [];
  }

  /** A completed run leaves open what was open, without what it found resolved, and what it filed. */
  lemma RestBalances(w: World, cfg: Config, snap: Snapshot, g: Replies)
    requires Completed(w, cfg, snap, g) && NoCapRefusals(g)
    ensures |OpenRest(Run(w, cfg, snap, g).issues)|
            == |OpenRest(w.issues)| - |ClosedRest(cfg, snap, w.issues)| + FiledRest(cfg, snap, w.issues)
  {
    CompletedParts(w, cfg, snap, g);
    RestAfterActing(w, cfg, snap, g);
    ClosedAmongOpen(cfg, snap, w.issues);
    if Findings(cfg, snap) == [] {
      CleanRunFilesNone(cfg, snap, w.issues);
      NoFilingNoChange(w, cfg, snap, g);
    } else {
      RestGrowsExactly(w, cfg, snap, g);
    }
  }

  /** Known before the run: it closes as many as it files, or what it leaves open fits under the ceiling. */
  predicate FitsCeiling(cfg: Config, snap: Snapshot, issues: seq<Issue>) {
    var closed, filed := |ClosedRest(cfg, snap, issues)|, FiledRest(cfg, snap, issues);
    filed <= closed || |OpenRest(issues)| - closed + filed <= cfg.maxOpen
  }

  lemma ActingLeaves(w: World, cfg: Config, snap: Snapshot, g: Replies)
    requires AfterActing(w, cfg, snap, g).alive
    ensures |OpenRest(AfterActing(w, cfg, snap, g).issues)|
            <= |OpenRest(w.issues)| - |ClosedRest(cfg, snap, w.issues)|
  {
    RestAfterActing(w, cfg, snap, g);
    ClosedAmongOpen(cfg, snap, w.issues);
    SubsetCard(OpenRest(AfterActing(w, cfg, snap, g).issues), OpenRest(w.issues) - ClosedRest(cfg, snap, w.issues));
  }

  lemma FilingLeaves(w: World, cfg: Config, snap: Snapshot, g: Replies)
    requires Findings(cfg, snap) != [] && AfterActing(w, cfg, snap, g).alive
    ensures |OpenRest(Run(w, cfg, snap, g).issues)|
            <= |OpenRest(w.issues)| - |ClosedRest(cfg, snap, w.issues)| + FiledRest(cfg, snap, w.issues)
  {
    FilingFromHere(w, cfg, snap, g);
    ActingLeaves(w, cfg, snap, g);
  }

  lemma NoFilingLeaves(w: World, cfg: Config, snap: Snapshot, g: Replies)
    requires Findings(cfg, snap) == [] || !AfterActing(w, cfg, snap, g).alive
    ensures |OpenRest(Run(w, cfg, snap, g).issues)| <= |OpenRest(w.issues)|
  {
    ActingShrinksRest(w, cfg, snap, g);
    NoFilingNoChange(w, cfg, snap, g);
  }

  /** No run that fits raises the number of open non-Argo issues above the ceiling, wherever it dies. */
  lemma FittingRunHolds(w: World, cfg: Config, snap: Snapshot, g: Replies)
    requires FitsCeiling(cfg, snap, w.issues)
    ensures |OpenRest(Run(w, cfg, snap, g).issues)| <= Max(|OpenRest(w.issues)|, cfg.maxOpen)
  {
    if Findings(cfg, snap) == [] || !AfterActing(w, cfg, snap, g).alive {
      NoFilingLeaves(w, cfg, snap, g);
    } else {
      FilingLeaves(w, cfg, snap, g);
    }
  }

  /** A completed run keeps the ceiling exactly when it fits, as the issue table and the findings tell. */
  lemma CeilingExactly(w: World, cfg: Config, snap: Snapshot, g: Replies)
    requires Completed(w, cfg, snap, g) && NoCapRefusals(g)
    ensures |OpenRest(Run(w, cfg, snap, g).issues)| <= Max(|OpenRest(w.issues)|, cfg.maxOpen)
            <==> FitsCeiling(cfg, snap, w.issues)
  {
    RestBalances(w, cfg, snap, g);
  }

  // ---- Histories ----

  /** People add no open non-Argo issue, and runs complete. */
  predicate QuietAt(es: seq<Episode>, i: nat, cfg: Config, g: Replies)
    requires i < |es|
  {
    var before := After(START, es[..i], cfg, g);
    if es[i].RunOn? then Completed(before, cfg, es[i].snap, g)
    else |OpenRest(es[i].issues)| <= |OpenRest(before.issues)|
  }

  predicate FitsAt(es: seq<Episode>, i: nat, cfg: Config, g: Replies)
    requires i < |es|
  {
    es[i].RunOn? ==> FitsCeiling(cfg, es[i].snap, After(START, es[..i], cfg, g).issues)
  }

  predicate WithinAt(es: seq<Episode>, i: nat, cfg: Config, g: Replies)
    requires i <= |es|
  {
    |OpenRest(After(START, es[..i], cfg, g).issues)| <= Max(0, cfg.maxOpen)
  }

  lemma WithinNext(es: seq<Episode>, i: nat, cfg: Config, g: Replies)
    requires i < |es| && QuietAt(es, i, cfg, g) && WithinAt(es, i, cfg, g) && NoCapRefusals(g)
    ensures WithinAt(es, i + 1, cfg, g) <==> FitsAt(es, i, cfg, g)
  {
    var w := After(START, es[..i], cfg, g);
    assert Front(es[..i + 1]) == es[..i];
    if es[i].RunOn? {
      RestBalances(w, cfg, es[i].snap, g);
      RestFiledFits(cfg, es[i].snap, w.issues);
    }
  }

  lemma NothingYet(es: seq<Episode>, cfg: Config, g: Replies)
    ensures WithinAt(es, 0, cfg, g)
  {
    assert es[..0] == [];
    assert OpenRest([]) == {};
  }

  lemma {:induction false} WithinThroughout(es: seq<Episode>, i: nat, cfg: Config, g: Replies)
    requires i <= |es| && NoCapRefusals(g)
    requires forall j :: 0 <= j < i ==> QuietAt(es, j, cfg, g) && FitsAt(es, j, cfg, g)
    ensures WithinAt(es, i, cfg, g)
    decreases i
  {
    if i == 0 {
      NothingYet(es, cfg, g);
    } else {
      WithinThroughout(es, i - 1, cfg, g);
      assert QuietAt(es, i - 1, cfg, g) && FitsAt(es, i - 1, cfg, g);
      WithinNext(es, i - 1, cfg, g);
    }
  }

  /**
    Over histories of completed runs the number of open non-Argo issues never exceeds the
    ceiling exactly when every run fits under it.
   */
  lemma CeilingThroughoutExactly(es: seq<Episode>, cfg: Config, g: Replies)
    requires NoCapRefusals(g) && forall i :: 0 <= i < |es| ==> QuietAt(es, i, cfg, g)
    ensures (forall i :: 0 <= i <= |es| ==> WithinAt(es, i, cfg, g))
            <==> (forall i :: 0 <= i < |es| ==> FitsAt(es, i, cfg, g))
  {
    if forall i :: 0 <= i < |es| ==> FitsAt(es, i, cfg, g) {
      forall i | 0 <= i <= |es| ensures WithinAt(es, i, cfg, g) {
        WithinThroughout(es, i, cfg, g);
      }
    }
    if forall i :: 0 <= i <= |es| ==> WithinAt(es, i, cfg, g) {
      forall i | 0 <= i < |es| ensures FitsAt(es, i, cfg, g) {
        assert QuietAt(es, i, cfg, g) && WithinAt(es, i, cfg, g) && WithinAt(es, i + 1, cfg, g);
        WithinNext(es, i, cfg, g);
      }
    }
  }
}
