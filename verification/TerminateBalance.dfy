/**
  Argo terminates balanced against their markers: over every history the dispatches of an
  operation are its marked issues plus its lost records.
 */
module TerminateBalance {
  import opened Common
  import opened DarkLadder
  import opened Detection
  import opened Tracker
  import opened Watchdog
  import opened RunFacts
  import opened LadderHistory
  import opened TerminateHistory

  /** The issues that carry the operation's marker, in the body or in the thread. */
  function Marked(issues: seq<Issue>, app: string, s: string): set<nat> {
    set n: nat | n < |issues| && HasMark(issues[n], TerminatedMarker(app, s))
  }

  /** Dispatches that were not lost are the marked issues. */
  predicate BalancedOp(w: World, app: string, s: string) {
    Outstanding(w.log, app, s) == |Marked(w.issues, app, s)|
  }

  /** The marks of the old issues are as they were. */
  predicate SameMarks(a: seq<Issue>, b: seq<Issue>, app: string, s: string) {
    && |a| <= |b|
    && forall n :: 0 <= n < |a| ==>
         HasMark(b[n], TerminatedMarker(app, s)) == HasMark(a[n], TerminatedMarker(app, s))
  }

  /** Where nothing is appended, and nothing marked differently, the marked issues are the same. */
  lemma SameMarked(a: seq<Issue>, b: seq<Issue>, app: string, s: string)
    requires SameMarks(a, b, app, s) && |a| == |b|
    ensures Marked(b, app, s) == Marked(a, app, s)
  {
  }

  lemma AppendedMarked(a: seq<Issue>, b: seq<Issue>, app: string, s: string)
    requires SameMarks(a, b, app, s) && |b| == |a| + 1
    ensures |Marked(b, app, s)|
            == |Marked(a, app, s)| + if HasMark(b[|a|], TerminatedMarker(app, s)) then 1 else 0
  {
    var here := if HasMark(b[|a|], TerminatedMarker(app, s)) then {|a|} else {};
    assert Marked(b, app, s) == Marked(a, app, s) + here;
  }

  // ---- Terminating a tracked operation ----

  lemma CommentIsOneMore(issues: seq<Issue>, n: nat, app: string, s: string)
    requires n < |issues| && !HasMark(issues[n], TerminatedMarker(app, s))
    ensures |Marked(WithComment(issues, n, TerminateText(app, s)), app, s)| == |Marked(issues, app, s)| + 1
  {
    CommentMarks(issues, n, app, s);
    assert Marked(WithComment(issues, n, TerminateText(app, s)), app, s) == Marked(issues, app, s) + {n};
  }

  lemma TerminateBalances(w: World, n: nat, app: string, s: string, g: Replies)
    requires BalancedOp(w, app, s)
    ensures BalancedOp(RunTerminate(w, n, app, s, g), app, s)
  {
    if n < |w.issues| {
      var v := RunTerminate(w, n, app, s, g);
      TerminateOutcome(w, n, app, s, g);
      LogPair(w.log, app, s);
      if v.issues != w.issues {
        CommentIsOneMore(w.issues, n, app, s);
      }
    }
  }

  // ---- Filing an operation ----

  lemma FileOpBalances(w: World, f: Finding, cfg: Config, now: real, app: string, s: string, g: Replies)
    requires BalancedOp(w, app, s) && IsOp(f, app, s)
    ensures BalancedOp(RunFile(w, f, cfg, now, g), app, s)
  {
    var v := RunFile(w, f, cfg, now, g);
    FileOutcome(w, f, cfg, now, app, s, g);
    LogPair(w.log, app, s);
    if |v.issues| > |w.issues| {
      assert w.log + [] == w.log;
      assert forall n :: 0 <= n < |w.issues| ==> v.issues[n] == v.issues[..|w.issues|][n];
      AppendedMarked(w.issues, v.issues, app, s);
    }
  }

  // ---- Every other step ----

  /** An issue made for another finding gets no mark of the operation while it is filed. */
  lemma FileOtherMarks(w: World, f: Finding, cfg: Config, now: real, app: string, s: string, g: Replies)
    requires !IsOp(f, app, s)
    ensures var v := RunFile(w, f, cfg, now, g);
            && SameMarks(w.issues, v.issues, app, s) && |v.issues| <= |w.issues| + 1
            && (|v.issues| > |w.issues| ==> !HasMark(v.issues[|w.issues|], TerminatedMarker(app, s)))
  {
    var terminate := f.OpFinding? && cfg.autoTerminate;
    MadeMark(f, terminate, app, s);
    if w.alive && f.NodeFinding? {
      var made := Create(w, IssueFor(f, false), g);
      if made.alive {
        ActOutcome(made, |w.issues|, f.facts, DEFAULT_STATE, cfg.ladder, now, g);
        var state := Decide(f.facts, DEFAULT_STATE, cfg.ladder, now).state;
        OtherCommentMarks(made.issues, |w.issues|, [StateMarker(Render(state))], |w.issues|, TerminatedMarker(app, s));
      }
    }
  }

  lemma OtherStepSize(w: World, step: Step, cfg: Config, now: real, app: string, s: string, g: Replies)
    requires !Touches(step, app, s)
    ensures |Marked(Exec(w, step, cfg, now, g).issues, app, s)| == |Marked(w.issues, app, s)|
  {
    var v := Exec(w, step, cfg, now, g);
    if step.File? {
      FileOtherMarks(w, step.finding, cfg, now, app, s, g);
      if |v.issues| == |w.issues| {
        SameMarked(w.issues, v.issues, app, s);
      } else {
        AppendedMarked(w.issues, v.issues, app, s);
      }
    } else {
      ExecEvolves(w, step, cfg, now, g);
      forall n | 0 <= n < |w.issues|
        ensures HasMark(v.issues[n], TerminatedMarker(app, s)) == HasMark(w.issues[n], TerminatedMarker(app, s))
      {
        OtherStepMarks(w, step, cfg, now, n, app, s, g);
      }
      SameMarked(w.issues, v.issues, app, s);
    }
  }

  lemma StepBalances(w: World, step: Step, cfg: Config, now: real, app: string, s: string, g: Replies)
    requires BalancedOp(w, app, s)
    ensures BalancedOp(Exec(w, step, cfg, now, g), app, s)
  {
    if !Touches(step, app, s) {
      OtherStepQuietOp(w, step, cfg, now, app, s, g);
      QuietOpCounts(w.log, Exec(w, step, cfg, now, g).log, app, s);
      OtherStepSize(w, step, cfg, now, app, s, g);
    } else if step.File? {
      FileOpBalances(w, step.finding, cfg, now, app, s, g);
    } else {
      TerminateBalances(w, step.issue, app, s, g);
    }
  }

  /** At every point of every run, wherever it dies, the balance holds. */
  lemma {:induction false} RunBalances(w: World, steps: seq<Step>, cfg: Config, now: real, app: string, s: string,
                                       g: Replies)
    requires BalancedOp(w, app, s)
    ensures BalancedOp(ExecAll(w, steps, cfg, now, g), app, s)
  {
    if steps != [] {
      RunBalances(w, Front(steps), cfg, now, app, s, g);
      StepBalances(ExecAll(w, Front(steps), cfg, now, g), Last(steps), cfg, now, app, s, g);
    }
  }

  // ---- Histories ----

  /** People may do anything but add or remove the operation's marker. */
  predicate OnlyWatchdogMarks(w: World, es: seq<Episode>, cfg: Config, app: string, s: string, g: Replies) {
    es == []
    || (&& OnlyWatchdogMarks(w, Front(es), cfg, app, s, g)
        && (Last(es).People? ==>
              Marked(Last(es).issues, app, s) == Marked(After(w, Front(es), cfg, g).issues, app, s)))
  }

  lemma {:induction false} BalanceThroughout(es: seq<Episode>, cfg: Config, app: string, s: string, g: Replies)
    requires OnlyWatchdogMarks(START, es, cfg, app, s, g)
    ensures BalancedOp(After(START, es, cfg, g), app, s)
  {
    if es == [] {
      assert Marked([], app, s) == {};
    } else {
      BalanceThroughout(Front(es), cfg, app, s, g);
      var v := After(START, Front(es), cfg, g);
      if Last(es).RunOn? {
        var snap := Last(es).snap;
        RunBalances(Read(v.(alive := true), g), Plan(cfg, snap, v.issues), cfg, snap.now, app, s, g);
      }
    }
  }

  /**
    Over every history in which only the watchdog writes the operation's marker, its dispatches
    are the issues that carry the marker plus the lost records.
   */
  lemma TerminatesAreMarked(es: seq<Episode>, cfg: Config, app: string, s: string, g: Replies)
    requires OnlyWatchdogMarks(START, es, cfg, app, s, g)
    ensures var w := After(START, es, cfg, g);
            Count(w.log, Terminates(app, s)) == |Marked(w.issues, app, s)| + Count(w.log, LostTerminates(app, s))
  {
    BalanceThroughout(es, cfg, app, s, g);
  }
}
