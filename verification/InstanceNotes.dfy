/**
  The notes about changed pods: an issue whose latest note names the pod gets no other, and one
  whose latest note names another pod, or that has none, gets exactly one.
 */
module InstanceNotes {
  import opened Common
  import opened DarkLadder
  import opened Detection
  import opened Tracker
  import opened Watchdog
  import opened PlanFacts
  import opened RunFacts
  import opened IssueIndex
  import opened RunExact

  // ---- The latest note ----

  /** Some marker of the text names the pod, and no instance marker comes after it. */
  predicate LatestIs(text: Text, pod: string) {
    exists i :: 0 <= i < |text| && text[i] == InstanceMarker(pod) && Unnoted(text, i + 1)
  }

  predicate Unnoted(text: Text, start: nat) {
    forall j :: start <= j < |text| ==> !text[j].InstanceMarker?
  }

  /** The latest note on the issue names the pod: it is in a comment, or in the body with none in the comments. */
  predicate NotedOn(issue: Issue, pod: string) {
    || (LatestIs(issue.body, pod) && UnnotedSince(issue.comments, 0))
    || exists k :: 0 <= k < |issue.comments| && LatestIs(issue.comments[k], pod)
                   && UnnotedSince(issue.comments, k + 1)
  }

  predicate UnnotedSince(comments: seq<Text>, start: nat) {
    forall k :: start <= k < |comments| ==> Unnoted(comments[k], 0)
  }

  lemma {:induction false} LatestExact(text: Text, pod: string)
    ensures LatestInstance(text) == Some(pod) <==> LatestIs(text, pod)
    ensures LatestInstance(text) == None <==> Unnoted(text, 0)
  {
    if text != [] {
      LatestExact(Front(text), pod);
      if LatestIs(Front(text), pod) && !Last(text).InstanceMarker? {
        var i :| 0 <= i < |text| - 1 && Front(text)[i] == InstanceMarker(pod) && Unnoted(Front(text), i + 1);
        assert text[i] == InstanceMarker(pod) && Unnoted(text, i + 1);
      }
      if i :| 0 <= i < |text| && text[i] == InstanceMarker(pod) && Unnoted(text, i + 1) {
        assert i < |text| - 1 ==> Front(text)[i] == InstanceMarker(pod) && Unnoted(Front(text), i + 1);
      }
      assert Last(text).InstanceMarker? ==> text[|text| - 1].InstanceMarker?;
    }
  }

  lemma {:induction false} LatestOfConcat(a: Text, b: Text)
    ensures LatestInstance(a + b) == if LatestInstance(b).Some? then LatestInstance(b) else LatestInstance(a)
  {
    if b == [] {
      assert a + b == a;
    } else {
      assert Front(a + b) == a + Front(b);
      LatestOfConcat(a, Front(b));
    }
  }

  /** What the run reads off the body and the comments is the latest note. */
  lemma {:induction false} NotedExact(issue: Issue, pod: string)
    ensures LatestInstance(issue.body + Flatten(issue.comments)) == Some(pod) <==> NotedOn(issue, pod)
    decreases |issue.comments|
  {
    var comments := issue.comments;
    if comments == [] {
      assert issue.body + Flatten(comments) == issue.body;
      LatestExact(issue.body, pod);
    } else {
      var before := issue.(comments := Front(comments));
      NotedExact(before, pod);
      LatestExact(Last(comments), pod);
      Associative(issue.body, Flatten(Front(comments)), Last(comments));
      LatestOfConcat(issue.body + Flatten(Front(comments)), Last(comments));
      if Unnoted(Last(comments), 0) {
        NotedEarlier(issue, pod);
      } else {
        NotedLast(issue, pod);
      }
    }
  }

  lemma NotedEarlier(issue: Issue, pod: string)
    requires issue.comments != [] && Unnoted(Last(issue.comments), 0)
    ensures NotedOn(issue, pod) <==> NotedOn(issue.(comments := Front(issue.comments)), pod)
  {
    var comments := issue.comments;
    var front := Front(comments);
    assert comments[|comments| - 1] == Last(comments);
    forall k: nat | k <= |comments| - 1 ensures UnnotedSince(comments, k) <==> UnnotedSince(front, k) {
      forall j | k <= j < |front| ensures front[j] == comments[j] {
      }
    }
    if k :| 0 <= k < |comments| && LatestIs(comments[k], pod) && UnnotedSince(comments, k + 1) {
      assert k < |comments| - 1;
      assert front[k] == comments[k];
    }
    if k :| 0 <= k < |front| && LatestIs(front[k], pod) && UnnotedSince(front, k + 1) {
      assert comments[k] == front[k];
    }
  }

  lemma NotedLast(issue: Issue, pod: string)
    requires issue.comments != [] && !Unnoted(Last(issue.comments), 0)
    ensures NotedOn(issue, pod) <==> LatestIs(Last(issue.comments), pod)
  {
    var last := |issue.comments| - 1;
    assert issue.comments[last] == Last(issue.comments);
    assert UnnotedSince(issue.comments, last + 1);
    forall k: nat | k <= last ensures !UnnotedSince(issue.comments, k) {
      assert !Unnoted(issue.comments[last], 0);
    }
  }

  /** A new note is the latest. */
  lemma NoteIsLatest(issue: Issue, pod: string)
    ensures NotedOn(issue.(comments := issue.comments + [[InstanceMarker(pod)]]), pod)
  {
    var comments := issue.comments + [[InstanceMarker(pod)]];
    var k := |issue.comments|;
    assert comments[k] == [InstanceMarker(pod)];
    assert [InstanceMarker(pod)][0] == InstanceMarker(pod);
    assert LatestIs(comments[k], pod) && UnnotedSince(comments, k + 1);
  }

  // ---- The steps of a run that concern an issue ----

  function At(n: nat): Step -> seq<Step> {
    (s: Step) =>
      if (s.CloseResolved? || s.UpdateInstance? || s.TerminateTracked? || s.ClimbTracked?) && s.issue == n then [s]
      else []
  }

  lemma StepElsewhere(w: World, step: Step, n: nat, cfg: Config, now: real, g: Replies)
    requires n < |w.issues| && At(n)(step) == []
    ensures n < |Exec(w, step, cfg, now, g).issues| && Exec(w, step, cfg, now, g).issues[n] == w.issues[n]
  {
    match step
    case CloseResolved(k) =>
    case UpdateInstance(k, pod) => InstanceElsewhere(w, k, pod, n, g);
    case TerminateTracked(k, app, startedAt) => TerminateElsewhere(w, k, app, startedAt, n, g);
    case ClimbTracked(k, facts) => ClimbElsewhere(w, k, facts, cfg.ladder, now, n, g);
    case EnsureLabel =>
    case File(f) => FileElsewhere(w, f, cfg, now, n, g);
  }

  lemma InstanceElsewhere(w: World, k: nat, pod: string, n: nat, g: Replies)
    requires n < |w.issues| && k != n
    ensures n < |RunInstance(w, k, pod, g).issues| && RunInstance(w, k, pod, g).issues[n] == w.issues[n]
  {
  }

  lemma TerminateElsewhere(w: World, k: nat, app: string, startedAt: string, n: nat, g: Replies)
    requires n < |w.issues| && k != n
    ensures n < |RunTerminate(w, k, app, startedAt, g).issues|
    ensures RunTerminate(w, k, app, startedAt, g).issues[n] == w.issues[n]
  {
  }

  lemma ClimbElsewhere(w: World, k: nat, facts: DarkFacts, cfg: LadderConfig, now: real, n: nat, g: Replies)
    requires n < |w.issues| && k != n
    ensures n < |RunClimb(w, k, facts, cfg, now, g).issues|
    ensures RunClimb(w, k, facts, cfg, now, g).issues[n] == w.issues[n]
  {
  }

  lemma FileElsewhere(w: World, f: Finding, cfg: Config, now: real, n: nat, g: Replies)
    requires n < |w.issues|
    ensures n < |RunFile(w, f, cfg, now, g).issues| && RunFile(w, f, cfg, now, g).issues[n] == w.issues[n]
  {
  }

  lemma {:induction false} StepsElsewhere(w: World, steps: seq<Step>, n: nat, cfg: Config, now: real, g: Replies)
    requires n < |w.issues| && Gather(steps, At(n)) == []
    ensures n < |ExecAll(w, steps, cfg, now, g).issues| && ExecAll(w, steps, cfg, now, g).issues[n] == w.issues[n]
  {
    if steps != [] {
      StepsElsewhere(w, Front(steps), n, cfg, now, g);
      StepElsewhere(ExecAll(w, Front(steps), cfg, now, g), Last(steps), n, cfg, now, g);
    }
  }

  /** If one step alone concerns the issue, it finds the issue as the run did, and leaves it as the run does. */
  lemma {:induction false} StepsAtOne(w: World, steps: seq<Step>, step: Step, n: nat, cfg: Config, now: real,
                                      g: Replies) returns (u: World)
    requires n < |w.issues| && Gather(steps, At(n)) == [step] && ExecAll(w, steps, cfg, now, g).alive
    ensures n < |u.issues| && u.issues[n] == w.issues[n] && Exec(u, step, cfg, now, g).alive
    ensures n < |Exec(u, step, cfg, now, g).issues| && n < |ExecAll(w, steps, cfg, now, g).issues|
    ensures ExecAll(w, steps, cfg, now, g).issues[n] == Exec(u, step, cfg, now, g).issues[n]
  {
    var before := ExecAll(w, Front(steps), cfg, now, g);
    if At(n)(Last(steps)) == [] {
      assert Gather(Front(steps), At(n)) + [] == Gather(Front(steps), At(n));
      FrontSurvives(w, steps, cfg, now, g);
      u := StepsAtOne(w, Front(steps), step, n, cfg, now, g);
      StepElsewhere(before, Last(steps), n, cfg, now, g);
    } else {
      LastIsTheOne(Gather(Front(steps), At(n)), Last(steps), step);
      StepsElsewhere(w, Front(steps), n, cfg, now, g);
      ExecEvolves(before, step, cfg, now, g);
      u := before;
    }
  }

  lemma LastIsTheOne<T>(front: seq<T>, last: T, one: T)
    requires front + [last] == [one]
    ensures front == [] && last == one
  {
    assert |front| == 0;
    assert (front + [last])[0] == last;
  }

  lemma FrontSurvives(w: World, steps: seq<Step>, cfg: Config, now: real, g: Replies)
    requires steps != [] && ExecAll(w, steps, cfg, now, g).alive
    ensures ExecAll(w, Front(steps), cfg, now, g).alive
  {
    assert steps == Front(steps) + [Last(steps)];
    AliveSoFar(w, Front(steps), [Last(steps)], cfg, now, g);
  }

  // ---- The one finding of an issue ----

  predicate MatchesOn(f: Finding, cfg: Config, snap: Snapshot, issues: seq<Issue>, n: nat) {
    Match(f, issues, StillOpen(cfg, snap, issues)) == Some(n)
  }

  /** Finding `i` is of a churning pod with a name, and the only one that issue `n` tracks. */
  predicate PodOn(cfg: Config, snap: Snapshot, issues: seq<Issue>, n: nat, i: nat) {
    var fs := Findings(cfg, snap);
    && i < |fs| && (fs[i].CreatingFinding? || fs[i].CrashFinding?) && fs[i].pod != ""
    && MatchesOn(fs[i], cfg, snap, issues, n)
    && forall j :: 0 <= j < |fs| && j != i ==> !MatchesOn(fs[j], cfg, snap, issues, n)
  }

  lemma OnlyDup(cfg: Config, snap: Snapshot, issues: seq<Issue>, n: nat, i: nat, d: Tracked)
    requires PodOn(cfg, snap, issues, n, i) && d in DupsOf(cfg, snap, issues) && d.issue == n
    ensures d.finding == Findings(cfg, snap)[i]
  {
    DuplicateSound(Findings(cfg, snap), issues, StillOpen(cfg, snap, issues), d);
    var j :| 0 <= j < |Findings(cfg, snap)| && Findings(cfg, snap)[j] == d.finding;
    assert MatchesOn(Findings(cfg, snap)[j], cfg, snap, issues, n);
  }

  lemma NothingAt(steps: seq<Step>, n: nat)
    requires forall s :: s in steps ==> At(n)(s) == []
    ensures Gather(steps, At(n)) == []
  {
    forall i | 0 <= i < |steps| ensures At(n)(steps[i]) == [] {
      assert steps[i] in steps;
    }
    NothingGathered(steps, At(n));
  }

  function NoteFor(cfg: Config, snap: Snapshot, issues: seq<Issue>, n: nat): Finding -> seq<Step> {
    (f: Finding) =>
      if (f.CreatingFinding? || f.CrashFinding?) && f.pod != "" && MatchesOn(f, cfg, snap, issues, n)
      then [UpdateInstance(n, f.pod)] else []
  }

  lemma NotesOfDups(fs: seq<Finding>, issues: seq<Issue>, still: seq<nat>, n: nat, noteFor: Finding -> seq<Step>)
    requires forall f :: noteFor(f)
               == if (f.CreatingFinding? || f.CrashFinding?) && f.pod != "" && Match(f, issues, still) == Some(n)
                  then [UpdateInstance(n, f.pod)] else []
    ensures Gather(Gather(Duplicates(fs, issues, still), InstanceStep), At(n)) == Gather(fs, noteFor)
  {
    var notes := (d: Tracked) => if d.issue == n then InstanceStep(d) else [];
    forall d: Tracked ensures Gather(InstanceStep(d), At(n)) == notes(d) {
      if InstanceStep(d) != [] {
        GatherOne(UpdateInstance(d.issue, d.finding.pod), At(n));
      }
    }
    GatherGather(Duplicates(fs, issues, still), InstanceStep, At(n), notes);
    forall f: Finding ensures Gather(TrackedIn(issues, still)(f), notes) == noteFor(f) {
      if Match(f, issues, still).Some? {
        GatherOne(Tracked(f, Match(f, issues, still).value), notes);
      }
    }
    GatherGather(fs, TrackedIn(issues, still), notes, noteFor);
  }

  lemma NotesAtOne(cfg: Config, snap: Snapshot, issues: seq<Issue>, n: nat, i: nat)
    requires PodOn(cfg, snap, issues, n, i)
    ensures Gather(Gather(DupsOf(cfg, snap, issues), InstanceStep), At(n))
            == [UpdateInstance(n, Findings(cfg, snap)[i].pod)]
  {
    var fs := Findings(cfg, snap);
    NotesOfDups(fs, issues, StillOpen(cfg, snap, issues), n, NoteFor(cfg, snap, issues, n));
    GatherFirst(fs, i, NoteFor(cfg, snap, issues, n));
  }

  lemma RestElsewhere(cfg: Config, snap: Snapshot, issues: seq<Issue>, n: nat, i: nat, s: Step)
    requires PodOn(cfg, snap, issues, n, i) && !PlannedClose(n, cfg, snap, issues)
    requires Findings(cfg, snap) != []
    requires s in Gather(DupsOf(cfg, snap, issues), TerminateStep)
             || s in Closers(issues, StillOpen(cfg, snap, issues), DarkNode, UnknownNames(snap.nodes))
             || s in Gather(DupsOf(cfg, snap, issues), ClimbStep)
    ensures At(n)(s) == []
  {
    var dups := DupsOf(cfg, snap, issues);
    if s in Gather(dups, TerminateStep) {
      TerminateFrom(dups, s);
      var d :| d in dups && d.issue == s.issue && TerminateStep(d) == [s];
      if d.issue == n {
        OnlyDup(cfg, snap, issues, n, i, d);
      }
    } else if s in Gather(dups, ClimbStep) {
      ClimbFrom(dups, s);
      var d :| d in dups && d.issue == s.issue && ClimbStep(d) == [s];
      if d.issue == n {
        OnlyDup(cfg, snap, issues, n, i, d);
      }
    } else {
      CloserMember(issues, StillOpen(cfg, snap, issues), DarkNode, UnknownNames(snap.nodes), s);
      KeptIsListed(cfg, snap, issues, s.issue);
    }
  }

  lemma ClosingElsewhere(cfg: Config, snap: Snapshot, issues: seq<Issue>, n: nat)
    requires !PlannedClose(n, cfg, snap, issues)
    ensures Gather(ClosingSteps(cfg, snap, issues), At(n)) == []
  {
    var steps := ClosingSteps(cfg, snap, issues);
    forall s | s in steps ensures At(n)(s) == [] {
      ClosingStepPlanned(s, cfg, snap, issues);
    }
    NothingAt(steps, n);
  }

  lemma FilingStepElsewhere(cfg: Config, snap: Snapshot, issues: seq<Issue>, n: nat, s: Step)
    requires s in FilingSteps(cfg, snap, issues)
    ensures At(n)(s) == []
  {
    FilingStepPlanned(s, cfg, snap, issues);
  }

  lemma FilingElsewhere(cfg: Config, snap: Snapshot, issues: seq<Issue>, n: nat)
    ensures Gather(FilingSteps(cfg, snap, issues), At(n)) == []
  {
    var steps := FilingSteps(cfg, snap, issues);
    forall s | s in steps ensures At(n)(s) == [] {
      FilingStepElsewhere(cfg, snap, issues, n, s);
    }
    NothingAt(steps, n);
  }

  /** The steps on tracked findings after the notes. */
  function AfterNotes(cfg: Config, snap: Snapshot, issues: seq<Issue>): seq<Step> {
    var dups := DupsOf(cfg, snap, issues);
    (if cfg.autoTerminate then Gather(dups, TerminateStep) else [])
    + Closers(issues, StillOpen(cfg, snap, issues), DarkNode, UnknownNames(snap.nodes))
    + Gather(dups, ClimbStep)
  }

  lemma NotesFirst(cfg: Config, snap: Snapshot, issues: seq<Issue>)
    ensures ActingSteps(cfg, snap, issues)
            == Gather(DupsOf(cfg, snap, issues), InstanceStep) + AfterNotes(cfg, snap, issues)
  {
    var dups := DupsOf(cfg, snap, issues);
    FourParts(Gather(dups, InstanceStep), if cfg.autoTerminate then Gather(dups, TerminateStep) else [],
              Closers(issues, StillOpen(cfg, snap, issues), DarkNode, UnknownNames(snap.nodes)),
              Gather(dups, ClimbStep));
  }

  lemma FourParts<T>(a: seq<T>, b: seq<T>, c: seq<T>, d: seq<T>)
    ensures a + b + c + d == a + (b + c + d)
  {
  }

  lemma NothingAfterNotes(cfg: Config, snap: Snapshot, issues: seq<Issue>, n: nat, i: nat)
    requires PodOn(cfg, snap, issues, n, i) && !PlannedClose(n, cfg, snap, issues)
    ensures Gather(AfterNotes(cfg, snap, issues), At(n)) == []
  {
    var steps := AfterNotes(cfg, snap, issues);
    forall s | s in steps ensures At(n)(s) == [] {
      RestElsewhere(cfg, snap, issues, n, i, s);
    }
    NothingAt(steps, n);
  }

  lemma ActingAtOne(cfg: Config, snap: Snapshot, issues: seq<Issue>, n: nat, i: nat)
    requires PodOn(cfg, snap, issues, n, i) && !PlannedClose(n, cfg, snap, issues)
    ensures Gather(ActingSteps(cfg, snap, issues), At(n)) == [UpdateInstance(n, Findings(cfg, snap)[i].pod)]
  {
    NotesFirst(cfg, snap, issues);
    NothingAfterNotes(cfg, snap, issues, n, i);
    NotesAtOne(cfg, snap, issues, n, i);
    GatherConcat(Gather(DupsOf(cfg, snap, issues), InstanceStep), AfterNotes(cfg, snap, issues), At(n));
  }

  lemma PlanAtOne(cfg: Config, snap: Snapshot, issues: seq<Issue>, n: nat, i: nat)
    requires PodOn(cfg, snap, issues, n, i) && !PlannedClose(n, cfg, snap, issues)
    ensures Gather(Plan(cfg, snap, issues), At(n)) == [UpdateInstance(n, Findings(cfg, snap)[i].pod)]
  {
    var closing, acting, filing := ClosingSteps(cfg, snap, issues), ActingSteps(cfg, snap, issues),
                                   FilingSteps(cfg, snap, issues);
    ClosingElsewhere(cfg, snap, issues, n);
    FilingElsewhere(cfg, snap, issues, n);
    ActingAtOne(cfg, snap, issues, n, i);
    assert Plan(cfg, snap, issues) == closing + (acting + filing);
    GatherConcat(closing, acting + filing, At(n));
    GatherConcat(acting, filing, At(n));
  }

  // ---- One note for each change ----

  /** The note was wanted and posted, or wanted and refused, or not wanted. */
  predicate NotedAsDue(before: Issue, after: Issue, pod: string) {
    if NotedOn(before, pod) then after.comments == before.comments
    else after.comments in [before.comments, before.comments + [[InstanceMarker(pod)]]]
  }

  lemma NoteTells(u: World, n: nat, pod: string, g: Replies)
    requires n < |u.issues| && RunInstance(u, n, pod, g).alive
    ensures n < |RunInstance(u, n, pod, g).issues|
    ensures NotedAsDue(u.issues[n], RunInstance(u, n, pod, g).issues[n], pod)
    ensures (forall k: nat :: g(k).Ok?) ==> NotedOn(RunInstance(u, n, pod, g).issues[n], pod)
  {
    NotedExact(u.issues[n], pod);
    NoteIsLatest(u.issues[n], pod);
  }

  /**
    A completed run that tracks one churning pod on an issue, all of whose conditions still
    hold, adds nothing to the thread if the latest note names the pod, and otherwise at most
    one note, of the pod; if no call fails the latest note names the pod afterwards.
   */
  lemma PodIsNotedOnce(w: World, cfg: Config, snap: Snapshot, n: nat, i: nat, g: Replies)
    requires Completed(w, cfg, snap, g) && n < |w.issues|
    requires PodOn(cfg, snap, w.issues, n, i) && AllStillHold(w.issues[n].body, cfg, snap)
    ensures n < |Run(w, cfg, snap, g).issues|
    ensures var pod := Findings(cfg, snap)[i].pod;
            && NotedAsDue(w.issues[n], Run(w, cfg, snap, g).issues[n], pod)
            && ((forall k: nat :: g(k).Ok?) ==> NotedOn(Run(w, cfg, snap, g).issues[n], pod))
  {
    var start, pod := Read(w.(alive := true), g), Findings(cfg, snap)[i].pod;
    MatchSound(Findings(cfg, snap)[i], w.issues, StillOpen(cfg, snap, w.issues));
    KeptIsListed(cfg, snap, w.issues, n);
    ClosedUnlessAllHold(cfg, snap, w.issues, n);
    PlanAtOne(cfg, snap, w.issues, n, i);
    var u := StepsAtOne(start, Plan(cfg, snap, w.issues), UpdateInstance(n, pod), n, cfg, snap.now, g);
    NoteTells(u, n, pod, g);
  }

  /** A newly filed issue notes its own pod. */
  lemma FiledNotesItsPod(f: Finding, terminated: bool, pod: string)
    ensures NotedOn(IssueFor(f, terminated), pod)
            <==> (f.CreatingFinding? || f.CrashFinding?) && f.pod == pod && pod != ""
  {
    var issue := IssueFor(f, terminated);
    NotedExact(issue, pod);
    assert issue.body + Flatten(issue.comments) == issue.body;
    LatestOfConcat([KeyMarker(f.DedupKey())], issue.body[1..]);
    assert issue.body == [KeyMarker(f.DedupKey())] + issue.body[1..];
    assert Front([KeyMarker(f.DedupKey())]) == [];
    if |issue.body| == 2 {
      assert Front(issue.body[1..]) == [] && Last(issue.body[1..]) == issue.body[1];
    }
  }
}
