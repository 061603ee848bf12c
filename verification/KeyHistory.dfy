/**
  One open issue for each key over whole histories, and where the keys of pod findings come
  from: the stable subject of a workload, whichever of its pods is seen.
 */
module KeyHistory {
  import opened Common
  import opened DarkLadder
  import opened Detection
  import opened Tracker
  import opened Watchdog
  import opened RunFacts
  import opened IssueIndex
  import opened LadderHistory
  import opened TerminateHistory
  import opened Scenarios
  import PodNames

  // ---- Histories ----

  /** People leave the issues alone. */
  predicate WatchedAt(es: seq<Episode>, i: nat, cfg: Config, g: Replies)
    requires i < |es|
  {
    es[i].People? ==> HandsOff(After(START, es[..i], cfg, g).issues, es[i].issues)
  }

  predicate Watched(es: seq<Episode>, cfg: Config, g: Replies) {
    forall i :: 0 <= i < |es| ==> WatchedAt(es, i, cfg, g)
  }

  /** What the run files on the key, with the open issue on it beyond its list, is one at most: known before it runs. */
  predicate FilesOnceAt(es: seq<Episode>, i: nat, cfg: Config, key: Key, g: Replies)
    requires i < |es|
  {
    var before := After(START, es[..i], cfg, g).issues;
    es[i].RunOn? ==> CountKey(Filed(cfg, es[i].snap, before), key) + |UnlistedOn(before, key)| <= 1
  }

  predicate UniqueAt(es: seq<Episode>, i: nat, cfg: Config, key: Key, g: Replies)
    requires i <= |es|
  {
    UniqueOpen(After(START, es[..i], cfg, g).issues, key)
  }

  lemma UniqueNext(es: seq<Episode>, i: nat, cfg: Config, key: Key, g: Replies)
    requires i < |es| && WatchedAt(es, i, cfg, g) && UniqueAt(es, i, cfg, key, g)
    ensures FilesOnceAt(es, i, cfg, key, g) ==> UniqueAt(es, i + 1, cfg, key, g)
    ensures CompletesAt(es, i, cfg, g) && UniqueAt(es, i + 1, cfg, key, g) ==> FilesOnceAt(es, i, cfg, key, g)
  {
    AfterNext(es, i, cfg, g);
    var w := After(START, es[..i], cfg, g);
    if es[i].RunOn? {
      RunUnique(w, cfg, es[i].snap, key, g);
    } else {
      HandsOffUnique(w.issues, es[i].issues, key);
    }
  }

  lemma RunUnique(w: World, cfg: Config, snap: Snapshot, key: Key, g: Replies)
    requires UniqueOpen(w.issues, key)
    ensures var here := CountKey(Filed(cfg, snap, w.issues), key) + |UnlistedOn(w.issues, key)|;
            && (here <= 1 ==> UniqueOpen(Run(w, cfg, snap, g).issues, key))
            && (Completed(w, cfg, snap, g) && UniqueOpen(Run(w, cfg, snap, g).issues, key) ==> here <= 1)
  {
    if CountKey(Filed(cfg, snap, w.issues), key) + |UnlistedOn(w.issues, key)| <= 1 {
      KeysStayUnique(w, cfg, snap, key, g);
    } else if Completed(w, cfg, snap, g) {
      UniqueExactly(w, cfg, snap, key, g);
    }
  }

  /** If that holds of every run, the key never gets two open issues, wherever runs die. */
  lemma {:induction false} KeysUniqueThroughout(es: seq<Episode>, i: nat, cfg: Config, key: Key, g: Replies)
    requires i <= |es| && Watched(es, cfg, g)
    requires forall j :: 0 <= j < i ==> FilesOnceAt(es, j, cfg, key, g)
    ensures UniqueAt(es, i, cfg, key, g)
  {
    if i == 0 {
      assert es[..0] == [];
    } else {
      KeysUniqueThroughout(es, i - 1, cfg, key, g);
      assert WatchedAt(es, i - 1, cfg, g) && FilesOnceAt(es, i - 1, cfg, key, g);
      UniqueNext(es, i - 1, cfg, key, g);
    }
  }

  /** Over histories of completed runs, no key ever has two open issues exactly when that holds of every run. */
  lemma KeysUniqueExactly(es: seq<Episode>, cfg: Config, key: Key, g: Replies)
    requires Watched(es, cfg, g) && forall i :: 0 <= i < |es| ==> CompletesAt(es, i, cfg, g)
    ensures (forall i :: 0 <= i <= |es| ==> UniqueAt(es, i, cfg, key, g))
            <==> (forall i :: 0 <= i < |es| ==> FilesOnceAt(es, i, cfg, key, g))
  {
    if forall i :: 0 <= i < |es| ==> FilesOnceAt(es, i, cfg, key, g) {
      forall i | 0 <= i <= |es| ensures UniqueAt(es, i, cfg, key, g) {
        KeysUniqueThroughout(es, i, cfg, key, g);
      }
    }
    if forall i :: 0 <= i <= |es| ==> UniqueAt(es, i, cfg, key, g) {
      forall i | 0 <= i < |es| ensures FilesOnceAt(es, i, cfg, key, g) {
        assert WatchedAt(es, i, cfg, g) && CompletesAt(es, i, cfg, g);
        assert UniqueAt(es, i, cfg, key, g) && UniqueAt(es, i + 1, cfg, key, g);
        UniqueNext(es, i, cfg, key, g);
      }
    }
  }

  lemma HandsOffUnique(before: seq<Issue>, after: seq<Issue>, key: Key)
    requires HandsOff(before, after) && UniqueOpen(before, key)
    ensures UniqueOpen(after, key)
  {
    forall n | 0 <= n < |after| ensures OpenOn(after[n], key) ==> n < |before| && OpenOn(before[n], key) {
      if n < |before| {
        assert IssueEvolves(before[n], after[n]);
      }
    }
  }

  // ---- Keys of pod findings ----

  /** What the two pod detectors report about a pod: its stable subject, and the pod as it is now. */
  function CreatingFaultOf(pod: PodNames.Pod, detail: string): PodFault {
    PodFault(PodNames.StableSubject(pod), pod.name, detail)
  }

  function CrashFaultOf(pod: PodNames.Pod, container: string, detail: string): PodFault {
    PodFault(PodNames.StableSubject(pod) + ":" + container, pod.name, detail)
  }

  /** Pods `a` and `b` belong to one Deployment, whatever their ReplicaSets. */
  predicate OneDeployment(a: PodNames.Pod, b: PodNames.Pod, deployment: string, ha: string, hb: string) {
    && PodNames.OwnedBy(a, deployment, ha) && PodNames.OwnedBy(b, deployment, hb)
    && a.hasNamespace == b.hasNamespace && a.namespace == b.namespace
  }

  /** The findings of two pods of a Deployment have one key. */
  lemma DeploymentKeepsOneKey(a: PodNames.Pod, b: PodNames.Pod, deployment: string, ha: string, hb: string,
                              container: string, da: string, db: string)
    requires OneDeployment(a, b, deployment, ha, hb)
    ensures CreatingFindings([CreatingFaultOf(a, da)])[0].DedupKey()
            == CreatingFindings([CreatingFaultOf(b, db)])[0].DedupKey()
    ensures CrashFindings([CrashFaultOf(a, container, da)])[0].DedupKey()
            == CrashFindings([CrashFaultOf(b, container, db)])[0].DedupKey()
  {
    PodNames.DeploymentKeepsOneSubject(a, b, deployment, ha, hb);
  }

  /** So an issue that tracks the finding of one pod also tracks that of the pod that replaces it. */
  lemma ReplacedPodStaysTracked(cfg: Config, issues: seq<Issue>, first: Finding, later: Finding, snap: Snapshot)
    requires first.DedupKey() == later.DedupKey() && later in Findings(cfg, snap)
    requires Match(first, issues, StillOpen(cfg, snap, issues)).Some?
    ensures IsTracked(later, cfg, snap, issues) && later !in Filed(cfg, snap, issues)
  {
    var still := StillOpen(cfg, snap, issues);
    SameMatch(first, later, issues, still);
    var n := Match(later, issues, still).value;
    DuplicateSound(Findings(cfg, snap), issues, still, Tracked(later, n));
    EveryFindingIsAccounted(cfg, snap, issues, later);
  }

  // ---- Two pods of one workload in one batch ----

  lemma {:induction false} SortsAddUp(fs: seq<Finding>)
    ensures |Gather(fs, IfOp)| + |Gather(fs, IfNotOp)| == |fs|
  {
    if fs != [] {
      SortsAddUp(Front(fs));
    }
  }

  lemma TakeAll<T>(s: seq<T>, n: nat)
    requires |s| <= n
    ensures Take(s, n) == s
  {
  }

  /** With room for all, everything in the filing order is filed. */
  lemma AllFitsIsFiled(ordered: seq<Finding>, openCount: nat, cfg: Config, key: Key)
    requires |ordered| <= cfg.maxPerRun && |ordered| + openCount <= cfg.maxOpen
    ensures CountKey(ToFile(ordered, openCount, cfg), key) == CountKey(ordered, key)
  {
    var ops, rest := Gather(ordered, IfOp), Gather(ordered, IfNotOp);
    SortsAddUp(ordered);
    SplitCount(ordered, key);
    CountKeyConcat(ops, rest, key);
    TakeAll(ops, cfg.maxPerRun);
    TakeAll(rest, RestSlots(|ops|, openCount, cfg));
  }

  lemma {:induction false} UntrackedIsNew(fs: seq<Finding>, issues: seq<Issue>, listed: seq<nat>, key: Key)
    requires forall n :: n in listed && n < |issues| ==> !Tracks(issues[n], key)
    ensures |NewOnes(fs, issues, listed)| <= |fs|
    ensures CountKey(NewOnes(fs, issues, listed), key) == CountKey(fs, key)
  {
    if fs != [] {
      var f := Last(fs);
      UntrackedIsNew(Front(fs), issues, listed, key);
      MatchSound(f, issues, listed);
      CountKeyConcat(NewOnes(Front(fs), issues, listed), UntrackedIn(issues, listed)(f), key);
      assert Front([f]) == [];
    }
  }

  /** The run has room for all its findings. */
  predicate RoomForAll(cfg: Config, snap: Snapshot, issues: seq<Issue>) {
    && |Findings(cfg, snap)| <= cfg.maxPerRun
    && |Findings(cfg, snap)| + |StillOpen(cfg, snap, issues)| <= cfg.maxOpen
  }

  /** No issue that the run treats as open tracks the key. */
  predicate Untracked(cfg: Config, snap: Snapshot, issues: seq<Issue>, key: Key) {
    forall n :: n in StillOpen(cfg, snap, issues) && n < |issues| ==> !Tracks(issues[n], key)
  }

  /** With room for all, an untracked key is filed as often as the batch holds it. */
  lemma AllAreFiled(cfg: Config, snap: Snapshot, issues: seq<Issue>, key: Key)
    requires RoomForAll(cfg, snap, issues) && Untracked(cfg, snap, issues, key)
    ensures CountKey(Filed(cfg, snap, issues), key) == CountKey(Findings(cfg, snap), key)
  {
    var still := StillOpen(cfg, snap, issues);
    var untracked := NewOnes(Findings(cfg, snap), issues, still);
    UntrackedIsNew(Findings(cfg, snap), issues, still, key);
    SortCount(untracked, (a, b) => RanksBefore(Order(cfg.priority), a, b), key);
    AllFitsIsFiled(OrderedNew(cfg, snap, issues), |still|, cfg, key);
  }

  lemma {:induction false} CountsBoth(fs: seq<Finding>, i: nat, j: nat, key: Key)
    requires i < j < |fs| && fs[i].DedupKey() == key && fs[j].DedupKey() == key
    ensures CountKey(fs, key) >= 2
  {
    if j < |fs| - 1 {
      CountsBoth(Front(fs), i, j, key);
    } else {
      CountIsZero(Front(fs), key);
      assert Front(fs)[i] in Front(fs);
    }
  }

  /** Two pods with one subject are two findings with one key. */
  lemma PodsCountTwice(cfg: Config, snap: Snapshot, i: nat, j: nat)
    requires i < j < |snap.creating| && snap.creating[i].subject == snap.creating[j].subject
    ensures CountKey(Findings(cfg, snap), Key(StuckContainerCreating, snap.creating[i].subject)) >= 2
  {
    var key := Key(StuckContainerCreating, snap.creating[i].subject);
    var before := StuckOps(AppsOf(snap), cfg, snap.now) + DarkNodes(snap.nodes, cfg, snap.now)
                  + CrashFindings(snap.crashes);
    var pods := CreatingFindings(snap.creating);
    CountsBoth(pods, i, j, key);
    CountKeyConcat(before, pods, key);
    CountKeyConcat(before + pods, VolumeFindings(snap.volumes), key);
  }

  /**
    Two pods of one Deployment that are stuck in one snapshot, whatever else it shows, get two
    open issues on one key, if no listed issue tracks it yet and the run has room for its findings.
   */
  lemma TwoPodsFiledTwice(w: World, cfg: Config, snap: Snapshot, i: nat, j: nat, a: PodNames.Pod, b: PodNames.Pod,
                          deployment: string, ha: string, hb: string, g: Replies)
    requires OneDeployment(a, b, deployment, ha, hb) && i < j < |snap.creating|
    requires snap.creating[i] == CreatingFaultOf(a, snap.creating[i].detail)
    requires snap.creating[j] == CreatingFaultOf(b, snap.creating[j].detail)
    requires RoomForAll(cfg, snap, w.issues) && Completed(w, cfg, snap, g)
    requires Untracked(cfg, snap, w.issues, Key(StuckContainerCreating, PodNames.StableSubject(a)))
    ensures !UniqueOpen(Run(w, cfg, snap, g).issues, Key(StuckContainerCreating, PodNames.StableSubject(a)))
  {
    var key := Key(StuckContainerCreating, PodNames.StableSubject(a));
    PodNames.DeploymentKeepsOneSubject(a, b, deployment, ha, hb);
    PodsCountTwice(cfg, snap, i, j);
    AllAreFiled(cfg, snap, w.issues, key);
    FiledAboveOneOpensTwo(w, cfg, snap, key, g);
  }

  function PodsStuck(now: real, faults: seq<PodFault>): Snapshot {
    Snapshot(now, Some([]), [], [], faults, [])
  }

  lemma PodsAreFound(cfg: Config, now: real, faults: seq<PodFault>)
    ensures Findings(cfg, PodsStuck(now, faults)) == CreatingFindings(faults)
  {
    var snap := PodsStuck(now, faults);
    assert StuckOps(AppsOf(snap), cfg, now) == [] && DarkNodes(snap.nodes, cfg, now) == [];
    assert CrashFindings(snap.crashes) == [] && VolumeFindings(snap.volumes) == [];
  }

  lemma PodsRunCompletes(w: World, cfg: Config, now: real, faults: seq<PodFault>)
    ensures Completed(w, cfg, PodsStuck(now, faults), AllOk())
  {
    PodsAreFound(cfg, now, faults);
    RunCompletes(w, cfg, PodsStuck(now, faults));
  }

  lemma RoomAtStart(cfg: Config, now: real, faults: seq<PodFault>, key: Key)
    requires |faults| <= cfg.maxPerRun && |faults| <= cfg.maxOpen
    ensures RoomForAll(cfg, PodsStuck(now, faults), []) && Untracked(cfg, PodsStuck(now, faults), [], key)
  {
    PodsAreFound(cfg, now, faults);
    NothingOpen(cfg, PodsStuck(now, faults), []);
  }

  const POD_A := PodNames.Pod(true, "prod", "web-abcde-x1", [PodNames.Owner("ReplicaSet", "web" + "-" + "abcde")])
  const POD_B := PodNames.Pod(true, "prod", "web-abcde-x2", [PodNames.Owner("ReplicaSet", "web" + "-" + "abcde")])

  lemma WebIsOneDeployment()
    ensures OneDeployment(POD_A, POD_B, "web", "abcde", "abcde")
  {
  }

  /** Two replicas of `web` that hang on one volume, from an empty tracker. */
  lemma WebIsFiledTwice()
    ensures !UniqueOpen(Run(START, CONFIG, PodsStuck(60.0, [CreatingFaultOf(POD_A, ""), CreatingFaultOf(POD_B, "")]),
                            AllOk()).issues,
                        Key(StuckContainerCreating, PodNames.StableSubject(POD_A)))
  {
    var faults := [CreatingFaultOf(POD_A, ""), CreatingFaultOf(POD_B, "")];
    WebIsOneDeployment();
    PodsRunCompletes(START, CONFIG, 60.0, faults);
    RoomAtStart(CONFIG, 60.0, faults, Key(StuckContainerCreating, PodNames.StableSubject(POD_A)));
    TwoPodsFiledTwice(START, CONFIG, PodsStuck(60.0, faults), 0, 1, POD_A, POD_B, "web", "abcde", "abcde", AllOk());
  }
}
