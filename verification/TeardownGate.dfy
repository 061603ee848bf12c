/**
  The gate before a node is wiped: how many intact copies of every Longhorn volume survive,
  and whether an earlier teardown is still settling.
 */
module TeardownGate {
  import opened Common

  /** `failedAt`: no failure, a timestamp that cannot be parsed, or an instant in minutes. */
  datatype Failure = Healthy | Unparseable(text: string) | FailedAt(at: real)

  datatype Replica = Replica(
    name: string, volume: Option<string>, node: Option<string>, failure: Failure, state: string)

  datatype Volume = Volume(name: string, state: string)

  datatype Blocker =
    | Unreadable
    | NoVolumes
    | BadTimestamp(text: string)
    | RecentFailures(count: nat)
    | AtRisk(volumes: seq<string>)

  datatype Verdict = Verdict(ok: bool, blockers: seq<Blocker>, checked: nat)

  predicate Intact(r: Replica, attached: bool) {
    r.failure.Healthy? && (attached ==> r.state == "running")
  }

  predicate Attached(v: Volume) {
    v.state == "attached"
  }

  predicate Recent(r: Replica, cooldown: int, now: real) {
    r.failure.FailedAt? && now - r.failure.at < cooldown as real
  }

  // ---- The specification: counting sets of replicas ----

  /** The records of the volume, by position. */
  function RecordsOf(replicas: seq<Replica>, v: Volume): set<nat> {
    set i: nat | i < |replicas| && replicas[i].volume == Some(v.name)
  }

  /**
    The copies of the volume that hold its data and lie on none of the given nodes: never failed,
    and running if the volume is attached, since a detached volume has no running replica.
   */
  function Survivors(replicas: seq<Replica>, v: Volume, wiped: set<string>): set<nat> {
    set i: nat | i < |replicas| && replicas[i].volume == Some(v.name)
      && (replicas[i].node.None? || replicas[i].node.value !in wiped)
      && replicas[i].failure == Healthy && (v.state == "attached" ==> replicas[i].state == "running")
  }

  /** The replicas that failed less than a cooldown ago. */
  function RecentFailed(replicas: seq<Replica>, cooldown: int, now: real): set<nat> {
    set i: nat | i < |replicas| && replicas[i].failure.FailedAt? && replicas[i].failure.at > now - cooldown as real
  }

  predicate Redundant(replicas: seq<Replica>, v: Volume, node: string, minSurviving: int) {
    RecordsOf(replicas, v) != {} && |Survivors(replicas, v, {node})| >= minSurviving
  }

  /** The promise of the gate, with no loop in it. */
  predicate Safe(node: string, volumes: Option<seq<Volume>>, replicas: Option<seq<Replica>>,
                 minSurviving: int, cooldown: int, now: real) {
    && volumes.Some? && replicas.Some? && volumes.value != []
    && (forall i :: 0 <= i < |replicas.value| ==> !replicas.value[i].failure.Unparseable?)
    && RecentFailed(replicas.value, cooldown, now) == {}
    && (forall i :: 0 <= i < |volumes.value| ==> Redundant(replicas.value, volumes.value[i], node, minSurviving))
  }

  // ---- What the loops test ----

  function OfVolume(volume: Option<string>): Replica -> bool {
    (r: Replica) => r.volume == volume
  }

  function IntactOff(wiped: set<string>, attached: bool): Replica -> bool {
    (r: Replica) => Intact(r, attached) && (r.node.None? || r.node.value !in wiped)
  }

  function SurvivorOf(v: Volume, wiped: set<string>): Replica -> bool {
    r => OfVolume(Some(v.name))(r) && IntactOff(wiped, Attached(v))(r)
  }

  /** The tests of the loops pick out the positions of the specification. */
  lemma TestsPickSets(replicas: seq<Replica>, v: Volume, wiped: set<string>, cooldown: int, now: real)
    ensures Where(replicas, OfVolume(Some(v.name))) == RecordsOf(replicas, v)
    ensures Where(replicas, SurvivorOf(v, wiped)) == Survivors(replicas, v, wiped)
    ensures Where(replicas, IsRecent(cooldown, now)) == RecentFailed(replicas, cooldown, now)
  {
  }

  // ---- The loops ----

  /** The records a volume name collects, in order. */
  function Grouped(replicas: seq<Replica>, volume: Option<string>): seq<Replica> {
    Gather(replicas, Keep(OfVolume(volume)))
  }

  function IsRecent(cooldown: int, now: real): Replica -> bool {
    r => Recent(r, cooldown, now)
  }

  lemma GroupedCounts(replicas: seq<Replica>, v: Volume, node: string)
    ensures Grouped(replicas, Some(v.name)) == [] <==> RecordsOf(replicas, v) == {}
    ensures |Gather(Grouped(replicas, Some(v.name)), Keep(IntactOff({node}, Attached(v))))|
            == |Survivors(replicas, v, {node})|
  {
    TestsPickSets(replicas, v, {node}, 0, 0.0);
    KeepCard(replicas, OfVolume(Some(v.name)));
    KeepCard(replicas, SurvivorOf(v, {node}));
    KeepTwice(replicas, OfVolume(Some(v.name)), IntactOff({node}, Attached(v)), SurvivorOf(v, {node}));
  }

  /** The records grouped under one key per volume name. */
  ghost predicate Indexes(byVolume: map<Option<string>, seq<Replica>>, replicas: seq<Replica>) {
    forall key :: (if key in byVolume then byVolume[key] else []) == Grouped(replicas, key)
  }

  method GroupByVolume(replicas: seq<Replica>) returns (byVolume: map<Option<string>, seq<Replica>>)
    ensures Indexes(byVolume, replicas)
  {
    byVolume := map[];
    for i := 0 to |replicas|
      invariant Indexes(byVolume, replicas[..i])
    {
      var r := replicas[i];
      forall key ensures Grouped(replicas[..i + 1], key) == Grouped(replicas[..i], key) + Keep(OfVolume(key))(r) {
        GatherNext(replicas, i, Keep(OfVolume(key)));
      }
      var known := if r.volume in byVolume then byVolume[r.volume] else [];
      byVolume := byVolume[r.volume := known + [r]];
    }
    assert replicas[..|replicas|] == replicas;
  }

  function IfRisky(replicas: seq<Replica>, node: string, minSurviving: int): Volume -> seq<string> {
    v => if Redundant(replicas, v, node, minSurviving) then [] else [v.name]
  }

  function HasRecords(replicas: seq<Replica>): Volume -> bool {
    v => RecordsOf(replicas, v) != {}
  }

  /** A volume without records, or with too few intact replicas off the node, is at risk. */
  method CheckVolume(v: Volume, reps: seq<Replica>, ghost replicas: seq<Replica>, node: string, minSurviving: int)
    returns (risky: bool)
    requires reps == Grouped(replicas, Some(v.name))
    ensures risky <==> !Redundant(replicas, v, node, minSurviving)
    ensures reps != [] <==> HasRecords(replicas)(v)
  {
    GroupedCounts(replicas, v, node);
    if reps == [] {
      return true;
    }
    var surviving := Gather(reps, Keep(IntactOff({node}, Attached(v))));
    return |surviving| < minSurviving;
  }

  method CheckVolumes(volumes: seq<Volume>, replicas: seq<Replica>, node: string, minSurviving: int)
    returns (atRisk: seq<string>, checked: nat)
    ensures atRisk == Gather(volumes, IfRisky(replicas, node, minSurviving))
    ensures checked == |Gather(volumes, Keep(HasRecords(replicas)))|
  {
    var byVolume := GroupByVolume(replicas);
    atRisk, checked := [], 0;
    for i := 0 to |volumes|
      invariant atRisk == Gather(volumes[..i], IfRisky(replicas, node, minSurviving))
      invariant checked == |Gather(volumes[..i], Keep(HasRecords(replicas)))|
    {
      GatherNext(volumes, i, IfRisky(replicas, node, minSurviving));
      GatherNext(volumes, i, Keep(HasRecords(replicas)));
      var v := volumes[i];
      var reps := if Some(v.name) in byVolume then byVolume[Some(v.name)] else [];
      var risky := CheckVolume(v, reps, replicas, node, minSurviving);
      if risky {
        atRisk := atRisk + [v.name];
      }
      if reps != [] {
        checked := checked + 1;
      }
    }
    assert volumes[..|volumes|] == volumes;
  }

  /** Count recent failures, stopping at the first timestamp that cannot be parsed. */
  method CountRecent(replicas: seq<Replica>, cooldown: int, now: real) returns (recent: nat, bad: Option<string>)
    ensures bad.None? ==> recent == |RecentFailed(replicas, cooldown, now)|
    ensures bad.None? <==> forall k :: 0 <= k < |replicas| ==> !replicas[k].failure.Unparseable?
    ensures bad.Some? ==> exists k :: 0 <= k < |replicas| && replicas[k].failure == Unparseable(bad.value)
  {
    recent, bad := 0, None;
    for i := 0 to |replicas|
      invariant recent == |Gather(replicas[..i], Keep(IsRecent(cooldown, now)))|
      invariant forall k :: 0 <= k < i ==> !replicas[k].failure.Unparseable?
    {
      GatherNext(replicas, i, Keep(IsRecent(cooldown, now)));
      match replicas[i].failure
      case Healthy =>
      case Unparseable(text) =>
        return recent, Some(text);
      case FailedAt(at) =>
        if now - at < cooldown as real {
          recent := recent + 1;
        }
    }
    assert replicas[..|replicas|] == replicas;
    KeepCard(replicas, IsRecent(cooldown, now));
    TestsPickSets(replicas, Volume("", ""), {}, cooldown, now);
  }

  /** The reasons a verdict may give are the true ones. */
  predicate Truthful(b: Blocker, volumes: Option<seq<Volume>>, replicas: Option<seq<Replica>>, node: string,
                     minSurviving: int, cooldown: int, now: real) {
    match b
    case Unreadable => volumes.None? || replicas.None?
    case NoVolumes => volumes == Some([])
    case BadTimestamp(t) =>
      replicas.Some? && exists i :: 0 <= i < |replicas.value| && replicas.value[i].failure == Unparseable(t)
    case RecentFailures(n) => replicas.Some? && n == |RecentFailed(replicas.value, cooldown, now)| > 0
    case AtRisk(names) =>
      volumes.Some? && replicas.Some?
      && names == Gather(volumes.value, IfRisky(replicas.value, node, minSurviving)) != []
  }

  /**
    The gate refines the counting specification: it says yes exactly when the promise holds,
    and otherwise gives reasons that are true.
   */
  method Evaluate(node: string, volumes: Option<seq<Volume>>, replicas: Option<seq<Replica>>,
                  minSurviving: int, cooldown: int, now: real)
    returns (verdict: Verdict)
    ensures verdict.ok <==> Safe(node, volumes, replicas, minSurviving, cooldown, now)
    ensures verdict.ok <==> verdict.blockers == []
    ensures forall b :: b in verdict.blockers ==>
              Truthful(b, volumes, replicas, node, minSurviving, cooldown, now)
    ensures verdict.ok ==> verdict.checked == |volumes.value|
  {
    if volumes.None? || replicas.None? {
      return Verdict(false, [Unreadable], 0);
    }
    if volumes.value == [] {
      return Verdict(false, [NoVolumes], 0);
    }
    var recent, bad := CountRecent(replicas.value, cooldown, now);
    if bad.Some? {
      return Verdict(false, [BadTimestamp(bad.value)], 0);
    }
    var blockers := if recent > 0 then [RecentFailures(recent)] else [];
    var atRisk, checked := CheckVolumes(volumes.value, replicas.value, node, minSurviving);
    SafeByCounts(node, volumes.value, replicas.value, minSurviving, cooldown, now);
    if atRisk != [] {
      blockers := blockers + [AtRisk(atRisk)];
    }
    verdict := Verdict(blockers == [], blockers, checked);
  }

  lemma SafeByCounts(node: string, volumes: seq<Volume>, replicas: seq<Replica>, minSurviving: int, cooldown: int,
                     now: real)
    requires volumes != [] && forall k :: 0 <= k < |replicas| ==> !replicas[k].failure.Unparseable?
    ensures Safe(node, Some(volumes), Some(replicas), minSurviving, cooldown, now) <==>
            |RecentFailed(replicas, cooldown, now)| == 0
            && Gather(volumes, IfRisky(replicas, node, minSurviving)) == []
    ensures Gather(volumes, IfRisky(replicas, node, minSurviving)) == []
            ==> |Gather(volumes, Keep(HasRecords(replicas)))| == |volumes|
  {
    NoneRisky(volumes, replicas, node, minSurviving);
  }

  lemma {:induction false} NoneRisky(volumes: seq<Volume>, replicas: seq<Replica>, node: string, minSurviving: int)
    ensures Gather(volumes, IfRisky(replicas, node, minSurviving)) == []
            <==> forall i :: 0 <= i < |volumes| ==> Redundant(replicas, volumes[i], node, minSurviving)
    ensures Gather(volumes, IfRisky(replicas, node, minSurviving)) == []
            ==> |Gather(volumes, Keep(HasRecords(replicas)))| == |volumes|
  {
    if volumes != [] {
      NoneRisky(Front(volumes), replicas, node, minSurviving);
      assert volumes == Front(volumes) + [Last(volumes)];
    }
  }

  // ---- Stale approvals: several nodes wiped on one snapshot ----

  predicate IsCopy(r: Replica, v: Volume) {
    r.volume == Some(v.name) && r.failure == Healthy && (v.state == "attached" ==> r.state == "running")
  }

  /** The intact replicas of the volume on the nodes of a set. */
  function CopiesOn(replicas: seq<Replica>, v: Volume, nodes: set<string>): set<nat> {
    set i: nat | i < |replicas| && IsCopy(replicas[i], v) && replicas[i].node.Some? && replicas[i].node.value in nodes
  }

  /** Longhorn's anti-affinity: no two intact replicas of the volume share a node. */
  predicate SpreadOut(replicas: seq<Replica>, v: Volume) {
    forall i, j | 0 <= i < |replicas| && 0 <= j < |replicas| && IsCopy(replicas[i], v) && IsCopy(replicas[j], v) ::
      replicas[i].node == replicas[j].node && replicas[i].node.Some? ==> i == j
  }

  lemma {:induction false} OneCopyPerNode(replicas: seq<Replica>, v: Volume, nodes: set<string>)
    requires SpreadOut(replicas, v)
    ensures |CopiesOn(replicas, v, nodes)| <= |nodes|
  {
    if nodes == {} {
      assert CopiesOn(replicas, v, nodes) == {};
    } else {
      var n :| n in nodes;
      OneCopyPerNode(replicas, v, nodes - {n});
      var here := CopiesOn(replicas, v, {n});
      assert CopiesOn(replicas, v, nodes) == CopiesOn(replicas, v, nodes - {n}) + here;
      if here != {} {
        var i :| i in here;
        assert here == {i};
      }
    }
  }

  /**
    If k nodes were each approved on the same snapshot, wiping all of them leaves at least
    the required number of copies minus k - 1.
   */
  lemma StaleApprovals(nodes: set<string>, volumes: seq<Volume>, replicas: seq<Replica>,
                       minSurviving: int, cooldown: int, now: real, v: Volume)
    requires nodes != {} && v in volumes && SpreadOut(replicas, v)
    requires forall n :: n in nodes ==> Safe(n, Some(volumes), Some(replicas), minSurviving, cooldown, now)
    ensures |Survivors(replicas, v, nodes)| >= minSurviving - (|nodes| - 1)
  {
    var n :| n in nodes;
    var rest := nodes - {n};
    assert Redundant(replicas, v, n, minSurviving);
    OneCopyPerNode(replicas, v, rest);
    var left, lost := Survivors(replicas, v, nodes), CopiesOn(replicas, v, rest);
    assert Survivors(replicas, v, {n}) <= left + lost;
    CoveredCard(Survivors(replicas, v, {n}), left, lost);
  }

  lemma CoveredCard(a: set<nat>, b: set<nat>, c: set<nat>)
    requires a <= b + c
    ensures |a| <= |b| + |c|
  {
    assert b + c == a + (b + c - a);
    assert b + c == b + (c - b) && c == (c - b) + (c * b);
  }

  // ---- Histories of wipes ----

  /** Wiping a node fails every replica on it that had not failed before. */
  function Wipe(replicas: seq<Replica>, node: string, at: real): seq<Replica> {
    seq(|replicas|, i requires 0 <= i < |replicas| => WipedReplica(replicas[i], node, at))
  }

  function WipedReplica(r: Replica, node: string, at: real): Replica {
    if r.node == Some(node) && r.failure.Healthy? then r.(failure := FailedAt(at)) else r
  }

  predicate Destroys(replicas: seq<Replica>, node: string) {
    exists i :: 0 <= i < |replicas| && replicas[i].node == Some(node) && replicas[i].failure.Healthy?
  }

  /** Right after an approved wipe every volume still has its required intact copies. */
  lemma ApprovedWipeKeepsCopies(node: string, volumes: seq<Volume>, replicas: seq<Replica>,
                                minSurviving: int, cooldown: int, at: real, v: Volume)
    requires Safe(node, Some(volumes), Some(replicas), minSurviving, cooldown, at) && v in volumes
    ensures |Survivors(Wipe(replicas, node, at), v, {})| >= minSurviving
    ensures Survivors(Wipe(replicas, node, at), v, {}) == Survivors(replicas, v, {node})
  {
    assert Redundant(replicas, v, node, minSurviving);
    assert Survivors(Wipe(replicas, node, at), v, {}) == Survivors(replicas, v, {node});
  }

  datatype Storage = Storage(volumes: seq<Volume>, replicas: seq<Replica>)

  /** A wipe of a node at a time, or the cluster rebuilding, failing or changing on its own. */
  datatype Turn = Wiped(node: string, at: real) | Changed(storage: Storage)

  function Before(s: Storage, turns: seq<Turn>, i: nat): Storage
    requires i <= |turns|
  {
    if i == 0 then s
    else
      var p := Before(s, turns, i - 1);
      match turns[i - 1]
      case Wiped(node, at) => p.(replicas := Wipe(p.replicas, node, at))
      case Changed(storage) => storage
  }

  /** Longhorn keeps the records of failed replicas. */
  predicate KeepsFailures(a: seq<Replica>, b: seq<Replica>) {
    forall i :: 0 <= i < |a| && a[i].failure.FailedAt? ==> HasFailure(b, a[i].failure.at)
  }

  predicate HasFailure(replicas: seq<Replica>, at: real) {
    exists i :: 0 <= i < |replicas| && replicas[i].failure == FailedAt(at)
  }

  /** Every wipe is approved on the state it meets. */
  predicate AllApproved(s: Storage, turns: seq<Turn>, minSurviving: int, cooldown: int) {
    forall i :: 0 <= i < |turns| ==>
      var p := Before(s, turns, i);
      match turns[i]
      case Wiped(node, at) => Safe(node, Some(p.volumes), Some(p.replicas), minSurviving, cooldown, at)
      case Changed(storage) => KeepsFailures(p.replicas, storage.replicas)
  }

  lemma {:induction false} FailureStays(s: Storage, turns: seq<Turn>, i: nat, j: nat, minSurviving: int,
                                        cooldown: int, at: real)
    requires AllApproved(s, turns, minSurviving, cooldown) && i <= j <= |turns|
    requires HasFailure(Before(s, turns, i).replicas, at)
    ensures HasFailure(Before(s, turns, j).replicas, at)
  {
    if i < j {
      FailureStays(s, turns, i, j - 1, minSurviving, cooldown, at);
      var p, q := Before(s, turns, j - 1), Before(s, turns, j);
      var k :| 0 <= k < |p.replicas| && p.replicas[k].failure == FailedAt(at);
      if turns[j - 1].Wiped? {
        assert q.replicas[k].failure == FailedAt(at);
      }
    }
  }

  /**
    Over every history of approved wipes: each leaves every volume its required copies, and
    the next wipe after one that destroyed a replica comes a cooldown later.
   */
  lemma WipesAreSpaced(s: Storage, turns: seq<Turn>, i: nat, j: nat, minSurviving: int, cooldown: int)
    requires AllApproved(s, turns, minSurviving, cooldown) && i < j < |turns| && turns[i].Wiped? && turns[j].Wiped?
    ensures forall v :: v in Before(s, turns, i).volumes ==>
              |Survivors(Before(s, turns, i + 1).replicas, v, {})| >= minSurviving
    ensures Destroys(Before(s, turns, i).replicas, turns[i].node) ==> turns[j].at - turns[i].at >= cooldown as real
  {
    var p, node, at := Before(s, turns, i), turns[i].node, turns[i].at;
    assert Safe(node, Some(p.volumes), Some(p.replicas), minSurviving, cooldown, at);
    forall v | v in p.volumes ensures |Survivors(Before(s, turns, i + 1).replicas, v, {})| >= minSurviving {
      ApprovedWipeKeepsCopies(node, p.volumes, p.replicas, minSurviving, cooldown, at, v);
    }
    if Destroys(p.replicas, node) {
      var k :| 0 <= k < |p.replicas| && p.replicas[k].node == Some(node) && p.replicas[k].failure.Healthy?;
      assert Before(s, turns, i + 1).replicas[k].failure == FailedAt(at);
      FailureStays(s, turns, i + 1, j, minSurviving, cooldown, at);
      var q := Before(s, turns, j);
      var m :| 0 <= m < |q.replicas| && q.replicas[m].failure == FailedAt(at);
      assert Safe(turns[j].node, Some(q.volumes), Some(q.replicas), minSurviving, cooldown, turns[j].at);
      assert m !in RecentFailed(q.replicas, cooldown, turns[j].at);
    }
  }
}
