/**
  Detection: which findings a cluster snapshot holds. Stuck Argo operations and dark nodes
  are computed here; crash loops, stuck pod starts and volume pressure arrive as findings.
 */
module Detection {
  import opened Common
  import opened DarkLadder

  datatype Kind = StuckArgoOp | DarkNode | PvcNearingFull | StuckContainerCreating | ChronicCrashloop

  /** The dedup key; its text form is also the marker in an issue body and the stable title. */
  datatype Key = Key(kind: Kind, subject: string)

  /** `detail` stands for the facts and the summary that no decision reads. */
  datatype Finding =
    | OpFinding(app: string, startedAt: string, detail: string)
    | NodeFinding(facts: DarkFacts, detail: string)
    | VolumeFinding(claim: string, detail: string)
    | CreatingFinding(workload: string, pod: string, detail: string)
    | CrashFinding(container: string, pod: string, detail: string)
  {
    function Kind(): Kind {
      match this
      case OpFinding(_, _, _) => StuckArgoOp
      case NodeFinding(_, _) => DarkNode
      case VolumeFinding(_, _) => PvcNearingFull
      case CreatingFinding(_, _, _) => StuckContainerCreating
      case CrashFinding(_, _, _) => ChronicCrashloop
    }

    function Subject(): string {
      match this
      case OpFinding(app, _, _) => app
      case NodeFinding(facts, _) => facts.node
      case VolumeFinding(claim, _) => claim
      case CreatingFinding(workload, _, _) => workload
      case CrashFinding(container, _, _) => container
    }

    function DedupKey(): Key {
      Key(Kind(), Subject())
    }
  }

  /** An Argo application; `name` is empty when missing, `started` is None when unparseable. */
  datatype App = App(name: string, phase: string, startedAt: string, started: Option<real>, detail: string)

  datatype Condition = Condition(kind: string, status: string, transition: Option<real>, heartbeat: Option<real>)

  datatype Node = Node(name: string, controlPlane: bool, conditions: seq<Condition>, detail: string)

  /** `apps` is None when the cluster's answer holds no list of applications. */
  datatype Snapshot = Snapshot(
    now: real,
    apps: Option<seq<App>>,
    nodes: seq<Node>,
    crashes: seq<PodFault>,
    creating: seq<PodFault>,
    volumes: seq<VolumeFault>)

  datatype PodFault = PodFault(subject: string, pod: string, detail: string)
  datatype VolumeFault = VolumeFault(claim: string, detail: string)

  datatype Config = Config(
    argoEnabled: bool,
    runningMinutes: real,
    autoTerminate: bool,
    ladder: LadderConfig,
    unknownMinutes: real,
    ignoreNodes: set<string>,
    maxPerRun: nat,
    maxOpen: int,
    priority: seq<Kind>)

  function NameOr(name: string): string {
    if name == "" then "<unnamed>" else name
  }

  // ---- Stuck Argo operations ----

  predicate OpStuck(app: App, cfg: Config, now: real) {
    app.phase == "Running" && app.started.Some? && now - app.started.value > cfg.runningMinutes
  }

  function OpOf(app: App): Finding {
    OpFinding(NameOr(app.name), app.startedAt, app.detail)
  }

  function OpIfStuck(cfg: Config, now: real): App -> seq<Finding> {
    app => if OpStuck(app, cfg, now) then [OpOf(app)] else []
  }

  function StuckOps(apps: seq<App>, cfg: Config, now: real): seq<Finding> {
    if cfg.argoEnabled then Gather(apps, OpIfStuck(cfg, now)) else []
  }

  method DetectStuckArgoOps(apps: seq<App>, cfg: Config, now: real) returns (findings: seq<Finding>)
    ensures findings == StuckOps(apps, cfg, now)
  {
    findings := [];
    if !cfg.argoEnabled {
      return;
    }
    for i := 0 to |apps|
      invariant findings == StuckOps(apps[..i], cfg, now)
    {
      GatherNext(apps, i, OpIfStuck(cfg, now));
      if apps[i].phase != "Running" || apps[i].started.None? {
        continue;
      }
      var minutes := now - apps[i].started.value;
      if minutes <= cfg.runningMinutes {
        continue;
      }
      findings := findings + [OpOf(apps[i])];
    }
    assert apps[..|apps|] == apps;
  }

  /** Application `i` has been running an operation for longer than the threshold, and the finding is about it. */
  predicate ReportsOp(f: Finding, apps: seq<App>, i: nat, cfg: Config, now: real) {
    && i < |apps| && apps[i].phase == "Running"
    && apps[i].started.Some? && now - apps[i].started.value > cfg.runningMinutes
    && f == OpFinding(if apps[i].name == "" then "<unnamed>" else apps[i].name, apps[i].startedAt, apps[i].detail)
  }

  /** Exactly the stuck operations are found. */
  lemma StuckOpsExact(apps: seq<App>, cfg: Config, now: real, f: Finding)
    ensures f in StuckOps(apps, cfg, now) <==> cfg.argoEnabled && exists i: nat :: ReportsOp(f, apps, i, cfg, now)
  {
    var piece := OpIfStuck(cfg, now);
    GatherMember(apps, piece, f);
    if f in StuckOps(apps, cfg, now) {
      var i: nat :| i < |apps| && f in piece(apps[i]);
      assert ReportsOp(f, apps, i, cfg, now);
    } else if i: nat :| ReportsOp(f, apps, i, cfg, now) {
      assert piece(apps[i]) == [f];
    }
  }

  // ---- Dark nodes ----

  /** The first condition of a kind, as the list is searched. */
  function FindCondition(conditions: seq<Condition>, kind: string): Option<Condition> {
    if conditions == [] then None
    else if conditions[0].kind == kind then Some(conditions[0])
    else FindCondition(conditions[1..], kind)
  }

  predicate HasStatus(node: Node, kind: string, status: string) {
    var c := FindCondition(node.conditions, kind);
    c.Some? && c.value.status == status
  }

  /** Condition `c` is the first of its kind in the list. */
  predicate FirstOfKind(conditions: seq<Condition>, c: nat, kind: string) {
    c < |conditions| && conditions[c].kind == kind && forall j :: 0 <= j < c ==> conditions[j].kind != kind
  }

  /** The search finds the first condition of the kind. */
  lemma {:induction false} FoundIsFirst(conditions: seq<Condition>, c: nat, kind: string)
    requires FirstOfKind(conditions, c, kind)
    ensures FindCondition(conditions, kind) == Some(conditions[c])
    decreases c
  {
    if c > 0 {
      assert conditions[0].kind != kind;
      forall j | 0 <= j < c - 1 ensures conditions[1..][j].kind != kind {
        assert conditions[j + 1].kind != kind;
      }
      FoundIsFirst(conditions[1..], c - 1, kind);
    }
  }

  lemma {:induction false} FindsFirst(conditions: seq<Condition>, kind: string) returns (c: nat)
    requires FindCondition(conditions, kind).Some?
    ensures FirstOfKind(conditions, c, kind) && conditions[c] == FindCondition(conditions, kind).value
  {
    if conditions[0].kind == kind {
      c := 0;
    } else {
      var d := FindsFirst(conditions[1..], kind);
      c := d + 1;
      forall j | 0 < j < c ensures conditions[j].kind != kind {
        assert conditions[1..][j - 1].kind != kind;
      }
    }
  }

  /** The node's first condition of this kind has this status. */
  predicate FirstIs(node: Node, kind: string, status: string) {
    exists c :: 0 <= c < |node.conditions| && FirstHas(node, c, kind, status)
  }

  predicate FirstHas(node: Node, c: nat, kind: string, status: string) {
    FirstOfKind(node.conditions, c, kind) && node.conditions[c].status == status
  }

  lemma StatusIsFirst(node: Node, kind: string, status: string)
    ensures HasStatus(node, kind, status) <==> FirstIs(node, kind, status)
  {
    if HasStatus(node, kind, status) {
      var c := FindsFirst(node.conditions, kind);
      assert FirstHas(node, c, kind, status);
    } else if FirstIs(node, kind, status) {
      var c :| 0 <= c < |node.conditions| && FirstHas(node, c, kind, status);
      FoundIsFirst(node.conditions, c, kind);
    }
  }

  predicate ReadyControlPlane(node: Node) {
    node.controlPlane && HasStatus(node, "Ready", "True")
  }

  function CountReady(nodes: seq<Node>): nat {
    if nodes == [] then 0
    else CountReady(Front(nodes)) + (if ReadyControlPlane(Last(nodes)) then 1 else 0)
  }

  function UnknownSince(node: Node): Option<real> {
    var c := FindCondition(node.conditions, "Ready");
    if c.None? then None
    else if c.value.transition.Some? then c.value.transition
    else c.value.heartbeat
  }

  predicate LongDark(node: Node, cfg: Config, now: real) {
    && NameOr(node.name) !in cfg.ignoreNodes
    && HasStatus(node, "Ready", "Unknown")
    && UnknownSince(node).Some?
    && now - UnknownSince(node).value > cfg.unknownMinutes
  }

  /** Python's round(x, 1): to the nearest tenth, ties to the even tenth. */
  function RoundTenth(x: real): real {
    var t := x * 10.0;
    var whole := t.Floor;
    var rest := t - whole as real;
    (if rest < 0.5 || (rest == 0.5 && whole % 2 == 0) then whole else whole + 1) as real / 10.0
  }

  function DarkFactsOf(node: Node, ready: int, now: real): DarkFacts
    requires UnknownSince(node).Some?
  {
    DarkFacts(NameOr(node.name), RoundTenth(now - UnknownSince(node).value), node.controlPlane,
              HasStatus(node, "EtcdIsVoter", "True"), ready)
  }

  function DarkIfLong(ready: int, cfg: Config, now: real): Node -> seq<Finding> {
    node => if LongDark(node, cfg, now) then [NodeFinding(DarkFactsOf(node, ready, now), node.detail)] else []
  }

  function DarkNodes(nodes: seq<Node>, cfg: Config, now: real): seq<Finding> {
    if cfg.ladder.enabled then Gather(nodes, DarkIfLong(CountReady(nodes), cfg, now)) else []
  }

  method DetectDarkNodes(nodes: seq<Node>, cfg: Config, now: real) returns (findings: seq<Finding>)
    ensures findings == DarkNodes(nodes, cfg, now)
  {
    findings := [];
    if !cfg.ladder.enabled {
      return;
    }
    var ready := 0;
    for i := 0 to |nodes|
      invariant ready == CountReady(nodes[..i])
    {
      assert Front(nodes[..i + 1]) == nodes[..i];
      if ReadyControlPlane(nodes[i]) {
        ready := ready + 1;
      }
    }
    assert nodes[..|nodes|] == nodes;
    for i := 0 to |nodes|
      invariant findings == Gather(nodes[..i], DarkIfLong(ready, cfg, now))
    {
      GatherNext(nodes, i, DarkIfLong(ready, cfg, now));
      if NameOr(nodes[i].name) in cfg.ignoreNodes || !HasStatus(nodes[i], "Ready", "Unknown") {
        continue;
      }
      var since := UnknownSince(nodes[i]);
      if since.None? || now - since.value <= cfg.unknownMinutes {
        continue;
      }
      findings := findings + [NodeFinding(DarkFactsOf(nodes[i], ready, now), nodes[i].detail)];
    }
  }

  /** The positions of the Ready control-plane nodes. */
  function ReadyAt(nodes: seq<Node>): set<nat> {
    set k: nat | k < |nodes| && nodes[k].controlPlane && FirstIs(nodes[k], "Ready", "True")
  }

  /** The same without one position. */
  function OtherReadyAt(nodes: seq<Node>, target: nat): set<nat> {
    set k: nat | k < |nodes| && k != target && nodes[k].controlPlane && FirstIs(nodes[k], "Ready", "True")
  }

  predicate ReadyHere(node: Node) {
    node.controlPlane && FirstIs(node, "Ready", "True")
  }

  lemma ReadyAtWhere(nodes: seq<Node>)
    ensures ReadyAt(nodes) == Where(nodes, ReadyHere)
  {
  }

  lemma {:induction false} CountReadyWhere(nodes: seq<Node>)
    ensures CountReady(nodes) == |Where(nodes, ReadyHere)|
  {
    if nodes == [] {
      assert Where(nodes, ReadyHere) == {};
    } else {
      CountReadyWhere(Front(nodes));
      StatusIsFirst(Last(nodes), "Ready", "True");
      WhereNext(nodes, ReadyHere);
    }
  }

  lemma CountReadyIsCardinality(nodes: seq<Node>)
    ensures CountReady(nodes) == |ReadyAt(nodes)|
  {
    CountReadyWhere(nodes);
    ReadyAtWhere(nodes);
  }

  lemma UnknownIsNotReady(node: Node)
    requires FirstIs(node, "Ready", "Unknown")
    ensures !FirstIs(node, "Ready", "True")
  {
    StatusIsFirst(node, "Ready", "Unknown");
    StatusIsFirst(node, "Ready", "True");
    assert "Unknown"[0] != "True"[0];
  }

  lemma PeersOfDarkNode(nodes: seq<Node>, i: nat)
    requires i < |nodes| && FirstIs(nodes[i], "Ready", "Unknown")
    ensures CountReady(nodes) == |OtherReadyAt(nodes, i)|
  {
    CountReadyIsCardinality(nodes);
    UnknownIsNotReady(nodes[i]);
    assert OtherReadyAt(nodes, i) == ReadyAt(nodes);
  }

  /** Since when a condition has had its status: its transition, or else its last heartbeat. */
  function SinceOf(c: Condition): Option<real> {
    match c.transition
    case Some(t) => Some(t)
    case None => c.heartbeat
  }

  /** Condition `c` of the node is its first "Ready", Unknown for longer than some minutes. */
  predicate DarkBy(node: Node, c: nat, minutes: real, now: real) {
    && FirstOfKind(node.conditions, c, "Ready") && node.conditions[c].status == "Unknown"
    && SinceOf(node.conditions[c]).Some? && now - SinceOf(node.conditions[c]).value > minutes
  }

  /** The finding reports node `i` of the snapshot, dark by condition `c`, with its count of other Ready nodes. */
  predicate ReportsBy(f: Finding, nodes: seq<Node>, i: nat, c: nat, cfg: Config, now: real) {
    && i < |nodes| && DarkBy(nodes[i], c, cfg.unknownMinutes, now)
    && var name := if nodes[i].name == "" then "<unnamed>" else nodes[i].name;
       && name !in cfg.ignoreNodes
       && f == NodeFinding(DarkFacts(name, RoundTenth(now - SinceOf(nodes[i].conditions[c]).value),
                                     nodes[i].controlPlane, FirstIs(nodes[i], "EtcdIsVoter", "True"),
                                     |OtherReadyAt(nodes, i)|),
                           nodes[i].detail)
  }

  ghost predicate Reports(f: Finding, nodes: seq<Node>, i: nat, cfg: Config, now: real) {
    exists c: nat :: ReportsBy(f, nodes, i, c, cfg, now)
  }

  lemma ReportedIsDark(nodes: seq<Node>, i: nat, c: nat, cfg: Config, now: real, f: Finding)
    requires ReportsBy(f, nodes, i, c, cfg, now)
    ensures DarkIfLong(CountReady(nodes), cfg, now)(nodes[i]) == [f]
  {
    FoundIsFirst(nodes[i].conditions, c, "Ready");
    assert FirstHas(nodes[i], c, "Ready", "Unknown");
    StatusIsFirst(nodes[i], "EtcdIsVoter", "True");
    PeersOfDarkNode(nodes, i);
  }

  lemma DarkByFirst(node: Node, cfg: Config, now: real) returns (c: nat)
    requires LongDark(node, cfg, now)
    ensures DarkBy(node, c, cfg.unknownMinutes, now) && UnknownSince(node) == SinceOf(node.conditions[c])
    ensures FirstIs(node, "Ready", "Unknown")
  {
    c := FindsFirst(node.conditions, "Ready");
    assert FirstHas(node, c, "Ready", "Unknown");
  }

  lemma DarkIsReported(nodes: seq<Node>, i: nat, cfg: Config, now: real)
    requires i < |nodes| && LongDark(nodes[i], cfg, now)
    ensures Reports(NodeFinding(DarkFactsOf(nodes[i], CountReady(nodes), now), nodes[i].detail), nodes, i, cfg, now)
  {
    var c := DarkByFirst(nodes[i], cfg, now);
    StatusIsFirst(nodes[i], "EtcdIsVoter", "True");
    PeersOfDarkNode(nodes, i);
    var f := NodeFinding(DarkFactsOf(nodes[i], CountReady(nodes), now), nodes[i].detail);
    assert ReportsBy(f, nodes, i, c, cfg, now);
  }

  /**
    Exactly the nodes dark long enough are found, each with the Ready control-plane nodes other
    than itself, though the count never subtracts the target: a node whose Ready is Unknown is
    not counted.
   */
  lemma DarkNodesExact(nodes: seq<Node>, cfg: Config, now: real, f: Finding)
    ensures f in DarkNodes(nodes, cfg, now)
            <==> cfg.ladder.enabled && exists i: nat :: Reports(f, nodes, i, cfg, now)
  {
    var piece := DarkIfLong(CountReady(nodes), cfg, now);
    GatherMember(nodes, piece, f);
    if f in DarkNodes(nodes, cfg, now) {
      var i: nat :| i < |nodes| && f in piece(nodes[i]);
      DarkIsReported(nodes, i, cfg, now);
    } else if i: nat :| Reports(f, nodes, i, cfg, now) {
      var c: nat :| ReportsBy(f, nodes, i, c, cfg, now);
      ReportedIsDark(nodes, i, c, cfg, now, f);
    }
  }

  /** The least number of tenths that is not below a threshold. */
  function TenthsUp(threshold: real): int {
    -(-threshold * 10.0).Floor
  }

  lemma TenthsUpIsLeast(threshold: real, k: int)
    ensures k as real / 10.0 >= threshold <==> k >= TenthsUp(threshold)
  {
    var up := TenthsUp(threshold);
    assert up as real >= threshold * 10.0 > up as real - 1.0;
    if k < up {
      assert k as real <= up as real - 1.0;
    }
  }

  /** Rounding moves an age by half a tenth at most. */
  lemma RoundTenthClose(minutes: real)
    ensures -0.05 <= RoundTenth(minutes) - minutes <= 0.05
  {
  }

  lemma RoundedTenths(minutes: real, k: int)
    ensures RoundTenth(minutes) >= k as real / 10.0 <==>
            minutes * 10.0 > k as real - 0.5 || (minutes * 10.0 == k as real - 0.5 && k % 2 == 0)
  {
    var t := minutes * 10.0;
    var whole := t.Floor;
    if whole >= k {
    } else if whole + 1 < k {
      assert whole as real <= k as real - 2.0;
    } else {
      assert whole + 1 == k;
    }
  }

  /** An age, unrounded, that the ladder takes to have reached a threshold of any size. */
  predicate CountsAsReached(minutes: real, threshold: real) {
    var k := TenthsUp(threshold);
    minutes * 10.0 > k as real - 0.5 || (minutes * 10.0 == k as real - 0.5 && k % 2 == 0)
  }

  /**
    The ladder compares a rounded age with the threshold: the age passes exactly when it is
    within half a tenth of the next whole tenth (the tie itself passes only for an even one).
   */
  lemma RoundedAgePasses(minutes: real, threshold: real)
    ensures RoundTenth(minutes) >= threshold <==> CountsAsReached(minutes, threshold)
  {
    var k := TenthsUp(threshold);
    RoundedTenths(minutes, k);
    var t := minutes * 10.0;
    var whole := t.Floor;
    TenthsUpIsLeast(threshold, whole);
    TenthsUpIsLeast(threshold, whole + 1);
    assert RoundTenth(minutes) == whole as real / 10.0 || RoundTenth(minutes) == (whole + 1) as real / 10.0;
  }

  /** Some age below the threshold passes exactly when the threshold is less than half a tenth below a whole tenth. */
  lemma EarlyExactly(threshold: real)
    ensures (exists minutes :: minutes < threshold && RoundTenth(minutes) >= threshold)
            <==> TenthsUp(threshold) as real - 0.5 < threshold * 10.0
  {
    var edge := (TenthsUp(threshold) as real - 0.5) / 10.0;
    if edge < threshold {
      var minutes := (edge + threshold) / 2.0;
      RoundedAgePasses(minutes, threshold);
      assert minutes < threshold && RoundTenth(minutes) >= threshold;
    }
    if minutes :| minutes < threshold && RoundTenth(minutes) >= threshold {
      RoundedAgePasses(minutes, threshold);
    }
  }

  /** A node whose age is below the threshold and still counts as having reached it. */
  predicate SeenEarly(node: Node, now: real, cfg: LadderConfig) {
    && UnknownSince(node).Some? && now - UnknownSince(node).value < cfg.escalateAfter
    && CountsAsReached(now - UnknownSince(node).value, cfg.escalateAfter)
  }

  /** Such a node is reinstalled before its time, when nothing else stands in the way. */
  lemma EscalatesEarly(node: Node, ready: int, now: real, state: LadderState, cfg: LadderConfig)
    requires SeenEarly(node, now, cfg) && Armed(cfg) && node.controlPlane
    requires !state.escalated && state.attempts >= cfg.maxAttempts
    requires HasStatus(node, "EtcdIsVoter", "True") ==> ready >= cfg.minOtherReady
    ensures Decide(DarkFactsOf(node, ready, now), state, cfg, now).action == Reinstall
  {
    RoundedAgePasses(now - UnknownSince(node).value, cfg.escalateAfter);
  }

  // ---- All findings of a run, in detection order ----

  function CrashFindings(faults: seq<PodFault>): seq<Finding> {
    seq(|faults|, i requires 0 <= i < |faults| => CrashFinding(faults[i].subject, faults[i].pod, faults[i].detail))
  }

  function CreatingFindings(faults: seq<PodFault>): seq<Finding> {
    seq(|faults|, i requires 0 <= i < |faults| => CreatingFinding(faults[i].subject, faults[i].pod, faults[i].detail))
  }

  function VolumeFindings(faults: seq<VolumeFault>): seq<Finding> {
    seq(|faults|, i requires 0 <= i < |faults| => VolumeFinding(faults[i].claim, faults[i].detail))
  }

  function AppsOf(snap: Snapshot): seq<App> {
    if snap.apps.Some? then snap.apps.value else []
  }

  function Findings(cfg: Config, snap: Snapshot): seq<Finding> {
    StuckOps(AppsOf(snap), cfg, snap.now) + DarkNodes(snap.nodes, cfg, snap.now)
    + CrashFindings(snap.crashes) + CreatingFindings(snap.creating) + VolumeFindings(snap.volumes)
  }

  /** Exactly what the snapshot shows is found, one kind by its own part of the snapshot. */
  ghost predicate Shown(f: Finding, cfg: Config, snap: Snapshot) {
    match f
    case OpFinding(_, _, _) =>
      cfg.argoEnabled && snap.apps.Some? && exists i: nat :: ReportsOp(f, snap.apps.value, i, cfg, snap.now)
    case NodeFinding(_, _) =>
      cfg.ladder.enabled && exists i: nat :: Reports(f, snap.nodes, i, cfg, snap.now)
    case CrashFinding(subject, pod, detail) => PodFault(subject, pod, detail) in snap.crashes
    case CreatingFinding(subject, pod, detail) => PodFault(subject, pod, detail) in snap.creating
    case VolumeFinding(claim, detail) => VolumeFault(claim, detail) in snap.volumes
  }

  lemma FindingsExact(cfg: Config, snap: Snapshot, f: Finding)
    ensures f in Findings(cfg, snap) <==> Shown(f, cfg, snap)
  {
    StuckOpsExact(AppsOf(snap), cfg, snap.now, f);
    DarkNodesExact(snap.nodes, cfg, snap.now, f);
    FaultsExact(snap, f);
  }

  lemma FaultsExact(snap: Snapshot, f: Finding)
    ensures f in CrashFindings(snap.crashes)
            <==> f.CrashFinding? && PodFault(f.container, f.pod, f.detail) in snap.crashes
    ensures f in CreatingFindings(snap.creating)
            <==> f.CreatingFinding? && PodFault(f.workload, f.pod, f.detail) in snap.creating
    ensures f in VolumeFindings(snap.volumes) <==> f.VolumeFinding? && VolumeFault(f.claim, f.detail) in snap.volumes
  {
    if f.CrashFinding? && PodFault(f.container, f.pod, f.detail) in snap.crashes {
      var i :| 0 <= i < |snap.crashes| && snap.crashes[i] == PodFault(f.container, f.pod, f.detail);
      assert CrashFindings(snap.crashes)[i] == f;
    }
    if f.CreatingFinding? && PodFault(f.workload, f.pod, f.detail) in snap.creating {
      var i :| 0 <= i < |snap.creating| && snap.creating[i] == PodFault(f.workload, f.pod, f.detail);
      assert CreatingFindings(snap.creating)[i] == f;
    }
    if f.VolumeFinding? && VolumeFault(f.claim, f.detail) in snap.volumes {
      var i :| 0 <= i < |snap.volumes| && snap.volumes[i] == VolumeFault(f.claim, f.detail);
      assert VolumeFindings(snap.volumes)[i] == f;
    }
  }

  /** Names of the nodes that are Unknown now, however briefly. */
  function UnknownNames(nodes: seq<Node>): set<string> {
    set i | 0 <= i < |nodes| && nodes[i].name != "" && HasStatus(nodes[i], "Ready", "Unknown") :: nodes[i].name
  }
}
