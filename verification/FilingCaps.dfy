/** The caps on filing: per run, on open issues, and worst first. */
module FilingCaps {
  import opened Common
  import opened DarkLadder
  import opened Detection
  import opened Tracker
  import opened Watchdog
  import opened PlanFacts
  import opened RunFacts
  import opened IssueIndex
  import opened LadderHistory
  import Sorting

  lemma FewFiled(ordered: seq<Finding>, openCount: nat, cfg: Config)
    ensures |ToFile(ordered, openCount, cfg)| <= cfg.maxPerRun
  {
  }

  lemma {:induction false} FilingLength(w: World, fs: seq<Finding>, cfg: Config, now: real, g: Replies)
    ensures |FileLoop(w, fs, cfg, now, g).issues| <= |w.issues| + |fs|
  {
    if fs != [] {
      FilingLength(w, Front(fs), cfg, now, g);
      LastFiling(w, fs, cfg, now, g);
    }
  }

  /** No run files more than its cap, and no run adds more issues than that. */
  lemma PerRunCap(w: World, cfg: Config, snap: Snapshot, g: Replies)
    ensures |Filed(cfg, snap, w.issues)| <= cfg.maxPerRun
    ensures |Run(w, cfg, snap, g).issues| <= |w.issues| + cfg.maxPerRun
  {
    var u, filed := AfterActing(w, cfg, snap, g), Filed(cfg, snap, w.issues);
    FewFiled(OrderedNew(cfg, snap, w.issues), |StillOpen(cfg, snap, w.issues)|, cfg);
    RunMakes(w, cfg, snap, g);
    RunInParts(w, cfg, snap, g);
    LabelThenFile(u, filed, cfg, snap.now, g);
    FilingLength(Tolerated(u, g), filed, cfg, snap.now, g);
  }

  // ---- The ceiling on open issues ----

  /** The open issues that carry no Argo key. */
  function OpenRest(issues: seq<Issue>): set<nat> {
    set n: nat | n < |issues| && issues[n].open && FirstKey(issues[n].body, StuckArgoOp).None?
  }

  function Elements(s: seq<nat>): set<nat> {
    set i | 0 <= i < |s| :: s[i]
  }

  lemma {:induction false} ElementsAtMost(s: seq<nat>)
    ensures |Elements(s)| <= |s|
  {
    if s == [] {
      assert Elements(s) == {};
    } else {
      ElementsAtMost(Front(s));
      assert Elements(s) == Elements(Front(s)) + {Last(s)};
    }
  }

  /** The open issues beyond the fetched list. */
  function Unlisted(issues: seq<Issue>): set<nat> {
    OpenRest(issues) - Elements(Listing(issues))
  }

  lemma SubsetCard(a: set<nat>, b: set<nat>)
    requires a <= b
    ensures |a| <= |b|
  {
    assert b == a + (b - a);
  }

  lemma OpenRestShrinks(w: World, u: World)
    requires Evolves(w, u) && |u.issues| == |w.issues|
    ensures OpenRest(u.issues) <= OpenRest(w.issues)
  {
    forall n | n in OpenRest(u.issues) ensures n in OpenRest(w.issues) {
      assert IssueEvolves(w.issues[n], u.issues[n]);
    }
  }

  /** When filing starts, what is open was kept or was never listed. */
  lemma OpenRestWasKept(w: World, cfg: Config, snap: Snapshot, g: Replies)
    requires Findings(cfg, snap) != [] && AfterActing(w, cfg, snap, g).alive
    ensures |OpenRest(AfterActing(w, cfg, snap, g).issues)| <= |Unlisted(w.issues)| + |StillOpen(cfg, snap, w.issues)|
  {
    var c, u := AfterClosing(w, cfg, snap, g), AfterActing(w, cfg, snap, g);
    var still := StillOpen(cfg, snap, w.issues);
    PartsEvolve(w, cfg, snap, g);
    if !c.alive {
      DeadStays(c, ActingSteps(cfg, snap, w.issues), cfg, snap.now, g);
    }
    ExecAllEvolves(c, ActingSteps(cfg, snap, w.issues), cfg, snap.now, g);
    OpenRestShrinks(w, u);
    forall n | n in OpenRest(u.issues) ensures n in Unlisted(w.issues) + Elements(still) {
      assert IssueEvolves(c.issues[n], u.issues[n]);
      if n in Listing(w.issues) {
        OpenAfterClosingWasKept(w, cfg, snap, g, n);
        var i :| 0 <= i < |still| && still[i] == n;
      }
    }
    ElementsAtMost(still);
    SubsetCard(OpenRest(u.issues), Unlisted(w.issues) + Elements(still));
    UnionCard(Unlisted(w.issues), Elements(still));
  }

  lemma UnionCard(a: set<nat>, b: set<nat>)
    ensures |a + b| <= |a| + |b|
  {
    assert a + b == a + (b - a);
    SubsetCard(b - a, b);
  }

  /** One turn of the filing loop adds at most one such issue, and none for an Argo finding. */
  lemma AddingGrows(u: World, v: World, f: Finding, cfg: Config)
    requires AddsOnly(u, v, f, cfg)
    ensures |OpenRest(v.issues)| <= |OpenRest(u.issues)| + if f.OpFinding? then 0 else 1
  {
    FirstKeyOfBody(f, f.OpFinding? && cfg.autoTerminate, StuckArgoOp);
    var here := if f.OpFinding? then {} else {|u.issues|};
    forall n | n in OpenRest(v.issues) ensures n in OpenRest(u.issues) + here {
      if n < |u.issues| {
        assert IssueEvolves(u.issues[n], v.issues[n]);
      }
    }
    SubsetCard(OpenRest(v.issues), OpenRest(u.issues) + here);
    UnionCard(OpenRest(u.issues), here);
  }

  lemma {:induction false} FilingGrows(w: World, fs: seq<Finding>, cfg: Config, now: real, g: Replies)
    ensures |OpenRest(FileLoop(w, fs, cfg, now, g).issues)| <= |OpenRest(w.issues)| + |Gather(fs, IfNotOp)|
  {
    if fs != [] {
      FilingGrows(w, Front(fs), cfg, now, g);
      LastFiling(w, fs, cfg, now, g);
      AddingGrows(FileLoop(w, Front(fs), cfg, now, g), FileLoop(w, fs, cfg, now, g), Last(fs), cfg);
    }
  }

  lemma {:induction false} OpsAndRest(fs: seq<Finding>)
    ensures Gather(Gather(fs, IfOp), IfOp) == Gather(fs, IfOp)
    ensures Gather(Gather(fs, IfOp), IfNotOp) == []
    ensures Gather(Gather(fs, IfNotOp), IfNotOp) == Gather(fs, IfNotOp)
    ensures Gather(Gather(fs, IfNotOp), IfOp) == []
  {
    if fs != [] {
      OpsAndRest(Front(fs));
      Snoc(Gather(Front(fs), IfOp), Last(fs));
      Snoc(Gather(Front(fs), IfNotOp), Last(fs));
      assert Gather(Front(fs), IfOp) + [] == Gather(Front(fs), IfOp);
      assert Gather(Front(fs), IfNotOp) + [] == Gather(Front(fs), IfNotOp);
    }
  }

  /** A prefix of a list of one sort is of that sort. */
  lemma TakeOfSort(fs: seq<Finding>, n: nat)
    ensures Gather(Take(Gather(fs, IfOp), n), IfNotOp) == [] && Gather(Take(Gather(fs, IfNotOp), n), IfOp) == []
    ensures Gather(Take(Gather(fs, IfOp), n), IfOp) == Take(Gather(fs, IfOp), n)
    ensures Gather(Take(Gather(fs, IfNotOp), n), IfNotOp) == Take(Gather(fs, IfNotOp), n)
  {
    OpsAndRest(fs);
    var ops, rest := Gather(fs, IfOp), Gather(fs, IfNotOp);
    forall f | f in Take(ops, n) ensures f.OpFinding? {
      GatherMember(fs, IfOp, f);
    }
    forall f | f in Take(rest, n) ensures !f.OpFinding? {
      GatherMember(fs, IfNotOp, f);
    }
    AllOps(Take(ops, n));
    NoOps(Take(rest, n));
  }

  lemma {:induction false} AllOps(fs: seq<Finding>)
    requires forall f :: f in fs ==> f.OpFinding?
    ensures Gather(fs, IfOp) == fs && Gather(fs, IfNotOp) == []
  {
    if fs != [] {
      assert fs == Front(fs) + [Last(fs)];
      AllOps(Front(fs));
    }
  }

  lemma {:induction false} NoOps(fs: seq<Finding>)
    requires forall f :: f in fs ==> !f.OpFinding?
    ensures Gather(fs, IfNotOp) == fs && Gather(fs, IfOp) == []
  {
    if fs != [] {
      assert fs == Front(fs) + [Last(fs)];
      NoOps(Front(fs));
    }
  }

  /**
    Argo findings are never starved by the ceiling: the filed ones are the first `maxPerRun`
    in filing order, whatever is open; the others get exactly the slots that remain.
   */
  lemma FiledSplits(cfg: Config, snap: Snapshot, issues: seq<Issue>)
    ensures var ordered, filed := OrderedNew(cfg, snap, issues), Filed(cfg, snap, issues);
            var ops := Take(Gather(ordered, IfOp), cfg.maxPerRun);
            && Gather(filed, IfOp) == ops
            && Gather(filed, IfNotOp)
               == Take(Gather(ordered, IfNotOp), RestSlots(|ops|, |StillOpen(cfg, snap, issues)|, cfg))
  {
    var ordered := OrderedNew(cfg, snap, issues);
    var ops := Take(Gather(ordered, IfOp), cfg.maxPerRun);
    var slots := RestSlots(|ops|, |StillOpen(cfg, snap, issues)|, cfg);
    TakeOfSort(ordered, cfg.maxPerRun);
    TakeOfSort(ordered, slots);
    GatherConcat(ops, Take(Gather(ordered, IfNotOp), slots), IfOp);
    GatherConcat(ops, Take(Gather(ordered, IfNotOp), slots), IfNotOp);
  }

  lemma FilingFromHere(w: World, cfg: Config, snap: Snapshot, g: Replies)
    requires Findings(cfg, snap) != [] && AfterActing(w, cfg, snap, g).alive
    ensures |OpenRest(Run(w, cfg, snap, g).issues)|
            <= |OpenRest(AfterActing(w, cfg, snap, g).issues)| + |Gather(Filed(cfg, snap, w.issues), IfNotOp)|
  {
    var u, filed := AfterActing(w, cfg, snap, g), Filed(cfg, snap, w.issues);
    RunInParts(w, cfg, snap, g);
    LabelThenFile(u, filed, cfg, snap.now, g);
    FilingGrows(Tolerated(u, g), filed, cfg, snap.now, g);
  }

  /** The other findings filed fill at most the slots below the ceiling. */
  lemma RestFiledFits(cfg: Config, snap: Snapshot, issues: seq<Issue>)
    ensures var rest, still := |Gather(Filed(cfg, snap, issues), IfNotOp)|, |StillOpen(cfg, snap, issues)|;
            rest == 0 || rest + still <= cfg.maxOpen
  {
    FiledSplits(cfg, snap, issues);
  }

  lemma ActingShrinksRest(w: World, cfg: Config, snap: Snapshot, g: Replies)
    ensures |OpenRest(AfterActing(w, cfg, snap, g).issues)| <= |OpenRest(w.issues)|
  {
    var u := AfterActing(w, cfg, snap, g);
    PartsEvolve(w, cfg, snap, g);
    OpenRestShrinks(w, u);
    SubsetCard(OpenRest(u.issues), OpenRest(w.issues));
  }

  lemma NoFilingNoChange(w: World, cfg: Config, snap: Snapshot, g: Replies)
    requires Findings(cfg, snap) == [] || !AfterActing(w, cfg, snap, g).alive
    ensures Run(w, cfg, snap, g).issues == AfterActing(w, cfg, snap, g).issues
  {
    RunMakes(w, cfg, snap, g);
  }

  /**
    No run raises the number of open non-Argo issues above the larger of its previous value
    and the ceiling, counting the ceiling on top of issues beyond the fetched list.
   */
  lemma CeilingHolds(w: World, cfg: Config, snap: Snapshot, g: Replies)
    ensures |OpenRest(Run(w, cfg, snap, g).issues)|
            <= Max(|OpenRest(w.issues)|, cfg.maxOpen + |Unlisted(w.issues)|)
  {
    ActingShrinksRest(w, cfg, snap, g);
    if Findings(cfg, snap) == [] || !AfterActing(w, cfg, snap, g).alive {
      NoFilingNoChange(w, cfg, snap, g);
    } else {
      FilingFromHere(w, cfg, snap, g);
      RestFiledFits(cfg, snap, w.issues);
      OpenRestWasKept(w, cfg, snap, g);
    }
  }

  /** With a complete list the bound is the configured one. */
  lemma CeilingHoldsOnFullList(w: World, cfg: Config, snap: Snapshot, g: Replies)
    requires ListedInFull(w.issues)
    ensures |OpenRest(Run(w, cfg, snap, g).issues)| <= Max(|OpenRest(w.issues)|, cfg.maxOpen)
  {
    CeilingHolds(w, cfg, snap, g);
    forall n | n in OpenRest(w.issues) ensures n in Elements(Listing(w.issues)) {
      FullListing(w.issues, n);
      var i :| 0 <= i < |Listing(w.issues)| && Listing(w.issues)[i] == n;
    }
    assert Unlisted(w.issues) == {};
  }

  /** People add no open non-Argo issue, and every run sees the whole list. */
  predicate Draining(es: seq<Episode>, cfg: Config, g: Replies) {
    forall i :: 0 <= i < |es| ==>
      var before := After(START, es[..i], cfg, g).issues;
      if es[i].RunOn? then ListedInFull(before) else |OpenRest(es[i].issues)| <= |OpenRest(before)|
  }

  /** The watchdog alone never has more open non-Argo issues than the ceiling. */
  lemma {:induction false} CeilingThroughout(es: seq<Episode>, i: nat, cfg: Config, g: Replies)
    requires i <= |es| && Draining(es, cfg, g)
    ensures |OpenRest(After(START, es[..i], cfg, g).issues)| <= Max(0, cfg.maxOpen)
  {
    if i == 0 {
      assert es[..0] == [];
      assert OpenRest([]) == {};
    } else {
      CeilingThroughout(es, i - 1, cfg, g);
      assert Front(es[..i]) == es[..i - 1];
      if es[i - 1].RunOn? {
        CeilingHoldsOnFullList(After(START, es[..i - 1], cfg, g), cfg, es[i - 1].snap, g);
      }
    }
  }

  // ---- Worst first ----

  lemma RankPreorder(order: seq<Kind>)
    ensures Sorting.Preorder((a, b) => RanksBefore(order, a, b))
  {
    forall a: Finding, b: Finding ensures RanksBefore(order, a, b) || RanksBefore(order, b, a) {
      Sorting.StrTotal(KeyText(a.DedupKey()), KeyText(b.DedupKey()));
    }
    forall a: Finding, b: Finding, c: Finding | RanksBefore(order, a, b) && RanksBefore(order, b, c)
      ensures RanksBefore(order, a, c)
    {
      if Position(order, a.Kind()) == Position(order, b.Kind()) == Position(order, c.Kind()) {
        Sorting.StrTrans(KeyText(a.DedupKey()), KeyText(b.DedupKey()), KeyText(c.DedupKey()));
      }
    }
  }

  /** Some place in the order has the kind of `f`, and up to there the kind of `h` does not occur. */
  predicate Ahead(order: seq<Kind>, f: Finding, h: Finding) {
    exists i :: 0 <= i < |order| && order[i] == f.Kind() && h.Kind() !in order[..i + 1]
  }

  /** Two findings of one kind, or of kinds that the order does not name. */
  predicate Level(order: seq<Kind>, f: Finding, h: Finding) {
    f.Kind() == h.Kind() || (f.Kind() !in order && h.Kind() !in order)
  }

  /** `f` may stand before `h`: it is not behind in the order and, on a level, not behind in the text of its key. */
  predicate MayPrecede(order: seq<Kind>, f: Finding, h: Finding) {
    && !Ahead(order, h, f)
    && (Level(order, f, h) ==> Sorting.CodePointLe(KeyText(f.DedupKey()), KeyText(h.DedupKey())))
  }

  /** The configured order; without one, from stuck operations to crash loops. */
  predicate OrderIs(priority: seq<Kind>, order: seq<Kind>) {
    if priority == [] then
      order == [StuckArgoOp, DarkNode, PvcNearingFull, StuckContainerCreating, ChronicCrashloop]
    else order == priority
  }

  lemma {:induction false} PositionIsFirst(order: seq<Kind>, kind: Kind)
    ensures Position(order, kind) <= |order| && kind !in order[..Position(order, kind)]
    ensures Position(order, kind) < |order| ==> order[Position(order, kind)] == kind
    ensures kind !in order <==> Position(order, kind) == |order|
  {
    if order != [] && order[0] != kind {
      PositionIsFirst(order[1..], kind);
      assert order == [order[0]] + order[1..];
    }
  }

  lemma AheadExact(order: seq<Kind>, f: Finding, h: Finding)
    ensures Ahead(order, f, h) <==> Position(order, f.Kind()) < Position(order, h.Kind())
  {
    var pf, ph := Position(order, f.Kind()), Position(order, h.Kind());
    PositionIsFirst(order, f.Kind());
    PositionIsFirst(order, h.Kind());
    if pf < ph {
      assert order[..pf + 1] <= order[..ph];
      assert order[pf] == f.Kind() && h.Kind() !in order[..pf + 1];
    }
    if i :| 0 <= i < |order| && order[i] == f.Kind() && h.Kind() !in order[..i + 1] {
      PositionWithin(order, f.Kind(), i);
      PositionBeyond(order, h.Kind(), i + 1);
    }
  }

  lemma {:induction false} PositionWithin(order: seq<Kind>, kind: Kind, i: nat)
    requires i < |order| && order[i] == kind
    ensures Position(order, kind) <= i
    decreases i
  {
    if i > 0 {
      PositionWithin(order[1..], kind, i - 1);
    }
  }

  lemma {:induction false} PositionBeyond(order: seq<Kind>, kind: Kind, n: nat)
    requires n <= |order| && kind !in order[..n]
    ensures Position(order, kind) >= n
    decreases n
  {
    if n > 0 {
      assert order[..n] == [order[0]] + order[1..][..n - 1];
      PositionBeyond(order[1..], kind, n - 1);
    }
  }

  /** The rank in terms of the list of kinds and of the key texts alone. */
  lemma RankExact(order: seq<Kind>, f: Finding, h: Finding)
    ensures RanksBefore(order, f, h) <==> MayPrecede(order, f, h)
  {
    AheadExact(order, h, f);
    AheadExact(order, f, h);
    PositionIsFirst(order, f.Kind());
    PositionIsFirst(order, h.Kind());
    Sorting.StrLeExact(KeyText(f.DedupKey()), KeyText(h.DedupKey()));
  }

  predicate InOrder(fs: seq<Finding>, order: seq<Kind>) {
    forall i, j :: 0 <= i < j < |fs| ==> RanksBefore(order, fs[i], fs[j])
  }

  lemma PrioritizeOrders(fs: seq<Finding>, priority: seq<Kind>)
    ensures InOrder(Prioritize(fs, priority), Order(priority))
  {
    RankPreorder(Order(priority));
    Sorting.SortSorted(fs, (a, b) => RanksBefore(Order(priority), a, b));
  }

  /**
    `prioritize` rearranges its findings: kinds in the configured or the default order, kinds
    the order does not name last, one kind in code-point order of its key texts.
   */
  lemma PrioritizeSorts(fs: seq<Finding>, priority: seq<Kind>, order: seq<Kind>)
    requires OrderIs(priority, order)
    ensures multiset(Prioritize(fs, priority)) == multiset(fs)
    ensures forall i, j :: 0 <= i < j < |fs| ==>
              MayPrecede(order, Prioritize(fs, priority)[i], Prioritize(fs, priority)[j])
  {
    var sorted := Prioritize(fs, priority);
    PrioritizeOrders(fs, priority);
    forall i, j | 0 <= i < j < |fs| ensures MayPrecede(order, sorted[i], sorted[j]) {
      RankExact(order, sorted[i], sorted[j]);
    }
  }

  function WithKey(key: Key): Finding -> seq<Finding> {
    (f: Finding) => if f.DedupKey() == key then [f] else []
  }

  lemma {:induction false} InsertIsStable(s: seq<Finding>, x: Finding, order: seq<Kind>, key: Key)
    ensures Gather(Sorting.Insert(s, x, (a, b) => RanksBefore(order, a, b)), WithKey(key))
            == Gather(s, WithKey(key)) + WithKey(key)(x)
  {
    var le := (a, b) => RanksBefore(order, a, b);
    if s == [] {
      GatherOne(x, WithKey(key));
    } else if le(Last(s), x) {
      Snoc(s, x);
    } else {
      Sorting.StrRefl(KeyText(x.DedupKey()));
      assert Last(s).DedupKey() != x.DedupKey();
      InsertIsStable(Front(s), x, order, key);
      Snoc(Sorting.Insert(Front(s), x, le), Last(s));
      PutBehind(Gather(Front(s), WithKey(key)), WithKey(key)(x), WithKey(key)(Last(s)));
    }
  }

  lemma PutBehind(a: seq<Finding>, b: seq<Finding>, c: seq<Finding>)
    requires b == [] || c == []
    ensures a + b + c == a + c + b
  {
  }

  lemma {:induction false} SortIsStable(s: seq<Finding>, order: seq<Kind>, key: Key)
    ensures Gather(Sorting.Sort(s, (a, b) => RanksBefore(order, a, b)), WithKey(key)) == Gather(s, WithKey(key))
  {
    if s != [] {
      SortIsStable(Front(s), order, key);
      InsertIsStable(Sorting.Sort(Front(s), (a, b) => RanksBefore(order, a, b)), Last(s), order, key);
    }
  }

  /** Findings of one key keep the order they were found in. */
  lemma PrioritizeIsStable(fs: seq<Finding>, priority: seq<Kind>, key: Key)
    ensures Gather(Prioritize(fs, priority), WithKey(key)) == Gather(fs, WithKey(key))
  {
    SortIsStable(fs, Order(priority), key);
  }

  lemma {:induction false} FilterInOrder(fs: seq<Finding>, order: seq<Kind>, keep: Finding -> seq<Finding>)
    requires InOrder(fs, order) && forall f :: keep(f) == [] || keep(f) == [f]
    ensures InOrder(Gather(fs, keep), order)
  {
    if fs != [] {
      FilterInOrder(Front(fs), order, keep);
      var front := Gather(Front(fs), keep);
      assert keep(Last(fs)) == [] || keep(Last(fs)) == [Last(fs)];
      forall i | 0 <= i < |front| ensures RanksBefore(order, front[i], Last(fs)) {
        GatherMember(Front(fs), keep, front[i]);
        var k :| 0 <= k < |fs| - 1 && front[i] in keep(Front(fs)[k]);
        assert fs[k] == front[i];
      }
    }
  }

  lemma TakenFirst(fs: seq<Finding>, n: nat, order: seq<Kind>, f: Finding, h: Finding)
    requires InOrder(fs, order) && f in Take(fs, n) && h in fs && h !in Take(fs, n)
    ensures RanksBefore(order, f, h)
  {
    var i :| 0 <= i < |Take(fs, n)| && fs[i] == f;
    var j :| 0 <= j < |fs| && fs[j] == h;
    forall k | 0 <= k < |Take(fs, n)| ensures fs[k] in Take(fs, n) {
      assert Take(fs, n)[k] == fs[k];
    }
  }

  lemma OrderedParts(cfg: Config, snap: Snapshot, issues: seq<Issue>)
    ensures InOrder(Gather(OrderedNew(cfg, snap, issues), IfOp), Order(cfg.priority))
    ensures InOrder(Gather(OrderedNew(cfg, snap, issues), IfNotOp), Order(cfg.priority))
  {
    PrioritizeOrders(NewOnes(Findings(cfg, snap), issues, StillOpen(cfg, snap, issues)), cfg.priority);
    FilterInOrder(OrderedNew(cfg, snap, issues), Order(cfg.priority), IfOp);
    FilterInOrder(OrderedNew(cfg, snap, issues), Order(cfg.priority), IfNotOp);
  }

  lemma FirstOfSort(ordered: seq<Finding>, filed: seq<Finding>, n: nat, order: seq<Kind>,
                    keep: Finding -> seq<Finding>, f: Finding, h: Finding)
    requires InOrder(Gather(ordered, keep), order) && Gather(filed, keep) == Take(Gather(ordered, keep), n)
    requires keep(f) == [f] && keep(h) == [h] && f in filed && h in Overflow(ordered, filed)
    requires forall x :: keep(x) == [] || keep(x) == [x]
    ensures RanksBefore(order, f, h)
  {
    OverflowMember(ordered, filed, h);
    GatherMember(filed, keep, f);
    GatherMember(filed, keep, h);
    GatherMember(ordered, keep, h);
    var i :| 0 <= i < |filed| && filed[i] == f;
    assert f in keep(filed[i]);
    var j :| 0 <= j < |ordered| && ordered[j] == h;
    assert h in keep(ordered[j]);
    TakenFirst(Gather(ordered, keep), n, order, f, h);
  }

  lemma OpsSplit(cfg: Config, snap: Snapshot, issues: seq<Issue>)
    ensures Gather(Filed(cfg, snap, issues), IfOp) == Take(Gather(OrderedNew(cfg, snap, issues), IfOp), cfg.maxPerRun)
  {
    FiledSplits(cfg, snap, issues);
  }

  lemma OpsWorstFirst(cfg: Config, snap: Snapshot, issues: seq<Issue>, f: Finding, h: Finding)
    requires f.OpFinding? && h.OpFinding? && f in Filed(cfg, snap, issues)
    requires h in Overflow(OrderedNew(cfg, snap, issues), Filed(cfg, snap, issues))
    ensures RanksBefore(Order(cfg.priority), f, h)
  {
    OpsSplit(cfg, snap, issues);
    OrderedParts(cfg, snap, issues);
    FirstOfSort(OrderedNew(cfg, snap, issues), Filed(cfg, snap, issues), cfg.maxPerRun, Order(cfg.priority),
                IfOp, f, h);
  }

  lemma RestWorstFirst(cfg: Config, snap: Snapshot, issues: seq<Issue>, f: Finding, h: Finding)
    requires !f.OpFinding? && !h.OpFinding? && f in Filed(cfg, snap, issues)
    requires h in Overflow(OrderedNew(cfg, snap, issues), Filed(cfg, snap, issues))
    ensures RanksBefore(Order(cfg.priority), f, h)
  {
    var ordered := OrderedNew(cfg, snap, issues);
    var slots := RestSlots(|Take(Gather(ordered, IfOp), cfg.maxPerRun)|, |StillOpen(cfg, snap, issues)|, cfg);
    FiledSplits(cfg, snap, issues);
    OrderedParts(cfg, snap, issues);
    FirstOfSort(ordered, Filed(cfg, snap, issues), slots, Order(cfg.priority), IfNotOp, f, h);
  }

  /**
    Among Argo findings, and among the others, none that is filed stands behind one left out:
    not in the order of kinds, and on a level not in the text of its key.
   */
  lemma WorstFirst(cfg: Config, snap: Snapshot, issues: seq<Issue>, order: seq<Kind>, f: Finding, h: Finding)
    requires OrderIs(cfg.priority, order) && f.OpFinding? == h.OpFinding?
    requires f in Filed(cfg, snap, issues)
    requires h in Overflow(OrderedNew(cfg, snap, issues), Filed(cfg, snap, issues))
    ensures MayPrecede(order, f, h)
  {
    if f.OpFinding? {
      OpsWorstFirst(cfg, snap, issues, f, h);
    } else {
      RestWorstFirst(cfg, snap, issues, f, h);
    }
    RankExact(order, f, h);
  }
}
