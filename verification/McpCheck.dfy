/**
  The check of the committed tool list against the specification: what it reports, when it
  writes, and that writing converges.
 */
module McpCheck {
  import opened Common
  import opened McpOrder
  import opened McpTools
  import opened Sorting
  import opened TopRanked

  datatype Status = InSync | Reconciled | Drift | Violating | NoSurface

  datatype Report = Report(
    status: Status, violations: seq<Violation>, needsAgent: bool, expected: Option<seq<Tool>>, wrote: bool)

  /** What the manifest's gateway specification turns out to be. */
  datatype Spec =
    | Undeclared(hasBlock: bool)
    | Missing
    | Unreadable
    | Operations(ops: seq<Operation>)

  predicate Undocumented(op: Operation) {
    op.summary == "" && op.description == ""
  }

  predicate SomeUndocumented(selected: seq<Operation>) {
    exists i :: 0 <= i < |selected| && Undocumented(selected[i])
  }

  function Violations(ops: seq<Operation>, irreversible: seq<string>, policy: Policy): seq<Violation> {
    BoundViolations(|Surface(ops, policy)|, |Eligible(ops, policy)|, policy)
    + GuardViolations(irreversible, Surface(ops, policy))
  }

  function Judged(ops: seq<Operation>, irreversible: seq<string>, policy: Policy,
                  committed: Option<seq<Tool>>, write: bool): Report
  {
    Verdict(Some(ToolList(Surface(ops, policy))), Violations(ops, irreversible, policy),
            SomeUndocumented(Surface(ops, policy)), committed, write)
  }

  function Verdict(expected: Option<seq<Tool>>, violations: seq<Violation>, agent: bool,
                   committed: Option<seq<Tool>>, write: bool): Report
  {
    if violations != [] then Report(Violating, violations, agent, expected, false)
    else if committed == expected then Report(InSync, [], agent, expected, false)
    else if write then Report(Reconciled, [], agent, expected, true)
    else Report(Drift, [], agent, expected, false)
  }

  function ReportOf(spec: Spec, irreversible: seq<string>, policy: Policy,
                    committed: Option<seq<Tool>>, write: bool): Report
  {
    match spec
    case Undeclared(hasBlock) => Report(NoSurface, [], hasBlock, None, false)
    case Missing => Report(Violating, [SpecMissing], false, None, false)
    case Unreadable => Report(Violating, [SpecUnreadable], false, None, false)
    case Operations(ops) =>
      if Eligible(ops, policy) == [] then Report(NoSurface, [], true, None, false)
      else Judged(ops, irreversible, policy, committed, write)
  }

  /** The committed list; `None` stands for a file that is missing or holds no tool list. */
  class ToolManifest {
    var tools: Option<seq<Tool>>

    constructor (tools: Option<seq<Tool>>)
      ensures this.tools == tools
    {
      this.tools := tools;
    }

    method Check(spec: Spec, irreversible: seq<string>, policy: Policy, write: bool) returns (result: Report)
      modifies this
      ensures result == ReportOf(spec, irreversible, policy, old(tools), write)
      ensures tools == if result.status == Reconciled then result.expected else old(tools)
    {
      result := Report(InSync, [], false, None, false);
      match spec
      case Undeclared(hasBlock) =>
        result := result.(status := NoSurface, needsAgent := hasBlock);
        return;
      case Missing =>
        result := result.(status := Violating, violations := [SpecMissing]);
        return;
      case Unreadable =>
        result := result.(status := Violating, violations := [SpecUnreadable]);
        return;
      case Operations(ops) =>
        var eligible := Eligible(ops, policy);
        if eligible == [] {
          result := result.(status := NoSurface, needsAgent := true);
          return;
        }
        result := Judge(ops, irreversible, policy, write);
    }

    method Judge(ops: seq<Operation>, irreversible: seq<string>, policy: Policy, write: bool) returns (result: Report)
      modifies this
      ensures result == Judged(ops, irreversible, policy, old(tools), write)
      ensures tools == if result.status == Reconciled then result.expected else old(tools)
    {
      result := Report(InSync, [], false, None, false);
      var selected := Surface(ops, policy);
      var outside := BoundViolations(|selected|, |Eligible(ops, policy)|, policy);
      result := result.(violations := outside);
      var unguarded := CheckGuards(irreversible, selected);
      result := result.(violations := result.violations + unguarded);
      if SomeUndocumented(selected) {
        result := result.(needsAgent := true);
      }
      result := result.(expected := Some(ToolList(selected)));
      if result.violations != [] {
        result := result.(status := Violating);
        return;
      }
      if tools == result.expected {
        return;
      }
      if write {
        tools := result.expected;
        result := result.(wrote := true, status := Reconciled);
      } else {
        result := result.(status := Drift);
      }
    }
  }

  method CheckGuards(declared: seq<string>, selected: seq<Operation>) returns (found: seq<Violation>)
    ensures found == GuardViolations(declared, selected)
  {
    var byName: map<string, Operation> := map[];
    for i := 0 to |selected|
      invariant byName == ByName(selected[..i])
    {
      assert Front(selected[..i + 1]) == selected[..i];
      byName := byName[ToolName(selected[i]) := selected[i]];
    }
    assert selected[..|selected|] == selected;
    found := [];
    for i := 0 to |declared|
      invariant found == Gather(declared[..i], GuardViolation(byName))
    {
      GatherNext(declared, i, GuardViolation(byName));
      var name := declared[i];
      if name !in byName {
        found := found + [NotSelected(name)];
      } else if !Mutates(byName[name]) {
        found := found + [SafeRead(name)];
      }
    }
    assert declared[..|declared|] == declared;
  }

  // ---- Convergence ----

  /** After a reconciling write a second check finds the list in sync, with or without writing. */
  lemma WriteConverges(spec: Spec, irreversible: seq<string>, policy: Policy, committed: Option<seq<Tool>>, again: bool)
    requires ReportOf(spec, irreversible, policy, committed, true).status == Reconciled
    ensures var first := ReportOf(spec, irreversible, policy, committed, true);
            && committed != first.expected
            && ReportOf(spec, irreversible, policy, first.expected, again)
               == first.(status := InSync, wrote := false)
  {
    var surface := Surface(spec.ops, policy);
    VerdictConverges(Some(ToolList(surface)), Violations(spec.ops, irreversible, policy), SomeUndocumented(surface),
                     committed, again);
  }

  lemma VerdictConverges(expected: Option<seq<Tool>>, violations: seq<Violation>, agent: bool,
                         committed: Option<seq<Tool>>, again: bool)
    requires Verdict(expected, violations, agent, committed, true).status == Reconciled
    ensures var first := Verdict(expected, violations, agent, committed, true);
            && committed != first.expected && first.expected == expected
            && Verdict(expected, violations, agent, expected, again) == first.(status := InSync, wrote := false)
  {
  }

  lemma ViolationsPermute(ops: seq<Operation>, reordered: seq<Operation>, irreversible: seq<string>, policy: Policy)
    requires multiset(ops) == multiset(reordered) && NamesApart(ops) && !TieAtCap(ops, policy)
    ensures Violations(ops, irreversible, policy) == Violations(reordered, irreversible, policy)
  {
    SurfacePermutes(ops, reordered, policy);
    SameSize(Surface(ops, policy), Surface(reordered, policy));
    FilterPermutes(ops, reordered, EligibleBy(policy));
    SameSize(Eligible(ops, policy), Eligible(reordered, policy));
    SurfaceMembers(ops, policy);
    ByNamePermutes(Surface(ops, policy), Surface(reordered, policy));
  }

  lemma UndocumentedPermutes(a: seq<Operation>, b: seq<Operation>)
    requires multiset(a) == multiset(b) && SomeUndocumented(a)
    ensures SomeUndocumented(b)
  {
    var i :| 0 <= i < |a| && Undocumented(a[i]);
    assert a[i] in multiset(b);
    assert a[i] in b;
  }

  lemma AgentPermutes(ops: seq<Operation>, reordered: seq<Operation>, policy: Policy)
    requires multiset(ops) == multiset(reordered) && !TieAtCap(ops, policy)
    ensures SomeUndocumented(Surface(ops, policy)) == SomeUndocumented(Surface(reordered, policy))
  {
    SurfacePermutes(ops, reordered, policy);
    var a, b := Surface(ops, policy), Surface(reordered, policy);
    if SomeUndocumented(a) {
      UndocumentedPermutes(a, b);
    }
    if SomeUndocumented(b) {
      UndocumentedPermutes(b, a);
    }
  }

  /** One report for every order of the specification's operations. */
  ghost predicate OneReport(ops: seq<Operation>, irreversible: seq<string>, policy: Policy,
                            committed: Option<seq<Tool>>, write: bool)
  {
    forall reordered :: multiset(reordered) == multiset(ops) ==>
      Judged(reordered, irreversible, policy, committed, write) == Judged(ops, irreversible, policy, committed, write)
  }

  lemma ReportPermutes(ops: seq<Operation>, reordered: seq<Operation>, irreversible: seq<string>, policy: Policy,
                       committed: Option<seq<Tool>>, write: bool)
    requires multiset(ops) == multiset(reordered) && NamesApart(ops) && !TieAtCap(ops, policy)
    ensures Judged(reordered, irreversible, policy, committed, write)
            == Judged(ops, irreversible, policy, committed, write)
  {
    ToolsAreCanonical(ops, reordered, policy);
    ViolationsPermute(ops, reordered, irreversible, policy);
    AgentPermutes(ops, reordered, policy);
  }

  lemma VerdictNamesTools(expected: Option<seq<Tool>>, violations: seq<Violation>, agent: bool,
                          committed: Option<seq<Tool>>, write: bool)
    ensures Verdict(expected, violations, agent, committed, write).expected == expected
  {
  }

  lemma ReportNamesTools(ops: seq<Operation>, irreversible: seq<string>, policy: Policy,
                         committed: Option<seq<Tool>>, write: bool)
    ensures Judged(ops, irreversible, policy, committed, write).expected == Some(ToolList(Surface(ops, policy)))
  {
    VerdictNamesTools(Some(ToolList(Surface(ops, policy))), Violations(ops, irreversible, policy),
                      SomeUndocumented(Surface(ops, policy)), committed, write);
  }

  lemma OneReportOneList(ops: seq<Operation>, irreversible: seq<string>, policy: Policy,
                         committed: Option<seq<Tool>>, write: bool)
    requires OneReport(ops, irreversible, policy, committed, write)
    ensures OrderIrrelevant(ops, policy)
  {
    forall r | multiset(r) == multiset(ops)
      ensures ToolList(Surface(r, policy)) == ToolList(Surface(ops, policy))
    {
      ReportNamesTools(ops, irreversible, policy, committed, write);
      ReportNamesTools(r, irreversible, policy, committed, write);
    }
  }

  /** Reordering the operations changes nothing in the report exactly when no tie sits at the cap. */
  lemma CheckIgnoresOrder(ops: seq<Operation>, irreversible: seq<string>, policy: Policy,
                          committed: Option<seq<Tool>>, write: bool)
    requires NamesApart(ops)
    ensures OneReport(ops, irreversible, policy, committed, write) <==> !TieAtCap(ops, policy)
  {
    ToolsCanonicalExactly(ops, policy);
    if TieAtCap(ops, policy) {
      if OneReport(ops, irreversible, policy, committed, write) {
        OneReportOneList(ops, irreversible, policy, committed, write);
      }
    } else {
      forall r | multiset(r) == multiset(ops)
        ensures Judged(r, irreversible, policy, committed, write) == Judged(ops, irreversible, policy, committed, write)
      {
        ReportPermutes(ops, r, irreversible, policy, committed, write);
      }
    }
  }

  lemma {:induction false} ByNameExact(selected: seq<Operation>, name: string)
    ensures name in ByName(selected) <==> exists i :: 0 <= i < |selected| && ToolName(selected[i]) == name
    ensures name in ByName(selected) ==> ByName(selected)[name] in selected && ToolName(ByName(selected)[name]) == name
  {
    if selected != [] {
      ByNameExact(Front(selected), name);
      assert selected == Front(selected) + [Last(selected)];
      if ToolName(Last(selected)) != name {
        forall i | 0 <= i < |selected| && ToolName(selected[i]) == name
          ensures i < |selected| - 1 && Front(selected)[i] == selected[i]
        {
        }
      }
    }
  }

  lemma ByNamePermutes(a: seq<Operation>, b: seq<Operation>)
    requires multiset(a) == multiset(b) && NamesApart(a)
    ensures ByName(a) == ByName(b)
  {
    forall x ensures x in a <==> x in b {
      assert x in a <==> x in multiset(a);
      assert x in b <==> x in multiset(b);
    }
    forall name ensures name in ByName(a) <==> name in ByName(b) {
      ByNameExact(a, name);
      ByNameExact(b, name);
      if i :| 0 <= i < |a| && ToolName(a[i]) == name {
        assert a[i] in b;
      }
      if i :| 0 <= i < |b| && ToolName(b[i]) == name {
        assert b[i] in a;
      }
    }
    forall name | name in ByName(a) ensures ByName(a)[name] == ByName(b)[name] {
      ByNameExact(a, name);
      ByNameExact(b, name);
    }
  }

  // ---- What a report past the bounds guarantees ----

  predicate WithinBounds(count: nat, eligible: nat, policy: Policy) {
    Min(eligible, policy.minTools) <= count <= policy.maxTools
  }

  lemma BoundsExact(count: nat, eligible: nat, policy: Policy)
    requires eligible > 0
    ensures BoundViolations(count, eligible, policy) == [] <==> WithinBounds(count, eligible, policy)
    ensures OverCap(count, policy.maxTools) in BoundViolations(count, eligible, policy) <==> count > policy.maxTools
    ensures forall floor :: UnderFloor(count, floor) in BoundViolations(count, eligible, policy)
              <==> count < floor && (floor == eligible <= policy.minTools || floor == policy.minTools <= eligible)
  {
  }

  /** Ranked trimming always meets a cap that is not negative. */
  lemma RankedMeetsCap(ops: seq<Operation>, policy: Policy)
    requires policy.ranked && policy.maxTools >= 0
    ensures |Surface(ops, policy)| <= policy.maxTools
  {
  }

  predicate Past(status: Status) {
    status in {InSync, Reconciled, Drift}
  }

  lemma {:induction false} EachSize<A, B>(s: seq<A>, f: A -> B)
    ensures |Each(s, f)| == |s|
    ensures forall i :: 0 <= i < |s| ==> Each(s, f)[i] == f(s[i])
  {
    if s != [] {
      EachSize(Front(s), f);
    }
  }

  lemma ToolsComeFrom(selected: seq<Operation>, tool: Tool)
    requires tool in ToolList(selected)
    ensures exists op :: op in selected && tool == Project(op)
  {
    var tools := Each(selected, Project);
    assert tool in multiset(ToolList(selected));
    assert tool in tools;
    EachSize(selected, Project);
    var i :| 0 <= i < |tools| && tools[i] == tool;
    assert selected[i] in selected;
  }

  lemma PastVerdict(expected: Option<seq<Tool>>, violations: seq<Violation>, agent: bool,
                    committed: Option<seq<Tool>>, write: bool)
    ensures Past(Verdict(expected, violations, agent, committed, write).status) <==> violations == []
  {
  }

  lemma PastBoundsIsOperations(spec: Spec, irreversible: seq<string>, policy: Policy, committed: Option<seq<Tool>>,
                               write: bool)
    ensures var r := ReportOf(spec, irreversible, policy, committed, write);
            Past(r.status) <==>
            spec.Operations? && Eligible(spec.ops, policy) != [] && Violations(spec.ops, irreversible, policy) == []
  {
    if spec.Operations? {
      PastVerdict(Some(ToolList(Surface(spec.ops, policy))), Violations(spec.ops, irreversible, policy),
                  SomeUndocumented(Surface(spec.ops, policy)), committed, write);
    }
  }

  lemma SurfaceComesFrom(ops: seq<Operation>, policy: Policy, tool: Tool)
    requires tool in ToolList(Surface(ops, policy))
    ensures exists op :: op in ops && !Excluded(op, policy) && tool == Project(op)
  {
    ToolsComeFrom(Surface(ops, policy), tool);
    var op :| op in Surface(ops, policy) && tool == Project(op);
    SurfaceMembers(ops, policy);
  }

  lemma SurfaceInBounds(ops: seq<Operation>, irreversible: seq<string>, policy: Policy)
    requires Eligible(ops, policy) != [] && Violations(ops, irreversible, policy) == []
    ensures WithinBounds(|ToolList(Surface(ops, policy))|, |Eligible(ops, policy)|, policy)
  {
    BoundsExact(|Surface(ops, policy)|, |Eligible(ops, policy)|, policy);
    EachSize(Surface(ops, policy), Project);
  }

  /** Its tools all come from eligible operations, within the bounds. */
  lemma PastBounds(spec: Spec, irreversible: seq<string>, policy: Policy, committed: Option<seq<Tool>>, write: bool)
    requires Past(ReportOf(spec, irreversible, policy, committed, write).status)
    ensures var r := ReportOf(spec, irreversible, policy, committed, write);
            && spec.Operations? && r.expected == Some(ToolList(Surface(spec.ops, policy)))
            && WithinBounds(|r.expected.value|, |Eligible(spec.ops, policy)|, policy)
            && forall tool :: tool in r.expected.value ==>
                 exists op :: op in spec.ops && !Excluded(op, policy) && tool == Project(op)
  {
    PastBoundsIsOperations(spec, irreversible, policy, committed, write);
    SurfaceInBounds(spec.ops, irreversible, policy);
    forall tool | tool in ToolList(Surface(spec.ops, policy))
      ensures exists op :: op in spec.ops && !Excluded(op, policy) && tool == Project(op)
    {
      SurfaceComesFrom(spec.ops, policy, tool);
    }
  }

  /** No guard violation means every name marked irreversible is a selected tool that mutates. */
  lemma GuardsExact(declared: seq<string>, selected: seq<Operation>)
    requires NamesApart(selected)
    ensures GuardViolations(declared, selected) == []
            <==> forall i :: 0 <= i < |declared| ==>
                   exists op :: op in selected && ToolName(op) == declared[i] && Mutates(op)
  {
    var byName := ByName(selected);
    forall i | 0 <= i < |declared|
      ensures GuardViolation(byName)(declared[i]) == []
              <==> exists op :: op in selected && ToolName(op) == declared[i] && Mutates(op)
    {
      ByNameExact(selected, declared[i]);
      if op :| op in selected && ToolName(op) == declared[i] && Mutates(op) {
        var k :| 0 <= k < |selected| && selected[k] == op;
        assert ToolName(selected[k]) == declared[i];
      }
    }
    NothingGathered(declared, GuardViolation(byName));
  }
}
