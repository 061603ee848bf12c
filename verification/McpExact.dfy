/**
  Which operations become tools, which of them ranked trimming keeps, and what the tools and the
  report say, in the fields of the operations and of the policy.
 */
module McpExact {
  import opened Common
  import opened Sorting
  import opened TextLines
  import opened TopRanked
  import opened McpTools
  import opened McpOrder
  import opened McpCheck

  // ---- Selection ----

  predicate Allowed(op: Operation, policy: Policy) {
    && !(policy.deprecated && op.deprecated)
    && (op.id.Some? && op.id.value != "" ==> op.id.value !in policy.ids)
    && (forall tag :: tag in op.tags ==> tag !in policy.tags)
    && op.path !in policy.paths
  }

  predicate SomeOptsIn(ops: seq<Operation>, policy: Policy) {
    exists i :: 0 <= i < |ops| && Allowed(ops[i], policy) && ops[i].expose == Some(true)
  }

  /** An allowed operation that opts in; if none does, a read that does not opt out. */
  predicate Chosen(op: Operation, ops: seq<Operation>, policy: Policy) {
    && Allowed(op, policy)
    && if SomeOptsIn(ops, policy) then op.expose == Some(true) else op.verb == "get" && op.expose != Some(false)
  }

  lemma AllowedExact(op: Operation, policy: Policy)
    ensures Excluded(op, policy) <==> !Allowed(op, policy)
  {
    if tag :| tag in op.tags && tag in policy.tags {
      assert tag in op.tags * policy.tags;
    }
    if op.tags * policy.tags != {} {
      var tag :| tag in op.tags * policy.tags;
      assert tag in op.tags && tag in policy.tags;
    }
  }

  lemma EligibleExact(ops: seq<Operation>, policy: Policy, op: Operation)
    ensures multiset(Eligible(ops, policy))[op] == if Allowed(op, policy) then multiset(ops)[op] else 0
  {
    FilterCounts(ops, EligibleBy(policy), op);
    AllowedExact(op, policy);
  }

  lemma OptInExact(ops: seq<Operation>, policy: Policy)
    ensures Gather(Eligible(ops, policy), Keep(OptedIn())) != [] <==> SomeOptsIn(ops, policy)
  {
    var eligible := Eligible(ops, policy);
    var chosen := Gather(eligible, Keep(OptedIn()));
    FilterMembers(ops, EligibleBy(policy));
    FilterMembers(eligible, OptedIn());
    if chosen != [] {
      assert chosen[0] in chosen;
      AllowedExact(chosen[0], policy);
      var i :| 0 <= i < |ops| && ops[i] == chosen[0];
    }
    if i :| 0 <= i < |ops| && Allowed(ops[i], policy) && ops[i].expose == Some(true) {
      AllowedExact(ops[i], policy);
      assert ops[i] in eligible;
      assert ops[i] in chosen;
    }
  }

  /** The selection holds each chosen operation as often as the specification does, and nothing else. */
  lemma SelectedExact(ops: seq<Operation>, policy: Policy, op: Operation)
    ensures multiset(Selected(Eligible(ops, policy)))[op] == if Chosen(op, ops, policy) then multiset(ops)[op] else 0
  {
    OptInExact(ops, policy);
    EligibleExact(ops, policy, op);
    FilterCounts(Eligible(ops, policy), OptedIn(), op);
    FilterCounts(Eligible(ops, policy), ReadByDefault(), op);
  }

  // ---- Ranked trimming ----

  function PriorityNumber(op: Operation): int {
    match op.priority
    case Some(p) => p
    case None => 1_000_000_000
  }

  /** By priority number, one that is missing counting as a thousand million; then by path; then by method. */
  predicate Ranks(a: Operation, b: Operation) {
    || PriorityNumber(a) < PriorityNumber(b)
    || (PriorityNumber(a) == PriorityNumber(b) && a.path != b.path && CodePointLe(a.path, b.path))
    || (PriorityNumber(a) == PriorityNumber(b) && a.path == b.path && CodePointLe(a.verb, b.verb))
  }

  lemma RankExact(a: Operation, b: Operation)
    ensures RankLe(a, b) <==> Ranks(a, b)
  {
    StrLeExact(a.path, b.path);
    StrLeExact(a.verb, b.verb);
  }

  /** How many a slice up to `max` keeps: a negative bound counts from the end. */
  function KeptOf(size: nat, max: int): nat {
    if max >= size then size else if max >= 0 then max else if size + max >= 0 then size + max else 0
  }

  predicate RanksFirst(kept: seq<Operation>, dropped: seq<Operation>) {
    && (forall i, j :: 0 <= i < j < |kept| ==> Ranks(kept[i], kept[j]))
    && (forall i, j :: 0 <= i < |kept| && 0 <= j < |dropped| ==> Ranks(kept[i], dropped[j]))
  }

  lemma CutRanks(all: seq<Operation>, n: nat)
    requires Sorted(all, RankLe) && n <= |all|
    ensures RanksFirst(all[..n], all[n..])
  {
    forall i, j | 0 <= i < j < |all| ensures Ranks(all[i], all[j]) {
      RankExact(all[i], all[j]);
    }
  }

  lemma CutKeeps<T>(all: seq<T>, n: nat)
    requires n <= |all|
    ensures multiset(all[..n]) + multiset(all[n..]) == multiset(all)
  {
    assert all == all[..n] + all[n..];
  }

  lemma TrimIsCut(selected: seq<Operation>, policy: Policy)
    ensures Trimmed(selected, policy) == Sort(selected, RankLe)[..KeptOf(|selected|, policy.maxTools)]
  {
  }

  lemma SortedByRank(selected: seq<Operation>)
    ensures Sorted(Sort(selected, RankLe), RankLe)
  {
    RankIsPreorder();
    SortSorted(selected, RankLe);
  }

  lemma TrimExact(selected: seq<Operation>, policy: Policy) returns (dropped: seq<Operation>)
    ensures |Trimmed(selected, policy)| == KeptOf(|selected|, policy.maxTools)
    ensures multiset(Trimmed(selected, policy)) + multiset(dropped) == multiset(selected)
    ensures RanksFirst(Trimmed(selected, policy), dropped)
  {
    var n := KeptOf(|selected|, policy.maxTools);
    TrimIsCut(selected, policy);
    SortedByRank(selected);
    CutRanks(Sort(selected, RankLe), n);
    CutKeeps(Sort(selected, RankLe), n);
    dropped := Sort(selected, RankLe)[n..];
  }

  /**
    What becomes a tool: the whole selection, unless it is over the cap and ranked; then the
    ones that rank first, as many as the cap allows.
   */
  lemma SurfaceExact(ops: seq<Operation>, policy: Policy) returns (dropped: seq<Operation>)
    ensures var selected, surface := Selected(Eligible(ops, policy)), Surface(ops, policy);
            && multiset(surface) + multiset(dropped) == multiset(selected)
            && (|selected| <= policy.maxTools || !policy.ranked ==> surface == selected)
            && (|selected| > policy.maxTools && policy.ranked ==>
                  |surface| == KeptOf(|selected|, policy.maxTools) && RanksFirst(surface, dropped))
  {
    var selected := Selected(Eligible(ops, policy));
    if |selected| > policy.maxTools && policy.ranked {
      dropped := TrimExact(selected, policy);
    } else {
      dropped := [];
    }
  }

  // ---- The tools ----

  /** The path between its leading and trailing slashes. */
  predicate TrimmedAt(path: string, i: nat, j: nat) {
    && i <= j <= |path| && (forall k :: 0 <= k < |path| && !(i <= k < j) ==> path[k] == '/')
    && (i < j ==> path[i] != '/' && path[j - 1] != '/')
  }

  lemma {:induction false} TrimSlashesExact(path: string) returns (i: nat, j: nat)
    ensures TrimmedAt(path, i, j) && TrimSlashes(path) == path[i..j]
    decreases |path|
  {
    if path != "" && path[0] == '/' {
      i, j := TrimSlashesExact(path[1..]);
      forall k | 0 <= k < |path| && !(i + 1 <= k < j + 1) ensures path[k] == '/' {
        assert k > 0 ==> path[k] == path[1..][k - 1];
      }
      i, j := i + 1, j + 1;
    } else if path != "" && Last(path) == '/' {
      i, j := TrimSlashesExact(Front(path));
      forall k | 0 <= k < |path| && !(i <= k < j) ensures path[k] == '/' {
        assert k < |path| - 1 ==> path[k] == Front(path)[k];
      }
    } else {
      i, j := 0, |path|;
    }
  }

  /** A slash becomes an underscore, a brace nothing, any other character stays. */
  function Spelled(): char -> string {
    (c: char) =>
      match c
      case '/' => "_"
      case '{' => ""
      case '}' => ""
      case _ => [c]
  }

  lemma {:induction false} SlugExact(s: string)
    ensures Slug(s) == Gather(s, Spelled())
  {
    if s != "" {
      SlugExact(s[1..]);
      assert s == [s[0]] + s[1..];
      GatherConcat([s[0]], s[1..], Spelled());
      GatherOne(s[0], Spelled());
    }
  }

  /** The name of a tool: the id of its operation, or its method with its spelled-out path. */
  lemma ToolNameExact(op: Operation, i: nat, j: nat)
    requires TrimmedAt(op.path, i, j)
    ensures op.id.Some? && op.id.value != "" ==> ToolName(op) == op.id.value
    ensures op.id.None? || op.id.value == "" ==>
              var slug := Gather(op.path[i..j], Spelled());
              ToolName(op) == if slug == "" then op.verb else op.verb + "_" + slug
  {
    var k, m := TrimSlashesExact(op.path);
    SlugExact(op.path[i..j]);
    SlugExact(op.path[k..m]);
    OneTrim(op.path, i, j, k, m);
  }

  lemma OneTrim(path: string, i: nat, j: nat, k: nat, m: nat)
    requires TrimmedAt(path, i, j) && TrimmedAt(path, k, m)
    ensures path[i..j] == path[k..m]
  {
    if i < j {
      assert !(i < k) && !(j - 1 >= m);
    }
    if k < m {
      assert !(k < i) && !(m - 1 >= j);
    }
  }

  /** The tools are those of the operations, with their names, texts and inputs, in the order of the names. */
  predicate IsToolOf(tool: Tool, op: Operation) {
    && tool.name == ToolName(op) && tool.input == op.input
    && tool.description == Strip(if op.summary == "" then op.description else op.summary)
    && (tool.mutates <==> op.verb != "get" && op.verb != "head")
  }

  lemma ToolOfMember(selected: seq<Operation>, tool: Tool, op: Operation)
    requires op in selected && IsToolOf(tool, op)
    ensures tool in ToolList(selected)
  {
    var each := Each(selected, Project);
    EachSize(selected, Project);
    var i :| 0 <= i < |selected| && selected[i] == op;
    assert each[i] == tool;
    assert tool in multiset(each);
    assert tool in multiset(ToolList(selected));
  }

  lemma ToolListExact(selected: seq<Operation>, tool: Tool)
    ensures tool in ToolList(selected) <==> exists op :: op in selected && IsToolOf(tool, op)
    ensures |ToolList(selected)| == |selected|
    ensures forall i, j :: 0 <= i < j < |ToolList(selected)| ==>
              CodePointLe(ToolList(selected)[i].name, ToolList(selected)[j].name)
  {
    var tools := ToolList(selected);
    EachSize(selected, Project);
    if tool in tools {
      ToolsComeFrom(selected, tool);
    }
    if op :| op in selected && IsToolOf(tool, op) {
      ToolOfMember(selected, tool, op);
    }
    ToolListIsSorted(selected);
    forall i, j | 0 <= i < j < |tools| ensures CodePointLe(tools[i].name, tools[j].name) {
      StrLeExact(tools[i].name, tools[j].name);
    }
  }

  // ---- Guards and the report ----

  lemma NamedOnce(selected: seq<Operation>, op: Operation)
    requires NamesApart(selected) && op in selected
    ensures ToolName(op) in ByName(selected) && ByName(selected)[ToolName(op)] == op
  {
    ByNameExact(selected, ToolName(op));
    var k :| 0 <= k < |selected| && selected[k] == op;
    assert ToolName(selected[k]) == ToolName(op);
  }

  /** A guard is violated by each declared name that no selected operation has. */
  lemma MissingExact(declared: seq<string>, selected: seq<Operation>, name: string)
    ensures NotSelected(name) in GuardViolations(declared, selected)
            <==> name in declared && forall op :: op in selected ==> ToolName(op) != name
  {
    var piece := GuardViolation(ByName(selected));
    ByNameExact(selected, name);
    GatherMember(declared, piece, NotSelected(name));
    assert NotSelected(name) in piece(name) <==> name !in ByName(selected);
  }

  /** And by each that a selected operation has which only reads. */
  lemma ReadsExact(declared: seq<string>, selected: seq<Operation>, name: string)
    requires NamesApart(selected)
    ensures SafeRead(name) in GuardViolations(declared, selected)
            <==> name in declared && exists op :: op in selected && ToolName(op) == name && op.verb in {"get", "head"}
  {
    var byName := ByName(selected);
    var piece := GuardViolation(byName);
    ByNameExact(selected, name);
    GatherMember(declared, piece, SafeRead(name));
    assert SafeRead(name) in piece(name) <==> name in byName && byName[name].verb in {"get", "head"};
    forall op | op in selected && ToolName(op) == name ensures name in byName && byName[name] == op {
      NamedOnce(selected, op);
    }
  }

  /** The verdict on a specification that gives allowed operations. */
  predicate VerdictIs(r: Report, violations: seq<Violation>, tools: seq<Tool>, committed: Option<seq<Tool>>,
                      write: bool)
  {
    && r.violations == violations && r.expected == Some(tools)
    && (r.status == Violating <==> violations != [])
    && (r.status == InSync <==> violations == [] && committed == Some(tools))
    && (r.status == Reconciled <==> violations == [] && committed != Some(tools) && write)
    && (r.status == Drift <==> violations == [] && committed != Some(tools) && !write)
    && (r.wrote <==> r.status == Reconciled)
  }

  lemma VerdictTells(tools: seq<Tool>, violations: seq<Violation>, agent: bool, committed: Option<seq<Tool>>,
                     write: bool)
    ensures var r := Verdict(Some(tools), violations, agent, committed, write);
            VerdictIs(r, violations, tools, committed, write) && r.needsAgent == agent
  {
  }

  lemma NoneAllowed(ops: seq<Operation>, policy: Policy)
    ensures Eligible(ops, policy) == [] <==> forall op :: op in ops ==> !Allowed(op, policy)
  {
    var eligible := Eligible(ops, policy);
    FilterMembers(ops, EligibleBy(policy));
    forall op ensures op in eligible <==> op in ops && Allowed(op, policy) {
      AllowedExact(op, policy);
    }
    assert eligible != [] ==> eligible[0] in eligible;
  }

  lemma UndocumentedExact(surface: seq<Operation>)
    ensures SomeUndocumented(surface) <==> exists op :: op in surface && op.summary == "" && op.description == ""
  {
    if op :| op in surface && op.summary == "" && op.description == "" {
      var i :| 0 <= i < |surface| && surface[i] == op;
      assert Undocumented(surface[i]);
    }
  }

  lemma ReportExact(ops: seq<Operation>, irreversible: seq<string>, policy: Policy, committed: Option<seq<Tool>>,
                    write: bool)
    ensures var r := ReportOf(Operations(ops), irreversible, policy, committed, write);
            if forall op :: op in ops ==> !Allowed(op, policy) then r == Report(NoSurface, [], true, None, false)
            else
              && VerdictIs(r, Violations(ops, irreversible, policy), ToolList(Surface(ops, policy)), committed, write)
              && (r.needsAgent <==>
                    exists op :: op in Surface(ops, policy) && op.summary == "" && op.description == "")
  {
    var surface := Surface(ops, policy);
    NoneAllowed(ops, policy);
    UndocumentedExact(surface);
    VerdictTells(ToolList(surface), Violations(ops, irreversible, policy), SomeUndocumented(surface), committed, write);
  }
}
