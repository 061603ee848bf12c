/**
  Which operations of an API become tools: eligibility, selection, ranked trimming, the
  bounds, and the canonical tool list.
 */
module McpTools {
  import opened Common
  import opened Sorting
  import opened TextLines
  import opened TopRanked

  /** An operation, its method in lower case; `input` is the schema of its parameters. */
  datatype Operation = Operation(
    path: string, verb: string, id: Option<string>, summary: string, description: string,
    deprecated: bool, tags: set<string>, expose: Option<bool>, priority: Option<int>, input: string)

  /** `paths` are the paths that some glob of the policy matches. */
  datatype Policy = Policy(
    maxTools: int, minTools: int, ranked: bool,
    paths: set<string>, ids: set<string>, tags: set<string>, deprecated: bool)

  datatype Tool = Tool(name: string, description: string, input: string, mutates: bool)

  datatype Violation =
    | SpecMissing
    | SpecUnreadable
    | OverCap(count: nat, cap: int)
    | UnderFloor(count: nat, floor: int)
    | NotSelected(name: string)
    | SafeRead(name: string)

  // ---- Names ----

  function TrimSlashes(s: string): string
    decreases |s|
  {
    if s != "" && s[0] == '/' then TrimSlashes(s[1..])
    else if s != "" && Last(s) == '/' then TrimSlashes(Front(s))
    else s
  }

  /** Slashes inside become underscores, braces go. */
  function Slug(s: string): string {
    if s == "" then ""
    else (if s[0] == '/' then "_" else if s[0] in {'{', '}'} then "" else [s[0]]) + Slug(s[1..])
  }

  function ToolName(op: Operation): string {
    if op.id.Some? && op.id.value != "" then op.id.value
    else
      var slug := Slug(TrimSlashes(op.path));
      if slug != "" then op.verb + "_" + slug else op.verb
  }

  predicate SafeReading(op: Operation) {
    op.verb == "get"
  }

  predicate Mutates(op: Operation) {
    op.verb != "get" && op.verb != "head"
  }

  // ---- Selection ----

  predicate Excluded(op: Operation, policy: Policy) {
    || (policy.deprecated && op.deprecated)
    || (op.id.Some? && op.id.value != "" && op.id.value in policy.ids)
    || op.tags * policy.tags != {}
    || op.path in policy.paths
  }

  function EligibleBy(policy: Policy): Operation -> bool {
    (op: Operation) => !Excluded(op, policy)
  }

  function OptedIn(): Operation -> bool {
    (op: Operation) => op.expose == Some(true)
  }

  function ReadByDefault(): Operation -> bool {
    (op: Operation) => SafeReading(op) && op.expose != Some(false)
  }

  function Eligible(ops: seq<Operation>, policy: Policy): seq<Operation> {
    Gather(ops, Keep(EligibleBy(policy)))
  }

  /** The operations that opt in, or without any the safe reads that do not opt out. */
  function Selected(eligible: seq<Operation>): seq<Operation> {
    var chosen := Gather(eligible, Keep(OptedIn()));
    if chosen != [] then chosen else Gather(eligible, Keep(ReadByDefault()))
  }

  // ---- Ranked trimming ----

  function PriorityOf(op: Operation): int {
    if op.priority.Some? then op.priority.value else 1_000_000_000
  }

  predicate RankLe(a: Operation, b: Operation) {
    if PriorityOf(a) != PriorityOf(b) then PriorityOf(a) < PriorityOf(b)
    else if a.path != b.path then StrLe(a.path, b.path)
    else StrLe(a.verb, b.verb)
  }

  /** A slice up to `n`; a negative `n` counts from the end. */
  function UpTo<T>(s: seq<T>, n: int): seq<T> {
    s[..Max(0, Min(|s|, if n < 0 then |s| + n else n))]
  }

  function Trimmed(selected: seq<Operation>, policy: Policy): seq<Operation> {
    UpTo(Sort(selected, RankLe), policy.maxTools)
  }

  function Surface(ops: seq<Operation>, policy: Policy): seq<Operation> {
    var selected := Selected(Eligible(ops, policy));
    if |selected| > policy.maxTools && policy.ranked then Trimmed(selected, policy) else selected
  }

  lemma RankIsPreorder()
    ensures Preorder(RankLe)
  {
    StrPreorder();
    forall a, b ensures RankLe(a, b) || RankLe(b, a) {
      StrTotal(a.path, b.path);
    }
    forall a, b, c | RankLe(a, b) && RankLe(b, c) ensures RankLe(a, c) {
      RankTransitive(a, b, c);
    }
  }

  lemma RankTransitive(a: Operation, b: Operation, c: Operation)
    requires RankLe(a, b) && RankLe(b, c)
    ensures RankLe(a, c)
  {
    StrPreorder();
    if PriorityOf(a) == PriorityOf(b) == PriorityOf(c) {
      if a.path == c.path != b.path {
        StrTotal(a.path, b.path);
      } else if a.path != b.path && b.path != c.path {
        StrTrans(a.path, b.path, c.path);
      }
    }
  }

  /** Trimming keeps as many as the cap allows, and none that ranks after one it drops. */
  lemma TrimKeepsTheLeast(selected: seq<Operation>, policy: Policy)
    requires 0 <= policy.maxTools < |selected|
    ensures var kept, all := Trimmed(selected, policy), Sort(selected, RankLe);
            && |kept| == policy.maxTools
            && multiset(kept) + multiset(all[|kept|..]) == multiset(selected)
            && forall i, j :: 0 <= i < |kept| && |kept| <= j < |all| ==> RankLe(kept[i], all[j])
  {
    var all := Sort(selected, RankLe);
    RankIsPreorder();
    SortSorted(selected, RankLe);
    var n := policy.maxTools;
    assert all == all[..n] + all[n..];
  }

  // ---- Bounds ----

  function BoundViolations(count: nat, eligible: nat, policy: Policy): seq<Violation> {
    var floor := Min(eligible, policy.minTools);
    (if count > policy.maxTools then [OverCap(count, policy.maxTools)] else [])
    + (if eligible > 0 && count < floor then [UnderFloor(count, floor)] else [])
  }

  function ByName(selected: seq<Operation>): map<string, Operation> {
    if selected == [] then map[] else ByName(Front(selected))[ToolName(Last(selected)) := Last(selected)]
  }

  function GuardViolation(byName: map<string, Operation>): string -> seq<Violation> {
    (name: string) =>
      if name !in byName then [NotSelected(name)]
      else if !Mutates(byName[name]) then [SafeRead(name)]
      else []
  }

  function GuardViolations(declared: seq<string>, selected: seq<Operation>): seq<Violation> {
    Gather(declared, GuardViolation(ByName(selected)))
  }

  // ---- The tool list ----

  function Project(op: Operation): Tool {
    Tool(ToolName(op), Strip(if op.summary != "" then op.summary else op.description), op.input, Mutates(op))
  }

  function Each<A, B>(s: seq<A>, f: A -> B): seq<B> {
    if s == [] then [] else Each(Front(s), f) + [f(Last(s))]
  }

  predicate NameLe(a: Tool, b: Tool) {
    StrLe(a.name, b.name)
  }

  predicate OperationLe(a: Operation, b: Operation) {
    StrLe(ToolName(a), ToolName(b))
  }

  function ToolList(selected: seq<Operation>): seq<Tool> {
    Sort(Each(selected, Project), NameLe)
  }

  lemma {:induction false} EachInsert<A, B>(s: seq<A>, x: A, f: A -> B, le: (A, A) -> bool, leB: (B, B) -> bool)
    requires forall a, b :: a in s + [x] && b in s + [x] ==> (le(a, b) <==> leB(f(a), f(b)))
    ensures Insert(Each(s, f), f(x), leB) == Each(Insert(s, x, le), f)
  {
    if s != [] {
      var front, last := Front(s), Last(s);
      assert last in s + [x] && x in s + [x];
      if le(last, x) {
        Snoc(s, x);
      } else {
        EachInsert(front, x, f, le, leB);
        Snoc(Insert(front, x, le), last);
        assert Front(Each(s, f)) == Each(front, f);
      }
    } else {
      assert Front([x]) == [];
      assert Each([x], f) == [f(x)];
    }
  }

  /** Sorting commutes with a projection that the orders agree on. */
  lemma {:induction false} EachSort<A(!new), B>(s: seq<A>, f: A -> B, le: (A, A) -> bool, leB: (B, B) -> bool)
    requires forall a, b :: le(a, b) <==> leB(f(a), f(b))
    ensures Sort(Each(s, f), leB) == Each(Sort(s, le), f)
  {
    if s != [] {
      EachSort(Front(s), f, le, leB);
      EachInsert(Sort(Front(s), le), Last(s), f, le, leB);
      assert Front(Each(s, f)) == Each(Front(s), f) && Last(Each(s, f)) == f(Last(s));
    }
  }

  lemma OperationsPreorder()
    ensures Preorder(OperationLe)
  {
    StrPreorder();
  }

  /** The tools come in the order of their names. */
  lemma ToolListIsSorted(selected: seq<Operation>)
    ensures Sorted(ToolList(selected), NameLe)
  {
    StrPreorder();
    assert Preorder(NameLe);
    SortSorted(Each(selected, Project), NameLe);
  }

  // ---- Members ----

  lemma SelectedMembers(eligible: seq<Operation>)
    ensures forall x :: x in Selected(eligible) ==> x in eligible
  {
    FilterMembers(eligible, OptedIn());
    FilterMembers(eligible, ReadByDefault());
  }

  lemma ChosenAmong(ops: seq<Operation>, policy: Policy)
    ensures forall x :: x in Selected(Eligible(ops, policy)) ==> x in ops && !Excluded(x, policy)
  {
    FilterMembers(ops, EligibleBy(policy));
    SelectedMembers(Eligible(ops, policy));
  }

  lemma SurfaceMembers(ops: seq<Operation>, policy: Policy)
    ensures forall x :: x in Surface(ops, policy) ==> x in ops && !Excluded(x, policy)
  {
    ChosenAmong(ops, policy);
    var selected := Selected(Eligible(ops, policy));
    forall x | x in Trimmed(selected, policy) ensures x in selected {
      assert x in Sort(selected, RankLe);
      assert x in multiset(Sort(selected, RankLe));
    }
  }
}
