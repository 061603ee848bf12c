/**
  The registry file: the canonical printer and the line parser for the registry of HostPolicy.
 */
module Tfvars {
  import opened Common
  import opened HostPolicy
  import opened Sorting
  import opened TextLines

  // ---- Parsing ----

  function ToQuote(s: string): (n: nat)
    ensures n <= |s|
  {
    if s == "" || s[0] == '"' then 0 else 1 + ToQuote(s[1..])
  }

  /** A quoted, non-empty text at the start of `s`, and what follows it. */
  function Quoted(s: string): Option<(string, string)> {
    if s == "" || s[0] != '"' then None
    else
      var n := ToQuote(s[1..]);
      if n == 0 || n == |s| - 1 then None else Some((s[1..n + 1], s[n + 2..]))
  }

  /** A line `"host" = "repo"`, whatever follows on it. */
  function ParseLine(line: string): Option<(string, string)> {
    match Quoted(line)
    case None => None
    case Some((host, rest)) =>
      var equals := SkipBlanks(rest);
      if equals == "" || equals[0] != '=' then None
      else
        match Quoted(SkipBlanks(equals[1..]))
        case None => None
        case Some((repo, _)) => Some((host, repo))
  }

  function EntryOf(parsed: Option<(string, string)>): Registry {
    match parsed
    case None => map[]
    case Some((host, repo)) => map[host := repo]
  }

  type LineParser = string -> Option<(string, string)>

  function EntryWith(parse: LineParser): string -> Registry {
    (line: string) => EntryOf(parse(Strip(line)))
  }

  function LineEntry(): string -> Registry {
    EntryWith(ParseLine)
  }

  /** The entries of the lines; a later line wins. */
  function Parse(text: string): Registry {
    Merge(Lines(text), LineEntry())
  }

  lemma LineEntryIs(line: string)
    ensures LineEntry()(line) == EntryOf(ParseLine(Strip(line)))
  {
  }

  method ReadLine(registry: Registry, line: string) returns (result: Registry)
    ensures result == registry + LineEntry()(line)
  {
    result := registry;
    LineEntryIs(line);
    var m := ParseLine(Strip(line));
    if m.Some? {
      PutIsMerge(result, m.value.0, m.value.1);
      result := result[m.value.0 := m.value.1];
    }
  }

  method ParseTfvars(text: string) returns (registry: Registry)
    ensures registry == Parse(text)
  {
    registry := map[];
    var lines := Lines(text);
    for i := 0 to |lines|
      invariant registry == Merge(lines[..i], LineEntry())
    {
      MergeNext(lines, i, LineEntry());
      registry := ReadLine(registry, lines[i]);
    }
    assert lines[..|lines|] == lines;
  }

  // ---- Printing ----

  function Spaces(n: nat): string {
    seq(n, _ => ' ')
  }

  function Padded(s: string, width: nat): string {
    s + Spaces(if |s| < width then width - |s| else 0)
  }

  function EntryLine(repo: string, width: nat, host: string): string {
    "  " + Padded("\"" + host + "\"", width) + "= \"" + repo + "\" # " + host + ".prod.fuzefront.com"
  }

  function EntryLines(repo: string, width: nat): string -> seq<string> {
    (host: string) => [EntryLine(repo, width, host)]
  }

  function CommentLine(repo: string): string {
    "  # " + repo
  }

  function Width(hosts: seq<string>): nat {
    if hosts == [] then 0
    else if Width(Front(hosts)) < |Last(hosts)| + 4 then |Last(hosts)| + 4
    else Width(Front(hosts))
  }

  function HostsOf(registry: Registry, repo: string): set<string> {
    set l | l in registry && registry[l] == repo
  }

  ghost function Block(registry: Registry, width: nat, repo: string): seq<string> {
    [CommentLine(repo)] + Gather(InOrder(HostsOf(registry, repo)), EntryLines(repo, width)) + [""]
  }

  ghost function BlockOf(registry: Registry, width: nat): string -> seq<string> {
    (repo: string) => Block(registry, width, repo)
  }

  ghost function Body(registry: Registry): seq<string> {
    if registry == map[] then ["public_app_hosts = {}"]
    else ["public_app_hosts = {"]
         + Gather(InOrder(registry.Values), BlockOf(registry, Width(InOrder(registry.Keys))))
         + ["}"]
  }

  /** The file for a registry: the header, then the entries grouped by repo, all in code-point order. */
  ghost function Render(header: string, registry: Registry): string {
    header + "\n" + Unlines(Body(registry))
  }

  method Listed(s: set<string>) returns (r: seq<string>)
    ensures r == InOrder(s)
  {
    var todo := s;
    r := [];
    while todo != {}
      invariant todo <= s
      invariant multiset(r) == multiset(s - todo)
      decreases |todo|
    {
      var x :| x in todo;
      assert s - (todo - {x}) == (s - todo) + {x};
      todo := todo - {x};
      r := r + [x];
    }
    assert s - todo == s;
    SortingASet(s, r);
    r := Sort(r, StrLe);
  }

  lemma NotSeenYet(hosts: seq<string>, all: set<string>, seen: set<string>, i: nat)
    requires i < |hosts| && multiset(hosts) == multiset(all) && multiset(hosts[..i]) == multiset(seen)
    ensures hosts[i] in all && hosts[i] !in seen
    ensures multiset(hosts[..i + 1]) == multiset(seen + {hosts[i]})
  {
    assert hosts == hosts[..i] + [hosts[i]] + hosts[i + 1..];
    assert multiset(hosts)[hosts[i]] == multiset(seen)[hosts[i]] + 1 + multiset(hosts[i + 1..])[hosts[i]];
    assert hosts[..i + 1] == hosts[..i] + [hosts[i]];
  }

  lemma SameElements(a: set<string>, b: set<string>)
    requires multiset(a) == multiset(b)
    ensures a == b
  {
    forall x ensures x in a <==> x in b {
      assert x in multiset(a) <==> x in multiset(b);
    }
  }

  /** `list` holds each of the hosts of a repo seen so far once. */
  ghost predicate Group(list: seq<string>, registry: Registry, repo: string, seen: set<string>) {
    multiset(list) == multiset(seen * HostsOf(registry, repo))
  }

  /** The hosts seen so far, grouped by their owner. */
  ghost predicate Grouped(byRepo: map<string, seq<string>>, registry: Registry, seen: set<string>) {
    && seen <= registry.Keys
    && (forall l :: l in seen ==> registry[l] in byRepo)
    && (forall r :: r in byRepo ==> byRepo[r] != [] && Group(byRepo[r], registry, r, seen))
  }

  lemma GroupGrows(list: seq<string>, registry: Registry, repo: string, seen: set<string>, host: string)
    requires Group(list, registry, repo, seen) && host !in seen && host in registry
    ensures if registry[host] == repo then Group(list + [host], registry, repo, seen + {host})
            else Group(list, registry, repo, seen + {host})
  {
    var own := HostsOf(registry, repo);
    if registry[host] == repo {
      assert (seen + {host}) * own == seen * own + {host};
    } else {
      assert (seen + {host}) * own == seen * own;
    }
  }

  function Appended(byRepo: map<string, seq<string>>, repo: string, host: string): map<string, seq<string>> {
    byRepo[repo := (if repo in byRepo then byRepo[repo] else []) + [host]]
  }

  lemma GroupNext(byRepo: map<string, seq<string>>, registry: Registry, seen: set<string>, host: string)
    requires Grouped(byRepo, registry, seen) && host in registry && host !in seen
    ensures Grouped(Appended(byRepo, registry[host], host), registry, seen + {host})
  {
    var repo := registry[host];
    var next := Appended(byRepo, repo, host);
    if repo !in byRepo {
      assert seen * HostsOf(registry, repo) == {};
      assert Group([], registry, repo, seen);
    }
    forall r | r in next ensures next[r] != [] && Group(next[r], registry, r, seen + {host}) {
      GroupGrows(if r in byRepo then byRepo[r] else [], registry, r, seen, host);
    }
  }

  ghost predicate GroupedInFull(byRepo: map<string, seq<string>>, registry: Registry) {
    forall r :: r in byRepo ==> multiset(byRepo[r]) == multiset(HostsOf(registry, r))
  }

  lemma GroupInFull(byRepo: map<string, seq<string>>, registry: Registry, repo: string)
    requires GroupedInFull(byRepo, registry) && repo in byRepo
    ensures multiset(byRepo[repo]) == multiset(HostsOf(registry, repo))
  {
  }

  lemma GroupDone(byRepo: map<string, seq<string>>, registry: Registry)
    requires Grouped(byRepo, registry, registry.Keys)
    ensures byRepo.Keys == registry.Values
    ensures GroupedInFull(byRepo, registry)
  {
    forall r ensures registry.Keys * HostsOf(registry, r) == HostsOf(registry, r) {
    }
    forall r | r in byRepo ensures r in registry.Values {
      assert byRepo[r][0] in multiset(byRepo[r]);
      assert byRepo[r][0] in HostsOf(registry, r);
    }
  }

  method GroupByRepo(registry: Registry, hosts: seq<string>) returns (byRepo: map<string, seq<string>>)
    requires hosts == InOrder(registry.Keys)
    ensures byRepo.Keys == registry.Values
    ensures GroupedInFull(byRepo, registry)
  {
    byRepo := map[];
    ghost var seen: set<string> := {};
    for i := 0 to |hosts|
      invariant multiset(hosts[..i]) == multiset(seen) && Grouped(byRepo, registry, seen)
    {
      NotSeenYet(hosts, registry.Keys, seen, i);
      GroupNext(byRepo, registry, seen, hosts[i]);
      byRepo := Appended(byRepo, registry[hosts[i]], hosts[i]);
      seen := seen + {hosts[i]};
    }
    assert hosts[..|hosts|] == hosts;
    SameElements(seen, registry.Keys);
    GroupDone(byRepo, registry);
  }

  method RenderBlock(registry: Registry, width: nat, repo: string, hosts: seq<string>) returns (lines: seq<string>)
    requires multiset(hosts) == multiset(HostsOf(registry, repo))
    ensures lines == Block(registry, width, repo)
  {
    SortingASet(HostsOf(registry, repo), hosts);
    var ordered := Sort(hosts, StrLe);
    lines := [];
    for i := 0 to |ordered|
      invariant lines == Gather(ordered[..i], EntryLines(repo, width))
    {
      GatherNext(ordered, i, EntryLines(repo, width));
      lines := lines + [EntryLine(repo, width, ordered[i])];
    }
    assert ordered[..|ordered|] == ordered;
    lines := [CommentLine(repo)] + lines + [""];
  }

  method WidthOf(hosts: seq<string>) returns (width: nat)
    ensures width == Width(hosts)
  {
    width := 0;
    for i := 0 to |hosts|
      invariant width == Width(hosts[..i])
    {
      assert Front(hosts[..i + 1]) == hosts[..i];
      width := Max(width, |"\"" + hosts[i] + "\""| + 2);
    }
    assert hosts[..|hosts|] == hosts;
  }

  lemma BlocksNext(registry: Registry, width: nat, repos: seq<string>, i: nat)
    requires i < |repos|
    ensures Gather(repos[..i + 1], BlockOf(registry, width))
            == Gather(repos[..i], BlockOf(registry, width)) + Block(registry, width, repos[i])
  {
    GatherNext(repos, i, BlockOf(registry, width));
  }

  method RenderBlocks(registry: Registry, width: nat, byRepo: map<string, seq<string>>, repos: seq<string>)
    returns (lines: seq<string>)
    requires GroupedInFull(byRepo, registry)
    requires forall i :: 0 <= i < |repos| ==> repos[i] in byRepo
    ensures lines == Gather(repos, BlockOf(registry, width))
  {
    lines := [];
    for i := 0 to |repos|
      invariant lines == Gather(repos[..i], BlockOf(registry, width))
    {
      BlocksNext(registry, width, repos, i);
      GroupInFull(byRepo, registry, repos[i]);
      var block := RenderBlock(registry, width, repos[i], byRepo[repos[i]]);
      lines := lines + block;
    }
    assert repos[..|repos|] == repos;
  }

  method RenderTfvars(header: string, registry: Registry) returns (text: string)
    ensures text == Render(header, registry)
  {
    if registry == map[] {
      return header + "\n" + Unlines(["public_app_hosts = {}"]);
    }
    var hosts := Listed(registry.Keys);
    var byRepo := GroupByRepo(registry, hosts);
    var width := WidthOf(hosts);
    var repos := Listed(byRepo.Keys);
    InOrderMembers(byRepo.Keys);
    var blocks := RenderBlocks(registry, width, byRepo, repos);
    text := header + "\n" + Unlines(["public_app_hosts = {"] + blocks + ["}"]);
  }
}
