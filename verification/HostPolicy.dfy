/**
  The registry of consumer hosts: the policy a declaration must meet, the rebuild of the
  registry from it, and the independent guard over the result.
 */
module HostPolicy {
  import opened Common
  import opened TextLines

  type Registry = map<string, string>

  /** A field that is missing in the manifest is the empty string. */
  datatype Entry = Entry(host: string, access: string)
  datatype Manifest = Manifest(app: string, hosts: seq<Entry>)

  datatype Violation =
    | WrongOrg
    | NoApp
    | NoHosts
    | NoLabel
    | Wildcard(host: string)
    | NotDns(host: string)
    | Reserved(host: string)
    | BadAccess(host: string, access: string)
    | Taken(host: string, owner: string)

  const ALLOWED_ORG := "izzywdev"
  const ALLOWED_ACCESS := "bypass"

  // ---- Labels ----

  /** A letter or digit, a hyphen, or a dot between two letters or digits. */
  predicate DnsCharAt(host: string, i: nat)
    requires i < |host|
  {
    LowerAlnum(host[i]) || host[i] == '-'
    || (host[i] == '.' && 0 < i < |host| - 1 && LowerAlnum(host[i - 1]) && LowerAlnum(host[i + 1]))
  }

  /** Dot-separated parts of letters, digits and inner hyphens. */
  predicate DnsLabel(host: string) {
    && host != "" && LowerAlnum(host[0]) && LowerAlnum(Last(host))
    && forall i :: 0 <= i < |host| ==> DnsCharAt(host, i)
  }

  /** The pattern as it is written: its end anchor also matches before one final newline. */
  predicate DnsMatch(host: string) {
    DnsLabel(host) || (host != "" && Last(host) == '\n' && DnsLabel(Front(host)))
  }

  function OrgOf(repo: string): string {
    if repo == "" || repo[0] == '/' then "" else [repo[0]] + OrgOf(repo[1..])
  }

  // ---- Validation ----

  function EntryViolations(e: Entry, repo: string, registry: Registry, reserved: set<string>): seq<Violation> {
    if e.host == "" then [NoLabel]
    else if '*' in e.host then [Wildcard(e.host)]
    else
      (if DnsMatch(e.host) then [] else [NotDns(e.host)])
      + (if e.host in reserved then [Reserved(e.host)] else [])
      + (if e.access != ALLOWED_ACCESS then [BadAccess(e.host, e.access)] else [])
      + (if e.host in registry && registry[e.host] != "" && registry[e.host] != repo
         then [Taken(e.host, registry[e.host])] else [])
  }

  function EntryErrors(repo: string, registry: Registry, reserved: set<string>): Entry -> seq<Violation> {
    (e: Entry) => EntryViolations(e, repo, registry, reserved)
  }

  function Errors(repo: string, m: Manifest, registry: Registry, reserved: set<string>): seq<Violation> {
    if OrgOf(repo) != ALLOWED_ORG then [WrongOrg]
    else
      (if m.app == "" then [NoApp] else [])
      + (if m.hosts == [] then [NoHosts] else Gather(m.hosts, EntryErrors(repo, registry, reserved)))
  }

  method ValidateEntry(repo: string, e: Entry, registry: Registry,
                       reserved: set<string>) returns (errors: seq<Violation>)
    ensures errors == EntryViolations(e, repo, registry, reserved)
  {
    if e.host == "" {
      return [NoLabel];
    }
    if '*' in e.host {
      return [Wildcard(e.host)];
    }
    errors := [];
    if !DnsMatch(e.host) {
      errors := errors + [NotDns(e.host)];
    }
    if e.host in reserved {
      errors := errors + [Reserved(e.host)];
    }
    if e.access != ALLOWED_ACCESS {
      errors := errors + [BadAccess(e.host, e.access)];
    }
    if e.host in registry && registry[e.host] != "" && registry[e.host] != repo {
      errors := errors + [Taken(e.host, registry[e.host])];
    }
  }

  method ValidateHosts(repo: string, hosts: seq<Entry>, registry: Registry, reserved: set<string>)
    returns (errors: seq<Violation>)
    ensures errors == Gather(hosts, EntryErrors(repo, registry, reserved))
  {
    errors := [];
    for i := 0 to |hosts|
      invariant errors == Gather(hosts[..i], EntryErrors(repo, registry, reserved))
    {
      GatherNext(hosts, i, EntryErrors(repo, registry, reserved));
      var found := ValidateEntry(repo, hosts[i], registry, reserved);
      errors := errors + found;
    }
    assert hosts[..|hosts|] == hosts;
  }

  method Validate(repo: string, m: Manifest, registry: Registry, reserved: set<string>) returns (errors: seq<Violation>)
    ensures errors == Errors(repo, m, registry, reserved)
  {
    errors := [];
    if OrgOf(repo) != ALLOWED_ORG {
      return [WrongOrg];
    }
    if m.app == "" {
      errors := errors + [NoApp];
    }
    if m.hosts == [] {
      return errors + [NoHosts];
    }
    var found := ValidateHosts(repo, m.hosts, registry, reserved);
    errors := errors + found;
  }

  /** What the policy demands of one entry. */
  predicate EntryAllowed(e: Entry, repo: string, registry: Registry, reserved: set<string>) {
    && e.host != "" && '*' !in e.host && DnsMatch(e.host) && e.host !in reserved && e.access == ALLOWED_ACCESS
    && (e.host in registry ==> registry[e.host] == "" || registry[e.host] == repo)
  }

  predicate Accepted(repo: string, m: Manifest, registry: Registry, reserved: set<string>) {
    && OrgOf(repo) == ALLOWED_ORG && m.app != "" && m.hosts != []
    && forall i :: 0 <= i < |m.hosts| ==> EntryAllowed(m.hosts[i], repo, registry, reserved)
  }

  lemma {:induction false} EntriesExact(hosts: seq<Entry>, repo: string, registry: Registry, reserved: set<string>)
    ensures Gather(hosts, EntryErrors(repo, registry, reserved)) == []
            <==> forall i :: 0 <= i < |hosts| ==> EntryAllowed(hosts[i], repo, registry, reserved)
  {
    if hosts != [] {
      EntriesExact(Front(hosts), repo, registry, reserved);
      EntryExact(Last(hosts), repo, registry, reserved);
      assert hosts == Front(hosts) + [Last(hosts)];
    }
  }

  lemma EntryExact(e: Entry, repo: string, registry: Registry, reserved: set<string>)
    ensures EntryErrors(repo, registry, reserved)(e) == [] <==> EntryAllowed(e, repo, registry, reserved)
  {
  }

  lemma ErrorsExact(repo: string, m: Manifest, registry: Registry, reserved: set<string>)
    ensures Errors(repo, m, registry, reserved) == [] <==> Accepted(repo, m, registry, reserved)
  {
    EntriesExact(m.hosts, repo, registry, reserved);
  }

  // ---- Rebuilding the registry ----

  function LabelsOf(hosts: seq<Entry>): set<string> {
    set i | 0 <= i < |hosts| :: hosts[i].host
  }

  /** The repo's own entries replaced by its declaration, all others kept. */
  function Rebuilt(repo: string, hosts: seq<Entry>, registry: Registry): Registry {
    (map l | l in registry && registry[l] != repo :: registry[l]) + (map l | l in LabelsOf(hosts) :: repo)
  }

  lemma LabelsNext(hosts: seq<Entry>, i: nat)
    requires i < |hosts|
    ensures LabelsOf(hosts[..i + 1]) == LabelsOf(hosts[..i]) + {hosts[i].host}
  {
    var next := hosts[..i + 1];
    forall l | l in LabelsOf(next) ensures l in LabelsOf(hosts[..i]) + {hosts[i].host} {
      var k :| 0 <= k < i + 1 && next[k].host == l;
      assert k < i ==> hosts[..i][k].host == l;
    }
    forall l | l in LabelsOf(hosts[..i]) ensures l in LabelsOf(next) {
      var k :| 0 <= k < i && hosts[..i][k].host == l;
      assert next[k].host == l;
    }
    assert next[i].host in LabelsOf(next);
  }

  method BuildRegistry(repo: string, m: Manifest, registry: Registry) returns (result: Registry)
    ensures result == Rebuilt(repo, m.hosts, registry)
  {
    result := map l | l in registry && registry[l] != repo :: registry[l];
    ghost var kept := result;
    for i := 0 to |m.hosts|
      invariant result == kept + (map l | l in LabelsOf(m.hosts[..i]) :: repo)
    {
      LabelsNext(m.hosts, i);
      result := result[m.hosts[i].host := repo];
    }
    assert m.hosts[..|m.hosts|] == m.hosts;
  }

  // ---- Declarations over time ----

  datatype Declaration = Declaration(repo: string, manifest: Manifest)

  predicate Accepts(d: Declaration, registry: Registry, reserved: set<string>) {
    Accepted(d.repo, d.manifest, registry, reserved)
  }

  function Declare(d: Declaration, registry: Registry): Registry {
    Rebuilt(d.repo, d.manifest.hosts, registry)
  }

  /** Declarations in order; a rejected one changes nothing. */
  function DeclareAll(ds: seq<Declaration>, registry: Registry, reserved: set<string>): Registry {
    if ds == [] then registry
    else
      var r := DeclareAll(Front(ds), registry, reserved);
      if Accepts(Last(ds), r, reserved) then Declare(Last(ds), r) else r
  }

  /** Every host in use has an owner with a name. */
  predicate Owned(registry: Registry) {
    forall l :: l in registry ==> registry[l] != ""
  }

  lemma AcceptedLabels(d: Declaration, registry: Registry, reserved: set<string>, l: string)
    requires Accepts(d, registry, reserved) && l in LabelsOf(d.manifest.hosts)
    ensures '*' !in l && DnsMatch(l) && l !in reserved
    ensures l in registry ==> registry[l] == "" || registry[l] == d.repo
  {
    var i :| 0 <= i < |d.manifest.hosts| && d.manifest.hosts[i].host == l;
    assert EntryAllowed(d.manifest.hosts[i], d.repo, registry, reserved);
  }

  /**
    An accepted declaration leaves the repo owning exactly what it declared, changes no host
    of any other repo, and hands no host from one repo to another.
   */
  lemma DeclarationIsLocal(d: Declaration, registry: Registry, reserved: set<string>)
    requires Accepts(d, registry, reserved) && Owned(registry)
    ensures var after := Declare(d, registry);
            && Owned(after)
            && (forall l :: l in after && after[l] == d.repo <==> l in LabelsOf(d.manifest.hosts))
            && (forall l :: (l in registry && registry[l] != d.repo) <==> (l in after && after[l] != d.repo))
            && (forall l :: l in registry && l in after ==> after[l] == registry[l])
  {
    assert d.repo != "";
    forall l | l in LabelsOf(d.manifest.hosts) && l in registry ensures registry[l] == d.repo {
      AcceptedLabels(d, registry, reserved, l);
    }
  }

  /** Two repos whose declarations are accepted in either order end in the same registry. */
  lemma DeclarationsCommute(a: Declaration, b: Declaration, registry: Registry, reserved: set<string>)
    requires a.repo != b.repo && Owned(registry)
    requires Accepts(a, registry, reserved) && Accepts(b, Declare(a, registry), reserved)
    requires Accepts(b, registry, reserved) && Accepts(a, Declare(b, registry), reserved)
    ensures Declare(b, Declare(a, registry)) == Declare(a, Declare(b, registry))
  {
    DeclarationIsLocal(a, registry, reserved);
    DeclarationIsLocal(b, registry, reserved);
    DeclarationIsLocal(b, Declare(a, registry), reserved);
    DeclarationIsLocal(a, Declare(b, registry), reserved);
    var ab, ba := Declare(b, Declare(a, registry)), Declare(a, Declare(b, registry));
    forall l ensures (l in ab <==> l in ba) && (l in ab ==> ab[l] == ba[l]) {
      assert (l in ab && ab[l] == b.repo) <==> (l in ba && ba[l] == b.repo);
      assert (l in ab && ab[l] == a.repo) <==> (l in ba && ba[l] == a.repo);
    }
  }

  /**
    When the first declaration was accepted, the second is accepted before it and after it
    alike, except for the labels the first one releases or takes.
   */
  lemma AcceptanceMoves(a: Declaration, b: Declaration, registry: Registry, reserved: set<string>)
    requires a.repo != b.repo && Owned(registry) && Accepts(a, registry, reserved)
    ensures Accepts(b, Declare(a, registry), reserved) && !Accepts(b, registry, reserved) ==>
              exists l :: l in LabelsOf(b.manifest.hosts) && l in registry && registry[l] == a.repo
                          && l !in LabelsOf(a.manifest.hosts)
    ensures Accepts(b, registry, reserved) && !Accepts(b, Declare(a, registry), reserved) ==>
              exists l :: l in LabelsOf(b.manifest.hosts) && l in LabelsOf(a.manifest.hosts)
  {
    DeclarationIsLocal(a, registry, reserved);
    var after := Declare(a, registry);
    if Accepts(b, after, reserved) != Accepts(b, registry, reserved) {
      var i :| 0 <= i < |b.manifest.hosts|
               && EntryAllowed(b.manifest.hosts[i], b.repo, after, reserved)
                  != EntryAllowed(b.manifest.hosts[i], b.repo, registry, reserved)
               && EntryAllowed(b.manifest.hosts[i], b.repo, after, reserved) == Accepts(b, after, reserved);
      var l := b.manifest.hosts[i].host;
      assert l in LabelsOf(b.manifest.hosts);
    }
  }

  // ---- The independent guard ----

  predicate Collides(host: string, infra: set<string>) {
    '*' in host || LowerAll(host) in infra
  }

  predicate GuardPasses(registry: Registry, infra: set<string>) {
    forall l :: l in registry ==> !Collides(l, infra)
  }

  method Guard(registry: Registry, infra: set<string>) returns (violations: set<string>)
    ensures violations == set l | l in registry && Collides(l, infra)
    ensures violations == {} <==> GuardPasses(registry, infra)
  {
    violations := {};
    var todo := registry.Keys;
    while todo != {}
      invariant todo <= registry.Keys
      invariant violations == set l | l in registry && l !in todo && Collides(l, infra)
      decreases |todo|
    {
      var host :| host in todo;
      todo := todo - {host};
      if '*' in host {
        violations := violations + {host};
        continue;
      }
      var normalized := LowerAll(host);
      if normalized in infra {
        violations := violations + {host};
      }
    }
    assert violations == {} ==> GuardPasses(registry, infra) by {
      if l :| l in registry && Collides(l, infra) {
        assert l in violations;
      }
    }
  }

  lemma LabelIsLower(l: string)
    requires DnsMatch(l)
    ensures LowerAll(l) == l
  {
    forall i | 0 <= i < |l| ensures Lower(l[i]) == l[i] {
      var d := if DnsLabel(l) then l else Front(l);
      if i < |d| {
        assert d[i] == l[i];
        assert DnsCharAt(d, i);
      } else {
        assert l[i] == '\n';
      }
    }
  }

  lemma DeclarationPassesGuard(d: Declaration, registry: Registry, reserved: set<string>, infra: set<string>)
    requires GuardPasses(registry, infra) && infra <= reserved && Accepts(d, registry, reserved)
    ensures GuardPasses(Declare(d, registry), infra)
  {
    forall l | l in Declare(d, registry) ensures !Collides(l, infra) {
      if l in LabelsOf(d.manifest.hosts) {
        AcceptedLabels(d, registry, reserved, l);
        LabelIsLower(l);
      }
    }
  }

  /** Every registry reached from one that passes the guard passes it, for reserved labels that cover it. */
  lemma {:induction false} ReachablePassesGuard(ds: seq<Declaration>, registry: Registry, reserved: set<string>,
                                                infra: set<string>)
    requires GuardPasses(registry, infra) && infra <= reserved
    ensures GuardPasses(DeclareAll(ds, registry, reserved), infra)
  {
    if ds != [] {
      ReachablePassesGuard(Front(ds), registry, reserved, infra);
      var r, d := DeclareAll(Front(ds), registry, reserved), Last(ds);
      if Accepts(d, r, reserved) {
        DeclarationPassesGuard(d, r, reserved, infra);
      }
    }
  }

  /** Over every history a host changes hands only by being given up first. */
  lemma {:induction false} NoDirectTransfer(ds: seq<Declaration>, registry: Registry, reserved: set<string>, i: nat,
                                            l: string)
    requires i < |ds| && Owned(registry)
    requires l in DeclareAll(ds[..i], registry, reserved) && l in DeclareAll(ds[..i + 1], registry, reserved)
    ensures DeclareAll(ds[..i], registry, reserved)[l] == DeclareAll(ds[..i + 1], registry, reserved)[l]
  {
    assert Front(ds[..i + 1]) == ds[..i];
    StaysOwned(ds[..i], registry, reserved);
    var r := DeclareAll(ds[..i], registry, reserved);
    if Accepts(ds[i], r, reserved) {
      DeclarationIsLocal(ds[i], r, reserved);
    }
  }

  lemma {:induction false} StaysOwned(ds: seq<Declaration>, registry: Registry, reserved: set<string>)
    requires Owned(registry)
    ensures Owned(DeclareAll(ds, registry, reserved))
  {
    if ds != [] {
      StaysOwned(Front(ds), registry, reserved);
      var r := DeclareAll(Front(ds), registry, reserved);
      if Accepts(Last(ds), r, reserved) {
        DeclarationIsLocal(Last(ds), r, reserved);
      }
    }
  }
}
