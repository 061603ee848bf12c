/**
  Declarations against the registry file: every run parses the file, checks the declaration,
  rebuilds the registry and prints it. Over whole histories the file refines the registry,
  up to the accepted hosts that the file cannot hold.
 */
module HostFile {
  import opened Common
  import opened HostPolicy
  import opened TextLines
  import opened Tfvars
  import opened TfvarsRoundTrip

  datatype Outcome = Rejected | NoChange | Changed

  ghost function Outcomes(header: string, text: string, d: Declaration, reserved: set<string>): (Outcome, string) {
    if !Accepts(d, Parse(text), reserved) then (Rejected, text)
    else
      var printed := Render(header, Declare(d, Parse(text)));
      if printed == text then (NoChange, text) else (Changed, printed)
  }

  method Materialize(header: string, text: string, d: Declaration, reserved: set<string>)
    returns (outcome: Outcome, file: string)
    ensures (outcome, file) == Outcomes(header, text, d, reserved)
  {
    var current := ParseTfvars(text);
    var errors := Validate(d.repo, d.manifest, current, reserved);
    ErrorsExact(d.repo, d.manifest, current, reserved);
    if errors != [] {
      return Rejected, text;
    }
    var registry := BuildRegistry(d.repo, d.manifest, current);
    var printed := RenderTfvars(header, registry);
    if printed == text {
      return NoChange, text;
    }
    return Changed, printed;
  }

  // ---- One run ----

  /** The declaration can be written to the file: checked before the run. */
  predicate Writable(d: Declaration) {
    && Name(d.repo)
    && forall i :: 0 <= i < |d.manifest.hosts| ==>
         d.manifest.hosts[i].host != "" && Last(d.manifest.hosts[i].host) != '\n'
  }

  lemma DnsNames(host: string)
    requires DnsMatch(host)
    ensures Name(host) <==> Last(host) != '\n'
  {
    if Last(host) != '\n' {
      forall i | 0 <= i < |host| ensures !LineBreak(host[i]) && host[i] != '"' {
        assert DnsCharAt(host, i);
      }
    }
  }

  lemma DeclaredIsClean(d: Declaration, registry: Registry, reserved: set<string>)
    requires Clean(registry) && Accepts(d, registry, reserved)
    ensures Clean(Declare(d, registry)) <==> Writable(d)
  {
    var hosts := d.manifest.hosts;
    var after := Declare(d, registry);
    forall i | 0 <= i < |hosts|
      ensures hosts[i].host in after && after[hosts[i].host] == d.repo
      ensures Name(hosts[i].host) <==> Last(hosts[i].host) != '\n'
    {
      assert EntryAllowed(hosts[i], d.repo, registry, reserved);
      assert hosts[i].host in LabelsOf(hosts);
      DnsNames(hosts[i].host);
    }
    if Clean(after) {
      assert Name(after[hosts[0].host]);
    } else if Writable(d) {
      forall l | l in after ensures Name(l) && Name(after[l]) {
        assert l in LabelsOf(hosts) || (l in registry && after[l] == registry[l]);
      }
    }
  }

  /** The file written for an accepted declaration reads back as the rebuilt registry exactly when it is writable. */
  lemma AcceptedFileReadsBack(header: string, text: string, d: Declaration, reserved: set<string>)
    requires CommentsOnly(header) && Accepts(d, Parse(text), reserved)
    ensures Parse(Outcomes(header, text, d, reserved).1) == Declare(d, Parse(text)) <==> Writable(d)
  {
    ParseIsClean(text);
    RegistryReadsBack(header, Parse(text), d, reserved);
  }

  lemma RegistryReadsBack(header: string, registry: Registry, d: Declaration, reserved: set<string>)
    requires CommentsOnly(header) && Clean(registry) && Accepts(d, registry, reserved)
    ensures Parse(Render(header, Declare(d, registry))) == Declare(d, registry) <==> Writable(d)
  {
    DeclaredIsClean(d, registry, reserved);
    RoundTripExact(header, Declare(d, registry));
  }

  lemma OwnedWhenClean(registry: Registry)
    requires Clean(registry)
    ensures Owned(registry)
  {
  }

  // ---- A host that ends with a newline ----

  /** Only a declaration of the allowed organisation can be accepted, and its repository's name fits on a line. */
  predicate NamedRepo(d: Declaration) {
    OrgOf(d.repo) == ALLOWED_ORG ==> Name(d.repo)
  }

  lemma OrgStarts(repo: string)
    requires OrgOf(repo) == ALLOWED_ORG
    ensures repo != "" && repo[0] == 'i'
  {
    assert OrgOf(repo)[0] == repo[0];
  }

  lemma DnsPrintable(host: string, repo: string)
    requires DnsMatch(host) && Name(repo) && OrgOf(repo) == ALLOWED_ORG
    ensures Printable(host, repo)
  {
    OrgStarts(repo);
    DnsNames(host);
    if Last(host) == '\n' && !DnsLabel(host) {
      DnsNames(Front(host));
    } else if DnsLabel(host) {
      assert Last(host) != '\n';
    }
  }

  lemma DeclaredIsPrintable(d: Declaration, registry: Registry, reserved: set<string>)
    requires Clean(registry) && Accepts(d, registry, reserved) && Name(d.repo)
    ensures AllPrintable(Declare(d, registry))
  {
    var after := Declare(d, registry);
    forall l | l in after ensures Printable(l, after[l]) {
      if l in LabelsOf(d.manifest.hosts) {
        AcceptedLabels(d, registry, reserved, l);
        DnsPrintable(l, d.repo);
      }
    }
  }

  /** What the file holds after an accepted declaration. */
  function Filed(d: Declaration, registry: Registry): Registry {
    Legible(Declare(d, registry))
  }

  lemma PrintedDeclaration(header: string, registry: Registry, d: Declaration, reserved: set<string>)
    requires CommentsOnly(header) && Clean(registry) && Accepts(d, registry, reserved) && Name(d.repo)
    ensures Parse(Render(header, Declare(d, registry))) == Filed(d, registry)
  {
    DeclaredIsPrintable(d, registry, reserved);
    PrintedReadsBack(header, Declare(d, registry));
  }

  /** A declaration reads back without its hosts that end with a newline; everything else is there. */
  lemma RunRefinesDeclaration(header: string, text: string, d: Declaration, reserved: set<string>)
    requires CommentsOnly(header) && NamedRepo(d)
    ensures Parse(Outcomes(header, text, d, reserved).1)
            == if Accepts(d, Parse(text), reserved) then Filed(d, Parse(text)) else Parse(text)
  {
    if Accepts(d, Parse(text), reserved) {
      ParseIsClean(text);
      PrintedDeclaration(header, Parse(text), d, reserved);
    }
  }

  lemma FiledTwice(d: Declaration, registry: Registry, reserved: set<string>)
    requires Clean(registry) && Accepts(d, registry, reserved)
    ensures Accepts(d, Filed(d, registry), reserved)
    ensures Declare(d, Filed(d, registry)) == Declare(d, registry)
  {
    OwnedWhenClean(registry);
    DeclarationIsLocal(d, registry, reserved);
    var after := Filed(d, registry);
    var hosts := d.manifest.hosts;
    forall i | 0 <= i < |hosts| ensures EntryAllowed(hosts[i], d.repo, after, reserved) {
      assert EntryAllowed(hosts[i], d.repo, registry, reserved);
      assert hosts[i].host in LabelsOf(hosts);
    }
  }

  /** Declaring the same thing again finds the file unchanged, also when the file lost a host. */
  lemma SecondRunIsNoChange(header: string, text: string, d: Declaration, reserved: set<string>)
    requires CommentsOnly(header) && Name(d.repo) && Accepts(d, Parse(text), reserved)
    ensures var file := Outcomes(header, text, d, reserved).1;
            Outcomes(header, file, d, reserved) == (NoChange, file)
  {
    RunRefinesDeclaration(header, text, d, reserved);
    ParseIsClean(text);
    FiledTwice(d, Parse(text), reserved);
  }

  lemma ShopMatches()
    ensures DnsMatch("shop\n")
  {
    assert DnsLabel("shop") by {
      assert DnsCharAt("shop", 0) && DnsCharAt("shop", 1) && DnsCharAt("shop", 2) && DnsCharAt("shop", 3);
    }
    assert Front("shop\n") == "shop";
  }

  /** Every host accepted with a final newline is declared, and then missing in the file. */
  lemma NewlineHostIsLost(header: string, d: Declaration, registry: Registry, reserved: set<string>, host: string)
    requires Accepts(d, registry, reserved) && host in LabelsOf(d.manifest.hosts)
    requires host != "" && Last(host) == '\n'
    ensures host in Declare(d, registry)
    ensures host !in Parse(Render(header, Declare(d, registry)))
  {
    AcceptedLabels(d, registry, reserved, host);
    ParseIsClean(Render(header, Declare(d, registry)));
    DnsNames(host);
  }

  lemma {:induction false} OrgIs(org: string, name: string)
    requires '/' !in org
    ensures OrgOf(org + "/" + name) == org
  {
    var repo := org + "/" + name;
    if org == "" {
      assert repo[0] == '/';
    } else {
      assert repo[0] == org[0] && repo[1..] == org[1..] + "/" + name && org == [org[0]] + org[1..];
      OrgIs(org[1..], name);
    }
  }

  lemma OrgOfApp()
    ensures OrgOf("izzywdev/app") == ALLOWED_ORG
  {
    OrgIs("izzywdev", "app");
    assert "izzywdev" + "/" + "app" == "izzywdev/app";
  }

  lemma OneEntryAccepted(repo: string, app: string, e: Entry)
    requires OrgOf(repo) == ALLOWED_ORG && app != "" && EntryAllowed(e, repo, map[], {})
    ensures Accepts(Declaration(repo, Manifest(app, [e])), map[], {})
  {
  }

  lemma ShopAllowed(repo: string)
    ensures EntryAllowed(Entry("shop\n", "bypass"), repo, map[], {})
  {
    ShopMatches();
  }

  /** Such a host exists. */
  lemma NewlineHostIsAccepted()
    ensures Accepts(Declaration("izzywdev/app", Manifest("app", [Entry("shop\n", "bypass")])), map[], {})
  {
    OrgOfApp();
    ShopAllowed("izzywdev/app");
    OneEntryAccepted("izzywdev/app", "app", Entry("shop\n", "bypass"));
  }

  // ---- Histories ----

  ghost function FileAfter(header: string, text: string, ds: seq<Declaration>, reserved: set<string>): string {
    if ds == [] then text else Outcomes(header, FileAfter(header, text, Front(ds), reserved), Last(ds), reserved).1
  }

  /** Declarations in order, each read back from the file before the next. */
  function FiledAll(ds: seq<Declaration>, registry: Registry, reserved: set<string>): Registry {
    if ds == [] then registry
    else
      var r := FiledAll(Front(ds), registry, reserved);
      if Accepts(Last(ds), r, reserved) then Filed(Last(ds), r) else r
  }

  /** Over every history the file holds what the declarations leave that a file can hold. */
  lemma {:induction false} FileRefinesRegistry(header: string, text: string, ds: seq<Declaration>,
                                               reserved: set<string>)
    requires CommentsOnly(header)
    requires forall i :: 0 <= i < |ds| ==> NamedRepo(ds[i])
    ensures Parse(FileAfter(header, text, ds, reserved)) == FiledAll(ds, Parse(text), reserved)
  {
    if ds != [] {
      FileRefinesRegistry(header, text, Front(ds), reserved);
      assert NamedRepo(Last(ds));
      RunRefinesDeclaration(header, FileAfter(header, text, Front(ds), reserved), Last(ds), reserved);
    }
  }

  /** After every one of the declarations the file holds the whole registry. */
  ghost predicate HeldThroughout(header: string, text: string, ds: seq<Declaration>, reserved: set<string>) {
    forall k :: 0 <= k <= |ds| ==>
      Parse(FileAfter(header, text, ds[..k], reserved)) == DeclareAll(ds[..k], Parse(text), reserved)
  }

  predicate WritableAt(ds: seq<Declaration>, i: nat, registry: Registry, reserved: set<string>)
    requires i < |ds|
  {
    Accepts(ds[i], DeclareAll(ds[..i], registry, reserved), reserved) ==> Writable(ds[i])
  }

  predicate AcceptedWritable(ds: seq<Declaration>, registry: Registry, reserved: set<string>) {
    forall i :: 0 <= i < |ds| ==> WritableAt(ds, i, registry, reserved)
  }

  lemma FrontSlices<T>(s: seq<T>)
    requires s != []
    ensures forall k :: 0 <= k < |s| ==> s[..k] == Front(s)[..k]
  {
  }

  lemma HeldNext(header: string, text: string, ds: seq<Declaration>, reserved: set<string>)
    requires ds != []
    ensures HeldThroughout(header, text, ds, reserved)
            <==> HeldThroughout(header, text, Front(ds), reserved)
                 && Parse(FileAfter(header, text, ds, reserved)) == DeclareAll(ds, Parse(text), reserved)
  {
    FrontSlices(ds);
    assert ds[..|ds|] == ds && Front(ds)[..|Front(ds)|] == Front(ds);
    if HeldThroughout(header, text, ds, reserved) {
      forall k | 0 <= k <= |Front(ds)|
        ensures Parse(FileAfter(header, text, Front(ds)[..k], reserved))
                == DeclareAll(Front(ds)[..k], Parse(text), reserved)
      {
        assert ds[..k] == Front(ds)[..k];
      }
    }
  }

  lemma WritableBefore(ds: seq<Declaration>, i: nat, registry: Registry, reserved: set<string>)
    requires i < |ds| - 1
    ensures WritableAt(ds, i, registry, reserved) <==> WritableAt(Front(ds), i, registry, reserved)
  {
    assert ds[..i] == Front(ds)[..i];
  }

  lemma AcceptedNext(ds: seq<Declaration>, registry: Registry, reserved: set<string>)
    requires ds != []
    ensures AcceptedWritable(ds, registry, reserved)
            <==> AcceptedWritable(Front(ds), registry, reserved) && WritableAt(ds, |ds| - 1, registry, reserved)
  {
    forall i | 0 <= i < |ds| - 1
      ensures WritableAt(ds, i, registry, reserved) <==> WritableAt(Front(ds), i, registry, reserved)
    {
      WritableBefore(ds, i, registry, reserved);
    }
  }

  /** The file holds the whole registry all along exactly when every accepted declaration is writable. */
  lemma {:induction false} FileHoldsRegistryExactly(header: string, text: string, ds: seq<Declaration>,
                                                    reserved: set<string>)
    requires CommentsOnly(header)
    ensures HeldThroughout(header, text, ds, reserved) <==> AcceptedWritable(ds, Parse(text), reserved)
  {
    if ds == [] {
      assert forall k :: 0 <= k <= |ds| ==> ds[..k] == [];
    } else {
      FileHoldsRegistryExactly(header, text, Front(ds), reserved);
      HeldNext(header, text, ds, reserved);
      AcceptedNext(ds, Parse(text), reserved);
      var file := FileAfter(header, text, Front(ds), reserved);
      assert Front(ds)[..|Front(ds)|] == Front(ds);
      if HeldThroughout(header, text, Front(ds), reserved) && Accepts(Last(ds), Parse(file), reserved) {
        AcceptedFileReadsBack(header, file, Last(ds), reserved);
      }
    }
  }

  lemma {:induction false} FiledPassesGuard(ds: seq<Declaration>, registry: Registry, reserved: set<string>,
                                            infra: set<string>)
    requires GuardPasses(registry, infra) && infra <= reserved
    ensures GuardPasses(FiledAll(ds, registry, reserved), infra)
  {
    if ds != [] {
      FiledPassesGuard(Front(ds), registry, reserved, infra);
      var r, d := FiledAll(Front(ds), registry, reserved), Last(ds);
      if Accepts(d, r, reserved) {
        DeclarationPassesGuard(d, r, reserved, infra);
      }
    }
  }

  /** Every file reached from one that passes the guard passes it. */
  lemma FilePassesGuard(header: string, text: string, ds: seq<Declaration>, reserved: set<string>, infra: set<string>)
    requires CommentsOnly(header) && infra <= reserved
    requires forall i :: 0 <= i < |ds| ==> NamedRepo(ds[i])
    requires GuardPasses(Parse(text), infra)
    ensures GuardPasses(Parse(FileAfter(header, text, ds, reserved)), infra)
  {
    FileRefinesRegistry(header, text, ds, reserved);
    FiledPassesGuard(ds, Parse(text), reserved, infra);
  }
}
