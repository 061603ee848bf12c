/**
  The rules for hosts and the lines of the registry file as grammars: which texts are labels,
  which violation each entry brings, and which lines are entries.
 */
module HostExact {
  import opened Common
  import opened HostPolicy
  import opened TextLines
  import opened Tfvars
  import opened TfvarsRoundTrip

  // ---- Labels ----

  predicate LowerOrDigit(c: char) {
    'a' <= c <= 'z' || '0' <= c <= '9'
  }

  /** Lower-case letters, digits and hyphens, with no hyphen at either end. */
  predicate Part(s: string) {
    && s != "" && LowerOrDigit(s[0]) && LowerOrDigit(s[|s| - 1])
    && forall i :: 0 <= i < |s| ==> LowerOrDigit(s[i]) || s[i] == '-'
  }

  /** One part, or a part, a dot and more of the same. */
  predicate Dotted(s: string)
    decreases |s|
  {
    Part(s) || exists i :: 0 <= i < |s| && s[i] == '.' && Part(s[..i]) && Dotted(s[i + 1..])
  }

  lemma CharAtSame(a: string, b: string, i: nat, j: nat)
    requires i < |a| && j < |b| && a[i] == b[j] && (a[i] == '.' ==> 0 < i < |a| - 1 && 0 < j < |b| - 1)
    requires 0 < i && 0 < j ==> a[i - 1] == b[j - 1]
    requires i < |a| - 1 && j < |b| - 1 ==> a[i + 1] == b[j + 1]
    ensures DnsCharAt(a, i) <==> DnsCharAt(b, j)
  {
  }

  lemma {:induction false} LabelIsDotted(s: string)
    requires DnsLabel(s)
    ensures Dotted(s)
    decreases |s|
  {
    if '.' in s {
      var i := FirstDot(s);
      assert DnsCharAt(s, i);
      var head, tail := s[..i], s[i + 1..];
      forall k | 0 <= k < |head| ensures LowerOrDigit(head[k]) || head[k] == '-' {
        assert DnsCharAt(s, k) && head[k] in head;
      }
      forall k | 0 <= k < |tail| ensures DnsCharAt(tail, k) {
        assert DnsCharAt(s, i + 1 + k);
        if tail[k] == '.' {
          CharAtSame(tail, s, k, i + 1 + k);
        }
      }
      LabelIsDotted(tail);
    } else {
      forall k | 0 <= k < |s| ensures LowerOrDigit(s[k]) || s[k] == '-' {
        assert DnsCharAt(s, k);
      }
    }
  }

  lemma {:induction false} FirstDot(s: string) returns (i: nat)
    requires '.' in s
    ensures i < |s| && s[i] == '.' && '.' !in s[..i]
  {
    if s[0] == '.' {
      i := 0;
    } else {
      assert s == [s[0]] + s[1..];
      var k := FirstDot(s[1..]);
      i := k + 1;
      assert s[..i] == [s[0]] + s[1..][..k];
    }
  }

  lemma CharOfJoined(head: string, tail: string, s: string, k: nat)
    requires Part(head) && DnsLabel(tail) && s == head + "." + tail && k < |s|
    ensures DnsCharAt(s, k)
  {
    if k < |head| {
      assert s[k] == head[k];
    } else if k == |head| {
      assert s[k] == '.' && s[k - 1] == head[|head| - 1] && s[k + 1] == tail[0];
    } else {
      var j := k - |head| - 1;
      assert s[k] == tail[j] && DnsCharAt(tail, j);
      if s[k] == '.' {
        assert s[k - 1] == tail[j - 1] && s[k + 1] == tail[j + 1];
      }
    }
  }

  lemma JoinedIsLabel(head: string, tail: string, s: string)
    requires Part(head) && DnsLabel(tail) && s == head + "." + tail
    ensures DnsLabel(s)
  {
    assert s[0] == head[0] && Last(s) == Last(tail);
    forall k | 0 <= k < |s| ensures DnsCharAt(s, k) {
      CharOfJoined(head, tail, s, k);
    }
  }

  lemma CutIsLabel(s: string, i: nat)
    requires i < |s| && s[i] == '.' && Part(s[..i]) && DnsLabel(s[i + 1..])
    ensures DnsLabel(s)
  {
    assert s == s[..i] + "." + s[i + 1..];
    JoinedIsLabel(s[..i], s[i + 1..], s);
  }

  lemma {:induction false} DottedIsLabel(s: string)
    requires Dotted(s)
    ensures DnsLabel(s)
    decreases |s|
  {
    if !Part(s) {
      var i :| 0 <= i < |s| && s[i] == '.' && Part(s[..i]) && Dotted(s[i + 1..]);
      DottedIsLabel(s[i + 1..]);
      CutIsLabel(s, i);
    }
  }

  /** A label matches if it is dotted parts, or dotted parts and one newline. */
  lemma LabelExact(s: string)
    ensures DnsMatch(s) <==> Dotted(s) || (s != "" && s[|s| - 1] == '\n' && Dotted(s[..|s| - 1]))
  {
    if DnsLabel(s) {
      LabelIsDotted(s);
    }
    if Dotted(s) {
      DottedIsLabel(s);
    }
    if s != "" {
      if DnsLabel(Front(s)) {
        LabelIsDotted(Front(s));
      }
      if Dotted(Front(s)) {
        DottedIsLabel(Front(s));
      }
    }
  }

  // ---- Violations ----

  /** The organisation is the text before the first slash. */
  predicate OwnOrg(repo: string) {
    repo == "izzywdev" || "izzywdev/" <= repo
  }

  lemma {:induction false} OrgExact(repo: string, org: string)
    requires '/' !in org
    ensures OrgOf(repo) == org <==> repo == org || org + "/" <= repo
  {
    if repo == "" {
    } else if repo[0] == '/' {
      assert org == "" ==> org + "/" == "/" <= repo;
    } else if org == "" {
      assert repo != "" && !("" + "/" <= repo);
    } else {
      OrgExact(repo[1..], org[1..]);
      assert org == [org[0]] + org[1..] && repo == [repo[0]] + repo[1..];
      assert org + "/" == [org[0]] + (org[1..] + "/");
      if org + "/" <= repo {
        assert (org + "/")[1..] <= repo[1..];
      }
    }
  }

  /** What each violation says of an entry. */
  predicate Faults(v: Violation, e: Entry, repo: string, registry: Registry, reserved: set<string>) {
    match v
    case WrongOrg => false
    case NoApp => false
    case NoHosts => false
    case NoLabel => e.host == ""
    case Wildcard(host) => host == e.host && '*' in host
    case NotDns(host) => host == e.host != "" && '*' !in host && !DnsMatch(host)
    case Reserved(host) => host == e.host != "" && '*' !in host && host in reserved
    case BadAccess(host, access) => host == e.host != "" && '*' !in host && access == e.access != "bypass"
    case Taken(host, owner) =>
      && host == e.host != "" && '*' !in host
      && host in registry && registry[host] == owner && owner != "" && owner != repo
  }

  lemma EntryFaults(e: Entry, repo: string, registry: Registry, reserved: set<string>, v: Violation)
    ensures v in EntryErrors(repo, registry, reserved)(e) <==> Faults(v, e, repo, registry, reserved)
  {
  }

  /**
    A repository of another organisation has that violation alone; otherwise exactly the missing
    parts of the manifest and the faults of its entries are reported.
   */
  lemma ViolationsExact(repo: string, m: Manifest, registry: Registry, reserved: set<string>, v: Violation)
    ensures v in Errors(repo, m, registry, reserved) <==>
            if !OwnOrg(repo) then v == WrongOrg
            else
              || (v == NoApp && m.app == "")
              || (v == NoHosts && m.hosts == [])
              || exists i :: 0 <= i < |m.hosts| && Faults(v, m.hosts[i], repo, registry, reserved)
  {
    OrgExact(repo, "izzywdev");
    var faults := EntryErrors(repo, registry, reserved);
    GatherMember(m.hosts, faults, v);
    forall i | 0 <= i < |m.hosts|
      ensures v in faults(m.hosts[i]) <==> Faults(v, m.hosts[i], repo, registry, reserved)
    {
      EntryFaults(m.hosts[i], repo, registry, reserved, v);
    }
  }

  // ---- Lines ----

  /** A quoted name, an equals sign between blanks, a quoted name, and any text. */
  predicate EntrySpelled(s: string, host: string, before: string, after: string, repo: string, rest: string) {
    && host != "" && repo != "" && '"' !in host && '"' !in repo
    && AllBlank(before) && AllBlank(after)
    && s == "\"" + host + "\"" + (before + ("=" + (after + ("\"" + repo + "\"" + rest))))
  }

  lemma SpelledParses(s: string, host: string, before: string, after: string, repo: string, rest: string)
    requires EntrySpelled(s, host, before, after, repo, rest)
    ensures ParseLine(s) == Some((host, repo))
  {
    var quoted := "\"" + repo + "\"" + rest;
    var equals := "=" + (after + quoted);
    QuotedIs(host, before + equals);
    SkipBlanksPast(before, equals);
    assert equals[1..] == after + quoted;
    SkipBlanksPast(after, quoted);
    QuotedIs(repo, rest);
  }

  lemma QuotedSpells(s: string)
    requires Quoted(s).Some?
    ensures var (name, rest) := Quoted(s).value;
            name != "" && '"' !in name && s == "\"" + name + "\"" + rest
  {
    var n := ToQuote(s[1..]);
    ToQuoteExact(s[1..]);
    assert s[1..][..n] == s[1..n + 1] && s[1..][n] == s[n + 1];
    assert s == [s[0]] + s[1..n + 1] + [s[n + 1]] + s[n + 2..];
    assert s[1..n + 1] != [];
  }

  /** What follows the first name is blanks, an equals sign, blanks and the second name. */
  lemma RestSpells(tail: string) returns (before: string, after: string, rest: string)
    requires SkipBlanks(tail) != "" && SkipBlanks(tail)[0] == '=' && Quoted(SkipBlanks(SkipBlanks(tail)[1..])).Some?
    ensures AllBlank(before) && AllBlank(after)
    ensures var (repo, _) := Quoted(SkipBlanks(SkipBlanks(tail)[1..])).value;
            repo != "" && '"' !in repo && tail == before + ("=" + (after + ("\"" + repo + "\"" + rest)))
  {
    before := BlanksBefore(tail);
    var equals := SkipBlanks(tail);
    after := BlanksBefore(equals[1..]);
    QuotedSpells(SkipBlanks(equals[1..]));
    rest := Quoted(SkipBlanks(equals[1..])).value.1;
    assert equals == "=" + equals[1..];
  }

  lemma BlanksBefore(s: string) returns (blanks: string)
    ensures AllBlank(blanks) && s == blanks + SkipBlanks(s)
  {
    var i := SkipExact(s);
    blanks := s[..i];
  }

  lemma ParsedIsSpelled(s: string) returns (before: string, after: string, rest: string)
    requires ParseLine(s).Some?
    ensures EntrySpelled(s, ParseLine(s).value.0, before, after, ParseLine(s).value.1, rest)
  {
    QuotedSpells(s);
    before, after, rest := RestSpells(Quoted(s).value.1);
  }

  ghost predicate IsEntryLine(s: string, host: string, repo: string) {
    exists before, after, rest :: EntrySpelled(s, host, before, after, repo, rest)
  }

  /** Exactly the lines of that form are entries, and of no other host or repository. */
  lemma LineExact(s: string, host: string, repo: string)
    ensures ParseLine(s) == Some((host, repo)) <==> IsEntryLine(s, host, repo)
  {
    if ParseLine(s) == Some((host, repo)) {
      var before, after, rest := ParsedIsSpelled(s);
      assert EntrySpelled(s, host, before, after, repo, rest);
    }
    if before, after, rest :| EntrySpelled(s, host, before, after, repo, rest) {
      SpelledParses(s, host, before, after, repo, rest);
    }
  }

  // ---- The guard ----

  /** The texts differ at most in the case of letters. */
  predicate SameButCase(a: string, b: string) {
    && |a| == |b|
    && forall i :: 0 <= i < |a| ==>
         || a[i] == b[i]
         || ('A' <= a[i] <= 'Z' && a[i] as int + 32 == b[i] as int)
         || ('A' <= b[i] <= 'Z' && b[i] as int + 32 == a[i] as int)
  }

  predicate NoCapital(s: string) {
    forall i :: 0 <= i < |s| ==> !('A' <= s[i] <= 'Z')
  }

  lemma LowersTo(host: string, own: string)
    requires NoCapital(own)
    ensures LowerAll(host) == own <==> SameButCase(host, own)
  {
    LowerExact(host);
    if SameButCase(host, own) {
      assert forall i :: 0 <= i < |own| ==> LowerAll(host)[i] == own[i];
    }
    if LowerAll(host) == own {
      assert forall i :: 0 <= i < |own| ==> LowerAll(host)[i] == own[i];
    }
  }

  /**
    With infrastructure hosts in lower case, the guard reports exactly the hosts with a wildcard
    and those that are one of them in any spelling.
   */
  lemma GuardSeesCase(host: string, infra: set<string>)
    requires forall own :: own in infra ==> NoCapital(own)
    ensures Collides(host, infra) <==> '*' in host || exists own :: own in infra && SameButCase(host, own)
  {
    forall own | own in infra ensures LowerAll(host) == own <==> SameButCase(host, own) {
      LowersTo(host, own);
    }
  }

  // ---- Printed lines ----

  lemma {:induction false} WidestFits(hosts: seq<string>, i: nat)
    requires i < |hosts|
    ensures |hosts[i]| + 4 <= Width(hosts)
  {
    if i < |hosts| - 1 {
      WidestFits(Front(hosts), i);
    }
  }

  /** The equals signs of the printed entries stand in one column, two blanks after the longest host at least. */
  lemma EntriesAligned(repo: string, hosts: seq<string>, i: nat)
    requires i < |hosts|
    ensures var line, column := EntryLine(repo, Width(hosts), hosts[i]), Width(hosts) + 2;
            && column < |line| && line[column] == '=' && line[column - 1] == ' ' && line[column - 2] == ' '
            && line[..|hosts[i]| + 4] == "  \"" + hosts[i] + "\""
            && line[column..] == "= \"" + repo + "\" # " + hosts[i] + ".prod.fuzefront.com"
  {
    WidestFits(hosts, i);
    var quoted := "\"" + hosts[i] + "\"";
    var padded := Padded(quoted, Width(hosts));
    var tail := "= \"" + repo + "\" # " + hosts[i] + ".prod.fuzefront.com";
    assert |padded| == Width(hosts) && padded[..|quoted|] == quoted;
    assert EntryLine(repo, Width(hosts), hosts[i]) == "  " + padded + tail;
  }
}
