/**
  The stable workload name behind a pod, which makes the dedup key of pod findings survive
  the replacement of the pod. Names hold no newline.
 */
module PodNames {
  import opened Common

  datatype Owner = Owner(kind: string, name: string)

  /** `namespace` is empty when missing, `name` likewise. */
  datatype Pod = Pod(hasNamespace: bool, namespace: string, name: string, owners: seq<Owner>)

  predicate All(s: string, digitsOnly: bool) {
    forall i :: 0 <= i < |s| ==> if digitsOnly then Digit(s[i]) else LowerAlnum(s[i])
  }

  /** Length of the longest tail of allowed characters. */
  function TailLength(s: string, digitsOnly: bool): (n: nat)
    ensures n <= |s|
  {
    if s == [] || !All([Last(s)], digitsOnly) then 0 else 1 + TailLength(Front(s), digitsOnly)
  }

  lemma {:induction false} TailIsSuffix(stem: string, suffix: string, digitsOnly: bool)
    requires forall i :: 0 <= i < |suffix| ==> suffix[i] != '-'
    ensures var n := TailLength(stem + "-" + suffix, digitsOnly);
            if All(suffix, digitsOnly) then n == |suffix| else n < |suffix|
  {
    var s := stem + "-" + suffix;
    if suffix == "" {
      assert Last(s) == '-';
    } else {
      assert Front(s) == stem + "-" + Front(suffix);
      TailIsSuffix(stem, Front(suffix), digitsOnly);
      assert All(suffix, digitsOnly) == (All(Front(suffix), digitsOnly) && All([Last(suffix)], digitsOnly)) by {
        assert suffix == Front(suffix) + [Last(suffix)];
        assert [Last(suffix)][0] == suffix[|suffix| - 1];
      }
    }
  }

  /** Drop a final "-" with `lo` to `hi` allowed characters after it, if the name ends so. */
  function Strip(s: string, digitsOnly: bool, lo: nat, hi: nat): string {
    var n := TailLength(s, digitsOnly);
    if lo <= n <= hi && n < |s| && s[|s| - n - 1] == '-' then s[..|s| - n - 1] else s
  }

  /** Stripping undoes appending an allowed suffix of the right length, and touches nothing else. */
  lemma StripUndoes(stem: string, suffix: string, digitsOnly: bool, lo: nat, hi: nat)
    requires forall i :: 0 <= i < |suffix| ==> suffix[i] != '-'
    ensures Strip(stem + "-" + suffix, digitsOnly, lo, hi)
            == if All(suffix, digitsOnly) && lo <= |suffix| <= hi then stem else stem + "-" + suffix
  {
    var s := stem + "-" + suffix;
    TailIsSuffix(stem, suffix, digitsOnly);
    assert s[..|stem|] == stem && s[|stem|] == '-';
    var n := TailLength(s, digitsOnly);
    if n < |suffix| {
      assert s[|s| - n - 1] == suffix[|suffix| - n - 1];
    }
  }

  function StripHash(s: string): string {
    Strip(s, false, 5, 10)
  }

  function StripEpoch(s: string): string {
    Strip(s, true, 6, 11)
  }

  function Or(s: string, fallback: string): string {
    if s == "" then fallback else s
  }

  /** The name an owner gives, if its kind is one that is read and it has a name. */
  function OwnerName(o: Owner): Option<string> {
    if o.name == "" then None
    else if o.kind == "ReplicaSet" then Some(Or(StripHash(o.name), o.name))
    else if o.kind == "Job" then Some(Or(StripEpoch(o.name), o.name))
    else if o.kind == "StatefulSet" || o.kind == "DaemonSet" then Some(o.name)
    else None
  }

  function FirstOwner(owners: seq<Owner>): Option<string> {
    if owners == [] then None
    else if OwnerName(owners[0]).Some? then OwnerName(owners[0])
    else FirstOwner(owners[1..])
  }

  function StableName(pod: Pod): string {
    var name := Or(pod.name, "<unnamed>");
    var owner := FirstOwner(pod.owners);
    if owner.Some? then owner.value else Or(StripEpoch(StripHash(name)), name)
  }

  function StableSubject(pod: Pod): string {
    (if pod.hasNamespace then pod.namespace else "default") + "/" + StableName(pod)
  }

  method StableWorkloadName(pod: Pod) returns (r: string)
    ensures r == StableName(pod)
  {
    for i := 0 to |pod.owners|
      invariant FirstOwner(pod.owners) == FirstOwner(pod.owners[i..])
    {
      var owner := pod.owners[i];
      assert pod.owners[i..][0] == owner && pod.owners[i..][1..] == pod.owners[i + 1..];
      if owner.name == "" {
        continue;
      }
      if owner.kind == "ReplicaSet" {
        return Or(StripHash(owner.name), owner.name);
      }
      if owner.kind == "Job" {
        return Or(StripEpoch(owner.name), owner.name);
      }
      if owner.kind == "StatefulSet" || owner.kind == "DaemonSet" {
        return owner.name;
      }
    }
    var name := Or(pod.name, "<unnamed>");
    r := Or(StripEpoch(StripHash(name)), name);
  }

  /** A ReplicaSet of the Deployment, as Kubernetes names it. */
  predicate OwnedBy(pod: Pod, deployment: string, hash: string) {
    && deployment != "" && 5 <= |hash| <= 10 && All(hash, false)
    && pod.owners != [] && pod.owners[0] == Owner("ReplicaSet", deployment + "-" + hash)
  }

  /** A Deployment's pods keep one subject whatever ReplicaSet owns them and however they are named. */
  lemma DeploymentKeepsOneSubject(a: Pod, b: Pod, deployment: string, ha: string, hb: string)
    requires OwnedBy(a, deployment, ha) && OwnedBy(b, deployment, hb)
    requires a.hasNamespace == b.hasNamespace && a.namespace == b.namespace
    ensures StableName(a) == deployment && StableSubject(a) == StableSubject(b)
  {
    StripUndoes(deployment, ha, false, 5, 10);
    StripUndoes(deployment, hb, false, 5, 10);
  }

  /** A CronJob's pods keep one name across its Jobs. */
  lemma CronJobKeepsOneName(pod: Pod, cron: string, epoch: string)
    requires cron != "" && 6 <= |epoch| <= 11 && All(epoch, true)
    requires pod.owners != [] && pod.owners[0] == Owner("Job", cron + "-" + epoch)
    ensures StableName(pod) == cron
  {
    StripUndoes(cron, epoch, true, 6, 11);
    assert "Job"[0] != "ReplicaSet"[0];
  }

  /**
    Without owner references only the pod suffix is stripped: the name is the Deployment's
    exactly when the ReplicaSet hash happens to look like an epoch, and keeps the hash otherwise.
   */
  lemma OwnerlessPodKeepsHash(pod: Pod, deployment: string, hash: string, suffix: string)
    requires pod.owners == [] && pod.name == deployment + "-" + hash + "-" + suffix
    requires deployment != "" && 5 <= |hash| <= 10 && All(hash, false) && |suffix| == 5 && All(suffix, false)
    ensures StableName(pod) == (if All(hash, true) && 6 <= |hash| then deployment else deployment + "-" + hash)
  {
    StripUndoes(deployment + "-" + hash, suffix, false, 5, 10);
    StripUndoes(deployment, hash, true, 6, 11);
  }

  // ---- The name of any pod ----

  /** The name ends in a hyphen and `lo` to `hi` characters, digits or also lower-case letters, after `n` others. */
  predicate EndsInSuffix(s: string, n: nat, digitsOnly: bool, lo: nat, hi: nat) {
    && n < |s| && s[n] == '-' && lo <= |s| - n - 1 <= hi
    && forall i :: n < i < |s| ==> '0' <= s[i] <= '9' || (!digitsOnly && 'a' <= s[i] <= 'z')
  }

  lemma SuffixIsTail(s: string, n: nat, digitsOnly: bool, lo: nat, hi: nat)
    requires EndsInSuffix(s, n, digitsOnly, lo, hi)
    ensures TailLength(s, digitsOnly) == |s| - n - 1
  {
    assert s == s[..n] + "-" + s[n + 1..];
    TailIsSuffix(s[..n], s[n + 1..], digitsOnly);
  }

  lemma {:induction false} TailAllowed(s: string, digitsOnly: bool)
    ensures var n := TailLength(s, digitsOnly);
            forall i :: |s| - n <= i < |s| ==> '0' <= s[i] <= '9' || (!digitsOnly && 'a' <= s[i] <= 'z')
  {
    if s != [] && All([Last(s)], digitsOnly) {
      TailAllowed(Front(s), digitsOnly);
      assert [Last(s)][0] == s[|s| - 1];
    }
  }

  /** `r` is the name without such a suffix if it has one and more than that, and the name otherwise. */
  ghost predicate Shortened(s: string, r: string, digitsOnly: bool, lo: nat, hi: nat) {
    || (exists n: nat :: EndsInSuffix(s, n, digitsOnly, lo, hi) && r == s[..n])
    || (r == s && forall n: nat :: !EndsInSuffix(s, n, digitsOnly, lo, hi))
  }

  lemma SuffixIsSeen(s: string, digitsOnly: bool, lo: nat, hi: nat)
    ensures (exists k: nat :: EndsInSuffix(s, k, digitsOnly, lo, hi)) ==>
              var n := TailLength(s, digitsOnly); lo <= n <= hi && n < |s| && s[|s| - n - 1] == '-'
  {
    if k: nat :| EndsInSuffix(s, k, digitsOnly, lo, hi) {
      SuffixIsTail(s, k, digitsOnly, lo, hi);
    }
  }

  lemma StripExact(s: string, digitsOnly: bool, lo: nat, hi: nat)
    ensures Shortened(s, Strip(s, digitsOnly, lo, hi), digitsOnly, lo, hi)
  {
    var n := TailLength(s, digitsOnly);
    TailAllowed(s, digitsOnly);
    SuffixIsSeen(s, digitsOnly, lo, hi);
    if lo <= n <= hi && n < |s| && s[|s| - n - 1] == '-' {
      assert EndsInSuffix(s, |s| - n - 1, digitsOnly, lo, hi);
    }
  }

  predicate Usable(o: Owner) {
    o.name != "" && o.kind in ["ReplicaSet", "Job", "StatefulSet", "DaemonSet"]
  }

  predicate FirstUsable(owners: seq<Owner>, i: nat) {
    i < |owners| && Usable(owners[i]) && forall j :: 0 <= j < i ==> !Usable(owners[j])
  }

  lemma {:induction false} FirstOwnerExact(owners: seq<Owner>)
    ensures forall i: nat :: FirstUsable(owners, i) ==> FirstOwner(owners) == OwnerName(owners[i])
    ensures (forall i :: 0 <= i < |owners| ==> !Usable(owners[i])) ==> FirstOwner(owners) == None
  {
    if owners != [] && !Usable(owners[0]) {
      FirstOwnerExact(owners[1..]);
      forall i: nat | FirstUsable(owners, i) ensures FirstOwner(owners) == OwnerName(owners[i]) {
        forall j | 0 <= j < i - 1 ensures !Usable(owners[1..][j]) {
          assert !Usable(owners[j + 1]);
        }
        assert FirstUsable(owners[1..], i - 1) && owners[1..][i - 1] == owners[i];
      }
    }
  }

  /** The names that the source falls back on when nothing is left. */
  ghost predicate NamedAfter(r: string, o: Owner) {
    match o.kind
    case "ReplicaSet" => exists t :: Shortened(o.name, t, false, 5, 10) && r == if t == "" then o.name else t
    case "Job" => exists t :: Shortened(o.name, t, true, 6, 11) && r == if t == "" then o.name else t
    case _ => r == o.name
  }

  /** Shortened by the hash of a ReplicaSet's pod and then by the epoch of a Job's. */
  ghost predicate NamedAfterItself(r: string, name: string) {
    exists t, u :: Shortened(name, t, false, 5, 10) && Shortened(t, u, true, 6, 11) && r == if u == "" then name else u
  }

  lemma OwnerNameExact(o: Owner)
    requires Usable(o)
    ensures OwnerName(o).Some? && NamedAfter(OwnerName(o).value, o)
  {
    StripExact(o.name, false, 5, 10);
    StripExact(o.name, true, 6, 11);
    assert "Job"[0] != "ReplicaSet"[0] && "StatefulSet"[0] != "ReplicaSet"[0] && "StatefulSet"[0] != "Job"[0];
    assert "DaemonSet"[0] != "ReplicaSet"[0] && "DaemonSet"[0] != "Job"[0];
  }

  /** The stable name of any pod: after its first owner with a name and a known kind, or after itself. */
  lemma StableNameExact(pod: Pod)
    ensures forall i: nat :: FirstUsable(pod.owners, i) ==> NamedAfter(StableName(pod), pod.owners[i])
    ensures (forall i :: 0 <= i < |pod.owners| ==> !Usable(pod.owners[i])) ==>
              NamedAfterItself(StableName(pod), if pod.name == "" then "<unnamed>" else pod.name)
    ensures pod.hasNamespace ==> StableSubject(pod) == pod.namespace + "/" + StableName(pod)
    ensures !pod.hasNamespace ==> StableSubject(pod) == "default" + "/" + StableName(pod)
  {
    FirstOwnerExact(pod.owners);
    forall i: nat | FirstUsable(pod.owners, i) ensures NamedAfter(StableName(pod), pod.owners[i]) {
      OwnerNameExact(pod.owners[i]);
    }
    var name := if pod.name == "" then "<unnamed>" else pod.name;
    StripExact(name, false, 5, 10);
    StripExact(StripHash(name), true, 6, 11);
  }
}
