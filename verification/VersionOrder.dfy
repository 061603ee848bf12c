/**
  The order on versions, its agreement with the precedence of section 11 of Semantic
  Versioning 2.0.0, and the bumps that must move a version up.
 */
module VersionOrder {
  import opened Common
  import opened Sorting
  import opened Versions

  function Order(pre: string): nat {
    if pre == "alpha" then 1 else if pre == "beta" then 2 else if pre == "rc" then 3 else 0
  }

  function NumberOf(v: Version): nat {
    if v.number.Some? then v.number.value else 0
  }

  function Compare(a: Version, b: Version): int {
    if a.major != b.major then (if a.major < b.major then -1 else 1)
    else if a.minor != b.minor then (if a.minor < b.minor then -1 else 1)
    else if a.patch != b.patch then (if a.patch < b.patch then -1 else 1)
    else if a.pre.None? && b.pre.Some? then 1
    else if a.pre.Some? && b.pre.None? then -1
    else if a.pre.Some? && b.pre.Some? then
      var x, y := Order(a.pre.value), Order(b.pre.value);
      if x != y then (if x < y then -1 else 1)
      else if NumberOf(a) < NumberOf(b) then -1
      else if NumberOf(a) > NumberOf(b) then 1
      else 0
    else 0
  }

  // ---- A total preorder ----

  predicate SameRank(a: Version, b: Version) {
    && a.major == b.major && a.minor == b.minor && a.patch == b.patch && a.pre.Some? == b.pre.Some?
    && (a.pre.Some? ==> Order(a.pre.value) == Order(b.pre.value) && NumberOf(a) == NumberOf(b))
  }

  /** Comparing either way round gives opposite signs; zero means equal rank and nothing else. */
  lemma CompareIsAntisymmetric(a: Version, b: Version)
    ensures Compare(a, b) == -Compare(b, a)
    ensures Compare(a, b) == 0 <==> SameRank(a, b)
  {
  }

  predicate AtMost(a: Version, b: Version) {
    Compare(a, b) <= 0
  }

  lemma CompareIsPreorder()
    ensures Preorder(AtMost)
  {
    forall a, b ensures AtMost(a, b) || AtMost(b, a) {
      CompareIsAntisymmetric(a, b);
    }
    forall a, b, c | AtMost(a, b) && AtMost(b, c) ensures AtMost(a, c) {
      CompareIsTransitive(a, b, c);
    }
  }

  lemma CompareIsTransitive(a: Version, b: Version, c: Version)
    requires Compare(a, b) <= 0 && Compare(b, c) <= 0
    ensures Compare(a, c) <= 0
    ensures Compare(a, c) == 0 ==> Compare(a, b) == 0 && Compare(b, c) == 0
  {
  }

  // ---- As lists of numbers ----

  /** An identifier that is not one of the three documented ones counts as 0. */
  function Place(identifier: string): int {
    match identifier
    case "alpha" => 1
    case "beta" => 2
    case "rc" => 3
    case _ => 0
  }

  /** The numbers that rank a version; a release counts after its pre-releases. */
  function Ranking(v: Version): seq<int> {
    [v.major, v.minor, v.patch]
    + match v.pre
      case None => [1, 0, 0]
      case Some(identifier) => [0, Place(identifier), match v.number case Some(n) => n case None => 0]
  }

  /** At the first place where they differ `a` has the smaller number. */
  predicate LessAtFirst(a: seq<int>, b: seq<int>) {
    exists i :: 0 <= i < |a| && i < |b| && a[i] < b[i] && forall j :: 0 <= j < i ==> a[j] == b[j]
  }

  lemma CompareExact(a: Version, b: Version)
    ensures Compare(a, b) < 0 <==> LessAtFirst(Ranking(a), Ranking(b))
    ensures Compare(a, b) == 0 <==> Ranking(a) == Ranking(b)
  {
    var x, y := Ranking(a), Ranking(b);
    SixPlaces(a);
    SixPlaces(b);
    LexicographicBy(x, y);
  }

  lemma SixPlaces(v: Version)
    ensures var x := Ranking(v);
            && |x| == 6 && x[0] == v.major && x[1] == v.minor && x[2] == v.patch
            && x[3] == (if v.pre.None? then 1 else 0)
            && x[4] == (if v.pre.None? then 0 else Order(v.pre.value))
            && x[5] == (if v.pre.None? then 0 else NumberOf(v))
  {
  }

  lemma LexicographicBy(x: seq<int>, y: seq<int>)
    requires |x| == |y| == 6
    ensures LessAtFirst(x, y) <==>
            if x[0] != y[0] then x[0] < y[0] else if x[1] != y[1] then x[1] < y[1]
            else if x[2] != y[2] then x[2] < y[2] else if x[3] != y[3] then x[3] < y[3]
            else if x[4] != y[4] then x[4] < y[4] else x[5] < y[5]
  {
    if x != y {
      var i := if x[0] != y[0] then 0 else if x[1] != y[1] then 1 else if x[2] != y[2] then 2
               else if x[3] != y[3] then 3 else if x[4] != y[4] then 4 else 5;
      assert x[i] != y[i] && forall j :: 0 <= j < i ==> x[j] == y[j];
    }
  }

  // ---- Precedence by Semantic Versioning ----

  datatype Identifier = Word(text: string) | Numeric(value: nat)

  function SignOf(less: bool, equal: bool): int {
    if equal then 0 else if less then -1 else 1
  }

  /** Numeric identifiers by value, others in code-point order, numeric ones first. */
  function CompareIdentifiers(a: Identifier, b: Identifier): int {
    match (a, b)
    case (Numeric(m), Numeric(n)) => SignOf(m < n, m == n)
    case (Word(s), Word(t)) => SignOf(StrLe(s, t), s == t)
    case (Numeric(_), Word(_)) => -1
    case (Word(_), Numeric(_)) => 1
  }

  /** The first difference decides; a longer list of identifiers comes after its own beginning. */
  function CompareLists(a: seq<Identifier>, b: seq<Identifier>): int {
    if a == [] || b == [] then SignOf(|a| < |b|, |a| == |b|)
    else if CompareIdentifiers(a[0], b[0]) != 0 then CompareIdentifiers(a[0], b[0])
    else CompareLists(a[1..], b[1..])
  }

  function Identifiers(v: Version): seq<Identifier> {
    if v.pre.None? then []
    else [Word(v.pre.value)] + if v.number.Some? then [Numeric(v.number.value)] else []
  }

  function Precedence(a: Version, b: Version): int {
    if a.major != b.major then SignOf(a.major < b.major, false)
    else if a.minor != b.minor then SignOf(a.minor < b.minor, false)
    else if a.patch != b.patch then SignOf(a.patch < b.patch, false)
    else if a.pre.None? || b.pre.None? then SignOf(a.pre.Some?, a.pre.Some? == b.pre.Some?)
    else CompareLists(Identifiers(a), Identifiers(b))
  }

  predicate Documented(v: Version) {
    v.pre.Some? ==> v.pre.value in ["alpha", "beta", "rc"]
  }

  /** The same pre-release of the same version, once with no number and once with the number 0. */
  predicate ZeroAgainstNone(a: Version, b: Version) {
    && a.major == b.major && a.minor == b.minor && a.patch == b.patch
    && a.pre.Some? && a.pre == b.pre
    && {a.number, b.number} == {None, Some(0)}
  }

  lemma DocumentedOrder(s: string, t: string)
    requires s in ["alpha", "beta", "rc"] && t in ["alpha", "beta", "rc"]
    ensures SignOf(StrLe(s, t), s == t) == SignOf(Order(s) < Order(t), Order(s) == Order(t))
  {
    var a, b, r := "alpha", "beta", "rc";
    assert StrLe(a, b) && StrLe(b, r) && StrLe(a, r);
    assert !StrLe(b, a) && !StrLe(r, b) && !StrLe(r, a);
  }

  function Tail(v: Version): seq<Identifier> {
    if v.number.Some? then [Numeric(v.number.value)] else []
  }

  lemma TailsCompare(a: Version, b: Version)
    ensures CompareLists(Tail(a), Tail(b))
            == if {a.number, b.number} == {None, Some(0)} then SignOf(a.number.None?, false)
               else SignOf(NumberOf(a) < NumberOf(b), NumberOf(a) == NumberOf(b))
  {
    if a.number.Some? && b.number.Some? {
      assert Tail(a)[1..] == [] && Tail(b)[1..] == [];
      assert {a.number, b.number} != {None, Some(0)} by {
        assert None !in {a.number, b.number};
      }
    } else if a.number.None? && b.number.None? {
      assert Some(0) !in {a.number, b.number};
    } else if NumberOf(a) + NumberOf(b) > 0 {
      assert (if a.number.Some? then a.number else b.number) !in {None, Some(0)};
    }
  }

  /** For alpha, beta and rc the order is the standard's, except between no number and the number 0. */
  lemma AgreesWithSemVer(a: Version, b: Version)
    requires Documented(a) && Documented(b)
    ensures Compare(a, b) == Precedence(a, b) <==> !ZeroAgainstNone(a, b)
  {
    if a.pre.Some? && b.pre.Some? {
      DocumentedOrder(a.pre.value, b.pre.value);
      assert Identifiers(a)[1..] == Tail(a) && Identifiers(b)[1..] == Tail(b);
      TailsCompare(a, b);
    }
  }

  // ---- Bumps ----

  datatype Bumped = NewVersion(version: Version) | InvalidKind(kind: string)

  function FirstNumber(pre: Option<string>): Option<nat> {
    if pre.Some? && pre.value != "" then Some(1) else None
  }

  function Bump(current: Version, kind: string, pre: Option<string>, build: Option<string>): Bumped {
    if kind == "major" then
      NewVersion(Version(current.major + 1, 0, 0, pre, FirstNumber(pre), build))
    else if kind == "minor" then
      NewVersion(Version(current.major, current.minor + 1, 0, pre, FirstNumber(pre), build))
    else if kind == "patch" then
      NewVersion(Version(current.major, current.minor, current.patch + 1, pre, FirstNumber(pre), build))
    else if kind == "pre-release" then
      var number := if current.pre == pre then NumberOf(current) + 1 else 1;
      NewVersion(Version(current.major, current.minor, current.patch,
                         if pre.Some? && pre.value != "" then pre else current.pre, Some(number), build))
    else InvalidKind(kind)
  }

  predicate Increases(current: Version, kind: string, pre: Option<string>, build: Option<string>) {
    var b := Bump(current, kind, pre, build);
    b.NewVersion? && Compare(current, b.version) < 0
  }

  lemma ReleaseBumpIncreases(current: Version, kind: string, pre: Option<string>, build: Option<string>)
    requires kind in ["major", "minor", "patch"]
    ensures Increases(current, kind, pre, build)
  {
  }

  datatype Core = Core(major: nat, minor: nat, patch: nat)

  predicate CoreLess(a: Core, b: Core) {
    || a.major < b.major
    || (a.major == b.major && a.minor < b.minor)
    || (a.major == b.major && a.minor == b.minor && a.patch < b.patch)
  }

  /** The version numbers a bump may choose from: above the current ones in the part it names. */
  predicate Above(current: Version, kind: string, c: Core) {
    || c.major > current.major
    || (kind != "major" && c.major == current.major && c.minor > current.minor)
    || (kind == "patch" && c.major == current.major && c.minor == current.minor && c.patch > current.patch)
  }

  /** A release bump takes the least of those numbers, so what it does not name starts over at 0. */
  lemma BumpIsLeast(current: Version, kind: string, pre: Option<string>, build: Option<string>, c: Core)
    requires kind in ["major", "minor", "patch"] && Above(current, kind, c)
    ensures var b := Bump(current, kind, pre, build);
            && b.NewVersion?
            && var least := Core(b.version.major, b.version.minor, b.version.patch);
               && Above(current, kind, least) && !CoreLess(c, least)
               && b.version.pre == pre && b.version.build == build
               && (b.version.number == Some(1) <==> pre.Some? && pre.value != "")
               && (b.version.number == None <==> pre.None? || pre.value == "")
  {
    assert "major"[0] != "minor"[0] || "major"[1] != "minor"[1];
    assert "patch"[0] != "major"[0] && "patch"[0] != "minor"[0];
  }

  /** A pre-release bump under the same identifier is the next version of that identifier: none lies between. */
  lemma PreReleaseIsNext(current: Version, build: Option<string>, v: Version)
    requires current.pre.Some? && current.pre.value != ""
    requires v.pre == current.pre && Compare(current, v) < 0
    requires v.major == current.major && v.minor == current.minor && v.patch == current.patch
    ensures var b := Bump(current, "pre-release", current.pre, build).version;
            && Compare(current, b) < 0 && Compare(b, v) <= 0 && b.pre == current.pre && b.build == build
            && b.major == current.major && b.minor == current.minor && b.patch == current.patch
  {
  }

  /** Under another identifier it is the first one of that identifier, on the same numbers. */
  lemma PreReleaseStartsAtOne(current: Version, pre: string, build: Option<string>)
    requires pre != "" && current.pre != Some(pre)
    ensures Bump(current, "pre-release", Some(pre), build)
            == NewVersion(Version(current.major, current.minor, current.patch, Some(pre), Some(1), build))
  {
  }

  /** When a pre-release bump moves the version up: seen from the current version and the argument alone. */
  predicate PreReleaseMovesUp(current: Version, pre: Option<string>) {
    && current.pre.Some?
    && (current.pre == pre || (if pre.None? || pre.value == "" then NumberOf(current) == 0
                               else Order(current.pre.value) < Order(pre.value)
                                    || (Order(current.pre.value) == Order(pre.value) && NumberOf(current) == 0)))
  }

  lemma PreReleaseBumpExact(current: Version, pre: Option<string>, build: Option<string>)
    ensures Increases(current, "pre-release", pre, build) <==> PreReleaseMovesUp(current, pre)
  {
  }

  /** Given alpha, beta or rc it increases exactly from a pre-release of the same or a lower identifier. */
  lemma DocumentedBumpExact(current: Version, pre: string, build: Option<string>)
    requires pre in ["alpha", "beta", "rc"]
    ensures Increases(current, "pre-release", Some(pre), build)
            <==> current.pre.Some? && (current.pre.value == pre || Order(current.pre.value) < Order(pre))
  {
    PreReleaseBumpExact(current, Some(pre), build);
    if current.pre.Some? && Order(current.pre.value) == Order(pre) {
      assert current.pre.value == pre;
    }
  }

  /** With no identifier given, the bump of a numbered pre-release starts over at 1. */
  lemma UnnamedBumpStartsOver(current: Version, build: Option<string>)
    requires current.pre.Some? && NumberOf(current) > 1
    ensures var b := Bump(current, "pre-release", None, build);
            b.version.pre == current.pre && Compare(b.version, current) < 0
  {
  }

  /**
    A bump of a well-formed version by an identifier and build text that can be written is well
    formed, except the pre-release bump of a release with no identifier.
   */
  lemma BumpWellFormed(current: Version, kind: string, pre: Option<string>, build: Option<string>)
    requires kind in ["major", "minor", "patch", "pre-release"]
    requires WellFormed(current)
    requires (pre.Some? ==> Versions.Word(pre.value)) && (build.Some? ==> BuildText(build.value))
    ensures WellFormed(Bump(current, kind, pre, build).version)
            <==> !(kind == "pre-release" && pre.None? && current.pre.None?)
  {
  }

  /** Such a bump therefore survives being written and read again. */
  lemma BumpRoundTrips(current: Version, kind: string, pre: Option<string>, build: Option<string>)
    requires kind in ["major", "minor", "patch", "pre-release"]
    requires WellFormed(current)
    requires (pre.Some? ==> Versions.Word(pre.value)) && (build.Some? ==> BuildText(build.value))
    ensures var next := Bump(current, kind, pre, build).version;
            Parse(Print(next)) == Some(next) <==> !(kind == "pre-release" && pre.None? && current.pre.None?)
  {
    BumpWellFormed(current, kind, pre, build);
    PrintThenParse(Bump(current, kind, pre, build).version);
  }

  // ---- Histories of bumps ----

  datatype Request = Request(kind: string, pre: Option<string>, build: Option<string>)

  /** The bump is one that must move the version up: seen from the version and the request alone. */
  predicate MovesUp(current: Version, r: Request) {
    r.kind in ["major", "minor", "patch"] || (r.kind == "pre-release" && PreReleaseMovesUp(current, r.pre))
  }

  /** The version after a number of requests; an invalid one changes nothing. */
  function VersionAfter(start: Version, rs: seq<Request>): Version {
    if rs == [] then start
    else
      var v := VersionAfter(start, Front(rs));
      match Bump(v, Last(rs).kind, Last(rs).pre, Last(rs).build)
      case NewVersion(next) => next
      case InvalidKind(_) => v
  }

  lemma NextVersion(start: Version, rs: seq<Request>, i: nat)
    requires i < |rs| && MovesUp(VersionAfter(start, rs[..i]), rs[i])
    ensures Compare(VersionAfter(start, rs[..i]), VersionAfter(start, rs[..i + 1])) < 0
  {
    assert Front(rs[..i + 1]) == rs[..i] && Last(rs[..i + 1]) == rs[i];
    var v := VersionAfter(start, rs[..i]);
    if rs[i].kind == "pre-release" {
      PreReleaseBumpExact(v, rs[i].pre, rs[i].build);
    } else {
      ReleaseBumpIncreases(v, rs[i].kind, rs[i].pre, rs[i].build);
    }
  }

  /** Over every such history each version is above all earlier ones, so none is ever issued again. */
  lemma {:induction false} VersionsClimb(start: Version, rs: seq<Request>, i: nat, j: nat)
    requires i < j <= |rs|
    requires forall k :: 0 <= k < |rs| ==> MovesUp(VersionAfter(start, rs[..k]), rs[k])
    ensures Compare(VersionAfter(start, rs[..i]), VersionAfter(start, rs[..j])) < 0
  {
    NextVersion(start, rs, j - 1);
    if i < j - 1 {
      VersionsClimb(start, rs, i, j - 1);
      CompareIsTransitive(VersionAfter(start, rs[..i]), VersionAfter(start, rs[..j - 1]), VersionAfter(start, rs[..j]));
    }
  }
}
