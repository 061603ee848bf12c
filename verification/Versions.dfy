/**
  Versions: the printed form, the pattern that reads it, the order on versions, and the
  bumps that make the next one.
 */
module Versions {
  import opened Common

  datatype Version = Version(
    major: nat, minor: nat, patch: nat,
    pre: Option<string>, number: Option<nat>, build: Option<string>)

  // ---- Decimal numerals ----

  predicate Letter(c: char) {
    'a' <= c <= 'z' || 'A' <= c <= 'Z'
  }

  predicate All(p: char -> bool, s: string) {
    forall i :: 0 <= i < |s| ==> p(s[i])
  }

  function Decimal(n: nat): (s: string)
    ensures s != "" && All(Digit, s)
  {
    var last := ['0' + (n % 10) as char];
    if n < 10 then last else Decimal(n / 10) + last
  }

  function Value(s: string): nat
    requires All(Digit, s)
  {
    if s == "" then 0 else Value(Front(s)) * 10 + (Last(s) - '0') as nat
  }

  predicate NoLeadingZero(s: string) {
    s == "0" || (s != "" && s[0] != '0')
  }

  lemma {:induction false} DecimalValue(n: nat)
    ensures Value(Decimal(n)) == n
    ensures NoLeadingZero(Decimal(n)) && (n > 0 ==> Decimal(n)[0] != '0')
  {
    var last := ['0' + (n % 10) as char];
    if n >= 10 {
      DecimalValue(n / 10);
      assert Front(Decimal(n)) == Decimal(n / 10) && Last(Decimal(n)) == last[0];
    } else {
      assert Front(last) == "";
    }
  }

  lemma {:induction false} ValueDecimal(s: string)
    requires s != "" && All(Digit, s) && NoLeadingZero(s)
    ensures Decimal(Value(s)) == s
  {
    var d := (Last(s) - '0') as nat;
    if |s| == 1 {
      assert Value(Front(s)) == 0;
      assert s == [Last(s)];
    } else {
      ValueDecimal(Front(s));
      NotZero(Front(s));
      assert Value(s) / 10 == Value(Front(s)) && Value(s) % 10 == d;
      assert s == Front(s) + [Last(s)];
    }
  }

  lemma {:induction false} NotZero(s: string)
    requires s != "" && All(Digit, s) && s[0] != '0'
    ensures Value(s) > 0
  {
    if |s| > 1 {
      NotZero(Front(s));
    }
  }

  /** A numeral is printed back exactly when it has no leading zero. */
  lemma NumeralExact(s: string)
    requires s != "" && All(Digit, s)
    ensures Decimal(Value(s)) == s <==> NoLeadingZero(s)
  {
    DecimalValue(Value(s));
    if NoLeadingZero(s) {
      ValueDecimal(s);
    }
  }

  // ---- The parts of a version text ----

  datatype Suffix = Suffix(word: string, number: Option<string>)
  datatype Parts = Parts(major: string, minor: string, patch: string, suffix: Option<Suffix>, build: Option<string>)

  predicate Numeral(s: string) {
    s != "" && All(Digit, s)
  }

  predicate Word(s: string) {
    s != "" && All(Letter, s)
  }

  predicate NotNewline(c: char) {
    c != '\n'
  }

  predicate BuildText(s: string) {
    s != "" && All(NotNewline, s)
  }

  predicate SuffixFits(x: Suffix) {
    Word(x.word) && (x.number.Some? ==> Numeral(x.number.value))
  }

  predicate Fits(p: Parts) {
    && Numeral(p.major) && Numeral(p.minor) && Numeral(p.patch)
    && (p.suffix.Some? ==> SuffixFits(p.suffix.value))
    && (p.build.Some? ==> BuildText(p.build.value))
  }

  function SpellBuild(build: Option<string>): string {
    if build.Some? then "+" + build.value else ""
  }

  function SpellNumber(number: Option<string>): string {
    if number.Some? then "." + number.value else ""
  }

  function SpellSuffix(x: Option<Suffix>): string {
    if x.Some? then "-" + x.value.word + SpellNumber(x.value.number) else ""
  }

  function Spell(p: Parts): string {
    p.major + ("." + (p.minor + ("." + (p.patch + (SpellSuffix(p.suffix) + SpellBuild(p.build))))))
  }

  // ---- The pattern ----

  function Span(p: char -> bool, s: string): (n: nat)
    ensures n <= |s| && All(p, s[..n])
    ensures n < |s| ==> !p(s[n])
  {
    if s == "" || !p(s[0]) then 0
    else
      var n := 1 + Span(p, s[1..]);
      assert s[..n] == [s[0]] + s[1..][..n - 1];
      n
  }

  function MatchBuild(s: string): Option<Option<string>> {
    if s == "" then Some(None)
    else if s[0] == '+' && BuildText(s[1..]) then Some(Some(s[1..]))
    else None
  }

  /** A dot and digits at the start of `s`, if they are there. */
  function MatchNumber(s: string): (Option<string>, string) {
    if s != "" && s[0] == '.' && Span(Digit, s[1..]) > 0 then
      var n := Span(Digit, s[1..]);
      (Some(s[1..][..n]), s[1..][n..])
    else (None, s)
  }

  /** The parts after the three numbers. */
  function MatchTail(s: string): Option<(Option<Suffix>, Option<string>)> {
    if s == "" || s[0] != '-' then
      match MatchBuild(s) case None => None case Some(build) => Some((None, build))
    else
      var n := Span(Letter, s[1..]);
      if n == 0 then None
      else
        var (number, rest) := MatchNumber(s[1..][n..]);
        match MatchBuild(rest) case None => None case Some(build) => Some((Some(Suffix(s[1..][..n], number)), build))
  }

  /** Digits at the start of `s`, then a dot. */
  function MatchDotted(s: string): Option<(string, string)> {
    var n := Span(Digit, s);
    if n == 0 || n == |s| || s[n] != '.' then None else Some((s[..n], s[n + 1..]))
  }

  function MatchThird(s: string): Option<(string, Option<Suffix>, Option<string>)> {
    var n := Span(Digit, s);
    if n == 0 then None
    else match MatchTail(s[n..]) case None => None case Some((suffix, build)) => Some((s[..n], suffix, build))
  }

  function Match(s: string): Option<Parts> {
    match MatchDotted(s)
    case None => None
    case Some((major, s1)) =>
      match MatchDotted(s1)
      case None => None
      case Some((minor, s2)) =>
        match MatchThird(s2)
        case None => None
        case Some((patch, suffix, build)) => Some(Parts(major, minor, patch, suffix, build))
  }

  /** The end of the pattern also matches before one final newline. */
  function Chomp(s: string): string {
    if s != "" && Last(s) == '\n' then Front(s) else s
  }

  lemma {:induction false} SpanIs(p: char -> bool, a: string, b: string)
    requires All(p, a) && (b == "" || !p(b[0]))
    ensures Span(p, a + b) == |a|
  {
    if a == "" {
      assert a + b == b;
    } else {
      assert (a + b)[1..] == a[1..] + b;
      SpanIs(p, a[1..], b);
    }
  }

  lemma BuildMatches(build: Option<string>)
    requires build.Some? ==> BuildText(build.value)
    ensures MatchBuild(SpellBuild(build)) == Some(build)
  {
    if build.Some? {
      assert ("+" + build.value)[1..] == build.value;
    }
  }

  lemma NumberMatches(number: Option<string>, rest: string)
    requires number.Some? ==> Numeral(number.value)
    requires rest == "" || rest[0] == '+'
    ensures MatchNumber(SpellNumber(number) + rest) == (number, rest)
  {
    var s := SpellNumber(number) + rest;
    if number.Some? {
      assert s[1..] == number.value + rest;
      SpanIs(Digit, number.value, rest);
      assert s[1..][..|number.value|] == number.value && s[1..][|number.value|..] == rest;
    } else {
      assert s == rest;
    }
  }

  lemma WordMatches(word: string, after: string)
    requires Word(word) && (after == "" || !Letter(after[0]))
    ensures var s := "-" + word + after;
            Span(Letter, s[1..]) == |word| && s[1..][..|word|] == word && s[1..][|word|..] == after
  {
    assert ("-" + word + after)[1..] == word + after;
    SpanIs(Letter, word, after);
  }

  lemma SuffixMatches(x: Suffix, build: Option<string>, end: string)
    requires SuffixFits(x) && MatchBuild(end) == Some(build) && (end == "" || end[0] == '+')
    ensures MatchTail(SpellSuffix(Some(x)) + end) == Some((Some(x), build))
  {
    NumberMatches(x.number, end);
    WordThenNumber(x.word, SpellNumber(x.number) + end, x.number, end, build);
    SuffixSpelled(x, end);
  }

  lemma SuffixSpelled(x: Suffix, end: string)
    ensures SpellSuffix(Some(x)) + end == "-" + x.word + (SpellNumber(x.number) + end)
  {
  }

  /** What follows the hyphen is read as a word, then a number, then the build. */
  lemma WordThenNumber(word: string, after: string, number: Option<string>, end: string, build: Option<string>)
    requires Word(word) && (after == "" || !Letter(after[0]))
    requires MatchNumber(after) == (number, end) && MatchBuild(end) == Some(build)
    ensures MatchTail("-" + word + after) == Some((Some(Suffix(word, number)), build))
  {
    WordMatches(word, after);
  }

  lemma TailMatches(suffix: Option<Suffix>, build: Option<string>)
    requires suffix.Some? ==> SuffixFits(suffix.value)
    requires build.Some? ==> BuildText(build.value)
    ensures MatchTail(SpellSuffix(suffix) + SpellBuild(build)) == Some((suffix, build))
  {
    BuildMatches(build);
    var end := SpellBuild(build);
    if suffix.Some? {
      SuffixMatches(suffix.value, build, end);
    } else {
      assert "" + end == end;
    }
  }

  lemma DottedMatches(digits: string, rest: string)
    requires Numeral(digits)
    ensures MatchDotted(digits + ("." + rest)) == Some((digits, rest))
  {
    SpanIs(Digit, digits, "." + rest);
    assert (digits + ("." + rest))[|digits| + 1..] == rest;
  }

  lemma ThirdMatches(patch: string, suffix: Option<Suffix>, build: Option<string>)
    requires Numeral(patch) && (suffix.Some? ==> SuffixFits(suffix.value)) && (build.Some? ==> BuildText(build.value))
    ensures MatchThird(patch + (SpellSuffix(suffix) + SpellBuild(build))) == Some((patch, suffix, build))
  {
    var tail := SpellSuffix(suffix) + SpellBuild(build);
    SpanIs(Digit, patch, tail);
    assert (patch + tail)[|patch|..] == tail;
    TailMatches(suffix, build);
  }

  /** The pattern finds the parts a text was spelled from. */
  lemma SpelledMatches(p: Parts)
    requires Fits(p)
    ensures Match(Spell(p)) == Some(p)
  {
    var third := p.patch + (SpellSuffix(p.suffix) + SpellBuild(p.build));
    DottedMatches(p.major, p.minor + ("." + third));
    DottedMatches(p.minor, third);
    ThirdMatches(p.patch, p.suffix, p.build);
  }

  lemma BuildSpells(s: string)
    requires MatchBuild(s).Some?
    ensures var build := MatchBuild(s).value;
            (build.Some? ==> BuildText(build.value)) && SpellBuild(build) == s
  {
  }

  lemma NumberSpells(s: string)
    ensures var (number, rest) := MatchNumber(s);
            (number.Some? ==> Numeral(number.value)) && SpellNumber(number) + rest == s
  {
    if s != "" && s[0] == '.' {
      assert s == "." + s[1..];
    }
  }

  lemma SuffixSpells(word: string, after: string, build: Option<string>)
    requires Word(word) && MatchBuild(MatchNumber(after).1) == Some(build)
    ensures var x := Suffix(word, MatchNumber(after).0);
            SuffixFits(x) && SpellSuffix(Some(x)) + SpellBuild(build) == "-" + word + after
  {
    NumberSpells(after);
    BuildSpells(MatchNumber(after).1);
  }

  /** The matched tail is of the right form and spells the text. */
  predicate TailFits(tail: (Option<Suffix>, Option<string>), s: string) {
    && (tail.0.Some? ==> SuffixFits(tail.0.value)) && (tail.1.Some? ==> BuildText(tail.1.value))
    && SpellSuffix(tail.0) + SpellBuild(tail.1) == s
  }

  lemma WordTailSpells(word: string, after: string, s: string)
    requires Word(word) && MatchBuild(MatchNumber(after).1).Some? && s == "-" + word + after
    ensures TailFits((Some(Suffix(word, MatchNumber(after).0)), MatchBuild(MatchNumber(after).1).value), s)
  {
    SuffixSpells(word, after, MatchBuild(MatchNumber(after).1).value);
    BuildSpells(MatchNumber(after).1);
  }

  lemma Pieces(s: string, n: nat)
    requires s != "" && s[0] == '-' && n < |s|
    ensures s == "-" + s[1..][..n] + s[1..][n..]
  {
  }

  lemma SuffixTailSpells(s: string)
    requires MatchTail(s).Some? && s != "" && s[0] == '-'
    ensures TailFits(MatchTail(s).value, s)
  {
    var n := Span(Letter, s[1..]);
    Pieces(s, n);
    WordTailSpells(s[1..][..n], s[1..][n..], s);
  }

  lemma BuildTailSpells(s: string)
    requires MatchTail(s).Some? && (s == "" || s[0] != '-')
    ensures TailFits(MatchTail(s).value, s)
  {
    BuildSpells(s);
    assert "" + s == s;
  }

  lemma TailSpells(s: string)
    requires MatchTail(s).Some?
    ensures TailFits(MatchTail(s).value, s)
  {
    if s != "" && s[0] == '-' {
      SuffixTailSpells(s);
    } else {
      BuildTailSpells(s);
    }
  }

  lemma ThirdSpells(s: string)
    requires MatchThird(s).Some?
    ensures var (patch, suffix, build) := MatchThird(s).value;
            && Numeral(patch) && (suffix.Some? ==> SuffixFits(suffix.value)) && (build.Some? ==> BuildText(build.value))
            && patch + (SpellSuffix(suffix) + SpellBuild(build)) == s
  {
    TailSpells(s[Span(Digit, s)..]);
  }

  lemma DottedSpells(s: string)
    requires MatchDotted(s).Some?
    ensures var (digits, rest) := MatchDotted(s).value;
            Numeral(digits) && digits + ("." + rest) == s
  {
  }

  /** Matched parts are of the right form and spell the text. */
  lemma MatchedSpells(s: string)
    requires Match(s).Some?
    ensures Fits(Match(s).value) && Spell(Match(s).value) == s
  {
    DottedSpells(s);
    var s1 := MatchDotted(s).value.1;
    DottedSpells(s1);
    ThirdSpells(MatchDotted(s1).value.1);
  }

  // ---- Printing and parsing ----

  function PrintSuffix(v: Version): string {
    if v.pre.Some? && v.pre.value != "" then
      "-" + v.pre.value + (if v.number.Some? then "." + Decimal(v.number.value) else "")
    else ""
  }

  function Print(v: Version): string {
    Decimal(v.major) + "." + Decimal(v.minor) + "." + Decimal(v.patch) + PrintSuffix(v)
    + (if v.build.Some? && v.build.value != "" then "+" + v.build.value else "")
  }

  function Read(p: Parts): Version
    requires Fits(p)
  {
    Version(Value(p.major), Value(p.minor), Value(p.patch),
            if p.suffix.Some? then Some(p.suffix.value.word) else None,
            if p.suffix.Some? && p.suffix.value.number.Some? then Some(Value(p.suffix.value.number.value)) else None,
            p.build)
  }

  function Parse(s: string): Option<Version> {
    if Match(Chomp(s)).Some? then
      MatchedSpells(Chomp(s));
      Some(Read(Match(Chomp(s)).value))
    else None
  }

  predicate WellFormed(v: Version) {
    && (v.pre.Some? ==> Word(v.pre.value))
    && (v.number.Some? ==> v.pre.Some?)
    && (v.build.Some? ==> BuildText(v.build.value))
  }

  function SuffixOf(v: Version): Option<Suffix> {
    if v.pre.None? then None
    else Some(Suffix(v.pre.value, if v.number.Some? then Some(Decimal(v.number.value)) else None))
  }

  function PartsOf(v: Version): Parts {
    Parts(Decimal(v.major), Decimal(v.minor), Decimal(v.patch), SuffixOf(v), v.build)
  }

  lemma PrintSpells(v: Version)
    requires WellFormed(v)
    ensures Fits(PartsOf(v)) && Print(v) == Spell(PartsOf(v))
  {
    assert PrintSuffix(v) == SpellSuffix(SuffixOf(v));
    Regroup(Decimal(v.major), Decimal(v.minor), Decimal(v.patch), PrintSuffix(v), SpellBuild(v.build));
  }

  lemma Regroup(a: string, b: string, c: string, d: string, e: string)
    ensures a + "." + b + "." + c + d + e == a + ("." + (b + ("." + (c + (d + e)))))
  {
  }

  lemma ReadBack(v: Version)
    requires WellFormed(v)
    ensures Fits(PartsOf(v)) && Read(PartsOf(v)) == v
  {
    DecimalValue(v.major);
    DecimalValue(v.minor);
    DecimalValue(v.patch);
    if v.number.Some? {
      DecimalValue(v.number.value);
    }
  }

  lemma EndsInLine(v: Version)
    requires WellFormed(v)
    ensures Chomp(Print(v)) == Print(v)
  {
    var s := Print(v);
    if v.build.Some? {
      assert Last(s) == Last(v.build.value);
    } else if v.number.Some? {
      assert Last(s) == Last(Decimal(v.number.value));
    } else if v.pre.Some? {
      assert Last(s) == Last(v.pre.value);
    } else {
      assert Last(s) == Last(Decimal(v.patch));
    }
  }

  /** Parsing the printed form returns the version exactly when the version is well formed. */
  lemma PrintThenParse(v: Version)
    ensures Parse(Print(v)) == Some(v) <==> WellFormed(v)
  {
    if WellFormed(v) {
      PrintSpells(v);
      ReadBack(v);
      EndsInLine(v);
      SpelledMatches(PartsOf(v));
    } else if Parse(Print(v)).Some? {
      ParsedIsWellFormed(Print(v));
    }
  }

  lemma ParsedIsWellFormed(s: string)
    requires Parse(s).Some?
    ensures WellFormed(Parse(s).value)
  {
    MatchedSpells(Chomp(s));
  }

  predicate PartsCanonical(p: Parts) {
    && NoLeadingZero(p.major) && NoLeadingZero(p.minor) && NoLeadingZero(p.patch)
    && (p.suffix.Some? && p.suffix.value.number.Some? ==> NoLeadingZero(p.suffix.value.number.value))
  }

  lemma CanonicalParts(p: Parts)
    requires Fits(p)
    ensures PartsOf(Read(p)) == p <==> PartsCanonical(p)
  {
    NumeralExact(p.major);
    NumeralExact(p.minor);
    NumeralExact(p.patch);
    if p.suffix.Some? && p.suffix.value.number.Some? {
      NumeralExact(p.suffix.value.number.value);
    }
  }

  /** Printing a parsed text returns it exactly when no number has a leading zero and no newline ends it. */
  lemma ParseThenPrint(s: string)
    requires Parse(s).Some?
    ensures Print(Parse(s).value) == s <==> PartsCanonical(Match(Chomp(s)).value) && Chomp(s) == s
  {
    MatchedSpells(Chomp(s));
    var p := Match(Chomp(s)).value;
    var v := Read(p);
    ParsedIsWellFormed(s);
    PrintSpells(v);
    EndsInLine(v);
    CanonicalParts(p);
    SpelledMatches(PartsOf(v));
    SpelledMatches(p);
  }

  // ---- The characters ----

  predicate Digits(s: string) {
    s != "" && forall i :: 0 <= i < |s| ==> s[i] in "0123456789"
  }

  predicate Letters(s: string) {
    s != "" && forall i :: 0 <= i < |s| ==> 'A' <= s[i] <= 'Z' || 'a' <= s[i] <= 'z'
  }

  /** The numbers are digits, the identifier is letters, and the build text is anything on one line. */
  lemma FitsExact(p: Parts)
    ensures Fits(p) <==>
            && Digits(p.major) && Digits(p.minor) && Digits(p.patch)
            && (p.suffix.Some? ==>
                  Letters(p.suffix.value.word)
                  && (p.suffix.value.number.Some? ==> Digits(p.suffix.value.number.value)))
            && (p.build.Some? ==> p.build.value != "" && '\n' !in p.build.value)
  {
  }

  /** A version is well formed if its identifier and build text are of that form, and only an identifier is numbered. */
  lemma WellFormedExact(v: Version)
    ensures WellFormed(v) <==>
            && (v.pre.Some? ==> Letters(v.pre.value)) && (v.number.Some? ==> v.pre.Some?)
            && (v.build.Some? ==> v.build.value != "" && '\n' !in v.build.value)
  {
  }

  // ---- Exactly what is a version ----

  /** The text has these parts, and perhaps one newline at its end. */
  predicate Spelled(s: string, p: Parts, end: string) {
    && (end == "" || end == "\n")
    && s == p.major + "." + p.minor + "." + p.patch
            + (match p.suffix
               case None => ""
               case Some(x) => "-" + x.word + (match x.number case None => "" case Some(n) => "." + n))
            + (match p.build case None => "" case Some(b) => "+" + b)
            + end
  }

  lemma SpellIsSpelled(p: Parts, end: string)
    requires end == "" || end == "\n"
    ensures Spelled(Spell(p) + end, p, end)
  {
    Regroup(p.major, p.minor, p.patch, SpellSuffix(p.suffix), SpellBuild(p.build));
  }

  lemma SpelledIsSpell(s: string, p: Parts, end: string)
    requires Spelled(s, p, end)
    ensures s == Spell(p) + end
  {
    Regroup(p.major, p.minor, p.patch, SpellSuffix(p.suffix), SpellBuild(p.build));
  }

  lemma NoNewlineAtEnd(p: Parts)
    requires Fits(p)
    ensures Spell(p) != "" && Last(Spell(p)) != '\n'
  {
    var s := Spell(p);
    if p.build.Some? {
      assert Last(s) == Last(p.build.value);
    } else if p.suffix.Some? && p.suffix.value.number.Some? {
      assert Last(s) == Last(p.suffix.value.number.value);
    } else if p.suffix.Some? {
      assert Last(s) == Last(p.suffix.value.word);
    } else {
      assert Last(s) == Last(p.patch);
    }
  }

  lemma ChompEnd(p: Parts, end: string)
    requires Fits(p) && (end == "" || end == "\n")
    ensures Chomp(Spell(p) + end) == Spell(p)
  {
    NoNewlineAtEnd(p);
    if end == "" {
      assert Spell(p) + end == Spell(p);
    } else {
      assert Front(Spell(p) + end) == Spell(p);
    }
  }

  ghost predicate IsVersionText(s: string, v: Version) {
    exists p, end :: Fits(p) && Spelled(s, p, end) && ReadAs(p, v)
  }

  /** The version that the parts stand for. */
  predicate ReadAs(p: Parts, v: Version)
    requires Fits(p)
  {
    && v.major == Value(p.major) && v.minor == Value(p.minor) && v.patch == Value(p.patch) && v.build == p.build
    && match p.suffix
       case None => v.pre == None && v.number == None
       case Some(x) =>
         && v.pre == Some(x.word)
         && match x.number case None => v.number == None case Some(n) => v.number == Some(Value(n))
  }

  /** Exactly the texts of that form are versions, each of the version its parts stand for. */
  lemma ParseExact(s: string, v: Version)
    ensures Parse(s) == Some(v) <==> IsVersionText(s, v)
  {
    if Parse(s) == Some(v) {
      ParsedIsText(s, v);
    }
    if p, end :| Fits(p) && Spelled(s, p, end) && ReadAs(p, v) {
      SpelledIsSpell(s, p, end);
      ChompEnd(p, end);
      SpelledMatches(p);
    }
  }

  lemma Chomped(s: string) returns (end: string)
    ensures (end == "" || end == "\n") && s == Chomp(s) + end
  {
    if s != "" && Last(s) == '\n' {
      end := "\n";
      assert s == Front(s) + [Last(s)];
    } else {
      end := "";
    }
  }

  lemma ReadIsReadAs(p: Parts)
    requires Fits(p)
    ensures ReadAs(p, Read(p))
  {
  }

  lemma SpelledText(s: string, p: Parts, end: string)
    requires Fits(p) && s == Spell(p) + end && (end == "" || end == "\n")
    ensures IsVersionText(s, Read(p))
  {
    SpellIsSpelled(p, end);
    ReadIsReadAs(p);
    assert Fits(p) && Spelled(s, p, end) && ReadAs(p, Read(p));
  }

  lemma ParsedIsText(s: string, v: Version)
    requires Parse(s) == Some(v)
    ensures IsVersionText(s, v)
  {
    MatchedSpells(Chomp(s));
    var end := Chomped(s);
    SpelledText(s, Match(Chomp(s)).value, end);
  }
}
