/**
  Text as the scripts read it line by line: the line breaks and blanks of Python strings,
  splitting into lines, and stripping blanks.
 */
module TextLines {
  import opened Common

  predicate LineBreak(c: char) {
    '\n' <= c <= '\r' || '\U{1C}' <= c <= '\U{1E}' || c == '\U{85}' || c == '\U{2028}' || c == '\U{2029}'
  }

  predicate Blank(c: char) {
    LineBreak(c) || c == ' ' || c == '\t' || c == '\U{1F}' || c == '\U{A0}' || c == '\U{1680}'
    || '\U{2000}' <= c <= '\U{200A}' || c == '\U{202F}' || c == '\U{205F}' || c == '\U{3000}'
  }

  predicate OneLine(s: string) {
    forall i :: 0 <= i < |s| ==> !LineBreak(s[i])
  }

  // ---- Splitting ----

  /** One more character in front of a text that has the given lines. */
  function InFront(c: char, lines: seq<string>): (r: seq<string>)
    ensures r != []
  {
    if LineBreak(c) then [""] + lines
    else if lines == [] then [[c]]
    else [[c] + lines[0]] + lines[1..]
  }

  lemma InFrontSplit(c: char, a: seq<string>, b: seq<string>)
    requires LineBreak(c) || a != []
    ensures InFront(c, a + b) == InFront(c, a) + b
  {
  }

  /** A carriage return before a newline ends a line of its own here; the line between is empty. */
  function Lines(s: string): (r: seq<string>)
    ensures r == [] <==> s == ""
  {
    if s == "" then [] else InFront(s[0], Lines(s[1..]))
  }

  lemma {:induction false} LinesOfOne(a: string, c: char)
    requires OneLine(a) && LineBreak(c)
    ensures Lines(a + [c]) == [a]
  {
    if a == "" {
      assert Lines([c]) == [""] + Lines([c][1..]);
    } else {
      assert (a + [c])[1..] == a[1..] + [c] && !LineBreak(a[0]);
      LinesOfOne(a[1..], c);
      assert a == [a[0]] + a[1..];
    }
  }

  /** Text cut after a line break splits into the lines of its two halves. */
  lemma {:induction false} LinesSplit(a: string, b: string)
    requires a == "" || LineBreak(Last(a))
    ensures Lines(a + b) == Lines(a) + Lines(b)
  {
    if a == "" {
      assert a + b == b;
    } else {
      assert (a + b)[1..] == a[1..] + b && (a + b)[0] == a[0];
      LinesSplit(a[1..], b);
      InFrontSplit(a[0], Lines(a[1..]), Lines(b));
    }
  }

  function EndLine(): string -> string {
    (l: string) => l + "\n"
  }

  /** Lines joined by newlines, with one more at the end. */
  function Unlines(ls: seq<string>): string {
    Gather(ls, EndLine())
  }

  predicate AllOneLine(ls: seq<string>) {
    forall i :: 0 <= i < |ls| ==> OneLine(ls[i])
  }

  /** No line holds a line break. */
  lemma {:induction false} LinesAreSingle(s: string)
    ensures AllOneLine(Lines(s))
  {
    if s != "" {
      LinesAreSingle(s[1..]);
    }
  }

  // ---- Stripping ----

  function SkipBlanks(s: string): (r: string)
    ensures |r| <= |s|
    ensures r == "" || !Blank(r[0])
  {
    if s != "" && Blank(s[0]) then SkipBlanks(s[1..]) else s
  }

  function DropBlanks(s: string): string {
    if s != "" && Blank(Last(s)) then DropBlanks(Front(s)) else s
  }

  function Strip(s: string): string {
    DropBlanks(SkipBlanks(s))
  }

  lemma {:induction false} StripKeepsStart(s: string)
    requires s != "" && !Blank(s[0])
    ensures var r := DropBlanks(s); r != "" && r[0] == s[0]
  {
    if Blank(Last(s)) {
      StripKeepsStart(Front(s));
    }
  }

  lemma {:induction false} SkipBlanksPast(blanks: string, s: string)
    requires forall c :: c in blanks ==> Blank(c)
    requires s == "" || !Blank(s[0])
    ensures SkipBlanks(blanks + s) == s
  {
    if blanks == "" {
      assert blanks + s == s;
    } else {
      assert (blanks + s)[1..] == blanks[1..] + s;
      SkipBlanksPast(blanks[1..], s);
    }
  }

  predicate AllBlank(s: string) {
    forall i :: 0 <= i < |s| ==> Blank(s[i])
  }

  lemma {:induction false} SkipExact(s: string) returns (i: nat)
    ensures i <= |s| && SkipBlanks(s) == s[i..] && AllBlank(s[..i])
  {
    if s != "" && Blank(s[0]) {
      var k := SkipExact(s[1..]);
      i := k + 1;
      assert s[..i] == [s[0]] + s[1..][..k];
    } else {
      i := 0;
    }
  }

  lemma {:induction false} DropExact(s: string) returns (j: nat)
    ensures j <= |s| && DropBlanks(s) == s[..j] && AllBlank(s[j..])
    ensures j > 0 ==> !Blank(s[j - 1])
  {
    if s != "" && Blank(Last(s)) {
      j := DropExact(Front(s));
      assert s[j..] == Front(s)[j..] + [Last(s)];
    } else {
      j := |s|;
    }
  }

  /** What is left lies between blanks, and neither begins nor ends with one. */
  predicate StrippedAt(s: string, i: nat, j: nat) {
    && i <= j <= |s| && AllBlank(s[..i]) && AllBlank(s[j..])
    && (i < j ==> !Blank(s[i]) && !Blank(s[j - 1]))
  }

  lemma StripExact(s: string) returns (i: nat, j: nat)
    ensures StrippedAt(s, i, j) && Strip(s) == s[i..j]
  {
    i := SkipExact(s);
    var k := DropExact(s[i..]);
    j := i + k;
    assert s[i..][..k] == s[i..j] && s[i..][k..] == s[j..];
    assert k > 0 ==> s[i..][k - 1] == s[j - 1] && s[i..][0] == s[i] == SkipBlanks(s)[0];
  }

  /** The line breaks and blanks by their code points. */
  lemma CharacterClasses(c: char)
    ensures LineBreak(c) <==> c as int in {10, 11, 12, 13, 28, 29, 30, 133, 8232, 8233}
    ensures Blank(c) <==> LineBreak(c) || 8192 <= c as int <= 8202
                          || c as int in {9, 31, 32, 160, 5760, 8239, 8287, 12288}
  {
  }

  // ---- Letter case ----

  function Lower(c: char): char {
    if 'A' <= c <= 'Z' then c - 'A' + 'a' else c
  }

  function LowerAll(s: string): string {
    seq(|s|, i requires 0 <= i < |s| => Lower(s[i]))
  }

  /** The text in lower case: the 26 capitals are shifted, and no other character changes. */
  lemma LowerExact(s: string)
    ensures |LowerAll(s)| == |s|
    ensures forall i :: 0 <= i < |s| ==>
              LowerAll(s)[i] as int == if 65 <= s[i] as int <= 90 then s[i] as int + 32 else s[i] as int
  {
  }
}
