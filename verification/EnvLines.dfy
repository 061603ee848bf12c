/**
  Lines of an environment file: reading with their line ends, the variable a line defines,
  and the map a list of lines stands for.
 */
module EnvLines {
  import opened Common
  import opened TextLines

  // ---- Reading and writing ----

  /** Reading in text mode turns every line end into a newline. */
  function Translate(s: string): (r: string)
    ensures '\r' !in r
    decreases |s|
  {
    if s == "" then ""
    else if s[0] == '\r' then "\n" + Translate(if |s| > 1 && s[1] == '\n' then s[2..] else s[1..])
    else [s[0]] + Translate(s[1..])
  }

  /** A carriage return with the newline after it, if one follows, becomes one newline; all else stays. */
  lemma TranslateExact(s: string)
    ensures s != "" && s[0] != '\n' ==> Translate("\r" + s) == "\n" + Translate(s)
    ensures Translate("\r\n" + s) == "\n" + Translate(s)
    ensures forall c :: c != '\r' ==> Translate([c] + s) == [c] + Translate(s)
    ensures Translate("\r") == "\n" && Translate("") == ""
  {
    assert ("\r" + s)[1..] == s && ("\r\n" + s)[2..] == s && "\r"[1..] == "";
    forall c | c != '\r' ensures Translate([c] + s) == [c] + Translate(s) {
      assert ([c] + s)[1..] == s;
    }
  }

  /** One more character in front of a text that has the given lines. */
  function LineInFront(c: char, lines: seq<string>): (r: seq<string>)
    ensures r != []
  {
    if c == '\n' then ["\n"] + lines
    else if lines == [] then [[c]]
    else [[c] + lines[0]] + lines[1..]
  }

  /** The lines of a text, each with its newline. */
  function ReadLines(s: string): (r: seq<string>)
    ensures r == [] <==> s == ""
  {
    if s == "" then [] else LineInFront(s[0], ReadLines(s[1..]))
  }

  function Same(): string -> string {
    (l: string) => l
  }

  function WriteLines(lines: seq<string>): string {
    Gather(lines, Same())
  }

  /** What is read back after writing the lines. */
  function Reread(lines: seq<string>): seq<string> {
    ReadLines(Translate(WriteLines(lines)))
  }

  predicate Plain(s: string) {
    forall i :: 0 <= i < |s| ==> s[i] != '\n' && s[i] != '\r'
  }

  /** A line as it is read: a newline at most at its end. */
  predicate FileLine(s: string) {
    s != "" && Plain(Front(s)) && Last(s) != '\r'
  }

  predicate Ended(s: string) {
    s != "" && Last(s) == '\n'
  }

  /** The lines of a file: only the last may lack its newline. */
  predicate Proper(lines: seq<string>) {
    && (forall i :: 0 <= i < |lines| ==> FileLine(lines[i]))
    && (forall i :: 0 <= i < |lines| - 1 ==> Ended(lines[i]))
  }

  lemma LineInFrontProper(c: char, lines: seq<string>)
    requires c != '\r' && Proper(lines)
    ensures Proper(LineInFront(c, lines))
  {
    var r := LineInFront(c, lines);
    if c == '\n' {
      assert forall i :: 1 <= i < |r| ==> r[i] == lines[i - 1];
    } else if lines != [] {
      assert FileLine(lines[0]);
      assert Front([c] + lines[0]) == [c] + Front(lines[0]) && Last([c] + lines[0]) == Last(lines[0]);
      assert forall i :: 1 <= i < |r| ==> r[i] == lines[i];
    }
  }

  lemma {:induction false} ReadsProper(s: string)
    requires '\r' !in s
    ensures Proper(ReadLines(s))
  {
    if s != "" {
      ReadsProper(s[1..]);
      LineInFrontProper(s[0], ReadLines(s[1..]));
    }
  }

  lemma LineInFrontSplit(c: char, a: seq<string>, b: seq<string>)
    requires c == '\n' || a != []
    ensures LineInFront(c, a + b) == LineInFront(c, a) + b
  {
  }

  lemma {:induction false} ReadSplit(a: string, b: string)
    requires a == "" || Ended(a)
    ensures ReadLines(a + b) == ReadLines(a) + ReadLines(b)
  {
    if a == "" {
      assert a + b == b;
    } else {
      assert (a + b)[1..] == a[1..] + b && (a + b)[0] == a[0];
      ReadSplit(a[1..], b);
      LineInFrontSplit(a[0], ReadLines(a[1..]), ReadLines(b));
    }
  }

  lemma {:induction false} ReadOne(line: string)
    requires FileLine(line)
    ensures ReadLines(line) == [line]
  {
    if |line| > 1 {
      assert Front(line)[0] == line[0];
      assert forall i :: 0 <= i < |Front(line[1..])| ==> Front(line[1..])[i] == Front(line)[i + 1];
      ReadOne(line[1..]);
      assert line == [line[0]] + line[1..];
    } else {
      assert line == [line[0]] && ReadLines(line[1..]) == [];
    }
  }

  lemma {:induction false} WriteThenRead(lines: seq<string>)
    requires Proper(lines)
    ensures ReadLines(WriteLines(lines)) == lines
    ensures '\r' !in WriteLines(lines)
    ensures lines != [] && Ended(Last(lines)) ==> Ended(WriteLines(lines))
  {
    if lines != [] {
      var front, last := Front(lines), Last(lines);
      assert FileLine(last);
      assert front != [] ==> Ended(lines[|front| - 1]);
      WriteThenRead(front);
      ReadSplit(WriteLines(front), last);
      ReadOne(last);
      assert '\r' !in last by {
        assert last == Front(last) + [Last(last)];
      }
      assert lines == front + [last];
    }
  }

  lemma {:induction false} TranslateNothing(s: string)
    requires '\r' !in s
    ensures Translate(s) == s
  {
    if s != "" {
      TranslateNothing(s[1..]);
      assert s == [s[0]] + s[1..];
    }
  }

  /** Lines of a proper file are read back as they were written. */
  lemma RereadsProper(lines: seq<string>)
    requires Proper(lines)
    ensures Reread(lines) == lines
  {
    WriteThenRead(lines);
    TranslateNothing(WriteLines(lines));
  }

  /** Text without a carriage return at its end is translated on its own. */
  lemma {:induction false} TranslateSplit(a: string, b: string)
    requires a == "" || Last(a) != '\r'
    ensures Translate(a + b) == Translate(a) + Translate(b)
    decreases |a|
  {
    if a == "" {
      assert a + b == b;
    } else {
      var n := if a[0] == '\r' && a[1] == '\n' then 2 else 1;
      assert (a + b)[n..] == a[n..] + b && (a + b)[0] == a[0];
      assert a[0] == '\r' ==> (a + b)[1] == a[1];
      assert a[n..] == "" || Last(a[n..]) == Last(a);
      TranslateSplit(a[n..], b);
    }
  }

  lemma {:induction false} TranslateEnds(s: string)
    requires Ended(s)
    ensures Ended(Translate(s))
    decreases |s|
  {
    var n := if s[0] == '\r' && |s| > 1 && s[1] == '\n' then 2 else 1;
    if n < |s| {
      assert Last(s[n..]) == Last(s);
      TranslateEnds(s[n..]);
    } else {
      assert Translate(s[n..]) == "";
    }
  }

  lemma WriteConcat(a: seq<string>, b: seq<string>)
    ensures WriteLines(a + b) == WriteLines(a) + WriteLines(b)
  {
    GatherConcat(a, b, Same());
  }

  lemma WriteOne(line: string)
    ensures WriteLines([line]) == line
  {
    GatherOne(line, Same());
  }

  /** Lines written after a text that ends its last line are read back after it. */
  lemma RereadSplit(a: seq<string>, b: seq<string>)
    requires WriteLines(a) == "" || Ended(WriteLines(a))
    ensures Reread(a + b) == Reread(a) + Reread(b)
  {
    WriteConcat(a, b);
    TranslateSplit(WriteLines(a), WriteLines(b));
    if WriteLines(a) != "" {
      TranslateEnds(WriteLines(a));
    }
    ReadSplit(Translate(WriteLines(a)), Translate(WriteLines(b)));
  }

  // ---- The variable of a line ----

  function ToEquals(s: string): (n: nat)
    ensures n <= |s|
  {
    if s == "" || s[0] == '=' then 0 else 1 + ToEquals(s[1..])
  }

  function Defined(s: string): map<string, string> {
    if s == "" || s[0] == '#' || ToEquals(s) == |s| then map[]
    else map[Strip(s[..ToEquals(s)]) := Strip(s[ToEquals(s) + 1..])]
  }

  function VarOf(): string -> map<string, string> {
    (line: string) => Defined(Strip(line))
  }

  /** The variables of the file, a later line winning. */
  function Env(lines: seq<string>): map<string, string> {
    Merge(lines, VarOf())
  }

  predicate Trimmed(s: string) {
    s == "" || (!Blank(s[0]) && !Blank(Last(s)))
  }

  predicate Key(s: string) {
    Trimmed(s) && Plain(s) && '=' !in s && (s == "" || s[0] != '#')
  }

  predicate Text(s: string) {
    Trimmed(s) && Plain(s)
  }

  lemma TrimmedStays(s: string)
    requires Trimmed(s)
    ensures Strip(s) == s
  {
  }

  lemma {:induction false} DropTrims(s: string)
    ensures var r := DropBlanks(s); r == "" || (!Blank(Last(r)) && r[0] == s[0])
  {
    if s != "" && Blank(Last(s)) {
      DropTrims(Front(s));
    }
  }

  lemma StripTrims(s: string)
    ensures Trimmed(Strip(s))
  {
    DropTrims(SkipBlanks(s));
  }

  lemma {:induction false} SkipKeepsPlain(s: string)
    ensures Plain(s) ==> Plain(SkipBlanks(s))
    ensures FileLine(s) ==> SkipBlanks(s) == "" || FileLine(SkipBlanks(s))
  {
    if s != "" && Blank(s[0]) {
      if FileLine(s) && |s| > 1 {
        assert forall i :: 0 <= i < |Front(s[1..])| ==> Front(s[1..])[i] == Front(s)[i + 1];
      }
      SkipKeepsPlain(s[1..]);
    }
  }

  lemma {:induction false} DropKeepsPlain(s: string)
    requires Plain(s)
    ensures Plain(DropBlanks(s))
  {
    if s != "" && Blank(Last(s)) {
      DropKeepsPlain(Front(s));
    }
  }

  lemma StripPlain(s: string)
    requires Plain(s)
    ensures Plain(Strip(s))
  {
    SkipKeepsPlain(s);
    DropKeepsPlain(SkipBlanks(s));
  }

  lemma StripLine(line: string)
    requires FileLine(line)
    ensures Plain(Strip(line))
  {
    SkipKeepsPlain(line);
    var s := SkipBlanks(line);
    if s != "" {
      if Blank(Last(s)) {
        DropKeepsPlain(Front(s));
      } else {
        assert s == Front(s) + [Last(s)];
      }
    }
  }

  lemma {:induction false} ToEqualsIs(key: string, rest: string)
    requires '=' !in key && (rest == "" || rest[0] == '=')
    ensures ToEquals(key + rest) == |key|
  {
    if key == "" {
      assert key + rest == rest;
    } else {
      assert (key + rest)[1..] == key[1..] + rest && (key + rest)[0] == key[0];
      ToEqualsIs(key[1..], rest);
    }
  }

  lemma {:induction false} ToEqualsExact(s: string)
    ensures '=' !in s[..ToEquals(s)]
  {
    if s != "" && s[0] != '=' {
      ToEqualsExact(s[1..]);
      assert s[..ToEquals(s)] == [s[0]] + s[1..][..ToEquals(s[1..])];
    }
  }

  lemma OneStrip(s: string, i: nat, j: nat, k: nat, m: nat)
    requires StrippedAt(s, i, j) && StrippedAt(s, k, m)
    ensures s[i..j] == s[k..m]
  {
    NotOutside(s, i, j, k, m);
    NotOutside(s, k, m, i, j);
  }

  lemma NotOutside(s: string, i: nat, j: nat, k: nat, m: nat)
    requires StrippedAt(s, i, j) && StrippedAt(s, k, m)
    ensures i < j ==> k <= i && j <= m
  {
    assert forall p :: 0 <= p < k ==> s[..k][p] == s[p];
    assert forall p :: m <= p < |s| ==> s[m..][p - m] == s[p];
  }

  /** The stripped line assigns: it is no comment and `n` is the place of its first equals sign. */
  predicate AssignsAt(s: string, n: nat) {
    n < |s| && s[0] != '#' && s[n] == '=' && '=' !in s[..n]
  }

  lemma {:induction false} ToEqualsFirst(s: string, n: nat)
    requires n < |s| && s[n] == '=' && '=' !in s[..n]
    ensures ToEquals(s) == n
    decreases n
  {
    if n > 0 {
      assert s[..n] == [s[0]] + s[1..][..n - 1];
      ToEqualsFirst(s[1..], n - 1);
    }
  }

  lemma {:induction false} NoEquals(s: string)
    requires '=' !in s
    ensures ToEquals(s) == |s|
  {
    if s != "" {
      assert s == [s[0]] + s[1..];
      NoEquals(s[1..]);
    }
  }

  lemma AssignmentAt(s: string, n: nat)
    requires AssignsAt(s, n)
    ensures Defined(s) == map[Strip(s[..n]) := Strip(s[n + 1..])]
  {
    ToEqualsFirst(s, n);
  }

  lemma NoAssignment(s: string)
    requires s == "" || s[0] == '#' || '=' !in s
    ensures Defined(s) == map[]
  {
    if '=' !in s {
      NoEquals(s);
    }
  }

  lemma VarOfStripped(line: string, i: nat, j: nat)
    requires StrippedAt(line, i, j)
    ensures VarOf()(line) == Defined(line[i..j])
  {
    var k, m := StripExact(line);
    OneStrip(line, i, j, k, m);
  }

  /** What a line defines: between its outer blanks, the text before the first equals sign has the value after it. */
  lemma LineAssigns(line: string, i: nat, j: nat, n: nat)
    requires StrippedAt(line, i, j) && AssignsAt(line[i..j], n)
    ensures VarOf()(line) == map[Strip(line[i..j][..n]) := Strip(line[i..j][n + 1..])]
  {
    VarOfStripped(line, i, j);
    AssignmentAt(line[i..j], n);
  }

  /** Any other line defines nothing. */
  lemma LineAssignsNothing(line: string, i: nat, j: nat)
    requires StrippedAt(line, i, j)
    requires line[i..j] == "" || line[i..j][0] == '#' || '=' !in line[i..j]
    ensures VarOf()(line) == map[]
  {
    VarOfStripped(line, i, j);
    NoAssignment(line[i..j]);
  }

  function Assignment(key: string, value: string): string {
    key + "=" + value + "\n"
  }

  lemma AssignmentStrips(key: string, value: string)
    requires Key(key) && Text(value)
    ensures Strip(Assignment(key, value)) == key + ("=" + value)
  {
    var body := key + ("=" + value);
    var line := Assignment(key, value);
    assert line == body + "\n";
    assert !Blank(body[0]) && SkipBlanks(line) == line;
    assert Front(line) == body && Blank(Last(line));
    assert Last(body) == (if value == "" then '=' else Last(value));
    assert DropBlanks(body) == body;
  }

  /** A written assignment defines its key. */
  lemma AssignmentDefines(key: string, value: string)
    requires Key(key) && Text(value)
    ensures VarOf()(Assignment(key, value)) == map[key := value]
  {
    AssignmentStrips(key, value);
    PairDefined(key, value);
  }

  lemma PairDefined(key: string, value: string)
    requires Key(key) && Text(value)
    ensures Defined(key + ("=" + value)) == map[key := value]
  {
    var s := key + ("=" + value);
    ToEqualsIs(key, "=" + value);
    TrimmedStays(key);
    TrimmedStays(value);
    assert s[..|key|] == key && s[|key| + 1..] == value;
  }

  lemma AssignmentIsLine(key: string, value: string)
    requires Plain(key) && Plain(value)
    ensures FileLine(Assignment(key, value)) && Ended(Assignment(key, value))
  {
    assert Front(Assignment(key, value)) == key + "=" + value;
  }

  ghost predicate WellFormed(vars: map<string, string>) {
    forall k :: k in vars ==> Key(k) && Text(vars[k])
  }

  lemma {:induction false} StripSubset(s: string, c: char)
    requires c !in s
    ensures c !in DropBlanks(s) && c !in SkipBlanks(s)
    decreases |s|
  {
    if s != "" && Blank(Last(s)) {
      StripSubset(Front(s), c);
    }
    if s != "" && Blank(s[0]) {
      StripSubset(s[1..], c);
    }
  }

  lemma DefinedWellFormed(s: string)
    requires Trimmed(s) && Plain(s)
    ensures WellFormed(Defined(s))
  {
    if Defined(s) != map[] {
      var n := ToEquals(s);
      var key, value := s[..n], s[n + 1..];
      ToEqualsExact(s);
      StripTrims(key);
      StripTrims(value);
      StripPlain(key);
      StripPlain(value);
      StripSubset(key, '=');
      StripSubset(SkipBlanks(key), '=');
      DropTrims(key);
      assert key != "" ==> SkipBlanks(key) == key;
    }
  }

  lemma LineWellFormed(line: string)
    requires FileLine(line)
    ensures WellFormed(VarOf()(line))
  {
    StripTrims(line);
    StripLine(line);
    DefinedWellFormed(Strip(line));
  }

  lemma {:induction false} MergeWellFormed(lines: seq<string>, f: string -> map<string, string>)
    requires Proper(lines)
    requires forall line :: FileLine(line) ==> WellFormed(f(line))
    ensures WellFormed(Merge(lines, f))
  {
    if lines != [] {
      assert FileLine(Last(lines));
      MergeWellFormed(Front(lines), f);
    }
  }

  /** Whatever the file, its keys and values are well formed. */
  lemma EnvWellFormed(lines: seq<string>)
    requires Proper(lines)
    ensures WellFormed(Env(lines))
  {
    forall line | FileLine(line) ensures WellFormed(VarOf()(line)) {
      LineWellFormed(line);
    }
    MergeWellFormed(lines, VarOf());
  }

  // ---- A missing final newline ----

  lemma {:induction false} SkipBeforeNewline(s: string)
    ensures SkipBlanks(s + "\n") == if SkipBlanks(s) == "" then "" else SkipBlanks(s) + "\n"
  {
    if s == "" {
      assert s + "\n" == "\n";
      assert SkipBlanks("\n"[1..]) == "";
    } else if Blank(s[0]) {
      assert (s + "\n")[1..] == s[1..] + "\n";
      SkipBeforeNewline(s[1..]);
    }
  }

  lemma NewlineStrips(line: string)
    ensures Strip(line + "\n") == Strip(line)
  {
    SkipBeforeNewline(line);
    DropNewline(SkipBlanks(line));
  }

  lemma NewlineDefinesNothing(line: string)
    ensures VarOf()(line + "\n") == VarOf()(line)
  {
    NewlineStrips(line);
  }

  lemma DropNewline(s: string)
    ensures DropBlanks(s + "\n") == DropBlanks(s)
  {
    assert Front(s + "\n") == s && Last(s + "\n") == '\n';
  }
}
