/**
  The environment file refines a map: what every edit does to the variables, to the lines it
  does not concern, and over every history of edits.
 */
module EnvMap {
  import opened Common
  import opened TextLines
  import opened EnvLines
  import opened EnvFile
  import opened EnvVars

  /** The lines with the last newline put in. */
  function Completed(lines: seq<string>): seq<string> {
    if lines != [] && !Ended(Last(lines)) then Front(lines) + [Last(lines) + "\n"] else lines
  }

  predicate PlainComment(comment: Option<string>) {
    comment.Some? ==> Plain(comment.value)
  }

  // ---- Lines ----

  lemma CommentIsLine(text: string)
    requires Plain(text)
    ensures FileLine("# " + text + "\n") && Ended("# " + text + "\n")
  {
    assert Front("# " + text + "\n") == "# " + text;
  }

  lemma HashDefinesNothing(line: string)
    requires line != "" && line[0] == '#'
    ensures VarOf()(line) == map[]
  {
    StripKeepsStart(line);
  }

  lemma CompletedIsProper(lines: seq<string>)
    requires Proper(lines)
    ensures Proper(Completed(lines))
    ensures Completed(lines) == [] || Ended(Last(Completed(lines)))
    ensures |Completed(lines)| == |lines|
  {
    if lines != [] && !Ended(Last(lines)) {
      var last := Last(lines);
      assert FileLine(last);
      assert Front(last + "\n") == last && last == Front(last) + [Last(last)];
      forall i | 0 <= i < |lines| - 1 ensures Ended(Completed(lines)[i]) {
        assert Ended(lines[i]);
      }
    }
  }

  lemma WriteSnoc(lines: seq<string>, line: string)
    ensures WriteLines(lines + [line]) == WriteLines(lines) + line
  {
    Snoc(lines, line);
  }

  lemma GapCompletes(lines: seq<string>)
    ensures WriteLines(lines + Gap(lines)) == WriteLines(Completed(lines))
  {
    if lines != [] && !Ended(Last(lines)) {
      WriteSnoc(lines, "\n");
      WriteSnoc(Front(lines), Last(lines) + "\n");
      WriteSnoc(Front(lines), Last(lines));
      assert lines == Front(lines) + [Last(lines)];
    } else {
      assert lines + [] == lines;
    }
  }

  function Result(lines: seq<string>, key: string, value: string, comment: Option<string>): seq<string> {
    Completed(lines) + CommentLines(comment) + [Assignment(key, value)]
  }

  lemma SameAfter(a: seq<string>, b: seq<string>, tail: seq<string>)
    requires WriteLines(a) == WriteLines(b)
    ensures WriteLines(a + tail) == WriteLines(b + tail)
  {
    GatherConcat(a, tail, Same());
    GatherConcat(b, tail, Same());
  }

  lemma AppendedWrites(lines: seq<string>, key: string, value: string, comment: Option<string>)
    ensures WriteLines(Appended(lines, key, value, comment)) == WriteLines(Result(lines, key, value, comment))
  {
    GapCompletes(lines);
    SameAfter(lines + Gap(lines), Completed(lines), CommentLines(comment));
    SameAfter(lines + Gap(lines) + CommentLines(comment), Completed(lines) + CommentLines(comment),
              [Assignment(key, value)]);
  }

  lemma EndsProper(lines: seq<string>)
    requires Proper(lines) && (lines == [] || Ended(Last(lines)))
    ensures WriteLines(lines) == "" || Ended(WriteLines(lines))
  {
    WriteThenRead(lines);
  }

  /** Adding keeps every line in place, completing the last one, and what it writes comes after them. */
  lemma AddKeepsLines(lines: seq<string>, key: string, value: string, comment: Option<string>)
    requires Proper(lines) && key !in Env(lines)
    ensures Edited(lines, Add(key, value, comment))
            == Completed(lines)
               + Reread((if comment.Some? && comment.value != "" then ["# " + comment.value + "\n"] else [])
                        + [key + "=" + value + "\n"])
  {
    AppendedWrites(lines, key, value, comment);
    CompletedIsProper(lines);
    EndsProper(Completed(lines));
    RereadsProper(Completed(lines));
    RereadSplit(Completed(lines), CommentLines(comment) + [Assignment(key, value)]);
    Associative(Completed(lines), CommentLines(comment), [Assignment(key, value)]);
  }

  lemma CommentEnds(comment: Option<string>)
    ensures WriteLines(CommentLines(comment)) == "" || Ended(WriteLines(CommentLines(comment)))
  {
    if CommentLines(comment) != [] {
      WriteOne(CommentLines(comment)[0]);
    }
  }

  /** The lines that the comment is read back as. */
  function CommentRead(comment: Option<string>): seq<string> {
    Reread(CommentLines(comment))
  }

  lemma AssignmentRead(key: string, value: string)
    requires Plain(key) && Plain(value)
    ensures Reread([Assignment(key, value)]) == [Assignment(key, value)]
  {
    AssignmentIsLine(key, value);
    RereadsProper([Assignment(key, value)]);
  }

  lemma CommentReadFirst(comment: Option<string>, lines: seq<string>)
    ensures Reread(CommentLines(comment) + lines) == CommentRead(comment) + Reread(lines)
  {
    CommentEnds(comment);
    RereadSplit(CommentLines(comment), lines);
  }

  lemma OneLineAdded(lines: seq<string>, key: string, value: string, comment: Option<string>)
    requires Proper(lines) && key !in Env(lines) && Plain(key) && Plain(value)
    ensures Edited(lines, Add(key, value, comment))
            == Completed(lines) + CommentRead(comment) + [Assignment(key, value)]
  {
    AddKeepsLines(lines, key, value, comment);
    CommentReadFirst(comment, [Assignment(key, value)]);
    AssignmentRead(key, value);
    Associative(Completed(lines), CommentRead(comment), [Assignment(key, value)]);
  }

  lemma PlainCommentRead(comment: Option<string>)
    requires PlainComment(comment)
    ensures CommentRead(comment) == CommentLines(comment)
  {
    if CommentLines(comment) != [] {
      CommentIsLine(comment.value);
    }
    RereadsProper(CommentLines(comment));
  }

  lemma ReplacedIsProper(lines: seq<string>, n: nat, line: string)
    requires Proper(lines) && n < |lines| && FileLine(line) && Ended(line)
    ensures Proper(lines[n := line])
  {
  }

  lemma PartsProper(lines: seq<string>, n: nat)
    requires Proper(lines) && n < |lines|
    ensures Proper(lines[..n]) && Proper(lines[n + 1..]) && (lines[..n] == [] || Ended(Last(lines[..n])))
  {
  }

  lemma RereadBetween(a: seq<string>, line: string, b: seq<string>)
    requires Proper(a) && Proper(b) && (a == [] || Ended(Last(a))) && Ended(line)
    ensures Reread(a + ([line] + b)) == a + Reread([line]) + b
  {
    EndsProper(a);
    RereadsProper(a);
    RereadsProper(b);
    WriteOne(line);
    RereadSplit([line], b);
    RereadSplit(a, [line] + b);
    Associative(a, Reread([line]), b);
  }

  /** A line replaced by any text that ends with a newline leaves the lines around it as they are. */
  lemma RereadReplaced(lines: seq<string>, n: nat, line: string)
    requires Proper(lines) && n < |lines| && Ended(line)
    ensures Reread(lines[n := line]) == lines[..n] + Reread([line]) + lines[n + 1..]
  {
    PartsProper(lines, n);
    RereadBetween(lines[..n], line, lines[n + 1..]);
    assert lines[n := line] == lines[..n] + ([line] + lines[n + 1..]);
  }

  lemma RereadAssigned(lines: seq<string>, n: nat, key: string, value: string)
    requires Proper(lines) && n < |lines|
    ensures Reread(lines[n := Assignment(key, value)])
            == lines[..n] + Reread([key + "=" + value + "\n"]) + lines[n + 1..]
  {
    RereadReplaced(lines, n, Assignment(key, value));
  }

  /** Modifying replaces the one line that gives the value by what the new text is read back as. */
  lemma ModifyKeepsLines(lines: seq<string>, key: string, value: string)
    requires Proper(lines) && key in Env(lines)
    ensures Edited(lines, Modify(key, value))
            == lines[..LineOf(lines, key)] + Reread([key + "=" + value + "\n"]) + lines[LineOf(lines, key) + 1..]
  {
    ModifyWrites(lines, key, value);
    RereadAssigned(lines, LineOf(lines, key), key, value);
  }

  lemma OneLineModified(lines: seq<string>, key: string, value: string)
    requires Proper(lines) && key in Env(lines) && Plain(value)
    ensures Edited(lines, Modify(key, value)) == lines[LineOf(lines, key) := Assignment(key, value)]
  {
    EnvWellFormed(lines);
    AssignmentIsLine(key, value);
    ReplacedIsProper(lines, LineOf(lines, key), Assignment(key, value));
    RereadsProper(lines[LineOf(lines, key) := Assignment(key, value)]);
    ModifyWrites(lines, key, value);
  }

  /** Removing takes that line out and keeps all others. */
  lemma RemoveKeepsLines(lines: seq<string>, key: string)
    requires Proper(lines) && key in Env(lines)
    ensures Edited(lines, Remove(key)) == Without(lines, LineOf(lines, key))
  {
    RemoveWrites(lines, key);
    WithoutIsProper(lines, LineOf(lines, key));
    RereadsProper(Without(lines, LineOf(lines, key)));
  }

  lemma WithoutIsProper(lines: seq<string>, n: nat)
    requires Proper(lines) && n < |lines|
    ensures Proper(Without(lines, n))
  {
  }

  // ---- Variables ----

  lemma CompletedSameVars(lines: seq<string>)
    ensures |Completed(lines)| == |lines|
    ensures forall i :: 0 <= i < |lines| ==> VarOf()(Completed(lines)[i]) == VarOf()(lines[i])
  {
    if lines != [] && !Ended(Last(lines)) {
      NewlineDefinesNothing(Last(lines));
      LastReplaced(lines, Last(lines) + "\n", VarOf());
    }
  }

  lemma LastReplaced(lines: seq<string>, line: string, f: Reading)
    requires lines != [] && f(line) == f(Last(lines))
    ensures forall i :: 0 <= i < |lines| ==> f((Front(lines) + [line])[i]) == f(lines[i])
  {
  }

  lemma {:induction false} SameVars(a: seq<string>, b: seq<string>, f: Reading)
    requires |a| == |b| && forall i :: 0 <= i < |a| ==> f(a[i]) == f(b[i])
    ensures Merge(a, f) == Merge(b, f)
  {
    if a != [] {
      SameVars(Front(a), Front(b), f);
      assert f(a[|a| - 1]) == f(b[|a| - 1]);
    }
  }

  lemma CompletedSameEnv(lines: seq<string>)
    ensures Env(Completed(lines)) == Env(lines)
  {
    CompletedSameVars(lines);
    SameVars(Completed(lines), lines, VarOf());
  }

  /** The variables that the comment itself sets: none, unless it holds a line end. */
  function CommentEnv(comment: Option<string>): map<string, string> {
    Env(CommentRead(comment))
  }

  lemma PlainCommentSetsNothing(comment: Option<string>)
    requires PlainComment(comment)
    ensures CommentEnv(comment) == map[]
  {
    PlainCommentRead(comment);
    if CommentLines(comment) != [] {
      HashDefinesNothing(CommentLines(comment)[0]);
      MergeOne(CommentLines(comment)[0], VarOf());
    }
  }

  lemma TwoLinesRead(first: string, second: string)
    requires FileLine(first) && Ended(first) && FileLine(second)
    ensures Reread([first + second]) == [first, second]
  {
    WriteOne(first + second);
    WriteSnoc([first], second);
    WriteOne(first);
    assert [first] + [second] == [first, second];
    RereadsProper([first, second]);
  }

  lemma SecondLineOnly(first: string, second: string, f: Reading)
    requires f(first) == map[]
    ensures Merge([first, second], f) == f(second)
  {
    MergeOne(first, f);
    MergeSnoc([first], second, f);
    assert [first] + [second] == [first, second];
  }

  lemma CommentText(text: string, rest: string)
    ensures CommentLines(Some(text + "\n" + rest)) == [("# " + text + "\n") + (rest + "\n")]
  {
    assert "# " + (text + "\n" + rest) + "\n" == ("# " + text + "\n") + (rest + "\n");
  }

  lemma SecondLineSets(first: string, key: string, value: string)
    requires FileLine(first) && Ended(first) && first[0] == '#' && Key(key) && Text(value)
    ensures Env(Reread([first + Assignment(key, value)])) == map[key := value]
  {
    AssignmentIsLine(key, value);
    TwoLinesRead(first, Assignment(key, value));
    HashDefinesNothing(first);
    SecondLineOnly(first, Assignment(key, value), VarOf());
    AssignmentDefines(key, value);
  }

  /** A comment of two lines sets what its second line says. */
  lemma CommentSetsVariable(text: string, key: string, value: string)
    requires Plain(text) && Key(key) && Text(value)
    ensures CommentEnv(Some(text + "\n" + (key + "=" + value))) == map[key := value]
  {
    CommentIsLine(text);
    CommentText(text, key + "=" + value);
    SecondLineSets("# " + text + "\n", key, value);
  }

  lemma AddedEnv(lines: seq<string>, key: string, value: string, comment: Option<string>)
    requires Proper(lines) && key !in Env(lines) && Key(key) && Text(value)
    ensures Env(Edited(lines, Add(key, value, comment))) == (Env(lines) + CommentEnv(comment))[key := value]
  {
    OneLineAdded(lines, key, value, comment);
    CompletedSameEnv(lines);
    MergeConcat(Completed(lines), CommentRead(comment), VarOf());
    MergeSnoc(Completed(lines) + CommentRead(comment), Assignment(key, value), VarOf());
    AssignmentDefines(key, value);
    PutIsMerge(Env(lines) + CommentEnv(comment), key, value);
  }

  lemma RereadIsProper(lines: seq<string>)
    ensures Proper(Reread(lines)) && WellFormed(Env(Reread(lines)))
  {
    ReadsProper(Translate(WriteLines(lines)));
    EnvWellFormed(Reread(lines));
  }

  lemma PutIsWellFormed(vars: map<string, string>, key: string, value: string)
    requires WellFormed(vars[key := value])
    ensures Key(key) && Text(value)
  {
    assert vars[key := value][key] == value;
  }

  /** All that `also` sets, but for the key, is already so in `vars`. */
  predicate SetsNothingNew(also: map<string, string>, vars: map<string, string>, key: string) {
    forall k :: k in also && k != key ==> k in vars && vars[k] == also[k]
  }

  lemma PutOver(vars: map<string, string>, also: map<string, string>, key: string, value: string)
    ensures (vars + also)[key := value] == vars[key := value] <==> SetsNothingNew(also, vars, key)
  {
    var a, b := (vars + also)[key := value], vars[key := value];
    if a == b {
      forall k | k in also && k != key ensures k in vars && vars[k] == also[k] {
        assert k in a && a[k] == also[k];
        assert k in b;
      }
    }
  }

  /** Adding is insertion exactly for a key and a value that a line can hold and a comment that sets nothing else. */
  lemma AddIsInsertion(lines: seq<string>, key: string, value: string, comment: Option<string>)
    requires Proper(lines) && key !in Env(lines)
    ensures Env(Edited(lines, Add(key, value, comment))) == Env(lines)[key := value]
            <==> Key(key) && Text(value) && SetsNothingNew(CommentEnv(comment), Env(lines), key)
  {
    if Key(key) && Text(value) {
      AddedEnv(lines, key, value, comment);
      PutOver(Env(lines), CommentEnv(comment), key, value);
    } else {
      RereadIsProper(Appended(lines, key, value, comment));
      if WellFormed(Env(lines)[key := value]) {
        PutIsWellFormed(Env(lines), key, value);
      }
    }
  }

  lemma DefinedOne(s: string, key: string)
    requires key in Defined(s)
    ensures Defined(s).Keys == {key}
  {
  }

  lemma LineDefinedOne(line: string, key: string)
    requires key in VarOf()(line)
    ensures VarOf()(line).Keys == {key}
  {
    DefinedOne(Strip(line), key);
  }

  lemma VarOfOneEach()
    ensures OneEach(VarOf())
  {
    var f := VarOf();
    forall line, key | key in f(line) ensures f(line).Keys == {key} {
      LineDefinedOne(line, key);
    }
  }

  lemma LineDefines(lines: seq<string>, key: string)
    requires key in Env(lines)
    ensures DefinesAt(lines, VarOf(), key, LineOf(lines, key))
  {
    VarOfOneEach();
    LineDefinesOne(lines, VarOf(), key);
  }

  lemma ModifiedEnv(lines: seq<string>, key: string, value: string)
    requires key in Env(lines) && Key(key) && Text(value)
    ensures Env(lines[LineOf(lines, key) := Assignment(key, value)]) == Env(lines)[key := value]
  {
    LineDefines(lines, key);
    AssignmentDefines(key, value);
    ReplacedEnv(lines, LineOf(lines, key), Assignment(key, value), key, value, VarOf());
  }

  /** Modifying is update exactly for a value that a line can hold, whichever of several lines held the key. */
  lemma ModifyIsUpdate(lines: seq<string>, key: string, value: string)
    requires Proper(lines) && key in Env(lines)
    ensures Env(Edited(lines, Modify(key, value))) == Env(lines)[key := value] <==> Text(value)
  {
    EnvWellFormed(lines);
    if Text(value) {
      OneLineModified(lines, key, value);
      ModifiedEnv(lines, key, value);
    } else {
      ModifyWrites(lines, key, value);
      RereadIsProper(lines[LineOf(lines, key) := Assignment(key, value)]);
      if WellFormed(Env(lines)[key := value]) {
        PutIsWellFormed(Env(lines), key, value);
      }
    }
  }

  /** Removing is deletion exactly when one line defines the key. */
  lemma RemoveIsDeletion(lines: seq<string>, key: string)
    requires Proper(lines) && key in Env(lines)
    ensures Env(Edited(lines, Remove(key))) == Env(lines) - {key} <==> DefinedOnce(lines, VarOf(), key)
  {
    RemoveKeepsLines(lines, key);
    LineDefines(lines, key);
    WithoutEnv(lines, VarOf(), key, LineOf(lines, key));
  }

  // ---- No key twice ----

  predicate DuplicateFree(lines: seq<string>) {
    Disjoint(lines, VarOf())
  }

  lemma SilentDuplicateFree(lines: seq<string>, more: seq<string>, f: Reading)
    requires Disjoint(lines, f) && Merge(more, f) == map[]
    ensures Disjoint(lines + more, f) && Merge(lines + more, f) == Merge(lines, f)
  {
    MergeConcat(lines, more, f);
    forall i | 0 <= i < |more| ensures f(more[i]) == map[] {
      forall key ensures key !in f(more[i]) {
        MergeMember(more, f, key);
      }
    }
    DisjointWithNone(lines, more, f);
  }

  lemma DisjointWithNone(lines: seq<string>, more: seq<string>, f: Reading)
    requires Disjoint(lines, f) && forall i :: 0 <= i < |more| ==> f(more[i]) == map[]
    ensures Disjoint(lines + more, f)
  {
    var all := lines + more;
    forall i, j | 0 <= i < j < |all| ensures f(all[i]).Keys !! f(all[j]).Keys {
      if j < |lines| {
        assert f(lines[i]).Keys !! f(lines[j]).Keys;
      } else {
        assert f(more[j - |lines|]) == map[];
      }
    }
  }

  lemma AddKeepsDuplicateFree(lines: seq<string>, key: string, value: string, comment: Option<string>)
    requires Proper(lines) && DuplicateFree(lines) && key !in Env(lines)
    requires Key(key) && Text(value) && CommentEnv(comment) == map[]
    ensures DuplicateFree(Edited(lines, Add(key, value, comment)))
  {
    OneLineAdded(lines, key, value, comment);
    CompletedDuplicateFree(lines);
    CompletedSameEnv(lines);
    SilentDuplicateFree(Completed(lines), CommentRead(comment), VarOf());
    NewAssignmentOnce(Completed(lines) + CommentRead(comment), key, value);
  }

  lemma NewAssignmentOnce(lines: seq<string>, key: string, value: string)
    requires DuplicateFree(lines) && key !in Env(lines) && Key(key) && Text(value)
    ensures DuplicateFree(lines + [Assignment(key, value)])
  {
    AssignmentDefines(key, value);
    NewKeyOnce(lines, Assignment(key, value), key, VarOf());
  }

  lemma CompletedDuplicateFree(lines: seq<string>)
    requires DuplicateFree(lines)
    ensures DuplicateFree(Completed(lines))
  {
    CompletedSameVars(lines);
    SameKeysDisjoint(lines, Completed(lines), VarOf());
  }

  lemma ModifyKeepsDuplicateFree(lines: seq<string>, key: string, value: string)
    requires Proper(lines) && DuplicateFree(lines) && key in Env(lines) && Text(value)
    ensures DuplicateFree(Edited(lines, Modify(key, value)))
  {
    OneLineModified(lines, key, value);
    LineDefines(lines, key);
    EnvWellFormed(lines);
    AssignmentDefines(key, value);
    ReplacedDisjoint(lines, LineOf(lines, key), Assignment(key, value), key, value, VarOf());
  }

  lemma RemoveKeepsDuplicateFree(lines: seq<string>, key: string)
    requires Proper(lines) && DuplicateFree(lines) && key in Env(lines)
    ensures DuplicateFree(Edited(lines, Remove(key)))
  {
    RemoveKeepsLines(lines, key);
    WithoutDisjoint(lines, LineOf(lines, key), VarOf());
  }

  // ---- Histories ----

  /** The map that the file is to hold. */
  function Applied(vars: map<string, string>, e: Edit): map<string, string> {
    match e
    case Add(key, value, _) => if key in vars then vars else vars[key := value]
    case Modify(key, value) => if key in vars then vars[key := value] else vars
    case Remove(key) => vars - {key}
  }

  predicate Fine(e: Edit) {
    match e
    case Add(key, value, comment) => Key(key) && Text(value) && CommentEnv(comment) == map[]
    case Modify(_, value) => Text(value)
    case Remove(_) => true
  }

  lemma AddedIsProper(lines: seq<string>, key: string, value: string, comment: Option<string>)
    requires key !in Env(lines)
    ensures Proper(Edited(lines, Add(key, value, comment)))
  {
    RereadIsProper(Appended(lines, key, value, comment));
  }

  lemma SilentAdd(lines: seq<string>, key: string, value: string, comment: Option<string>)
    requires Proper(lines) && key !in Env(lines) && Key(key) && Text(value) && CommentEnv(comment) == map[]
    ensures Env(Edited(lines, Add(key, value, comment))) == Env(lines)[key := value]
  {
    AddedEnv(lines, key, value, comment);
    PlusNothing(Env(lines));
  }

  lemma PlusNothing<K, V>(m: map<K, V>)
    ensures m + map[] == m
  {
  }

  lemma AddRefinesMap(lines: seq<string>, key: string, value: string, comment: Option<string>)
    requires Proper(lines) && DuplicateFree(lines) && Fine(Add(key, value, comment)) && key !in Env(lines)
    ensures var after := Edited(lines, Add(key, value, comment));
            Proper(after) && DuplicateFree(after) && Env(after) == Env(lines)[key := value]
  {
    SilentAdd(lines, key, value, comment);
    AddKeepsDuplicateFree(lines, key, value, comment);
    AddedIsProper(lines, key, value, comment);
  }

  lemma ModifyRefinesMap(lines: seq<string>, key: string, value: string)
    requires Proper(lines) && DuplicateFree(lines) && Text(value) && key in Env(lines)
    ensures var after := Edited(lines, Modify(key, value));
            Proper(after) && DuplicateFree(after) && Env(after) == Env(lines)[key := value]
  {
    ModifyIsUpdate(lines, key, value);
    ModifyKeepsDuplicateFree(lines, key, value);
    ModifyWrites(lines, key, value);
    RereadIsProper(lines[LineOf(lines, key) := Assignment(key, value)]);
  }

  lemma RemoveRefinesMap(lines: seq<string>, key: string)
    requires Proper(lines) && DuplicateFree(lines) && key in Env(lines)
    ensures var after := Edited(lines, Remove(key));
            Proper(after) && DuplicateFree(after) && Env(after) == Env(lines) - {key}
  {
    DisjointIsOnce(lines, VarOf(), key);
    RemoveIsDeletion(lines, key);
    RemoveKeepsDuplicateFree(lines, key);
    RemoveWrites(lines, key);
    RereadIsProper(Without(lines, LineOf(lines, key)));
  }

  lemma AppliedRejected(vars: map<string, string>, e: Edit)
    requires if e.Add? then e.key in vars else e.key !in vars
    ensures Applied(vars, e) == vars
  {
  }

  lemma RejectedEdit(lines: seq<string>, e: Edit)
    requires Written(lines, e).None?
    ensures Edited(lines, e) == lines && Applied(Env(lines), e) == Env(lines)
  {
    AppliedRejected(Env(lines), e);
  }

  lemma EditRefinesMap(lines: seq<string>, e: Edit)
    requires Proper(lines) && DuplicateFree(lines) && Fine(e)
    ensures Proper(Edited(lines, e)) && DuplicateFree(Edited(lines, e))
    ensures Env(Edited(lines, e)) == Applied(Env(lines), e)
  {
    if Written(lines, e).None? {
      RejectedEdit(lines, e);
    } else {
      match e
      case Add(key, value, comment) => AddRefinesMap(lines, key, value, comment);
      case Modify(key, value) => ModifyRefinesMap(lines, key, value);
      case Remove(key) => RemoveRefinesMap(lines, key);
    }
  }

  function EditedAll(lines: seq<string>, es: seq<Edit>): seq<string> {
    if es == [] then lines else Edited(EditedAll(lines, Front(es)), Last(es))
  }

  function AppliedAll(vars: map<string, string>, es: seq<Edit>): map<string, string> {
    if es == [] then vars else Applied(AppliedAll(vars, Front(es)), Last(es))
  }

  /** Over every history of edits, each written and read back, the file holds the map. */
  lemma {:induction false} HistoryRefinesMap(lines: seq<string>, es: seq<Edit>)
    requires Proper(lines) && DuplicateFree(lines)
    requires forall i :: 0 <= i < |es| ==> Fine(es[i])
    ensures Proper(EditedAll(lines, es)) && DuplicateFree(EditedAll(lines, es))
    ensures Env(EditedAll(lines, es)) == AppliedAll(Env(lines), es)
  {
    if es != [] {
      HistoryRefinesMap(lines, Front(es));
      assert Fine(Last(es));
      EditRefinesMap(EditedAll(lines, Front(es)), Last(es));
    }
  }
}
