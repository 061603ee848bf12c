/**
  The environment file manager: a file of lines edited in place, which refines a map from
  keys to values.
 */
module EnvFile {
  import opened Common
  import opened TextLines
  import opened EnvLines
  import opened EnvVars

  datatype Edit =
    | Add(key: string, value: string, comment: Option<string>)
    | Modify(key: string, value: string)
    | Remove(key: string)

  // ---- What an edit writes ----

  function CommentLines(comment: Option<string>): seq<string> {
    if comment.Some? && comment.value != "" then ["# " + comment.value + "\n"] else []
  }

  /** What completes a last line that has no newline. */
  function Gap(lines: seq<string>): seq<string> {
    if lines != [] && !Ended(Last(lines)) then ["\n"] else []
  }

  function Appended(lines: seq<string>, key: string, value: string, comment: Option<string>): seq<string> {
    lines + Gap(lines) + CommentLines(comment) + [Assignment(key, value)]
  }

  // ---- Where the variables are ----

  function Placed(found: map<string, string>, n: nat): map<string, (string, nat)> {
    map k | k in found :: (found[k], n)
  }

  /** The variables with the number of the line that gives each its value. */
  function Locate(lines: seq<string>, f: string -> map<string, string>): map<string, (string, nat)> {
    if lines == [] then map[] else Locate(Front(lines), f) + Placed(f(Last(lines)), |lines| - 1)
  }

  lemma {:induction false} LocateExact(lines: seq<string>, f: string -> map<string, string>, key: string)
    ensures key in Locate(lines, f) <==> key in Merge(lines, f)
    ensures key in Merge(lines, f) ==> Locate(lines, f)[key] == (Merge(lines, f)[key], LastAt(lines, f, key))
  {
    if lines != [] {
      LocateExact(Front(lines), f, key);
    }
  }

  lemma LocateNext(lines: seq<string>, f: string -> map<string, string>, i: nat)
    requires i < |lines|
    ensures Locate(lines[..i + 1], f) == Locate(lines[..i], f) + Placed(f(lines[i]), i)
  {
    assert Front(lines[..i + 1]) == lines[..i];
  }

  lemma {:induction false} EqualsFound(s: string)
    ensures '=' in s <==> ToEquals(s) < |s|
  {
    if s != "" && s[0] != '=' {
      assert s == [s[0]] + s[1..];
      EqualsFound(s[1..]);
    }
  }

  lemma PlacedOne(key: string, value: string, n: nat)
    ensures Placed(map[key := value], n) == map[key := (value, n)]
  {
  }

  method ParseLine(vars: map<string, (string, nat)>, line: string, i: nat) returns (next: map<string, (string, nat)>)
    ensures next == vars + Placed(Defined(line), i)
  {
    next := vars;
    EqualsFound(line);
    if line != "" && line[0] != '#' {
      if '=' in line {
        var n := ToEquals(line);
        var key, value := Strip(line[..n]), Strip(line[n + 1..]);
        PlacedOne(key, value, i);
        PutIsMerge(next, key, (value, i));
        next := next[key := (value, i)];
      }
    }
  }

  method ParseEnvLines(lines: seq<string>) returns (vars: map<string, (string, nat)>)
    ensures vars == Locate(lines, VarOf())
  {
    vars := map[];
    for i := 0 to |lines|
      invariant vars == Locate(lines[..i], VarOf())
    {
      LocateNext(lines, VarOf(), i);
      vars := ParseLine(vars, Strip(lines[i]), i);
    }
    assert lines[..|lines|] == lines;
  }

  // ---- Edits ----

  function LineOf(lines: seq<string>, key: string): (n: nat)
    requires key in Env(lines)
    ensures n < |lines|
  {
    LastAt(lines, VarOf(), key)
  }

  lemma LineFound(lines: seq<string>, vars: map<string, (string, nat)>, key: string)
    requires vars == Locate(lines, VarOf())
    ensures key in vars <==> key in Env(lines)
    ensures key in vars ==> vars[key].1 == LineOf(lines, key)
  {
    LocateExact(lines, VarOf(), key);
  }

  /** What the edit leaves in the file, if it is accepted. */
  function Written(lines: seq<string>, e: Edit): Option<seq<string>> {
    if e.Add? then (if e.key in Env(lines) then None else Some(Appended(lines, e.key, e.value, e.comment)))
    else if e.key !in Env(lines) then None
    else
      var n := LineOf(lines, e.key);
      Some(if e.Modify? then lines[n := Assignment(e.key, e.value)] else Without(lines, n))
  }

  function Edited(lines: seq<string>, e: Edit): seq<string> {
    match Written(lines, e) case None => lines case Some(written) => Reread(written)
  }

  lemma ModifyWrites(lines: seq<string>, key: string, value: string)
    requires key in Env(lines)
    ensures Edited(lines, Modify(key, value)) == Reread(lines[LineOf(lines, key) := Assignment(key, value)])
  {
  }

  lemma RemoveWrites(lines: seq<string>, key: string)
    requires key in Env(lines)
    ensures var n := LineOf(lines, key);
            Edited(lines, Remove(key)) == Reread(Without(lines, n))
  {
  }

  method Append(lines: seq<string>, key: string, value: string, comment: Option<string>) returns (result: seq<string>)
    ensures result == Appended(lines, key, value, comment)
  {
    result := lines;
    if lines != [] && !Ended(Last(lines)) {
      result := result + ["\n"];
    }
    if comment.Some? && comment.value != "" {
      result := result + ["# " + comment.value + "\n"];
    }
    result := result + [Assignment(key, value)];
  }

  // ---- The manager ----

  class EnvManager {
    var present: bool
    var text: string

    constructor (present: bool, text: string)
      ensures this.present == present && this.text == text
    {
      this.present := present;
      this.text := text;
    }

    function Current(): seq<string>
      reads this
    {
      if present then ReadLines(Translate(text)) else []
    }

    method ReadEnvFile() returns (lines: seq<string>)
      ensures lines == Current()
    {
      if !present {
        return [];
      }
      return ReadLines(Translate(text));
    }

    method WriteEnvFile(lines: seq<string>) returns (ok: bool)
      modifies this
      ensures ok && present && text == WriteLines(lines)
      ensures Current() == Reread(lines)
    {
      present := true;
      text := WriteLines(lines);
      return true;
    }

    method AddVariable(key: string, value: string, comment: Option<string>) returns (ok: bool)
      modifies this
      ensures ok <==> key !in Env(old(Current()))
      ensures Current() == Edited(old(Current()), Add(key, value, comment))
      ensures !ok ==> text == old(text) && present == old(present)
    {
      var lines := ReadEnvFile();
      var vars := ParseEnvLines(lines);
      LineFound(lines, vars, key);
      if key in vars {
        return false;
      }
      lines := Append(lines, key, value, comment);
      ok := WriteEnvFile(lines);
    }

    method ModifyVariable(key: string, value: string) returns (ok: bool)
      modifies this
      ensures ok <==> key in Env(old(Current()))
      ensures Current() == Edited(old(Current()), Modify(key, value))
      ensures !ok ==> text == old(text) && present == old(present)
    {
      var lines := ReadEnvFile();
      var vars := ParseEnvLines(lines);
      LineFound(lines, vars, key);
      if key !in vars {
        return false;
      }
      ModifyWrites(lines, key, value);
      lines := lines[vars[key].1 := Assignment(key, value)];
      ok := WriteEnvFile(lines);
    }

    method RemoveVariable(key: string) returns (ok: bool)
      modifies this
      ensures ok <==> key in Env(old(Current()))
      ensures Current() == Edited(old(Current()), Remove(key))
      ensures !ok ==> text == old(text) && present == old(present)
    {
      var lines := ReadEnvFile();
      var vars := ParseEnvLines(lines);
      LineFound(lines, vars, key);
      if key !in vars {
        return false;
      }
      RemoveWrites(lines, key);
      var n := vars[key].1;
      lines := Without(lines, n);
      ok := WriteEnvFile(lines);
    }
  }
}
