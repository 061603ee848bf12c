/**
  Lists of lines each of which defines a few variables: what replacing a line, taking one
  out, or appending one does to the merged map, and when no key is defined twice.
 */
module EnvVars {
  import opened Common

  type Reading = string -> map<string, string>

  /** The last line that defines a key. */
  function LastAt(lines: seq<string>, f: Reading, key: string): (n: nat)
    requires key in Merge(lines, f)
    ensures n < |lines|
  {
    if key in f(Last(lines)) then |lines| - 1 else LastAt(Front(lines), f, key)
  }

  function Without(lines: seq<string>, n: nat): seq<string>
    requires n < |lines|
  {
    lines[..n] + lines[n + 1..]
  }

  predicate DefinedOnce(lines: seq<string>, f: Reading, key: string) {
    forall i, j :: 0 <= i < j < |lines| ==> key !in f(lines[i]) || key !in f(lines[j])
  }

  predicate Disjoint(lines: seq<string>, f: Reading) {
    forall i, j :: 0 <= i < j < |lines| ==> f(lines[i]).Keys !! f(lines[j]).Keys
  }

  /** Line `n` defines the key and nothing else, and no later line defines it. */
  predicate DefinesAt(lines: seq<string>, f: Reading, key: string, n: nat) {
    n < |lines| && f(lines[n]).Keys == {key} && key !in Merge(lines[n + 1..], f)
  }

  lemma {:induction false} LastDefines(lines: seq<string>, f: Reading, key: string)
    requires key in Merge(lines, f)
    ensures var n := LastAt(lines, f, key);
            && key in f(lines[n]) && f(lines[n])[key] == Merge(lines, f)[key]
            && key !in Merge(lines[n + 1..], f)
  {
    var n := LastAt(lines, f, key);
    if key !in f(Last(lines)) {
      LastDefines(Front(lines), f, key);
      assert Front(lines[n + 1..]) == Front(lines)[n + 1..] && Last(lines[n + 1..]) == Last(lines);
    }
  }

  lemma MergeSnoc(lines: seq<string>, line: string, f: Reading)
    ensures Merge(lines + [line], f) == Merge(lines, f) + f(line)
  {
    Snoc(lines, line);
  }

  lemma MergeSplit(lines: seq<string>, n: nat, f: Reading)
    requires n < |lines|
    ensures Merge(lines, f) == Merge(lines[..n], f) + f(lines[n]) + Merge(lines[n + 1..], f)
    ensures Merge(Without(lines, n), f) == Merge(lines[..n], f) + Merge(lines[n + 1..], f)
  {
    assert lines == lines[..n + 1] + lines[n + 1..];
    MergeConcat(lines[..n + 1], lines[n + 1..], f);
    MergeNext(lines, n, f);
    MergeConcat(lines[..n], lines[n + 1..], f);
  }

  lemma PutBetween<K, V>(a: map<K, V>, was: map<K, V>, b: map<K, V>, key: K, value: V)
    requires was.Keys == {key} && key !in b
    ensures a + map[key := value] + b == (a + was + b)[key := value]
  {
  }

  lemma DropBetween<K, V>(a: map<K, V>, was: map<K, V>, b: map<K, V>, key: K)
    requires was.Keys == {key} && key !in b
    ensures a + b == (a + was + b) - {key} <==> key !in a
  {
    if key in a {
      assert key in a + b;
    } else {
      assert a + b == (a + was + b) - {key};
    }
  }

  /** Replacing the line that gives a key its value updates the map at the key. */
  lemma ReplacedEnv(lines: seq<string>, n: nat, line: string, key: string, value: string, f: Reading)
    requires DefinesAt(lines, f, key, n) && f(line) == map[key := value]
    ensures Merge(lines[n := line], f) == Merge(lines, f)[key := value]
  {
    var next := lines[n := line];
    MergeSplit(lines, n, f);
    MergeSplit(next, n, f);
    assert next[..n] == lines[..n] && next[n + 1..] == lines[n + 1..] && next[n] == line;
    PutBetween(Merge(lines[..n], f), f(lines[n]), Merge(lines[n + 1..], f), key, value);
  }

  lemma EarlierDefinitions(lines: seq<string>, f: Reading, key: string, n: nat)
    requires n < |lines| && key in f(lines[n]) && key !in Merge(lines[n + 1..], f)
    ensures DefinedOnce(lines, f, key) <==> key !in Merge(lines[..n], f)
  {
    MergeMember(lines[..n], f, key);
    MergeMember(lines[n + 1..], f, key);
    if key in Merge(lines[..n], f) {
      var i :| 0 <= i < n && key in f(lines[..n][i]);
      assert key in f(lines[i]) && key in f(lines[n]);
    } else {
      forall i, j | 0 <= i < j < |lines| ensures key !in f(lines[i]) || key !in f(lines[j]) {
        if i < n {
          assert lines[..n][i] == lines[i];
        } else {
          assert lines[n + 1..][j - n - 1] == lines[j];
        }
      }
    }
  }

  /** Taking that line out deletes the key exactly when no other line defines it. */
  lemma WithoutEnv(lines: seq<string>, f: Reading, key: string, n: nat)
    requires DefinesAt(lines, f, key, n)
    ensures Merge(Without(lines, n), f) == Merge(lines, f) - {key} <==> DefinedOnce(lines, f, key)
  {
    MergeSplit(lines, n, f);
    EarlierDefinitions(lines, f, key, n);
    DropBetween(Merge(lines[..n], f), f(lines[n]), Merge(lines[n + 1..], f), key);
  }

  lemma NewKeyOnce(lines: seq<string>, line: string, key: string, f: Reading)
    requires Disjoint(lines, f) && f(line).Keys <= {key} && key !in Merge(lines, f)
    ensures Disjoint(lines + [line], f)
  {
    MergeMember(lines, f, key);
  }

  lemma SameKeysDisjoint(a: seq<string>, b: seq<string>, f: Reading)
    requires Disjoint(a, f) && |a| == |b|
    requires forall i :: 0 <= i < |a| ==> f(a[i]).Keys == f(b[i]).Keys
    ensures Disjoint(b, f)
  {
    forall i, j | 0 <= i < j < |b| ensures f(b[i]).Keys !! f(b[j]).Keys {
      assert f(a[i]).Keys !! f(a[j]).Keys;
    }
  }

  lemma WithoutDisjoint(lines: seq<string>, n: nat, f: Reading)
    requires Disjoint(lines, f) && n < |lines|
    ensures Disjoint(Without(lines, n), f)
  {
  }

  lemma ReplacedDisjoint(lines: seq<string>, n: nat, line: string, key: string, value: string, f: Reading)
    requires Disjoint(lines, f) && DefinesAt(lines, f, key, n) && f(line) == map[key := value]
    ensures Disjoint(lines[n := line], f)
  {
    SameKeysDisjoint(lines, lines[n := line], f);
  }

  /** No line defines two variables. */
  ghost predicate OneEach(f: Reading) {
    forall line, key :: key in f(line) ==> f(line).Keys == {key}
  }

  lemma LineDefinesOne(lines: seq<string>, f: Reading, key: string)
    requires OneEach(f) && key in Merge(lines, f)
    ensures DefinesAt(lines, f, key, LastAt(lines, f, key))
  {
    LastDefines(lines, f, key);
  }

  lemma DisjointIsOnce(lines: seq<string>, f: Reading, key: string)
    requires Disjoint(lines, f)
    ensures DefinedOnce(lines, f, key)
  {
  }
}
