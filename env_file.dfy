/** The text transformation of `updateEnvFile`: each line of a `.env` file
    whose key is among the given values is rewritten to `prefix key=value`,
    every other line is kept, and the values whose key no line holds are
    appended, in their order. The values object is a list of entries in
    `Object.keys` order. */
module EnvFile {
  import opened Wrappers
  import opened JsValues
  import Text

  type Entry = (string, JsValue)

  /** `key in values` and `values[key]`. */
  function Lookup(values: seq<Entry>, key: string): (r: Option<JsValue>)
    ensures r.Some? ==> (key, r.value) in values
    ensures r.None? ==> forall e :: e in values ==> e.0 != key
  {
    if |values| == 0 then None
    else if values[0].0 == key then Some(values[0].1)
    else Lookup(values[1..], key)
  }

  /** An object holds each key once. */
  predicate DistinctKeys(values: seq<Entry>)
  {
    forall i, j :: 0 <= i < j < |values| ==> values[i].0 != values[j].0
  }

  lemma {:induction false} LookupDistinct(values: seq<Entry>, e: Entry)
    requires DistinctKeys(values) && e in values
    ensures Lookup(values, e.0) == Some(e.1)
  {
    if values[0] != e {
      assert e in values[1..];
      LookupDistinct(values[1..], e);
    }
  }

  /** The key of a line: the text before its first `=`, with the first
      occurrence of a non-empty prefix removed. */
  function LineKey(line: string, prefix: string): string
  {
    var key := Text.BeforeFirst(line, '=');
    if prefix != "" then Text.ReplaceFirst(key, prefix, "") else key
  }

  /** `${prefix}${key}=${value}`. */
  function Assignment(prefix: string, key: string, value: JsValue): string
  {
    prefix + key + "=" + ToJsString(value)
  }

  /** A non-empty line whose key is among the values. */
  predicate Matches(line: string, values: seq<Entry>, prefix: string)
  {
    line != "" && Lookup(values, LineKey(line, prefix)).Some?
  }

  /** The callback of the `map` over the lines. */
  function RewriteLine(line: string, values: seq<Entry>, prefix: string): string
  {
    if line != "" then
      var key := LineKey(line, prefix);
      var v := Lookup(values, key);
      if v.Some? then Assignment(prefix, key, v.value) else line
    else line
  }

  /** The keys some line of `lines` holds. */
  function MatchedKeys(lines: seq<string>, values: seq<Entry>, prefix: string): set<string>
  {
    set i | 0 <= i < |lines| && Matches(lines[i], values, prefix) :: LineKey(lines[i], prefix)
  }

  /** The entries left after deleting the given keys, in their order. */
  function Without(values: seq<Entry>, keys: set<string>): (r: seq<Entry>)
    ensures |r| <= |values|
  {
    if |values| == 0 then []
    else (if values[0].0 in keys then [] else [values[0]]) + Without(values[1..], keys)
  }

  /** Deleting keys keeps exactly the entries with other keys. */
  lemma {:induction false} WithoutMembers(values: seq<Entry>, keys: set<string>)
    ensures forall e :: e in Without(values, keys) <==> e in values && e.0 !in keys
  {
    if |values| > 0 {
      WithoutMembers(values[1..], keys);
      assert forall e :: e in values <==> e == values[0] || e in values[1..];
    }
  }

  function Rewritten(lines: seq<string>, values: seq<Entry>, prefix: string): (r: seq<string>)
  {
    seq(|lines|, i requires 0 <= i < |lines| => RewriteLine(lines[i], values, prefix))
  }

  function Appended(entries: seq<Entry>, prefix: string): (r: seq<string>)
  {
    seq(|entries|, j requires 0 <= j < |entries| => Assignment(prefix, entries[j].0, entries[j].1))
  }

  /** The lines `updateEnvFile` writes: the rewritten lines, then one line per
      value no line matched. */
  function UpdatedLines(data: string, values: seq<Entry>, prefix: string): seq<string>
  {
    var lines := Text.Split(data, '\n');
    Rewritten(lines, values, prefix) + Appended(Without(values, MatchedKeys(lines, values, prefix)), prefix)
  }

  /** The text `updateEnvFile` writes back. */
  function UpdateEnvText(data: string, values: seq<Entry>, prefix: string): string
  {
    Text.Join(UpdatedLines(data, values, prefix), '\n')
  }

  lemma {:induction false} WithoutNothing(values: seq<Entry>)
    ensures Without(values, {}) == values
  {
    if |values| > 0 {
      WithoutNothing(values[1..]);
    }
  }

  lemma WithoutAll(values: seq<Entry>, keys: set<string>)
    requires forall e :: e in values ==> e.0 in keys
    ensures Without(values, keys) == []
  {
    WithoutMembers(values, keys);
  }

  lemma {:induction false} WithoutTwice(values: seq<Entry>, keys: set<string>, key: string)
    ensures Without(Without(values, keys), {key}) == Without(values, keys + {key})
  {
    if |values| > 0 {
      WithoutTwice(values[1..], keys, key);
      var head: seq<Entry> := if values[0].0 in keys then [] else [values[0]];
      assert Without(values, keys) == head + Without(values[1..], keys);
      WithoutConcat(head, Without(values[1..], keys), {key});
    }
  }

  lemma {:induction false} WithoutConcat(a: seq<Entry>, b: seq<Entry>, keys: set<string>)
    ensures Without(a + b, keys) == Without(a, keys) + Without(b, keys)
  {
    if |a| > 0 {
      assert (a + b)[0] == a[0] && (a + b)[1..] == a[1..] + b;
      WithoutConcat(a[1..], b, keys);
    } else {
      assert a + b == b;
    }
  }

  lemma {:induction false} WithoutDistinct(values: seq<Entry>, keys: set<string>)
    requires DistinctKeys(values)
    ensures DistinctKeys(Without(values, keys))
  {
    if |values| > 0 {
      var rest := values[1..];
      WithoutDistinct(rest, keys);
      var r := Without(values, keys);
      var tail := Without(rest, keys);
      if values[0].0 !in keys {
        assert r == [values[0]] + tail;
        WithoutMembers(rest, keys);
        forall j | 1 <= j < |r|
          ensures r[0].0 != r[j].0
        {
          assert r[j] == tail[j - 1] && r[j] in rest;
          var m :| 0 <= m < |rest| && rest[m] == r[j];
          assert values[m + 1] == r[j];
        }
      }
    }
  }

  lemma MatchedStep(lines: seq<string>, values: seq<Entry>, prefix: string, i: nat)
    requires i < |lines|
    ensures MatchedKeys(lines[..i + 1], values, prefix) ==
      MatchedKeys(lines[..i], values, prefix) +
      (if Matches(lines[i], values, prefix) then {LineKey(lines[i], prefix)} else {})
  {
    var a, b := lines[..i + 1], lines[..i];
    assert forall m :: 0 <= m < i ==> a[m] == b[m];
    assert a[i] == lines[i];
  }

  /** The callback of the `map` over the lines, with its deletion from
      `valuesToAdd`, the copy of the values not matched so far. */
  method MapLine(str: string, values: seq<Entry>, prefix: string, valuesToAdd: seq<Entry>, ghost before: set<string>)
    returns (line: string, left: seq<Entry>)
    requires valuesToAdd == Without(values, before)
    ensures line == RewriteLine(str, values, prefix)
    ensures left == Without(values, before + (if Matches(str, values, prefix) then {LineKey(str, prefix)} else {}))
  {
    line, left := str, valuesToAdd;
    if str != "" {
      var key := Text.BeforeFirst(str, '=');
      if prefix != "" {
        key := Text.ReplaceFirst(key, prefix, "");
      }
      assert key == LineKey(str, prefix);
      var v := Lookup(values, key);
      if v.Some? {
        WithoutTwice(values, before, key);
        left := Without(valuesToAdd, {key});
        line := prefix + key + "=" + ToJsString(v.value);
      } else {
        assert before + {} == before;
      }
    } else {
      assert before + {} == before;
    }
  }

  /** The `forEach` that pushes one assignment per key left in `valuesToAdd`. */
  method AppendRemaining(result: seq<string>, valuesToAdd: seq<Entry>, prefix: string) returns (r: seq<string>)
    ensures r == result + Appended(valuesToAdd, prefix)
  {
    r := result;
    ghost var added := Appended(valuesToAdd, prefix);
    for j := 0 to |valuesToAdd|
      invariant r == result + added[..j]
    {
      var key := valuesToAdd[j].0;
      var value := valuesToAdd[j].1;
      r := r + [prefix + key + "=" + ToJsString(value)];
    }
    assert added[..|valuesToAdd|] == added;
  }

  /** The `map` over the lines, deleting from a copy of the values each key
      a line matches. */
  method MapLines(lines: seq<string>, values: seq<Entry>, prefix: string) returns (result: seq<string>, valuesToAdd: seq<Entry>)
    ensures result == Rewritten(lines, values, prefix)
    ensures valuesToAdd == Without(values, MatchedKeys(lines, values, prefix))
  {
    valuesToAdd := values;
    WithoutNothing(values);
    result := [];
    ghost var rewritten := Rewritten(lines, values, prefix);
    assert MatchedKeys(lines[..0], values, prefix) == {};
    for i := 0 to |lines|
      invariant result == rewritten[..i]
      invariant valuesToAdd == Without(values, MatchedKeys(lines[..i], values, prefix))
    {
      MatchedStep(lines, values, prefix, i);
      var line;
      line, valuesToAdd := MapLine(lines[i], values, prefix, valuesToAdd, MatchedKeys(lines[..i], values, prefix));
      assert rewritten[..i + 1] == rewritten[..i] + [line];
      result := result + [line];
    }
    assert lines[..|lines|] == lines && rewritten[..|lines|] == rewritten;
  }

  /** `updateEnvFile` on the text of the file, with the lines as `split('\n')`
      gives them. `valuesToAdd` starts as a copy of the values, loses each key
      a line matches, and what is left is appended. */
  method UpdateEnv(data: string, values: seq<Entry>, prefix: string) returns (text: string)
    ensures text == UpdateEnvText(data, values, prefix)
  {
    var lines := Text.Split(data, '\n');
    var result, valuesToAdd := MapLines(lines, values, prefix);
    result := AppendRemaining(result, valuesToAdd, prefix);
    text := Text.Join(result, '\n');
  }

  /** Line by line: each line keeps its place and is rewritten exactly when
      its key is among the values; then comes one assignment per value that no
      line matched, in the values' order. */
  lemma UpdatedLinesShape(data: string, values: seq<Entry>, prefix: string)
    ensures var lines := Text.Split(data, '\n');
      var added := Without(values, MatchedKeys(lines, values, prefix));
      var out := UpdatedLines(data, values, prefix);
      |out| == |lines| + |added| &&
      (forall i :: 0 <= i < |lines| && Matches(lines[i], values, prefix) ==>
        out[i] == Assignment(prefix, LineKey(lines[i], prefix), Lookup(values, LineKey(lines[i], prefix)).value)) &&
      (forall i :: 0 <= i < |lines| && !Matches(lines[i], values, prefix) ==> out[i] == lines[i]) &&
      (forall j :: 0 <= j < |added| ==> out[|lines| + j] == Assignment(prefix, added[j].0, added[j].1))
  {
  }

  /** Every value no line matched is appended once, and no value a line
      matched is appended. */
  lemma AppendedOnce(data: string, values: seq<Entry>, prefix: string)
    requires DistinctKeys(values)
    ensures var lines := Text.Split(data, '\n');
      var matched := MatchedKeys(lines, values, prefix);
      var added := Without(values, matched);
      DistinctKeys(added) &&
      (forall e :: e in added <==> e in values && e.0 !in matched) &&
      (forall k :: k in matched <==> exists i :: 0 <= i < |lines| && Matches(lines[i], values, prefix) && LineKey(lines[i], prefix) == k)
  {
    var lines := Text.Split(data, '\n');
    WithoutDistinct(values, MatchedKeys(lines, values, prefix));
    WithoutMembers(values, MatchedKeys(lines, values, prefix));
  }

  /** No line break in the prefix, the keys or the rendered values. */
  predicate SingleLineValues(values: seq<Entry>, prefix: string)
  {
    '\n' !in prefix &&
    forall e :: e in values ==> '\n' !in e.0 && '\n' !in ToJsString(e.1)
  }

  lemma RemoveKeepsOut(s: string, pat: string, c: char)
    requires c !in s
    ensures c !in Text.ReplaceFirst(s, pat, "")
  {
    var i := Text.IndexOf(s, pat);
    if i >= 0 {
      var a, b := s[..i], s[i + |pat|..];
      assert Text.ReplaceFirst(s, pat, "") == a + b;
      assert forall k :: 0 <= k < |a| ==> a[k] == s[k];
      assert forall k :: 0 <= k < |b| ==> b[k] == s[i + |pat| + k];
    }
  }

  lemma NoBreakInKey(line: string, prefix: string)
    requires '\n' !in line
    ensures '\n' !in LineKey(line, prefix)
  {
    var key := Text.BeforeFirst(line, '=');
    assert key == line[..|key|];
    assert '\n' !in key;
    if prefix != "" {
      RemoveKeepsOut(key, prefix, '\n');
    }
  }

  lemma SingleLines(data: string, values: seq<Entry>, prefix: string)
    requires SingleLineValues(values, prefix)
    ensures var out := UpdatedLines(data, values, prefix);
      forall k :: 0 <= k < |out| ==> '\n' !in out[k]
  {
    var lines := Text.Split(data, '\n');
    Text.SplitPieces(data, '\n');
    var out := UpdatedLines(data, values, prefix);
    var added := Without(values, MatchedKeys(lines, values, prefix));
    forall k | 0 <= k < |out|
      ensures '\n' !in out[k]
    {
      if k < |lines| {
        NoBreakInKey(lines[k], prefix);
      } else {
        WithoutMembers(values, MatchedKeys(lines, values, prefix));
        assert added[k - |lines|] in values;
      }
    }
  }

  /** Each value no line matched adds one line to the file; no line is lost. */
  lemma LineCount(data: string, values: seq<Entry>, prefix: string)
    requires SingleLineValues(values, prefix)
    ensures |Text.Split(UpdateEnvText(data, values, prefix), '\n')| ==
      |Text.Split(data, '\n')| + |Without(values, MatchedKeys(Text.Split(data, '\n'), values, prefix))|
  {
    var out := UpdatedLines(data, values, prefix);
    SingleLines(data, values, prefix);
    Text.SplitJoin(out, '\n');
  }

  /** No `=` or line break in the prefix and the keys, and no line break in the
      rendered values. */
  predicate PlainValues(values: seq<Entry>, prefix: string)
  {
    SingleLineValues(values, prefix) && '=' !in prefix &&
    forall e :: e in values ==> '=' !in e.0
  }

  /** The key of an assignment the transformation writes is the key it was
      written for. */
  lemma AssignmentKey(prefix: string, key: string, value: JsValue)
    requires '=' !in prefix && '=' !in key
    ensures LineKey(Assignment(prefix, key, value), prefix) == key
  {
    var line := Assignment(prefix, key, value);
    var head := prefix + key;
    assert line == head + ("=" + ToJsString(value));
    var i := |head|;
    assert line[i] == '=' && line[..i] == head;
    Text.IndexOfCharAt(line, '=', i);
    assert Text.BeforeFirst(line, '=') == head;
    if prefix != "" {
      Text.ReplaceLeadingPattern(prefix, key);
    }
  }

  /** A line the transformation writes is written the same way again. */
  lemma RewriteStable(line: string, values: seq<Entry>, prefix: string)
    requires PlainValues(values, prefix) && DistinctKeys(values)
    ensures RewriteLine(RewriteLine(line, values, prefix), values, prefix) == RewriteLine(line, values, prefix)
    ensures Matches(line, values, prefix) ==>
      Matches(RewriteLine(line, values, prefix), values, prefix) &&
      LineKey(RewriteLine(line, values, prefix), prefix) == LineKey(line, prefix)
  {
    if Matches(line, values, prefix) {
      var key := LineKey(line, prefix);
      var v := Lookup(values, key).value;
      assert (key, v) in values;
      AssignmentKey(prefix, key, v);
    }
  }

  /** An appended assignment is left as it is by a second run. */
  lemma AppendedStable(e: Entry, values: seq<Entry>, prefix: string)
    requires PlainValues(values, prefix) && DistinctKeys(values) && e in values
    ensures Matches(Assignment(prefix, e.0, e.1), values, prefix)
    ensures LineKey(Assignment(prefix, e.0, e.1), prefix) == e.0
    ensures RewriteLine(Assignment(prefix, e.0, e.1), values, prefix) == Assignment(prefix, e.0, e.1)
  {
    AssignmentKey(prefix, e.0, e.1);
    LookupDistinct(values, e);
  }

  /** Every line of a first run is written the same way by a second. */
  lemma FirstRunStable(data: string, values: seq<Entry>, prefix: string)
    requires PlainValues(values, prefix) && DistinctKeys(values)
    ensures var out := UpdatedLines(data, values, prefix);
      Rewritten(out, values, prefix) == out
  {
    var out := UpdatedLines(data, values, prefix);
    var again := Rewritten(out, values, prefix);
    forall k | 0 <= k < |out|
      ensures again[k] == out[k]
    {
      StableAt(data, values, prefix, k);
    }
  }

  lemma StableAt(data: string, values: seq<Entry>, prefix: string, k: nat)
    requires PlainValues(values, prefix) && DistinctKeys(values)
    requires k < |UpdatedLines(data, values, prefix)|
    ensures var out := UpdatedLines(data, values, prefix);
      RewriteLine(out[k], values, prefix) == out[k]
  {
    var lines := Text.Split(data, '\n');
    var matched := MatchedKeys(lines, values, prefix);
    var added := Without(values, matched);
    var out := UpdatedLines(data, values, prefix);
    if k < |lines| {
      assert out[k] == RewriteLine(lines[k], values, prefix);
      RewriteStable(lines[k], values, prefix);
    } else {
      var e := added[k - |lines|];
      assert out[k] == Assignment(prefix, e.0, e.1);
      WithoutMembers(values, matched);
      assert e in values;
      AppendedStable(e, values, prefix);
    }
  }

  /** After a first run, every key of the values is held by some line. */
  lemma FirstRunMatchesAll(data: string, values: seq<Entry>, prefix: string)
    requires PlainValues(values, prefix) && DistinctKeys(values)
    ensures var out := UpdatedLines(data, values, prefix);
      forall e :: e in values ==> e.0 in MatchedKeys(out, values, prefix)
  {
    var lines := Text.Split(data, '\n');
    var matched := MatchedKeys(lines, values, prefix);
    var added := Without(values, matched);
    var out := UpdatedLines(data, values, prefix);
    forall e | e in values
      ensures e.0 in MatchedKeys(out, values, prefix)
    {
      if e.0 in matched {
        var i :| 0 <= i < |lines| && Matches(lines[i], values, prefix) && LineKey(lines[i], prefix) == e.0;
        RewriteStable(lines[i], values, prefix);
        assert out[i] == RewriteLine(lines[i], values, prefix);
      } else {
        WithoutMembers(values, matched);
        assert e in added;
        var j :| 0 <= j < |added| && added[j] == e;
        AppendedStable(e, values, prefix);
        assert out[|lines| + j] == Assignment(prefix, e.0, e.1);
      }
    }
  }

  /** Running the transformation twice with the same values gives the text of
      one run. */
  lemma Idempotent(data: string, values: seq<Entry>, prefix: string)
    requires PlainValues(values, prefix) && DistinctKeys(values)
    ensures UpdateEnvText(UpdateEnvText(data, values, prefix), values, prefix) == UpdateEnvText(data, values, prefix)
  {
    var lines := Text.Split(data, '\n');
    var matched := MatchedKeys(lines, values, prefix);
    var added := Without(values, matched);
    var out := UpdatedLines(data, values, prefix);
    var text := UpdateEnvText(data, values, prefix);
    SingleLines(data, values, prefix);
    Text.SplitJoin(out, '\n');
    assert Text.Split(text, '\n') == out;
    FirstRunStable(data, values, prefix);
    var matched2 := MatchedKeys(out, values, prefix);
    FirstRunMatchesAll(data, values, prefix);
    WithoutAll(values, matched2);
    assert UpdatedLines(text, values, prefix) == out;
  }
}
