/** The runtime.env files: `parse_runtime_environment_text` of the deployment
    policy and `render_runtime` of the release controller. */
module RuntimeEnvironment {
  import opened Outcomes
  import TextOrder

  type Values = map<string, string>

  predicate KeyCharacter(c: char) {
    'A' <= c <= 'Z' || '0' <= c <= '9' || c == '_'
  }

  predicate ValueCharacter(c: char) {
    || 'a' <= c <= 'z' || 'A' <= c <= 'Z' || '0' <= c <= '9'
    || c in {'.', '_', ':', '/', '@', '+', '-'}
  }

  /** A variable name that controls neither Compose nor Docker. */
  predicate IsKey(key: string) {
    && key != "" && 'A' <= key[0] <= 'Z' && (forall k :: 0 <= k < |key| ==> KeyCharacter(key[k]))
    && !("COMPOSE_" <= key) && !("DOCKER_" <= key)
  }

  predicate IsValue(value: string) {
    value != "" && forall k :: 0 <= k < |value| ==> ValueCharacter(value[k])
  }

  predicate Readable(text: string) {
    forall k :: 0 <= k < |text| ==> text[k] == '\n' || ' ' <= text[k] <= '~'
  }

  /** `text.split("\n")`. */
  function Lines(text: string): (lines: seq<string>)
    ensures lines != []
  {
    if text == "" then [""]
    else
      var rest := Lines(text[1..]);
      if text[0] == '\n' then [""] + rest else [[text[0]] + rest[0]] + rest[1..]
  }

  function FirstLine(text: string): string {
    Lines(text)[0]
  }

  /** Where the key of a line ends: at its first '='. */
  function Cut(line: string): (i: nat)
    ensures i <= |line| && '=' !in line[..i] && (i < |line| ==> line[i] == '=')
  {
    if line == "" || line[0] == '=' then 0 else 1 + Cut(line[1..])
  }

  function KeyOf(line: string): string { line[..Cut(line)] }

  function ValueOf(line: string): string { if Cut(line) < |line| then line[Cut(line) + 1..] else "" }

  predicate Skipped(line: string) { line == "" || line[0] == '#' }

  predicate IsSetting(line: string) {
    Cut(line) < |line| && IsKey(KeyOf(line)) && IsValue(ValueOf(line))
  }

  // ------------------------------------------------------------------
  // What a text says, without reference to the order of reading.

  predicate Sets(line: string, key: string) {
    !Skipped(line) && KeyOf(line) == key
  }

  predicate Agrees(line: string, m: Values) {
    Skipped(line) || (IsSetting(line) && KeyOf(line) in m && m[KeyOf(line)] == ValueOf(line))
  }

  predicate Clash(a: string, b: string) {
    !Skipped(a) && Sets(b, KeyOf(a))
  }

  /** Each line is a comment or one setting of `m`, no key is set twice, and
      every key of `m` is set. */
  ghost predicate Describes(lines: seq<string>, m: Values) {
    && (forall i :: 0 <= i < |lines| ==> Agrees(lines[i], m))
    && (forall i, j :: 0 <= i < j < |lines| ==> !Clash(lines[i], lines[j]))
    && (forall key :: key in m ==> exists i :: 0 <= i < |lines| && Sets(lines[i], key))
  }

  ghost predicate Says(text: string, expected: set<string>, m: Values) {
    Readable(text) && m.Keys == expected && Describes(Lines(text), m)
  }

  lemma DescribesWithin(lines: seq<string>, a: Values, b: Values)
    requires Describes(lines, a) && Describes(lines, b)
    ensures forall key :: key in a ==> key in b && a[key] == b[key]
  {
    forall key | key in a
      ensures key in b && a[key] == b[key]
    {
      var i :| 0 <= i < |lines| && Sets(lines[i], key);
      assert Agrees(lines[i], a) && Agrees(lines[i], b);
    }
  }

  lemma DescribesOne(lines: seq<string>, a: Values, b: Values)
    requires Describes(lines, a) && Describes(lines, b)
    ensures a == b
  {
    DescribesWithin(lines, a, b);
    DescribesWithin(lines, b, a);
  }

  lemma DescribesPrefix(lines: seq<string>, i: nat, values: Values, m: Values)
    requires i <= |lines| && Describes(lines, m) && Describes(lines[..i], values)
    ensures forall key :: key in values ==> key in m && m[key] == values[key]
    ensures i < |lines| && !Skipped(lines[i]) ==> KeyOf(lines[i]) !in values
  {
    forall key | key in values
      ensures key in m && m[key] == values[key]
      ensures i < |lines| && !Skipped(lines[i]) ==> KeyOf(lines[i]) != key
    {
      var j :| 0 <= j < i && Sets(lines[..i][j], key);
      assert lines[j] == lines[..i][j];
      assert Agrees(lines[j], m);
      assert i < |lines| ==> !Clash(lines[j], lines[i]);
    }
  }

  lemma DescribesSkipped(lines: seq<string>, line: string, values: Values)
    requires Describes(lines, values) && Skipped(line)
    ensures Describes(lines + [line], values)
  {
    var next := lines + [line];
    forall key | key in values
      ensures exists j :: 0 <= j < |next| && Sets(next[j], key)
    {
      var j :| 0 <= j < |lines| && Sets(lines[j], key);
      assert Sets(next[j], key);
    }
  }

  lemma DescribesSetting(lines: seq<string>, line: string, values: Values)
    requires Describes(lines, values) && IsSetting(line) && !Skipped(line) && KeyOf(line) !in values
    ensures Describes(lines + [line], values[KeyOf(line) := ValueOf(line)])
  {
    var next := lines + [line];
    var after := values[KeyOf(line) := ValueOf(line)];
    forall i | 0 <= i < |next|
      ensures Agrees(next[i], after)
    {
      if i < |lines| { assert Agrees(lines[i], values); }
    }
    forall i, j | 0 <= i < j < |next|
      ensures !Clash(next[i], next[j])
    {
      if j < |lines| {
        assert !Clash(lines[i], lines[j]);
      } else {
        assert Agrees(lines[i], values);
      }
    }
    forall key | key in after
      ensures exists j :: 0 <= j < |next| && Sets(next[j], key)
    {
      if key == KeyOf(line) {
        assert Sets(next[|lines|], key);
      } else {
        var j :| 0 <= j < |lines| && Sets(lines[j], key);
        assert Sets(next[j], key);
      }
    }
  }

  /** The first line that is refused rules out every reading of the text. */
  lemma NothingSaid(lines: seq<string>, i: nat, values: Values, expected: set<string>)
    requires i < |lines| && Describes(lines[..i], values)
    requires !Skipped(lines[i]) &&
      (!IsSetting(lines[i]) || KeyOf(lines[i]) !in expected || KeyOf(lines[i]) in values)
    ensures forall m: Values :: m.Keys == expected ==> !Describes(lines, m)
  {
    forall m: Values | m.Keys == expected && Describes(lines, m)
      ensures false
    {
      assert Agrees(lines[i], m);
      DescribesPrefix(lines, i, values, m);
    }
  }

  lemma OnlyThis(lines: seq<string>, values: Values)
    requires Describes(lines, values)
    ensures forall m: Values :: Describes(lines, m) ==> m == values
  {
    forall m: Values | Describes(lines, m)
      ensures m == values
    {
      DescribesOne(lines, m, values);
    }
  }

  /** `parse_runtime_environment_text`: it returns `m` exactly when the text says
      `m`, so a rejected text says nothing. */
  method Parse(text: string, expected: set<string>) returns (r: Option<Values>)
    ensures forall m :: r == Some(m) <==> Says(text, expected, m)
  {
    if !Readable(text) {
      return None;
    }
    var lines := Lines(text);
    var values: Values := map[];
    var i := 0;
    while i < |lines|
      invariant 0 <= i <= |lines|
      invariant Describes(lines[..i], values) && values.Keys <= expected
    {
      var line := lines[i];
      assert lines[..i + 1] == lines[..i] + [line];
      if Skipped(line) {
        DescribesSkipped(lines[..i], line, values);
      } else {
        if !IsSetting(line) || KeyOf(line) !in expected || KeyOf(line) in values {
          NothingSaid(lines, i, values, expected);
          return None;
        }
        DescribesSetting(lines[..i], line, values);
        values := values[KeyOf(line) := ValueOf(line)];
      }
      i := i + 1;
    }
    assert lines[..i] == lines;
    OnlyThis(lines, values);
    if values.Keys != expected {
      return None;
    }
    return Some(values);
  }

  // ------------------------------------------------------------------
  // Printing.

  function Line(key: string, value: string): string { key + "=" + value }

  /** `"".join(f"{key}={m[key]}\n" for key in keys)`. */
  function PrintOf(keys: seq<string>, m: Values): string
    requires forall key :: key in keys ==> key in m
  {
    if keys == [] then "" else Line(keys[0], m[keys[0]]) + "\n" + PrintOf(keys[1..], m)
  }

  function Print(m: Values): string {
    PrintOf(TextOrder.Sorted(m.Keys), m)
  }

  lemma LinesOfCons(c: char, rest: string)
    ensures Lines([c] + rest) ==
      if c == '\n' then [""] + Lines(rest) else [[c] + Lines(rest)[0]] + Lines(rest)[1..]
  {
    assert ([c] + rest)[1..] == rest;
  }

  lemma FirstOfConcat(x: seq<string>, y: seq<string>, head: string)
    requires x != []
    ensures (x + y)[0] == x[0] && [head] + (x + y)[1..] == [head] + x[1..] + y
    ensures [head] + (x + y) == [head] + x + y
  {
  }

  lemma {:induction false} LinesOfConcat(a: string, b: string)
    ensures Lines(a + "\n" + b) == Lines(a) + Lines(b)
  {
    if a == "" {
      LinesOfCons('\n', b);
      assert a + "\n" + b == ['\n'] + b;
    } else {
      hide Lines;
      var c, rest := a[0], a[1..] + "\n" + b;
      assert a == [c] + a[1..] && a + "\n" + b == [c] + rest;
      LinesOfConcat(a[1..], b);
      LinesOfCons(c, a[1..]);
      LinesOfCons(c, rest);
      FirstOfConcat(Lines(a[1..]), Lines(b), if c == '\n' then "" else [c] + Lines(rest)[0]);
    }
  }

  lemma {:induction false} OneLine(a: string)
    ensures '\n' !in a ==> Lines(a) == [a]
    ensures '\n' !in FirstLine(a) && FirstLine(a) <= a
  {
    if a != "" {
      OneLine(a[1..]);
      assert a == [a[0]] + a[1..];
    }
  }

  lemma {:induction false} FirstLineOfLine(key: string, value: string)
    requires '\n' !in key
    ensures FirstLine(Line(key, value)) == Line(key, FirstLine(value))
  {
    if key == "" {
      assert Line(key, value)[1..] == value;
    } else {
      FirstLineOfLine(key[1..], value);
      assert Line(key, value)[1..] == Line(key[1..], value);
    }
  }

  lemma {:induction false} CutLine(key: string, value: string)
    requires '=' !in key
    ensures Cut(Line(key, value)) == |key|
  {
    if key == "" {
      assert Line(key, value)[0] == '=';
    } else {
      CutLine(key[1..], value);
      assert Line(key, value)[1..] == Line(key[1..], value);
    }
  }

  lemma ReadLine(key: string, value: string)
    requires IsKey(key)
    ensures KeyOf(Line(key, value)) == key && ValueOf(Line(key, value)) == value && !Skipped(Line(key, value))
    ensures IsSetting(Line(key, value)) == IsValue(value)
    ensures '\n' !in key
  {
    assert '=' !in key;
    CutLine(key, value);
  }

  /** Every key has its own line in the print, whatever its value holds. */
  lemma {:induction false} PrintHasLine(keys: seq<string>, m: Values, key: string)
    requires forall k :: k in keys ==> k in m && IsKey(k)
    requires key in keys
    ensures Line(key, FirstLine(m[key])) in Lines(PrintOf(keys, m))
  {
    var first := Line(keys[0], m[keys[0]]);
    var rest := PrintOf(keys[1..], m);
    LinesOfConcat(first, rest);
    if key == keys[0] {
      ReadLine(key, m[key]);
      FirstLineOfLine(key, m[key]);
      assert Lines(first)[0] in Lines(first);
    } else {
      PrintHasLine(keys[1..], m, key);
    }
  }

  predicate Distinct(keys: seq<string>) {
    forall i, j :: 0 <= i < j < |keys| ==> keys[i] != keys[j]
  }

  lemma SortedIsDistinct(keys: set<string>)
    ensures Distinct(TextOrder.Sorted(keys))
  {
    var s := TextOrder.Sorted(keys);
    forall i, j | 0 <= i < j < |s|
      ensures s[i] != s[j]
    {
      TextOrder.Trichotomy(s[i], s[j]);
    }
  }

  /** The print of well-formed settings, line by line. */
  lemma {:induction false} LinesOfPrint(keys: seq<string>, m: Values)
    requires forall k :: k in keys ==> k in m && IsKey(k) && IsValue(m[k])
    ensures Lines(PrintOf(keys, m)) == seq(|keys|, i requires 0 <= i < |keys| => Line(keys[i], m[keys[i]])) + [""]
  {
    if keys != [] {
      var first := Line(keys[0], m[keys[0]]);
      assert keys[0] in keys && '\n' !in m[keys[0]];
      ReadLine(keys[0], m[keys[0]]);
      assert '\n' !in first;
      OneLine(first);
      LinesOfConcat(first, PrintOf(keys[1..], m));
      LinesOfPrint(keys[1..], m);
    }
  }

  lemma {:induction false} PrintIsReadable(keys: seq<string>, m: Values)
    requires forall k :: k in keys ==> k in m && IsKey(k) && IsValue(m[k])
    ensures Readable(PrintOf(keys, m))
  {
    if keys != [] {
      assert keys[0] in keys;
      PrintIsReadable(keys[1..], m);
    }
  }

  lemma PrintDescribes(keys: seq<string>, m: Values)
    requires Distinct(keys) && (forall k :: k in keys <==> k in m) && forall k :: k in m ==> IsKey(k) && IsValue(m[k])
    ensures Describes(seq(|keys|, i requires 0 <= i < |keys| => Line(keys[i], m[keys[i]])) + [""], m)
  {
    var lines := seq(|keys|, i requires 0 <= i < |keys| => Line(keys[i], m[keys[i]]));
    forall i | 0 <= i < |keys|
      ensures Sets(lines[i], keys[i]) && Agrees(lines[i], m)
    {
      assert keys[i] in keys;
      ReadLine(keys[i], m[keys[i]]);
    }
    forall k | k in m
      ensures exists i :: 0 <= i < |lines| && Sets(lines[i], k)
    {
      var i :| 0 <= i < |keys| && keys[i] == k;
      assert Sets(lines[i], k);
    }
    assert Describes(lines, m);
    DescribesSkipped(lines, "", m);
  }

  /** A reader of the print sees at most the first line of each value. */
  lemma PrintSaysFirstLines(m: Values, seen: Values)
    requires forall k :: k in m ==> IsKey(k)
    requires Says(Print(m), m.Keys, seen)
    ensures forall k :: k in m ==> seen[k] == FirstLine(m[k]) && IsValue(seen[k])
  {
    forall k | k in m
      ensures seen[k] == FirstLine(m[k]) && IsValue(seen[k])
    {
      PrintHasLine(TextOrder.Sorted(m.Keys), m, k);
      ReadLine(k, FirstLine(m[k]));
    }
  }

  lemma KeysAreKeys(text: string, expected: set<string>, m: Values)
    requires Says(text, expected, m)
    ensures forall k :: k in m ==> IsKey(k) && IsValue(m[k])
  {
    forall k | k in m
      ensures IsKey(k) && IsValue(m[k])
    {
      var i :| 0 <= i < |Lines(text)| && Sets(Lines(text)[i], k);
    }
  }

  /** Reading back what was printed gives the same settings exactly when every
      key and every value is well formed. */
  lemma PrintReadsBackIff(m: Values)
    ensures Says(Print(m), m.Keys, m) <==> forall k :: k in m ==> IsKey(k) && IsValue(m[k])
  {
    var keys := TextOrder.Sorted(m.Keys);
    SortedIsDistinct(m.Keys);
    if forall k :: k in m ==> IsKey(k) && IsValue(m[k]) {
      LinesOfPrint(keys, m);
      PrintIsReadable(keys, m);
      PrintDescribes(keys, m);
    }
    if Says(Print(m), m.Keys, m) {
      KeysAreKeys(Print(m), m.Keys, m);
    }
  }

  /** The print has one line for each key, in ascending order, and ends with a
      newline. */
  lemma PrintIsSorted(m: Values) returns (keys: seq<string>)
    requires forall k :: k in m ==> IsKey(k) && IsValue(m[k])
    ensures TextOrder.Ascending(keys) && forall k :: k in keys <==> k in m
    ensures Lines(Print(m)) == seq(|keys|, i requires 0 <= i < |keys| => keys[i] + "=" + m[keys[i]]) + [""]
  {
    keys := TextOrder.Sorted(m.Keys);
    LinesOfPrint(keys, m);
    assert forall i :: 0 <= i < |keys| ==> keys[i] in keys;
  }

  // ------------------------------------------------------------------
  // What is accepted.

  /** No setting controls Compose or Docker, and keys and values are plain. */
  lemma SettingsArePlain(text: string, expected: set<string>, m: Values)
    requires Says(text, expected, m)
    ensures m.Keys == expected
    ensures forall i :: 0 <= i < |text| ==> text[i] == '\n' || ' ' <= text[i] <= '~'
    ensures forall key :: key in m ==> !("COMPOSE_" <= key) && !("DOCKER_" <= key) && key != "" && m[key] != ""
    ensures forall key, i :: key in m && 0 <= i < |key| ==>
      'A' <= key[i] <= 'Z' || (i > 0 && ('0' <= key[i] <= '9' || key[i] == '_'))
    ensures forall key, i :: key in m && 0 <= i < |m[key]| ==>
      || 'a' <= m[key][i] <= 'z' || 'A' <= m[key][i] <= 'Z' || '0' <= m[key][i] <= '9'
      || m[key][i] in {'.', '_', ':', '/', '@', '+', '-'}
  {
    KeysAreKeys(text, expected, m);
  }

  /** A line that is neither empty nor a comment has exactly one key, and no two
      have the same. */
  lemma RepeatedKeyIsRefused(text: string, expected: set<string>, m: Values, i: nat, j: nat)
    requires i < j < |Lines(text)|
    requires Lines(text)[i] != "" && Lines(text)[i][0] != '#' && Lines(text)[j] != "" && Lines(text)[j][0] != '#'
    requires KeyOf(Lines(text)[i]) == KeyOf(Lines(text)[j])
    ensures !Says(text, expected, m)
  {
    assert Clash(Lines(text)[i], Lines(text)[j]);
  }

  predicate Hexadecimal(t: string) {
    forall k :: 0 <= k < |t| ==> '0' <= t[k] <= '9' || 'a' <= t[k] <= 'f'
  }

  /** The characters of a registry path. */
  predicate RegistryPath(t: string) {
    && t != ""
    && forall k :: 0 <= k < |t| ==> 'a' <= t[k] <= 'z' || '0' <= t[k] <= '9' || t[k] in {'.', '_', '/', '-', ':'}
  }

  /** What the controller puts in is accepted: a revision and an image reference. */
  lemma TargetsAreValues(revision: string, repository: string, digest: string)
    requires |revision| == 40 && Hexadecimal(revision)
    requires RegistryPath(repository) && |digest| == 64 && Hexadecimal(digest)
    ensures IsValue(revision) && IsValue(repository + "@sha256:" + digest)
  {
    var image := repository + "@sha256:" + digest;
    forall k | 0 <= k < |image|
      ensures ValueCharacter(image[k])
    {
      if |repository| <= k < |repository| + 8 {
        assert image[k] == "@sha256:"[k - |repository|];
      }
    }
  }

  // ------------------------------------------------------------------
  // Rendering the target's runtime file.

  /** `seen` is `current` with the replaced keys, and no others, changed. */
  ghost predicate Overridden(current: Values, replacements: Values, seen: Values) {
    && seen.Keys == current.Keys
    && forall k :: k in seen ==> seen[k] == if k in replacements then FirstLine(replacements[k]) else current[k]
  }

  ghost predicate Renders(text: string, expected: set<string>, replacements: Values, policy: Values -> bool,
      content: string, current: Values, seen: Values)
  {
    && Says(text, expected, current) && replacements.Keys <= current.Keys
    && content == Print(current + replacements)
    && Says(content, expected, seen) && Overridden(current, replacements, seen) && policy(seen)
  }

  lemma RenderedValues(expected: set<string>, current: Values, replacements: Values, seen: Values)
    requires current.Keys == expected && replacements.Keys <= expected
    requires forall k :: k in current ==> IsKey(k) && IsValue(current[k])
    requires Says(Print(current + replacements), expected, seen)
    ensures Overridden(current, replacements, seen)
  {
    var m := current + replacements;
    assert m.Keys == expected;
    PrintSaysFirstLines(m, seen);
    KeptLines(current);
  }

  lemma RenderedReadsBack(expected: set<string>, current: Values, replacements: Values)
    requires current.Keys == expected && replacements.Keys <= expected
    requires forall k :: k in current ==> IsKey(k) && IsValue(current[k])
    ensures Says(Print(current + replacements), expected, current + replacements)
      <==> forall k :: k in replacements ==> IsValue(replacements[k])
  {
    var m := current + replacements;
    assert m.Keys == expected;
    PrintReadsBackIff(m);
    assert forall k :: k in replacements ==> m[k] == replacements[k];
  }

  /** The rendered file reads exactly as the current settings with the replacements,
      if and only if each of these is a value that the parser accepts. */
  lemma RendersExactlyIff(text: string, expected: set<string>, replacements: Values, policy: Values -> bool,
      content: string, current: Values, seen: Values)
    requires Renders(text, expected, replacements, policy, content, current, seen)
    ensures seen == current + replacements <==> forall k :: k in replacements ==> IsValue(replacements[k])
  {
    hide Describes, IsKey, IsValue, FirstLine;
    KeysAreKeys(text, expected, current);
    assert current.Keys == expected;
    RenderedReadsBack(expected, current, replacements);
    if forall k :: k in replacements ==> IsValue(replacements[k]) {
      KeptLines(replacements);
      assert seen == current + replacements;
    }
  }

  lemma PrintOfOne(key: string, m: Values)
    requires m.Keys == {key}
    ensures Print(m) == Line(key, m[key]) + "\n"
  {
    var keys := TextOrder.Sorted(m.Keys);
    SortedIsDistinct(m.Keys);
    assert forall x :: x in keys <==> x == key;
    DistinctHasOne(keys, key);
    assert keys == [key];
    assert PrintOf(keys[1..], m) == "";
  }

  lemma DistinctHasOne(keys: seq<string>, key: string)
    requires Distinct(keys) && key in keys
    ensures (forall x :: x in keys ==> x == key) ==> keys == [key]
  {
    if |keys| > 1 {
      assert keys[0] != keys[1] && keys[0] in keys && keys[1] in keys;
    }
  }

  lemma CommentedLines(m: Values)
    requires m == map["A" := "y\n#z"]
    ensures Lines(Print(m)) == ["A=y", "#z", ""] && Readable(Print(m))
  {
    hide Lines, Print;
    PrintOfOne("A", m);
    assert Print(m) == "A=y" + "\n" + ("#z" + "\n" + "");
    LinesOfConcat("A=y", "#z" + "\n" + "");
    LinesOfConcat("#z", "");
    OneLine("A=y");
    OneLine("#z");
    OneLine("");
  }

  /** A replacement that continues with a comment line is accepted, and the file
      then says only its first line. */
  lemma CommentIsLost()
    ensures !IsValue("y\n#z") && Says(Print(map["A" := "y\n#z"]), {"A"}, map["A" := "y"])
  {
    hide Lines, Print, IsKey, Readable;
    var m: Values, seen: Values := map["A" := "y\n#z"], map["A" := "y"];
    assert m["A"][1] == '\n';
    CommentedLines(m);
    assert IsKey("A") by { IsKeyA(); }
    ReadLine("A", "y");
    assert Line("A", "y") == "A=y" && IsValue("y");
    assert Sets(Lines(Print(m))[0], "A");
  }

  lemma IsKeyA()
    ensures IsKey("A")
  {
  }

  /** Nothing but the text, the keys, a value or the policy is at fault. */
  ghost predicate AtFault(text: string, expected: set<string>, replacements: Values, policy: Values -> bool) {
    forall current :: Says(text, expected, current) ==>
      || !(replacements.Keys <= current.Keys) || !policy(current + replacements)
      || exists k :: k in replacements && !IsValue(replacements[k])
  }

  lemma RefusalIsJustified(text: string, expected: set<string>, replacements: Values, policy: Values -> bool,
      current: Values, seen: Option<Values>)
    requires Says(text, expected, current)
    requires replacements.Keys <= current.Keys ==>
      && (forall m :: seen == Some(m) <==> Says(Print(current + replacements), expected, m))
      && (seen.None? || !policy(seen.value))
    ensures AtFault(text, expected, replacements, policy)
  {
    hide Describes, Print, IsKey, IsValue;
    OnlyThis(Lines(text), current);
    KeysAreKeys(text, expected, current);
    if replacements.Keys <= current.Keys && forall k :: k in replacements ==> IsValue(replacements[k]) {
      RenderedReadsBack(expected, current, replacements);
      assert seen == Some(current + replacements);
    }
  }

  /** `render_runtime`; `policy` stands for `validate_<environment>_runtime` with
      the target manifest. The result, when there is one, reads as the current
      settings overridden at the replaced keys by the first line of each
      replacement. */
  method RenderRuntime(text: string, expected: set<string>, replacements: Values, policy: Values -> bool)
    returns (r: Option<string>)
    ensures r.Some? ==> exists current, seen :: Renders(text, expected, replacements, policy, r.value, current, seen)
    ensures r.None? ==> AtFault(text, expected, replacements, policy)
  {
    var parsed := Parse(text, expected);
    if parsed.None? {
      return None;
    }
    var current := parsed.value;
    if !(replacements.Keys <= current.Keys) {
      RefusalIsJustified(text, expected, replacements, policy, current, None);
      return None;
    }
    var content := Print(current + replacements);
    var values := Parse(content, expected);
    if values.None? || !policy(values.value) {
      RefusalIsJustified(text, expected, replacements, policy, current, values);
      return None;
    }
    KeysAreKeys(text, expected, current);
    RenderedValues(expected, current, replacements, values.value);
    assert Renders(text, expected, replacements, policy, content, current, values.value);
    return Some(content);
  }

  lemma KeptLines(m: Values)
    requires forall k :: k in m ==> IsValue(m[k])
    ensures forall k :: k in m ==> FirstLine(m[k]) == m[k]
  {
    forall k | k in m
      ensures FirstLine(m[k]) == m[k]
    {
      assert '\n' !in m[k];
      OneLine(m[k]);
    }
  }
}
