/** `canonical_bytes` and `strict_object` on flat JSON objects. Texts are
    sequences of Unicode characters, and data is the decoded text. */
module FlatJson {
  import opened Decimal
  import opened Outcomes
  import TextOrder
  import Utf8

  datatype Value = Str(text: string) | Int(n: int) | Bool(b: bool) | Null

  type Object = map<string, Value>

  datatype Pair = Pair(key: string, value: Value)

  // ------------------------------------------------------------------
  // Printing.

  type Nibble = n: int | 0 <= n < 16

  function HexChar(n: Nibble): char {
    if n < 10 then '0' + n as char else 'a' + (n - 10) as char
  }

  /** A JSON escape of one UTF-16 code unit. */
  function EscapedUnit(u: int): (t: string)
    requires 0 <= u < 0x10000
    ensures |t| == 6 && t[0] == '\\'
  {
    ['\\', 'u', HexChar(u / 4096), HexChar(u / 256 % 16), HexChar(u / 16 % 16), HexChar(u % 16)]
  }

  function HighSurrogate(c: int): int { 0xD800 + (c - 0x10000) / 0x400 }

  function LowSurrogate(c: int): int { 0xDC00 + (c - 0x10000) % 0x400 }

  /** One character of a string, as `ensure_ascii` prints it. */
  function Escaped(c: char): (t: string)
    ensures t != "" && t[0] != '"' && forall k :: 0 <= k < |t| ==> ' ' <= t[k] <= '~'
  {
    if c == '"' then ['\\', '"']
    else if c == '\\' then ['\\', '\\']
    else if c == '\n' then ['\\', 'n']
    else if c == '\r' then ['\\', 'r']
    else if c == '\t' then ['\\', 't']
    else if c as int == 12 then ['\\', 'f']
    else if c as int == 8 then ['\\', 'b']
    else if ' ' <= c <= '~' then [c]
    else if c as int < 0x10000 then EscapedUnit(c as int)
    else EscapedUnit(HighSurrogate(c as int)) + EscapedUnit(LowSurrogate(c as int))
  }

  function PrintChars(s: string): string {
    if s == "" then ['"'] else Escaped(s[0]) + PrintChars(s[1..])
  }

  function PrintInt(n: int): string {
    if n < 0 then "-" + ToText(Digits(-n)) else ToText(Digits(n))
  }

  function PrintValue(v: Value): string {
    match v
    case Str(text) => ['"'] + PrintChars(text)
    case Int(n) => PrintInt(n)
    case Bool(b) => if b then "true" else "false"
    case Null => "null"
  }

  function PrintPair(p: Pair): string {
    ['"'] + PrintChars(p.key) + ":" + PrintValue(p.value)
  }

  /** The pairs from the first key on, up to and including the closing brace. */
  function PrintPairs(pairs: seq<Pair>): string
    requires pairs != []
  {
    PrintPair(pairs[0]) + if |pairs| == 1 then "}" else "," + PrintPairs(pairs[1..])
  }

  function PairsOf(keys: seq<string>, m: Object): (pairs: seq<Pair>)
    requires forall k :: k in keys ==> k in m
    ensures |pairs| == |keys| && forall i :: 0 <= i < |keys| ==> pairs[i] == Pair(keys[i], m[keys[i]])
  {
    seq(|keys|, i requires 0 <= i < |keys| => Pair(keys[i], m[keys[i]]))
  }

  function SortedPairs(m: Object): seq<Pair> {
    PairsOf(TextOrder.Sorted(m.Keys), m)
  }

  /** `canonical_bytes`. */
  function Canonical(m: Object): string {
    var pairs := SortedPairs(m);
    (if pairs == [] then "{}" else "{" + PrintPairs(pairs)) + "\n"
  }

  /** The pairs are printed in ascending order of their keys, each once. */
  lemma CanonicalIsSorted(m: Object) returns (keys: seq<string>)
    ensures TextOrder.Ascending(keys) && forall k :: k in keys <==> k in m
    ensures m != map[] ==> keys != [] && Canonical(m) == "{" + PrintPairs(PairsOf(keys, m)) + "\n"
    ensures Canonical(map[]) == "{}\n"
  {
    keys := TextOrder.Sorted(m.Keys);
    if m != map[] {
      var k :| k in m;
      assert k in keys;
    }
    assert SortedPairs(map[]) == [];
  }

  /** How pairs are printed: quotes, a colon, commas, no spaces. */
  lemma PairsArePrinted(p: Pair, q: Pair)
    ensures PrintPairs([p, q]) == PrintPair(p) + "," + PrintPair(q) + "}"
    ensures PrintPair(Pair("a", Str("b"))) == "\"a\":\"b\""
    ensures PrintPair(Pair("a", Bool(true))) == "\"a\":true" && PrintPair(Pair("a", Null)) == "\"a\":null"
  {
    hide PrintPair;
    assert [p, q][1..] == [q];
    PrintOfOne("a", Str("b"));
    PrintOfOne("a", Bool(true));
    PrintOfOne("a", Null);
    assert PrintChars("b") == "b\"" by { assert "b"[1..] == ""; }
  }

  lemma PrintOfOne(key: string, v: Value)
    requires |key| == 1 && 'a' <= key[0] <= 'z'
    ensures PrintPair(Pair(key, v)) == "\"" + key + "\":" + PrintValue(v)
  {
    hide PrintValue;
    assert key[1..] == "" && PrintChars(key) == key + "\"";
  }

  lemma EscapesArePrinted()
    ensures Escaped('"') == "\\\"" && Escaped('\\') == "\\\\" && Escaped('\n') == "\\n"
    ensures Escaped('\r') == "\\r" && Escaped('\t') == "\\t" && Escaped('/') == "/" && Escaped('a') == "a"
  {
  }

  /** Characters beyond ASCII are printed by their UTF-16 code units. */
  lemma UnitsArePrinted()
    ensures Escaped(0xE9 as char) == "\\u00e9"
    ensures Escaped(0x1F600 as char) == "\\ud83d" + "\\ude00"
  {
    hide EscapedUnit;
    UnitsAre();
  }

  lemma UnitsAre()
    ensures EscapedUnit(0xE9) == "\\u00e9"
    ensures EscapedUnit(0xD83D) == "\\ud83d" && EscapedUnit(0xDE00) == "\\ude00"
  {
  }

  // ------------------------------------------------------------------
  // Reading. Each reader returns what it read and the text after it.

  function SkipSpace(t: string): (r: string)
    ensures |r| <= |t|
  {
    if t != "" && t[0] in {' ', '\t', '\n', '\r'} then SkipSpace(t[1..]) else t
  }

  function HexValue(c: char): Option<Nibble> {
    if '0' <= c <= '9' then Some(c as int - '0' as int)
    else if 'a' <= c <= 'f' then Some(c as int - 'a' as int + 10)
    else if 'A' <= c <= 'F' then Some(c as int - 'A' as int + 10)
    else None
  }

  /** The four hexadecimal digits that follow a backslash and an 'u'. */
  function ReadUnit(t: string): (r: Option<int>)
    ensures r.Some? ==> 0 <= r.value < 0x10000 && |t| >= 4
  {
    if |t| < 4 then None
    else
      var a :- HexValue(t[0]);
      var b :- HexValue(t[1]);
      var c :- HexValue(t[2]);
      var d :- HexValue(t[3]);
      Some(a as int * 4096 + b as int * 256 + c as int * 16 + d)
  }

  /** What follows a backslash. A surrogate that has no partner is refused. */
  function ReadEscape(t: string): (r: Option<(char, string)>)
    ensures r.Some? ==> |r.value.1| < |t|
  {
    if t == "" then None
    else if t[0] in {'"', '\\', '/'} then Some((t[0], t[1..]))
    else if t[0] == 'n' then Some(('\n', t[1..]))
    else if t[0] == 'r' then Some(('\r', t[1..]))
    else if t[0] == 't' then Some(('\t', t[1..]))
    else if t[0] == 'f' then Some((12 as char, t[1..]))
    else if t[0] == 'b' then Some((8 as char, t[1..]))
    else if t[0] != 'u' then None
    else
      var u :- ReadUnit(t[1..]);
      if u < 0xD800 || 0xE000 <= u then Some((u as char, t[5..]))
      else if 0xDC00 <= u || |t| < 7 || t[5] != '\\' || t[6] != 'u' then None
      else
        var low :- ReadUnit(t[7..]);
        if low < 0xDC00 || 0xE000 <= low then None
        else Some((((u - 0xD800) * 0x400 + (low - 0xDC00) + 0x10000) as char, t[11..]))
  }

  /** The rest of a string after its opening quote. */
  function ReadChars(t: string): (r: Option<(string, string)>)
    ensures r.Some? ==> |r.value.1| < |t|
    decreases |t|
  {
    if t == "" || t[0] < ' ' then None
    else if t[0] == '"' then Some(("", t[1..]))
    else if t[0] == '\\' then
      var e :- ReadEscape(t[1..]);
      var s :- ReadChars(e.1);
      Some(([e.0] + s.0, s.1))
    else
      var s :- ReadChars(t[1..]);
      Some(([t[0]] + s.0, s.1))
  }

  function DigitCount(t: string): (n: nat)
    ensures n <= |t| && forall k :: 0 <= k < n ==> IsDigitChar(t[k])
  {
    if t == "" || !IsDigitChar(t[0]) then 0 else 1 + DigitCount(t[1..])
  }

  function ReadNat(t: string): (r: Option<(nat, string)>)
    ensures r.Some? ==> |r.value.1| < |t|
  {
    var n := DigitCount(t);
    if n == 0 || (t[0] == '0' && n > 1) then None else Some((Decimal.Value(OfText(t[..n])), t[n..]))
  }

  function ReadValue(t: string): (r: Option<(Value, string)>)
    ensures r.Some? ==> |r.value.1| < |t|
  {
    if t == "" then None
    else if t[0] == '"' then
      var s :- ReadChars(t[1..]);
      Some((Str(s.0), s.1))
    else if t[0] == '-' then
      var n :- ReadNat(t[1..]);
      Some((Int(0 - n.0 as int), n.1))
    else if IsDigitChar(t[0]) then
      var n :- ReadNat(t);
      Some((Int(n.0), n.1))
    else if "true" <= t then Some((Bool(true), t[4..]))
    else if "false" <= t then Some((Bool(false), t[5..]))
    else if "null" <= t then Some((Null, t[4..]))
    else None
  }

  /** A key, a colon, a value, and the spaces after it. */
  function ReadPair(t: string): (r: Option<(Pair, string)>)
    ensures r.Some? ==> |r.value.1| < |t|
  {
    if t == "" || t[0] != '"' then None
    else
      var key :- ReadChars(t[1..]);
      var colon := SkipSpace(key.1);
      if colon == "" || colon[0] != ':' then None
      else
        var v :- ReadValue(SkipSpace(colon[1..]));
        Some((Pair(key.0, v.0), SkipSpace(v.1)))
  }

  /** One or more pairs and the closing brace. */
  function ReadPairs(t: string): (r: Option<(seq<Pair>, string)>)
    ensures r.Some? ==> |r.value.1| < |t|
    decreases |t|
  {
    var p :- ReadPair(t);
    var next := p.1;
    if next == "" then None
    else if next[0] == '}' then Some(([p.0], next[1..]))
    else if next[0] != ',' then None
    else
      var more :- ReadPairs(SkipSpace(next[1..]));
      Some(([p.0] + more.0, more.1))
  }

  /** The whole text is one object. */
  function ReadText(t: string): Option<seq<Pair>> {
    var start := SkipSpace(t);
    if start == "" || start[0] != '{' then None
    else
      var inside := SkipSpace(start[1..]);
      if inside != "" && inside[0] == '}' then
        if SkipSpace(inside[1..]) == "" then Some([]) else None
      else
        var r :- ReadPairs(inside);
        if SkipSpace(r.1) == "" then Some(r.0) else None
  }

  predicate DistinctKeys(pairs: seq<Pair>) {
    forall i, j :: 0 <= i < j < |pairs| ==> pairs[i].key != pairs[j].key
  }

  function MapOf(pairs: seq<Pair>): (m: Object)
    ensures forall k :: k in m <==> exists i :: 0 <= i < |pairs| && pairs[i].key == k
  {
    if pairs == [] then map[] else MapOf(pairs[..|pairs| - 1])[pairs[|pairs| - 1].key := pairs[|pairs| - 1].value]
  }

  /** `_unique_object`. */
  method UniqueObject(pairs: seq<Pair>) returns (r: Option<Object>)
    ensures r == if DistinctKeys(pairs) then Some(MapOf(pairs)) else None
    ensures r.None? <==> exists i, j :: 0 <= i < j < |pairs| && pairs[i].key == pairs[j].key
    ensures r.Some? ==> forall i :: 0 <= i < |pairs| ==>
      pairs[i].key in r.value && r.value[pairs[i].key] == pairs[i].value
  {
    var result: Object := map[];
    for i := 0 to |pairs|
      invariant DistinctKeys(pairs[..i]) && result == MapOf(pairs[..i])
    {
      assert pairs[..i + 1][..i] == pairs[..i];
      if pairs[i].key in result {
        return None;
      }
      result := result[pairs[i].key := pairs[i].value];
    }
    assert pairs[..|pairs|] == pairs;
    forall i | 0 <= i < |pairs|
      ensures result[pairs[i].key] == pairs[i].value
    {
      MapOfPairs(pairs, i);
    }
    return Some(result);
  }

  /** The size of a text in UTF-8. */
  function Utf8Size(t: string): nat {
    if t == "" then 0
    else
      var c := t[0] as int;
      (if c < 0x80 then 1 else if c < 0x800 then 2 else if c < 0x10000 then 3 else 4) + Utf8Size(t[1..])
  }

  /** What `strict_object` returns. */
  function StrictObject(t: string, maximum: nat): Option<Object> {
    if t == "" || Utf8Size(t) > maximum || t[0] as int == 0xFEFF then None
    else
      var pairs :- ReadText(t);
      if DistinctKeys(pairs) then Some(MapOf(pairs)) else None
  }

  /** `strict_object`: the parser collects the pairs, `_unique_object` builds the
      dictionary. */
  method ReadObject(t: string, maximum: nat) returns (r: Option<Object>)
    ensures r == StrictObject(t, maximum)
  {
    if t == "" || Utf8Size(t) > maximum || t[0] as int == 0xFEFF {
      return None;
    }
    var pairs :- ReadText(t);
    r := UniqueObject(pairs);
  }

  function Codes(t: string): (text: seq<int>)
    ensures |text| == |t| && forall k :: 0 <= k < |t| ==> text[k] == t[k] as int && Utf8.IsScalar(text[k])
  {
    seq(|t|, k requires 0 <= k < |t| => t[k] as int)
  }

  /** The size is that of the UTF-8 form. */
  lemma {:induction false} Utf8SizeIs(t: string)
    ensures Utf8Size(t) == |Utf8.EncodingOf(Codes(t))|
  {
    if t != "" {
      Utf8SizeIs(t[1..]);
      assert Codes(t)[1..] == Codes(t[1..]);
    }
  }

  /** Some data that is refused: nothing, no object, something after it, a key that
      comes twice, a number with a leading zero. */
  lemma RefusedExamples(maximum: nat)
    ensures StrictObject("", maximum).None? && StrictObject("[]", maximum).None?
    ensures StrictObject("{}x", maximum).None? && StrictObject("{", maximum).None?
    ensures ReadNat("01").None?
  {
    assert "{}x"[1..] == "}x" && "}x"[1..] == "x" && "{"[1..] == "";
    assert DigitCount("01") == 2 by { assert "01"[1..] == "1" && "1"[1..] == ""; }
  }

  // ------------------------------------------------------------------
  // Reading what was printed.

  lemma HexBack(n: Nibble)
    ensures HexValue(HexChar(n)) == Some(n)
  {
  }

  lemma NibblesOf(u: int)
    requires 0 <= u < 0x10000
    ensures u / 4096 * 4096 + u / 256 % 16 * 256 + u / 16 % 16 * 16 + u % 16 == u
  {
    assert u == u / 16 * 16 + u % 16;
    assert u / 16 == u / 256 * 16 + u / 16 % 16;
    assert u / 256 == u / 4096 * 16 + u / 256 % 16;
  }

  lemma UnitBack(u: int, rest: string)
    requires 0 <= u < 0x10000
    ensures ReadUnit((EscapedUnit(u) + rest)[2..]) == Some(u)
  {
    var t := (EscapedUnit(u) + rest)[2..];
    assert t[0] == HexChar(u / 4096) && t[1] == HexChar(u / 256 % 16);
    assert t[2] == HexChar(u / 16 % 16) && t[3] == HexChar(u % 16);
    HexBack(u / 4096);
    HexBack(u / 256 % 16);
    HexBack(u / 16 % 16);
    HexBack(u % 16);
    NibblesOf(u);
  }

  lemma SurrogatesOf(c: int)
    requires 0x10000 <= c < 0x110000
    ensures 0xD800 <= HighSurrogate(c) < 0xDC00 <= LowSurrogate(c) < 0xE000
    ensures (HighSurrogate(c) - 0xD800) * 0x400 + (LowSurrogate(c) - 0xDC00) + 0x10000 == c
  {
  }

  /** An escape of one unit, after its backslash. */
  lemma UnitEscapeBack(u: int, rest: string)
    requires 0 <= u < 0xD800 || 0xE000 <= u < 0x10000
    ensures ReadEscape((EscapedUnit(u) + rest)[1..]) == Some((u as char, rest))
  {
    var t := (EscapedUnit(u) + rest)[1..];
    UnitBack(u, rest);
    assert t[0] == 'u' && t[1..] == (EscapedUnit(u) + rest)[2..] && t[5..] == rest;
  }

  /** An escape of a surrogate pair, after its first backslash. */
  lemma PairEscapeBack(high: int, low: int, rest: string)
    requires 0xD800 <= high < 0xDC00 <= low < 0xE000
    ensures ReadEscape((EscapedUnit(high) + (EscapedUnit(low) + rest))[1..])
      == Some((((high - 0xD800) * 0x400 + (low - 0xDC00) + 0x10000) as char, rest))
  {
    var tail := EscapedUnit(low) + rest;
    var t := (EscapedUnit(high) + tail)[1..];
    UnitBack(high, tail);
    UnitBack(low, rest);
    assert t[0] == 'u' && t[1..] == (EscapedUnit(high) + tail)[2..];
    assert t[5] == '\\' && t[6] == 'u' && t[7..] == tail[2..] && t[11..] == rest;
  }

  lemma EscapeBack(c: char, rest: string)
    requires c == '"' || c == '\\' || !(' ' <= c <= '~')
    ensures Escaped(c)[0] == '\\' && ReadEscape((Escaped(c) + rest)[1..]) == Some((c, rest))
  {
    hide EscapedUnit, ReadUnit;
    if |Escaped(c)| == 2 {
      assert (Escaped(c) + rest)[1..] == [Escaped(c)[1]] + rest;
    } else if c as int < 0x10000 {
      UnitEscapeBack(c as int, rest);
    } else {
      var high, low := HighSurrogate(c as int), LowSurrogate(c as int);
      SurrogatesOf(c as int);
      PairEscapeBack(high, low, rest);
      assert Escaped(c) + rest == EscapedUnit(high) + (EscapedUnit(low) + rest);
    }
  }

  lemma {:induction false} CharsBack(s: string, rest: string)
    ensures ReadChars(PrintChars(s) + rest) == Some((s, rest))
  {
    var t := PrintChars(s) + rest;
    if s == "" {
      assert t[1..] == rest;
    } else {
      var tail := PrintChars(s[1..]) + rest;
      assert t == Escaped(s[0]) + tail;
      CharsBack(s[1..], rest);
      assert s == [s[0]] + s[1..];
      if s[0] == '"' || s[0] == '\\' || !(' ' <= s[0] <= '~') {
        EscapeBack(s[0], tail);
      } else {
        assert t[1..] == tail;
      }
    }
  }

  lemma {:induction false} DigitCountOf(digits: string, rest: string)
    requires forall k :: 0 <= k < |digits| ==> IsDigitChar(digits[k])
    requires rest != "" && !IsDigitChar(rest[0])
    ensures DigitCount(digits + rest) == |digits|
  {
    if digits == "" {
      assert digits + rest == rest;
    } else {
      assert (digits + rest)[1..] == digits[1..] + rest;
      DigitCountOf(digits[1..], rest);
    }
  }

  lemma NatBack(n: nat, rest: string)
    requires rest != "" && !IsDigitChar(rest[0])
    ensures ReadNat(ToText(Digits(n)) + rest) == Some((n, rest))
  {
    var digits := ToText(Digits(n));
    DigitCountOf(digits, rest);
    TextBack(Digits(n));
    assert (digits + rest)[..|digits|] == digits && (digits + rest)[|digits|..] == rest;
    assert CharDigit(digits[0]) == Digits(n)[0];
  }

  lemma WordBack(word: string, rest: string)
    ensures (word + rest)[..|word|] == word && (word + rest)[|word|..] == rest && word <= word + rest
  {
  }

  lemma NumberBack(digits: string, n: nat, rest: string)
    requires digits != "" && IsDigitChar(digits[0]) && ReadNat(digits + rest) == Some((n, rest))
    ensures ReadValue(digits + rest) == Some((Int(n), rest))
    ensures ReadValue("-" + digits + rest) == Some((Int(0 - n), rest))
  {
    assert ("-" + digits + rest)[1..] == digits + rest;
  }

  lemma IntBack(n: int, rest: string)
    requires rest != "" && !IsDigitChar(rest[0])
    ensures ReadValue(PrintInt(n) + rest) == Some((Int(n), rest))
    ensures PrintInt(n)[0] == '-' || IsDigitChar(PrintInt(n)[0])
  {
    var size := if n < 0 then -n else n;
    NatBack(size, rest);
    NumberBack(ToText(Digits(size)), size, rest);
  }

  lemma ValueBack(v: Value, rest: string)
    requires rest != "" && !IsDigitChar(rest[0])
    ensures ReadValue(PrintValue(v) + rest) == Some((v, rest))
    ensures PrintValue(v) != "" && PrintValue(v)[0] !in {' ', '\t', '\n', '\r'}
  {
    var t := PrintValue(v) + rest;
    hide ReadChars, PrintChars, ReadNat, ToText, Digits;
    if v.Str? {
      CharsBack(v.text, rest);
      assert t[1..] == PrintChars(v.text) + rest;
    } else if v.Int? {
      IntBack(v.n, rest);
    } else {
      WordBack(PrintValue(v), rest);
      assert t[0] == PrintValue(v)[0];
    }
  }

  lemma PairBack(p: Pair, next: string)
    requires next != "" && next[0] in {',', '}'}
    ensures ReadPair(PrintPair(p) + next) == Some((p, next))
  {
    var t := PrintPair(p) + next;
    var colon := ":" + (PrintValue(p.value) + next);
    hide ReadChars, ReadValue, PrintChars, PrintValue;
    CharsBack(p.key, colon);
    ValueBack(p.value, next);
    assert t[1..] == PrintChars(p.key) + colon;
    assert colon[1..] == PrintValue(p.value) + next;
    assert SkipSpace(colon[1..]) == colon[1..];
  }

  lemma LastPairBack(p: Pair, rest: string)
    ensures ReadPairs(PrintPair(p) + "}" + rest) == Some(([p], rest))
  {
    var next := "}" + rest;
    hide ReadPair, PrintPair;
    PairBack(p, next);
    assert PrintPair(p) + "}" + rest == PrintPair(p) + next && next[1..] == rest;
  }

  lemma AnotherPairBack(p: Pair, more: string, pairs: seq<Pair>, rest: string)
    requires more != "" && more[0] == '"' && ReadPairs(more + rest) == Some((pairs, rest))
    ensures ReadPairs(PrintPair(p) + ("," + more) + rest) == Some(([p] + pairs, rest))
  {
    var next := "," + (more + rest);
    hide ReadPair, PrintPair;
    PairBack(p, next);
    assert PrintPair(p) + ("," + more) + rest == PrintPair(p) + next && next[1..] == more + rest;
  }

  lemma {:induction false} PairsBack(pairs: seq<Pair>, rest: string)
    requires pairs != []
    ensures ReadPairs(PrintPairs(pairs) + rest) == Some((pairs, rest))
    ensures PrintPairs(pairs)[0] == '"'
  {
    if |pairs| == 1 {
      assert pairs == [pairs[0]];
      LastPairBack(pairs[0], rest);
    } else {
      assert pairs == [pairs[0]] + pairs[1..];
      PairsBack(pairs[1..], rest);
      AnotherPairBack(pairs[0], PrintPairs(pairs[1..]), pairs[1..], rest);
    }
  }

  lemma ObjectBack(inside: string, pairs: seq<Pair>)
    requires inside != "" && inside[0] == '"' && ReadPairs(inside + "\n") == Some((pairs, "\n"))
    ensures ReadText("{" + inside + "\n") == Some(pairs)
  {
    var t := "{" + inside + "\n";
    hide ReadPairs;
    assert t[1..] == inside + "\n" && "\n"[1..] == "";
  }

  lemma TextBackOf(pairs: seq<Pair>)
    ensures ReadText((if pairs == [] then "{}" else "{" + PrintPairs(pairs)) + "\n") == Some(pairs)
  {
    if pairs == [] {
      var t := "{}" + "\n";
      assert t[1..] == "}\n" && t[1..][1..] == "\n" && "\n"[1..] == "";
    } else {
      hide ReadText, ReadPairs, PrintPairs;
      PairsBack(pairs, "\n");
      ObjectBack(PrintPairs(pairs), pairs);
    }
  }

  lemma {:induction false} MapOfPairs(pairs: seq<Pair>, i: nat)
    requires i < |pairs| && DistinctKeys(pairs)
    ensures MapOf(pairs)[pairs[i].key] == pairs[i].value
  {
    var last := |pairs| - 1;
    if i < last {
      MapOfPairs(pairs[..last], i);
      assert pairs[..last][i] == pairs[i];
    }
  }

  lemma SortedPairsBack(m: Object)
    ensures DistinctKeys(SortedPairs(m)) && MapOf(SortedPairs(m)) == m
  {
    var keys := TextOrder.Sorted(m.Keys);
    var pairs := SortedPairs(m);
    forall i, j | 0 <= i < j < |pairs|
      ensures pairs[i].key != pairs[j].key
    {
      TextOrder.Trichotomy(keys[i], keys[j]);
    }
    forall k | k in m
      ensures k in MapOf(pairs) && MapOf(pairs)[k] == m[k]
    {
      var i :| 0 <= i < |keys| && keys[i] == k;
      MapOfPairs(pairs, i);
    }
    forall k | k in MapOf(pairs)
      ensures k in m
    {
      var i :| 0 <= i < |pairs| && pairs[i].key == k;
      assert keys[i] in keys;
    }
  }

  /** `strict_object` gives back the object that was printed, within the limit. */
  lemma StrictObjectOfCanonical(m: Object, maximum: nat)
    ensures StrictObject(Canonical(m), maximum) == if Utf8Size(Canonical(m)) <= maximum then Some(m) else None
  {
    TextBackOf(SortedPairs(m));
    SortedPairsBack(m);
    assert Canonical(m)[0] == '{';
  }

  lemma CanonicalInjective(a: Object, b: Object)
    requires Canonical(a) == Canonical(b)
    ensures a == b
  {
    StrictObjectOfCanonical(a, Utf8Size(Canonical(a)));
    StrictObjectOfCanonical(b, Utf8Size(Canonical(a)));
  }
}
