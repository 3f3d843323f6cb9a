/** What a lossy UTF-8 decoder makes of a file: each maximal part that is not well
    formed becomes one U+FFFD (section 3.9 of the Unicode Standard). A text is
    written as its own UTF-8 form. */
module Utf8 {
  import opened Newlines
  import opened Outcomes

  /** U+FFFD in UTF-8. */
  const REPLACEMENT: Bytes := [0xEF, 0xBF, 0xBD]

  /** How many bytes follow a first byte, and the range of the one after it. */
  datatype Lead = Lead(count: nat, low: byte, high: byte)

  function LeadOf(x: byte): Option<Lead> {
    if x < 0x80 then Some(Lead(0, 0x80, 0xBF))
    else if x < 0xC2 then None
    else if x < 0xE0 then Some(Lead(1, 0x80, 0xBF))
    else if x == 0xE0 then Some(Lead(2, 0xA0, 0xBF))
    else if x == 0xED then Some(Lead(2, 0x80, 0x9F))
    else if x < 0xF0 then Some(Lead(2, 0x80, 0xBF))
    else if x == 0xF0 then Some(Lead(3, 0x90, 0xBF))
    else if x < 0xF4 then Some(Lead(3, 0x80, 0xBF))
    else if x == 0xF4 then Some(Lead(3, 0x80, 0x8F))
    else None
  }

  function Trailing(b: Bytes, most: nat): (n: nat)
    ensures n <= |b| && n <= most
  {
    if most == 0 || b == [] || !(0x80 <= b[0] <= 0xBF) then 0 else 1 + Trailing(b[1..], most - 1)
  }

  function Following(b: Bytes, lead: Lead): (n: nat)
    requires b != []
    ensures n < |b| && n <= lead.count
  {
    if lead.count == 0 || |b| < 2 || !(lead.low <= b[1] <= lead.high) then 0
    else 1 + Trailing(b[2..], lead.count - 1)
  }

  /** The length of the first unit, and whether it is well formed. */
  function Unit(b: Bytes): (u: (nat, bool))
    requires b != []
    ensures 0 < u.0 <= |b|
  {
    match LeadOf(b[0])
    case None => (1, false)
    case Some(lead) =>
      var n := Following(b, lead);
      (1 + n, n == lead.count)
  }

  function Decoded(b: Bytes): Bytes {
    if b == [] then []
    else
      var u := Unit(b);
      (if u.1 then b[..u.0] else REPLACEMENT) + Decoded(b[u.0..])
  }

  predicate WellFormed(b: Bytes) {
    b == [] || (Unit(b).1 && WellFormed(b[Unit(b).0..]))
  }

  lemma {:induction false} TrailingInFront(b: Bytes, rest: Bytes, most: nat)
    requires Trailing(b, most) == most
    ensures Trailing(b[..most] + rest, most) == most
  {
    if most > 0 {
      TrailingInFront(b[1..], rest, most - 1);
      assert (b[..most] + rest)[1..] == b[1..][..most - 1] + rest;
    }
  }

  /** A well-formed unit is one in front of anything. */
  lemma UnitInFront(b: Bytes, rest: Bytes)
    requires b != [] && Unit(b).1
    ensures var n := Unit(b).0; Unit(b[..n] + rest) == (n, true)
  {
    var lead := LeadOf(b[0]).value;
    var n := Unit(b).0;
    var c := b[..n] + rest;
    assert c[0] == b[0];
    if lead.count > 0 {
      TrailingInFront(b[2..], rest, lead.count - 1);
      assert c[1] == b[1] && c[2..] == b[2..][..lead.count - 1] + rest;
    }
  }

  lemma ReplacementIsUnit(b: Bytes)
    ensures REPLACEMENT <= b ==> Unit(b) == (3, true)
  {
    if REPLACEMENT <= b {
      assert b[0] == 0xEF && b[1] == 0xBF && b[2] == 0xBD;
      assert Trailing(b[2..], 1) == 1;
    }
  }

  /** What is read is always well formed. */
  lemma {:induction false} DecodedIsWellFormed(b: Bytes)
    ensures WellFormed(Decoded(b))
  {
    if b != [] {
      var u := Unit(b);
      var rest := Decoded(b[u.0..]);
      DecodedIsWellFormed(b[u.0..]);
      if u.1 {
        UnitInFront(b, rest);
        assert (b[..u.0] + rest)[u.0..] == rest;
      } else {
        ReplacementIsUnit(REPLACEMENT + rest);
        assert (REPLACEMENT + rest)[3..] == rest;
      }
    }
  }

  /** Nothing is lost exactly if the file is well formed. */
  lemma {:induction false} DecodedFixes(b: Bytes)
    ensures Decoded(b) == b <==> WellFormed(b)
  {
    if b != [] {
      var u := Unit(b);
      var rest := b[u.0..];
      assert b == b[..u.0] + rest;
      DecodedFixes(rest);
      ReplacementIsUnit(b);
      if u.1 {
        assert Decoded(b)[u.0..] == Decoded(rest);
      } else {
        assert REPLACEMENT <= Decoded(b);
      }
    }
  }

  lemma {:induction false} TrailingInRange(b: Bytes, most: nat)
    requires Trailing(b, most) == most
    ensures forall i :: 0 <= i < most ==> 0x80 <= b[i] <= 0xBF
  {
    if most > 0 {
      TrailingInRange(b[1..], most - 1);
      assert forall i :: 0 < i < most ==> b[i] == b[1..][i - 1];
    }
  }

  /** A newline is a unit, and part of no other. */
  lemma NewlineIsUnit(b: Bytes)
    requires b != [] && Unit(b).1
    ensures Unit(b).0 == 1 || 10 !in b[..Unit(b).0]
  {
    var lead := LeadOf(b[0]).value;
    if lead.count > 0 {
      TrailingInRange(b[2..], lead.count - 1);
      assert forall i :: 2 <= i < Unit(b).0 ==> b[i] == b[2..][i - 2];
    }
  }

  lemma {:induction false} StyledWithout(t: Bytes, newline: Bytes)
    requires 10 !in t
    ensures Styled(t, newline) == t
  {
    if t != [] {
      StyledWithout(t[1..], newline);
      assert t == [t[0]] + t[1..];
    }
  }

  lemma {:induction false} StyledOfConcat(a: Bytes, b: Bytes, newline: Bytes)
    ensures Styled(a + b, newline) == Styled(a, newline) + Styled(b, newline)
  {
    if a == [] {
      assert a + b == b;
    } else {
      StyledOfConcat(a[1..], b, newline);
      assert (a + b)[1..] == a[1..] + b && (a + b)[0] == a[0];
      var first := if a[0] == 10 then newline else [a[0]];
      Joined(first, Styled(a[1..], newline), Styled(b, newline));
    }
  }

  lemma AsciiInFront(x: byte, rest: Bytes)
    requires x < 0x80
    ensures WellFormed([x] + rest) == WellFormed(rest)
  {
    assert ([x] + rest)[1..] == rest;
  }

  lemma NewlineInFront(newline: Bytes, rest: Bytes)
    requires newline in {[13, 10], [13]} && WellFormed(rest)
    ensures WellFormed(newline + rest)
  {
    hide WellFormed;
    AsciiInFront(10, rest);
    AsciiInFront(13, rest);
    AsciiInFront(13, [10] + rest);
    assert [13, 10] + rest == [13] + ([10] + rest);
  }

  lemma UnitKeepsStyle(b: Bytes, newline: Bytes, rest: Bytes)
    requires b != [] && Unit(b).1 && newline in {[13, 10], [13]} && WellFormed(rest)
    ensures WellFormed(Styled(b[..Unit(b).0], newline) + rest)
  {
    var n := Unit(b).0;
    NewlineIsUnit(b);
    if b[0] == 10 {
      assert b[..1] == [10] && Styled([10], newline) == newline + Styled([], newline);
      assert newline + [] == newline;
      NewlineInFront(newline, rest);
    } else {
      assert n == 1 ==> b[..1] == [b[0]];
      StyledWithout(b[..n], newline);
      UnitInFront(b, rest);
      assert (b[..n] + rest)[n..] == rest;
    }
  }

  /** Another style of newlines keeps a text well formed. */
  lemma {:induction false} StyledIsWellFormed(b: Bytes, newline: Bytes)
    requires WellFormed(b) && newline in {[13, 10], [13]}
    ensures WellFormed(Styled(b, newline))
  {
    if b != [] {
      hide Unit, Styled;
      var n := Unit(b).0;
      StyledIsWellFormed(b[n..], newline);
      StyledOfConcat(b[..n], b[n..], newline);
      assert b == b[..n] + b[n..];
      UnitKeepsStyle(b, newline, Styled(b[n..], newline));
    }
  }

  // ------------------------------------------------------------------
  // The encoding of characters, by numbers.

  /** A Unicode scalar value: no surrogate. */
  predicate IsScalar(c: int) {
    0 <= c < 0xD800 || 0xE000 <= c < 0x110000
  }

  /** The UTF-8 form of a character (section 3 of RFC 3629). */
  function Encoding(c: int): (b: Bytes)
    requires IsScalar(c)
    ensures b != []
  {
    if c < 0x80 then [c as byte]
    else if c < 0x800 then [(0xC0 + c / 0x40) as byte, (0x80 + c % 0x40) as byte]
    else if c < 0x10000 then
      [(0xE0 + c / 0x1000) as byte, (0x80 + c / 0x40 % 0x40) as byte, (0x80 + c % 0x40) as byte]
    else
      [(0xF0 + c / 0x40000) as byte, (0x80 + c / 0x1000 % 0x40) as byte, (0x80 + c / 0x40 % 0x40) as byte,
       (0x80 + c % 0x40) as byte]
  }

  function EncodingOf(text: seq<int>): Bytes
    requires forall c :: c in text ==> IsScalar(c)
  {
    if text == [] then [] else Encoding(text[0]) + EncodingOf(text[1..])
  }

  /** The character that a well-formed unit encodes. */
  function Scalar(b: Bytes): int
    requires b != [] && Unit(b).1
  {
    var n := Unit(b).0;
    if n == 1 then b[0] as int
    else if n == 2 then (b[0] as int - 0xC0) * 0x40 + (b[1] as int - 0x80)
    else if n == 3 then (b[0] as int - 0xE0) * 0x1000 + (b[1] as int - 0x80) * 0x40 + (b[2] as int - 0x80)
    else
      (b[0] as int - 0xF0) * 0x40000 + (b[1] as int - 0x80) * 0x1000 + (b[2] as int - 0x80) * 0x40
      + (b[3] as int - 0x80)
  }

  lemma Digits64(c: int)
    requires 0 <= c
    ensures c == c / 0x40 * 0x40 + c % 0x40
    ensures c / 0x1000 == c / 0x40 / 0x40 && c / 0x40 == c / 0x1000 * 0x40 + c / 0x40 % 0x40
    ensures c / 0x40000 == c / 0x1000 / 0x40 && c / 0x1000 == c / 0x40000 * 0x40 + c / 0x1000 % 0x40
  {
  }

  lemma TrailingOne(x: byte, rest: Bytes)
    requires 0x80 <= x <= 0xBF
    ensures Trailing([x] + rest, 1) == 1
  {
    assert ([x] + rest)[1..] == rest;
  }

  lemma TrailingTwo(x: byte, y: byte, rest: Bytes)
    requires 0x80 <= x <= 0xBF && 0x80 <= y <= 0xBF
    ensures Trailing([x, y] + rest, 2) == 2
  {
    assert ([x, y] + rest)[1..] == [y] + rest;
    TrailingOne(y, rest);
  }

  /** The form of a character is read as one unit. */
  lemma EncodingIsUnit(c: int, rest: Bytes)
    requires IsScalar(c)
    ensures Unit(Encoding(c) + rest) == (|Encoding(c)|, true)
  {
    var e := Encoding(c);
    var b := e + rest;
    Digits64(c);
    if 0x80 <= c < 0x800 {
      assert b[2..] == rest;
    } else if 0x800 <= c < 0x10000 {
      assert b[2..] == [e[2]] + rest;
      TrailingOne(e[2], rest);
    } else if 0x10000 <= c {
      assert b[2..] == [e[2], e[3]] + rest;
      TrailingTwo(e[2], e[3], rest);
    }
  }

  lemma UnitInRange(b: Bytes)
    requires b != [] && Unit(b).1
    ensures var lead := LeadOf(b[0]); lead.Some? && Unit(b).0 == 1 + lead.value.count <= 4
    ensures Unit(b).0 > 1 ==> LeadOf(b[0]).value.low <= b[1] <= LeadOf(b[0]).value.high
    ensures forall i :: 2 <= i < Unit(b).0 ==> 0x80 <= b[i] <= 0xBF
  {
    var lead := LeadOf(b[0]).value;
    if lead.count > 0 {
      TrailingInRange(b[2..], lead.count - 1);
      assert forall i :: 2 <= i < Unit(b).0 ==> b[i] == b[2..][i - 2];
    }
  }

  lemma FourDigits(x: int, y: int, z: int, w: int)
    requires 0 <= x && 0 <= y < 0x40 && 0 <= z < 0x40 && 0 <= w < 0x40
    ensures var c := x * 0x40000 + y * 0x1000 + z * 0x40 + w;
      c % 0x40 == w && c / 0x40 % 0x40 == z && c / 0x1000 % 0x40 == y && c / 0x40000 == x
      && c / 0x1000 == x * 0x40 + y && c / 0x40 == x * 0x1000 + y * 0x40 + z
  {
  }

  /** A well-formed unit is the form of its character. */
  lemma UnitIsEncoding(b: Bytes)
    requires b != [] && Unit(b).1
    ensures IsScalar(Scalar(b)) && b[..Unit(b).0] == Encoding(Scalar(b))
  {
    hide Unit, Following, Trailing;
    UnitInRange(b);
    var n := Unit(b).0;
    if n == 1 {
      assert b[..1] == [b[0]];
    } else if n == 2 {
      FourDigits(0, 0, b[0] as int - 0xC0, b[1] as int - 0x80);
      assert b[..2] == [b[0], b[1]];
    } else if n == 3 {
      FourDigits(0, b[0] as int - 0xE0, b[1] as int - 0x80, b[2] as int - 0x80);
      assert b[..3] == [b[0], b[1], b[2]];
    } else {
      FourDigits(b[0] as int - 0xF0, b[1] as int - 0x80, b[2] as int - 0x80, b[3] as int - 0x80);
      assert b[..4] == [b[0], b[1], b[2], b[3]];
    }
  }

  lemma {:induction false} EncodingIsWellFormed(text: seq<int>)
    requires forall c :: c in text ==> IsScalar(c)
    ensures WellFormed(EncodingOf(text))
  {
    if text != [] {
      var e, rest := Encoding(text[0]), EncodingOf(text[1..]);
      EncodingIsWellFormed(text[1..]);
      EncodingIsUnit(text[0], rest);
      assert (e + rest)[|e|..] == rest;
    }
  }

  lemma {:induction false} WellFormedIsEncoding(b: Bytes) returns (text: seq<int>)
    requires WellFormed(b)
    ensures (forall c :: c in text ==> IsScalar(c)) && EncodingOf(text) == b
  {
    if b == [] {
      text := [];
    } else {
      var n := Unit(b).0;
      UnitIsEncoding(b);
      var rest := WellFormedIsEncoding(b[n..]);
      text := [Scalar(b)] + rest;
      assert text[1..] == rest && b == b[..n] + b[n..];
    }
  }

  /** The well-formed files are exactly the forms of character strings. */
  lemma WellFormedIffEncoding(b: Bytes)
    ensures WellFormed(b) <==>
      exists text: seq<int> :: (forall c :: c in text ==> IsScalar(c)) && EncodingOf(text) == b
  {
    if WellFormed(b) {
      var text := WellFormedIsEncoding(b);
    }
    if text: seq<int> :| (forall c :: c in text ==> IsScalar(c)) && EncodingOf(text) == b {
      EncodingIsWellFormed(text);
    }
  }

  /** In front of a text, a character is read as itself. */
  lemma DecodedUnit(b: Bytes, n: nat, good: bool)
    requires 0 < n <= |b| && Unit(b) == (n, good)
    ensures Decoded(b) == (if good then b[..n] else REPLACEMENT) + Decoded(b[n..])
  {
  }

  /** The example of table 3-8 of the Unicode Standard: each maximal part of a form
      that is cut short becomes one replacement character. */
  lemma DecodedExample()
    ensures Decoded([0xF1, 0x80, 0x80, 0xE1, 0x80, 0xC2, 0x62, 0x80, 0x63]) ==
      REPLACEMENT + (REPLACEMENT + (REPLACEMENT + ([0x62] + (REPLACEMENT + [0x63]))))
    ensures REPLACEMENT == Encoding(0xFFFD)
  {
    hide Decoded;
    var tail := [0xC2, 0x62, 0x80, 0x63];
    DecodedTail();
    var a := [0xE1, 0x80] + tail;
    CutShort(0xE1, [0x80], tail);
    DecodedUnit(a, 2, false);
    var b := [0xF1, 0x80, 0x80] + a;
    CutShort(0xF1, [0x80, 0x80], a);
    DecodedUnit(b, 3, false);
    assert b[3..] == a && a[2..] == tail;
    assert b == [0xF1, 0x80, 0x80, 0xE1, 0x80, 0xC2, 0x62, 0x80, 0x63];
  }

  lemma DecodedTail()
    ensures Decoded([0xC2, 0x62, 0x80, 0x63]) == REPLACEMENT + ([0x62] + (REPLACEMENT + [0x63]))
  {
    DecodedUnit([0x63], 1, true);
    DecodedUnit([0x80, 0x63], 1, false);
    DecodedUnit([0x62, 0x80, 0x63], 1, true);
    DecodedUnit([0xC2, 0x62, 0x80, 0x63], 1, false);
    assert Decoded([]) == [] && [0x63] + [] == [0x63];
  }

  /** A first byte with `bytes`, where the next byte does not continue. */
  lemma CutShort(first: byte, bytes: Bytes, rest: Bytes)
    requires first in {0xE1, 0xF1} && bytes in {[0x80], [0x80, 0x80]} && (first == 0xE1 ==> |bytes| == 1)
    requires rest != [] && !(0x80 <= rest[0] <= 0xBF)
    ensures Unit([first] + bytes + rest) == (1 + |bytes|, false)
  {
    var b := [first] + bytes + rest;
    assert b[0] == first && b[1] == 0x80 && b[2..] == bytes[1..] + rest;
    assert Trailing(rest, 1) == 0 && Trailing(rest, 2) == 0;
    if |bytes| == 2 {
      assert b[2..] == [0x80] + rest && ([0x80] + rest)[1..] == rest;
      assert Trailing(b[2..], 2) == 1;
    } else {
      assert b[2..] == rest;
    }
  }

  /** Two files that are not well formed can read the same. */
  lemma DecodedConfuses()
    ensures Decoded([0xFE]) == Decoded([0xFF]) == REPLACEMENT
  {
    assert Decoded([]) == [];
  }
}
