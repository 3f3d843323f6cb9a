/** Unpadded base64url as the control plane uses it (sections 3.2, 3.5 and 5 of
    RFC 4648): the decoder accepts one text per byte string. */
module Base64Url {
  import opened Newlines
  import opened Outcomes

  type Sextet = n: int | 0 <= n < 64

  function Letter(n: Sextet): char {
    if n < 26 then 'A' + n as char
    else if n < 52 then 'a' + (n - 26) as char
    else if n < 62 then '0' + (n - 52) as char
    else if n == 62 then '-' else '_'
  }

  predicate InAlphabet(c: char) {
    'A' <= c <= 'Z' || 'a' <= c <= 'z' || '0' <= c <= '9' || c == '-' || c == '_'
  }

  function Index(c: char): (n: Sextet)
    requires InAlphabet(c)
    ensures Letter(n) == c
  {
    if 'A' <= c <= 'Z' then (c - 'A') as int
    else if 'a' <= c <= 'z' then (c - 'a') as int + 26
    else if '0' <= c <= '9' then (c - '0') as int + 52
    else if c == '-' then 62 else 63
  }

  /** Three bytes make four sextets; one or two last bytes make two or three. */
  function Split(b: Bytes): (s: seq<Sextet>)
    ensures |s| % 4 != 1
  {
    if b == [] then []
    else if |b| == 1 then Group1(b[0])
    else if |b| == 2 then Group2(b[0], b[1])
    else Group3(b[0], b[1], b[2]) + Split(b[3..])
  }

  function Group1(x: byte): (s: seq<Sextet>)
    ensures |s| == 2
  {
    var n := x as int;
    [n / 4, n % 4 * 16]
  }

  function Group2(x: byte, y: byte): (s: seq<Sextet>)
    ensures |s| == 3
  {
    var n, m := x as int, y as int;
    [n / 4, n % 4 * 16 + m / 16, m % 16 * 4]
  }

  function Group3(x: byte, y: byte, z: byte): (s: seq<Sextet>)
    ensures |s| == 4
  {
    var n, m, l := x as int, y as int, z as int;
    [n / 4, n % 4 * 16 + m / 16, m % 16 * 4 + l / 64, l % 64]
  }

  function First(a: Sextet, b: Sextet): byte { (a as int * 4 + b / 16) as byte }

  function Second(b: Sextet, c: Sextet): byte { (b as int % 16 * 16 + c / 4) as byte }

  function Third(c: Sextet, d: Sextet): byte { (c as int % 4 * 64 + d) as byte }

  lemma {:induction false} SplitSize(b: Bytes)
    ensures |b| <= |Split(b)| <= 2 * |b|
  {
    if |b| > 2 {
      SplitSize(b[3..]);
    }
  }

  /** What a decoder that ignores the left-over bits makes of the sextets. */
  function Join(s: seq<Sextet>): Bytes
    requires |s| % 4 != 1
  {
    if s == [] then []
    else if |s| == 2 then [First(s[0], s[1])]
    else if |s| == 3 then [First(s[0], s[1]), Second(s[1], s[2])]
    else [First(s[0], s[1]), Second(s[1], s[2]), Third(s[2], s[3])] + Join(s[4..])
  }

  /** The bits of the last sextet that belong to no byte are zero. */
  predicate NoLeftOver(s: seq<Sextet>) {
    (|s| % 4 == 2 ==> s[|s| - 1] % 16 == 0) && (|s| % 4 == 3 ==> s[|s| - 1] % 4 == 0)
  }

  /** The sextets of a group and its bytes are digits of one number, read from the
      left; a short group is filled up with zero bits. */
  lemma GroupsAreNumbers(x: byte, y: byte, z: byte)
    ensures var s := Group3(x, y, z);
      s[0] as int * 0x40000 + s[1] as int * 0x1000 + s[2] as int * 0x40 + s[3]
        == x as int * 0x10000 + y as int * 0x100 + z as int
    ensures var s := Group2(x, y);
      s[0] as int * 0x1000 + s[1] as int * 0x40 + s[2] == (x as int * 0x100 + y as int) * 4
    ensures var s := Group1(x);
      s[0] as int * 0x40 + s[1] == x as int * 16
  {
    var n, m, l := x as int, y as int, z as int;
    assert n == n / 4 * 4 + n % 4;
    assert m == m / 16 * 16 + m % 16;
    assert l == l / 64 * 64 + l % 64;
  }

  lemma GroupOneJoins(x: byte)
    ensures First(Group1(x)[0], Group1(x)[1]) == x && Group1(x)[1] % 16 == 0
  {
  }

  lemma GroupTwoJoins(x: byte, y: byte)
    ensures var s := Group2(x, y); First(s[0], s[1]) == x && Second(s[1], s[2]) == y && s[2] % 4 == 0
  {
  }

  lemma GroupThreeJoins(x: byte, y: byte, z: byte)
    ensures var s := Group3(x, y, z);
      First(s[0], s[1]) == x && Second(s[1], s[2]) == y && Third(s[2], s[3]) == z
  {
  }

  lemma Parts(high: int, low: int)
    ensures 0 <= low < 4 ==> (high * 4 + low) / 4 == high && (high * 4 + low) % 4 == low
    ensures 0 <= low < 16 ==> (high * 16 + low) / 16 == high && (high * 16 + low) % 16 == low
    ensures 0 <= low < 64 ==> (high * 64 + low) / 64 == high && (high * 64 + low) % 64 == low
  {
  }

  lemma FirstParts(a: Sextet, b: Sextet)
    ensures First(a, b) as int / 4 == a && First(a, b) as int % 4 == b / 16
  {
    Parts(a, b / 16);
  }

  lemma SecondParts(b: Sextet, c: Sextet)
    ensures Second(b, c) as int / 16 == b % 16 && Second(b, c) as int % 16 == c / 4
  {
    Parts(b % 16, c / 4);
  }

  lemma ThirdParts(c: Sextet, d: Sextet)
    ensures Third(c, d) as int / 64 == c % 4 && Third(c, d) as int % 64 == d
  {
    Parts(c % 4, d);
  }

  lemma JoinedOneSplits(s: seq<Sextet>)
    requires |s| == 2 && s[1] % 16 == 0
    ensures Split(Join(s)) == s
  {
    FirstParts(s[0], s[1]);
  }

  lemma JoinedTwoSplit(s: seq<Sextet>)
    requires |s| == 3 && s[2] % 4 == 0
    ensures Split(Join(s)) == s
  {
    FirstParts(s[0], s[1]);
    SecondParts(s[1], s[2]);
  }

  lemma JoinedThreeSplit(a: Sextet, b: Sextet, c: Sextet, d: Sextet)
    ensures Group3(First(a, b), Second(b, c), Third(c, d)) == [a, b, c, d]
  {
    FirstParts(a, b);
    SecondParts(b, c);
    ThirdParts(c, d);
  }

  /** Four sextets in front do not change where the last one stands. */
  lemma LeftOverAfterFour(s: seq<Sextet>, rest: seq<Sextet>)
    requires |s| == 4
    ensures |s + rest| % 4 == |rest| % 4
    ensures NoLeftOver(s + rest) == NoLeftOver(rest)
  {
    assert |s + rest| == 4 + |rest|;
    if rest != [] {
      assert (s + rest)[|s + rest| - 1] == rest[|rest| - 1];
    }
  }

  lemma JoinAfterFour(a: Sextet, b: Sextet, c: Sextet, d: Sextet, rest: seq<Sextet>)
    requires |rest| % 4 != 1
    ensures Join([a, b, c, d] + rest) == [First(a, b), Second(b, c), Third(c, d)] + Join(rest)
  {
    assert ([a, b, c, d] + rest)[4..] == rest;
  }

  lemma SplitAfterThree(x: byte, y: byte, z: byte, rest: Bytes)
    ensures Split([x, y, z] + rest) == Group3(x, y, z) + Split(rest)
  {
    assert ([x, y, z] + rest)[3..] == rest;
  }

  lemma {:induction false} JoinSplit(b: Bytes)
    ensures NoLeftOver(Split(b)) && Join(Split(b)) == b
  {
    if |b| == 1 {
      GroupOneJoins(b[0]);
      assert b == [b[0]];
    } else if |b| == 2 {
      GroupTwoJoins(b[0], b[1]);
      assert b == [b[0], b[1]];
    } else if |b| > 2 {
      var s, rest := Group3(b[0], b[1], b[2]), Split(b[3..]);
      JoinSplit(b[3..]);
      GroupThreeJoins(b[0], b[1], b[2]);
      JoinAfterFour(s[0], s[1], s[2], s[3], rest);
      LeftOverAfterFour(s, rest);
      assert s == [s[0], s[1], s[2], s[3]];
      assert b == [b[0], b[1], b[2]] + b[3..];
    }
  }

  lemma SplitJoinAfterFour(s: seq<Sextet>, rest: seq<Sextet>)
    requires |s| == 4 && |rest| % 4 != 1 && |s + rest| % 4 != 1 && Split(Join(rest)) == rest
    ensures Split(Join(s + rest)) == s + rest
  {
    var a, b, c, d := s[0], s[1], s[2], s[3];
    assert s == [a, b, c, d];
    JoinAfterFour(a, b, c, d, rest);
    SplitAfterThree(First(a, b), Second(b, c), Third(c, d), Join(rest));
    JoinedThreeSplit(a, b, c, d);
  }

  lemma SplitJoinShort(s: seq<Sextet>)
    requires |s| in {0, 2, 3} && NoLeftOver(s)
    ensures Split(Join(s)) == s
  {
    if |s| == 2 {
      JoinedOneSplits(s);
    } else if |s| == 3 {
      JoinedTwoSplit(s);
    }
  }

  lemma {:induction false} SplitJoin(s: seq<Sextet>)
    requires |s| % 4 != 1 && NoLeftOver(s)
    ensures Split(Join(s)) == s
  {
    if |s| < 4 {
      SplitJoinShort(s);
    } else {
      var first, rest := s[..4], s[4..];
      assert s == first + rest;
      LeftOverAfterFour(first, rest);
      SplitJoin(rest);
      SplitJoinAfterFour(first, rest);
    }
  }

  // ------------------------------------------------------------------
  // The two functions of the control plane.

  function Letters(s: seq<Sextet>): (t: string)
    ensures |t| == |s| && forall k :: 0 <= k < |t| ==> t[k] == Letter(s[k]) && InAlphabet(t[k])
  {
    seq(|s|, k requires 0 <= k < |s| => Letter(s[k]))
  }

  function Indices(t: string): (s: seq<Sextet>)
    requires forall k :: 0 <= k < |t| ==> InAlphabet(t[k])
    ensures |s| == |t| && forall k :: 0 <= k < |t| ==> s[k] == Index(t[k])
  {
    seq(|t|, k requires 0 <= k < |t| => Index(t[k]))
  }

  /** `"=" * (-n % 4)`. */
  function Padding(n: nat): string {
    if n % 4 == 0 then "" else if n % 4 == 1 then "===" else if n % 4 == 2 then "==" else "="
  }

  function RStrip(t: string): string {
    if t != [] && t[|t| - 1] == '=' then RStrip(t[..|t| - 1]) else t
  }

  /** `base64.urlsafe_b64encode`. */
  function EncodePadded(b: Bytes): string {
    Letters(Split(b)) + Padding(|Split(b)|)
  }

  /** `base64.urlsafe_b64decode` of alphabet characters and their padding. */
  function DecodePadded(t: string): Option<Bytes>
    requires forall k :: 0 <= k < |RStrip(t)| ==> InAlphabet(RStrip(t)[k])
  {
    var u := RStrip(t);
    if |u| % 4 == 1 then None else Some(Join(Indices(u)))
  }

  /** `b64url_encode`. */
  function Encode(b: Bytes): string {
    RStrip(EncodePadded(b))
  }

  lemma StripOne(t: string)
    ensures RStrip(t + "=") == RStrip(t)
  {
    assert (t + "=")[..|t|] == t;
  }

  lemma StripPadding(t: string, n: nat)
    requires forall k :: 0 <= k < |t| ==> InAlphabet(t[k])
    ensures RStrip(t + Padding(n)) == t
  {
    var one, two, three := t + "=", t + "==", t + "===";
    assert two == one + "=" && three == two + "=" && t + "" == t;
    StripOne(t);
    StripOne(one);
    StripOne(two);
  }

  /** `b64url_decode`. */
  function Decode(value: string, maximum: nat): Option<Bytes> {
    if value == "" || '=' in value || |value| > maximum * 2 then None
    else if exists k :: 0 <= k < |value| && !InAlphabet(value[k]) then None
    else
      StripPadding(value, |value|);
      match DecodePadded(value + Padding(|value|))
      case None => None
      case Some(decoded) => if |decoded| > maximum || Encode(decoded) != value then None else Some(decoded)
  }

  lemma EncodeIsLetters(b: Bytes)
    ensures Encode(b) == Letters(Split(b))
  {
    StripPadding(Letters(Split(b)), |Split(b)|);
  }

  /** Table 2 of RFC 4648. */
  const ALPHABET := "ABCDEFGHIJKLMNOPQRSTUVWXYZabcdefghijklmnopqrstuvwxyz0123456789-_"

  lemma LettersOfAlphabet(n: Sextet)
    ensures |ALPHABET| == 64 && Letter(n) == ALPHABET[n]
  {
    assert n < 26 ==> ALPHABET[n] == "ABCDEFGHIJKLMNOPQRSTUVWXYZ"[n];
  }

  /** Test vectors of section 10 of RFC 4648: `f`, `fo`, `foo`; and the two letters
      that differ from plain base64. */
  lemma EncodeExamples()
    ensures Encode([102]) == "Zg" && Encode([102, 111]) == "Zm8" && Encode([102, 111, 111]) == "Zm9v"
    ensures Encode([0xFB, 0xFF]) == "-_8"
  {
    hide Encode;
    EncodeIsLetters([102]);
    EncodeIsLetters([102, 111]);
    EncodeIsLetters([102, 111, 111]);
    EncodeIsLetters([0xFB, 0xFF]);
    assert Split([102]) == [25, 32] && Split([102, 111]) == [25, 38, 60];
    assert [102, 111, 111][3..] == [] && Split([102, 111, 111]) == [25, 38, 61, 47];
    assert Split([0xFB, 0xFF]) == [62, 63, 60];
  }

  /** Longer strings are encoded group by group. */
  lemma EncodeByGroups(x: byte, y: byte, z: byte, rest: Bytes)
    ensures Encode([x, y, z] + rest) == Encode([x, y, z]) + Encode(rest)
  {
    hide Encode, Group3;
    EncodeIsLetters([x, y, z] + rest);
    EncodeIsLetters([x, y, z]);
    EncodeIsLetters(rest);
    SplitAfterThree(x, y, z, rest);
    SplitAfterThree(x, y, z, []);
    assert [x, y, z] + [] == [x, y, z] && Split([x, y, z]) == Group3(x, y, z);
  }

  lemma IndexLetter(n: Sextet)
    ensures InAlphabet(Letter(n)) && Index(Letter(n)) == n
  {
  }

  lemma IndicesLetters(s: seq<Sextet>)
    ensures Indices(Letters(s)) == s
  {
    forall k | 0 <= k < |s|
      ensures Indices(Letters(s))[k] == s[k]
    {
      IndexLetter(s[k]);
    }
  }

  /** Decoding is the inverse of encoding: within the limit a text decodes to `b`
      exactly if it is the encoding of `b`. So every non-empty byte string comes
      back, and no two texts decode to the same bytes. */
  lemma DecodeIffEncoded(value: string, maximum: nat, b: Bytes)
    ensures Decode(value, maximum) == Some(b) <==> b != [] && |b| <= maximum && value == Encode(b)
  {
    EncodeIsLetters(b);
    if b != [] && |b| <= maximum && value == Encode(b) {
      StripPadding(value, |value|);
      IndicesLetters(Split(b));
      JoinSplit(b);
      SplitSize(b);
      assert '=' !in value;
    }
    if Decode(value, maximum) == Some([]) {
      EncodeIsLetters([]);
    }
  }

  /** `b64url_decode`'s own tests, before it looks at the bits. */
  predicate WellSpelled(value: string) {
    value != "" && |value| % 4 != 1 && forall k :: 0 <= k < |value| ==> InAlphabet(value[k])
  }

  lemma DecodedIsJoined(value: string, maximum: nat)
    ensures Decode(value, maximum).Some? ==> WellSpelled(value) && Decode(value, maximum).value == Join(Indices(value))
  {
    if value != "" && forall k :: 0 <= k < |value| ==> InAlphabet(value[k]) {
      StripPadding(value, |value|);
    }
  }

  lemma EncodesIffNoLeftOver(value: string)
    requires WellSpelled(value)
    ensures value == Encode(Join(Indices(value))) <==> NoLeftOver(Indices(value))
  {
    var s := Indices(value);
    var b := Join(s);
    EncodeIsLetters(b);
    assert Letters(s) == value;
    if NoLeftOver(s) {
      SplitJoin(s);
    } else {
      JoinSplit(b);
      IndicesLetters(Split(b));
    }
  }

  /** The texts that are accepted at all, told without the encoder: alphabet
      characters, not one more than a multiple of four, no left-over bits, and a
      decoded size within the limit. */
  lemma AcceptsIffCanonical(value: string, maximum: nat)
    ensures Decode(value, maximum).Some? <==>
      WellSpelled(value) && NoLeftOver(Indices(value)) && |Join(Indices(value))| <= maximum
  {
    DecodedIsJoined(value, maximum);
    if WellSpelled(value) {
      var b := Join(Indices(value));
      EncodesIffNoLeftOver(value);
      DecodeIffEncoded(value, maximum, b);
    }
  }
}
