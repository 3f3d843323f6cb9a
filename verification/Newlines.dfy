/** Byte strings and the newline rewriting that two parts of the system share:
    Python's text mode (`Path.read_text`) and the `\r\n?` replacement that
    precedes the migration hash. */
module Newlines {

  newtype byte = x: int | 0 <= x < 256

  type Bytes = seq<byte>

  const CR: byte := 13
  const LF: byte := 10

  /** A text in ASCII. */
  function Ascii(t: string): (b: Bytes)
    requires forall k :: 0 <= k < |t| ==> t[k] < 128 as char
    ensures |b| == |t| && forall k :: 0 <= k < |t| ==> b[k] as int == t[k] as int
  {
    seq(|t|, k requires 0 <= k < |t| => t[k] as int as byte)
  }

  lemma Joined(a: Bytes, b: Bytes, c: Bytes)
    ensures a + (b + c) == a + b + c
  {
  }

  /** Every CR LF pair, and every other CR, becomes one LF. */
  function Translate(s: Bytes): (r: Bytes)
    ensures |r| <= |s|
    ensures CR !in r
  {
    if s == [] then []
    else if s[0] != CR then [s[0]] + Translate(s[1..])
    else if |s| > 1 && s[1] == LF then [LF] + Translate(s[2..])
    else [LF] + Translate(s[1..])
  }

  /** The texts that the rewriting leaves alone are exactly those without CR. */
  lemma {:induction false} TranslateFixes(s: Bytes)
    ensures Translate(s) == s <==> CR !in s
  {
    if s != [] && s[0] != CR {
      TranslateFixes(s[1..]);
      assert s == [s[0]] + s[1..];
      assert Translate(s)[1..] == Translate(s[1..]);
    }
  }

  /** The text with each LF written as `newline`. */
  function Styled(t: Bytes, newline: Bytes): Bytes {
    if t == [] then [] else (if t[0] == 10 then newline else [t[0]]) + Styled(t[1..], newline)
  }

  /** A text without CR comes back from its CR LF form and from its CR form. */
  lemma {:induction false} TranslateUndoesStyle(t: Bytes)
    requires CR !in t
    ensures Translate(Styled(t, [13, 10])) == t
    ensures Translate(Styled(t, [13])) == t
    ensures Translate(Styled(t, [10])) == t
  {
    if t != [] {
      TranslateUndoesStyle(t[1..]);
      assert t == [t[0]] + t[1..];
      if t[0] == LF {
        var rest := Styled(t[1..], [13]);
        assert ([13, 10] + Styled(t[1..], [13, 10]))[2..] == Styled(t[1..], [13, 10]);
        assert ([13] + rest)[1..] == rest;
        StyledStart(t[1..]);
        assert rest == [] || rest[0] != 10;
      } else {
        assert forall newline :: ([t[0]] + Styled(t[1..], newline))[1..] == Styled(t[1..], newline);
      }
    }
  }

  lemma StyledStart(t: Bytes)
    requires CR !in t
    ensures var s := Styled(t, [13]); s == [] || s[0] != 10
  {
  }

  lemma TranslateIdempotent(s: Bytes)
    ensures Translate(Translate(s)) == Translate(s)
  {
    TranslateFixes(Translate(s));
  }
}
