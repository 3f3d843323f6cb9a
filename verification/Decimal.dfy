/** Non-negative numbers in decimal, as digits and in the two encodings the
    system writes: ASCII bytes and text. */
module Decimal {
  import opened Newlines

  type Digit = d: int | 0 <= d < 10

  /** The digits of `n` without leading zeros. */
  function Digits(n: nat): (s: seq<Digit>)
    ensures s != [] && Value(s) == n
    ensures s[0] == 0 ==> n == 0 && |s| == 1
  {
    if n < 10 then [n] else Digits(n / 10) + [n % 10]
  }

  function Value(s: seq<Digit>): nat {
    if s == [] then 0 else 10 * Value(s[..|s| - 1]) + s[|s| - 1]
  }

  predicate IsDigitByte(b: byte) { 48 <= b <= 57 }

  function ByteDigit(b: byte): Digit
    requires IsDigitByte(b)
  {
    b as int - 48
  }

  function ToBytes(s: seq<Digit>): (r: Bytes)
    ensures |r| == |s| && forall k :: 0 <= k < |s| ==> IsDigitByte(r[k]) && ByteDigit(r[k]) == s[k]
  {
    seq(|s|, k requires 0 <= k < |s| => (48 + s[k] as int) as byte)
  }

  function OfBytes(r: Bytes): (s: seq<Digit>)
    requires forall k :: 0 <= k < |r| ==> IsDigitByte(r[k])
    ensures |s| == |r| && forall k :: 0 <= k < |s| ==> ByteDigit(r[k]) == s[k]
  {
    seq(|r|, k requires 0 <= k < |r| => ByteDigit(r[k]))
  }

  lemma BytesBack(s: seq<Digit>)
    ensures OfBytes(ToBytes(s)) == s
  {
  }

  predicate IsDigitChar(c: char) { '0' <= c <= '9' }

  function CharDigit(c: char): Digit
    requires IsDigitChar(c)
  {
    c as int - '0' as int
  }

  function ToText(s: seq<Digit>): (r: string)
    ensures |r| == |s| && forall k :: 0 <= k < |s| ==> IsDigitChar(r[k]) && CharDigit(r[k]) == s[k]
  {
    seq(|s|, k requires 0 <= k < |s| => '0' + s[k] as char)
  }

  function OfText(r: string): (s: seq<Digit>)
    requires forall k :: 0 <= k < |r| ==> IsDigitChar(r[k])
    ensures |s| == |r| && forall k :: 0 <= k < |s| ==> CharDigit(r[k]) == s[k]
  {
    seq(|r|, k requires 0 <= k < |r| => CharDigit(r[k]))
  }

  lemma TextBack(s: seq<Digit>)
    ensures OfText(ToText(s)) == s
  {
  }
}
