/** The byte stream behind a migration fingerprint: every input is framed by the
    lengths of its path and of its newline-normalised content. */
module MigrationFingerprint {
  import opened Decimal
  import opened Newlines
  import opened Outcomes
  import opened Utf8

  datatype Input = Input(path: Bytes, content: Bytes)

  /** SHA-256, idealised: the digest of a byte string is the byte string under a
      constructor, so equal digests mean equal bytes. */
  datatype Digest = Sha256(preimage: Bytes)

  const COLON: byte := 58

  function Field(data: Bytes): Bytes {
    ToBytes(Digits(|data|)) + [COLON] + data
  }

  /** `len:path:len:content` for each input, one after the other. */
  function Frame(inputs: seq<Input>): Bytes {
    if inputs == [] then []
    else Field(inputs[0].path) + [COLON] + Field(inputs[0].content) + Frame(inputs[1..])
  }

  function DigitCount(s: Bytes): (n: nat)
    ensures n <= |s| && forall k :: 0 <= k < n ==> IsDigitByte(s[k])
    ensures n < |s| ==> !IsDigitByte(s[n])
  {
    if s == [] || !IsDigitByte(s[0]) then 0 else 1 + DigitCount(s[1..])
  }

  /** Read one length-prefixed field; `rest` is what follows it. */
  function ReadField(s: Bytes): (r: Option<(Bytes, Bytes)>)
    ensures r.Some? ==> |r.value.1| < |s|
  {
    var n := DigitCount(s);
    if n == |s| || s[n] != COLON then None
    else
      var end := n + 1 + Value(OfBytes(s[..n]));
      if end > |s| then None else Some((s[n + 1..end], s[end..]))
  }

  /** Recover the inputs from a stream. */
  function Unframe(s: Bytes): Option<seq<Input>>
    decreases |s|
  {
    if s == [] then Some([])
    else
      match ReadField(s)
      case None => None
      case Some((path, afterPath)) =>
        if afterPath == [] || afterPath[0] != COLON then None
        else
          match ReadField(afterPath[1..])
          case None => None
          case Some((content, rest)) =>
            match Unframe(rest)
            case None => None
            case Some(inputs) => Some([Input(path, content)] + inputs)
  }

  lemma {:induction false} DigitCountOf(digits: Bytes, tail: Bytes)
    requires forall k :: 0 <= k < |digits| ==> IsDigitByte(digits[k])
    requires tail != [] && !IsDigitByte(tail[0])
    ensures DigitCount(digits + tail) == |digits|
  {
    if digits == [] {
      assert digits + tail == tail;
    } else {
      DigitCountOf(digits[1..], tail);
      assert (digits + tail)[1..] == digits[1..] + tail;
    }
  }

  lemma ReadFieldOf(data: Bytes, rest: Bytes)
    ensures ReadField(Field(data) + rest) == Some((data, rest))
  {
    var digits := ToBytes(Digits(|data|));
    BytesBack(Digits(|data|));
    var s := Field(data) + rest;
    assert s == digits + ([COLON] + data + rest);
    DigitCountOf(digits, [COLON] + data + rest);
    assert s[..|digits|] == digits;
    assert s[|digits| + 1..|digits| + 1 + |data|] == data;
    assert s[|digits| + 1 + |data|..] == rest;
  }

  lemma Grouped(a: Bytes, b: Bytes, c: Bytes, d: Bytes)
    ensures a + b + c + d == a + (b + (c + d))
  {
  }

  /** Reading one framed input leaves the rest of the stream. */
  lemma UnframeOne(input: Input, rest: Bytes)
    ensures Unframe(Field(input.path) + ([COLON] + (Field(input.content) + rest))) ==
      match Unframe(rest) case None => None case Some(more) => Some([input] + more)
  {
    hide ReadField, Field;
    var afterPath := [COLON] + (Field(input.content) + rest);
    ReadFieldOf(input.path, afterPath);
    ReadFieldOf(input.content, rest);
    assert afterPath[1..] == Field(input.content) + rest;
    assert |Field(input.path) + afterPath| > 0;
  }

  /** The stream is uniquely decodable, whatever bytes paths and contents hold. */
  lemma {:induction false} UnframeFrame(inputs: seq<Input>)
    ensures Unframe(Frame(inputs)) == Some(inputs)
  {
    if inputs != [] {
      hide Unframe, Field;
      var input, rest := inputs[0], Frame(inputs[1..]);
      UnframeFrame(inputs[1..]);
      UnframeOne(input, rest);
      Grouped(Field(input.path), [COLON], Field(input.content), rest);
      assert inputs == [input] + inputs[1..];
    }
  }

  lemma FrameInjective(a: seq<Input>, b: seq<Input>)
    requires Frame(a) == Frame(b)
    ensures a == b
  {
    UnframeFrame(a);
    UnframeFrame(b);
  }

  // ------------------------------------------------------------------
  // The calculation over a drizzle directory.

  /** The journal text, the tags parsed from it in order, and the sorted listing
      of the SQL files. */
  datatype Directory = Directory(journal: Bytes, tags: seq<Bytes>, files: seq<Input>)

  /** `drizzle/` and `.sql` in ASCII. */
  const FOLDER: Bytes := [100, 114, 105, 122, 122, 108, 101, 47]
  const SUFFIX: Bytes := [46, 115, 113, 108]

  /** `drizzle/meta/_journal.json` in ASCII. */
  const JOURNAL: Bytes := FOLDER + [109, 101, 116, 97, 47, 95, 106, 111, 117, 114, 110, 97, 108, 46, 106, 115, 111, 110]

  predicate Distinct(tags: seq<Bytes>) {
    forall i, j :: 0 <= i < j < |tags| ==> tags[i] != tags[j]
  }

  /** `normalizedText`: a file read as UTF-8, with its newlines rewritten. */
  function NormalisedText(file: Bytes): Bytes {
    Translate(Decoded(file))
  }

  function Normalised(files: seq<Input>): seq<Input> {
    if files == [] then []
    else [Input(FOLDER + files[0].path, NormalisedText(files[0].content))] + Normalised(files[1..])
  }

  /** What the hash is taken over. */
  function Inputs(d: Directory): seq<Input> {
    [Input(JOURNAL, NormalisedText(d.journal))] + Normalised(d.files)
  }

  lemma PathsAre()
    ensures FOLDER == Ascii("drizzle/") && JOURNAL == Ascii("drizzle/meta/_journal.json") && SUFFIX == Ascii(".sql")
  {
  }

  /** The hash is fed the journal, then the SQL files in the order of their names,
      each under its path from the root of the repository. */
  lemma InputsAre(d: Directory)
    ensures |Inputs(d)| == 1 + |d.files|
    ensures Inputs(d)[0] == Input(Ascii("drizzle/meta/_journal.json"), Translate(Decoded(d.journal)))
    ensures forall k :: 0 <= k < |d.files| ==>
      Inputs(d)[k + 1] == Input(Ascii("drizzle/") + d.files[k].path, Translate(Decoded(d.files[k].content)))
  {
    PathsAre();
    hide Ascii, Frame;
    NormalisedLength(d.files);
    forall k | 0 <= k < |d.files|
      ensures Inputs(d)[k + 1] == Input(Ascii("drizzle/") + d.files[k].path, Translate(Decoded(d.files[k].content)))
    {
      NormalisedAt(d.files, k);
    }
  }

  lemma {:induction false} FrameOfConcat(a: seq<Input>, b: seq<Input>)
    ensures Frame(a + b) == Frame(a) + Frame(b)
  {
    hide Frame;
    FrameOfNone();
    if a == [] {
      assert a + b == b && [] + Frame(b) == Frame(b);
    } else {
      FrameOfCons(a);
      FrameOfCons(a + b);
      FrameOfConcat(a[1..], b);
      assert (a + b)[1..] == a[1..] + b && (a + b)[0] == a[0];
      Joined(Frame([a[0]]), Frame(a[1..]), Frame(b));
    }
  }

  lemma FrameOfNone()
    ensures Frame([]) == []
  {
  }

  lemma FrameOfCons(a: seq<Input>)
    requires a != []
    ensures Frame(a) == Frame([a[0]]) + Frame(a[1..])
  {
    hide Field;
    var one := Field(a[0].path) + [COLON] + Field(a[0].content);
    assert [a[0]][1..] == [];
    Alone(one);
  }

  lemma Alone(a: Bytes)
    ensures a + [] == a
  {
  }

  /** One input in the stream: the sizes in decimal, colons between the parts. */
  lemma FrameOfOne(path: Bytes, content: Bytes)
    requires |path| == 7 && |content| == 42
    ensures Frame([Input(path, content)]) == Ascii("7:") + path + Ascii(":42:") + content
  {
    assert Digits(42) == Digits(4) + [2];
    assert Field(path) == Ascii("7:") + path;
    assert Field(content) == Ascii("42:") + content;
    assert Frame([Input(path, content)]) == Field(path) + [COLON] + Field(content) + Frame([]);
  }

  /** An incremental SHA-256. */
  class Hash {
    var fed: Bytes

    constructor ()
      ensures fed == []
    {
      fed := [];
    }

    method Update(data: Bytes)
      modifies this
      ensures fed == old(fed) + data
    {
      fed := fed + data;
    }
  }

  /** `calculateMigrationFingerprint`: the last tag and the digest of the framed
      inputs, or no result exactly if journal and files do not match. */
  method Calculate(d: Directory) returns (r: Option<(Bytes, Digest)>)
    ensures r.Some? <==>
      && d.tags != [] && |d.files| == |d.tags|
      && (forall i, j :: 0 <= i < j < |d.tags| ==> d.tags[i] != d.tags[j])
      && forall k :: 0 <= k < |d.files| ==> d.files[k].path == d.tags[k] + Ascii(".sql")
    ensures r.Some? ==> r.value == (d.tags[|d.tags| - 1], Sha256(Frame(Inputs(d))))
  {
    PathsAre();
    hide Ascii;
    if d.tags == [] { return None; }
    var i := 0;
    while i < |d.tags|
      invariant i <= |d.tags| && Distinct(d.tags[..i])
    {
      if d.tags[i] in d.tags[..i] {
        var k :| 0 <= k < i && d.tags[k] == d.tags[i];
        return None;
      }
      i := i + 1;
    }
    assert d.tags[..i] == d.tags;
    if |d.files| != |d.tags| { return None; }
    if exists k :: 0 <= k < |d.files| && d.files[k].path != d.tags[k] + SUFFIX { return None; }
    var digest := FeedAll(Inputs(d));
    return Some((d.tags[|d.tags| - 1], digest));
  }

  /** The text that precedes a content in the stream. */
  function Header(input: Input): Bytes {
    ToBytes(Digits(|input.path|)) + [COLON] + input.path + [COLON] + ToBytes(Digits(|input.content|)) + [COLON]
  }

  lemma HeaderStartsFrame(inputs: seq<Input>, k: nat, fed: Bytes)
    requires k < |inputs|
    ensures fed + Frame(inputs[k..]) == fed + Header(inputs[k]) + inputs[k].content + Frame(inputs[k + 1..])
  {
    var input, rest := inputs[k], Frame(inputs[k + 1..]);
    assert inputs[k..][1..] == inputs[k + 1..];
    var framed := Field(input.path) + [COLON] + Field(input.content);
    assert framed == Header(input) + input.content;
    assert Frame(inputs[k..]) == framed + rest;
    Regroup(fed, Header(input), input.content, rest);
  }

  lemma Regroup(a: Bytes, b: Bytes, c: Bytes, d: Bytes)
    ensures a + (b + c + d) == a + b + c + d
  {
  }

  /** The loop that feeds the hash. */
  method FeedAll(inputs: seq<Input>) returns (digest: Digest)
    ensures digest == Sha256(Frame(inputs))
  {
    var hash := new Hash();
    var k := 0;
    assert inputs[0..] == inputs;
    while k < |inputs|
      invariant k <= |inputs| && fresh(hash)
      invariant hash.fed + Frame(inputs[k..]) == Frame(inputs)
    {
      var input := inputs[k];
      HeaderStartsFrame(inputs, k, hash.fed);
      hash.Update(Header(input));
      hash.Update(input.content);
      k := k + 1;
    }
    assert inputs[k..] == [];
    digest := Sha256(hash.fed);
  }

  lemma {:induction false} NormalisedAt(files: seq<Input>, k: nat)
    requires k < |files|
    ensures |Normalised(files)| == |files|
    ensures Normalised(files)[k] == Input(FOLDER + files[k].path, NormalisedText(files[k].content))
  {
    if k > 0 {
      NormalisedAt(files[1..], k - 1);
    } else if |files| > 1 {
      NormalisedAt(files[1..], 0);
    }
  }

  lemma NormalisedLength(files: seq<Input>)
    ensures |Normalised(files)| == |files|
  {
    if files != [] { NormalisedAt(files, 0); }
  }

  /** As decoded texts and up to newlines: same journal, same file names, same
      contents, in order. */
  ghost predicate SameText(a: Directory, b: Directory) {
    && NormalisedText(a.journal) == NormalisedText(b.journal)
    && |a.files| == |b.files|
    && forall k :: 0 <= k < |a.files| ==>
      && a.files[k].path == b.files[k].path
      && NormalisedText(a.files[k].content) == NormalisedText(b.files[k].content)
  }

  /** Two directories have the same migration digest exactly if their journals
      and SQL files, read as UTF-8, agree up to the style of their newlines. */
  lemma SameDigestIffSameText(a: Directory, b: Directory)
    ensures Sha256(Frame(Inputs(a))) == Sha256(Frame(Inputs(b))) <==> SameText(a, b)
  {
    NormalisedLength(a.files);
    NormalisedLength(b.files);
    if Frame(Inputs(a)) == Frame(Inputs(b)) {
      FrameInjective(Inputs(a), Inputs(b));
      var m, n := Normalised(a.files), Normalised(b.files);
      assert Inputs(a)[0] == Inputs(b)[0] && m == Inputs(a)[1..] == Inputs(b)[1..] == n;
      forall k | 0 <= k < |a.files|
        ensures a.files[k].path == b.files[k].path
        ensures NormalisedText(a.files[k].content) == NormalisedText(b.files[k].content)
      {
        NormalisedAt(a.files, k);
        NormalisedAt(b.files, k);
        assert (FOLDER + a.files[k].path)[|FOLDER|..] == a.files[k].path;
        assert (FOLDER + b.files[k].path)[|FOLDER|..] == b.files[k].path;
      }
    }
    if SameText(a, b) {
      forall k | 0 <= k < |a.files|
        ensures Normalised(a.files)[k] == Normalised(b.files)[k]
      {
        NormalisedAt(a.files, k);
        NormalisedAt(b.files, k);
      }
      assert Normalised(a.files) == Normalised(b.files);
    }
  }

  /** Every file is well-formed UTF-8. */
  ghost predicate Readable(d: Directory) {
    WellFormed(d.journal) && forall k :: 0 <= k < |d.files| ==> WellFormed(d.files[k].content)
  }

  /** Up to newlines: same bytes in every file. */
  ghost predicate SameBytes(a: Directory, b: Directory) {
    && Translate(a.journal) == Translate(b.journal)
    && |a.files| == |b.files|
    && forall k :: 0 <= k < |a.files| ==>
      && a.files[k].path == b.files[k].path
      && Translate(a.files[k].content) == Translate(b.files[k].content)
  }

  /** Among directories of well-formed files the digest tells the bytes apart. */
  lemma SameDigestIffSameBytes(a: Directory, b: Directory)
    requires Readable(a) && Readable(b)
    ensures Sha256(Frame(Inputs(a))) == Sha256(Frame(Inputs(b))) <==> SameBytes(a, b)
  {
    SameDigestIffSameText(a, b);
    DecodedFixes(a.journal);
    DecodedFixes(b.journal);
    forall k | 0 <= k < |a.files|
      ensures Decoded(a.files[k].content) == a.files[k].content
    {
      DecodedFixes(a.files[k].content);
    }
    forall k | 0 <= k < |b.files|
      ensures Decoded(b.files[k].content) == b.files[k].content
    {
      DecodedFixes(b.files[k].content);
    }
  }

  /** The directory with each newline of each file written as `newline`. */
  function CheckedOut(d: Directory, newline: Bytes): Directory {
    Directory(Styled(d.journal, newline), d.tags,
              seq(|d.files|, k requires 0 <= k < |d.files| =>
                Input(d.files[k].path, Styled(d.files[k].content, newline))))
  }

  /** The files hold no CR. */
  ghost predicate FreeOfReturns(d: Directory) {
    CR !in d.journal && forall k :: 0 <= k < |d.files| ==> CR !in d.files[k].content
  }

  lemma CheckoutIsReadable(d: Directory, newline: Bytes)
    requires Readable(d) && newline in {[13, 10], [13]}
    ensures Readable(CheckedOut(d, newline))
  {
    StyledIsWellFormed(d.journal, newline);
    forall k | 0 <= k < |d.files|
      ensures WellFormed(Styled(d.files[k].content, newline))
    {
      StyledIsWellFormed(d.files[k].content, newline);
    }
  }

  /** A checkout with CR LF, or CR, for every newline has the digest of the original. */
  lemma CheckoutKeepsDigest(d: Directory)
    requires FreeOfReturns(d)
    requires Readable(d)
    ensures Sha256(Frame(Inputs(CheckedOut(d, [13, 10])))) == Sha256(Frame(Inputs(d)))
    ensures Sha256(Frame(Inputs(CheckedOut(d, [13])))) == Sha256(Frame(Inputs(d)))
  {
    forall newline | newline in {[13, 10], [13]}
      ensures SameBytes(CheckedOut(d, newline), d)
    {
      TranslateUndoesStyle(d.journal);
      TranslateFixes(d.journal);
      forall k | 0 <= k < |d.files|
        ensures Translate(Styled(d.files[k].content, newline)) == Translate(d.files[k].content)
      {
        TranslateUndoesStyle(d.files[k].content);
        TranslateFixes(d.files[k].content);
      }
    }
    CheckoutIsReadable(d, [13, 10]);
    CheckoutIsReadable(d, [13]);
    SameDigestIffSameBytes(CheckedOut(d, [13, 10]), d);
    SameDigestIffSameBytes(CheckedOut(d, [13]), d);
  }

  /** Among others it need not: the bytes FE and FF as the content of a file. */
  lemma DigestConfusesIllFormedFiles(d: Directory, path: Bytes)
    ensures Sha256(Frame(Inputs(d.(files := [Input(path, [0xFE])]))))
      == Sha256(Frame(Inputs(d.(files := [Input(path, [0xFF])]))))
  {
    DecodedConfuses();
    SameDigestIffSameText(d.(files := [Input(path, [0xFE])]), d.(files := [Input(path, [0xFF])]));
  }
}
