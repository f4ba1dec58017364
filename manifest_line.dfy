/**
 * `ParseLine`: one record line of the manifest, after the column header, turned
 * into (size, SHA-1, flags, name). The line is trimmed, every run of white space
 * becomes one space, and the result is split at spaces into at most five fields:
 * size, chunk count (discarded), SHA-1 in hex, flags, and the name, which keeps
 * the rest of the line.
 */
module ManifestLine {
  import opened Wrappers
  import opened Strings
  import opened Numbers

  /** What `ParseLine` returns: `(long size, byte[] sha1, int flags, string name)`. */
  datatype Record = Record(size: int, sha1: seq<byte>, flags: int, name: string)

  /** The exception `ParseLine` lets escape. */
  datatype ParseError =
    | WrongFieldCount  // InvalidDataException: fewer than five fields
    | BadSize          // long.Parse of field 0 throws
    | BadSha1          // Convert.FromHexString of field 2 throws
    | BadFlags         // int.Parse of field 3 throws

  /** `Regex.Replace(line.Trim(), @"\s+", " ").Split(' ', 5)`. */
  function Fields(line: string): seq<string> {
    Split(Normalize(line), 5)
  }

  /** The five fields joined back with single spaces. */
  function JoinFive(f0: string, f1: string, f2: string, f3: string, f4: string): string {
    f0 + " " + (f1 + " " + (f2 + " " + (f3 + " " + f4)))
  }

  function ParseLine(line: string): (r: Result<Record, ParseError>)
    ensures r == Failure(WrongFieldCount) <==> |Fields(line)| < 5
    ensures r.Success? ==> r.value.name != [] && IsNormalized(r.value.name)
  {
    var f := Fields(line);
    if |f| != 5 then
      Failure(WrongFieldCount)
    else
      FiveFields(Normalize(line));
      match ParseInteger(f[0], INT64_MIN, INT64_MAX)
      case None => Failure(BadSize)
      case Some(size) =>
        match FromHexString(f[2])
        case None => Failure(BadSha1)
        case Some(sha1) =>
          match ParseInteger(f[3], INT32_MIN, INT32_MAX)
          case None => Failure(BadFlags)
          case Some(flags) => Success(Record(size, sha1, flags, f[4]))
  }

  /** `ParseLine` succeeds exactly when the line has five fields and the three
      conversions succeed; the four first fields are tokens, joining the five fields
      with single spaces rebuilds the normalized line, and the SHA-1 has half as many
      bytes as its field has hex digits. */
  lemma ParseLineFields(line: string)
    ensures var r := ParseLine(line);
      var f := Fields(line);
      && (r.Success? <==>
        |f| == 5
        && ParseInteger(f[0], INT64_MIN, INT64_MAX).Some?
        && FromHexString(f[2]).Some?
        && ParseInteger(f[3], INT32_MIN, INT32_MAX).Some?)
      && (r.Success? ==>
        && JoinFive(f[0], f[1], f[2], f[3], r.value.name) == Normalize(line)
        && IsToken(f[0]) && IsToken(f[1]) && IsToken(f[2]) && IsToken(f[3])
        && Some(r.value.size) == ParseInteger(f[0], INT64_MIN, INT64_MAX)
        && Some(r.value.sha1) == FromHexString(f[2])
        && Some(r.value.flags) == ParseInteger(f[3], INT32_MIN, INT32_MAX)
        && |r.value.sha1| * 2 == |f[2]|)
  {
    if |Fields(line)| == 5 {
      FiveFields(Normalize(line));
    }
  }

  /** What a normalized line that splits into five parts looks like. */
  lemma FiveFields(n: string)
    requires IsNormalized(n) && |Split(n, 5)| == 5
    ensures var f := Split(n, 5);
      && JoinFive(f[0], f[1], f[2], f[3], f[4]) == n
      && IsToken(f[0]) && IsToken(f[1]) && IsToken(f[2]) && IsToken(f[3])
      && f[4] != [] && IsNormalized(f[4])
  {
    var f := Split(n, 5);
    SplitNoSpace(n, 5);
    var r3 := f[3] + " " + f[4];
    var r2 := f[2] + " " + r3;
    var r1 := f[1] + " " + r2;
    assert n == f[0] + " " + r1 by {
      SplitJoin(n, 5);
      JoinOfFive(f);
    }
    PeelToken(f[0], r1);
    PeelToken(f[1], r2);
    PeelToken(f[2], r3);
    PeelToken(f[3], f[4]);
  }

  lemma JoinOfFive(f: seq<string>)
    requires |f| == 5
    ensures Join(f) == f[0] + " " + (f[1] + " " + (f[2] + " " + (f[3] + " " + f[4])))
  {
    assert f[1..][1..] == f[2..] && f[2..][1..] == f[3..] && f[3..][1..] == f[4..];
    assert Join(f[4..]) == f[4];
    assert Join(f[3..]) == f[3] + " " + f[4];
    assert Join(f[2..]) == f[2] + " " + (f[3] + " " + f[4]);
    assert Join(f[1..]) == f[1] + " " + (f[2] + " " + (f[3] + " " + f[4]));
  }

  /** In a normalized text, the part before a space that holds no space is a token,
      and what follows the space is normalized and not empty. */
  lemma PeelToken(a: string, b: string)
    requires IsNormalized(a + " " + b) && SpaceFree(a)
    ensures IsToken(a) && b != [] && IsNormalized(b)
  {
    var s := a + " " + b;
    assert s[|a|] == ' ';
    forall i | 0 <= i < |a| ensures !IsWhiteSpace(a[i]) {
      assert s[i] == a[i];
    }
    assert b[0] == s[|a| + 1];
    assert b[|b| - 1] == s[|s| - 1];
    forall i | 0 <= i < |b| ensures IsWhiteSpace(b[i]) ==> b[i] == ' ' {
      assert b[i] == s[|a| + 1 + i];
    }
    forall i | 0 <= i < |b| - 1 ensures !(IsWhiteSpace(b[i]) && IsWhiteSpace(b[i + 1])) {
      assert b[i] == s[|a| + 1 + i] && b[i + 1] == s[|a| + 2 + i];
    }
  }

  /** A token, a space and a non-empty normalized text make a normalized text. */
  lemma JoinToken(a: string, b: string)
    requires IsToken(a) && b != [] && IsNormalized(b)
    ensures IsNormalized(a + " " + b)
  {
    var s := a + " " + b;
    forall i | 0 <= i < |s| ensures IsWhiteSpace(s[i]) ==> s[i] == ' ' {
      if i < |a| {
        assert s[i] == a[i];
      } else if i > |a| {
        assert s[i] == b[i - |a| - 1];
      }
    }
    forall i | 0 <= i < |s| - 1 ensures !(IsWhiteSpace(s[i]) && IsWhiteSpace(s[i + 1])) {
      if i < |a| - 1 {
        assert s[i] == a[i];
      } else if i == |a| - 1 {
        assert s[i] == a[i];
      } else if i == |a| {
        assert s[i + 1] == b[0];
      } else {
        assert s[i] == b[i - |a| - 1] && s[i + 1] == b[i - |a|];
      }
    }
    assert s[0] == a[0] && s[|s| - 1] == b[|b| - 1];
  }

  lemma TokenHasNoSpace(a: string)
    requires IsToken(a)
    ensures SpaceFree(a)
  {
  }

  /** A rendered integer is a token. */
  lemma IntTextIsToken(v: int)
    ensures IsToken(IntText(v))
  {
    var s := IntText(v);
    forall i | 0 <= i < |s| ensures !IsWhiteSpace(s[i]) {
      if v < 0 && i > 0 {
        assert s[i] == NatText(-v)[i - 1];
      }
    }
  }

  /** Hex text that decodes is a token whenever it is not empty. */
  lemma HexTextIsToken(hex: string)
    requires hex != [] && FromHexString(hex).Some?
    ensures IsToken(hex)
  {
  }

  /** Parsing a line whose fields are the renderings of a record's values gives
      the record back: size, SHA-1 and flags are kept and the name is kept verbatim,
      embedded spaces included. Any even number of hex digits is accepted, not only 40. */
  lemma ParseLineText(rec: Record, chunks: string, hex: string)
    requires INT64_MIN <= rec.size <= INT64_MAX && INT32_MIN <= rec.flags <= INT32_MAX
    requires IsToken(chunks)
    requires hex != [] && FromHexString(hex) == Some(rec.sha1)
    requires rec.name != [] && IsNormalized(rec.name)
    ensures ParseLine(JoinFive(IntText(rec.size), chunks, hex, IntText(rec.flags), rec.name)) == Success(rec)
  {
    var s0, s3 := IntText(rec.size), IntText(rec.flags);
    IntTextField(rec.size, INT64_MIN, INT64_MAX);
    IntTextField(rec.flags, INT32_MIN, INT32_MAX);
    TokenFields(s0, chunks, hex, s3, rec.name);
    ParseOfFields(JoinFive(s0, chunks, hex, s3, rec.name), rec, s0, chunks, hex, s3);
  }

  /** A line whose words are a record's rendered size, a chunk count, the SHA-1 in
      hex, the rendered flags and then the words of a name parses to the record whose
      name is those words joined by single spaces, whatever white space stands
      between, before or after the words. */
  lemma ParseLineWords(line: string, rec: Record, chunks: string, hex: string, nameText: string)
    requires INT64_MIN <= rec.size <= INT64_MAX && INT32_MIN <= rec.flags <= INT32_MAX
    requires IsToken(chunks)
    requires hex != [] && FromHexString(hex) == Some(rec.sha1)
    requires !IsNullOrWhiteSpace(nameText) && rec.name == Normalize(nameText)
    requires Words(line) == [IntText(rec.size), chunks, hex, IntText(rec.flags)] + Words(nameText)
    ensures ParseLine(line) == Success(rec)
  {
    var s0, s3 := IntText(rec.size), IntText(rec.flags);
    IntTextField(rec.size, INT64_MIN, INT64_MAX);
    IntTextField(rec.flags, INT32_MIN, INT32_MAX);
    HexTextIsToken(hex);
    assert Normalize(line) == JoinFive(s0, chunks, hex, s3, rec.name) by {
      NormalizeWords(line);
      NormalizeWords(nameText);
      JoinFour(s0, chunks, hex, s3, Words(nameText));
    }
    TokenHasNoSpace(s0);
    TokenHasNoSpace(chunks);
    TokenHasNoSpace(hex);
    TokenHasNoSpace(s3);
    SplitFive(s0, chunks, hex, s3, rec.name);
    ParseOfFields(line, rec, s0, chunks, hex, s3);
  }

  /** Four words in front of more words, joined with single spaces. */
  lemma JoinFour(w0: string, w1: string, w2: string, w3: string, ws: seq<string>)
    requires ws != []
    ensures Join([w0, w1, w2, w3] + ws) == JoinFive(w0, w1, w2, w3, Join(ws))
  {
    var l3 := [w3] + ws;
    var l2 := [w2] + l3;
    var l1 := [w1] + l2;
    calc {
      Join([w0, w1, w2, w3] + ws);
      { assert [w0, w1, w2, w3] + ws == [w0] + l1; }
      Join([w0] + l1);
      { JoinCons(w0, l1); }
      w0 + " " + Join(l1);
      { JoinCons(w1, l2); }
      w0 + " " + (w1 + " " + Join(l2));
      { JoinCons(w2, l3); }
      w0 + " " + (w1 + " " + (w2 + " " + Join(l3)));
      { JoinCons(w3, ws); }
      w0 + " " + (w1 + " " + (w2 + " " + (w3 + " " + Join(ws))));
    }
  }

  /** A record line as it stands in a manifest: blank text in front, the four
      rendered fields each followed by a non-empty run of white space, then the name
      text and blank text after it. It parses to the record. */
  lemma ParsePaddedLine(rec: Record, chunks: string, hex: string, nameText: string,
                        lead: string, gaps: seq<string>, trail: string)
    requires INT64_MIN <= rec.size <= INT64_MAX && INT32_MIN <= rec.flags <= INT32_MAX
    requires IsToken(chunks)
    requires hex != [] && FromHexString(hex) == Some(rec.sha1)
    requires !IsNullOrWhiteSpace(nameText) && rec.name == Normalize(nameText)
    requires IsNullOrWhiteSpace(lead) && IsNullOrWhiteSpace(trail)
    requires |gaps| == 4 && forall i :: 0 <= i < 4 ==> gaps[i] != [] && IsNullOrWhiteSpace(gaps[i])
    ensures ParseLine(lead + Spaced([IntText(rec.size), chunks, hex, IntText(rec.flags)], gaps, nameText + trail))
      == Success(rec)
  {
    var ts := [IntText(rec.size), chunks, hex, IntText(rec.flags)];
    var line := lead + Spaced(ts, gaps, nameText + trail);
    assert Words(line) == ts + Words(nameText) by {
      IntTextIsToken(rec.size);
      IntTextIsToken(rec.flags);
      HexTextIsToken(hex);
      FourTokens(IntText(rec.size), chunks, hex, IntText(rec.flags));
      PaddedWords(ts, lead, gaps, nameText, trail);
    }
    ParseLineWords(line, rec, chunks, hex, nameText);
  }

  lemma FourTokens(t0: string, t1: string, t2: string, t3: string)
    requires IsToken(t0) && IsToken(t1) && IsToken(t2) && IsToken(t3)
    ensures var ts := [t0, t1, t2, t3]; forall i :: 0 <= i < |ts| ==> IsToken(ts[i])
  {
  }

  /** The words of a padded line are its tokens and then the words of its name text. */
  lemma PaddedWords(ts: seq<string>, lead: string, gaps: seq<string>, nameText: string, trail: string)
    requires |gaps| == |ts| && forall i :: 0 <= i < |ts| ==> IsToken(ts[i])
    requires forall i :: 0 <= i < |gaps| ==> gaps[i] != [] && IsNullOrWhiteSpace(gaps[i])
    requires IsNullOrWhiteSpace(lead) && IsNullOrWhiteSpace(trail)
    ensures Words(lead + Spaced(ts, gaps, nameText + trail)) == ts + Words(nameText)
  {
    var body := Spaced(ts, gaps, nameText + trail);
    calc {
      Words(lead + body);
      { WordsBlankPrefix(lead, body); }
      Words(body);
      { WordsSpaced(ts, gaps, nameText + trail); }
      ts + Words(nameText + trail);
      { WordsBlankSuffix(nameText, trail); }
      ts + Words(nameText);
    }
  }

  /** The rendering of an in-range integer is a field that parses back to it. */
  lemma IntTextField(v: int, lo: int, hi: int)
    requires lo <= v <= hi
    ensures IsToken(IntText(v)) && ParseInteger(IntText(v), lo, hi) == Some(v)
  {
    IntTextIsToken(v);
    ParseIntText(v, lo, hi);
  }

  /** A line laid out like a record whose SHA-1 field does not decode (an odd
      number of digits, or a character that is not a hex digit) is rejected with
      `BadSha1`, size and flags being fine. */
  lemma ParseLineBadHex(size: int, chunks: string, hex: string, flags: int, name: string)
    requires INT64_MIN <= size <= INT64_MAX && INT32_MIN <= flags <= INT32_MAX
    requires IsToken(chunks) && IsToken(hex) && FromHexString(hex).None?
    requires name != [] && IsNormalized(name)
    ensures ParseLine(JoinFive(IntText(size), chunks, hex, IntText(flags), name)) == Failure(BadSha1)
  {
    IntTextField(size, INT64_MIN, INT64_MAX);
    IntTextField(flags, INT32_MIN, INT32_MAX);
    TokenFields(IntText(size), chunks, hex, IntText(flags), name);
  }

  /** A line whose five fields parse to a record's size, SHA-1 and flags, and whose
      last field is the record's name, parses to that record. */
  lemma ParseOfFields(line: string, rec: Record, f0: string, f1: string, f2: string, f3: string)
    requires Fields(line) == [f0, f1, f2, f3, rec.name]
    requires ParseInteger(f0, INT64_MIN, INT64_MAX) == Some(rec.size)
    requires FromHexString(f2) == Some(rec.sha1)
    requires ParseInteger(f3, INT32_MIN, INT32_MAX) == Some(rec.flags)
    ensures ParseLine(line) == Success(rec)
  {
  }

  /** Four tokens and a non-empty normalized rest, joined with spaces, are the five
      fields of the line they form. */
  lemma TokenFields(t0: string, t1: string, t2: string, t3: string, rest: string)
    requires IsToken(t0) && IsToken(t1) && IsToken(t2) && IsToken(t3)
    requires rest != [] && IsNormalized(rest)
    ensures Fields(JoinFive(t0, t1, t2, t3, rest)) == [t0, t1, t2, t3, rest]
  {
    var line := JoinFive(t0, t1, t2, t3, rest);
    calc {
      Fields(line);
      Split(Normalize(line), 5);
      { NormalizedFive(t0, t1, t2, t3, rest); }
      Split(line, 5);
      { TokenHasNoSpace(t0); TokenHasNoSpace(t1); TokenHasNoSpace(t2); TokenHasNoSpace(t3);
        SplitFive(t0, t1, t2, t3, rest); }
      [t0, t1, t2, t3, rest];
    }
  }

  /** Four tokens and a non-empty normalized rest, joined with spaces, are already normalized. */
  lemma NormalizedFive(t0: string, t1: string, t2: string, t3: string, rest: string)
    requires IsToken(t0) && IsToken(t1) && IsToken(t2) && IsToken(t3)
    requires rest != [] && IsNormalized(rest)
    ensures Normalize(JoinFive(t0, t1, t2, t3, rest)) == JoinFive(t0, t1, t2, t3, rest)
  {
    JoinToken(t3, rest);
    JoinToken(t2, t3 + " " + rest);
    JoinToken(t1, t2 + " " + (t3 + " " + rest));
    JoinToken(t0, t1 + " " + (t2 + " " + (t3 + " " + rest)));
  }

  /** Four space-free fields and a rest, joined with spaces, split back into the same five parts. */
  lemma SplitFive(t0: string, t1: string, t2: string, t3: string, rest: string)
    requires SpaceFree(t0) && SpaceFree(t1) && SpaceFree(t2) && SpaceFree(t3)
    ensures Split(JoinFive(t0, t1, t2, t3, rest), 5) == [t0, t1, t2, t3, rest]
  {
    var ts := [t0, t1, t2, t3];
    assert [t3][1..] == [] && [t2, t3][1..] == [t3] && [t1, t2, t3][1..] == [t2, t3] && ts[1..] == [t1, t2, t3];
    assert JoinBefore([t3], rest) == t3 + " " + rest;
    assert JoinBefore([t2, t3], rest) == t2 + " " + (t3 + " " + rest);
    assert JoinBefore([t1, t2, t3], rest) == t1 + " " + (t2 + " " + (t3 + " " + rest));
    assert JoinFive(t0, t1, t2, t3, rest) == JoinBefore(ts, rest);
    SplitTokens(ts, rest);
  }

  /** Tokens, each followed by a space, and then the rest. */
  function JoinBefore(ts: seq<string>, rest: string): string {
    if ts == [] then rest else ts[0] + " " + JoinBefore(ts[1..], rest)
  }

  lemma {:induction false} SplitTokens(ts: seq<string>, rest: string)
    requires forall i :: 0 <= i < |ts| ==> SpaceFree(ts[i])
    ensures Split(JoinBefore(ts, rest), |ts| + 1) == ts + [rest]
    decreases |ts|
  {
    if ts != [] {
      var tail := JoinBefore(ts[1..], rest);
      assert Split(tail, |ts|) == ts[1..] + [rest] by {
        SplitTokens(ts[1..], rest);
      }
      assert Split(JoinBefore(ts, rest), |ts| + 1) == [ts[0]] + Split(tail, |ts|) by {
        SplitAfterToken(ts[0], tail, |ts| + 1);
      }
      assert [ts[0]] + (ts[1..] + [rest]) == ts + [rest] by {
        AppendAssoc([ts[0]], ts[1..], [rest]);
        assert [ts[0]] + ts[1..] == ts;
      }
    }
  }

  /** The manifest line a record is written as, with its SHA-1 in upper-case hex. */
  function Format(rec: Record, chunks: string): string {
    JoinFive(IntText(rec.size), chunks, ToHexString(rec.sha1), IntText(rec.flags), rec.name)
  }

  /** Formatting a record and parsing the line gives the record back. */
  lemma FormatRoundTrip(rec: Record, chunks: string)
    requires INT64_MIN <= rec.size <= INT64_MAX && INT32_MIN <= rec.flags <= INT32_MAX
    requires IsToken(chunks) && rec.sha1 != []
    requires rec.name != [] && IsNormalized(rec.name)
    ensures ParseLine(Format(rec, chunks)) == Success(rec)
  {
    HexRoundTrip(rec.sha1);
    ParseLineText(rec, chunks, ToHexString(rec.sha1));
  }

  /** A line that is empty or all white space has no fields to parse. */
  lemma BlankLineFails(line: string)
    requires IsNullOrWhiteSpace(line)
    ensures ParseLine(line) == Failure(WrongFieldCount)
  {
    assert Normalize(line) == [];
    assert |Split([], 5)| == 1;
  }
}
