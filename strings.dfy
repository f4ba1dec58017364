/**
 * The .NET string operations the manifest parser is built from:
 * `char.IsWhiteSpace`, `string.IsNullOrWhiteSpace`, `string.Trim`,
 * `Regex.Replace(s, @"\s+", " ")` and `string.Split(' ', count)`.
 */
module Strings {

  /** The characters .NET treats as white space. `char.IsWhiteSpace` and the
      regular-expression class `\s` agree on this set: U+0009 to U+000D, U+0085,
      and the Unicode separators (categories Zs, Zl and Zp). */
  predicate IsWhiteSpace(c: char) {
    ('\t' <= c <= '\r') || c == ' ' || c == '\U{85}' || c == '\U{A0}' || c == '\U{1680}'
    || ('\U{2000}' <= c <= '\U{200A}') || c == '\U{2028}' || c == '\U{2029}'
    || c == '\U{202F}' || c == '\U{205F}' || c == '\U{3000}'
  }

  /** `string.IsNullOrWhiteSpace` on a non-null string (the empty string included). */
  predicate IsNullOrWhiteSpace(s: string) {
    forall i :: 0 <= i < |s| ==> IsWhiteSpace(s[i])
  }

  /** No white space at either end. */
  predicate IsTrimmed(s: string) {
    s == [] || (!IsWhiteSpace(s[0]) && !IsWhiteSpace(s[|s| - 1]))
  }

  /** The only white-space character in `s` is the plain space. */
  predicate OnlyPlainSpaces(s: string) {
    forall i :: 0 <= i < |s| ==> IsWhiteSpace(s[i]) ==> s[i] == ' '
  }

  /** No two white-space characters stand next to each other. */
  predicate NoAdjacentWhiteSpace(s: string) {
    forall i :: 0 <= i < |s| - 1 ==> !(IsWhiteSpace(s[i]) && IsWhiteSpace(s[i + 1]))
  }

  /** The form every line has after trimming and collapsing white space. */
  predicate IsNormalized(s: string) {
    IsTrimmed(s) && OnlyPlainSpaces(s) && NoAdjacentWhiteSpace(s)
  }

  /** A non-empty run of characters none of which is white space. */
  predicate IsToken(s: string) {
    s != [] && forall i :: 0 <= i < |s| ==> !IsWhiteSpace(s[i])
  }

  /** The characters of `s` that are not white space, in order. */
  function Visible(s: string): string {
    if s == [] then []
    else if IsWhiteSpace(s[0]) then Visible(s[1..])
    else [s[0]] + Visible(s[1..])
  }

  /** The length of the run of white space `s` starts with. */
  function LeadingWhiteSpace(s: string): (n: nat)
    ensures n <= |s|
    ensures forall i :: 0 <= i < n ==> IsWhiteSpace(s[i])
    ensures n < |s| ==> !IsWhiteSpace(s[n])
  {
    if s == [] || !IsWhiteSpace(s[0]) then 0
    else
      var n := LeadingWhiteSpace(s[1..]) + 1;
      assert forall i :: 0 < i < n ==> s[i] == s[1..][i - 1];
      n
  }

  /** `string.TrimStart()`: drops the leading white space. */
  function TrimStart(s: string): (r: string)
    ensures |r| <= |s| && r == s[|s| - |r|..]
    ensures IsNullOrWhiteSpace(s[..|s| - |r|])
    ensures r == [] || !IsWhiteSpace(r[0])
  {
    s[LeadingWhiteSpace(s)..]
  }

  /** The length of the run of white space `s` ends with. */
  function TrailingWhiteSpace(s: string): (n: nat)
    ensures n <= |s|
    ensures forall i :: |s| - n <= i < |s| ==> IsWhiteSpace(s[i])
    ensures n < |s| ==> !IsWhiteSpace(s[|s| - n - 1])
  {
    if s == [] || !IsWhiteSpace(s[|s| - 1]) then 0
    else
      var u := s[..|s| - 1];
      var n := TrailingWhiteSpace(u) + 1;
      assert forall i :: |s| - n <= i < |s| - 1 ==> s[i] == u[i];
      n
  }

  /** `string.TrimEnd()`: drops the trailing white space. */
  function TrimEnd(s: string): (r: string)
    ensures |r| <= |s| && r == s[..|r|]
    ensures IsNullOrWhiteSpace(s[|r|..])
    ensures r == [] || !IsWhiteSpace(r[|r| - 1])
  {
    var r := s[..|s| - TrailingWhiteSpace(s)];
    assert forall i :: 0 <= i < |s| - |r| ==> s[|r|..][i] == s[|r| + i];
    r
  }

  /** `r` stands at position `k` of `s` with only white space before and after it. */
  predicate Framed(s: string, k: int, r: string) {
    0 <= k <= |s| - |r| && r == s[k..k + |r|] && IsNullOrWhiteSpace(s[..k]) && IsNullOrWhiteSpace(s[k + |r|..])
  }

  /** `string.Trim()`: drops white space at both ends and nothing else. */
  function Trim(s: string): (r: string)
    ensures IsTrimmed(r)
    ensures r == [] <==> IsNullOrWhiteSpace(s)
    ensures IsTrimmed(s) ==> r == s
    ensures Visible(r) == Visible(s)
    ensures exists k :: Framed(s, k, r)
  {
    var u := TrimStart(s);
    var r := TrimEnd(u);
    TrimFramed(s);
    assert Visible(r) == Visible(s) by {
      VisibleTrimStart(s);
      VisibleTrimEnd(u);
    }
    assert r == [] <==> IsNullOrWhiteSpace(s) by {
      VisibleEmpty(s);
      VisibleEmpty(r);
    }
    r
  }

  /** Trimming keeps the middle of `s`: what lies before and after the result is blank. */
  lemma TrimFramed(s: string)
    ensures Framed(s, |s| - |TrimStart(s)|, TrimEnd(TrimStart(s)))
  {
    var u := TrimStart(s);
    var r := TrimEnd(u);
    var k := |s| - |u|;
    assert r == s[k..k + |r|] && s[k + |r|..] == u[|r|..];
  }

  lemma {:induction false} VisibleTrimStart(s: string)
    ensures Visible(TrimStart(s)) == Visible(s)
    decreases |s|
  {
    if s != [] && IsWhiteSpace(s[0]) {
      VisibleTrimStart(s[1..]);
    }
  }

  lemma {:induction false} VisibleTrimEnd(s: string)
    ensures Visible(TrimEnd(s)) == Visible(s)
    decreases |s|
  {
    if s != [] && IsWhiteSpace(s[|s| - 1]) {
      var u := s[..|s| - 1];
      assert TrimEnd(s) == TrimEnd(u) by {
        assert s[..|s| - TrailingWhiteSpace(s)] == u[..|u| - TrailingWhiteSpace(u)];
      }
      VisibleTrimEnd(u);
      VisibleConcat(s[..|s| - 1], [s[|s| - 1]]);
      assert s == s[..|s| - 1] + [s[|s| - 1]];
    } else {
      assert TrimEnd(s) == s[..|s|] == s;
    }
  }

  /** A string has no visible characters exactly when it is all white space. */
  lemma {:induction false} VisibleEmpty(s: string)
    ensures Visible(s) == [] <==> IsNullOrWhiteSpace(s)
    decreases |s|
  {
    if s != [] {
      VisibleEmpty(s[1..]);
      BlankCons(s);
    }
  }

  /** `Regex.Replace(s, @"\s+", " ")`: every maximal run of white space becomes one space. */
  function CollapseWhiteSpace(s: string): (r: string)
    ensures OnlyPlainSpaces(r) && NoAdjacentWhiteSpace(r)
    ensures r == [] <==> s == []
    ensures s != [] ==> (IsWhiteSpace(r[0]) <==> IsWhiteSpace(s[0]))
    decreases |s|
  {
    if s == [] then []
    else if IsWhiteSpace(s[0]) then
      var rest := TrimStart(s);
      var c := CollapseWhiteSpace(rest);
      assert c != [] ==> !IsWhiteSpace(c[0]);
      var r := [' '] + c;
      assert forall i :: 0 < i < |r| ==> r[i] == c[i - 1];
      r
    else
      var c := CollapseWhiteSpace(s[1..]);
      var r := [s[0]] + c;
      assert forall i :: 0 < i < |r| ==> r[i] == c[i - 1];
      r
  }

  /** Collapsing keeps a white-space character at the end exactly when there was one. */
  lemma {:induction false} CollapseLast(s: string)
    requires s != []
    ensures IsWhiteSpace(CollapseWhiteSpace(s)[|CollapseWhiteSpace(s)| - 1]) <==> IsWhiteSpace(s[|s| - 1])
    decreases |s|
  {
    var r := CollapseWhiteSpace(s);
    if IsWhiteSpace(s[0]) {
      var rest := TrimStart(s);
      assert r == [' '] + CollapseWhiteSpace(rest);
      if rest != [] {
        CollapseLast(rest);
        assert rest[|rest| - 1] == s[|s| - 1];
        assert r[|r| - 1] == CollapseWhiteSpace(rest)[|CollapseWhiteSpace(rest)| - 1];
      }
    } else if |s| > 1 {
      var rest := s[1..];
      assert r == [s[0]] + CollapseWhiteSpace(rest);
      CollapseLast(rest);
      assert rest[|rest| - 1] == s[|s| - 1];
      assert r[|r| - 1] == CollapseWhiteSpace(rest)[|CollapseWhiteSpace(rest)| - 1];
    }
  }

  /** Collapsing keeps every visible character, in order. */
  lemma {:induction false} CollapseVisible(s: string)
    ensures Visible(CollapseWhiteSpace(s)) == Visible(s)
    decreases |s|
  {
    if s == [] {
    } else if IsWhiteSpace(s[0]) {
      var rest := TrimStart(s);
      VisibleTrimStart(s);
      assert Visible(CollapseWhiteSpace(s)) == Visible(CollapseWhiteSpace(rest)) by {
        assert CollapseWhiteSpace(s) == [' '] + CollapseWhiteSpace(rest);
        assert ([' '] + CollapseWhiteSpace(rest))[1..] == CollapseWhiteSpace(rest);
      }
      CollapseVisible(rest);
    } else {
      CollapseVisible(s[1..]);
      assert ([s[0]] + CollapseWhiteSpace(s[1..]))[1..] == CollapseWhiteSpace(s[1..]);
    }
  }

  /** A string that is already collapsed is left as it is. */
  lemma {:induction false} CollapseIdentity(s: string)
    requires OnlyPlainSpaces(s) && NoAdjacentWhiteSpace(s)
    ensures CollapseWhiteSpace(s) == s
    decreases |s|
  {
    if s != [] {
      assert OnlyPlainSpaces(s[1..]) && NoAdjacentWhiteSpace(s[1..]) by {
        forall i | 0 <= i < |s[1..]| - 1
          ensures !(IsWhiteSpace(s[1..][i]) && IsWhiteSpace(s[1..][i + 1]))
        {
          assert s[1..][i] == s[i + 1] && s[1..][i + 1] == s[i + 2];
        }
      }
      if IsWhiteSpace(s[0]) {
        assert TrimStart(s) == s[1..] by {
          if |s| > 1 {
            assert !IsWhiteSpace(s[1]);
            assert TrimStart(s[1..]) == s[1..];
          }
        }
      }
      CollapseIdentity(s[1..]);
    }
  }

  /** The line as `Regex.Replace(line.Trim(), @"\s+", " ")` leaves it. */
  function Normalize(line: string): (r: string)
    ensures IsNormalized(r)
    ensures Visible(r) == Visible(line)
    ensures r == [] <==> IsNullOrWhiteSpace(line)
    ensures IsNormalized(line) ==> r == line
  {
    var t := Trim(line);
    CollapseVisible(t);
    if t == [] then
      CollapseWhiteSpace(t)
    else
      CollapseLast(t);
      if IsNormalized(line) then
        CollapseIdentity(line);
        CollapseWhiteSpace(t)
      else
        CollapseWhiteSpace(t)
  }

  // ---------------------------------------------------------------- words

  /** `String.Join(" ", parts)`. */
  function Join(parts: seq<string>): string {
    if parts == [] then []
    else if |parts| == 1 then parts[0]
    else parts[0] + " " + Join(parts[1..])
  }

  /** The length of the run of non-white-space characters `s` starts with. */
  function WordEnd(s: string): (n: nat)
    ensures n <= |s|
    ensures forall i :: 0 <= i < n ==> !IsWhiteSpace(s[i])
    ensures n < |s| ==> IsWhiteSpace(s[n])
  {
    if s == [] || IsWhiteSpace(s[0]) then 0
    else
      var n := WordEnd(s[1..]) + 1;
      assert forall i :: 0 < i < n ==> s[i] == s[1..][i - 1];
      n
  }

  /** The words of `s`: its maximal runs of non-white-space characters, front to back. */
  function Words(s: string): (ws: seq<string>)
    ensures forall i :: 0 <= i < |ws| ==> IsToken(ws[i])
    ensures ws == [] <==> IsNullOrWhiteSpace(s)
    decreases |s|
  {
    if s == [] then []
    else if IsWhiteSpace(s[0]) then
      BlankCons(s);
      Words(s[1..])
    else
      var n := WordEnd(s);
      var rest := Words(s[n..]);
      var ws := [s[..n]] + rest;
      assert forall i :: 0 < i < |ws| ==> ws[i] == rest[i - 1];
      ws
  }

  /** A non-empty text is blank when its first character is white space and the rest is blank. */
  lemma BlankCons(s: string)
    requires s != []
    ensures IsNullOrWhiteSpace(s) <==> IsWhiteSpace(s[0]) && IsNullOrWhiteSpace(s[1..])
  {
    if IsWhiteSpace(s[0]) && IsNullOrWhiteSpace(s[1..]) {
      forall i | 0 <= i < |s| ensures IsWhiteSpace(s[i]) {
        if i > 0 { assert s[i] == s[1..][i - 1]; }
      }
    }
  }

  /** A token is one word. */
  lemma WordsOfToken(w: string)
    requires IsToken(w)
    ensures Words(w) == [w]
  {
    assert WordEnd(w) == |w|;
    assert w[..|w|] == w && w[|w|..] == [];
  }

  /** Blank text in front of `s` adds no word. */
  lemma {:induction false} WordsBlankPrefix(p: string, s: string)
    requires IsNullOrWhiteSpace(p)
    ensures Words(p + s) == Words(s)
    decreases |p|
  {
    if p == [] {
      assert p + s == s;
    } else {
      assert (p + s)[0] == p[0] && (p + s)[1..] == p[1..] + s;
      BlankCons(p);
      WordsBlankPrefix(p[1..], s);
    }
  }

  /** A word that ends inside `t` ends there in `t + c` too, and a word that fills
      `t` ends with it when `c` starts with white space. */
  lemma WordEndConcat(t: string, c: string)
    ensures WordEnd(t) < |t| ==> WordEnd(t + c) == WordEnd(t)
    ensures WordEnd(t) == |t| && (c == [] || IsWhiteSpace(c[0])) ==> WordEnd(t + c) == |t|
  {
    var n, m := WordEnd(t), WordEnd(t + c);
    assert forall i :: 0 <= i < |t| ==> (t + c)[i] == t[i];
    if n == |t| && c != [] {
      assert (t + c)[|t|] == c[0];
    }
  }

  /** A non-empty blank gap separates words: the words of `a`, then a gap, then `b`
      are the words of `a` followed by the words of `b`. */
  lemma {:induction false} WordsSplit(a: string, g: string, b: string)
    requires g != [] && IsNullOrWhiteSpace(g)
    ensures Words(a + (g + b)) == Words(a) + Words(b)
    decreases |a|
  {
    var s := a + (g + b);
    if a == [] {
      assert s == g + b;
      WordsBlankPrefix(g, b);
    } else if IsWhiteSpace(a[0]) {
      assert s[0] == a[0] && s[1..] == a[1..] + (g + b);
      calc {
        Words(s);
        Words(a[1..] + (g + b));
        { WordsSplit(a[1..], g, b); }
        Words(a[1..]) + Words(b);
        Words(a) + Words(b);
      }
    } else {
      assert s[0] == a[0];
      var n := WordEnd(a);
      WordEndConcat(a, g + b);
      assert s[..n] == a[..n];
      if n == |a| {
        assert s[n..] == g + b && a[n..] == [];
        calc {
          Words(s);
          [a[..n]] + Words(g + b);
          { WordsBlankPrefix(g, b); }
          [a[..n]] + Words(b);
          { assert Words(a) == [a[..n]]; }
          Words(a) + Words(b);
        }
      } else {
        assert s[n..] == a[n..] + (g + b);
        calc {
          Words(s);
          [a[..n]] + Words(a[n..] + (g + b));
          { WordsSplit(a[n..], g, b); }
          [a[..n]] + (Words(a[n..]) + Words(b));
          { AppendAssoc([a[..n]], Words(a[n..]), Words(b)); }
          [a[..n]] + Words(a[n..]) + Words(b);
          Words(a) + Words(b);
        }
      }
    }
  }

  /** Blank text after `s` adds no word. */
  lemma WordsBlankSuffix(s: string, q: string)
    requires IsNullOrWhiteSpace(q)
    ensures Words(s + q) == Words(s)
  {
    if q != [] {
      assert s + (q + []) == s + q;
      WordsSplit(s, q, []);
    } else {
      assert s + q == s;
    }
  }

  /** Dropping the leading white space keeps every word. */
  lemma WordsTrimStart(s: string)
    ensures Words(TrimStart(s)) == Words(s)
  {
    var t := TrimStart(s);
    assert s == s[..|s| - |t|] + t;
    WordsBlankPrefix(s[..|s| - |t|], t);
  }

  /** Dropping the trailing white space keeps every word. */
  lemma WordsTrimEnd(s: string)
    ensures Words(TrimEnd(s)) == Words(s)
  {
    var t := TrimEnd(s);
    assert s == t + s[|t|..];
    WordsBlankSuffix(t, s[|t|..]);
  }

  /** Trimming keeps every word. */
  lemma WordsTrim(s: string)
    ensures Words(Trim(s)) == Words(s)
  {
    WordsTrimStart(s);
    WordsTrimEnd(TrimStart(s));
  }

  /** A word in front of more text is collapsed as it stands. */
  lemma {:induction false} CollapseToken(w: string, r: string)
    requires forall i :: 0 <= i < |w| ==> !IsWhiteSpace(w[i])
    ensures CollapseWhiteSpace(w + r) == w + CollapseWhiteSpace(r)
    decreases |w|
  {
    if w == [] {
      assert w + r == r;
    } else {
      assert (w + r)[0] == w[0] && (w + r)[1..] == w[1..] + r;
      assert forall i :: 0 <= i < |w[1..]| ==> w[1..][i] == w[i + 1];
      calc {
        CollapseWhiteSpace(w + r);
        [w[0]] + CollapseWhiteSpace(w[1..] + r);
        { CollapseToken(w[1..], r); }
        [w[0]] + (w[1..] + CollapseWhiteSpace(r));
        { AppendAssoc([w[0]], w[1..], CollapseWhiteSpace(r)); }
        [w[0]] + w[1..] + CollapseWhiteSpace(r);
        { assert [w[0]] + w[1..] == w; }
        w + CollapseWhiteSpace(r);
      }
    }
  }

  /** Joining a word to a non-empty list of words puts one space between them. */
  lemma JoinCons(w: string, ws: seq<string>)
    requires ws != []
    ensures Join([w] + ws) == w + " " + Join(ws)
  {
    assert ([w] + ws)[1..] == ws;
  }

  /** On a trimmed text, collapsing every run of white space into one space leaves
      exactly its words with one space between each two. */
  lemma {:induction false} CollapseWords(s: string)
    requires IsTrimmed(s)
    ensures CollapseWhiteSpace(s) == Join(Words(s))
    decreases |s|
  {
    if s != [] {
      var n := WordEnd(s);
      var w, rest := s[..n], s[n..];
      FirstWord(s);
      if n < |s| {
        var t := TrimStart(rest);
        AfterFirstWord(s);
        calc {
          CollapseWhiteSpace(s);
          w + CollapseWhiteSpace(rest);
          w + ([' '] + CollapseWhiteSpace(t));
          { CollapseWords(t); }
          w + ([' '] + Join(Words(t)));
          { AppendAssoc(w, " ", Join(Words(t))); }
          w + " " + Join(Words(t));
          { JoinCons(w, Words(t)); }
          Join([w] + Words(t));
          Join(Words(s));
        }
      } else {
        assert w == s && rest == [];
        assert CollapseWhiteSpace(s) == s + [];
      }
    }
  }

  lemma AppendAssoc<T>(a: seq<T>, b: seq<T>, c: seq<T>)
    ensures a + (b + c) == a + b + c
  {
  }

  /** A text that starts with a word: the word comes first, both in its words and
      in its collapsed form. */
  lemma FirstWord(s: string)
    requires s != [] && !IsWhiteSpace(s[0])
    ensures var n := WordEnd(s);
      && Words(s) == [s[..n]] + Words(s[n..])
      && CollapseWhiteSpace(s) == s[..n] + CollapseWhiteSpace(s[n..])
  {
    var n := WordEnd(s);
    assert s == s[..n] + s[n..];
    CollapseToken(s[..n], s[n..]);
  }

  /** A trimmed text goes on after its first word with a gap and a trimmed rest:
      the gap collapses to one space and adds no word. */
  lemma AfterFirstWord(s: string)
    requires IsTrimmed(s) && s != [] && WordEnd(s) < |s|
    ensures var rest := s[WordEnd(s)..];
      var t := TrimStart(rest);
      && IsTrimmed(t) && t != [] && |t| < |s|
      && CollapseWhiteSpace(rest) == [' '] + CollapseWhiteSpace(t)
      && Words(rest) == Words(t) && Words(t) != []
  {
    var rest := s[WordEnd(s)..];
    var t := TrimStart(rest);
    assert rest[|rest| - 1] == s[|s| - 1];
    assert rest[..|rest|] == rest;
    assert !IsNullOrWhiteSpace(rest);
    assert t[|t| - 1] == rest[|rest| - 1];
    assert TrimStart(t) == t;
    WordsTrimStart(rest);
  }

  /** Each of `ts` followed by its gap from `gaps`, then `rest`. */
  function Spaced(ts: seq<string>, gaps: seq<string>, rest: string): string
    requires |gaps| == |ts|
  {
    if ts == [] then rest else ts[0] + (gaps[0] + Spaced(ts[1..], gaps[1..], rest))
  }

  /** Tokens separated from what follows by non-empty blank gaps are the first words. */
  lemma {:induction false} WordsSpaced(ts: seq<string>, gaps: seq<string>, rest: string)
    requires |gaps| == |ts|
    requires forall i :: 0 <= i < |ts| ==> IsToken(ts[i])
    requires forall i :: 0 <= i < |gaps| ==> gaps[i] != [] && IsNullOrWhiteSpace(gaps[i])
    ensures Words(Spaced(ts, gaps, rest)) == ts + Words(rest)
    decreases |ts|
  {
    if ts != [] {
      var tail := Spaced(ts[1..], gaps[1..], rest);
      calc {
        Words(Spaced(ts, gaps, rest));
        Words(ts[0] + (gaps[0] + tail));
        { WordsSplit(ts[0], gaps[0], tail); }
        Words(ts[0]) + Words(tail);
        { WordsOfToken(ts[0]); WordsSpaced(ts[1..], gaps[1..], rest); }
        [ts[0]] + (ts[1..] + Words(rest));
        { AppendAssoc([ts[0]], ts[1..], Words(rest)); }
        [ts[0]] + ts[1..] + Words(rest);
        { assert [ts[0]] + ts[1..] == ts; }
        ts + Words(rest);
      }
    }
  }

  /** What `ParseLine` splits is the line's words with one space between each two. */
  lemma NormalizeWords(line: string)
    ensures Normalize(line) == Join(Words(line))
  {
    CollapseWords(Trim(line));
    WordsTrim(line);
  }

  /** `s` holds no plain space. */
  predicate SpaceFree(s: string) {
    forall k :: 0 <= k < |s| ==> s[k] != ' '
  }

  /** The position of the first plain space of `s`. */
  function FirstSpace(s: string): (i: nat)
    requires !SpaceFree(s)
    ensures i < |s| && s[i] == ' ' && SpaceFree(s[..i])
  {
    if s[0] == ' ' then 0 else FirstSpace(s[1..]) + 1
  }

  /** The number of plain spaces in `s`. */
  function CountSpaces(s: string): nat {
    if s == [] then 0 else (if s[0] == ' ' then 1 else 0) + CountSpaces(s[1..])
  }

  /** `s.Split(' ', count)`: splits at the plain spaces into at most `count` parts;
      the last part keeps the rest of `s`, spaces included, and empty parts are kept. */
  function Split(s: string, count: nat): (parts: seq<string>)
    requires count >= 1
    ensures 1 <= |parts| <= count
    decreases count
  {
    if count == 1 || SpaceFree(s) then [s]
    else
      var i := FirstSpace(s);
      [s[..i]] + Split(s[i + 1..], count - 1)
  }

  /** The parts joined with single spaces give `s` back. */
  lemma {:induction false} SplitJoin(s: string, count: nat)
    requires count >= 1
    ensures Join(Split(s, count)) == s
    decreases count
  {
    if count > 1 && !SpaceFree(s) {
      var i := FirstSpace(s);
      var rest := Split(s[i + 1..], count - 1);
      SplitJoin(s[i + 1..], count - 1);
      var parts := [s[..i]] + rest;
      assert parts[1..] == rest;
      assert Join(parts) == s[..i] + " " + Join(rest);
      assert s == s[..i] + " " + s[i + 1..];
    }
  }

  /** Every part but the last is free of spaces, and so is the last one when fewer
      than `count` parts result. */
  lemma {:induction false} SplitNoSpace(s: string, count: nat)
    requires count >= 1
    ensures var parts := Split(s, count);
      && (forall i :: 0 <= i < |parts| - 1 ==> SpaceFree(parts[i]))
      && (|parts| < count ==> SpaceFree(parts[|parts| - 1]))
    decreases count
  {
    if count > 1 && !SpaceFree(s) {
      var i := FirstSpace(s);
      var rest := Split(s[i + 1..], count - 1);
      SplitNoSpace(s[i + 1..], count - 1);
      var parts := [s[..i]] + rest;
      assert Split(s, count) == parts;
      assert parts[|parts| - 1] == rest[|rest| - 1];
      assert |parts| < count ==> |rest| < count - 1;
      forall k | 0 <= k < |parts| - 1 ensures SpaceFree(Split(s, count)[k]) {
        if k > 0 {
          assert parts[k] == rest[k - 1];
        }
      }
    } else {
      assert Split(s, count) == [s];
    }
  }

  /** Splitting gives one part more than there are spaces, up to `count`. */
  lemma {:induction false} SplitLength(s: string, count: nat)
    requires count >= 1
    ensures |Split(s, count)| == if CountSpaces(s) + 1 < count then CountSpaces(s) + 1 else count
    decreases count
  {
    if count > 1 && !SpaceFree(s) {
      var rest := s[FirstSpace(s) + 1..];
      SplitLength(rest, count - 1);
      CountAfterFirstSpace(s);
      SplitAfterFirstSpace(s, count);
    } else if count > 1 {
      NoSpaceCount(s);
    }
  }

  lemma SplitAfterFirstSpace(s: string, count: nat)
    requires count >= 2 && !SpaceFree(s)
    ensures |Split(s, count)| == |Split(s[FirstSpace(s) + 1..], count - 1)| + 1
  {
  }

  lemma CountAfterFirstSpace(s: string)
    requires !SpaceFree(s)
    ensures CountSpaces(s) == CountSpaces(s[FirstSpace(s) + 1..]) + 1
  {
    var i := FirstSpace(s);
    CountSpacesConcat(s[..i], s[i..]);
    assert s == s[..i] + s[i..];
    NoSpaceCount(s[..i]);
    assert s[i..][1..] == s[i + 1..];
  }

  /** Splitting a token followed by a space and more text gives the token first. */
  lemma SplitAfterToken(tok: string, rest: string, count: nat)
    requires count >= 2 && SpaceFree(tok)
    ensures Split(tok + " " + rest, count) == [tok] + Split(rest, count - 1)
  {
    var s := tok + " " + rest;
    assert s[|tok|] == ' ';
    var i := FirstSpace(s);
    assert forall k :: 0 <= k < |tok| ==> s[k] == tok[k];
    assert i == |tok|;
    assert s[..i] == tok && s[i + 1..] == rest;
  }

  lemma {:induction false} NoSpaceCount(s: string)
    requires SpaceFree(s)
    ensures CountSpaces(s) == 0
    decreases |s|
  {
    if s != [] {
      NoSpaceCount(s[1..]);
    }
  }

  lemma {:induction false} CountSpacesConcat(a: string, b: string)
    ensures CountSpaces(a + b) == CountSpaces(a) + CountSpaces(b)
    decreases |a|
  {
    if a == [] {
      assert a + b == b;
    } else {
      assert (a + b)[0] == a[0] && (a + b)[1..] == a[1..] + b;
      CountSpacesConcat(a[1..], b);
    }
  }

  lemma {:induction false} VisibleConcat(a: string, b: string)
    ensures Visible(a + b) == Visible(a) + Visible(b)
    decreases |a|
  {
    if a == [] {
      assert a + b == b;
    } else {
      assert (a + b)[0] == a[0] && (a + b)[1..] == a[1..] + b;
      VisibleConcat(a[1..], b);
    }
  }
}
