/**
  The deployment URL matcher: the regular expression `/https:\/\/[^\s]+/` that
  src/deploy.ts applies with `String.prototype.match`, stated as a pure function
  over strings. A match starts at the leftmost position where "https://" is
  followed by at least one non-whitespace character and extends greedily over
  the maximal run of non-whitespace characters.
*/
module UrlMatch {
  import opened Wrappers

  /** The literal prefix of every match. */
  const Scheme: string := "https://"

  /**
    ECMAScript's `\s`: the WhiteSpace code points (TAB, VT, FF, ZWNBSP and every
    code point of Unicode category Zs) and the LineTerminator code points
    (LF, CR, LINE SEPARATOR, PARAGRAPH SEPARATOR).
  */
  predicate IsWhitespace(c: char)
    ensures IsWhitespace(c) <==> c in WhitespaceChars
  {
    if c < '\U{00A0}' then
      c == ' ' || ('\t' <= c <= '\r')
    else
      c == '\U{00A0}' || c == '\U{1680}'
      || ('\U{2000}' <= c <= '\U{200A}')
      || c == '\U{2028}' || c == '\U{2029}' || c == '\U{202F}' || c == '\U{205F}'
      || c == '\U{3000}' || c == '\U{FEFF}'
  }

  /** The same code points, listed one by one. */
  const WhitespaceChars: set<char> := {
    '\t', '\n', '\U{000B}', '\U{000C}', '\r', ' ', '\U{00A0}', '\U{1680}',
    '\U{2000}', '\U{2001}', '\U{2002}', '\U{2003}', '\U{2004}', '\U{2005}',
    '\U{2006}', '\U{2007}', '\U{2008}', '\U{2009}', '\U{200A}',
    '\U{2028}', '\U{2029}', '\U{202F}', '\U{205F}', '\U{3000}', '\U{FEFF}'
  }

  /** Vertical tab and form feed are whitespace; NEL, MONGOLIAN VOWEL SEPARATOR and ZERO WIDTH SPACE are not. */
  lemma WhitespaceExamples()
    ensures IsWhitespace('\U{000B}') && IsWhitespace('\U{000C}') && IsWhitespace('\U{3000}')
    ensures !IsWhitespace('\U{0085}') && !IsWhitespace('\U{180E}') && !IsWhitespace('\U{200B}')
  {
  }

  predicate NoWhitespace(s: string) {
    forall k :: 0 <= k < |s| ==> !IsWhitespace(s[k])
  }

  /** `u` occurs in `s` starting at position `i`. */
  predicate OccursAt(s: string, i: int, u: string) {
    0 <= i && i + |u| <= |s| && s[i..i + |u|] == u
  }

  /** The regular expression can start a match at position `i` of `s`. */
  predicate MatchAt(s: string, i: int) {
    0 <= i && i + |Scheme| < |s| && s[i..i + |Scheme|] == Scheme && !IsWhitespace(s[i + |Scheme|])
  }

  /**
    Reference definition of the regular expression's result: `u` is the match
    that starts at `i`, no earlier position starts one, `u` lies in `s` at `i`,
    holds no whitespace and cannot be extended.
  */
  ghost predicate LeftmostMaximalMatch(s: string, i: int, u: string) {
    && MatchAt(s, i)
    && (forall j :: 0 <= j < i ==> !MatchAt(s, j))
    && i + |u| <= |s|
    && u == s[i..i + |u|]
    && |u| > |Scheme|
    && NoWhitespace(u)
    && (i + |u| == |s| || IsWhitespace(s[i + |u|]))
  }

  /** The end of the maximal run of non-whitespace characters that starts at `j`. */
  function RunEnd(s: string, j: nat): (k: nat)
    requires j <= |s|
    ensures j <= k <= |s|
    ensures j < |s| && !IsWhitespace(s[j]) ==> j < k
    decreases |s| - j
  {
    if j == |s| || IsWhitespace(s[j]) then j else RunEnd(s, j + 1)
  }

  lemma {:induction false} RunEndMeaning(s: string, j: nat)
    requires j <= |s|
    ensures j <= RunEnd(s, j) <= |s|
    ensures forall m :: j <= m < RunEnd(s, j) ==> !IsWhitespace(s[m])
    ensures RunEnd(s, j) == |s| || IsWhitespace(s[RunEnd(s, j)])
    decreases |s| - j
  {
    if j < |s| && !IsWhitespace(s[j]) {
      RunEndMeaning(s, j + 1);
    }
  }

  /** The first position at or after `from` where a match starts. */
  function FindMatch(s: string, from: nat): (r: Option<nat>)
    requires from <= |s|
    ensures r.Some? ==> MatchAt(s, r.value)
    decreases |s| - from
  {
    if from == |s| then None
    else if MatchAt(s, from) then Some(from)
    else FindMatch(s, from + 1)
  }

  lemma {:induction false} FindMatchMeaning(s: string, from: nat)
    requires from <= |s|
    ensures FindMatch(s, from).Some? ==> from <= FindMatch(s, from).value < |s| && MatchAt(s, FindMatch(s, from).value)
    ensures FindMatch(s, from).Some? ==> forall j :: from <= j < FindMatch(s, from).value ==> !MatchAt(s, j)
    ensures FindMatch(s, from).None? ==> forall j :: from <= j ==> !MatchAt(s, j)
    decreases |s| - from
  {
    if from < |s| && !MatchAt(s, from) {
      FindMatchMeaning(s, from + 1);
    }
  }

  /** `s.match(/https:\/\/[^\s]+/)`, returning `urlMatch[0]` when there is a match. */
  function ExtractUrl(s: string): (r: Option<string>)
    ensures r.Some? ==> |r.value| > |Scheme|
  {
    match FindMatch(s, 0)
    case None => None
    case Some(i) => Some(s[i..RunEnd(s, i + |Scheme|)])
  }

  /**
    What the matcher returns: the leftmost, maximal match when some position
    starts one, and nothing exactly when no position does.
  */
  lemma ExtractUrlMeaning(s: string)
    ensures ExtractUrl(s).Some? ==> exists i :: LeftmostMaximalMatch(s, i, ExtractUrl(s).value)
    ensures ExtractUrl(s).None? <==> forall i :: !MatchAt(s, i)
  {
    FindMatchMeaning(s, 0);
    if FindMatch(s, 0).Some? {
      var i := FindMatch(s, 0).value;
      FirstMatchIsLeftmostMaximal(s, i);
      assert ExtractUrl(s) == Some(s[i..RunEnd(s, i + |Scheme|)]);
    }
  }

  /** A leftmost start, run out to the first whitespace, is the leftmost maximal match. */
  lemma FirstMatchIsLeftmostMaximal(s: string, i: nat)
    requires MatchAt(s, i) && forall j :: 0 <= j < i ==> !MatchAt(s, j)
    ensures LeftmostMaximalMatch(s, i, s[i..RunEnd(s, i + |Scheme|)])
  {
    var k := RunEnd(s, i + |Scheme|);
    RunEndMeaning(s, i + |Scheme|);
    var u := s[i..k];
    assert u[..|Scheme|] == s[i..i + |Scheme|];
    assert NoWhitespace(u) by {
      forall m | 0 <= m < |u| ensures !IsWhitespace(u[m]) {
        assert u[m] == s[i + m];
        if m < |Scheme| {
          assert s[i + m] == Scheme[m];
        }
      }
    }
  }


  /** Every match begins with "https://", is longer than it, and holds no whitespace. */
  lemma ExtractUrlShape(s: string)
    requires ExtractUrl(s).Some?
    ensures |ExtractUrl(s).value| > |Scheme|
    ensures ExtractUrl(s).value[..|Scheme|] == Scheme
    ensures NoWhitespace(ExtractUrl(s).value)
    ensures exists i :: OccursAt(s, i, ExtractUrl(s).value)
  {
    ExtractUrlMeaning(s);
    var u := ExtractUrl(s).value;
    var i :| LeftmostMaximalMatch(s, i, u);
    assert u[..|Scheme|] == s[i..i + |Scheme|];
    assert OccursAt(s, i, u);
  }

  /** The reference definition determines the result: whatever satisfies it is what the matcher returns. */
  lemma LeftmostMaximalIsExtracted(s: string, i: int, u: string)
    requires LeftmostMaximalMatch(s, i, u)
    ensures ExtractUrl(s) == Some(u)
  {
    ExtractUrlMeaning(s);
    var u' := ExtractUrl(s).value;
    var i' :| LeftmostMaximalMatch(s, i', u');
    LeftmostStartUnique(s, i, i');
    SameStartSameMatch(s, i, u, u');
  }

  /** Two leftmost maximal matches at the same position are the same text. */
  lemma SameStartSameMatch(s: string, i: int, u: string, u': string)
    requires LeftmostMaximalMatch(s, i, u) && LeftmostMaximalMatch(s, i, u')
    ensures u == u'
  {
    MatchIsRun(s, i, u);
    MatchIsRun(s, i, u');
    MaximalRunUnique(s, i + |Scheme|, i + |u|, i + |u'|);
  }

  lemma LeftmostStartUnique(s: string, i: int, i': int)
    requires MatchAt(s, i) && forall j :: 0 <= j < i ==> !MatchAt(s, j)
    requires MatchAt(s, i') && forall j :: 0 <= j < i' ==> !MatchAt(s, j)
    ensures i == i'
  {
  }

  /** A leftmost maximal match, seen in the text: a non-whitespace run that ends at whitespace or the end. */
  lemma MatchIsRun(s: string, i: int, u: string)
    requires LeftmostMaximalMatch(s, i, u)
    ensures 0 <= i + |Scheme| <= i + |u| <= |s|
    ensures forall m :: i + |Scheme| <= m < i + |u| ==> !IsWhitespace(s[m])
    ensures i + |u| == |s| || IsWhitespace(s[i + |u|])
  {
    forall m | i + |Scheme| <= m < i + |u| ensures !IsWhitespace(s[m]) {
      assert s[m] == u[m - i];
    }
  }

  /** Two ends of a maximal non-whitespace run that starts at `j` coincide. */
  lemma MaximalRunUnique(s: string, j: int, k1: int, k2: int)
    requires 0 <= j <= k1 <= |s| && j <= k2 <= |s|
    requires forall m :: j <= m < k1 ==> !IsWhitespace(s[m])
    requires forall m :: j <= m < k2 ==> !IsWhitespace(s[m])
    requires k1 == |s| || IsWhitespace(s[k1])
    requires k2 == |s| || IsWhitespace(s[k2])
    ensures k1 == k2
  {
  }

  /** Matching a match again yields the same URL: the matcher is idempotent. */
  lemma ExtractUrlIdempotent(s: string)
    requires ExtractUrl(s).Some?
    ensures ExtractUrl(ExtractUrl(s).value) == ExtractUrl(s)
  {
    var u := ExtractUrl(s).value;
    ExtractUrlShape(s);
    assert u[..|Scheme|] == u[0..|Scheme|];
    assert MatchAt(u, 0);
    assert LeftmostMaximalMatch(u, 0, u) by { assert u == u[0..|u|]; }
    LeftmostMaximalIsExtracted(u, 0, u);
  }

  /** A match inside a piece of text is still a match once text is put before and after it. */
  lemma MatchAtEmbedded(p: string, c: string, q: string, i: int)
    requires MatchAt(c, i)
    ensures MatchAt(p + c + q, |p| + i)
  {
    var w := p + c + q;
    var n := |Scheme|;
    assert w[|p| + i..|p| + i + n] == c[i..i + n] by {
      forall m | |p| + i <= m < |p| + i + n ensures w[m] == c[m - |p|] {}
    }
    assert w[|p| + i + n] == c[i + n];
  }

  /**
    If a chunk holds a match, so does every buffer that contains the chunk:
    a per-chunk match implies a whole-buffer match.
  */
  lemma ChunkMatchImpliesBufferMatch(p: string, c: string, q: string)
    requires ExtractUrl(c).Some?
    ensures ExtractUrl(p + c + q).Some?
  {
    ExtractUrlMeaning(c);
    var i :| LeftmostMaximalMatch(c, i, ExtractUrl(c).value);
    MatchAtEmbedded(p, c, q, i);
    ExtractUrlMeaning(p + c + q);
  }

  /** A buffer that holds a match still holds one once more text is appended. */
  lemma BufferMatchSurvivesAppend(s: string, c: string)
    requires ExtractUrl(s).Some?
    ensures ExtractUrl(s + c).Some?
  {
    ChunkMatchImpliesBufferMatch("", s, c);
    assert "" + s + c == s + c;
  }

  /** A chunk that holds a match makes the buffer it is appended to hold one. */
  lemma ChunkMatchSurvivesPrefix(s: string, c: string)
    requires ExtractUrl(c).Some?
    ensures ExtractUrl(s + c).Some?
  {
    ChunkMatchImpliesBufferMatch(s, c, "");
    assert s + c + "" == s + c;
  }

  /** The worked example: a production line in the tool's output yields the URL before the line break. */
  lemma ProductionLineExample()
    ensures ExtractUrl("Production: https://foo.example/x\n") == Some("https://foo.example/x")
  {
    ProductionLineSplits();
    ProductionLinePieces();
    UrlAfterLeadingText("Production: ", "https://foo.example/x", "\n");
  }

  lemma ProductionLineSplits()
    ensures "Production: " + "https://foo.example/x" + "\n" == "Production: https://foo.example/x\n"
  {
  }

  lemma ProductionLinePieces()
    ensures forall k :: 0 <= k < |"Production: "| ==> "Production: "[k] != 'h'
    ensures "https://foo.example/x"[..|Scheme|] == Scheme
    ensures NoWhitespace("https://foo.example/x")
  {
  }

  /**
    A URL without whitespace, after leading text that holds no "h" and before a
    whitespace character is the match.
  */
  lemma UrlAfterLeadingText(lead: string, u: string, rest: string)
    requires forall k :: 0 <= k < |lead| ==> lead[k] != 'h'
    requires |u| > |Scheme| && u[..|Scheme|] == Scheme && NoWhitespace(u)
    requires |rest| > 0 && IsWhitespace(rest[0])
    ensures ExtractUrl(lead + u + rest) == Some(u)
  {
    var s := lead + u + rest;
    var i := |lead|;
    assert s[i..i + |u|] == u;
    assert s[i..i + |Scheme|] == u[..|Scheme|];
    assert s[i + |Scheme|] == u[|Scheme|];
    assert s[i + |u|] == rest[0];
    forall j | 0 <= j < i ensures !MatchAt(s, j) {
      assert s[j..j + |Scheme|][0] == s[j] == lead[j];
    }
    LeftmostMaximalIsExtracted(s, i, u);
  }

  /** Output without a "https://" token yields no match. */
  lemma NoTokenExample()
    ensures ExtractUrl("Deployed.\n").None?
  {
    var s := "Deployed.\n";
    forall i | 0 <= i && i + |Scheme| < |s| ensures !MatchAt(s, i) {
      assert s[i..i + |Scheme|][0] == s[i] != Scheme[0];
    }
    ExtractUrlMeaning(s);
  }
}
