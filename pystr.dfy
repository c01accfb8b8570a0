/** The Python string operations the scraper is built from: `str.replace`,
    `str.strip`, the `in` substring test and the ASCII character classes of
    Python 2 regular expressions (`\d`, `\w` without re.UNICODE). */
module PyStr {

  /** `unicode.isspace()` as used by `strip()` (Python 2.7, Unicode 5.2). */
  predicate IsSpace(c: char) {
    ('\t' <= c <= '\r') || ('\U{1C}' <= c <= '\U{1F}') || c == ' '
    || c == '\U{85}' || c == '\U{A0}' || c == '\U{1680}' || c == '\U{180E}'
    || ('\U{2000}' <= c <= '\U{200A}') || c == '\U{2028}' || c == '\U{2029}'
    || c == '\U{202F}' || c == '\U{205F}' || c == '\U{3000}'
  }

  /** Regex `\d` of a Python 2 pattern without re.UNICODE. */
  predicate IsDigit(c: char) {
    '0' <= c <= '9'
  }

  /** Regex `\w` of a Python 2 pattern without re.UNICODE. */
  predicate IsWordChar(c: char) {
    ('a' <= c <= 'z') || ('A' <= c <= 'Z') || IsDigit(c) || c == '_'
  }

  predicate AllDigits(s: string) {
    forall i :: 0 <= i < |s| ==> IsDigit(s[i])
  }

  predicate StartsWith(s: string, prefix: string) {
    |prefix| <= |s| && s[..|prefix|] == prefix
  }

  /** Python `sub in s`. */
  predicate Contains(s: string, sub: string)
    decreases |s|
  {
    StartsWith(s, sub) || (|s| > 0 && Contains(s[1..], sub))
  }

  /** Python `s.replace(pat, rep)`: a left-to-right scan replacing
      non-overlapping occurrences; the replacement text is not rescanned. */
  function Replace(s: string, pat: string, rep: string): string
    requires |pat| > 0
    decreases |s|
  {
    if |s| < |pat| then s
    else if s[..|pat|] == pat then rep + Replace(s[|pat|..], pat, rep)
    else [s[0]] + Replace(s[1..], pat, rep)
  }

  function LStrip(s: string): string
    decreases |s|
  {
    if |s| > 0 && IsSpace(s[0]) then LStrip(s[1..]) else s
  }

  function RStrip(s: string): string
    decreases |s|
  {
    if |s| > 0 && IsSpace(s[|s| - 1]) then RStrip(s[..|s| - 1]) else s
  }

  /** Python `s.strip()` with no argument. */
  function Strip(s: string): string {
    RStrip(LStrip(s))
  }

  /** Neither end of `s` is whitespace: what `strip()` guarantees. */
  predicate Trimmed(s: string) {
    s == [] || (!IsSpace(s[0]) && !IsSpace(s[|s| - 1]))
  }

  /** Python `s.split(sep)` for a non-empty separator: the same
      left-to-right scan as `replace`, cutting at each occurrence. */
  function Split(s: string, sep: string): (r: seq<string>)
    requires |sep| > 0
    ensures |r| > 0
  {
    SplitFrom(s, sep, "")
  }

  /** The pieces of `s` when `cur` has already been read into the first. */
  function SplitFrom(s: string, sep: string, cur: string): (r: seq<string>)
    requires |sep| > 0
    ensures |r| > 0
    decreases |s|
  {
    if |s| < |sep| then [cur + s]
    else if s[..|sep|] == sep then [cur] + SplitFrom(s[|sep|..], sep, "")
    else SplitFrom(s[1..], sep, cur + [s[0]])
  }

  /** Python `sep.join(pieces)`. */
  function Join(pieces: seq<string>, sep: string): string
    requires |pieces| > 0
    decreases |pieces|
  {
    if |pieces| == 1 then pieces[0] else pieces[0] + sep + Join(pieces[1..], sep)
  }

  // ---------------------------------------------------------------- lemmas

  /** `replace` introduces no character that is in neither the input nor
      the replacement text. */
  lemma {:induction false} ReplaceKeepsOut(s: string, pat: string, rep: string, c: char)
    requires |pat| > 0 && c !in s && c !in rep
    ensures c !in Replace(s, pat, rep)
    decreases |s|
  {
    if |s| < |pat| {
    } else if s[..|pat|] == pat {
      ReplaceKeepsOut(s[|pat|..], pat, rep, c);
    } else {
      ReplaceKeepsOut(s[1..], pat, rep, c);
    }
  }

  /** Replacing a single character removes every occurrence of it, as long
      as the replacement does not contain it. */
  lemma {:induction false} ReplaceRemovesChar(s: string, c: char, rep: string)
    requires c !in rep
    ensures c !in Replace(s, [c], rep)
    decreases |s|
  {
    if |s| >= 1 {
      ReplaceRemovesChar(s[1..], c, rep);
    }
  }

  /** A text whose characters never start the pattern is left alone. */
  lemma {:induction false} ReplaceAbsent(s: string, pat: string, rep: string)
    requires |pat| > 0 && pat[0] !in s
    ensures Replace(s, pat, rep) == s
    decreases |s|
  {
    if |s| >= |pat| {
      assert s[0] in s;
      assert s[..|pat|] != pat by { assert s[..|pat|][0] == s[0]; }
      ReplaceAbsent(s[1..], pat, rep);
    }
  }

  /** Replacing a single character distributes over concatenation. */
  lemma {:induction false} ReplaceCharConcat(a: string, b: string, c: char, rep: string)
    ensures Replace(a + b, [c], rep) == Replace(a, [c], rep) + Replace(b, [c], rep)
    decreases |a|
  {
    if |a| > 0 {
      assert (a + b)[1..] == a[1..] + b;
      assert (a + b)[..1] == a[..1];
      ReplaceCharConcat(a[1..], b, c, rep);
    } else {
      assert a + b == b;
    }
  }

  lemma {:induction false} LStripShape(s: string)
    ensures |LStrip(s)| <= |s| && LStrip(s) == s[|s| - |LStrip(s)|..]
    ensures LStrip(s) == [] || !IsSpace(LStrip(s)[0])
    decreases |s|
  {
    if |s| > 0 && IsSpace(s[0]) {
      LStripShape(s[1..]);
    }
  }

  lemma {:induction false} RStripShape(s: string)
    ensures |RStrip(s)| <= |s| && RStrip(s) == s[..|RStrip(s)|]
    ensures RStrip(s) == [] || !IsSpace(RStrip(s)[|RStrip(s)| - 1])
    decreases |s|
  {
    if |s| > 0 && IsSpace(s[|s| - 1]) {
      RStripShape(s[..|s| - 1]);
    }
  }

  /** `strip()` of a text is the piece of it that starts after the leading
      whitespace, and has no whitespace at either end. */
  lemma StripShape(s: string)
    ensures Trimmed(Strip(s))
    ensures |LStrip(s)| <= |s| && |Strip(s)| <= |LStrip(s)|
    ensures Strip(s) == s[|s| - |LStrip(s)|..|s| - |LStrip(s)| + |Strip(s)|]
  {
    var l := LStrip(s);
    LStripShape(s);
    RStripShape(l);
    var r := RStrip(l);
    var i := |s| - |l|;
    assert r == s[i..i + |r|];
    if r != [] && |r| == |l| {
      assert r == l;
    }
  }

  /** Every character of `strip()`'s result occurs in its argument. */
  lemma StripKeepsOut(s: string, c: char)
    requires c !in s
    ensures c !in Strip(s)
  {
    StripShape(s);
    var i := |s| - |LStrip(s)|;
    forall k | 0 <= k < |Strip(s)|
      ensures Strip(s)[k] != c
    {
      assert Strip(s)[k] == s[i + k];
    }
  }

  lemma {:induction false} RStripOfTrimmed(s: string)
    requires s == [] || !IsSpace(s[|s| - 1])
    ensures RStrip(s) == s
  {
  }

  /** `strip()` is the identity exactly on trimmed text, and so is
      idempotent. */
  lemma StripTrimmed(s: string)
    ensures Strip(s) == s <==> Trimmed(s)
    ensures Strip(Strip(s)) == Strip(s)
  {
    StripShape(s);
    if Trimmed(s) {
      assert LStrip(s) == s;
      RStripOfTrimmed(s);
    }
    var t := Strip(s);
    assert LStrip(t) == t;
    RStripOfTrimmed(t);
  }

  /** A text containing a non-empty pattern contains the pattern's first
      character. */
  lemma {:induction false} ContainsFirstChar(s: string, sub: string)
    requires |sub| > 0 && Contains(s, sub)
    ensures sub[0] in s
    decreases |s|
  {
    if StartsWith(s, sub) {
      assert s[0] == s[..|sub|][0];
    } else {
      ContainsFirstChar(s[1..], sub);
      assert s[1..] <= s[1..];
      var k :| 0 <= k < |s[1..]| && s[1..][k] == sub[0];
      assert s[k + 1] == sub[0];
    }
  }

  /** `replace` copies a prefix that never starts the pattern. */
  lemma {:induction false} ReplaceSkipsPrefix(a: string, t: string, pat: string, rep: string)
    requires |pat| > 0 && pat[0] !in a
    ensures Replace(a + t, pat, rep) == a + Replace(t, pat, rep)
    decreases |a|
  {
    if |a| > 0 {
      var s := a + t;
      assert s[0] == a[0];
      if |s| >= |pat| {
        assert s[..|pat|] != pat by { assert s[..|pat|][0] == a[0]; }
      }
      assert s[1..] == a[1..] + t;
      ReplaceSkipsPrefix(a[1..], t, pat, rep);
    } else {
      assert a + t == t;
    }
  }

  /** A text containing a pattern contains each of the pattern's
      characters. */
  lemma {:induction false} ContainsCharOf(s: string, sub: string, k: nat)
    requires k < |sub| && Contains(s, sub)
    ensures sub[k] in s
    decreases |s|
  {
    if StartsWith(s, sub) {
      assert s[k] == s[..|sub|][k];
    } else {
      ContainsCharOf(s[1..], sub, k);
      var j :| 0 <= j < |s[1..]| && s[1..][j] == sub[k];
      assert s[j + 1] == sub[k];
    }
  }

  /** A non-empty pattern is never found where one of its characters is
      missing. */
  lemma NotContains(s: string, sub: string, k: nat)
    requires k < |sub| && sub[k] !in s
    ensures !Contains(s, sub)
  {
    if Contains(s, sub) {
      ContainsCharOf(s, sub, k);
    }
  }

  /** Replacing a pattern is splitting at it and joining with the
      replacement, the first piece starting with `cur`. */
  lemma {:induction false} JoinSplitFrom(s: string, sep: string, cur: string, rep: string)
    requires |sep| > 0
    ensures Join(SplitFrom(s, sep, cur), rep) == cur + Replace(s, sep, rep)
    decreases |s|
  {
    if |s| < |sep| {
    } else if s[..|sep|] == sep {
      var t := s[|sep|..];
      JoinSplitFrom(t, sep, "", rep);
      assert "" + Replace(t, sep, rep) == Replace(t, sep, rep);
      JoinSplitAtMatch(s, sep, cur, rep);
    } else {
      JoinSplitFrom(s[1..], sep, cur + [s[0]], rep);
      JoinSplitPastChar(s, sep, cur, rep);
    }
  }

  /** The step of `JoinSplitFrom` at an occurrence of the separator. */
  lemma JoinSplitAtMatch(s: string, sep: string, cur: string, rep: string)
    requires |sep| > 0 && |s| >= |sep| && s[..|sep|] == sep
    requires Join(SplitFrom(s[|sep|..], sep, ""), rep) == Replace(s[|sep|..], sep, rep)
    ensures Join(SplitFrom(s, sep, cur), rep) == cur + Replace(s, sep, rep)
  {
    var t := s[|sep|..];
    var rest := SplitFrom(t, sep, "");
    var tail := Replace(t, sep, rep);
    assert SplitFrom(s, sep, cur) == [cur] + rest;
    assert Replace(s, sep, rep) == rep + tail;
    JoinCons(cur, rest, rep, tail);
  }

  /** The step of `JoinSplitFrom` past a character that starts no
      separator. */
  lemma JoinSplitPastChar(s: string, sep: string, cur: string, rep: string)
    requires |sep| > 0 && |s| >= |sep| && s[..|sep|] != sep
    requires Join(SplitFrom(s[1..], sep, cur + [s[0]]), rep) == cur + [s[0]] + Replace(s[1..], sep, rep)
    ensures Join(SplitFrom(s, sep, cur), rep) == cur + Replace(s, sep, rep)
  {
    assert cur + [s[0]] + Replace(s[1..], sep, rep) == cur + ([s[0]] + Replace(s[1..], sep, rep));
  }

  lemma JoinCons(first: string, rest: seq<string>, sep: string, tail: string)
    requires |rest| > 0 && Join(rest, sep) == tail
    ensures Join([first] + rest, sep) == first + (sep + tail)
  {
    assert ([first] + rest)[1..] == rest;
  }

  /** `rep.join(s.split(sep)) == s.replace(sep, rep)`. */
  lemma JoinSplit(s: string, sep: string, rep: string)
    requires |sep| > 0
    ensures Join(Split(s, sep), rep) == Replace(s, sep, rep)
  {
    JoinSplitFrom(s, sep, "", rep);
    assert "" + Replace(s, sep, rep) == Replace(s, sep, rep);
  }

  /** Replacing a pattern by itself changes nothing. */
  lemma {:induction false} ReplaceSelf(s: string, pat: string)
    requires |pat| > 0
    ensures Replace(s, pat, pat) == s
    decreases |s|
  {
    if |s| >= |pat| {
      if s[..|pat|] == pat {
        ReplaceSelf(s[|pat|..], pat);
        assert s == s[..|pat|] + s[|pat|..];
      } else {
        ReplaceSelf(s[1..], pat);
        assert s == [s[0]] + s[1..];
      }
    }
  }

  /** Splitting and joining back with the separator gives the text back. */
  lemma SplitRoundTrip(s: string, sep: string)
    requires |sep| > 0
    ensures Join(Split(s, sep), sep) == s
  {
    JoinSplit(s, sep, sep);
    ReplaceSelf(s, sep);
  }

  /** A text that does not contain the pattern is left as it is. */
  lemma {:induction false} ReplaceNoMatch(s: string, pat: string, rep: string)
    requires |pat| > 0 && !Contains(s, pat)
    ensures Replace(s, pat, rep) == s
    decreases |s|
  {
    if |s| >= |pat| {
      assert !StartsWith(s, pat);
      ReplaceNoMatch(s[1..], pat, rep);
      assert s == [s[0]] + s[1..];
    }
  }

  /** A text that starts with the pattern loses that occurrence first. */
  lemma ReplaceLeading(pat: string, t: string, rep: string)
    requires |pat| > 0
    ensures Replace(pat + t, pat, rep) == rep + Replace(t, pat, rep)
  {
    assert (pat + t)[..|pat|] == pat && (pat + t)[|pat|..] == t;
  }
}
