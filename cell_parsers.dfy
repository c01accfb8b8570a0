/** The cell and text parsers of vantetider/scraper.py: `parse_value`,
    `parse_text` and `parse_landsting`. */
module CellParsers {
  import opened Results
  import opened PyStr
  import opened PyFloat

  /** What `parse_value` returns: one of the missing-value words, `None` for
      an empty cell, or a float. */
  datatype CellValue = Sentinel(text: string) | Empty | Number(number: Float)

  /** The missing-value vocabulary returned verbatim. */
  const MissingValues: seq<string> := ["Ejdeltagit", "N/A", "-"]

  /** The text `parse_value` classifies: `%` becomes a space, every space is
      removed, decimal commas become points, every `st` is deleted (in one
      left-to-right pass), and the result is stripped. */
  function Normalise(val: string): string {
    Strip(Replace(Replace(DropBlanks(val), ",", "."), "st", ""))
  }

  /** The first two steps: `%` becomes a space and every space is removed. */
  function DropBlanks(val: string): string {
    Replace(Replace(val, "%", " "), " ", "")
  }

  /** `parse_value(val)`: the normalised text is a missing-value word, empty,
      or handed to float(); text float() refuses raises ValueError. */
  function ParseValue(val: string): Result<CellValue> {
    var v := Normalise(val);
    if v in MissingValues then Ok(Sentinel(v))
    else if v == "" then Ok(Empty)
    else match ParseFloat(v)
      case Some(f) => Ok(Number(f))
      case None => Err(ValueError(v))
  }

  /** `parse_text(val)`: newlines become spaces, then the text is stripped. */
  function ParseText(val: string): string {
    Strip(Replace(val, "\n", " "))
  }

  /** The regex `\(this, (\d+)` matches at position `p` of `s`. */
  predicate LandstingMatchAt(s: string, p: int) {
    0 <= p && p + 8 <= |s| && s[p..p + 7] == "(this, " && IsDigit(s[p + 7])
  }

  /** The greedy `\d+` run at the start of `t`. */
  function DigitRun(t: string): (r: string)
    ensures AllDigits(r) && |r| <= |t| && r == t[..|r|]
    ensures |r| < |t| ==> !IsDigit(t[|r|])
    decreases |t|
  {
    if |t| > 0 && IsDigit(t[0]) then [t[0]] + DigitRun(t[1..]) else []
  }

  /** `re.search` from position `p` onwards. */
  function SearchLandsting(s: string, p: nat): Option<string>
    decreases |s| - p
  {
    if p + 8 > |s| then None
    else if LandstingMatchAt(s, p) then Some(DigitRun(s[p + 7..]))
    else SearchLandsting(s, p + 1)
  }

  /** `parse_landsting(val)`: the digits after the first `(this, ` that is
      followed by a digit, or `None` when there is no such place. */
  function ParseLandsting(val: string): Option<string> {
    SearchLandsting(val, 0)
  }

  // ------------------------------------------------------- parse_value lemmas

  /** What the normalisation leaves: no percent sign, no space, no comma, and
      no whitespace at either end. */
  lemma NormaliseShape(val: string)
    ensures var v := Normalise(val);
      '%' !in v && ' ' !in v && ',' !in v && Trimmed(v)
  {
    var s1 := Replace(val, "%", " ");
    var s2 := DropBlanks(val);
    var s3 := Replace(s2, ",", ".");
    var s4 := Replace(s3, "st", "");
    ReplaceRemovesChar(val, '%', " ");
    ReplaceKeepsOut(s1, " ", "", '%');
    ReplaceRemovesChar(s1, ' ', "");
    ReplaceKeepsOut(s2, ",", ".", '%');
    ReplaceKeepsOut(s2, ",", ".", ' ');
    ReplaceRemovesChar(s2, ',', ".");
    ReplaceKeepsOut(s3, "st", "", '%');
    ReplaceKeepsOut(s3, "st", "", ' ');
    ReplaceKeepsOut(s3, "st", "", ',');
    StripKeepsOut(s4, '%');
    StripKeepsOut(s4, ' ');
    StripKeepsOut(s4, ',');
    StripShape(s4);
  }

  /** Text only made of spaces and percent signs. */
  predicate Blank(s: string) {
    forall i :: 0 <= i < |s| ==> s[i] == ' ' || s[i] == '%'
  }

  lemma DropBlanksConcat(x: string, y: string)
    ensures DropBlanks(x + y) == DropBlanks(x) + DropBlanks(y)
  {
    ReplaceCharConcat(x, y, '%', " ");
    ReplaceCharConcat(Replace(x, "%", " "), Replace(y, "%", " "), ' ', "");
  }

  lemma DropBlanksClean(x: string)
    requires '%' !in x && ' ' !in x
    ensures DropBlanks(x) == x
  {
    ReplaceAbsent(x, "%", " ");
    ReplaceAbsent(x, " ", "");
  }

  lemma {:induction false} DropBlanksBlank(p: string)
    requires Blank(p)
    ensures DropBlanks(p) == ""
    decreases |p|
  {
    if |p| > 0 {
      assert p == [p[0]] + p[1..];
      DropBlanksConcat([p[0]], p[1..]);
      DropBlanksBlank(p[1..]);
    }
  }

  /** Once the blanks are gone, text without commas, without `s` and with
      non-blank ends is the normalised text. */
  lemma NormaliseAfterBlanks(x: string, t: string)
    requires DropBlanks(x) == t && ',' !in t && 's' !in t && Trimmed(t)
    ensures Normalise(x) == t
  {
    ReplaceAbsent(t, ",", ".");
    ReplaceAbsent(t, "st", "");
    StripTrimmed(t);
  }

  lemma DigitsAreClean(a: string)
    requires AllDigits(a)
    ensures '%' !in a && ' ' !in a && ',' !in a && '.' !in a && 's' !in a
  {
    assert forall c :: c in a ==> IsDigit(c);
  }

  lemma DigitsJoin(a: string, b: string)
    requires AllDigits(a) && AllDigits(b)
    ensures AllDigits(a + b)
  {
    assert forall i :: 0 <= i < |a + b| ==> (a + b)[i] == if i < |a| then a[i] else b[i - |a|];
  }

  lemma DecimalIsNoMissingWord(s: string)
    requires |s| > 0 && IsDigit(s[0])
    ensures s !in MissingValues && s != ""
  {
  }

  /** The canonical text `a.b` normalises to itself. */
  lemma CanonicalDecimal(a: string, b: string)
    requires |a| > 0 && |b| > 0 && AllDigits(a) && AllDigits(b)
    ensures Normalise(a + "." + b) == a + "." + b
  {
    var s := a + "." + b;
    DigitsAreClean(a);
    DigitsAreClean(b);
    assert ',' !in s && 's' !in s && '%' !in s && ' ' !in s;
    assert s[|s| - 1] == b[|b| - 1];
    DropBlanksClean(s);
    NormaliseAfterBlanks(s, s);
  }

  /** `parse_value` is the identity on its own numeric output domain: the
      canonical text `a.b` of a number is read back as float(`a.b`). */
  lemma ParseValueCanonical(a: string, b: string)
    requires |a| > 0 && |b| > 0 && AllDigits(a) && AllDigits(b)
    ensures ParseValue(a + "." + b) == Ok(Number(Finite(Scaled(DigitsValue(a + b), -|b|))))
  {
    CanonicalDecimal(a, b);
    DecimalIsNoMissingWord(a + "." + b);
    DecimalLiteral(a, b);
  }

  lemma CommaToPoint(a: string, b: string)
    requires ',' !in a && ',' !in b
    ensures Replace(a + "," + b, ",", ".") == a + "." + b
  {
    assert a + "," + b == a + ("," + b);
    ReplaceSkipsPrefix(a, "," + b, ",", ".");
    assert ("," + b)[..1] == "," && ("," + b)[1..] == b;
    ReplaceAbsent(b, ",", ".");
    assert Replace("," + b, ",", ".") == "." + b;
    assert a + "." + b == a + ("." + b);
  }

  /** A decimal comma and trailing percent sign: `"12,5%"` is 12.5. */
  lemma ParseValueDecimalComma(a: string, b: string)
    requires |a| > 0 && |b| > 0 && AllDigits(a) && AllDigits(b)
    ensures ParseValue(a + "," + b + "%") == Ok(Number(Finite(Scaled(DigitsValue(a + b), -|b|))))
  {
    NormaliseDecimalComma(a, b);
    DecimalIsNoMissingWord(a + "." + b);
    DecimalLiteral(a, b);
  }

  lemma NormaliseDecimalComma(a: string, b: string)
    requires |a| > 0 && |b| > 0 && AllDigits(a) && AllDigits(b)
    ensures Normalise(a + "," + b + "%") == a + "." + b
  {
    var t := a + "." + b;
    DropPercent(a, b);
    CommaToPoint(a, b);
    DecimalTextClean(a, b);
    ReplaceAbsent(t, "st", "");
    StripTrimmed(t);
  }

  lemma DecimalTextClean(a: string, b: string)
    requires |b| > 0 && AllDigits(a) && AllDigits(b)
    ensures 's' !in a + "." + b && Trimmed(a + "." + b)
  {
    var t := a + "." + b;
    DigitsAreClean(a);
    DigitsAreClean(b);
    assert t[|t| - 1] == b[|b| - 1];
    assert |a| > 0 ==> t[0] == a[0];
  }

  lemma DropPercent(a: string, b: string)
    requires AllDigits(a) && AllDigits(b)
    ensures DropBlanks(a + "," + b + "%") == a + "," + b
  {
    var x := a + "," + b;
    DigitsAreClean(a);
    DigitsAreClean(b);
    DropBlanksConcat(x, "%");
    assert '%' !in x && ' ' !in x;
    DropBlanksClean(x);
    DropBlanksBlank("%");
  }

  lemma DropBlanksJoin(a: string, b: string)
    requires '%' !in a && ' ' !in a && '%' !in b && ' ' !in b
    ensures DropBlanks(a + " " + b) == a + b
  {
    var sb := " " + b;
    assert a + " " + b == a + sb;
    DropBlanksConcat(a, sb);
    DropBlanksConcat(" ", b);
    DropBlanksBlank(" ");
    DropBlanksClean(a);
    DropBlanksClean(b);
    assert DropBlanks(sb) == b;
  }

  /** Thousands separated by a space: `"1 234"` is 1234. */
  lemma ParseValueThousands(a: string, b: string)
    requires |a| > 0 && |b| > 0 && AllDigits(a) && AllDigits(b)
    ensures ParseValue(a + " " + b) == Ok(Number(Finite(DigitsValue(a + b) as real)))
  {
    var ab := a + b;
    DigitsJoin(a, b);
    DigitsAreClean(a);
    DigitsAreClean(b);
    DropBlanksJoin(a, b);
    DigitsAreClean(ab);
    assert ab[|ab| - 1] == b[|b| - 1];
    NormaliseAfterBlanks(a + " " + b, ab);
    DecimalIsNoMissingWord(ab);
    DigitsLiteral(ab);
  }

  /** `"st"` is deleted wherever it occurs, not only as a unit suffix. */
  lemma ParseValueDropsInnerSt(a: string, b: string)
    requires AllDigits(a) && AllDigits(b)
    ensures Normalise(a + "st" + b) == Normalise(a + b)
  {
    var t := a + "st" + b;
    DigitsAreClean(a);
    DigitsAreClean(b);
    DropBlanksConcat(a, "st" + b);
    DropBlanksConcat("st", b);
    DropBlanksClean(a);
    DropBlanksClean(b);
    DropBlanksClean("st");
    assert t == a + ("st" + b);
    assert DropBlanks(t) == t;
    DropBlanksConcat(a, b);
    ReplaceAbsent(t, ",", ".");
    ReplaceAbsent(a + b, ",", ".");
    assert ',' !in a + b;
    ReplaceSkipsPrefix(a, "st" + b, "st", "");
    assert Replace("st" + b, "st", "") == Replace(b, "st", "") by {
      assert ("st" + b)[..2] == "st";
      assert ("st" + b)[2..] == b;
    }
    ReplaceSkipsPrefix(a, b, "st", "");
  }

  /** Text made only of spaces and percent signs is an empty cell. */
  lemma ParseValueBlank(s: string)
    requires Blank(s)
    ensures ParseValue(s) == Ok(Empty)
  {
    DropBlanksBlank(s);
  }

  /** A missing-value word, with spaces or percent signs after it, is
      returned as that word: `"- "` is `"-"`. */
  lemma ParseValueSentinel(w: string, pad: string)
    requires w in MissingValues
    requires Blank(pad)
    ensures ParseValue(w + pad) == Ok(Sentinel(w))
  {
    assert '%' !in w && ' ' !in w && ',' !in w && 's' !in w;
    DropBlanksConcat(w, pad);
    DropBlanksClean(w);
    DropBlanksBlank(pad);
    assert DropBlanks(w + pad) == w;
    NormaliseAfterBlanks(w + pad, w);
  }

  /** Leftover text that is no missing-value word, has no digit and no `n`
      or `N` makes float() raise ValueError. */
  lemma ParseValueRejectsText(val: string)
    requires var v := Normalise(val);
      v != "" && v !in MissingValues
      && forall i :: 0 <= i < |v| ==> !IsDigit(v[i]) && v[i] != 'n' && v[i] != 'N'
    ensures ParseValue(val) == Err(ValueError(Normalise(val)))
  {
    NoDigitsNoFloat(Normalise(val));
  }

  /** `parse_value` raises ValueError, naming the normalised text, exactly
      when that text is neither a missing-value word, nor empty, nor a
      float literal. */
  lemma ParseValueFails(val: string)
    ensures ParseValue(val).Err? <==>
      Normalise(val) != "" && Normalise(val) !in MissingValues && !IsFloatLiteral(Normalise(val))
    ensures ParseValue(val).Err? ==> ParseValue(val).error == ValueError(Normalise(val))
  {
    FloatLiteralSpec(Normalise(val));
  }

  /** Digits alone do not make a number: `"1.2.3"` has two points. */
  lemma ParseValueTwoPoints()
    ensures ParseValue("1.2.3") == Err(ValueError("1.2.3"))
  {
    var s := "1.2.3";
    assert '%' !in s && ' ' !in s && ',' !in s && 's' !in s;
    DropBlanksClean(s);
    NormaliseAfterBlanks(s, s);
    NotFloatTwoPoints();
    ParseValueFails(s);
  }

  lemma NotFloatTwoPoints()
    ensures !IsFloatLiteral("1.2.3")
  {
    var s := "1.2.3";
    LowerAsciiKeepsDigitHead(s);
    NotMantissaTwoPoints();
    assert forall k :: 0 <= k < |s| ==> !IsExponentMark(s[k]);
  }

  lemma NotMantissaTwoPoints()
    ensures !IsMantissa("1.2.3")
  {
    var m := "1.2.3";
    forall d | 0 <= d < |m| && m[d] == '.' ensures !(AllDigits(m[..d]) && AllDigits(m[d + 1..])) {
      if d == 1 {
        assert m[d + 1..][1] == '.';
      } else {
        assert m[..d][1] == '.';
      }
    }
    assert m[1] == '.';
  }

  lemma ParseValueExample1()
    ensures ParseValue("12,5%") == Ok(Number(Finite(12.5)))
  {
    CommaPieces();
    ParseValueDecimalComma("12", "5");
    DigitsOf125();
    ScaledTenth(125);
  }

  lemma CommaPieces()
    ensures "12" + "," + "5" + "%" == "12,5%" && "12" + "5" == "125" && |"5"| == 1
    ensures AllDigits("12") && AllDigits("5")
  {
  }

  lemma DigitsOf125()
    ensures DigitsValue("125") == 125
  {
    assert "125"[..2] == "12" && "12"[..1] == "1" && "1"[..0] == "";
  }

  lemma ScaledTenth(m: nat)
    ensures Scaled(m, -1) == m as real / 10.0
  {
    assert Pow10(1) == 10;
  }

  lemma ParseValueExample2()
    ensures ParseValue("1 234") == Ok(Number(Finite(1234.0)))
  {
    ThousandsPieces();
    ParseValueThousands("1", "234");
    DigitsOf1234();
  }

  lemma ThousandsPieces()
    ensures "1" + " " + "234" == "1 234" && "1" + "234" == "1234"
    ensures AllDigits("1") && AllDigits("234")
  {
  }

  lemma DigitsOf1234()
    ensures DigitsValue("1234") == 1234
  {
    assert "1234"[..3] == "123" && "123"[..2] == "12" && "12"[..1] == "1" && "1"[..0] == "";
  }

  lemma ParseValueExample3()
    ensures ParseValue("- ") == Ok(Sentinel("-"))
    ensures ParseValue("") == Ok(Empty)
  {
    ParseValueSentinel("-", " ");
    assert "-" + " " == "- ";
    ParseValueBlank("");
  }

  // -------------------------------------------------------- parse_text lemmas

  /** `parse_text` leaves no newline and no whitespace at either end, and is
      idempotent. */
  lemma ParseTextShape(val: string)
    ensures '\n' !in ParseText(val) && Trimmed(ParseText(val))
    ensures ParseText(ParseText(val)) == ParseText(val)
  {
    var s := Replace(val, "\n", " ");
    ReplaceRemovesChar(val, '\n', " ");
    StripKeepsOut(s, '\n');
    StripShape(s);
    var t := ParseText(val);
    ReplaceAbsent(t, "\n", " ");
    StripTrimmed(t);
  }

  // --------------------------------------------------- parse_landsting lemmas

  lemma {:induction false} SearchLandstingSpec(s: string, p: nat)
    ensures SearchLandsting(s, p).None? <==> forall q :: p <= q ==> !LandstingMatchAt(s, q)
    ensures SearchLandsting(s, p).Some? ==>
      exists q :: p <= q && LandstingMatchAt(s, q)
        && (forall q' :: p <= q' < q ==> !LandstingMatchAt(s, q'))
        && SearchLandsting(s, p).value == DigitRun(s[q + 7..])
    decreases |s| - p
  {
    if p + 8 > |s| {
    } else if LandstingMatchAt(s, p) {
    } else {
      SearchLandstingSpec(s, p + 1);
      if SearchLandsting(s, p).Some? {
        var q :| p + 1 <= q && LandstingMatchAt(s, q)
          && (forall q' :: p + 1 <= q' < q ==> !LandstingMatchAt(s, q'))
          && SearchLandsting(s, p + 1).value == DigitRun(s[q + 7..]);
        assert forall q' :: p <= q' < q ==> !LandstingMatchAt(s, q');
      } else {
        assert forall q :: p <= q ==> !LandstingMatchAt(s, q);
      }
    }
  }

  /** `parse_landsting` finds the leftmost `(this, ` followed by a digit and
      returns the whole run of digits there (non-empty, greedy); it returns
      `None` exactly when no such place exists. */
  lemma ParseLandstingSpec(s: string)
    ensures ParseLandsting(s).None? <==> forall q :: !LandstingMatchAt(s, q)
    ensures ParseLandsting(s).Some? ==>
      exists q :: LandstingMatchAt(s, q)
        && (forall q' :: q' < q ==> !LandstingMatchAt(s, q'))
        && ParseLandsting(s).value == DigitRun(s[q + 7..])
        && |ParseLandsting(s).value| > 0
  {
    SearchLandstingSpec(s, 0);
  }

  lemma {:induction false} DigitRunOf(d: string, rest: string)
    requires AllDigits(d)
    requires rest == [] || !IsDigit(rest[0])
    ensures DigitRun(d + rest) == d
    decreases |d|
  {
    if |d| > 0 {
      assert (d + rest)[1..] == d[1..] + rest;
      DigitRunOf(d[1..], rest);
    } else {
      assert d + rest == rest;
    }
  }

  /** On the call the tables carry in their `onclick` attribute, a function
      name without `(` followed by `(this, N)`, `parse_landsting` is `N`. */
  lemma ParseLandstingOfCall(name: string, d: string)
    requires '(' !in name && |d| > 0 && AllDigits(d)
    ensures ParseLandsting(name + "(this, " + d + ")") == Some(d)
  {
    var s := name + "(this, " + d + ")";
    var k := |name|;
    CallMatch(name, d);
    ParseLandstingSpec(s);
    var q :| LandstingMatchAt(s, q) && (forall q' :: q' < q ==> !LandstingMatchAt(s, q'))
      && ParseLandsting(s).value == DigitRun(s[q + 7..]);
    assert q == k;
    DigitRunOf(d, ")");
  }

  /** In such a call the first match is right after the name, and the
      digits run to the closing parenthesis. */
  lemma CallMatch(name: string, d: string)
    requires '(' !in name && |d| > 0 && AllDigits(d)
    ensures var s := name + "(this, " + d + ")";
      LandstingMatchAt(s, |name|) && (forall q :: q < |name| ==> !LandstingMatchAt(s, q))
      && s[|name| + 7..] == d + ")"
  {
    var s := name + "(this, " + d + ")";
    var k := |name|;
    assert s[k..k + 7] == "(this, ";
    assert s[k + 7] == d[0];
    forall q | q < k ensures !LandstingMatchAt(s, q) {
      if 0 <= q {
        assert s[q] == name[q];
        assert s[q..q + 7][0] == s[q];
      }
    }
    assert s[k + 7..] == d + ")";
  }

  lemma ParseLandstingExample()
    ensures ParseLandsting("handle_click_event_landsting(this, 1)") == Some("1")
  {
    var name := "handle_click_event_landsting";
    assert '(' !in name;
    ParseLandstingOfCall(name, "1");
    assert name + "(this, " + "1" + ")" == "handle_click_event_landsting(this, 1)";
  }
}
