/** Python 2.7 `float(text)` on text that has already been stripped: an
    optional sign followed by a decimal literal, `inf`, `infinity` or `nan`
    (case-insensitive). A decimal literal has digits with an optional
    decimal point (at least one digit in all) and an optional exponent.
    Finite results are the exact decimal value; rounding to binary64 is not
    modelled. */
module PyFloat {
  import opened Results
  import opened PyStr

  datatype Float = Finite(value: real) | Infinity(negative: bool) | NaN

  function DigitValue(c: char): nat
    requires IsDigit(c)
  {
    c as int - '0' as int
  }

  /** The number a run of decimal digits denotes (`int(s)`). */
  function DigitsValue(s: string): nat
    requires AllDigits(s)
    decreases |s|
  {
    if s == [] then 0 else 10 * DigitsValue(s[..|s| - 1]) + DigitValue(s[|s| - 1])
  }

  function Pow10(n: nat): (r: nat)
    ensures r > 0
  {
    if n == 0 then 1 else 10 * Pow10(n - 1)
  }

  /** m * 10^e, exactly. */
  function Scaled(m: nat, e: int): real {
    if e >= 0 then (m * Pow10(e)) as real else m as real / Pow10(-e) as real
  }

  predicate IsExponentMark(c: char) {
    c == 'e' || c == 'E'
  }

  /** The first position whose character satisfies `p`, or `|s|`. */
  function FindFirst(s: string, p: char -> bool): (r: nat)
    ensures r <= |s|
    ensures forall i :: 0 <= i < r ==> !p(s[i])
    ensures r < |s| ==> p(s[r])
    decreases |s|
  {
    if s == [] then 0 else if p(s[0]) then 0 else 1 + FindFirst(s[1..], p)
  }

  function LowerAscii(s: string): string {
    seq(|s|, i requires 0 <= i < |s| => if 'A' <= s[i] <= 'Z' then (s[i] as int + 32) as char else s[i])
  }

  /** The digits of a mantissa `ddd.ddd` and the number of them after the
      point; `None` unless it has at least one digit and at most one point. */
  function ParseMantissa(m: string): Option<(nat, nat)> {
    var d := FindFirst(m, c => c == '.');
    var whole := m[..d];
    var frac := if d < |m| then m[d + 1..] else "";
    if AllDigits(whole) && AllDigits(frac) && |whole| + |frac| > 0 then
      assert AllDigits(whole + frac) by {
        forall i | 0 <= i < |whole + frac| ensures IsDigit((whole + frac)[i]) {
          if i >= |whole| { assert (whole + frac)[i] == frac[i - |whole|]; }
        }
      }
      Some((DigitsValue(whole + frac), |frac|))
    else None
  }

  /** An exponent: an optional sign and at least one digit. */
  function ParseExponent(x: string): Option<int> {
    var negative := |x| > 0 && x[0] == '-';
    var digits := if |x| > 0 && (x[0] == '+' || x[0] == '-') then x[1..] else x;
    if |digits| > 0 && AllDigits(digits) then
      var v: int := DigitsValue(digits);
      Some(if negative then -v else v)
    else None
  }

  function ParseUnsignedDecimal(s: string): Option<real> {
    var k := FindFirst(s, IsExponentMark);
    var (digits, fracLen) :- ParseMantissa(s[..k]);
    var exponent :- if k < |s| then ParseExponent(s[k + 1..]) else Some(0);
    Some(Scaled(digits, exponent - fracLen))
  }

  /** `float(s)`; `None` where Python raises ValueError. */
  function ParseFloat(s: string): Option<Float> {
    var negative := |s| > 0 && s[0] == '-';
    var body := if |s| > 0 && (s[0] == '+' || s[0] == '-') then s[1..] else s;
    var word := LowerAscii(body);
    if word == "inf" || word == "infinity" then Some(Infinity(negative))
    else if word == "nan" then Some(NaN)
    else
      var r :- ParseUnsignedDecimal(body);
      Some(Finite(if negative then -r else r))
  }

  // ---------------------------------------------------------------- lemmas

  lemma LowerAsciiKeepsDigitHead(s: string)
    requires |s| > 0 && (IsDigit(s[0]) || s[0] == '.')
    ensures LowerAscii(s) != "inf" && LowerAscii(s) != "infinity" && LowerAscii(s) != "nan"
  {
    assert LowerAscii(s)[0] == s[0];
  }

  lemma DigitsHaveNoMark(s: string, p: char -> bool)
    requires AllDigits(s)
    requires forall c :: IsDigit(c) ==> !p(c)
    ensures FindFirst(s, p) == |s|
  {
  }

  /** An unsigned run of digits is read as that integer. */
  lemma DigitsLiteral(a: string)
    requires |a| > 0 && AllDigits(a)
    ensures ParseFloat(a) == Some(Finite(DigitsValue(a) as real))
  {
    UnsignedDigits(a);
    FloatOfUnsigned(a);
  }

  lemma UnsignedDigits(a: string)
    requires |a| > 0 && AllDigits(a)
    ensures ParseUnsignedDecimal(a) == Some(DigitsValue(a) as real)
  {
    DigitsHaveNoMark(a, IsExponentMark);
    assert a[..|a|] == a;
    MantissaOfDigits(a);
    assert Scaled(DigitsValue(a), 0) == DigitsValue(a) as real;
  }

  lemma MantissaOfDigits(a: string)
    requires |a| > 0 && AllDigits(a)
    ensures ParseMantissa(a) == Some((DigitsValue(a), 0))
  {
    DigitsHaveNoMark(a, c => c == '.');
    assert a[..|a|] + "" == a;
  }

  lemma MantissaOfDecimal(a: string, b: string)
    requires AllDigits(a) && AllDigits(b) && |a| + |b| > 0
    ensures ParseMantissa(a + "." + b) == Some((DigitsValue(a + b), |b|))
  {
    var s := a + "." + b;
    assert s[|a|] == '.';
    assert forall i :: 0 <= i < |a| ==> s[i] == a[i];
    var d := FindFirst(s, c => c == '.');
    assert d == |a|;
    assert s[..d] == a;
    assert s[d + 1..] == b;
  }

  lemma NoExponentMark(s: string)
    requires forall i :: 0 <= i < |s| ==> IsDigit(s[i]) || s[i] == '.'
    ensures FindFirst(s, IsExponentMark) == |s|
  {
  }

  /** Text starting with a digit or a point has no sign and is no word. */
  lemma FloatOfUnsigned(s: string)
    requires |s| > 0 && (IsDigit(s[0]) || s[0] == '.')
    ensures ParseUnsignedDecimal(s).Some? ==> ParseFloat(s) == Some(Finite(ParseUnsignedDecimal(s).value))
  {
    LowerAsciiKeepsDigitHead(s);
  }

  lemma UnsignedDecimal(a: string, b: string)
    requires AllDigits(a) && AllDigits(b) && |a| + |b| > 0
    ensures ParseUnsignedDecimal(a + "." + b) == Some(Scaled(DigitsValue(a + b), -|b|))
  {
    var s := a + "." + b;
    assert forall i :: 0 <= i < |s| ==> IsDigit(s[i]) || s[i] == '.' by {
      forall i | 0 <= i < |s| ensures IsDigit(s[i]) || s[i] == '.' {
        if i > |a| { assert s[i] == b[i - |a| - 1]; }
      }
    }
    NoExponentMark(s);
    assert s[..|s|] == s;
    MantissaOfDecimal(a, b);
  }

  /** `a.b` with digit runs `a` and `b` (one of them non-empty) is read as
      the digits of `a` and `b` scaled down by `|b|` places. */
  lemma DecimalLiteral(a: string, b: string)
    requires AllDigits(a) && AllDigits(b) && |a| + |b| > 0
    ensures ParseFloat(a + "." + b) == Some(Finite(Scaled(DigitsValue(a + b), -|b|)))
  {
    var s := a + "." + b;
    assert s[0] == if |a| > 0 then a[0] else '.';
    UnsignedDecimal(a, b);
    FloatOfUnsigned(s);
  }

  /** Text with no digit and no `n` or `N` is no number (every word float()
      accepts, `inf`, `infinity` and `nan`, has an `n`). */
  lemma NoDigitsNoFloat(s: string)
    requires forall i :: 0 <= i < |s| ==> !IsDigit(s[i]) && s[i] != 'n' && s[i] != 'N'
    ensures ParseFloat(s) == None
  {
    var body := if |s| > 0 && (s[0] == '+' || s[0] == '-') then s[1..] else s;
    assert forall i :: 0 <= i < |body| ==> !IsDigit(body[i]) && body[i] != 'n' && body[i] != 'N';
    NoNNoWord(body);
    var k := FindFirst(body, IsExponentMark);
    NoDigitsNoMantissa(body[..k]);
  }

  /** Without an `n`, text is none of the words `inf`, `infinity`, `nan`. */
  lemma NoNNoWord(body: string)
    requires forall i :: 0 <= i < |body| ==> body[i] != 'n' && body[i] != 'N'
    ensures var word := LowerAscii(body); word != "inf" && word != "infinity" && word != "nan"
  {
    var word := LowerAscii(body);
    assert forall i :: 0 <= i < |word| ==> word[i] != 'n';
    assert word != "inf" && word != "infinity" by {
      if |word| > 1 { assert word[1] != 'n'; }
    }
    assert word != "nan" by {
      if |word| > 0 { assert word[0] != 'n'; }
    }
  }

  /** A mantissa needs a digit. */
  lemma NoDigitsNoMantissa(m: string)
    requires forall i :: 0 <= i < |m| ==> !IsDigit(m[i])
    ensures ParseMantissa(m) == None
  {
    var d := FindFirst(m, c => c == '.');
    var whole := m[..d];
    var frac := if d < |m| then m[d + 1..] else "";
    if |whole| > 0 {
      assert !IsDigit(whole[0]);
    } else if |frac| > 0 {
      assert frac[0] == m[d + 1];
      assert !IsDigit(frac[0]);
    }
  }

  // ------------------------------------------------------- the grammar

  /** The grammar of the text float() accepts, stated on its own terms. A
      mantissa is digits, or digits with one point, at least one digit in
      all. */
  predicate IsMantissa(m: string) {
    (|m| > 0 && AllDigits(m))
    || exists d :: 0 <= d < |m| && m[d] == '.' && AllDigits(m[..d]) && AllDigits(m[d + 1..]) && |m| > 1
  }

  /** An exponent is digits with an optional sign. */
  predicate IsExponent(x: string) {
    (|x| > 0 && AllDigits(x)) || (|x| > 1 && (x[0] == '+' || x[0] == '-') && AllDigits(x[1..]))
  }

  /** A decimal literal: a mantissa, optionally followed by `e` or `E` and
      an exponent. */
  predicate IsDecimal(b: string) {
    IsMantissa(b) || exists k :: 0 <= k < |b| && IsExponentMark(b[k]) && IsMantissa(b[..k]) && IsExponent(b[k + 1..])
  }

  /** An optional sign, then `inf`, `infinity` or `nan` in any case, or a
      decimal literal. */
  predicate IsFloatLiteral(s: string) {
    var body := if |s| > 0 && (s[0] == '+' || s[0] == '-') then s[1..] else s;
    LowerAscii(body) in {"inf", "infinity", "nan"} || IsDecimal(body)
  }

  /** `float` accepts exactly the text of the grammar. */
  lemma FloatLiteralSpec(s: string)
    ensures ParseFloat(s).Some? <==> IsFloatLiteral(s)
  {
    var body := if |s| > 0 && (s[0] == '+' || s[0] == '-') then s[1..] else s;
    DecimalSpec(body);
  }

  lemma DecimalSpec(b: string)
    ensures ParseUnsignedDecimal(b).Some? <==> IsDecimal(b)
  {
    if ParseUnsignedDecimal(b).Some? {
      DecimalSound(b);
    }
    if IsDecimal(b) {
      DecimalComplete(b);
    }
  }

  lemma DecimalSound(b: string)
    requires ParseUnsignedDecimal(b).Some?
    ensures IsDecimal(b)
  {
    var k := FindFirst(b, IsExponentMark);
    assert ParseMantissa(b[..k]).Some?;
    MantissaSpec(b[..k]);
    if k == |b| {
      assert b[..k] == b;
    } else {
      assert ParseExponent(b[k + 1..]).Some?;
      ExponentSpec(b[k + 1..]);
      assert IsExponentMark(b[k]) && IsMantissa(b[..k]) && IsExponent(b[k + 1..]);
    }
  }

  lemma DecimalComplete(b: string)
    requires IsDecimal(b)
    ensures ParseUnsignedDecimal(b).Some?
  {
    var k := FindFirst(b, IsExponentMark);
    if IsMantissa(b) {
      MantissaHasNoMark(b);
      assert k == |b| && b[..k] == b;
      MantissaSpec(b);
    } else {
      var k0 :| 0 <= k0 < |b| && IsExponentMark(b[k0]) && IsMantissa(b[..k0]) && IsExponent(b[k0 + 1..]);
      MantissaHasNoMark(b[..k0]);
      assert forall i :: 0 <= i < k0 ==> b[i] == b[..k0][i];
      assert k == k0;
      MantissaSpec(b[..k]);
      ExponentSpec(b[k + 1..]);
    }
  }

  /** A mantissa has no exponent mark. */
  lemma MantissaHasNoMark(m: string)
    requires IsMantissa(m)
    ensures forall i :: 0 <= i < |m| ==> !IsExponentMark(m[i])
  {
    if !(|m| > 0 && AllDigits(m)) {
      var d :| 0 <= d < |m| && m[d] == '.' && AllDigits(m[..d]) && AllDigits(m[d + 1..]) && |m| > 1;
      forall i | 0 <= i < |m| ensures !IsExponentMark(m[i]) {
        if i < d {
          assert m[i] == m[..d][i];
        } else if i > d {
          assert m[i] == m[d + 1..][i - d - 1];
        }
      }
    }
  }

  lemma MantissaSpec(m: string)
    ensures ParseMantissa(m).Some? <==> IsMantissa(m)
  {
    var d := FindFirst(m, c => c == '.');
    if |m| > 0 && AllDigits(m) {
      DigitsHaveNoMark(m, c => c == '.');
      assert m[..d] == m;
    } else if IsMantissa(m) {
      var d0 :| 0 <= d0 < |m| && m[d0] == '.' && AllDigits(m[..d0]) && AllDigits(m[d0 + 1..]) && |m| > 1;
      assert forall i :: 0 <= i < d0 ==> m[i] == m[..d0][i];
      assert d == d0;
    }
  }

  lemma ExponentSpec(x: string)
    ensures ParseExponent(x).Some? <==> IsExponent(x)
  {
  }
}
