/** The string handling the robot code relies on: `str.strip()`,
    `str.split(sep)` and `str.split()[-1]`, `str.endswith`, and the parsers
    behind Python's `int(str)` and `float(str)` for plain decimal text. */
module Text {
  import opened Wrappers

  /** Whitespace as `str.strip()` and `str.split()` see it (ASCII and Latin-1 range). */
  predicate IsSpace(c: char) {
    c == ' ' || ('\t' <= c <= '\r') || ('\U{1C}' <= c <= '\U{1F}') || c == '\U{85}' || c == '\U{A0}'
  }

  predicate IsDigit(c: char) {
    '0' <= c <= '9'
  }

  predicate AllDigits(s: string) {
    forall i :: 0 <= i < |s| ==> IsDigit(s[i])
  }

  predicate NoSpace(s: string) {
    forall i :: 0 <= i < |s| ==> !IsSpace(s[i])
  }

  /** `s.endswith(suffix)`. */
  predicate EndsWith(s: string, suffix: string) {
    |suffix| <= |s| && s[|s| - |suffix|..] == suffix
  }

  // ---------------------------------------------------------------------------
  // strip

  /** `s.lstrip()`: the suffix left after dropping leading whitespace. */
  function StripLeft(s: string): (r: string)
    ensures |r| <= |s| && r == s[|s| - |r|..]
    ensures forall i :: 0 <= i < |s| - |r| ==> IsSpace(s[i])
    ensures |r| > 0 ==> !IsSpace(r[0])
  {
    if |s| > 0 && IsSpace(s[0]) then StripLeft(s[1..]) else s
  }

  /** `s.rstrip()`: the prefix left after dropping trailing whitespace. */
  function StripRight(s: string): (r: string)
    ensures |r| <= |s| && r == s[..|r|]
    ensures forall i :: |r| <= i < |s| ==> IsSpace(s[i])
    ensures |r| > 0 ==> !IsSpace(r[|r| - 1])
  {
    if |s| > 0 && IsSpace(s[|s| - 1]) then StripRight(s[..|s| - 1]) else s
  }

  /** `s.strip()`. */
  function Strip(s: string): (r: string)
    ensures |r| <= |s|
    ensures |r| > 0 ==> !IsSpace(r[0]) && !IsSpace(r[|r| - 1])
  {
    StripRight(StripLeft(s))
  }

  /** Text that neither starts nor ends with whitespace is its own strip. */
  lemma StripUnchanged(s: string)
    requires |s| > 0 ==> !IsSpace(s[0]) && !IsSpace(s[|s| - 1])
    ensures Strip(s) == s
  {
  }

  // ---------------------------------------------------------------------------
  // split on one separator character

  /** `s.split(sep)` for a one-character separator: the pieces between separators. */
  function Split(s: string, sep: char): (parts: seq<string>)
    ensures |parts| >= 1
    ensures forall k :: 0 <= k < |parts| ==> sep !in parts[k]
    ensures Join(parts, sep) == s
  {
    if |s| == 0 then [""]
    else
      var rest := Split(s[1..], sep);
      if s[0] == sep then [""] + rest
      else [[s[0]] + rest[0]] + rest[1..]
  }

  /** `sep.join(parts)`. */
  function Join(parts: seq<string>, sep: char): string
    requires |parts| >= 1
  {
    if |parts| == 1 then parts[0] else parts[0] + [sep] + Join(parts[1..], sep)
  }

  /** Splitting a join of separator-free pieces gives the pieces back. */
  lemma {:induction false} SplitJoin(parts: seq<string>, sep: char)
    requires |parts| >= 1
    requires forall k :: 0 <= k < |parts| ==> sep !in parts[k]
    ensures Split(Join(parts, sep), sep) == parts
    decreases |parts|, |parts[0]|
  {
    var p := parts[0];
    if |parts| == 1 {
      SplitNoSep(p, sep);
    } else if |p| == 0 {
      var j := Join(parts[1..], sep);
      assert Join(parts, sep) == [sep] + j;
      SplitJoin(parts[1..], sep);
      assert ([sep] + j)[1..] == j;
    } else {
      var shorter := [p[1..]] + parts[1..];
      assert sep !in p[1..] by {
        forall c | c in p[1..] ensures c != sep { assert c in p; }
      }
      assert forall k :: 0 <= k < |shorter| ==> sep !in shorter[k] by {
        forall k | 0 <= k < |shorter| ensures sep !in shorter[k] {
          if k > 0 { assert shorter[k] == parts[k]; }
        }
      }
      SplitJoin(shorter, sep);
      var s := Join(parts, sep);
      assert shorter[1..] == parts[1..];
      if |parts| == 1 {
      } else {
        assert s == p + [sep] + Join(parts[1..], sep);
        assert Join(shorter, sep) == p[1..] + [sep] + Join(parts[1..], sep);
        assert s[1..] == Join(shorter, sep);
      }
      assert s[0] == p[0] && p[0] != sep;
      var rest := Split(s[1..], sep);
      assert rest == shorter;
      assert [p[0]] + p[1..] == p;
    }
  }

  /** Text without the separator splits into itself. */
  lemma {:induction false} SplitNoSep(s: string, sep: char)
    requires sep !in s
    ensures Split(s, sep) == [s]
  {
    if |s| > 0 {
      assert sep !in s[1..] by {
        forall c | c in s[1..] ensures c != sep { assert c in s; }
      }
      SplitNoSep(s[1..], sep);
      assert [s[0]] + s[1..] == s;
    }
  }

  // ---------------------------------------------------------------------------
  // split on whitespace, last word

  /** The maximal run of non-whitespace characters at the very end of `s`. */
  function TrailingWord(s: string): (w: string)
    ensures |w| <= |s| && w == s[|s| - |w|..]
    ensures NoSpace(w)
    ensures |w| < |s| ==> IsSpace(s[|s| - |w| - 1])
  {
    if |s| > 0 && !IsSpace(s[|s| - 1]) then TrailingWord(s[..|s| - 1]) + [s[|s| - 1]] else ""
  }

  /** `s.split()[-1]`: the last whitespace-separated word, or `None` (an
      `IndexError`) when `s` is blank. */
  function LastWord(s: string): (r: Option<string>)
    ensures r.Some? ==> |r.value| > 0 && NoSpace(r.value)
    ensures r.None? <==> |StripRight(s)| == 0
  {
    var t := StripRight(s);
    if |t| == 0 then None else Some(TrailingWord(t))
  }

  // ---------------------------------------------------------------------------
  // decimal numbers

  function DigitValue(c: char): nat
    requires IsDigit(c)
  {
    (c as int) - ('0' as int)
  }

  function DigitChar(d: nat): (c: char)
    requires d < 10
    ensures IsDigit(c) && DigitValue(c) == d
  {
    ('0' as int + d) as char
  }

  /** The value of a string of decimal digits, most significant first. */
  function DigitsValue(s: string): nat
    requires AllDigits(s)
  {
    if |s| == 0 then 0 else 10 * DigitsValue(s[..|s| - 1]) + DigitValue(s[|s| - 1])
  }

  /** `str(n)` for a natural number. */
  function NatToString(n: nat): (s: string)
    ensures |s| >= 1 && AllDigits(s)
    ensures DigitsValue(s) == n
  {
    if n < 10 then [DigitChar(n)]
    else
      var s := NatToString(n / 10) + [DigitChar(n % 10)];
      assert s[..|s| - 1] == NatToString(n / 10);
      s
  }

  /** `str(n)` for any integer. */
  function IntToString(n: int): string {
    if n < 0 then "-" + NatToString(-n) else NatToString(n)
  }

  /** `int(s)` on a string: optional surrounding whitespace, an optional sign
      and at least one ASCII digit; anything else is a `ValueError` (`None`). */
  function ParseInt(s: string): (r: Option<int>)
    ensures r.Some? ==> |Strip(s)| > 0
  {
    var t := Strip(s);
    if |t| > 1 && (t[0] == '-' || t[0] == '+') && AllDigits(t[1..]) then
      Some(if t[0] == '-' then -(DigitsValue(t[1..]) as int) else DigitsValue(t[1..]) as int)
    else if |t| > 0 && AllDigits(t) then Some(DigitsValue(t))
    else None
  }

  /** `int(str(n)) == n`. */
  lemma ParseIntOfString(n: int)
    ensures ParseInt(IntToString(n)) == Some(n)
  {
    var s := IntToString(n);
    assert |s| > 0 && !IsSpace(s[0]) && !IsSpace(s[|s| - 1]);
    StripUnchanged(s);
    if n < 0 {
      assert s[1..] == NatToString(-n);
    }
  }

  /** The value of `digits` read as the fractional part after a decimal point. */
  function FractionValue(s: string): (r: real)
    requires AllDigits(s)
    ensures 0.0 <= r < 1.0
  {
    if |s| == 0 then 0.0 else (DigitValue(s[0]) as real + FractionValue(s[1..])) / 10.0
  }

  /** The value of `whole.frac`. */
  function DecimalValue(whole: string, frac: string): real
    requires AllDigits(whole) && AllDigits(frac)
  {
    DigitsValue(whole) as real + FractionValue(frac)
  }

  /** Index of the first `'.'` in `s`, or `|s|` when there is none. */
  function DotIndex(s: string): (k: nat)
    ensures k <= |s|
    ensures forall i :: 0 <= i < k ==> s[i] != '.'
    ensures k < |s| ==> s[k] == '.'
  {
    if |s| == 0 || s[0] == '.' then 0 else 1 + DotIndex(s[1..])
  }

  /** Index of the first `'e'` or `'E'` in `s`, or `|s|` when there is none. */
  function ExponentIndex(s: string): (k: nat)
    ensures k <= |s|
    ensures forall i :: 0 <= i < k ==> s[i] != 'e' && s[i] != 'E'
    ensures k < |s| ==> s[k] == 'e' || s[k] == 'E'
  {
    if |s| == 0 || s[0] == 'e' || s[0] == 'E' then 0 else 1 + ExponentIndex(s[1..])
  }

  /** `10 ** e`. */
  function Pow10(e: nat): (p: nat)
    ensures p >= 1
  {
    if e == 0 then 1 else 10 * Pow10(e - 1)
  }

  /** `v` times ten to the power `e`, for either sign of `e`. */
  function Scale(v: real, e: int): (r: real)
    ensures v >= 0.0 ==> r >= 0.0
    ensures e >= 0 ==> r == v * Pow10(e) as real
    ensures e < 0 ==> r == v / Pow10(-e) as real
  {
    if e >= 0 then v * Pow10(e) as real else v / Pow10(-e) as real
  }

  /** The exponent after `e`/`E`: an optional sign and at least one digit,
      nothing else. */
  function ParseExponent(s: string): (r: Option<int>)
    ensures r.Some? ==> |s| > 0
  {
    if |s| > 1 && (s[0] == '-' || s[0] == '+') && AllDigits(s[1..]) then
      Some(if s[0] == '-' then -(DigitsValue(s[1..]) as int) else DigitsValue(s[1..]) as int)
    else if |s| > 0 && AllDigits(s) then Some(DigitsValue(s))
    else None
  }

  /** The mantissa `ddd`, `ddd.`, `.ddd` or `ddd.ddd`, with at least one digit. */
  function ParseMantissa(t: string): (r: Option<real>)
    ensures r.Some? ==> r.value >= 0.0
  {
    var k := DotIndex(t);
    var whole := t[..k];
    var frac := if k < |t| then t[k + 1..] else "";
    if |whole| + |frac| > 0 && AllDigits(whole) && AllDigits(frac) then
      Some(DigitsValue(whole) as real + FractionValue(frac))
    else None
  }

  /** An unsigned decimal: a mantissa, optionally followed by `e` or `E` and
      a signed exponent, read as the mantissa times ten to that power. */
  function ParseUnsignedDecimal(t: string): (r: Option<real>)
    ensures r.Some? ==> r.value >= 0.0
  {
    var k := ExponentIndex(t);
    if k == |t| then ParseMantissa(t)
    else
      match ParseMantissa(t[..k])
      case None => None
      case Some(m) =>
        match ParseExponent(t[k + 1..])
        case None => None
        case Some(e) => Some(Scale(m, e))
  }

  /** `float(s)` for decimal text: optional whitespace and sign around an
      unsigned decimal with an optional exponent; anything else is a
      `ValueError` (`None`). */
  function ParseFloat(s: string): (r: Option<real>)
    ensures r.Some? ==> |Strip(s)| > 0
  {
    var t := Strip(s);
    if |t| > 0 && (t[0] == '-' || t[0] == '+') then
      match ParseUnsignedDecimal(t[1..])
      case Some(v) => Some(if t[0] == '-' then -v else v)
      case None => None
    else ParseUnsignedDecimal(t)
  }

  /** `float(str(n)) == n` for integers written without a decimal point. */
  lemma ParseFloatOfString(n: int)
    ensures ParseFloat(IntToString(n)) == Some(n as real)
  {
    var s := IntToString(n);
    assert |s| > 0 && !IsSpace(s[0]) && !IsSpace(s[|s| - 1]);
    StripUnchanged(s);
    var body := NatToString(if n < 0 then -n else n);
    if n < 0 {
      assert s[1..] == body;
    }
    DigitsReadAsDecimal(body);
  }

  /** A run of digits reads as an unsigned decimal of the same value. */
  lemma DigitsReadAsDecimal(body: string)
    requires |body| > 0 && AllDigits(body)
    ensures ParseUnsignedDecimal(body) == Some(DigitsValue(body) as real)
  {
    MantissaOfDigits(body);
    NoExponentIndex(body);
  }

  lemma {:induction false} NoDotIndex(s: string)
    requires '.' !in s
    ensures DotIndex(s) == |s|
  {
    if |s| > 0 {
      assert '.' !in s[1..] by {
        forall c | c in s[1..] ensures c != '.' { assert c in s; }
      }
      NoDotIndex(s[1..]);
    }
  }

  /** Text without `e` or `E` has no exponent. */
  lemma {:induction false} NoExponentIndex(s: string)
    requires forall i :: 0 <= i < |s| ==> s[i] != 'e' && s[i] != 'E'
    ensures ExponentIndex(s) == |s|
  {
    if |s| > 0 {
      assert forall i :: 0 <= i < |s| - 1 ==> s[1..][i] == s[i + 1];
      NoExponentIndex(s[1..]);
    }
  }

  /** Digits, `e`, and digits read as scientific notation, the digits
      scaled up or (after `e-`) down by that power of ten: `float("15e3")`
      is 15000 and `float("1e-05")` is 0.00001. */
  lemma ScientificNotation(body: string, exp: string)
    requires |body| > 0 && AllDigits(body) && |exp| > 0 && AllDigits(exp)
    ensures ParseFloat(body + "e" + exp) == Some(Scale(DigitsValue(body) as real, DigitsValue(exp)))
    ensures ParseFloat(body + "e-" + exp) == Some(Scale(DigitsValue(body) as real, -(DigitsValue(exp) as int)))
  {
    ExponentTexts(exp);
    Regroup(body, exp);
    UnsignedScientific(body, exp);
    UnsignedScientific(body, "-" + exp);
  }

  /** An exponent of digits, with or without a minus sign. */
  lemma ExponentTexts(exp: string)
    requires |exp| > 0 && AllDigits(exp)
    ensures ParseExponent(exp) == Some(DigitsValue(exp) as int)
    ensures ParseExponent("-" + exp) == Some(-(DigitsValue(exp) as int))
  {
    assert ("-" + exp)[1..] == exp;
  }

  lemma Regroup(body: string, exp: string)
    ensures body + "e" + exp == body + ("e" + exp)
    ensures body + "e-" + exp == body + ("e" + ("-" + exp))
  {
  }

  /** `float` of digits, `e` and an exponent is the scaled digits. */
  lemma UnsignedScientific(body: string, exp: string)
    requires |body| > 0 && AllDigits(body) && ParseExponent(exp).Some?
    ensures ParseFloat(body + ("e" + exp)) == Some(Scale(DigitsValue(body) as real, ParseExponent(exp).value))
  {
    var t := body + ("e" + exp);
    ExponentIndexAfter(body, "e" + exp);
    AroundExponent(body, exp);
    MantissaOfDigits(body);
    assert ParseUnsignedDecimal(t) == Some(Scale(DigitsValue(body) as real, ParseExponent(exp).value));
    assert t[0] == body[0] && t[|t| - 1] == exp[|exp| - 1];
    FloatOfUnsigned(t);
  }

  /** Text that starts with a digit and does not end with whitespace has no
      sign or whitespace to strip: `float` reads it as an unsigned decimal. */
  lemma FloatOfUnsigned(t: string)
    requires |t| > 0 && IsDigit(t[0]) && !IsSpace(t[|t| - 1])
    ensures ParseFloat(t) == ParseUnsignedDecimal(t)
  {
    StripUnchanged(t);
  }

  /** A minus sign in front of an unsigned decimal negates what `float`
      reads: `float("-" + t) == -v`. */
  lemma FloatOfNegated(t: string, v: real)
    requires |t| > 0 && IsDigit(t[0]) && !IsSpace(t[|t| - 1]) && ParseUnsignedDecimal(t) == Some(v)
    ensures ParseFloat("-" + t) == Some(-v)
  {
    var s := "-" + t;
    assert s[|s| - 1] == t[|t| - 1] && s[1..] == t;
    StripUnchanged(s);
  }

  /** Digits, a point and digits read as the whole part plus the fraction:
      `float("0.5")` is 0.5 and `float("3.")` is 3. */
  lemma DecimalNotation(whole: string, frac: string, text: string)
    requires |whole| > 0 && AllDigits(whole) && AllDigits(frac) && text == whole + "." + frac
    ensures ParseFloat(text) == Some(DecimalValue(whole, frac))
  {
    UnsignedDecimalPoint(whole, frac, text);
    DecimalEnds(whole, frac, text);
    FloatOfUnsigned(text);
  }

  /** Digits, a point and digits start with a digit and end without whitespace. */
  lemma DecimalEnds(whole: string, frac: string, t: string)
    requires |whole| > 0 && AllDigits(whole) && AllDigits(frac) && t == whole + "." + frac
    ensures |t| > 0 && IsDigit(t[0]) && !IsSpace(t[|t| - 1])
  {
    assert t[0] == whole[0];
    if |frac| > 0 {
      assert t[|t| - 1] == frac[|frac| - 1];
    }
  }

  /** Digits, a point and digits are an unsigned decimal without exponent. */
  lemma UnsignedDecimalPoint(whole: string, frac: string, t: string)
    requires |whole| > 0 && AllDigits(whole) && AllDigits(frac) && t == whole + "." + frac
    ensures ParseUnsignedDecimal(t) == Some(DecimalValue(whole, frac))
  {
    DecimalHasNoExponent(whole, frac, t);
    MantissaWithPoint(whole, frac, t);
  }

  /** Digits, a point and digits read as a mantissa: whole part plus fraction. */
  lemma MantissaWithPoint(whole: string, frac: string, t: string)
    requires |whole| > 0 && AllDigits(whole) && AllDigits(frac) && t == whole + "." + frac
    ensures ParseMantissa(t) == Some(DigitsValue(whole) as real + FractionValue(frac))
  {
    var k := |whole|;
    assert k == DotIndex(t) && 0 < k < |t| && t[..k] == whole && t[k + 1..] == frac by {
      assert t == whole + ("." + frac);
      DotIndexAfter(whole, "." + frac);
      AroundPoint(whole, frac);
    }
    MantissaAtPoint(t, k);
  }

  /** A mantissa with its point at `k` is the digits before plus the fraction after. */
  lemma MantissaAtPoint(t: string, k: nat)
    requires k == DotIndex(t) && 0 < k < |t| && AllDigits(t[..k]) && AllDigits(t[k + 1..])
    ensures ParseMantissa(t) == Some(DigitsValue(t[..k]) as real + FractionValue(t[k + 1..]))
  {
  }

  /** Digits, a point and digits contain no `e` or `E`, so no exponent. */
  lemma DecimalHasNoExponent(whole: string, frac: string, t: string)
    requires AllDigits(whole) && AllDigits(frac) && t == whole + "." + frac
    ensures ExponentIndex(t) == |t|
  {
    forall i | 0 <= i < |t| ensures t[i] != 'e' && t[i] != 'E' {
      if i < |whole| {
        assert t[i] == whole[i];
      } else if i > |whole| {
        assert t[i] == frac[i - |whole| - 1];
      }
    }
    NoExponentIndex(t);
  }

  /** The text on either side of the point in `whole + "." + frac`. */
  lemma AroundPoint(whole: string, frac: string)
    ensures (whole + ("." + frac))[..|whole|] == whole
    ensures (whole + ("." + frac))[|whole| + 1..] == frac
  {
  }

  /** The first point after a run of digits is the one right after it. */
  lemma {:induction false} DotIndexAfter(whole: string, rest: string)
    requires AllDigits(whole) && |rest| > 0 && rest[0] == '.'
    ensures DotIndex(whole + rest) == |whole|
  {
    if |whole| > 0 {
      assert (whole + rest)[1..] == whole[1..] + rest;
      assert AllDigits(whole[1..]) by {
        forall i | 0 <= i < |whole| - 1 ensures IsDigit(whole[1..][i]) { assert whole[1..][i] == whole[i + 1]; }
      }
      DotIndexAfter(whole[1..], rest);
    }
  }

  /** The text on either side of the `e` in `body + "e" + exp`. */
  lemma AroundExponent(body: string, exp: string)
    ensures (body + ("e" + exp))[..|body|] == body
    ensures (body + ("e" + exp))[|body| + 1..] == exp
  {
  }

  /** A run of digits reads as a mantissa of the same value. */
  lemma MantissaOfDigits(body: string)
    requires |body| > 0 && AllDigits(body)
    ensures ParseMantissa(body) == Some(DigitsValue(body) as real)
  {
    assert '.' !in body by {
      forall i | 0 <= i < |body| ensures body[i] != '.' { assert IsDigit(body[i]); }
    }
    NoDotIndex(body);
    assert body[..|body|] == body;
  }

  /** The first `e` after a run of digits is the one right after it. */
  lemma {:induction false} ExponentIndexAfter(body: string, rest: string)
    requires AllDigits(body) && |rest| > 0 && rest[0] == 'e'
    ensures ExponentIndex(body + rest) == |body|
  {
    if |body| > 0 {
      assert (body + rest)[1..] == body[1..] + rest;
      assert AllDigits(body[1..]) by {
        forall i | 0 <= i < |body| - 1 ensures IsDigit(body[1..][i]) { assert body[1..][i] == body[i + 1]; }
      }
      ExponentIndexAfter(body[1..], rest);
    }
  }
}
