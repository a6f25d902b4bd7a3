/** `to_float` (scrape_cells.py) and the decimal numerals it reads, with numbers as exact `real`s. */
module Numbers {
  import opened Text
  import opened Wrappers

  function DigitValue(c: char): nat
    requires IsDigit(c)
  {
    c as int - '0' as int
  }

  function DigitChar(d: nat): (c: char)
    requires d < 10
    ensures IsDigit(c) && DigitValue(c) == d
  {
    ('0' as int + d) as char
  }

  /** The value of a string of decimal digits, most significant first. */
  function DigitsValue(s: String): nat
    requires AllDigits(s)
  {
    if s == [] then 0 else 10 * DigitsValue(s[..|s| - 1]) + DigitValue(s[|s| - 1])
  }

  lemma DigitsValueAppend(s: String, c: char)
    requires AllDigits(s) && IsDigit(c)
    ensures AllDigits(s + [c]) && DigitsValue(s + [c]) == 10 * DigitsValue(s) + DigitValue(c)
  {
    assert (s + [c])[..|s|] == s;
  }

  function Pow10(n: nat): (r: nat)
    ensures r >= 1
  {
    if n == 0 then 1 else 10 * Pow10(n - 1)
  }

  /** Python's `str(n)` for a natural number: its shortest decimal numeral. */
  function NatToString(n: nat): (r: String)
    ensures |r| >= 1 && AllDigits(r) && DigitsValue(r) == n
    ensures r[0] != '0' || n == 0
    decreases n
  {
    if n < 10 then [DigitChar(n)]
    else
      var prefix := NatToString(n / 10);
      DigitsValueAppend(prefix, DigitChar(n % 10));
      prefix + [DigitChar(n % 10)]
  }

  /** `x` divided by ten `k` times: a digit string of length `k` read as a fraction. */
  function Shift(x: real, k: nat): (r: real)
    ensures x >= 0.0 ==> r >= 0.0
  {
    if k == 0 then x else Shift(x, k - 1) / 10.0
  }

  /** The value of a numeral with integer digits `ip` and fraction digits `fp`. */
  function DecimalValue(ip: String, fp: String): (v: real)
    requires AllDigits(ip) && AllDigits(fp)
    ensures v >= 0.0
  {
    DigitsValue(ip) as real + Shift(DigitsValue(fp) as real, |fp|)
  }

  /**
   * An unsigned decimal literal as Python's `float()` accepts it: digits with
   * at most one '.', and at least one digit (`5`, `5.`, `.5`, `5.25`).
   */
  function ParseUnsigned(s: String): (r: Option<real>)
    ensures r.Some? ==> r.value >= 0.0
  {
    var k := FindChar(s, '.', 0);
    if k == -1 then
      if s != [] && AllDigits(s) then Some(DigitsValue(s) as real) else None
    else
      var ip, fp := s[..k], s[k + 1..];
      if AllDigits(ip) && AllDigits(fp) && |ip| + |fp| > 0 then Some(DecimalValue(ip, fp)) else None
  }

  /** A decimal literal with an optional sign. */
  function ParseDecimal(s: String): Option<real> {
    if s != [] && (s[0] == '+' || s[0] == '-') then
      match ParseUnsigned(s[1..])
      case None => None
      case Some(v) => Some(if s[0] == '-' then -v else v)
    else ParseUnsigned(s)
  }

  /**
   * `to_float`: nothing for a missing or empty value; otherwise the stripped
   * text with every ',' read as '.', parsed as a decimal literal, and nothing
   * when that fails.
   */
  function ToFloat(value: Option<String>): (r: Option<real>)
    ensures value.None? ==> r.None?
    ensures value.Some? && (forall i :: 0 <= i < |value.value| ==> IsSpace(value.value[i])) ==> r.None?
  {
    if value.None? || value.value == [] then None
    else ParseDecimal(ReplaceChar(Strip(value.value), ',', '.'))
  }

  // ---------------------------------------------------------------------------
  // Numerals as the extraction patterns capture them
  // ---------------------------------------------------------------------------

  /** From `i` on, `t` has only digits and '.'. */
  predicate DigitsOrDotsFrom(t: String, i: nat)
    requires i <= |t|
    decreases |t| - i
  {
    i == |t| || ((IsDigit(t[i]) || t[i] == '.') && DigitsOrDotsFrom(t, i + 1))
  }

  predicate NumeralChars(t: String) {
    DigitsOrDotsFrom(t, 0)
  }

  lemma {:induction false} DigitsOrDotsAll(t: String, i: nat)
    requires i <= |t|
    ensures DigitsOrDotsFrom(t, i) <==> forall j :: i <= j < |t| ==> IsDigit(t[j]) || t[j] == '.'
    decreases |t| - i
  {
    if i < |t| {
      DigitsOrDotsAll(t, i + 1);
    }
  }

  /** How many '.' there are in `t` from `i` on. */
  function DotsFrom(t: String, i: nat): nat
    requires i <= |t|
    decreases |t| - i
  {
    if i == |t| then 0 else (if t[i] == '.' then 1 else 0) + DotsFrom(t, i + 1)
  }

  predicate AtMostOneDot(t: String) {
    DotsFrom(t, 0) <= 1
  }

  /** No '.' from `i` on: none counted. */
  lemma {:induction false} DotsNone(t: String, i: nat)
    requires i <= |t| && forall j :: i <= j < |t| ==> t[j] != '.'
    ensures DotsFrom(t, i) == 0
    decreases |t| - i
  {
    if i < |t| {
      DotsNone(t, i + 1);
    }
  }

  /** Exactly one '.' from `i` on, at `m`: one counted. */
  lemma {:induction false} DotsOne(t: String, i: nat, m: nat)
    requires i <= m < |t| && t[m] == '.'
    requires forall j :: i <= j < |t| && j != m ==> t[j] != '.'
    ensures DotsFrom(t, i) == 1
    decreases |t| - i
  {
    if i < m {
      DotsOne(t, i + 1, m);
    } else {
      DotsNone(t, m + 1);
    }
  }

  /** None counted from `i` on: no '.' there. */
  lemma {:induction false} DotsZero(t: String, i: nat)
    requires i <= |t| && DotsFrom(t, i) == 0
    ensures forall j :: i <= j < |t| ==> t[j] != '.'
    decreases |t| - i
  {
    if i < |t| {
      DotsZero(t, i + 1);
    }
  }

  /** With at most one '.' counted from `i` on, a '.' at `k` is the last one. */
  lemma {:induction false} DotIsLast(t: String, i: nat, k: nat)
    requires i <= k < |t| && t[k] == '.' && DotsFrom(t, i) <= 1
    ensures forall j :: k < j < |t| ==> t[j] != '.'
    decreases k - i
  {
    if i < k {
      DotIsLast(t, i + 1, k);
    } else {
      DotsZero(t, k + 1);
    }
  }

  /** What `[0-9]+(?:\.[0-9]+)?` and `\d+\.?\d*` capture: a digit first, then digits and at most one '.'. */
  predicate UnsignedNumeral(t: String) {
    |t| > 0 && IsDigit(t[0]) && NumeralChars(t) && AtMostOneDot(t)
  }

  /** What `-?\d+\.?\d*` captures. */
  predicate SignedNumeral(t: String) {
    UnsignedNumeral(t) || (|t| > 0 && t[0] == '-' && UnsignedNumeral(t[1..]))
  }

  lemma StripNoSpace(s: String)
    requires forall i :: 0 <= i < |s| ==> !IsSpace(s[i])
    ensures Strip(s) == s
  {
  }

  lemma ParseUnsignedNumeral(t: String)
    requires UnsignedNumeral(t)
    ensures ParseUnsigned(t).Some?
  {
    DigitsOrDotsAll(t, 0);
    var k := FindChar(t, '.', 0);
    if k == -1 {
      forall i | 0 <= i < |t| ensures IsDigit(t[i]) {
        assert t[i] != '.';
      }
    } else {
      assert t[k] == '.';
      DotIsLast(t, 0, k);
      var fp := t[k + 1..];
      forall i | 0 <= i < |fp| ensures IsDigit(fp[i]) {
        assert t[k + 1 + i] != '.';
      }
      forall i | 0 <= i < k ensures IsDigit(t[..k][i]) {
        assert t[i] != '.';
      }
    }
  }

  /** A numeral captured by one of the unsigned patterns always parses, to a value that is not negative. */
  lemma {:induction false} ToFloatUnsignedNumeral(t: String)
    requires UnsignedNumeral(t)
    ensures ToFloat(Some(t)).Some? && ToFloat(Some(t)).value >= 0.0
  {
    DigitsOrDotsAll(t, 0);
    StripNoSpace(t);
    assert ReplaceChar(t, ',', '.') == t;
    ParseUnsignedNumeral(t);
  }

  /** Text with neither whitespace nor commas reaches the decimal parser unchanged. */
  lemma ToFloatPlain(s: String)
    requires s != [] && forall i :: 0 <= i < |s| ==> !IsSpace(s[i]) && s[i] != ','
    ensures ToFloat(Some(s)) == ParseDecimal(s)
  {
    StripNoSpace(s);
    assert ReplaceChar(s, ',', '.') == s;
  }

  /** A minus before an unsigned literal, with neither whitespace nor commas, reads as the negated literal. */
  lemma ToFloatMinus(s: String, v: real, w: real)
    requires s != [] && s[0] == '-' && forall i :: 0 <= i < |s| ==> !IsSpace(s[i]) && s[i] != ','
    requires ParseUnsigned(s[1..]) == Some(v) && w == -v
    ensures ToFloat(Some(s)) == Some(w)
  {
    ToFloatPlain(s);
  }

  /** A numeral captured by one of the signed patterns always parses. */
  lemma {:induction false} ToFloatSignedNumeral(t: String)
    requires SignedNumeral(t)
    ensures ToFloat(Some(t)).Some?
  {
    if UnsignedNumeral(t) {
      DigitsOrDotsAll(t, 0);
      ToFloatPlain(t);
      ParseUnsignedNumeral(t);
    } else {
      DigitsOrDotsAll(t[1..], 0);
      assert forall i :: 1 <= i < |t| ==> t[1..][i - 1] == t[i];
      ToFloatPlain(t);
      ParseUnsignedNumeral(t[1..]);
    }
  }

  /** A plain string of digits reads as its value. */
  lemma ParseDecimalOfDigitFirst(s: String)
    requires s != [] && IsDigit(s[0])
    ensures ParseDecimal(s) == ParseUnsigned(s)
  {
  }

  lemma FindNoPoint(s: String)
    requires AllDigits(s)
    ensures FindChar(s, '.', 0) == -1
  {
  }

  lemma ToFloatDigits(s: String)
    requires s != [] && AllDigits(s)
    ensures ToFloat(Some(s)) == Some(DigitsValue(s) as real)
  {
    ToFloatPlain(s);
    ParseDecimalOfDigitFirst(s);
    FindNoPoint(s);
  }

  /** `to_float(str(n)) == n` for every natural number. */
  lemma {:induction false} ToFloatNatRoundTrip(n: nat)
    ensures ToFloat(Some(NatToString(n))) == Some(n as real)
  {
    ToFloatDigits(NatToString(n));
  }

  lemma {:induction false} LStripReplace(s: String, a: char, b: char)
    requires !IsSpace(a) && !IsSpace(b)
    ensures LStrip(ReplaceChar(s, a, b)) == ReplaceChar(LStrip(s), a, b)
  {
    var t := ReplaceChar(s, a, b);
    if s != [] && IsSpace(s[0]) {
      assert IsSpace(t[0]);
      assert t[1..] == ReplaceChar(s[1..], a, b);
      LStripReplace(s[1..], a, b);
      assert LStrip(t) == LStrip(t[1..]);
      assert LStrip(s) == LStrip(s[1..]);
    } else if s != [] {
      assert !IsSpace(t[0]);
    }
  }

  lemma RStripReplace(s: String, a: char, b: char)
    requires !IsSpace(a) && !IsSpace(b)
    ensures RStrip(ReplaceChar(s, a, b)) == ReplaceChar(RStrip(s), a, b)
  {
    if s != [] && IsSpace(s[|s| - 1]) {
      assert ReplaceChar(s, a, b)[..|s| - 1] == ReplaceChar(s[..|s| - 1], a, b);
      RStripReplace(s[..|s| - 1], a, b);
    }
  }

  lemma ReplaceCharTwice(s: String, a: char, b: char)
    ensures ReplaceChar(ReplaceChar(s, a, b), a, b) == ReplaceChar(s, a, b)
  {
  }

  /** Replacing commas by points before calling `to_float` changes nothing: "3,5" and "3.5" read alike. */
  lemma {:induction false} ToFloatCommaIsPoint(s: String)
    ensures ToFloat(Some(ReplaceChar(s, ',', '.'))) == ToFloat(Some(s))
  {
    var t := ReplaceChar(s, ',', '.');
    if s != [] {
      LStripReplace(s, ',', '.');
      RStripReplace(LStrip(s), ',', '.');
      var u := Strip(s);
      assert Strip(t) == ReplaceChar(u, ',', '.');
      ReplaceCharTwice(u, ',', '.');
    }
  }

  lemma FindPointAfterDigits(ip: String, rest: String)
    requires AllDigits(ip)
    ensures FindChar(ip + "." + rest, '.', 0) == |ip|
  {
    var s := ip + "." + rest;
    assert s[|ip|] == '.';
    forall i | 0 <= i < |ip| ensures s[i] != '.' {
      assert s[i] == ip[i];
    }
  }

  /** Digits, a point, then `fp`: the parser reads a decimal exactly when `fp` is all digits. */
  lemma ParseUnsignedPoint(ip: String, fp: String)
    requires ip != [] && AllDigits(ip)
    ensures AllDigits(fp) ==> ParseUnsigned(ip + "." + fp) == Some(DecimalValue(ip, fp))
    ensures !AllDigits(fp) ==> ParseUnsigned(ip + "." + fp).None?
  {
    var s := ip + "." + fp;
    FindPointAfterDigits(ip, fp);
    assert s[..|ip|] == ip && s[|ip| + 1..] == fp;
  }

  /** Digits, a point and digits read as the decimal they spell. */
  lemma ToFloatDecimal(ip: String, fp: String)
    requires ip != [] && AllDigits(ip) && AllDigits(fp)
    ensures ToFloat(Some(ip + "." + fp)) == Some(DecimalValue(ip, fp))
  {
    var s := ip + "." + fp;
    assert forall i :: 0 <= i < |s| ==> IsDigit(s[i]) || s[i] == '.';
    ToFloatPlain(s);
    ParseDecimalOfDigitFirst(s);
    ParseUnsignedPoint(ip, fp);
  }

  lemma ReplaceCommaAfterDigits(ip: String, fp: String)
    requires AllDigits(ip) && forall i :: 0 <= i < |fp| ==> fp[i] != ','
    ensures ReplaceChar(ip + "," + fp, ',', '.') == ip + "." + fp
  {
    var c, s := ip + "," + fp, ip + "." + fp;
    forall i | 0 <= i < |c| ensures ReplaceChar(c, ',', '.')[i] == s[i] {
      if i < |ip| {
        assert c[i] == ip[i] == s[i];
      } else if i > |ip| {
        assert c[i] == fp[i - |ip| - 1] == s[i];
      }
    }
  }

  /** The same with a decimal comma. */
  lemma ToFloatDecimalWithComma(ip: String, fp: String)
    requires ip != [] && AllDigits(ip) && AllDigits(fp)
    ensures ToFloat(Some(ip + "," + fp)) == Some(DecimalValue(ip, fp))
  {
    ReplaceCommaAfterDigits(ip, fp);
    ToFloatCommaIsPoint(ip + "," + fp);
    ToFloatDecimal(ip, fp);
  }

  /** Digits and a point followed by anything that is not all digits read as nothing. */
  lemma ToFloatBadFraction(ip: String, fp: String)
    requires ip != [] && AllDigits(ip) && !AllDigits(fp)
    requires forall i :: 0 <= i < |fp| ==> !IsSpace(fp[i]) && fp[i] != ','
    ensures ToFloat(Some(ip + "." + fp)).None?
  {
    var s := ip + "." + fp;
    assert forall i :: |ip| < i < |s| ==> s[i] == fp[i - |ip| - 1];
    ToFloatPlain(s);
    ParseDecimalOfDigitFirst(s);
    ParseUnsignedPoint(ip, fp);
  }

  lemma StripStripped(s: String)
    requires Stripped(s)
    ensures Strip(s) == s
  {
  }

  /** Surrounding whitespace does not matter to `to_float`. */
  lemma {:induction false} ToFloatIgnoresSurroundingSpace(s: String)
    ensures ToFloat(Some(s)) == ToFloat(Some(Strip(s)))
  {
    var u := Strip(s);
    StripStripped(u);
    if u == [] {
      assert ReplaceChar(u, ',', '.') == [];
      assert FindChar([], '.', 0) == -1;
    }
  }

  /**
   * A thousands separator spoils the number: "1,234.5" becomes "1.234.5",
   * which has two points and reads as nothing.
   */
  lemma ToFloatThousandsSeparator(a: String, b: String, c: String)
    requires a != [] && AllDigits(a) && AllDigits(b) && AllDigits(c)
    ensures ToFloat(Some(a + "," + b + "." + c)).None?
  {
    var fp := b + "." + c;
    assert a + "," + b + "." + c == a + "," + fp;
    assert fp[|b|] == '.';
    assert forall i :: 0 <= i < |fp| ==> IsDigit(fp[i]) || fp[i] == '.';
    ReplaceCommaAfterDigits(a, fp);
    ToFloatCommaIsPoint(a + "," + fp);
    ToFloatBadFraction(a, fp);
  }

  /** A literal without a digit is not a number, whatever its sign and points. */
  lemma ParseUnsignedNoDigit(t: String)
    requires forall i :: 0 <= i < |t| ==> !IsDigit(t[i])
    ensures ParseUnsigned(t).None?
  {
    var k := FindChar(t, '.', 0);
    if k == -1 {
      if t != [] {
        assert !IsDigit(t[0]);
      }
    } else {
      var ip, fp := t[..k], t[k + 1..];
      if ip != [] {
        assert ip[0] == t[0];
      } else if fp != [] {
        assert fp[0] == t[k + 1];
      }
    }
  }

  /** Text without a digit ("abc", "-", "N/A") reads as nothing. */
  lemma ToFloatNoDigit(s: String)
    requires s != [] && forall i :: 0 <= i < |s| ==> !IsSpace(s[i]) && s[i] != ',' && !IsDigit(s[i])
    ensures ToFloat(Some(s)).None?
  {
    ToFloatPlain(s);
    ParseUnsignedNoDigit(s);
    ParseUnsignedNoDigit(s[1..]);
  }
}
