/**
 * The values the field parsers of scrape_cells.py read from text written
 * the way a cell page writes it. Each lemma takes a text apart into the
 * pieces its pattern matches (label, whitespace, numeral, unit, ...) and
 * states the value the parser returns: the quantity after its stem, the
 * four numbers of the current line, the dimensions, the weight and the
 * model version.
 */
module Layouts {
  import opened Text
  import opened Wrappers
  import opened Numbers
  import opened Patterns
  import opened Extract

  // ---------------------------------------------------------------------------
  // Numerals as written
  // ---------------------------------------------------------------------------

  /** The integer and fraction digits of a numeral: at least one integer digit. */
  predicate DigitParts(ip: String, fp: String) {
    ip != [] && AllDigits(ip) && AllDigits(fp)
  }

  /** `ip`, or `ip.fp` when there are fraction digits: what `[0-9]+(?:\.[0-9]+)?` captures. */
  function Numeral(ip: String, fp: String): String {
    if fp == [] then ip else ip + "." + fp
  }

  /** A numeral with an optional leading minus, as `-?\d+\.?\d*` captures it. */
  function SignedText(neg: bool, ip: String, fp: String): String {
    if neg then "-" + Numeral(ip, fp) else Numeral(ip, fp)
  }

  /** The value of a signed numeral. */
  function SignedValue(neg: bool, ip: String, fp: String): real
    requires DigitParts(ip, fp)
  {
    if neg then -DecimalValue(ip, fp) else DecimalValue(ip, fp)
  }

  /** What may follow a numeral without extending it: nothing, or neither a digit nor a '.'. */
  predicate EndsNumeral(rest: String) {
    rest == [] || (!IsDigit(rest[0]) && rest[0] != '.')
  }

  /** A unit starts with neither whitespace nor anything a numeral could go on with. */
  predicate UnitHead(unit: String) {
    unit != [] && !IsSpace(unit[0]) && !IsDigit(unit[0]) && unit[0] != '.'
  }

  /** Whitespace and a unit end the numeral before them. */
  lemma UnitEndsNumeral(s: String, unit: String, post: String)
    requires AllInClass(s, Spaces) && UnitHead(unit)
    ensures EndsNumeral(s + (unit + post))
  {
    if s == [] {
      assert (s + (unit + post))[0] == unit[0];
    } else {
      assert (s + (unit + post))[0] == s[0];
    }
  }

  /** A written numeral reads as the value of its digits. */
  lemma NumeralValue(ip: String, fp: String)
    requires DigitParts(ip, fp)
    ensures ParseUnsigned(Numeral(ip, fp)) == Some(DecimalValue(ip, fp))
  {
    if fp == [] {
      FindNoPoint(ip);
    } else {
      ParseUnsignedPoint(ip, fp);
    }
  }

  /** A written numeral is digits and points only, and starts with a digit. */
  lemma NumeralIsPlain(ip: String, fp: String)
    requires DigitParts(ip, fp)
    ensures Numeral(ip, fp) != [] && IsDigit(Numeral(ip, fp)[0])
    ensures forall i :: 0 <= i < |Numeral(ip, fp)| ==> IsDigit(Numeral(ip, fp)[i]) || Numeral(ip, fp)[i] == '.'
  {
    var n := Numeral(ip, fp);
    if fp != [] {
      forall i | 0 <= i < |n| ensures IsDigit(n[i]) || n[i] == '.' {
        if i < |ip| {
          assert n[i] == ip[i];
        } else if i > |ip| {
          assert n[i] == fp[i - |ip| - 1];
        }
      }
    }
  }

  /** `to_float` of a written numeral is its value. */
  lemma NumeralToFloat(ip: String, fp: String)
    requires DigitParts(ip, fp)
    ensures ToFloat(Some(Numeral(ip, fp))) == Some(DecimalValue(ip, fp))
  {
    NumeralIsPlain(ip, fp);
    ToFloatPlain(Numeral(ip, fp));
    ParseDecimalOfDigitFirst(Numeral(ip, fp));
    NumeralValue(ip, fp);
  }

  /** A written numeral is digits and points only, as the recursive character check states it. */
  lemma NumeralHasNumeralChars(ip: String, fp: String)
    requires DigitParts(ip, fp)
    ensures NumeralChars(Numeral(ip, fp))
  {
    NumeralIsPlain(ip, fp);
    DigitsOrDotsAll(Numeral(ip, fp), 0);
  }

  /** `to_float` of a minus before digits and points is the negated literal `w`. */
  lemma ToFloatNegative(s: String, n: String, v: real, w: real)
    requires s == "-" + n && NumeralChars(n) && ParseUnsigned(n) == Some(v) && w == -v
    ensures ToFloat(Some(s)) == Some(w)
  {
    DigitsOrDotsAll(n, 0);
    MinusIsPlain(n);
    assert s[1..] == n;
    ToFloatMinus(s, v, w);
  }

  /** A minus before digits and points has neither whitespace nor commas. */
  lemma MinusIsPlain(n: String)
    requires forall i :: 0 <= i < |n| ==> IsDigit(n[i]) || n[i] == '.'
    ensures forall i :: 0 <= i < |"-" + n| ==> !IsSpace(("-" + n)[i]) && ("-" + n)[i] != ','
  {
    forall i | 0 <= i < |"-" + n| ensures !IsSpace(("-" + n)[i]) && ("-" + n)[i] != ',' {
      if i > 0 {
        assert ("-" + n)[i] == n[i - 1];
      }
    }
  }

  /** When digits and points read as `v`, a minus before them reads as `w`, the negation of `v`. */
  lemma ToFloatNegate(s: String, n: String, v: real, w: real)
    requires s == "-" + n && n != [] && IsDigit(n[0]) && NumeralChars(n) && ToFloat(Some(n)) == Some(v) && w == -v
    ensures ToFloat(Some(s)) == Some(w)
  {
    DigitsOrDotsAll(n, 0);
    ToFloatPlain(n);
    ParseDecimalOfDigitFirst(n);
    ToFloatNegative(s, n, v, w);
  }

  /** The same for a written numeral, whatever value it reads as. */
  lemma NegativeOfNumeral(s: String, ip: String, fp: String, v: real, w: real)
    requires DigitParts(ip, fp) && s == "-" + Numeral(ip, fp) && ToFloat(Some(Numeral(ip, fp))) == Some(v) && w == -v
    ensures ToFloat(Some(s)) == Some(w)
  {
    NumeralIsPlain(ip, fp);
    NumeralHasNumeralChars(ip, fp);
    ToFloatNegate(s, Numeral(ip, fp), v, w);
  }

  /**
   * `to_float` of a minus and a written numeral is the negated value of its
   * digits. The text and both values are parameters down this chain, so that
   * each lemma hands on the very `to_float` fact it was given and the
   * negation is worked out only where `to_float` is unfolded.
   */
  lemma NegativeNumeralToFloat(s: String, ip: String, fp: String, v: real, w: real)
    requires DigitParts(ip, fp) && s == "-" + Numeral(ip, fp) && v == DecimalValue(ip, fp) && w == -v
    ensures ToFloat(Some(s)) == Some(w)
  {
    NumeralToFloat(ip, fp);
    NegativeOfNumeral(s, ip, fp, v, w);
  }

  lemma NegativeSignedToFloat(s: String, ip: String, fp: String, w: real)
    requires DigitParts(ip, fp) && s == SignedText(true, ip, fp) && w == SignedValue(true, ip, fp)
    ensures ToFloat(Some(s)) == Some(w)
  {
    NegativeNumeralToFloat(s, ip, fp, -w, w);
  }

  /** `to_float` of a written numeral with a minus is its signed value. */
  lemma NegativeToFloat(ip: String, fp: String)
    requires DigitParts(ip, fp)
    ensures ToFloat(Some(SignedText(true, ip, fp))) == Some(SignedValue(true, ip, fp))
  {
    NegativeSignedToFloat(SignedText(true, ip, fp), ip, fp, SignedValue(true, ip, fp));
  }

  /** `to_float` of a written numeral without a minus is its value. */
  lemma PositiveToFloat(ip: String, fp: String)
    requires DigitParts(ip, fp)
    ensures ToFloat(Some(SignedText(false, ip, fp))) == Some(SignedValue(false, ip, fp))
  {
    NumeralToFloat(ip, fp);
  }

  /** `to_float` of a written signed numeral is its value. */
  lemma SignedTextValue(neg: bool, ip: String, fp: String)
    requires DigitParts(ip, fp)
    ensures ToFloat(Some(SignedText(neg, ip, fp))) == Some(SignedValue(neg, ip, fp))
  {
    if neg {
      NegativeToFloat(ip, fp);
    } else {
      PositiveToFloat(ip, fp);
    }
  }

  /** A written signed numeral starts with a minus or a digit. */
  lemma SignedHead(neg: bool, ip: String, fp: String)
    requires DigitParts(ip, fp)
    ensures SignedText(neg, ip, fp) != []
    ensures var c := SignedText(neg, ip, fp)[0]; c == '-' || '0' <= c <= '9'
  {
    NumeralIsPlain(ip, fp);
  }

  // ---------------------------------------------------------------------------
  // One piece at a time: each lemma reads one piece from `i` and returns where
  // it ends, with what is left of the text from there
  // ---------------------------------------------------------------------------

  lemma HeadOfAppend(y: String, z: String)
    requires y != []
    ensures (y + z)[0] == y[0]
  {
  }

  lemma HeadOfEither(y: String, z: String)
    requires y + z != []
    ensures (y + z)[0] == if y == [] then z[0] else y[0]
  {
  }

  /** The character at `i` is the first of what is left from `i`. */
  lemma HeadOf(text: String, i: nat, y: String)
    requires i <= |text| && From(text, i) == y && y != []
    ensures i < |text| && text[i] == y[0]
  {
    FromIsSlice(text, i);
    assert text[i..][0] == y[0];
  }

  /** A piece `y` at `p`, and what follows it. */
  lemma SplitFrom(text: String, p: nat, y: String, z: String)
    requires p <= |text| && From(text, p) == y + z
    ensures p + |y| <= |text| && OccursAt(text, y, p) && From(text, p + |y|) == z
  {
    FromIsSlice(text, p);
    SplitAt(text, p, y, z);
    FromIsSlice(text, p + |y|);
  }

  /** A piece is the text between where it starts and where what follows it starts. */
  lemma PrefixOf(text: String, i: nat, e: nat, y: String, z: String)
    requires i <= e <= |text| && From(text, i) == y + z && From(text, e) == z
    ensures text[i..e] == y
  {
    FromIsSlice(text, i);
    FromIsSlice(text, e);
    assert e - i == |y|;
    assert text[i..e] == text[i..][..|y|];
  }

  /** A run of class `k` not followed by class `k` is what a greedy `k*` consumes. */
  lemma RunOf(text: String, i: nat, run: String, rest: String, k: CharClass) returns (e: nat)
    requires i <= |text| && From(text, i) == run + rest
    requires AllInClass(run, k) && (rest == [] || !InClass(rest[0], k))
    ensures i <= e <= |text| && RunEnd(text, i, k) == e && From(text, e) == rest
  {
    FromIsSlice(text, i);
    SplitAt(text, i, run, rest);
    e := i + |run|;
    FromIsSlice(text, e);
    if rest != [] {
      HeadOf(text, e, rest);
    }
    RunEndOfSlice(text, i, e, k);
  }

  /** `\s*lit` over whitespace and then `lit`. */
  lemma SpacedLiteralOf(text: String, i: nat, s: String, lit: String, rest: String) returns (e: nat)
    requires i <= |text| && From(text, i) == s + (lit + rest)
    requires AllInClass(s, Spaces) && lit != [] && !IsSpace(lit[0])
    ensures i <= e <= |text| && SpacedLiteral(text, i, lit) == Some(e) && From(text, e) == rest
  {
    HeadOfAppend(lit, rest);
    var j := RunOf(text, i, s, lit + rest, Spaces);
    SplitFrom(text, j, lit, rest);
    e := j + |lit|;
  }

  /** `[0-9]+` over digits that a non-digit (or the end) follows. */
  lemma DigitRunOf(text: String, i: nat, ds: String, rest: String) returns (e: nat)
    requires i <= |text| && From(text, i) == ds + rest && ds != [] && AllDigits(ds)
    requires rest == [] || !IsDigit(rest[0])
    ensures i < e <= |text| && IsDigit(text[i]) && RunEnd(text, i, Digits) == e && From(text, e) == rest
    ensures rest != [] ==> text[e] == rest[0]
  {
    HeadOfAppend(ds, rest);
    HeadOf(text, i, ds + rest);
    assert AllInClass(ds, Digits);
    e := RunOf(text, i, ds, rest, Digits);
    if rest != [] {
      HeadOf(text, e, rest);
    }
  }

  /** A point and the fraction digits after the integer digits. */
  lemma FractionOf(text: String, d: nat, fp: String, rest: String) returns (e: nat)
    requires d <= |text| && From(text, d) == "." + (fp + rest) && fp != [] && AllDigits(fp) && EndsNumeral(rest)
    ensures d + 1 < e <= |text| && text[d] == '.' && IsDigit(text[d + 1])
    ensures RunEnd(text, d + 1, Digits) == e && From(text, e) == rest
  {
    HeadOfAppend(".", fp + rest);
    HeadOf(text, d, "." + (fp + rest));
    SplitFrom(text, d, ".", fp + rest);
    e := DigitRunOf(text, d + 1, fp, rest);
  }

  /** `[0-9]+(?:\.[0-9]+)?` over digits alone. */
  lemma UnsignedIntegerOf(text: String, i: nat, ip: String, rest: String) returns (e: nat)
    requires i <= |text| && From(text, i) == ip + rest && ip != [] && AllDigits(ip) && EndsNumeral(rest)
    ensures i < e <= |text| && UnsignedEnd(text, i) == Some(e) && From(text, e) == rest
  {
    e := DigitRunOf(text, i, ip, rest);
  }

  /** `[0-9]+(?:\.[0-9]+)?` over digits, a point and digits. */
  lemma UnsignedFractionOf(text: String, i: nat, ip: String, fp: String, rest: String) returns (e: nat)
    requires i <= |text| && From(text, i) == ip + ("." + (fp + rest))
    requires ip != [] && AllDigits(ip) && fp != [] && AllDigits(fp) && EndsNumeral(rest)
    ensures i < e <= |text| && UnsignedEnd(text, i) == Some(e) && From(text, e) == rest
  {
    var d := DigitRunOf(text, i, ip, "." + (fp + rest));
    e := FractionOf(text, d, fp, rest);
  }

  /** `[0-9]+(?:\.[0-9]+)?` over a written numeral. */
  lemma UnsignedOf(text: String, i: nat, ip: String, fp: String, rest: String) returns (e: nat)
    requires i <= |text| && From(text, i) == Numeral(ip, fp) + rest
    requires DigitParts(ip, fp) && EndsNumeral(rest)
    ensures i < e <= |text| && UnsignedEnd(text, i) == Some(e) && From(text, e) == rest
  {
    if fp == [] {
      e := UnsignedIntegerOf(text, i, ip, rest);
    } else {
      assert Numeral(ip, fp) + rest == ip + ("." + (fp + rest));
      e := UnsignedFractionOf(text, i, ip, fp, rest);
    }
  }

  /** `-?\d+\.?\d*` from `i`, whose digits start at `q`: digits alone. */
  lemma SignedIntegerOf(text: String, i: nat, q: nat, ip: String, rest: String) returns (e: nat)
    requires i <= q <= i + 1 && q <= |text| && (q == i + 1 ==> text[i] == '-')
    requires From(text, q) == ip + rest && ip != [] && AllDigits(ip) && EndsNumeral(rest)
    ensures i < e <= |text| && SignedEnd(text, i) == Some(e) && From(text, e) == rest
  {
    e := DigitRunOf(text, q, ip, rest);
    assert (if i < |text| && text[i] == '-' then i + 1 else i) == q;
  }

  /** `-?\d+\.?\d*` from `i`, whose digits start at `q`: digits, a point and digits. */
  lemma SignedFractionOf(text: String, i: nat, q: nat, ip: String, fp: String, rest: String) returns (e: nat)
    requires i <= q <= i + 1 && q <= |text| && (q == i + 1 ==> text[i] == '-')
    requires From(text, q) == ip + ("." + (fp + rest))
    requires ip != [] && AllDigits(ip) && fp != [] && AllDigits(fp) && EndsNumeral(rest)
    ensures i < e <= |text| && SignedEnd(text, i) == Some(e) && From(text, e) == rest
  {
    var d := DigitRunOf(text, q, ip, "." + (fp + rest));
    e := FractionOf(text, d, fp, rest);
    assert (if i < |text| && text[i] == '-' then i + 1 else i) == q;
  }

  /** `-?\d+\.?\d*` from `i` over a written numeral whose digits start at `q`. */
  lemma DigitsFrom(text: String, i: nat, q: nat, ip: String, fp: String, rest: String) returns (e: nat)
    requires i <= q <= i + 1 && q <= |text| && (q == i + 1 ==> text[i] == '-')
    requires From(text, q) == Numeral(ip, fp) + rest && DigitParts(ip, fp) && EndsNumeral(rest)
    ensures i < e <= |text| && SignedEnd(text, i) == Some(e) && From(text, e) == rest
  {
    if fp == [] {
      e := SignedIntegerOf(text, i, q, ip, rest);
    } else {
      assert Numeral(ip, fp) + rest == ip + ("." + (fp + rest));
      e := SignedFractionOf(text, i, q, ip, fp, rest);
    }
  }

  /** `-?\d+\.?\d*` over a written signed numeral. */
  lemma SignedOf(text: String, i: nat, neg: bool, ip: String, fp: String, rest: String) returns (e: nat)
    requires i <= |text| && From(text, i) == SignedText(neg, ip, fp) + rest
    requires DigitParts(ip, fp) && EndsNumeral(rest)
    ensures i < e <= |text| && SignedEnd(text, i) == Some(e) && From(text, e) == rest
  {
    var n := Numeral(ip, fp);
    if neg {
      assert ("-" + n) + rest == "-" + (n + rest);
      HeadOfAppend("-", n + rest);
      HeadOf(text, i, "-" + (n + rest));
      SplitFrom(text, i, "-", n + rest);
      e := DigitsFrom(text, i, i + 1, ip, fp, rest);
    } else {
      e := DigitsFrom(text, i, i, ip, fp, rest);
    }
  }

  /** Whitespace, a run of dots and whitespace before a written signed numeral. */
  predicate SeparatorParts(s3: String, sep: String, s4: String, ip: String, fp: String, rest: String) {
    AllInClass(s3, Spaces) && AllInClass(s4, Spaces) && sep != [] && AllInClass(sep, Ellipsis)
    && DigitParts(ip, fp) && EndsNumeral(rest)
  }

  /** `\s*[.…]+\s*` over whitespace, dots and whitespace: where the numeral starts. */
  lemma SeparatorRuns(text: String, i: nat, s3: String, sep: String, s4: String,
                      neg: bool, ip: String, fp: String, rest: String) returns (c: nat, d: nat, t: nat)
    requires i <= |text| && From(text, i) == s3 + (sep + (s4 + (SignedText(neg, ip, fp) + rest)))
    requires SeparatorParts(s3, sep, s4, ip, fp, rest)
    ensures RunEnd(text, i, Spaces) == c && c < d && RunEnd(text, c, Ellipsis) == d
    ensures t <= |text| && RunEnd(text, d, Spaces) == t && From(text, t) == SignedText(neg, ip, fp) + rest
  {
    var b := SignedText(neg, ip, fp);
    var tail := s4 + (b + rest);
    SignedHead(neg, ip, fp);
    HeadOfAppend(b, rest);
    HeadOfAppend(sep, tail);
    assert InClass(sep[0], Ellipsis);
    c := RunOf(text, i, s3, sep + tail, Spaces);
    HeadOfEither(s4, b + rest);
    assert s4 != [] ==> InClass(s4[0], Spaces);
    d := RunOf(text, c, sep, tail, Ellipsis);
    t := RunOf(text, d, s4, b + rest, Spaces);
  }

  /** `\s*[.…]+\s*(-?\d+\.?\d*)`: the separator of a range and its second numeral. */
  lemma SeparatorOf(text: String, i: nat, s3: String, sep: String, s4: String,
                    neg: bool, ip: String, fp: String, rest: String) returns (g: Span)
    requires i <= |text| && From(text, i) == s3 + (sep + (s4 + (SignedText(neg, ip, fp) + rest)))
    requires SeparatorParts(s3, sep, s4, ip, fp, rest)
    ensures SeparatorThenSigned(text, i) == Some(g) && g.start <= g.end <= |text|
    ensures text[g.start..g.end] == SignedText(neg, ip, fp) && From(text, g.end) == rest
  {
    var c, d, t := SeparatorRuns(text, i, s3, sep, s4, neg, ip, fp, rest);
    var e := SignedOf(text, t, neg, ip, fp, rest);
    PrefixOf(text, t, e, SignedText(neg, ip, fp), rest);
    g := Span(t, e);
  }

  // ---------------------------------------------------------------------------
  // parse_first_float with a quantity pattern
  // ---------------------------------------------------------------------------

  /** `\s*([0-9]+(?:\.[0-9]+)?)\s*unit` over whitespace, a numeral, whitespace and the unit. */
  lemma NumeralUnitOf(text: String, j: nat, s1: String, ip: String, fp: String, s2: String, unit: String,
                      post: String) returns (g: Span)
    requires j <= |text| && From(text, j) == s1 + (Numeral(ip, fp) + (s2 + (unit + post)))
    requires DigitParts(ip, fp) && AllInClass(s1, Spaces) && AllInClass(s2, Spaces)
    requires UnitHead(unit)
    ensures NumeralUnitAt(text, j, unit) == Some(g) && g.start <= g.end <= |text|
    ensures text[g.start..g.end] == Numeral(ip, fp)
  {
    var n := Numeral(ip, fp);
    NumeralIsPlain(ip, fp);
    HeadOfAppend(n, s2 + (unit + post));
    var a := RunOf(text, j, s1, n + (s2 + (unit + post)), Spaces);
    HeadOfEither(s2, unit + post);
    HeadOfAppend(unit, post);
    var e := UnsignedOf(text, a, ip, fp, s2 + (unit + post));
    var u := SpacedLiteralOf(text, e, s2, unit, post);
    PrefixOf(text, a, e, n, s2 + (unit + post));
    g := Span(a, e);
  }

  /** The characters `\w` matches are not whitespace. */
  lemma SpaceIsNoWordChar(c: char)
    requires IsSpace(c)
    ensures !IsWordChar(c)
  {
  }

  /** `\w*\s*([0-9]+(?:\.[0-9]+)?)\s*unit` over word characters, whitespace, a numeral, whitespace and the unit. */
  lemma WordTailOf(text: String, q: nat, tail: String, s1: String, ip: String, fp: String, s2: String, unit: String,
                   post: String) returns (w: nat, g: Span)
    requires q <= |text| && From(text, q) == tail + (s1 + (Numeral(ip, fp) + (s2 + (unit + post))))
    requires DigitParts(ip, fp) && AllInClass(tail, WordChars) && AllInClass(s1, Spaces) && AllInClass(s2, Spaces)
    requires s1 != [] && UnitHead(unit)
    ensures q <= w <= |text| && RunEnd(text, q, WordChars) == w && NumeralUnitAt(text, w, unit) == Some(g)
    ensures g.start <= g.end <= |text| && text[g.start..g.end] == Numeral(ip, fp)
  {
    var afterTail := s1 + (Numeral(ip, fp) + (s2 + (unit + post)));
    HeadOfAppend(s1, Numeral(ip, fp) + (s2 + (unit + post)));
    SpaceIsNoWordChar(s1[0]);
    w := RunOf(text, q, tail, afterTail, WordChars);
    g := NumeralUnitOf(text, w, s1, ip, fp, s2, unit, post);
  }

  /** `stem\w*\s*([0-9]+(?:\.[0-9]+)?)\s*unit` over the stem, a word tail, whitespace, the numeral, whitespace and the unit. */
  lemma WordQuantityFrom(text: String, p: nat, stem: String, tail: String, s1: String,
                         ip: String, fp: String, s2: String, unit: String, post: String) returns (g: Span)
    requires p <= |text| && From(text, p) == stem + (tail + (s1 + (Numeral(ip, fp) + (s2 + (unit + post)))))
    requires DigitParts(ip, fp) && AllInClass(tail, WordChars) && AllInClass(s1, Spaces) && AllInClass(s2, Spaces)
    requires s1 != [] && UnitHead(unit)
    ensures QuantityAt(text, p, stem, true, unit) == Some(g) && g.start <= g.end <= |text|
    ensures text[g.start..g.end] == Numeral(ip, fp)
  {
    SplitFrom(text, p, stem, tail + (s1 + (Numeral(ip, fp) + (s2 + (unit + post)))));
    var w;
    w, g := WordTailOf(text, p + |stem|, tail, s1, ip, fp, s2, unit, post);
    QuantityAtWordTail(text, p, stem, w, unit, g);
  }

  /** `stem\s*([0-9]+(?:\.[0-9]+)?)\s*unit` over the stem, whitespace, the numeral, whitespace and the unit. */
  lemma PlainQuantityFrom(text: String, p: nat, stem: String, s1: String,
                          ip: String, fp: String, s2: String, unit: String, post: String) returns (g: Span)
    requires p <= |text| && From(text, p) == stem + (s1 + (Numeral(ip, fp) + (s2 + (unit + post))))
    requires DigitParts(ip, fp) && AllInClass(s1, Spaces) && AllInClass(s2, Spaces)
    requires UnitHead(unit)
    ensures QuantityAt(text, p, stem, false, unit) == Some(g) && g.start <= g.end <= |text|
    ensures text[g.start..g.end] == Numeral(ip, fp)
  {
    SplitFrom(text, p, stem, s1 + (Numeral(ip, fp) + (s2 + (unit + post))));
    g := NumeralUnitOf(text, p + |stem|, s1, ip, fp, s2, unit, post);
    QuantityAtPlain(text, p, stem, unit, g);
  }

  /**
   * The quantity pattern matches where the stem starts: with `\w*` the
   * whitespace before the numeral is needed, or `\w*` would run into its digits.
   */
  lemma QuantityMatch(text: String, p: nat, stem: String, wordTail: bool, tail: String, s1: String,
                      ip: String, fp: String, s2: String, unit: String, post: String) returns (g: Span)
    requires p <= |text| && From(text, p) == stem + (tail + (s1 + (Numeral(ip, fp) + (s2 + (unit + post)))))
    requires DigitParts(ip, fp) && AllInClass(tail, WordChars) && AllInClass(s1, Spaces) && AllInClass(s2, Spaces)
    requires wordTail ==> s1 != []
    requires !wordTail ==> tail == []
    requires UnitHead(unit)
    ensures MatchAt(Quantity(stem, wordTail, unit), text, p) == Some([g]) && g.start <= g.end <= |text|
    ensures text[g.start..g.end] == Numeral(ip, fp)
  {
    if wordTail {
      g := WordQuantityFrom(text, p, stem, tail, s1, ip, fp, s2, unit, post);
    } else {
      assert tail + (s1 + (Numeral(ip, fp) + (s2 + (unit + post)))) == s1 + (Numeral(ip, fp) + (s2 + (unit + post)));
      g := PlainQuantityFrom(text, p, stem, s1, ip, fp, s2, unit, post);
    }
  }

  /** Before the first occurrence of the stem, the quantity pattern cannot match. */
  lemma NoQuantityBefore(pre: String, stem: String, rest: String, pat: Pattern)
    requires Find(pre + stem, stem, 0) == |pre| && pat.Quantity? && pat.stem == stem
    ensures forall i :: 0 <= i < |pre| ==> MatchAt(pat, pre + stem + rest, i).None?
  {
    FirstOccurrence(pre, stem, rest);
  }

  /** The quantity pattern's first match in the text is where its stem first occurs. */
  lemma QuantitySearch(text: String, pre: String, stem: String, wordTail: bool, tail: String, s1: String,
                       ip: String, fp: String, s2: String, unit: String, post: String) returns (g: Span)
    requires text == pre + (stem + (tail + (s1 + (Numeral(ip, fp) + (s2 + (unit + post))))))
    requires Find(pre + stem, stem, 0) == |pre|
    requires DigitParts(ip, fp) && AllInClass(tail, WordChars) && AllInClass(s1, Spaces) && AllInClass(s2, Spaces)
    requires wordTail ==> s1 != []
    requires !wordTail ==> tail == []
    requires UnitHead(unit)
    ensures Search(Quantity(stem, wordTail, unit), text, 0) == Some(Match(|pre|, [g]))
    ensures g.start <= g.end <= |text| && text[g.start..g.end] == Numeral(ip, fp)
  {
    var rest := tail + (s1 + (Numeral(ip, fp) + (s2 + (unit + post))));
    var pat := Quantity(stem, wordTail, unit);
    assert pre + stem + rest == text;
    NoQuantityBefore(pre, stem, rest, pat);
    FromAfter(pre, stem + rest);
    g := QuantityMatch(text, |pre|, stem, wordTail, tail, s1, ip, fp, s2, unit, post);
    SearchFindsFirst(pat, text, 0, |pre|, [g]);
  }

  /**
   * `parse_first_float` with a quantity pattern: after the first occurrence
   * of the stem, a word tail (only where the pattern has `\w*`), whitespace,
   * a numeral, whitespace and the unit give the numeral's value.
   */
  lemma ParseFirstFloatWritten(pre: String, stem: String, wordTail: bool, tail: String, s1: String,
                               ip: String, fp: String, s2: String, unit: String, post: String)
    requires Find(pre + stem, stem, 0) == |pre|
    requires DigitParts(ip, fp) && AllInClass(tail, WordChars) && AllInClass(s1, Spaces) && AllInClass(s2, Spaces)
    requires wordTail ==> s1 != []
    requires !wordTail ==> tail == []
    requires UnitHead(unit)
    ensures ParseFirstFloat(Some(pre + (stem + (tail + (s1 + (Numeral(ip, fp) + (s2 + (unit + post))))))),
                            Quantity(stem, wordTail, unit)) == Some(DecimalValue(ip, fp))
  {
    var text := pre + (stem + (tail + (s1 + (Numeral(ip, fp) + (s2 + (unit + post))))));
    var g := QuantitySearch(text, pre, stem, wordTail, tail, s1, ip, fp, s2, unit, post);
    NumeralToFloat(ip, fp);
  }

  // ---------------------------------------------------------------------------
  // parse_current_range
  // ---------------------------------------------------------------------------

  /** The first half of the current line from `p` on: `a A discharge`. */
  lemma DischargeFrom(text: String, p: nat, na: bool, ia: String, fa: String, s1: String, s2: String,
                      rest: String) returns (e1: nat, a: nat, b: nat)
    requires p <= |text| && From(text, p) == SignedText(na, ia, fa) + (s1 + ("A" + (s2 + ("discharge" + rest))))
    requires DigitParts(ia, fa) && AllInClass(s1, Spaces) && AllInClass(s2, Spaces)
    ensures SignedEnd(text, p) == Some(e1) && p <= e1 <= |text| && text[p..e1] == SignedText(na, ia, fa)
    ensures SpacedLiteral(text, e1, "A") == Some(a) && a <= |text|
    ensures SpacedLiteral(text, a, "discharge") == Some(b) && b <= |text| && From(text, b) == rest
  {
    var afterA := s1 + ("A" + (s2 + ("discharge" + rest)));
    HeadOfEither(s1, "A" + (s2 + ("discharge" + rest)));
    e1 := SignedOf(text, p, na, ia, fa, afterA);
    PrefixOf(text, p, e1, SignedText(na, ia, fa), afterA);
    a := SpacedLiteralOf(text, e1, s1, "A", s2 + ("discharge" + rest));
    b := SpacedLiteralOf(text, a, s2, "discharge", rest);
  }

  /** `… b unit`: the separator, the second numeral and its unit, then `close`. */
  lemma SecondOf(text: String, y: nat, s3: String, sep: String, s4: String, nb: bool, ib: String, fb: String,
                 s5: String, unit: String, s6: String, close: String, post: String) returns (g2: Span, c: nat)
    requires y <= |text|
    requires From(text, y) == s3 + (sep + (s4 + (SignedText(nb, ib, fb) + (s5 + (unit + (s6 + (close + post)))))))
    requires AllInClass(s3, Spaces) && sep != [] && AllInClass(sep, Ellipsis) && AllInClass(s4, Spaces)
    requires DigitParts(ib, fb) && AllInClass(s5, Spaces) && AllInClass(s6, Spaces)
    requires UnitHead(unit) && close != [] && !IsSpace(close[0])
    ensures SeparatorThenSigned(text, y) == Some(g2) && g2.start <= g2.end <= |text|
    ensures text[g2.start..g2.end] == SignedText(nb, ib, fb)
    ensures SpacedLiteral(text, g2.end, unit) == Some(c) && c <= |text| && SpacedLiteral(text, c, close).Some?
  {
    UnitEndsNumeral(s5, unit, s6 + (close + post));
    g2 := SeparatorOf(text, y, s3, sep, s4, nb, ib, fb, s5 + (unit + (s6 + (close + post))));
    c := SpacedLiteralOf(text, g2.end, s5, unit, s6 + (close + post));
    var w := SpacedLiteralOf(text, c, s6, close, post);
  }

  /** The parts of the current line that are not its two numerals. */
  predicate CurrentParts(s1: String, s2: String, s3: String, sep: String, s4: String, s5: String, s6: String) {
    AllInClass(s1, Spaces) && AllInClass(s2, Spaces) && AllInClass(s3, Spaces) && AllInClass(s4, Spaces)
    && AllInClass(s5, Spaces) && AllInClass(s6, Spaces) && sep != [] && AllInClass(sep, Ellipsis)
  }

  /** The current line from `p` on: `a A discharge … b A charge`. */
  lemma CurrentPairFrom(text: String, p: nat, na: bool, ia: String, fa: String, s1: String, s2: String,
                        s3: String, sep: String, s4: String, nb: bool, ib: String, fb: String,
                        s5: String, s6: String, post: String) returns (g1: Span, g2: Span)
    requires p <= |text|
    requires From(text, p) == SignedText(na, ia, fa) + (s1 + ("A" + (s2 + ("discharge" + (s3 + (sep + (s4
                          + (SignedText(nb, ib, fb) + (s5 + ("A" + (s6 + ("charge" + post))))))))))))
    requires DigitParts(ia, fa) && DigitParts(ib, fb) && CurrentParts(s1, s2, s3, sep, s4, s5, s6)
    ensures CurrentPairAt(text, p) == Some((g1, g2)) && g1.start <= g1.end <= |text| && g2.start <= g2.end <= |text|
    ensures text[g1.start..g1.end] == SignedText(na, ia, fa) && text[g2.start..g2.end] == SignedText(nb, ib, fb)
  {
    var tailB := s5 + ("A" + (s6 + ("charge" + post)));
    HeadOfEither(s5, "A" + (s6 + ("charge" + post)));
    var e1, a, b := DischargeFrom(text, p, na, ia, fa, s1, s2, s3 + (sep + (s4 + (SignedText(nb, ib, fb) + tailB))));
    var c;
    g2, c := SecondOf(text, b, s3, sep, s4, nb, ib, fb, s5, "A", s6, "charge", post);
    g1 := Span(p, e1);
    CurrentPairAtOf(text, p, e1, a, b, g2, c);
  }

  /** No digit in `s`. */
  predicate NoDigit(s: String) {
    forall i :: 0 <= i < |s| ==> !IsDigit(s[i])
  }

  /** With no digit before it and no '-' just before it, nothing matches the current line before it starts. */
  lemma NoCurrentPairBefore(pre: String, rest: String)
    requires NoDigit(pre) && (pre == [] || pre[|pre| - 1] != '-')
    ensures forall i :: 0 <= i < |pre| ==> MatchAt(CurrentPair, pre + rest, i).None?
  {
    forall i | 0 <= i < |pre| ensures SignedEnd(pre + rest, i).None? {
      NoSignedAt(pre, rest, i);
    }
  }

  /** A numeral cannot start where `pre` has no digit and no '-' before a digit. */
  lemma NoSignedAt(pre: String, rest: String, i: nat)
    requires NoDigit(pre) && (pre == [] || pre[|pre| - 1] != '-') && i < |pre|
    ensures SignedEnd(pre + rest, i).None?
  {
    var text := pre + rest;
    assert text[i] == pre[i];
    if i + 1 < |pre| {
      assert text[i + 1] == pre[i + 1];
    }
  }

  /** The current pattern's first match in the text is where the current line starts. */
  lemma CurrentSearch(text: String, pre: String, na: bool, ia: String, fa: String, s1: String, s2: String,
                      s3: String, sep: String, s4: String, nb: bool, ib: String, fb: String,
                      s5: String, s6: String, post: String) returns (g1: Span, g2: Span)
    requires text == pre + (SignedText(na, ia, fa) + (s1 + ("A" + (s2 + ("discharge" + (s3 + (sep + (s4
                     + (SignedText(nb, ib, fb) + (s5 + ("A" + (s6 + ("charge" + post)))))))))))))
    requires NoDigit(pre) && (pre == [] || pre[|pre| - 1] != '-')
    requires DigitParts(ia, fa) && DigitParts(ib, fb) && CurrentParts(s1, s2, s3, sep, s4, s5, s6)
    ensures Search(CurrentPair, text, 0) == Some(Match(|pre|, [g1, g2]))
    ensures g1.start <= g1.end <= |text| && text[g1.start..g1.end] == SignedText(na, ia, fa)
    ensures g2.start <= g2.end <= |text| && text[g2.start..g2.end] == SignedText(nb, ib, fb)
  {
    var rest := SignedText(na, ia, fa) + (s1 + ("A" + (s2 + ("discharge" + (s3 + (sep + (s4
                + (SignedText(nb, ib, fb) + (s5 + ("A" + (s6 + ("charge" + post))))))))))));
    FromAfter(pre, rest);
    g1, g2 := CurrentPairFrom(text, |pre|, na, ia, fa, s1, s2, s3, sep, s4, nb, ib, fb, s5, s6, post);
    CurrentMatchOf(text, |pre|, g1, g2);
    NoCurrentPairBefore(pre, rest);
    SearchFindsFirst(CurrentPair, text, 0, |pre|, [g1, g2]);
  }

  /**
   * The current line of `parse_current_range`: with no digit before it and
   * no '-' just before it, `a A discharge … b A charge` gives a and b as the
   * discharge and charge currents.
   */
  lemma CurrentsWritten(pre: String, na: bool, ia: String, fa: String, s1: String, s2: String,
                        s3: String, sep: String, s4: String, nb: bool, ib: String, fb: String,
                        s5: String, s6: String, post: String)
    requires NoDigit(pre) && (pre == [] || pre[|pre| - 1] != '-')
    requires DigitParts(ia, fa) && DigitParts(ib, fb) && CurrentParts(s1, s2, s3, sep, s4, s5, s6)
    ensures var text := pre + (SignedText(na, ia, fa) + (s1 + ("A" + (s2 + ("discharge" + (s3 + (sep + (s4
                          + (SignedText(nb, ib, fb) + (s5 + ("A" + (s6 + ("charge" + post)))))))))))));
      var r := ParseCurrentRange(text);
      r.0 == Some(SignedValue(na, ia, fa)) && r.1 == Some(SignedValue(nb, ib, fb))
  {
    var text := pre + (SignedText(na, ia, fa) + (s1 + ("A" + (s2 + ("discharge" + (s3 + (sep + (s4
                + (SignedText(nb, ib, fb) + (s5 + ("A" + (s6 + ("charge" + post)))))))))))));
    var g1, g2 := CurrentSearch(text, pre, na, ia, fa, s1, s2, s3, sep, s4, nb, ib, fb, s5, s6, post);
    SignedTextValue(na, ia, fa);
    SignedTextValue(nb, ib, fb);
  }

  // ---------------------------------------------------------------------------
  // parse_current_range: the C-rates in brackets
  // ---------------------------------------------------------------------------

  /** The first half of the C-rate bracket from `p` on: `( a C`. */
  lemma OpenFrom(text: String, p: nat, s0: String, na: bool, ia: String, fa: String, s1: String,
                 rest: String) returns (t: nat, e1: nat, a: nat)
    requires p <= |text| && From(text, p) == "(" + (s0 + (SignedText(na, ia, fa) + (s1 + ("C" + rest))))
    requires DigitParts(ia, fa) && AllInClass(s0, Spaces) && AllInClass(s1, Spaces)
    ensures p + 1 <= |text| && OccursAt(text, "(", p) && RunEnd(text, p + 1, Spaces) == t
    ensures SignedEnd(text, t) == Some(e1) && t <= e1 <= |text| && text[t..e1] == SignedText(na, ia, fa)
    ensures SpacedLiteral(text, e1, "C") == Some(a) && a <= |text| && From(text, a) == rest
  {
    var b := SignedText(na, ia, fa);
    var afterB := s1 + ("C" + rest);
    SplitFrom(text, p, "(", s0 + (b + afterB));
    SignedHead(na, ia, fa);
    HeadOfAppend(b, afterB);
    t := RunOf(text, p + 1, s0, b + afterB, Spaces);
    UnitEndsNumeral(s1, "C", rest);
    e1 := SignedOf(text, t, na, ia, fa, afterB);
    PrefixOf(text, t, e1, b, afterB);
    a := SpacedLiteralOf(text, e1, s1, "C", rest);
  }

  /**
   * The C-rate bracket from `p` on: `( a C … b C )`. Its whitespace and
   * separator are those of the current line (`CurrentParts`), with `s0` and
   * `s1` around the first numeral.
   */
  lemma CRatePairFrom(text: String, p: nat, s0: String, na: bool, ia: String, fa: String, s1: String,
                      s3: String, sep: String, s4: String, nb: bool, ib: String, fb: String,
                      s5: String, s6: String, post: String) returns (g1: Span, g2: Span)
    requires p <= |text|
    requires From(text, p) == "(" + (s0 + (SignedText(na, ia, fa) + (s1 + ("C" + (s3 + (sep + (s4
                          + (SignedText(nb, ib, fb) + (s5 + ("C" + (s6 + (")" + post))))))))))))
    requires DigitParts(ia, fa) && DigitParts(ib, fb) && CurrentParts(s0, s1, s3, sep, s4, s5, s6)
    ensures CRatePairAt(text, p) == Some((g1, g2)) && g1.start <= g1.end <= |text| && g2.start <= g2.end <= |text|
    ensures text[g1.start..g1.end] == SignedText(na, ia, fa) && text[g2.start..g2.end] == SignedText(nb, ib, fb)
  {
    var rest := s3 + (sep + (s4 + (SignedText(nb, ib, fb) + (s5 + ("C" + (s6 + (")" + post)))))));
    var t, e1, a := OpenFrom(text, p, s0, na, ia, fa, s1, rest);
    var c;
    g2, c := SecondOf(text, a, s3, sep, s4, nb, ib, fb, s5, "C", s6, ")", post);
    g1 := Span(t, e1);
    CRatePairAtOf(text, p, t, e1, a, g2, c);
  }

  /** With no '(' before it, nothing matches the C-rate bracket before it starts. */
  lemma NoCRatePairBefore(pre: String, rest: String)
    requires '(' !in pre
    ensures forall i :: 0 <= i < |pre| ==> MatchAt(CRatePair, pre + rest, i).None?
  {
    forall i | 0 <= i < |pre| ensures MatchAt(CRatePair, pre + rest, i).None? {
      NoOpenAt(pre, rest, i);
      CRateMatchIsGroups(pre + rest, i);
    }
  }

  /** The C-rate bracket cannot start inside `pre` when `pre` has no '('. */
  lemma NoOpenAt(pre: String, rest: String, i: nat)
    requires '(' !in pre && i < |pre|
    ensures CRatePairAt(pre + rest, i).None?
  {
    var text := pre + rest;
    assert text[i] == pre[i] && text[i] != '(';
    if OccursAt(text, "(", i) {
      assert false;
    }
  }

  /** The C-rate pattern's first match in the text is where the bracket opens. */
  lemma CRateSearch(text: String, pre: String, s0: String, na: bool, ia: String, fa: String, s1: String,
                    s3: String, sep: String, s4: String, nb: bool, ib: String, fb: String,
                    s5: String, s6: String, post: String) returns (g1: Span, g2: Span)
    requires text == pre + ("(" + (s0 + (SignedText(na, ia, fa) + (s1 + ("C" + (s3 + (sep + (s4
                     + (SignedText(nb, ib, fb) + (s5 + ("C" + (s6 + (")" + post)))))))))))))
    requires '(' !in pre
    requires DigitParts(ia, fa) && DigitParts(ib, fb) && CurrentParts(s0, s1, s3, sep, s4, s5, s6)
    ensures Search(CRatePair, text, 0) == Some(Match(|pre|, [g1, g2]))
    ensures g1.start <= g1.end <= |text| && text[g1.start..g1.end] == SignedText(na, ia, fa)
    ensures g2.start <= g2.end <= |text| && text[g2.start..g2.end] == SignedText(nb, ib, fb)
  {
    var rest := "(" + (s0 + (SignedText(na, ia, fa) + (s1 + ("C" + (s3 + (sep + (s4
                + (SignedText(nb, ib, fb) + (s5 + ("C" + (s6 + (")" + post))))))))))));
    FromAfter(pre, rest);
    g1, g2 := CRatePairFrom(text, |pre|, s0, na, ia, fa, s1, s3, sep, s4, nb, ib, fb, s5, s6, post);
    CRateMatchOf(text, |pre|, g1, g2);
    NoCRatePairBefore(pre, rest);
    SearchFindsFirst(CRatePair, text, 0, |pre|, [g1, g2]);
  }

  /**
   * The C-rates of `parse_current_range`: after a text with no '(', the
   * bracket `( a C … b C )` gives a and b as the least and greatest C-rate.
   */
  lemma CRatesWritten(pre: String, s0: String, na: bool, ia: String, fa: String, s1: String,
                      s3: String, sep: String, s4: String, nb: bool, ib: String, fb: String,
                      s5: String, s6: String, post: String)
    requires '(' !in pre
    requires DigitParts(ia, fa) && DigitParts(ib, fb) && CurrentParts(s0, s1, s3, sep, s4, s5, s6)
    ensures var text := pre + ("(" + (s0 + (SignedText(na, ia, fa) + (s1 + ("C" + (s3 + (sep + (s4
                          + (SignedText(nb, ib, fb) + (s5 + ("C" + (s6 + (")" + post)))))))))))));
      var r := ParseCurrentRange(text);
      r.2 == Some(SignedValue(na, ia, fa)) && r.3 == Some(SignedValue(nb, ib, fb))
  {
    var text := pre + ("(" + (s0 + (SignedText(na, ia, fa) + (s1 + ("C" + (s3 + (sep + (s4
                + (SignedText(nb, ib, fb) + (s5 + ("C" + (s6 + (")" + post)))))))))))));
    var g1, g2 := CRateSearch(text, pre, s0, na, ia, fa, s1, s3, sep, s4, nb, ib, fb, s5, s6, post);
    SignedTextValue(na, ia, fa);
    SignedTextValue(nb, ib, fb);
  }

  // ---------------------------------------------------------------------------
  // Dimensions, weight and model version
  // ---------------------------------------------------------------------------

  /** `[x×]`: the two characters the dimensions pattern accepts between its numerals. */
  predicate Times(x: char) {
    x == 'x' || x == '\U{D7}'
  }

  /** Whitespace and a `[x×]` after the first dimension: where the second starts. */
  lemma TimesOf(text: String, e1: nat, s1: String, x: char, s2: String, ib: String, fb: String,
                post: String) returns (c: nat, t: nat)
    requires e1 <= |text| && From(text, e1) == s1 + ([x] + (s2 + (Numeral(ib, fb) + post)))
    requires AllInClass(s1, Spaces) && Times(x) && AllInClass(s2, Spaces) && DigitParts(ib, fb)
    ensures RunEnd(text, e1, Spaces) == c && c < |text| && text[c] == x
    ensures RunEnd(text, c + 1, Spaces) == t && t <= |text| && From(text, t) == Numeral(ib, fb) + post
  {
    var n := Numeral(ib, fb);
    HeadOfAppend([x], s2 + (n + post));
    c := RunOf(text, e1, s1, [x] + (s2 + (n + post)), Spaces);
    HeadOf(text, c, [x] + (s2 + (n + post)));
    SplitFrom(text, c, [x], s2 + (n + post));
    NumeralIsPlain(ib, fb);
    HeadOfAppend(n, post);
    t := RunOf(text, c + 1, s2, n + post, Spaces);
  }

  /** `([0-9]+(?:\.[0-9]+)?)\s*[x×]\s*([0-9]+(?:\.[0-9]+)?)` from `p` on. */
  lemma DimensionsFrom(text: String, p: nat, ia: String, fa: String, s1: String, x: char, s2: String,
                       ib: String, fb: String, post: String) returns (g1: Span, g2: Span)
    requires p <= |text| && From(text, p) == Numeral(ia, fa) + (s1 + ([x] + (s2 + (Numeral(ib, fb) + post))))
    requires DigitParts(ia, fa) && DigitParts(ib, fb) && AllInClass(s1, Spaces) && Times(x)
    requires AllInClass(s2, Spaces) && EndsNumeral(post)
    ensures DimensionsAt(text, p) == Some((g1, g2)) && g1.start <= g1.end <= |text| && g2.start <= g2.end <= |text|
    ensures text[g1.start..g1.end] == Numeral(ia, fa) && text[g2.start..g2.end] == Numeral(ib, fb)
  {
    var rest := s1 + ([x] + (s2 + (Numeral(ib, fb) + post)));
    HeadOfEither(s1, [x] + (s2 + (Numeral(ib, fb) + post)));
    HeadOfAppend([x], s2 + (Numeral(ib, fb) + post));
    var e1 := UnsignedOf(text, p, ia, fa, rest);
    PrefixOf(text, p, e1, Numeral(ia, fa), rest);
    var c, t := TimesOf(text, e1, s1, x, s2, ib, fb, post);
    var e2 := UnsignedOf(text, t, ib, fb, post);
    PrefixOf(text, t, e2, Numeral(ib, fb), post);
    DimensionsAtOf(text, p, e1, c, t, e2);
    g1, g2 := Span(p, e1), Span(t, e2);
  }

  /** No unsigned numeral starts inside `pre` when `pre` has no digit. */
  lemma NoUnsignedAt(pre: String, rest: String, i: nat)
    requires NoDigit(pre) && i < |pre|
    ensures UnsignedEnd(pre + rest, i).None?
  {
    assert (pre + rest)[i] == pre[i];
  }

  /** With no digit before them, nothing matches the dimensions before they start. */
  lemma NoDimensionsBefore(pre: String, rest: String)
    requires NoDigit(pre)
    ensures forall i :: 0 <= i < |pre| ==> MatchAt(Dimensions, pre + rest, i).None?
  {
    forall i | 0 <= i < |pre| ensures MatchAt(Dimensions, pre + rest, i).None? {
      NoUnsignedAt(pre, rest, i);
      DimensionsMatchIsGroups(pre + rest, i);
    }
  }

  /** The dimensions pattern's first match in the text is where the first dimension starts. */
  lemma DimensionsSearch(text: String, pre: String, ia: String, fa: String, s1: String, x: char, s2: String,
                         ib: String, fb: String, post: String) returns (g1: Span, g2: Span)
    requires text == pre + (Numeral(ia, fa) + (s1 + ([x] + (s2 + (Numeral(ib, fb) + post)))))
    requires NoDigit(pre) && DigitParts(ia, fa) && DigitParts(ib, fb) && AllInClass(s1, Spaces) && Times(x)
    requires AllInClass(s2, Spaces) && EndsNumeral(post)
    ensures Search(Dimensions, text, 0) == Some(Match(|pre|, [g1, g2]))
    ensures g1.start <= g1.end <= |text| && text[g1.start..g1.end] == Numeral(ia, fa)
    ensures g2.start <= g2.end <= |text| && text[g2.start..g2.end] == Numeral(ib, fb)
  {
    var rest := Numeral(ia, fa) + (s1 + ([x] + (s2 + (Numeral(ib, fb) + post))));
    FromAfter(pre, rest);
    g1, g2 := DimensionsFrom(text, |pre|, ia, fa, s1, x, s2, ib, fb, post);
    DimensionsMatchIsGroups(text, |pre|);
    NoDimensionsBefore(pre, rest);
    SearchFindsFirst(Dimensions, text, 0, |pre|, [g1, g2]);
  }

  /**
   * The dimensions of `parse_cell_page`: with no digit before them,
   * `a x b` (or `a × b`) gives a as the diameter and b as the height.
   */
  lemma DimensionsWritten(pre: String, ia: String, fa: String, s1: String, x: char, s2: String,
                          ib: String, fb: String, post: String)
    requires NoDigit(pre) && DigitParts(ia, fa) && DigitParts(ib, fb) && AllInClass(s1, Spaces) && Times(x)
    requires AllInClass(s2, Spaces) && EndsNumeral(post)
    ensures ParseDimensions(Some(pre + (Numeral(ia, fa) + (s1 + ([x] + (s2 + (Numeral(ib, fb) + post)))))))
      == (Some(DecimalValue(ia, fa)), Some(DecimalValue(ib, fb)))
  {
    var text := pre + (Numeral(ia, fa) + (s1 + ([x] + (s2 + (Numeral(ib, fb) + post)))));
    var g1, g2 := DimensionsSearch(text, pre, ia, fa, s1, x, s2, ib, fb, post);
    NumeralToFloat(ia, fa);
    NumeralToFloat(ib, fb);
  }

  /** `([0-9]+(?:\.[0-9]+)?)\s*g` from `p` on. */
  lemma WeightFrom(text: String, p: nat, ip: String, fp: String, s: String, post: String) returns (g: Span)
    requires p <= |text| && From(text, p) == Numeral(ip, fp) + (s + ("g" + post))
    requires DigitParts(ip, fp) && AllInClass(s, Spaces)
    ensures WeightAt(text, p) == Some(g) && g.start <= g.end <= |text| && text[g.start..g.end] == Numeral(ip, fp)
  {
    UnitEndsNumeral(s, "g", post);
    var e := UnsignedOf(text, p, ip, fp, s + ("g" + post));
    PrefixOf(text, p, e, Numeral(ip, fp), s + ("g" + post));
    var u := SpacedLiteralOf(text, e, s, "g", post);
    WeightAtOf(text, p, e);
    g := Span(p, e);
  }

  /** With no digit before it, nothing matches the weight before it starts. */
  lemma NoWeightBefore(pre: String, rest: String)
    requires NoDigit(pre)
    ensures forall i :: 0 <= i < |pre| ==> MatchAt(Weight, pre + rest, i).None?
  {
    forall i | 0 <= i < |pre| ensures MatchAt(Weight, pre + rest, i).None? {
      NoUnsignedAt(pre, rest, i);
      WeightMatchIsGroups(pre + rest, i);
    }
  }

  /** The weight pattern's first match in the text is where the weight's numeral starts. */
  lemma WeightSearch(text: String, pre: String, ip: String, fp: String, s: String, post: String) returns (g: Span)
    requires text == pre + (Numeral(ip, fp) + (s + ("g" + post)))
    requires NoDigit(pre) && DigitParts(ip, fp) && AllInClass(s, Spaces)
    ensures Search(Weight, text, 0) == Some(Match(|pre|, [g]))
    ensures g.start <= g.end <= |text| && text[g.start..g.end] == Numeral(ip, fp)
  {
    var rest := Numeral(ip, fp) + (s + ("g" + post));
    FromAfter(pre, rest);
    g := WeightFrom(text, |pre|, ip, fp, s, post);
    WeightMatchIsGroups(text, |pre|);
    NoWeightBefore(pre, rest);
    SearchFindsFirst(Weight, text, 0, |pre|, [g]);
  }

  /** The weight of `parse_cell_page`: with no digit before it, `w g` gives w. */
  lemma WeightWritten(pre: String, ip: String, fp: String, s: String, post: String)
    requires NoDigit(pre) && DigitParts(ip, fp) && AllInClass(s, Spaces)
    ensures ParseWeight(Some(pre + (Numeral(ip, fp) + (s + ("g" + post))))) == Some(DecimalValue(ip, fp))
  {
    var text := pre + (Numeral(ip, fp) + (s + ("g" + post)));
    var g := WeightSearch(text, pre, ip, fp, s, post);
    NumeralToFloat(ip, fp);
  }

  /** `Batemo Cell Model Version\s*([0-9.]+)` from `p` on. */
  lemma ModelVersionFrom(text: String, p: nat, s: String, v: String, post: String) returns (g: Span)
    requires p <= |text| && From(text, p) == VersionLabel + (s + (v + post))
    requires AllInClass(s, Spaces) && v != [] && AllInClass(v, VersionChars)
    requires post == [] || !InClass(post[0], VersionChars)
    ensures ModelVersionAt(text, p) == Some(g) && g.start <= g.end <= |text| && text[g.start..g.end] == v
  {
    SplitFrom(text, p, VersionLabel, s + (v + post));
    HeadOfAppend(v, post);
    assert InClass(v[0], VersionChars);
    var q := RunOf(text, p + |VersionLabel|, s, v + post, Spaces);
    var e := RunOf(text, q, v, post, VersionChars);
    PrefixOf(text, q, e, v, post);
    ModelVersionAtOf(text, p, q, e);
    g := Span(q, e);
  }

  /** Before the first occurrence of the label, the model version pattern cannot match. */
  lemma NoVersionBefore(pre: String, rest: String)
    requires Find(pre + VersionLabel, VersionLabel, 0) == |pre|
    ensures forall i :: 0 <= i < |pre| ==> MatchAt(ModelVersion, pre + VersionLabel + rest, i).None?
  {
    FirstOccurrence(pre, VersionLabel, rest);
    forall i | 0 <= i < |pre| ensures MatchAt(ModelVersion, pre + VersionLabel + rest, i).None? {
      ModelVersionMatchIsGroups(pre + VersionLabel + rest, i);
    }
  }

  /** The model version pattern's first match in the text is where the label first occurs. */
  lemma ModelVersionSearch(text: String, pre: String, s: String, v: String, post: String) returns (g: Span)
    requires text == pre + (VersionLabel + (s + (v + post)))
    requires Find(pre + VersionLabel, VersionLabel, 0) == |pre|
    requires AllInClass(s, Spaces) && v != [] && AllInClass(v, VersionChars)
    requires post == [] || !InClass(post[0], VersionChars)
    ensures Search(ModelVersion, text, 0) == Some(Match(|pre|, [g]))
    ensures g.start <= g.end <= |text| && text[g.start..g.end] == v
  {
    var rest := s + (v + post);
    assert pre + VersionLabel + rest == text;
    FromAfter(pre, VersionLabel + rest);
    g := ModelVersionFrom(text, |pre|, s, v, post);
    ModelVersionMatchIsGroups(text, |pre|);
    NoVersionBefore(pre, rest);
    SearchFindsFirst(ModelVersion, text, 0, |pre|, [g]);
  }

  /**
   * The model version of `parse_cell_page`: after the first occurrence of
   * `Batemo Cell Model Version`, whitespace and a run of digits and dots
   * give that run as the version.
   */
  lemma ModelVersionWritten(pre: String, s: String, v: String, post: String)
    requires Find(pre + VersionLabel, VersionLabel, 0) == |pre|
    requires AllInClass(s, Spaces) && v != [] && AllInClass(v, VersionChars)
    requires post == [] || !InClass(post[0], VersionChars)
    ensures ParseModelVersion(pre + (VersionLabel + (s + (v + post)))) == Some(v)
  {
    var text := pre + (VersionLabel + (s + (v + post)));
    var g := ModelVersionSearch(text, pre, s, v, post);
  }
}
