/**
 * The fixed regular expressions of scrape_cells.py, each matched by hand.
 *
 * `re.search` tries start positions from left to right and, at each one,
 * explores the pattern's alternatives in priority order (greedy quantifiers
 * longest first). Most patterns here leave only one way to succeed at a given
 * start: a numeral cut short leaves a digit or '.' where whitespace or a
 * unit letter must follow, so the longest numeral is the only candidate. Two
 * shapes really backtrack, and their matchers try the candidates in the same
 * order as the regex engine: `\w*` before the numeral (`contin\w*`,
 * `gravi\w*`), and the range pattern `[-0-9.,]+ \s* [.…]+ \s* [-0-9.,]+`,
 * whose groups can give characters back to the separator.
 */
module Patterns {
  import opened Text
  import opened Wrappers
  import opened Numbers

  /** A captured group: the characters `text[start..end]`. */
  datatype Span = Span(start: nat, end: nat)

  /** A successful `re.search`: where the match starts and its groups in order. */
  datatype Match = Match(start: nat, groups: seq<Span>)

  /** The character classes the patterns use. */
  datatype CharClass =
    | Spaces        // \s
    | Digits        // [0-9] and \d (ASCII)
    | WordChars     // \w (ASCII)
    | Letters       // [A-Za-z]
    | RangeChars    // [-0-9.,]
    | NumberChars   // [-0-9,]
    | FractionChars // [0-9,]
    | Ellipsis      // [.…]
    | VersionChars  // [0-9.]

  predicate InClass(c: char, k: CharClass) {
    match k
    case Spaces => IsSpace(c)
    case Digits => IsDigit(c)
    case WordChars => IsWordChar(c)
    case Letters => IsAsciiLetter(c)
    case RangeChars => IsDigit(c) || c == '-' || c == '.' || c == ','
    case NumberChars => IsDigit(c) || c == '-' || c == ','
    case FractionChars => IsDigit(c) || c == ','
    case Ellipsis => c == '.' || c == '\U{2026}'
    case VersionChars => IsDigit(c) || c == '.'
  }

  predicate AllInClass(s: String, k: CharClass) {
    forall i :: 0 <= i < |s| ==> InClass(s[i], k)
  }

  /** The end of the longest run of class `k` starting at `i`: what a greedy `k*` consumes. */
  function RunEnd(text: String, i: nat, k: CharClass): (e: nat)
    requires i <= |text|
    ensures i <= e <= |text|
    ensures forall j :: i <= j < e ==> InClass(text[j], k)
    ensures e == |text| || !InClass(text[e], k)
    decreases |text| - i
  {
    if i < |text| && InClass(text[i], k) then RunEnd(text, i + 1, k) else i
  }

  /** A run of class `k` from `i` that stops at `e` ends at `e`. */
  lemma RunEndAt(text: String, i: nat, e: nat, k: CharClass)
    requires i <= e <= |text|
    requires forall j :: i <= j < e ==> InClass(text[j], k)
    requires e == |text| || !InClass(text[e], k)
    ensures RunEnd(text, i, k) == e
    decreases e - i
  {
    if i < e {
      RunEndAt(text, i + 1, e, k);
    }
  }

  predicate ValidSpan(text: String, g: Span) {
    g.start <= g.end <= |text|
  }

  function SpanText(text: String, g: Span): String
    requires ValidSpan(text, g)
  {
    text[g.start..g.end]
  }

  // ---------------------------------------------------------------------------
  // Numerals
  // ---------------------------------------------------------------------------

  /** `[0-9]+(?:\.[0-9]+)?` at `i`, as long as it goes: where it ends. */
  function UnsignedEnd(text: String, i: nat): (e: Option<nat>)
    requires i <= |text|
    ensures e.Some? ==> i < e.value <= |text| && UnsignedNumeral(text[i..e.value])
  {
    if i < |text| && IsDigit(text[i]) then
      var d := RunEnd(text, i, Digits);
      if d + 1 < |text| && text[d] == '.' && IsDigit(text[d + 1]) then
        var f := RunEnd(text, d + 1, Digits);
        NumeralWithDot(text, i, d, f);
        Some(f)
      else
        NumeralWithoutDot(text, i, d);
        Some(d)
    else None
  }

  /** `-?\d+\.?\d*` at `i`, as long as it goes: where it ends. */
  function SignedEnd(text: String, i: nat): (e: Option<nat>)
    requires i <= |text|
    ensures e.Some? ==> i < e.value <= |text| && SignedNumeral(text[i..e.value])
  {
    var q := if i < |text| && text[i] == '-' then i + 1 else i;
    if q < |text| && IsDigit(text[q]) then
      var d := RunEnd(text, q, Digits);
      var f := if d < |text| && text[d] == '.' then RunEnd(text, d + 1, Digits) else d;
      SignedNumeralAt(text, i, q, d, f);
      Some(f)
    else None
  }

  lemma NumeralWithoutDot(text: String, i: nat, d: nat)
    requires i < d <= |text|
    requires forall j :: i <= j < d ==> IsDigit(text[j])
    ensures UnsignedNumeral(text[i..d])
  {
    var t := text[i..d];
    assert forall j :: 0 <= j < |t| ==> t[j] == text[i + j];
    DigitsOrDotsAll(t, 0);
    DotsNone(t, 0);
  }

  lemma SignedNumeralAt(text: String, i: nat, q: nat, d: nat, f: nat)
    requires i <= q <= i + 1 && q < d <= f <= |text|
    requires q == i + 1 ==> text[i] == '-'
    requires forall j :: q <= j < d ==> IsDigit(text[j])
    requires f == d || (text[d] == '.' && forall j :: d < j < f ==> IsDigit(text[j]))
    ensures SignedNumeral(text[i..f])
  {
    if f == d {
      NumeralWithoutDot(text, q, d);
    } else {
      NumeralWithDot(text, q, d, f);
    }
    assert q == i + 1 ==> text[i..f][1..] == text[q..f];
  }

  lemma NumeralWithDot(text: String, i: nat, d: nat, f: nat)
    requires i < d < f <= |text| && text[d] == '.'
    requires forall j :: i <= j < d ==> IsDigit(text[j])
    requires forall j :: d < j < f ==> IsDigit(text[j])
    ensures UnsignedNumeral(text[i..f])
  {
    var t := text[i..f];
    assert forall j :: 0 <= j < |t| ==> t[j] == text[i + j];
    DigitsOrDotsAll(t, 0);
    DotsOne(t, 0, d - i);
  }

  /** `\s*lit` at `i`: where the literal ends. */
  function SpacedLiteral(text: String, i: nat, lit: String): (e: Option<nat>)
    requires i <= |text|
    ensures e.Some? ==> i <= e.value <= |text| && e.value == RunEnd(text, i, Spaces) + |lit|
    ensures e.Some? <==> OccursAt(text, lit, RunEnd(text, i, Spaces))
  {
    var j := RunEnd(text, i, Spaces);
    if OccursAt(text, lit, j) then Some(j + |lit|) else None
  }

  // ---------------------------------------------------------------------------
  // `stem[\w*]\s*([0-9]+(?:\.[0-9]+)?)\s*unit`: the per-field quantities
  // ---------------------------------------------------------------------------

  /** What a quantity match promises: an unsigned numeral, then the unit after optional whitespace. */
  predicate NumeralThenUnit(text: String, g: Span, unit: String) {
    g.start < g.end <= |text| && UnsignedNumeral(text[g.start..g.end])
    && OccursAt(text, unit, RunEnd(text, g.end, Spaces))
  }

  /** `\s*([0-9]+(?:\.[0-9]+)?)\s*unit` at `i`. */
  function NumeralUnitAt(text: String, i: nat, unit: String): (g: Option<Span>)
    requires i <= |text|
    ensures g.Some? ==> i <= g.value.start && NumeralThenUnit(text, g.value, unit)
  {
    var a := RunEnd(text, i, Spaces);
    match UnsignedEnd(text, a)
    case None => None
    case Some(e) => if OccursAt(text, unit, RunEnd(text, e, Spaces)) then Some(Span(a, e)) else None
  }

  /**
   * `\w*\s*([0-9]+(?:\.[0-9]+)?)\s*unit` at `i`, where `k` is how many word
   * characters `\w*` may take: the engine tries `k`, `k - 1`, ..., 0.
   */
  function WordTailAt(text: String, i: nat, k: nat, unit: String): (g: Option<Span>)
    requires i + k <= |text|
    ensures g.Some? ==> i <= g.value.start && NumeralThenUnit(text, g.value, unit)
    decreases k
  {
    match NumeralUnitAt(text, i + k, unit)
    case Some(g) => Some(g)
    case None => if k == 0 then None else WordTailAt(text, i, k - 1, unit)
  }

  function QuantityAt(text: String, p: nat, stem: String, wordTail: bool, unit: String): (g: Option<Span>)
    requires p <= |text|
    ensures g.Some? ==> OccursAt(text, stem, p) && NumeralThenUnit(text, g.value, unit)
  {
    if !OccursAt(text, stem, p) then None
    else
      var q := p + |stem|;
      if wordTail then WordTailAt(text, q, RunEnd(text, q, WordChars) - q, unit)
      else NumeralUnitAt(text, q, unit)
  }

  /** A quantity without `\w*` whose stem occurs at `p`, from what follows the stem. */
  lemma QuantityAtPlain(text: String, p: nat, stem: String, unit: String, g: Span)
    requires p + |stem| <= |text| && OccursAt(text, stem, p) && NumeralUnitAt(text, p + |stem|, unit) == Some(g)
    ensures QuantityAt(text, p, stem, false, unit) == Some(g)
  {
  }

  /**
   * A quantity with `\w*` whose stem occurs at `p`, from what follows the
   * stem: `\w*` runs to `w`, and from there the numeral and the unit match.
   */
  lemma QuantityAtWordTail(text: String, p: nat, stem: String, w: nat, unit: String, g: Span)
    requires p + |stem| <= w <= |text| && OccursAt(text, stem, p)
    requires RunEnd(text, p + |stem|, WordChars) == w && NumeralUnitAt(text, w, unit) == Some(g)
    ensures QuantityAt(text, p, stem, true, unit) == Some(g)
  {
  }

  // ---------------------------------------------------------------------------
  // `key\s*([-0-9.,]+)\s*[.…]+\s*([-0-9.,]+)(\s*unit)?`: parse_range_simple
  // ---------------------------------------------------------------------------

  /** A token of `[-0-9.,]+`. */
  predicate RangeToken(text: String, g: Span) {
    g.start < g.end <= |text| && forall j :: g.start <= j < g.end ==> InClass(text[j], RangeChars)
  }

  predicate UnitFollows(text: String, g: Span, unit: Option<String>) {
    ValidSpan(text, g) && (unit.Some? ==> OccursAt(text, unit.value, RunEnd(text, g.end, Spaces)))
  }

  /** The second group: lengths `n`, `n - 1`, ..., 1 from `t`, each checked against the unit. */
  function SecondAt(text: String, t: nat, n: nat, unit: Option<String>): (g: Option<Span>)
    requires t + n <= |text|
    ensures g.Some? ==> g.value.start == t < g.value.end <= t + n && UnitFollows(text, g.value, unit)
    decreases n
  {
    if n == 0 then None
    else if unit.None? || OccursAt(text, unit.value, RunEnd(text, t + n, Spaces)) then Some(Span(t, t + n))
    else SecondAt(text, t, n - 1, unit)
  }

  /** `\s*([-0-9.,]+)\s*unit` after a separator that ends at `e`. */
  function SecondGroup(text: String, e: nat, unit: Option<String>): (g: Option<Span>)
    requires e <= |text|
    ensures g.Some? ==> e <= g.value.start && RangeToken(text, g.value) && UnitFollows(text, g.value, unit)
  {
    var t := RunEnd(text, e, Spaces);
    SecondAt(text, t, RunEnd(text, t, RangeChars) - t, unit)
  }

  /** The separator `[.…]+` from `r`: lengths `n`, `n - 1`, ..., 1, each followed by `\s*` and the second group. */
  function SeparatorAt(text: String, r: nat, n: nat, unit: Option<String>): (g: Option<Span>)
    requires r + n <= |text|
    ensures g.Some? ==> n > 0 && r < g.value.start && RangeToken(text, g.value) && UnitFollows(text, g.value, unit)
    decreases n
  {
    if n == 0 then None
    else
      match SecondGroup(text, r + n, unit)
      case Some(g) => Some(g)
      case None => SeparatorAt(text, r, n - 1, unit)
  }

  /** `\s*[.…]+\s*([-0-9.,]+)\s*unit` after a first group that ends at `e`. */
  function RangeTail(text: String, e: nat, unit: Option<String>): (g: Option<Span>)
    requires e <= |text|
    ensures g.Some? ==>
      var r := RunEnd(text, e, Spaces);
      RangeToken(text, g.value) && r < g.value.start && InClass(text[r], Ellipsis) && UnitFollows(text, g.value, unit)
  {
    SeparatorRun(text, RunEnd(text, e, Spaces), unit)
  }

  /** `[.…]+\s*([-0-9.,]+)\s*unit` from `r`: the whole run of separator characters first. */
  function SeparatorRun(text: String, r: nat, unit: Option<String>): (g: Option<Span>)
    requires r <= |text|
    ensures g.Some? ==> RangeToken(text, g.value) && r < g.value.start && InClass(text[r], Ellipsis) && UnitFollows(text, g.value, unit)
  {
    SeparatorAt(text, r, RunEnd(text, r, Ellipsis) - r, unit)
  }

  /** The first group from `q`: lengths `n`, `n - 1`, ..., 1, each followed by the rest of the range. */
  function FirstAt(text: String, q: nat, n: nat, unit: Option<String>): (gs: Option<(Span, Span)>)
    requires q + n <= |text|
    ensures gs.Some? ==>
      var (g1, g2) := gs.value;
      g1.start == q < g1.end <= q + n && RangeToken(text, g2)
      && var r := RunEnd(text, g1.end, Spaces);
      r < g2.start && InClass(text[r], Ellipsis) && UnitFollows(text, g2, unit)
    decreases n
  {
    if n == 0 then None
    else
      match RangeTail(text, q + n, unit)
      case Some(g2) => Some((Span(q, q + n), g2))
      case None => FirstAt(text, q, n - 1, unit)
  }

  function RangeAt(text: String, p: nat, key: String, unit: Option<String>): (gs: Option<(Span, Span)>)
    requires p <= |text|
    ensures gs.Some? ==>
      var (g1, g2) := gs.value;
      OccursAt(text, key, p) && RangeToken(text, g1) && RangeToken(text, g2) && g1.end < g2.start
      && UnitFollows(text, g2, unit)
  {
    if !OccursAt(text, key, p) then None
    else
      var q := RunEnd(text, p + |key|, Spaces);
      FirstAt(text, q, RunEnd(text, q, RangeChars) - q, unit)
  }
  /** A first group ending at `e` and followed by the rest of the range is the longest candidate, so `FirstAt` takes it. */
  lemma FirstAtWhole(text: String, q: nat, e: nat, unit: Option<String>, g2: Span)
    requires q < e <= |text| && RangeTail(text, e, unit) == Some(g2)
    ensures FirstAt(text, q, e - q, unit) == Some((Span(q, e), g2))
  {
    assert q + (e - q) == e;
  }


  /**
   * The first token of a range read as a number: a run of `[-0-9,]`, then a
   * '.' and a run of `[0-9,]` when a digit or comma follows the '.'. The
   * token never ends in '.', so the dots of a `...` separator stay with the
   * separator.
   */
  function NumberTokenEnd(text: String, q: nat): (e: Option<nat>)
    requires q <= |text|
    ensures e.Some? ==> q < e.value <= |text| && text[e.value - 1] != '.'
    ensures e.Some? ==> forall j :: q <= j < e.value ==> InClass(text[j], RangeChars)
  {
    var w := RunEnd(text, q, NumberChars);
    if w == q then None
    else if w + 1 < |text| && text[w] == '.' && InClass(text[w + 1], FractionChars) then
      Some(RunEnd(text, w + 1, FractionChars))
    else Some(w)
  }

  /**
   * A two-sided range whose first side is read by `NumberTokenEnd` and never
   * shortened: `key`, whitespace, the number, then `RangeTail`.
   */
  function NumberRangeAt(text: String, p: nat, key: String, unit: Option<String>): (gs: Option<(Span, Span)>)
    requires p <= |text|
    ensures gs.Some? ==>
      var (g1, g2) := gs.value;
      OccursAt(text, key, p) && RangeToken(text, g1) && RangeToken(text, g2) && g1.end < g2.start
      && UnitFollows(text, g2, unit)
  {
    if !OccursAt(text, key, p) then None
    else
      var q := RunEnd(text, p + |key|, Spaces);
      match NumberTokenEnd(text, q)
      case None => None
      case Some(e) =>
        match RangeTail(text, e, unit)
        case None => None
        case Some(g2) => Some((Span(q, e), g2))
  }

  // ---------------------------------------------------------------------------
  // The current line and its C-rates: parse_current_range
  // ---------------------------------------------------------------------------

  /**
   * `\s*[.…]+\s*(-?\d+\.?\d*)` at `i`: the separator, then the second numeral.
   * A shorter separator would leave '.' or '…' where the numeral must start,
   * so the longest one is the only candidate.
   */
  function SeparatorThenSigned(text: String, i: nat): (g: Option<Span>)
    requires i <= |text|
    ensures g.Some? ==>
      i < g.value.start < g.value.end <= |text| && SignedNumeral(text[g.value.start..g.value.end])
  {
    var c := RunEnd(text, i, Spaces);
    var d := RunEnd(text, c, Ellipsis);
    if d == c then None
    else
      var t := RunEnd(text, d, Spaces);
      match SignedEnd(text, t)
      case None => None
      case Some(e) => Some(Span(t, e))
  }

  /** The separator and second numeral, from where each of its runs ends. */
  lemma SeparatorThenSignedAt(text: String, i: nat, c: nat, d: nat, t: nat, e: nat)
    requires i <= |text| && RunEnd(text, i, Spaces) == c && RunEnd(text, c, Ellipsis) == d && d != c
    requires RunEnd(text, d, Spaces) == t && SignedEnd(text, t) == Some(e)
    ensures SeparatorThenSigned(text, i) == Some(Span(t, e))
  {
  }

  /** `(-?\d+\.?\d*)\s*A\s*discharge\s*[.…]+\s*(\-?\d+\.?\d*)\s*A\s*charge` at `p`. */
  function CurrentPairAt(text: String, p: nat): (gs: Option<(Span, Span)>)
    requires p <= |text|
    ensures gs.Some? ==>
      var (g1, g2) := gs.value;
      g1.start == p && g1.start < g1.end < g2.start < g2.end <= |text|
      && SignedNumeral(text[g1.start..g1.end]) && SignedNumeral(text[g2.start..g2.end])
  {
    match SignedEnd(text, p)
    case None => None
    case Some(e1) =>
      match SpacedLiteral(text, e1, "A")
      case None => None
      case Some(a) =>
        match SpacedLiteral(text, a, "discharge")
        case None => None
        case Some(b) =>
          match SeparatorThenSigned(text, b)
          case None => None
          case Some(g2) =>
            match SpacedLiteral(text, g2.end, "A")
            case None => None
            case Some(c) =>
              if SpacedLiteral(text, c, "charge").Some? then Some((Span(p, e1), g2)) else None
  }

  /** The current line at `p`, from where each of its pieces ends. */
  lemma CurrentPairAtOf(text: String, p: nat, e1: nat, a: nat, b: nat, g2: Span, c: nat)
    requires p <= |text| && SignedEnd(text, p) == Some(e1) && SpacedLiteral(text, e1, "A") == Some(a)
    requires SpacedLiteral(text, a, "discharge") == Some(b) && SeparatorThenSigned(text, b) == Some(g2)
    requires SpacedLiteral(text, g2.end, "A") == Some(c) && SpacedLiteral(text, c, "charge").Some?
    ensures CurrentPairAt(text, p) == Some((Span(p, e1), g2))
  {
  }

  /** At any position the current pattern's groups are those of `CurrentPairAt`. */
  lemma CurrentMatchIsGroups(text: String, p: nat)
    requires p <= |text|
    ensures MatchAt(CurrentPair, text, p) == Pair(CurrentPairAt(text, p))
  {
  }

  /** A current line at `p` is a match of the current pattern there. */
  lemma CurrentMatchOf(text: String, p: nat, g1: Span, g2: Span)
    requires p <= |text| && CurrentPairAt(text, p) == Some((g1, g2))
    ensures MatchAt(CurrentPair, text, p) == Some([g1, g2])
  {
    CurrentMatchIsGroups(text, p);
  }

  /** `\(\s*(-?\d+\.?\d*)\s*C\s*[.…]+\s*(\-?\d+\.?\d*)\s*C\s*\)` at `p`. */
  function CRatePairAt(text: String, p: nat): (gs: Option<(Span, Span)>)
    requires p <= |text|
    ensures gs.Some? ==>
      var (g1, g2) := gs.value;
      p < g1.start < g1.end < g2.start < g2.end <= |text|
      && SignedNumeral(text[g1.start..g1.end]) && SignedNumeral(text[g2.start..g2.end])
  {
    if !OccursAt(text, "(", p) then None
    else
      var t := RunEnd(text, p + 1, Spaces);
      match SignedEnd(text, t)
      case None => None
      case Some(e1) =>
        match SpacedLiteral(text, e1, "C")
        case None => None
        case Some(a) =>
          match SeparatorThenSigned(text, a)
          case None => None
          case Some(g2) =>
            match SpacedLiteral(text, g2.end, "C")
            case None => None
            case Some(c) =>
              if SpacedLiteral(text, c, ")").Some? then Some((Span(t, e1), g2)) else None
  }

  /** The C-rate line at `p`, from where each of its pieces ends. */
  lemma CRatePairAtOf(text: String, p: nat, t: nat, e1: nat, a: nat, g2: Span, c: nat)
    requires p + 1 <= |text| && OccursAt(text, "(", p) && RunEnd(text, p + 1, Spaces) == t
    requires SignedEnd(text, t) == Some(e1) && SpacedLiteral(text, e1, "C") == Some(a)
    requires SeparatorThenSigned(text, a) == Some(g2)
    requires SpacedLiteral(text, g2.end, "C") == Some(c) && SpacedLiteral(text, c, ")").Some?
    ensures CRatePairAt(text, p) == Some((Span(t, e1), g2))
  {
  }

  /** At any position the C-rate pattern's groups are those of `CRatePairAt`. */
  lemma CRateMatchIsGroups(text: String, p: nat)
    requires p <= |text|
    ensures MatchAt(CRatePair, text, p) == Pair(CRatePairAt(text, p))
  {
  }

  /** A C-rate line at `p` is a match of the C-rate pattern there. */
  lemma CRateMatchOf(text: String, p: nat, g1: Span, g2: Span)
    requires p <= |text| && CRatePairAt(text, p) == Some((g1, g2))
    ensures MatchAt(CRatePair, text, p) == Some([g1, g2])
  {
    CRateMatchIsGroups(text, p);
  }

  // ---------------------------------------------------------------------------
  // Dimensions, weight, model version, release date
  // ---------------------------------------------------------------------------

  /** `([0-9]+(?:\.[0-9]+)?)\s*[x×]\s*([0-9]+(?:\.[0-9]+)?)` at `p`. */
  function DimensionsAt(text: String, p: nat): (gs: Option<(Span, Span)>)
    requires p <= |text|
    ensures gs.Some? ==>
      var (g1, g2) := gs.value;
      g1.start == p && g1.start < g1.end < g2.start < g2.end <= |text|
      && UnsignedNumeral(text[g1.start..g1.end]) && UnsignedNumeral(text[g2.start..g2.end])
  {
    match UnsignedEnd(text, p)
    case None => None
    case Some(e1) =>
      var x := RunEnd(text, e1, Spaces);
      if x < |text| && (text[x] == 'x' || text[x] == '\U{D7}') then
        var t := RunEnd(text, x + 1, Spaces);
        match UnsignedEnd(text, t)
        case None => None
        case Some(e2) => Some((Span(p, e1), Span(t, e2)))
      else None
  }

  /** `([0-9]+(?:\.[0-9]+)?)\s*g` at `p`. */
  function WeightAt(text: String, p: nat): (g: Option<Span>)
    requires p <= |text|
    ensures g.Some? ==> g.value.start == p && NumeralThenUnit(text, g.value, "g")
  {
    match UnsignedEnd(text, p)
    case None => None
    case Some(e) => if SpacedLiteral(text, e, "g").Some? then Some(Span(p, e)) else None
  }

  const VersionLabel: String := "Batemo Cell Model Version"

  /** `Batemo Cell Model Version\s*([0-9.]+)` at `p`. */
  function ModelVersionAt(text: String, p: nat): (g: Option<Span>)
    requires p <= |text|
    ensures g.Some? ==>
      g.value.start < g.value.end <= |text| && AllInClass(text[g.value.start..g.value.end], VersionChars)
  {
    if !OccursAt(text, VersionLabel, p) then None
    else
      var q := RunEnd(text, p + |VersionLabel|, Spaces);
      var e := RunEnd(text, q, VersionChars);
      if e == q then None
      else
        assert forall j :: 0 <= j < e - q ==> text[q..e][j] == text[q + j];
        Some(Span(q, e))
  }

  const ReleaseLabel: String := "Release Date"

  /**
   * `Release Date\s*([A-Za-z]+\s+\d{1,2},\s+\d{4})` at `p`. `\d{1,2}` must be
   * the whole digit run, since a ',' has to follow it.
   */
  function ReleaseDateAt(text: String, p: nat): (g: Option<Span>)
    requires p <= |text|
    ensures g.Some? ==>
      g.value.start + 9 <= g.value.end <= |text| && IsAsciiLetter(text[g.value.start])
      && AllDigits(text[g.value.end - 4..g.value.end])
  {
    if !OccursAt(text, ReleaseLabel, p) then None
    else
      var q := RunEnd(text, p + |ReleaseLabel|, Spaces);
      var l := RunEnd(text, q, Letters);
      var m := RunEnd(text, l, Spaces);
      var d := RunEnd(text, m, Digits);
      if l == q || m == l || d == m || d > m + 2 || !OccursAt(text, ",", d) then None
      else
        var n := RunEnd(text, d + 1, Spaces);
        if n == d + 1 || n + 4 > |text| || !AllDigits(text[n..n + 4]) then None
        else Some(Span(q, n + 4))
  }

  // ---------------------------------------------------------------------------
  // The patterns and `re.search`
  // ---------------------------------------------------------------------------

  datatype Pattern =
    | Quantity(stem: String, wordTail: bool, unit: String)
    | Range(key: String, rangeUnit: Option<String>)
    | NumberRange(key: String, rangeUnit: Option<String>)
    | CurrentPair
    | CRatePair
    | Dimensions
    | Weight
    | ModelVersion
    | ReleaseDate

  function Pair(gs: Option<(Span, Span)>): (r: Option<seq<Span>>)
    ensures r.Some? <==> gs.Some?
    ensures gs.Some? ==> |r.value| == 2 && r.value[0] == gs.value.0 && r.value[1] == gs.value.1
  {
    match gs
    case None => None
    case Some((a, b)) => Some([a, b])
  }

  function Single(g: Option<Span>): (r: Option<seq<Span>>)
    ensures r.Some? <==> g.Some?
    ensures g.Some? ==> |r.value| == 1 && r.value[0] == g.value
  {
    match g
    case None => None
    case Some(a) => Some([a])
  }

  /** Two groups in order, each an optionally signed numeral. */
  predicate SignedPair(text: String, gs: seq<Span>) {
    |gs| == 2 && gs[0].start <= gs[0].end <= gs[1].start <= gs[1].end <= |text|
    && SignedNumeral(text[gs[0].start..gs[0].end]) && SignedNumeral(text[gs[1].start..gs[1].end])
  }

  /** Two groups in order, each an unsigned numeral. */
  predicate UnsignedPair(text: String, gs: seq<Span>) {
    |gs| == 2 && gs[0].start <= gs[0].end <= gs[1].start <= gs[1].end <= |text|
    && UnsignedNumeral(text[gs[0].start..gs[0].end]) && UnsignedNumeral(text[gs[1].start..gs[1].end])
  }

  predicate RangeShape(text: String, p: nat, key: String, unit: Option<String>, gs: seq<Span>) {
    |gs| == 2 && OccursAt(text, key, p) && RangeToken(text, gs[0]) && RangeToken(text, gs[1])
    && gs[0].end < gs[1].start && UnitFollows(text, gs[1], unit)
  }

  predicate QuantityShape(text: String, p: nat, stem: String, unit: String, gs: seq<Span>) {
    |gs| == 1 && OccursAt(text, stem, p) && NumeralThenUnit(text, gs[0], unit)
  }

  predicate WeightShape(text: String, gs: seq<Span>) {
    |gs| == 1 && NumeralThenUnit(text, gs[0], "g")
  }

  predicate VersionShape(text: String, gs: seq<Span>) {
    |gs| == 1 && gs[0].start < gs[0].end <= |text| && AllInClass(text[gs[0].start..gs[0].end], VersionChars)
  }

  predicate DateShape(text: String, gs: seq<Span>) {
    |gs| == 1 && gs[0].start + 9 <= gs[0].end <= |text| && IsAsciiLetter(text[gs[0].start])
    && AllDigits(text[gs[0].end - 4..gs[0].end])
  }

  /** What each pattern's groups are when it matches at `p`. */
  predicate Shape(pat: Pattern, text: String, p: nat, gs: seq<Span>) {
    match pat
    case Quantity(stem, _, unit) => QuantityShape(text, p, stem, unit, gs)
    case Range(key, unit) => RangeShape(text, p, key, unit, gs)
    case NumberRange(key, unit) => RangeShape(text, p, key, unit, gs)
    case CurrentPair => SignedPair(text, gs)
    case CRatePair => SignedPair(text, gs)
    case Dimensions => UnsignedPair(text, gs)
    case Weight => WeightShape(text, gs)
    case ModelVersion => VersionShape(text, gs)
    case ReleaseDate => DateShape(text, gs)
  }

  /** Every group of a match lies inside the text. */
  lemma ShapeSpans(pat: Pattern, text: String, p: nat, gs: seq<Span>)
    requires Shape(pat, text, p, gs)
    ensures |gs| >= 1 && forall k :: 0 <= k < |gs| ==> ValidSpan(text, gs[k])
  {
  }

  /** The group of `QuantityAt` as a sequence. */
  function QuantityGroups(text: String, p: nat, stem: String, wordTail: bool, unit: String): (gs: Option<seq<Span>>)
    requires p <= |text|
    ensures gs.Some? ==> QuantityShape(text, p, stem, unit, gs.value)
  {
    Single(QuantityAt(text, p, stem, wordTail, unit))
  }

  /** The group of `WeightAt` as a sequence. */
  function WeightGroups(text: String, p: nat): (gs: Option<seq<Span>>)
    requires p <= |text|
    ensures gs.Some? ==> WeightShape(text, gs.value)
  {
    Single(WeightAt(text, p))
  }

  /** The group of `ModelVersionAt` as a sequence. */
  function VersionGroups(text: String, p: nat): (gs: Option<seq<Span>>)
    requires p <= |text|
    ensures gs.Some? ==> VersionShape(text, gs.value)
  {
    Single(ModelVersionAt(text, p))
  }

  /** The group of `ReleaseDateAt` as a sequence. */
  function DateGroups(text: String, p: nat): (gs: Option<seq<Span>>)
    requires p <= |text|
    ensures gs.Some? ==> DateShape(text, gs.value)
  {
    Single(ReleaseDateAt(text, p))
  }

  /** The groups of `RangeAt` as a sequence. */
  function RangeGroups(text: String, p: nat, key: String, unit: Option<String>): (gs: Option<seq<Span>>)
    requires p <= |text|
    ensures gs.Some? ==> RangeShape(text, p, key, unit, gs.value)
  {
    Pair(RangeAt(text, p, key, unit))
  }

  /** The groups of `NumberRangeAt` as a sequence. */
  function NumberRangeGroups(text: String, p: nat, key: String, unit: Option<String>): (gs: Option<seq<Span>>)
    requires p <= |text|
    ensures gs.Some? ==> RangeShape(text, p, key, unit, gs.value)
  {
    Pair(NumberRangeAt(text, p, key, unit))
  }

  /** The groups of `CurrentPairAt` as a sequence. */
  function CurrentGroups(text: String, p: nat): (gs: Option<seq<Span>>)
    requires p <= |text|
    ensures gs.Some? ==> SignedPair(text, gs.value)
  {
    Pair(CurrentPairAt(text, p))
  }

  /** The groups of `CRatePairAt` as a sequence. */
  function CRateGroups(text: String, p: nat): (gs: Option<seq<Span>>)
    requires p <= |text|
    ensures gs.Some? ==> SignedPair(text, gs.value)
  {
    Pair(CRatePairAt(text, p))
  }

  /** The groups of `DimensionsAt` as a sequence. */
  function DimensionsGroups(text: String, p: nat): (gs: Option<seq<Span>>)
    requires p <= |text|
    ensures gs.Some? ==> UnsignedPair(text, gs.value)
  {
    Pair(DimensionsAt(text, p))
  }

  /** Dimensions at `p`, from where each of their pieces ends. */
  lemma DimensionsAtOf(text: String, p: nat, e1: nat, x: nat, t: nat, e2: nat)
    requires p <= |text| && UnsignedEnd(text, p) == Some(e1) && RunEnd(text, e1, Spaces) == x
    requires x < |text| && (text[x] == 'x' || text[x] == '\U{D7}') && RunEnd(text, x + 1, Spaces) == t
    requires UnsignedEnd(text, t) == Some(e2)
    ensures DimensionsAt(text, p) == Some((Span(p, e1), Span(t, e2)))
  {
  }

  /** At any position the dimensions pattern's groups are those of `DimensionsAt`. */
  lemma DimensionsMatchIsGroups(text: String, p: nat)
    requires p <= |text|
    ensures MatchAt(Dimensions, text, p) == Pair(DimensionsAt(text, p))
  {
  }

  /** A weight at `p`: a numeral, whitespace and `g`. */
  lemma WeightAtOf(text: String, p: nat, e: nat)
    requires p <= |text| && UnsignedEnd(text, p) == Some(e) && SpacedLiteral(text, e, "g").Some?
    ensures WeightAt(text, p) == Some(Span(p, e))
  {
  }

  /** At any position the weight pattern's group is that of `WeightAt`. */
  lemma WeightMatchIsGroups(text: String, p: nat)
    requires p <= |text|
    ensures MatchAt(Weight, text, p) == Single(WeightAt(text, p))
  {
  }

  /** The model version at `p`: the label, whitespace up to `q` and version characters up to `e`. */
  lemma ModelVersionAtOf(text: String, p: nat, q: nat, e: nat)
    requires p + |VersionLabel| <= |text| && OccursAt(text, VersionLabel, p)
    requires RunEnd(text, p + |VersionLabel|, Spaces) == q && RunEnd(text, q, VersionChars) == e && e != q
    ensures ModelVersionAt(text, p) == Some(Span(q, e))
  {
  }

  /** At any position the model version pattern's group is that of `ModelVersionAt`. */
  lemma ModelVersionMatchIsGroups(text: String, p: nat)
    requires p <= |text|
    ensures MatchAt(ModelVersion, text, p) == Single(ModelVersionAt(text, p))
  {
  }

  /** The groups of `pat` when it matches with its match starting at `p`. */
  function MatchAt(pat: Pattern, text: String, p: nat): (gs: Option<seq<Span>>)
    requires p <= |text|
    ensures gs.Some? ==> Shape(pat, text, p, gs.value)
  {
    match pat
    case Quantity(stem, wordTail, unit) => QuantityGroups(text, p, stem, wordTail, unit)
    case Range(key, unit) => RangeGroups(text, p, key, unit)
    case NumberRange(key, unit) => NumberRangeGroups(text, p, key, unit)
    case CurrentPair => CurrentGroups(text, p)
    case CRatePair => CRateGroups(text, p)
    case Dimensions => DimensionsGroups(text, p)
    case Weight => WeightGroups(text, p)
    case ModelVersion => VersionGroups(text, p)
    case ReleaseDate => DateGroups(text, p)
  }

  /** `re.search(pat, text)` from position `from`: the leftmost start at which the pattern matches. */
  function Search(pat: Pattern, text: String, from: nat): (m: Option<Match>)
    ensures m.Some? ==> from <= m.value.start <= |text| && MatchAt(pat, text, m.value.start) == Some(m.value.groups)
    ensures forall p :: from <= p <= |text| && (m.None? || p < m.value.start) ==> MatchAt(pat, text, p).None?
    decreases |text| + 1 - from
  {
    if from > |text| then None
    else
      match MatchAt(pat, text, from)
      case Some(gs) => Some(Match(from, gs))
      case None => Search(pat, text, from + 1)
  }

  /** A match at `p`, with none between `from` and `p`, is the one `Search` returns. */
  lemma SearchFindsFirst(pat: Pattern, text: String, from: nat, p: nat, gs: seq<Span>)
    requires from <= p <= |text| && MatchAt(pat, text, p) == Some(gs)
    requires forall i :: from <= i < p ==> MatchAt(pat, text, i).None?
    ensures Search(pat, text, from) == Some(Match(p, gs))
  {
    var m := Search(pat, text, from);
    assert m.Some?;
    assert m.value.start == p;
  }

  /** The text of group `k` of a match. */
  function Group(text: String, pat: Pattern, m: Match, k: nat): String
    requires m.start <= |text| && Shape(pat, text, m.start, m.groups) && k < |m.groups|
  {
    ShapeSpans(pat, text, m.start, m.groups);
    SpanText(text, m.groups[k])
  }
}
