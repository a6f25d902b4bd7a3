/**
 * The field extractors of scrape_cells.py: label values from the page's
 * text nodes, blocks of the normalized text, the first number after a
 * pattern, two-sided ranges, the current line, and the small per-field
 * parsers for dimensions, weight, model version, release date and slug.
 */
module Extract {
  import opened Text
  import opened Wrappers
  import opened Numbers
  import opened Patterns
  import opened Dates

  // ---------------------------------------------------------------------------
  // extract_label_value
  // ---------------------------------------------------------------------------

  /**
   * A text node of the page in document order, with the text of its parent
   * element as `get_text(" ", strip=True)` renders it.
   */
  datatype TextNode = TextNode(content: String, parentText: String)

  /** The first node from the `k`-th on whose text starts with `prefix`, or -1. */
  function FirstNodeFrom(nodes: seq<TextNode>, prefix: String, k: nat): (i: int)
    requires k <= |nodes|
    ensures i == -1 || (k <= i < |nodes| && StartsWith(nodes[i].content, prefix))
    ensures forall j :: k <= j < |nodes| && (i == -1 || j < i) ==> !StartsWith(nodes[j].content, prefix)
    decreases |nodes| - k
  {
    if k == |nodes| then -1
    else if StartsWith(nodes[k].content, prefix) then k
    else FirstNodeFrom(nodes, prefix, k + 1)
  }

  /** `soup.find(string=re.compile("^" + re.escape(prefix)))`. */
  function FirstNode(nodes: seq<TextNode>, prefix: String): (i: int)
    ensures i == -1 || (0 <= i < |nodes| && StartsWith(nodes[i].content, prefix))
    ensures forall j :: 0 <= j < |nodes| && (i == -1 || j < i) ==> !StartsWith(nodes[j].content, prefix)
  {
    FirstNodeFrom(nodes, prefix, 0)
  }

  /**
   * `extract_label_value`: the parent text of the first node that starts
   * with `prefix`, with the first occurrence of `prefix` cut out and the
   * result stripped; nothing when there is no such node, the node is empty,
   * or nothing is left.
   */
  function ExtractLabelValue(nodes: seq<TextNode>, prefix: String): (r: Option<String>)
    ensures r.Some? ==> r.value != [] && Stripped(r.value)
    ensures FirstNode(nodes, prefix) == -1 ==> r.None?
    ensures r.Some? ==> var i := FirstNode(nodes, prefix);
      i != -1 && r.value == Strip(RemoveFirst(nodes[i].parentText, prefix))
    ensures var i := FirstNode(nodes, prefix);
      r.Some? <==> i != -1 && nodes[i].content != [] && Strip(RemoveFirst(nodes[i].parentText, prefix)) != []
  {
    var i := FirstNode(nodes, prefix);
    if i == -1 || nodes[i].content == [] then None
    else
      var v := Strip(RemoveFirst(nodes[i].parentText, prefix));
      if v == [] then None else Some(v)
  }

  lemma StripOfSpaceThen(v: String)
    requires v != [] && Stripped(v)
    ensures Strip(" " + v) == v
  {
    assert (" " + v)[1..] == v;
    assert LStrip(" " + v) == LStrip(v);
  }

  /**
   * A parent rendered as the label, a space and a value gives that value:
   * "Cell Origin sourced by Batemo" gives "sourced by Batemo".
   */
  lemma {:induction false} LabelValueOfLabelledParent(nodes: seq<TextNode>, prefix: String, v: String)
    requires prefix != [] && FirstNode(nodes, prefix) != -1
    requires nodes[FirstNode(nodes, prefix)].parentText == prefix + " " + v
    requires v != [] && Stripped(v)
    ensures ExtractLabelValue(nodes, prefix) == Some(v)
  {
    var i := FirstNode(nodes, prefix);
    var full := prefix + " " + v;
    assert OccursAt(full, prefix, 0);
    assert Find(full, prefix, 0) == 0;
    assert RemoveFirst(full, prefix) == " " + v;
    StripOfSpaceThen(v);
  }

  // ---------------------------------------------------------------------------
  // extract_block
  // ---------------------------------------------------------------------------

  /**
   * Where the block ends when it is scanned for `labels` from `from`: the
   * least position at or after `from` where one of them occurs, or the end
   * of the text. Defined the way the loop computes it, label by label.
   */
  function Boundary(text: String, from: nat, labels: seq<String>): (e: nat)
    requires from <= |text|
    ensures from <= e <= |text|
    decreases |labels|
  {
    if labels == [] then |text|
    else
      var e := Boundary(text, from, labels[..|labels| - 1]);
      var j := Find(text, labels[|labels| - 1], from);
      if j != -1 && j < e then j else e
  }

  function LabelSet(labels: seq<String>): set<String> {
    set l | l in labels
  }

  /** `e` is the nearest occurrence at or after `from` of any of `labels`, or the end of the text. */
  predicate IsNearestBoundary(text: String, from: nat, labels: set<String>, e: nat) {
    from <= e <= |text|
    && (forall l, i :: l in labels && from <= i < e ==> !OccursAt(text, l, i))
    && (e == |text| || exists l :: l in labels && OccursAt(text, l, e))
  }

  lemma {:induction false} BoundaryIsNearest(text: String, from: nat, labels: seq<String>)
    requires from <= |text|
    ensures IsNearestBoundary(text, from, LabelSet(labels), Boundary(text, from, labels))
    decreases |labels|
  {
    if labels != [] {
      var init := labels[..|labels| - 1];
      var last := labels[|labels| - 1];
      BoundaryIsNearest(text, from, init);
      assert labels == init + [last];
      assert LabelSet(labels) == LabelSet(init) + {last};
    }
  }

  /** There is only one nearest boundary. */
  lemma NearestBoundaryUnique(text: String, from: nat, labels: set<String>, e1: nat, e2: nat)
    requires IsNearestBoundary(text, from, labels, e1) && IsNearestBoundary(text, from, labels, e2)
    ensures e1 == e2
  {
  }

  /** The order of the next labels, and repetitions among them, do not change where the block ends. */
  lemma BoundaryOrderIndependent(text: String, from: nat, labels1: seq<String>, labels2: seq<String>)
    requires from <= |text|
    requires forall l :: l in labels1 <==> l in labels2
    ensures Boundary(text, from, labels1) == Boundary(text, from, labels2)
  {
    BoundaryIsNearest(text, from, labels1);
    BoundaryIsNearest(text, from, labels2);
    assert (LabelSet(labels1)) == (LabelSet(labels2));
    NearestBoundaryUnique(text, from, LabelSet(labels1),
      Boundary(text, from, labels1), Boundary(text, from, labels2));
  }

  /**
   * `extract_block`: from the first occurrence of `start` (included) up to
   * the nearest later occurrence of one of `labels`, or nothing when `start`
   * does not occur.
   */
  function Block(text: String, start: String, labels: seq<String>): (r: Option<String>)
    ensures r.None? <==> Find(text, start, 0) == -1
  {
    var i := Find(text, start, 0);
    if i == -1 then None else Some(text[i..Boundary(text, i + |start|, labels)])
  }

  /**
   * What the block is: it starts with `start` at its first occurrence, it
   * holds none of the next labels after that, and it ends at the end of the
   * text or right where one of them begins.
   */
  lemma {:induction false} BlockSpec(text: String, start: String, labels: seq<String>)
    requires Find(text, start, 0) != -1
    ensures var i := Find(text, start, 0); var r := Block(text, start, labels).value;
      StartsWith(r, start) && i + |r| <= |text| && r == text[i..i + |r|]
      && IsNearestBoundary(text, i + |start|, LabelSet(labels), i + |r|)
  {
    var i := Find(text, start, 0);
    BoundaryIsNearest(text, i + |start|, labels);
    var r := Block(text, start, labels).value;
    assert r[..|start|] == text[i..i + |start|];
  }

  /** `extract_block`, scanning the next labels in order and keeping the least position found. */
  method ExtractBlock(text: String, start: String, nextLabels: seq<String>) returns (r: Option<String>)
    ensures r == Block(text, start, nextLabels)
  {
    var idxStart := Find(text, start, 0);
    if idxStart == -1 {
      return None;
    }
    var idxFrom := idxStart + |start|;
    var idxEnd := |text|;
    for k := 0 to |nextLabels|
      invariant idxEnd == Boundary(text, idxFrom, nextLabels[..k])
    {
      var j := Find(text, nextLabels[k], idxFrom);
      assert nextLabels[..k + 1][..k] == nextLabels[..k];
      if j != -1 && j < idxEnd {
        idxEnd := j;
      }
    }
    assert nextLabels[..|nextLabels|] == nextLabels;
    return Some(text[idxStart..idxEnd]);
  }

  // ---------------------------------------------------------------------------
  // parse_first_float
  // ---------------------------------------------------------------------------

  /**
   * `parse_first_float`: the first group of the leftmost match of `pat` read
   * by `to_float`; nothing for a missing or empty text or when nothing
   * matches. With the quantity patterns a match always gives a number, and
   * never a negative one.
   */
  function ParseFirstFloat(patternText: Option<String>, pat: Pattern): (r: Option<real>)
    ensures patternText.None? || patternText.value == [] ==> r.None?
    ensures patternText.Some? && Search(pat, patternText.value, 0).None? ==> r.None?
    ensures pat.Quantity? ==>
      (r.Some? <==> patternText.Some? && patternText.value != [] && Search(pat, patternText.value, 0).Some?)
    ensures pat.Quantity? && r.Some? ==> r.value >= 0.0
    ensures patternText.Some? && patternText.value != [] && Search(pat, patternText.value, 0).Some? ==>
      var t := patternText.value; var m := Search(pat, t, 0).value;
      |m.groups| >= 1 && r == ToFloat(Some(Group(t, pat, m, 0)))
  {
    if patternText.None? || patternText.value == [] then None
    else
      var t := patternText.value;
      match Search(pat, t, 0)
      case None => None
      case Some(m) =>
        ShapeSpans(pat, t, m.start, m.groups);
        var g := Group(t, pat, m, 0);
        assert pat.Quantity? ==> ToFloat(Some(g)).Some? && ToFloat(Some(g)).value >= 0.0 by {
          if pat.Quantity? {
            ToFloatUnsignedNumeral(g);
          }
        }
        ToFloat(Some(g))
  }

  // ---------------------------------------------------------------------------
  // parse_range_simple and parse_current_range
  // ---------------------------------------------------------------------------

  /** `if unit:` in `parse_range_simple`: an empty unit counts as none. */
  function GivenUnit(unit: Option<String>): (u: Option<String>)
    ensures u.Some? <==> unit.Some? && unit.value != []
    ensures u.Some? ==> u == unit
  {
    if unit.Some? && unit.value != [] then unit else None
  }

  /**
   * `parse_range_simple` as written: the two tokens of the leftmost match of
   * `key\s*([-0-9.,]+)\s*[.…]+\s*([-0-9.,]+)\s*unit`, each read by
   * `to_float`; (nothing, nothing) without a match. The first group may
   * swallow dots of the separator (see `ParseRangeSimpleAsWrittenSplitsNumber`).
   */
  function ParseRangeSimpleAsWritten(text: String, key: String, unit: Option<String>): (r: (Option<real>, Option<real>))
    ensures Search(Range(key, GivenUnit(unit)), text, 0).None? ==> r == (None, None)
    ensures var pat := Range(key, GivenUnit(unit)); var w := Search(pat, text, 0);
      w.Some? ==> r == (ToFloat(Some(Group(text, pat, w.value, 0))), ToFloat(Some(Group(text, pat, w.value, 1))))
    ensures Find(text, key, 0) == -1 ==> r == (None, None)
  {
    var pat := Range(key, GivenUnit(unit));
    match Search(pat, text, 0)
    case None => (None, None)
    case Some(m) => (ToFloat(Some(Group(text, pat, m, 0))), ToFloat(Some(Group(text, pat, m, 1))))
  }

  /**
   * `parse_range_simple` with the first side read as a whole number
   * (`NumberRangeAt`): the two tokens of the leftmost match, each read by
   * `to_float`; (nothing, nothing) without a match. An empty unit counts as
   * no unit.
   */
  function ParseRangeSimple(text: String, key: String, unit: Option<String>): (r: (Option<real>, Option<real>))
    ensures Search(NumberRange(key, GivenUnit(unit)), text, 0).None? ==> r == (None, None)
    ensures var pat := NumberRange(key, GivenUnit(unit)); var w := Search(pat, text, 0);
      w.Some? ==> r == (ToFloat(Some(Group(text, pat, w.value, 0))), ToFloat(Some(Group(text, pat, w.value, 1))))
    ensures Find(text, key, 0) == -1 ==> r == (None, None)
  {
    var pat := NumberRange(key, GivenUnit(unit));
    match Search(pat, text, 0)
    case None => (None, None)
    case Some(m) => (ToFloat(Some(Group(text, pat, m, 0))), ToFloat(Some(Group(text, pat, m, 1))))
  }

  /**
   * How a page writes the lower end of a range: characters of `[-0-9.,]`,
   * neither starting nor ending with '.', and after a '.' only digits and
   * commas.
   */
  predicate NumberToken(a: String) {
    |a| > 0 && a[0] != '.' && a[|a| - 1] != '.' && AllInClass(a, RangeChars)
    && forall i, j :: 0 <= i < j < |a| && a[i] == '.' ==> InClass(a[j], FractionChars)
  }

  /** `NumberTokenEnd` reads exactly the number token `a` at `q` when no number character follows it. */
  lemma NumberTokenEndOf(text: String, q: nat, a: String)
    requires q + |a| < |text| && text[q..q + |a|] == a && NumberToken(a)
    requires !InClass(text[q + |a|], FractionChars) && text[q + |a|] != '-'
    requires text[q + |a|] == '.' && q + |a| + 1 < |text| ==> !InClass(text[q + |a| + 1], FractionChars)
    ensures NumberTokenEnd(text, q) == Some(q + |a|)
  {
    var e := q + |a|;
    assert forall j :: q <= j < e ==> text[j] == a[j - q];
    var k := Find(a, ".", 0);
    if k == -1 {
      forall j | q <= j < e ensures InClass(text[j], NumberChars) {
        assert !OccursAt(a, ".", j - q);
      }
      RunEndAt(text, q, e, NumberChars);
    } else {
      assert a[k] == '.' && 0 < k < |a| - 1;
      forall j | q <= j < q + k ensures InClass(text[j], NumberChars) {
        assert !OccursAt(a, ".", j - q);
      }
      RunEndAt(text, q, q + k, NumberChars);
      RunEndAt(text, q + k + 1, e, FractionChars);
    }
  }

  /**
   * The text from `p4` on: the separator run (`p4` to `p5`), whitespace, the
   * second token (`p6` to `p7`), whitespace and the unit at `p8`.
   */
  predicate SecondLayout(text: String, p4: nat, p5: nat, p6: nat, p7: nat, p8: nat, unit: String) {
    p4 < p5 <= p6 < p7 <= p8 && p8 + |unit| <= |text| && |unit| > 0
    && AllInClass(text[p4..p5], Ellipsis) && AllInClass(text[p5..p6], Spaces)
    && AllInClass(text[p6..p7], RangeChars) && AllInClass(text[p7..p8], Spaces)
    && text[p6] != '.' && OccursAt(text, unit, p8)
    && !IsSpace(unit[0]) && !InClass(unit[0], RangeChars)
  }

  /**
   * The text from `p1` to `p6`: whitespace, the number token `a` (`p2` to
   * `p3`), whitespace, the separator run (`p4` to `p5`) and whitespace.
   */
  predicate FirstLayout(text: String, p1: nat, p2: nat, p3: nat, p4: nat, p5: nat, p6: nat, a: String) {
    p1 <= p2 < p3 <= p4 < p5 <= p6 < |text|
    && AllInClass(text[p1..p2], Spaces) && text[p2..p3] == a && NumberToken(a)
    && AllInClass(text[p3..p4], Spaces) && AllInClass(text[p4..p5], Ellipsis)
    && (p5 - p4 > 1 || text[p4] != '.' || p3 < p4 || p5 < p6)
    && AllInClass(text[p5..p6], Spaces)
  }

  /** A run of class `k` written as the slice `text[i..e]`, and not followed by class `k`, is what `RunEnd` finds. */
  lemma RunEndOfSlice(text: String, i: nat, e: nat, k: CharClass)
    requires i <= e <= |text| && AllInClass(text[i..e], k)
    requires e == |text| || !InClass(text[e], k)
    ensures RunEnd(text, i, k) == e
  {
    forall j | i <= j < e ensures InClass(text[j], k) {
      assert text[j] == text[i..e][j - i];
    }
    RunEndAt(text, i, e, k);
  }

  /** The runs that `SecondLayout` describes, as `RunEnd` finds them. */
  lemma SecondLayoutRuns(text: String, p3: nat, p4: nat, p5: nat, p6: nat, p7: nat, p8: nat, unit: String)
    requires SecondLayout(text, p4, p5, p6, p7, p8, unit)
    requires p3 <= p4 && AllInClass(text[p3..p4], Spaces)
    ensures RunEnd(text, p3, Spaces) == p4 && RunEnd(text, p4, Ellipsis) == p5 && RunEnd(text, p5, Spaces) == p6
    ensures RunEnd(text, p6, RangeChars) == p7 && RunEnd(text, p7, Spaces) == p8
  {
    assert text[p8] == unit[0];
    assert text[p4] == text[p4..p5][0] && text[p6] == text[p6..p7][0];
    RunEndOfSlice(text, p3, p4, Spaces);
    RunEndOfSlice(text, p4, p5, Ellipsis);
    RunEndOfSlice(text, p5, p6, Spaces);
    RunEndOfSlice(text, p6, p7, RangeChars);
    RunEndOfSlice(text, p7, p8, Spaces);
  }

  /** A token run that ends at `e` and is followed by the unit is taken whole by `SecondAt`. */
  lemma {:induction false} SecondAtWhole(text: String, t: nat, e: nat, unit: String)
    requires t <= |text| && RunEnd(text, t, RangeChars) == e && t < e
    requires OccursAt(text, unit, RunEnd(text, e, Spaces))
    ensures SecondAt(text, t, e - t, Some(unit)) == Some(Span(t, e))
  {
    assert t + (e - t) == e;
  }

  /** After the whitespace that ends at `t`, `SecondGroup` looks for the second token from `t`. */
  lemma {:induction false} SecondGroupUnfold(text: String, e: nat, t: nat, unit: Option<String>)
    requires e <= |text| && RunEnd(text, e, Spaces) == t
    ensures SecondGroup(text, e, unit) == SecondAt(text, t, RunEnd(text, t, RangeChars) - t, unit)
  {
  }

  /** Whitespace from `e` to `t`, a token run from `t` to `f`, and the unit after whitespace: `SecondGroup` takes the whole run. */
  lemma {:induction false} SecondGroupWhole(text: String, e: nat, t: nat, f: nat, unit: String)
    requires e <= |text| && RunEnd(text, e, Spaces) == t && RunEnd(text, t, RangeChars) == f && t < f
    requires OccursAt(text, unit, RunEnd(text, f, Spaces))
    ensures SecondGroup(text, e, Some(unit)) == Some(Span(t, f))
  {
    SecondAtWhole(text, t, f, unit);
    SecondGroupUnfold(text, e, t, Some(unit));
  }

  /** A separator run from `r` to `s` followed by a second group `g` is taken whole by `SeparatorRun`. */
  lemma {:induction false} SeparatorRunWhole(text: String, r: nat, s: nat, unit: Option<String>, g: Span)
    requires r < s <= |text| && RunEnd(text, r, Ellipsis) == s && SecondGroup(text, s, unit) == Some(g)
    ensures SeparatorRun(text, r, unit) == Some(g)
  {
    assert r + (s - r) == s;
  }

  /** `RangeTail` from `e`: the whitespace up to `r`, then `SeparatorRun` from `r`. */
  lemma {:induction false} RangeTailWhole(text: String, e: nat, r: nat, unit: Option<String>, g: Span)
    requires e <= |text| && RunEnd(text, e, Spaces) == r && SeparatorRun(text, r, unit) == Some(g)
    ensures RangeTail(text, e, unit) == Some(g)
  {
  }

  /** Whitespace, a separator run, whitespace, the second token and whitespace before the unit: `RangeTail` takes the whole token. */
  lemma {:induction false} RangeTailOfRuns(text: String, p3: nat, p4: nat, p5: nat, p6: nat, p7: nat, p8: nat, unit: String)
    requires p3 <= |text|
    requires RunEnd(text, p3, Spaces) == p4 && RunEnd(text, p4, Ellipsis) == p5 && p4 < p5
    requires RunEnd(text, p5, Spaces) == p6 && RunEnd(text, p6, RangeChars) == p7 && p6 < p7
    requires RunEnd(text, p7, Spaces) == p8 && OccursAt(text, unit, p8)
    ensures RangeTail(text, p3, Some(unit)) == Some(Span(p6, p7))
  {
    SecondGroupWhole(text, p5, p6, p7, unit);
    SeparatorRunWhole(text, p4, p5, Some(unit), Span(p6, p7));
    RangeTailWhole(text, p3, p4, Some(unit), Span(p6, p7));
  }

  /** After the whitespace before it, the number token is read to its end `p3`. */
  lemma NumberTokenWritten(text: String, p1: nat, p2: nat, p3: nat, p4: nat, p5: nat, p6: nat, a: String)
    requires FirstLayout(text, p1, p2, p3, p4, p5, p6, a)
    ensures RunEnd(text, p1, Spaces) == p2
    ensures NumberTokenEnd(text, p2) == Some(p3)
  {
    assert text[p2] == a[0];
    assert !IsSpace(text[p2]) by {
      assert InClass(a[0], RangeChars);
    }
    RunEndOfSlice(text, p1, p2, Spaces);
    assert !InClass(text[p3], FractionChars) && text[p3] != '-' by {
      if p3 < p4 {
        assert IsSpace(text[p3..p4][0]);
      } else {
        assert InClass(text[p4..p5][0], Ellipsis);
      }
    }
    assert text[p3] == '.' ==> !InClass(text[p3 + 1], FractionChars) by {
      if p3 == p4 && text[p3] == '.' {
        if p5 - p4 > 1 {
          assert InClass(text[p4..p5][1], Ellipsis);
        } else {
          assert IsSpace(text[p5..p6][0]);
        }
      }
    }
    NumberTokenEndOf(text, p2, a);
  }

  /** `NumberRangeAt` at `p0` once `key`, the whitespace, the number token and the tail have been read. */
  lemma NumberRangeAtOfRuns(text: String, key: String, unit: String, p0: nat, p1: nat, p2: nat, p3: nat, p6: nat, p7: nat)
    requires OccursAt(text, key, p0) && p1 == p0 + |key|
    requires RunEnd(text, p1, Spaces) == p2 && NumberTokenEnd(text, p2) == Some(p3)
    requires RangeTail(text, p3, Some(unit)) == Some(Span(p6, p7))
    ensures NumberRangeAt(text, p0, key, Some(unit)) == Some((Span(p2, p3), Span(p6, p7)))
  {
    assert RunEnd(text, p0 + |key|, Spaces) == p2;
  }

  /** When the token is followed by whitespace or by a separator that is not a '.', the run of `[-0-9.,]` from `p2` is the token. */
  lemma NumberTokenRun(text: String, p1: nat, p2: nat, p3: nat, p4: nat, p5: nat, p6: nat, a: String)
    requires FirstLayout(text, p1, p2, p3, p4, p5, p6, a)
    requires p3 < p4 || text[p4] != '.'
    ensures RunEnd(text, p2, RangeChars) == p3
  {
    assert AllInClass(text[p2..p3], RangeChars);
    if p3 < p4 {
      assert IsSpace(text[p3..p4][0]);
    } else {
      assert InClass(text[p4..p5][0], Ellipsis);
    }
    RunEndOfSlice(text, p2, p3, RangeChars);
  }

  /** `RangeAt` at `p0` when the run of `[-0-9.,]` after the whitespace is exactly the first token and the tail follows it. */
  lemma RangeAtOfRuns(text: String, key: String, unit: String, p0: nat, p1: nat, p2: nat, p3: nat, p6: nat, p7: nat)
    requires OccursAt(text, key, p0) && p1 == p0 + |key|
    requires RunEnd(text, p1, Spaces) == p2 && p2 < p3 && RunEnd(text, p2, RangeChars) == p3
    requires RangeTail(text, p3, Some(unit)) == Some(Span(p6, p7))
    ensures RangeAt(text, p0, key, Some(unit)) == Some((Span(p2, p3), Span(p6, p7)))
  {
    assert RunEnd(text, p0 + |key|, Spaces) == p2;
    FirstAtWhole(text, p2, p3, Some(unit), Span(p6, p7));
  }

  /** `ParseRangeSimpleAsWritten` once the leftmost match of its pattern is known to start at `p0` with groups `g1` and `g2`. */
  lemma ParseRangeSimpleAsWrittenOfMatch(text: String, key: String, unit: String, p0: nat, g1: Span, g2: Span)
    requires p0 <= |text| && RangeAt(text, p0, key, Some(unit)) == Some((g1, g2))
    requires forall i :: 0 <= i < p0 ==> !OccursAt(text, key, i)
    requires unit != []
    ensures ParseRangeSimpleAsWritten(text, key, Some(unit))
         == (ToFloat(Some(text[g1.start..g1.end])), ToFloat(Some(text[g2.start..g2.end])))
  {
    var u := Some(unit);
    var pat := Range(key, u);
    forall i | 0 <= i < p0 ensures MatchAt(pat, text, i).None? {
    }
    assert GivenUnit(u) == u;
    assert MatchAt(pat, text, p0) == Some([g1, g2]);
    SearchFindsFirst(pat, text, 0, p0, [g1, g2]);
  }

  /** `ParseRangeSimple` once the leftmost match of its pattern is known to start at `p0` with groups `a` and `b`. */
  lemma ParseRangeSimpleOfMatch(text: String, key: String, unit: String, p0: nat, g1: Span, g2: Span)
    requires p0 <= |text| && NumberRangeAt(text, p0, key, Some(unit)) == Some((g1, g2))
    requires forall i :: 0 <= i < p0 ==> !OccursAt(text, key, i)
    requires unit != []
    ensures ParseRangeSimple(text, key, Some(unit))
         == (ToFloat(Some(text[g1.start..g1.end])), ToFloat(Some(text[g2.start..g2.end])))
  {
    var u := Some(unit);
    var pat := NumberRange(key, u);
    forall i | 0 <= i < p0 ensures MatchAt(pat, text, i).None? {
    }
    assert GivenUnit(u) == u;
    assert MatchAt(pat, text, p0) == Some([g1, g2]);
    SearchFindsFirst(pat, text, 0, p0, [g1, g2]);
  }

  /** `ParseRangeSimple` on a text laid out from the first occurrence of `key` at `p0` as `FirstLayout` and `SecondLayout` say. */
  lemma ParseRangeSimpleAt(text: String, key: String, a: String, b: String, unit: String,
                           p0: nat, p1: nat, p2: nat, p3: nat, p4: nat, p5: nat, p6: nat, p7: nat, p8: nat)
    requires OccursAt(text, key, p0) && p1 == p0 + |key|
    requires forall i :: 0 <= i < p0 ==> !OccursAt(text, key, i)
    requires FirstLayout(text, p1, p2, p3, p4, p5, p6, a)
    requires SecondLayout(text, p4, p5, p6, p7, p8, unit)
    requires text[p6..p7] == b
    ensures ParseRangeSimple(text, key, Some(unit)) == (ToFloat(Some(a)), ToFloat(Some(b)))
    ensures p3 < p4 || text[p4] != '.' ==>
      ParseRangeSimpleAsWritten(text, key, Some(unit)) == (ToFloat(Some(a)), ToFloat(Some(b)))
  {
    NumberTokenWritten(text, p1, p2, p3, p4, p5, p6, a);
    SecondLayoutRuns(text, p3, p4, p5, p6, p7, p8, unit);
    RangeTailOfRuns(text, p3, p4, p5, p6, p7, p8, unit);
    NumberRangeAtOfRuns(text, key, unit, p0, p1, p2, p3, p6, p7);
    ParseRangeSimpleOfMatch(text, key, unit, p0, Span(p2, p3), Span(p6, p7));
    if p3 < p4 || text[p4] != '.' {
      NumberTokenRun(text, p1, p2, p3, p4, p5, p6, a);
      RangeAtOfRuns(text, key, unit, p0, p1, p2, p3, p6, p7);
      ParseRangeSimpleAsWrittenOfMatch(text, key, unit, p0, Span(p2, p3), Span(p6, p7));
    }
  }

  /** Splits the part of `text` from `p` that is `y + z`. */
  lemma SplitAt(text: String, p: nat, y: String, z: String)
    requires p <= |text| && text[p..] == y + z
    ensures p + |y| <= |text| && text[p..p + |y|] == y && text[p + |y|..] == z
  {
    assert text[p..p + |y|] == text[p..][..|y|];
    assert text[p + |y|..] == text[p..][|y|..];
  }

  /** The first occurrence of `key` in `pre + key + rest` is at `|pre|` when it is in `pre + key`. */
  lemma FirstOccurrence(pre: String, key: String, rest: String)
    requires Find(pre + key, key, 0) == |pre|
    ensures forall i :: 0 <= i < |pre| ==> !OccursAt(pre + key + rest, key, i)
  {
    var text := pre + key + rest;
    forall i | 0 <= i < |pre| ensures !OccursAt(text, key, i) {
      if OccursAt(text, key, i) {
        assert (pre + key)[i..i + |key|] == text[i..i + |key|];
        assert OccursAt(pre + key, key, i);
      }
    }
  }

  /** The separator, the second token and the unit written one after the other, with whitespace between: `SecondLayout`. */
  lemma SecondLayoutOf(text: String, p4: nat, sep: String, s3: String, b: String, s4: String, unit: String, post: String)
    requires p4 <= |text| && text[p4..] == sep + (s3 + (b + (s4 + (unit + post))))
    requires AllInClass(s3, Spaces) && AllInClass(s4, Spaces)
    requires |sep| > 0 && AllInClass(sep, Ellipsis)
    requires |b| > 0 && AllInClass(b, RangeChars) && b[0] != '.'
    requires |unit| > 0 && !IsSpace(unit[0]) && !InClass(unit[0], RangeChars)
    ensures var p5 := p4 + |sep|; var p6 := p5 + |s3|; var p7 := p6 + |b|;
      SecondLayout(text, p4, p5, p6, p7, p7 + |s4|, unit) && text[p6..p7] == b
  {
    var p5 := p4 + |sep|;
    var p6 := p5 + |s3|;
    var p7 := p6 + |b|;
    SplitAt(text, p4, sep, s3 + (b + (s4 + (unit + post))));
    SplitAt(text, p5, s3, b + (s4 + (unit + post)));
    SplitAt(text, p6, b, s4 + (unit + post));
    SplitAt(text, p7, s4, unit + post);
    SplitAt(text, p7 + |s4|, unit, post);
    assert text[p6] == b[0];
  }

  /** `key`, then the number token and the separator with whitespace around them: `FirstLayout` and what follows. */
  lemma FirstLayoutOf(text: String, p0: nat, key: String, s1: String, a: String, s2: String, sep: String,
                      s3: String, rest: String)
    requires p0 <= |text| && text[p0..] == key + (s1 + (a + (s2 + (sep + (s3 + rest)))))
    requires AllInClass(s1, Spaces) && AllInClass(s2, Spaces) && AllInClass(s3, Spaces)
    requires NumberToken(a) && |sep| > 0 && AllInClass(sep, Ellipsis) && |rest| > 0
    requires |sep| > 1 || sep[0] != '.' || s2 != [] || s3 != []
    ensures var p1 := p0 + |key|; var p2 := p1 + |s1|; var p3 := p2 + |a|; var p4 := p3 + |s2|;
      var p5 := p4 + |sep|;
      OccursAt(text, key, p0) && FirstLayout(text, p1, p2, p3, p4, p5, p5 + |s3|, a)
      && text[p4..] == sep + (s3 + rest)
  {
    var p1 := p0 + |key|;
    var p2 := p1 + |s1|;
    var p3 := p2 + |a|;
    var p4 := p3 + |s2|;
    var p5 := p4 + |sep|;
    KeyAndTokenOf(text, p0, key, s1, a, s2, sep + (s3 + rest));
    SplitAt(text, p4, sep, s3 + rest);
    SplitAt(text, p5, s3, rest);
  }

  /** The key, whitespace, the number token and whitespace, each at its place in `text`. */
  lemma KeyAndTokenOf(text: String, p0: nat, key: String, s1: String, a: String, s2: String, rest: String)
    requires p0 <= |text| && text[p0..] == key + (s1 + (a + (s2 + rest)))
    ensures var p1 := p0 + |key|; var p2 := p1 + |s1|; var p3 := p2 + |a|; var p4 := p3 + |s2|;
      p4 <= |text| && OccursAt(text, key, p0) && text[p1..p2] == s1 && text[p2..p3] == a
      && text[p3..p4] == s2 && text[p4..] == rest
  {
    var p1 := p0 + |key|;
    var p2 := p1 + |s1|;
    var p3 := p2 + |a|;
    SplitAt(text, p0, key, s1 + (a + (s2 + rest)));
    SplitAt(text, p1, s1, a + (s2 + rest));
    SplitAt(text, p2, a, s2 + rest);
    SplitAt(text, p3, s2, rest);
  }

  /** `ParseRangeSimpleWritten` for the text from the first occurrence of `key` at `p0` on. */
  lemma ParseRangeSimpleFrom(text: String, p0: nat, key: String, s1: String, a: String, s2: String,
                             sep: String, s3: String, b: String, s4: String, unit: String, post: String)
    requires p0 <= |text| && text[p0..] == key + (s1 + (a + (s2 + (sep + (s3 + (b + (s4 + (unit + post))))))))
    requires forall i :: 0 <= i < p0 ==> !OccursAt(text, key, i)
    requires AllInClass(s1, Spaces) && AllInClass(s2, Spaces) && AllInClass(s3, Spaces) && AllInClass(s4, Spaces)
    requires NumberToken(a)
    requires |sep| > 0 && AllInClass(sep, Ellipsis)
    requires |sep| > 1 || sep[0] != '.' || s2 != [] || s3 != []
    requires |b| > 0 && AllInClass(b, RangeChars) && b[0] != '.'
    requires |unit| > 0 && !IsSpace(unit[0]) && !InClass(unit[0], RangeChars)
    ensures ParseRangeSimple(text, key, Some(unit)) == (ToFloat(Some(a)), ToFloat(Some(b)))
    ensures s2 != [] || sep[0] != '.' ==>
      ParseRangeSimpleAsWritten(text, key, Some(unit)) == (ToFloat(Some(a)), ToFloat(Some(b)))
  {
    FirstLayoutOf(text, p0, key, s1, a, s2, sep, s3, b + (s4 + (unit + post)));
    var p4 := p0 + |key| + |s1| + |a| + |s2|;
    RangeFromSeparator(text, p0, key, s1, a, s2, p4, sep, s3, b, s4, unit, post);
  }

  /** The second half of a written range, once the first half is laid out up to the separator at `p4`. */
  lemma RangeFromSeparator(text: String, p0: nat, key: String, s1: String, a: String, s2: String, p4: nat,
                           sep: String, s3: String, b: String, s4: String, unit: String, post: String)
    requires p4 == p0 + |key| + |s1| + |a| + |s2| && p4 <= |text|
    requires OccursAt(text, key, p0) && forall i :: 0 <= i < p0 ==> !OccursAt(text, key, i)
    requires FirstLayout(text, p0 + |key|, p0 + |key| + |s1|, p0 + |key| + |s1| + |a|, p4, p4 + |sep|,
                         p4 + |sep| + |s3|, a)
    requires text[p4..] == sep + (s3 + (b + (s4 + (unit + post))))
    requires AllInClass(s3, Spaces) && AllInClass(s4, Spaces)
    requires |sep| > 0 && AllInClass(sep, Ellipsis)
    requires |b| > 0 && AllInClass(b, RangeChars) && b[0] != '.'
    requires |unit| > 0 && !IsSpace(unit[0]) && !InClass(unit[0], RangeChars)
    ensures ParseRangeSimple(text, key, Some(unit)) == (ToFloat(Some(a)), ToFloat(Some(b)))
    ensures s2 != [] || sep[0] != '.' ==>
      ParseRangeSimpleAsWritten(text, key, Some(unit)) == (ToFloat(Some(a)), ToFloat(Some(b)))
  {
    SecondLayoutOf(text, p4, sep, s3, b, s4, unit, post);
    assert text[p4] == sep[0];
    var p7 := p4 + |sep| + |s3| + |b|;
    ParseRangeSimpleAt(text, key, a, b, unit, p0, p0 + |key|, p0 + |key| + |s1|, p0 + |key| + |s1| + |a|, p4,
                       p4 + |sep|, p4 + |sep| + |s3|, p7, p7 + |s4|);
  }

  /**
   * The intended reading of a written range: after the first occurrence of
   * `key`, a number token, a separator of dots or ellipses and a second token
   * followed by the unit, with whitespace anywhere between them, give the two
   * tokens' values. A lone '.' as the separator needs whitespace on one side,
   * or it would read as the number's decimal point.
   */
  lemma {:induction false} ParseRangeSimpleWritten(pre: String, key: String, s1: String, a: String, s2: String,
                                                   sep: String, s3: String, b: String, s4: String, unit: String,
                                                   post: String)
    requires Find(pre + key, key, 0) == |pre|
    requires AllInClass(s1, Spaces) && AllInClass(s2, Spaces) && AllInClass(s3, Spaces) && AllInClass(s4, Spaces)
    requires NumberToken(a)
    requires |sep| > 0 && AllInClass(sep, Ellipsis)
    requires |sep| > 1 || sep[0] != '.' || s2 != [] || s3 != []
    requires |b| > 0 && AllInClass(b, RangeChars) && b[0] != '.'
    requires |unit| > 0 && !IsSpace(unit[0]) && !InClass(unit[0], RangeChars)
    ensures var text := pre + (key + (s1 + (a + (s2 + (sep + (s3 + (b + (s4 + (unit + post)))))))));
      ParseRangeSimple(text, key, Some(unit)) == (ToFloat(Some(a)), ToFloat(Some(b)))
    ensures var text := pre + (key + (s1 + (a + (s2 + (sep + (s3 + (b + (s4 + (unit + post)))))))));
      s2 != [] || sep[0] != '.' ==>
      ParseRangeSimpleAsWritten(text, key, Some(unit)) == (ToFloat(Some(a)), ToFloat(Some(b)))
  {
    var t2 := s1 + (a + (s2 + (sep + (s3 + (b + (s4 + (unit + post)))))));
    var text := pre + (key + t2);
    assert pre + key + t2 == text;
    FirstOccurrence(pre, key, t2);
    assert text[|pre|..] == key + t2;
    ParseRangeSimpleFrom(text, |pre|, key, s1, a, s2, sep, s3, b, s4, unit, post);
  }

  /** A voltage range written without spaces around its `...` separator. */
  const VoltageLine: String := "Voltage Range 2.5...4.2 V"

  lemma VoltageLineKey()
    ensures |VoltageLine| == 25 && OccursAt(VoltageLine, "Voltage Range", 0) && OccursAt(VoltageLine, "V", 24)
  {
    assert VoltageLine[..13] == "Voltage Range" && VoltageLine[24..] == "V";
  }

  lemma VoltageLineNumbers()
    ensures RunEnd(VoltageLine, 14, RangeChars) == 23 && RunEnd(VoltageLine, 22, RangeChars) == 23
  {
    var t := VoltageLine;
    assert t[14..23] == "2.5...4.2" && t[23] == ' ';
    RunEndOfSlice(t, 14, 23, RangeChars);
    RunEndAt(t, 22, 23, RangeChars);
  }

  lemma VoltageLineSpaces()
    ensures RunEnd(VoltageLine, 13, Spaces) == 14 && RunEnd(VoltageLine, 21, Spaces) == 21
    ensures RunEnd(VoltageLine, 22, Spaces) == 22 && RunEnd(VoltageLine, 23, Spaces) == 24
  {
    var t := VoltageLine;
    assert t[13] == ' ' && t[14] == '2' && t[21] == '.' && t[22] == '2' && t[23] == ' ' && t[24] == 'V';
    RunEndAt(t, 13, 14, Spaces);
    RunEndAt(t, 21, 21, Spaces);
    RunEndAt(t, 22, 22, Spaces);
    RunEndAt(t, 23, 24, Spaces);
  }

  lemma VoltageLineDots()
    ensures RunEnd(VoltageLine, 21, Ellipsis) == 22 && RunEnd(VoltageLine, 22, Ellipsis) == 22
    ensures RunEnd(VoltageLine, 24, Ellipsis) == 24
  {
    var t := VoltageLine;
    assert t[21] == '.' && t[22] == '2' && t[24] == 'V';
    RunEndAt(t, 21, 22, Ellipsis);
    RunEndAt(t, 22, 22, Ellipsis);
    RunEndAt(t, 24, 24, Ellipsis);
  }

  /**
   * The regex engine on `VoltageLine`: the first group `[-0-9.,]+` first
   * takes `2.5...4.2`, gives back characters until a separator can follow,
   * and stops at `2.5...4`, leaving one '.' as the separator and `2` as the
   * second group.
   */
  lemma RangeAtVoltageLine()
    ensures RangeAt(VoltageLine, 0, "Voltage Range", Some("V")) == Some((Span(14, 21), Span(22, 23)))
  {
    var t, u := VoltageLine, Some("V");
    VoltageLineKey();
    VoltageLineNumbers();
    VoltageLineSpaces();
    VoltageLineDots();
    assert RangeTail(t, 23, u).None?;
    assert RangeTail(t, 22, u).None?;
    assert SecondAt(t, 22, 1, u) == Some(Span(22, 23));
    assert RangeTail(t, 21, u) == Some(Span(22, 23));
    assert FirstAt(t, 14, 7, u) == Some((Span(14, 21), Span(22, 23)));
    assert FirstAt(t, 14, 9, u) == FirstAt(t, 14, 8, u) == FirstAt(t, 14, 7, u);
  }

  lemma ToFloatSplitNumber()
    ensures ToFloat(Some("2.5...4")).None?
  {
    assert "5...4"[1] == '.';
    assert "2" + "." + "5...4" == "2.5...4";
    ToFloatBadFraction("2", "5...4");
  }

  /** `ParseRangeSimpleAsWritten` when its pattern matches at the very start of the text, with groups `x` and `y`. */
  lemma ParseRangeSimpleAsWrittenAtStart(text: String, key: String, unit: String, g1: Span, g2: Span,
                                         x: String, y: String, vx: Option<real>, vy: Option<real>)
    requires RangeAt(text, 0, key, Some(unit)) == Some((g1, g2)) && unit != []
    requires g1.start <= g1.end <= |text| && text[g1.start..g1.end] == x && ToFloat(Some(x)) == vx
    requires g2.start <= g2.end <= |text| && text[g2.start..g2.end] == y && ToFloat(Some(y)) == vy
    ensures ParseRangeSimpleAsWritten(text, key, Some(unit)) == (vx, vy)
  {
    var u := Some(unit);
    assert GivenUnit(u) == u;
    assert MatchAt(Range(key, u), text, 0) == Some([g1, g2]);
  }

  lemma VoltageLineGroups()
    ensures VoltageLine[14..21] == "2.5...4" && VoltageLine[22..23] == "2"
  {
  }

  /**
   * `parse_range_simple` as written on `VoltageLine`: the lower end is lost
   * and the upper end is read from the token "2" alone, instead of 4.2
   * (`Numbers.ToFloatDigits` reads "2" as 2).
   */
  lemma ParseRangeSimpleAsWrittenSplitsNumber()
    ensures ParseRangeSimpleAsWritten(VoltageLine, "Voltage Range", Some("V")) == (None, ToFloat(Some("2")))
  {
    RangeAtVoltageLine();
    VoltageLineGroups();
    ToFloatSplitNumber();
    ParseRangeSimpleAsWrittenAtStart(VoltageLine, "Voltage Range", "V", Span(14, 21), Span(22, 23),
                                     "2.5...4", "2", None, ToFloat(Some("2")));
  }

  lemma VoltageLineParts()
    ensures Find("" + "Voltage Range", "Voltage Range", 0) == 0
    ensures NumberToken("2.5") && AllInClass("...", Ellipsis) && AllInClass("4.2", RangeChars) && AllInClass(" ", Spaces)
    ensures "" + ("Voltage Range" + (" " + ("2.5" + ("" + ("..." + ("" + ("4.2" + (" " + ("V" + ""))))))))) == VoltageLine
  {
    assert "" + "Voltage Range" == "Voltage Range";
  }

  /**
   * The corrected reading of `VoltageLine`: the two numbers are read whole,
   * as `to_float("2.5")` and `to_float("4.2")` (2.5 V and 4.2 V, by
   * `Numbers.ToFloatDecimal`).
   */
  lemma ParseRangeSimpleVoltageLine()
    ensures ParseRangeSimple(VoltageLine, "Voltage Range", Some("V")) == (ToFloat(Some("2.5")), ToFloat(Some("4.2")))
  {
    VoltageLineParts();
    ParseRangeSimpleWritten("", "Voltage Range", " ", "2.5", "", "...", "", "4.2", " ", "V", "");
  }

  /** A state-of-charge range written with its lower end missing. */
  const OneSidedSocLine: String := "State of Charge Range - \U{2026} 100%"

  lemma DigitsValue100()
    ensures AllDigits("100") && DigitsValue("100") == 100
  {
    assert "100"[..2] == "10" && "10"[..1] == "1";
  }

  /**
   * Each side of a range is read on its own: a lone "-" as the lower end
   * reads as nothing while the upper end is still read.
   */
  lemma OneSidedSocLineParts()
    ensures Find("" + "State of Charge Range", "State of Charge Range", 0) == 0
    ensures NumberToken("-") && AllInClass("\U{2026}", Ellipsis) && AllInClass(" ", Spaces)
    ensures AllInClass("100", RangeChars)
    ensures "" + ("State of Charge Range" + (" " + ("-" + (" " + ("\U{2026}" + (" " + ("100" + ("" + ("%" + "")))))))))
         == OneSidedSocLine
  {
    assert "" + "State of Charge Range" == "State of Charge Range";
  }

  lemma ToFloatOneSided()
    ensures ToFloat(Some("-")).None? && ToFloat(Some("100")) == Some(100.0)
  {
    ToFloatNoDigit("-");
    DigitsValue100();
    ToFloatDigits("100");
  }

  /**
   * Each side of a range is read on its own: a lone "-" as the lower end
   * reads as nothing while the upper end is still read.
   */
  lemma ParseRangeSimpleOneSided()
    ensures ParseRangeSimple(OneSidedSocLine, "State of Charge Range", Some("%")) == (None, Some(100.0))
  {
    OneSidedSocLineParts();
    ParseRangeSimpleWritten("", "State of Charge Range", " ", "-", " ", "\U{2026}", " ", "100", "", "%", "");
    ToFloatOneSided();
  }

  /** After the whitespace that follows position `j`, no character of `[-0-9.,]` comes. */
  predicate NoNumberAfter(text: String, j: nat)
    requires j <= |text|
  {
    var q := RunEnd(text, j, Spaces);
    q == |text| || !InClass(text[q], RangeChars)
  }

  /**
   * A label that is never followed, after whitespace, by a number character
   * gives nothing in either reading of the range pattern: the first group
   * needs at least one character of `[-0-9.,]`.
   */
  lemma ParseRangeSimpleNoNumber(text: String, key: String, unit: Option<String>)
    requires forall i :: 0 <= i <= |text| && OccursAt(text, key, i) ==> NoNumberAfter(text, i + |key|)
    ensures ParseRangeSimpleAsWritten(text, key, unit) == (None, None)
    ensures ParseRangeSimple(text, key, unit) == (None, None)
  {
    var u := GivenUnit(unit);
    forall i | 0 <= i <= |text|
      ensures MatchAt(Range(key, u), text, i).None? && MatchAt(NumberRange(key, u), text, i).None?
    {
      assert MatchAt(Range(key, u), text, i) == Pair(RangeAt(text, i, key, u));
      assert MatchAt(NumberRange(key, u), text, i) == Pair(NumberRangeAt(text, i, key, u));
      if OccursAt(text, key, i) {
        var q := RunEnd(text, i + |key|, Spaces);
        assert RunEnd(text, q, RangeChars) == q;
        assert RunEnd(text, q, NumberChars) == q;
      }
    }
    assert Search(Range(key, u), text, 0).None?;
    assert Search(NumberRange(key, u), text, 0).None?;
  }

  /**
   * `parse_current_range`: the discharge and charge currents from one
   * search, the two C-rates from another. Each pair is set together, and set
   * exactly when its search matches.
   */
  function ParseCurrentRange(text: String): (r: (Option<real>, Option<real>, Option<real>, Option<real>))
    ensures r.0.Some? <==> Search(CurrentPair, text, 0).Some?
    ensures r.1.Some? <==> Search(CurrentPair, text, 0).Some?
    ensures r.2.Some? <==> Search(CRatePair, text, 0).Some?
    ensures r.3.Some? <==> Search(CRatePair, text, 0).Some?
    ensures Search(CurrentPair, text, 0).Some? ==> var m := Search(CurrentPair, text, 0).value;
      r.0 == ToFloat(Some(Group(text, CurrentPair, m, 0))) && r.1 == ToFloat(Some(Group(text, CurrentPair, m, 1)))
    ensures Search(CRatePair, text, 0).Some? ==> var m := Search(CRatePair, text, 0).value;
      r.2 == ToFloat(Some(Group(text, CRatePair, m, 0))) && r.3 == ToFloat(Some(Group(text, CRatePair, m, 1)))
  {
    var (iDisMin, iChMax) := SignedPairValues(text, CurrentPair);
    var (cMin, cMax) := SignedPairValues(text, CRatePair);
    (iDisMin, iChMax, cMin, cMax)
  }

  /** The two numerals of the leftmost match of a current or C-rate pattern, both read. */
  function SignedPairValues(text: String, pat: Pattern): (r: (Option<real>, Option<real>))
    requires pat == CurrentPair || pat == CRatePair
    ensures r.0.Some? <==> Search(pat, text, 0).Some?
    ensures r.1.Some? <==> Search(pat, text, 0).Some?
    ensures Search(pat, text, 0).Some? ==> var m := Search(pat, text, 0).value;
      r == (ToFloat(Some(Group(text, pat, m, 0))), ToFloat(Some(Group(text, pat, m, 1))))
  {
    match Search(pat, text, 0)
    case None => (None, None)
    case Some(m) =>
      var g1, g2 := Group(text, pat, m, 0), Group(text, pat, m, 1);
      ToFloatSignedNumeral(g1);
      ToFloatSignedNumeral(g2);
      (ToFloat(Some(g1)), ToFloat(Some(g2)))
  }

  // ---------------------------------------------------------------------------
  // Slug, dimensions, weight, model version, release date
  // ---------------------------------------------------------------------------

  /** `path.rstrip("/").split("/")[-1]`. */
  function Slug(path: String): (r: String)
    ensures '/' !in r
  {
    LastSegment(RStripChar(path, '/'), '/')
  }

  /** The slug is empty exactly when the path holds nothing but '/'. */
  lemma SlugEmpty(path: String)
    ensures Slug(path) == [] <==> forall i :: 0 <= i < |path| ==> path[i] == '/'
  {
    var s := RStripChar(path, '/');
    if s != [] {
      assert s[|s| - 1] != '/';
      assert path[|s| - 1] == s[|s| - 1];
    }
  }

  lemma {:induction false} RStripCharSlashes(p: String, trail: String)
    requires forall i :: 0 <= i < |trail| ==> trail[i] == '/'
    ensures RStripChar(p + trail, '/') == RStripChar(p, '/')
    decreases |trail|
  {
    if trail == [] {
      assert p + trail == p;
    } else {
      var t := trail[..|trail| - 1];
      assert (p + trail)[..|p + trail| - 1] == p + t;
      RStripCharSlashes(p, t);
    }
  }

  lemma {:induction false} LastSegmentAfterSep(dir: String, seg: String)
    requires '/' !in seg
    ensures LastSegment(dir + "/" + seg, '/') == seg
  {
    if seg != [] {
      var init := seg[..|seg| - 1];
      assert (dir + "/" + seg)[..|dir + "/" + seg| - 1] == dir + "/" + init;
      LastSegmentAfterSep(dir, init);
      assert seg == init + [seg[|seg| - 1]];
    } else {
      assert dir + "/" + seg == dir + "/";
    }
  }

  /** The slug of `<dir>/<seg>` followed by any number of '/' is `seg`. */
  lemma {:induction false} SlugOfPath(dir: String, seg: String, trail: String)
    requires seg != [] && '/' !in seg
    requires forall i :: 0 <= i < |trail| ==> trail[i] == '/'
    ensures Slug(dir + "/" + seg + trail) == seg
  {
    var p := dir + "/" + seg;
    RStripCharSlashes(p, trail);
    assert p[|p| - 1] == seg[|seg| - 1];
    assert RStripChar(p, '/') == p;
    LastSegmentAfterSep(dir, seg);
  }

  /**
   * The diameter and height: the two numbers of the leftmost `d x h` in the
   * raw dimensions text. Both are set, and not negative, exactly when it
   * matches.
   */
  function ParseDimensions(dimRaw: Option<String>): (r: (Option<real>, Option<real>))
    ensures r.0.Some? <==> dimRaw.Some? && dimRaw.value != [] && Search(Dimensions, dimRaw.value, 0).Some?
    ensures r.1.Some? <==> r.0.Some?
    ensures r.0.Some? ==> r.0.value >= 0.0 && r.1.value >= 0.0
    ensures r.0.Some? ==> var t := dimRaw.value; var m := Search(Dimensions, t, 0).value;
      r == (ToFloat(Some(Group(t, Dimensions, m, 0))), ToFloat(Some(Group(t, Dimensions, m, 1))))
  {
    if dimRaw.None? || dimRaw.value == [] then (None, None)
    else
      var t := dimRaw.value;
      match Search(Dimensions, t, 0)
      case None => (None, None)
      case Some(m) =>
        var g1, g2 := Group(t, Dimensions, m, 0), Group(t, Dimensions, m, 1);
        ToFloatUnsignedNumeral(g1);
        ToFloatUnsignedNumeral(g2);
        (ToFloat(Some(g1)), ToFloat(Some(g2)))
  }

  /**
   * The weight: the number before the first `g`, or, without one, the whole
   * raw weight text read by `to_float`.
   */
  function ParseWeight(weightRaw: Option<String>): (r: Option<real>)
    ensures weightRaw.None? ==> r.None?
    ensures weightRaw.Some? && Search(Weight, weightRaw.value, 0).Some? ==> r.Some? && r.value >= 0.0
    ensures weightRaw.Some? && Search(Weight, weightRaw.value, 0).None? ==> r == ToFloat(weightRaw)
    ensures weightRaw.Some? && Search(Weight, weightRaw.value, 0).Some? ==>
      var t := weightRaw.value; r == ToFloat(Some(Group(t, Weight, Search(Weight, t, 0).value, 0)))
  {
    if weightRaw.None? || weightRaw.value == [] then None
    else
      var t := weightRaw.value;
      match Search(Weight, t, 0)
      case None => ToFloat(weightRaw)
      case Some(m) =>
        var g := Group(t, Weight, m, 0);
        ToFloatUnsignedNumeral(g);
        ToFloat(Some(g))
  }

  /** The model version: the run of digits and dots after the leftmost `Batemo Cell Model Version`. */
  function ParseModelVersion(normText: String): (r: Option<String>)
    ensures r.Some? <==> Search(ModelVersion, normText, 0).Some?
    ensures r.Some? ==> r.value != [] && AllInClass(r.value, VersionChars)
    ensures r.Some? ==> r.value == Group(normText, ModelVersion, Search(ModelVersion, normText, 0).value, 0)
  {
    match Search(ModelVersion, normText, 0)
    case None => None
    case Some(m) => Some(Group(normText, ModelVersion, m, 0))
  }

  /**
   * The release date: the date after the leftmost `Release Date`, in ISO
   * form when it names a real day and as written otherwise.
   */
  function ParseReleaseDate(normText: String): (r: Option<String>)
    ensures r.Some? <==> Search(ReleaseDate, normText, 0).Some?
    ensures r.Some? ==> var raw := Group(normText, ReleaseDate, Search(ReleaseDate, normText, 0).value, 0);
      (Strptime(raw).Some? ==> r.value == IsoFormat(Strptime(raw).value))
      && (Strptime(raw).None? ==> r.value == raw)
  {
    match Search(ReleaseDate, normText, 0)
    case None => None
    case Some(m) => Some(ReleaseDateText(Group(normText, ReleaseDate, m, 0)))
  }
}
