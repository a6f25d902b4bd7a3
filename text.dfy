/** Character classes and the few `str` methods the scraper relies on. */
module Text {

  type String = seq<char>

  /** The characters Python's `str.isspace()` accepts; `\s` in a `str` regex matches the same set. */
  predicate IsSpace(c: char) {
    (c <= ' ' && (('\t' <= c <= '\r') || '\U{1C}' <= c))
    || ('\U{85}' <= c && (c == '\U{85}' || c == '\U{A0}' || c == '\U{1680}' || ('\U{2000}' <= c <= '\U{200A}')
      || c == '\U{2028}' || c == '\U{2029}' || c == '\U{202F}' || c == '\U{205F}' || c == '\U{3000}'))
  }

  predicate IsDigit(c: char) {
    '0' <= c <= '9'
  }

  predicate IsAsciiLetter(c: char) {
    ('a' <= c <= 'z') || ('A' <= c <= 'Z')
  }

  /** `\w`, restricted to ASCII: letters, digits and the underscore. */
  predicate IsWordChar(c: char) {
    IsAsciiLetter(c) || IsDigit(c) || c == '_'
  }

  predicate AllDigits(s: String) {
    forall i :: 0 <= i < |s| ==> IsDigit(s[i])
  }

  predicate OccursAt(text: String, pat: String, i: nat) {
    i + |pat| <= |text| && text[i..i + |pat|] == pat
  }

  predicate StartsWith(s: String, prefix: String) {
    OccursAt(s, prefix, 0)
  }

  /** No whitespace at either end: what `str.strip()` leaves. */
  predicate Stripped(s: String) {
    s == [] || (!IsSpace(s[0]) && !IsSpace(s[|s| - 1]))
  }

  /** Python's `text.find(pat, from)`: the least index at or after `from` where `pat` occurs, or -1. */
  function Find(text: String, pat: String, from: nat): (r: int)
    ensures r == -1 || (from <= r && OccursAt(text, pat, r))
    ensures forall i :: from <= i && (r == -1 || i < r) ==> !OccursAt(text, pat, i)
    decreases |text| - from
  {
    if from + |pat| > |text| then -1
    else if OccursAt(text, pat, from) then from
    else Find(text, pat, from + 1)
  }

  /** A pattern whose first character is not in `pre` occurs first right after `pre`. */
  lemma FindPastHead(pre: String, pat: String)
    requires pat != [] && pat[0] !in pre
    ensures Find(pre + pat, pat, 0) == |pre|
  {
    var text := pre + pat;
    assert OccursAt(text, pat, |pre|) by {
      assert text[|pre|..|pre| + |pat|] == pat;
    }
    forall i | 0 <= i < |pre| ensures !OccursAt(text, pat, i) {
      NoHeadAt(pre, pat, i);
    }
  }

  lemma NoHeadAt(pre: String, pat: String, i: nat)
    requires pat != [] && pat[0] !in pre && i < |pre|
    ensures !OccursAt(pre + pat, pat, i)
  {
    var text := pre + pat;
    assert text[i] == pre[i];
    if OccursAt(text, pat, i) {
      assert false;
    }
  }

  /** `text.find(c, from)` for a single character: the least index at or after `from` holding `c`, or -1. */
  function FindChar(text: String, c: char, from: nat): (r: int)
    ensures r == -1 || (from <= r < |text| && text[r] == c)
    ensures forall i :: from <= i < |text| && (r == -1 || i < r) ==> text[i] != c
    decreases |text| - from
  {
    if from >= |text| then -1
    else if text[from] == c then from
    else FindChar(text, c, from + 1)
  }

  /** `str.lstrip()`: drops the leading whitespace and nothing else. */
  function LStrip(s: String): (r: String)
    ensures |r| <= |s|
    ensures r == [] || !IsSpace(r[0])
    ensures forall i :: 0 <= i < |s| - |r| ==> IsSpace(s[i])
    ensures s != [] && IsSpace(s[0]) ==> |r| < |s|
  {
    if s != [] && IsSpace(s[0]) then LStrip(s[1..]) else s
  }

  /** `str.rstrip()`: drops the trailing whitespace and nothing else. */
  function RStrip(s: String): (r: String)
    ensures |r| <= |s|
    ensures r == [] || !IsSpace(r[|r| - 1])
    ensures forall i :: |r| <= i < |s| ==> IsSpace(s[i])
  {
    if s != [] && IsSpace(s[|s| - 1]) then RStrip(s[..|s| - 1]) else s
  }

  /** What `str.lstrip()` keeps is a suffix of its input. */
  lemma {:induction false} LStripSuffix(s: String)
    ensures LStrip(s) == s[|s| - |LStrip(s)|..]
  {
    if s != [] && IsSpace(s[0]) {
      LStripSuffix(s[1..]);
    }
  }

  /** What `str.rstrip()` keeps is a prefix of its input. */
  lemma {:induction false} RStripPrefix(s: String)
    ensures RStrip(s) == s[..|RStrip(s)|]
  {
    if s != [] && IsSpace(s[|s| - 1]) {
      RStripPrefix(s[..|s| - 1]);
    }
  }

  /** `r` is `s` with whitespace only cut off before `lo` and after `lo + |r|`. */
  predicate TrimmedAt(s: String, r: String, lo: nat) {
    lo + |r| <= |s| && r == s[lo..lo + |r|]
    && (forall i :: 0 <= i < lo ==> IsSpace(s[i])) && (forall i :: lo + |r| <= i < |s| ==> IsSpace(s[i]))
  }

  /** `str.strip()`: the input with its leading and trailing whitespace cut off, and nothing else. */
  function Strip(s: String): (r: String)
    ensures Stripped(r) && |r| <= |s|
    ensures r == [] <==> forall i :: 0 <= i < |s| ==> IsSpace(s[i])
    ensures exists lo :: TrimmedAt(s, r, lo)
  {
    var l := LStrip(s);
    var r := RStrip(l);
    LStripSuffix(s);
    RStripPrefix(l);
    assert r == [] ==> l == [];
    var lo := |s| - |l|;
    forall i | lo + |r| <= i < |s| ensures IsSpace(s[i]) {
      assert s[i] == l[i - lo];
    }
    assert r == s[lo..lo + |r|];
    assert TrimmedAt(s, r, lo);
    r
  }

  /** `s.replace(a, b)` for single characters: every `a` becomes `b`. */
  function ReplaceChar(s: String, a: char, b: char): (r: String)
    ensures |r| == |s|
    ensures forall i :: 0 <= i < |s| ==> r[i] == if s[i] == a then b else s[i]
  {
    seq(|s|, i requires 0 <= i < |s| => if s[i] == a then b else s[i])
  }

  /** `s.replace(pat, "", 1)`: the first occurrence of `pat` cut out. */
  function RemoveFirst(s: String, pat: String): (r: String)
    ensures Find(s, pat, 0) == -1 ==> r == s
    ensures Find(s, pat, 0) != -1 ==>
      var i := Find(s, pat, 0); |r| == |s| - |pat| && r == s[..i] + s[i + |pat|..]
  {
    var i := Find(s, pat, 0);
    if i == -1 then s else s[..i] + s[i + |pat|..]
  }

  /** `s.rstrip(c)` for one character `c`. */
  function RStripChar(s: String, c: char): (r: String)
    ensures |r| <= |s| && r == s[..|r|]
    ensures r == [] || r[|r| - 1] != c
    ensures forall i :: |r| <= i < |s| ==> s[i] == c
  {
    if s != [] && s[|s| - 1] == c then RStripChar(s[..|s| - 1], c) else s
  }

  /** `s.split(sep)[-1]`: what follows the last `sep`, or all of `s` when it has none. */
  function LastSegment(s: String, sep: char): (r: String)
    ensures sep !in r
    ensures |r| <= |s| && r == s[|s| - |r|..]
    ensures |r| == |s| || s[|s| - |r| - 1] == sep
  {
    if s == [] || s[|s| - 1] == sep then []
    else LastSegment(s[..|s| - 1], sep) + [s[|s| - 1]]
  }

  /**
   * What is left of `text` from position `i` on, the same as `text[i..]`
   * (`FromIsSlice`). It is defined by recursion so that the solver unfolds
   * it only when asked: the layout lemmas hand it from one piece to the next
   * without reasoning about slices of `text`.
   */
  function From(text: String, i: nat): (r: String)
    requires i <= |text|
    ensures |r| == |text| - i
    decreases i
  {
    if i == 0 then text else From(text[1..], i - 1)
  }

  lemma {:induction false} FromIsSlice(text: String, i: nat)
    requires i <= |text|
    ensures From(text, i) == text[i..]
    decreases i
  {
    if i > 0 {
      FromIsSlice(text[1..], i - 1);
      assert text[1..][i - 1..] == text[i..];
    }
  }

  /** What follows a prefix of the text. */
  lemma FromAfter(pre: String, rest: String)
    ensures From(pre + rest, |pre|) == rest
  {
    FromIsSlice(pre + rest, |pre|);
    assert (pre + rest)[|pre|..] == rest;
  }
}
