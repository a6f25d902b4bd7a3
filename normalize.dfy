/** `normalize_whitespace` (scrape_cells.py): every whitespace run becomes one space, then the ends are stripped. */
module Normalize {
  import opened Text

  /** `re.sub(r"\s+", " ", s)`: each maximal run of whitespace replaced by a single ' '. */
  function Collapse(s: String): (r: String)
    ensures |r| <= |s|
    ensures r == [] <==> s == []
    ensures s != [] ==> (r[0] == ' ' <==> IsSpace(s[0])) && (IsSpace(r[0]) <==> IsSpace(s[0]))
    decreases |s|
  {
    if s == [] then []
    else if IsSpace(s[0]) then
      [' '] + Collapse(LStrip(s))
    else [s[0]] + Collapse(s[1..])
  }

  /** `normalize_whitespace`. */
  function NormalizeWhitespace(s: String): String {
    Strip(Collapse(s))
  }

  /** The only whitespace character left is ' '. */
  predicate OnlyPlainSpaces(s: String) {
    forall i :: 0 <= i < |s| && IsSpace(s[i]) ==> s[i] == ' '
  }

  /** No two whitespace characters stand next to each other. */
  predicate NoAdjacentSpaces(s: String) {
    forall i :: 0 <= i < |s| - 1 && IsSpace(s[i]) ==> !IsSpace(s[i + 1])
  }

  /** The text with all whitespace removed. */
  function NonSpace(s: String): String {
    if s == [] then []
    else if IsSpace(s[0]) then NonSpace(s[1..])
    else [s[0]] + NonSpace(s[1..])
  }

  /** A character put in front keeps the shape when it is a plain space before a non-space, or not whitespace at all. */
  lemma ConsShape(c: char, t: String)
    requires OnlyPlainSpaces(t) && NoAdjacentSpaces(t)
    requires IsSpace(c) ==> c == ' ' && (t == [] || !IsSpace(t[0]))
    ensures OnlyPlainSpaces([c] + t) && NoAdjacentSpaces([c] + t)
  {
    var r := [c] + t;
    forall i | 0 <= i < |r| && IsSpace(r[i]) ensures r[i] == ' ' {
      if i > 0 {
        assert r[i] == t[i - 1];
      }
    }
    forall i | 0 <= i < |r| - 1 && IsSpace(r[i]) ensures !IsSpace(r[i + 1]) {
      assert r[i + 1] == t[i];
      if i > 0 {
        assert r[i] == t[i - 1];
      }
    }
  }

  lemma {:induction false} CollapseShape(s: String)
    ensures OnlyPlainSpaces(Collapse(s)) && NoAdjacentSpaces(Collapse(s))
    decreases |s|
  {
    if s != [] {
      if IsSpace(s[0]) {
        var rest := LStrip(s);
        CollapseShape(rest);
        ConsShape(' ', Collapse(rest));
      } else {
        CollapseShape(s[1..]);
        ConsShape(s[0], Collapse(s[1..]));
      }
    }
  }

  lemma NonSpaceAppend(a: String, b: String)
    ensures NonSpace(a + b) == NonSpace(a) + NonSpace(b)
  {
    if a == [] {
      assert a + b == b;
    } else {
      assert (a + b)[1..] == a[1..] + b;
      NonSpaceAppend(a[1..], b);
    }
  }

  lemma NonSpaceLStrip(s: String)
    ensures NonSpace(LStrip(s)) == NonSpace(s)
  {
    if s != [] && IsSpace(s[0]) {
      NonSpaceLStrip(s[1..]);
    }
  }

  lemma NonSpaceRStrip(s: String)
    ensures NonSpace(RStrip(s)) == NonSpace(s)
  {
    if s != [] && IsSpace(s[|s| - 1]) {
      var p := s[..|s| - 1];
      assert s == p + [s[|s| - 1]];
      NonSpaceAppend(p, [s[|s| - 1]]);
      NonSpaceRStrip(p);
    }
  }

  lemma {:induction false} NonSpaceCollapse(s: String)
    ensures NonSpace(Collapse(s)) == NonSpace(s)
    decreases |s|
  {
    if s != [] {
      if IsSpace(s[0]) {
        var rest := LStrip(s);
        NonSpaceCollapse(rest);
        NonSpaceLStrip(s);
        assert ([' '] + Collapse(rest))[1..] == Collapse(rest);
      } else {
        NonSpaceCollapse(s[1..]);
        assert ([s[0]] + Collapse(s[1..]))[1..] == Collapse(s[1..]);
      }
    }
  }

  lemma ShapeSlice(s: String, lo: nat, hi: nat)
    requires lo <= hi <= |s|
    requires OnlyPlainSpaces(s) && NoAdjacentSpaces(s)
    ensures OnlyPlainSpaces(s[lo..hi]) && NoAdjacentSpaces(s[lo..hi])
  {
    var t := s[lo..hi];
    forall i | 0 <= i < |t| - 1 && IsSpace(t[i]) ensures !IsSpace(t[i + 1]) {
      assert t[i] == s[lo + i] && t[i + 1] == s[lo + i + 1];
    }
  }

  /** The stripped text is a slice of the text. */
  lemma StripIsSlice(c: String) returns (lo: nat, hi: nat)
    ensures lo <= hi <= |c| && Strip(c) == c[lo..hi]
  {
    var l := LStrip(c);
    var r := RStrip(l);
    lo, hi := |c| - |l|, |c| - |l| + |r|;
    LStripSuffix(c);
    RStripPrefix(l);
    assert r == c[lo..hi];
  }

  /**
   * The normalized text has no whitespace at its ends, no whitespace other
   * than ' ', and never two spaces in a row.
   */
  lemma {:induction false} NormalizeWhitespaceShape(s: String)
    ensures var r := NormalizeWhitespace(s);
      Stripped(r) && OnlyPlainSpaces(r) && NoAdjacentSpaces(r)
  {
    var c := Collapse(s);
    CollapseShape(s);
    var lo, hi := StripIsSlice(c);
    ShapeSlice(c, lo, hi);
  }

  /** Normalizing keeps the non-whitespace characters, in order. */
  lemma {:induction false} NormalizeWhitespaceKeepsText(s: String)
    ensures NonSpace(NormalizeWhitespace(s)) == NonSpace(s)
  {
    var c := Collapse(s);
    NonSpaceCollapse(s);
    NonSpaceLStrip(c);
    NonSpaceRStrip(LStrip(c));
  }

  /** A text already in normal form collapses to itself. */
  lemma {:induction false} CollapseNormal(s: String)
    requires OnlyPlainSpaces(s) && NoAdjacentSpaces(s)
    ensures Collapse(s) == s
    decreases |s|
  {
    if s != [] {
      ShapeSlice(s, 1, |s|);
      CollapseNormal(s[1..]);
      if IsSpace(s[0]) {
        assert |s| > 1 ==> !IsSpace(s[1]);
        assert LStrip(s[1..]) == s[1..];
        assert LStrip(s) == s[1..];
        assert s == [' '] + s[1..];
      } else {
        assert s == [s[0]] + s[1..];
      }
    }
  }

  /** `str.lstrip()` removes a whitespace run and stops at the text after it. */
  lemma {:induction false} LStripRun(w: String, b: String)
    requires forall i :: 0 <= i < |w| ==> IsSpace(w[i])
    requires b == [] || !IsSpace(b[0])
    ensures LStrip(w + b) == b
    decreases |w|
  {
    if w == [] {
      assert w + b == b;
    } else {
      assert (w + b)[1..] == w[1..] + b;
      LStripRun(w[1..], b);
    }
  }

  /** Whitespace that `str.lstrip()` removes from a text ending in a non-space lies inside that text. */
  lemma {:induction false} LStripAppend(a: String, t: String)
    requires a != [] && !IsSpace(a[|a| - 1])
    ensures LStrip(a + t) == LStrip(a) + t
    decreases |a|
  {
    if IsSpace(a[0]) {
      assert (a + t)[1..] == a[1..] + t;
      LStripAppend(a[1..], t);
    } else {
      assert (a + t)[0] == a[0];
    }
  }

  /** `Collapse` on a text that opens with whitespace. */
  lemma CollapseSpaceHead(s: String)
    requires s != [] && IsSpace(s[0])
    ensures Collapse(s) == [' '] + Collapse(LStrip(s))
  {
  }

  /** `Collapse` on a text that opens with a non-space. */
  lemma CollapseWordHead(s: String)
    requires s != [] && !IsSpace(s[0])
    ensures Collapse(s) == [s[0]] + Collapse(s[1..])
  {
  }

  /**
   * A whitespace run between two words becomes exactly one space: the text
   * before it and the text after it are collapsed on their own.
   */
  lemma {:induction false} CollapseRun(a: String, w: String, b: String)
    requires a == [] || !IsSpace(a[|a| - 1])
    requires w != [] && forall i :: 0 <= i < |w| ==> IsSpace(w[i])
    requires b == [] || !IsSpace(b[0])
    ensures Collapse(a + w + b) == Collapse(a) + " " + Collapse(b)
    decreases |a|
  {
    if a == [] {
      CollapseRunFirst(a, w, b);
    } else if IsSpace(a[0]) {
      LStripKeepsLast(a);
      CollapseRun(LStrip(a), w, b);
      CollapseRunSpace(a, w, b);
    } else {
      CollapseRun(a[1..], w, b);
      CollapseRunWord(a, w, b);
    }
  }

  /** A text ending in a non-space keeps that last character through `str.lstrip()`. */
  lemma LStripKeepsLast(a: String)
    requires a != [] && !IsSpace(a[|a| - 1])
    ensures LStrip(a) != [] && LStrip(a)[|LStrip(a)| - 1] == a[|a| - 1]
  {
    LStripSuffix(a);
  }

  /** The run at the very start becomes one space. */
  lemma {:induction false} CollapseRunFirst(a: String, w: String, b: String)
    requires a == []
    requires w != [] && forall i :: 0 <= i < |w| ==> IsSpace(w[i])
    requires b == [] || !IsSpace(b[0])
    ensures Collapse(a + w + b) == Collapse(a) + " " + Collapse(b)
  {
    assert a + w + b == w + b;
    assert (w + b)[0] == w[0];
    CollapseSpaceHead(w + b);
    LStripRun(w, b);
  }

  /** The step of `CollapseRun` past leading whitespace of `a`. */
  lemma {:induction false} CollapseRunSpace(a: String, w: String, b: String)
    requires a != [] && IsSpace(a[0]) && !IsSpace(a[|a| - 1])
    requires Collapse(LStrip(a) + w + b) == Collapse(LStrip(a)) + " " + Collapse(b)
    ensures Collapse(a + w + b) == Collapse(a) + " " + Collapse(b)
  {
    var l := LStrip(a);
    var x := a + w + b;
    ConcatHead(a, w, b);
    LStripAppend(a, w + b);
    ConcatAssoc(a, w, b);
    ConcatAssoc(l, w, b);
    CollapseSpaceHead(x);
    CollapseSpaceHead(a);
    ConsAppend(' ', Collapse(l), Collapse(b));
  }

  lemma ConcatAssoc(a: String, w: String, b: String)
    ensures a + (w + b) == a + w + b
  {
  }

  /** The step of `CollapseRun` past a non-space first character of `a`. */
  lemma {:induction false} CollapseRunWord(a: String, w: String, b: String)
    requires a != [] && !IsSpace(a[0])
    requires Collapse(a[1..] + w + b) == Collapse(a[1..]) + " " + Collapse(b)
    ensures Collapse(a + w + b) == Collapse(a) + " " + Collapse(b)
  {
    var x := a + w + b;
    ConcatHead(a, w, b);
    CollapseWordHead(x);
    CollapseWordHead(a);
    ConsAppend(a[0], Collapse(a[1..]), Collapse(b));
  }

  /** The first character of `a + w + b` and what follows it. */
  lemma ConcatHead(a: String, w: String, b: String)
    requires a != []
    ensures (a + w + b)[0] == a[0] && (a + w + b)[1..] == a[1..] + w + b
  {
  }

  lemma ConsAppend(c: char, p: String, q: String)
    ensures [c] + (p + " " + q) == [c] + p + " " + q
  {
  }

  /**
   * Two texts already in normal form, joined by any whitespace run, are
   * normalized to the two joined by one space.
   */
  lemma {:induction false} NormalizeWhitespaceJoins(a: String, w: String, b: String)
    requires a != [] && Stripped(a) && OnlyPlainSpaces(a) && NoAdjacentSpaces(a)
    requires b != [] && Stripped(b) && OnlyPlainSpaces(b) && NoAdjacentSpaces(b)
    requires w != [] && forall i :: 0 <= i < |w| ==> IsSpace(w[i])
    ensures NormalizeWhitespace(a + w + b) == a + " " + b
  {
    CollapseRun(a, w, b);
    CollapseNormal(a);
    CollapseNormal(b);
    var j := a + " " + b;
    assert j[0] == a[0] && j[|j| - 1] == b[|b| - 1];
    assert Stripped(j);
  }

  /** Normalizing twice is normalizing once. */
  lemma {:induction false} NormalizeWhitespaceIdempotent(s: String)
    ensures NormalizeWhitespace(NormalizeWhitespace(s)) == NormalizeWhitespace(s)
  {
    var r := NormalizeWhitespace(s);
    NormalizeWhitespaceShape(s);
    CollapseNormal(r);
    assert Strip(r) == r;
  }
}
