/**
 * The release date of a cell model (scrape_cells.py): the captured text is
 * read with `strptime(raw, "%B %d, %Y")` and, when that succeeds, written
 * back as an ISO date `YYYY-MM-DD`; otherwise the raw text is kept.
 * Month names are the English ones, matched without regard to case.
 */
module Dates {
  import opened Text
  import opened Wrappers
  import opened Numbers
  import opened Patterns

  datatype Date = Date(year: nat, month: nat, day: nat)

  const MonthNames: seq<String> := [
    "January", "February", "March", "April", "May", "June",
    "July", "August", "September", "October", "November", "December"]

  function LowerAscii(c: char): char {
    if 'A' <= c <= 'Z' then (c as int + 32) as char else c
  }

  predicate SameIgnoringCase(a: String, b: String) {
    |a| == |b| && forall i :: 0 <= i < |a| ==> LowerAscii(a[i]) == LowerAscii(b[i])
  }

  /** The first month from the `k`-th on whose name is `name`, ignoring case. */
  function MonthFrom(name: String, k: nat): (m: Option<nat>)
    requires k <= 12
    ensures m.Some? ==> k < m.value <= 12 && SameIgnoringCase(name, MonthNames[m.value - 1])
    ensures m.Some? ==> forall j :: k <= j < m.value - 1 ==> !SameIgnoringCase(name, MonthNames[j])
    ensures m.None? ==> forall j :: k <= j < 12 ==> !SameIgnoringCase(name, MonthNames[j])
    decreases 12 - k
  {
    if k == 12 then None
    else if SameIgnoringCase(name, MonthNames[k]) then Some(k + 1)
    else MonthFrom(name, k + 1)
  }

  /** `%B`: the number of the month called `name`, or nothing. */
  function MonthNumber(name: String): (m: Option<nat>)
    ensures m.Some? ==> 1 <= m.value <= 12 && SameIgnoringCase(name, MonthNames[m.value - 1])
    ensures m.Some? ==> forall j :: 0 <= j < m.value - 1 ==> !SameIgnoringCase(name, MonthNames[j])
    ensures m.None? <==> forall j :: 0 <= j < 12 ==> !SameIgnoringCase(name, MonthNames[j])
  {
    MonthFrom(name, 0)
  }

  predicate IsLeapYear(y: int) {
    y % 4 == 0 && (y % 100 != 0 || y % 400 == 0)
  }

  function DaysInMonth(y: int, m: nat): (n: nat)
    requires 1 <= m <= 12
    ensures 28 <= n <= 31
  {
    if m == 2 then (if IsLeapYear(y) then 29 else 28)
    else if m == 4 || m == 6 || m == 9 || m == 11 then 30
    else 31
  }

  /** What `datetime.date` accepts. */
  predicate ValidDate(d: Date) {
    1 <= d.year <= 9999 && 1 <= d.month <= 12 && 1 <= d.day <= DaysInMonth(d.year, d.month)
  }

  /** `%d` as a whole digit run: one or two digits, value 1 to 31 (`3[01]|[12]\d|0[1-9]|[1-9]`). */
  function DayNumber(s: String): (d: Option<nat>)
    requires AllDigits(s)
    ensures d.Some? ==> 1 <= d.value <= 31 && d.value == DigitsValue(s)
  {
    if (|s| == 1 || |s| == 2) && 1 <= DigitsValue(s) <= 31 then Some(DigitsValue(s)) else None
  }

  /**
   * The three parts `strptime(raw, "%B %d, %Y")` reads: a run of letters,
   * whitespace, a run of digits, ',', whitespace and four digits ending the
   * text; nothing when the text has another shape.
   */
  function DateParts(raw: String): (r: Option<(String, String, String)>)
    ensures r.Some? ==> AllDigits(r.value.1) && AllDigits(r.value.2) && |r.value.2| == 4
  {
    var l := RunEnd(raw, 0, Letters);
    var s := RunEnd(raw, l, Spaces);
    var d := RunEnd(raw, s, Digits);
    if l == 0 || s == l || !OccursAt(raw, ",", d) then None
    else
      var t := RunEnd(raw, d + 1, Spaces);
      if t == d + 1 || t + 4 != |raw| || !AllDigits(raw[t..]) then None
      else
        assert AllDigits(raw[s..d]) by {
          assert forall j :: 0 <= j < d - s ==> raw[s..d][j] == raw[s + j];
        }
        Some((raw[..l], raw[s..d], raw[t..]))
  }

  /**
   * `datetime.strptime(raw, "%B %d, %Y").date()`: nothing when the text has
   * another shape, names no month, or names no real day.
   */
  function Strptime(raw: String): (r: Option<Date>)
    ensures r.Some? ==> ValidDate(r.value)
  {
    match DateParts(raw)
    case None => None
    case Some((month, day, year)) =>
      match (MonthNumber(month), DayNumber(day))
      case (Some(m), Some(dd)) =>
        var date := Date(DigitsValue(year), m, dd);
        if ValidDate(date) then Some(date) else None
      case _ => None
  }

  function Zeros(n: nat): (r: String)
    ensures |r| == n && AllDigits(r) && DigitsValue(r) == 0
  {
    if n == 0 then [] else
      DigitsValueAppend(Zeros(n - 1), '0');
      Zeros(n - 1) + ['0']
  }

  lemma {:induction false} DigitsValueLeadingZeros(n: nat, s: String)
    requires AllDigits(s)
    ensures AllDigits(Zeros(n) + s) && DigitsValue(Zeros(n) + s) == DigitsValue(s)
    decreases |s|
  {
    if s == [] {
      assert Zeros(n) + s == Zeros(n);
    } else {
      var init := s[..|s| - 1];
      var last := s[|s| - 1];
      DigitsValueLeadingZeros(n, init);
      assert Zeros(n) + s == (Zeros(n) + init) + [last];
      DigitsValueAppend(Zeros(n) + init, last);
      assert s == init + [last];
      DigitsValueAppend(init, last);
    }
  }

  lemma {:induction false} NatToStringLength(n: nat, k: nat)
    requires k >= 1 && n < Pow10(k)
    ensures |NatToString(n)| <= k
    decreases n
  {
    if n >= 10 {
      NatToStringLength(n / 10, k - 1);
    }
  }

  /** `n` written with at least `width` digits, padded with leading zeros. */
  function PadNat(n: nat, width: nat): (r: String)
    requires width >= 1 && n < Pow10(width)
    ensures |r| == width && AllDigits(r) && DigitsValue(r) == n
  {
    var s := NatToString(n);
    NatToStringLength(n, width);
    DigitsValueLeadingZeros(width - |s|, s);
    Zeros(width - |s|) + s
  }

  /** `date.isoformat()`: `YYYY-MM-DD`. */
  function IsoFormat(d: Date): (r: String)
    requires ValidDate(d)
    ensures |r| == 10 && r[4] == '-' && r[7] == '-'
    ensures AllDigits(r[..4]) && AllDigits(r[5..7]) && AllDigits(r[8..])
    ensures DigitsValue(r[..4]) == d.year && DigitsValue(r[5..7]) == d.month && DigitsValue(r[8..]) == d.day
  {
    var y, m, dd := PadNat(d.year, 4), PadNat(d.month, 2), PadNat(d.day, 2);
    var r := y + "-" + m + "-" + dd;
    assert r[..4] == y && r[5..7] == m && r[8..] == dd;
    r
  }

  /**
   * The stored release date: the ISO form of the captured text when
   * `strptime` accepts it, the captured text itself when it raises.
   */
  function ReleaseDateText(raw: String): (r: String)
    ensures Strptime(raw).None? ==> r == raw
    ensures Strptime(raw).Some? ==> r == IsoFormat(Strptime(raw).value)
  {
    match Strptime(raw)
    case Some(d) => IsoFormat(d)
    case None => raw
  }

  /** How the page writes a date: `<Month> <day>, <year>`. */
  function EnglishFormat(d: Date): String
    requires ValidDate(d)
  {
    MonthNames[d.month - 1] + " " + NatToString(d.day) + ", " + PadNat(d.year, 4)
  }

  lemma MonthNamesAreLetters(k: nat)
    requires k < 12
    ensures |MonthNames[k]| >= 3 && forall j :: 0 <= j < |MonthNames[k]| ==> IsAsciiLetter(MonthNames[k][j])
  {
  }

  lemma SameIgnoringCaseHead(a: String, b: String)
    requires SameIgnoringCase(a, b) && |a| >= 3
    ensures LowerAscii(a[0]) == LowerAscii(b[0]) && LowerAscii(a[1]) == LowerAscii(b[1])
    ensures LowerAscii(a[2]) == LowerAscii(b[2])
  {
  }

  /** No two month names share their first three letters, whatever the case. */
  lemma MonthHeadsDiffer(j: nat, k: nat)
    requires j < k < 12
    ensures LowerAscii(MonthNames[j][0]) != LowerAscii(MonthNames[k][0])
         || LowerAscii(MonthNames[j][1]) != LowerAscii(MonthNames[k][1])
         || LowerAscii(MonthNames[j][2]) != LowerAscii(MonthNames[k][2])
  {
  }

  lemma MonthNumberOfName(k: nat)
    requires k < 12
    ensures MonthNumber(MonthNames[k]) == Some(k + 1)
  {
    var name := MonthNames[k];
    assert SameIgnoringCase(name, MonthNames[k]);
    MonthNamesAreLetters(k);
    forall j | 0 <= j < k ensures !SameIgnoringCase(name, MonthNames[j]) {
      MonthHeadsDiffer(j, k);
      if SameIgnoringCase(name, MonthNames[j]) {
        SameIgnoringCaseHead(name, MonthNames[j]);
      }
    }
  }

  /** `DateParts` on a text laid out as name, ' ', day, ", ", year. */
  lemma DatePartsAt(raw: String, name: String, day: String, year: String)
    requires |name| > 0 && forall j :: 0 <= j < |name| ==> IsAsciiLetter(name[j])
    requires |day| > 0 && AllDigits(day)
    requires |year| == 4 && AllDigits(year)
    requires |raw| == |name| + |day| + 7
    requires raw[..|name|] == name && raw[|name|] == ' ' && raw[|name| + 1..|name| + 1 + |day|] == day
    requires raw[|name| + 1 + |day|] == ',' && raw[|name| + 2 + |day|] == ' ' && raw[|name| + 3 + |day|..] == year
    ensures DateParts(raw) == Some((name, day, year))
  {
    var l, s := |name|, |name| + 1;
    var e := s + |day|;
    forall j | 0 <= j < l ensures InClass(raw[j], Letters) {
      assert raw[j] == name[j];
    }
    RunEndAt(raw, 0, l, Letters);
    RunEndAt(raw, l, s, Spaces);
    forall j | s <= j < e ensures InClass(raw[j], Digits) {
      assert raw[j] == day[j - s];
    }
    RunEndAt(raw, s, e, Digits);
    assert raw[e + 2] == year[0];
    RunEndAt(raw, e + 1, e + 2, Spaces);
    assert OccursAt(raw, ",", e);
  }

  lemma DatePartsOf(name: String, day: String, year: String)
    requires |name| > 0 && forall j :: 0 <= j < |name| ==> IsAsciiLetter(name[j])
    requires |day| > 0 && AllDigits(day)
    requires |year| == 4 && AllDigits(year)
    ensures DateParts(name + " " + day + ", " + year) == Some((name, day, year))
  {
    var raw := name + " " + day + ", " + year;
    var e := |name| + 1 + |day|;
    assert raw == name + (" " + (day + (", " + year)));
    assert raw[..|name|] == name && raw[|name|] == ' ' && raw[|name| + 1..e] == day;
    assert raw[e] == ',' && raw[e + 1] == ' ' && raw[e + 2..] == year;
    DatePartsAt(raw, name, day, year);
  }

  /** `strptime` on a month name, a day of one or two digits and a four-digit year. */
  lemma StrptimeOf(k: nat, day: String, year: String)
    requires k < 12 && 1 <= |day| <= 2 && AllDigits(day) && 1 <= DigitsValue(day) <= 31
    requires |year| == 4 && AllDigits(year)
    ensures var d := Date(DigitsValue(year), k + 1, DigitsValue(day));
      ValidDate(d) ==> Strptime(MonthNames[k] + " " + day + ", " + year) == Some(d)
    ensures var d := Date(DigitsValue(year), k + 1, DigitsValue(day));
      !ValidDate(d) ==> Strptime(MonthNames[k] + " " + day + ", " + year).None?
  {
    MonthNamesAreLetters(k);
    DatePartsOf(MonthNames[k], day, year);
    MonthNumberOfName(k);
  }

  /** Every real date, written the way the page writes it, is read back by `strptime`. */
  lemma {:induction false} StrptimeEnglishFormat(d: Date)
    requires ValidDate(d)
    ensures Strptime(EnglishFormat(d)) == Some(d)
  {
    NatToStringLength(d.day, 2);
    var k, day, year := d.month - 1, NatToString(d.day), PadNat(d.year, 4);
    assert 1 <= |day| <= 2 && DigitsValue(day) == d.day && DigitsValue(year) == d.year;
    assert EnglishFormat(d) == MonthNames[k] + " " + day + ", " + year;
    StrptimeOf(k, day, year);
  }

  /** A real date on the page is stored as its ISO form. */
  lemma {:induction false} ReleaseDateOfRealDate(d: Date)
    requires ValidDate(d)
    ensures ReleaseDateText(EnglishFormat(d)) == IsoFormat(d)
  {
    StrptimeEnglishFormat(d);
  }

  /** A month name, a day and a year that make no date: the raw text is kept. */
  lemma {:induction false} ReleaseDateNoSuchDay(k: nat, day: String, year: String)
    requires k < 12 && 1 <= |day| <= 2 && AllDigits(day) && |year| == 4 && AllDigits(year)
    requires !ValidDate(Date(DigitsValue(year), k + 1, DigitsValue(day)))
    ensures var raw := MonthNames[k] + " " + day + ", " + year; ReleaseDateText(raw) == raw
  {
    var raw := MonthNames[k] + " " + day + ", " + year;
    if 1 <= DigitsValue(day) <= 31 {
      StrptimeOf(k, day, year);
    } else {
      MonthNamesAreLetters(k);
      DatePartsOf(MonthNames[k], day, year);
    }
  }

  lemma DigitsValue2023()
    ensures DigitsValue("2023") == 2023
  {
    assert "2023"[..3] == "202" && "202"[..2] == "20" && "20"[..1] == "2";
  }

  /** 29 February of a common year is no date. */
  lemma ReleaseDateNotADay()
    ensures ReleaseDateText("February 29, 2023") == "February 29, 2023"
  {
    DigitsValue2023();
    assert DigitsValue("29") == 29 by {
      assert "29"[..1] == "2";
    }
    ReleaseDateNoSuchDay(1, "29", "2023");
    assert MonthNames[1] + " " + "29" + ", " + "2023" == "February 29, 2023";
  }

  /** A text that does not open with a month name's letters, an ISO date for one, is kept as it is. */
  lemma ReleaseDateOtherShape(raw: String)
    requires raw == [] || !IsAsciiLetter(raw[0])
    ensures ReleaseDateText(raw) == raw
  {
    assert RunEnd(raw, 0, Letters) == 0;
  }

  /** "2024-05-01", the ISO form, is such a text. */
  lemma ReleaseDateIso()
    ensures ReleaseDateText("2024-05-01") == "2024-05-01"
  {
    ReleaseDateOtherShape("2024-05-01");
  }

  /** A word that names no month, before a day and a year, leaves the text as it is. */
  lemma ReleaseDateNoMonth(name: String, day: String, year: String)
    requires |name| > 0 && forall j :: 0 <= j < |name| ==> IsAsciiLetter(name[j])
    requires |day| > 0 && AllDigits(day) && |year| == 4 && AllDigits(year)
    requires MonthNumber(name).None?
    ensures var raw := name + " " + day + ", " + year; ReleaseDateText(raw) == raw
  {
    DatePartsOf(name, day, year);
  }
}
