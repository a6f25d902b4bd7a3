/**
 * Lines as a cell page writes them, and the values the field parsers of
 * scrape_cells.py read from them. Each example instantiates one of the
 * layout lemmas; the small text lemmas only cut a literal into its pieces.
 */
module Samples {
  import opened Text
  import opened Wrappers
  import opened Numbers
  import opened Patterns
  import opened Extract
  import opened Layouts
  import opened CellPage

  /** The current line of the docstring of `parse_current_range`. */
  const CurrentLine: String := "-90 A discharge \U{2026} 12 A charge (-30C \U{2026} 4C)"

  lemma DischargeHalfText(y: String)
    ensures "-90" + (" " + ("A" + (" " + ("discharge" + (" " + ("\U{2026}" + (" " + y))))))) == "-90 A discharge \U{2026} " + y
  {
  }

  lemma ChargeHalfText(y: String)
    ensures "12" + (" " + ("A" + (" " + ("charge" + y)))) == "12 A charge" + y
  {
  }

  lemma CurrentLineHalves()
    ensures "-90 A discharge \U{2026} " + ("12 A charge" + " (-30C \U{2026} 4C)") == CurrentLine
  {
  }

  lemma CurrentLineCurrentsText()
    ensures CurrentLine == "" + (SignedText(true, "90", "") + (" " + ("A" + (" " + ("discharge" + (" " + ("\U{2026}" + (" "
                  + (SignedText(false, "12", "") + (" " + ("A" + (" " + ("charge" + " (-30C \U{2026} 4C)")))))))))))))
  {
    ChargeHalfText(" (-30C \U{2026} 4C)");
    DischargeHalfText("12" + (" " + ("A" + (" " + ("charge" + " (-30C \U{2026} 4C)")))));
    CurrentLineHalves();
    assert SignedText(true, "90", "") == "-90";
    assert SignedText(false, "12", "") == "12";
  }

  lemma CurrentLineCurrents()
    ensures ParseCurrentRange(CurrentLine).0 == Some(-90.0) && ParseCurrentRange(CurrentLine).1 == Some(12.0)
  {
    CurrentLineCurrentsText();
    CurrentsWritten("", true, "90", "", " ", " ", " ", "\U{2026}", " ", false, "12", "", " ", " ", " (-30C \U{2026} 4C)");
    assert SignedValue(true, "90", "") == -90.0;
    assert SignedValue(false, "12", "") == 12.0;
  }

  lemma CurrentLineCRatesText()
    ensures CurrentLine == "-90 A discharge \U{2026} 12 A charge " + ("(" + ("" + (SignedText(true, "30", "") + ("" + ("C" + (" " + ("\U{2026}" + (" "
                  + (SignedText(false, "4", "") + ("" + ("C" + ("" + (")" + "")))))))))))))
  {
    assert SignedText(true, "30", "") == "-30";
    assert SignedText(false, "4", "") == "4";
  }

  lemma NoOpenBeforeCRates()
    ensures '(' !in "-90 A discharge \U{2026} 12 A charge "
  {
  }

  lemma CurrentLineCRates()
    ensures ParseCurrentRange(CurrentLine).2 == Some(-30.0) && ParseCurrentRange(CurrentLine).3 == Some(4.0)
  {
    CurrentLineCRatesText();
    NoOpenBeforeCRates();
    CRatesWritten("-90 A discharge \U{2026} 12 A charge ", "", true, "30", "", "", " ", "\U{2026}", " ", false, "4", "", "", "", "");
    assert SignedValue(true, "30", "") == -30.0;
    assert SignedValue(false, "4", "") == 4.0;
  }

  /** `parse_current_range` on its own docstring example. */
  lemma CurrentLineExample()
    ensures ParseCurrentRange(CurrentLine) == (Some(-90.0), Some(12.0), Some(-30.0), Some(4.0))
  {
    CurrentLineCurrents();
    CurrentLineCRates();
  }

  lemma DimensionsText()
    ensures "18.3 x 65 mm" == "" + (Numeral("18", "3") + (" " + (['x'] + (" " + (Numeral("65", "") + " mm")))))
  {
  }

  lemma DimensionsValues()
    ensures DecimalValue("18", "3") == 18.3 && DecimalValue("65", "") == 65.0
  {
    assert "18"[..1] == "1" && "65"[..1] == "6";
    assert DigitsValue("18") == 18 && DigitsValue("3") == 3 && Shift(3.0, 1) == 0.3;
  }

  /** The dimensions as a cell page writes them: 18.3 mm across and 65 mm high. */
  lemma DimensionsExample()
    ensures ParseDimensions(Some("18.3 x 65 mm")) == (Some(18.3), Some(65.0))
  {
    DimensionsText();
    DimensionsWritten("", "18", "3", " ", 'x', " ", "65", "", " mm");
    DimensionsValues();
  }

  lemma WeightText()
    ensures "48.5 g" == "" + (Numeral("48", "5") + (" " + ("g" + "")))
  {
  }

  lemma WeightValue()
    ensures DecimalValue("48", "5") == 48.5
  {
    assert "48"[..1] == "4" && "5"[..0] == [];
    assert DigitsValue("5") == 5;
    assert Shift(5.0, 0) == 5.0;
    assert DigitsValue("48") == 48 && Shift(5.0, 1) == 0.5;
  }

  /** The weight as a cell page writes it. */
  lemma WeightExample()
    ensures ParseWeight(Some("48.5 g")) == Some(48.5)
  {
    WeightText();
    WeightWritten("", "48", "5", " ", "");
    WeightValue();
  }

  lemma ModelVersionText()
    ensures "Batemo Cell Model Version 2.1" == "" + (VersionLabel + (" " + ("2.1" + "")))
    ensures Find("" + VersionLabel, VersionLabel, 0) == 0
  {
  }

  /** The model version as a cell page writes it. */
  lemma ModelVersionExample()
    ensures ParseModelVersion("Batemo Cell Model Version 2.1") == Some("2.1")
  {
    ModelVersionText();
    ModelVersionWritten("", " ", "2.1", "");
  }

  lemma ContinuousHalfText(y: String)
    ensures "contin" + ("uous" + (" " + (Numeral("20", "") + (" " + ("A" + y))))) == "continuous 20 A" + y
  {
  }

  lemma ContinuousCurrentText()
    ensures "Current continuous 20 A peak 90 A"
      == "Current " + ("contin" + ("uous" + (" " + (Numeral("20", "") + (" " + ("A" + " peak 90 A"))))))
    ensures Find("Current " + "contin", "contin", 0) == |"Current "|
  {
    ContinuousHalfText(" peak 90 A");
    assert "Current " + ("continuous 20 A" + " peak 90 A") == "Current continuous 20 A peak 90 A";
    FindPastHead("Current ", "contin");
  }

  lemma PeakCurrentText()
    ensures "Current continuous 20 A peak 90 A"
      == "Current continuous 20 A " + ("peak" + ("" + (" " + (Numeral("90", "") + (" " + ("A" + ""))))))
    ensures Find("Current continuous 20 A " + "peak", "peak", 0) == |"Current continuous 20 A "|
  {
    FindPastHead("Current continuous 20 A ", "peak");
  }

  lemma CurrentValues()
    ensures DecimalValue("20", "") == 20.0 && DecimalValue("90", "") == 90.0
  {
    assert "20"[..1] == "2" && "90"[..1] == "9";
  }

  /** The continuous current of a current block. */
  lemma ContinuousCurrentExample()
    ensures ParseFirstFloat(Some("Current continuous 20 A peak 90 A"), ContinuousCurrent) == Some(20.0)
  {
    ContinuousCurrentText();
    ParseFirstFloatWritten("Current ", "contin", true, "uous", " ", "20", "", " ", "A", " peak 90 A");
    CurrentValues();
  }

  /** The peak current of a current block. */
  lemma PeakCurrentExample()
    ensures ParseFirstFloat(Some("Current continuous 20 A peak 90 A"), PeakCurrent) == Some(90.0)
  {
    PeakCurrentText();
    ParseFirstFloatWritten("Current continuous 20 A ", "peak", false, "", " ", "90", "", " ", "A", "");
    CurrentValues();
  }

  /** The temperature line of the docstring of `parse_range_simple`, with its two soft hyphens. */
  const TemperatureDocstringLine: String := "Temper\U{AD}a\U{AD}ture Range -20 \U{2026} 80 \U{B0}C"

  /** The same line without soft hyphens. */
  const TemperatureLine: String := "Temperature Range -20 \U{2026} 80 \U{B0}C"

  /**
   * With the label "Temper", the temperature range of the docstring's line
   * is not read: a soft hyphen follows the label, and the label occurs
   * nowhere else. Both readings agree.
   */
  lemma TemperatureDocstringRange()
    ensures ParseRangeSimpleAsWritten(TemperatureDocstringLine, "Temper", Some("\U{B0}C")) == (None, None)
    ensures ParseRangeSimple(TemperatureDocstringLine, "Temper", Some("\U{B0}C")) == (None, None)
  {
    var t := TemperatureDocstringLine;
    forall i | 0 <= i <= |t| && OccursAt(t, "Temper", i) ensures NoNumberAfter(t, i + 6) {
      assert t[i] == "Temper"[0] == 'T';
      assert i == 0;
      assert RunEnd(t, 6, Spaces) == 6;
    }
    ParseRangeSimpleNoNumber(t, "Temper", Some("\U{B0}C"));
  }

  /** Without soft hyphens the letters "ature" follow the label, and the range is not read either. */
  lemma TemperatureLineRange()
    ensures ParseRangeSimpleAsWritten(TemperatureLine, "Temper", Some("\U{B0}C")) == (None, None)
    ensures ParseRangeSimple(TemperatureLine, "Temper", Some("\U{B0}C")) == (None, None)
  {
    var t := TemperatureLine;
    forall i | 0 <= i <= |t| && OccursAt(t, "Temper", i) ensures NoNumberAfter(t, i + 6) {
      assert t[i] == "Temper"[0] == 'T';
      assert i == 0;
      assert RunEnd(t, 6, Spaces) == 6;
    }
    ParseRangeSimpleNoNumber(t, "Temper", Some("\U{B0}C"));
  }
}
