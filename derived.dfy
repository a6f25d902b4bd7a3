/**
 * The derived quantities of a cell page (scrape_cells.py): mean voltages,
 * the effective internal resistance and the C-rates. Each is computed only
 * when its operands are "truthy" in Python's sense, so a value of 0.0 counts
 * as missing.
 */
module Derived {
  import opened Wrappers

  /** Python truthiness of an optional float: set and not zero. */
  predicate Truthy(x: Option<real>) {
    x.Some? && x.value != 0.0
  }

  datatype Metrics = Metrics(
    meanVoltageC10: Option<real>,   // V, C/10 energy over C/10 capacity
    meanVoltagePeak: Option<real>,  // V, peak power over peak current
    rEff: Option<real>,             // mOhm
    cRateContinuous: Option<real>,  // 1/h, continuous current over nominal capacity
    cRatePeak: Option<real>)        // 1/h, peak current over nominal capacity

  /** `r` is `num / den` when both are truthy, and nothing otherwise. */
  predicate IsRatio(r: Option<real>, num: Option<real>, den: Option<real>) {
    (r.Some? <==> Truthy(num) && Truthy(den)) &&
    (r.Some? ==> r.value * den.value == num.value && r.value != 0.0)
  }

  /**
   * `r` is the effective resistance in mOhm: set exactly when both mean
   * voltages and the peak current are truthy and the C/10 voltage is the
   * higher, and then the voltage drop over the peak current, times 1000.
   */
  predicate IsResistance(r: Option<real>, meanC10: Option<real>, meanPeak: Option<real>, peakCurrent: Option<real>) {
    (r.Some? <==> Truthy(meanC10) && Truthy(meanPeak) && Truthy(peakCurrent) && meanC10.value > meanPeak.value) &&
    (r.Some? ==> r.value * peakCurrent.value == 1000.0 * (meanC10.value - meanPeak.value)) &&
    (r.Some? && peakCurrent.value > 0.0 ==> r.value > 0.0)
  }

  /** `num / den` when both are truthy, else nothing. */
  function Ratio(num: Option<real>, den: Option<real>): (r: Option<real>)
    ensures r.Some? <==> Truthy(num) && Truthy(den)
  {
    if Truthy(num) && Truthy(den) then Some(num.value / den.value) else None
  }

  /** `Ratio` is the quotient: times the denominator it gives back the numerator, and it is never zero. */
  lemma RatioIsRatio(num: Option<real>, den: Option<real>)
    ensures IsRatio(Ratio(num, den), num, den)
  {
    if Truthy(num) && Truthy(den) {
      var q := num.value / den.value;
      assert q * den.value == num.value;
    }
  }

  /** The effective resistance from the two mean voltages and the peak current. */
  function EffectiveResistance(meanC10: Option<real>, meanPeak: Option<real>, peakCurrent: Option<real>): (r: Option<real>)
    ensures r.Some? <==> Truthy(meanC10) && Truthy(meanPeak) && Truthy(peakCurrent) && meanC10.value > meanPeak.value
  {
    if Truthy(meanC10) && Truthy(meanPeak) && Truthy(peakCurrent) then
      var dv := meanC10.value - meanPeak.value;
      if dv > 0.0 then Some(1000.0 * dv / peakCurrent.value) else None
    else None
  }

  /** `EffectiveResistance` is the voltage drop in mV over the peak current, and positive for a positive current. */
  lemma EffectiveResistanceIsResistance(meanC10: Option<real>, meanPeak: Option<real>, peakCurrent: Option<real>)
    ensures IsResistance(EffectiveResistance(meanC10, meanPeak, peakCurrent), meanC10, meanPeak, peakCurrent)
  {
    var r := EffectiveResistance(meanC10, meanPeak, peakCurrent);
    if r.Some? {
      var x := 1000.0 * (meanC10.value - meanPeak.value);
      assert x > 0.0;
      assert r.value * peakCurrent.value == x;
      assert peakCurrent.value > 0.0 ==> x / peakCurrent.value > 0.0;
    }
  }

  /**
   * The derived block of `parse_cell_page`: each value is set exactly when
   * its operands are truthy (and, for the resistance, the C/10 voltage is
   * the higher).
   */
  function DeriveMetrics(c10Cap: Option<real>, c10Energy: Option<real>, peakPower: Option<real>,
                         peakCurrent: Option<real>, nominalCap: Option<real>, contCurrent: Option<real>): (m: Metrics)
    ensures m.meanVoltageC10.Some? <==> Truthy(c10Energy) && Truthy(c10Cap)
    ensures m.meanVoltagePeak.Some? <==> Truthy(peakPower) && Truthy(peakCurrent)
    ensures m.cRateContinuous.Some? <==> Truthy(contCurrent) && Truthy(nominalCap)
    ensures m.cRatePeak.Some? <==> Truthy(peakCurrent) && Truthy(nominalCap)
    ensures m.rEff.Some? <==>
      Truthy(m.meanVoltageC10) && Truthy(m.meanVoltagePeak) && Truthy(peakCurrent)
      && m.meanVoltageC10.value > m.meanVoltagePeak.value
  {
    var meanC10 := Ratio(c10Energy, c10Cap);
    var meanPeak := Ratio(peakPower, peakCurrent);
    Metrics(meanC10, meanPeak, EffectiveResistance(meanC10, meanPeak, peakCurrent),
            Ratio(contCurrent, nominalCap), Ratio(peakCurrent, nominalCap))
  }

  /**
   * Each derived value is the quotient of the fields it names, and the
   * effective resistance is the drop between the two mean voltages over the
   * peak current.
   */
  lemma DeriveMetricsSound(c10Cap: Option<real>, c10Energy: Option<real>, peakPower: Option<real>,
                           peakCurrent: Option<real>, nominalCap: Option<real>, contCurrent: Option<real>)
    ensures var m := DeriveMetrics(c10Cap, c10Energy, peakPower, peakCurrent, nominalCap, contCurrent);
      && IsRatio(m.meanVoltageC10, c10Energy, c10Cap)
      && IsRatio(m.meanVoltagePeak, peakPower, peakCurrent)
      && IsResistance(m.rEff, m.meanVoltageC10, m.meanVoltagePeak, peakCurrent)
      && IsRatio(m.cRateContinuous, contCurrent, nominalCap)
      && IsRatio(m.cRatePeak, peakCurrent, nominalCap)
  {
    var meanC10 := Ratio(c10Energy, c10Cap);
    var meanPeak := Ratio(peakPower, peakCurrent);
    RatioIsRatio(c10Energy, c10Cap);
    RatioIsRatio(peakPower, peakCurrent);
    EffectiveResistanceIsResistance(meanC10, meanPeak, peakCurrent);
    RatioIsRatio(contCurrent, nominalCap);
    RatioIsRatio(peakCurrent, nominalCap);
  }

  /**
   * The derived block as `parse_cell_page` runs it: each value starts as
   * nothing and is set when its operands are truthy, the effective
   * resistance only when the voltage drop is positive.
   */
  method ComputeDerived(c10Cap: Option<real>, c10Energy: Option<real>, peakPower: Option<real>,
                        peakCurrent: Option<real>, nominalCap: Option<real>, contCurrent: Option<real>)
    returns (m: Metrics)
    ensures m == DeriveMetrics(c10Cap, c10Energy, peakPower, peakCurrent, nominalCap, contCurrent)
  {
    var meanC10: Option<real> := None;
    if Truthy(c10Cap) && Truthy(c10Energy) {
      meanC10 := Some(c10Energy.value / c10Cap.value);
    }
    var meanPeak: Option<real> := None;
    if Truthy(peakPower) && Truthy(peakCurrent) {
      meanPeak := Some(peakPower.value / peakCurrent.value);
    }
    var rEff: Option<real> := None;
    if Truthy(meanC10) && Truthy(meanPeak) && Truthy(peakCurrent) {
      var dv := meanC10.value - meanPeak.value;
      if dv > 0.0 {
        rEff := Some(1000.0 * dv / peakCurrent.value);
      }
    }
    var cRateContinuous: Option<real> := None;
    if Truthy(nominalCap) && Truthy(contCurrent) {
      cRateContinuous := Some(contCurrent.value / nominalCap.value);
    }
    var cRatePeak: Option<real> := None;
    if Truthy(nominalCap) && Truthy(peakCurrent) {
      cRatePeak := Some(peakCurrent.value / nominalCap.value);
    }
    m := Metrics(meanC10, meanPeak, rEff, cRateContinuous, cRatePeak);
  }

  /** A cell of 2 Ah and 7 Wh at C/10, 30 W at 10 A peak: 3.5 V, 3 V and 50 mOhm. */
  lemma DeriveMetricsExample()
    ensures DeriveMetrics(Some(2.0), Some(7.0), Some(30.0), Some(10.0), Some(2.0), Some(4.0))
         == Metrics(Some(3.5), Some(3.0), Some(50.0), Some(2.0), Some(5.0))
  {
  }

  /** A capacity of 0.0 counts as missing: no C/10 voltage, hence no resistance, and no C-rates. */
  lemma DeriveMetricsZeroCapacity(c10Energy: Option<real>, peakPower: Option<real>, peakCurrent: Option<real>,
                                  contCurrent: Option<real>)
    ensures var m := DeriveMetrics(Some(0.0), c10Energy, peakPower, peakCurrent, Some(0.0), contCurrent);
      m.meanVoltageC10.None? && m.rEff.None? && m.cRateContinuous.None? && m.cRatePeak.None?
  {
  }
}
