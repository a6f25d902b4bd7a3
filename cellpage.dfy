/**
 * `parse_cell_page` (scrape_cells.py): one product page turned into the
 * record that is upserted by slug, plus the rule that decides whether a page
 * counts as parsed, the truncation of logged error messages, and the filter
 * that reads the URL list.
 */
module CellPage {
  import opened Text
  import opened Wrappers
  import opened Numbers
  import opened Normalize
  import opened Patterns
  import opened Extract
  import opened Derived

  /**
   * What the model sees of a fetched page: the raw HTML, its text as
   * `get_text("\n", strip=True)` renders it, the text of its first `<h1>`
   * if there is one, its text nodes in document order, and the URL together
   * with the path part of it.
   */
  datatype Page = Page(
    html: String,
    text: String,
    heading: Option<String>,
    nodes: seq<TextNode>,
    url: String,
    urlPath: String)

  /** The overview fields, read from the page's labelled elements. */
  datatype Overview = Overview(
    cellOrigin: Option<String>,
    cellFormat: Option<String>,
    dimensionsRaw: Option<String>,
    diameterMm: Option<real>,
    heightMm: Option<real>,
    weightG: Option<real>)

  /** The quantities of the capacity, current, energy, power and density blocks. */
  datatype Quantities = Quantities(
    nominalCapacityAh: Option<real>,
    c10CapacityAh: Option<real>,
    continuousCurrentA: Option<real>,
    peakCurrentA: Option<real>,
    c10EnergyWh: Option<real>,
    continuousPowerW: Option<real>,
    peakPowerW: Option<real>,
    energyDensityWhPerKg: Option<real>,
    energyDensityWhPerL: Option<real>,
    powerDensityKwPerKg: Option<real>,
    powerDensityKwPerL: Option<real>)

  /** The cell model's version and release date. */
  datatype ModelInfo = ModelInfo(
    cellModelVersion: Option<String>,
    cellModelReleaseDate: Option<String>)

  /** The operating ranges. */
  datatype Ranges = Ranges(
    socMinPct: Option<real>,
    socMaxPct: Option<real>,
    currentDischargeMinA: Option<real>,
    currentChargeMaxA: Option<real>,
    currentCMin: Option<real>,
    currentCMax: Option<real>,
    voltageMinV: Option<real>,
    voltageMaxV: Option<real>,
    tempMinC: Option<real>,
    tempMaxC: Option<real>)

  /** One row of the `cells` table, its fields grouped as the page groups them. */
  datatype CellRecord = CellRecord(
    name: Option<String>,
    slug: String,
    detailUrl: String,
    overview: Overview,
    quantities: Quantities,
    modelInfo: ModelInfo,
    ranges: Ranges,
    derived: Metrics,
    rawHtml: String)

  // The quantity patterns of the six blocks.
  const NominalCapacity := Quantity("nominal", false, "Ah")
  const C10Capacity := Quantity("C/10", false, "Ah")
  const ContinuousCurrent := Quantity("contin", true, "A")
  const PeakCurrent := Quantity("peak", false, "A")
  const C10Energy := Quantity("C/10", false, "Wh")
  const ContinuousPower := Quantity("contin", true, "W")
  const PeakPower := Quantity("peak", false, "W")
  const GravimetricEnergy := Quantity("gravi", true, "Wh/kg")
  const VolumetricEnergy := Quantity("volumetric", false, "Wh/l")
  const GravimetricPower := Quantity("gravi", true, "kW/kg")
  const VolumetricPower := Quantity("volumetric", false, "kW/l")

  /** Set values are never negative. */
  predicate NotNegative(x: Option<real>) {
    x.Some? ==> x.value >= 0.0
  }

  /** Every quantity read by an unsigned pattern is at least zero. */
  predicate UnsignedFieldsNotNegative(o: Overview, q: Quantities) {
    NotNegative(o.diameterMm) && NotNegative(o.heightMm)
    && NotNegative(q.nominalCapacityAh) && NotNegative(q.c10CapacityAh)
    && NotNegative(q.continuousCurrentA) && NotNegative(q.peakCurrentA) && NotNegative(q.c10EnergyWh)
    && NotNegative(q.continuousPowerW) && NotNegative(q.peakPowerW)
    && NotNegative(q.energyDensityWhPerKg) && NotNegative(q.energyDensityWhPerL)
    && NotNegative(q.powerDensityKwPerKg) && NotNegative(q.powerDensityKwPerL)
  }

  /** The overview as the page's labelled elements give it. */
  predicate OverviewRead(nodes: seq<TextNode>, o: Overview) {
    && o.cellOrigin == ExtractLabelValue(nodes, "Cell Origin")
    && o.cellFormat == ExtractLabelValue(nodes, "Cell Format")
    && o.dimensionsRaw == ExtractLabelValue(nodes, "Dimen")
    && (o.diameterMm, o.heightMm) == ParseDimensions(o.dimensionsRaw)
    && o.weightG == ParseWeight(ExtractLabelValue(nodes, "Weight"))
  }

  /** Each quantity is the first match of its pattern in its block of the normalized text. */
  predicate QuantitiesRead(norm: String, q: Quantities) {
    && q.nominalCapacityAh == ParseFirstFloat(Block(norm, "Capacity", CapacityEnds), NominalCapacity)
    && q.c10CapacityAh == ParseFirstFloat(Block(norm, "Capacity", CapacityEnds), C10Capacity)
    && q.continuousCurrentA == ParseFirstFloat(Block(norm, "Current", CurrentEnds), ContinuousCurrent)
    && q.peakCurrentA == ParseFirstFloat(Block(norm, "Current", CurrentEnds), PeakCurrent)
    && q.c10EnergyWh == ParseFirstFloat(Block(norm, "Energy", EnergyEnds), C10Energy)
    && q.continuousPowerW == ParseFirstFloat(Block(norm, "Power", PowerEnds), ContinuousPower)
    && q.peakPowerW == ParseFirstFloat(Block(norm, "Power", PowerEnds), PeakPower)
    && q.energyDensityWhPerKg == ParseFirstFloat(Block(norm, "Energy Density", EnergyDensityEnds), GravimetricEnergy)
    && q.energyDensityWhPerL == ParseFirstFloat(Block(norm, "Energy Density", EnergyDensityEnds), VolumetricEnergy)
    && q.powerDensityKwPerKg == ParseFirstFloat(Block(norm, "Power Density", PowerDensityEnds), GravimetricPower)
    && q.powerDensityKwPerL == ParseFirstFloat(Block(norm, "Power Density", PowerDensityEnds), VolumetricPower)
  }

  /** The model version and release date as the normalized text gives them. */
  predicate ModelInfoRead(norm: String, m: ModelInfo) {
    m.cellModelVersion == ParseModelVersion(norm) && m.cellModelReleaseDate == ParseReleaseDate(norm)
  }

  /** The ranges as the normalized text gives them; the temperature label is the prefix "Temper". */
  predicate RangesRead(norm: String, g: Ranges) {
    && (g.socMinPct, g.socMaxPct) == ParseRangeSimple(norm, "State of Charge Range", Some("%"))
    && (g.currentDischargeMinA, g.currentChargeMaxA, g.currentCMin, g.currentCMax) == ParseCurrentRange(norm)
    && (g.voltageMinV, g.voltageMaxV) == ParseRangeSimple(norm, "Voltage Range", Some("V"))
    && (g.tempMinC, g.tempMaxC) == ParseRangeSimple(norm, "Temper", Some("\U{B0}C"))
  }

  /**
   * The overview of `parse_cell_page`: origin, format and raw dimensions
   * from the page's labelled elements, the diameter and height read from
   * the dimensions, and the weight; diameter and height are never negative.
   */
  method ReadOverview(nodes: seq<TextNode>) returns (o: Overview)
    ensures OverviewRead(nodes, o)
    ensures NotNegative(o.diameterMm) && NotNegative(o.heightMm)
  {
    var dimRaw := ExtractLabelValue(nodes, "Dimen");
    var (diameter, height) := ParseDimensions(dimRaw);
    o := Overview(ExtractLabelValue(nodes, "Cell Origin"), ExtractLabelValue(nodes, "Cell Format"),
                  dimRaw, diameter, height, ParseWeight(ExtractLabelValue(nodes, "Weight")));
  }

  /**
   * The six blocks of `parse_cell_page` and the quantities read from them:
   * each is the first match of its pattern in its block, and none is
   * negative.
   */
  method ReadBlocks(norm: String) returns (q: Quantities)
    ensures QuantitiesRead(norm, q)
    ensures NotNegative(q.nominalCapacityAh) && NotNegative(q.c10CapacityAh)
    ensures NotNegative(q.continuousCurrentA) && NotNegative(q.peakCurrentA) && NotNegative(q.c10EnergyWh)
    ensures NotNegative(q.continuousPowerW) && NotNegative(q.peakPowerW)
    ensures NotNegative(q.energyDensityWhPerKg) && NotNegative(q.energyDensityWhPerL)
    ensures NotNegative(q.powerDensityKwPerKg) && NotNegative(q.powerDensityKwPerL)
  {
    var capBlock := ExtractBlock(norm, "Capacity", CapacityEnds);
    var currentBlock := ExtractBlock(norm, "Current", CurrentEnds);
    var energyBlock := ExtractBlock(norm, "Energy", EnergyEnds);
    var powerBlock := ExtractBlock(norm, "Power", PowerEnds);
    var energyDensityBlock := ExtractBlock(norm, "Energy Density", EnergyDensityEnds);
    var powerDensityBlock := ExtractBlock(norm, "Power Density", PowerDensityEnds);

    q := Quantities(
      ParseFirstFloat(capBlock, NominalCapacity),
      ParseFirstFloat(capBlock, C10Capacity),
      ParseFirstFloat(currentBlock, ContinuousCurrent),
      ParseFirstFloat(currentBlock, PeakCurrent),
      ParseFirstFloat(energyBlock, C10Energy),
      ParseFirstFloat(powerBlock, ContinuousPower),
      ParseFirstFloat(powerBlock, PeakPower),
      ParseFirstFloat(energyDensityBlock, GravimetricEnergy),
      ParseFirstFloat(energyDensityBlock, VolumetricEnergy),
      ParseFirstFloat(powerDensityBlock, GravimetricPower),
      ParseFirstFloat(powerDensityBlock, VolumetricPower));
    QuantitiesNotNegative(norm, q);
  }

  /** Every quantity read by a quantity pattern is never negative. */
  lemma QuantitiesNotNegative(norm: String, q: Quantities)
    requires QuantitiesRead(norm, q)
    ensures NotNegative(q.nominalCapacityAh) && NotNegative(q.c10CapacityAh)
    ensures NotNegative(q.continuousCurrentA) && NotNegative(q.peakCurrentA) && NotNegative(q.c10EnergyWh)
    ensures NotNegative(q.continuousPowerW) && NotNegative(q.peakPowerW)
    ensures NotNegative(q.energyDensityWhPerKg) && NotNegative(q.energyDensityWhPerL)
    ensures NotNegative(q.powerDensityKwPerKg) && NotNegative(q.powerDensityKwPerL)
  {
  }

  /** The model version and the release date, each read from the normalized text. */
  method ReadModelInfo(norm: String) returns (m: ModelInfo)
    ensures ModelInfoRead(norm, m)
    ensures m.cellModelVersion.Some? ==>
      m.cellModelVersion.value != [] && AllInClass(m.cellModelVersion.value, VersionChars)
  {
    m := ModelInfo(ParseModelVersion(norm), ParseReleaseDate(norm));
  }

  /**
   * The operating ranges of `parse_cell_page`: the state-of-charge, current,
   * C-rate, voltage and temperature ranges read from the normalized text.
   * The two currents are set together, and so are the two C-rates.
   */
  method ReadRanges(norm: String) returns (g: Ranges)
    ensures RangesRead(norm, g)
    ensures g.currentDischargeMinA.Some? <==> g.currentChargeMaxA.Some?
    ensures g.currentCMin.Some? <==> g.currentCMax.Some?
  {
    var (socMin, socMax) := ParseRangeSimple(norm, "State of Charge Range", Some("%"));
    var (iDisMin, iChMax, cMin, cMax) := ParseCurrentRange(norm);
    var (vMin, vMax) := ParseRangeSimple(norm, "Voltage Range", Some("V"));
    var (tMin, tMax) := ParseRangeSimple(norm, "Temper", Some("\U{B0}C"));
    g := Ranges(socMin, socMax, iDisMin, iChMax, cMin, cMax, vMin, vMax, tMin, tMax);
  }

  /**
   * `parse_cell_page`: the record filled group by group. Every number read
   * by an unsigned pattern is at least zero, the current and C-rate pairs
   * are each set together or not at all, the slug holds no '/', and the
   * derived block is computed from the fields it names.
   */
  method ParseCellPage(page: Page) returns (r: CellRecord)
    ensures r.name == page.heading && r.slug == Slug(page.urlPath) && '/' !in r.slug
    ensures r.detailUrl == page.url && r.rawHtml == page.html
    ensures OverviewRead(page.nodes, r.overview)
    ensures var norm := NormalizeWhitespace(page.text);
      QuantitiesRead(norm, r.quantities) && ModelInfoRead(norm, r.modelInfo) && RangesRead(norm, r.ranges)
    ensures UnsignedFieldsNotNegative(r.overview, r.quantities)
    ensures r.ranges.currentDischargeMinA.Some? <==> r.ranges.currentChargeMaxA.Some?
    ensures r.ranges.currentCMin.Some? <==> r.ranges.currentCMax.Some?
    ensures var q := r.quantities;
      r.derived == DeriveMetrics(q.c10CapacityAh, q.c10EnergyWh, q.peakPowerW,
                                 q.peakCurrentA, q.nominalCapacityAh, q.continuousCurrentA)
  {
    var norm := NormalizeWhitespace(page.text);
    var slug := Slug(page.urlPath);
    var overview := ReadOverview(page.nodes);
    var q := ReadBlocks(norm);
    var modelInfo := ReadModelInfo(norm);
    var ranges := ReadRanges(norm);
    var derived := ComputeDerived(q.c10CapacityAh, q.c10EnergyWh, q.peakPowerW,
                                  q.peakCurrentA, q.nominalCapacityAh, q.continuousCurrentA);
    r := CellRecord(page.heading, slug, page.url, overview, q, modelInfo, ranges, derived, page.html);
  }

  // The labels that end each block.
  const CapacityEnds: seq<String> := [" Current", " Energy", " Power", " Energy Density", " Power Density"]
  const CurrentEnds: seq<String> := [" Energy", " Power", " Energy Density", " Power Density"]
  const EnergyEnds: seq<String> := [" Power", " Energy Density", " Power Density"]
  const PowerEnds: seq<String> := [" Energy Density", " Power Density"]
  const EnergyDensityEnds: seq<String> := [" Power Density", " Batemo Cell Model Version"]
  const PowerDensityEnds: seq<String> := [" Batemo Cell Model Version", "##", " Batemo Cell Model"]

  // ---------------------------------------------------------------------------
  // The accept rule of scrape_all
  // ---------------------------------------------------------------------------

  /** A parsed page is a parse error when its name or its slug is missing or empty. */
  predicate IsParseError(name: Option<String>, slug: String) {
    name.None? || name.value == [] || slug == []
  }

  /**
   * A page is accepted exactly when it has a non-empty `<h1>` and its URL
   * path holds something besides '/'; an accepted slug is the path's last
   * segment, non-empty and free of '/'.
   */
  lemma AcceptRule(page: Page)
    ensures !IsParseError(page.heading, Slug(page.urlPath)) <==>
      page.heading.Some? && page.heading.value != [] && exists i :: 0 <= i < |page.urlPath| && page.urlPath[i] != '/'
  {
    SlugEmpty(page.urlPath);
  }

  // ---------------------------------------------------------------------------
  // log_result and load_urls
  // ---------------------------------------------------------------------------

  const MaxErrorMessage := 500

  /** `log_result` keeps at most the first 500 characters of an error message. */
  method TruncateErrorMessage(errorMessage: Option<String>) returns (r: Option<String>)
    ensures r.None? <==> errorMessage.None?
    ensures r.Some? ==>
      |r.value| <= MaxErrorMessage && |r.value| <= |errorMessage.value| && r.value == errorMessage.value[..|r.value|]
    ensures r.Some? ==> |r.value| == |errorMessage.value| || |r.value| == MaxErrorMessage
  {
    r := errorMessage;
    if r.Some? && r.value != [] && |r.value| > MaxErrorMessage {
      r := Some(r.value[..MaxErrorMessage]);
    }
  }

  /** A line of the URL file that `load_urls` keeps, once stripped. */
  predicate KeptLine(line: String) {
    Strip(line) != [] && !StartsWith(Strip(line), "#")
  }

  /** `load_urls`: every line stripped, blank lines and lines starting with '#' dropped, order kept. */
  function LoadUrls(lines: seq<String>): (urls: seq<String>)
    ensures |urls| <= |lines|
  {
    if lines == [] then []
    else
      var rest := LoadUrls(lines[1..]);
      if KeptLine(lines[0]) then [Strip(lines[0])] + rest else rest
  }

  /** The line `line` is kept and loads as `u`. */
  predicate LoadsAs(line: String, u: String) {
    KeptLine(line) && Strip(line) == u
  }

  /** Every loaded URL is non-empty, stripped, and not a comment. */
  lemma {:induction false} LoadUrlsClean(lines: seq<String>)
    ensures forall u :: u in LoadUrls(lines) ==> u != [] && Stripped(u) && !StartsWith(u, "#")
  {
    if lines != [] {
      LoadUrlsClean(lines[1..]);
    }
  }

  /** Every loaded URL comes from a kept line. */
  lemma {:induction false} LoadUrlsSound(lines: seq<String>, u: String)
    requires u in LoadUrls(lines)
    ensures exists k :: 0 <= k < |lines| && LoadsAs(lines[k], u)
  {
    if !LoadsAs(lines[0], u) {
      var tail := lines[1..];
      assert u in LoadUrls(tail);
      LoadUrlsSound(tail, u);
      var k :| 0 <= k < |tail| && LoadsAs(tail[k], u);
      assert lines[k + 1] == tail[k];
    }
  }

  /** Every kept line is loaded, stripped. */
  lemma {:induction false} LoadUrlsComplete(lines: seq<String>, k: nat)
    requires k < |lines| && KeptLine(lines[k])
    ensures Strip(lines[k]) in LoadUrls(lines)
    decreases k
  {
    if k > 0 {
      assert lines[1..][k - 1] == lines[k];
      LoadUrlsComplete(lines[1..], k - 1);
    }
  }

  lemma LoadUrlsMembers(lines: seq<String>, u: String)
    ensures u in LoadUrls(lines) <==> exists k :: 0 <= k < |lines| && LoadsAs(lines[k], u)
  {
    if u in LoadUrls(lines) {
      LoadUrlsSound(lines, u);
    }
    if exists k :: 0 <= k < |lines| && LoadsAs(lines[k], u) {
      var k :| 0 <= k < |lines| && LoadsAs(lines[k], u);
      LoadUrlsComplete(lines, k);
    }
  }

  /** Loading the lines of two files one after the other loads each file's URLs in turn. */
  lemma {:induction false} LoadUrlsAppend(a: seq<String>, b: seq<String>)
    ensures LoadUrls(a + b) == LoadUrls(a) + LoadUrls(b)
  {
    if a == [] {
      assert a + b == b;
    } else {
      assert (a + b)[1..] == a[1..] + b;
      LoadUrlsAppend(a[1..], b);
    }
  }
}
