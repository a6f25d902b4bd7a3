# Batemo cell scraper, modelled in Dafny

This project models the parsing core of a scraper for the Batemo Cell
Explorer, a web catalogue of lithium-ion battery cells. The scraper has two
stages:

- **URL collection** (`scrape_urls.py`). It walks the paginated listing
  (page 1 has no page parameter, page n ≥ 2 adds `product-page=n`). From each
  page it keeps the anchors whose path starts with
  `/products/batemo-cell-explorer/`. It stops at a 404 or at the first page
  that brings no new URL. It returns the URLs it saw, sorted.
- **Cell pages** (`scrape_cells.py`). It reads the URL list, skipping blank
  lines and `#` comments. It turns each cell's detail page into one record:
  - the name from `<h1>`, and the slug from the URL path;
  - origin, format, dimensions and weight from labelled elements;
  - eleven quantities (capacities, currents, energy, power, densities), each
    read from its own block of the whitespace-normalized page text;
  - the model version and release date, the latter as an ISO date when it
    parses as one;
  - the state-of-charge, current, C-rate, voltage and temperature ranges;
  - five derived metrics: mean voltages, effective resistance and C-rates.

  A page without a name or slug counts as a parse error. Error messages are
  cut to 500 characters.

Modules, one per file:

| file | module | what it holds |
|---|---|---|
| `wrappers.dfy` | `Wrappers` | `Option`, `Result` |
| `text.dfy` | `Text` | Python string primitives: `isspace`, `find`, `strip`, `replace`, `rstrip('/')`, `split('/')[-1]` |
| `normalize.dfy` | `Normalize` | `normalize_whitespace` and its shape, text-preservation and idempotence lemmas |
| `numbers.dfy` | `Numbers` | `to_float` over exact rationals, and what it accepts and rejects |
| `patterns.dfy` | `Patterns` | the regular expressions of the scraper as matchers, and a leftmost `Search` |
| `dates.dfy` | `Dates` | `strptime("%B %d, %Y")`, `date.isoformat()` and the release-date conversion |
| `extract.dfy` | `Extract` | `extract_label_value`, `extract_block`, `parse_first_float`, `parse_range_simple`, `parse_current_range`, the slug and the overview fields |
| `layouts.dfy` | `Layouts` | the values the field parsers read from any text laid out as a cell page writes it |
| `samples.dfy` | `Samples` | concrete lines of a cell page and the values read from them |
| `derived.dfy` | `Derived` | the derived metrics and Python truthiness |
| `cellpage.dfy` | `CellPage` | `parse_cell_page`, the accept rule, the error-message cut and `load_urls` |
| `listing.dfy` | `Listing` | `build_listing_url`, the anchor filter, the crawl loop and the final sort |

Numbers are exact `real`s. Every regular expression is a hand-written matcher
with Python's leftmost, greedy and backtracking semantics. Where backtracking
matters, it is written out as a search from the longest candidate down: `\w*`
before `\s*` in `contin\w*` and `gravi\w*`, and the number classes of
`parse_range_simple`. The HTML parser, URL parsing and the network are not
modelled. Their results are inputs:

- a cell page is its raw HTML, its text, its `<h1>`, its text nodes with
  their parents' text, its URL and its URL path;
- an anchor is its `href`, network location, path and joined URL;
- the listing is a finite sequence of responses. A page past the end answers
  404.

## Model

| member | source | states |
|---|---|---|
| Normalize.NormalizeWhitespaceShape | scrape_cells.py:27-29 | the normalized text has only plain spaces, never two in a row, and none at either end |
| Normalize.NormalizeWhitespaceKeepsText | scrape_cells.py:27-29 | normalizing removes or changes whitespace only: the non-space characters are the same, in the same order |
| Normalize.NormalizeWhitespaceIdempotent | scrape_cells.py:27-29 | normalizing a normalized text changes nothing |
| Normalize.CollapseShape | scrape_cells.py:29 | replacing every whitespace run by one space leaves only single plain spaces |
| Normalize.CollapseNormal | scrape_cells.py:29 | a text with only single plain spaces is left unchanged by the run replacement |
| Normalize.CollapseRun | scrape_cells.py:28-29 | a whitespace run between two words becomes exactly one space, with the text on each side collapsed on its own |
| Normalize.NormalizeWhitespaceJoins | scrape_cells.py:27-29 | two normalized texts joined by any whitespace run normalize to the two joined by a single space, so word boundaries survive |
| Text.Find | scrape_cells.py:65 | `find` returns the least index at or after the start where the pattern occurs, or -1 when there is none |
| Text.Strip | scrape_cells.py:36 | `strip` leaves no whitespace at either end, and gives the empty string exactly when the input is all whitespace; the result is a slice of the input with only whitespace before and after it |
| Numbers.ToFloat | scrape_cells.py:32-40 | a missing value or an all-whitespace value gives no number |
| Numbers.ToFloatUnsignedNumeral | scrape_cells.py:32-40 | every digits-with-at-most-one-dot token that holds a digit converts, to a non-negative number |
| Numbers.ToFloatSignedNumeral | scrape_cells.py:32-40 | such a token with a leading minus converts too |
| Numbers.ToFloatDigits | scrape_cells.py:32-40 | a string of digits converts to its decimal value |
| Numbers.ToFloatNatRoundTrip | scrape_cells.py:32-40 | converting the decimal notation of a natural number gives that number back |
| Numbers.ToFloatDecimal | scrape_cells.py:32-40 | `ip.fp` converts to ip plus fp scaled by its number of digits |
| Numbers.ToFloatDecimalWithComma | scrape_cells.py:36 | a decimal comma reads exactly like a decimal point |
| Numbers.ToFloatCommaIsPoint | scrape_cells.py:36 | replacing every comma by a point first changes no result |
| Numbers.ToFloatBadFraction | scrape_cells.py:37-40 | a fraction part holding a non-digit makes the conversion fail |
| Numbers.ToFloatThousandsSeparator | scrape_cells.py:36-40 | a comma used as a thousands separator next to a decimal point makes the conversion fail |
| Numbers.ToFloatIgnoresSurroundingSpace | scrape_cells.py:36 | surrounding whitespace does not change the result |
| Numbers.ToFloatNoDigit | scrape_cells.py:37-40 | a value without a digit gives no number |
| Patterns.Search | scrape_cells.py:86 | a search returns the leftmost position where the pattern matches; no earlier position matches |
| Patterns.SearchFindsFirst | scrape_cells.py:86 | a match at p with none before p is exactly what the search returns |
| Extract.FirstNode | scrape_cells.py:49 | the first text node whose content starts with the label, or -1 when no node does |
| Extract.ExtractLabelValue | scrape_cells.py:43-57 | no node means no value; otherwise the value is the parent text with the label's first occurrence removed, stripped, and a missing value when that is empty |
| Extract.LabelValueOfLabelledParent | scrape_cells.py:53-57 | a parent reading "label value" yields exactly the value |
| Extract.Block | scrape_cells.py:60-67 | there is no block exactly when the start label does not occur |
| Extract.BlockSpec | scrape_cells.py:65-76 | the block starts at the first occurrence of the start label and ends at the nearest end label found after it, or at the end of the text |
| Extract.BoundaryIsNearest | scrape_cells.py:69-74 | the loop's end index is the least occurrence of any end label after the start label, or the end of the text |
| Extract.BoundaryOrderIndependent | scrape_cells.py:71-74 | the order in which end labels are listed does not change the block |
| Extract.ExtractBlock | scrape_cells.py:60-76 | the loop over the end labels computes the block |
| Extract.ParseFirstFloat | scrape_cells.py:79-89 | a missing or empty text or no match gives no value; on a match the value is `to_float` of the first group of the leftmost match, and a quantity pattern's value is never negative |
| Layouts.ParseFirstFloatWritten | scrape_cells.py:79-89 | after the first occurrence of a quantity's stem, a word tail where the pattern has `\w*`, whitespace, a numeral, whitespace and the unit give the numeral's value |
| Samples.ContinuousCurrentExample | scrape_cells.py:226-228 | "Current continuous 20 A peak 90 A" gives a continuous current of 20 |
| Samples.PeakCurrentExample | scrape_cells.py:229-231 | the same block gives a peak current of 90 |
| Extract.ParseRangeSimpleFrom | scrape_cells.py:92-108 | at the first occurrence of the label, "label a … b unit" yields the values of a and b; the pattern as written yields the same values when whitespace or a '…' follows a |
| Extract.ParseRangeSimpleWritten | scrape_cells.py:92-108 | the same for any text laid out as prefix, label, a, separator, b, unit and anything after, again with the pattern as written agreeing when whitespace or a '…' follows a |
| Extract.ParseRangeSimpleAt | scrape_cells.py:100-108 | the same once the positions of the label, the tokens, the separator and the unit are known |
| Extract.ParseRangeSimpleAsWritten | scrape_cells.py:92-108 | the code's reading: without a match, or without the label, both ends are missing; on a match they are `to_float` of the two groups of the leftmost match |
| Extract.ParseRangeSimple | scrape_cells.py:100-108 | the corrected reading: without a match, or without the label, both ends are missing; on a match they are `to_float` of the two groups of the leftmost match |
| Extract.ParseRangeSimpleAsWrittenSplitsNumber | scrape_cells.py:101-108 | the pattern as written reads "Voltage Range 2.5...4.2 V" as no minimum and a maximum of 2 |
| Extract.ParseRangeSimpleVoltageLine | scrape_cells.py:92-108 | the intended reading gives 2.5 and 4.2 for that line |
| Extract.ParseRangeSimpleOneSided | scrape_cells.py:92-108 | "State of Charge Range - … 100%" gives no minimum and a maximum of 100 |
| Extract.ParseRangeSimpleNoNumber | scrape_cells.py:100-107 | a label never followed, after whitespace, by a character of `[-0-9.,]` gives no minimum and no maximum, in the code's reading and in the corrected one |
| Samples.TemperatureDocstringRange | scrape_cells.py:299 | with the label "Temper", the temperature line of the `parse_range_simple` docstring (line 98, "Temperature Range -20 … 80 °C" with a soft hyphen after "Temper" and after "a") gives no temperature range in either reading |
| Samples.TemperatureLineRange | scrape_cells.py:299 | "Temperature Range -20 … 80 °C" gives no temperature range in either reading |
| Extract.ParseCurrentRange | scrape_cells.py:111-134 | the two currents are set exactly when the current pattern matches, and are `to_float` of its two groups; the two C-rates likewise for the bracketed C-rate pattern |
| Layouts.NegativeToFloat | scrape_cells.py:32-40 | a numeral written with a leading minus converts to its negated value |
| Layouts.SignedTextValue | scrape_cells.py:32-40 | a numeral written with or without a minus converts to its signed value |
| Layouts.CurrentsWritten | scrape_cells.py:118-124 | with no digit and no '-' before it, "a A discharge … b A charge" gives a as the discharge current and b as the charge current |
| Layouts.CRatesWritten | scrape_cells.py:126-132 | after a text with no '(', "( a C … b C )" gives a and b as the least and greatest C-rate |
| Samples.CurrentLineExample | scrape_cells.py:113-134 | "-90 A discharge … 12 A charge (-30C … 4C)" gives -90, 12, -30 and 4 |
| Extract.Slug | scrape_cells.py:156-158 | the slug never holds a '/' |
| Extract.SlugEmpty | scrape_cells.py:156-158 | the slug is empty exactly when the path is all slashes |
| Extract.SlugOfPath | scrape_cells.py:156-158 | a path "dir/seg" followed by slashes has slug seg |
| Extract.ParseDimensions | scrape_cells.py:165-176 | diameter and height are set together, exactly when a raw value exists and the "a x b" pattern matches in it; they are `to_float` of its two groups and never negative |
| Layouts.DimensionsWritten | scrape_cells.py:169-173 | with no digit before it, "a x b" or "a × b" gives a as the diameter and b as the height |
| Samples.DimensionsExample | scrape_cells.py:169-173 | "18.3 x 65 mm" gives 18.3 and 65 |
| Extract.ParseWeight | scrape_cells.py:178-183 | no raw weight means no weight; a "n g" match gives `to_float` of n, which is never negative; otherwise the whole raw value is converted |
| Layouts.WeightWritten | scrape_cells.py:180-182 | with no digit before it, "w g" gives w |
| Samples.WeightExample | scrape_cells.py:180-182 | "48.5 g" gives 48.5 |
| Extract.ParseModelVersion | scrape_cells.py:264-265 | a version is set exactly when the version pattern matches; it is the captured run of digits and dots, never empty |
| Layouts.ModelVersionWritten | scrape_cells.py:264-265 | after the first "Batemo Cell Model Version", whitespace and the longest run of digits and dots give that run |
| Samples.ModelVersionExample | scrape_cells.py:264-265 | "Batemo Cell Model Version 2.1" gives "2.1" |
| Extract.ParseReleaseDate | scrape_cells.py:268-279 | a date is set exactly when the date pattern matches; it is the ISO form of the matched text when that is a real date, and the matched text otherwise |
| Dates.MonthNumber | scrape_cells.py:275 | the month number of an English month name, ignoring case, and nothing for anything else |
| Dates.Strptime | scrape_cells.py:275 | every date it returns is a real calendar date |
| Dates.IsoFormat | scrape_cells.py:276 | "YYYY-MM-DD" with the date's year, month and day |
| Dates.StrptimeEnglishFormat | scrape_cells.py:275 | parsing "Month day, year" of a real date gives that date back |
| Dates.ReleaseDateOfRealDate | scrape_cells.py:272-276 | the written-out form of a real date becomes its ISO form |
| Dates.ReleaseDateNoSuchDay | scrape_cells.py:277-278 | a day the month does not have keeps the raw text |
| Dates.ReleaseDateNotADay | scrape_cells.py:277-278 | "February 29, 2023" is kept as written |
| Dates.ReleaseDateOtherShape | scrape_cells.py:272-278 | any text that does not start with a letter is kept as written |
| Dates.ReleaseDateIso | scrape_cells.py:272-278 | an ISO date such as "2024-05-01" is kept as written |
| Dates.ReleaseDateNoMonth | scrape_cells.py:272-278 | a word that names no month, followed by a day and a year, keeps the raw text |
| Derived.Ratio | scrape_cells.py:311-330 | a ratio exists exactly when numerator and denominator are both set and non-zero |
| Derived.RatioIsRatio | scrape_cells.py:311-330 | a set ratio times its denominator is its numerator |
| Derived.EffectiveResistance | scrape_cells.py:321-326 | the resistance exists exactly when both mean voltages and the peak current are set and non-zero and the C/10 voltage exceeds the peak voltage |
| Derived.EffectiveResistanceIsResistance | scrape_cells.py:321-326 | the resistance times the peak current is 1000 times the voltage drop, and it is positive for a positive current |
| Derived.DeriveMetrics | scrape_cells.py:303-336 | each of the four ratios is set exactly when its numerator and denominator are set and non-zero; the resistance is set exactly when both mean voltages and the peak current are, and the C/10 voltage is the higher |
| Derived.DeriveMetricsSound | scrape_cells.py:303-336 | each set metric is the ratio, or the resistance, of the fields it names |
| Derived.DeriveMetricsExample | scrape_cells.py:303-336 | a worked cell: 3.5 V at C/10, 3 V at peak, 50 mΩ, 2C and 5C |
| Derived.DeriveMetricsZeroCapacity | scrape_cells.py:311-335 | a zero capacity leaves the C/10 voltage and both C-rates unset, rather than dividing by zero |
| Derived.ComputeDerived | scrape_cells.py:303-336 | the step-by-step computation yields the derived metrics |
| CellPage.ReadOverview | scrape_cells.py:162-183 | origin, format, dimensions and weight come from the labelled elements, and diameter and height are never negative |
| CellPage.ReadBlocks | scrape_cells.py:186-260 | each of the eleven quantities is the first match of its pattern in its block, and none is negative |
| CellPage.ReadModelInfo | scrape_cells.py:262-279 | version and release date come from the normalized text, and a version is non-empty |
| CellPage.ReadRanges | scrape_cells.py:281-301 | the ranges come from the normalized text; the currents are set together, and so are the C-rates |
| CellPage.ParseCellPage | scrape_cells.py:137-341 | name, slug, URL, raw HTML, overview, quantities, model information, ranges and derived metrics are each what the page gives; unsigned quantities are never negative; the slug holds no '/' |
| CellPage.AcceptRule | scrape_cells.py:639 | a page is accepted exactly when its heading is non-empty and its URL path holds something besides '/' |
| CellPage.TruncateErrorMessage | scrape_cells.py:497-498 | a message is kept whole when it has at most 500 characters, and otherwise cut to its first 500 |
| CellPage.LoadUrls | scrape_cells.py:576-584 | no more URLs than lines |
| CellPage.LoadUrlsClean | scrape_cells.py:579-583 | every loaded URL is non-empty, stripped and not a comment |
| CellPage.LoadUrlsSound | scrape_cells.py:579-583 | every loaded URL is the stripped form of some kept line |
| CellPage.LoadUrlsComplete | scrape_cells.py:579-583 | every kept line is loaded, stripped |
| CellPage.LoadUrlsMembers | scrape_cells.py:579-583 | a URL is loaded exactly when some kept line strips to it |
| CellPage.LoadUrlsAppend | scrape_cells.py:579-583 | loading is line by line: loading two files one after the other is loading them joined |
| Listing.BuildListingUrl | scrape_urls.py:22-32 | every listing URL starts with the base URL and its fixed mode and view; page ≤ 1 gives exactly the first-page URL, and page n ≥ 2 adds `&product-page=` and n in decimal without leading zeros |
| Listing.BuildListingUrlInjective | scrape_urls.py:29-32 | two pages from 1 on give the same URL only when they are the same page |
| Listing.KeptUrls | scrape_urls.py:47-60 | no more URLs than anchors |
| Listing.ExtractCellUrls | scrape_urls.py:44-60 | the loop over the anchors yields the kept URLs in order |
| Listing.KeptUrlsMembers | scrape_urls.py:47-58 | a URL is kept exactly when some anchor has a non-empty href and a cell-explorer path and joins to it |
| Listing.KeptUrlsAppend | scrape_urls.py:47-58 | the filter works anchor by anchor, in order |
| Listing.KeptUrlsKeepsDuplicates | scrape_urls.py:47-58 | a page lists a repeated anchor twice; duplicates only disappear later, in the set |
| Listing.NewUrls | scrape_urls.py:88 | the new URLs are exactly the page URLs not seen before |
| Listing.CrawlGrows | scrape_urls.py:71-100 | the crawl never forgets a URL it has seen |
| Listing.CrawlSound | scrape_urls.py:74-100 | every URL found comes from some listing page from the current one on |
| Listing.CrawlComplete | scrape_urls.py:79-95 | when the current page is a page and not an error, all its URLs are found |
| Listing.CrawlFirstPageMissing | scrape_urls.py:79-81 | when the first page is a 404, nothing is found |
| Listing.LexLessTransitive | scrape_urls.py:102 | the string order is transitive |
| Listing.LexLessTotal | scrape_urls.py:102 | two different strings are always ordered one way or the other |
| Listing.Insert | scrape_urls.py:102 | inserting into a sorted sequence keeps it sorted, with exactly one more element |
| Listing.SortSet | scrape_urls.py:102 | the result is strictly sorted and holds exactly the URLs of the set |
| Listing.CollectAllCellUrls | scrape_urls.py:63-104 | the loop fails exactly when the crawl meets an HTTP error, with that status; otherwise it returns the URLs found, sorted and without duplicates |

## Left out

- HTTP requests, sleeping, console output and timeouts are not modelled. A listing response is an input, and a page past the end of the given sequence answers 404.
- The SQLite database is not modelled: `init_db`, `start_scrape_run`, `finish_scrape_run`, `upsert_cell`, the `scrape_log` insert and the counters of `scrape_all`. Only the accept rule and the message cut are kept.
- `upload_to_postgres.py` and `export_cells_csv.py` are not part of this model.
- BeautifulSoup is not modelled. A page is given as its text, its `<h1>`, and its text nodes with their parents' text. `get_text(..., strip=True)` is an input.
- `urlparse` and `urljoin` are not modelled. An anchor carries its network location, path and joined URL; a page carries its URL path.
- Numbers are exact rationals, not IEEE doubles. `float()` is modelled for an optional sign, digits and at most one decimal point. Exponents, `inf`, `nan` and digit underscores are read as not a number.
- `\d`, `\w` and `[A-Za-z]` cover ASCII only. Python's `str` patterns would also match other Unicode digits and letters.
- `strptime` is modelled for the English locale with case-insensitive month names. It accepts only what the scraper's date pattern lets through: a 1-2 digit day and a 4-digit year.
- Timestamps (`datetime.now()`) are not modelled.
- The record is grouped into overview, quantities, model information, ranges and derived metrics, not kept as one flat dictionary. The field names and values are the same.
- Where the code's comments and the code differ, the model follows the code:
  - a block includes its own start label;
  - a text node is matched on its raw content, not its stripped content.
- Extract.ParseRangeSimple: models the evidently intended reading of the range pattern (see Findings). The pattern as written is `Extract.ParseRangeSimpleAsWritten`. The corrected reading takes as the first number a run of `[-0-9,]`, then a '.' and `[0-9,]` only when a digit or comma follows the '.', and it never shortens that number. Beyond the "..." ranges it therefore also differs from the code on first tokens that start or end with '.', or hold two '.': "R5. …1V" (key "R", unit "V") gives 5 and 1 in the code and nothing in the model; ".5 … 1 V" gives 0.5 and 1 in the code and nothing in the model; "1.2.3 … 4 V" gives no minimum and a maximum of 4 in the code and nothing in the model. On every written range whose first number is followed by whitespace or by '…', both readings give the same values (`Extract.ParseRangeSimpleWritten`).
- CellPage.ReadRanges: reads the state-of-charge, voltage and temperature ranges with the corrected `Extract.ParseRangeSimple`. On "Voltage Range 2.5...4.2 V" it records 2.5 and 4.2, where the code as written records no minimum and a maximum of 2; a "0...100%" state-of-charge line differs the same way. The temperature range, read with the label "Temper" as the code does, is not read from "Temperature Range -20 … 80 °C", with or without soft hyphens, in either reading, because the pattern wants the number right after "Temper" and its whitespace (`Samples.TemperatureDocstringRange`, `Samples.TemperatureLineRange`). It also records nothing where the first number starts or ends with '.' or holds two '.', such as "Voltage Range .5 … 1 V", on which the code records 0.5 and 1 (see `Extract.ParseRangeSimple` above).
- CellPage.ParseCellPage: inherits the corrected range reading of `CellPage.ReadRanges`, so its SoC and voltage ranges are the intended values rather than those of the pattern as written. Its temperature range is what the label "Temper" gives, which is nothing on a line written "Temperature Range …", as in the code.

## Findings

| source | as written | input that shows it | evidently intended | confidence | as-written member | corrected member |
|---|---|---|---|---|---|---|
| scrape_cells.py:101-108 | the first group `[-0-9.,]+` may take dots that belong to the separator, and regex backtracking gives up only as little as it must | "Voltage Range 2.5...4.2 V" reads as first group "2.5...4" (no number) and second group "2" (2.0) | a range written with a three-dot separator reads as 2.5 and 4.2 | not executed | Extract.ParseRangeSimpleAsWrittenSplitsNumber | Extract.ParseRangeSimpleVoltageLine |
