# EcoCast core, modelled in Dafny

EcoCast compares countries on ecological-footprint indicators. This project models the
decision and data-transformation logic of six of its files.

- **Ecological balance** (`add_eco_balance.py`). The offline step adds `eco_balance_percap`
  and `eco_balance_total` to the feature panel as row-wise differences, and only when both
  source columns exist. Missing sources are reported, not raised.
- **Insight comparison view** (`InsightComparisonView.tsx`):
  - the naive CSV parser for insight files;
  - first-occurrence de-duplication by `iso3`;
  - selected-country filtering and marking;
  - removal of a country from the basket;
  - the narrative CSV parser and its two-way key lookup;
  - the slug-to-title map.
- **Ecological balance drawer** (`EcoBalanceDrawer.tsx`):
  - the fetch effect, which sorts by year and picks the error message;
  - the latest row;
  - reserve/deficit/balanced classification;
  - the per-capita series.
- **Protected-area scatter** (`ProtectedRealityScatter.tsx`):
  - the row-validity filter;
  - the `protected_pct` clamp and the zero-delta jitter;
  - selected marking and colour;
  - the two plotted series;
  - the axis domains with their fallbacks;
  - the "protection not preventing forest loss" predicate.
- **Country forest drawer** (`CountryForestDrawer.tsx`):
  - the fetch effect, which sorts by year and takes the first-year forest baseline;
  - the 15% threshold sentence;
  - the increased/decreased interpretation.
- **visx scale configuration** (the vendored `@visx/scale` code in
  `frontend/.vite/deps/chunk-M6QWVX4C.js`):
  - `scaleOperator`'s fixed operator order;
  - the operators that write a scale in place (`applyZero`, `applyReverse`, `applyRound`,
    the padding and the one-line setters);
  - the per-type operator lists and the `createScale` dispatch;
  - `inferScaleType`, `getTicks` and `scaleCanBeZeroed`.

## How each part is modelled

- **Shared pieces.**
  - `Wrappers.Option` stands for `None`/`null`/`undefined`, and for NaN where the code tests
    for it.
  - `Http.Response` models an axios result: either a body, or a failure with an optional HTTP
    status.
  - `Strings` models JavaScript's `split`/`join` on one character and the `trim` whitespace set.
  - `Sequences` models:
    - `Array.prototype.filter`;
    - first-occurrence de-duplication;
    - the stable `sort` by a numeric key, an insertion sort proved sorted, a permutation and
      stable;
    - index-stride selection;
    - `d3.max`/`d3.min`.
- **Numbers.** They are `real`: exact arithmetic, no floating point. `Number(value)` is a
  parameter `num: string -> Option<real>`, where `None` means NaN.
- **`add_eco_balance.py` (imperative).**
  - The pandas frame is the class `EcoBalance.Panel`, which holds a sequence of named columns.
  - `SetColumn` is `panel[name] = ...`: it overwrites the column in place when it exists and
    appends it otherwise.
  - `AddEcoBalanceFeatures` runs the two guarded derivations as `DeriveStep` calls. It returns:
    - the panel;
    - the output path;
    - the table written;
    - the two missing-column lists, which the script prints.
  - The file read is the `loaded` table given to it.
  - What the method does is proved equal to a pure specification, `EcoBalance.Derive`, and the
    properties are proved about `Derive`.
- **`InsightComparisonView.tsx` (mixed).**
  - The parser, the filter and the narrative lookup are functions.
  - The `iso3` de-duplication `reduce` (`DedupByIso3`) is a loop; so is the narrative
    `forEach` (`ParseNarratives`).
  - `handleRemoveCountry` and the two effects are methods of the class
    `InsightComparison.ComparisonView`, which holds the component's state variables.
    `navigatedTo` records the last route navigated to.
- **`EcoBalanceDrawer.tsx` and `ProtectedRealityScatter.tsx` (pure).**
  - These are functions over records.
  - The drawer's effect is a function from the old state, the country and the response to the
    new state.
  - `Math.random()` in the scatter is a parameter, `jitter` (one value per row).
- **`CountryForestDrawer.tsx` (mixed).** The effect is the method `Drawer.OnCountry` on a class
  that holds the four state variables. The interpretation is functions of that state.
- **The visx chunk (mixed).**
  - A d3 scale is the class `VisxScale.Scale`. It holds the set of its method names (what
    `"x" in scale` tests) and the state its setters write.
  - `ScaleOperator` keeps the counting loop that copies its arguments.
  - `ApplyOperators` keeps the `forEach`.
  - Each `apply*` operator is a method, proved equal to a pure `Step` on a `ScaleState`.
  - `getTicks`, `inferScaleType`, `createScale`'s dispatch and `scaleCanBeZeroed` are
    functions.
  - Facts that need the unseen d3 library are parameters:
    - the scale's own `ticks()`;
    - `exponent()`;
    - whether the first tick is a `Date`;
    - `isUtcScale`.

The source behaves as follows in places where a reader might expect otherwise. The model
follows the code.

- `CountryForestDrawer.tsx:54-56` only sets the baseline when the first year's forest value is
  truthy. On a new country with a zero or missing first value, the previous country's baseline
  stays. `Drawer.OnCountry` keeps it.
- `InsightComparisonView.tsx:174` `if (response.data)` skips an empty CSV body. It leaves the
  previous rows and no error behind.
- `questionMap[slug] || slug` maps a slug to itself when its title is empty. Every title is
  non-empty, so `QuestionTitleFallback` holds in both directions.
- With `delta_forest` 0, the scatter shows a jittered value. The warning predicate then depends
  on the jitter's sign; `WarningOfProcessed` states both cases.

## Model

| member | source | states |
|---|---|---|
| EcoBalance.IndexOf | add_eco_balance.py:40 | the position found holds the name, and no earlier column has it; absent when no column has it |
| EcoBalance.Assign | add_eco_balance.py:40 | column assignment: an existing column keeps its position and takes the new cells; a new one is appended; every other column and all names are unchanged; reading the name back gives the cells |
| EcoBalance.AssignSpec | add_eco_balance.py:40 | on a well-formed table with cells of the table's length, assignment keeps the table well-formed, sets the row count to the cells' length, reads back the cells and leaves other columns as they were |
| EcoBalance.AssignSame | add_eco_balance.py:40 | assigning a column the cells it already holds leaves the table unchanged |
| EcoBalance.Difference | add_eco_balance.py:40 | the row-wise difference has the length of its first operand |
| EcoBalance.DeriveColumn | add_eco_balance.py:39-40 | one guarded derivation keeps the table well-formed and the row count; the target is present afterwards iff it was already or both sources are |
| EcoBalance.DeriveColumnFrame | add_eco_balance.py:39-40 | a derivation changes only the target column, and only when both sources exist |
| EcoBalance.DeriveColumnValues | add_eco_balance.py:39-40 | when both sources exist, each row of the target is the minuend minus the subtrahend, and a missing operand gives a missing cell |
| EcoBalance.Derive | add_eco_balance.py:38-53 | both derivations, in order, keep the table well-formed and the row count |
| EcoBalance.DerivePresence | add_eco_balance.py:39-53 | `eco_balance_percap` (`eco_balance_total`) is in the result iff both per-capita (total) sources are columns or it was already there |
| EcoBalance.DerivePerCapValues | add_eco_balance.py:39-40 | `eco_balance_percap` is the row-wise difference of `total_BiocapPerCap` and `total_EFConsPerCap` |
| EcoBalance.DeriveTotalValues | add_eco_balance.py:52-53 | `eco_balance_total` is the row-wise difference of `total_BiocapTotGHA` and `total_EFConsTotGHA` |
| EcoBalance.DerivePreserves | add_eco_balance.py:38-53 | the row count is kept; the output has between zero and two more columns; every input column stays at its position, with the same contents unless it is one of the two derived names; every appended column is a derived name |
| EcoBalance.DeriveColumnIdempotent | add_eco_balance.py:39-40 | deriving the same column twice equals deriving it once |
| EcoBalance.DeriveIdempotent | add_eco_balance.py:38-53 | re-running the derivation on its own output yields the same table |
| EcoBalance.MissingColumns | add_eco_balance.py:43-49 | the report holds exactly the absent members of the pair, each once (its length is the number absent), first before second, and is empty iff both are present |
| EcoBalance.Panel.SetColumn | add_eco_balance.py:40 | the in-place assignment finds the column by a loop, and the new columns equal `Assign` of the old ones |
| EcoBalance.DeriveStep | add_eco_balance.py:39-49 | one guarded block: the panel becomes `DeriveColumn` of the old panel, and the returned list is `MissingColumns` of the old panel |
| EcoBalance.AddEcoBalanceFeatures | add_eco_balance.py:16-69 | the input path is `data_work/features_full.csv` when none is given; the output path is the input path when none is given; the panel equals `Derive` of the loaded table; the table written equals the table returned; both missing lists are those of the loaded table |
| InsightComparison.QuestionTitle | frontend/src/components/InsightComparisonView.tsx:32-41 | a known slug gets its mapped title; any other slug is returned unchanged |
| InsightComparison.QuestionTitleFallback | frontend/src/components/InsightComparisonView.tsx:32-41 | the title equals the slug iff the slug is unknown |
| InsightComparison.EntryKeys | frontend/src/components/InsightComparisonView.tsx:181-187 | a record's keys are exactly the header fields |
| InsightComparison.EntryValue | frontend/src/components/InsightComparisonView.tsx:183-187 | the value under a header comes from the last position holding that header |
| InsightComparison.DataLines | frontend/src/components/InsightComparisonView.tsx:176-179 | the data lines are the non-blank lines after the first |
| InsightComparison.ParseCsv | frontend/src/components/InsightComparisonView.tsx:176-190 | one record per data line |
| InsightComparison.ParseCsvRecord | frontend/src/components/InsightComparisonView.tsx:176-190 | record `i` has exactly the header keys; a field past the line's values is `undefined`; a field is the number `Number(value)` when that is not NaN and otherwise the raw string; a field is never a flag |
| InsightComparison.DedupByIso3 | frontend/src/components/InsightComparisonView.tsx:194-200 | the `reduce` loop yields first-occurrence de-duplication; output `iso3` values are distinct; an `iso3` occurs in the output iff it occurs in the input |
| Sequences.DedupFirstOccurrences | frontend/src/components/InsightComparisonView.tsx:194-200 | each kept record is the first input record with its key; the kept records appear in input order |
| InsightComparison.FilteredData | frontend/src/components/InsightComparisonView.tsx:274-287 | empty input gives empty output. With global context: same length, each record keeps its fields and gains `isSelected`, true iff its `iso3` is a selected code. Without: exactly the selected records |
| InsightComparison.FilteredDataOrder | frontend/src/components/InsightComparisonView.tsx:285 | without global context the filter distributes over concatenation, so it keeps the input order |
| InsightComparison.Without | frontend/src/components/InsightComparisonView.tsx:256 | the removed code is absent afterwards, and every other code is kept |
| InsightComparison.WithoutCount | frontend/src/components/InsightComparisonView.tsx:256 | exactly the copies of the removed code are dropped |
| InsightComparison.WithoutOrder | frontend/src/components/InsightComparisonView.tsx:256 | removal distributes over concatenation, so it keeps the order |
| InsightComparison.RemoveCountryRoundTrip | frontend/src/components/InsightComparisonView.tsx:256-269 | for comma-free, non-empty codes, the `countries` URL parameter written after a removal is truthy and splits back into the remaining list |
| InsightComparison.ComparisonView.RemoveCountry | frontend/src/components/InsightComparisonView.tsx:255-271 | an empty remainder navigates home and leaves `countries` alone; otherwise it navigates to the comparison route with the joined list and the question, and stores the list |
| InsightComparison.ComparisonView.ApplySearchParams | frontend/src/components/InsightComparisonView.tsx:137-147 | truthy parameters set the list (split on commas) and the question; nothing else changes |
| InsightComparison.ComparisonView.LoadInsightData | frontend/src/components/InsightComparisonView.tsx:154-247 | no effect without a question or countries; otherwise the rows, the error, the narratives and `loading` are set as the effect leaves them |
| InsightComparison.ComparisonView.LoadRecords | frontend/src/components/InsightComparisonView.tsx:170-211 | a body gives the parsed rows (de-duplicated only for `resource_curse`); a failure gives the per-question error |
| InsightComparison.ComparisonView.LoadNarratives | frontend/src/components/InsightComparisonView.tsx:213-237 | for `energy_vs_population` a body replaces the narrative map with the parsed one |
| InsightComparison.NarrativeLine | frontend/src/components/InsightComparisonView.tsx:223-229 | a line yields an entry iff it has at least three comma fields |
| InsightComparison.NarrativeLineText | frontend/src/components/InsightComparisonView.tsx:223-228 | `a,b,text` maps `a-b` to `text`, commas in `text` included |
| InsightComparison.NarrativeKeys | frontend/src/components/InsightComparisonView.tsx:222-230 | a key is in the map iff some line writes it |
| InsightComparison.NarrativeLastWins | frontend/src/components/InsightComparisonView.tsx:222-230 | the value under a key is that of the last line writing it |
| InsightComparison.ParseNarratives | frontend/src/components/InsightComparisonView.tsx:219-232 | the `forEach` loop yields the fold over the data lines; its keys are exactly those some data line writes |
| InsightComparison.Lookup | frontend/src/components/InsightComparisonView.tsx:297 | a lookup succeeds iff the key holds a non-empty text, and then returns that text |
| InsightComparison.NarrativeFor | frontend/src/components/InsightComparisonView.tsx:290-297 | nothing unless the question is `energy_vs_population` with exactly two countries; then the forward key's text, else the reverse key's |
| InsightComparison.NarrativeSymmetric | frontend/src/components/InsightComparisonView.tsx:295-297 | when at most one direction has a narrative, swapping the two countries shows the same one |
| EcoBalanceDrawer.SortByYear | frontend/src/components/EcoBalanceDrawer.tsx:53 | ascending by year, a permutation of the response |
| EcoBalanceDrawer.SortKeepsYearOrder | frontend/src/components/EcoBalanceDrawer.tsx:53 | the sort is stable: rows of one year keep their response order |
| EcoBalanceDrawer.FetchEcoBalance | frontend/src/components/EcoBalanceDrawer.tsx:39-71 | no country clears the data. Non-empty rows are stored sorted with no error. An empty or absent body sets the no-data message. A 404 sets the run-the-pipeline message and any other failure the generic one. Loading ends |
| EcoBalanceDrawer.LatestData | frontend/src/components/EcoBalanceDrawer.tsx:76 | null iff there is no data, otherwise the last row |
| EcoBalanceDrawer.LatestIsNewest | frontend/src/components/EcoBalanceDrawer.tsx:53-76 | after a successful fetch, the latest row is a response row whose year is the largest |
| EcoBalanceDrawer.GetStatus | frontend/src/components/EcoBalanceDrawer.tsx:81-86 | Unknown iff absent; Reserve iff positive; Deficit iff negative; Balanced iff zero |
| EcoBalanceDrawer.PerCapStatus | frontend/src/components/EcoBalanceDrawer.tsx:88 | Unknown iff there is no data or the latest per-capita balance is missing |
| EcoBalanceDrawer.BalanceSeries | frontend/src/components/EcoBalanceDrawer.tsx:237 | the series holds exactly the rows with a defined per-capita balance |
| EcoBalanceDrawer.HasPerCapSeries | frontend/src/components/EcoBalanceDrawer.tsx:77-78 | `hasPerCap` (some row has a defined per-capita balance) holds iff the balance series is non-empty |
| EcoBalanceDrawer.BalanceSeriesOrder | frontend/src/components/EcoBalanceDrawer.tsx:237 | the series keeps row order, so over sorted data it is sorted by year |
| ProtectedReality.ValidRows | frontend/src/components/ProtectedRealityScatter.tsx:43-51 | keeps exactly the rows that exist, with a truthy `iso3`, a present `protected_pct` and a present, non-NaN `delta_forest` |
| ProtectedReality.Process | frontend/src/components/ProtectedRealityScatter.tsx:54-61 | one point per valid row, in order: `iso3` kept; `protected_pct` is max(0, original), so never negative; `isSelected` iff `iso3` is selected; a non-zero delta is kept and a zero one becomes the jitter |
| ProtectedReality.GetColor | frontend/src/components/ProtectedRealityScatter.tsx:67-72 | blue iff the point is selected, the translucent slate otherwise |
| ProtectedReality.SeriesPartition | frontend/src/components/ProtectedRealityScatter.tsx:186-206 | selected points are always drawn; unselected ones only with global context; with it, the two series together hold every point exactly once (as multisets) |
| ProtectedReality.ProtectedValues | frontend/src/components/ProtectedRealityScatter.tsx:75 | the values the x maximum is taken over, one per point |
| ProtectedReality.DeltaValues | frontend/src/components/ProtectedRealityScatter.tsx:79-80 | the values the y extremes are taken over, one per point |
| ProtectedReality.XDomain | frontend/src/components/ProtectedRealityScatter.tsx:75-76 | the x domain starts at 0 and ends at 65 or 5 past some point's `protected_pct` |
| ProtectedReality.YDomain | frontend/src/components/ProtectedRealityScatter.tsx:79-81 | the y domain is at least 1 wide, and each end is its fallback (-35.5, 1.5) or half a unit beyond some point's `delta_forest` |
| ProtectedReality.YDomainFallback | frontend/src/components/ProtectedRealityScatter.tsx:79-81 | without points the y domain is (-35.5, 1.5); otherwise the lower end is the least `delta_forest` minus 0.5, or -35.5 when that least value is 0, and the upper end is the greatest plus 0.5, or 1.5 when that greatest value is 0 |
| ProtectedReality.XDomainFallback | frontend/src/components/ProtectedRealityScatter.tsx:75-76 | with no data or all zeros the x domain is [0, 65]; otherwise it ends at the largest `protected_pct` plus 5 |
| ProtectedReality.DomainsContainPoints | frontend/src/components/ProtectedRealityScatter.tsx:75-81 | every point lies inside the x domain and strictly inside the y domain |
| ProtectedReality.WarningOfProcessed | frontend/src/components/ProtectedRealityScatter.tsx:255 | the warning shows iff `protected_pct >= 15` and `delta_forest < 0`, stated on the original row: directly for a non-zero delta, and through the jitter's sign for a zero delta |
| ForestDrawer.NextBaseline | frontend/src/components/CountryForestDrawer.tsx:54-56 | a truthy first-year forest value becomes the baseline; a zero or missing one leaves the old baseline |
| Sequences.SortByFirstIsLeast | frontend/src/components/CountryForestDrawer.tsx:51-54 | the first row after the year sort is a row of the response with the least year |
| ForestDrawer.BaselineIsEarliest | frontend/src/components/CountryForestDrawer.tsx:51-56 | a newly set baseline comes from a response row of the earliest year |
| ForestDrawer.Drawer.OnCountry | frontend/src/components/CountryForestDrawer.tsx:36-71 | no country clears the series and the baseline. Non-empty rows are stored sorted (`SortBy` on the year) and set the baseline as `NextBaseline` does. An empty body sets the no-data error and a failure the generic one; both keep the previous series. Loading ends, and the interpretation is shown iff the response had rows |
| ForestDrawer.ThresholdWordSpec | frontend/src/components/CountryForestDrawer.tsx:329-337 | the sentence says "above" iff `protected_pct >= 15` and "below" iff it is less |
| ForestDrawer.Drawer.ShownThreshold | frontend/src/components/CountryForestDrawer.tsx:100-107 | no threshold sentence while loading, with an error, or without data; otherwise "above" iff the last row's `protected_pct >= 15` and "below" iff it is less (lines 327-337) |
| ForestDrawer.ForestTrend | frontend/src/components/CountryForestDrawer.tsx:339-347 | no message iff there is no baseline. "Decreased" iff the last value (null as 0) is below the baseline, by a positive amount `baseline - last`. Otherwise "increased" by `last - baseline >= 0` |
| ForestDrawer.Drawer.ShownTrend | frontend/src/components/CountryForestDrawer.tsx:100-107 | no trend message while loading, with an error, without data or without a baseline; otherwise "decreased" iff the last forest value (null as 0) is below the baseline, by `baseline - last > 0`, and else "increased" by `last - baseline >= 0` (lines 339-347) |
| VisxScale.AllOperatorsRanked | frontend/.vite/deps/chunk-M6QWVX4C.js:380-395 | `ALL_OPERATORS` lists every operator exactly once, in rank order |
| VisxScale.ScaleOperator | frontend/.vite/deps/chunk-M6QWVX4C.js:346-353 | the counting loop and the set filter select `ALL_OPERATORS` restricted to the arguments |
| VisxScale.SelectOpsMembers | frontend/.vite/deps/chunk-M6QWVX4C.js:350-353 | an operator is selected iff it is an argument |
| VisxScale.SelectOpsOrdered | frontend/.vite/deps/chunk-M6QWVX4C.js:351-353 | the selection is strictly ascending in `ALL_OPERATORS` order, so each operator runs once |
| VisxScale.SelectOpsSetDetermined | frontend/.vite/deps/chunk-M6QWVX4C.js:350-353 | arguments naming the same operators, in any order or repetition, select the same list |
| VisxScale.SelectOpsExact | frontend/.vite/deps/chunk-M6QWVX4C.js:350-353 | the selection is the unique rank-ordered list of the named operators |
| VisxScale.ApplyOperators | frontend/.vite/deps/chunk-M6QWVX4C.js:354-361 | returns the same scale; with an undefined config the scale is unchanged; otherwise its state is the selected steps applied in order |
| VisxScale.Scale.ApplyOp | frontend/.vite/deps/chunk-M6QWVX4C.js:400-415 | each operator's method changes the scale as its `Step` does |
| VisxScale.ZeroDomain | frontend/.vite/deps/chunk-M6QWVX4C.js:330-339 | the widened domain has two values, keeps the orientation, and spans exactly from min(0, endpoints) to max(0, endpoints) |
| VisxScale.ZeroDomainContains | frontend/.vite/deps/chunk-M6QWVX4C.js:330-339 | the widened domain contains 0 and both original endpoints |
| VisxScale.ZeroGuard | frontend/.vite/deps/chunk-M6QWVX4C.js:330-331 | `zero` changes the scale only when exactly `true`, and then only its domain |
| VisxScale.Scale.ApplyZero | frontend/.vite/deps/chunk-M6QWVX4C.js:330-339 | the in-place domain update equals the zero step |
| VisxScale.Reversed | frontend/.vite/deps/chunk-M6QWVX4C.js:287 | the reversed range has the original's length |
| VisxScale.ReversedInvolution | frontend/.vite/deps/chunk-M6QWVX4C.js:287 | reversing twice restores the range; reversing keeps its values |
| VisxScale.ReverseGuard | frontend/.vite/deps/chunk-M6QWVX4C.js:285-293 | `reverse` changes the scale only when truthy, and then sets range position `i` to the old position `len-1-i` |
| VisxScale.Scale.ApplyReverse | frontend/.vite/deps/chunk-M6QWVX4C.js:285-293 | the in-place range update equals the reverse step |
| VisxScale.RoundYieldsToInterpolate | frontend/.vite/deps/chunk-M6QWVX4C.js:301-311 | a true `round` with `interpolate` set changes nothing, so the colour interpolator survives |
| VisxScale.Scale.ApplyRound | frontend/.vite/deps/chunk-M6QWVX4C.js:301-311 | sets `round` on a scale that has it, else installs the rounding interpolator on an interpolating scale, unless ignored |
| VisxScale.Scale.ApplyPadding | frontend/.vite/deps/chunk-M6QWVX4C.js:268-278 | each of the three paddings is set where both scale and config have it |
| VisxScale.ParseType | frontend/.vite/deps/chunk-M6QWVX4C.js:603-631 | a recognised type name is the name of the type it yields |
| VisxScale.ParseTypeName | frontend/.vite/deps/chunk-M6QWVX4C.js:603-631 | every one of the thirteen names is recognised as its own type |
| VisxScale.CreateScaleType | frontend/.vite/deps/chunk-M6QWVX4C.js:602-635 | a recognised type is built as that type; an undefined config, a missing type or any other name gives linear |
| VisxScale.CreateScale | frontend/.vite/deps/chunk-M6QWVX4C.js:602-635 | the type is `CreateScaleType`'s; the fresh scale gets that type's updater operators, selected and applied in order |
| VisxScale.LinearOrder | frontend/.vite/deps/chunk-M6QWVX4C.js:454 | the linear updater runs domain, nice, zero, interpolate, round, range, reverse, clamp |
| VisxScale.ZeroAfterDomain | frontend/.vite/deps/chunk-M6QWVX4C.js:380-383 | with domain, nice, zero first and no later domain writer, the final domain is the configured domain widened to take in 0 |
| VisxScale.LinearZeroAfterDomain | frontend/.vite/deps/chunk-M6QWVX4C.js:454 | a linear scale configured with a domain and `zero: true` ends with that domain widened |
| VisxScale.ZeroableIffZeroOperator | frontend/.vite/deps/chunk-M6QWVX4C.js:747-754 | `scaleCanBeZeroed` is true for exactly linear, pow, quantize, sqrt and symlog, which are the types whose updater applies `zero` |
| VisxScale.InferScaleType | frontend/.vite/deps/chunk-M6QWVX4C.js:670-702 | each outcome holds iff its method is the first of paddingInner, padding, quantiles, base, exponent, constant, clamp, nice, invertExtent that the scale has (band, point, quantile, log, symlog, quantize, threshold); with `exponent` first, sqrt iff the exponent is 0.5 and pow otherwise; with `clamp` first, utc iff the ticks are dates and the scale is UTC, time iff dates and not UTC, linear iff not dates; ordinal iff the scale has none of the nine |
| VisxScale.Stride | frontend/.vite/deps/chunk-M6QWVX4C.js:730 | `Math.round((len-1)/numTicks)`: the integer within one half of the quotient, halves rounded up |
| VisxScale.StrideAtLeastOne | frontend/.vite/deps/chunk-M6QWVX4C.js:730 | the stride is at least 1 when the domain is longer than the tick count |
| VisxScale.GetTicks | frontend/.vite/deps/chunk-M6QWVX4C.js:723-732 | a scale with `ticks` returns its own ticks; otherwise the whole domain when `numTicks` is null or not below the domain length |
| VisxScale.TickFallbackStride | frontend/.vite/deps/chunk-M6QWVX4C.js:727-731 | for 0 < numTicks < length: every stride-th value from index 0, tick `j` being domain index `j·stride`, length·stride within one stride of the domain length |
| Sequences.SortBy | frontend/src/components/EcoBalanceDrawer.tsx:53 | the result is sorted by the key, and is a permutation of the input |
| Sequences.SortByStable | frontend/src/components/CountryForestDrawer.tsx:51 | rows with equal keys keep their relative order |
| Strings.SplitJoin | frontend/src/components/InsightComparisonView.tsx:265 | splitting a join of comma-free pieces gives the pieces back |
| Strings.JoinSplit | frontend/src/components/InsightComparisonView.tsx:227 | joining the pieces of a split gives the text back, so a narrative keeps its commas |

## Left out

- `install_statsmodels.py` (runs `pip`), `frontend/src/main.tsx` (bootstrap), the re-export shims and the React `Group` chunk: there is no logic to model.
- JSX rendering, tooltips, flag images, CSS classes, `countryNames`, `handleBack` and the `loading`/`isOpen` early returns: presentation. The forest drawer's loading and error branches are modelled, since they decide whether the interpretation is shown.
- `hasTotal` in `EcoBalanceDrawer.tsx:78` is computed but never read, so it is not modelled.
- Fetching, mapping and scheduling are not modelled. The model does not capture:
  - how axios paths are built;
  - `useEffect` re-run scheduling and how `await`s interleave;
  - `createSearchParams` URL encoding (the route stores the raw joined list).

  Responses are inputs.
- `pd.read_csv`, `to_csv` and the `print` diagnostics: the loaded table is an input, and the written table is an output.
- The `__main__` block of `add_eco_balance.py` (lines 71-74): the command-line argument is the `inputFile` parameter of `AddEcoBalanceFeatures`, and `None` stands for no argument.
- Floating point: pandas float subtraction; `toFixed`/d3-format output; `Math.round` on doubles (modelled exactly on rationals); the `* 1.1`/`* 0.9` chart padding.
- `Math.random` is not modelled as randomness: the jitter is a parameter.
- JavaScript coercions:
  - `questionMap[slug]` finds inherited prototype members such as `"constructor"`; the slug map is modelled as a plain map;
  - `Number(value)` is a parameter;
  - non-string CSV bodies. A truthy non-string insight body makes `split` throw inside the inner `try`, whose `catch` sets the per-question error. A non-string narrative body throws inside the narrative `try`, whose `catch` only logs. The outer `catch` is reached by neither;
  - a non-numeric `protected_pct`, which `Math.max` would turn into NaN.
- `Scale.ApplyZero` and `ZeroDomain`: for a domain of fewer than two values the source compares `undefined` and writes NaN endpoints; the model leaves such a domain unchanged.
- `applyNice`: it depends on d3's tick algorithm. The configuration has no `nice` field and the step leaves the state unchanged.
- `createColorInterpolator` and `interpolateRound`: modelled as names stored in the scale, since these interpolators live in unseen d3 code.
- `isUtcScale`, `scale.exponent()`, `scale.ticks()` and whether a tick is a `Date` are inputs of `InferScaleType`/`GetTicks`.
- `CreateScale`: the fresh d3 scale (`linear()`, `band()`, ...) is a parameter, and its method names are not tied to the type chosen. Which operators take effect is therefore stated for whatever methods the given scale has, not for the ones d3 gives each type.
- `coerceNumber`, `toString`, `updateScale` (a copy followed by all operators) and `createRadialScale` are not modelled. Radial is unreachable from `createScale`, and its operator list is recorded as `RadialOps`.
- What d3's setters do beyond storing their argument is not modelled. Domains and ranges are sequences of reals, so ordinal or time domains are not distinguished.
- `GetTicks`: a negative or fractional `numTicks` is not modelled (it is a `nat`).
- Years are integers, and a sort key that is NaN or fractional is not modelled.
