# Choropleth dashboard: a verified model of its query, state and data-shaping logic

This project models the core logic of a policy dashboard. The dashboard is a Next.js front end that shows a county choropleth map, a histogram and a statistics card. Behind it sits a Flask back end. The back end filters a county table by a pattern of column constraints and labels counties as active or inactive under a law. It then hands the result to a causal analysis.

The model covers three parts:

- The front end's range and constraint logic:
  - the active/inactive ranges and their overlap test;
  - the two step-size rules;
  - the slider list and its constraint extraction;
  - the typed-endpoint clamping.
- The page's state machine and its presentation adapters:
  - histogram binning and the summary statistics;
  - the county lookup;
  - the county table;
  - the feature-importance chart;
  - law labels, pass/fail ticks, and map colouring and click gating.
- The back end's pure data shaping:
  - pattern reading and constraint filters;
  - range labelling;
  - pattern-bound preprocessing;
  - the constraint lookup;
  - the top-feature selection;
  - k-fold indices, coverage, the permutation statistic and NRMSE.

There is one module per source file:

| module | models |
|---|---|
| `Dashboard` (`dashboard_types.dfy`) | shared types: ranges, column ranges, constraint dictionaries as ordered key/value lists with JavaScript and Python assignment semantics |
| `Numbers`, `Strings`, `Sorting`, `Wrappers` | helpers: JavaScript numbers with NaN and the infinities, string split, join and replace, a stable insertion sort, Option |
| `Page` | `page.tsx` |
| `DropdownCard`, `MultiSliderCard`, `MetricCard` | the three cards |
| `ThresholdControl`, `HistogramChart`, `DataTable`, `FeatureImportanceChart`, `DropdownLaw`, `ChoroplethMap` | the components |
| `GoodsamPattern`, `ReadPattern`, `PipUtils` | the Python back end |

How each kind of code is modelled:

- React components with state become classes. A `useState` cell is a field, and each handler or effect is a method.
  - Each method's contract states the whole new state.
  - A method that fires a callback returns what it reports.
  - Fetch results arrive as method arguments.
- Loops that fill arrays or dictionaries become methods with loop invariants. Each is proved against a specification function, and the properties are proved about that function. Examples:
  - `binData`'s counting passes;
  - `findCountyByValues`;
  - the CSV load;
  - `format_conditions`;
  - `read_pattern`;
  - the two preprocessing passes of `initialize_backend`;
  - `kfold_indices`.
- A DataFrame is a sequence of rows. A filter condition is data, and filtering is a predicate over the rows.
- Numbers are `real`. NaN and the infinities are modelled explicitly where the code depends on them.
- `sqrt` and `log10` are function parameters.

The code has no stale-response guard: the debounced geomap fetch carries no sequence number and pattern responses are not checked against the current id, so a late response overwrites the state like any other.

## Model

| member | source | states |
|---|---|---|
| Dashboard.DefaultActive | choropleth-dashboard/src/app/dashboard/default/cards/dropdown-card.tsx:161-162 | the default active range starts at the column minimum and, for min <= max, ends inside [min, max] |
| Dashboard.DefaultInactive | choropleth-dashboard/src/app/dashboard/default/cards/dropdown-card.tsx:161-163 | the default inactive range ends at the column maximum and, for min <= max, starts inside [min, max] |
| Dashboard.GetMinMax | choropleth-dashboard/src/app/dashboard/default/cards/dropdown-card.tsx:103-114 | a non-empty known column gets its entry of the column-ranges table; an empty or unknown column gets {0, 1} |
| Dashboard.DefaultRangesSeparated | choropleth-dashboard/src/app/dashboard/default/cards/dropdown-card.tsx:161-163 | for min < max the default active range ends strictly before the default inactive range starts, so the two never overlap |
| Dashboard.PutGet | choropleth-dashboard/src/app/dashboard/default/cards/multislider-card.tsx:105 | after `acc[k] = v`, reading key k gives v and every other key reads as before |
| Dashboard.PutDistinct | choropleth-dashboard/src/app/dashboard/default/cards/multislider-card.tsx:105 | assigning a key into an object keeps its keys distinct |
| DropdownCard.DetermineStepSize | choropleth-dashboard/src/app/dashboard/default/cards/dropdown-card.tsx:52-77 | the card's step is always positive |
| DropdownCard.StepSizeAgrees | choropleth-dashboard/src/app/dashboard/default/cards/dropdown-card.tsx:52-77 | the card's copy of the step rule returns the constraint card's step for every min and max |
| DropdownCard.Card.constructor | choropleth-dashboard/src/app/dashboard/default/cards/dropdown-card.tsx:94-100 | the card starts on the law prop and on the range props, or on [0, 0.4] and [0.6, 1] when a prop is missing |
| DropdownCard.Card.SelectLaw | choropleth-dashboard/src/app/dashboard/default/cards/dropdown-card.tsx:139-171 | an unchanged law does nothing; a changed law is reported; a changed non-empty law also resets both ranges to the 40%/60% defaults of its column, forwards them through the callbacks that exist, and for min < max leaves them disjoint |
| DropdownCard.Card.HandleActiveRangeChange | choropleth-dashboard/src/app/dashboard/default/cards/dropdown-card.tsx:128-131 | stores the active range, forwards it with the current law when the callback exists, and leaves the inactive range and the law alone |
| DropdownCard.Card.HandleInactiveRangeChange | choropleth-dashboard/src/app/dashboard/default/cards/dropdown-card.tsx:134-137 | stores the inactive range, forwards it with the current law when the callback exists, and leaves the active range and the law alone |
| DropdownCard.Card.ActiveRangePropChanged | choropleth-dashboard/src/app/dashboard/default/cards/dropdown-card.tsx:174-178 | a defined `activeRange` prop overwrites the local active range; an undefined one changes nothing |
| DropdownCard.Card.InactiveRangePropChanged | choropleth-dashboard/src/app/dashboard/default/cards/dropdown-card.tsx:180-184 | a defined `inactiveRange` prop overwrites the local inactive range; an undefined one changes nothing |
| DropdownCard.Card.HandleSubmit | choropleth-dashboard/src/app/dashboard/default/cards/dropdown-card.tsx:187-196 | a pattern is sent exactly when `onSubmit` exists, carrying the constraints, the selected law and both local ranges |
| DropdownCard.Card.PropsChanged | choropleth-dashboard/src/app/dashboard/default/cards/dropdown-card.tsx:79-93 | a new render replaces the constraints, column ranges and callback props with the given ones and changes nothing else |
| DropdownCard.Card.Mount | choropleth-dashboard/src/app/dashboard/default/cards/dropdown-card.tsx:139-184 | the mount effects report the law; for a non-empty law they also forward the default active and inactive ranges, and each range becomes its prop or, missing, that default; for an empty law the ranges keep their values unless a prop is given |
| MultiSliderCard.DetermineStepSize | choropleth-dashboard/src/app/dashboard/default/cards/multislider-card.tsx:68-93 | the step is positive; 0.1 for the range [0, 1]; otherwise 0.01 up to a spread of 5, 0.1 up to 100 and 1 up to 1000; above 1000 it is a power of ten, at least 10, that splits the range into 100 to 1000 steps |
| MultiSliderCard.StepSizeMonotone | choropleth-dashboard/src/app/dashboard/default/cards/multislider-card.tsx:68-93 | outside the [0, 1] special case a wider range never gets a smaller step |
| MultiSliderCard.ExtractConstraintsDistinct | choropleth-dashboard/src/app/dashboard/default/cards/multislider-card.tsx:103-108 | the extracted constraint object names each attribute once |
| MultiSliderCard.ExtractConstraintsKeys | choropleth-dashboard/src/app/dashboard/default/cards/multislider-card.tsx:103-108 | the constraint object has a key exactly for the names of the sliders |
| MultiSliderCard.ExtractConstraintsLastWins | choropleth-dashboard/src/app/dashboard/default/cards/multislider-card.tsx:103-108 | a name maps to {lb, ub} taken from the handles of the last slider that carries it |
| MultiSliderCard.ExtractConstraints | choropleth-dashboard/src/app/dashboard/default/cards/multislider-card.tsx:103-108 | defines the constraint dictionary of the sliders, one entry per name, a later slider overwriting an earlier one; its keys, distinctness and values are stated by `ExtractConstraintsKeys`, `ExtractConstraintsDistinct` and `ExtractConstraintsLastWins` |
| MultiSliderCard.Notify | choropleth-dashboard/src/app/dashboard/default/cards/multislider-card.tsx:222-226 | the notification carries the updated sliders, and its constraints have a key exactly for their names |
| MultiSliderCard.EditEnd | choropleth-dashboard/src/app/dashboard/default/cards/multislider-card.tsx:159-163 | the typed value lands at the edited end; the other end keeps its value when it is already on the right side, becomes the typed value when it is not, and stays NaN when it is NaN; so the pair is ordered unless the other end is NaN |
| MultiSliderCard.Blank | choropleth-dashboard/src/app/dashboard/default/cards/multislider-card.tsx:145-150 | defines the pair after an emptied field: NaN at the edited end, the other end unchanged; `Card.HandleInputChange` writes it |
| MultiSliderCard.RemoveAt | choropleth-dashboard/src/app/dashboard/default/cards/multislider-card.tsx:216-218 | for an index in range, exactly that position is removed and the rest keep their order; otherwise nothing changes |
| MultiSliderCard.Card.constructor | choropleth-dashboard/src/app/dashboard/default/cards/multislider-card.tsx:96-100 | the displayed values are the sliders' handle pairs, one per slider, and no variable is selected |
| MultiSliderCard.Card.SlidersChanged | choropleth-dashboard/src/app/dashboard/default/cards/multislider-card.tsx:111-115 | a new `sliders` prop resets both the local sliders and the displayed values from it |
| MultiSliderCard.Card.SelectVariable | choropleth-dashboard/src/app/dashboard/default/cards/multislider-card.tsx:287 | picking a column in the select stores it as the selected variable and changes nothing else |
| MultiSliderCard.Card.HandleSliderChange | choropleth-dashboard/src/app/dashboard/default/cards/multislider-card.tsx:118-132 | a two-element drag value replaces the handles of that slider in both lists; any other length changes nothing; nobody is notified |
| MultiSliderCard.Card.HandleSliderCommit | choropleth-dashboard/src/app/dashboard/default/cards/multislider-card.tsx:135-142 | a two-element value replaces that slider's handles; the page is always notified with the resulting sliders and their constraints |
| MultiSliderCard.Card.HandleInputChange | choropleth-dashboard/src/app/dashboard/default/cards/multislider-card.tsx:144-172 | an empty field sets that end to NaN without notifying; unparsable text changes nothing; a number is clamped into [slider.min, slider.max], placed by EditEnd, written to both lists, and notified |
| MultiSliderCard.Card.AddSlider | choropleth-dashboard/src/app/dashboard/default/cards/multislider-card.tsx:174-213 | with no selection nothing happens; otherwise one slider over the column range (default {0, 1}) with handles at 10% and 60% is appended to both lists, the page is notified and the selection is cleared; for an ordered column range the new handles lie inside it, low before high |
| MultiSliderCard.Card.DeleteSlider | choropleth-dashboard/src/app/dashboard/default/cards/multislider-card.tsx:215-220 | exactly position `index` is removed from both lists, the rest keep their order, and the page is notified |
| MultiSliderCard.Card.ColumnRangesChanged | choropleth-dashboard/src/app/dashboard/default/cards/multislider-card.tsx:96 | a new render replaces the column-ranges prop and changes nothing else |
| MultiSliderCard.NewSliderDefaultsOrdered | choropleth-dashboard/src/app/dashboard/default/cards/multislider-card.tsx:195-197 | the handles of a new slider lie inside its range, low before high |
| ThresholdControl.EditRange | choropleth-dashboard/src/components/thresholdControl.tsx:64-67 | editing the low end gives min(c, hi) and keeps hi; editing the high end gives max(c, lo) and keeps lo; either way lo <= hi afterwards |
| ThresholdControl.EditRangeWithin | choropleth-dashboard/src/components/thresholdControl.tsx:61-67 | a clamped edit of a range inside [min, max] stays inside [min, max] |
| ThresholdControl.SliderPair | choropleth-dashboard/src/components/thresholdControl.tsx:41-42 | a slider value is accepted exactly when it has two elements, and then taken as it is |
| ThresholdControl.Control.constructor | choropleth-dashboard/src/components/thresholdControl.tsx:29-30 | the local ranges start as the range props |
| ThresholdControl.Control.ActiveRangePropChanged | choropleth-dashboard/src/components/thresholdControl.tsx:32-34 | the `activeRange` prop overwrites the local active range and nothing else |
| ThresholdControl.Control.InactiveRangePropChanged | choropleth-dashboard/src/components/thresholdControl.tsx:36-38 | the `inactiveRange` prop overwrites the local inactive range and nothing else |
| ThresholdControl.Control.HandleActiveSliderChange | choropleth-dashboard/src/components/thresholdControl.tsx:40-46 | a two-element drag is stored and forwarded unclamped and unordered; any other length does nothing; the inactive range is untouched |
| ThresholdControl.Control.HandleInactiveSliderChange | choropleth-dashboard/src/components/thresholdControl.tsx:48-54 | a two-element drag is stored and forwarded unclamped and unordered; any other length does nothing; the active range is untouched |
| ThresholdControl.Control.HandleActiveInputChange | choropleth-dashboard/src/components/thresholdControl.tsx:56-73 | empty or non-numeric text changes nothing and fires nothing; a number is clamped into [min, max] and placed by EditRange, stored and forwarded, leaving lo <= hi and keeping inside [min, max] a range that was inside it; the inactive range is untouched |
| ThresholdControl.Control.HandleInactiveInputChange | choropleth-dashboard/src/components/thresholdControl.tsx:75-92 | empty or non-numeric text changes nothing and fires nothing; a number is clamped into [min, max] and placed by EditRange, stored and forwarded, leaving lo <= hi and keeping inside [min, max] a range that was inside it; the active range is untouched |
| ThresholdControl.Control.BoundsChanged | choropleth-dashboard/src/components/thresholdControl.tsx:19-28 | a new render replaces the min and max props and changes nothing else |
| Page.OverlapIffCommonPoint | choropleth-dashboard/src/app/dashboard/default/page.tsx:767-769 | two ranges overlap exactly when some value lies in both |
| Page.CheckRangeOverlap | choropleth-dashboard/src/app/dashboard/default/page.tsx:767-769 | defines `checkRangeOverlap`: max of the lows at most min of the highs; `OverlapIffCommonPoint` states that this means a shared value |
| Page.OverlapSymmetric | choropleth-dashboard/src/app/dashboard/default/page.tsx:767-769 | the overlap test does not depend on the order of its arguments |
| Page.OverlapReflexiveAndTouching | choropleth-dashboard/src/app/dashboard/default/page.tsx:767-769 | a well-formed range overlaps itself and any range that starts where it ends |
| Page.DefaultRangesDisjoint | choropleth-dashboard/src/app/dashboard/default/page.tsx:359-367 | for a column with min < max the 40%/60% default ranges do not overlap |
| Page.InlineStepSize | choropleth-dashboard/src/app/dashboard/default/page.tsx:668-672 | the inline step is 0.01 up to range 5, 1 strictly between 5 and 100, 0.1 from 100 to 1000, and 10 above 1000 |
| Page.InlineStepSizeNotMonotone | choropleth-dashboard/src/app/dashboard/default/page.tsx:668-672 | a wider range can get a finer step (range 50 gets 1, range 200 gets 0.1) |
| Page.StepRulesDiverge | choropleth-dashboard/src/app/dashboard/default/page.tsx:668-672 | the inline rule equals the constraint card's rule exactly on ranges up to 5 other than [0, 1], on range 100, and on ranges strictly between 1000 and 10000 |
| Page.SliderFor | choropleth-dashboard/src/app/dashboard/default/page.tsx:650-682 | a slider takes the constraint's name, min and max from the bounds table, handles at lb and ub with -Infinity replaced by -1000 and +Infinity by 1000, and the inline step of max - min |
| Page.NonLawKeys | choropleth-dashboard/src/app/dashboard/default/page.tsx:648-649 | the constraint names other than the law, in order |
| Page.SlidersFor | choropleth-dashboard/src/app/dashboard/default/page.tsx:646-685 | None exactly when some non-law constraint has no bounds entry (the lookup throws); otherwise one slider per non-law constraint in iteration order, named after it, with min and max from its bounds entry, and neither handle infinite towards its own side |
| Page.GenerateSlidersFromConstraints | choropleth-dashboard/src/app/dashboard/default/page.tsx:646-685 | the loop returns SlidersFor; when no lookup throws, slider i is SliderFor of the i-th non-law entry: its name, its lb and ub with -Infinity as -1000 and +Infinity as 1000, its bounds entry's min and max, and the inline step |
| Page.NonLawEntries | choropleth-dashboard/src/app/dashboard/default/page.tsx:648-649 | the constraint entries the loop does not skip: exactly those whose name is not the law, in order, with the names of NonLawKeys |
| Page.SlidersForEntries | choropleth-dashboard/src/app/dashboard/default/page.tsx:646-685 | whenever no lookup throws, slider i is SliderFor of the i-th non-law entry and its bounds entry, by induction over the constraints |
| Page.ProcessHistogramData | choropleth-dashboard/src/app/dashboard/default/page.tsx:771-801 | null for null input; otherwise the two means of histogram_data[0] and [1] (0 when empty), test_scores[0], [1], [3], [4] and ite_scores[0], [1] in their fields |
| Page.ThirdTestScoreIgnored | choropleth-dashboard/src/app/dashboard/default/page.tsx:785-788 | test_scores[2] has no influence on the summary |
| Page.SummaryMeansWithinValues | choropleth-dashboard/src/app/dashboard/default/page.tsx:775-782 | the active mean lies between any lower and upper bound of the active values |
| Page.FindIndex | choropleth-dashboard/src/app/dashboard/default/page.tsx:725 | -1 exactly when the county is absent; otherwise the first position holding it |
| Page.RefreshRequest | choropleth-dashboard/src/app/dashboard/default/page.tsx:384-387 | a geomap refresh is requested exactly when constraints are set, carrying the constraints, the law and both ranges |
| Page.PageComponent.constructor | choropleth-dashboard/src/app/dashboard/default/page.tsx:98-175 | the initial state cells, with the default ranges [0, 0.4] and [0.6, 1], which do not overlap |
| Page.PageComponent.PatternChangeStart | choropleth-dashboard/src/app/dashboard/default/page.tsx:239-243 | loading starts, the error is cleared, and the 0-based pattern id is pattern - 1 |
| Page.PageComponent.PatternFetched | choropleth-dashboard/src/app/dashboard/default/page.tsx:243-259 | a failed fetch clears constraints and sliders and sets the error; a successful one stores the constraints, then the generated sliders, the county list and the law; a throw during slider generation stops the handler after the constraints were stored |
| Page.PageComponent.HandleLawChange | choropleth-dashboard/src/app/dashboard/default/page.tsx:355-388 | the law is set, both ranges reset to the 40%/60% defaults of its column (of [0, 1] when unknown), a refresh is requested when constraints are set, and for min < max the new ranges do not overlap |
| Page.PageComponent.HandleActiveRangeChange | choropleth-dashboard/src/app/dashboard/default/page.tsx:390-402 | stores the active range and requests a refresh with the card's law and the current inactive range when constraints are set |
| Page.PageComponent.HandleInactiveRangeChange | choropleth-dashboard/src/app/dashboard/default/page.tsx:404-416 | stores the inactive range and requests a refresh with the card's law and the current active range when constraints are set |
| Page.PageComponent.HandleConstraintsChange | choropleth-dashboard/src/app/dashboard/default/page.tsx:527-544 | stores the reported constraints and sliders and requests a refresh when the new constraints are non-null |
| Page.PageComponent.GeomapGate | choropleth-dashboard/src/app/dashboard/default/page.tsx:505-511 | missing ranges do nothing; overlapping ranges set the overlap flag and fetch nothing; otherwise the flag is cleared, loading starts and the fetch is issued |
| Page.PageComponent.GeomapArrived | choropleth-dashboard/src/app/dashboard/default/page.tsx:512-519 | the county, active and inactive lists are overwritten with the fetch result and loading ends |
| Page.PageComponent.HandleDataFileChanged | choropleth-dashboard/src/app/dashboard/default/page.tsx:693-718 | law and control become "", the geomap lists, histogram data, summary, k-fold score and feature importance become null, constraints null, sliders empty and the column ranges empty |
| Page.PageComponent.HandleCountyClick | choropleth-dashboard/src/app/dashboard/default/page.tsx:720-739 | a county found in the geomap list, with histogram data present, is highlighted with the inactive and active values at its first position; otherwise nothing changes |
| Page.PageComponent.SubmitStart | choropleth-dashboard/src/app/dashboard/default/page.tsx:547-565 | loading starts, the error and k-fold score are cleared, and the request carries the page's own ranges |
| Page.PageComponent.SubmitMapHistArrived | choropleth-dashboard/src/app/dashboard/default/page.tsx:574-600 | a failed fetch sets the error and ends loading; the 400 payload sets the no-data error and leaves loading on; data overwrites the map lists, histogram data and names, clears a truthy highlight, and ends loading |
| Page.PageComponent.CrossValArrived | choropleth-dashboard/src/app/dashboard/default/page.tsx:603-609 | a non-null cross-validation result sets the k-fold score; null leaves it |
| Page.PageComponent.HistoDataEffect | choropleth-dashboard/src/app/dashboard/default/page.tsx:828-856 | with histogram data present, the summary is ProcessHistogramData of it and the feature importance and column histograms are copied from it; without it nothing changes |
| HistogramChart.MinOf | choropleth-dashboard/src/components/histogramChart.tsx:88 | the minimum of non-empty data is one of its values and no value is below it |
| HistogramChart.MaxOf | choropleth-dashboard/src/components/histogramChart.tsx:89 | the maximum of non-empty data is one of its values and no value is above it |
| HistogramChart.GridFor | choropleth-dashboard/src/components/histogramChart.tsx:87-91 | the grid has the requested bin count and a non-negative width, and every value lies between its start and its end |
| HistogramChart.BinIndexAsWritten | choropleth-dashboard/src/components/histogramChart.tsx:109 | whenever the index expression yields a usable index it is a position of the bins array |
| HistogramChart.BinIndex | choropleth-dashboard/src/components/histogramChart.tsx:109 | the repaired index is capped at the last bin and agrees with the code as written whenever the width is positive |
| HistogramChart.BinIndexInRange | choropleth-dashboard/src/components/histogramChart.tsx:109 | a value inside the grid's span lands in a bin, and the maximum lands in the last bin |
| HistogramChart.AllEqualDataCrashes | choropleth-dashboard/src/components/histogramChart.tsx:91-110 | when every value is equal the width is 0 and the code as written has no bin for that value |
| HistogramChart.CountsConserved | choropleth-dashboard/src/components/histogramChart.tsx:108-116 | every in-span value is counted in exactly one bin: the per-bin counts add up to the number of values |
| HistogramChart.BinsConserveCounts | choropleth-dashboard/src/components/histogramChart.tsx:108-116 | the active bars add up to the number of active values and the inactive bars to the number of inactive values, negated when drawn downwards |
| HistogramChart.HighlightIndex | choropleth-dashboard/src/components/histogramChart.tsx:118-126 | a highlighted value has no bin exactly when it lies below the minimum; otherwise its bin is the value's bin index |
| HistogramChart.CountValues | choropleth-dashboard/src/components/histogramChart.tsx:108-116 | each bar of the side gains the increment times the number of values in that bin; nothing else changes |
| HistogramChart.MarkHighlight | choropleth-dashboard/src/components/histogramChart.tsx:118-126 | the step fails exactly when a truthy highlight has no bin; otherwise only the highlighted bar's flag is set |
| HistogramChart.CountAll | choropleth-dashboard/src/components/histogramChart.tsx:92-116 | a fresh array of bars with the grid's ranges, the counts of both sides and no highlight |
| HistogramChart.BinOnGrid | choropleth-dashboard/src/components/histogramChart.tsx:92-126 | fails exactly when a truthy highlight has no bin; otherwise the bars are counted and exactly the highlighted bars carry the flags |
| HistogramChart.BinData | choropleth-dashboard/src/components/histogramChart.tsx:79-143 | empty data gives NaN ranges with infinite extremes, and it throws exactly when a highlight is truthy; otherwise min and max are the data's extremes, the bars are counted, and the highlight flags are set exactly where the highlights fall; it throws exactly when a truthy highlight has no bin |
| HistogramChart.BinNonEmpty | choropleth-dashboard/src/components/histogramChart.tsx:87-143 | with at least one value it throws exactly when a truthy highlight has no bin on the grid spanning the data; otherwise min and max are the data's extremes, the bars are counted over that grid and the highlight flags are set exactly where the highlights fall |
| HistogramChart.CalculateMean | choropleth-dashboard/src/components/histogramChart.tsx:146-150 | 0 for empty data; otherwise mean times length is the sum |
| HistogramChart.ChartStatInfoMatchesPage | choropleth-dashboard/src/components/histogramChart.tsx:189-212 | the chart's own summary equals the page's processHistogramData of the same payload |
| HistogramChart.ChartStatInfo | choropleth-dashboard/src/components/histogramChart.tsx:189-212 | defines the chart's summary: both means, test scores 0, 1, 3 and 4, and ITE scores 0 and 1; `ChartStatInfoMatchesPage` relates it to the page's summary |
| HistogramChart.FindCountyByValues | choropleth-dashboard/src/components/histogramChart.tsx:257-328 | null exactly when an input is missing; otherwise the first county whose given value(s) match, with its row, or no match when no county matches |
| DataTable.ZipRows | choropleth-dashboard/src/components/data-table.tsx:55-60 | one row per county name, in order, each taking the state and the two values at the same index, or undefined past an array's end |
| DataTable.ZipRowsComplete | choropleth-dashboard/src/components/data-table.tsx:55-60 | when every array is as long as the county names, every row is fully defined |
| DataTable.CmpIsStrictWeak | choropleth-dashboard/src/components/data-table.tsx:85-89 | over rows whose keys are defined, the comparator is a strict weak order |
| DataTable.KeyLess | choropleth-dashboard/src/components/data-table.tsx:86-87 | defines JavaScript's `<` on two cell values: numbers by value, strings by `StrLess`, and false whenever a side is undefined |
| DataTable.Before | choropleth-dashboard/src/components/data-table.tsx:85-90 | defines when the comparator puts one row first: its key is less for ascending, greater for descending; `CmpIsStrictWeak` and `SortRowsSorted` state its properties |
| Sorting.Sort | choropleth-dashboard/src/components/data-table.tsx:85-90 | the stable sort keeps every element with its multiplicity and the length; `SortSorted` states its order |
| Sorting.SortSorted | choropleth-dashboard/src/components/data-table.tsx:85-90 | under a strict weak order the sorted sequence has no later element sorting before an earlier one, and keeps every element in the order's domain |
| DataTable.SortRows | choropleth-dashboard/src/components/data-table.tsx:85-89 | the sorted rows are a permutation of the rows |
| DataTable.SortRowsSorted | choropleth-dashboard/src/components/data-table.tsx:85-89 | when every key of the column is defined, no later row sorts strictly before an earlier one |
| DataTable.RowMatches | choropleth-dashboard/src/components/data-table.tsx:99-102 | a row is kept exactly when its lower-cased county or state contains the query; the callback throws exactly when the county does not match and the state is undefined |
| DataTable.FilterRows | choropleth-dashboard/src/components/data-table.tsx:99-102 | fails exactly when the callback throws on some row; otherwise a sub-multiset of the rows holding exactly the matching ones |
| DataTable.FilterEmptyQuery | choropleth-dashboard/src/components/data-table.tsx:99-102 | the empty query keeps every row, in order |
| DataTable.TotalPages | choropleth-dashboard/src/components/data-table.tsx:70-71 | at least one page; for a non-empty table, just enough 8-row pages to hold every row |
| DataTable.PageSlice | choropleth-dashboard/src/components/data-table.tsx:73-75 | at most 8 rows: the rows from the page's start, clamped to the table's end; nothing past the end |
| DataTable.ShowingMatchesPage | choropleth-dashboard/src/components/data-table.tsx:177 | on a valid page of a non-empty table, the "Showing a to b" range counts exactly the rows on the page |
| DataTable.PagesCoverRows | choropleth-dashboard/src/components/data-table.tsx:70-75 | the pages, concatenated in order, are exactly the rows |
| DataTable.Table.PaginatedData | choropleth-dashboard/src/components/data-table.tsx:73-77 | the visible page holds at most 8 rows |
| DataTable.Table.constructor | choropleth-dashboard/src/components/data-table.tsx:31-47 | starts on page 1 with the five placeholder rows, no sort column, ascending order and an empty filter |
| DataTable.Table.PropsChanged | choropleth-dashboard/src/components/data-table.tsx:53-66 | with all three props present, the data and the filtered data are the zipped rows and the page is 1; otherwise nothing changes |
| DataTable.Table.HandleSort | choropleth-dashboard/src/components/data-table.tsx:80-93 | the direction becomes descending only on a repeated ascending sort of the same column; the filtered rows are permuted into sorted order and the page is 1 |
| DataTable.Table.HandleFilter | choropleth-dashboard/src/components/data-table.tsx:95-106 | the filter value is the lower-cased input; the filtered rows come from the full data and the page is 1, unless the callback throws |
| DataTable.Table.HandlePrevPage | choropleth-dashboard/src/components/data-table.tsx:108-112 | moves back one page unless on the first, keeping the page valid |
| DataTable.Table.HandleNextPage | choropleth-dashboard/src/components/data-table.tsx:114-118 | moves on one page unless on the last, keeping the page valid |
| FeatureImportanceChart.FormatFeatureNameSpec | choropleth-dashboard/src/components/feature-importance-chart.tsx:66-69 | the formatted name has the same length, no hyphen left, every other character kept in place, and formatting it again changes nothing |
| FeatureImportanceChart.FormatFeatureName | choropleth-dashboard/src/components/feature-importance-chart.tsx:66-69 | defines `formatFeatureName`: every hyphen becomes a space; `FormatFeatureNameSpec` states what it keeps |
| FeatureImportanceChart.PrepareData | choropleth-dashboard/src/components/feature-importance-chart.tsx:72-83 | no data or no features gives no bars; otherwise one bar per feature, a permutation of the per-feature bars |
| FeatureImportanceChart.PrepareDataDescending | choropleth-dashboard/src/components/feature-importance-chart.tsx:75-82 | with an importance for every feature, every bar carries its negation and the importances never increase along the list |
| FeatureImportanceChart.ApplyLogScaling | choropleth-dashboard/src/components/feature-importance-chart.tsx:86-99 | 0 for a non-positive count; otherwise the larger of 0.2 and log10(count + 1): exactly 0.2 while the logarithm is below 0.2, and exactly the logarithm once it reaches 0.2 |
| FeatureImportanceChart.FullCount | choropleth-dashboard/src/components/feature-importance-chart.tsx:116 | the full histogram's count at the bin when there is one, otherwise 0 |
| FeatureImportanceChart.PrepareHistogramData | choropleth-dashboard/src/components/feature-importance-chart.tsx:102-126 | no histogram gives no points; a missing upper bin edge throws; otherwise one point per count with its bin edges, the raw and scaled filtered count and the raw and scaled full count |
| FeatureImportanceChart.LinearScaleIsIdentity | choropleth-dashboard/src/components/feature-importance-chart.tsx:121-123 | with the log scale off the scaled values are the raw counts |
| FeatureImportanceChart.LogScaleKeepsBarsVisible | choropleth-dashboard/src/components/feature-importance-chart.tsx:121-123 | with the log scale on, every positive count is drawn at height 0.2 or more and a non-positive one at 0 |
| MetricCard.RemoveAll | choropleth-dashboard/src/app/dashboard/default/cards/metric.tsx:61 | every copy of the value is removed and every other item keeps its multiplicity |
| MetricCard.Toggled | choropleth-dashboard/src/app/dashboard/default/cards/metric.tsx:58-64 | an open item is closed, a closed one is appended, and no other item changes state |
| MetricCard.ToggleTwiceRestores | choropleth-dashboard/src/app/dashboard/default/cards/metric.tsx:58-64 | toggling the same item twice restores the set of open items, and the exact list when the item was closed |
| MetricCard.CohensDSignFree | choropleth-dashboard/src/app/dashboard/default/cards/metric.tsx:95 | Cohen's d passes on its magnitude: exactly when it is at most -0.2 or at least 0.2 |
| MetricCard.StatRows | choropleth-dashboard/src/app/dashboard/default/cards/metric.tsx:169-220 | no rows exactly when there is no summary; six rows, plus the k-fold row only once a score is known |
| MetricCard.TicksFollowPassRules | choropleth-dashboard/src/app/dashboard/default/cards/metric.tsx:89-97 | the ticks of the imbalance, paired t, Mann-Whitney, Cohen's d and k-fold rows follow the five pass rules, and the two ITE rows have none |
| MetricCard.PairedTPasses | choropleth-dashboard/src/app/dashboard/default/cards/metric.tsx:90 | the paired t test passes for p below 0.05 |
| MetricCard.MannWhitneyPasses | choropleth-dashboard/src/app/dashboard/default/cards/metric.tsx:91 | the Mann-Whitney test passes for p below 0.05 |
| MetricCard.ImbalancePasses | choropleth-dashboard/src/app/dashboard/default/cards/metric.tsx:94 | the imbalance ratio passes at 10 or below |
| MetricCard.CohensDPasses | choropleth-dashboard/src/app/dashboard/default/cards/metric.tsx:95 | Cohen's d passes for a magnitude of 0.2 or more; `CohensDSignFree` states it without the absolute value |
| MetricCard.KFoldPasses | choropleth-dashboard/src/app/dashboard/default/cards/metric.tsx:96 | the k-fold score passes between 0.1 and 0.2 inclusive |
| MetricCard.Card.constructor | choropleth-dashboard/src/app/dashboard/default/cards/metric.tsx:55-56 | no accordion item is open and the statistics view is shown |
| MetricCard.Card.ToggleAccordion | choropleth-dashboard/src/app/dashboard/default/cards/metric.tsx:58-64 | the open items become their toggle by the value |
| MetricCard.Card.ToggleView | choropleth-dashboard/src/app/dashboard/default/cards/metric.tsx:66-73 | the view flips, and the new value is reported exactly when a listener is given |
| MetricCard.Card.CallbackChanged | choropleth-dashboard/src/app/dashboard/default/cards/metric.tsx:45-54 | a new render replaces the view-change callback prop and changes nothing else |
| DropdownLaw.Capitalise | choropleth-dashboard/src/components/dropdown-law.tsx:73 | same length: the first character upper-cased and the rest unchanged |
| DropdownLaw.FormatPart | choropleth-dashboard/src/components/dropdown-law.tsx:70-76 | defines one part of a label: its space-separated words, each capitalised, joined by spaces |
| DropdownLaw.FormatParts | choropleth-dashboard/src/components/dropdown-law.tsx:68-77 | one formatted part per part of the law name, in order |
| DropdownLaw.FormatLawLabel | choropleth-dashboard/src/components/dropdown-law.tsx:64-79 | defines the label: dashes become spaces, the parts between underscores are formatted and joined by " - "; `FormatLawLabelSeparators` states what it contains |
| DropdownLaw.FormatLawLabelSeparators | choropleth-dashboard/src/components/dropdown-law.tsx:64-79 | a label has no '_' left and exactly one '-' per '_' of the column name, since every '-' of the name became a space |
| DropdownLaw.LawOptions | choropleth-dashboard/src/components/dropdown-law.tsx:48-51 | one option per available column, in order, valued by the column and labelled by its formatted name |
| DropdownLaw.FindLaw | choropleth-dashboard/src/components/dropdown-law.tsx:82 | none exactly when no option has the value; otherwise the first option that has it |
| DropdownLaw.Combobox.constructor | choropleth-dashboard/src/components/dropdown-law.tsx:35-36 | no options and not loading |
| DropdownLaw.Combobox.ColumnsChanged | choropleth-dashboard/src/components/dropdown-law.tsx:38-61 | an empty column list changes nothing; otherwise the options are rebuilt, and the first column is requested exactly when a non-empty current value is not among the columns |
| ChoroplethMap.PadFips | choropleth-dashboard/src/components/choroplethMap.js:55 | a code of five or more characters is kept; a shorter one is left-padded with zeros to exactly five |
| ChoroplethMap.NumberOf | choropleth-dashboard/src/components/choroplethMap.js:187 | defines `Number(id)` on digit strings: the decimal value, None otherwise; `PadFipsKeepsNumber` relates it to padding |
| ChoroplethMap.PadFipsKeepsNumber | choropleth-dashboard/src/components/choroplethMap.js:55 | padding does not change the county number the code denotes, nor whether it is numeric |
| ChoroplethMap.DataMapOf | choropleth-dashboard/src/components/choroplethMap.js:53-61 | the keys of the data map are exactly the padded codes of the rows |
| ChoroplethMap.DataMapLastWins | choropleth-dashboard/src/components/choroplethMap.js:60 | a code maps to the last row carrying it |
| ChoroplethMap.LoadCountyData | choropleth-dashboard/src/components/choroplethMap.js:53-61 | the loop fills the map exactly as DataMapOf describes |
| ChoroplethMap.SelectedIndices | choropleth-dashboard/src/components/choroplethMap.js:24 | null indices select nothing |
| ChoroplethMap.FillColor | choropleth-dashboard/src/components/choroplethMap.js:155-178 | grey without data; in dual mode red for an active county, blue for an inactive one and grey exactly when it is in neither list; red for the active scheme, blue for the inactive one, and the default scale for any other |
| ChoroplethMap.Opacity | choropleth-dashboard/src/components/choroplethMap.js:181-189 | in dual and default mode 1 exactly for an active or inactive county and 0.15 for every other; in the other modes 1 exactly for a selected county and 0.2 for every other |
| ChoroplethMap.IsActiveCounty | choropleth-dashboard/src/components/choroplethMap.js:145-147 | defines `activeIndices.includes(Number(id))`: the id is numeric and its number is listed |
| ChoroplethMap.IsInactiveCounty | choropleth-dashboard/src/components/choroplethMap.js:149-151 | defines `inactiveIndices.includes(Number(id))`: the id is numeric and its number is listed |
| ChoroplethMap.TooltipStatus | choropleth-dashboard/src/components/choroplethMap.js:208-224 | a status only in dual mode over a county with data: Inactive wins over Active, and Not in selection otherwise |
| ChoroplethMap.ClickedCounty | choropleth-dashboard/src/components/choroplethMap.js:234-243 | the callback receives the county's number, exactly for an active or inactive county in dual mode and for a selected one otherwise |
| ChoroplethMap.ClickableIffOpaque | choropleth-dashboard/src/components/choroplethMap.js:181-243 | outside the default scheme a county is clickable exactly when it is fully opaque, and in dual mode exactly when it is not grey |
| ChoroplethMap.NullIndicesSelectNothing | choropleth-dashboard/src/components/choroplethMap.js:24 | with null indices and a single-colour scheme every county is faded and unclickable |
| ReadPattern.IndexOf | legal_backend/pipeline_analysis/read_pattern.py:24 | no position exactly when the key is not a column; otherwise the first position holding it |
| ReadPattern.KeyConditionsMeaning | legal_backend/pipeline_analysis/read_pattern.py:28-45 | for a row with a value in the column, the generated filters hold exactly when the value is in the `in` list or between the bounds; skipping an infinite bound loses nothing |
| ReadPattern.KeyConditions | legal_backend/pipeline_analysis/read_pattern.py:28-45 | defines the conditions of one pattern entry: a membership test, nothing for an unbounded entry, an error for a half-bounded one, otherwise the two bound tests; `KeyConditionsMeaning` states which rows pass them |
| ReadPattern.UnboundedEntryEmitsNothing | legal_backend/pipeline_analysis/read_pattern.py:32-45 | an entry with no keys, or with both bounds infinite, adds no filter |
| ReadPattern.PatternLawNone | legal_backend/pipeline_analysis/read_pattern.py:16-26 | without a law column among the keys the law stays empty |
| ReadPattern.PatternLawLastWins | legal_backend/pipeline_analysis/read_pattern.py:24-26 | of several law columns among the keys, the last is the law |
| ReadPattern.SurvivorsMeaning | legal_backend/pipeline_analysis/read_pattern.py:30-48 | a row index is returned exactly when the row passes every filter |
| ReadPattern.Survivors | legal_backend/pipeline_analysis/read_pattern.py:30-48 | every surviving index is a row of the table; `SurvivorsMeaning` and `SurvivorsAscending` state which rows survive and in what order |
| ReadPattern.SurvivorsAscending | legal_backend/pipeline_analysis/read_pattern.py:48 | the returned indices are strictly ascending |
| ReadPattern.NarrowSurvivors | legal_backend/pipeline_analysis/read_pattern.py:30-45 | narrowing the survivors by one more filter gives the survivors of the longer filter list |
| ReadPattern.PatternCondsFails | legal_backend/pipeline_analysis/read_pattern.py:20-45 | once a prefix of the pattern raises, the whole pattern raises |
| ReadPattern.PatternConds | legal_backend/pipeline_analysis/read_pattern.py:20-47 | defines the conditions of a whole pattern, entry by entry, or None once an entry raises; `PatternCondsFails` and `ReadPatternRows` state its failure and its use |
| ReadPattern.ReadPatternRows | legal_backend/pipeline_analysis/read_pattern.py:6-50 | raises exactly when a key is not a column or an entry raises; otherwise returns the filters in key order, the last law column, and the indices of the rows that pass every filter |
| ReadPattern.ApplyConds | legal_backend/pipeline_analysis/read_pattern.py:28-45 | narrowing the surviving rows by each new filter in turn leaves exactly the rows that pass the earlier filters and all of the new ones |
| GoodsamPattern.InterventionOverlap | legal_backend/pipeline_analysis/goodsam_pattern.py:283-290 | 0 when either group is empty; otherwise at least 1, and the ratio times the smaller group is the larger group |
| GoodsamPattern.FormatConditions | legal_backend/pipeline_analysis/goodsam_pattern.py:491-498 | the loop emits, column by column, a lower-bound filter then an upper-bound filter for each bound that is a number |
| GoodsamPattern.ConditionsMeaning | legal_backend/pipeline_analysis/goodsam_pattern.py:491-498 | a row passes every generated filter exactly when each column's numeric bounds hold for it; None and missing bounds constrain nothing |
| GoodsamPattern.Conditions | legal_backend/pipeline_analysis/goodsam_pattern.py:491-498 | defines the filter conditions of a constraint list, one per bound in order; `FormatConditions` and `ConditionsMeaning` state what they are and which rows pass |
| GoodsamPattern.CondText | legal_backend/pipeline_analysis/goodsam_pattern.py:491-498 | defines a condition's text: the table name, the column lookup, the operator and the shown bound; `CleanedDropsTableName` relates it to `Cleaned` |
| GoodsamPattern.WhereMeaning | legal_backend/pipeline_analysis/goodsam_pattern.py:513 | a row is selected exactly when it is one of the rows and passes the mask |
| GoodsamPattern.WhereTwice | legal_backend/pipeline_analysis/goodsam_pattern.py:511-513 | selecting twice is selecting by both masks at once |
| GoodsamPattern.WhereSplit | legal_backend/pipeline_analysis/goodsam_pattern.py:566-569 | a mask and its negation together select as many rows as there are |
| GoodsamPattern.KeepStep | legal_backend/pipeline_analysis/goodsam_pattern.py:511-513 | filtering the kept rows by one more condition keeps the rows that pass the longer list |
| GoodsamPattern.ApplyConditions | legal_backend/pipeline_analysis/goodsam_pattern.py:510-516 | stops exactly when some filter names an unknown column, and reports such a filter; otherwise the rows that pass every filter, in order |
| GoodsamPattern.GetDataframe | legal_backend/pipeline_analysis/goodsam_pattern.py:500-523 | an unknown column is an invalid condition; an empty result is the no-data error; otherwise the filtered rows and the filters |
| GoodsamPattern.LabelRows | legal_backend/pipeline_analysis/goodsam_pattern.py:541-554 | every value gets the label LabelOf gives: inactive when in the inactive pair range, else active when in the active pair range, else none |
| GoodsamPattern.Fips | legal_backend/pipeline_analysis/goodsam_pattern.py:958 | the FIPS codes of the rows, in order |
| GoodsamPattern.MaskedIsWhere | legal_backend/pipeline_analysis/goodsam_pattern.py:952-957 | masking by the computed label column lists the codes of exactly the rows carrying the label |
| GoodsamPattern.LabelListsDisjoint | legal_backend/pipeline_analysis/goodsam_pattern.py:952-958 | with distinct FIPS codes, the active and inactive lists are drawn from the county list and share no code |
| GoodsamPattern.FipsWitness | legal_backend/pipeline_analysis/goodsam_pattern.py:958 | a listed code belongs to some row |
| GoodsamPattern.FilterGeomap | legal_backend/pipeline_analysis/goodsam_pattern.py:880-972 | 400 for null constraints or an unknown filter column; an empty list with status 200 for no rows; 500 for an unknown law column; otherwise every remaining county with the active and inactive lists of its labels |
| GoodsamPattern.GeomapLaw | legal_backend/pipeline_analysis/goodsam_pattern.py:916-926 | defines the law the geomap labels by: the given law, else the 32nd column, else the dummy law; `FilterGeomap` uses it |
| GoodsamPattern.PrepareBartAsWritten | legal_backend/pipeline_analysis/goodsam_pattern.py:525-573 | an error from the subset raises; a subset is labelled, its unlabelled rows dropped and its codes split into active and the rest |
| GoodsamPattern.PrepareBart | legal_backend/pipeline_analysis/goodsam_pattern.py:525-573 | an error from the subset is answered with 400; on a subset it agrees with the code as written |
| GoodsamPattern.PrepareRows | legal_backend/pipeline_analysis/goodsam_pattern.py:525-573 | defines the training rows of a subset: an error for an unknown law column, otherwise the rows labelled by the ranges; `PrepareBart` and `PreparedPartition` state its result |
| GoodsamPattern.PreparedPartition | legal_backend/pipeline_analysis/goodsam_pattern.py:541-573 | the active and inactive counts add up to the kept counties; "not active" among them is exactly "inactive"; the imbalance ratio is at least 1 when both are present |
| GoodsamPattern.ErrorSubsetRaises | legal_backend/pipeline_analysis/goodsam_pattern.py:526-535 | every error subset makes the code as written raise, while the corrected version answers 400 |
| GoodsamPattern.NoDataExample | legal_backend/pipeline_analysis/goodsam_pattern.py:520-535 | a concrete table and constraint that leave no data: the code as written raises where 400 was meant |
| GoodsamPattern.ColumnBound | legal_backend/pipeline_analysis/goodsam_pattern.py:147-153 | the rounded bounds enclose the column's values and are fixed points of the 4-decimal rounding |
| GoodsamPattern.RealBoundsMeaning | legal_backend/pipeline_analysis/goodsam_pattern.py:172-182 | an infinite bound becomes the column's own bound; a finite one moves outward by less than 0.0001 |
| GoodsamPattern.RealBounds | legal_backend/pipeline_analysis/goodsam_pattern.py:172-182 | defines the finite bounds of one constraint, an infinite bound replaced by the column's rounded extreme; `RealBoundsMeaning` states it |
| GoodsamPattern.PreprocessedMeaning | legal_backend/pipeline_analysis/goodsam_pattern.py:172-197 | both stored dictionaries keep the pattern's columns in order; unknown columns keep their bounds; the second dictionary gives every known column its own minimum and maximum |
| GoodsamPattern.Preprocessed | legal_backend/pipeline_analysis/goodsam_pattern.py:172-197 | defines the two rewritten constraint lists, or None when some constraint fails; `PreprocessedMeaning` and `PreprocessPattern` state them |
| GoodsamPattern.PreprocessPattern | legal_backend/pipeline_analysis/goodsam_pattern.py:172-197 | the two in-place passes and their copies compute Preprocessed: none when a known column's entry raises |
| GoodsamPattern.Backend.constructor | legal_backend/pipeline_analysis/goodsam_pattern.py:159-160 | every table starts empty |
| GoodsamPattern.Backend.LoadConstraints | legal_backend/pipeline_analysis/goodsam_pattern.py:159-201 | an ID is stored exactly when some row with it did not raise; the stored pair comes from the last such row |
| GoodsamPattern.LastLoaded | legal_backend/pipeline_analysis/goodsam_pattern.py:159-201 | defines what loading stores for an ID: the pair of the last row with it that did not raise; `Backend.LoadConstraints` is proved against it |
| GoodsamPattern.Backend.LoadPatternIndices | legal_backend/pipeline_analysis/goodsam_pattern.py:226-236 | succeeds exactly when no pattern raises; then pattern i maps to the geomap codes of the rows that pass its filters, and to its law |
| GoodsamPattern.Backend.GetConstraints | legal_backend/pipeline_analysis/goodsam_pattern.py:851-873 | 400 exactly without an ID; 404 exactly when the constraints, counties or bounds are missing; otherwise everything stored for the ID, with the law only when one is stored |
| GoodsamPattern.ZipPairs | legal_backend/pipeline_analysis/goodsam_pattern.py:392 | as many pairs as the shorter list, each pairing the entries at one index |
| GoodsamPattern.TopFeaturesAreTop | legal_backend/pipeline_analysis/goodsam_pattern.py:392-396 | at most ten pairs, drawn from the zipped pairs, in non-increasing importance, and no pair left out is more important than one kept |
| GoodsamPattern.TopFeatures | legal_backend/pipeline_analysis/goodsam_pattern.py:392-396 | defines the top features: the pairs sorted by importance, cut to the first ten; `TopFeaturesAreTop` states it |
| GoodsamPattern.SortedPrefixIsTop | legal_backend/pipeline_analysis/goodsam_pattern.py:396 | a prefix of a list in decreasing importance holds its largest importances |
| GoodsamPattern.TopListsAligned | legal_backend/pipeline_analysis/goodsam_pattern.py:397-398 | the name and value lists have the same length, and entry i of each comes from the same selected pair |
| GoodsamPattern.TopLists | legal_backend/pipeline_analysis/goodsam_pattern.py:397-398 | defines the name and importance lists of the top features; `TopListsAligned` states that they line up |
| GoodsamPattern.CleanConds | legal_backend/pipeline_analysis/goodsam_pattern.py:431-433 | one cleaned text per condition, each its text without the first six characters |
| GoodsamPattern.CleanedDropsTableName | legal_backend/pipeline_analysis/goodsam_pattern.py:431-433 | for a generated filter, dropping six characters removes exactly the table name |
| GoodsamPattern.Cleaned | legal_backend/pipeline_analysis/goodsam_pattern.py:431-433 | defines a cleaned condition text: the text without its first six characters; `CleanedDropsTableName` states what that removes |
| PipUtils.Interval | legal_backend/pip_utils.py:76-80 | the ascending run of indices from a up to b, b excluded |
| PipUtils.FoldsFit | legal_backend/pip_utils.py:75-79 | every test slice ends within the data |
| PipUtils.KFoldIndices | legal_backend/pip_utils.py:73-82 | k = 0 raises; a negative k gives no folds; otherwise exactly k folds, fold i with test slice [i·fs, (i+1)·fs) for fs = n div k and train the rest |
| PipUtils.FoldPartition | legal_backend/pip_utils.py:75-80 | each test slice has n div k indices; train is ascending; both lie below n; below n an index is in train exactly when it is not in test |
| PipUtils.TestSlicesDisjoint | legal_backend/pip_utils.py:79 | the test slices of two different folds share no index |
| PipUtils.TailOutsideTestSlices | legal_backend/pip_utils.py:75-80 | the last n mod k indices are in no test slice and in every train set |
| PipUtils.CountInside | legal_backend/pip_utils.py:66-69 | the number of strictly covered entries is at most the size |
| PipUtils.CountInsideExtremes | legal_backend/pip_utils.py:66-69 | the count is the size exactly when every entry lies strictly inside its bounds, and 0 exactly when none does |
| PipUtils.CoverageRate | legal_backend/pip_utils.py:65-70 | undefined (0/0) exactly for empty input; otherwise a rate in [0, 1] |
| PipUtils.CoverageExtremes | legal_backend/pip_utils.py:65-70 | the rate is 1 exactly when every entry is strictly inside its bounds, and 0 exactly when none is |
| PipUtils.SampleMean | legal_backend/pip_utils.py:107 | undefined exactly for empty input; otherwise mean times size is the sum |
| PipUtils.Statistic | legal_backend/pip_utils.py:106-107 | undefined exactly when either sample is empty |
| PipUtils.StatisticAntisymmetric | legal_backend/pip_utils.py:106-107 | swapping the samples negates the statistic |
| PipUtils.SumPermutation | legal_backend/pip_utils.py:107 | rearranging a sample does not change its sum |
| PipUtils.StatisticOfRearrangement | legal_backend/pip_utils.py:106-107 | a sample against a rearrangement of itself scores exactly 0 |
| PipUtils.Square | legal_backend/pip_utils.py:43 | a square is non-negative and 0 exactly for 0 |
| PipUtils.SquaredError | legal_backend/pip_utils.py:43 | the summed squared error is non-negative |
| PipUtils.SquaredErrorZero | legal_backend/pip_utils.py:43 | the summed squared error is 0 exactly when the prediction equals the target |
| PipUtils.SeqMax | legal_backend/pip_utils.py:47 | the maximum is an element and no element exceeds it |
| PipUtils.SeqMin | legal_backend/pip_utils.py:47 | the minimum is an element and no element is below it |
| PipUtils.Spread | legal_backend/pip_utils.py:47 | the range is non-negative, and 0 exactly when all targets are equal |
| PipUtils.Normalise | legal_backend/pip_utils.py:45-47 | undefined exactly for a zero divisor |
| PipUtils.NormaliseMeaning | legal_backend/pip_utils.py:45-47 | a defined normalised score times the divisor is the RMSE |
| PipUtils.Nrmse | legal_backend/pip_utils.py:42-50 | undefined for empty targets; "range" undefined exactly when all targets are equal; "mean" undefined exactly when they sum to 0; any other method is the RMSE itself |
| PipUtils.NrmseRangeMeaning | legal_backend/pip_utils.py:46-47 | a range-normalised score times the range of the targets is the RMSE |
| PipUtils.NrmseMeanMeaning | legal_backend/pip_utils.py:44-45 | a mean-normalised score times the mean of the targets is the RMSE |
| PipUtils.PerfectPredictionScoresZero | legal_backend/pip_utils.py:42-50 | a prediction equal to the target scores 0 under every method whenever the score is defined |

## Left out

- HTTP and file handling are not modelled: the fetch helpers, the API service module, the upload/reload/list dialog, and the Flask routes' request parsing, `jsonify` and file checks. Fetch results enter only as method arguments.
- Debounce timing and the interleaving of asynchronous responses are not modelled: they are timer and concurrency behaviour. Only the synchronous overlap gate and the state writes are modelled.
- The statistical engine is not modelled, because it is foreign library code and floating-point statistics. This covers:
  - BART via R, sklearn and scipy;
  - `pattern_BART_helper`, `cross_validation_test`, `prepare_train_data`, `prepare_permute_data`, `cohens_d`, `create_histogram_with_consistent_bins`, `r_square`;
  - the script copy in `goodsam_helpers.py`.
- Rendering is not modelled: d3 scales, projection, zoom and legend; the recharts markup; and the pass-through components.
- Floating point is not modelled: IEEE rounding at bin boundaries, and NaN propagation except where `Numbers.Num` carries it. `toFixed` and `toExponential` formatting is not modelled either.
- `sqrt` and `log10` are parameters. Only the facts each lemma needs are assumed about them, as `requires` clauses.
- Pattern strings are not parsed:
  - `eval` and `ast.literal_eval` of pattern strings are not modelled;
  - a pattern arrives already parsed, or as `Unparsable`;
  - the `inf` to `1e100` text rewrite is modelled only through the value `Big`.
- pandas `eval` of condition strings is not modelled. A condition is data, and its text is only used for `cleaned_conds`. Python's `str` of a float is a parameter there.
- The tables are input, not computed:
  - `column_bounds` is an input of the preprocessing;
  - `ColumnBound` gives the rounding of one column's extremes;
  - the column extremes themselves are not computed from a table.
- Some bookkeeping is not modelled, because nothing in the core reads it: the `patterns_constraints` and `filterd_patterns_data_rows` tables of `get_initial_patterns`, and the county/state name join of the `/userPattern` route.
- Some unusual tables are not modelled:
  - a FIPS column named in the constraints or used as the law;
  - duplicate column names;
  - non-numeric cells coerced by `to_numeric`;
  - a pattern row without an `ID`.
- Slider aliasing is not modelled. The multi-slider card writes into slider objects it shares with the page, through `updatedSliders[index].defaultValue` and `updatedValues[index][position]`. The model copies values, so that aliasing is not captured.
- `Sorting.Sort`: the model's sort is a stable insertion sort, as JavaScript's and Python's sorts are. Its stability is not stated as a lemma; only its ordering and that it is a permutation are proved.
- `DataTable.SortRowsSorted`: ordering is proved only when every key of the column is defined. With `undefined` keys JavaScript's comparator is inconsistent, and the model proves only that the result is a permutation.
- `PipUtils.Nrmse` and `PipUtils.CoverageRate`: a zero divisor gives `inf` or `nan` in numpy. The model returns None there rather than distinguishing the two.
- `PipUtils.Statistic`: its value is related to the means through `StatisticAntisymmetric` and `StatisticOfRearrangement` rather than stated directly in its contract.
- `FeatureImportanceChart.PrepareData`: when an importance is missing or NaN, JavaScript's comparator is inconsistent. Descending order is proved only when every feature has an importance.
- DataTable.RowMatches and DataTable.Table.HandleFilter: lower-casing (`Strings.ToLower`) maps only ASCII letters. JavaScript's `toLowerCase` also maps letters such as "É", and the model does not capture that.
- DataTable.SortRows: strings are compared code point by code point (`DataTable.StrLess`). JavaScript compares UTF-16 code units, so the two orders differ only for characters outside the Basic Multilingual Plane.
- DropdownLaw.Capitalise: upper-casing (`Strings.Upper`) maps only ASCII letters. JavaScript's `toUpperCase` also maps other letters, including multi-character results such as "ß" to "SS", and the model does not capture that.
- ChoroplethMap.NumberOf: only plain digit strings are read as numbers. The other forms JavaScript's `Number` accepts give None here: surrounding whitespace, a sign, a decimal point, `0x` hex, an exponent, and the empty string (which `Number` reads as 0).

## Findings

| source | as written | input that shows it | evidently intended | confidence | as-written member | corrected member |
|---|---|---|---|---|---|---|
| choropleth-dashboard/src/components/histogramChart.tsx:91-116 | When every value is equal the bin width is 0, so `(value - min) / binWidth` is NaN. `bins[NaN]` is undefined and the count update throws a TypeError, which breaks the chart. | inactive = [5], active = [5] | every value falls into one bin (the first) | high; not executed | `HistogramChart.BinIndexAsWritten`, shown by `HistogramChart.AllEqualDataCrashes` | `HistogramChart.BinIndex`, with `HistogramChart.BinIndexInRange` and `HistogramChart.BinData` |
| legal_backend/pipeline_analysis/goodsam_pattern.py:526-535 | `constraints_BART` unpacks `get_dataframe`'s `({"error": ...}, 400)` pair as if it were the table. The lookup `df_sub[analysis_column]` then raises, and the route answers 500 instead of the intended 400. The same pattern is at line 609 in `cross_validation_helper`. | constraints `{'x': {'lb': 1}}` over a table whose every `x` is below 1 | the 400 error of `get_dataframe` is passed on to the client | high; not executed | `GoodsamPattern.PrepareBartAsWritten`, shown by `GoodsamPattern.NoDataExample` and `GoodsamPattern.ErrorSubsetRaises` | `GoodsamPattern.PrepareBart`, with `GoodsamPattern.PreparedPartition` |
