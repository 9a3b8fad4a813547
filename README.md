# Expenditure chart: data shaping, month drill-down and zoom/brush state

This project models the core of `src/d3.js`, the React component that draws
a grouped bar chart of yearly expenditure. In that chart each year is a band
on the x axis and each expenditure category is a bar in the band. Zooming in
to the maximum scale drills down into per-month bars for every year.

The model covers four parts of that file:

- **`getData`**, the function that turns the parsed expenditure object into
  the chart's view model (`ViewModel`, with lodash `union` in `LodashUnion`).
  The view model holds the year and month x domains, the category list
  (`subgroups`), the list of amounts (`yRange`), and one row per year
  (`dataYear`) and per year-and-month (`dataMonth`). The largest amount tops
  the y domain. A year without year-level analytics makes `getData` fail.
  The model returns `Err(MissingAnalytics(year))` for this and names the
  first such year.
- **The bars of one group** (`Bars`). Both the year bars and the month bars
  take the categories in `subgroups` order. They keep those a row holds with
  a truthy amount and pair each with its amount.
- **Band keys** (`BandKeys`). Each secondary month axis is a band scale over
  the keys `<year>-<month>`. Its tick label is `split('-')[1]`: the text
  between the first and the second `-`, or up to the end of the key when
  there is no second one, and undefined when the key has no `-`. A month
  row finds its scale as the first of the axes whose domain holds the
  row's key.
  `MonthBars` connects these to the rows `getData` builds: the rows each
  year group receives, the scale each row finds, and the bars shown.
- **Drill state** (`Drill`). The `zoomed` handler keeps three pieces of
  state: the "graph zoomed" flag, whether the secondary axes exist, and
  whether month bars exist. This is the class `ZoomChart`, and its method
  `Zoomed` is proved against the pure transition `NextView`; its method
  `Brushed` runs `Zoomed` on the zoom event that the brush causes. Lemmas about
  sequences of zoom events build on `NextView`. The exchange between
  `zoomed` (which moves the brush) and `brushed` (which sets the zoom
  transform) is modelled by `Fired`. The programmatic event each handler
  causes is taken to carry either the causing event as its `sourceEvent` or
  no `sourceEvent` at all. Under either convention the exchange is proved to
  end.

`WorkedExample` works through a small data set from input to chart data and
bars.

In two places the model follows the code where a reader might expect
otherwise:

- `subgroups` and `yRange` are collected from year-level analytics only
  (`src/d3.js:23-24`). A category that occurs only in some month is
  therefore never drawn, not even in the month view
  (`MonthBars.MonthOnlyCategoryHasNoBar`).
- A year without year-level analytics is not skipped. `getData` throws on
  `Object.keys(obj.analytics)`.

## Model

| member | source | states |
|---|---|---|
| LodashUnion.Dedup | src/d3.js:36-37 | the result has no duplicates and holds exactly the elements of the input |
| LodashUnion.DedupKeepsFirstOccurrenceOrder | src/d3.js:36-37 | the result is ordered by first occurrence in the input: x comes before y exactly when x first occurs before y |
| LodashUnion.Union | src/d3.js:36-37 | `union(...arrays)` has no duplicates and holds a value exactly when one of the arrays holds it |
| LodashUnion.UnionFirstAppearanceOrder | src/d3.js:36-37 | `union` lists values in the order they first appear in the arrays read left to right |
| LodashUnion.InFlatten | src/d3.js:36-37 | a value is in the concatenated arrays exactly when one of the arrays holds it |
| ViewModel.Values | src/d3.js:24 | `Object.values` has one entry per key and holds exactly the stored amounts |
| ViewModel.Years | src/d3.js:25 | `Object.keys(expenditure)`: the years in input order (a definition; `GetData` states the year domain) |
| ViewModel.CategoryLists | src/d3.js:23 | the per-year `Object.keys(obj.analytics)` lists (a definition; its properties are `SubgroupsAreYearCategories`) |
| ViewModel.AmountLists | src/d3.js:24 | the per-year `Object.values(obj.analytics)` lists (a definition; its properties are `YRangeIsYearAmounts`) |
| ViewModel.FirstMissing | src/d3.js:23 | finds the first year whose `analytics` is missing, or none when every year has them |
| ViewModel.GetData | src/d3.js:9-46 | succeeds exactly when every year has analytics; otherwise fails naming the first year without them; on success the x domains are the years in input order and the twelve month names |
| ViewModel.SubgroupsAreYearCategories | src/d3.js:23-36 | `subgroups` has no duplicates, holds exactly the categories of some year's analytics, and lists them in first-appearance order |
| ViewModel.YRangeIsYearAmounts | src/d3.js:24-37 | `yRange` has no duplicates and holds exactly the amounts of some year's analytics |
| ViewModel.MaxOf | src/d3.js:111 | `d3.max` of a non-empty list is an element of it and no element exceeds it; of an empty list it is undefined |
| ViewModel.YDomainTopIsLargestYearAmount | src/d3.js:185-197 | the year view's y domain has a top exactly when some year has an amount; that top is a year-level amount no other year-level amount exceeds; the month view, when it has rows, tops at the same value |
| ViewModel.YearRows | src/d3.js:38-43 | `dataYear` has one row per year; row i is labelled with year i and carries year i's analytics |
| ViewModel.MonthRows | src/d3.js:27-31 | `dataMonth` is each year's month rows, year after year, flattened (a definition; its properties are the `MonthRow…` and `DataMonth…` rows) |
| ViewModel.YearViewTop | src/d3.js:193 | the year view's y domain has a top exactly when there are year rows and amounts; the top is an amount of `yRange` that no other amount exceeds |
| ViewModel.MonthViewTop | src/d3.js:186 | the month view's y domain has a top exactly when there are month rows and amounts; the top is an amount of `yRange` that no other amount exceeds |
| ViewModel.YearRowsFollowYears | src/d3.js:38-43 | `dataYear` has one row per year, in order, labelled with the year and carrying that year's analytics |
| ViewModel.HasMonthAnalytics | src/d3.js:29 | the filter test `expenditure[year][month]?.analytics`: the month is present and has analytics (a definition; used by the `MonthRowsFrom…` lemmas) |
| ViewModel.MonthRowsFrom | src/d3.js:28-30 | one year's `months.filter(...).map(...)`: the rows of the listed months with analytics, in list order (a definition; its properties are the `MonthRowsFrom…` rows) |
| ViewModel.MonthRowsFromSound | src/d3.js:27-30 | each month row of a year is labelled with that year and one of the months, and carries that month's analytics |
| ViewModel.MonthRowsFromNone | src/d3.js:28-29 | a year none of whose months has analytics yields no month row |
| ViewModel.MonthRowsFromComplete | src/d3.js:28-30 | every month of the list whose analytics are present yields a row |
| ViewModel.MonthRowsFromOrdered | src/d3.js:28-30 | a year's month rows follow the month list's order, with no month twice |
| ViewModel.MonthsDistinct | src/d3.js:26 | the twelve month names are distinct |
| ViewModel.MonthRowSource | src/d3.js:27-31 | every flattened month row comes from a year of the input and a month with analytics |
| ViewModel.MonthRowAt | src/d3.js:27-31 | every year and month with analytics has its row in the flattened list |
| ViewModel.MonthRowsOrderedAt | src/d3.js:27-31 | rows of an earlier year come first, and within a year earlier months come first |
| ViewModel.DataMonthSound | src/d3.js:27-31 | every `dataMonth` row names a year of the input and a month with analytics, and carries those analytics |
| ViewModel.DataMonthComplete | src/d3.js:27-31 | every year and month with analytics has a `dataMonth` row |
| ViewModel.DataMonthOrdered | src/d3.js:27-31 | `dataMonth` is ordered by year position, then by calendar month |
| ViewModel.DataMonthUnique | src/d3.js:27-31 | with distinct years, no year-and-month pair occurs twice in `dataMonth` |
| ViewModel.YearWithoutMonthsHasNoRows | src/d3.js:27-31 | a year with no monthly analytics contributes no row to `dataMonth` |
| Bars.Lookup | src/d3.js:265-266 | `d[subgroup]`: the row's amount, or undefined when it has none (a definition; its properties are `Truthy` and `BarEntries`) |
| Bars.ToBoolean | src/d3.js:265 | `!!` of a number or undefined: undefined and 0 are false (a definition; its properties are `Truthy`) |
| Bars.Truthy | src/d3.js:265 | `!!d[subgroup]` holds exactly when the row has the category with a non-zero amount |
| Bars.BarEntries | src/d3.js:263-267 | no more bars than categories; each bar names a category whose amount is truthy and carries exactly that amount |
| Bars.BarEntryOf | src/d3.js:263-267 | every category the row holds with a truthy amount gets a bar |
| Bars.BarEntriesExactlyTruthy | src/d3.js:312-316 | a category gets a bar exactly when the row holds it with a non-zero amount |
| Bars.BarEntriesKeepSubgroupOrder | src/d3.js:263-267 | with distinct categories, every bar names a listed category and bars appear in `subgroups` order |
| Bars.BarEntriesDistinct | src/d3.js:263-267 | with distinct categories, no category gets two bars |
| BandKeys.Split | src/d3.js:169 | `split` returns at least one part and no part contains the separator |
| BandKeys.SplitAfterPlainPrefix | src/d3.js:169 | a separator-free prefix becomes the start of the first part and leaves the other parts alone |
| BandKeys.SplitLeadingSeparator | src/d3.js:169 | a leading separator yields an empty first part followed by the parts of the rest |
| BandKeys.SplitJoin | src/d3.js:169 | splitting separator-free parts joined by the separator gives back the parts |
| BandKeys.JoinSplit | src/d3.js:169 | joining the parts of a split gives back the string |
| BandKeys.SplitCount | src/d3.js:169 | `split` returns a single part exactly when the string has no separator |
| BandKeys.TickLabel | src/d3.js:169 | the tick label is defined exactly when the key contains `-`, and it never contains `-` |
| BandKeys.TickLabelIsSecondSegment | src/d3.js:169 | the tick label is the text between the first `-` and the next `-` or the end of the key |
| BandKeys.SplitBandKey | src/d3.js:143 | a key `<year>-<month>` with separator-free year and month splits into exactly those two parts |
| BandKeys.TickLabelRoundTrip | src/d3.js:169 | the tick label of a band key is its month whenever neither the year nor the month contains `-` |
| BandKeys.BandKeyInjective | src/d3.js:143 | band keys of separator-free years and months determine the year and the month |
| BandKeys.BandKey | src/d3.js:143 | the key `<year>-<month>` (a definition; its properties are `SplitBandKey`, `TickLabelRoundTrip` and `BandKeyInjective`) |
| BandKeys.SecondaryDomains | src/d3.js:149-163 | the `x2s` list: one secondary domain per bar group, in group order (a definition; used by `FindsOwnYearScale`) |
| BandKeys.SecondaryDomain | src/d3.js:141-147 | a secondary scale has one key per month and holds exactly the keys `<group>-<month>`, with `nm` when the group is missing |
| BandKeys.FindScale | src/d3.js:305-307 | `find` returns the first scale whose domain holds the key, and reports failure when none does |
| BandKeys.FindsOwnYearScale | src/d3.js:305-307 | with distinct separator-free years, a key of year i is found in the scale of year i |
| MonthBars.RowsOfGroup | src/d3.js:300 | the filter keeps only rows of the group, each taken from the input |
| MonthBars.RowsOfGroupComplete | src/d3.js:300 | the filter drops no row of the group |
| MonthBars.RowsOfGroupAppend | src/d3.js:300 | filtering a concatenation gives the filtered parts concatenated, so kept rows keep their order |
| MonthBars.RowsOfGroupUniform | src/d3.js:300 | rows that all belong to one group are all kept when it is the filtered group and all dropped otherwise |
| MonthBars.RowsOfGroupNone | src/d3.js:300 | a group that is no year of the input receives no month row |
| MonthBars.RowsOfGroupPicksYear | src/d3.js:300 | with distinct years, the rows a year's group receives are that year's month rows |
| MonthBars.GroupReceivesItsYearRows | src/d3.js:300 | with distinct years, the group of year i receives exactly year i's month rows, in month order |
| MonthBars.MonthsHaveNoSeparator | src/d3.js:26 | no month name contains `-` |
| MonthBars.MonthRowFindsItsYearScale | src/d3.js:305-307 | with distinct separator-free years, every `dataMonth` row finds the scale of its own year and the key's tick label is its month |
| MonthBars.YearBarsShowNonzeroAmounts | src/d3.js:263-267 | a year's bars are exactly its categories with non-zero amounts, each with that amount |
| MonthBars.MonthOnlyCategoryHasNoBar | src/d3.js:312-316 | a category absent from every year's analytics gets no bar in any month row |
| Drill.ZoomChart.constructor | src/d3.js:49 | a new chart starts in the year view, not zoomed, with no secondary axes |
| Drill.ZoomChart.Zoomed | src/d3.js:449-503 | the flag records whether the scale equals the maximum; the view moves as `NextView` says; the brush moves unless the event came from the brush; secondary axes and month bars exist together |
| Drill.ZoomChart.Brushed | src/d3.js:422-431 | the brush sets the zoom only for a gesture not caused by the zoom; the zoom run it causes moves the view as `NextView` says for a brush-sourced or sourceless event, and moves the brush back only when no source is forwarded |
| Drill.MaxZoom | src/d3.js:437 | `zoomScale`: the number of years times 1.2 (a definition; `ZoomChart.Valid` ties the chart to it) |
| Drill.Abs | src/d3.js:485 | `Math.abs` (a definition; used by `AtMaxZoom`) |
| Drill.AtMaxZoom | src/d3.js:485-486 | the scale is within 0.00001 of `zoomScale` (a definition; used by `NextView`) |
| Drill.DrillsOn | src/d3.js:487 | the event has a source whose type is not `brush` (a definition; used by `NextView`) |
| Drill.ZoomMovesBrush | src/d3.js:467-468 | `zoomed` moves the brush unless the event's source type is `brush` (a definition; `Zoomed` reports it) |
| Drill.BrushMovesZoom | src/d3.js:423-426 | `brushed` goes on only for a source whose type is not `zoom` (a definition; `Brushed` reports it) |
| Drill.NextView | src/d3.js:485-502 | outside the tolerance the view is the year view; it is the month view exactly when within tolerance and either already there or a chart gesture drills into existing groups |
| Drill.Fired | src/d3.js:422-477 | the guards of `brushed` (422-431) and `zoomed` (467-477): a run causes another exactly when its handler's guard lets it through (`zoomed` unless the source is the brush, `brushed` unless the source is the zoom or missing), so a user gesture always does; the caused run is of the other handler and carries the causing handler's type when sources are forwarded, and no source otherwise |
| Drill.ChartGesturesFollowLastScale | src/d3.js:485-502 | under chart gestures alone the view is the month view exactly when the last scale is within tolerance of the maximum |
| Drill.AtMaxKeepsMonthView | src/d3.js:486-493 | in the month view, events within tolerance of the maximum keep the month view and draw nothing again |
| Drill.ApproachDrillsOnce | src/d3.js:485-502 | chart gestures that reach the maximum and stay there drill into the month view exactly once |
| Drill.ForwardedAtMaxKeepsView | src/d3.js:486-487 | events at the maximum from the brush or without a source change no view |
| Drill.ZoomOutReturnsToYearView | src/d3.js:494-501 | a last event outside the tolerance always leaves the year view |
| Drill.HandlersDoNotLoop | src/d3.js:422-477 | a user gesture on chart or brush updates the other, and the chain of handler runs stops within two more runs |
| WorkedExample.ExampleSubgroups | src/d3.js:36 | for the sample data, `subgroups` is the year's categories in order, leaving out a month-only one |
| WorkedExample.ExampleYRange | src/d3.js:37 | for the sample data, `yRange` is the year amounts and the y domain tops at the largest |
| WorkedExample.ExampleJanuaryRow | src/d3.js:27-31 | for the sample data, `dataMonth` is a single January row with that month's amounts |
| WorkedExample.JanuaryOnlyMonthRow | src/d3.js:27-31 | for the sample year, the month rows are exactly the January row |
| WorkedExample.JanuaryBarsOverCategories | src/d3.js:312-316 | over the sample categories, the January amounts give one bar, for Food |
| WorkedExample.ExampleJanuaryBars | src/d3.js:312-316 | for the sample data, the January row draws one bar, for the year category it holds |
| WorkedExample.ExampleMissingAnalytics | src/d3.js:23 | adding a year without analytics makes the result an error naming that year |

## Left out

- Rendering: React state and effects, SVG creation, axes drawing, grid lines, colours, legend, transitions, and the hover tooltip (`showDataOnHover`). The model keeps only the data each of these receives.
- Geometry: pixel ranges, band widths, padding, `.nice()`, the log scale and the translate arithmetic of `zoomed` and `brushed`. These are floating-point screen calculations with no logic of their own. The brush-to-zoom transform (`src/d3.js:428-430`) is likewise not modelled.
- Drill.ZoomChart.Zoomed: does not model the `x.range`, `xSubgroup.rangeRound` and `xDateAxis.domain` updates or the bar repositioning, because they are geometry. It keeps the drill state and the brush decision.
- Drill.ZoomChart.Brushed: takes the resulting zoom scale `k` as a parameter instead of computing it from the brush selection, because that is floating-point geometry.
- Drill.ZoomChart.Zoomed: takes the zoom scale `k` as given. The zoom behaviour clamps the scale of user gestures to `[1, zoomScale]` (`scaleExtent`), but not the transform that `brushed` sets through `zoom.transform`, which can exceed `zoomScale` for a narrow brush selection. The model accepts any `k` and does not model the clamping.
- Floating point: amounts and scales are exact reals. `MaxZoom` multiplies the year count by 1.2 exactly, while JavaScript rounds. An amount of `NaN` is not modelled, and truthiness is "present and non-zero".
- Object key order: JavaScript lists integer-like keys such as years in ascending numeric order, whatever order they were inserted in. The model takes the input sequence's order as the enumeration order.
- Categories named `group` or `groupSecondary`: in the source these clash with the row labels. The model keeps labels and amounts apart.
- Inherited object keys: a category named after a prototype property such as `constructor` or `toString` makes `!!d[key]` truthy on a row that lacks it, so that row gets a bar whose value is a function. The model looks categories up in the row's own amounts only.
- The DOM lookup `.barGroup:nth-child(i+1)` in `showSecondaryXAxis` (`src/d3.js:158-163`) is taken to give year i's group. `BandKeys.SecondaryDomains` builds the scales from the years on that assumption.
- Drill.Fired: covers two conventions for the `sourceEvent` of a programmatic `brush.move` or `zoom.transform`: the causing event, or none. Any other value the library might put there is not modelled.
- Drill.HandlersDoNotLoop: the library's choice of `sourceEvent` for programmatic `brush.move` and `zoom.transform` calls is a parameter. Both choices are covered.
- `console.log` calls, CSV parsing and the rest of the application are not part of this model.
