# Analytics dashboard core, modelled in Dafny

A Dafny model of the logic behind a small analytics dashboard. The backend is a
Django importer that loads JSON records into a `DataRecord` table. The
frontend is a React app with these parts:

- a records table whose filters, sorting and pagination live in the URL search
  parameters;
- filter panels that write those parameters;
- TanStack Query option builders keyed by the parameters;
- a client-side dashboard that filters the loaded records itself and builds
  sorted option lists;
- a paginated client table;
- two charts that aggregate records: topic counts and yearly counts.

The model consists of pure functions over immutable data, plus a few methods
with loops. The pieces that depend on an outside system are parameters:

- `parse_datetime`;
- whether a database write fails.

Browser, network, router and rendering are not modelled.

Modules and what they model:

- `Filters` is the URL search state. It is a map from key to optional value;
  a key present with no value is an explicit `undefined`. It also models
  `useFilters`' merge and reset.
- `RecordsPage` covers the records page. This is the sort and pagination
  encoding in the URL and the change handlers that write it back.
- `Queries` has the four query option builders and their cache keys.
- `TableToolbar` is the records-table toolbar: the search box, facet selects
  and the reset control.
- `ChartFilterPanel` and `LegacyFilterPanel` are the two filter panels. They
  cover the "all" option, `parseInt` of the end year and the displayed
  select value.
- `JsNumbers` models JavaScript `Number#toString` on integers and `parseInt`
  without a radix. It covers leading whitespace, a sign, a `0x` prefix and
  the longest digit prefix, with NaN as `None`.
- `Dashboard` is the client dashboard. It covers the filter state, the
  sequential filter passes and `getFilterOptions`.
- `TextOrder` is the string order of the default `Array.prototype.sort`.
- `ClientPagination` is the client table. It covers page count, page slice,
  page change and the page-link row with ellipses.
- `Grouping` is `d3.rollup` with a count reducer: groups in order of first
  appearance.
- `ChartUpdate` says what a chart's effect does to the chart on screen. It
  keeps the previous chart when there are no records, since the effect
  returns before clearing. It clears the chart when no record contributes,
  and otherwise redraws it.
- `TopicChart` is the topic donut chart. It covers the topic counts, "Unknown"
  dropped, the descending sort, the top ten and the total.
- `YearlyTrend` is the yearly trend chart. It covers the derived year, the
  counts per positive year and the ascending sort.
- `ImportData` is the `import_data` command. It covers normalisation, the
  date guard, row construction, the batching loop, the success count and the
  error summary.

## Model

| member | source | states |
|---|---|---|
| Filters.SetFilters | frontend/src/hooks/use-filters.ts:16-22 | the merged search has the keys of both maps; each key of the partial takes the partial's value (an explicit `undefined` clears it); every other key keeps its value |
| Filters.ResetFilters | frontend/src/hooks/use-filters.ts:24 | after a reset no filter is set |
| Filters.SetFiltersIdempotent | frontend/src/hooks/use-filters.ts:16-22 | merging the same partial twice is the same as merging it once |
| Filters.SetFiltersCompose | frontend/src/hooks/use-filters.ts:16-22 | two successive merges equal one merge of the two partials merged together |
| Filters.SetFiltersClears | frontend/src/hooks/use-filters.ts:16-22 | merging `{key: undefined}` leaves `key` unset |
| Filters.SetFiltersKeepsPage | frontend/src/hooks/use-filters.ts:16-22 | a change that does not name `page` leaves the page as it was: filter changes do not reset the page |
| RecordsPage.StateToSortBy | frontend/src/components/records/page.tsx:13-19 | no ordering exactly when the sorting is missing or empty; otherwise the first entry's id, prefixed by "-" exactly when it is descending |
| RecordsPage.SortByToState | frontend/src/components/records/page.tsx:21-26 | no entries exactly when the ordering is missing or empty; otherwise exactly one entry, descending exactly when the text starts with "-", whose id is the text without that sign |
| RecordsPage.SortByUsesFirstEntryOnly | frontend/src/components/records/page.tsx:13-19 | entries after the first never affect the ordering parameter |
| RecordsPage.SortStateRoundTrip | frontend/src/components/records/page.tsx:13-26 | encoding then decoding a single entry gives it back if and only if it is descending, or its id is non-empty and does not start with "-" |
| RecordsPage.SortStringRoundTrip | frontend/src/components/records/page.tsx:13-26 | decoding then encoding gives back every non-empty ordering text |
| RecordsPage.PaginationStateOf | frontend/src/components/records/page.tsx:31-34 | page index 0 when `page` is unset, otherwise `page - 1`; page size 10 when `page_size` is unset, otherwise `page_size` |
| RecordsPage.SortingStateOf | frontend/src/components/records/page.tsx:35 | at most one entry; none exactly when there is no ordering text; encoding the entry gives the ordering text back |
| RecordsPage.OnPaginationChange | frontend/src/components/records/page.tsx:58-67 | the change names only `page` and `page_size`; `page` is the new page index plus one and `page_size` the new size, so reading the change back gives the grid's new pagination state |
| RecordsPage.OnSortingChange | frontend/src/components/records/page.tsx:70-76 | the change names only `ordering`, holds the encoding of the grid's new sorting, and clears `ordering` when the sorting is empty |
| RecordsPage.PaginationChangeRoundTrip | frontend/src/components/records/page.tsx:58-67 | after a pagination change is merged, the pagination state read back is the updater's result, and every key but `page` and `page_size` is unchanged |
| RecordsPage.SortingChangeRoundTrip | frontend/src/components/records/page.tsx:70-76 | after a sorting change to one encodable entry is merged, the sorting read back is that entry, and every key but `ordering` is unchanged |
| RecordsPage.SortingClearedRemovesOrdering | frontend/src/components/records/page.tsx:70-76 | clearing the sorting unsets `ordering` and reads back as no sorting |
| Queries.FilterOptionsQuery | frontend/src/services/reports/queries.ts:15-20 | the key is the filter-options prefix alone |
| Queries.TableQuery | frontend/src/services/reports/queries.ts:22-30 | the key is the table prefix with the params, `{}` when omitted; the fetch takes the same params; the previous page is kept while the next loads |
| Queries.StatsQuery | frontend/src/services/reports/queries.ts:32-39 | the key is the stats prefix with the params, `{}` when omitted; the fetch takes the same params |
| Queries.FacetsQuery | frontend/src/services/reports/queries.ts:41-46 | the key is the facet prefix alone |
| Queries.PrefixesDistinct | frontend/src/services/reports/queries.ts:10-13 | the four key prefixes are pairwise different |
| Queries.DefaultParamsAreEmpty | frontend/src/services/reports/queries.ts:22-39 | omitting the params builds the same query as passing `{}` |
| Queries.TableKeyInjective | frontend/src/services/reports/queries.ts:22-30 | two table queries with equal keys were built from equal params |
| Queries.StatsKeyIsNotTableKey | frontend/src/services/reports/queries.ts:22-39 | a stats key never equals a table key |
| Queries.KeyDeterminesFetch | frontend/src/services/reports/queries.ts:15-46 | any two built queries with the same key run the same fetch, so a cache entry is never shared by different requests |
| TableToolbar.CurrentSearchValue | frontend/src/components/records/components/data-table-toolbar.tsx:34-35 | the search key's value when it is set, the empty text otherwise |
| TableToolbar.IsFiltered | frontend/src/components/records/components/data-table-toolbar.tsx:37-40 | true only when some key other than the search key is set, and false only when none is |
| TableToolbar.HandleSearchChange | frontend/src/components/records/components/data-table-toolbar.tsx:42-46 | the change names only the search key and stores the typed text, even when it is empty |
| TableToolbar.ShowsReset | frontend/src/components/records/components/data-table-toolbar.tsx:87-96 | the reset control is shown exactly when some key other than the search key is set |
| TableToolbar.HandleFilterChange | frontend/src/components/records/components/data-table-toolbar.tsx:48-55 | the change names only `key`; it clears the key exactly when nothing or "" is selected and stores the selection otherwise |
| TableToolbar.IsFilteredMeansSomeKeySet | frontend/src/components/records/components/data-table-toolbar.tsx:37-40 | the filtered state holds if and only if some key other than the search key is set |
| TableToolbar.SearchKeepsFilteredState | frontend/src/components/records/components/data-table-toolbar.tsx:42-46 | after typing, the search box shows the typed text and the filtered state is what it was before |
| TableToolbar.FacetSelectionActivates | frontend/src/components/records/components/data-table-toolbar.tsx:48-96 | selecting a non-empty facet value shows the reset control |
| TableToolbar.ResetHidesReset | frontend/src/components/records/components/data-table-toolbar.tsx:87-96 | after a reset the reset control is hidden and the search box is empty |
| ChartFilterPanel.SelectedValue | frontend/src/components/charts/components/filter-panel.tsx:71-76 | a text dimension stores the choice as text; the end year stores `parseInt` of the choice, a number when it parses and NaN when it does not |
| ChartFilterPanel.HandleFilterChange | frontend/src/components/charts/components/filter-panel.tsx:67-78 | "all" clears the key; any other choice stores its converted value; the stored value is never the text "all"; every other key is unchanged |
| ChartFilterPanel.EndYearOptions | frontend/src/components/charts/components/filter-panel.tsx:86-95 | one option per facet; each option's value is the year's `toString`, which `parseInt` reads back as the year; counts are kept |
| ChartFilterPanel.TextOptions | frontend/src/components/charts/components/filter-panel.tsx:96-134 | one option per facet, whose value is the facet value unchanged |
| ChartFilterPanel.DisplayedValue | frontend/src/components/charts/components/filter-panel.tsx:152-154 | "all" for an unset key; a stored number shows as its `toString`, stored text as itself |
| ChartFilterPanel.GetFilterValue | frontend/src/components/charts/components/filter-panel.tsx:39 | "all" when there is no value, the value itself otherwise |
| ChartFilterPanel.EndYearOptionStoresYear | frontend/src/components/charts/components/filter-panel.tsx:67-95 | choosing the i-th end-year option stores the i-th facet year as a number |
| ChartFilterPanel.SelectionIsDisplayed | frontend/src/components/charts/components/filter-panel.tsx:67-157 | after a choice the select shows that choice again, for "all", for any text and for any canonical year text |
| ChartFilterPanel.EndYearOptionIsDisplayed | frontend/src/components/charts/components/filter-panel.tsx:67-157 | every rendered year, once chosen, is displayed as itself |
| LegacyFilterPanel.OnEndYearChange | frontend/src/components/filter-panel.tsx:43-48 | "all" clears the end year; a parsable choice stores the number and an unparsable one NaN; other keys are unchanged |
| LegacyFilterPanel.OnTextChange | frontend/src/components/filter-panel.tsx:78-83 | "all" clears the dimension, any other choice stores it as text, other keys are unchanged |
| LegacyFilterPanel.DisplayedEndYear | frontend/src/components/filter-panel.tsx:26-43 | "all" when the end year is unset; the year's `toString` when it is a number |
| LegacyFilterPanel.AgreesWithChartPanel | frontend/src/components/filter-panel.tsx:43-83 | both panels make the same change for every choice |
| LegacyFilterPanel.EndYearChoiceIsDisplayed | frontend/src/components/filter-panel.tsx:43-59 | a chosen year option is displayed as itself |
| JsNumbers.ParseInt | frontend/src/components/charts/components/filter-panel.tsx:75 | NaN for blank text and for text whose first non-blank character is neither a sign nor a digit (so "all" is NaN); a result after "-" is at most zero, any other result at least zero |
| JsNumbers.IntToString | frontend/src/components/charts/components/filter-panel.tsx:92 | the text is non-empty and starts with "-" exactly for negative numbers, otherwise with a digit |
| JsNumbers.ParseIntOfIntToString | frontend/src/components/charts/components/filter-panel.tsx:75-92 | `parseInt` reads back every integer's `toString` |
| JsNumbers.IntToStringInjective | frontend/src/components/charts/components/filter-panel.tsx:92 | different years render as different option values |
| ClientPagination.TotalPages | frontend/src/components/data-table.tsx:32 | the least page count whose pages hold all rows; zero exactly for no rows |
| ClientPagination.PageSlice | frontend/src/components/data-table.tsx:33-34 | at most ten rows, exactly the rows from `(page - 1) * 10` clamped to the data |
| ClientPagination.HandlePageChange | frontend/src/components/data-table.tsx:37-41 | a page within 1..totalPages is taken; any other request leaves the current page |
| ClientPagination.PageChangeKeepsPageValid | frontend/src/components/data-table.tsx:37-41 | from a valid page every change lands on a valid page; previous on the first and next on the last page stay put |
| ClientPagination.PagesCoverData | frontend/src/components/data-table.tsx:32-34 | the pages 1..totalPages, concatenated, are exactly the data |
| ClientPagination.PushRange | frontend/src/components/data-table.tsx:65-67 | the push loop yields the links lo..hi |
| ClientPagination.GeneratePageNumbers | frontend/src/components/data-table.tsx:44-80 | at most seven entries; empty exactly when there are no pages; otherwise it starts with page 1 and ends with the last page |
| ClientPagination.BuildPageNumbers | frontend/src/components/data-table.tsx:44-80 | at most seven entries; every page 1..totalPages in order when there are at most five; otherwise, for a valid current page, from page 1 to the last page, containing the current page, increasing, with an ellipsis exactly where pages are skipped |
| ClientPagination.FewPagesShowAll | frontend/src/components/data-table.tsx:48-52 | with at most five pages the row is exactly 1..totalPages |
| ClientPagination.AtMostSevenEntries | frontend/src/components/data-table.tsx:44-80 | the row never has more than seven entries |
| ClientPagination.ManyPagesGapsMarked | frontend/src/components/data-table.tsx:53-77 | neighbouring links are consecutive pages and each ellipsis stands between links with a page skipped |
| ClientPagination.ManyPagesShape | frontend/src/components/data-table.tsx:53-77 | the row starts at page 1, ends at the last page, contains the current page and increases; a leading or trailing ellipsis appears exactly when pages are skipped there |
| Dashboard.HandleFilterChange | frontend/src/components/DataDashboard.tsx:134-139 | the named filter takes the value and every other filter is unchanged |
| Dashboard.NarrowAllIsSelect | frontend/src/components/DataDashboard.tsx:98-128 | the sequential filter passes select the records that meet every criterion, in order |
| Dashboard.FilterRecordsExact | frontend/src/components/DataDashboard.tsx:95-131 | the filtered list is a subsequence of the data, holding every record that matches every set filter exactly as often as the data does, and nothing else |
| Dashboard.SelectCounts | frontend/src/components/DataDashboard.tsx:98-128 | the one-pass reference selection keeps each record as often as the data holds it when it meets every criterion, and never otherwise |
| Dashboard.NoFiltersKeepAll | frontend/src/components/DataDashboard.tsx:95-131 | with every filter empty all records are shown |
| Dashboard.MatchesIsHoldsAll | frontend/src/components/DataDashboard.tsx:100-128 | the passes' criteria are exactly the set filters |
| Dashboard.FilterEffect | frontend/src/components/DataDashboard.tsx:95-131 | with no data loaded the shown list is left as it was; otherwise a record is shown exactly when it is in the data and matches every set filter |
| Dashboard.GetFilterOptions | frontend/src/components/DataDashboard.tsx:142-157 | nothing for no data; otherwise strictly ascending and distinct, no empty text, and a text is listed exactly when some record's field renders to it |
| TextOrder.LessTotal | frontend/src/components/DataDashboard.tsx:156 | any two different texts are ordered one way |
| TextOrder.LessTransitive | frontend/src/components/DataDashboard.tsx:156 | the text order is transitive |
| TextOrder.InsertSorted | frontend/src/components/DataDashboard.tsx:145-156 | adding a text to a strictly sorted list keeps it strictly sorted and adds exactly that text |
| Grouping.Rollup | frontend/src/components/charts/TopicChart.tsx:28-32 | distinct keys, no empty group, each key's count equals its number of occurrences, counts sum to the input length |
| Grouping.RollupKeys | frontend/src/components/charts/TopicChart.tsx:28-32 | a key has a group exactly when it occurs in the input |
| Grouping.RollupGroupCount | frontend/src/components/charts/TopicChart.tsx:28-32 | each group counts its key's occurrences and is at least one |
| Grouping.RollupOrder | frontend/src/components/charts/TopicChart.tsx:28-32 | the groups' keys are the input's distinct keys in order of first appearance |
| Grouping.AddKeyOrder | frontend/src/components/charts/TopicChart.tsx:28-32 | counting a key that has a group keeps the order of keys; a new key is appended last |
| TopicChart.ValidTopics | frontend/src/components/charts/TopicChart.tsx:21-23 | each non-empty topic appears as often as records carry it; the empty topic never appears |
| TopicChart.SortByCount | frontend/src/components/charts/TopicChart.tsx:40 | non-increasing counts, distinct keys, the same entries and the same total |
| TopicChart.DropUnknown | frontend/src/components/charts/TopicChart.tsx:39 | exactly the entries not keyed "Unknown" remain |
| TopicChart.ChartData | frontend/src/components/charts/TopicChart.tsx:13-44 | with no records the previous chart stays; with records but none having a topic the chart is cleared; otherwise it is redrawn, exactly when some record has a topic |
| TopicChart.ChartDataProperties | frontend/src/components/charts/TopicChart.tsx:20-44 | at most ten entries with distinct topics other than "Unknown" and "", non-increasing counts, each count the number of records with that topic; the total is the sum and at most the number of records |
| TopicChart.ChartShowsTopTen | frontend/src/components/charts/TopicChart.tsx:35-41 | a counted topic left out means ten topics are shown, each at least as frequent |
| TopicChart.RankedCounts | frontend/src/components/charts/TopicChart.tsx:28-40 | every ranked entry has a real topic, neither "Unknown" nor empty, and counts exactly the records with that topic |
| TopicChart.TotalAtMostRecords | frontend/src/components/charts/TopicChart.tsx:44 | the total never exceeds the number of records |
| TopicChart.FewTopicsAllShown | frontend/src/components/charts/TopicChart.tsx:35-41 | with fewer than ten entries every counted topic is shown |
| YearlyTrend.DerivedYear | frontend/src/components/charts/yearly-trend-chart.tsx:32 | the start year when it is present and non-zero, else the end year when it is present and non-zero, else 0 |
| YearlyTrend.PositiveYearIsValid | frontend/src/components/charts/yearly-trend-chart.tsx:21-37 | a record with a positive derived year always passes the validity filter, which is therefore redundant |
| YearlyTrend.YearKeys | frontend/src/components/charts/yearly-trend-chart.tsx:21-37 | one year per contributing record; each positive year as often as records derive it; no year at or below zero |
| YearlyTrend.SortByYear | frontend/src/components/charts/yearly-trend-chart.tsx:58 | strictly ascending years with the same entries and the same total |
| YearlyTrend.YearlyCounts | frontend/src/components/charts/yearly-trend-chart.tsx:13-27 | with no records the previous chart stays; with records but none having a start or end year the chart is cleared; otherwise it is redrawn, exactly when some record has a year |
| YearlyTrend.YearlyCountsProperties | frontend/src/components/charts/yearly-trend-chart.tsx:20-58 | strictly ascending positive years, each counting exactly its records; the counts sum to the number of contributing records |
| YearlyTrend.EveryYearHasOneGroup | frontend/src/components/charts/yearly-trend-chart.tsx:39-58 | every positive year some record derives has exactly one group |
| ImportData.Normalise | backend/records/management/commands/import_data.py:45-47 | keys unchanged and no value is the empty string afterwards |
| ImportData.NormaliseChangesOnlyEmpty | backend/records/management/commands/import_data.py:45-47 | a value changes if and only if it was "", and then it becomes null |
| ImportData.RemoveCommas | backend/records/management/commands/import_data.py:52-56 | no comma remains and every other character is kept, as often as before |
| ImportData.RemoveCommasIdempotent | backend/records/management/commands/import_data.py:52-56 | removing commas twice is removing them once |
| ImportData.ConvertDate | backend/records/management/commands/import_data.py:50-57 | a missing key fails; a falsy value leaves the row unchanged; a truthy non-string fails; a truthy string fails exactly when the parser raises; on success the keys are unchanged and only the date field may change |
| ImportData.ConvertDateParsed | backend/records/management/commands/import_data.py:50-57 | a non-empty date text, commas removed, is replaced by the parsed time, or by None when it is not shaped like a date; it fails if and only if the parser raises, and the failure is then the bad-date error |
| ImportData.Process | backend/records/management/commands/import_data.py:44-59 | a missing `added` fails with that key error; `added` is converted before `published` is looked at, and a missing `published` fails with its key error; for each date, compared with DateOutcome on the raw value: a falsy value stays ("" as None), a truthy string becomes the parsed time or None, an unparseable one fails with the bad-date error, and a truthy non-string fails with the not-text error; with both dates kept the item builds exactly when all its keys are model fields; a built row keeps the item's keys |
| ImportData.ProcessProperties | backend/records/management/commands/import_data.py:44-59 | a built row keeps the item's keys, all accepted by the model, has both date keys, and every other value is the normalised one; unexpected keys always fail |
| ImportData.WithoutWriteErrorsMembers | backend/records/management/commands/import_data.py:67-68 | dropping the write failures leaves exactly the processing failures |
| ImportData.EffectiveBatchSize | backend/records/management/commands/import_data.py:62 | a write is triggered at the batch size, or at one row when the size is below one |
| ImportData.Step | backend/records/management/commands/import_data.py:42-68 | one item adds exactly its row, if it builds, to the written plus pending rows; batches and errors only grow, by at most one each; a new processing error appears exactly when the item fails |
| ImportData.StepKeepsInvariant | backend/records/management/commands/import_data.py:42-68 | one item keeps the loop invariant: written plus pending rows are the good rows so far, the count matches, errors match |
| ImportData.ImportItems | backend/records/management/commands/import_data.py:38-73 | on completion exactly the good rows were written, in order, and the count is their number; a non-object item crashes with a prefix written; without write failures every batch but the last has exactly the batch size |
| ImportData.FinalWrite | backend/records/management/commands/import_data.py:70-73 | the remainder is written unless the write fails, which crashes with the earlier batches kept |
| ImportData.Handle | backend/records/management/commands/import_data.py:24-73 | a missing file or invalid JSON writes nothing; for a loaded list, a non-object item crashes with a prefix of the good rows written; on completion exactly the good rows were written, the count is their number and the errors are the processing errors plus failed writes; without write failures every batch but the last has exactly the batch size |
| ImportData.Report | backend/records/management/commands/import_data.py:75-85 | the success line; then, when anything failed, the error count, the first ten entries, and a line for the rest exactly when there are more than ten |
| ImportData.ReportAccountsForAllErrors | backend/records/management/commands/import_data.py:80-85 | the entries shown plus the number announced for the rest account for every error exactly once |

## Left out

- Rendering is not modelled. That covers React components, d3 scales, SVG, transitions and tooltips.
- The yearly chart's per-year means of intensity, relevance and likelihood are not modelled; they are floating-point averages. Only the year groups and their counts are.
- Browser and network effects are outside the model:
  - TanStack Router navigation;
  - the TanStack Query cache: the model states key equality structurally, while the library hashes keys as JSON, so `undefined` values drop out there;
  - fetches;
  - the debounced search input.
- The backend API is not modelled: services, views, serializers and `filters.py`.
- JsNumbers.ParseInt: reads integers only. Double rounding of long digit strings and `-0` are not modelled.
- JsNumbers.IntToString: exact for all integers. It does not model the exponent notation JavaScript uses beyond 10^21.
- TextOrder.Less: compares code points. JavaScript's default sort compares UTF-16 code units, so the two differ only for characters outside the Basic Multilingual Plane.
- RecordsPage.SortingStateOf: only handles text values of `ordering`. RecordsPage.PaginationStateOf: only handles numeric values of `page` and `page_size`. Values of other types, which the router could pass through, are not modelled.
- Filter changes do not reset `page`: the merge keeps every key the change does not name (Filters.SetFiltersKeepsPage).
- TopicChart.SortByCount: the descending count sort is modelled as a stable insertion sort. Its stability is not stated as a property.
- ImportData.Handle: the top-level JSON value is modelled as a list of items. The model does not cover a top-level object, whose iteration yields its keys, or a scalar.
- JSON numbers are integers in the model. Floats are not modelled.
- `parse_datetime` is a parameter. Its outcomes are a timestamp, no match (None) or ValueError.
- Whether `bulk_create` fails is a parameter, a function of the batch only. Validation of field types happens there, not in the model constructor.
- The text of exceptions (`str(e)`) is modelled by the failure kind only.
- ClientPagination.Layout, ManyPagesGapsMarked, ManyPagesShape: these assume a current page between 1 and the page count. The page starts at 1 and `handlePageChange` only moves it within that range.
