# Daily report row shaping

A model of the part of the factory ERP's daily report that turns report
data into table rows: the production and pending report page
(`Dailyreport.jsx`) and its three export components (`Processexport.jsx`,
`Pendingexport.jsx`, `Groupexport.jsx`). The model covers:

- the three name cleaners:
  - the report page's allow-list cleaner;
  - the process and pending exports' four-pass deny-list cleaner;
  - the group export's ASCII allow-list cleaner;
- the relative "last activity" text;
- the summary and details row shaping of the production report: the
  `Total` row held back and appended, Proofreading processes first, and
  projects loaded on expansion;
- the expansion and sort state of the page;
- `groupCatchDetails`, including the property order of `Object.entries`;
- the pending catch matrix, on screen and in the exports;
- the PDF and spreadsheet row tables of all three exports, with their total
  highlighting, row types, header rows and merges.

Modules, one file each:

- `Common`: `Option`, table cells, number rendering.
- `JsText`: JavaScript whitespace, `trim`, `\s+` collapsing, `toLowerCase`
  on ASCII, `includes`, `substring`.
- `Names`: the three cleaners.
- `TimeAgo`: `getTimeAgo`.
- `StableSort`: `Array.prototype.sort` with a consistent comparator, which
  is a stable sort.
- `Concat`: row tables built block by block.
- `Catches`: catch records, `groupCatchDetails`, the catch comparators.
- `ReportRows`: the row shaping of the production report and of loaded
  projects.
- `ReportView`: the page state, as a class whose methods are the event
  handlers.
- `CatchMatrix`: the catch matrix laid out two columns per process.
- `ExportRows`: the summary tables shared by the process and group exports.
- `ProcessExport`, `PendingExport` and `GroupExport`: one per export
  component.

JavaScript values that may be missing are `Option`s, or `Raw` values
(`undefined`, `null`, a string or a number) where the source converts them
with `String(...)`. Table cells are strings or numbers, and an empty cell is
`Str("")`. The current time, the REST responses and the lookup tables of
names are parameters.

## Model

| member | source | states |
|---|---|---|
| Common.OrZero | src/pages/Report/Dailyreport.jsx:287-290 | `x \|\| 0` on a number that may be missing: the value when present, else 0 |
| Common.NatToString | src/pages/Report/Dailyexport/Pendingexport.jsx:204 | the decimal rendering of a number is non-empty, all digits, and one digit long exactly for numbers below 10 |
| Common.IntToString | src/pages/Report/Dailyexport/Pendingexport.jsx:204 | a non-empty rendering that starts with `-` exactly for negative numbers |
| Common.NatToStringValue | src/pages/Report/Dailyexport/Pendingexport.jsx:204 | the rendering reads back as the number: its decimal value is `n`, with no leading zero |
| Common.IntToStringValue | src/pages/Report/Dailyexport/Pendingexport.jsx:204 | the signed rendering reads back as the number, negatives included |
| JsText.DropSpaces | src/pages/Report/Dailyreport.jsx:21 | the start of `trim`: the result is a suffix, everything dropped is JavaScript whitespace, and the result does not start with whitespace |
| JsText.DropTrailingSpaces | src/pages/Report/Dailyreport.jsx:21 | the end of `trim`: a prefix, everything dropped is whitespace, and the result does not end with whitespace |
| JsText.CollapseShape | src/pages/Report/Dailyreport.jsx:20 | `replace(/\s+/g, ' ')` leaves only plain spaces, never two in a row, and starts with a space only where the input started with whitespace |
| JsText.CollapseTrim | src/pages/Report/Dailyreport.jsx:20-21 | collapsing then trimming gives a normalized string (no leading, trailing or double space, no other whitespace) that keeps every non-space character in order |
| JsText.CollapseSplit | src/pages/Report/Dailyreport.jsx:20 | a whitespace run between two visible characters becomes exactly one space and each side collapses on its own |
| JsText.TrimCollapseSplit | src/pages/Report/Dailyreport.jsx:20-21 | after collapse and trim, a whitespace run between two words is exactly one space joining the two sides cleaned on their own |
| JsText.TrimCollapseLeading | src/pages/Report/Dailyreport.jsx:20-21 | leading whitespace leaves no trace after collapse and trim |
| JsText.TrimCollapseTrailing | src/pages/Report/Dailyreport.jsx:20-21 | trailing whitespace leaves no trace after collapse and trim |
| JsText.TrimVisible | src/pages/Report/Dailyreport.jsx:21 | `trim` removes only whitespace |
| JsText.CollapseVisible | src/pages/Report/Dailyreport.jsx:20 | collapsing whitespace keeps every non-whitespace character in order |
| JsText.NormalizedFixed | src/pages/Report/Dailyreport.jsx:20-21 | on a normalized string, collapse-then-trim changes nothing |
| JsText.CollapseTrimAll | src/pages/Report/Dailyreport.jsx:20-21 | collapse-then-trim introduces no character other than the space |
| JsText.Lower | src/pages/Report/Dailyreport.jsx:248 | ASCII case mapping: same length, each character mapped on its own, ASCII capitals to small letters; equal to `toLowerCase` as far as the searches for `total` and `proofreading` can tell |
| JsText.IncludesAt | src/pages/Report/Dailyreport.jsx:248 | `includes` holds whenever the pattern occurs at some position |
| JsText.IncludesWhere | src/pages/Report/Dailyreport.jsx:248 | conversely, when `includes` holds it names a position where the pattern occurs |
| JsText.LexIrreflexive | src/pages/Report/Dailyreport.jsx:2147-2148 | the string order used for `localeCompare` never puts a string before itself |
| JsText.LexTransitive | src/pages/Report/Dailyreport.jsx:2147-2148 | that order is transitive |
| JsText.LexTotal | src/pages/Report/Dailyreport.jsx:2147-2148 | any two different strings are ordered one way or the other |
| JsText.JoinComma | src/pages/Report/Dailyexport/Groupexport.jsx:278-280 | `join(', ')` of no items is empty and of one item is that item |
| JsText.JoinCommaSnoc | src/pages/Report/Dailyexport/Groupexport.jsx:278-280 | joining one more item appends `, ` and that item, so the items appear in order, each pair separated by `, ` |
| JsText.Prefix | src/pages/Report/Dailyexport/Groupexport.jsx:452 | `substring(0, n)` is a prefix of at most `n` characters, the whole string when it is short enough, and exactly `n` otherwise |
| Names.JsString | src/pages/Report/Dailyexport/Groupexport.jsx:10-12 | `String(v)` of a string is the string, and a truthy value never converts to the empty string |
| Names.Without | src/pages/Report/Dailyexport/Processexport.jsx:32-36 | the character filter leaves none of the removed characters |
| Names.WithoutNone | src/pages/Report/Dailyexport/Processexport.jsx:32-36 | a filter that finds nothing to remove returns its input |
| Names.KeepReportChars | src/pages/Report/Dailyreport.jsx:17 | `replace(/[^\w\s-()]/g, '')` keeps only word characters, whitespace, `-`, `(` and `)` |
| Names.CleanReportName | src/pages/Report/Dailyreport.jsx:10-23 | the report page's `cleanName`: empty for a falsy name, otherwise only allowed characters, no percent sign of either width, and normalized spacing |
| Names.CleanReportNameIdempotent | src/pages/Report/Dailyreport.jsx:10-23 | cleaning a cleaned name changes nothing |
| Names.CleanReportNameKeepsVisible | src/pages/Report/Dailyreport.jsx:14-21 | the non-space characters of the result are those that survive the two filters, in order |
| Names.CleanReportNameWords | src/pages/Report/Dailyreport.jsx:10-23 | whitespace between two kept words becomes exactly one space, each side cleaned on its own |
| Names.CleanReportNameKeepsCleanName | src/pages/Report/Dailyreport.jsx:10-23 | a non-empty name of allowed characters with normalized spacing comes back unchanged |
| Names.CleanGroupName | src/pages/Report/Dailyexport/Groupexport.jsx:9-15 | the group export's `cleanName` keeps only ASCII letters, digits, `-`, `(`, `)` and single inner spaces |
| Names.CleanGroupNameIdempotent | src/pages/Report/Dailyexport/Groupexport.jsx:9-15 | cleaning a cleaned group name changes nothing |
| Names.CleanGroupNameKeepsCleanName | src/pages/Report/Dailyexport/Groupexport.jsx:9-15 | a name already in the allowed alphabet with normalized spacing comes back unchanged |
| Names.CleanGroupNameWords | src/pages/Report/Dailyexport/Groupexport.jsx:9-15 | whitespace between two kept words becomes exactly one space, each side cleaned on its own |
| Names.CleanGroupNameOfMissing | src/pages/Report/Dailyexport/Groupexport.jsx:10-12 | unlike the other cleaners, the group cleaner turns a missing name into the text `null` or `undefined` |
| Names.GroupDropsUnderscore | src/pages/Report/Dailyexport/Groupexport.jsx:14 | the same name `a_b` survives the report cleaner whole but loses its underscore in the group cleaner |
| Names.RemovePercentWordAll | src/pages/Report/Dailyexport/Processexport.jsx:26 | deleting the word `percent` introduces no new character |
| Names.CleanExportName | src/pages/Report/Dailyexport/Processexport.jsx:9-53 | the process and pending exports' `cleanName`: empty for a falsy name, otherwise the first pass, with no `%`, `％`, `¥` or `＄` left and normalized spacing |
| Names.PassesAfterFirstChangeNothing | src/pages/Report/Dailyexport/Processexport.jsx:31-48 | passes 2, 3 and 4 never change what pass 1 returns |
| Names.CleanExportNameKeepsVisible | src/pages/Report/Dailyexport/Processexport.jsx:18-30 | the non-space characters of the result are those left after removing the symbols and then the word `percent` |
| Names.CleanExportNameWords | src/pages/Report/Dailyexport/Processexport.jsx:17-47 | whitespace between two kept words becomes exactly one space, each side cleaned on its own |
| Names.CleanExportNameKeepsCleanName | src/pages/Report/Dailyexport/Processexport.jsx:9-53 | a normalized name without the symbols and without the word `percent` comes back unchanged |
| Names.CleanExportNameNotIdempotent | src/pages/Report/Dailyexport/Processexport.jsx:26 | `perpercentcent` cleans to `percent`, which cleans to the empty string: the export cleaner is not idempotent |
| Names.PercentCleansToEmpty | src/pages/Report/Dailyexport/Processexport.jsx:26 | a name that is just `percent` cleans to the empty string |
| Names.CleanExportNameSymbolsFirst | src/pages/Report/Dailyexport/Processexport.jsx:20-26 | the symbols go before the word: `per%cent` cleans to the empty string |
| TimeAgo.Elapsed | src/pages/Report/Dailyexport/Pendingexport.jsx:77-99 | a non-negative difference is either `Just now` or a count of at least 1 of some unit |
| TimeAgo.Classify | src/pages/Report/Dailyexport/Pendingexport.jsx:69-75 | no result exactly when there is no stamp, `Future` exactly when the stamp is later than now, and an unparseable stamp reads as `Just now` |
| TimeAgo.Render | src/pages/Report/Dailyexport/Pendingexport.jsx:86-99 | empty only for no stamp; otherwise a count, a unit, an `s` when the count exceeds 1, and ` ago` |
| TimeAgo.GetTimeAgo | src/pages/Report/Dailyreport.jsx:36-68 | the text is empty exactly when the stamp is missing, and `Future` for a stamp later than now |
| TimeAgo.ElapsedThresholds | src/pages/Report/Dailyexport/Pendingexport.jsx:77-99 | which unit is chosen for which range of elapsed time (a minute, an hour, a day, 7, 31 and 366 days), and the counts of the exact units |
| TimeAgo.RankMonotone | src/pages/Report/Dailyexport/Pendingexport.jsx:86-99 | a longer elapsed time never gets a smaller unit |
| TimeAgo.PluralRule | src/pages/Report/Dailyexport/Pendingexport.jsx:87-97 | the text ends in ` ago` and the unit carries an `s` exactly when the count exceeds 1 |
| StableSort.SortByPermutes | src/pages/Report/Dailyreport.jsx:244-254 | sorting is a permutation |
| StableSort.SortBySorted | src/pages/Report/Dailyreport.jsx:244-254 | with a strict weak order the result is sorted |
| StableSort.SortByStable | src/pages/Report/Dailyreport.jsx:244-254 | equal items keep their relative order |
| StableSort.SortTwoClass | src/pages/Report/Dailyreport.jsx:244-254 | the "matching items first" comparator puts the matching items first and the rest after, each in original order |
| StableSort.SelectAppend | src/pages/Report/Dailyreport.jsx:241 | `filter` distributes over concatenation |
| StableSort.SelectSplit | src/pages/Report/Dailyreport.jsx:240-241 | an item passes a filter or its negation, so the two filtered lists together are a permutation of the whole |
| Catches.NumberObject.Put | src/pages/Report/Dailyexport/Pendingexport.jsx:61-62 | assigning a property: a new key goes to the end of the insertion order, an existing key keeps its place |
| Catches.NumberObject.Entries | src/pages/Report/Dailyexport/Pendingexport.jsx:64 | `Object.entries` lists every own key once |
| Catches.OwnKeysPermutes | src/pages/Report/Dailyexport/Pendingexport.jsx:64 | the property order is a permutation of the insertion order |
| Catches.OwnKeysOrder | src/pages/Report/Dailyexport/Pendingexport.jsx:64 | array-index keys come first, in ascending numeric order, and the other keys follow in insertion order |
| Catches.GroupCatchDetails | src/pages/Report/Dailyexport/Pendingexport.jsx:56-65 | the `forEach` loop over a plain object yields the grouping function |
| Catches.EntriesGrouped | src/pages/Report/Dailyexport/Pendingexport.jsx:57-64 | the object the loop fills, listed by `Object.entries`, is one entry per catch number with its summed quantity |
| Catches.GroupedKeys | src/pages/Report/Dailyexport/Pendingexport.jsx:56-65 | the grouped catch numbers are exactly the non-empty catch numbers, each once, each with a quantity |
| Catches.GroupedEntries | src/pages/Report/Dailyexport/Pendingexport.jsx:56-65 | each grouped entry carries the sum of `quantity \|\| 0` over the records with its catch number |
| Catches.GroupedConserves | src/pages/Report/Dailyexport/Pendingexport.jsx:56-65 | grouping conserves the total quantity of the records that have a catch number |
| Catches.UnseenSumsZero | src/pages/Report/Dailyexport/Pendingexport.jsx:60 | a catch number that never occurs sums to 0 |
| Catches.SumForPermutation | src/pages/Report/Dailyreport.jsx:2140-2154 | reordering the records does not change any catch number's sum |
| Catches.CatchNumbersPermutation | src/pages/Report/Dailyreport.jsx:2140-2154 | reordering the records does not change the set of catch numbers |
| Catches.Grouped | src/pages/Report/Dailyexport/Pendingexport.jsx:56-65 | one entry per distinct non-empty catch number seen, each an input catch number carrying the sum for that number |
| Catches.CatchOrderDirections | src/pages/Report/Dailyreport.jsx:2144-2152 | `CatchOrder`: descending is ascending with the arguments swapped; ascending compares catch numbers as strings, or quantities with a missing one read as 0 |
| Catches.CatchOrderIsStrictWeak | src/pages/Report/Dailyreport.jsx:2144-2152 | each of the four catch comparators (catch number or quantity, ascending or descending) is a strict weak order, so the sort is well defined |
| ReportRows.FindName | src/pages/Report/Dailyreport.jsx:171 | `find` by id: nothing exactly when no entry has the id, otherwise the name of an entry with that id |
| ReportRows.DisplayName | src/pages/Report/Dailyreport.jsx:169-188 | `getProcessName` and its siblings: `N/A` for a falsy id, otherwise a cleaned name |
| ReportRows.ProcessName | src/pages/Report/Dailyreport.jsx:169-173 | the Total key matches no process and shows as `Process Total`; id 0 shows `N/A`; any other name is cleaned |
| ReportRows.FallbackNameKept | src/pages/Report/Dailyreport.jsx:172 | an id that is not in the list shows as the fallback `Process 12` and so on, unchanged by the cleaner |
| ReportRows.FindFirst | src/pages/Report/Dailyreport.jsx:240 | `find` returns the first item that matches, or nothing |
| ReportRows.ShapeSummary | src/pages/Report/Dailyreport.jsx:238-265 | the summary rows are the non-total items, Proofreading first, then the first `Total` item relabelled `TOTAL`, when there is one |
| ReportRows.SummaryOrderPermutes | src/pages/Report/Dailyreport.jsx:241-254 | the summary body is a permutation of the non-total items and holds no total item |
| ReportRows.ZeroFilled | src/pages/Report/Dailyreport.jsx:287-290 | every count is present afterwards and has the value `x \|\| 0` |
| ReportRows.DetailsRows | src/pages/Report/Dailyreport.jsx:284-297 | one details row per item, in order |
| ReportRows.ShapeDetails | src/pages/Report/Dailyreport.jsx:279-303 | one details row per non-total item, and no row for the Total key |
| ReportRows.ShapeDetailsOrder | src/pages/Report/Dailyreport.jsx:279-303 | the details rows are the non-total items, Proofreading first, each part in original order, and a permutation of the unsorted rows |
| ReportRows.ShapeDetailsFresh | src/pages/Report/Dailyreport.jsx:284-297 | every fresh details row has no projects, is not marked loaded and has every count present |
| ReportRows.ProjectLabel | src/pages/Report/Dailyreport.jsx:495 | a project's label is a cleaned name |
| ReportRows.ProjectRows | src/pages/Report/Dailyreport.jsx:536-546 | one project row per response item, in order, with the mapped name, and zero-filled counts for the pending report |
| ReportRows.WithProjects | src/pages/Report/Dailyreport.jsx:490-505 | only the row of the given process changes, only when the response is a non-empty list, and it becomes loaded; other rows, keys and counts are unchanged |
| ReportRows.ShowVal | src/pages/Report/Dailyreport.jsx:900 | `showVal`: blank exactly for 0 or a missing value, otherwise the number |
| ReportView.KeySeq | src/pages/Report/Dailyreport.jsx:607 | the process ids of the rows, in order |
| ReportView.KeySetMembers | src/pages/Report/Dailyreport.jsx:607 | the id set holds exactly the ids of the rows |
| ReportView.LoadAll | src/pages/Report/Dailyreport.jsx:606-627 | loading the listed processes one after another yields the specification of the combined load |
| ReportView.ExpandAllLoads | src/pages/Report/Dailyreport.jsx:608-614 | after "expand all", every process whose load was answered is loaded, and rows that were loaded already are untouched |
| ReportView.NextSort | src/pages/Report/Dailyreport.jsx:2104-2125 | clicking a header always sorts by that column |
| ReportView.NextSortCycle | src/pages/Report/Dailyreport.jsx:2104-2125 | clicking the current column flips the direction, and twice restores it; clicking another column gives ascending, then descending |
| ReportView.ReportState.constructor | src/pages/Report/Dailyreport.jsx:72-131 | the initial state: the production tab, nothing loaded or expanded, and pending catches by quantity, descending |
| ReportView.ReportState.HandleTabChange | src/pages/Report/Dailyreport.jsx:448-467 | switching tabs selects the new tab, clears the production and pending data and collapses every process row; the group and pending-detail state is kept |
| ReportView.ReportState.ToggleProcessExpansion | src/pages/Report/Dailyreport.jsx:565-593 | the id toggles in the expanded set; on expanding, projects are fetched exactly when the active tab's row exists and is not loaded; nothing else changes |
| ReportView.ReportState.ToggleExpandAllProcesses | src/pages/Report/Dailyreport.jsx:595-630 | collapse all clears the set; expand all sets it to every process id (non-total ones on the pending tab) and loads the unloaded rows; another tab changes nothing |
| ReportView.ReportState.FetchProjectsForGroup | src/pages/Report/Dailyreport.jsx:658-683 | a list response is stored under process and group, keeping the other groups; a failure changes nothing |
| ReportView.ReportState.ToggleGroupProjectExpansion | src/pages/Report/Dailyreport.jsx:685-698 | the group toggles in its process's set, other processes are unchanged, and projects are fetched only when expanding a group with nothing cached |
| ReportView.ReportState.ClickSortHeader | src/pages/Report/Dailyreport.jsx:2104-2125 | the sort state moves to its next value; nothing else changes |
| ReportView.ReportState.ResetPendingFilters | src/pages/Report/Dailyreport.jsx:855-867 | a filter change clears the pending data and expansions and restores quantity, descending |
| CatchMatrix.MaxLen | src/pages/Report/Dailyreport.jsx:2178 | `Math.max` of the list lengths: at least every length, attained by one list, and 0 when there are no lists |
| CatchMatrix.Layout | src/pages/Report/Dailyreport.jsx:2178-2193 | `maxRows` rows of two cells per process; row `i` holds a process's `i`-th entry, or two blanks past the end of its list |
| CatchMatrix.BodyRows | src/pages/Report/Dailyexport/Pendingexport.jsx:232-245 | the export's row loop builds the matrix layout |
| CatchMatrix.BodyRow | src/pages/Report/Dailyexport/Pendingexport.jsx:235-243 | one turn of the loop builds one row of the layout |
| CatchMatrix.QuantityCell | src/pages/Report/Dailyreport.jsx:2186-2206 | the booklet screen shows a number, 0 when missing; the paper screen shows the decimal text, `null` exactly when missing; the exports leave the cell blank exactly for 0 or missing |
| CatchMatrix.ScreenBody | src/pages/Report/Dailyreport.jsx:2155-2211 | the screen table has as many rows as the longest shown list, two cells per process; row `i` holds entry `i` of each shown list (a number for booklets, text for paper) or two blanks past its end |
| CatchMatrix.ScreenLists | src/pages/Report/Dailyreport.jsx:2140-2177 | each process's list on screen is its own sorted list, grouped first for booklets |
| CatchMatrix.ExportListOrder | src/pages/Report/Dailyexport/Pendingexport.jsx:227-231 | the export list is sorted by quantity, descending, a permutation of the grouped list, and keeps the order of equal quantities |
| CatchMatrix.BookletEntries | src/pages/Report/Dailyreport.jsx:2155-2177 | a booklet column lists each catch number once with its summed quantity, sorted by the chosen column and direction |
| ExportRows.Clean | src/pages/Report/Dailyexport/Processexport.jsx:114 | either export's cleaner returns normalized text |
| ExportRows.Line | src/pages/Report/Dailyexport/Processexport.jsx:124-130 | a count row has five cells and shows its name first |
| ExportRows.ShownLabel | src/pages/Report/Dailyexport/Processexport.jsx:185-194 | a highlighted row shows `Total` in its first cell, any other row shows its own label |
| ExportRows.TotalLabelIsTotal | src/pages/Report/Dailyexport/Processexport.jsx:118-123 | the label `Total` counts as a total name and is highlighted |
| ExportRows.HighlightedIsTotalName | src/pages/Report/Dailyexport/Processexport.jsx:182-196 | `Highlighted` (the `didParseCell` rule) is narrower than `IsTotalName` (the summary filter): a highlighted row's label always mentions `total` |
| ExportRows.TotalNameNotHighlighted | src/pages/Report/Dailyexport/Processexport.jsx:112-123 | strictly narrower: any name ending in `Total` after a visible first character (`Grand Total`, `SubTotal`) is held back as a total, yet its own row is not highlighted |
| ExportRows.CleanNameNotHighlighted | src/pages/Report/Dailyexport/Processexport.jsx:185-186 | a trimmed name that does not mention `total` is never highlighted |
| ExportRows.LastMatchFacts | src/pages/Report/Dailyexport/Processexport.jsx:112-123 | the last matching item: none exactly when nothing matches, otherwise a match with no match after it |
| ExportRows.SummaryLines | src/pages/Report/Dailyexport/Processexport.jsx:370-382 | one count row per item, in order |
| ExportRows.SummaryTable | src/pages/Report/Dailyexport/Processexport.jsx:110-133 | the loop leaves the non-total rows followed by the held-back total row |
| ExportRows.SummaryTotalLast | src/pages/Report/Dailyexport/Processexport.jsx:112-123 | a total row is appended exactly when some item is a total, and it carries the counts of the last such item |
| ExportRows.SummaryBodyNotTotal | src/pages/Report/Dailyexport/Processexport.jsx:115-130 | no body row's name mentions `total` |
| ExportRows.SummaryHighlight | src/pages/Report/Dailyexport/Processexport.jsx:182-196 | in a summary PDF the only highlighted row is the appended total row |
| ProcessExport.DetailsPdf | src/pages/Report/Dailyexport/Processexport.jsx:222-263 | the loop builds the non-total blocks followed by the total row, with one row type per row |
| ProcessExport.EmitBlock | src/pages/Report/Dailyexport/Processexport.jsx:237-257 | a process row typed `process` followed by its indented project rows typed `project` |
| ProcessExport.Block | src/pages/Report/Dailyexport/Processexport.jsx:237-257 | a block has one row for the process and one per project |
| ProcessExport.BlockLabels | src/pages/Report/Dailyexport/Processexport.jsx:237-257 | a block names its cleaned process first, then each project, in order, behind the indent |
| ProcessExport.DetailsExcelData | src/pages/Report/Dailyexport/Processexport.jsx:440-470 | the details sheet rows are every process's block, unindented and with total processes kept |
| ProcessExport.BlockInPlace | src/pages/Report/Dailyexport/Processexport.jsx:226-258 | each kept process's block appears whole, right after the blocks of the kept processes before it |
| ProcessExport.BlocksLength | src/pages/Report/Dailyexport/Processexport.jsx:440-470 | the sheet holds one row per process plus one per project |
| ProcessExport.DetailsPdfTypesAgree | src/pages/Report/Dailyexport/Processexport.jsx:224-262 | there is one row type per row, and a row is typed `project` exactly when it is indented |
| ProcessExport.DetailsPdfHighlight | src/pages/Report/Dailyexport/Processexport.jsx:312-333 | a highlighted row is a project row or the final total row, and the total row, when present, is highlighted |
| ProcessExport.WriteSheet | src/pages/Report/Dailyexport/Processexport.jsx:349-391 | title, optional date range, an empty row, the two header rows and the data; merges for the header cells |
| ProcessExport.SheetHeaders | src/pages/Report/Dailyexport/Processexport.jsx:361-367 | the header rows sit at the merge row, `Process` over a blank, `Paper` and `Booklet` each followed by a blank, and the data right after them |
| ProcessExport.HeaderMerges | src/pages/Report/Dailyexport/Processexport.jsx:387-391 | three merges, all starting on the first header row and staying inside the two header rows and five columns |
| ProcessExport.MergesCoverHeaders | src/pages/Report/Dailyexport/Processexport.jsx:387-391 | each merge starts on a header label and swallows only blank header cells |
| ProcessExport.SummaryExcel | src/pages/Report/Dailyexport/Processexport.jsx:342-407 | the summary sheet lists every item's count row, total rows included and in place |
| ProcessExport.DetailsExcel | src/pages/Report/Dailyexport/Processexport.jsx:410-495 | the details sheet lists every process block under the same heading |
| PendingExport.ProcessHeadingFirstLine | src/pages/Report/Dailyexport/Pendingexport.jsx:182-188 | the heading starts with the cleaned name, which contains no line break, and continues with a new line exactly when there is a last activity stamp |
| PendingExport.CountsHeadingSplits | src/pages/Report/Dailyexport/Pendingexport.jsx:204 | the count heading is the catch count, a single `/`, then the quantity |
| PendingExport.PdfHeadRow1 | src/pages/Report/Dailyexport/Pendingexport.jsx:180-198 | one heading cell per process, spanning two columns |
| PendingExport.PdfHeadRow2 | src/pages/Report/Dailyexport/Pendingexport.jsx:200-214 | one count cell per process, spanning two columns |
| PendingExport.PdfHeadRow3 | src/pages/Report/Dailyexport/Pendingexport.jsx:216-223 | `Catch`, `Quantity` alternating, two per process |
| PendingExport.SpanOfUniform | src/pages/Report/Dailyexport/Pendingexport.jsx:187-205 | cells of equal span cover that span times their number of columns |
| PendingExport.ExportLists | src/pages/Report/Dailyexport/Pendingexport.jsx:227-231 | each process's list is its grouped catches sorted by quantity, descending |
| PendingExport.SortedData | src/pages/Report/Dailyexport/Pendingexport.jsx:227-231 | the `map` builds those lists |
| PendingExport.PdfTable | src/pages/Report/Dailyexport/Pendingexport.jsx:180-250 | the three header rows and the catch matrix of the sorted lists |
| PendingExport.PdfColumnsAgree | src/pages/Report/Dailyexport/Pendingexport.jsx:180-245 | all three header rows and every body row cover two columns per process |
| PendingExport.PdfInfoLines | src/pages/Report/Dailyexport/Pendingexport.jsx:153-175 | one PDF line per filter that is set, date first and lot last, the same filters the sheet lists under its title |
| PendingExport.WritePdfInfo | src/pages/Report/Dailyexport/Pendingexport.jsx:153-175 | line `i` is written at height 30 + 8i, and the table starts 8 below the last line |
| PendingExport.SheetInfoRows | src/pages/Report/Dailyexport/Pendingexport.jsx:304-322 | the title, then one row for each of date range, group, project and lot that is present |
| PendingExport.SheetTop | src/pages/Report/Dailyexport/Pendingexport.jsx:304-354 | the three header rows follow the title block and an empty row |
| PendingExport.WriteTop | src/pages/Report/Dailyexport/Pendingexport.jsx:304-354 | the writes build the rows above the body, and `currentRow` ends one past them |
| PendingExport.WriteBody | src/pages/Report/Dailyexport/Pendingexport.jsx:358-376 | the body is the catch matrix, and `maxRows` is its height |
| PendingExport.Sheet | src/pages/Report/Dailyexport/Pendingexport.jsx:297-396 | the whole sheet, two columns of width 15 per process, and merges on the two heading rows |
| PendingExport.ColumnWidths | src/pages/Report/Dailyexport/Pendingexport.jsx:379-383 | two widths of 15 per process |
| PendingExport.HeaderMergesAt | src/pages/Report/Dailyexport/Pendingexport.jsx:387-395 | each process gets a merge of its two columns in header row 1 and one in header row 2 |
| PendingExport.HeaderMerges | src/pages/Report/Dailyexport/Pendingexport.jsx:386-396 | the loop over `colIndex` builds those merges at `currentRow - maxRows - 4` |
| PendingExport.MergesCoverHeadings | src/pages/Report/Dailyexport/Pendingexport.jsx:328-395 | every merge covers exactly one heading cell and the blank beside it |
| GroupExport.FormatCellValue | src/pages/Report/Dailyexport/Groupexport.jsx:46-48 | blank exactly for 0 or a missing value, otherwise the number |
| GroupExport.FormatCellValueIsShowVal | src/pages/Report/Dailyexport/Groupexport.jsx:46-48 | the export's cell rule is the page's `showVal` |
| GroupExport.SummaryPdf | src/pages/Report/Dailyexport/Groupexport.jsx:102-126 | the non-total rows followed by the held-back total row, named by the group cleaner |
| GroupExport.SummaryExcel | src/pages/Report/Dailyexport/Groupexport.jsx:344-389 | the heading rows, then the same rows as the summary PDF |
| GroupExport.SummaryExcelTotalLast | src/pages/Report/Dailyexport/Groupexport.jsx:358-429 | below the heading, only the last row of the sheet is a total row, and the sheet has one row per non-total item plus the total |
| GroupExport.IsAnyExpanded | src/pages/Report/Dailyexport/Groupexport.jsx:67-82 | the loops find an expanded process, group or project exactly when one exists |
| GroupExport.ListText | src/pages/Report/Dailyexport/Groupexport.jsx:278-280 | `None` for a missing or empty list, the item itself for one item, and for more the items joined in order with `, ` |
| GroupExport.PdfCatchTextPlain | src/pages/Report/Dailyexport/Groupexport.jsx:278-288 | the catch cell lists the booklet catches, the paper catches and the lots on three lines, `None` for an empty list |
| GroupExport.EmitProject | src/pages/Report/Dailyexport/Groupexport.jsx:265-297 | a project row, then its catch row when that is shown and loaded |
| GroupExport.EmitGroup | src/pages/Report/Dailyexport/Groupexport.jsx:252-298 | a group row, then the blocks of its shown projects |
| GroupExport.EmitProcess | src/pages/Report/Dailyexport/Groupexport.jsx:240-299 | a process row, then the blocks of its shown groups |
| GroupExport.DetailsPdf | src/pages/Report/Dailyexport/Groupexport.jsx:224-300 | the table body is the outline of every non-total process |
| GroupExport.ProjectBlockKinds | src/pages/Report/Dailyexport/Groupexport.jsx:265-297 | a project block holds its project row and a catch row exactly when the project is shown (nothing expanded, or it is expanded) and its lists are loaded |
| GroupExport.GroupBlockKinds | src/pages/Report/Dailyexport/Groupexport.jsx:252-274 | a group block holds its group row and the rows of all its projects when nothing is expanded or the group is, and none otherwise |
| GroupExport.ProcessBlockKinds | src/pages/Report/Dailyexport/Groupexport.jsx:240-261 | a process block holds its process row and the rows of its groups when nothing is expanded or the process is, and none otherwise |
| GroupExport.OutlineProcesses | src/pages/Report/Dailyexport/Groupexport.jsx:236-247 | the process rows of the table are the non-total processes, in order |
| GroupExport.NothingExpandedShowsAll | src/pages/Report/Dailyexport/Groupexport.jsx:249-276 | with nothing expanded every loaded group, project and catch list is exported |
| GroupExport.PdfRow | src/pages/Report/Dailyexport/Groupexport.jsx:240-297 | a row covers the five columns: the name (a group's behind a space) and four counts, or the catch text as one cell with `colSpan: 5` |
| GroupExport.SheetRow | src/pages/Report/Dailyexport/Groupexport.jsx:469-522 | six single cells, the first naming the level |
| GroupExport.PdfRowShapes | src/pages/Report/Dailyexport/Groupexport.jsx:240-297 | every PDF row covers the five columns: five cells, or for a catch row one cell spanning all five that holds the catch text |
| GroupExport.SheetRowLevels | src/pages/Report/Dailyexport/Groupexport.jsx:469-522 | sheet rows have six cells, and the first names the level: `Process`, `Group`, `Project` or `Catch Lists` |
| GroupExport.ProcessSheetShape | src/pages/Report/Dailyexport/Groupexport.jsx:449-477 | the sheet name is the cleaned process name cut to 31 characters, and the process row follows the heading |
| GroupExport.DetailsExcel | src/pages/Report/Dailyexport/Groupexport.jsx:440-598 | one sheet per process, in order, each built by the same rule |

## Left out

- The REST calls, `Promise.all`, `setTimeout`, loading flags and
  `console.log`. Responses are parameters. A failed request is a missing
  response.
- The jsPDF and XLSX calls themselves: fonts, colours, column widths of the
  process and group sheets, cell styles, file names with timestamps, and
  where the workbook is written. The model keeps the rows, the row types,
  the headers, the merges and the highlight decision.
- Dates: `formatDisplayDate`, `toLocaleDateString` and `new Date()`. The
  date range is a string parameter. The current time and the stamps are
  milliseconds, or `Unparseable` for a string `Date` cannot read.
- TimeAgo.Elapsed: months and years use exact integer division (days × 25
  / 761 and days × 4 / 1461). These equal division by 30.44 and 365.25,
  but floating point rounding is not modelled.
- JsText.Lower: only ASCII capitals are mapped, while `toLowerCase` maps
  every Unicode capital (`İ` even becomes two characters). The model uses it
  only to search for `total` and `proofreading` and to compare with
  `total`, and no non-ASCII character lower-cases into a letter of those
  words followed by nothing else: the Kelvin sign becomes `k`, which they do
  not contain, and `İ` becomes `i` plus a combining dot, which breaks the
  word. So every such test gives the same answer.
- Catches.NumberObject: the grouping objects (`groupCatchDetails` and the
  booklet `catchMap`) are plain `{}` objects, modelled as empty maps.
  Catch numbers are assumed not to name an `Object.prototype` member. For
  `constructor` the inherited function makes `!map[k]` false, and for
  `__proto__` the prototype setter swallows the assignment; in both cases
  the source does not produce one entry for that catch number.
- Catches.CatchOrder: `localeCompare` is modelled as code-point
  lexicographic order, because locale collation is not specified.
- Character classes are modelled over Unicode scalar values. JavaScript
  strings are UTF-16, and a character outside the Basic Multilingual Plane
  counts as two units there. All three cleaners keep or drop both halves
  together, so the visible result is the same.
- The name lookups (`getProcessName` and its siblings) are passed to the
  exports already resolved. The exports' fallback `item.processName ||
  item.processId`, used when no lookup is passed, is not modelled.
- A missing expansion map or set (`?.` on `undefined`) is modelled as an
  empty one.
- A missing catch number is modelled as the empty string. Both are falsy,
  both are skipped by the grouping, and both sort as `''`.
- CatchMatrix.QuantityCell: on the paper screen a missing quantity renders
  as the text `null`, as `${quantity}` prints it. `undefined` is not told
  apart from `null`.
- Excel sheet names must be unique. Two processes whose cleaned names
  share their first 31 characters make `book_append_sheet` throw, and that
  failure is not modelled.
- GroupExport.ProcessSheet: a process name that cleans to the empty string
  gives the sheet name `""`, for which `book_append_sheet` picks an automatic
  `SheetN` name; that substitution is not modelled.
- The other tabs of the page (group production, the pending process detail
  panels) and the JSX markup are outside this model.
