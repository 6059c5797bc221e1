# Sales scenario studio: a verified model of the dashboard's logic

This project models the client-side logic of a sales-scenario dashboard, written in Dafny:

- **Simulator page.** It searches a product catalogue and keeps a selection of product codes in step with what is visible. It runs a randomized forward-sales simulation per selected product and reports, for each one, whether the stock covers the predicted sales.
- **Product table.** Its header and row checkboxes, and its price-sensitivity badges.
- **Result chart.** A card that shows the totals, the stock verdict, the data series and the x-axis labels.
- **Sales-history upload box.** It accepts CSV or XLSX files and builds a three-row preview by splitting the text into lines and cells.
- **Product form.** A validation schema of nine fields, plus its default values.
- **Upload page.** Two drop zones, one for products and one for sales. It enables processing only when both hold a `.csv` file.

The model follows the shape of each source file:

- The simulator page, the upload box and the upload page change component state in event handlers. They are classes (`SimulatorPage`, `SalesHistoryFormState`, `UploadPage`). Their fields are the components' state variables, and their methods are the handlers.
- Each handler's `ensures` gives the whole new state in terms of pure functions. Lemmas about those functions state what the handlers achieve: the selection never holds duplicates, and it only holds visible codes.
- The prediction loop and the result construction are methods with loops.
- The table, the chart, the preview parser and the form schema are pure functions.

The JavaScript built-ins that the logic depends on are modelled in the module `Text`: `trim` with ECMAScript's whitespace set, `toLowerCase`, `includes`, `endsWith`, `split(',')` and `split(/\r\n|\n/)`. The module `Seqs` models `filter`, "no duplicates" and order-preserving sub-lists.

`src/components/Upload/PreviewModal.tsx:3-9` displays file data with `totalColumns` and `hasHeaders`, which no modelled file computes. The upload box's own parser in `src/components/SalesHistoryForm.tsx` splits every line at every comma and strips one quote from each end of a cell; it neither detects headers nor respects quotes. The model follows that parser. `SalesHistoryForm.QuotedCommaStillSplits` shows the difference: `"a,b"` gives the two cells `a` and `b`.

## Model

| member | source | states |
|---|---|---|
| Types.Codes | src/pages/Simulator.tsx:48 | the code list has one entry per product, and entry `i` is product `i`'s code |
| Types.TotalSales | src/pages/Simulator.tsx:106 | defines the `reduce` sum of the sales figures (also `src/components/Simulator/ResultChart.tsx:32`) |
| Types.TotalSalesConcat | src/components/Simulator/ResultChart.tsx:32 | the `reduce` sum of a concatenation is the sum of the two parts' sums |
| Types.TotalSalesBoundsEach | src/pages/Simulator.tsx:106 | with no negative figures, the total is at least each single figure |
| Types.TotalSalesNonNegative | src/pages/Simulator.tsx:106 | with no negative figures, the total is not negative |
| Text.TrimStart | src/pages/Simulator.tsx:28 | the result is a suffix of the input, only whitespace was removed, and it does not start with whitespace |
| Text.TrimEnd | src/pages/Simulator.tsx:28 | the result is a prefix of the input, only whitespace was removed, and it does not end with whitespace |
| Text.Trim | src/pages/Simulator.tsx:28 | `trim()` is a slice of the input with no whitespace at either end; it is empty exactly when the input is all whitespace |
| Text.TrimCutsOnlyEdges | src/pages/Simulator.tsx:28 | `trim()` is `s[i..j]` where everything before `i` and from `j` on is whitespace: only the two ends are cut |
| Text.TrimOfTrimmed | src/components/SalesHistoryForm.tsx:57 | a text with no whitespace at either end is unchanged by `trim()` |
| Text.LowerChar | src/pages/Simulator.tsx:32-33 | an upper-case ASCII or Latin-1 letter moves to its lower-case form, 32 code points higher; every other character is unchanged |
| Text.LowerKeepsWhitespace | src/pages/Simulator.tsx:28-33 | lower-casing a character keeps whitespace as whitespace and non-whitespace as non-whitespace |
| Text.LowerIdempotent | src/pages/Simulator.tsx:32-33 | lower-casing an already lower-cased text changes nothing |
| Text.LowerBlank | src/pages/Simulator.tsx:28-33 | a text is all whitespace exactly when its lower-cased form is |
| Text.Lower | src/pages/Simulator.tsx:32-33 | `toLowerCase()` keeps the length and lowers each character |
| Text.EndsWith | src/pages/Upload.tsx:30 | defines `endsWith`: the suffix is at most as long as the text and equals its last characters (also Upload.tsx:42 and SalesHistoryForm.tsx:40) |
| Text.Contains | src/pages/Simulator.tsx:32-33 | `includes` holds exactly when the needle occurs at some position |
| Text.Split | src/components/SalesHistoryForm.tsx:57 | `split(',')` gives one more piece than there are commas, and no piece holds a comma |
| Text.JoinSplit | src/components/SalesHistoryForm.tsx:57 | joining the pieces of a split with the separator gives back the text |
| Text.SplitJoin | src/components/SalesHistoryForm.tsx:57 | splitting a join of comma-free pieces gives back the pieces |
| Text.SplitLines | src/components/SalesHistoryForm.tsx:54 | `split(/\r\n\|\n/)` gives one line per line feed plus one, and no line holds a line feed |
| Text.SplitLinesIsSplitOnLineFeed | src/components/SalesHistoryForm.tsx:54 | splitting on CRLF-or-LF equals splitting on LF and then dropping one trailing carriage return from each piece except the last |
| Text.NatToString | src/components/SalesHistoryForm.tsx:143 | the decimal numeral of a number is a non-empty string of digits that denotes the number, with no leading zero for a positive number |
| Seqs.Filter | src/pages/Simulator.tsx:23 | `filter` keeps exactly the elements that pass, and is no longer than its input |
| Seqs.FilterConcat | src/pages/Simulator.tsx:57 | filtering distributes over concatenation |
| Seqs.FilterKeepsAll | src/pages/Simulator.tsx:23 | a filter that every element passes returns the whole list |
| Seqs.FilterKeepsNone | src/pages/Simulator.tsx:53 | a filter that no element passes returns the empty list |
| Seqs.FilterCongruent | src/pages/Simulator.tsx:23 | filters whose predicates agree on the list give the same result |
| Seqs.FilterMultiplicity | src/pages/Simulator.tsx:23 | a filter keeps every copy of an element that passes and none of one that fails |
| Seqs.FilterIdempotent | src/pages/Simulator.tsx:23 | filtering twice by the same predicate is filtering once |
| Seqs.FilterIsSubsequence | src/pages/Simulator.tsx:23 | a filter result is an order-preserving sub-list of its input |
| Seqs.SubsequenceTail | src/pages/Simulator.tsx:23 | a sub-list without its first element is still a sub-list |
| Seqs.FilterNoDup | src/pages/Simulator.tsx:53 | filtering a list without duplicates gives a list without duplicates |
| Seqs.NoDupCardinality | src/pages/Simulator.tsx:134-136 | a list without duplicates has as many elements as its set |
| Seqs.SameLengthIffSameElements | src/components/Simulator/ProductTable.tsx:20 | for duplicate-free lists with `a ⊆ b`, equal lengths hold exactly when every element of `b` is in `a` |
| Simulator.MatchesQuery | src/pages/Simulator.tsx:31-34 | defines the search test: the lower-cased code or name contains the lower-cased query |
| Simulator.SearchProducts | src/pages/Simulator.tsx:27-37 | a blank query (after trim) gives the whole catalogue; otherwise exactly the products whose lower-cased code or name contains the lower-cased, untrimmed query, in catalogue order |
| Simulator.SearchIgnoresQueryCase | src/pages/Simulator.tsx:27-37 | two queries with the same lower-cased form find the same products, blank or not |
| Simulator.SearchByLowerCaseQuery | src/pages/Simulator.tsx:27-37 | typing the query in lower case finds the same products as typing it as it is |
| Simulator.FilteredCodesNoDup | src/pages/Simulator.tsx:31-34 | filtering a catalogue with distinct codes keeps the codes distinct |
| Simulator.SearchCodesNoDup | src/pages/Simulator.tsx:27-37 | every search result has distinct codes |
| Simulator.PruneSelection | src/pages/Simulator.tsx:21-25 | the pruning effect keeps exactly the selected codes present in the filtered list, in selection order |
| Simulator.PruneKeepsVisibleSelection | src/pages/Simulator.tsx:21-25 | pruning a selection that is already all visible changes nothing |
| Simulator.ToggleProduct | src/pages/Simulator.tsx:39-45 | toggling a selected code removes every occurrence of it and keeps the rest in order; toggling an unselected code appends it |
| Simulator.ToggleTwiceRestores | src/pages/Simulator.tsx:39-45 | toggling an unselected code twice restores the selection |
| Simulator.ToggleKeepsNoDup | src/pages/Simulator.tsx:39-45 | toggling never introduces duplicates |
| Simulator.AllVisibleSelected | src/pages/Simulator.tsx:49 | defines `visibleCodes.every(code => selectedProducts.includes(code))`: every visible code is in the selection |
| Simulator.ToggleAll | src/pages/Simulator.tsx:47-61 | when every visible code is selected (vacuously, if none is visible), the visible codes are removed and the rest kept in order; otherwise the result is the non-visible selected codes in order, followed by all visible codes |
| Simulator.ToggleAllSelectsEveryVisible | src/pages/Simulator.tsx:55-59 | after selecting all, every visible code is selected |
| Simulator.ToggleAllNothingVisible | src/pages/Simulator.tsx:49-53 | with nothing visible, toggle-all leaves the selection unchanged |
| Simulator.ToggleAllKeepsNoDup | src/pages/Simulator.tsx:55-59 | "select all without duplicates" holds when the selection and the visible codes have none |
| Simulator.ToggleAllTwice | src/pages/Simulator.tsx:47-61 | select-all followed by deselect-all leaves exactly the non-visible selected codes |
| Simulator.VisibleSelectedCount | src/pages/Simulator.tsx:134-136 | the counter is the number of selected codes that are visible, at most the selection's length |
| Simulator.VisibleSelectedCountIsIntersection | src/pages/Simulator.tsx:134-136 | for a duplicate-free selection, the counter is the size of the intersection of selected and visible codes |
| Simulator.HistoryOf | src/pages/Simulator.tsx:88 | defines a code's history: its table entry, or the empty list when it has none |
| Simulator.BaseSales | src/pages/Simulator.tsx:93 | the base figure is the last recorded month's sales, or 100 when there is no history or that figure is 0; it is never 0 |
| Simulator.Round | src/pages/Simulator.tsx:102 | `Math.round` gives the integer within half a unit, halves rounding up |
| Simulator.Estimate | src/pages/Simulator.tsx:93-102 | defines one month's estimate: base times `0.8 + 0.4 * draw`, times 1.3, 1.2 and 0.85 for the conditions set, rounded |
| Simulator.EstimateRange | src/pages/Simulator.tsx:93-102 | a non-negative base gives a non-negative estimate; with no conditions set, the estimate lies between 80% and 120% of the base, within rounding |
| Simulator.GeneratePredictions | src/pages/Simulator.tsx:89-104 | one prediction per requested month, labelled with the month names in order, each the rounded estimate from the base figure, that month's draw and the three condition factors |
| Simulator.FindProduct | src/pages/Simulator.tsx:87 | `find` returns a product exactly when the code is in the catalogue, and then the first product with that code |
| Simulator.StockVerdictHolds | src/pages/Simulator.tsx:113-114 | defines the stock verdict: sufficient exactly when stock covers the predicted total, and a shortfall of total minus stock exactly when it does not |
| Simulator.BuildResults | src/pages/Simulator.tsx:86-116 | one result per selected code, in order, with that code's history (empty if none), its predictions and stock; sufficient exactly when stock covers the total; a shortfall exactly when it does not, equal to total minus stock |
| Simulator.SimulatorPage.constructor | src/pages/Simulator.tsx:14-18 | the page starts with the whole catalogue visible, nothing selected, the form hidden and no results |
| Simulator.SimulatorPage.HandleSearch | src/pages/Simulator.tsx:21-37 | the filtered list becomes the search result and the selection is pruned to it; both page invariants hold |
| Simulator.SimulatorPage.HandleToggleProduct | src/pages/Simulator.tsx:39-45 | the selection becomes the toggled list and stays duplicate-free |
| Simulator.SimulatorPage.HandleToggleAll | src/pages/Simulator.tsx:47-61 | the selection becomes the toggle-all list; it stays duplicate-free and all visible |
| Simulator.SimulatorPage.HandleStartSimulation | src/pages/Simulator.tsx:63-69 | an empty selection is rejected and the form stays as it was; otherwise the form is shown |
| Simulator.SimulatorPage.HandleSimulationSubmit | src/pages/Simulator.tsx:71-121 | the results are one result per selected code, as `BuildResults` specifies, and the form is hidden |
| Simulator.SimulatorPage.HandleCancelSimulation | src/pages/Simulator.tsx:123-125 | the form is hidden and nothing else changes |
| Simulator.SimulatorPage.HandleNewSimulation | src/pages/Simulator.tsx:127-131 | results and selection are cleared and the form is hidden |
| Simulator.PageHeaderMeansAllVisibleSelected | src/components/Simulator/ProductTable.tsx:20 | on the page as it runs, the header checkbox is ticked exactly when the list is non-empty and every visible code is selected, and the counter equals the selection's length |
| ProductTable.AllSelected | src/components/Simulator/ProductTable.tsx:20 | defines the header checkbox: a non-empty table whose selection has as many codes as the table has rows |
| ProductTable.RowChecked | src/components/Simulator/ProductTable.tsx:63 | defines a row checkbox: its code occurs in the selection |
| ProductTable.EmptyTableNotAllSelected | src/components/Simulator/ProductTable.tsx:20 | an empty table never has its header ticked |
| ProductTable.AllSelectedIffEveryRowChecked | src/components/Simulator/ProductTable.tsx:20 | with distinct codes and a duplicate-free selection of listed codes, the length test holds exactly when every row checkbox (line 63) is checked |
| ProductTable.LengthTestIsNotMembership | src/components/Simulator/ProductTable.tsx:20 | a selection of the right length but a foreign code ticks the header while the row is unchecked |
| ProductTable.SensitivityClass | src/components/Simulator/ProductTable.tsx:22-33 | `Alta`, `Media` and `Baja` map to the high, medium and low badges, and any other string to no class |
| ProductTable.EverySensitivityHasItsBadge | src/components/Simulator/ProductTable.tsx:22-33 | every sensitivity has a badge, and different sensitivities have different badges |
| ProductTable.RowOf | src/components/Simulator/ProductTable.tsx:59-79 | defines what one row shows: its checkbox state, the product's fields, the sensitivity label and badge, and the stock |
| ProductTable.Rows | src/components/Simulator/ProductTable.tsx:58-75 | one row per product, in order, showing its code and stock, checked exactly when its code is selected, with a badge |
| ResultChart.AllData | src/components/Simulator/ResultChart.tsx:13 | the chart series is the history followed by the predictions |
| ResultChart.MaxSales | src/components/Simulator/ResultChart.tsx:14 | the maximum is attained and bounds every figure; there is none (`-Infinity`) for an empty series |
| ResultChart.TotalPredictedSales | src/components/Simulator/ResultChart.tsx:32 | defines the predicted total shown on the card |
| ResultChart.StockShortfall | src/components/Simulator/ResultChart.tsx:33 | defines the stock left after the predicted sales, negative when short |
| ResultChart.BadgeSufficient | src/components/Simulator/ResultChart.tsx:40-41 | defines the badge style: sufficient when the shortfall is not negative |
| ResultChart.MissingAmount | src/components/Simulator/ResultChart.tsx:33-45 | a missing amount is shown exactly when the stock is below the predicted total, and it equals total minus stock |
| ResultChart.ChartAgreesWithSimulator | src/components/Simulator/ResultChart.tsx:32-45 | for a result built by the page, the badge agrees with `stockSufficient` and the missing amount with `shortfall` |
| ResultChart.ShowsLabel | src/components/Simulator/ResultChart.tsx:110 | defines which points get an x-axis label: the even-indexed ones and the last |
| ResultChart.EvenIndicesCount | src/components/Simulator/ResultChart.tsx:110 | among `n` points, `(n + 1) / 2` have an even index |
| ResultChart.LabelledIndices | src/components/Simulator/ResultChart.tsx:108-110 | defines the labelled points: the indices below `n` that `ShowsLabel` accepts, in order |
| ResultChart.AxisLabelling | src/components/Simulator/ResultChart.tsx:108-110 | the first and last points are labelled, no two neighbouring points are both unlabelled, and `n / 2 + 1` labels are drawn for `n > 0` points |
| ResultChart.PredictionIndices | src/components/Simulator/ResultChart.tsx:27-30 | prediction `i` sits at position `historical.length + i` of the series |
| ResultChart.PredictionLineAsWritten | src/components/Simulator/ResultChart.tsx:72-77 | the prediction line as written fails exactly when the history is empty and there are predictions |
| ResultChart.EmptyHistoryCrashesChart | src/components/Simulator/ResultChart.tsx:72-77 | a result the page builds for a code without history makes that line fail |
| ResultChart.PredictionLine | src/components/Simulator/ResultChart.tsx:72-77 | the corrected line lies within the series, ends with the prediction points, starts at the last historical point when there is one, and equals the written line whenever that one renders |
| ResultChart.SimulatedSeriesHasMaximum | src/components/Simulator/ResultChart.tsx:14 | every result the page builds has a non-empty series, so its maximum exists |
| SalesHistoryForm.IsAcceptedFile | src/components/SalesHistoryForm.tsx:34-40 | defines acceptance: a listed MIME type, or a name ending in `.csv` or `.xlsx` |
| SalesHistoryForm.HasContent | src/components/SalesHistoryForm.tsx:54 | defines the line filter: trimming the line leaves something |
| SalesHistoryForm.ContentLines | src/components/SalesHistoryForm.tsx:54 | the kept lines are exactly the non-blank lines of the text, in order, each kept as many times as it occurs |
| SalesHistoryForm.StripQuotes | src/components/SalesHistoryForm.tsx:57 | at most one leading and one trailing double quote are removed, and a lone quote only once |
| SalesHistoryForm.QuotedValueRoundTrip | src/components/SalesHistoryForm.tsx:57 | stripping the quotes of a quoted value gives the value back |
| SalesHistoryForm.CleanCell | src/components/SalesHistoryForm.tsx:57-59 | defines a cell as shown: trimmed, then its quotes stripped |
| SalesHistoryForm.Cells | src/components/SalesHistoryForm.tsx:57-60 | a line gives one cell per comma plus one, each piece trimmed and its quotes stripped |
| SalesHistoryForm.QuotedCommaStillSplits | src/components/SalesHistoryForm.tsx:57 | a comma inside quotes still separates two cells |
| SalesHistoryForm.PreviewRows | src/components/SalesHistoryForm.tsx:58-59 | at most three preview rows, row `i` holding the cells of the line after the header line at offset `i` |
| SalesHistoryForm.ParsePreview | src/components/SalesHistoryForm.tsx:52-66 | no preview without a content line; otherwise the headers come from the first content line, the rows from at most the next three, and `totalRows` counts all content lines but the first |
| SalesHistoryForm.AllLinesBlankIffWhitespace | src/components/SalesHistoryForm.tsx:54 | every line of the split is blank exactly when the whole text is whitespace |
| SalesHistoryForm.NoPreviewIffBlankText | src/components/SalesHistoryForm.tsx:54-55 | the reader produces no preview exactly when the file's text is all whitespace |
| SalesHistoryForm.HeaderLabel | src/components/SalesHistoryForm.tsx:143 | an empty header shows as `Col ` followed by a numeral denoting `i + 1`; any other header shows as itself |
| SalesHistoryForm.EmptyHeadersGetDistinctLabels | src/components/SalesHistoryForm.tsx:143 | two different columns without a header get different labels |
| SalesHistoryForm.ShowsTruncationNote | src/components/SalesHistoryForm.tsx:164 | defines when the "showing 3 of N" note appears: more than three data rows |
| SalesHistoryForm.TruncationNoteIffRowsLeftOut | src/components/SalesHistoryForm.tsx:164-166 | the "showing 3 of N" note appears exactly when the preview leaves rows out |
| SalesHistoryForm.SalesHistoryFormState.constructor | src/components/SalesHistoryForm.tsx:22-28 | no file, no preview, dialog closed |
| SalesHistoryForm.SalesHistoryFormState.OnLoad | src/components/SalesHistoryForm.tsx:52-68 | a text with content replaces the preview and opens the dialog; a blank text changes nothing |
| SalesHistoryForm.SalesHistoryFormState.HandleFileChange | src/components/SalesHistoryForm.tsx:31-48 | a missing file or one of another type changes nothing; an accepted file is stored and its preview loaded |
| SalesHistoryForm.SalesHistoryFormState.HandleDrop | src/components/SalesHistoryForm.tsx:72-76 | only the first dropped file (or, through the input at line 94, the first chosen one) counts; it is accepted exactly when the form accepts it, and then it is stored and its preview loaded as in `HandleFileChange`; otherwise nothing changes |
| SalesHistoryForm.SalesHistoryFormState.CloseModal | src/components/SalesHistoryForm.tsx:115-123 | the dialog is closed |
| ProductForm.DigitRun | src/components/forms/ProductForm.tsx:21 | the leading digits of a text, up to the first non-digit |
| ProductForm.IsMoney | src/components/forms/ProductForm.tsx:21-22 | defines the greedy money matcher: a digit run, then nothing or a point and one or two digits |
| ProductForm.IsMoneyIffMatches | src/components/forms/ProductForm.tsx:21-22 | the greedy matcher accepts exactly the texts `^\d+(\.\d{1,2})?$` describes |
| ProductForm.MoneyExamples | src/components/forms/ProductForm.tsx:21-22 | `12`, `12.5`, `12.50` and `0` are accepted; the empty text, `.5`, `12.`, `12.345`, `-1`, `1,5` and `1.5a` are not |
| ProductForm.IsInteger | src/components/forms/ProductForm.tsx:20 | defines `.int()`: the number equals its integer part (also line 25) |
| ProductForm.IsPositiveInteger | src/components/forms/ProductForm.tsx:20 | defines `.int().positive()`: an integer greater than zero (also line 25) |
| ProductForm.FieldValid | src/components/forms/ProductForm.tsx:16-26 | defines each field's rule: one character for text fields, the money pattern for prices, a positive integer for quantities |
| ProductForm.IsValid | src/components/forms/ProductForm.tsx:16-26 | defines the whole schema as the conjunction of the nine rules, written independently of the field list |
| ProductForm.Errors | src/components/forms/ProductForm.tsx:16-26 | a field is reported exactly when its rule fails |
| ProductForm.NoErrorsIffValid | src/components/forms/ProductForm.tsx:16-26 | no field is reported exactly when all nine rules hold |
| ProductForm.WhitespaceNamePasses | src/components/forms/ProductForm.tsx:18 | a name of one space passes, since text fields only need one character |
| ProductForm.Submit | src/components/forms/ProductForm.tsx:54 | `onSubmit` receives the values unchanged exactly when they are valid |
| ProductForm.Defaults | src/components/forms/ProductForm.tsx:39-49 | the form starts from the given product, or else from the blank record |
| ProductForm.BlankDefaultsErrors | src/components/forms/ProductForm.tsx:16-49 | submitting the blank record reports exactly code, name, description, stock (0 is not positive), country and lead time, so it is rejected |
| Upload.UploadedFiles.With | src/pages/Upload.tsx:33 | storing a file (here and at line 43) fills its zone and leaves the other zone as it was |
| Upload.IsCsvName | src/pages/Upload.tsx:30 | defines the `.csv` test of a file name (also line 42) |
| Upload.FirstCsv | src/pages/Upload.tsx:29-30 | the first dropped file whose name ends in `.csv`; there is none exactly when no file does |
| Upload.UploadedFiles.Complete | src/pages/Upload.tsx:51 | defines the condition for processing: both zones hold a file |
| Upload.FillingBothZonesCompletes | src/pages/Upload.tsx:50-54 | filling one zone and then the other makes processing possible |
| Upload.OneZoneIsNotEnough | src/pages/Upload.tsx:50-54 | filling one zone while the other is empty leaves processing blocked |
| Upload.UploadPage.constructor | src/pages/Upload.tsx:10-14 | not dragging, no files |
| Upload.UploadPage.DragOver | src/pages/Upload.tsx:16-19 | dragging is on |
| Upload.UploadPage.DragLeave | src/pages/Upload.tsx:21-23 | dragging is off |
| Upload.UploadPage.Drop | src/pages/Upload.tsx:25-38 | dragging ends; the zone receives the first `.csv` file when one was dropped, otherwise nothing changes; the other zone never changes |
| Upload.UploadPage.FileInput | src/pages/Upload.tsx:40-48 | the first chosen file is stored in its zone exactly when its name ends in `.csv`; the other zone never changes |
| Upload.UploadPage.ProcessDisabled | src/pages/Upload.tsx:203 | defines the disabled state of the process button: some zone is empty |
| Upload.UploadPage.ProcessData | src/pages/Upload.tsx:50-58 | processing proceeds exactly when both zones hold a file, which is exactly when the button is enabled (line 203) |

## Left out

- Network and REST calls (`productService`), routing, `toast`, `alert`, `console.log` and the one-second `setTimeout` before navigation are not modelled. `ProcessData` only returns whether navigation would happen.
- `Math.random` is a parameter. The table `draws` holds, per selected code, one number in [0, 1) per month.
- Simulator.GeneratePredictions: the estimate uses exact real arithmetic, not IEEE doubles. Halfway cases of `Math.round` may differ from a browser.
- Text.Lower: only ASCII and Latin-1 upper-case letters are lowered. Other scripts and special casings (for example `İ`) are left unchanged.
- The `useEffect` that prunes the selection runs in the model after every search. React skips it when the search leaves the filtered list's identity unchanged, but pruning a selection that is already all visible changes nothing (`Simulator.PruneKeepsVisibleSelection`).
- SalesHistoryForm.SalesHistoryFormState.HandleFileChange: the asynchronous `FileReader` is modelled as finishing at once, so a later file's preview cannot be overtaken by an earlier one's. The `onFileChange` callback and the `File.size` display are not modelled. An XLSX file's binary content is read as text, like any other file.
- The upload box's `handleDragOver` only prevents the default action and has no state to model.
- `z.coerce.number()` is not modelled. `stock` and `cantidadMinimaCompra` are the numbers the coercion produced.
- The product form's rendering, the `isSubmitting` flag and the extra `id` key of a given product are not modelled. The schema drops that key on submission.
- SVG geometry (`xStep`, `yScale`, grid lines) and `toFixed` formatting are not modelled. Only the indices of the points and the labels are modelled.
- Mock data pages (Alerts, Purchasing, Reports), the simulation form and the product search box are not part of this model. So is the preview dialog `src/components/Upload/PreviewModal.tsx`, which only renders the file data it is given and which none of the modelled files uses.
- Simulator.BuildResults requires every selected code to be in the catalogue. The page guarantees this, because the selection only holds visible codes. For any other code, `find` returns `undefined` (the `!` after it only silences the type checker), and reading `product.stock` at `src/pages/Simulator.tsx:112` throws.
- The template download (`src/pages/Upload.tsx:60-63`) only shows a toast and is not modelled.

## Findings

| source | as written | input that shows it | evidently intended | confidence | as-written member | corrected member |
|---|---|---|---|---|---|---|
| src/components/Simulator/ResultChart.tsx:72-77 | the prediction line starts from `historicalPoints[historicalPoints.length - 1]`, which is `undefined` for an empty history, and reading its `.x` throws during render | a simulation result with no history and at least one prediction, which `src/pages/Simulator.tsx:88` produces for any selected code missing from the history table; this needs a catalogue entry without history, which the shipped mock data does not contain (every mock code has a history) | start the dashed line at the last historical point only when there is one, and otherwise draw just the prediction points | medium, not executed | ResultChart.PredictionLineAsWritten, ResultChart.EmptyHistoryCrashesChart | ResultChart.PredictionLine |
