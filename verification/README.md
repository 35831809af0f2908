# Excel sales extractor, modelled in Dafny

The extractor turns point-of-sale spreadsheet exports into store-month
records. `src/excelextractordemo.tsx` holds the core. For each uploaded
workbook, `extractDataFromExcel` reads the first sheet in four passes:

- a header scan over the first ten dense rows. It looks for the store pattern
  `(\d{5})\s*[-–]\s*([^,]+),?\s*([A-Z]{2})` and for the month pattern
  `(January|…|December)\s+(\d{4})`. The store match ends the scan;
- a labeled-scalar scan. It visits rows `s.r..min(e.r, 50)` of the sheet's
  range, looking for the labels "net sales" and "order count";
- a revenue-category scan. It visits rows `s.r..min(e.r, 100)` and tests the
  seven category labels;
- the derived fields. `dqFood` is food plus novelties. `totalSales` is the
  larger of the bucket sum and net sales. The address comes from a static
  23-entry table, with "Address not found" as the fallback.

`processExcelFiles` runs the extractor over a batch and collects the records
and the log. When at least one record was kept, it appends a totals row.

The model is split into one module per file:

- `text.dfy` (Text): character classes, ASCII lower-casing, substring search
  and the scanning helpers the store pattern needs.
- `cells.dfy` (Cells): cell values, their JavaScript truthiness, the text the
  matchers see, and ranges.
- `patterns.dfy` (Patterns): the two header regular expressions as predicates,
  and the leftmost-match functions that return the captured text.
- `events.dfy` (Events): the log, as event values.
- `header.dfy` (HeaderScan): the header scan as a method, proved against a
  specification over the sequence of "sightings", one per visited cell.
- `scans.dfy` (GridScan): the two grid scans as methods, with their probe
  loops. Each is proved against `FirstFound`, the first non-zero value a rule
  yields in row-major order.
- `records.dfy` (Records): the record, the derived fields, the address table
  and the totals fold.
- `extractor.dfy` (Extractor): `extractDataFromExcel`, with its success and
  failure paths.
- `batch.dfy` (Batch): `processExcelFiles`.
- `examples.dfy` (Examples): worked instances on the demo's own header lines.

The header scan stops at the first store match. So when the store line sits
above the month line, as in the sample layout the demo offers for download,
the month is never read and stays empty (`Examples.StoreFirstHidesMonth`).
The model follows the code here.

## Model

| member | source | states |
|---|---|---|
| Text.LowerFacts | src/excelextractordemo.tsx:99 | lower-casing keeps the length, leaves no upper-case letter, changes nothing else, and is idempotent |
| Text.ContainsIff | src/excelextractordemo.tsx:99 | `includes` holds exactly when the label occurs at some position of the text |
| Text.SkipSpacesSkipsSpaces | src/excelextractordemo.tsx:70 | every character `\s*` passes over is white space |
| Text.FirstCommaIsFirst | src/excelextractordemo.tsx:70 | no character before the comma `[^,]+` runs up to is a comma |
| Text.ContainsSlice | src/excelextractordemo.tsx:151-158 | a text containing a label contains every slice of that label |
| Patterns.StoreMatchIndex | src/excelextractordemo.tsx:70 | the index returned is a match position of the store pattern, or the end of the text |
| Patterns.StoreMatchIndexIsFirst | src/excelextractordemo.tsx:70 | no position before the one returned matches the store pattern |
| Patterns.StoreNumberOf | src/excelextractordemo.tsx:70-72 | a captured store number is five digits |
| Patterns.StoreNumberIsLeftmostMatch | src/excelextractordemo.tsx:70-72 | a store number is found exactly when the pattern matches somewhere, and it is the digits of the leftmost match |
| Patterns.MonthNameIndex | src/excelextractordemo.tsx:78 | the name returned occurs at the position |
| Patterns.MonthNameIndexIsFirst | src/excelextractordemo.tsx:78 | no month name earlier in the alternation occurs at the position, so the first one that does is taken |
| Patterns.YearAt | src/excelextractordemo.tsx:78 | a year found after the name is four digits |
| Patterns.MonthMatchIndexIsFirst | src/excelextractordemo.tsx:78 | no position before the one returned matches the month pattern |
| Patterns.MonthYearShape | src/excelextractordemo.tsx:78-80 | a month match is a month name occurring in the text, one space, then four digits |
| Patterns.MonthIsLeftmostMatch | src/excelextractordemo.tsx:78-80 | a month is found exactly when the pattern matches somewhere, and it is the leftmost match's text |
| HeaderScan.StoreIndex | src/excelextractordemo.tsx:64-75 | the scan stops at the first cell with a store match; no cell before it has one |
| HeaderScan.LastMonth | src/excelextractordemo.tsx:77-82 | the month held is the last month sighted, and no later cell has one |
| HeaderScan.HeaderLogFacts | src/excelextractordemo.tsx:64-85 | the header log ends with the store event when a store was found; it logs the kept month; it holds only store and month events; it has at most one event per visited cell |
| HeaderScan.HeaderStoreShape | src/excelextractordemo.tsx:70-72 | the store number is "" or five digits |
| HeaderScan.StoreStopsScan | src/excelextractordemo.tsx:71-75 | after the first store cell no month is read: the month is the last one before that cell, and the log is those months' events then the store event |
| HeaderScan.NoStoreScansAll | src/excelextractordemo.tsx:64-85 | with no store match every cell is visited, the month is the last one sighted, and the log holds every month event |
| HeaderScan.StoreFoundAt | src/excelextractordemo.tsx:64-85 | a first store match at row i, column j decides the store, the month and the log, whatever the cells after it hold |
| HeaderScan.NonTextCellUnseen | src/excelextractordemo.tsx:67-78 | a cell that is not text sights neither a store nor a month, and its lower-cased text contains no label |
| HeaderScan.ScanningSnoc | src/excelextractordemo.tsx:77-82 | a cell without a store match replaces the month and logs it when it has a month match, and otherwise changes nothing |
| HeaderScan.ScanHeaderRow | src/excelextractordemo.tsx:66-83 | the inner loop stops exactly at a store match; otherwise it leaves the scan state of the whole row |
| HeaderScan.ScanHeader | src/excelextractordemo.tsx:55-85 | the store number, month and log the loops leave are those of the sighting specification over the first ten rows |
| GridScan.PositionsExact | src/excelextractordemo.tsx:90-91 | the nested loops visit exactly the cells of the block, each once, in row-major order |
| GridScan.ProbeFromExact | src/excelextractordemo.tsx:101-108 | the probe finds a value exactly when some offset in 1..window qualifies, and takes the nearest one |
| GridScan.ProbeRight | src/excelextractordemo.tsx:101-108 | the offset loop returns the probe's value |
| GridScan.FirstFound | src/excelextractordemo.tsx:158-163 | a field with a floor is 0 or above the floor |
| GridScan.FirstFoundStable | src/excelextractordemo.tsx:99 | once a field is non-zero no later cell changes it |
| GridScan.FirstFoundFirst | src/excelextractordemo.tsx:99-108 | the field ends as the value of the first non-zero hit in visiting order |
| GridScan.FirstFoundZero | src/excelextractordemo.tsx:99-108 | with no non-zero hit the field stays 0 |
| GridScan.FalsyCellsIgnored | src/excelextractordemo.tsx:95 | absent or falsy cells never change a field |
| GridScan.ScalarRunFindsFirst | src/excelextractordemo.tsx:90-124 | the labeled-scalar scan leaves net sales and order count as the first non-zero find of each label |
| GridScan.ScalarFindsLogged | src/excelextractordemo.tsx:104-105 | a non-zero net sales or order count is announced in the log |
| GridScan.InspectScalarCell | src/excelextractordemo.tsx:93-122 | one cell's effect on the scalar scan is one step of the specification |
| GridScan.ScanScalarRow | src/excelextractordemo.tsx:91-123 | one row of the scalar scan extends the specification's run by that row |
| GridScan.ScanScalars | src/excelextractordemo.tsx:88-124 | net sales and order count are the first-found values over rows `s.r..min(e.r, 50)`, and the log is the run's |
| GridScan.CategoriesThroughBucket | src/excelextractordemo.tsx:157-169 | at one cell each label touches only its own bucket, and only while that bucket is 0 |
| GridScan.RevenueRunFindsFirst | src/excelextractordemo.tsx:138-172 | each bucket ends as the first non-zero find of its label |
| GridScan.RevenueRunBuckets | src/excelextractordemo.tsx:127-172 | the revenue scan's buckets are the seven first-found values |
| GridScan.RevenueFindsLogged | src/excelextractordemo.tsx:163-164 | every non-zero bucket is announced in the log with its category |
| GridScan.FalsyCellNoCategory | src/excelextractordemo.tsx:143 | an absent or falsy cell leaves the revenue state unchanged |
| GridScan.MatchCategories | src/excelextractordemo.tsx:157-169 | the per-cell category loop is the specification's seven steps at that cell, in declared order |
| GridScan.ScanRevenueRow | src/excelextractordemo.tsx:139-171 | one row of the revenue scan extends the specification's run by that row |
| GridScan.ScanRevenues | src/excelextractordemo.tsx:127-172 | the buckets are the first-found values over rows `s.r..min(e.r, 100)`, and the log is the run's |
| GridScan.OjLabelIsBeverageLabel | src/excelextractordemo.tsx:151-158 | a cell that triggers "oj beverages" also triggers "beverage", with the same probe |
| GridScan.OjFoundImpliesBeverageFound | src/excelextractordemo.tsx:151-167 | a filled oj-beverages bucket implies a filled beverage bucket |
| GridScan.FirstNonZeroHit | src/excelextractordemo.tsx:158-166 | a non-zero field came from a hit at some visited cell |
| Records.ListedStore | src/excelextractordemo.tsx:12-36 | every key of the address table is five characters long |
| Records.ListingFrom | src/excelextractordemo.tsx:185 | the entry returned has the key searched for, and no entry before it does |
| Records.KeysDistinct | src/excelextractordemo.tsx:12-36 | no two table entries share a store number |
| Records.AddressesNotFallback | src/excelextractordemo.tsx:12-36 | no table address is empty or equal to the fallback text |
| Records.AddressLookup | src/excelextractordemo.tsx:185 | a listed store number yields its table address; the fallback appears exactly for unlisted numbers |
| Records.NoStoreNoAddress | src/excelextractordemo.tsx:185 | the empty store number gets the fallback text |
| Records.BuildRecord | src/excelextractordemo.tsx:175-197 | `dqFood` is food plus novelties; the total is the larger of the bucket sum and net sales; the address is the lookup's |
| Records.BuildRecordBuckets | src/excelextractordemo.tsx:175-194 | with buckets 0 or above 100, every revenue field is too and the total is not negative |
| Records.TotalsRecord | src/excelextractordemo.tsx:254-260 | the totals row has the fixed labels and the folded amounts |
| Records.TotalsAreColumnSums | src/excelextractordemo.tsx:239-252 | each numeric field of the totals row is the sum of that column |
| Records.AccumulateAppend | src/excelextractordemo.tsx:239-252 | the fold over two batches is the sum of the two folds |
| Records.AccumulateRemove | src/excelextractordemo.tsx:239-252 | the fold is the fold of the other records plus the one taken out |
| Records.AccumulatePermutation | src/excelextractordemo.tsx:239-252 | the totals do not depend on record order: permuted records give the same sums |
| Records.TotalsDominate | src/excelextractordemo.tsx:194 | the totals row's total is at least its summed revenue and its summed net sales |
| Records.SingleStoreTotals | src/excelextractordemo.tsx:239-260 | with one store the totals row repeats its numbers |
| Extractor.SheetRecordFacts | src/excelextractordemo.tsx:180-197 | a record names its file; its store number is "" or five digits; its address is the table's; it is consistent; its revenue fields are 0 or above 100; an oj-beverages amount implies a beverage amount |
| Extractor.Extract | src/excelextractordemo.tsx:43-203 | extraction succeeds exactly when there is a first sheet name and a sheet under it |
| Extractor.RangelessSheet | src/excelextractordemo.tsx:61-88 | a sheet without a range, and so without rows, gives no store number, no month, the fallback address, and scalars searched over A1:Z100 |
| Extractor.ExtractLog | src/excelextractordemo.tsx:44-49 | the log opens with the file and its sheet names and closes with completion or, on failure, with the missing-sheet error after exactly three events |
| Extractor.ExtractDataFromExcel | src/excelextractordemo.tsx:43-203 | the extractor returns the specified record and log, or the specified failure |
| Batch.FileRecordsOf | src/excelextractordemo.tsx:222-226 | a file adds its first sheet's record when it is read and has a first sheet, and nothing otherwise |
| Batch.FileLog | src/excelextractordemo.tsx:222-233 | each file's log ends with its outcome event |
| Batch.GatherAppend | src/excelextractordemo.tsx:212-235 | the batch output over two groups of files is the outputs of the groups joined |
| Batch.ProcessFile | src/excelextractordemo.tsx:213-234 | one loop turn adds the file's records and log |
| Batch.ProcessExcelFiles | src/excelextractordemo.tsx:206-263 | the results are the store records plus the totals row when there is one; the log is every file's log then the totals event |
| Batch.UnreadableFileSkipped | src/excelextractordemo.tsx:228-234 | an unreadable file, or one without a first sheet, adds no record |
| Batch.OutcomeLogged | src/excelextractordemo.tsx:223-233 | every file's outcome is in the batch log, after the events of the files before it |
| Batch.StoreRecordCount | src/excelextractordemo.tsx:212-235 | there are at most as many records as files, and as many exactly when every file is readable |
| Batch.StoreRecordsFromFiles | src/excelextractordemo.tsx:212-235 | every record is the first-sheet record of a readable file of the batch |
| Batch.StoreRecordsConsistent | src/excelextractordemo.tsx:194 | every store record in a batch is consistent |
| Batch.WithTotalsShape | src/excelextractordemo.tsx:238-262 | no records give no rows and no totals event; otherwise the records come first, then one TOTALS row with their sums, and the event counts the stores |
| Examples.StoreLineMatches | src/excelextractordemo.tsx:69-72 | "10519 - Raymore, MO - GC" yields store number "10519" |
| Examples.MonthLineMatches | src/excelextractordemo.tsx:78-80 | "April 2025" yields the month "April 2025" |
| Examples.MonthLineHasNoStore | src/excelextractordemo.tsx:70 | "April 2025" has no store match |
| Examples.StoreThenAnything | src/excelextractordemo.tsx:71-75 | a store in the first cell leaves the month empty and logs only the store |
| Examples.MonthThenStore | src/excelextractordemo.tsx:77-84 | a month then a store keeps the month and logs both, in that order |
| Examples.StoreFirstHidesMonth | src/excelextractordemo.tsx:64-85 | with the store line above the month line the month stays "" |
| Examples.MonthFirstKeepsMonth | src/excelextractordemo.tsx:64-85 | with the month line above the store line both are found |
| Examples.DemoStoreAddress | src/excelextractordemo.tsx:13 | store 10519's address is "400 N Foxridge Raymore MO" |

## Left out

- The React component is not modelled. This covers its state hooks, the upload handler, rendering, `createSampleExcel`, `formatCurrency` and the CSV/XLSX download.
- Reading the file (`arrayBuffer`) and `XLSX.read` are not modelled. Each file comes with what reading produced: a parsed workbook, or the message of the error that reading raised.
- `sheet_to_json`, `decode_range` and `encode_cell` are not modelled. A sheet is given as its dense rows, its address-keyed cells and its decoded range.
- `SheetNames` is taken to be a list of names. A workbook whose sheet names are missing altogether is not modelled. For such a workbook the call `sheetNames.join(...)` inside the second log line (src/excelextractordemo.tsx:49) throws.
- Cells.CellText: `String(v)` of numbers, booleans and dates is represented by the empty string. None of those strings contains a scan label, and none matches either header pattern; `HeaderScan.NonTextCellUnseen` proves that the model's empty string behaves so.
- A sheet's rows are not tied to its range. `sheet_to_json` reads a sheet without '!ref' as no rows, so a model sheet without a range but with rows describes no real sheet. `Extractor.RangelessSheet` states what the real case, no range and no rows, yields.
- Text.Lower: only ASCII letters are case-folded; JavaScript's full Unicode `toLowerCase` is not modelled. `\s` is modelled as ASCII white space only, without the Unicode spaces JavaScript also counts.
- Log events are values. The text of the log lines is not modelled: icons, `toLocaleString` number formatting, and the city and state in the store line.
- Extractor.Extract: the only exception modelled is the one from a missing first sheet, which surfaces at the range read. The error is the fault `FirstSheetMissing`, not JavaScript's message text.
- Numbers are exact reals, so IEEE-754 rounding in the sums is not modelled. `transactionCount` is a real, as the cell value is.
- Records.AddressOf: the lookup covers the table's own entries only. Keys inherited from `Object.prototype`, such as "constructor", are not modelled.
- Batch.ProcessExcelFiles: `await` and the React state updates around the loop are not modelled.

The model uses these loop shapes:

- The header loops are a row method and an outer method.
- Each grid scan is a row method, a per-cell method and an outer method.
- The probe loops are one method shared by both scans.
