/**
 * One workbook to one store record: the first sheet's header scan, the
 * labeled-scalar and revenue-category scans over its range, the derived
 * fields, and the failure path when the first sheet cannot be read.
 */
module Extractor {
  import opened Wrappers
  import opened Text
  import opened Cells
  import opened Events
  import opened Patterns
  import opened HeaderScan
  import opened GridScan
  import opened Records

  /**
   * A parsed worksheet: the dense rows the header scan reads, the sparse
   * address-keyed cells the grid scans read, and the decoded '!ref' range
   * when the sheet has one.
   */
  datatype Sheet = Sheet(rows: seq<seq<Cell>>, cells: Grid, ref: Option<Range>)

  /** A parsed workbook: sheet names in workbook order and the sheets by name. */
  datatype Workbook = Workbook(sheetNames: seq<string>, sheets: map<string, Sheet>)

  /** `workbook.Sheets[sheetNames[0]]`: nothing when there is no first name or no sheet under it. */
  function FirstSheet(wb: Workbook): (sheet: Option<Sheet>)
    ensures sheet.Some? <==> |wb.sheetNames| > 0 && wb.sheetNames[0] in wb.sheets
  {
    if |wb.sheetNames| > 0 && wb.sheetNames[0] in wb.sheets then Some(wb.sheets[wb.sheetNames[0]]) else None
  }

  /** The range both grid scans use: the sheet's own, or 'A1:Z100' when it has none. */
  function SheetRange(sheet: Sheet): (range: Range)
    ensures sheet.ref.None? ==> range == FallbackRange
  {
    if sheet.ref.Some? then sheet.ref.value else FallbackRange
  }

  /** What `extractDataFromExcel` returns: the record and the log, or the log and the error. */
  datatype Extraction =
    | Succeeded(data: StoreRecord, log: seq<LogEvent>)
    | Failed(log: seq<LogEvent>, error: Fault)

  /**
   * The record the extractor builds from a readable first sheet, stated with
   * the specifications of the three scans.
   */
  function SheetRecord(sheet: Sheet, filename: string): StoreRecord
  {
    var sightings := Sightings(HeaderCells(sheet.rows));
    var range := SheetRange(sheet);
    BuildRecord(HeaderMonth(sightings), HeaderStore(sightings),
                Buckets(sheet.cells, RevenueArea(range)),
                FirstFound(sheet.cells, OrderCount, ScalarArea(range)),
                FirstFound(sheet.cells, NetSales, ScalarArea(range)),
                filename)
  }

  /**
   * Every record the extractor returns: it names its file; its store number
   * is empty or five digits; its address is the table's; its total is the
   * larger of the revenue breakdown and net sales; each revenue field is 0 or
   * above 100; and an "oj beverages" amount never appears without a
   * "beverage" amount.
   */
  lemma SheetRecordFacts(sheet: Sheet, filename: string)
    ensures var r := SheetRecord(sheet, filename);
            r.filename == filename &&
            (r.storeNumber == "" || (|r.storeNumber| == 5 && AllDigits(r.storeNumber))) &&
            r.storeAddress == AddressOf(r.storeNumber) &&
            Consistent(r) &&
            BucketValue(r.dairyQueen) && BucketValue(r.dqFood) && BucketValue(r.beverages) &&
            BucketValue(r.breakfast) && BucketValue(r.cakes) && BucketValue(r.ojBeverages) &&
            r.totalSales >= 0.0 &&
            (r.ojBeverages != 0.0 ==> r.beverages != 0.0)
  {
    var range := SheetRange(sheet);
    var area := RevenueArea(range);
    var buckets := Buckets(sheet.cells, area);
    HeaderStoreShape(HeaderCells(sheet.rows));
    forall k | 0 <= k < CategoryCount
      ensures BucketValue(buckets[k])
    {
      assert buckets[k] == FirstFound(sheet.cells, CategoryRule(k), area);
    }
    var sightings := Sightings(HeaderCells(sheet.rows));
    BuildRecordBuckets(HeaderMonth(sightings), HeaderStore(sightings), buckets,
                       FirstFound(sheet.cells, OrderCount, ScalarArea(range)),
                       FirstFound(sheet.cells, NetSales, ScalarArea(range)), filename);
    OjFoundImpliesBeverageFound(sheet.cells, area);
  }

  /**
   * A sheet without a '!ref' range, whose rows `sheet_to_json` therefore
   * reads as none: no store number, no month, the fallback address text, and
   * the two scalars searched for over 'A1:Z100'.
   */
  lemma RangelessSheet(sheet: Sheet, filename: string)
    requires sheet.ref.None? && sheet.rows == []
    ensures var r := SheetRecord(sheet, filename);
            r.storeNumber == "" && r.month == "" && r.storeAddress == AddressNotFound &&
            r.netSalesWithDonations == FirstFound(sheet.cells, NetSales, ScalarArea(FallbackRange)) &&
            r.transactionCount == FirstFound(sheet.cells, OrderCount, ScalarArea(FallbackRange))
  {
    assert HeaderCells(sheet.rows) == [];
    var ss := Sightings(HeaderCells(sheet.rows));
    assert ss == [];
    assert StoreIndex(ss) == 0;
    assert ss[..0] == [];
    assert HeaderStore(ss) == "" && HeaderMonth(ss) == "";
    assert SheetRange(sheet) == FallbackRange;
    NoStoreNoAddress();
  }

  /**
   * What the three scans of a readable first sheet log, in the order they
   * run: the header scan, the labeled-scalar scan, the revenue scan.
   */
  function SheetLog(sheet: Sheet): seq<LogEvent>
  {
    var range := SheetRange(sheet);
    HeaderLog(Sightings(HeaderCells(sheet.rows))) +
    ScalarRun(sheet.cells, ScalarArea(range)).log + RevenueRun(sheet.cells, RevenueArea(range)).log
  }

  /**
   * What `extractDataFromExcel` produces for a workbook: the log of the three
   * scans between the opening and closing events and the record; or, when
   * the first sheet is missing, the opening events, the error event and the
   * fault. The header scan of a missing sheet runs over no rows and logs
   * nothing.
   */
  function Extract(wb: Workbook, filename: string): (result: Extraction)
    ensures result.Succeeded? <==> |wb.sheetNames| > 0 && wb.sheetNames[0] in wb.sheets
  {
    var opening := [Processing(filename), FoundSheets(wb.sheetNames)];
    var sheet := FirstSheet(wb);
    if sheet.None? then
      Failed(opening + [ExtractionError(FirstSheetMissing)], FirstSheetMissing)
    else
      Succeeded(SheetRecord(sheet.value, filename), opening + SheetLog(sheet.value) + [Completed])
  }

  /**
   * The log of an extraction opens with the file and its sheet names; it
   * closes with the completion event on success, and with the error event on
   * failure, which is always the missing first sheet.
   */
  lemma ExtractLog(wb: Workbook, filename: string)
    ensures var result := Extract(wb, filename);
            |result.log| >= 3 &&
            result.log[0] == Processing(filename) && result.log[1] == FoundSheets(wb.sheetNames) &&
            result.log[|result.log| - 1] == (if result.Succeeded? then Completed else ExtractionError(FirstSheetMissing)) &&
            (result.Failed? ==> result.error == FirstSheetMissing && |result.log| == 3)
  {
    var opening := [Processing(filename), FoundSheets(wb.sheetNames)];
    var sheet := FirstSheet(wb);
    if sheet.Some? {
      Framed(opening, SheetLog(sheet.value), Completed);
    } else {
      Framed(opening, [], ExtractionError(FirstSheetMissing));
      assert opening + [] == opening;
    }
  }

  /** The events of the three scans, appended one after another, are the sheet's log appended at once. */
  lemma Regroup(opening: seq<LogEvent>, headerLog: seq<LogEvent>, scalarLog: seq<LogEvent>, revenueLog: seq<LogEvent>)
    ensures opening + headerLog + scalarLog + revenueLog == opening + (headerLog + scalarLog + revenueLog)
  {
  }

  /** A log made of a two-event opening, any middle part and one closing event. */
  lemma Framed(opening: seq<LogEvent>, middle: seq<LogEvent>, closing: LogEvent)
    requires |opening| == 2
    ensures var log := opening + middle + [closing];
            |log| >= 3 && log[0] == opening[0] && log[1] == opening[1] && log[|log| - 1] == closing
  {
  }

  /**
   * `extractDataFromExcel`: log the file and its sheet names, run the header
   * scan over the first sheet's rows, then the two grid scans over its range,
   * and build the record. Reading the range of a missing first sheet throws;
   * the catch logs the error and reports failure without a record.
   */
  method ExtractDataFromExcel(wb: Workbook, filename: string) returns (result: Extraction)
    ensures result == Extract(wb, filename)
  {
    var log := [Processing(filename)];
    log := log + [FoundSheets(wb.sheetNames)];
    ghost var opening := log;
    assert opening == [Processing(filename), FoundSheets(wb.sheetNames)];
    var sheet := FirstSheet(wb);
    // sheet_to_json of a missing sheet yields no rows
    var rows := if sheet.Some? then sheet.value.rows else [];
    var storeNumber, month, headerLog := ScanHeader(rows);
    log := log + headerLog;
    if sheet.None? {
      assert HeaderCells(rows) == [];
      log := log + [ExtractionError(FirstSheetMissing)];
      return Failed(log, FirstSheetMissing);
    }
    var range := SheetRange(sheet.value);
    var g := sheet.value.cells;
    var netSales, orderCount, scalarLog := ScanScalars(g, range);
    var revenues, revenueLog := ScanRevenues(g, range);
    Regroup(opening, headerLog, scalarLog, revenueLog);
    log := log + scalarLog + revenueLog + [Completed];
    var data := BuildRecord(month, storeNumber, revenues, orderCount, netSales, filename);
    assert data == SheetRecord(sheet.value, filename);
    return Succeeded(data, log);
  }
}
