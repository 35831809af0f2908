/**
 * The diagnostic log. Each entry the extractor and the batch loop push is an
 * event value here; the human-readable text (icons, locale number formatting)
 * is not modelled.
 */
module Events {

  /** Why an extraction failed: the workbook has no first sheet to read. */
  datatype Fault = FirstSheetMissing

  datatype LogEvent =
    | Processing(filename: string)
    | FoundSheets(names: seq<string>)
    | FoundStore(storeNumber: string)
    | FoundMonth(month: string)
    | FoundNetSales(amount: real)
    | FoundOrderCount(count: real)
    | FoundCategory(category: string, amount: real)
    | Completed
    | ExtractionError(fault: Fault)
    | ProcessedOk(filename: string)
    | ProcessFailed(filename: string, fault: Fault)
    | ReadError(filename: string, message: string)
    | GeneratedTotals(stores: nat)
}
