/**
 * The parsed worksheet as the extractor sees it: typed cell values, the sparse
 * address-keyed cell map, the sheet's bounding range and the dense row arrays.
 */
module Cells {

  /**
   * A cell value. `Text` and `Num` are the two kinds the extractor inspects;
   * `Bool` and `Date` stand for the other typed values, `Blank` for a stub
   * cell that has no value.
   */
  datatype Cell = Text(s: string) | Num(v: real) | Bool(b: bool) | Date | Blank

  /** JavaScript truthiness of the cell's value (`cell.v` in a condition). */
  predicate Truthy(c: Cell) {
    match c
    case Text(s) => s != ""
    case Num(v) => v != 0.0
    case Bool(b) => b
    case Date => true
    case Blank => false
  }

  /**
   * The part of `String(v)` the extractor's matching can see. The string forms
   * of numbers, booleans and dates contain none of the labels the scans look
   * for and match neither header pattern, so they are represented by "".
   */
  function CellText(c: Cell): (t: string)
    ensures c.Text? ==> t == c.s
    ensures !c.Text? ==> t == ""
  {
    if c.Text? then c.s else ""
  }

  /** A cell address, (row, column), both 0-based. */
  type Pos = (int, int)

  /** The sparse worksheet: absent addresses are empty cells. */
  type Grid = map<Pos, Cell>

  /** A decoded range: start row and column, end row and column, all inclusive. */
  datatype Range = Range(sr: int, sc: int, er: int, ec: int)

  /** The range the extractor falls back to when the sheet has none: 'A1:Z100'. */
  const FallbackRange: Range := Range(0, 0, 99, 25)
}
