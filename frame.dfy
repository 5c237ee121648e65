/**
 * The DataFrame that the cleaner and the duplicate flagger work on: a set of
 * column names and a sequence of rows. A row holds one cell per modelled
 * column; a cell of a column that the frame does not have is never read.
 */
module Frames {
  import opened Wrappers

  datatype Column =
    | Title | SupplierName | Location | Description | NumericPrice | PriceUnit | Category
    | PriceOutlier | StandardizedUnit | ExtractedState | DedupKey | IsDuplicate

  /** One row; `None` is a null cell (NaN or None). */
  datatype Row = Row(
    title: Option<string>,
    supplierName: Option<string>,
    location: Option<string>,
    description: Option<string>,
    numericPrice: Option<real>,
    priceUnit: Option<string>,
    category: Option<string>,
    priceOutlier: bool,
    standardizedUnit: Option<string>,
    extractedState: Option<string>,
    dedupKey: Option<string>,
    isDuplicate: bool)

  /** A DataFrame object: callers that hold it see the updates that the cleaning stages make in place. */
  class Frame {
    var columns: set<Column>
    var rows: seq<Row>

    constructor (columns: set<Column>, rows: seq<Row>)
      ensures this.columns == columns && this.rows == rows
    {
      this.columns := columns;
      this.rows := rows;
    }
  }
}
