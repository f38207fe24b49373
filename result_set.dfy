/**
 * The part of an Athena `GetQueryResults` answer that the service reads: a result
 * set is an optional list of rows, a row an optional list of cells, and a cell an
 * optional `VarCharValue`. Row 0 holds the column names.
 */
module ResultSets {
  import opened Wrappers

  datatype Datum = Datum(varCharValue: Option<string>)

  datatype Row = Row(data: Option<seq<Datum>>) {
    /** The cells of the row; an absent `Data` list reads as no cells. */
    function Cells(): seq<Datum> {
      data.GetOr([])
    }
  }

  datatype ResultSet = ResultSet(rows: Option<seq<Row>>)
}
