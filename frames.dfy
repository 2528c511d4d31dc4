/**
 * The series as the script handles it: a pandas DataFrame indexed by timestamp,
 * here a sequence of records, each a timestamp and one cell per column.
 */
module Frames {
  import opened Timestamps

  /**
   * A cell as `pd.to_numeric(..., errors='coerce')` sees it: a number, or anything
   * that coerces to NaN (a malformed text, a missing value, NaN itself).
   */
  datatype Cell = Num(value: real) | NonNum

  /** One row of the frame: its index timestamp and its cells, in column order. */
  datatype Record = Record(ts: Timestamp, cells: seq<Cell>)

  /** Every row has one cell per column, as in any DataFrame. */
  predicate Rectangular(columns: seq<string>, rows: seq<Record>) {
    forall i :: 0 <= i < |rows| ==> |rows[i].cells| == |columns|
  }

  /** `DataFrame.rename(columns=mapping)`: a column named in the mapping takes its new name, the others keep theirs. */
  function RenamedColumns(columns: seq<string>, mapping: map<string, string>): (r: seq<string>)
    ensures |r| == |columns|
    ensures forall i :: 0 <= i < |columns| && columns[i] in mapping ==> r[i] == mapping[columns[i]]
    ensures forall i :: 0 <= i < |columns| && columns[i] !in mapping ==> r[i] == columns[i]
  {
    seq(|columns|, i requires 0 <= i < |columns| => if columns[i] in mapping then mapping[columns[i]] else columns[i])
  }

  /** A DataFrame whose column labels the script changes in place. */
  class Frame {
    var columns: seq<string>
    var rows: seq<Record>

    constructor (columns: seq<string>, rows: seq<Record>)
      ensures this.columns == columns && this.rows == rows
    {
      this.columns := columns;
      this.rows := rows;
    }

    /** `rename(columns=mapping, inplace=True)`: relabels the columns; the rows are untouched. */
    method Rename(mapping: map<string, string>)
      modifies this
      ensures columns == RenamedColumns(old(columns), mapping)
      ensures rows == old(rows)
    {
      columns := RenamedColumns(columns, mapping);
    }
  }
}
