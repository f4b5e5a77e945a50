/** Shared value types of the dashboard's data core. */
module Common {

  /** A value that may be absent: JavaScript `undefined`/`null`, Python `None`. */
  datatype Option<+T> = None | Some(value: T) {
    function GetOr(default: T): T {
      match this
      case Some(v) => v
      case None => default
    }
  }

  /** A row of the uploaded table: one text cell per column. */
  type Row = seq<string>

  /** The parsed dataset: row 0 is the header, rows 1.. are data rows. */
  type Grid = seq<Row>

  /** `rows.slice(1)`: the data rows below the header (none when there is no header). */
  function DataRows(rows: Grid): (data: Grid)
    ensures |data| == if |rows| == 0 then 0 else |rows| - 1
    ensures forall i :: 0 <= i < |data| ==> data[i] == rows[i + 1]
  {
    if |rows| == 0 then [] else rows[1..]
  }

  /** `row[i]` in JavaScript: the cell, or `undefined` when `i` is outside the row. */
  function Cell(row: Row, i: int): (c: Option<string>)
    ensures c.Some? <==> 0 <= i < |row|
    ensures c.Some? ==> c.value == row[i]
  {
    if 0 <= i < |row| then Some(row[i]) else None
  }

  /** JavaScript truthiness of a cell read: `undefined` and `""` are falsy. */
  predicate Truthy(c: Option<string>) {
    c.Some? && c.value != ""
  }

  /** True when no value occurs twice in `s`. */
  ghost predicate Distinct<T>(s: seq<T>) {
    forall i, j :: 0 <= i < j < |s| ==> s[i] != s[j]
  }
}
