/** The CSV side of the archive handler: a table as `csv.DictReader` hands
    it over (a header line, then one dictionary per data row), and
    `read_csv_without_pandas`, which returns the requested column of the
    first row that has it. */
module Csv {
  import opened Wrappers

  datatype Table = Table(header: seq<string>, rows: seq<map<string, string>>)

  /** Every row is keyed by exactly the header's field names, as DictReader
      produces for rows with as many fields as the header. */
  predicate WellFormed(t: Table) {
    forall i :: 0 <= i < |t.rows| ==>
      (forall k :: k in t.rows[i] ==> k in t.header) && (forall k :: k in t.header ==> k in t.rows[i])
  }

  /** A table as the archive handlers receive it from the CSV reader. */
  type ParsedTable = t: Table | WellFormed(t) witness Table([], [])

  /** The value of `column` in the first row that has it. */
  function FirstValue(rows: seq<map<string, string>>, column: string): (r: Option<string>)
    ensures r.Some? ==> exists i :: 0 <= i < |rows| && column in rows[i] && rows[i][column] == r.value
    ensures r.None? <==> forall i :: 0 <= i < |rows| ==> column !in rows[i]
  {
    if rows == [] then None
    else if column in rows[0] then Some(rows[0][column])
    else
      var r := FirstValue(rows[1..], column);
      assert forall i :: 1 <= i < |rows| ==> rows[i] == rows[1..][i - 1];
      r
  }

  /** `read_csv_without_pandas(path, column)`: scans the rows and returns on
      the first one that has the column, or `None` after the last. */
  method ReadCsvWithoutPandas(t: Table, column: string) returns (r: Option<string>)
    ensures r == FirstValue(t.rows, column)
  {
    var i := 0;
    while i < |t.rows|
      invariant 0 <= i <= |t.rows|
      invariant FirstValue(t.rows, column) == FirstValue(t.rows[i..], column)
    {
      if column in t.rows[i] {
        return Some(t.rows[i][column]);
      }
      assert t.rows[i..][1..] == t.rows[i + 1..];
      i := i + 1;
    }
    return None;
  }

  /** On a table DictReader produced, the scan stops at the first data row:
      the result is that row's value when the header names the column, and
      `None` when it does not or when there is no data row. */
  lemma {:induction false} FirstValueIsFirstRow(t: Table, column: string)
    requires WellFormed(t)
    ensures FirstValue(t.rows, column)
            == if column in t.header && |t.rows| > 0 then Some(t.rows[0][column]) else None
  {
    if |t.rows| > 0 {
      assert column in t.rows[0] <==> column in t.header;
    }
    if |t.rows| > 0 && column !in t.header {
      forall i | 0 <= i < |t.rows| ensures column !in t.rows[i] {
      }
    }
  }
}
