/**
  The CSV export of the LCA results table: a header row, then one row per results
  row with its metric, value and score, written one after another into a buffer.
*/
module LcaCsv {
  import opened Lca

  /** One CSV cell, before the writer renders it as text. */
  datatype Field = Text(text: string) | Amount(measure: Measure) | Integer(value: int)

  const Header: seq<Field> := [Text("Metric"), Text("Value"), Text("Score")]

  /** The cells written for one results row: its metric, value and score. */
  function RowFields(r: ResultRow): seq<Field> {
    [Text(r.metric), Amount(r.value), Integer(r.score)]
  }

  /** The rows of the export for the given results, as a specification: the header, then the results rows in order. */
  function CsvRows(results: seq<ResultRow>): seq<seq<Field>> {
    if |results| == 0 then [Header]
    else CsvRows(results[..|results| - 1]) + [RowFields(results[|results| - 1])]
  }

  /** A CSV writer over an in-memory buffer: the rows written so far. */
  class CsvWriter {
    var rows: seq<seq<Field>>

    constructor()
      ensures rows == []
    {
      rows := [];
    }

    /** Appends one row to the buffer. */
    method WriteRow(row: seq<Field>)
      modifies this
      ensures rows == old(rows) + [row]
    {
      rows := rows + [row];
    }
  }

  /** `create_csv`: writes the header, then each results row in order, and returns what was written. */
  method CreateCsv(results: seq<ResultRow>) returns (csv: seq<seq<Field>>)
    ensures csv == CsvRows(results)
  {
    var writer := new CsvWriter();
    writer.WriteRow([Text("Metric"), Text("Value"), Text("Score")]);
    for i := 0 to |results|
      invariant writer.rows == CsvRows(results[..i])
    {
      assert results[..i + 1][..i] == results[..i];
      var row := results[i];
      writer.WriteRow([Text(row.metric), Amount(row.value), Integer(row.score)]);
    }
    assert results[..|results|] == results;
    csv := writer.rows;
  }

  /**
    The export has one row more than the results: the header first, then row i + 1
    holding exactly the metric, value and score of results row i.
  */
  lemma {:induction false} CsvRowsShape(results: seq<ResultRow>)
    ensures var rows := CsvRows(results);
      |rows| == |results| + 1 && rows[0] == Header &&
      forall i :: 0 <= i < |results| ==> rows[i + 1] == RowFields(results[i])
  {
    if |results| > 0 {
      CsvRowsShape(results[..|results| - 1]);
    }
  }

  /** Exporting the results table gives five rows: the header, then the four metrics in their fixed order. */
  lemma {:induction false} TableExport(i: Impacts)
    ensures var rows := CsvRows(ResultTable(i));
      |rows| == 5 && rows[0] == Header &&
      forall k :: 0 <= k < 4 ==>
        rows[k + 1] == RowFields(ResultTable(i)[k]) && rows[k + 1][0] == Text(Metrics[k])
  {
    CsvRowsShape(ResultTable(i));
  }
}
