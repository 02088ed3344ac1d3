/**
 * `_process_balance_sheet_table`, `_process_profit_loss_table` and
 * `_process_cash_flow_table`. The three have the same body, so one method
 * models them: every row with a label in its first cell that names a
 * metric turns each later cell that cleans to a number into one record.
 */
module TableProcessor {
  import opened Wrappers
  import opened Text
  import opened ValueCleaner
  import opened MetricClassifier
  import opened Seqs

  /** One dictionary the processors append to `data`. */
  datatype Record = Record(metricType: MetricType, description: string, value: real, fiscalYear: string)

  /** A table row as pdfplumber extracts it: each cell holds text or nothing. */
  type Row = seq<Option<string>>

  type Table = seq<Row>

  /** `f"202{4-i}" if i <= 2 else "2023-24"`, the year given to column `i`. */
  function FiscalYear(i: nat): (y: string)
    requires i >= 1
    ensures i == 1 ==> y == "2023"
    ensures i == 2 ==> y == "2022"
    ensures i >= 3 ==> y == "2023-24"
  {
    if i <= 2 then "202" + [('0' as int + 4 - i) as char] else "2023-24"
  }

  /** `row[0].strip() if row[0] else ""`: the label of a row. */
  function Label(cell: Option<string>): (name: string)
    ensures name == [] || (!IsSpace(name[0]) && !IsSpace(name[|name| - 1]))
    ensures cell.None? ==> name == []
  {
    if cell.None? || cell.value == "" then "" else Strip(cell.value)
  }

  /** `clean_value` applied to every cell of a row. */
  function CleanCells(row: Row): seq<Option<real>> {
    Map(CleanValue, row)
  }

  /** The record column `i` contributes, if its cell cleaned to a number. */
  function Emit(values: seq<Option<real>>, m: MetricType, name: string, i: nat): seq<Record>
    requires 1 <= i < |values|
  {
    if values[i].Some? then [Record(m, name, values[i].value, FiscalYear(i))] else []
  }

  /** The records columns `1 .. j-1` of a row contribute, in column order. */
  function CellRecords(values: seq<Option<real>>, m: MetricType, name: string, j: nat): seq<Record>
    requires j <= |values|
  {
    if j <= 1 then [] else CellRecords(values, m, name, j - 1) + Emit(values, m, name, j - 1)
  }

  lemma CellRecordsStep(values: seq<Option<real>>, m: MetricType, name: string, i: nat)
    requires 1 <= i < |values|
    ensures CellRecords(values, m, name, i + 1) == CellRecords(values, m, name, i) + Emit(values, m, name, i)
  {
  }

  /** The records one row contributes. */
  function RowRecords(row: Row): seq<Record> {
    if |row| < 2 then []
    else
      var name := Label(row[0]);
      if name == "" then []
      else
        match FindMetricType(name)
        case None => []
        case Some(m) => CellRecords(CleanCells(row), m, name, |row|)
  }

  /** The records a whole table yields, row after row. */
  function TableRecords(table: Table): seq<Record> {
    FlatMap(RowRecords, table)
  }

  /** `_process_*_table(table)`. */
  method ProcessTable(table: Table) returns (data: seq<Record>)
    ensures data == TableRecords(table)
  {
    data := [];
    var k := 0;
    while k < |table|
      invariant 0 <= k <= |table|
      invariant data == TableRecords(table[..k])
    {
      FlatMapPrefix(RowRecords, table, k);
      var rowData := ProcessRow(table[k]);
      data := data + rowData;
      k := k + 1;
    }
    assert table[..|table|] == table;
  }

  /** The body of the `for row in table` loop: the `continue` guards, then the columns. */
  method ProcessRow(row: Row) returns (rowData: seq<Record>)
    ensures rowData == RowRecords(row)
  {
    rowData := [];
    if |row| < 2 {
      return;
    }
    var name := Label(row[0]);
    if name == "" {
      return;
    }
    var metricType := FindMetricType(name);
    if metricType.None? {
      return;
    }
    CleanCellsEach(row);
    rowData := ProcessCells(row, CleanCells(row), metricType.value, name);
  }

  /**
   * The inner `for i in range(1, len(row))` loop over one classified row.
   */
  method ProcessCells(row: Row, ghost values: seq<Option<real>>, m: MetricType, name: string) returns (cells: seq<Record>)
    requires |row| >= 1 && CleanedFrom(row, values)
    ensures cells == CellRecords(values, m, name, |row|)
  {
    cells := [];
    var i := 1;
    while i < |row|
      invariant 1 <= i <= |row|
      invariant cells == CellRecords(values, m, name, i)
    {
      cells := EmitCell(cells, row, values, m, name, i);
      i := i + 1;
    }
  }

  /** The body of the column loop: `clean_value(row[i])` and, for a number, the `data.append(...)`. */
  method EmitCell(cells: seq<Record>, row: Row, ghost values: seq<Option<real>>, m: MetricType, name: string, i: nat)
    returns (cells': seq<Record>)
    requires 1 <= i < |row| && CleanedFrom(row, values)
    requires cells == CellRecords(values, m, name, i)
    ensures cells' == CellRecords(values, m, name, i + 1)
  {
    CellRecordsStep(values, m, name, i);
    var value := CleanValue(row[i]);
    if value.Some? {
      cells' := cells + [Record(m, name, value.value, FiscalYear(i))];
    } else {
      cells' := cells;
    }
  }

  /** `values` are the cells of `row` as `clean_value` reads them. */
  predicate CleanedFrom(row: Row, values: seq<Option<real>>) {
    |values| == |row| && forall i {:trigger CleanValue(row[i])} :: 0 <= i < |row| ==> values[i] == CleanValue(row[i])
  }

  /** The cleaned cells of a row, one by one. */
  lemma CleanCellsEach(row: Row)
    ensures CleanedFrom(row, CleanCells(row))
  {
    forall i | 0 <= i < |row|
      ensures CleanCells(row)[i] == CleanValue(row[i])
    {
      MapAt(CleanValue, row, i);
    }
  }

  /** Column `i` of `row` yields record `r`: the conditions the loops test, all at once. */
  predicate Produces(row: Row, i: int, r: Record) {
    2 <= |row| && 1 <= i < |row| &&
    r.description == Label(row[0]) && r.description != "" &&
    FindMetricType(r.description) == Some(r.metricType) &&
    CleanValue(row[i]) == Some(r.value) &&
    r.fiscalYear == FiscalYear(i)
  }

  lemma {:induction false} CellRecordsMembership(values: seq<Option<real>>, m: MetricType, name: string, j: nat, r: Record)
    requires j <= |values|
    ensures r in CellRecords(values, m, name, j) <==>
            exists i :: 1 <= i < j && r == Record(m, name, r.value, FiscalYear(i)) && values[i] == Some(r.value)
  {
    if j > 1 {
      CellRecordsMembership(values, m, name, j - 1, r);
      CellRecordsStep(values, m, name, j - 1);
    }
  }

  /** A record comes out of a row exactly when some column of that row produces it. */
  lemma RowRecordsMembership(row: Row, r: Record)
    ensures r in RowRecords(row) <==> exists i :: Produces(row, i, r)
  {
    var values := CleanCells(row);
    if r in RowRecords(row) {
      var name := Label(row[0]);
      var m := FindMetricType(name).value;
      CellRecordsMembership(values, m, name, |row|, r);
      var i :| 1 <= i < |row| && r == Record(m, name, r.value, FiscalYear(i)) && values[i] == Some(r.value);
      MapAt(CleanValue, row, i);
      assert Produces(row, i, r);
    }
    if exists i :: Produces(row, i, r) {
      var i :| Produces(row, i, r);
      MapAt(CleanValue, row, i);
      CellRecordsMembership(values, r.metricType, r.description, |row|, r);
    }
  }

  /** A record comes out of a table exactly when some column of some row produces it. */
  lemma TableRecordsMembership(table: Table, r: Record)
    ensures r in TableRecords(table) <==> exists k, i :: 0 <= k < |table| && Produces(table[k], i, r)
  {
    FlatMapMembership(RowRecords, table, r);
    if r in TableRecords(table) {
      var k :| 0 <= k < |table| && r in RowRecords(table[k]);
      RowRecordsMembership(table[k], r);
    }
    if exists k, i :: 0 <= k < |table| && Produces(table[k], i, r) {
      var k, i :| 0 <= k < |table| && Produces(table[k], i, r);
      RowRecordsMembership(table[k], r);
    }
  }

  /** What a producing column tells about its record. */
  lemma ProducesWellFormed(row: Row, i: int, r: Record)
    requires Produces(row, i, r)
    ensures r.description != "" && Strip(r.description) == r.description
    ensures FindMetricType(r.description) == Some(r.metricType)
    ensures r.fiscalYear == "2023" || r.fiscalYear == "2022" || r.fiscalYear == "2023-24"
  {
    var d := r.description;
    assert d == Label(row[0]) && d != [];
    assert !IsSpace(d[0]) && !IsSpace(d[|d| - 1]);
    StripNoop(d);
    assert 1 <= i;
  }

  /** Every record names the metric its own description classifies as, and a year of the three the processors use. */
  lemma RecordWellFormed(table: Table, r: Record)
    requires r in TableRecords(table)
    ensures r.description != "" && Strip(r.description) == r.description
    ensures FindMetricType(r.description) == Some(r.metricType)
    ensures r.fiscalYear == "2023" || r.fiscalYear == "2022" || r.fiscalYear == "2023-24"
  {
    TableRecordsMembership(table, r);
    var k, i :| 0 <= k < |table| && Produces(table[k], i, r);
    ProducesWellFormed(table[k], i, r);
  }

  /** Processing two tables one after the other gives the records of both, in order. */
  lemma TableRecordsConcat(a: Table, b: Table)
    ensures TableRecords(a + b) == TableRecords(a) + TableRecords(b)
  {
    FlatMapConcat(RowRecords, a, b);
  }

  /** A row yields at most one record per value column. */
  lemma {:induction false} CellRecordsLength(values: seq<Option<real>>, m: MetricType, name: string, j: nat)
    requires j <= |values|
    ensures |CellRecords(values, m, name, j)| <= if j == 0 then 0 else j - 1
  {
    if j > 1 {
      CellRecordsLength(values, m, name, j - 1);
    }
  }

  lemma RowRecordsLength(row: Row)
    ensures |RowRecords(row)| <= if |row| == 0 then 0 else |row| - 1
  {
    if |row| >= 2 {
      var name := Label(row[0]);
      if name != "" && FindMetricType(name).Some? {
        CellRecordsLength(CleanCells(row), FindMetricType(name).value, name, |row|);
      }
    }
  }
}
