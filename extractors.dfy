/**
 * The four report builders of Diary_Library.py (process_report_1 to
 * process_report_4): each locates its table in the sheet, turns every
 * row whose date cell parses into a record of named metrics, and hands
 * the records to create_monthly_report; the report is saved next to the
 * workbook under a name that ends in the report's tag.
 */
module Extractors {
  import opened Results
  import opened Numbers
  import opened Calendar
  import opened Cells
  import opened Sheet
  import opened Grouping
  import opened Report
  import opened Paths
  import opened Vectors
  import Layout

  /** The exceptions the builders let through. */
  datatype Failure =
    | ValueError(msg: string) // raised on purpose, with its message
    | IndexError              // a row too short for a column the builder reads

  /**
   * How a builder reads a data row: metric m is the sum of to_number over
   * the columns metrics[m]; a guarded builder skips empty rows and rows
   * whose date cell is falsy before it looks at the date.
   */
  datatype Mapping = Mapping(metrics: seq<seq<nat>>, guarded: bool)

  /** Every builder reads the date from column 1. */
  const DateColumn: nat := 1

  const NoData := "Нет данных для обработки."

  /** Part 1.1, users: the seven age groups. */
  const Users := Mapping([[7], [8], [9], [10], [11], [13], [14]], false)
  /** Reader sign-ups: the contracts column. */
  const SignUps := Mapping([[2]], true)
  /** Part 1.2, visits: Посещения, КДФ, Почта, Телефон, В стационарных условиях, Справки 1-3. */
  const Visits := Mapping([[4, 7, 9, 13], [12], [21], [20], [16], [17], [18], [19]], false)
  /** Book issues: Всего, Детям до 14 лет вкл., Подростки 15-17 лет, Молодежь 18-35 лет. */
  const Issues := Mapping([[2], [5, 6, 7], [8], [9]], true)

  /** A row as to_number reads it, cell by cell. */
  function Readings(row: seq<Cell>): (n: seq<int>)
    ensures |n| == |row|
  {
    seq(|row|, i requires 0 <= i < |row| => ToNumber(row[i]))
  }

  /** The sum of the values `nums` holds at the columns `cols`, left to right; IndexError past its end. */
  function SumColumns(nums: seq<int>, cols: seq<nat>): (r: Result<int, Failure>)
    ensures r.Err? ==> r.error == IndexError
  {
    if cols == [] then Ok(0)
    else
      match SumColumns(nums, cols[..|cols| - 1])
      case Err(e) => Err(e)
      case Ok(s) =>
        var c := cols[|cols| - 1];
        if c < |nums| then Ok(s + nums[c]) else Err(IndexError)
  }

  /** The sum fails exactly when one of the columns lies past the end of the row. */
  lemma {:induction false} SumColumnsInRange(nums: seq<int>, cols: seq<nat>)
    ensures SumColumns(nums, cols).Ok? <==> forall i :: 0 <= i < |cols| ==> cols[i] < |nums|
  {
    if cols != [] {
      SumColumnsInRange(nums, cols[..|cols| - 1]);
    }
  }

  /** The metric values of a row, one per entry of `ms`. */
  function MetricsOf(nums: seq<int>, ms: seq<seq<nat>>): (r: Result<seq<int>, Failure>)
    ensures r.Ok? <==> forall m :: 0 <= m < |ms| ==> SumColumns(nums, ms[m]).Ok?
    ensures r.Ok? ==> |r.value| == |ms| && forall m :: 0 <= m < |ms| ==> r.value[m] == SumColumns(nums, ms[m]).value
    ensures r.Err? ==> r.error == IndexError
  {
    if ms == [] then Ok([])
    else
      match MetricsOf(nums, ms[..|ms| - 1])
      case Err(e) => Err(e)
      case Ok(vs) =>
        match SumColumns(nums, ms[|ms| - 1])
        case Err(e) => Err(e)
        case Ok(v) => Ok(vs + [v])
  }

  /** One data row: Ok(None) when it is skipped, Ok(Some(record)), or the exception it raises. */
  function RowRecord(row: seq<Cell>, lay: Mapping): Result<Option<Record>, Failure>
  {
    if lay.guarded && row == [] then Ok(None)
    else if |row| <= DateColumn then Err(IndexError)
    else if lay.guarded && !Truthy(row[DateColumn]) then Ok(None)
    else
      match ParseDate(row[DateColumn])
      case None => Ok(None)
      case Some(d) =>
        match MetricsOf(Readings(row), lay.metrics)
        case Err(e) => Err(e)
        case Ok(vs) => Ok(Some(Record(d, IsoWeek(d), vs)))
  }

  /** How one data row is read. */
  type Reader = seq<Cell> -> Result<Option<Record>, Failure>

  /** The loop of a builder over its rows with `read` for one row: records in row order, the first exception stops it. */
  function Walk(rows: Grid, read: Reader): Result<seq<Record>, Failure>
  {
    if rows == [] then Ok([])
    else
      match Walk(rows[..|rows| - 1], read)
      case Err(e) => Err(e)
      case Ok(rs) => Extend(rs, read(rows[|rows| - 1]))
  }

  /** The records so far, after one more row. */
  function Extend(rs: seq<Record>, next: Result<Option<Record>, Failure>): Result<seq<Record>, Failure>
  {
    match next
    case Err(e) => Err(e)
    case Ok(None) => Ok(rs)
    case Ok(Some(r)) => Ok(rs + [r])
  }

  /** RowRecord for one mapping, as a Reader. */
  function ReaderOf(lay: Mapping): Reader
  {
    row => RowRecord(row, lay)
  }

  /** The records of a builder's data rows. */
  function Records(rows: Grid, lay: Mapping): Result<seq<Record>, Failure>
  {
    Walk(rows, ReaderOf(lay))
  }

  lemma WalkStep(rows: Grid, i: nat, read: Reader)
    requires i < |rows|
    ensures Walk(rows[..i + 1], read)
      == if Walk(rows[..i], read).Err? then Walk(rows[..i], read)
         else Extend(Walk(rows[..i], read).value, read(rows[i]))
  {
    assert rows[..i + 1][..i] == rows[..i];
  }

  /** Once a row has raised, the walk over any longer stretch of rows raises the same. */
  lemma {:induction false} WalkErrStays(rows: Grid, i: nat, read: Reader)
    requires i <= |rows| && Walk(rows[..i], read).Err?
    ensures Walk(rows, read) == Walk(rows[..i], read)
    decreases |rows| - i
  {
    if i < |rows| {
      WalkStep(rows, i, read);
      WalkErrStays(rows, i + 1, read);
    } else {
      assert rows[..i] == rows;
    }
  }

  /** The walk succeeds exactly when every row is read without an exception, and otherwise fails with a row's. */
  lemma {:induction false} WalkSucceeds(rows: Grid, read: Reader)
    ensures Walk(rows, read).Ok? <==> forall i :: 0 <= i < |rows| ==> read(rows[i]).Ok?
    ensures Walk(rows, read).Err? ==> exists i :: 0 <= i < |rows| && read(rows[i]) == Err(Walk(rows, read).error)
  {
    if rows != [] {
      var init := rows[..|rows| - 1];
      WalkSucceeds(init, read);
      assert forall i :: 0 <= i < |init| ==> init[i] == rows[i];
    }
  }

  /** The loop of a builder over its data rows, appending to temp_data. */
  method CollectRecords(rows: Grid, lay: Mapping) returns (r: Result<seq<Record>, Failure>)
    ensures r == Records(rows, lay)
  {
    var recs: seq<Record> := [];
    var i := 0;
    while i < |rows|
      invariant 0 <= i <= |rows| && Walk(rows[..i], ReaderOf(lay)) == Ok(recs)
    {
      WalkStep(rows, i, ReaderOf(lay));
      var next := RowRecord(rows[i], lay);
      if next.Err? {
        r := Err(next.error);
        WalkErrStays(rows, i + 1, ReaderOf(lay));
        return;
      }
      if next.value.Some? {
        recs := recs + [next.value.value];
      }
      i := i + 1;
    }
    assert rows[..i] == rows;
    r := Ok(recs);
  }

  // ---------------------------------------------------------------------
  // What the records are, row by row

  /** A data row that yields a record: it has a date cell and that cell parses. */
  predicate Dated(row: seq<Cell>)
  {
    |row| > DateColumn && ParseDate(row[DateColumn]).Some?
  }

  /** A row that raises: too short for its date cell, or dated but too short for a metric column. */
  predicate Raises(row: seq<Cell>, lay: Mapping)
  {
    if lay.guarded && row == [] then false
    else |row| <= DateColumn || (Dated(row) && exists m :: 0 <= m < |lay.metrics| && SumColumns(Readings(row), lay.metrics[m]).Err?)
  }

  /** The rows that yield records, in order. */
  function DatedRows(rows: seq<seq<Cell>>): (d: seq<seq<Cell>>)
    ensures forall k :: 0 <= k < |d| ==> Dated(d[k])
  {
    if rows == [] then []
    else DatedRows(rows[..|rows| - 1]) + (if Dated(rows[|rows| - 1]) then [rows[|rows| - 1]] else [])
  }

  /** The record of a dated row: its date, that date's ISO week number and its metric values. */
  predicate RecordOf(r: Record, row: seq<Cell>, lay: Mapping)
  {
    Dated(row)
    && r.date == ParseDate(row[DateColumn]).value
    && r.week == IsoWeek(r.date)
    && MetricsFrom(r.metrics, row, lay)
  }

  /** Metric m is the sum the mapping names for it, over the row read as numbers. */
  predicate MetricsFrom(vs: seq<int>, row: seq<Cell>, lay: Mapping)
  {
    |vs| == |lay.metrics|
    && forall m :: 0 <= m < |lay.metrics| ==> SumColumns(Readings(row), lay.metrics[m]) == Ok(vs[m])
  }

  lemma RowRecordFacts(row: seq<Cell>, lay: Mapping)
    ensures RowRecord(row, lay).Err? <==> Raises(row, lay)
    ensures RowRecord(row, lay).Err? ==> RowRecord(row, lay).error == IndexError
    ensures RowRecord(row, lay).Ok? ==> (RowRecord(row, lay).value.Some? <==> Dated(row))
    ensures RowRecord(row, lay).Ok? && RowRecord(row, lay).value.Some? ==> RecordOf(RowRecord(row, lay).value.value, row, lay)
  {
    if |row| > DateColumn && !Truthy(row[DateColumn]) {
      FalsyCellsNeverDate(row[DateColumn]);
    }
  }

  /** The walk succeeds exactly when every row is read without an exception, and otherwise fails with a row's. */
  lemma RecordsSucceed(rows: Grid, lay: Mapping)
    ensures Records(rows, lay).Ok? <==> forall i :: 0 <= i < |rows| ==> RowRecord(rows[i], lay).Ok?
    ensures Records(rows, lay).Err? ==> exists i :: 0 <= i < |rows| && RowRecord(rows[i], lay) == Err(Records(rows, lay).error)
  {
    WalkSucceeds(rows, ReaderOf(lay));
  }

  /** The rows that raise are exactly the rows whose reading fails, and they fail with IndexError. */
  lemma RowsRaise(rows: seq<seq<Cell>>, lay: Mapping)
    ensures (forall i :: 0 <= i < |rows| ==> RowRecord(rows[i], lay).Ok?) <==> forall i :: 0 <= i < |rows| ==> !Raises(rows[i], lay)
    ensures forall i :: 0 <= i < |rows| && RowRecord(rows[i], lay).Err? ==> RowRecord(rows[i], lay).error == IndexError
  {
    forall i | 0 <= i < |rows| ensures RowRecord(rows[i], lay).Err? <==> Raises(rows[i], lay)
      ensures RowRecord(rows[i], lay).Err? ==> RowRecord(rows[i], lay).error == IndexError
    {
      RowRecordFacts(rows[i], lay);
    }
  }

  /** A walk that succeeds holds one record per dated row, in row order: every other row is skipped. */
  lemma {:induction false} RecordsAreDatedRows(rows: seq<seq<Cell>>, lay: Mapping)
    requires Records(rows, lay).Ok?
    ensures var rs, d := Records(rows, lay).value, DatedRows(rows);
      |rs| == |d| && forall k :: 0 <= k < |rs| ==> RecordOf(rs[k], d[k], lay)
  {
    if rows != [] {
      var init, last := rows[..|rows| - 1], rows[|rows| - 1];
      RecordsAreDatedRows(init, lay);
      RowRecordFacts(last, lay);
      var rs0, d0 := Records(init, lay).value, DatedRows(init);
      if Dated(last) {
        var r := RowRecord(last, lay).value.value;
        assert Records(rows, lay).value == rs0 + [r];
        assert DatedRows(rows) == d0 + [last];
      } else {
        assert Records(rows, lay).value == rs0;
        assert DatedRows(rows) == d0;
      }
    }
  }

  /** Every record of the walk has one value per metric column: what the monthly report needs. */
  lemma RecordsWidth(rows: seq<seq<Cell>>, lay: Mapping)
    requires Records(rows, lay).Ok?
    ensures Width(Records(rows, lay).value, |lay.metrics|)
  {
    RecordsAreDatedRows(rows, lay);
    var rs := Records(rows, lay).value;
    forall r | r in rs ensures |r.metrics| == |lay.metrics| {
      var k :| 0 <= k < |rs| && rs[k] == r;
    }
  }

  // ---------------------------------------------------------------------
  // The composite metrics

  lemma SumColumnsSnoc(nums: seq<int>, cols: seq<nat>, c: nat)
    requires SumColumns(nums, cols).Ok? && c < |nums|
    ensures var r := SumColumns(nums, cols + [c]); r.Ok? && r.value == SumColumns(nums, cols).value + nums[c]
  {
    var cs := cols + [c];
    assert cs[..|cs| - 1] == cols && cs[|cs| - 1] == c;
  }

  lemma SumOfOne(nums: seq<int>, a: nat)
    requires a < |nums|
    ensures SumColumns(nums, [a]) == Ok(nums[a])
  {
    assert [a][..0] == [];
  }

  lemma SumOfThree(nums: seq<int>, a: nat, b: nat, c: nat)
    requires a < |nums| && b < |nums| && c < |nums|
    ensures SumColumns(nums, [a, b, c]) == Ok(nums[a] + nums[b] + nums[c])
  {
    SumColumnsSnoc(nums, [], a);
    assert [] + [a] == [a];
    SumColumnsSnoc(nums, [a], b);
    assert [a] + [b] == [a, b];
    SumColumnsSnoc(nums, [a, b], c);
    assert [a, b] + [c] == [a, b, c];
  }

  lemma SumOfFour(nums: seq<int>, a: nat, b: nat, c: nat, d: nat)
    requires a < |nums| && b < |nums| && c < |nums| && d < |nums|
    ensures SumColumns(nums, [a, b, c, d]) == Ok(nums[a] + nums[b] + nums[c] + nums[d])
  {
    SumOfThree(nums, a, b, c);
    SumColumnsSnoc(nums, [a, b, c], d);
    assert [a, b, c] + [d] == [a, b, c, d];
  }

  /** Посещения is the sum of to_number over columns 4, 7, 9 and 13 of the row. */
  lemma VisitsTotal(vs: seq<int>, row: seq<Cell>)
    requires MetricsFrom(vs, row, Visits)
    ensures |row| > 13 && vs[0] == ToNumber(row[4]) + ToNumber(row[7]) + ToNumber(row[9]) + ToNumber(row[13])
  {
    var nums := Readings(row);
    assert SumColumns(nums, [4, 7, 9, 13]) == Ok(vs[0]);
    SumColumnsInRange(nums, [4, 7, 9, 13]);
    assert 13 < |nums|;
    SumOfFour(nums, 4, 7, 9, 13);
  }

  /** "Детям до 14 лет вкл." is the sum of to_number over columns 5, 6 and 7 of the row. */
  lemma ChildrenTotal(vs: seq<int>, row: seq<Cell>)
    requires MetricsFrom(vs, row, Issues)
    ensures |row| > 7 && vs[1] == ToNumber(row[5]) + ToNumber(row[6]) + ToNumber(row[7])
  {
    var nums := Readings(row);
    assert SumColumns(nums, [5, 6, 7]) == Ok(vs[1]);
    SumColumnsInRange(nums, [5, 6, 7]);
    assert 7 < |nums|;
    SumOfThree(nums, 5, 6, 7);
  }

  // ---------------------------------------------------------------------
  // What the grand total should show

  /** Metric `cols` summed over the dated rows of `rows`: the figure the grand-total row should carry. */
  function DatedTotal(rows: Grid, cols: seq<nat>): int
  {
    if rows == [] then 0
    else
      var last := rows[|rows| - 1];
      DatedTotal(rows[..|rows| - 1], cols)
        + (if Dated(last) then match SumColumns(Readings(last), cols) case Ok(v) => v case Err(_) => 0 else 0)
  }

  /** One DatedTotal per metric of the mapping. */
  function DatedTotals(rows: Grid, lay: Mapping): (t: seq<int>)
    ensures |t| == |lay.metrics| && forall j :: 0 <= j < |t| ==> t[j] == DatedTotal(rows, lay.metrics[j])
  {
    seq(|lay.metrics|, j requires 0 <= j < |lay.metrics| => DatedTotal(rows, lay.metrics[j]))
  }

  lemma TotalsAppend(rs: seq<Record>, r: Record, w: nat)
    requires Width(rs, w) && |r.metrics| == w
    ensures Width(rs + [r], w) && Totals(rs + [r], w) == AddVec(Totals(rs, w), r.metrics)
  {
    assert Metrics(rs + [r]) == Metrics(rs) + [r.metrics];
    VecSumAppend(Metrics(rs), r.metrics, w);
  }

  /** The column totals of the records are the metric totals of the dated rows. */
  lemma {:induction false} RecordsTotals(rows: Grid, lay: Mapping)
    requires Records(rows, lay).Ok?
    ensures Width(Records(rows, lay).value, |lay.metrics|)
    ensures Totals(Records(rows, lay).value, |lay.metrics|) == DatedTotals(rows, lay)
  {
    var w := |lay.metrics|;
    RecordsWidth(rows, lay);
    if rows == [] {
      assert Metrics([]) == [];
    } else {
      var init, last := rows[..|rows| - 1], rows[|rows| - 1];
      RecordsTotals(init, lay);
      RowRecordFacts(last, lay);
      var rs0 := Records(init, lay).value;
      var t0 := DatedTotals(init, lay);
      if RowRecord(last, lay).value.Some? {
        var r := RowRecord(last, lay).value.value;
        TotalsAppend(rs0, r, w);
        forall j | 0 <= j < w ensures AddVec(t0, r.metrics)[j] == DatedTotal(rows, lay.metrics[j]) {
          assert SumColumns(Readings(last), lay.metrics[j]) == Ok(r.metrics[j]);
        }
      } else {
        assert Records(rows, lay).value == rs0;
      }
    }
  }

  // ---------------------------------------------------------------------
  // The four builders

  /** What a builder returns: the path the report was saved to, and the report itself. */
  datatype Saved = Saved(path: Path, report: seq<Row>)

  const NoDateHeading := "Не найден заголовок 'Дата'"
  const NoCirculationHeading := "Не найден заголовок 'Пункт книговыдачи / период'"
  const NoColumnHeaders := "Не найдена строка с заголовками данных!"
  const NoColumnHeadersDot := "Не найдена строка с заголовками данных."
  const NoTableStart := "Не найдено начало таблицы с данными."

  /** The messages a builder can fail with are told apart by their lengths. */
  lemma MessagesDiffer()
    ensures NoDateHeading != NoColumnHeaders && NoDateHeading != NoColumnHeadersDot && NoDateHeading != NoData
    ensures NoCirculationHeading != NoTableStart && NoCirculationHeading != NoData
  {
    assert |NoData| == 25 && |NoDateHeading| == 26 && |NoCirculationHeading| == 48;
    assert |NoColumnHeaders| == 39 && |NoColumnHeadersDot| == 39 && |NoTableStart| == 36;
  }

  /**
   * What every builder does once it has its data rows: one record per
   * dated row, "Нет данных для обработки." when there is none, otherwise
   * the monthly report saved next to the workbook under the builder's tag.
   */
  function Build(located: Result<Grid, Failure>, lay: Mapping, source: Path, tag: string): Result<Saved, Failure>
  {
    match located
    case Err(e) => Err(e)
    case Ok(rows) =>
      match Records(rows, lay)
      case Err(e) => Err(e)
      case Ok(rs) =>
        if rs == [] then Err(ValueError(NoData))
        else RecordsWidth(rows, lay); Ok(Saved(OutputPath(source, tag), MonthlyReport(rs, |lay.metrics|)))
  }

  /** Build run step by step: the loop over the rows, then create_monthly_report and the save path. */
  method BuildReport(located: Result<Grid, Failure>, lay: Mapping, source: Path, tag: string) returns (r: Result<Saved, Failure>)
    ensures r == Build(located, lay, source, tag)
  {
    if located.Err? {
      return Err(located.error);
    }
    var recs := CollectRecords(located.value, lay);
    if recs.Err? {
      return Err(recs.error);
    }
    if recs.value == [] {
      return Err(ValueError(NoData));
    }
    RecordsWidth(located.value, lay);
    var report := CreateMonthlyReport(recs.value, |lay.metrics|);
    r := Ok(Saved(OutputPath(source, tag), report));
  }

  /**
   * The outcome of a builder whose data rows were found: it fails with
   * IndexError exactly when some row is too short for a cell it reads,
   * fails with "Нет данных для обработки." exactly when no row is
   * dated, and otherwise saves a report whose path carries the tag and
   * whose last row is the grand total of every metric over the dated rows.
   */
  lemma BuildOutcome(rows: Grid, lay: Mapping, source: Path, tag: string)
    requires |lay.metrics| > 0
    ensures var b := Build(Ok(rows), lay, source, tag);
      (b == Err(IndexError) <==> exists i :: 0 <= i < |rows| && Raises(rows[i], lay))
      && (b == Err(ValueError(NoData)) <==> (forall i :: 0 <= i < |rows| ==> !Raises(rows[i], lay)) && DatedRows(rows) == [])
      && (b.Ok? ==>
            (b.value.path == OutputPath(source, tag)
             && |b.value.report| >= 2
             && b.value.report[|b.value.report| - 1] == GrandTotal(DatedTotals(rows, lay))))
  {
    RecordsSucceed(rows, lay);
    RowsRaise(rows, lay);
    var recs := Records(rows, lay);
    if recs.Ok? {
      RecordsAreDatedRows(rows, lay);
    }
    if recs.Ok? && recs.value != [] {
      RecordsTotals(rows, lay);
      Layout.ReportGrandTotal(recs.value, |lay.metrics|);
    }
  }

  /** next(i for i, row in enumerate(rows) if ...): the first row `ok` accepts. */
  function FirstRow(rows: Grid, ok: seq<Cell> -> bool): (r: Option<nat>)
    ensures r.Some? ==> r.value < |rows| && ok(rows[r.value]) && forall i :: 0 <= i < r.value ==> !ok(rows[i])
    ensures r.None? ==> forall i :: 0 <= i < |rows| ==> !ok(rows[i])
  {
    if rows == [] then None
    else if ok(rows[0]) then Some(0)
    else match FirstRow(rows[1..], ok)
      case None => None
      case Some(i) => Some(i + 1)
  }

  /** The column-header row of part 1.1: "Дата" in column 1 and "Всего читателей" in column 2. */
  predicate UsersHeader(row: seq<Cell>)
  {
    |row| > 2 && row[1] == Str("Дата") && row[2] == Str("Всего читателей")
  }

  /** The column-header row of part 1.2: "Дата" in column 1. */
  predicate VisitsHeader(row: seq<Cell>)
  {
    |row| > 1 && row[1] == Str("Дата")
  }

  /**
   * The rows below the first row `isHeader` accepts (the DataFrame built
   * from data_rows[header_row + 1:]), or ValueError(msg) when no row does.
   */
  function Below(table: Grid, isHeader: seq<Cell> -> bool, msg: string): (r: Result<Grid, Failure>)
    ensures r.Err? <==> forall i :: 0 <= i < |table| ==> !isHeader(table[i])
    ensures r.Err? ==> r.error == ValueError(msg)
  {
    match FirstRow(table, isHeader)
    case None => Err(ValueError(msg))
    case Some(k) => Ok(table[k + 1..])
  }

  /** process_report_1 up to its loop: the rows below the column headers of the table headed "Дата". */
  function UsersRows(ws: Grid): Result<Grid, Failure>
  {
    match FindHeader(ws, "Дата")
    case None => Err(ValueError(NoDateHeading))
    case Some(h) => Below(Table(ws, h), UsersHeader, NoColumnHeaders)
  }

  /** process_report_2 up to its loop: every row of the sheet below the heading, blank ones included. */
  function SignUpsRows(ws: Grid): Result<Grid, Failure>
  {
    match FindHeader(ws, "Пункт книговыдачи / период")
    case None => Err(ValueError(NoCirculationHeading))
    case Some(h) => Ok(ws[h..])
  }

  /** process_report_3 up to its loop. */
  function VisitsRows(ws: Grid): Result<Grid, Failure>
  {
    match FindHeader(ws, "Дата")
    case None => Err(ValueError(NoDateHeading))
    case Some(h) => Below(Table(ws, h), VisitsHeader, NoColumnHeadersDot)
  }

  /**
   * process_report_4 up to its loop: the table that starts at the first
   * row dated like "2024-…" (the heading is only checked to be present).
   */
  function IssuesRows(ws: Grid): Result<Grid, Failure>
  {
    match FindHeader(ws, "Пункт книговыдачи")
    case None => Err(ValueError(NoCirculationHeading))
    case Some(_) =>
      match DataStart(ws, 0)
      case Err(e) => Err(e)
      case Ok(None) => Err(ValueError(NoTableStart))
      case Ok(Some(s)) => Ok(Table(ws, s))
  }

  function UsersReport(ws: Grid, source: Path): Result<Saved, Failure>
  {
    Build(UsersRows(ws), Users, source, "пользователи")
  }

  function SignUpsReport(ws: Grid, source: Path): Result<Saved, Failure>
  {
    Build(SignUpsRows(ws), SignUps, source, "запись-читателей")
  }

  function VisitsReport(ws: Grid, source: Path): Result<Saved, Failure>
  {
    Build(VisitsRows(ws), Visits, source, "посещения")
  }

  function IssuesReport(ws: Grid, source: Path): Result<Saved, Failure>
  {
    Build(IssuesRows(ws), Issues, source, "книговыдача")
  }

  /** process_report_1 up to its loop, step by step. */
  method LocateUsers(ws: Grid) returns (located: Result<Grid, Failure>)
    ensures located == UsersRows(ws)
  {
    var h := FindHeaderRow(ws, "Дата");
    if h.None? {
      return Err(ValueError(NoDateHeading));
    }
    var table := ExtractTable(ws, h.value);
    located := Below(table, UsersHeader, NoColumnHeaders);
  }

  /** process_report_2 up to its loop. */
  method LocateSignUps(ws: Grid) returns (located: Result<Grid, Failure>)
    ensures located == SignUpsRows(ws)
  {
    var h := FindHeaderRow(ws, "Пункт книговыдачи / период");
    if h.None? {
      return Err(ValueError(NoCirculationHeading));
    }
    located := Ok(ws[h.value..]);
  }

  /** process_report_3 up to its loop. */
  method LocateVisits(ws: Grid) returns (located: Result<Grid, Failure>)
    ensures located == VisitsRows(ws)
  {
    var h := FindHeaderRow(ws, "Дата");
    if h.None? {
      return Err(ValueError(NoDateHeading));
    }
    var table := ExtractTable(ws, h.value);
    located := Below(table, VisitsHeader, NoColumnHeadersDot);
  }

  /** process_report_4 up to its loop. */
  method LocateIssues(ws: Grid) returns (located: Result<Grid, Failure>)
    ensures located == IssuesRows(ws)
  {
    var h := FindHeaderRow(ws, "Пункт книговыдачи");
    if h.None? {
      return Err(ValueError(NoCirculationHeading));
    }
    var start := DataStart(ws, 0);
    if start.Err? {
      return Err(start.error);
    }
    if start.value.None? {
      return Err(ValueError(NoTableStart));
    }
    var table := ExtractTable(ws, start.value.value);
    located := Ok(table);
  }

  /** process_report_1. */
  method ProcessUsers(ws: Grid, source: Path) returns (r: Result<Saved, Failure>)
    ensures r == UsersReport(ws, source)
  {
    var located := LocateUsers(ws);
    r := BuildReport(located, Users, source, "пользователи");
  }

  /** process_report_2. */
  method ProcessSignUps(ws: Grid, source: Path) returns (r: Result<Saved, Failure>)
    ensures r == SignUpsReport(ws, source)
  {
    var located := LocateSignUps(ws);
    r := BuildReport(located, SignUps, source, "запись-читателей");
  }

  /** process_report_3. */
  method ProcessVisits(ws: Grid, source: Path) returns (r: Result<Saved, Failure>)
    ensures r == VisitsReport(ws, source)
  {
    var located := LocateVisits(ws);
    r := BuildReport(located, Visits, source, "посещения");
  }

  /** process_report_4. */
  method ProcessIssues(ws: Grid, source: Path) returns (r: Result<Saved, Failure>)
    ensures r == IssuesReport(ws, source)
  {
    var located := LocateIssues(ws);
    r := BuildReport(located, Issues, source, "книговыдача");
  }

  // ---------------------------------------------------------------------
  // What the builders promise

  /** Build passes on a failure to locate the rows; past that it fails only with IndexError or for want of data. */
  lemma BuildFailures(located: Result<Grid, Failure>, lay: Mapping, source: Path, tag: string)
    ensures located.Err? ==> Build(located, lay, source, tag) == Err(located.error)
    ensures located.Ok? && Build(located, lay, source, tag).Err? ==>
      Build(located, lay, source, tag).error == IndexError || Build(located, lay, source, tag).error == ValueError(NoData)
  {
    if located.Ok? {
      RecordsSucceed(located.value, lay);
      RowsRaise(located.value, lay);
    }
  }

  /** Part 1.1 fails for want of its heading exactly when no cell of the sheet mentions "Дата". */
  lemma UsersNeedHeading(ws: Grid, source: Path)
    ensures UsersReport(ws, source) == Err(ValueError(NoDateHeading))
      <==> forall i :: 0 <= i < |ws| ==> !Mentions(ws[i], "Дата")
  {
    MessagesDiffer();
    var located := UsersRows(ws);
    BuildFailures(located, Users, source, "пользователи");
    assert located == Err(ValueError(NoDateHeading)) <==> FindHeader(ws, "Дата").None?;
  }

  /** Part 1.2 fails for want of its heading exactly when no cell of the sheet mentions "Дата". */
  lemma VisitsNeedHeading(ws: Grid, source: Path)
    ensures VisitsReport(ws, source) == Err(ValueError(NoDateHeading))
      <==> forall i :: 0 <= i < |ws| ==> !Mentions(ws[i], "Дата")
  {
    MessagesDiffer();
    var located := VisitsRows(ws);
    BuildFailures(located, Visits, source, "посещения");
    assert located == Err(ValueError(NoDateHeading)) <==> FindHeader(ws, "Дата").None?;
  }

  /** The sign-up report fails for want of its heading exactly when no cell mentions "Пункт книговыдачи / период". */
  lemma SignUpsNeedHeading(ws: Grid, source: Path)
    ensures SignUpsReport(ws, source) == Err(ValueError(NoCirculationHeading))
      <==> forall i :: 0 <= i < |ws| ==> !Mentions(ws[i], "Пункт книговыдачи / период")
  {
    MessagesDiffer();
    var located := SignUpsRows(ws);
    BuildFailures(located, SignUps, source, "запись-читателей");
    assert located == Err(ValueError(NoCirculationHeading)) <==> FindHeader(ws, "Пункт книговыдачи / период").None?;
  }

  /**
   * The book-issue report fails with the "… / период" message exactly when
   * no cell mentions the shorter heading "Пункт книговыдачи".
   */
  lemma IssuesNeedHeading(ws: Grid, source: Path)
    ensures IssuesReport(ws, source) == Err(ValueError(NoCirculationHeading))
      <==> forall i :: 0 <= i < |ws| ==> !Mentions(ws[i], "Пункт книговыдачи")
  {
    MessagesDiffer();
    var located := IssuesRows(ws);
    BuildFailures(located, Issues, source, "книговыдача");
    assert located == Err(ValueError(NoCirculationHeading)) <==> FindHeader(ws, "Пункт книговыдачи").None?;
  }

  /** The rows below row k of the table that starts at 1-based row h: consecutive sheet rows up to a blank row or the end. */
  lemma TableTail(ws: Grid, h: nat, k: nat, rows: Grid)
    requires 1 <= h <= |ws| && k < |Table(ws, h)| && rows == Table(ws, h)[k + 1..]
    ensures RunAt(ws, h + k, rows)
  {
    TableFromShape(ws, h - 1);
    RunSuffix(ws, h - 1, Table(ws, h), k + 1);
  }

  /**
   * Part 1.1 reads only the table that holds its column headers: its data
   * rows are the rows of the sheet right below the column-header row, none
   * of them blank, up to a blank row or the end of the sheet.
   */
  lemma UsersRowsInTable(ws: Grid, h: nat, k: nat)
    requires FindHeader(ws, "Дата").Some? && FindHeader(ws, "Дата").value == h
    requires FirstRow(Table(ws, h), UsersHeader).Some? && FirstRow(Table(ws, h), UsersHeader).value == k
    ensures UsersRows(ws).Ok? && RunAt(ws, h + k, UsersRows(ws).value)
  {
    var rows := UsersRows(ws).value;
    assert rows == Table(ws, h)[k + 1..];
    TableTail(ws, h, k, rows);
  }

  /** A sheet whose dated sign-up row lies below a blank row. */
  function BlankThenDated(d: CivilDate): Grid
  {
    [[Str("Пункт книговыдачи / период")], [Empty, Empty], [Empty, DateTime(d), Int(3)]]
  }

  /** The sign-up report reads past a blank row: process_report_2 walks to the end of the sheet. */
  lemma SignUpsReadPastBlank(d: CivilDate)
    ensures SignUpsRows(BlankThenDated(d)) == Ok(BlankThenDated(d)[1..])
    ensures DatedTotals(BlankThenDated(d)[1..], SignUps) == [3]
  {
    var ws := BlankThenDated(d);
    assert Mentions(ws[0], "Пункт книговыдачи / период") by {
      assert Matches(ws[0][0], "Пункт книговыдачи / период");
    }
    var rows := ws[1..];
    assert rows == [[Empty, Empty], [Empty, DateTime(d), Int(3)]];
    BlankThenDatedTotal(d);
  }

  /** A row of None cells is not dated, so it adds nothing to a total. */
  lemma BlankRowCountsNothing(cols: seq<nat>)
    ensures DatedTotal([[Empty, Empty]], cols) == 0
  {
    var blank := [Empty, Empty];
    assert !Dated(blank) by {
      FalsyCellsNeverDate(Empty);
    }
    assert [blank][..0] == [];
  }

  /** The dated sign-up row of BlankThenDated counts 3 in column 2. */
  lemma DatedRowCounts(d: CivilDate)
    ensures Dated([Empty, DateTime(d), Int(3)])
    ensures SumColumns(Readings([Empty, DateTime(d), Int(3)]), [2]).Ok?
      && SumColumns(Readings([Empty, DateTime(d), Int(3)]), [2]).value == 3
  {
    var dated := [Empty, DateTime(d), Int(3)];
    assert ParseDate(dated[1]).Some?;
    SumOfOne(Readings(dated), 2);
  }

  lemma BlankThenDatedTotal(d: CivilDate)
    ensures DatedTotal([[Empty, Empty], [Empty, DateTime(d), Int(3)]], [2]) == 3
  {
    var rows := [[Empty, Empty], [Empty, DateTime(d), Int(3)]];
    BlankRowCountsNothing([2]);
    DatedRowCounts(d);
    assert rows[..1] == [[Empty, Empty]] && rows[1] == [Empty, DateTime(d), Int(3)];
  }

  // ---------------------------------------------------------------------
  // Where the book-issue table starts

  /**
   * Python's \w for the characters the model knows: ASCII letters and
   * digits, '_', and the letters of the Cyrillic block U+0400-U+04FF.
   * The thousands sign U+0482 and the combining marks U+0483-U+0489 in
   * that block are not word characters.
   */
  predicate IsWordChar(c: char)
  {
    IsDigit(c) || c == '_' || ('a' <= c <= 'z') || ('A' <= c <= 'Z')
    || ('\U{0400}' <= c <= '\U{0481}') || ('\U{048A}' <= c <= '\U{04FF}')
  }

  /** r'\b\d{4}-' matches at position p of s. */
  predicate YearDashAt(s: string, p: nat)
  {
    p + 5 <= |s| && (p == 0 || !IsWordChar(s[p - 1]))
    && IsDigit(s[p]) && IsDigit(s[p + 1]) && IsDigit(s[p + 2]) && IsDigit(s[p + 3]) && s[p + 4] == '-'
  }

  /** re.search(r'\b\d{4}-', s) finds a match at or after position p. */
  predicate YearDashFrom(s: string, p: nat)
    decreases |s| - p
  {
    p + 5 <= |s| && (YearDashAt(s, p) || YearDashFrom(s, p + 1))
  }

  /** The date cell of a row that starts the book-issue table: a non-empty string with a "\b\d{4}-" in it. */
  predicate StartsData(c: Cell)
  {
    c.Str? && c.text != "" && YearDashFrom(c.text, 0)
  }

  /**
   * The 1-based number of the first row from 0-based row k on whose column
   * 1 starts the table; IndexError at a row too short to have a column 1.
   */
  function DataStart(ws: Grid, k: nat): (r: Result<Option<nat>, Failure>)
    requires k <= |ws|
    ensures r.Ok? && r.value.Some? ==>
      (k + 1 <= r.value.value <= |ws|
       && |ws[r.value.value - 1]| > 1 && StartsData(ws[r.value.value - 1][1])
       && forall i :: k <= i < r.value.value - 1 ==> |ws[i]| > 1 && !StartsData(ws[i][1]))
    ensures r.Err? ==> r.error == IndexError
    ensures r == Ok(None) <==> forall i :: k <= i < |ws| ==> |ws[i]| > 1 && !StartsData(ws[i][1])
    decreases |ws| - k
  {
    if k == |ws| then Ok(None)
    else if |ws[k]| <= 1 then Err(IndexError)
    else if StartsData(ws[k][1]) then Ok(Some(k + 1))
    else DataStart(ws, k + 1)
  }

  /** The match must start a word: "12024-01-01" has four digits before a '-', yet none at a word boundary. */
  lemma NoBoundaryNoMatch()
    ensures !StartsData(Str("12024-01-01")) && StartsData(Str("2024-01-01"))
  {
    var s := "12024-01-01";
    assert !YearDashAt(s, 0) && !YearDashAt(s, 1) by {
      assert s[4] != '-' && IsWordChar(s[0]);
    }
    assert !YearDashAt(s, 2) && !YearDashAt(s, 3) && !YearDashAt(s, 4) && !YearDashAt(s, 5) && !YearDashAt(s, 6) by {
      assert s[6] != '-' && s[7] != '-' && s[9] != '-' && s[10] != '-' && s[5] == '-';
    }
    assert !YearDashFrom(s, 7);
    assert YearDashAt("2024-01-01", 0);
  }

  /**
   * A Cyrillic letter before the year hides the boundary, but the
   * thousands sign U+0482, a symbol, does not.
   */
  lemma CyrillicBoundary()
    ensures !YearDashAt("Ж2024-01-01", 1)
    ensures StartsData(Str("\U{0482}2024-01-01"))
  {
    assert IsWordChar("Ж2024-01-01"[0]);
    var s := "\U{0482}2024-01-01";
    assert !IsWordChar(s[0]);
    assert !YearDashAt(s, 0) by { assert !IsDigit(s[0]); }
    assert YearDashAt(s, 1);
  }
}
